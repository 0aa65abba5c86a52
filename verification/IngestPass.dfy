/**
  One ingest pass over a session's two log files (agent_wrap/domain/logs/ingest.py), and the index it
  brings up to date one committed chunk at a time.
  */
module IngestPass {
  import opened Totals
  import opened LogLines

  const MAX_CHUNK_RECORDS := 200
  const MAX_CHUNK_PAYLOAD_BYTES := 8 * 1024 * 1024

  /** A value's canonical bytes, which also stand for its content address. */
  type Content = string

  /** What a record comes down to: the values it interns, in that order, and what the summary looks at. */
  datatype Record = Record(values: seq<Content>, error: Option<Content>, end: Option<int>, model: Option<string>,
                           alias: Option<string>, title: Option<string>)

  datatype Request = Request(ordinal: nat, record: Record)

  /**
    How lines read: the record of a message line, the string of a line whose digest matches its pointer, the
    encoded size of a value, and the strings whose pointers its text quotes.
    */
  datatype Format = Format(record: Bytes -> Option<Record>, original: Bytes -> Option<Content>,
                           size: Content -> nat, quotes: Content -> set<Content>)

  datatype Summary = Summary(count: nat, lastEvent: Option<int>, models: set<string>, alias: Option<string>,
                             title: Option<string>)

  const NO_RECORDS := Summary(0, None, {}, None, None)

  function Given(s: Option<string>, otherwise: Option<string>): Option<string> {
    if s.Some? && s.value != "" then s else otherwise
  }

  function Observe(s: Summary, r: Record): Summary {
    Summary(s.count + 1, if r.end.Some? then r.end else s.lastEvent,
            s.models + (if r.model.Some? then {r.model.value} else {}),
            Given(r.alias, s.alias), Given(r.title, s.title))
  }

  function Summarized(rs: seq<Record>): Summary {
    if rs == [] then NO_RECORDS else Observe(Summarized(rs[..|rs| - 1]), rs[|rs| - 1])
  }

  // ---- what a summary says of its records ---------------------------------------------------------

  function EndOf(r: Record): Option<int> {
    r.end
  }

  function AliasOf(r: Record): Option<string> {
    if r.alias == Some("") then None else r.alias
  }

  function TitleOf(r: Record): Option<string> {
    if r.title == Some("") then None else r.title
  }

  /** `found` is what the last record that says anything says; nothing iff none does. */
  ghost predicate IsLast<T(!new)>(rs: seq<Record>, says: Record -> Option<T>, found: Option<T>) {
    match found
    case None => forall k :: 0 <= k < |rs| ==> says(rs[k]) == None
    case Some(_) =>
      exists k :: 0 <= k < |rs| && says(rs[k]) == found && forall j :: k < j < |rs| ==> says(rs[j]) == None
  }

  /** The session's five summary columns, in terms of its records alone. */
  ghost predicate Summarizes(s: Summary, rs: seq<Record>) {
    && s.count == |rs|
    && IsLast(rs, EndOf, s.lastEvent) && IsLast(rs, AliasOf, s.alias) && IsLast(rs, TitleOf, s.title)
    && forall m :: m in s.models <==> exists k :: 0 <= k < |rs| && rs[k].model == Some(m)
  }

  lemma StillLast<T(!new)>(rs: seq<Record>, says: Record -> Option<T>, found: Option<T>, r: Record)
    requires IsLast(rs, says, found)
    ensures IsLast(rs + [r], says, if says(r).Some? then says(r) else found)
  {
    if says(r).Some? {
      assert (rs + [r])[|rs|] == r;
    } else if found.Some? {
      var k :| 0 <= k < |rs| && says(rs[k]) == found && forall j :: k < j < |rs| ==> says(rs[j]) == None;
      assert (rs + [r])[k] == rs[k];
    }
  }

  lemma StillTheModels(rs: seq<Record>, models: set<string>, r: Record)
    requires forall m :: m in models <==> exists k :: 0 <= k < |rs| && rs[k].model == Some(m)
    ensures forall m :: m in models + (if r.model.Some? then {r.model.value} else {})
              <==> exists k :: 0 <= k < |rs + [r]| && (rs + [r])[k].model == Some(m)
  {
    var all := rs + [r];
    assert all[|rs|] == r && forall k :: 0 <= k < |rs| ==> all[k] == rs[k];
  }

  /**
    A session is dated by its last dated record, carries the last alias and title given, and every model in it:
    the fold taken record by record, pass after pass, keeps exactly that.
    */
  lemma {:induction false} SummaryMeans(rs: seq<Record>)
    ensures Summarizes(Summarized(rs), rs)
  {
    if rs != [] {
      var before, r := rs[..|rs| - 1], rs[|rs| - 1];
      SummaryMeans(before);
      assert before + [r] == rs;
      StillLast(before, EndOf, Summarized(before).lastEvent, r);
      StillLast(before, AliasOf, Summarized(before).alias, r);
      StillLast(before, TitleOf, Summarized(before).title, r);
      StillTheModels(before, Summarized(before).models, r);
    }
  }

  function Numbered(rs: seq<Record>, from: nat): (r: seq<Request>)
    ensures |r| == |rs|
  {
    if rs == [] then [] else [Request(from, rs[0])] + Numbered(rs[1..], from + 1)
  }

  /** One session's rows, and the blobs of the whole store. */
  datatype Db = Db(rows: seq<Request>, blobs: set<Content>, summary: Summary, messagesOffset: nat, stringsOffset: nat)

  datatype Chunk = Chunk(blobs: seq<Content>, requests: seq<Request>, summary: Summary, messagesOffset: nat,
                         stringsOffset: nat)

  /** An alias or title found earlier is not erased. */
  function Coalesce(a: Option<string>, b: Option<string>): Option<string> {
    if a.Some? then a else b
  }

  /** `ingest_chunk`: one transaction. */
  function Apply(db: Db, c: Chunk): Db {
    Db(db.rows + c.requests, db.blobs + (set b | b in c.blobs),
       c.summary.(alias := Coalesce(c.summary.alias, db.summary.alias),
                  title := Coalesce(c.summary.title, db.summary.title)),
       c.messagesOffset, c.stringsOffset)
  }

  function ApplyAll(db: Db, cs: seq<Chunk>): Db {
    if cs == [] then db else Apply(ApplyAll(db, cs[..|cs| - 1]), cs[|cs| - 1])
  }

  // ---- the pass on values -------------------------------------------------------------------------

  /** `emitted` is what earlier chunks of the pass carried; nothing reads it. */
  datatype Pass = Pass(seen: set<Content>, emitted: set<Content>, pending: seq<Content>, summary: Summary,
                       records: seq<Request>, ordinal: nat, offset: nat, stringsOffset: nat)

  function Start(db: Db): Pass {
    Pass({}, {}, [], db.summary, [], db.summary.count, db.messagesOffset, db.stringsOffset)
  }

  function Intern(p: Pass, c: Content): Pass {
    if c in p.seen then p else p.(seen := p.seen + {c}, pending := p.pending + [c])
  }

  function InternAll(p: Pass, cs: seq<Content>): Pass
    decreases cs
  {
    if cs == [] then p else InternAll(Intern(p, cs[0]), cs[1..])
  }

  function TakeLine(f: Format, p: Pass, line: Bytes): Pass {
    var q := p.(offset := p.offset + |line|);
    match f.record(line)
    case None => q
    case Some(r) =>
      InternAll(q, r.values).(summary := Observe(p.summary, r), records := p.records + [Request(p.ordinal, r)],
                              ordinal := p.ordinal + 1)
  }

  function TakeString(f: Format, p: Pass, line: Bytes): Pass {
    var q := p.(stringsOffset := p.stringsOffset + |line|);
    match f.original(line)
    case None => q
    case Some(c) => Intern(q, c)
  }

  function Sizes(f: Format, cs: seq<Content>): nat {
    if cs == [] then 0 else Sizes(f, cs[..|cs| - 1]) + f.size(cs[|cs| - 1])
  }

  predicate Full(f: Format, p: Pass) {
    |p.records| >= MAX_CHUNK_RECORDS || Sizes(f, p.pending) >= MAX_CHUNK_PAYLOAD_BYTES
  }

  function ChunkOf(p: Pass): Chunk {
    Chunk(p.pending, p.records, p.summary, p.offset, p.stringsOffset)
  }

  function HandedOver(p: Pass): Pass {
    p.(emitted := p.emitted + (set c | c in p.pending), pending := [], records := [])
  }

  // ---- what holds of the index, and of a pass over it ---------------------------------------------

  /** The rows are the records of the complete lines read, numbered from 0, and nothing else. */
  ghost predicate RowsOk(f: Format, rows: seq<Request>, summary: Summary, read: Bytes) {
    && Boundary(read) && rows == Numbered(Parsed(f.record, read), 0)
    && summary == Summarized(Parsed(f.record, read))
  }

  /** Every value a row points at is stored. */
  ghost predicate ValuesStored(db: Db) {
    forall i, v :: 0 <= i < |db.rows| && v in db.rows[i].record.values ==> v in db.blobs
  }

  /** Every string read is stored, or was swept out since. */
  ghost predicate StringsOk(f: Format, stored: set<Content>, gone: set<Content>, read: Bytes) {
    Boundary(read) && forall c :: c in Parsed(f.original, read) ==> c in stored || c in gone
  }

  ghost predicate DbOk(f: Format, db: Db, gone: set<Content>, messages: Bytes, strings: Bytes) {
    && db.messagesOffset <= |messages| && db.stringsOffset <= |strings| && ValuesStored(db)
    && RowsOk(f, db.rows, db.summary, UpTo(messages, db.messagesOffset))
    && StringsOk(f, db.blobs, gone, UpTo(strings, db.stringsOffset))
  }

  /** What was seen is either on its way or committed already, and nothing is on its way twice. */
  ghost predicate SeenOk(db: Db, p: Pass) {
    && Distinct(p.pending) && (forall c :: c in p.pending ==> c in p.seen && c !in p.emitted)
    && (forall c :: c in p.emitted ==> c in p.seen && c in db.blobs)
    && forall c :: c in p.seen ==> c in p.emitted || c in p.pending
  }

  ghost predicate TakenOk(p: Pass) {
    && (forall i, v :: 0 <= i < |p.records| && v in p.records[i].record.values ==> v in p.seen)
    && |p.records| <= MAX_CHUNK_RECORDS
  }

  ghost predicate PassOk(f: Format, db: Db, gone: set<Content>, p: Pass, messages: Bytes, strings: Bytes) {
    && p.offset <= |messages| && p.stringsOffset <= |strings|
    && ValuesStored(db) && SeenOk(db, p) && TakenOk(p)
    && RowsOk(f, db.rows + p.records, p.summary, UpTo(messages, p.offset)) && p.ordinal == |db.rows + p.records|
    && StringsOk(f, db.blobs + p.seen, gone, UpTo(strings, p.stringsOffset))
    && (db.summary.alias.Some? ==> p.summary.alias.Some?) && (db.summary.title.Some? ==> p.summary.title.Some?)
  }

  lemma {:induction false} SummaryCounts(rs: seq<Record>)
    ensures Summarized(rs).count == |rs|
  {
    if rs != [] { SummaryCounts(rs[..|rs| - 1]); }
  }

  lemma StartOk(f: Format, db: Db, gone: set<Content>, messages: Bytes, strings: Bytes)
    requires DbOk(f, db, gone, messages, strings)
    ensures PassOk(f, db, gone, Start(db), messages, strings)
  {
    SummaryCounts(Parsed(f.record, UpTo(messages, db.messagesOffset)));
    assert db.rows + [] == db.rows;
    assert db.blobs + {} == db.blobs;
  }

  lemma {:induction false} InternAllKeeps(db: Db, p: Pass, cs: seq<Content>)
    requires SeenOk(db, p)
    ensures var q := InternAll(p, cs);
            && SeenOk(db, q) && p.seen <= q.seen && (forall c :: c in cs ==> c in q.seen)
            && q == p.(seen := q.seen, pending := q.pending)
    decreases cs
  {
    if cs != [] {
      InternKeeps(db, p, cs[0]);
      InternAllKeeps(db, Intern(p, cs[0]), cs[1..]);
      assert forall c :: c in cs ==> c == cs[0] || c in cs[1..];
    }
  }

  lemma InternKeeps(db: Db, p: Pass, c: Content)
    requires SeenOk(db, p)
    ensures var q := Intern(p, c);
            SeenOk(db, q) && q.seen == p.seen + {c} && q == p.(seen := q.seen, pending := q.pending)
  {
    if c !in p.seen {
      DistinctAppend(p.pending, [c]);
    }
  }

  lemma {:induction false} NumberedAppend(rs: seq<Record>, r: Record, from: nat)
    ensures Numbered(rs + [r], from) == Numbered(rs, from) + [Request(from + |rs|, r)]
  {
    if rs == [] {
      assert [r][1..] == [] && rs + [r] == [r];
    } else {
      assert (rs + [r])[1..] == rs[1..] + [r];
      NumberedAppend(rs[1..], r, from + 1);
    }
  }

  /** One more complete line read: a record is numbered and observed, anything else only passed over. */
  lemma RowsNext(f: Format, rows: seq<Request>, summary: Summary, read: Bytes, line: Bytes)
    requires RowsOk(f, rows, summary, read) && LineLength(line) == |line| > 0
    ensures f.record(line).None? ==> RowsOk(f, rows, summary, read + line)
    ensures forall r :: f.record(line) == Some(r) ==>
              RowsOk(f, rows + [Request(|rows|, r)], Observe(summary, r), read + line)
  {
    AppendLine(f.record, read, line);
    RowsAre(f, rows, summary, read, line, Parsed(f.record, read), Parsed(f.record, read + line));
  }

  lemma RowsAre(f: Format, rows: seq<Request>, summary: Summary, read: Bytes, line: Bytes, rs: seq<Record>,
                rs': seq<Record>)
    requires rs' == rs + OfLine(f.record, line) && rows == Numbered(rs, 0) && summary == Summarized(rs)
    ensures f.record(line).None? ==> rows == Numbered(rs', 0) && summary == Summarized(rs')
    ensures forall r :: f.record(line) == Some(r) ==>
              rows + [Request(|rows|, r)] == Numbered(rs', 0) && Observe(summary, r) == Summarized(rs')
  {
    match f.record(line)
    case None => assert rs + [] == rs;
    case Some(r) =>
      NumberedAppend(rs, r, 0);
      SummarizedAppend(rs, r);
  }

  lemma SummarizedAppend(rs: seq<Record>, r: Record)
    ensures Summarized(rs + [r]) == Observe(Summarized(rs), r)
  {
    assert (rs + [r])[..|rs|] == rs;
  }

  lemma TakeLineOk(f: Format, db: Db, gone: set<Content>, p: Pass, messages: Bytes, strings: Bytes)
    requires PassOk(f, db, gone, p, messages, strings) && MoreLines(messages, p.offset)
    requires |p.records| < MAX_CHUNK_RECORDS
    ensures PassOk(f, db, gone, TakeLine(f, p, LineFrom(messages, p.offset)), messages, strings)
  {
    NextLine(messages, p.offset);
    LineOk(f, db, gone, p, messages, strings, LineFrom(messages, p.offset));
  }

  lemma LineOk(f: Format, db: Db, gone: set<Content>, p: Pass, messages: Bytes, strings: Bytes, line: Bytes)
    requires PassOk(f, db, gone, p, messages, strings) && |p.records| < MAX_CHUNK_RECORDS
    requires LineLength(line) == |line| > 0 && p.offset + |line| <= |messages|
    requires UpTo(messages, p.offset + |line|) == UpTo(messages, p.offset) + line
    ensures PassOk(f, db, gone, TakeLine(f, p, line), messages, strings)
  {
    RowsNext(f, db.rows + p.records, p.summary, UpTo(messages, p.offset), line);
    match f.record(line)
    case None => OtherLineOk(f, db, gone, p, messages, strings, line);
    case Some(r) => RecordLineOk(f, db, gone, p, messages, strings, line, r);
  }

  lemma OtherLineOk(f: Format, db: Db, gone: set<Content>, p: Pass, messages: Bytes, strings: Bytes, line: Bytes)
    requires PassOk(f, db, gone, p, messages, strings) && f.record(line).None? && p.offset + |line| <= |messages|
    requires RowsOk(f, db.rows + p.records, p.summary, UpTo(messages, p.offset + |line|))
    ensures PassOk(f, db, gone, TakeLine(f, p, line), messages, strings)
  {
  }

  lemma RecordLineOk(f: Format, db: Db, gone: set<Content>, p: Pass, messages: Bytes, strings: Bytes, line: Bytes,
                     r: Record)
    requires PassOk(f, db, gone, p, messages, strings) && |p.records| < MAX_CHUNK_RECORDS
    requires f.record(line) == Some(r) && p.offset + |line| <= |messages|
    requires RowsOk(f, (db.rows + p.records) + [Request(p.ordinal, r)], Observe(p.summary, r),
                    UpTo(messages, p.offset + |line|))
    ensures PassOk(f, db, gone, TakeLine(f, p, line), messages, strings)
  {
    InternAllKeeps(db, p.(offset := p.offset + |line|), r.values);
    Append3(db.rows, p.records, [Request(p.ordinal, r)]);
    RecordTaken(f, db, gone, p, line, r, UpTo(strings, p.stringsOffset));
  }

  lemma RecordTaken(f: Format, db: Db, gone: set<Content>, p: Pass, line: Bytes, r: Record, read: Bytes)
    requires TakenOk(p) && |p.records| < MAX_CHUNK_RECORDS && f.record(line) == Some(r)
    requires StringsOk(f, db.blobs + p.seen, gone, read)
    requires var q := InternAll(p.(offset := p.offset + |line|), r.values);
             p.seen <= q.seen && (forall v :: v in r.values ==> v in q.seen) && q.records == p.records
    ensures var q := TakeLine(f, p, line); TakenOk(q) && StringsOk(f, db.blobs + q.seen, gone, read)
  {
  }

  lemma TakeStringOk(f: Format, db: Db, gone: set<Content>, p: Pass, messages: Bytes, strings: Bytes)
    requires PassOk(f, db, gone, p, messages, strings) && MoreLines(strings, p.stringsOffset)
    ensures PassOk(f, db, gone, TakeString(f, p, LineFrom(strings, p.stringsOffset)), messages, strings)
  {
    NextLine(strings, p.stringsOffset);
    StringLineOk(f, db, gone, p, messages, strings, LineFrom(strings, p.stringsOffset));
  }

  lemma StringLineOk(f: Format, db: Db, gone: set<Content>, p: Pass, messages: Bytes, strings: Bytes, line: Bytes)
    requires PassOk(f, db, gone, p, messages, strings)
    requires LineLength(line) == |line| > 0 && p.stringsOffset + |line| <= |strings|
    requires UpTo(strings, p.stringsOffset + |line|) == UpTo(strings, p.stringsOffset) + line
    ensures PassOk(f, db, gone, TakeString(f, p, line), messages, strings)
  {
    var read := UpTo(strings, p.stringsOffset);
    match f.original(line)
    case None =>
      StringsOkNext(f, db.blobs + p.seen, gone, read, line, db.blobs + p.seen);
      NoStringOk(f, db, gone, p, messages, strings, line);
    case Some(c) =>
      StringsOkNext(f, db.blobs + p.seen, gone, read, line, db.blobs + (p.seen + {c}));
      OriginalOk(f, db, gone, p, messages, strings, line, c);
  }

  lemma NoStringOk(f: Format, db: Db, gone: set<Content>, p: Pass, messages: Bytes, strings: Bytes, line: Bytes)
    requires PassOk(f, db, gone, p, messages, strings) && f.original(line).None?
    requires p.stringsOffset + |line| <= |strings|
    requires StringsOk(f, db.blobs + p.seen, gone, UpTo(strings, p.stringsOffset + |line|))
    ensures PassOk(f, db, gone, TakeString(f, p, line), messages, strings)
  {
  }

  lemma OriginalOk(f: Format, db: Db, gone: set<Content>, p: Pass, messages: Bytes, strings: Bytes, line: Bytes,
                   c: Content)
    requires PassOk(f, db, gone, p, messages, strings) && f.original(line) == Some(c)
    requires p.stringsOffset + |line| <= |strings|
    requires StringsOk(f, db.blobs + (p.seen + {c}), gone, UpTo(strings, p.stringsOffset + |line|))
    ensures PassOk(f, db, gone, TakeString(f, p, line), messages, strings)
  {
    InternKeeps(db, p.(stringsOffset := p.stringsOffset + |line|), c);
  }

  lemma StringsOkNext(f: Format, stored: set<Content>, gone: set<Content>, read: Bytes, line: Bytes,
                      stored': set<Content>)
    requires StringsOk(f, stored, gone, read) && LineLength(line) == |line| > 0 && stored <= stored'
    requires forall c :: f.original(line) == Some(c) ==> c in stored'
    ensures StringsOk(f, stored', gone, read + line)
  {
    AppendLine(f.original, read, line);
  }

  /** Committing a chunk keeps the index right, and the pass right over the new index. */
  lemma CommitOk(f: Format, db: Db, gone: set<Content>, p: Pass, messages: Bytes, strings: Bytes)
    requires PassOk(f, db, gone, p, messages, strings)
    ensures var db' := Apply(db, ChunkOf(p));
            && DbOk(f, db', gone, messages, strings) && PassOk(f, db', gone, HandedOver(p), messages, strings)
            && db'.rows == db.rows + p.records && db.blobs <= db'.blobs && db'.summary == p.summary
  {
    var db' := Apply(db, ChunkOf(p));
    assert db'.rows + [] == db'.rows;
    ValuesArrive(db, p);
    assert forall c :: c in p.seen ==> c in db'.blobs;
  }

  lemma ValuesArrive(db: Db, p: Pass)
    requires ValuesStored(db) && SeenOk(db, p) && TakenOk(p)
    ensures ValuesStored(Apply(db, ChunkOf(p)))
  {
    var db' := Apply(db, ChunkOf(p));
    forall i, v | 0 <= i < |db'.rows| && v in db'.rows[i].record.values
      ensures v in db'.blobs
    {
      if i < |db.rows| { assert db'.rows[i] == db.rows[i]; } else { assert db'.rows[i] == p.records[i - |db.rows|]; }
    }
  }
}
