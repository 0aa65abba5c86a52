/**
  `read_ingest_chunks` as the program runs it (agent_wrap/domain/logs/ingest.py): loops over both files,
  an accumulator that interns each value once, chunks handed over on the way.
  */
module IngestReader {
  import opened Totals
  import opened LogLines
  import opened IngestPass

  class BlobAccumulator {
    var seen: set<Content>
    var pending: seq<Content>
    var pendingBytes: nat
    ghost var emitted: set<Content>

    ghost predicate Valid(f: Format)
      reads this
    {
      pendingBytes == Sizes(f, pending)
    }

    constructor (ghost f: Format)
      ensures Valid(f) && seen == {} && pending == [] && emitted == {}
    {
      seen, pending, pendingBytes, emitted := {}, [], 0, {};
    }

    /** The pass `p` with this accumulator's content. */
    ghost function In(p: Pass): Pass
      reads this
    {
      p.(seen := seen, emitted := emitted, pending := pending)
    }

    method InternOne(f: Format, c: Content, ghost p: Pass)
      requires Valid(f)
      modifies this
      ensures Valid(f) && In(p) == Intern(old(In(p)), c)
    {
      if c !in seen {
        seen := seen + {c};
        pending := pending + [c];
        pendingBytes := pendingBytes + f.size(c);
        assert pending[..|pending| - 1] == old(pending);
      }
    }

    method InternEach(f: Format, cs: seq<Content>, ghost p: Pass)
      requires Valid(f)
      modifies this
      ensures Valid(f) && In(p) == InternAll(old(In(p)), cs)
    {
      for i := 0 to |cs|
        invariant Valid(f) && InternAll(In(p), cs[i..]) == InternAll(old(In(p)), cs)
      {
        assert cs[i..][1..] == cs[i + 1..];
        InternOne(f, cs[i], p);
      }
    }

    method Take(ghost f: Format, ghost p: Pass) returns (taken: seq<Content>)
      requires Valid(f)
      modifies this
      ensures Valid(f) && taken == old(pending)
      ensures In(p).(records := []) == HandedOver(old(In(p)))
    {
      taken := pending;
      emitted := emitted + set c | c in pending;
      pending, pendingBytes := [], 0;
    }
  }

  // ---- how far a pass has come --------------------------------------------------------------------

  function BlobsOf(chunks: seq<Chunk>): seq<Content> {
    if chunks == [] then [] else BlobsOf(chunks[..|chunks| - 1]) + chunks[|chunks| - 1].blobs
  }

  /** The index is right after every chunk so far, none of which repeated a blob; the pass is right over the last. */
  ghost predicate Progress(f: Format, db: Db, gone: set<Content>, p: Pass, chunks: seq<Chunk>, messages: Bytes,
                           strings: Bytes) {
    && PassOk(f, ApplyAll(db, chunks), gone, p, messages, strings)
    && (forall k :: 0 <= k <= |chunks| ==> DbOk(f, ApplyAll(db, chunks[..k]), gone, messages, strings))
    && Distinct(BlobsOf(chunks)) && forall c :: c in BlobsOf(chunks) <==> c in p.emitted
  }

  lemma ProgressStarts(f: Format, db: Db, gone: set<Content>, messages: Bytes, strings: Bytes)
    requires DbOk(f, db, gone, messages, strings)
    ensures Progress(f, db, gone, Start(db), [], messages, strings)
  {
    StartOk(f, db, gone, messages, strings);
  }

  lemma ProgressYields(f: Format, db: Db, gone: set<Content>, p: Pass, chunks: seq<Chunk>, messages: Bytes,
                       strings: Bytes)
    requires Progress(f, db, gone, p, chunks, messages, strings)
    ensures Progress(f, db, gone, HandedOver(p), chunks + [ChunkOf(p)], messages, strings)
    ensures ApplyAll(db, chunks + [ChunkOf(p)]) == Apply(ApplyAll(db, chunks), ChunkOf(p))
  {
    var chunks' := chunks + [ChunkOf(p)];
    assert chunks'[..|chunks|] == chunks;
    CommitOk(f, ApplyAll(db, chunks), gone, p, messages, strings);
    PrefixesOk(f, db, gone, p, chunks, messages, strings);
    DistinctAppend(BlobsOf(chunks), p.pending);
  }

  lemma PrefixesOk(f: Format, db: Db, gone: set<Content>, p: Pass, chunks: seq<Chunk>, messages: Bytes, strings: Bytes)
    requires forall k :: 0 <= k <= |chunks| ==> DbOk(f, ApplyAll(db, chunks[..k]), gone, messages, strings)
    requires DbOk(f, Apply(ApplyAll(db, chunks), ChunkOf(p)), gone, messages, strings)
    ensures var chunks' := chunks + [ChunkOf(p)];
            forall k :: 0 <= k <= |chunks'| ==> DbOk(f, ApplyAll(db, chunks'[..k]), gone, messages, strings)
  {
    var chunks' := chunks + [ChunkOf(p)];
    forall k | 0 <= k <= |chunks'|
      ensures DbOk(f, ApplyAll(db, chunks'[..k]), gone, messages, strings)
    {
      if k <= |chunks| {
        assert chunks'[..k] == chunks[..k];
      } else {
        assert chunks'[..k] == chunks' && chunks'[..|chunks|] == chunks;
      }
    }
  }

  lemma ProgressReads(f: Format, db: Db, gone: set<Content>, p: Pass, chunks: seq<Chunk>, messages: Bytes,
                      strings: Bytes)
    requires Progress(f, db, gone, p, chunks, messages, strings)
    ensures MoreLines(messages, p.offset) && |p.records| < MAX_CHUNK_RECORDS ==>
              Progress(f, db, gone, TakeLine(f, p, LineFrom(messages, p.offset)), chunks, messages, strings)
    ensures MoreLines(strings, p.stringsOffset) ==>
              Progress(f, db, gone, TakeString(f, p, LineFrom(strings, p.stringsOffset)), chunks, messages, strings)
  {
    if MoreLines(messages, p.offset) && |p.records| < MAX_CHUNK_RECORDS {
      TakeLineOk(f, ApplyAll(db, chunks), gone, p, messages, strings);
      LineEmitsNothing(f, p, LineFrom(messages, p.offset));
    }
    if MoreLines(strings, p.stringsOffset) {
      TakeStringOk(f, ApplyAll(db, chunks), gone, p, messages, strings);
    }
  }

  lemma LineEmitsNothing(f: Format, p: Pass, line: Bytes)
    ensures TakeLine(f, p, line).emitted == p.emitted
    ensures |TakeLine(f, p, line).records| <= |p.records| + 1
    ensures TakeLine(f, p, line).stringsOffset == p.stringsOffset
    ensures TakeLine(f, p, line).offset == p.offset + |line|
  {
    match f.record(line)
    case None =>
    case Some(r) => InterningKeepsRest(p.(offset := p.offset + |line|), r.values);
  }

  lemma {:induction false} InterningKeepsRest(p: Pass, cs: seq<Content>)
    ensures var q := InternAll(p, cs); q == p.(seen := q.seen, pending := q.pending)
    decreases cs
  {
    if cs != [] { InterningKeepsRest(Intern(p, cs[0]), cs[1..]); }
  }

  // ---- the loops ----------------------------------------------------------------------------------

  /** The loop variables of the pass. */
  datatype Loop = Loop(summary: Summary, records: seq<Request>, ordinal: nat, offset: nat, stringsOffset: nat)

  ghost function PassOf(blobs: BlobAccumulator, l: Loop): Pass
    reads blobs
  {
    Pass(blobs.seen, blobs.emitted, blobs.pending, l.summary, l.records, l.ordinal, l.offset, l.stringsOffset)
  }

  method ParseLine(f: Format, line: Bytes, blobs: BlobAccumulator, l: Loop) returns (isRecord: bool, l': Loop)
    requires blobs.Valid(f)
    modifies blobs
    ensures blobs.Valid(f) && PassOf(blobs, l') == TakeLine(f, old(PassOf(blobs, l)), line)
    ensures !isRecord ==> l'.records == l.records
  {
    l' := l.(offset := l.offset + |line|);
    var parsed := f.record(line);
    isRecord := parsed.Some?;
    if isRecord {
      var r := parsed.value;
      ghost var q := PassOf(blobs, l');
      InterningKeepsRest(q, r.values);
      blobs.InternEach(f, r.values, q);
      l' := l'.(summary := Observe(l.summary, r), records := l.records + [Request(l.ordinal, r)],
                ordinal := l.ordinal + 1);
    }
  }

  /** Hands over what has accumulated as one chunk. */
  method Yield(ghost f: Format, blobs: BlobAccumulator, l: Loop) returns (chunk: Chunk, l': Loop)
    requires blobs.Valid(f)
    modifies blobs
    ensures blobs.Valid(f) && chunk == ChunkOf(old(PassOf(blobs, l)))
    ensures l' == l.(records := []) && PassOf(blobs, l') == HandedOver(old(PassOf(blobs, l)))
  {
    ghost var p := PassOf(blobs, l);
    var taken := blobs.Take(f, p);
    chunk := Chunk(taken, l.records, l.summary, l.offset, l.stringsOffset);
    l' := l.(records := []);
  }

  lemma OffsetMoves(f: Format, p: Pass, line: Bytes)
    ensures TakeLine(f, p, line).offset == p.offset + |line|
  {
    match f.record(line)
    case None =>
    case Some(r) => InterningKeepsRest(p.(offset := p.offset + |line|), r.values);
  }

  /** Full, and not before the values of its last record came in. */
  ghost predicate CutInTime(f: Format, c: Chunk) {
    && 0 < |c.requests| <= MAX_CHUNK_RECORDS
    && (|c.requests| == MAX_CHUNK_RECORDS || Sizes(f, c.blobs) >= MAX_CHUNK_PAYLOAD_BYTES)
    && exists n :: 0 <= n <= |c.blobs| && Sizes(f, c.blobs[..n]) < MAX_CHUNK_PAYLOAD_BYTES
                   && forall b :: b in c.blobs[n..] ==> b in c.requests[|c.requests| - 1].record.values
  }

  ghost predicate AllCutInTime(f: Format, chunks: seq<Chunk>) {
    forall k :: 0 <= k < |chunks| ==> CutInTime(f, chunks[k])
  }

  /** All but the last, which is no fuller than they are. */
  ghost predicate WellCut(f: Format, chunks: seq<Chunk>) {
    chunks != [] ==> AllCutInTime(f, chunks[..|chunks| - 1]) && |chunks[|chunks| - 1].requests| <= MAX_CHUNK_RECORDS
  }

  lemma WellCutSoFar(f: Format, chunks: seq<Chunk>, last: Chunk)
    requires AllCutInTime(f, chunks)
    ensures WellCut(f, chunks)
    ensures |last.requests| <= MAX_CHUNK_RECORDS ==> WellCut(f, chunks + [last])
  {
    assert (chunks + [last])[..|chunks|] == chunks;
    if chunks != [] { assert CutInTime(f, chunks[|chunks| - 1]); }
  }

  lemma OneMoreCut(f: Format, chunks: seq<Chunk>, c: Chunk)
    requires AllCutInTime(f, chunks) && CutInTime(f, c)
    ensures AllCutInTime(f, chunks + [c])
  {
  }

  lemma {:induction false} InterningAppends(p: Pass, cs: seq<Content>)
    ensures var q := InternAll(p, cs);
            |p.pending| <= |q.pending| && q.pending[..|p.pending|] == p.pending
            && forall b :: b in q.pending[|p.pending|..] ==> b in cs
    decreases cs
  {
    if cs != [] {
      var n, q := |p.pending|, InternAll(p, cs);
      InterningAppends(Intern(p, cs[0]), cs[1..]);
      var more := q.pending[|Intern(p, cs[0]).pending|..];
      assert forall b :: b in cs[1..] ==> b in cs;
      assert Intern(p, cs[0]).pending[..n] == p.pending;
      assert q.pending[n..] == Intern(p, cs[0]).pending[n..] + more;
    }
  }

  /** A chunk cut at the record that filled it up. */
  lemma CutWhenFull(f: Format, p: Pass, line: Bytes)
    requires !Full(f, p) && f.record(line).Some? && Full(f, TakeLine(f, p, line))
    ensures CutInTime(f, ChunkOf(TakeLine(f, p, line)))
  {
    var r, q := f.record(line).value, TakeLine(f, p, line);
    InterningKeepsRest(p.(offset := p.offset + |line|), r.values);
    InterningAppends(p.(offset := p.offset + |line|), r.values);
    assert q.records == p.records + [Request(p.ordinal, r)];
  }

  /** One line of the messages file, and the chunk it completes, if it does. */
  method MessageStep(f: Format, messages: Bytes, blobs: BlobAccumulator, l: Loop, ghost db: Db,
                     ghost gone: set<Content>, ghost chunks: seq<Chunk>, ghost strings: Bytes)
    returns (chunk: Option<Chunk>, l': Loop)
    requires blobs.Valid(f) && Progress(f, db, gone, PassOf(blobs, l), chunks, messages, strings)
    requires MoreLines(messages, l.offset) && !Full(f, PassOf(blobs, l))
    modifies blobs
    ensures blobs.Valid(f) && !Full(f, PassOf(blobs, l')) && (chunk.Some? ==> CutInTime(f, chunk.value))
    ensures Progress(f, db, gone, PassOf(blobs, l'), if chunk.Some? then chunks + [chunk.value] else chunks,
                     messages, strings)
    ensures l'.stringsOffset == l.stringsOffset && l.offset < l'.offset <= |messages|
    ensures chunk.Some? ==> chunk.value.stringsOffset == l.stringsOffset
  {
    ghost var p := PassOf(blobs, l);
    var line := LineFrom(messages, l.offset);
    ProgressReads(f, db, gone, p, chunks, messages, strings);
    LineEmitsNothing(f, p, line);
    OffsetMoves(f, p, line);
    var isRecord;
    isRecord, l' := ParseLine(f, line, blobs, l);
    chunk := None;
    if isRecord && (|l'.records| >= MAX_CHUNK_RECORDS || blobs.pendingBytes >= MAX_CHUNK_PAYLOAD_BYTES) {
      ProgressYields(f, db, gone, PassOf(blobs, l'), chunks, messages, strings);
      CutWhenFull(f, p, line);
      var full;
      full, l' := Yield(f, blobs, l');
      chunk := Some(full);
    }
  }

  method ReadMessages(f: Format, messages: Bytes, blobs: BlobAccumulator, start: Loop,
                      ghost db: Db, ghost gone: set<Content>, ghost strings: Bytes)
    returns (chunks: seq<Chunk>, l: Loop)
    requires blobs.Valid(f) && !Full(f, PassOf(blobs, start))
    requires Progress(f, db, gone, PassOf(blobs, start), [], messages, strings)
    modifies blobs
    ensures blobs.Valid(f) && Progress(f, db, gone, PassOf(blobs, l), chunks, messages, strings)
    ensures l.offset <= |messages| && !MoreLines(messages, l.offset) && l.stringsOffset == start.stringsOffset
    ensures chunks == [] || chunks[|chunks| - 1].stringsOffset == start.stringsOffset
    ensures |l.records| < MAX_CHUNK_RECORDS && AllCutInTime(f, chunks)
  {
    chunks, l := [], start;
    while MoreLines(messages, l.offset)
      invariant blobs.Valid(f) && !Full(f, PassOf(blobs, l)) && l.stringsOffset == start.stringsOffset
      invariant AllCutInTime(f, chunks)
      invariant l.offset <= |messages| && Progress(f, db, gone, PassOf(blobs, l), chunks, messages, strings)
      invariant chunks == [] || chunks[|chunks| - 1].stringsOffset == start.stringsOffset
      decreases |messages| - l.offset
    {
      var chunk;
      chunk, l := MessageStep(f, messages, blobs, l, db, gone, chunks, strings);
      if chunk.Some? {
        OneMoreCut(f, chunks, chunk.value);
        chunks := chunks + [chunk.value];
      }
    }
  }

  method StringStep(f: Format, strings: Bytes, blobs: BlobAccumulator, l: Loop, ghost db: Db, ghost gone: set<Content>,
                    ghost chunks: seq<Chunk>, ghost messages: Bytes)
    returns (l': Loop)
    requires blobs.Valid(f) && Progress(f, db, gone, PassOf(blobs, l), chunks, messages, strings)
    requires MoreLines(strings, l.stringsOffset)
    modifies blobs
    ensures blobs.Valid(f) && Progress(f, db, gone, PassOf(blobs, l'), chunks, messages, strings)
    ensures l' == l.(stringsOffset := l'.stringsOffset) && l.stringsOffset < l'.stringsOffset <= |strings|
  {
    ghost var p := PassOf(blobs, l);
    ProgressReads(f, db, gone, p, chunks, messages, strings);
    var line := LineFrom(strings, l.stringsOffset);
    l' := l.(stringsOffset := l.stringsOffset + |line|);
    var original := f.original(line);
    if original.Some? {
      blobs.InternOne(f, original.value, PassOf(blobs, l'));
    }
    assert PassOf(blobs, l') == TakeString(f, p, line);
  }

  method ReadStrings(f: Format, strings: Bytes, blobs: BlobAccumulator, start: Loop, ghost db: Db,
                     ghost gone: set<Content>, ghost chunks: seq<Chunk>, ghost messages: Bytes)
    returns (l: Loop)
    requires blobs.Valid(f) && Progress(f, db, gone, PassOf(blobs, start), chunks, messages, strings)
    modifies blobs
    ensures blobs.Valid(f) && Progress(f, db, gone, PassOf(blobs, l), chunks, messages, strings)
    ensures l == start.(stringsOffset := l.stringsOffset)
    ensures l.stringsOffset <= |strings| && !MoreLines(strings, l.stringsOffset)
  {
    l := start;
    while MoreLines(strings, l.stringsOffset)
      invariant blobs.Valid(f) && l.stringsOffset <= |strings| && l == start.(stringsOffset := l.stringsOffset)
      invariant Progress(f, db, gone, PassOf(blobs, l), chunks, messages, strings)
      decreases |strings| - l.stringsOffset
    {
      l := StringStep(f, strings, blobs, l, db, gone, chunks, messages);
    }
  }

  /** Both files read to their ends: the index holds exactly their complete lines. */
  ghost predicate UpToDate(f: Format, db: Db, gone: set<Content>, messages: Bytes, strings: Bytes) {
    && db.rows == Numbered(Parsed(f.record, messages), 0) && db.summary == Summarized(Parsed(f.record, messages))
    && Summarizes(db.summary, Parsed(f.record, messages))
    && ValuesStored(db) && forall c :: c in Parsed(f.original, strings) ==> c in db.blobs || c in gone
  }

  lemma {:induction false} NumberedDetermines(a: seq<Record>, b: seq<Record>, from: nat)
    requires Numbered(a, from) == Numbered(b, from)
    ensures a == b
  {
    if a != [] {
      assert |a| == |b|;
      assert Numbered(a, from)[0] == Numbered(b, from)[0];
      assert Numbered(a, from)[1..] == Numbered(a[1..], from + 1);
      assert Numbered(b, from)[1..] == Numbered(b[1..], from + 1);
      NumberedDetermines(a[1..], b[1..], from + 1);
      assert a == [a[0]] + a[1..] && b == [b[0]] + b[1..];
    }
  }

  /** With nothing to commit, the watermark lags only over lines that hold no record. */
  lemma LagIsBlank(f: Format, db: Db, gone: set<Content>, p: Pass, messages: Bytes, strings: Bytes)
    requires DbOk(f, db, gone, messages, strings) && PassOk(f, db, gone, p, messages, strings) && p.records == []
    ensures Parsed(f.record, UpTo(messages, db.messagesOffset)) == Parsed(f.record, UpTo(messages, p.offset))
    ensures db.summary == p.summary
  {
    assert db.rows + [] == db.rows;
    NumberedDetermines(Parsed(f.record, UpTo(messages, db.messagesOffset)),
                       Parsed(f.record, UpTo(messages, p.offset)), 0);
  }

  lemma NothingLeftToRead(f: Format, db: Db, gone: set<Content>, p: Pass, messages: Bytes, strings: Bytes)
    requires PassOk(f, db, gone, p, messages, strings)
    requires !MoreLines(messages, p.offset) && !MoreLines(strings, p.stringsOffset)
    ensures UpToDate(f, Apply(db, ChunkOf(p)), gone, messages, strings)
    ensures DbOk(f, db, gone, messages, strings) && p.records == [] && p.stringsOffset == db.stringsOffset ==>
              UpToDate(f, db, gone, messages, strings)
  {
    CommitOk(f, db, gone, p, messages, strings);
    AllRead(f.record, messages, p.offset);
    AllRead(f.original, strings, p.stringsOffset);
    SummaryMeans(Parsed(f.record, messages));
    if DbOk(f, db, gone, messages, strings) && p.records == [] {
      LagIsBlank(f, db, gone, p, messages, strings);
    }
  }

  /**
    The chunks of one undisturbed pass: after each of them the index is right as far as it goes, none repeats
    a blob, and after the last the index is what reading both files from scratch would make it. All but the last
    are full, and were cut as soon as they were.
    */
  method ReadIngestChunks(f: Format, messages: Bytes, strings: Bytes, summary: Summary, messagesOffset: nat,
                          stringsOffset: nat, ghost db: Db, ghost gone: set<Content>)
    returns (chunks: seq<Chunk>)
    requires DbOk(f, db, gone, messages, strings)
    requires (summary, messagesOffset, stringsOffset) == (db.summary, db.messagesOffset, db.stringsOffset)
    ensures forall k :: 0 <= k <= |chunks| ==> DbOk(f, ApplyAll(db, chunks[..k]), gone, messages, strings)
    ensures Distinct(BlobsOf(chunks))
    ensures UpToDate(f, ApplyAll(db, chunks), gone, messages, strings)
    ensures WellCut(f, chunks)
  {
    var blobs := new BlobAccumulator(f);
    var l := Loop(summary, [], summary.count, messagesOffset, stringsOffset);
    ProgressStarts(f, db, gone, messages, strings);
    chunks, l := ReadMessages(f, messages, blobs, l, db, gone, strings);
    l := ReadStrings(f, strings, blobs, l, db, gone, chunks, messages);
    ghost var p := PassOf(blobs, l);
    WellCutSoFar(f, chunks, ChunkOf(p));
    NothingLeftToRead(f, ApplyAll(db, chunks), gone, p, messages, strings);
    if l.records == [] && blobs.pendingBytes == 0 && l.stringsOffset == stringsOffset {
      assert chunks[..|chunks|] == chunks;
      return;
    }
    ProgressYields(f, db, gone, p, chunks, messages, strings);
    var chunk;
    chunk, l := Yield(f, blobs, l);
    chunks := chunks + [chunk];
  }
}
