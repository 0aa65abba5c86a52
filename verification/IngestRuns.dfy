/** Ingest over whole runs: whatever the interleaving, what a completed pass leaves behind. */
module IngestRuns {
  import opened Totals
  import opened LogLines
  import opened IngestPass
  import opened IngestReader
  import opened BlobSweep
  import opened IngestProtocol
  import opened IngestSafety

  lemma {:induction false} RunKeepsInv(f: Format, s: State, run: seq<Action>)
    requires Inv(f, s) && ValidRun(f, s, run)
    ensures Inv(f, After(f, s, run))
    decreases run
  {
    if run != [] {
      StepKeepsInv(f, s, run[0]);
      RunKeepsInv(f, Next(f, s, run[0]), run[1..]);
    }
  }

  /** Some run leads here from an empty index and empty files. */
  ghost predicate Occurs(f: Format, s: State) {
    exists run :: ValidRun(f, Init(), run) && After(f, Init(), run) == s
  }

  lemma OccursInv(f: Format, s: State)
    requires Occurs(f, s)
    ensures Inv(f, s)
  {
    var run :| ValidRun(f, Init(), run) && After(f, Init(), run) == s;
    InitInv(f);
    RunKeepsInv(f, Init(), run);
  }

  // ---- at every moment ----------------------------------------------------------------------------

  /**
    Whenever the index is looked at, its rows are the first so many records of the file, numbered from 0,
    the summary says of exactly those what a summary should, and every value a row points at is stored.
    */
  lemma RowsAreAPrefix(f: Format, s: State)
    requires Occurs(f, s) && !s.replaced
    ensures s.db.rows <= Numbered(Parsed(f.record, s.messages), 0)
    ensures |s.db.rows| <= |Parsed(f.record, s.messages)|
    ensures forall i :: 0 <= i < |s.db.rows| ==> s.db.rows[i] == Request(i, Parsed(f.record, s.messages)[i])
    ensures s.db.summary == Summarized(Parsed(f.record, s.messages)[..|s.db.rows|])
    ensures Summarizes(s.db.summary, Parsed(f.record, s.messages)[..|s.db.rows|])
    ensures ValuesStored(s.db)
  {
    OccursInv(f, s);
    ReadIsAPrefix(f, s.messages, s.db.messagesOffset);
    SummaryMeans(Parsed(f.record, s.messages)[..|s.db.rows|]);
    NumberedFrom(Parsed(f.record, s.messages), 0);
  }

  lemma {:induction false} NumberedFrom(rs: seq<Record>, from: nat)
    ensures forall i :: 0 <= i < |rs| ==> Numbered(rs, from)[i] == Request(from + i, rs[i])
  {
    if rs != [] { NumberedFrom(rs[1..], from + 1); }
  }

  lemma ReadIsAPrefix(f: Format, file: Bytes, offset: nat)
    requires offset <= |file| && Boundary(UpTo(file, offset))
    ensures var read, all := Parsed(f.record, UpTo(file, offset)), Parsed(f.record, file);
            |read| <= |all| && all[..|read|] == read && Numbered(read, 0) <= Numbered(all, 0)
  {
    var read, rest := UpTo(file, offset), file[offset..];
    assert file == read + rest;
    ParsedAppend(f.record, read, rest);
    NumberedPrefix(Parsed(f.record, read), Parsed(f.record, rest), 0);
  }

  lemma {:induction false} NumberedPrefix(a: seq<Record>, b: seq<Record>, from: nat)
    ensures Numbered(a, from) <= Numbered(a + b, from)
  {
    if a == [] {
      assert a + b == b;
    } else {
      assert (a + b)[1..] == a[1..] + b;
      NumberedPrefix(a[1..], b, from + 1);
    }
  }

  /** What a pass has interned is stored already or on its way, and nothing on its way was sent before. */
  lemma InternedOncePerPass(f: Format, s: State)
    requires Occurs(f, s) && !s.replaced && InPass(s.phase)
    ensures var p := s.phase.pass;
            && (forall c :: c in p.seen ==> c in s.db.blobs || c in p.pending)
            && Distinct(p.pending) && forall c :: c in p.pending ==> c !in p.emitted
  {
    OccursInv(f, s);
  }

  // ---- when a pass completes ----------------------------------------------------------------------

  /**
    Incremental is batch: however lines, commits, writes and crashes interleaved, a completed pass leaves exactly
    the records of the complete lines the file had when the pass ran out of them, as one pass from scratch would.
    */
  lemma CompletedPassIsExact(f: Format, s: State)
    requires Occurs(f, s) && !s.replaced && Enabled(f, s, Finish)
    ensures var s' := Next(f, s, Finish);
            && s'.db.rows == Numbered(Parsed(f.record, s.phase.read), 0)
            && s'.db.summary == Summarized(Parsed(f.record, s.phase.read))
            && Summarizes(s'.db.summary, Parsed(f.record, s.phase.read))
            && ValuesStored(s'.db)
  {
    OccursInv(f, s);
    AllRead(f.record, s.phase.read, s.phase.pass.offset);
    SummaryMeans(Parsed(f.record, s.phase.read));
    if NothingNew(f, s.db, s.phase.pass) {
      NothingNewIsExact(f, s);
    } else {
      CommitOk(f, s.db, s.gone, s.phase.pass, s.messages, s.strings);
    }
  }

  lemma NothingNewIsExact(f: Format, s: State)
    requires Inv(f, s) && !s.replaced && s.phase.Closing? && NothingNew(f, s.db, s.phase.pass)
    ensures RowsOk(f, s.db.rows, s.db.summary, UpTo(s.messages, s.phase.pass.offset))
  {
    LagIsBlank(f, s.db, s.gone, s.phase.pass, s.messages, s.strings);
    assert s.db.rows + [] == s.db.rows;
  }

  /** If a pass leaves the watermark behind where it read to, there is no record in between. */
  lemma WatermarkLagsOverBlanksOnly(f: Format, s: State)
    requires Occurs(f, s) && !s.replaced && Enabled(f, s, Finish)
    ensures var db', p := Next(f, s, Finish).db, s.phase.pass;
            && db'.messagesOffset <= |s.messages| && p.offset <= |s.messages| && db'.stringsOffset <= |s.strings|
            && Parsed(f.record, UpTo(s.messages, db'.messagesOffset)) == Parsed(f.record, UpTo(s.messages, p.offset))
            && Parsed(f.original, UpTo(s.strings, db'.stringsOffset)) == Parsed(f.original, s.strings)
  {
    OccursInv(f, s);
    NoMoreStrings(s, s.phase.pass.stringsOffset);
    if NothingNew(f, s.db, s.phase.pass) { LagIsBlank(f, s.db, s.gone, s.phase.pass, s.messages, s.strings); }
    AllRead(f.original, s.strings, s.phase.pass.stringsOffset);
  }

  lemma NoMoreStrings(s: State, offset: nat)
    requires !MoreStrings(s, offset) && offset <= |s.strings| && (!s.hasStrings ==> s.strings == "")
    ensures !MoreLines(s.strings, offset)
  {
    if !s.hasStrings { assert s.strings[offset..] == ""; }
  }

  /** Every pointer a stored row quotes is stored, or its string was swept out from under the session. */
  lemma PointersResolveUnlessSwept(f: Format, s: State)
    requires Occurs(f, s) && !s.replaced && Enabled(f, s, Finish)
    ensures var s' := Next(f, s, Finish);
            forall i, c :: 0 <= i < |s'.db.rows| && c in QuotesOf(f, s'.db.rows[i].record) ==>
              c in s'.db.blobs || c in s'.gone
  {
    var s' := Next(f, s, Finish);
    OccursInv(f, s);
    CompletedPassIsExact(f, s);
    WatermarkLagsOverBlanksOnly(f, s);
    FinishKeeps(f, s);
    forall i, c | 0 <= i < |s'.db.rows| && c in QuotesOf(f, s'.db.rows[i].record)
      ensures c in s'.db.blobs || c in s'.gone
    {
      NumberedFrom(Parsed(f.record, s.phase.read), 0);
      assert s'.db.rows[i].record in Parsed(f.record, s.phase.read);
    }
  }

  /** So with no such sweep, all of them resolve. */
  lemma PointersResolve(f: Format, s: State)
    requires Occurs(f, s) && !s.replaced && s.gone == {} && Enabled(f, s, Finish)
    ensures var db := Next(f, s, Finish).db;
            forall i, c :: 0 <= i < |db.rows| && c in QuotesOf(f, db.rows[i].record) ==> c in db.blobs
  {
    PointersResolveUnlessSwept(f, s);
  }

  /**
    Every string of the strings file is stored after a completed pass, or was swept. So a pointer inside another
    string's text, which nobody promises to have been written first, resolves exactly as far as its string was
    ever written.
    */
  lemma StringsReadAreStored(f: Format, s: State)
    requires Occurs(f, s) && !s.replaced && Enabled(f, s, Finish)
    ensures var s' := Next(f, s, Finish);
            forall c :: c in Parsed(f.original, s'.strings) ==> c in s'.db.blobs || c in s'.gone
  {
    OccursInv(f, s);
    FinishKeeps(f, s);
    WatermarkLagsOverBlanksOnly(f, s);
  }

  // ---- a pass seen from outside -------------------------------------------------------------------

  /** As TINY, but one value fills a chunk. */
  const BULKY: Format := TINY.(size := (c: Content) => MAX_CHUNK_PAYLOAD_BYTES)

  /** The record's chunk is committed, the strings are still to be read. */
  const AHEAD_PASS: Pass := RECORD_PASS.(emitted := {"v"}, pending := [], records := [], stringsOffset := 0)
  const AHEAD: Db := RECORD_ONLY.(stringsOffset := 0)

  /**
    Between two chunks the index holds a record whose string it does not hold, although the string was written
    first: whoever reads it then finds a pointer to nothing.
    */
  lemma ChunkAheadOfItsStrings()
    ensures var s := Quiet(R_LINE, S_LINE, AHEAD, {}).(phase := Reading(AHEAD_PASS));
            && Occurs(BULKY, s) && !s.replaced
            && "x" in QuotesOf(BULKY, s.db.rows[0].record) && "x" !in s.db.blobs
            && "x" in Parsed(BULKY.original, s.strings)
  {
    ChunkFull();
    BulkyOnTime();
    TinyLines();
    var s := Quiet(R_LINE, S_LINE, EMPTY_DB, {});
    var full := RECORD_PASS.(stringsOffset := 0);
    assert Apply(EMPTY_DB, ChunkOf(full)) == AHEAD && HandedOver(full) == AHEAD_PASS;
    OccursNext(BULKY, s.(phase := MustCommit(full)), Commit, s.(db := AHEAD, phase := Reading(AHEAD_PASS)));
  }

  lemma ChunkFull()
    ensures Occurs(BULKY, Quiet(R_LINE, S_LINE, EMPTY_DB, {}).(phase := MustCommit(RECORD_PASS.(stringsOffset := 0))))
  {
    BulkyWritten();
    BulkyTaken();
    var s := Quiet(R_LINE, S_LINE, EMPTY_DB, {});
    var full := RECORD_PASS.(stringsOffset := 0);
    OccursNext(BULKY, s, Begin, s.(phase := Reading(FRESH_PASS)));
    OccursNext(BULKY, s.(phase := Reading(FRESH_PASS)), ReadLine, s.(phase := MustCommit(full)));
  }

  lemma BulkyOnTime()
    ensures QuotesOf(BULKY, TINY_RECORD) == {"x"} && StringsFirst(BULKY, R_LINE, S_LINE)
  {
    TinyLines();
    QuotedOnTime();
    assert forall s: set<Content> :: QuotedBy(BULKY, s) == QuotedBy(TINY, s);
    assert QuotesOf(BULKY, TINY_RECORD) == QuotesOf(TINY, TINY_RECORD);
  }

  lemma BulkyWritten()
    ensures Occurs(BULKY, Quiet(R_LINE, S_LINE, EMPTY_DB, {}))
  {
    TinyLines();
    BulkyOnTime();
    assert ValidRun(BULKY, Init(), []) && Occurs(BULKY, Init());
    assert "" + S_LINE == S_LINE && "" + R_LINE == R_LINE;
    var s := Quiet(R_LINE, S_LINE, EMPTY_DB, {});
    OccursNext(BULKY, Init(), WriteStrings(S_LINE), s.(messages := "", hasMessages := false));
    OccursNext(BULKY, s.(messages := "", hasMessages := false), WriteMessages(R_LINE), s);
  }

  lemma BulkyTaken()
    ensures MoreLines(R_LINE, 0) && LineFrom(R_LINE, 0) == R_LINE
    ensures TakeLine(BULKY, FRESH_PASS, R_LINE) == RECORD_PASS.(stringsOffset := 0)
    ensures Full(BULKY, RECORD_PASS.(stringsOffset := 0))
  {
    RecordTaken();
    assert ["v"][1..] == [] && ["v"][..0] == [];
    assert Sizes(BULKY, ["v"]) == MAX_CHUNK_PAYLOAD_BYTES;
  }

  // ---- sweeps -------------------------------------------------------------------------------------

  /** A sweep takes no string this session has read but not yet quoted. */
  ghost predicate Harmless(f: Format, s: State, doomed: set<Content>) {
    doomed !! StringsRead(f, s)
  }

  /**
    Every sweep that may run is harmless if and only if each string read and still stored is reachable from a
    stored request already, that is, unless the strings file has been read ahead of the records that quote it.
    */
  lemma SweepsAreHarmlessIff(f: Format, s: State)
    requires s.phase.Idle?
    ensures (forall doomed :: Enabled(f, s, Sweep(doomed)) ==> Harmless(f, s, doomed))
            <==> StringsRead(f, s) * s.db.blobs <= Alive(f, s.db)
  {
    var all := s.db.blobs - Alive(f, s.db);
    assert Enabled(f, s, Sweep(all));
    if forall doomed :: Enabled(f, s, Sweep(doomed)) ==> Harmless(f, s, doomed) {
      assert Harmless(f, s, all);
      forall c | c in StringsRead(f, s) * s.db.blobs
        ensures c in Alive(f, s.db)
      {
        assert c !in all;
      }
    }
  }

  /** That holds when every string read is quoted by a stored row already. */
  lemma QuotedStringsAreAlive(f: Format, s: State)
    requires Occurs(f, s) && !s.replaced
    requires forall c :: c in StringsRead(f, s) ==>
               exists i :: 0 <= i < |s.db.rows| && c in QuotesOf(f, s.db.rows[i].record)
    ensures StringsRead(f, s) * s.db.blobs <= Alive(f, s.db)
  {
    OccursInv(f, s);
    forall c | c in StringsRead(f, s) * s.db.blobs
      ensures c in Alive(f, s.db)
    {
      var i :| 0 <= i < |s.db.rows| && c in QuotesOf(f, s.db.rows[i].record);
      QuotedAreAlive(f, s.db, i, c);
    }
  }

  /** A sweep is taken only while no string read and still stored waits for the record that quotes it. */
  ghost predicate TakenInTime(f: Format, s: State, a: Action) {
    a.Sweep? ==> StringsRead(f, s) * s.db.blobs <= Alive(f, s.db)
  }

  ghost predicate SweptInTime(f: Format, s: State, run: seq<Action>)
    requires ValidRun(f, s, run)
    decreases run
  {
    run == [] || (TakenInTime(f, s, run[0]) && SweptInTime(f, Next(f, s, run[0]), run[1..]))
  }

  lemma {:induction false} NothingGone(f: Format, s: State, run: seq<Action>)
    requires ValidRun(f, s, run) && SweptInTime(f, s, run) && s.gone == {}
    ensures After(f, s, run).gone == {}
    decreases run
  {
    if run != [] {
      if run[0].Sweep? {
        SweepsAreHarmlessIff(f, s);
        assert Harmless(f, s, run[0].doomed);
      }
      NothingGone(f, Next(f, s, run[0]), run[1..]);
    }
  }

  /** In runs that sweep only in time, every completed pass leaves every pointer it stored resolving. */
  lemma SweptInTimeResolves(f: Format, run: seq<Action>)
    requires ValidRun(f, Init(), run) && SweptInTime(f, Init(), run)
    requires !After(f, Init(), run).replaced && Enabled(f, After(f, Init(), run), Finish)
    ensures var db := Next(f, After(f, Init(), run), Finish).db;
            forall i, c :: 0 <= i < |db.rows| && c in QuotesOf(f, db.rows[i].record) ==> c in db.blobs
  {
    NothingGone(f, Init(), run);
    PointersResolve(f, After(f, Init(), run));
  }

  // ---- and a sweep out of time loses what the next record quotes ----------------------------------

  /** The next record quotes `c` and does not carry it along. */
  ghost predicate QuotesNext(f: Format, line: Bytes, r: Record, c: Content) {
    LineLength(line) == |line| > 0 && f.record(line) == Some(r) && c in QuotesOf(f, r) && c !in r.values
  }

  /** Everything in the files has been read, nobody is at work. */
  ghost predicate CaughtUp(s: State) {
    s.phase.Idle? && !s.replaced && s.db.messagesOffset == |s.messages| && s.db.stringsOffset == |s.strings|
  }

  /** The rows and blobs once the pass after the sweep has read the record. */
  ghost predicate Dangles(f: Format, s: State, c: Content) {
    c !in s.db.blobs && exists i :: 0 <= i < |s.db.rows| && c in QuotesOf(f, s.db.rows[i].record)
  }

  /**
    Wherever a sweep may take a string already read, and the writer's next record quotes it, some continuation
    ends with a completed pass, a stored record, and a pointer in it that resolves to nothing.
    */
  lemma SweepOutOfTimeLoses(f: Format, s: State, c: Content, line: Bytes, r: Record) returns (run: seq<Action>)
    requires Occurs(f, s) && CaughtUp(s)
    requires c in StringsRead(f, s) * s.db.blobs && c !in Alive(f, s.db)
    requires QuotesNext(f, line, r, c) && StringsFirst(f, s.messages + line, s.strings)
    ensures ValidRun(f, s, run) && After(f, s, run).phase.Idle? && !After(f, s, run).replaced
    ensures Dangles(f, After(f, s, run), c)
  {
    OccursInv(f, s);
    assert UpTo(s.messages, |s.messages|) == s.messages;
    run := WriteLoses(f, s.(db := s.db.(blobs := s.db.blobs - {c}), gone := s.gone + {c}), line, r, c);
    assert {c} * StringsRead(f, s) == {c};
    run := RunFirst(f, s, Sweep({c}), run);
  }

  lemma WriteLoses(f: Format, s: State, line: Bytes, r: Record, c: Content) returns (run: seq<Action>)
    requires CaughtUp(s) && Boundary(s.messages) && c !in s.db.blobs && QuotesNext(f, line, r, c)
    requires StringsFirst(f, s.messages + line, s.strings)
    ensures ValidRun(f, s, run) && After(f, s, run).phase.Idle? && !After(f, s, run).replaced
    ensures Dangles(f, After(f, s, run), c)
  {
    LastLine(s.messages, line);
    run := PassLoses(f, s.(messages := s.messages + line, hasMessages := true), line, r, c);
    run := RunFirst(f, s, WriteMessages(line), run);
  }

  lemma RunFirst(f: Format, s: State, a: Action, rest: seq<Action>) returns (run: seq<Action>)
    requires Enabled(f, s, a) && ValidRun(f, Next(f, s, a), rest)
    ensures ValidRun(f, s, run) && After(f, s, run) == After(f, Next(f, s, a), rest)
  {
    run := [a] + rest;
    assert run[1..] == rest;
  }

  /** One pass over one more line, from its beginning to its end. */
  lemma PassLoses(f: Format, s: State, line: Bytes, r: Record, c: Content) returns (run: seq<Action>)
    requires s.phase.Idle? && !s.replaced && s.hasMessages && !Truncated(s) && s.db.messagesOffset <= |s.messages|
    requires MoreLines(s.messages, s.db.messagesOffset) && LineFrom(s.messages, s.db.messagesOffset) == line
    requires s.db.messagesOffset + |line| == |s.messages| && s.db.stringsOffset == |s.strings|
    requires QuotesNext(f, line, r, c) && c !in s.db.blobs
    ensures ValidRun(f, s, run) && After(f, s, run).phase.Idle? && !After(f, s, run).replaced
    ensures Dangles(f, After(f, s, run), c)
  {
    run := LineLoses(f, s.(phase := Reading(Start(s.db))), line, r, c);
    run := RunFirst(f, s, Begin, run);
  }

  lemma LineLoses(f: Format, s: State, line: Bytes, r: Record, c: Content) returns (run: seq<Action>)
    requires s.phase.Reading? && !s.replaced && Enabled(f, s, ReadLine) && f.record(line) == Some(r)
    requires line == LineFrom(s.messages, s.phase.pass.offset) && s.phase.pass.offset + |line| == |s.messages|
    requires s.phase.pass.stringsOffset == |s.strings| && QuotesNext(f, line, r, c)
    requires c !in s.db.blobs && c !in s.phase.pass.pending && s.phase.pass.records == []
    ensures ValidRun(f, s, run) && After(f, s, run).phase.Idle? && !After(f, s, run).replaced
    ensures Dangles(f, After(f, s, run), c)
  {
    var q := TakeLine(f, s.phase.pass, line);
    TakenLine(f, s.phase.pass, line, r, c);
    assert (s.db.rows + q.records)[|s.db.rows|].record == r;
    if Full(f, q) {
      var db' := Apply(s.db, ChunkOf(q));
      assert (db'.rows + HandedOver(q).records)[|s.db.rows|].record == r;
      run := LastSteps(f, s.(db := db', phase := Reading(HandedOver(q))), c);
      run := RunFirst(f, s.(phase := MustCommit(q)), Commit, run);
    } else {
      run := LastSteps(f, s.(phase := Reading(q)), c);
    }
    run := RunFirst(f, s, ReadLine, run);
  }

  lemma LastLine(before: Bytes, line: Bytes)
    requires Boundary(before) && LineLength(line) == |line| > 0
    ensures MoreLines(before + line, |before|) && LineFrom(before + line, |before|) == line
    ensures !MoreLines(before + line, |before + line|)
  {
    Behind(before, line);
    NothingBehind(before + line);
  }

  lemma Behind<T>(a: seq<T>, b: seq<T>)
    ensures (a + b)[|a|..] == b && (a + b)[|a|..|a| + |b|] == b
  {
  }

  lemma NothingBehind(file: Bytes)
    ensures !MoreLines(file, |file|)
  {
    assert file[|file|..] == "";
  }

  /** The line's record is taken, and `c` is not among what it brings along. */
  lemma TakenLine(f: Format, p: Pass, line: Bytes, r: Record, c: Content)
    requires f.record(line) == Some(r) && c !in r.values && c !in p.pending
    ensures var q := TakeLine(f, p, line);
            && q.records == p.records + [Request(p.ordinal, r)] && c !in q.pending
            && q.offset == p.offset + |line| && q.stringsOffset == p.stringsOffset
  {
    LineEmitsNothing(f, p, line);
    InternsOnly(p.(offset := p.offset + |line|), r.values, c);
  }

  lemma {:induction false} InternsOnly(p: Pass, cs: seq<Content>, c: Content)
    requires c !in cs && c !in p.pending
    ensures c !in InternAll(p, cs).pending
    decreases cs
  {
    if cs != [] { InternsOnly(Intern(p, cs[0]), cs[1..], c); }
  }

  lemma LastSteps(f: Format, s: State, c: Content) returns (run: seq<Action>)
    requires s.phase.Reading? && !s.replaced && s.phase.pass.offset == |s.messages|
    requires s.phase.pass.stringsOffset == |s.strings| && c !in s.db.blobs && c !in s.phase.pass.pending
    requires exists i :: 0 <= i < |s.db.rows + s.phase.pass.records|
                         && c in QuotesOf(f, (s.db.rows + s.phase.pass.records)[i].record)
    ensures ValidRun(f, s, run) && After(f, s, run).phase.Idle? && !After(f, s, run).replaced
    ensures Dangles(f, After(f, s, run), c)
  {
    var s1 := s.(phase := Closing(s.phase.pass, s.messages));
    NothingBehind(s.messages);
    NothingBehind(s.strings);
    run := [];
    run := RunFirst(f, s1, Finish, run);
    run := RunFirst(f, s, EndMessages, run);
  }

  const R_LINE := "r\n"
  const S_LINE := "s\n"

  /** One record line, whose value "v" quotes the string "x", and one strings line, which holds it. */
  const TINY: Format := Format(
    (line: Bytes) => if line == R_LINE then Some(TINY_RECORD) else None,
    (line: Bytes) => if line == S_LINE then Some("x") else None,
    (c: Content) => 1,
    (c: Content) => if c == "v" then {"x"} else {})

  const TINY_RECORD := Record(["v"], None, Some(1), None, None, None)

  lemma TinyLines()
    ensures LineLength(R_LINE) == 2 && LineLength(S_LINE) == 2 && LineLength("") == 0
    ensures Parsed(TINY.record, "") == [] && Parsed(TINY.original, "") == []
    ensures Parsed(TINY.record, R_LINE) == [TINY_RECORD]
    ensures Parsed(TINY.original, S_LINE) == ["x"]
  {
    assert R_LINE[1..] == "\n" && S_LINE[1..] == "\n";
    assert LineLength("\n") == 1;
    ParsedOne(TINY.record, R_LINE);
    ParsedOne(TINY.original, S_LINE);
  }

  lemma {:induction false} RunThen(f: Format, s: State, run: seq<Action>, a: Action)
    requires ValidRun(f, s, run) && Enabled(f, After(f, s, run), a)
    ensures ValidRun(f, s, run + [a]) && After(f, s, run + [a]) == Next(f, After(f, s, run), a)
    decreases run
  {
    if run == [] {
      assert run + [a] == [a] && [a][1..] == [];
    } else {
      assert (run + [a])[1..] == run[1..] + [a];
      RunThen(f, Next(f, s, run[0]), run[1..], a);
    }
  }

  lemma OccursNext(f: Format, s: State, a: Action, s': State)
    requires Occurs(f, s) && Enabled(f, s, a) && Next(f, s, a) == s'
    ensures Occurs(f, s')
  {
    var run :| ValidRun(f, Init(), run) && After(f, Init(), run) == s;
    RunThen(f, Init(), run, a);
  }

  /** Nothing read yet. */
  const FRESH_PASS := Pass({}, {}, [], NO_RECORDS, [], 0, 0, 0)
  /** The string read, no record yet. */
  const STRING_PASS := Pass({"x"}, {}, ["x"], NO_RECORDS, [], 0, 0, 2)
  const STRING_ONLY := Db([], {"x"}, NO_RECORDS, 0, 2)

  /** The pass before the sweep: the writer has flushed the string, its record is still to come. */
  lemma StringReadAhead()
    ensures Occurs(TINY, Quiet("", S_LINE, STRING_ONLY, {}))
  {
    var s := Quiet("", S_LINE, EMPTY_DB, {});
    StringFlushed();
    OccursNext(TINY, s, Begin, s.(phase := Reading(FRESH_PASS)));
    EndOfEmpty(s.(phase := Reading(FRESH_PASS)));
    StringStored(s.(phase := Closing(FRESH_PASS, "")));
  }

  lemma StringStored(s: State)
    requires Occurs(TINY, s) && s.strings == S_LINE && s.hasStrings
    requires s.phase == Closing(FRESH_PASS, "") && s.db == EMPTY_DB
    ensures Occurs(TINY, s.(db := STRING_ONLY, phase := Idle))
  {
    StringTaken(s);
    assert Apply(EMPTY_DB, ChunkOf(STRING_PASS)) == STRING_ONLY;
    OccursNext(TINY, s.(phase := Closing(STRING_PASS, "")), Finish, s.(db := STRING_ONLY, phase := Idle));
  }

  lemma StringFlushed()
    ensures Occurs(TINY, Quiet("", S_LINE, EMPTY_DB, {}))
  {
    TinyLines();
    assert ValidRun(TINY, Init(), []) && Occurs(TINY, Init());
    assert "" + S_LINE == S_LINE && "" + "" == "";
    var s := Quiet("", S_LINE, EMPTY_DB, {});
    OccursNext(TINY, Init(), WriteStrings(S_LINE), s.(hasMessages := false));
    OccursNext(TINY, s.(hasMessages := false), WriteMessages(""), s);
  }

  lemma EndOfEmpty(s: State)
    requires Occurs(TINY, s) && s.messages == "" && s.phase.Reading? && s.phase.pass.offset == 0
    ensures Occurs(TINY, s.(phase := Closing(s.phase.pass, "")))
  {
    assert s.messages[0..] == "";
    OccursNext(TINY, s, EndMessages, s.(phase := Closing(s.phase.pass, "")));
  }

  lemma StringTaken(s: State)
    requires Occurs(TINY, s) && s.strings == S_LINE && s.hasStrings && s.phase == Closing(FRESH_PASS, "")
    ensures Occurs(TINY, s.(phase := Closing(STRING_PASS, "")))
    ensures !MoreLines(S_LINE, 2)
  {
    TinyLines();
    assert S_LINE[0..] == S_LINE && S_LINE[0..2] == S_LINE && S_LINE[2..] == "";
    assert LineFrom(S_LINE, 0) == S_LINE;
    assert TakeString(TINY, FRESH_PASS, S_LINE) == STRING_PASS;
    OccursNext(TINY, s, ReadString, s.(phase := Closing(STRING_PASS, "")));
  }

  const RECORD_PASS: Pass := Pass({"v"}, {}, ["v"], Observe(NO_RECORDS, TINY_RECORD),
                                 [Request(0, TINY_RECORD)], 1, 2, 2)
  const RECORD_ONLY: Db := Db([Request(0, TINY_RECORD)], {"v"}, Observe(NO_RECORDS, TINY_RECORD), 2, 2)

  lemma RecordTaken()
    ensures MoreLines(R_LINE, 0) && LineFrom(R_LINE, 0) == R_LINE && !MoreLines(R_LINE, 2)
    ensures TakeLine(TINY, FRESH_PASS.(stringsOffset := 2), R_LINE) == RECORD_PASS && !Full(TINY, RECORD_PASS)
  {
    TinyLines();
    assert R_LINE[0..] == R_LINE && R_LINE[0..2] == R_LINE && R_LINE[2..] == "";
    assert ["v"][1..] == [] && ["v"][..0] == [];
    assert Sizes(TINY, ["v"]) == 1;
  }

  /**
    A sweep in between and the string is gone for good: the record arrives, the next pass completes and stores
    it, but the strings watermark is past the string its value quotes.
    */
  lemma SweptAheadIsLost()
    ensures Occurs(TINY, Quiet(R_LINE, S_LINE, RECORD_ONLY, {"x"}))
    ensures "x" in QuotesOf(TINY, RECORD_ONLY.rows[0].record) && "x" !in RECORD_ONLY.blobs
  {
    SweptThenQuoted();
    RecordArrives(Quiet(R_LINE, S_LINE, STRING_ONLY.(blobs := {}), {"x"}));
    QuotedOnTime();
  }

  lemma SweptThenQuoted()
    ensures Occurs(TINY, Quiet(R_LINE, S_LINE, STRING_ONLY.(blobs := {}), {"x"}))
  {
    StringReadAhead();
    QuotedOnTime();
    SweptOut(Quiet("", S_LINE, STRING_ONLY, {}));
    OccursNext(TINY, Quiet("", S_LINE, STRING_ONLY.(blobs := {}), {"x"}), WriteMessages(R_LINE),
               Quiet(R_LINE, S_LINE, STRING_ONLY.(blobs := {}), {"x"}));
  }

  lemma RecordArrives(s: State)
    requires Occurs(TINY, s) && s == Quiet(R_LINE, S_LINE, STRING_ONLY.(blobs := {}), {"x"})
    ensures Occurs(TINY, s.(db := RECORD_ONLY))
  {
    var start := FRESH_PASS.(stringsOffset := 2);
    RecordTaken();
    OccursNext(TINY, s, Begin, s.(phase := Reading(start)));
    OccursNext(TINY, s.(phase := Reading(start)), ReadLine, s.(phase := Reading(RECORD_PASS)));
    OccursNext(TINY, s.(phase := Reading(RECORD_PASS)), EndMessages, s.(phase := Closing(RECORD_PASS, R_LINE)));
    NothingBehind(S_LINE);
    assert Apply(s.db, ChunkOf(RECORD_PASS)) == RECORD_ONLY;
    OccursNext(TINY, s.(phase := Closing(RECORD_PASS, R_LINE)), Finish, s.(db := RECORD_ONLY));
  }

  lemma SweptOut(s: State)
    requires s == Quiet("", S_LINE, STRING_ONLY, {}) && Occurs(TINY, s)
    ensures Occurs(TINY, s.(db := STRING_ONLY.(blobs := {}), gone := {"x"}))
  {
    TinyLines();
    assert Alive(TINY, STRING_ONLY) == {};
    assert UpTo(S_LINE, 2) == S_LINE && StringsRead(TINY, s) == {"x"};
    OccursNext(TINY, s, Sweep({"x"}), s.(db := STRING_ONLY.(blobs := {}), gone := {"x"}));
  }

  lemma QuotedOnTime()
    ensures QuotesOf(TINY, TINY_RECORD) == {"x"} && StringsFirst(TINY, R_LINE, S_LINE) && "" + R_LINE == R_LINE
  {
    TinyLines();
    assert (set v | v in TINY_RECORD.values) == {"v"};
    assert TINY.quotes("v") == {"x"};
    var k: Content :| k in {"v"} && "x" in TINY.quotes(k);
    assert "x" in QuotedBy(TINY, {"v"});
    assert QuotedBy(TINY, {"v"}) == {"x"};
  }

  // ---- retention and replaced files ---------------------------------------------------------------

  /** The survey's watermark is as good as the index's own, unless a log file was exchanged since. */
  lemma SurveyStillHolds(f: Format, s: State)
    requires Occurs(f, s) && !s.outdated && Enabled(f, s, RetireCheck)
    ensures |s.messages| == s.db.messagesOffset
  {
    OccursInv(f, s);
  }

  /**
    Retention checks and then deletes, and the writer asks nobody: when the files go, every record in them is
    stored if and only if none of their lines behind the index's own watermark is a record's. Unless the survey was
    outdated, those are the lines completed since the check.
    */
  lemma RetentionLosesNothingUnreadIff(f: Format, s: State)
    requires Occurs(f, s) && !s.replaced && s.phase.Retiring?
    ensures s.db.messagesOffset <= |s.messages| && s.phase.checked <= s.messages
    ensures s.db.rows == Numbered(Parsed(f.record, s.messages), 0)
            <==> Parsed(f.record, s.messages[s.db.messagesOffset..]) == []
    ensures !s.phase.stale ==> |s.phase.checked| == s.db.messagesOffset
                               && s.db.rows == Numbered(Parsed(f.record, s.phase.checked), 0)
  {
    OccursInv(f, s);
    var read, since := UpTo(s.messages, s.db.messagesOffset), s.messages[s.db.messagesOffset..];
    assert s.messages == read + since;
    ParsedAppend(f.record, read, since);
    if Parsed(f.record, since) == [] { assert Parsed(f.record, read) + [] == Parsed(f.record, read); }
  }

  /** Ends in the order of the file, as a file appended to when requests end has them. */
  ghost predicate Chronological(rs: seq<Record>) {
    forall j, k :: 0 <= j < k < |rs| && rs[j].end.Some? && rs[k].end.Some? ==> rs[j].end.value <= rs[k].end.value
  }

  /** The last dated record of the file, of which there is one, ended before the cutoff. */
  ghost predicate LastEndedBefore(rs: seq<Record>, cutoff: int) {
    exists k :: 0 <= k < |rs| && rs[k].end.Some? && rs[k].end.value < cutoff
                && forall j :: k < j < |rs| ==> rs[j].end == None
  }

  ghost predicate AllEndedBefore(rs: seq<Record>, cutoff: int) {
    forall k :: 0 <= k < |rs| && rs[k].end.Some? ==> rs[k].end.value < cutoff
  }

  /**
    What retention is about to delete is old: unless its survey was outdated, the last dated record of the file it
    checked ended before the survey's cutoff, and with ends in the order of the file every dated one did.
    */
  lemma RetiredIsExpired(f: Format, s: State)
    requires Occurs(f, s) && !s.replaced && s.phase.Retiring? && !s.phase.stale
    ensures var rs, cutoff := Parsed(f.record, s.phase.checked), s.phase.cutoff;
            LastEndedBefore(rs, cutoff) && (Chronological(rs) ==> AllEndedBefore(rs, cutoff))
  {
    OccursInv(f, s);
    var rs := Parsed(f.record, s.phase.checked);
    SummaryMeans(rs);
    LastIsOld(Summarized(rs), rs, s.phase.cutoff);
  }

  lemma LastIsOld(s: Summary, rs: seq<Record>, cutoff: int)
    requires Summarizes(s, rs) && Expired(s, cutoff)
    ensures LastEndedBefore(rs, cutoff) && (Chronological(rs) ==> AllEndedBefore(rs, cutoff))
  {
    var last :| 0 <= last < |rs| && EndOf(rs[last]) == s.lastEvent
                && forall j :: last < j < |rs| ==> EndOf(rs[j]) == None;
    forall j | last < j < |rs|
      ensures rs[j].end == None
    {
      assert EndOf(rs[j]) == None;
    }
  }

  /** A record completed between check and deletion goes unread, with an index that never held it. */
  lemma DeletedUnread()
    ensures var s := Quiet(R_LINE + R_LINE, S_LINE, RECORD_ONLY, {"x"})
                       .(phase := Retiring(R_LINE, false, 9), surveyed := Some(Expiry(2, 9)));
            && Occurs(TINY, s) && Enabled(TINY, s, RetireDelete)
            && |Parsed(TINY.record, s.messages)| == 2 && |s.db.rows| == 1
            && Next(TINY, s, RetireDelete).messages == ""
  {
    SweptAheadIsLost();
    TwoRecords();
    TinyOnTime(R_LINE + R_LINE);
    var s0 := Quiet(R_LINE, S_LINE, RECORD_ONLY, {"x"});
    var s1 := s0.(surveyed := Some(Expiry(2, 9)));
    var s2 := s1.(phase := Retiring(R_LINE, false, 9));
    OccursNext(TINY, s0, Survey(9), s1);
    OccursNext(TINY, s1, RetireCheck, s2);
    OccursNext(TINY, s2, WriteMessages(R_LINE), s2.(messages := R_LINE + R_LINE));
  }

  /** And a survey that a replaced file outdated can pass its check with a record nobody has read. */
  lemma OutdatedSurveyPasses()
    ensures var s := Quiet(R_LINE, S_LINE, Forgotten(RECORD_ONLY), {})
                       .(surveyed := Some(Expiry(2, 9)), outdated := true);
            && Occurs(TINY, s) && Enabled(TINY, s, RetireCheck)
            && Parsed(TINY.record, s.messages) == [TINY_RECORD] && s.db.rows == []
  {
    SurveyedAndEmptied();
    TinyLines();
    QuotedOnTime();
    assert "" + S_LINE == S_LINE;
    var s1 := Quiet("", "", Forgotten(RECORD_ONLY), {}).(surveyed := Some(Expiry(2, 9)), outdated := true);
    OccursNext(TINY, s1, WriteStrings(S_LINE), s1.(strings := S_LINE));
    OccursNext(TINY, s1.(strings := S_LINE), WriteMessages(R_LINE), s1.(strings := S_LINE, messages := R_LINE));
  }

  /** Surveyed, its files emptied, and the emptied files noticed. */
  lemma SurveyedAndEmptied()
    ensures Occurs(TINY, Quiet("", "", Forgotten(RECORD_ONLY), {})
                           .(surveyed := Some(Expiry(2, 9)), outdated := true))
  {
    SweptAheadIsLost();
    var s0 := Quiet(R_LINE, S_LINE, RECORD_ONLY, {"x"});
    var s1 := s0.(surveyed := Some(Expiry(2, 9)));
    var s2 := s1.(messages := "", strings := "", replaced := true, outdated := true);
    TinyLines();
    OccursNext(TINY, s0, Survey(9), s1);
    OccursNext(TINY, s1, Replace("", ""), s2);
    StartsOver(s2);
  }

  lemma StartsOver(s: State)
    requires Occurs(TINY, s) && s.phase.Idle? && s.messages == "" && s.strings == "" && s.db == RECORD_ONLY
    requires s.hasMessages && s.hasStrings
    ensures Occurs(TINY, s.(db := Forgotten(RECORD_ONLY), gone := {}, replaced := false))
  {
    var s1 := s.(db := Forgotten(RECORD_ONLY), gone := {}, replaced := false);
    OccursNext(TINY, s, Begin, s1.(phase := Reading(Start(s1.db))));
    EndOfEmpty(s1.(phase := Reading(Start(s1.db))));
    OccursNext(TINY, s1.(phase := Closing(Start(s1.db), "")), Finish, s1);
  }

  lemma TwoRecords()
    ensures Parsed(TINY.record, R_LINE + R_LINE) == [TINY_RECORD, TINY_RECORD]
  {
    TinyLines();
    AppendLine(TINY.record, R_LINE, R_LINE);
  }

  lemma TinyOnTime(messages: Bytes)
    requires forall r :: r in Parsed(TINY.record, messages) ==> r == TINY_RECORD
    ensures StringsFirst(TINY, messages, S_LINE)
  {
    TinyLines();
    QuotedOnTime();
  }

  /** Appending alone never makes a session start over. */
  lemma NeverResetsInError(f: Format, s: State)
    requires Occurs(f, s) && !s.replaced && Enabled(f, s, Begin)
    ensures !Truncated(s) && Next(f, s, Begin).db == s.db
  {
    OccursInv(f, s);
  }

  /**
    A file shorter than its watermark is noticed when the next pass begins, and nothing else is: the session starts
    over, and from there on the index is right about the files as they are now.
    */
  lemma RestartsIff(f: Format, s: State)
    requires Occurs(f, s) && Enabled(f, s, Begin)
    ensures var s' := Next(f, s, Begin);
            if (s.hasMessages && |s.messages| < s.db.messagesOffset)
               || (s.hasStrings && |s.strings| < s.db.stringsOffset) then
              s'.db.rows == [] && !s'.replaced && DbOk(f, s'.db, s'.gone, s'.messages, s'.strings)
            else s'.db == s.db && s'.replaced == s.replaced && s'.gone == s.gone
  {
    OccursInv(f, s);
    ForgottenOk(f, s.db, s.messages, s.strings);
  }

  /**
    A file exchanged for another does no harm if and only if the new files say the same as far as the index had
    read: then every promise above goes on holding, and otherwise the index is wrong about them.
    */
  lemma ReplacementHarmlessIff(f: Format, s: State, messages: Bytes, strings: Bytes)
    requires Occurs(f, s) && !s.replaced && Enabled(f, s, Replace(messages, strings))
    ensures var s' := Next(f, s, Replace(messages, strings));
            !s'.replaced <==> DbOk(f, s'.db, s'.gone, s'.messages, s'.strings)
  {
    OccursInv(f, s);
    if s.db.messagesOffset <= |messages| {
      var before, after := Parsed(f.record, UpTo(s.messages, s.db.messagesOffset)),
                           Parsed(f.record, UpTo(messages, s.db.messagesOffset));
      if Numbered(before, 0) == Numbered(after, 0) { NumberedDetermines(before, after, 0); }
    }
  }

  /** That they say the same follows from the lines read, and of the strings only those that are new can matter. */
  lemma AlikeByLines(f: Format, s: State, messages: Bytes, strings: Bytes)
    requires Occurs(f, s) && !s.replaced && s.db.stringsOffset <= |strings|
    requires Boundary(UpTo(strings, s.db.stringsOffset))
    ensures s.db.stringsOffset <= |s.strings|
    ensures var before := Parsed(f.original, UpTo(s.strings, s.db.stringsOffset));
            var after := Parsed(f.original, UpTo(strings, s.db.stringsOffset));
            ReadAlike(f, s, messages, strings)
            <==> SameLines(f.record, s.messages, messages, s.db.messagesOffset)
                 && forall c :: c in after && c !in before ==> c in s.db.blobs || c in s.gone
    ensures SameLines(f.record, s.messages, messages, s.db.messagesOffset)
            && SameLines(f.original, s.strings, strings, s.db.stringsOffset) ==>
              ReadAlike(f, s, messages, strings)
  {
    OccursInv(f, s);
  }

  /** As many bytes, no record among them. */
  const OTHER_LINE := "q\n"

  lemma OtherLineParses()
    ensures Parsed(TINY.record, OTHER_LINE) == [] && !MoreLines(OTHER_LINE, 2) && |OTHER_LINE| == 2
    ensures StringsFirst(TINY, OTHER_LINE, S_LINE)
  {
    assert OTHER_LINE[1..] == "\n" && LineLength("\n") == 1 && LineLength(OTHER_LINE) == 2;
    ParsedOne(TINY.record, OTHER_LINE);
    assert OTHER_LINE[2..] == "";
  }

  /** A file of the same length in its place, and a completed pass leaves rows for records no file holds. */
  lemma RowsOfReplacedFileStay()
    ensures Parsed(TINY.record, OTHER_LINE) == [] && |RECORD_ONLY.rows| == 1
    ensures exists s :: Occurs(TINY, s) && s.messages == OTHER_LINE && Enabled(TINY, s, Finish)
                        && Next(TINY, s, Finish).db == RECORD_ONLY
  {
    OtherLineParses();
    Exchanged();
    var s1 := Quiet(OTHER_LINE, S_LINE, RECORD_ONLY, {"x"}).(replaced := true, outdated := true);
    PassOverReplaced(s1);
  }

  lemma OtherReadsDifferently()
    ensures !SameLines(TINY.record, R_LINE, OTHER_LINE, 2)
  {
    TinyLines();
    OtherLineParses();
    assert UpTo(OTHER_LINE, 2) == OTHER_LINE && UpTo(R_LINE, 2) == R_LINE;
  }

  lemma Exchanged()
    ensures Occurs(TINY, Quiet(OTHER_LINE, S_LINE, RECORD_ONLY, {"x"}).(replaced := true, outdated := true))
  {
    OtherLineParses();
    OtherReadsDifferently();
    SweptAheadIsLost();
    OccursNext(TINY, Quiet(R_LINE, S_LINE, RECORD_ONLY, {"x"}), Replace(OTHER_LINE, S_LINE),
               Quiet(OTHER_LINE, S_LINE, RECORD_ONLY, {"x"}).(replaced := true, outdated := true));
  }

  /** The pass runs to its end and changes nothing. */
  lemma PassOverReplaced(s: State)
    requires Occurs(TINY, s) && s.phase.Idle? && s.messages == OTHER_LINE && s.strings == S_LINE && s.db == RECORD_ONLY
    requires s.hasMessages && s.hasStrings
    ensures Occurs(TINY, s.(phase := Closing(Start(RECORD_ONLY), OTHER_LINE)))
    ensures var s' := s.(phase := Closing(Start(RECORD_ONLY), OTHER_LINE));
            Enabled(TINY, s', Finish) && Next(TINY, s', Finish) == s
  {
    OtherLineParses();
    NothingBehind(S_LINE);
    var p := Start(RECORD_ONLY);
    OccursNext(TINY, s, Begin, s.(phase := Reading(p)));
    OccursNext(TINY, s.(phase := Reading(p)), EndMessages, s.(phase := Closing(p, OTHER_LINE)));
  }
}
