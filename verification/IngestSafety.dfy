/** What every ingest run keeps, and what holds when a pass completes. */
module IngestSafety {
  import opened Totals
  import opened LogLines
  import opened IngestPass
  import opened IngestReader
  import opened BlobSweep
  import opened IngestProtocol

  predicate InPass(phase: Phase) {
    phase.Reading? || phase.MustCommit? || phase.Closing?
  }

  /** The pass the lock holder is in fits the index and the files. */
  ghost predicate PhaseOk(f: Format, s: State) {
    match s.phase
    case Idle => true
    case Retiring(checked, stale, cutoff) =>
      |checked| <= |s.messages| && UpTo(s.messages, |checked|) == checked
      && (!stale ==> |checked| == s.db.messagesOffset && Expired(s.db.summary, cutoff))
    case Deleted => true
    case Reading(p) =>
      && s.db.messagesOffset <= p.offset
      && PassOk(f, s.db, s.gone, p, s.messages, s.strings)
      && |p.records| < MAX_CHUNK_RECORDS && p.stringsOffset == s.db.stringsOffset
    case MustCommit(p) =>
      s.db.messagesOffset <= p.offset
      && PassOk(f, s.db, s.gone, p, s.messages, s.strings) && p.stringsOffset == s.db.stringsOffset
    case Closing(p, read) =>
      && s.db.messagesOffset <= p.offset
      && PassOk(f, s.db, s.gone, p, s.messages, s.strings)
      && p.offset <= |read| <= |s.messages| && UpTo(s.messages, |read|) == read
      && UpTo(read, p.offset) == UpTo(s.messages, p.offset)
      && !MoreLines(read, p.offset) && StringsFirst(f, read, s.strings)
  }

  ghost predicate Inv(f: Format, s: State) {
    && StringsFirst(f, s.messages, s.strings) && (!s.hasMessages ==> s.messages == "")
    && (!s.hasStrings ==> s.strings == "")
    && (!s.replaced ==> DbOk(f, s.db, s.gone, s.messages, s.strings) && PhaseOk(f, s))
    && (s.replaced ==> s.outdated) && (s.phase.Deleted? ==> s.replaced)
    && (s.surveyed.Some? && !s.outdated ==> SurveyOk(s.db, s.surveyed.value))
  }

  /** An index that has not moved on since the survey is of the age it was. */
  predicate SurveyOk(db: Db, found: Expiry) {
    found.offset <= db.messagesOffset && (found.offset == db.messagesOffset ==> Expired(db.summary, found.cutoff))
  }

  lemma InitInv(f: Format)
    ensures Inv(f, Init())
  {
    assert Parsed(f.record, "") == [] && Parsed(f.original, "") == [];
    assert UpTo("", 0) == "";
  }

  // ---- steps that touch the files -----------------------------------------------------------------

  lemma GrownFilesOk(f: Format, db: Db, gone: set<Content>, p: Pass, messages: Bytes, strings: Bytes, m: Bytes,
                     t: Bytes)
    ensures DbOk(f, db, gone, messages, strings) ==> DbOk(f, db, gone, messages + m, strings + t)
    ensures PassOk(f, db, gone, p, messages, strings) ==> PassOk(f, db, gone, p, messages + m, strings + t)
  {
    if db.messagesOffset <= |messages| { UpToGrown(messages, m, db.messagesOffset); }
    if db.stringsOffset <= |strings| { UpToGrown(strings, t, db.stringsOffset); }
    if p.offset <= |messages| { UpToGrown(messages, m, p.offset); }
    if p.stringsOffset <= |strings| { UpToGrown(strings, t, p.stringsOffset); }
  }

  /** What the pass had read of the messages stays what it was. */
  lemma GrownReadOk(f: Format, read: Bytes, p: Pass, messages: Bytes, strings: Bytes, m: Bytes, t: Bytes)
    requires p.offset <= |read| <= |messages| && UpTo(messages, |read|) == read
    requires UpTo(read, p.offset) == UpTo(messages, p.offset) && StringsFirst(f, read, strings)
    ensures UpTo(messages + m, |read|) == read && UpTo(read, p.offset) == UpTo(messages + m, p.offset)
    ensures (forall c :: c in Parsed(f.original, strings) ==> c in Parsed(f.original, strings + t)) ==>
              StringsFirst(f, read, strings + t)
  {
    UpToGrown(messages, m, |read|);
    UpToGrown(messages, m, p.offset);
  }

  /** Appending never takes complete lines away. */
  lemma {:induction false} ParsedGrows<T>(parse: Bytes -> Option<T>, a: Bytes, b: Bytes)
    ensures Parsed(parse, a) <= Parsed(parse, a + b)
    decreases |a|
  {
    var n := LineLength(a);
    if n > 0 {
      LineLengthAppend(a, b);
      Slices(a, b, n);
      ParsedGrows(parse, a[n..], b);
    }
  }

  lemma WritesKeep(f: Format, s: State, a: Action)
    requires Inv(f, s) && Enabled(f, s, a) && (a.WriteStrings? || a.WriteMessages?)
    ensures Inv(f, Next(f, s, a))
  {
    if a.WriteMessages? {
      FilesGrow(f, s, a.bytes, "");
      assert s.strings + "" == s.strings;
    } else {
      FilesGrow(f, s, "", a.bytes);
      assert s.messages + "" == s.messages;
    }
  }

  lemma FilesGrow(f: Format, s: State, m: Bytes, t: Bytes)
    requires Inv(f, s)
    ensures var s' := s.(messages := s.messages + m, strings := s.strings + t);
            !s.replaced ==> DbOk(f, s'.db, s'.gone, s'.messages, s'.strings) && PhaseOk(f, s')
  {
    if !s.replaced {
      var p := if InPass(s.phase) then s.phase.pass else Start(s.db);
      GrownFilesOk(f, s.db, s.gone, p, s.messages, s.strings, m, t);
      if s.phase.Retiring? { UpToGrown(s.messages, m, |s.phase.checked|); }
      if s.phase.Closing? {
        ParsedGrows(f.original, s.strings, t);
        GrownReadOk(f, s.phase.read, p, s.messages, s.strings, m, t);
      }
    }
  }

  // ---- the pass -----------------------------------------------------------------------------------

  lemma ForgottenOk(f: Format, db: Db, messages: Bytes, strings: Bytes)
    ensures DbOk(f, Forgotten(db), {}, messages, strings)
  {
    assert UpTo(messages, 0) == "" && UpTo(strings, 0) == "";
    assert Parsed(f.record, "") == [] && Parsed(f.original, "") == [];
  }

  lemma BeginKeeps(f: Format, s: State)
    requires Inv(f, s) && Enabled(f, s, Begin)
    ensures Inv(f, Next(f, s, Begin))
    ensures !s.replaced ==> !Truncated(s)
  {
    ForgottenOk(f, s.db, s.messages, s.strings);
    StartOk(f, Forgotten(s.db), {}, s.messages, s.strings);
    if !s.replaced { StartOk(f, s.db, s.gone, s.messages, s.strings); }
  }

  lemma ReadLineKeeps(f: Format, s: State)
    requires Inv(f, s) && Enabled(f, s, ReadLine)
    ensures Inv(f, Next(f, s, ReadLine))
  {
    if !s.replaced {
      var p := s.phase.pass;
      TakeLineOk(f, s.db, s.gone, p, s.messages, s.strings);
      LineMoves(f, p, LineFrom(s.messages, p.offset));
    }
  }

  /** What a line leaves as it was, and what it does not. */
  lemma LineMoves(f: Format, p: Pass, line: Bytes)
    ensures var q := TakeLine(f, p, line);
            && q.offset == p.offset + |line| && q.stringsOffset == p.stringsOffset
            && (f.record(line).None? ==> q.records == p.records)
            && (f.record(line).Some? && !Full(f, q) ==> |q.records| < MAX_CHUNK_RECORDS)
  {
    LineEmitsNothing(f, p, line);
  }

  lemma CommitKeeps(f: Format, s: State)
    requires Inv(f, s) && Enabled(f, s, Commit)
    ensures Inv(f, Next(f, s, Commit))
  {
    if !s.replaced { CommitOk(f, s.db, s.gone, s.phase.pass, s.messages, s.strings); }
  }

  lemma EndMessagesKeeps(f: Format, s: State)
    requires Inv(f, s) && Enabled(f, s, EndMessages)
    ensures Inv(f, Next(f, s, EndMessages))
  {
    assert UpTo(s.messages, |s.messages|) == s.messages;
  }

  lemma ReadStringKeeps(f: Format, s: State)
    requires Inv(f, s) && Enabled(f, s, ReadString)
    ensures Inv(f, Next(f, s, ReadString))
  {
    if !s.replaced {
      var p := s.phase.pass;
      TakeStringOk(f, s.db, s.gone, p, s.messages, s.strings);
      assert TakeString(f, p, LineFrom(s.strings, p.stringsOffset)).offset == p.offset;
    }
  }

  lemma FinishKeeps(f: Format, s: State)
    requires Inv(f, s) && Enabled(f, s, Finish)
    ensures Inv(f, Next(f, s, Finish))
  {
    if !s.replaced { CommitOk(f, s.db, s.gone, s.phase.pass, s.messages, s.strings); }
  }

  // ---- sweeps, retention, replacement -------------------------------------------------------------

  lemma SweepKeeps(f: Format, s: State, doomed: set<Content>)
    requires Inv(f, s) && Enabled(f, s, Sweep(doomed))
    ensures Inv(f, Next(f, s, Sweep(doomed)))
  {
    if !s.replaced {
      var db' := s.db.(blobs := s.db.blobs - doomed);
      ReachableIsLeast(f, s.db.blobs, Named(f, s.db.rows) * s.db.blobs, {});
      forall i, v | 0 <= i < |db'.rows| && v in db'.rows[i].record.values
        ensures v in db'.blobs
      {
        RowIsNamed(f, s.db.rows, i);
        assert v in s.db.blobs && v in Alive(f, s.db);
      }
    }
  }

  lemma OthersKeep(f: Format, s: State, a: Action)
    requires Inv(f, s) && Enabled(f, s, a) && (a.OtherSession? || a.Survey? || a.Crash?)
    ensures Inv(f, Next(f, s, a))
  {
  }

  lemma ReplaceKeeps(f: Format, s: State, messages: Bytes, strings: Bytes)
    requires Inv(f, s) && Enabled(f, s, Replace(messages, strings))
    ensures Inv(f, Next(f, s, Replace(messages, strings)))
  {
  }

  lemma VanishKeeps(f: Format, s: State)
    requires Inv(f, s) && Enabled(f, s, Vanish)
    ensures Inv(f, Next(f, s, Vanish))
  {
    assert Parsed(f.record, "") == [];
  }

  lemma RetirementKeeps(f: Format, s: State, a: Action)
    requires Inv(f, s) && Enabled(f, s, a) && (a.RetireCheck? || a.RetireDelete? || a.RetireForget?)
    ensures Inv(f, Next(f, s, a))
  {
    if a.RetireCheck? { assert UpTo(s.messages, |s.messages|) == s.messages; }
    if a.RetireDelete? { assert Parsed(f.record, "") == []; }
    if a.RetireForget? { ForgottenOk(f, s.db, s.messages, s.strings); }
  }

  lemma StepKeepsInv(f: Format, s: State, a: Action)
    requires Inv(f, s) && Enabled(f, s, a)
    ensures Inv(f, Next(f, s, a))
  {
    match a
    case WriteStrings(_) => WritesKeep(f, s, a);
    case WriteMessages(_) => WritesKeep(f, s, a);
    case Begin => BeginKeeps(f, s);
    case ReadLine => ReadLineKeeps(f, s);
    case Commit => CommitKeeps(f, s);
    case EndMessages => EndMessagesKeeps(f, s);
    case ReadString => ReadStringKeeps(f, s);
    case Finish => FinishKeeps(f, s);
    case Sweep(doomed) => SweepKeeps(f, s, doomed);
    case Replace(messages, strings) => ReplaceKeeps(f, s, messages, strings);
    case Vanish => VanishKeeps(f, s);
    case RetireCheck => RetirementKeeps(f, s, a);
    case RetireDelete => RetirementKeeps(f, s, a);
    case RetireForget => RetirementKeeps(f, s, a);
    case _ => OthersKeep(f, s, a);
  }
}
