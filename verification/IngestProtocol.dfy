/**
  Ingest as it really runs: one pass's lines and commits interleaved with a writer that keeps appending,
  with crashes, with sweeps and retention under the same lock, and with a log file being replaced
  (agent_wrap/domain/logs/ingest.py, agent_wrap/domain/logs/service.py).
  */
module IngestProtocol {
  import opened Totals
  import opened LogLines
  import opened IngestPass
  import opened BlobSweep

  /**
    What the holder of the ingest lock is doing to this session. `read` is the file as the messages loop left it,
    `checked` as retention's check found it, `stale` whether its survey was outdated by then, `cutoff` the age
    limit of that survey.
    */
  datatype Phase =
    | Idle
    | Reading(pass: Pass)
    | MustCommit(pass: Pass)
    | Closing(pass: Pass, read: Bytes)
    | Retiring(checked: Bytes, stale: bool, cutoff: int)
    | Deleted

  /** What retention's survey notes of an expired session: its watermark, and the age limit it was held to. */
  datatype Expiry = Expiry(offset: nat, cutoff: int)

  /** Dated by its last event; a session that has none never expires. */
  predicate Expired(s: Summary, cutoff: int) {
    s.lastEvent.Some? && s.lastEvent.value < cutoff
  }

  /**
    A file that is not there (`hasMessages`, `hasStrings`) counts as empty. `gone` remembers which strings read
    from this session's file a sweep has deleted; `replaced`, that a log file was exchanged for one that reads
    differently, since the index last started over. `surveyed` is what retention's survey, which takes no lock, noted
    with the watermark at the end of the file; `outdated`, that a file was so exchanged since.
    */
  datatype State = State(messages: Bytes, strings: Bytes, db: Db, phase: Phase, gone: set<Content>, replaced: bool,
                         surveyed: Option<Expiry>, outdated: bool, hasMessages: bool, hasStrings: bool)

  datatype Action =
    | WriteStrings(bytes: Bytes)
    | WriteMessages(bytes: Bytes)
    | Begin
    | ReadLine
    | Commit
    | EndMessages
    | ReadString
    | Finish
    | Crash
    | Sweep(doomed: set<Content>)
    | OtherSession(content: set<Content>)
    | Survey(cutoff: int)
    | RetireCheck
    | RetireDelete
    | RetireForget
    | Replace(messages: Bytes, strings: Bytes)
    | Vanish

  const EMPTY_DB := Db([], {}, NO_RECORDS, 0, 0)

  function Init(): State {
    Quiet("", "", EMPTY_DB, {}).(hasMessages := false, hasStrings := false)
  }

  /** Nobody at work, nothing replaced, nothing surveyed. */
  function Quiet(messages: Bytes, strings: Bytes, db: Db, gone: set<Content>): State {
    State(messages, strings, db, Idle, gone, false, None, false, true, true)
  }

  /** The writer's promise: a complete record's strings are complete lines of the strings file already. */
  ghost predicate StringsFirst(f: Format, messages: Bytes, strings: Bytes) {
    forall r, c :: r in Parsed(f.record, messages) && c in QuotesOf(f, r) ==> c in Parsed(f.original, strings)
  }

  /** What the index needs to know of a log file: the lines it has read, and that it stopped behind one. */
  ghost predicate SameLines<T>(parse: Bytes -> Option<T>, file: Bytes, file': Bytes, offset: nat) {
    && offset <= |file| && offset <= |file'| && Boundary(UpTo(file', offset))
    && Parsed(parse, UpTo(file', offset)) == Parsed(parse, UpTo(file, offset))
  }

  /** As far as the index had read, the new files say the same. */
  ghost predicate ReadAlike(f: Format, s: State, messages: Bytes, strings: Bytes) {
    && SameLines(f.record, s.messages, messages, s.db.messagesOffset)
    && s.db.stringsOffset <= |strings|
    && StringsOk(f, s.db.blobs, s.gone, UpTo(strings, s.db.stringsOffset))
  }

  /** `is_truncated`: a file that is there is shorter than its watermark. */
  predicate Truncated(s: State) {
    || (s.db.messagesOffset != 0 && s.hasMessages && |s.messages| < s.db.messagesOffset)
    || (s.db.stringsOffset != 0 && s.hasStrings && |s.strings| < s.db.stringsOffset)
  }

  /** Complete lines behind where a pass has read to; a missing file, or one it has read past, has none. */
  predicate MoreMessages(s: State, offset: nat) {
    s.hasMessages && offset <= |s.messages| && MoreLines(s.messages, offset)
  }

  predicate MoreStrings(s: State, offset: nat) {
    s.hasStrings && offset <= |s.strings| && MoreLines(s.strings, offset)
  }

  /** `reset_session`: the rows go, the blobs stay. */
  function Forgotten(db: Db): Db {
    EMPTY_DB.(blobs := db.blobs)
  }

  ghost predicate Enabled(f: Format, s: State, a: Action) {
    match a
    case WriteStrings(bytes) => StringsFirst(f, s.messages, s.strings + bytes)
    case WriteMessages(bytes) => StringsFirst(f, s.messages + bytes, s.strings)
    case Begin => s.phase.Idle? && s.hasMessages
    case ReadLine => s.phase.Reading? && MoreMessages(s, s.phase.pass.offset)
    case Commit => s.phase.MustCommit?
    case EndMessages => s.phase.Reading? && !MoreMessages(s, s.phase.pass.offset)
    case ReadString => s.phase.Closing? && MoreStrings(s, s.phase.pass.stringsOffset)
    case Finish => s.phase.Closing? && !MoreStrings(s, s.phase.pass.stringsOffset)
    case Crash => !s.phase.Idle?
    case Sweep(doomed) => s.phase.Idle? && doomed <= s.db.blobs - Alive(f, s.db)
    case OtherSession(_) => s.phase.Idle?
    case Survey(cutoff) =>
      Expired(s.db.summary, cutoff) && s.hasMessages && |s.messages| == s.db.messagesOffset
    case RetireCheck =>
      s.phase.Idle? && s.hasMessages && s.surveyed.Some? && s.surveyed.value.offset == |s.messages|
    case RetireDelete => s.phase.Retiring?
    case RetireForget => s.phase.Deleted?
    case Replace(messages, strings) => s.phase.Idle? && StringsFirst(f, messages, strings)
    case Vanish => s.phase.Idle?
  }

  /** Nothing to hand over: the pass ends without a commit. */
  predicate NothingNew(f: Format, db: Db, p: Pass) {
    p.records == [] && Sizes(f, p.pending) == 0 && p.stringsOffset == db.stringsOffset
  }

  ghost function StringsRead(f: Format, s: State): set<Content>
  {
    if s.db.stringsOffset <= |s.strings| then set c | c in Parsed(f.original, UpTo(s.strings, s.db.stringsOffset))
    else {}
  }

  function NoFiles(s: State): State {
    s.(messages := "", strings := "", hasMessages := false, hasStrings := false)
  }

  ghost function Next(f: Format, s: State, a: Action): State
    requires Enabled(f, s, a)
  {
    match a
    case WriteStrings(bytes) => s.(strings := s.strings + bytes, hasStrings := true)
    case WriteMessages(bytes) => s.(messages := s.messages + bytes, hasMessages := true)
    case Begin =>
      if Truncated(s) then
        s.(db := Forgotten(s.db), phase := Reading(Start(Forgotten(s.db))), gone := {}, replaced := false)
      else s.(phase := Reading(Start(s.db)))
    case ReadLine =>
      var line := LineFrom(s.messages, s.phase.pass.offset);
      var p := TakeLine(f, s.phase.pass, line);
      s.(phase := if f.record(line).Some? && Full(f, p) then MustCommit(p) else Reading(p))
    case Commit => s.(db := Apply(s.db, ChunkOf(s.phase.pass)), phase := Reading(HandedOver(s.phase.pass)))
    case EndMessages => s.(phase := Closing(s.phase.pass, s.messages))
    case ReadString =>
      var line := LineFrom(s.strings, s.phase.pass.stringsOffset);
      s.(phase := s.phase.(pass := TakeString(f, s.phase.pass, line)))
    case Finish =>
      s.(db := if NothingNew(f, s.db, s.phase.pass) then s.db else Apply(s.db, ChunkOf(s.phase.pass)), phase := Idle)
    case Crash => s.(phase := Idle)
    case Sweep(doomed) =>
      s.(db := s.db.(blobs := s.db.blobs - doomed), gone := s.gone + doomed * StringsRead(f, s))
    case OtherSession(content) => s.(db := s.db.(blobs := s.db.blobs + content))
    case Survey(cutoff) => s.(surveyed := Some(Expiry(s.db.messagesOffset, cutoff)), outdated := s.replaced)
    case RetireCheck => s.(phase := Retiring(s.messages, s.outdated, s.surveyed.value.cutoff))
    case RetireDelete => NoFiles(s).(phase := Deleted, replaced := true, outdated := true)
    case RetireForget =>
      s.(db := Forgotten(s.db), phase := Idle, gone := {}, replaced := false, surveyed := None, outdated := false)
    case Replace(messages, strings) =>
      var alike := ReadAlike(f, s, messages, strings);
      s.(messages := messages, strings := strings, hasMessages := true, hasStrings := true,
         replaced := s.replaced || !alike, outdated := s.outdated || !alike)
    case Vanish =>
      var alike := ReadAlike(f, s, "", "");
      NoFiles(s).(replaced := s.replaced || !alike, outdated := s.outdated || !alike)
  }

  ghost predicate ValidRun(f: Format, s: State, run: seq<Action>)
    decreases run
  {
    run == [] || (Enabled(f, s, run[0]) && ValidRun(f, Next(f, s, run[0]), run[1..]))
  }

  ghost function After(f: Format, s: State, run: seq<Action>): State
    requires ValidRun(f, s, run)
    decreases run
  {
    if run == [] then s else After(f, Next(f, s, run[0]), run[1..])
  }
}
