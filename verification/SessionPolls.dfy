/**
  An open session over any number of polls (agent_wrap/domain/logs/server.py and stream.py against the tick
  of logs_page/app.js), while the index it is served from goes on growing: exactly when the page shows the
  session's records as meant.
  */
module SessionPolls {
  import opened Totals
  import opened Stream
  import opened Viewer
  import opened SessionRebuild
  import opened SessionExact

  /**
    One poll: how much of the order the server knows by then, what it is asked for, what the list entry counts,
    what each batch finds in the index; and the same of the second, full request, should one follow.
    */
  datatype Poll = Poll(known: nat, limit: Option<nat>, size: nat, listed: Option<nat>, index: nat -> Index,
                       later: nat, full: nat -> Index)

  predicate Possible(order: seq<Wire>, poll: Poll) {
    poll.known <= poll.later <= |order| && poll.size >= 1
  }

  datatype OnPage = OnPage(view: View, reqs: seq<Shown>)

  const EMPTY_PAGE := OnPage(View(map[], map[]), [])

  function Asked(order: seq<Wire>, held: nat, poll: Poll): seq<Wire>
    requires Possible(order, poll)
  {
    Selected(order[..poll.known], held, poll.limit)
  }

  function Answer(order: seq<Wire>, held: nat, poll: Poll): seq<Line>
    requires Possible(order, poll)
  {
    Response(poll.index, order[..poll.known], held, poll.limit, poll.size, poll.listed)
  }

  function FullAnswer(order: seq<Wire>, poll: Poll): seq<Line>
    requires Possible(order, poll)
  {
    Response(poll.full, order[..poll.later], 0, None, poll.size, poll.listed)
  }

  /** A tick: ask from where the page ends, and append what comes or load everything again. */
  function Polled(order: seq<Wire>, page: OnPage, poll: Poll): OnPage
    requires Possible(order, poll)
  {
    var answer := Answer(order, |page.reqs|, poll);
    var view, records, count := ViewAfter(page.view, answer), Records(page.view, answer), HeaderCount(answer);
    if records != [] && count.Some? && count.value < |page.reqs| then
      OnPage(ViewAfter(view, FullAnswer(order, poll)), Records(view, FullAnswer(order, poll)))
    else
      OnPage(view, page.reqs + records)
  }

  ghost predicate AllPossible(order: seq<Wire>, polls: seq<Poll>) {
    forall i :: 0 <= i < |polls| ==> Possible(order, polls[i])
  }

  ghost function AllPolled(order: seq<Wire>, page: OnPage, polls: seq<Poll>): OnPage
    requires AllPossible(order, polls)
    decreases polls
  {
    if polls == [] then page else AllPolled(order, Polled(order, page, polls[0]), polls[1..])
  }

  /** The server's generator and the page's tick, end to end. */
  method OnTick(page: Page, order: seq<Wire>, poll: Poll) returns (rebuilt: bool)
    requires Possible(order, poll)
    modifies page
    ensures OnPage(page.State(), page.reqs) == Polled(order, old(OnPage(page.State(), page.reqs)), poll)
    ensures rebuilt <==> Rebuilds(order, old(|page.reqs|), poll)
  {
    AnswerCounts(order, OnPage(page.State(), page.reqs), poll);
    var answer := Lines(poll.index, order[..poll.known], |page.reqs|, poll.limit, poll.size, poll.listed);
    var full := Lines(poll.full, order[..poll.later], 0, None, poll.size, poll.listed);
    rebuilt := page.Tick(answer, full);
  }

  // ---- when a tick loads everything again ---------------------------------------------------------

  /** The server has more than the page holds, although the list entry counts less: it lags behind the index. */
  predicate Rebuilds(order: seq<Wire>, held: nat, poll: Poll)
    requires Possible(order, poll)
  {
    Asked(order, held, poll) != [] && poll.listed.Some? && poll.listed.value < held
  }

  lemma {:induction false} NoHeaders(at: nat -> Index, k: nat, selected: seq<Wire>, size: nat, sent: Sent)
    requires size >= 1
    ensures forall l :: l in AllBatches(at, k, selected, size, sent) ==> !l.Meta?
    decreases |selected|
  {
    if selected != [] {
      var n := Cut(|selected|, size);
      NoHeaders(at, k + 1, selected[n..], size, SentAfter(at(k), selected[..n], sent));
      BatchHasNoHeader(at(k), selected[..n], sent);
    }
  }

  lemma BatchHasNoHeader(ix: Index, batch: seq<Wire>, sent: Sent)
    ensures forall l :: l in BatchLines(ix, batch, sent) ==> !l.Meta?
  {
    OnlyStrings(ix, SortedPointers(NewPointers(ix, batch, sent)));
    OnlyBlobs(ix, SortedIds(Wanted(batch, sent)));
    OnlyRecords(batch);
  }

  lemma {:induction false} OnlyStrings(ix: Index, pointers: seq<string>)
    ensures forall l :: l in StringLines(ix, pointers) ==> l.StringLine?
  {
    if pointers != [] { OnlyStrings(ix, pointers[1..]); }
  }

  lemma {:induction false} OnlyBlobs(ix: Index, ids: seq<nat>)
    ensures forall l :: l in BlobLines(ix, ids) ==> l.BlobLine?
  {
    if ids != [] { OnlyBlobs(ix, ids[1..]); }
  }

  lemma {:induction false} OnlyRecords(batch: seq<Wire>)
    ensures forall l :: l in RecordLines(batch) ==> l.RecordLine?
  {
    if batch != [] { OnlyRecords(batch[1..]); }
  }

  lemma {:induction false} HeaderFirst(count: Option<nat>, lines: seq<Line>)
    requires forall l :: l in lines ==> !l.Meta?
    ensures HeaderCount([Meta(count)] + lines) == count
    decreases |lines|
  {
    if lines != [] {
      var all, init := [Meta(count)] + lines, lines[..|lines| - 1];
      assert all[|all| - 1] in lines && all[..|all| - 1] == [Meta(count)] + init;
      HeaderFirst(count, init);
    }
  }

  /** How many records an answer brings, and what its header says. */
  lemma AnswerCounts(order: seq<Wire>, page: OnPage, poll: Poll)
    requires Possible(order, poll)
    ensures var answer := Answer(order, |page.reqs|, poll);
            && HeaderCount(answer) == poll.listed
            && |Records(page.view, answer)| == |Asked(order, |page.reqs|, poll)|
  {
    var held := |page.reqs|;
    var sent := AlreadySent(order[..poll.known], held);
    var lines := AllBatches(poll.index, 0, Asked(order, held, poll), poll.size, sent);
    NoHeaders(poll.index, 0, Asked(order, held, poll), poll.size, sent);
    HeaderFirst(poll.listed, lines);
    HeaderChangesNothing(page.view, poll.listed, lines);
    RecordsCounted(poll.index, 0, page.view, Asked(order, held, poll), poll.size, sent);
  }

  lemma {:induction false} CountRecords(view: View, lines: seq<Line>)
    ensures |Records(view, lines)| == Counted(lines)
    decreases lines
  {
    if lines != [] { CountRecords(Store(view, lines[0]), lines[1..]); }
  }

  function Counted(lines: seq<Line>): nat {
    if lines == [] then 0 else (if lines[0].RecordLine? then 1 else 0) + Counted(lines[1..])
  }

  lemma {:induction false} CountedAppend(a: seq<Line>, b: seq<Line>)
    ensures Counted(a + b) == Counted(a) + Counted(b)
  {
    if a == [] {
      assert a + b == b;
    } else {
      assert (a + b)[1..] == a[1..] + b;
      CountedAppend(a[1..], b);
    }
  }

  lemma {:induction false} CountedRecords(batch: seq<Wire>)
    ensures Counted(RecordLines(batch)) == |batch|
  {
    if batch != [] {
      assert RecordLines(batch)[1..] == RecordLines(batch[1..]);
      CountedRecords(batch[1..]);
    }
  }

  lemma {:induction false} NoneCounted(lines: seq<Line>)
    requires forall l :: l in lines ==> !l.RecordLine?
    ensures Counted(lines) == 0
  {
    if lines != [] { NoneCounted(lines[1..]); }
  }

  lemma BatchCounted(ix: Index, batch: seq<Wire>, sent: Sent)
    ensures Counted(BatchLines(ix, batch, sent)) == |batch|
  {
    var strings := StringLines(ix, SortedPointers(NewPointers(ix, batch, sent)));
    var blobs := BlobLines(ix, SortedIds(Wanted(batch, sent)));
    OnlyStrings(ix, SortedPointers(NewPointers(ix, batch, sent)));
    OnlyBlobs(ix, SortedIds(Wanted(batch, sent)));
    NoneCounted(strings + blobs);
    CountedRecords(batch);
    CountedAppend(strings + blobs, RecordLines(batch));
  }

  lemma {:induction false} RecordsCounted(at: nat -> Index, k: nat, view: View, selected: seq<Wire>, size: nat,
                                          sent: Sent)
    requires size >= 1
    ensures |Records(view, AllBatches(at, k, selected, size, sent))| == |selected|
    decreases |selected|
  {
    if selected != [] {
      var n := Cut(|selected|, size);
      var batch := selected[..n];
      var lines, sent' := BatchLines(at(k), batch, sent), SentAfter(at(k), batch, sent);
      var others := AllBatches(at, k + 1, selected[n..], size, sent');
      BatchCounted(at(k), batch, sent);
      CountRecords(view, lines);
      RecordsCounted(at, k + 1, ViewAfter(view, lines), selected[n..], size, sent');
      ReadAppend(view, lines, others);
    }
  }

  /**
    A session that lost records is not noticed, whatever its list entry counts: the answer then holds no
    record, so the page keeps what it has, and the branch that would rebuild it is not reached.
    */
  lemma ShrunkenSessionStays(order: seq<Wire>, page: OnPage, poll: Poll)
    requires Possible(order, poll) && poll.known <= |page.reqs|
    ensures Polled(order, page, poll).reqs == page.reqs && !Rebuilds(order, |page.reqs|, poll)
  {
    AnswerCounts(order, page, poll);
  }

  // ---- pages that are right, pages that are wrong -------------------------------------------------

  /** The page shows the records it has as meant, and holds all the content behind them. */
  ghost predicate Faithful(all: Index, order: seq<Wire>, page: OnPage) {
    |page.reqs| <= |order| && Shows(all, order[..|page.reqs|], page)
  }

  ghost predicate Shows(all: Index, shown: seq<Wire>, page: OnPage) {
    page.reqs == AllMeant(all, shown) && Holds(all, page.view, AllRefs(shown))
  }

  ghost predicate Wrong(all: Index, order: seq<Wire>, page: OnPage) {
    |page.reqs| <= |order| && page.reqs != AllMeant(all, order[..|page.reqs|])
  }

  ghost predicate Status(all: Index, order: seq<Wire>, page: OnPage, good: bool) {
    if good then Faithful(all, order, page) else Wrong(all, order, page)
  }

  lemma SelectedExtends(order: seq<Wire>, known: nat, from: nat, limit: Option<nat>)
    requires known <= |order| && from <= |order|
    ensures var more := Selected(order[..known], from, limit);
            && from + |more| <= |order| && order[..from + |more|] == order[..from] + more
            && (more != [] ==> from + |more| <= known) && (from <= known && limit.None? ==> from + |more| == known)
  {
  }

  /** `more` comes next in the order. */
  ghost predicate Extends(order: seq<Wire>, held: nat, more: seq<Wire>) {
    held + |more| <= |order| && order[..held + |more|] == order[..held] + more
  }

  lemma AskedExtends(order: seq<Wire>, held: nat, poll: Poll)
    requires Possible(order, poll) && held <= |order|
    ensures Extends(order, held, Asked(order, held, poll))
  {
    SelectedExtends(order, poll.known, held, poll.limit);
  }

  /** A client that holds the first `n` records holds what the server assumes it was sent. */
  lemma AssumedSentIsHeld(all: Index, order: seq<Wire>, page: OnPage, known: nat)
    requires Faithful(all, order, page) && known <= |order|
    ensures Holds(all, page.view, AlreadySent(order[..known], |page.reqs|).blobs)
  {
    var n := |page.reqs|;
    if 0 < n <= known {
      assert order[..known][n - 1] == order[..n][n - 1];
      RefsAt(order[..n], n - 1);
    }
  }

  lemma FaithfulMore(all: Index, order: seq<Wire>, page: OnPage, more: seq<Wire>, view: View)
    requires Faithful(all, order, page) && Extends(order, |page.reqs|, more)
    requires Holds(all, view, AllRefs(order[..|page.reqs|]) + AllRefs(more))
    ensures Faithful(all, order, OnPage(view, page.reqs + AllMeant(all, more)))
  {
    var shown, page' := order[..|page.reqs|], OnPage(view, page.reqs + AllMeant(all, more));
    ShowsMore(all, shown, more, page, page');
    assert order[..|page'.reqs|] == shown + more;
  }

  lemma ShowsMore(all: Index, shown: seq<Wire>, more: seq<Wire>, page: OnPage, page': OnPage)
    requires Shows(all, shown, page) && page'.reqs == page.reqs + AllMeant(all, more)
    requires Holds(all, page'.view, AllRefs(shown) + AllRefs(more))
    ensures Shows(all, shown + more, page')
  {
    AllMeantAppend(all, shown, more);
    AllRefsAppend(shown, more);
  }

  lemma WrongMore(all: Index, order: seq<Wire>, shown: seq<Shown>, more: seq<Wire>, page': OnPage, records: seq<Shown>)
    requires Extends(order, |shown|, more) && |records| == |more| && page'.reqs == shown + records
    requires shown != AllMeant(all, order[..|shown|]) || records != AllMeant(all, more)
    ensures Wrong(all, order, page')
  {
    AllMeantAppend(all, order[..|shown|], more);
    SplitEqual(shown, records, AllMeant(all, order[..|shown|]), AllMeant(all, more));
  }

  // ---- one poll -----------------------------------------------------------------------------------

  function HeldAfter(order: seq<Wire>, held: nat, poll: Poll): nat
    requires Possible(order, poll)
  {
    if Rebuilds(order, held, poll) then poll.later else held + |Asked(order, held, poll)|
  }

  ghost predicate AnswerFits(all: Index, order: seq<Wire>, held: nat, poll: Poll, have: set<string>)
    requires Possible(order, poll)
  {
    Fits(all, poll.index, 0, Asked(order, held, poll), poll.size, AlreadySent(order[..poll.known], held), have)
  }

  ghost function HaveAfterAnswer(order: seq<Wire>, held: nat, poll: Poll, have: set<string>): set<string>
    requires Possible(order, poll)
  {
    HaveAtEnd(poll.index, 0, Asked(order, held, poll), poll.size, AlreadySent(order[..poll.known], held), have)
  }

  ghost predicate FullFits(all: Index, order: seq<Wire>, poll: Poll, have: set<string>)
    requires Possible(order, poll)
  {
    Fits(all, poll.full, 0, order[..poll.later], poll.size, NOTHING_SENT, have)
  }

  ghost function HaveAfterPoll(order: seq<Wire>, held: nat, poll: Poll, have: set<string>): set<string>
    requires Possible(order, poll)
  {
    var have' := HaveAfterAnswer(order, held, poll, have);
    if Rebuilds(order, held, poll) then HaveAtEnd(poll.full, 0, order[..poll.later], poll.size, NOTHING_SENT, have')
    else have'
  }

  /** What the page shows after this poll is right: all of it loaded anew and fitting, or right before and added to. */
  ghost predicate PollFits(all: Index, order: seq<Wire>, held: nat, poll: Poll, have: set<string>, good: bool)
    requires Possible(order, poll)
  {
    if Rebuilds(order, held, poll) then FullFits(all, order, poll, HaveAfterAnswer(order, held, poll, have))
    else good && AnswerFits(all, order, held, poll, have)
  }

  /** The index loses no blob during the poll, and `all` holds everything it stores. */
  ghost predicate Grows(all: Index, poll: Poll) {
    && Growing(all, poll.index) && Growing(all, poll.full)
    && forall i: nat, j: nat :: poll.index(i).blobs.Keys <= poll.full(j).blobs.Keys
  }

  ghost predicate OnFile(all: Index, poll: Poll, view: View) {
    RightStrings(all, view) && view.blobs.Keys <= poll.index(0).blobs.Keys
  }

  /** A tick's two outcomes: the answer appended, or the full answer in its place. */
  function Appended(order: seq<Wire>, page: OnPage, poll: Poll): OnPage
    requires Possible(order, poll)
  {
    var answer := Answer(order, |page.reqs|, poll);
    OnPage(ViewAfter(page.view, answer), page.reqs + Records(page.view, answer))
  }

  function Reloaded(order: seq<Wire>, view: View, poll: Poll): OnPage
    requires Possible(order, poll)
  {
    OnPage(ViewAfter(view, FullAnswer(order, poll)), Records(view, FullAnswer(order, poll)))
  }

  lemma PolledIs(order: seq<Wire>, page: OnPage, poll: Poll)
    requires Possible(order, poll)
    ensures Polled(order, page, poll)
            == if Rebuilds(order, |page.reqs|, poll) then Reloaded(order, Appended(order, page, poll).view, poll)
               else Appended(order, page, poll)
    ensures |Appended(order, page, poll).reqs| == |page.reqs| + |Asked(order, |page.reqs|, poll)|
  {
    AnswerCounts(order, page, poll);
  }

  /** What the answer leaves on file, right or wrong as its records may come out. */
  lemma AnswerFiled(all: Index, order: seq<Wire>, page: OnPage, poll: Poll)
    requires Possible(order, poll) && Grows(all, poll) && OnFile(all, poll, page.view)
    ensures var view := Appended(order, page, poll).view;
            && RightStrings(all, view)
            && view.strings.Keys == HaveAfterAnswer(order, |page.reqs|, poll, page.view.strings.Keys)
            && view.blobs.Keys <= poll.full(0).blobs.Keys
  {
    var more, sent := Asked(order, |page.reqs|, poll), AlreadySent(order[..poll.known], |page.reqs|);
    HeaderChangesNothing(page.view, poll.listed, AllBatches(poll.index, 0, more, poll.size, sent));
    ResponseCounts(all, poll.index, 0, page.view, more, poll.size, sent);
  }

  /** The answer read on a faithful page: as meant exactly if it fits, and then nothing is lost. */
  lemma AnswerRead(all: Index, order: seq<Wire>, page: OnPage, poll: Poll)
    requires PointerKeys(all.strings) && Possible(order, poll) && Faithful(all, order, page)
    requires Grows(all, poll) && OnFile(all, poll, page.view)
    ensures var held, have := |page.reqs|, page.view.strings.Keys;
            var more := Asked(order, held, poll);
            && (Records(page.view, Answer(order, held, poll)) == AllMeant(all, more)
                <==> AnswerFits(all, order, held, poll, have))
            && (AnswerFits(all, order, held, poll, have) ==>
                  Holds(all, Appended(order, page, poll).view, AllRefs(order[..held]) + AllRefs(more)))
  {
    var held, have := |page.reqs|, page.view.strings.Keys;
    var more, sent := Asked(order, held, poll), AlreadySent(order[..poll.known], held);
    AssumedSentIsHeld(all, order, page, poll.known);
    HeaderChangesNothing(page.view, poll.listed, AllBatches(poll.index, 0, more, poll.size, sent));
    ResponseExact(all, poll.index, 0, page.view, more, poll.size, sent);
    if AnswerFits(all, order, held, poll, have) {
      ResponseHolds(all, poll.index, 0, page.view, more, poll.size, sent, AllRefs(order[..held]));
    }
  }

  lemma AppendOutcome(all: Index, order: seq<Wire>, page: OnPage, poll: Poll, good: bool)
    requires PointerKeys(all.strings) && Possible(order, poll) && Status(all, order, page, good)
    requires Grows(all, poll) && OnFile(all, poll, page.view)
    ensures Status(all, order, Appended(order, page, poll),
                   good && AnswerFits(all, order, |page.reqs|, poll, page.view.strings.Keys))
  {
    var held := |page.reqs|;
    var more, records := Asked(order, held, poll), Records(page.view, Answer(order, held, poll));
    AskedExtends(order, held, poll);
    AnswerCounts(order, page, poll);
    if good { AnswerRead(all, order, page, poll); }
    if good && AnswerFits(all, order, held, poll, page.view.strings.Keys) {
      FaithfulMore(all, order, page, more, Appended(order, page, poll).view);
    } else {
      WrongMore(all, order, page.reqs, more, Appended(order, page, poll), records);
    }
  }

  /** A full answer read on top of whatever is there, the strings on file being right. */
  lemma FullAnswerRead(all: Index, order: seq<Wire>, view: View, poll: Poll)
    requires PointerKeys(all.strings) && Possible(order, poll) && Growing(all, poll.full)
    requires RightStrings(all, view) && view.blobs.Keys <= poll.full(0).blobs.Keys
    ensures var page' := Reloaded(order, view, poll);
            && Status(all, order, page', FullFits(all, order, poll, view.strings.Keys))
            && |page'.reqs| == poll.later && RightStrings(all, page'.view)
            && page'.view.strings.Keys
               == HaveAtEnd(poll.full, 0, order[..poll.later], poll.size, NOTHING_SENT, view.strings.Keys)
            && exists j: nat :: page'.view.blobs.Keys <= poll.full(j).blobs.Keys
  {
    var shown := order[..poll.later];
    assert Selected(shown, 0, None) == shown;
    HeaderChangesNothing(view, poll.listed, AllBatches(poll.full, 0, shown, poll.size, NOTHING_SENT));
    ResponseCounts(all, poll.full, 0, view, shown, poll.size, NOTHING_SENT);
    ResponseExact(all, poll.full, 0, view, shown, poll.size, NOTHING_SENT);
    if FullFits(all, order, poll, view.strings.Keys) {
      ResponseHolds(all, poll.full, 0, view, shown, poll.size, NOTHING_SENT, {});
      assert {} + AllRefs(shown) == AllRefs(shown);
    }
  }

  /** What one poll makes of a page, right or wrong. */
  lemma PollOutcome(all: Index, order: seq<Wire>, page: OnPage, poll: Poll, good: bool)
    requires PointerKeys(all.strings) && Possible(order, poll) && Status(all, order, page, good)
    requires Grows(all, poll) && OnFile(all, poll, page.view)
    ensures var held, have := |page.reqs|, page.view.strings.Keys;
            var page' := Polled(order, page, poll);
            && Status(all, order, page', PollFits(all, order, held, poll, have, good))
            && |page'.reqs| == HeldAfter(order, held, poll) && RightStrings(all, page'.view)
            && page'.view.strings.Keys == HaveAfterPoll(order, held, poll, have)
            && exists j: nat :: page'.view.blobs.Keys <= poll.full(j).blobs.Keys
  {
    PolledIs(order, page, poll);
    AnswerFiled(all, order, page, poll);
    if Rebuilds(order, |page.reqs|, poll) {
      FullAnswerRead(all, order, Appended(order, page, poll).view, poll);
    } else {
      AppendOutcome(all, order, page, poll, good);
      assert Polled(order, page, poll).view.blobs.Keys <= poll.full(0).blobs.Keys;
    }
  }

  /** One poll keeps a faithful page faithful exactly if it fits. */
  lemma PolledStaysFaithful(all: Index, order: seq<Wire>, page: OnPage, poll: Poll)
    requires PointerKeys(all.strings) && Possible(order, poll) && Faithful(all, order, page)
    requires Grows(all, poll) && OnFile(all, poll, page.view)
    ensures Faithful(all, order, Polled(order, page, poll))
            <==> PollFits(all, order, |page.reqs|, poll, page.view.strings.Keys, true)
  {
    PollOutcome(all, order, page, poll, true);
  }

  /** A poll that loads everything again makes a page right exactly if the load fits, wrong as it may have been. */
  lemma RebuildRepairsIff(all: Index, order: seq<Wire>, page: OnPage, poll: Poll)
    requires PointerKeys(all.strings) && Possible(order, poll) && Rebuilds(order, |page.reqs|, poll)
    requires Grows(all, poll) && OnFile(all, poll, page.view)
    ensures var have := HaveAfterAnswer(order, |page.reqs|, poll, page.view.strings.Keys);
            Faithful(all, order, Polled(order, page, poll)) <==> FullFits(all, order, poll, have)
  {
    PolledIs(order, page, poll);
    AnswerFiled(all, order, page, poll);
    FullAnswerRead(all, order, Appended(order, page, poll).view, poll);
  }

  // ---- any number of polls ------------------------------------------------------------------------

  /** From poll to poll the index loses no blob either. */
  ghost predicate AllGrow(all: Index, polls: seq<Poll>) {
    && (forall i :: 0 <= i < |polls| ==> Grows(all, polls[i]))
    && forall i, j, k: nat :: 0 <= i < j < |polls| ==>
         polls[i].full(k).blobs.Keys <= polls[j].index(0).blobs.Keys
  }

  ghost predicate AllOnFile(all: Index, polls: seq<Poll>, view: View) {
    RightStrings(all, view) && forall i :: 0 <= i < |polls| ==> OnFile(all, polls[i], view)
  }

  /** Whether the page is right at last: each poll in turn, given what the earlier ones left. */
  ghost predicate PollsFit(all: Index, order: seq<Wire>, held: nat, polls: seq<Poll>, have: set<string>, good: bool)
    requires AllPossible(order, polls)
    decreases polls
  {
    if polls == [] then good
    else
      PollsFit(all, order, HeldAfter(order, held, polls[0]), polls[1..], HaveAfterPoll(order, held, polls[0], have),
               PollFits(all, order, held, polls[0], have, good))
  }

  lemma OnFileForRest(all: Index, polls: seq<Poll>, view: View)
    requires polls != [] && AllGrow(all, polls) && RightStrings(all, view)
    requires exists j: nat :: view.blobs.Keys <= polls[0].full(j).blobs.Keys
    ensures AllGrow(all, polls[1..]) && AllOnFile(all, polls[1..], view)
  {
    var k: nat :| view.blobs.Keys <= polls[0].full(k).blobs.Keys;
    forall i | 0 <= i < |polls[1..]|
      ensures OnFile(all, polls[1..][i], view)
    {
      assert polls[1..][i] == polls[i + 1];
      assert polls[0].full(k).blobs.Keys <= polls[i + 1].index(0).blobs.Keys;
    }
    forall i, j, m: nat | 0 <= i < j < |polls[1..]|
      ensures polls[1..][i].full(m).blobs.Keys <= polls[1..][j].index(0).blobs.Keys
    {
      assert polls[i + 1].full(m).blobs.Keys <= polls[j + 1].index(0).blobs.Keys;
    }
  }

  /** However a session is polled, from any page right or wrong: exactly when it ends as meant. */
  lemma {:induction false} PollsExact(all: Index, order: seq<Wire>, page: OnPage, polls: seq<Poll>, good: bool)
    requires PointerKeys(all.strings) && Status(all, order, page, good) && AllPossible(order, polls)
    requires AllGrow(all, polls) && AllOnFile(all, polls, page.view)
    ensures Status(all, order, AllPolled(order, page, polls),
                   PollsFit(all, order, |page.reqs|, polls, page.view.strings.Keys, good))
    decreases polls
  {
    if polls != [] {
      var next := Polled(order, page, polls[0]);
      var good' := PollFits(all, order, |page.reqs|, polls[0], page.view.strings.Keys, good);
      PollOutcome(all, order, page, polls[0], good);
      OnFileForRest(all, polls, next.view);
      PollsExact(all, order, next, polls[1..], good');
    }
  }

  /**
    However an open session was cut into requests, limits, batches and rebuilds while it grew at its end and the
    index behind it grew as well, the page shows its records as meant if and only if what it was sent fits.
    */
  lemma AnyCutsExact(all: Index, order: seq<Wire>, polls: seq<Poll>)
    requires PointerKeys(all.strings) && AllPossible(order, polls) && AllGrow(all, polls)
    ensures var reqs := AllPolled(order, EMPTY_PAGE, polls).reqs;
            && |reqs| <= |order|
            && (reqs == AllMeant(all, order[..|reqs|]) <==> PollsFit(all, order, 0, polls, {}, true))
  {
    assert order[..0] == [];
    assert EMPTY_PAGE.view.strings.Keys == {};
    assert Faithful(all, order, EMPTY_PAGE);
    PollsExact(all, order, EMPTY_PAGE, polls, true);
  }

  lemma {:induction false} PolledInParts(order: seq<Wire>, page: OnPage, polls: seq<Poll>, last: Poll)
    requires AllPossible(order, polls) && Possible(order, last)
    ensures AllPossible(order, polls + [last])
    ensures AllPolled(order, page, polls + [last]) == Polled(order, AllPolled(order, page, polls), last)
    decreases polls
  {
    if polls == [] {
      assert polls + [last] == [last];
    } else {
      assert (polls + [last])[1..] == polls[1..] + [last];
      PolledInParts(order, Polled(order, page, polls[0]), polls[1..], last);
    }
  }

  /** A last unlimited poll brings the page up to date exactly if what was sent up to then fits. */
  lemma LastPollCatchesUp(all: Index, order: seq<Wire>, polls: seq<Poll>, last: Poll)
    requires PointerKeys(all.strings) && Possible(order, last) && last.limit.None? && last.later == last.known
    requires AllPossible(order, polls) && AllPossible(order, polls + [last]) && AllGrow(all, polls + [last])
    requires |AllPolled(order, EMPTY_PAGE, polls).reqs| <= last.known
    ensures Polled(order, AllPolled(order, EMPTY_PAGE, polls), last).reqs == AllMeant(all, order[..last.known])
            <==> PollsFit(all, order, 0, polls + [last], {}, true)
  {
    PolledInParts(order, EMPTY_PAGE, polls, last);
    AnyCutsExact(all, order, polls + [last]);
    LastCounts(order, AllPolled(order, EMPTY_PAGE, polls), last);
  }

  lemma LastCounts(order: seq<Wire>, page: OnPage, last: Poll)
    requires Possible(order, last) && last.limit.None? && last.later == last.known && |page.reqs| <= last.known
    ensures |Polled(order, page, last).reqs| == last.known
  {
    PolledIs(order, page, last);
    SelectedExtends(order, last.known, |page.reqs|, None);
    FullCounts(order, Appended(order, page, last).view, last);
  }

  lemma FullCounts(order: seq<Wire>, view: View, poll: Poll)
    requires Possible(order, poll)
    ensures |Records(view, FullAnswer(order, poll))| == poll.later
  {
    var shown := order[..poll.later];
    assert Selected(shown, 0, None) == shown;
    HeaderChangesNothing(view, poll.listed, AllBatches(poll.full, 0, shown, poll.size, NOTHING_SENT));
    RecordsCounted(poll.full, 0, view, shown, poll.size, NOTHING_SENT);
  }
}
