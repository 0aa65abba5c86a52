/**
  What the condition on polls comes to: when it holds, what a string stored too late does to a page, and what
  repairs one (agent_wrap/domain/logs/stream.py against logs_page/app.js).
  */
module SessionServed {
  import opened Totals
  import opened Json
  import opened Stream
  import opened Viewer
  import opened SessionRebuild
  import opened SessionExact
  import opened SessionAtRest
  import opened SessionPolls

  /** The page then equals one full load of as much from the index at rest, exactly if that load is not spoilt. */
  lemma AnyCutsEqualOneLoad(all: Index, order: seq<Wire>, polls: seq<Poll>, size: nat, listed: Option<nat>)
    requires PointerKeys(all.strings) && size >= 1 && AllPossible(order, polls) && AllGrow(all, polls)
    requires PollsFit(all, order, 0, polls, {}, true)
    ensures var reqs := AllPolled(order, EMPTY_PAGE, polls).reqs;
            && |reqs| <= |order|
            && var shown := order[..|reqs|];
            (reqs == Records(EMPTY_PAGE.view, Response(Resting(all), shown, 0, None, size, listed))
             <==> Unspoilt(all, shown, size, NOTHING_SENT, true))
  {
    AnyCutsExact(all, order, polls);
    var reqs := AllPolled(order, EMPTY_PAGE, polls).reqs;
    FullLoadIsExact(all, order[..|reqs|], size, listed);
  }

  // ---- clean content, stored in time --------------------------------------------------------------

  ghost predicate CleanContent(all: Index, order: seq<Wire>) {
    BatchClean(all, order, NOTHING_SENT)
  }

  /** The index holds already what it is ever going to hold of these records' content. */
  ghost predicate Complete(all: Index, order: seq<Wire>, ix: Index) {
    && (forall i :: 0 <= i < |order| ==> InTime(all, ix, Obj(order[i].rest)))
    && forall id :: id in AllRefs(order) && id in all.blobs ==> id in ix.blobs && InTime(all, ix, all.blobs[id])
  }

  ghost predicate CompletePoll(all: Index, order: seq<Wire>, poll: Poll)
    requires Possible(order, poll)
  {
    && (forall j: nat :: Complete(all, order[..poll.known], poll.index(j)))
    && forall j: nat :: Complete(all, order[..poll.later], poll.full(j))
  }

  /** A string the records or their content quote, and which stands for another. */
  ghost predicate Needed(all: Index, order: seq<Wire>, p: string) {
    && p in all.strings && all.strings[p] != p
    && ((exists i :: 0 <= i < |order| && HasLeaf(Obj(order[i].rest), p))
        || exists id :: id in AllRefs(order) && id in all.blobs && HasLeaf(all.blobs[id], p))
  }

  lemma NeededIsStored(all: Index, order: seq<Wire>, ix: Index, p: string)
    requires Complete(all, order, ix) && Needed(all, order, p)
    ensures p in ix.strings
  {
    if i :| 0 <= i < |order| && HasLeaf(Obj(order[i].rest), p) {
      KnownIff(Obj(order[i].rest), ix.strings.Keys, all.strings);
    } else {
      var id :| id in AllRefs(order) && id in all.blobs && HasLeaf(all.blobs[id], p);
      KnownIff(all.blobs[id], ix.strings.Keys, all.strings);
    }
  }

  /** Every needed string looked up so far is on file. */
  ghost predicate NothingMissed(all: Index, order: seq<Wire>, sent: Sent, have: set<string>) {
    forall p :: p in sent.pointers && Needed(all, order, p) ==> p in have
  }

  lemma NothingMissedYet(all: Index, order: seq<Wire>, ix: Index, batch: seq<Wire>, sent: Sent, have: set<string>)
    requires Complete(all, order, ix) && NothingMissed(all, order, sent, have)
    ensures NothingMissed(all, order, SentAfter(ix, batch, sent), HaveAfter(ix, batch, sent, have))
  {
    forall p | p in SentAfter(ix, batch, sent).pointers && Needed(all, order, p)
      ensures p in HaveAfter(ix, batch, sent, have)
    {
      NeededIsStored(all, order, ix, p);
    }
  }

  lemma NeededFits(all: Index, order: seq<Wire>, ix: Index, batch: seq<Wire>, sent: Sent, have: set<string>, v: Json)
    requires PointerKeys(all.strings) && Complete(all, order, ix) && NothingMissed(all, order, sent, have)
    requires Clean(v) && LookedUp(ix, batch, sent, v)
    requires forall p :: HasLeaf(v, p) && p in all.strings && all.strings[p] != p ==> Needed(all, order, p)
    ensures ValueFits(all, v, HaveAfter(ix, batch, sent, have))
  {
    NothingMissedYet(all, order, ix, batch, sent, have);
    KnownIff(v, HaveAfter(ix, batch, sent, have), all.strings);
  }

  lemma CompleteBatchFits(all: Index, order: seq<Wire>, ix: Index, batch: seq<Wire>, sent: Sent, have: set<string>)
    requires PointerKeys(all.strings) && Within(ix, all) && Complete(all, order, ix) && CleanContent(all, order)
    requires NothingMissed(all, order, sent, have)
    requires AllRefs(batch) <= AllRefs(order) && forall i :: 0 <= i < |batch| ==> batch[i] in order
    ensures BatchFits(all, ix, batch, sent, HaveAfter(ix, batch, sent, have))
  {
    BatchScanned(ix, batch, sent);
    forall i | 0 <= i < |batch|
      ensures ValueFits(all, Obj(batch[i].rest), HaveAfter(ix, batch, sent, have))
    {
      var k :| 0 <= k < |order| && order[k] == batch[i];
      NeededFits(all, order, ix, batch, sent, have, Obj(order[k].rest));
    }
    forall id | id in Wanted(batch, sent)
      ensures RefFits(all, ix, id, HaveAfter(ix, batch, sent, have))
    {
      if id in ix.blobs { NeededFits(all, order, ix, batch, sent, have, ix.blobs[id]); }
    }
  }

  lemma {:induction false} CompleteFits(all: Index, order: seq<Wire>, at: nat -> Index, k: nat, selected: seq<Wire>,
                                        size: nat, sent: Sent, have: set<string>)
    requires size >= 1 && PointerKeys(all.strings) && CleanContent(all, order) && NothingMissed(all, order, sent, have)
    requires forall j: nat :: Within(at(j), all) && Complete(all, order, at(j))
    requires AllRefs(selected) <= AllRefs(order) && forall i :: 0 <= i < |selected| ==> selected[i] in order
    ensures Fits(all, at, k, selected, size, sent, have)
    decreases |selected|
  {
    if selected != [] {
      var n := Cut(|selected|, size);
      var batch, rest := selected[..n], selected[n..];
      Halves(selected, n);
      AllRefsAppend(batch, rest);
      CompleteBatchFits(all, order, at(k), batch, sent, have);
      NothingMissedYet(all, order, at(k), batch, sent, have);
      CompleteFits(all, order, at, k + 1, rest, size, SentAfter(at(k), batch, sent),
                   HaveAfter(at(k), batch, sent, have));
    }
  }

  lemma CleanPart(all: Index, order: seq<Wire>, n: nat)
    requires n <= |order| && CleanContent(all, order)
    ensures CleanContent(all, order[..n])
  {
    Halves(order, n);
    AllRefsAppend(order[..n], order[n..]);
  }

  lemma SelectedInside(known: seq<Wire>, from: nat, limit: Option<nat>)
    ensures var more := Selected(known, from, limit);
            AllRefs(more) <= AllRefs(known) && forall i :: 0 <= i < |more| ==> more[i] in known
  {
    var more := Selected(known, from, limit);
    if more != [] {
      var rest := known[from + |more|..];
      assert known == known[..from] + (more + rest);
      AllRefsAppend(known[..from], more + rest);
      AllRefsAppend(more, rest);
    }
  }

  lemma CompletePollFits(all: Index, order: seq<Wire>, held: nat, poll: Poll, have: set<string>)
    requires PointerKeys(all.strings) && Possible(order, poll) && Grows(all, poll)
    requires CleanContent(all, order) && CompletePoll(all, order, poll)
    ensures PollFits(all, order, held, poll, have, true)
  {
    var known, full := order[..poll.known], order[..poll.later];
    CleanPart(all, order, poll.known);
    CleanPart(all, order, poll.later);
    SelectedInside(known, held, poll.limit);
    CompleteFits(all, known, poll.index, 0, Asked(order, held, poll), poll.size, AlreadySent(known, held), have);
    CompleteFits(all, full, poll.full, 0, full, poll.size, NOTHING_SENT, HaveAfterAnswer(order, held, poll, have));
  }

  /** Clean content comes out right, whatever the cuts, if each poll finds stored what its records quote. */
  lemma {:induction false} CompletePollsFit(all: Index, order: seq<Wire>, held: nat, polls: seq<Poll>,
                                            have: set<string>)
    requires PointerKeys(all.strings) && AllPossible(order, polls) && CleanContent(all, order)
    requires forall i :: 0 <= i < |polls| ==> Grows(all, polls[i]) && CompletePoll(all, order, polls[i])
    ensures PollsFit(all, order, held, polls, have, true)
    decreases polls
  {
    if polls != [] {
      CompletePollFits(all, order, held, polls[0], have);
      CompletePollsFit(all, order, HeldAfter(order, held, polls[0]), polls[1..],
                       HaveAfterPoll(order, held, polls[0], have));
    }
  }

  // ---- what stays wrong, and what does not --------------------------------------------------------

  /** Every poll appends, given how much the page holds by then. */
  ghost predicate NeverReloads(order: seq<Wire>, held: nat, polls: seq<Poll>)
    requires AllPossible(order, polls)
    decreases polls
  {
    polls == [] ||
    (!Rebuilds(order, held, polls[0]) && NeverReloads(order, HeldAfter(order, held, polls[0]), polls[1..]))
  }

  /** A page that shows something wrong does so until it loads everything again. */
  lemma {:induction false} WrongUntilReloaded(all: Index, order: seq<Wire>, held: nat, polls: seq<Poll>,
                                              have: set<string>)
    requires AllPossible(order, polls) && NeverReloads(order, held, polls)
    ensures !PollsFit(all, order, held, polls, have, false)
    decreases polls
  {
    if polls != [] {
      WrongUntilReloaded(all, order, HeldAfter(order, held, polls[0]), polls[1..],
                         HaveAfterPoll(order, held, polls[0], have));
    }
  }

  /** One of the first `n` records, or what one of them refers to, names an inherited property. */
  ghost predicate Unclean(all: Index, order: seq<Wire>, n: nat, polls: seq<Poll>)
    requires n <= |order|
  {
    || (exists i :: 0 <= i < n && !Clean(Obj(order[i].rest)))
    || exists id :: id in AllRefs(order[..n]) && id in all.blobs && !Clean(all.blobs[id])
                    && forall i, j: nat :: 0 <= i < |polls| ==> id in polls[i].full(j).blobs
  }

  /** With strings on file, what fits is clean. */
  lemma {:induction false} FitsIsClean(all: Index, at: nat -> Index, k: nat, selected: seq<Wire>, size: nat, sent: Sent,
                                       have: set<string>)
    requires size >= 1 && have != {} && Fits(all, at, k, selected, size, sent, have)
    ensures CleanRecords(selected)
    decreases |selected|
  {
    if selected != [] {
      var n := Cut(|selected|, size);
      var batch, rest := selected[..n], selected[n..];
      FitsIsClean(all, at, k + 1, rest, size, SentAfter(at(k), batch, sent), HaveAfter(at(k), batch, sent, have));
      Halves(selected, n);
      CleanRecordsTogether(batch, rest);
    }
  }

  lemma CleanRecordsTogether(a: seq<Wire>, b: seq<Wire>)
    requires CleanRecords(a) && CleanRecords(b)
    ensures CleanRecords(a + b)
  {
    assert forall i :: |a| <= i < |a + b| ==> (a + b)[i] == b[i - |a|];
  }

  lemma {:induction false} FitsRefIsClean(all: Index, at: nat -> Index, k: nat, selected: seq<Wire>, size: nat,
                                          sent: Sent, have: set<string>, id: nat)
    requires size >= 1 && have != {} && Growing(all, at) && Fits(all, at, k, selected, size, sent, have)
    requires id in Wanted(selected, sent) && forall j: nat :: id in at(j).blobs
    ensures id in all.blobs && Clean(all.blobs[id])
    decreases |selected|
  {
    var n := Cut(|selected|, size);
    var batch, rest := selected[..n], selected[n..];
    Halves(selected, n);
    AllRefsAppend(batch, rest);
    if id !in Wanted(batch, sent) {
      var have' := HaveAfter(at(k), batch, sent, have);
      FitsRefIsClean(all, at, k + 1, rest, size, SentAfter(at(k), batch, sent), have', id);
    }
  }

  lemma ReloadIsClean(all: Index, order: seq<Wire>, n: nat, poll: Poll, have: set<string>)
    requires Possible(order, poll) && Growing(all, poll.full) && have != {} && n <= poll.later
    requires FullFits(all, order, poll, have)
    ensures forall i :: 0 <= i < n ==> Clean(Obj(order[i].rest))
    ensures forall id :: id in AllRefs(order[..n]) && (forall j: nat :: id in poll.full(j).blobs) ==>
              id in all.blobs && Clean(all.blobs[id])
  {
    var shown := order[..poll.later];
    FitsIsClean(all, poll.full, 0, shown, poll.size, NOTHING_SENT, have);
    assert forall i :: 0 <= i < n ==> shown[i] == order[i];
    assert shown == order[..n] + order[n..poll.later];
    AllRefsAppend(order[..n], order[n..poll.later]);
    forall id | id in AllRefs(order[..n]) && forall j: nat :: id in poll.full(j).blobs
      ensures id in all.blobs && Clean(all.blobs[id])
    {
      FitsRefIsClean(all, poll.full, 0, shown, poll.size, NOTHING_SENT, have, id);
    }
  }

  /** A wrong page is repaired by no later poll, if strings are on file and something unclean is behind it. */
  lemma {:induction false} UncleanStaysWrong(all: Index, order: seq<Wire>, held: nat, polls: seq<Poll>,
                                             have: set<string>)
    requires AllPossible(order, polls) && AllGrow(all, polls) && held <= |order| && have != {}
    requires Unclean(all, order, held, polls)
    ensures !PollsFit(all, order, held, polls, have, false)
    decreases polls
  {
    if polls != [] {
      var poll, held', have' := polls[0], HeldAfter(order, held, polls[0]), HaveAfterPoll(order, held, polls[0], have);
      AskedExtends(order, held, poll);
      SelectedExtends(order, poll.known, held, poll.limit);
      HaveGrows(poll.index, 0, Asked(order, held, poll), poll.size, AlreadySent(order[..poll.known], held), have);
      HaveGrows(poll.full, 0, order[..poll.later], poll.size, NOTHING_SENT, HaveAfterAnswer(order, held, poll, have));
      UncleanFurther(all, order, held, held', polls);
      if Rebuilds(order, held, poll) && FullFits(all, order, poll, HaveAfterAnswer(order, held, poll, have)) {
        ReloadIsClean(all, order, held, poll, HaveAfterAnswer(order, held, poll, have));
      }
      GrowsOn(all, polls);
      UncleanStaysWrong(all, order, held', polls[1..], have');
    }
  }

  lemma {:induction false} HaveGrows(at: nat -> Index, k: nat, selected: seq<Wire>, size: nat, sent: Sent,
                                     have: set<string>)
    requires size >= 1
    ensures have <= HaveAtEnd(at, k, selected, size, sent, have)
    decreases |selected|
  {
    if selected != [] {
      var n := Cut(|selected|, size);
      var batch := selected[..n];
      HaveGrows(at, k + 1, selected[n..], size, SentAfter(at(k), batch, sent), HaveAfter(at(k), batch, sent, have));
    }
  }

  lemma UncleanFurther(all: Index, order: seq<Wire>, n: nat, m: nat, polls: seq<Poll>)
    requires n <= m <= |order| && polls != [] && Unclean(all, order, n, polls)
    ensures Unclean(all, order, m, polls[1..])
  {
    assert order[..m] == order[..n] + order[n..m];
    AllRefsAppend(order[..n], order[n..m]);
    assert forall i :: 0 <= i < |polls[1..]| ==> polls[1..][i] == polls[i + 1];
  }

  lemma GrowsOn(all: Index, polls: seq<Poll>)
    requires polls != [] && AllGrow(all, polls)
    ensures AllGrow(all, polls[1..])
  {
    forall i, j, m: nat | 0 <= i < j < |polls[1..]|
      ensures polls[1..][i].full(m).blobs.Keys <= polls[1..][j].index(0).blobs.Keys
    {
      assert polls[i + 1].full(m).blobs.Keys <= polls[j + 1].index(0).blobs.Keys;
    }
  }

  // ---- polls that each find the index at rest -----------------------------------------------------

  /**
    A poll whose answers are each read from one state of the index fits if and only if what it sends is unspoilt,
    and quotes no string, and refers to no blob, that is stored only later.
    */
  lemma RestingPollFitsIff(all: Index, order: seq<Wire>, held: nat, poll: Poll, ix: Index, ix': Index,
                           have: set<string>, good: bool)
    requires PointerKeys(all.strings) && Possible(order, poll) && Within(ix, ix')
    requires poll.index == Resting(ix) && poll.full == Resting(ix') && have <= ix.strings.Keys
    ensures var more, sent := Asked(order, held, poll), AlreadySent(order[..poll.known], held);
            var have' := HaveAfterAnswer(order, held, poll, have);
            PollFits(all, order, held, poll, have, good)
            <==> if Rebuilds(order, held, poll) then
                   Unspoilt(ix', order[..poll.later], poll.size, NOTHING_SENT, have' == {})
                   && SentInTime(all, ix', order[..poll.later], NOTHING_SENT)
                 else
                   good && Unspoilt(ix, more, poll.size, sent, have == {}) && SentInTime(all, ix, more, sent)
  {
    var more, sent := Asked(order, held, poll), AlreadySent(order[..poll.known], held);
    FitsIff(all, ix, 0, more, poll.size, sent, have);
    HaveStaysStored(ix, 0, more, poll.size, sent, have);
    FitsIff(all, ix', 0, order[..poll.later], poll.size, NOTHING_SENT, HaveAfterAnswer(order, held, poll, have));
  }

  lemma {:induction false} HaveStaysStored(ix: Index, k: nat, selected: seq<Wire>, size: nat, sent: Sent,
                                           have: set<string>)
    requires size >= 1 && have <= ix.strings.Keys
    ensures HaveAtEnd(Resting(ix), k, selected, size, sent, have) <= ix.strings.Keys
    decreases |selected|
  {
    if selected != [] {
      var n := Cut(|selected|, size);
      var batch := selected[..n];
      HaveStaysStored(ix, k + 1, selected[n..], size, SentAfter(ix, batch, sent), HaveAfter(ix, batch, sent, have));
    }
  }

  // ---- a string stored too late -------------------------------------------------------------------

  const DIGITS: seq<char> := seq(64, (i: nat) => '0')
  const ADDRESS: string := "hash:" + DIGITS

  lemma PointerIs()
    ensures IsPointer(ADDRESS)
  {
    assert ADDRESS[..5] == "hash:";
    forall i | 5 <= i < POINTER_LENGTH
      ensures IsHex(ADDRESS[i])
    {
      assert ADDRESS[i] == DIGITS[i - 5];
    }
  }

  /** The index between two chunks of a pass, and behind the last, which is the one that reads the strings. */
  const BETWEEN_CHUNKS := Index(map[], map[])
  const AFTER_THE_LAST := Index(map[], map[ADDRESS := "said"])

  const QUOTING := Wire([], None, None, [Field("error", Str(ADDRESS))])

  function PollOf(known: nat, listed: Option<nat>, ix: Index): Poll {
    Poll(known, None, 1, listed, Resting(ix), known, Resting(ix))
  }

  lemma QuotingIsClean()
    ensures Clean(Obj(QUOTING.rest)) && !Known(Obj(QUOTING.rest), {}, AFTER_THE_LAST.strings)
    ensures AllRefs([QUOTING]) == {} && RefsOf(QUOTING) == {}
    ensures PointerKeys(AFTER_THE_LAST.strings) && Within(BETWEEN_CHUNKS, AFTER_THE_LAST)
  {
    PointerIs();
    PointersAreOwn(ADDRESS);
    assert QUOTING.rest[0] == Field("error", Str(ADDRESS));
    assert |AFTER_THE_LAST.strings[ADDRESS]| == 4 && |ADDRESS| == 69;
    assert !Known(QUOTING.rest[0].value, {}, AFTER_THE_LAST.strings);
    assert [QUOTING][1..] == [];
  }

  lemma FirstPollMisses()
    ensures !PollFits(AFTER_THE_LAST, [QUOTING], 0, PollOf(1, None, BETWEEN_CHUNKS), {}, true)
    ensures HeldAfter([QUOTING], 0, PollOf(1, None, BETWEEN_CHUNKS)) == 1
  {
    var poll, order := PollOf(1, None, BETWEEN_CHUNKS), [QUOTING];
    QuotingIsClean();
    assert order[..1] == order && Asked(order, 0, poll) == order;
    RestingPollFitsIff(AFTER_THE_LAST, order, 0, poll, BETWEEN_CHUNKS, BETWEEN_CHUNKS, {}, true);
    assert BETWEEN_CHUNKS.strings.Keys == {} && order[0] == QUOTING;
    assert !InTime(AFTER_THE_LAST, BETWEEN_CHUNKS, Obj(order[0].rest));
  }

  /** Whether two polls, or the first of them, leave a right page. */
  lemma TwoPolls(all: Index, order: seq<Wire>, first: Poll, second: Poll)
    requires Possible(order, first) && Possible(order, second)
    ensures AllPossible(order, [first]) && AllPossible(order, [first, second])
    ensures PollsFit(all, order, 0, [first], {}, true) <==> PollFits(all, order, 0, first, {}, true)
    ensures PollsFit(all, order, 0, [first, second], {}, true)
            <==> PollFits(all, order, HeldAfter(order, 0, first), second, HaveAfterPoll(order, 0, first, {}),
                          PollFits(all, order, 0, first, {}, true))
  {
    assert [first, second][1..] == [second];
    OnePoll(all, order, 0, first, {}, true);
    OnePoll(all, order, HeldAfter(order, 0, first), second, HaveAfterPoll(order, 0, first, {}),
            PollFits(all, order, 0, first, {}, true));
  }

  lemma OnePoll(all: Index, order: seq<Wire>, held: nat, poll: Poll, have: set<string>, good: bool)
    requires Possible(order, poll)
    ensures PollsFit(all, order, held, [poll], have, good) <==> PollFits(all, order, held, poll, have, good)
  {
    var none: seq<Poll> := [];
    assert [poll][1..] == none;
    assert PollsFit(all, order, HeldAfter(order, held, poll), none, HaveAfterPoll(order, held, poll, have),
                    PollFits(all, order, held, poll, have, good))
        == PollFits(all, order, held, poll, have, good);
  }

  lemma TwoGrow(all: Index, first: Poll, second: Poll, ix: Index, ix': Index)
    requires first.index == Resting(ix) && first.full == Resting(ix)
    requires second.index == Resting(ix') && second.full == Resting(ix')
    requires Within(ix, ix') && Within(ix', all)
    ensures AllGrow(all, [first, second])
  {
    forall i, j, k: nat | 0 <= i < j < |[first, second]|
      ensures [first, second][i].full(k).blobs.Keys <= [first, second][j].index(0).blobs.Keys
    {
      assert i == 0 && j == 1;
    }
    assert Grows(all, first) && Grows(all, second);
  }

  /**
    A poll that falls between two chunks is sent a clean record whose string is not stored yet. The page shows the
    pointer, and goes on showing it: the next poll asks only for what comes behind.
    */
  lemma LateStringIsLost()
    ensures var polls := [PollOf(1, None, BETWEEN_CHUNKS), PollOf(1, None, AFTER_THE_LAST)];
            && AllPossible([QUOTING], polls) && AllGrow(AFTER_THE_LAST, polls) && CleanRecords([QUOTING])
            && AllPolled([QUOTING], EMPTY_PAGE, polls).reqs != AllMeant(AFTER_THE_LAST, [QUOTING])
  {
    var first, second := PollOf(1, None, BETWEEN_CHUNKS), PollOf(1, None, AFTER_THE_LAST);
    QuotingIsClean();
    FirstPollMisses();
    TwoPolls(AFTER_THE_LAST, [QUOTING], first, second);
    TwoGrow(AFTER_THE_LAST, first, second, BETWEEN_CHUNKS, AFTER_THE_LAST);
    WrongUnlessFits(AFTER_THE_LAST, [QUOTING], [first, second]);
  }

  lemma WrongUnlessFits(all: Index, order: seq<Wire>, polls: seq<Poll>)
    requires PointerKeys(all.strings) && AllPossible(order, polls) && AllGrow(all, polls)
    requires !PollsFit(all, order, 0, polls, {}, true)
    ensures AllPolled(order, EMPTY_PAGE, polls).reqs != AllMeant(all, order)
  {
    AnyCutsExact(all, order, polls);
    assert order[..|order|] == order;
  }

  /** A poll that loads everything again, the list entry lagging, repairs it. */
  lemma LateStringRepaired()
    ensures var order, first := [QUOTING, QUOTING], PollOf(1, None, BETWEEN_CHUNKS);
            var polls := [first, PollOf(2, Some(0), AFTER_THE_LAST)];
            && AllPossible(order, polls) && AllPossible(order, [first]) && AllGrow(AFTER_THE_LAST, polls)
            && !PollsFit(AFTER_THE_LAST, order, 0, [first], {}, true)
            && PollsFit(AFTER_THE_LAST, order, 0, polls, {}, true)
  {
    var order, first, second := [QUOTING, QUOTING], PollOf(1, None, BETWEEN_CHUNKS), PollOf(2, Some(0), AFTER_THE_LAST);
    QuotingIsClean();
    FirstOfTwoMisses();
    TwoPolls(AFTER_THE_LAST, order, first, second);
    TwoGrow(AFTER_THE_LAST, first, second, BETWEEN_CHUNKS, AFTER_THE_LAST);
    ReloadFits(HaveAfterPoll(order, 0, first, {}));
  }

  lemma ReloadFits(have: set<string>)
    ensures PollFits(AFTER_THE_LAST, [QUOTING, QUOTING], 1, PollOf(2, Some(0), AFTER_THE_LAST), have, false)
  {
    var order, poll := [QUOTING, QUOTING], PollOf(2, Some(0), AFTER_THE_LAST);
    assert order[..2] == order && Asked(order, 1, poll) == [QUOTING];
    assert Rebuilds(order, 1, poll);
    TwoAreComplete();
    CompletePollFits(AFTER_THE_LAST, order, 1, poll, have);
  }

  lemma FirstOfTwoMisses()
    ensures var order, poll := [QUOTING, QUOTING], PollOf(1, None, BETWEEN_CHUNKS);
            HeldAfter(order, 0, poll) == 1 && !PollFits(AFTER_THE_LAST, order, 0, poll, {}, true)
  {
    FirstPollMisses();
    assert [QUOTING, QUOTING][..1] == [QUOTING] && [QUOTING][..1] == [QUOTING];
  }

  lemma TwoAreComplete()
    ensures var order := [QUOTING, QUOTING];
            CleanContent(AFTER_THE_LAST, order) && Complete(AFTER_THE_LAST, order, AFTER_THE_LAST)
  {
    QuotingIsClean();
    var order := [QUOTING, QUOTING];
    assert order[1..] == [QUOTING];
    KnownIff(Obj(QUOTING.rest), AFTER_THE_LAST.strings.Keys, AFTER_THE_LAST.strings);
  }
}
