/**
  What an open page makes of a session whose order has changed under it (agent_wrap/domain/logs/stream.py, `_order`,
  against the tick of logs_page/app.js): it asks for what comes behind as many records as it has.
  */
module SessionOrder {
  import opened Totals
  import opened Json
  import opened Stream
  import opened Viewer
  import opened StreamOrder
  import opened SessionRebuild
  import opened SessionExact
  import opened SessionPolls

  /** The records at these positions. */
  function RecordsAt(at: Position -> Wire, ps: seq<Position>): (r: seq<Wire>)
    ensures |r| == |ps|
    ensures forall i :: 0 <= i < |ps| ==> r[i] == at(ps[i])
  {
    if ps == [] then [] else [at(ps[0])] + RecordsAt(at, ps[1..])
  }

  /** No two records of the session mean the same. */
  ghost predicate Distinguishable(all: Index, at: Position -> Wire, dirs: seq<Instants>) {
    forall p, q :: IsPosition(dirs, p) && IsPosition(dirs, q) && Meant(all, at(p)) == Meant(all, at(q)) ==> p == q
  }

  lemma {:induction false} SamePositions(all: Index, at: Position -> Wire, dirs: seq<Instants>, a: seq<Position>,
                                         b: seq<Position>)
    requires Distinguishable(all, at, dirs) && |a| == |b|
    requires forall p :: p in a || p in b ==> IsPosition(dirs, p)
    requires AllMeant(all, RecordsAt(at, a)) == AllMeant(all, RecordsAt(at, b))
    ensures a == b
  {
    forall i | 0 <= i < |a|
      ensures a[i] == b[i]
    {
      AllMeantAt(all, RecordsAt(at, a), i);
      AllMeantAt(all, RecordsAt(at, b), i);
      assert a[i] in a && b[i] in b;
    }
  }

  lemma OldArePositions(dirs: seq<Instants>, dirs': seq<Instants>)
    requires Longer(dirs, dirs')
    ensures forall p :: p in Arranged(dirs) || p in Arranged(dirs') ==> IsPosition(dirs', p)
    ensures |Arranged(dirs)| <= |Arranged(dirs')|
  {
    OrderIs(dirs);
    OrderIs(dirs');
    forall p | p in Arranged(dirs)
      ensures IsPosition(dirs', p)
    {
      OldPositions(dirs, dirs', p);
    }
    NoMoreThan(Arranged(dirs), Arranged(dirs'));
  }

  /** In ascending order nothing comes twice, so fewer members are fewer elements. */
  lemma NoMoreThan(a: seq<Position>, b: seq<Position>)
    requires Ascending(a, Less) && forall p :: p in a ==> p in b
    ensures |a| <= |b|
  {
    var members := set p | p in a;
    DistinctCount(a);
    AtMost(b);
    assert members <= set p | p in b;
    SubsetCount(members, set p | p in b);
  }

  lemma {:induction false} DistinctCount(a: seq<Position>)
    requires Ascending(a, Less)
    ensures |set p | p in a| == |a|
  {
    if a != [] {
      assert Ascending(a[1..], Less);
      DistinctCount(a[1..]);
      assert forall i :: 0 < i < |a| ==> Less(a[0], a[i]);
      assert (set p | p in a) == {a[0]} + set p | p in a[1..];
      assert a[0] !in a[1..];
    }
  }

  lemma {:induction false} AtMost(b: seq<Position>)
    ensures |set p | p in b| <= |b|
  {
    if b != [] {
      AtMost(b[1..]);
      assert (set p | p in b) == {b[0]} + set p | p in b[1..];
    }
  }

  lemma SubsetCount<T>(a: set<T>, b: set<T>)
    requires a <= b
    ensures |a| <= |b|
  {
    assert b == a + (b - a);
  }

  lemma PrefixOfRecords(at: Position -> Wire, a: seq<Position>, b: seq<Position>)
    requires |a| <= |b|
    ensures RecordsAt(at, b)[..|a|] == RecordsAt(at, b[..|a|])
  {
  }

  /** The whole session was on the page, and more of it has been logged since. */
  ghost predicate ShowsAll(all: Index, at: Position -> Wire, dirs: seq<Instants>, page: OnPage) {
    Shows(all, RecordsAt(at, Arranged(dirs)), page)
  }

  /**
    A poll for the longer session, appending what comes behind, leaves the page right if and only if every new record
    belongs behind every old one and what is sent fits: otherwise the page repeats and misses records.
    */
  lemma LongerSessionIff(all: Index, at: Position -> Wire, dirs: seq<Instants>, dirs': seq<Instants>, page: OnPage,
                         poll: Poll)
    requires PointerKeys(all.strings) && Longer(dirs, dirs') && Distinguishable(all, at, dirs')
    requires ShowsAll(all, at, dirs, page)
    requires var order := RecordsAt(at, Arranged(dirs'));
             && Possible(order, poll) && poll.known == |order| && poll.limit.None?
             && !Rebuilds(order, |page.reqs|, poll)
    requires Grows(all, poll) && OnFile(all, poll, page.view)
    ensures var order := RecordsAt(at, Arranged(dirs'));
            Polled(order, page, poll).reqs == AllMeant(all, order)
            <==> NewFollowOld(dirs, dirs') && AnswerFits(all, order, |page.reqs|, poll, page.view.strings.Keys)
  {
    var a, b := Arranged(dirs), Arranged(dirs');
    var order, n := RecordsAt(at, b), |page.reqs|;
    OldArePositions(dirs, dirs');
    PrefixOfRecords(at, a, b);
    PolledIs(order, page, poll);
    AskedIsRest(order, n, poll);
    GrowsAtItsEnd(dirs, dirs');
    if NewFollowOld(dirs, dirs') {
      assert b[..n] == a;
      PrefixStatus(all, order, page, poll);
    } else if Polled(order, page, poll).reqs == AllMeant(all, order) {
      MeantPrefix(all, order, n);
      OnlyAPrefixMeansTheSame(all, at, dirs, dirs');
    }
  }

  lemma OnlyAPrefixMeansTheSame(all: Index, at: Position -> Wire, dirs: seq<Instants>, dirs': seq<Instants>)
    requires Longer(dirs, dirs') && Distinguishable(all, at, dirs')
    requires var n, order := |Arranged(dirs)|, RecordsAt(at, Arranged(dirs'));
             n <= |order| && AllMeant(all, RecordsAt(at, Arranged(dirs))) == AllMeant(all, order[..n])
    ensures Arranged(dirs) <= Arranged(dirs')
  {
    var a, b := Arranged(dirs), Arranged(dirs');
    OldArePositions(dirs, dirs');
    PrefixOfRecords(at, a, b);
    SamePositions(all, at, dirs', a, b[..|a|]);
  }

  lemma AskedIsRest(order: seq<Wire>, held: nat, poll: Poll)
    requires Possible(order, poll) && poll.known == |order| && poll.limit.None? && held <= |order|
    ensures Asked(order, held, poll) == order[held..]
  {
    assert order[..|order|] == order;
  }

  lemma MeantPrefix(all: Index, order: seq<Wire>, n: nat)
    requires n <= |order|
    ensures AllMeant(all, order)[..n] == AllMeant(all, order[..n])
  {
    Halves(order, n);
    AllMeantAppend(all, order[..n], order[n..]);
  }

  lemma PrefixStatus(all: Index, order: seq<Wire>, page: OnPage, poll: Poll)
    requires PointerKeys(all.strings) && |page.reqs| <= |order| && Shows(all, order[..|page.reqs|], page)
    requires Possible(order, poll) && poll.known == |order| && poll.limit.None? && !Rebuilds(order, |page.reqs|, poll)
    requires Grows(all, poll) && OnFile(all, poll, page.view)
    ensures Polled(order, page, poll).reqs == AllMeant(all, order)
            <==> AnswerFits(all, order, |page.reqs|, poll, page.view.strings.Keys)
  {
    PollOutcome(all, order, page, poll, true);
    AskedIsRest(order, |page.reqs|, poll);
    assert order[..|order|] == order;
  }

  /** Whatever the order has become, the page then shows what it had, and behind it what the order has from there. */
  lemma ShowsWhatComesBehind(all: Index, order: seq<Wire>, page: OnPage, poll: Poll)
    requires PointerKeys(all.strings) && Possible(order, poll) && !Rebuilds(order, |page.reqs|, poll)
    requires Grows(all, poll) && OnFile(all, poll, page.view)
    requires Holds(all, page.view, AlreadySent(order[..poll.known], |page.reqs|).blobs)
    requires AnswerFits(all, order, |page.reqs|, poll, page.view.strings.Keys)
    ensures Polled(order, page, poll).reqs == page.reqs + AllMeant(all, Asked(order, |page.reqs|, poll))
  {
    var more, sent := Asked(order, |page.reqs|, poll), AlreadySent(order[..poll.known], |page.reqs|);
    PolledIs(order, page, poll);
    HeaderChangesNothing(page.view, poll.listed, AllBatches(poll.index, 0, more, poll.size, sent));
    ResponseExact(all, poll.index, 0, page.view, more, poll.size, sent);
  }

  const NOTHING_STORED := Index(map[], map[])

  /** Records told apart by their directory. */
  function Numbered(p: Position): Wire {
    Wire([], None, None, [Field("n", Num(Decimal(p.dir)))])
  }

  lemma NumberedFits(w: Position)
    ensures ValueFits(NOTHING_STORED, Obj(Numbered(w).rest), {}) && RefsOf(Numbered(w)) == {}
  {
    KnownIff(Obj(Numbered(w).rest), {}, NOTHING_STORED.strings);
  }

  const FIRST := Position(2, 0, 0)
  const LATE := Position(1, 1, 0)

  function FirstShown(): Shown {
    Meant(NOTHING_STORED, Numbered(FIRST))
  }

  function LatePoll(): Poll {
    Poll(2, None, 1, None, (j: nat) => NOTHING_STORED, 2, (j: nat) => NOTHING_STORED)
  }

  /**
    The second directory's record is logged late and belongs in front: the open page, which has one record, is sent
    the second of the new order, shows the first directory's record twice, and the late one never.
    */
  lemma LateRecordIsNeverShown()
    ensures Arranged([[Some(2)], [Some(1)]]) == [LATE, FIRST]
    ensures var order := RecordsAt(Numbered, [LATE, FIRST]);
            Possible(order, LatePoll())
            && Polled(order, OnPage(View(map[], map[]), [FirstShown()]), LatePoll()).reqs
               == [FirstShown(), FirstShown()]
  {
    TwoArranged();
    TwoRecords();
    LateShown([Numbered(LATE), Numbered(FIRST)], OnPage(View(map[], map[]), [FirstShown()]));
  }

  lemma TwoRecords()
    ensures RecordsAt(Numbered, [LATE, FIRST]) == [Numbered(LATE), Numbered(FIRST)]
  {
  }

  lemma LateShown(order: seq<Wire>, page: OnPage)
    requires order == [Numbered(LATE), Numbered(FIRST)] && page == OnPage(View(map[], map[]), [FirstShown()])
    ensures Polled(order, page, LatePoll()).reqs == [FirstShown(), FirstShown()]
  {
    SecondFits(LatePoll(), order);
    assert page.view.strings.Keys == {};
    assert Asked(order, 1, LatePoll()) == [Numbered(FIRST)] by { assert order[..2] == order; }
    ShowsWhatComesBehind(NOTHING_STORED, order, page, LatePoll());
    OneMeant(Numbered(FIRST));
  }

  lemma OneMeant(w: Wire)
    ensures AllMeant(NOTHING_STORED, [w]) == [Meant(NOTHING_STORED, w)]
  {
    assert [w][1..] == [];
  }

  lemma SecondFits(poll: Poll, order: seq<Wire>)
    requires order == [Numbered(LATE), Numbered(FIRST)] && Possible(order, poll)
    requires poll.known == 2 && poll.limit == None && poll.size == 1 && poll.index(0) == NOTHING_STORED
    ensures AnswerFits(NOTHING_STORED, order, 1, poll, {}) && AlreadySent(order[..poll.known], 1).blobs == {}
  {
    var first := FIRST;
    NumberedFits(FIRST);
    NumberedFits(LATE);
    assert order[..2] == order && Asked(order, 1, poll) == [Numbered(first)];
    assert [Numbered(first)][..1] == [Numbered(first)] && [Numbered(first)][1..] == [];
    assert AllRefs([Numbered(first)]) == {};
    var sent := AlreadySent(order, 1);
    assert HaveAfter(NOTHING_STORED, [Numbered(first)], sent, {}) == {};
    assert BatchFits(NOTHING_STORED, NOTHING_STORED, [Numbered(first)], sent, {});
  }

  lemma TwoArranged()
    ensures Arranged([[Some(2)], [Some(1)]]) == [Position(1, 1, 0), Position(2, 0, 0)]
  {
    var dirs: seq<Instants> := [[Some(2)], [Some(1)]];
    OrderIs(dirs);
    assert Ascending([Position(1, 1, 0), Position(2, 0, 0)], Less);
    forall p
      ensures IsPosition(dirs, p) <==> p in [Position(1, 1, 0), Position(2, 0, 0)]
    {
    }
    SmallerFirst([Position(1, 1, 0), Position(2, 0, 0)], Arranged(dirs));
    SmallerFirst(Arranged(dirs), [Position(1, 1, 0), Position(2, 0, 0)]);
  }
}
