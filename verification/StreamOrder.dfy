/**
  The order a merged session is shown in (agent_wrap/domain/logs/stream.py, `_order`), and exactly when
  a session that gained records has only grown at the end of it.
  */
module StreamOrder {
  import opened Totals
  import opened Sorting

  datatype Position = Position(key: int, dir: nat, ordinal: nat)

  /** One directory's start instants, in append order. */
  type Instants = seq<Option<int>>

  /** A record without an instant stands where the last one with an instant did. */
  function KeyAt(instants: Instants, o: nat): int
    requires o < |instants|
  {
    if instants[o].Some? then instants[o].value else if o == 0 then 0 else KeyAt(instants, o - 1)
  }

  function Listed(instants: Instants, d: nat, o: nat): seq<Position>
    requires o <= |instants|
    decreases |instants| - o
  {
    if o == |instants| then [] else [Position(KeyAt(instants, o), d, o)] + Listed(instants, d, o + 1)
  }

  function AllListed(dirs: seq<Instants>, d: nat): seq<Position>
    requires d <= |dirs|
    decreases |dirs| - d
  {
    if d == |dirs| then [] else Listed(dirs[d], d, 0) + AllListed(dirs, d + 1)
  }

  function ByKey(p: Position, q: Position): bool {
    p.key < q.key
  }

  function Arranged(dirs: seq<Instants>): seq<Position> {
    Sorted(ByKey, AllListed(dirs, 0))
  }

  method ShownOrder(dirs: seq<Instants>) returns (positions: seq<Position>)
    ensures positions == Arranged(dirs)
  {
    positions := [];
    for d := 0 to |dirs|
      invariant positions + AllListed(dirs, d) == AllListed(dirs, 0)
    {
      var last := 0;
      ghost var before := positions;
      for o := 0 to |dirs[d]|
        invariant last == if o == 0 then 0 else KeyAt(dirs[d], o - 1)
        invariant positions + Listed(dirs[d], d, o) == before + Listed(dirs[d], d, 0)
      {
        if dirs[d][o].Some? {
          last := dirs[d][o].value;
        }
        positions := positions + [Position(last, d, o)];
      }
      assert positions == before + Listed(dirs[d], d, 0);
    }
    assert positions == AllListed(dirs, 0);
    positions := Sorted(ByKey, positions);
  }

  // ---- what the order is --------------------------------------------------------------------------

  predicate Earlier(p: Position, q: Position) {
    p.dir < q.dir || (p.dir == q.dir && p.ordinal < q.ordinal)
  }

  /** By instant; records of one instant stay in directory order, and in append order within a directory. */
  predicate Less(p: Position, q: Position) {
    p.key < q.key || (p.key == q.key && Earlier(p, q))
  }

  ghost predicate Ascending(ps: seq<Position>, less: (Position, Position) -> bool) {
    forall i, j :: 0 <= i < j < |ps| ==> less(ps[i], ps[j])
  }

  ghost predicate IsPosition(dirs: seq<Instants>, p: Position) {
    p.dir < |dirs| && p.ordinal < |dirs[p.dir]| && p.key == KeyAt(dirs[p.dir], p.ordinal)
  }

  lemma {:induction false} ListedIs(instants: Instants, d: nat, o: nat)
    requires o <= |instants|
    ensures Ascending(Listed(instants, d, o), Earlier)
    ensures forall p :: p in Listed(instants, d, o)
                        <==> p.dir == d && o <= p.ordinal < |instants| && p.key == KeyAt(instants, p.ordinal)
    decreases |instants| - o
  {
    if o < |instants| {
      ListedIs(instants, d, o + 1);
      AscendingCons(Position(KeyAt(instants, o), d, o), Listed(instants, d, o + 1), Earlier);
    }
  }

  lemma AscendingCons(p: Position, ps: seq<Position>, less: (Position, Position) -> bool)
    requires Ascending(ps, less) && forall q :: q in ps ==> less(p, q)
    ensures Ascending([p] + ps, less)
  {
    forall i, j | 0 <= i < j < |[p] + ps|
      ensures less(([p] + ps)[i], ([p] + ps)[j])
    {
      assert ([p] + ps)[j] == ps[j - 1];
    }
  }

  lemma {:induction false} AllListedIs(dirs: seq<Instants>, d: nat)
    requires d <= |dirs|
    ensures Ascending(AllListed(dirs, d), Earlier)
    ensures forall p :: p in AllListed(dirs, d) <==> IsPosition(dirs, p) && d <= p.dir
    decreases |dirs| - d
  {
    if d < |dirs| {
      ListedIs(dirs[d], d, 0);
      AllListedIs(dirs, d + 1);
      var a, b := Listed(dirs[d], d, 0), AllListed(dirs, d + 1);
      forall i, j | 0 <= i < j < |a + b|
        ensures Earlier((a + b)[i], (a + b)[j])
      {
        if i < |a| <= j { assert a[i] in a && b[j - |a|] in b; }
      }
    }
  }

  lemma {:induction false} InsertedIs(p: Position, ps: seq<Position>)
    requires Ascending(ps, Less) && forall q :: q in ps ==> Earlier(p, q)
    ensures Ascending(Inserted(ByKey, p, ps), Less)
    ensures forall q :: q in Inserted(ByKey, p, ps) <==> q == p || q in ps
  {
    if ps != [] && ps[0].key < p.key {
      assert forall q :: q in ps <==> q == ps[0] || q in ps[1..];
      InsertedIs(p, ps[1..]);
      forall q | q in ps[1..]
        ensures Less(ps[0], q)
      {
        var j :| 0 <= j < |ps[1..]| && ps[1..][j] == q;
        assert q == ps[j + 1];
      }
      AscendingCons(ps[0], Inserted(ByKey, p, ps[1..]), Less);
    } else {
      forall q | q in ps
        ensures Less(p, q)
      {
        var j :| 0 <= j < |ps| && ps[j] == q;
        assert j > 0 ==> Less(ps[0], ps[j]);
      }
      AscendingCons(p, ps, Less);
    }
  }

  lemma {:induction false} SortedIs(ps: seq<Position>)
    requires Ascending(ps, Earlier)
    ensures Ascending(Sorted(ByKey, ps), Less)
    ensures forall p :: p in Sorted(ByKey, ps) <==> p in ps
  {
    if ps != [] {
      SortedIs(ps[1..]);
      assert forall p :: p in ps <==> p == ps[0] || p in ps[1..];
      forall q | q in ps[1..]
        ensures Earlier(ps[0], q)
      {
        var j :| 0 <= j < |ps[1..]| && ps[1..][j] == q;
        assert q == ps[j + 1];
      }
      InsertedIs(ps[0], Sorted(ByKey, ps[1..]));
    }
  }

  /** Every record once, by instant, directory and ordinal. */
  lemma OrderIs(dirs: seq<Instants>)
    ensures Ascending(Arranged(dirs), Less)
    ensures forall p :: p in Arranged(dirs) <==> IsPosition(dirs, p)
  {
    AllListedIs(dirs, 0);
    SortedIs(AllListed(dirs, 0));
  }

  // ---- when it only grows at its end --------------------------------------------------------------

  /** Each directory's log only got longer. */
  ghost predicate Longer(dirs: seq<Instants>, dirs': seq<Instants>) {
    |dirs| == |dirs'| && forall d :: 0 <= d < |dirs| ==> dirs[d] <= dirs'[d]
  }

  ghost predicate IsNew(dirs: seq<Instants>, dirs': seq<Instants>, p: Position) {
    IsPosition(dirs', p) && (p.dir < |dirs| ==> |dirs[p.dir]| <= p.ordinal)
  }

  /** Every new record belongs behind every old one. */
  ghost predicate NewFollowOld(dirs: seq<Instants>, dirs': seq<Instants>) {
    forall p, q :: IsPosition(dirs, p) && IsNew(dirs, dirs', q) ==> Less(p, q)
  }

  lemma {:induction false} KeyKept(a: Instants, b: Instants, o: nat)
    requires a <= b && o < |a|
    ensures KeyAt(a, o) == KeyAt(b, o)
  {
    assert a[o] == b[o];
    if o > 0 { KeyKept(a, b, o - 1); }
  }

  lemma OldPositions(dirs: seq<Instants>, dirs': seq<Instants>, p: Position)
    requires Longer(dirs, dirs')
    ensures IsPosition(dirs', p) <==> IsPosition(dirs, p) || IsNew(dirs, dirs', p)
    ensures !(IsPosition(dirs, p) && IsNew(dirs, dirs', p))
  {
    if p.dir < |dirs| && p.ordinal < |dirs[p.dir]| { KeyKept(dirs[p.dir], dirs'[p.dir], p.ordinal); }
  }

  lemma {:induction false} SmallerFirst(a: seq<Position>, b: seq<Position>)
    requires Ascending(a, Less) && Ascending(b, Less) && forall p :: p in a ==> p in b
    requires forall p, q :: p in a && q in b && q !in a ==> Less(p, q)
    ensures a <= b
  {
    if a != [] {
      assert a[0] in a && a[0] in b && b[0] in b;
      assert Less(a[0], b[0]) || b[0] in a;
      assert forall i :: 0 < i < |a| ==> Less(a[0], a[i]);
      assert forall j :: 0 < j < |b| ==> Less(b[0], b[j]);
      assert a[0] == b[0];
      forall p | p in a[1..]
        ensures p in b[1..] && p != b[0]
      {
        var k :| 0 <= k < |a[1..]| && a[1..][k] == p;
        assert p == a[k + 1] && Less(a[0], a[k + 1]) && a[k + 1] in a;
        var m :| 0 <= m < |b| && b[m] == p;
        assert b[m] == b[1..][m - 1];
      }
      forall p, q | p in a[1..] && q in b[1..] && q !in a[1..]
        ensures Less(p, q)
      {
        var k :| 0 <= k < |b[1..]| && b[1..][k] == q;
        assert q == b[k + 1] && Less(b[0], b[k + 1]);
        assert q !in a;
      }
      SmallerFirst(a[1..], b[1..]);
      assert a == [a[0]] + a[1..] && b == [b[0]] + b[1..];
    }
  }

  /** The order of a longer session starts with the old order if and only if every new record follows every old one. */
  lemma GrowsAtItsEnd(dirs: seq<Instants>, dirs': seq<Instants>)
    requires Longer(dirs, dirs')
    ensures Arranged(dirs) <= Arranged(dirs') <==> NewFollowOld(dirs, dirs')
  {
    var a, b := Arranged(dirs), Arranged(dirs');
    OrderIs(dirs);
    OrderIs(dirs');
    forall p
      ensures p in b <==> p in a || IsNew(dirs, dirs', p)
      ensures !(p in a && IsNew(dirs, dirs', p))
    {
      OldPositions(dirs, dirs', p);
    }
    if NewFollowOld(dirs, dirs') {
      SmallerFirst(a, b);
    }
    if a <= b {
      forall p, q | IsPosition(dirs, p) && IsNew(dirs, dirs', q)
        ensures Less(p, q)
      {
        PrefixFirst(a, b, p, q);
      }
    }
  }

  lemma PrefixFirst(a: seq<Position>, b: seq<Position>, p: Position, q: Position)
    requires a <= b && Ascending(b, Less) && p in a && q in b && q !in a
    ensures Less(p, q)
  {
    var i :| 0 <= i < |a| && a[i] == p;
    var j :| 0 <= j < |b| && b[j] == q;
    assert forall k :: 0 <= k < |a| ==> b[k] == a[k] && b[k] in a;
  }

  ghost predicate NoneStartsEarlier(a: Instants, b: Instants) {
    forall o, n :: 0 <= o < |a| <= n < |b| ==> KeyAt(a, o) <= KeyAt(b, n)
  }

  /** With one directory that means: no new record starts before an old one. */
  lemma OneDirectoryGrowsAtItsEnd(a: Instants, b: Instants)
    requires a <= b
    ensures Arranged([a]) <= Arranged([b]) <==> NoneStartsEarlier(a, b)
  {
    GrowsAtItsEnd([a], [b]);
    OneDirectoryFollows(a, b);
    OneDirectoryNeeds(a, b);
  }

  lemma OneDirectoryNeeds(a: Instants, b: Instants)
    requires a <= b
    ensures NewFollowOld([a], [b]) ==> NoneStartsEarlier(a, b)
  {
    if NewFollowOld([a], [b]) {
      forall o, n | 0 <= o < |a| <= n < |b|
        ensures KeyAt(a, o) <= KeyAt(b, n)
      {
        OneDirectoryPositions(a, b, o, n);
      }
    }
  }

  lemma OneDirectoryFollows(a: Instants, b: Instants)
    requires a <= b
    ensures NoneStartsEarlier(a, b) ==> NewFollowOld([a], [b])
  {
    forall p, q | NoneStartsEarlier(a, b) && IsPosition([a], p) && IsNew([a], [b], q)
      ensures Less(p, q)
    {
      assert KeyAt(a, p.ordinal) <= KeyAt(b, q.ordinal);
    }
  }

  lemma OneDirectoryPositions(a: Instants, b: Instants, o: nat, n: nat)
    requires a <= b && o < |a| <= n < |b|
    ensures IsPosition([a], Position(KeyAt(a, o), 0, o)) && IsNew([a], [b], Position(KeyAt(b, n), 0, n))
  {
  }

  /** Two directories can break it: a record logged late in one may start before what the other already showed. */
  lemma LateRecordGoesInBetween()
    ensures var old_, new_ := [[Some(2)], []], [[Some(2)], [Some(1)]];
            Longer(old_, new_) && !(Arranged(old_) <= Arranged(new_))
  {
    var old_: seq<Instants>, new_: seq<Instants> := [[Some(2)], []], [[Some(2)], [Some(1)]];
    GrowsAtItsEnd(old_, new_);
    assert IsPosition(old_, Position(2, 0, 0)) && IsNew(old_, new_, Position(1, 1, 0));
  }
}
