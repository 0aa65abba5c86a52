/** Python's `sorted`: stable, by any order that can rank its elements. */
module Sorting {

  type Order<!T> = (T, T) -> bool

  /** Equal elements stay in the order they came in. */
  function Sorted<T>(less: Order<T>, s: seq<T>): (r: seq<T>)
    ensures multiset(r) == multiset(s)
  {
    if s == [] then []
    else
      assert s == [s[0]] + s[1..];
      Inserted(less, s[0], Sorted(less, s[1..]))
  }

  function Inserted<T>(less: Order<T>, x: T, s: seq<T>): (r: seq<T>)
    ensures multiset(r) == multiset(s) + multiset{x}
  {
    if s == [] then [x]
    else if less(s[0], x) then
      assert s == [s[0]] + s[1..];
      [s[0]] + Inserted(less, x, s[1..])
    else [x] + s
  }

  ghost predicate InOrder<T(!new)>(less: Order<T>, s: seq<T>) {
    forall i, j :: 0 <= i < j < |s| ==> !less(s[j], s[i])
  }

  /** Elements neither of which is less count as equal, and that is transitive. */
  ghost predicate WeakOrder<T(!new)>(less: Order<T>) {
    && (forall a, b :: !(less(a, b) && less(b, a)))
    && (forall a, b, c :: less(a, b) && !less(c, b) ==> less(a, c))
  }

  lemma ConsInOrder<T(!new)>(less: Order<T>, x: T, s: seq<T>)
    requires InOrder(less, s) && forall y :: y in s ==> !less(y, x)
    ensures InOrder(less, [x] + s)
  {
    var all := [x] + s;
    forall i, j | 0 <= i < j < |all|
      ensures !less(all[j], all[i])
    {
      assert all[j] == s[j - 1];
    }
  }

  lemma {:induction false} InsertedInOrder<T(!new)>(less: Order<T>, x: T, s: seq<T>)
    requires WeakOrder(less) && InOrder(less, s)
    ensures InOrder(less, Inserted(less, x, s))
    ensures forall y :: y in Inserted(less, x, s) ==> y == x || y in s
  {
    if s != [] {
      if less(s[0], x) {
        InsertedInOrder(less, x, s[1..]);
        ConsInOrder(less, s[0], Inserted(less, x, s[1..]));
      } else {
        ConsInOrder(less, x, s);
      }
    }
  }

  lemma {:induction false} SortedInOrder<T(!new)>(less: Order<T>, s: seq<T>)
    requires WeakOrder(less)
    ensures InOrder(less, Sorted(less, s))
    ensures forall x :: x in Sorted(less, s) ==> x in s
  {
    if s != [] {
      SortedInOrder(less, s[1..]);
      InsertedInOrder(less, s[0], Sorted(less, s[1..]));
    }
  }

  /** Stability: what holds between earlier and later elements holds of sorted ones that do not differ in rank. */
  lemma {:induction false} SortedStable<T(!new)>(less: Order<T>, s: seq<T>, rel: (T, T) -> bool)
    requires forall i, j :: 0 <= i < j < |s| ==> rel(s[i], s[j])
    ensures Stably(less, Sorted(less, s), rel)
    ensures forall x :: x in Sorted(less, s) ==> x in s
  {
    if s != [] {
      SortedStable(less, s[1..], rel);
      InsertedStable(less, s[0], Sorted(less, s[1..]), rel);
    }
  }

  ghost predicate Stably<T(!new)>(less: Order<T>, s: seq<T>, rel: (T, T) -> bool) {
    forall i, j :: 0 <= i < j < |s| ==> less(s[i], s[j]) || rel(s[i], s[j])
  }

  lemma {:induction false} InsertedStable<T(!new)>(less: Order<T>, x: T, s: seq<T>, rel: (T, T) -> bool)
    requires Stably(less, s, rel) && forall y :: y in s ==> rel(x, y)
    ensures Stably(less, Inserted(less, x, s), rel)
    ensures forall y :: y in Inserted(less, x, s) ==> y == x || y in s
  {
    if s != [] && less(s[0], x) {
      StableTail(less, s, rel);
      InsertedStable(less, x, s[1..], rel);
      ConsStable(less, s[0], Inserted(less, x, s[1..]), rel);
    } else {
      ConsStable(less, x, s, rel);
    }
  }

  lemma ConsStable<T(!new)>(less: Order<T>, x: T, s: seq<T>, rel: (T, T) -> bool)
    requires Stably(less, s, rel) && forall y :: y in s ==> less(x, y) || rel(x, y)
    ensures Stably(less, [x] + s, rel)
  {
    var all := [x] + s;
    forall i, j | 0 <= i < j < |all|
      ensures less(all[i], all[j]) || rel(all[i], all[j])
    {
      assert all[j] == s[j - 1];
    }
  }

  lemma StableTail<T(!new)>(less: Order<T>, s: seq<T>, rel: (T, T) -> bool)
    requires s != [] && Stably(less, s, rel)
    ensures Stably(less, s[1..], rel) && forall y :: y in s[1..] ==> (less(s[0], y) || rel(s[0], y)) && y in s
  {
    forall y | y in s[1..]
      ensures (less(s[0], y) || rel(s[0], y)) && y in s
    {
      var k :| 0 <= k < |s[1..]| && s[1..][k] == y;
      assert s[k + 1] == y;
    }
  }

  /** An order that tells apart the elements at hand leaves one way to arrange them. */
  lemma {:induction false} OneArrangement<T(!new)>(less: Order<T>, a: seq<T>, b: seq<T>)
    requires WeakOrder(less) && InOrder(less, a) && InOrder(less, b) && multiset(a) == multiset(b)
    requires forall x, y :: x in a && y in a && !less(x, y) && !less(y, x) ==> x == y
    ensures a == b
    decreases |a|
  {
    if a == [] {
      assert |multiset(b)| == |multiset(a)|;
    } else {
      SameHead(less, a, b);
      TailOf(a);
      TailOf(b);
      TailInOrder(less, a);
      TailInOrder(less, b);
      OneArrangement(less, a[1..], b[1..]);
      assert a == [a[0]] + a[1..] && b == [b[0]] + b[1..];
    }
  }

  lemma TailInOrder<T(!new)>(less: Order<T>, s: seq<T>)
    requires s != [] && InOrder(less, s)
    ensures InOrder(less, s[1..])
  {
  }

  lemma TailOf<T>(s: seq<T>)
    requires s != []
    ensures multiset(s[1..]) == multiset(s) - multiset{s[0]}
    ensures forall x :: x in s[1..] ==> x in s
  {
    assert s == [s[0]] + s[1..];
  }

  lemma SameHead<T(!new)>(less: Order<T>, a: seq<T>, b: seq<T>)
    requires InOrder(less, a) && InOrder(less, b) && multiset(a) == multiset(b) && a != []
    requires forall x, y :: x in a && y in a && !less(x, y) && !less(y, x) ==> x == y
    ensures b != [] && a[0] == b[0]
  {
    assert |multiset(a)| == |multiset(b)|;
    assert a[0] in multiset(b) && b[0] in multiset(a);
    var j :| 0 <= j < |b| && b[j] == a[0];
    var i :| 0 <= i < |a| && a[i] == b[0];
    assert i > 0 ==> !less(a[i], a[0]);
    assert j > 0 ==> !less(b[j], b[0]);
  }

  lemma SortedAlike<T(!new)>(less: Order<T>, a: seq<T>, b: seq<T>)
    requires WeakOrder(less) && multiset(a) == multiset(b)
    requires forall x, y :: x in a && y in a && !less(x, y) && !less(y, x) ==> x == y
    ensures Sorted(less, a) == Sorted(less, b)
  {
    SortedInOrder(less, a);
    SortedInOrder(less, b);
    OneArrangement(less, Sorted(less, a), Sorted(less, b));
  }
}
