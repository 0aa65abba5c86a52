/** Usage buckets (agent_wrap/domain/pricing/models.py) and the subtree totals of the stats tree. */
module Totals {

  datatype Option<+T> = None | Some(value: T)

  datatype Bucket = Bucket(
    msgs: int, inTokens: int, outTokens: int, cw5m: int, cw1h: int, cr: int,
    cost: real, costUnknown: bool, unrecorded: int)

  const NO_USAGE := Bucket(0, 0, 0, 0, 0, 0, 0.0, false, 0)

  function Merge(a: Bucket, b: Bucket): (r: Bucket)
    ensures a == NO_USAGE ==> r == b
    ensures b == NO_USAGE ==> r == a
  {
    Bucket(a.msgs + b.msgs, a.inTokens + b.inTokens, a.outTokens + b.outTokens, a.cw5m + b.cw5m,
           a.cw1h + b.cw1h, a.cr + b.cr, a.cost + b.cost, a.costUnknown || b.costUnknown,
           a.unrecorded + b.unrecorded)
  }

  /** One project's line in the stats table, as far as the tree looks at it. */
  datatype ProjectRow = ProjectRow(
    id: nat, sessions: int, total: Bucket, cost: Option<real>, lastTs: Option<int>)

  /** What a structural line reports over everything under it. */
  datatype Subtree = Subtree(
    rowCount: int, sessions: int, bucket: Bucket, knownCost: real, unknown: bool, lastTs: Option<int>)

  const NOTHING := Subtree(0, 0, NO_USAGE, 0.0, false, None)

  function Later(a: Option<int>, b: Option<int>): Option<int> {
    if b.Some? && (a.None? || b.value > a.value) then b else a
  }

  function Plus(a: Subtree, b: Subtree): Subtree {
    Subtree(a.rowCount + b.rowCount, a.sessions + b.sessions, Merge(a.bucket, b.bucket),
            a.knownCost + b.knownCost, a.unknown || b.unknown, Later(a.lastTs, b.lastTs))
  }

  function OfRow(row: ProjectRow): Subtree {
    Subtree(1, row.sessions, row.total, if row.cost.Some? then row.cost.value else 0.0,
            row.cost.None?, row.lastTs)
  }

  lemma Append3<T>(a: seq<T>, b: seq<T>, c: seq<T>)
    ensures (a + b) + c == a + (b + c)
  {
  }

  ghost predicate Distinct<T>(s: seq<T>) {
    forall i, j :: 0 <= i < j < |s| ==> s[i] != s[j]
  }

  lemma DistinctTail<T>(s: seq<T>)
    requires s != [] && Distinct(s)
    ensures Distinct(s[1..]) && s[0] !in s[1..]
  {
  }

  lemma DistinctAppend<T>(a: seq<T>, b: seq<T>)
    requires Distinct(a) && Distinct(b) && forall x :: x in a ==> x !in b
    ensures Distinct(a + b)
  {
    forall i, j | 0 <= i < j < |a + b|
      ensures (a + b)[i] != (a + b)[j]
    {
      if i < |a| <= j { assert a[i] in a && b[j - |a|] in b; }
    }
  }

  lemma {:induction false} CountOfDistinct<T>(s: seq<T>, x: T)
    requires Distinct(s)
    ensures multiset(s)[x] == if x in s then 1 else 0
  {
    if s != [] {
      DistinctTail(s);
      CountOfDistinct(s[1..], x);
      assert s == [s[0]] + s[1..];
    }
  }

  /** Without repetitions the members decide. */
  lemma SameMembers<T(!new)>(a: seq<T>, b: seq<T>)
    requires Distinct(a) && Distinct(b) && forall x :: x in a <==> x in b
    ensures multiset(a) == multiset(b)
  {
    forall x: T
      ensures multiset(a)[x] == multiset(b)[x]
    {
      CountOfDistinct(a, x);
      CountOfDistinct(b, x);
    }
  }

  lemma LastPutBack<T>(s: seq<T>)
    requires s != []
    ensures s[..|s| - 1] + [s[|s| - 1]] == s
  {
  }

  // ---- folds over a commutative monoid ------------------------------------------------------------

  function Fold<T, A>(plus: (A, A) -> A, zero: A, of: T -> A, s: seq<T>): A {
    if s == [] then zero else plus(of(s[0]), Fold(plus, zero, of, s[1..]))
  }

  ghost predicate Monoid<A(!new)>(plus: (A, A) -> A, zero: A) {
    && (forall x :: plus(x, zero) == x && plus(zero, x) == x)
    && (forall x, y, z :: plus(plus(x, y), z) == plus(x, plus(y, z)))
    && (forall x, y :: plus(x, y) == plus(y, x))
  }

  lemma {:induction false} FoldAppend<T, A(!new)>(plus: (A, A) -> A, zero: A, of: T -> A, a: seq<T>, b: seq<T>)
    requires Monoid(plus, zero)
    ensures Fold(plus, zero, of, a + b) == plus(Fold(plus, zero, of, a), Fold(plus, zero, of, b))
  {
    if a == [] {
      assert a + b == b;
    } else {
      assert (a + b)[1..] == a[1..] + b;
      FoldAppend(plus, zero, of, a[1..], b);
    }
  }

  /** A permutation's first element found in the other sequence, and what is left there. */
  lemma Pluck<T>(a: seq<T>, b: seq<T>) returns (i: nat)
    requires multiset(a) == multiset(b) && a != []
    ensures i < |b| && b[i] == a[0]
    ensures b == b[..i] + ([a[0]] + b[i + 1..]) && ([a[0]] + b[i + 1..])[1..] == b[i + 1..]
    ensures multiset(b[..i] + b[i + 1..]) == multiset(a[1..])
  {
    assert a[0] in multiset(a);
    i :| 0 <= i < |b| && b[i] == a[0];
    assert b == b[..i] + ([b[i]] + b[i + 1..]);
    assert a == [a[0]] + a[1..];
    assert multiset(b[..i] + b[i + 1..]) == multiset(b) - multiset{a[0]} == multiset(a[1..]);
  }

  /** The order of the summands does not matter. */
  lemma {:induction false} FoldPermuted<T, A(!new)>(plus: (A, A) -> A, zero: A, of: T -> A, a: seq<T>, b: seq<T>)
    requires Monoid(plus, zero) && multiset(a) == multiset(b)
    ensures Fold(plus, zero, of, a) == Fold(plus, zero, of, b)
    decreases |a|
  {
    if a == [] {
      assert |multiset(b)| == |multiset(a)|;
    } else {
      var i := Pluck(a, b);
      FoldPermuted(plus, zero, of, a[1..], b[..i] + b[i + 1..]);
      FoldAppend(plus, zero, of, b[..i], b[i + 1..]);
      FoldAppend(plus, zero, of, b[..i], [a[0]] + b[i + 1..]);
    }
  }

  lemma PlusMonoid()
    ensures Monoid(Plus, NOTHING)
  {
  }

  lemma MergeMonoid()
    ensures Monoid(Merge, NO_USAGE)
  {
  }

  /** The fold over the rows below a node: what its totals must be. */
  function Sum(rows: seq<ProjectRow>): Subtree {
    Fold(Plus, NOTHING, OfRow, rows)
  }

  function SessionsIn(rows: seq<ProjectRow>): int {
    if rows == [] then 0 else rows[0].sessions + SessionsIn(rows[1..])
  }

  function KnownCostIn(rows: seq<ProjectRow>): real {
    if rows == [] then 0.0
    else (if rows[0].cost.Some? then rows[0].cost.value else 0.0) + KnownCostIn(rows[1..])
  }

  function UsageIn(rows: seq<ProjectRow>): Bucket {
    if rows == [] then NO_USAGE else Merge(rows[0].total, UsageIn(rows[1..]))
  }

  /** Rows counted, sessions, usage and known costs added up, unknown iff some cost is, and the latest of the clocks. */
  ghost predicate AddsUp(total: Subtree, rows: seq<ProjectRow>) {
    && total.rowCount == |rows| && total.sessions == SessionsIn(rows) && total.bucket == UsageIn(rows)
    && total.knownCost == KnownCostIn(rows) && (total.unknown <==> exists r :: r in rows && r.cost == None)
    && (forall r :: r in rows && r.lastTs.Some? ==> total.lastTs.Some? && r.lastTs.value <= total.lastTs.value)
    && (total.lastTs.Some? ==> exists r :: r in rows && r.lastTs == total.lastTs)
  }

  lemma {:induction false} SumAddsUp(rows: seq<ProjectRow>)
    ensures AddsUp(Sum(rows), rows)
  {
    if rows != [] {
      SumAddsUp(rows[1..]);
      OneMoreAddsUp(rows, Sum(rows[1..]));
    }
  }

  lemma OneMoreAddsUp(rows: seq<ProjectRow>, rest: Subtree)
    requires rows != [] && AddsUp(rest, rows[1..])
    ensures AddsUp(Plus(OfRow(rows[0]), rest), rows)
  {
    assert rows[0] in rows && forall r :: r in rows <==> r == rows[0] || r in rows[1..];
  }

  lemma SumAppend(a: seq<ProjectRow>, b: seq<ProjectRow>)
    ensures Sum(a + b) == Plus(Sum(a), Sum(b))
  {
    PlusMonoid();
    FoldAppend(Plus, NOTHING, OfRow, a, b);
  }
}
