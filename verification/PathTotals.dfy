/**
  Subtree totals of the stats tree (agent_wrap/cli/stats/tree.py, `_aggregate`): one post-order pass
  that accumulates into fresh nodes, and what it leaves on every node.
  */
module PathTotals {
  import opened Totals
  import opened PathTree

  /** The rows at and below a node, in tree order. */
  function Rows(t: Tree): seq<ProjectRow> {
    Own(t.row) + RowsOf(t.children)
  }

  function Own(row: Option<ProjectRow>): seq<ProjectRow> {
    if row.Some? then [row.value] else []
  }

  function RowsOf(kids: seq<Tree>): seq<ProjectRow> {
    if kids == [] then [] else Rows(kids[0]) + RowsOf(kids[1..])
  }

  function RowsIn(entries: seq<Entry>): (r: seq<ProjectRow>)
    ensures |r| == |entries|
  {
    if entries == [] then [] else [entries[0].row] + RowsIn(entries[1..])
  }

  lemma {:induction false} RowsInAppend(a: seq<Entry>, b: seq<Entry>)
    ensures RowsIn(a + b) == RowsIn(a) + RowsIn(b)
  {
    if a == [] {
      assert a + b == b;
    } else {
      assert (a + b)[1..] == a[1..] + b;
      RowsInAppend(a[1..], b);
      Append3([a[0].row], RowsIn(a[1..]), RowsIn(b));
    }
  }

  /** Rows are the entries without their paths. */
  lemma {:induction false} RowsAreEntries(t: Tree, at: Path)
    ensures Rows(t) == RowsIn(Entries(t, at))
    decreases t, 0
  {
    RowsOfAreEntries(t.children, at);
    var own := if t.row.Some? then [Entry(at, t.row.value)] else [];
    RowsInAppend(own, EntriesOf(t.children, at));
    assert RowsIn(own) == Own(t.row) + [];
  }

  lemma {:induction false} RowsOfAreEntries(kids: seq<Tree>, at: Path)
    ensures RowsOf(kids) == RowsIn(EntriesOf(kids, at))
    decreases kids, 1
  {
    if kids != [] {
      var here := at + Steps(kids[0].name);
      RowsAreEntries(kids[0], here);
      RowsOfAreEntries(kids[1..], at);
      RowsInAppend(Entries(kids[0], here), EntriesOf(kids[1..], at));
    }
  }

  /** What a node's totals ought to be, from the rows at and below it. */
  function Due(t: Tree): Subtree
    decreases t, 1
  {
    PlusRow(t.row, DueOf(t.children))
  }

  function DueOf(kids: seq<Tree>): Subtree
    decreases kids, 2
  {
    if kids == [] then NOTHING else Plus(Due(kids[0]), DueOf(kids[1..]))
  }

  function PlusRow(row: Option<ProjectRow>, below: Subtree): Subtree {
    if row.Some? then Plus(OfRow(row.value), below) else below
  }

  /** It is the fold over exactly those rows. */
  lemma {:induction false} DueIsSum(t: Tree)
    ensures Due(t) == Sum(Rows(t))
    decreases t, 0
  {
    DueOfIsSum(t.children);
    if t.row.Some? {
      assert (Own(t.row) + RowsOf(t.children))[1..] == RowsOf(t.children);
    } else {
      assert Own(t.row) + RowsOf(t.children) == RowsOf(t.children);
    }
  }

  lemma {:induction false} DueOfIsSum(kids: seq<Tree>)
    ensures DueOf(kids) == Sum(RowsOf(kids))
    decreases kids, 1
  {
    if kids != [] {
      DueIsSum(kids[0]);
      DueOfIsSum(kids[1..]);
      SumAppend(Rows(kids[0]), RowsOf(kids[1..]));
    }
  }

  /** Every node's totals are what they ought to be. */
  ghost predicate Exact(t: Tree)
    decreases t
  {
    t.totals == Due(t) && forall i :: 0 <= i < |t.children| ==> Exact(t.children[i])
  }

  /** Row counts are right; everything else is as the node factory left it. */
  ghost predicate OnlyCounted(t: Tree)
    decreases t
  {
    && t.totals == NOTHING.(rowCount := Due(t).rowCount)
    && forall i :: 0 <= i < |t.children| ==> OnlyCounted(t.children[i])
  }

  ghost predicate Untouched(t: Tree)
    decreases t
  {
    t.totals == NOTHING && forall i :: 0 <= i < |t.children| ==> Untouched(t.children[i])
  }

  // ---- counting -----------------------------------------------------------------------------------

  lemma {:induction false} CountIsExact(t: Tree)
    requires Untouched(t)
    ensures OnlyCounted(CountRows(t)) && Due(CountRows(t)) == Due(t)
    decreases t, 0
  {
    CountEachIsExact(t.children);
  }

  lemma {:induction false} CountEachIsExact(kids: seq<Tree>)
    requires forall i :: 0 <= i < |kids| ==> Untouched(kids[i])
    ensures var r := CountEach(kids);
            && DueOf(r) == DueOf(kids) && SumCounts(r) == DueOf(kids).rowCount
            && forall i :: 0 <= i < |kids| ==> OnlyCounted(r[i])
    decreases kids, 1
  {
    if kids != [] {
      CountIsExact(kids[0]);
      CountEachIsExact(kids[1..]);
      var r := CountEach(kids);
      assert r[1..] == CountEach(kids[1..]);
    }
  }

  // ---- aggregating --------------------------------------------------------------------------------

  /** `acc` with one more contribution added, bucket and row count aside. */
  function Absorb(acc: Subtree, x: Subtree): Subtree {
    acc.(sessions := acc.sessions + x.sessions, knownCost := acc.knownCost + x.knownCost,
         unknown := acc.unknown || x.unknown, lastTs := Later(acc.lastTs, x.lastTs))
  }

  function AbsorbAll(acc: Subtree, xs: seq<Subtree>): Subtree
    decreases xs
  {
    if xs == [] then acc else AbsorbAll(Absorb(acc, xs[0]), xs[1..])
  }

  /** `Bucket.merged`: the contributions merged into an empty bucket one after another. */
  function Merged(total: Bucket, contributions: seq<Bucket>): Bucket
    decreases contributions
  {
    if contributions == [] then total else Merged(Merge(total, contributions[0]), contributions[1..])
  }

  function BucketsOf(xs: seq<Subtree>): (r: seq<Bucket>)
    ensures |r| == |xs|
  {
    if xs == [] then [] else [xs[0].bucket] + BucketsOf(xs[1..])
  }

  function TotalsOf(kids: seq<Tree>): (r: seq<Subtree>)
    ensures |r| == |kids|
    ensures forall i :: 0 <= i < |kids| ==> r[i] == kids[i].totals
  {
    if kids == [] then [] else [kids[0].totals] + TotalsOf(kids[1..])
  }

  function OwnBucket(row: Option<ProjectRow>): seq<Bucket> {
    if row.Some? then [row.value.total] else []
  }

  /** The pass adds to whatever a node already holds, except for its bucket, which it assigns. */
  function Aggregate(t: Tree): Tree {
    var kids := AggregateEach(t.children);
    t.(children := kids,
       totals := WithOwnRow(AbsorbAll(t.totals, TotalsOf(kids)), BucketsOf(TotalsOf(kids)), t.row))
  }

  /** The node's own row comes last; then the buckets collected on the way are merged afresh. */
  function WithOwnRow(below: Subtree, contributions: seq<Bucket>, row: Option<ProjectRow>): Subtree {
    var all := if row.Some? then Absorb(below, OfRow(row.value)) else below;
    all.(bucket := Merged(NO_USAGE, contributions + OwnBucket(row)))
  }

  function AggregateEach(kids: seq<Tree>): (r: seq<Tree>)
    ensures |r| == |kids|
  {
    if kids == [] then [] else [Aggregate(kids[0])] + AggregateEach(kids[1..])
  }

  function PlusAll(xs: seq<Subtree>): Subtree {
    if xs == [] then NOTHING else Plus(xs[0], PlusAll(xs[1..]))
  }

  lemma {:induction false} AbsorbedTotals(acc: Subtree, total: Bucket, xs: seq<Subtree>)
    ensures AbsorbAll(acc, xs) == Absorb(acc, PlusAll(xs))
    ensures Merged(total, BucketsOf(xs)) == Merge(total, PlusAll(xs).bucket)
    decreases xs
  {
    if xs == [] {
      AbsorbNothing(acc, total);
    } else {
      AbsorbedTotals(Absorb(acc, xs[0]), Merge(total, xs[0].bucket), xs[1..]);
      AbsorbTwice(acc, total, xs[0], PlusAll(xs[1..]));
    }
  }

  lemma {:induction false} ExactTotals(kids: seq<Tree>)
    requires forall i :: 0 <= i < |kids| ==> Exact(kids[i])
    ensures PlusAll(TotalsOf(kids)) == DueOf(kids)
  {
    if kids != [] {
      ExactTotals(kids[1..]);
      assert TotalsOf(kids)[1..] == TotalsOf(kids[1..]);
    }
  }

  lemma AbsorbNothing(acc: Subtree, total: Bucket)
    ensures Absorb(acc, NOTHING) == acc && Merge(total, NO_USAGE) == total
  {
  }

  lemma AbsorbTwice(acc: Subtree, total: Bucket, x: Subtree, y: Subtree)
    ensures Absorb(Absorb(acc, x), y) == Absorb(acc, Plus(x, y))
    ensures Merge(Merge(total, x.bucket), y.bucket) == Merge(total, Plus(x, y).bucket)
  {
  }

  /** Run once on a counted tree, the pass makes every node exact. */
  lemma {:induction false} AggregateIsExact(t: Tree)
    requires OnlyCounted(t)
    ensures Exact(Aggregate(t)) && Due(Aggregate(t)) == Due(t)
    decreases t, 0
  {
    var kids := AggregateEach(t.children);
    AggregateEachIsExact(t.children);
    ExactTotals(kids);
    AbsorbedTotals(t.totals, NO_USAGE, TotalsOf(kids));
    MergedAppend(NO_USAGE, BucketsOf(TotalsOf(kids)), OwnBucket(t.row));
    OwnTotals(t.totals, DueOf(kids), t.row);
  }

  lemma {:induction false} MergedAppend(total: Bucket, a: seq<Bucket>, b: seq<Bucket>)
    ensures Merged(total, a + b) == Merged(Merged(total, a), b)
    decreases a
  {
    if a == [] {
      assert a + b == b;
    } else {
      assert (a + b)[1..] == a[1..] + b;
      MergedAppend(Merge(total, a[0]), a[1..], b);
    }
  }

  lemma {:induction false} AbsorbAppend(acc: Subtree, a: seq<Subtree>, b: seq<Subtree>)
    ensures AbsorbAll(acc, a + b) == AbsorbAll(AbsorbAll(acc, a), b)
    decreases a
  {
    if a == [] {
      assert a + b == b;
    } else {
      assert (a + b)[1..] == a[1..] + b;
      AbsorbAppend(Absorb(acc, a[0]), a[1..], b);
    }
  }

  lemma OwnTotals(start: Subtree, below: Subtree, row: Option<ProjectRow>)
    requires start == NOTHING.(rowCount := below.rowCount + if row.Some? then 1 else 0)
    ensures row.Some? ==> Absorb(Absorb(start, below), OfRow(row.value))
                            .(bucket := Merge(below.bucket, row.value.total))
                          == Plus(OfRow(row.value), below)
    ensures row.None? ==> Absorb(start, below).(bucket := below.bucket) == below
  {
  }

  lemma {:induction false} AggregateEachIsExact(kids: seq<Tree>)
    requires forall i :: 0 <= i < |kids| ==> OnlyCounted(kids[i])
    ensures var r := AggregateEach(kids);
            DueOf(r) == DueOf(kids) && forall i :: 0 <= i < |kids| ==> Exact(r[i])
    decreases kids, 1
  {
    if kids != [] {
      AggregateIsExact(kids[0]);
      AggregateEachIsExact(kids[1..]);
      var r := AggregateEach(kids);
      assert r[1..] == AggregateEach(kids[1..]);
    }
  }

  // ---- running it again ---------------------------------------------------------------------------

  /** A row that adds to no count a second pass would add again. */
  predicate Weightless(row: ProjectRow) {
    row.sessions == 0 && (row.cost.Some? ==> row.cost.value == 0.0)
  }

  ghost predicate AllWeightless(rows: seq<ProjectRow>) {
    forall r :: r in rows ==> Weightless(r)
  }

  lemma WeightlessParts(a: seq<ProjectRow>, b: seq<ProjectRow>)
    ensures AllWeightless(a + b) <==> AllWeightless(a) && AllWeightless(b)
  {
    assert forall r :: r in a + b <==> r in a || r in b;
  }

  ghost predicate AllExact(kids: seq<Tree>) {
    forall i :: 0 <= i < |kids| ==> Exact(kids[i])
  }

  lemma AllExactCons(kids: seq<Tree>)
    requires kids != []
    ensures AllExact(kids) <==> Exact(kids[0]) && AllExact(kids[1..])
  {
    assert forall i :: 0 <= i < |kids[1..]| ==> kids[1..][i] == kids[i + 1];
    if Exact(kids[0]) && AllExact(kids[1..]) {
      forall i | 0 <= i < |kids|
        ensures Exact(kids[i])
      {
        if i > 0 { assert kids[1..][i - 1] == kids[i]; }
      }
    }
  }

  lemma {:induction false} AggregateKeepsRows(t: Tree)
    ensures Rows(Aggregate(t)) == Rows(t) && Due(Aggregate(t)) == Due(t)
    decreases t, 0
  {
    AggregateEachKeepsRows(t.children);
  }

  lemma {:induction false} AggregateEachKeepsRows(kids: seq<Tree>)
    ensures RowsOf(AggregateEach(kids)) == RowsOf(kids) && DueOf(AggregateEach(kids)) == DueOf(kids)
    decreases kids, 1
  {
    if kids != [] {
      AggregateKeepsRows(kids[0]);
      AggregateEachKeepsRows(kids[1..]);
      assert AggregateEach(kids)[1..] == AggregateEach(kids[1..]);
    }
  }

  /** What a node with exact children holds after one more pass over its exact totals. */
  function Again(due: Subtree, below: Subtree, row: Option<ProjectRow>): Subtree {
    var all := Absorb(due, below);
    if row.Some? then Absorb(all, OfRow(row.value)).(bucket := Merge(below.bucket, row.value.total))
    else all.(bucket := below.bucket)
  }

  lemma AgainIs(start: Subtree, kids: seq<Tree>, row: Option<ProjectRow>)
    requires AllExact(kids)
    ensures WithOwnRow(AbsorbAll(start, TotalsOf(kids)), BucketsOf(TotalsOf(kids)), row)
            == Again(start, DueOf(kids), row)
  {
    ExactTotals(kids);
    AbsorbedTotals(start, NO_USAGE, TotalsOf(kids));
    OwnComesLast(BucketsOf(TotalsOf(kids)), row);
  }

  lemma OwnComesLast(contributions: seq<Bucket>, row: Option<ProjectRow>)
    ensures Merged(NO_USAGE, contributions + OwnBucket(row))
            == var below := Merged(NO_USAGE, contributions);
               if row.Some? then Merge(below, row.value.total) else below
  {
    MergedAppend(NO_USAGE, contributions, OwnBucket(row));
  }

  /** With nothing to add below, it holds the same again exactly if its own row adds nothing either. */
  lemma AgainIff(below: Subtree, row: Option<ProjectRow>)
    requires below.sessions == 0 && below.knownCost == 0.0
    ensures var due := PlusRow(row, below); Again(due, below, row) == due <==> row.Some? ==> Weightless(row.value)
  {
  }

  lemma {:induction false} WeightlessBelow(kids: seq<Tree>)
    requires AllWeightless(RowsOf(kids))
    ensures DueOf(kids).sessions == 0 && DueOf(kids).knownCost == 0.0
  {
    DueOfIsSum(kids);
    WeightlessSum(RowsOf(kids));
  }

  lemma {:induction false} WeightlessSum(rows: seq<ProjectRow>)
    requires AllWeightless(rows)
    ensures Sum(rows).sessions == 0 && Sum(rows).knownCost == 0.0
  {
    if rows != [] {
      assert rows[0] in rows && forall r :: r in rows[1..] ==> r in rows;
      WeightlessSum(rows[1..]);
    }
  }

  /** Run on exact totals, the pass leaves them exact if and only if no row has a session or a known cost. */
  lemma {:induction false} AggregateAgainIff(t: Tree)
    requires Exact(t)
    ensures Exact(Aggregate(t)) <==> AllWeightless(Rows(t))
    decreases t, 0
  {
    var kids := AggregateEach(t.children);
    AggregateEachAgainIff(t.children);
    AggregateEachKeepsRows(t.children);
    AggregateKeepsRows(t);
    WeightlessParts(Own(t.row), RowsOf(t.children));
    if AllWeightless(RowsOf(t.children)) {
      AgainIs(t.totals, kids, t.row);
      WeightlessBelow(t.children);
      AgainIff(DueOf(t.children), t.row);
    }
  }

  lemma {:induction false} AggregateEachAgainIff(kids: seq<Tree>)
    requires AllExact(kids)
    ensures AllExact(AggregateEach(kids)) <==> AllWeightless(RowsOf(kids))
    decreases kids, 1
  {
    if kids != [] {
      AllExactCons(kids);
      AggregateAgainIff(kids[0]);
      AggregateEachAgainIff(kids[1..]);
      assert AggregateEach(kids)[1..] == AggregateEach(kids[1..]);
      AllExactCons(AggregateEach(kids));
      WeightlessParts(Rows(kids[0]), RowsOf(kids[1..]));
    }
  }

  /** So on any counted tree the pass may run twice exactly if there is nothing for it to count twice. */
  lemma AggregateTwiceIff(t: Tree)
    requires OnlyCounted(t)
    ensures Exact(Aggregate(Aggregate(t))) <==> AllWeightless(Rows(t))
  {
    AggregateIsExact(t);
    AggregateKeepsRows(t);
    AggregateAgainIff(Aggregate(t));
  }
}
