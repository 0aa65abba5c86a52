/**
  What usage costs (agent_wrap/domain/pricing/models.py, agent_wrap/domain/providers/pricing.py), over exact
  reals: buckets that add up, tiers, and how pricing a merged bucket compares with pricing its requests.
  */
module Pricing {
  import opened Totals

  /** Cache-write breakdowns default to 0 where a response reports none. */
  datatype Usage = Usage(input: int, output: int, cacheCreation: int, cacheRead: int,
                         ephemeral5m: int, ephemeral1h: int)

  /** Rates per million tokens; `maxIn` is None for an unbounded tier. */
  datatype Tier = Tier(input: real, output: real, cw5m: real, cw1h: real, cr: real, maxIn: Option<real>)

  function CacheWriteSplit(u: Usage): (int, int) {
    if u.ephemeral5m != 0 || u.ephemeral1h != 0 then (u.ephemeral5m, u.ephemeral1h) else (u.cacheCreation, 0)
  }

  // ---- buckets ------------------------------------------------------------------------------------

  /** One request's own bucket. */
  function BucketOf(u: Usage, cost: Option<real>, unrecorded: bool): Bucket {
    Bucket(1, u.input, u.output, CacheWriteSplit(u).0, CacheWriteSplit(u).1, u.cacheRead,
           if cost.Some? then cost.value else 0.0, cost.None?, if unrecorded then 1 else 0)
  }

  /** A bucket updated in place. */
  class Tally {
    var msgs: int
    var inTokens: int
    var outTokens: int
    var cw5m: int
    var cw1h: int
    var cr: int
    var cost: real
    var costUnknown: bool
    var unrecorded: int

    constructor ()
      ensures Value() == NO_USAGE
    {
      msgs, inTokens, outTokens, cw5m, cw1h, cr := 0, 0, 0, 0, 0, 0;
      cost, costUnknown, unrecorded := 0.0, false, 0;
    }

    function Value(): Bucket
      reads this
    {
      Bucket(msgs, inTokens, outTokens, cw5m, cw1h, cr, cost, costUnknown, unrecorded)
    }

    /** Adding a request is merging its own bucket. */
    method Add(u: Usage, requestCost: Option<real>, isUnrecorded: bool)
      modifies this
      ensures Value() == Merge(old(Value()), BucketOf(u, requestCost, isUnrecorded))
      ensures if u.ephemeral5m == 0 == u.ephemeral1h then cw5m == old(cw5m) + u.cacheCreation && cw1h == old(cw1h)
              else cw5m == old(cw5m) + u.ephemeral5m && cw1h == old(cw1h) + u.ephemeral1h
    {
      msgs := msgs + 1;
      if isUnrecorded {
        unrecorded := unrecorded + 1;
      }
      inTokens := inTokens + u.input;
      outTokens := outTokens + u.output;
      var (five, hour) := CacheWriteSplit(u);
      cw5m := cw5m + five;
      cw1h := cw1h + hour;
      cr := cr + u.cacheRead;
      if requestCost.None? {
        costUnknown := true;
      } else {
        cost := cost + requestCost.value;
      }
    }

    /** Right even for a bucket merged into itself. */
    method MergeFrom(other: Tally)
      modifies this
      ensures Value() == Merge(old(Value()), old(other.Value()))
    {
      msgs := msgs + other.msgs;
      inTokens := inTokens + other.inTokens;
      outTokens := outTokens + other.outTokens;
      cw5m := cw5m + other.cw5m;
      cw1h := cw1h + other.cw1h;
      cr := cr + other.cr;
      cost := cost + other.cost;
      costUnknown := costUnknown || other.costUnknown;
      unrecorded := unrecorded + other.unrecorded;
    }
  }

  /** Summing leaves the summands alone and gives the same total in any order. */
  method MergedOf(tallies: seq<Tally>) returns (total: Tally)
    ensures fresh(total) && forall t :: t in tallies ==> t.Value() == old(t.Value())
    ensures total.Value() == Fold(Merge, NO_USAGE, Itself, old(Values(tallies)))
  {
    ghost var values := Values(tallies);
    ValuesAre(tallies);
    total := new Tally();
    assert values[..0] == [];
    for i := 0 to |tallies|
      invariant fresh(total) && forall k :: 0 <= k < |tallies| ==> tallies[k].Value() == values[k]
      invariant total.Value() == Fold(Merge, NO_USAGE, Itself, values[..i])
    {
      FoldNext(values, i);
      total.MergeFrom(tallies[i]);
    }
    assert values[..|tallies|] == values;
  }

  lemma FoldNext(values: seq<Bucket>, i: nat)
    requires i < |values|
    ensures Fold(Merge, NO_USAGE, Itself, values[..i + 1])
            == Merge(Fold(Merge, NO_USAGE, Itself, values[..i]), values[i])
  {
    assert values[..i + 1] == values[..i] + [values[i]];
    MergeMonoid();
    FoldAppend(Merge, NO_USAGE, Itself, values[..i], [values[i]]);
    FoldOne(values[i]);
  }

  lemma FoldOne(b: Bucket)
    ensures Fold(Merge, NO_USAGE, Itself, [b]) == b
  {
    assert [b][1..] == [];
    MergeMonoid();
  }

  function Values(tallies: seq<Tally>): (r: seq<Bucket>)
    reads tallies
    ensures |r| == |tallies|
  {
    if tallies == [] then [] else [tallies[0].Value()] + Values(tallies[1..])
  }

  lemma {:induction false} ValuesAre(tallies: seq<Tally>)
    ensures forall k :: 0 <= k < |tallies| ==> Values(tallies)[k] == tallies[k].Value()
  {
    if tallies != [] { ValuesAre(tallies[1..]); }
  }

  function Itself(b: Bucket): Bucket {
    b
  }

  // ---- tiers --------------------------------------------------------------------------------------

  function AppliesTo(t: Tier, input: int): bool {
    t.maxIn.None? || input as real <= t.maxIn.value
  }

  /** The first tier that reaches as far as the input, or the last one. */
  function TierFor(tiers: seq<Tier>, input: int): (t: Tier)
    requires tiers != []
    ensures t in tiers
  {
    if |tiers| == 1 || AppliesTo(tiers[0], input) then tiers[0] else TierFor(tiers[1..], input)
  }

  function Fresh(u: Usage): int {
    u.input - CacheWriteSplit(u).0 - CacheWriteSplit(u).1 - u.cacheRead
  }

  function NotBelowZero(n: int): int {
    if n < 0 then 0 else n
  }

  function PerMillion(tokens: int, rate: real): real {
    tokens as real * rate / 1000000.0
  }

  predicate Idle(u: Usage) {
    u.input == 0 && u.output == 0 && CacheWriteSplit(u) == (0, 0) && u.cacheRead == 0
  }

  /** The token counts that are charged, column by column. */
  datatype Load = Load(uncached: int, output: int, cw5m: int, cw1h: int, cr: int)

  function LoadOf(u: Usage): Load {
    Load(NotBelowZero(Fresh(u)), u.output, CacheWriteSplit(u).0, CacheWriteSplit(u).1, u.cacheRead)
  }

  function Price(t: Tier, l: Load): real {
    PerMillion(l.uncached, t.input) + PerMillion(l.output, t.output) + PerMillion(l.cw5m, t.cw5m)
    + PerMillion(l.cw1h, t.cw1h) + PerMillion(l.cr, t.cr)
  }

  /** The cost, and whether the counts contradict the convention that input includes cache tokens. */
  function CostForTiers(tiers: seq<Tier>, u: Usage): (real, bool)
    requires tiers != []
  {
    if Idle(u) then (0.0, false) else (Price(TierFor(tiers, u.input), LoadOf(u)), Fresh(u) < 0)
  }

  /** Every column is charged at its own rate, which is for a million tokens. */
  lemma MillionTokens(t: Tier)
    ensures Price(t, Load(1000000, 0, 0, 0, 0)) == t.input && Price(t, Load(0, 1000000, 0, 0, 0)) == t.output
    ensures Price(t, Load(0, 0, 1000000, 0, 0)) == t.cw5m && Price(t, Load(0, 0, 0, 1000000, 0)) == t.cw1h
    ensures Price(t, Load(0, 0, 0, 0, 1000000)) == t.cr
  {
  }

  /** The flag goes up iff what is charged for the input's parts is more than the input. */
  lemma FlaggedIff(tiers: seq<Tier>, u: Usage)
    requires tiers != [] && !Idle(u)
    ensures var l := LoadOf(u);
            CostForTiers(tiers, u).1 <==> u.input < l.uncached + l.cw5m + l.cw1h + l.cr
  {
  }

  function WorstInList(tiers: seq<Tier>, u: Usage): Option<real> {
    if tiers == [] then None
    else
      var rest, own := WorstInList(tiers[1..], u), CostForTiers([tiers[0]], u).0;
      Some(if rest.Some? && rest.value > own then rest.value else own)
  }

  function WorstInTable(table: seq<seq<Tier>>, u: Usage): Option<real> {
    if table == [] then None
    else
      var rest, own := WorstInTable(table[1..], u), WorstInList(table[0], u);
      if own.None? || (rest.Some? && rest.value > own.value) then rest else own
  }

  function WorstCaseCost(table: seq<seq<Tier>>, u: Usage): real {
    var worst := WorstInTable(table, u);
    if worst.Some? then worst.value else 0.0
  }

  lemma {:induction false} WorstOfTier(tiers: seq<Tier>, u: Usage, t: Tier)
    requires t in tiers
    ensures WorstInList(tiers, u).Some? && CostForTiers([t], u).0 <= WorstInList(tiers, u).value
  {
    if tiers[0] != t { WorstOfTier(tiers[1..], u, t); }
  }

  lemma {:induction false} WorstOfList(table: seq<seq<Tier>>, u: Usage, k: nat)
    requires k < |table| && table[k] != []
    ensures WorstInTable(table, u).Some? && WorstInList(table[k], u).Some?
            && WorstInList(table[k], u).value <= WorstInTable(table, u).value
  {
    WorstOfTier(table[k], u, table[k][0]);
    if k > 0 { WorstOfList(table[1..], u, k - 1); }
  }

  lemma {:induction false} WorstInListCosts(tiers: seq<Tier>, u: Usage)
    requires tiers != []
    ensures exists t :: t in tiers && WorstInList(tiers, u) == Some(CostForTiers([t], u).0)
  {
    if |tiers| > 1 {
      WorstInListCosts(tiers[1..], u);
      var t :| t in tiers[1..] && WorstInList(tiers[1..], u) == Some(CostForTiers([t], u).0);
      assert t in tiers && tiers[0] in tiers;
    } else {
      assert tiers[1..] == [] && tiers[0] in tiers;
      assert WorstInList(tiers[1..], u) == None;
    }
  }

  lemma {:induction false} WorstInTableCosts(table: seq<seq<Tier>>, u: Usage)
    ensures var worst := WorstInTable(table, u);
            worst.Some? ==> exists k, t :: 0 <= k < |table| && t in table[k] && worst == Some(CostForTiers([t], u).0)
  {
    if table != [] {
      WorstInTableCosts(table[1..], u);
      if table[0] != [] { WorstInListCosts(table[0], u); }
      assert forall k :: 0 <= k < |table[1..]| ==> table[1..][k] == table[k + 1];
    }
  }

  /**
    No tier list of the table can cost more than the worst case, whichever of its tiers applies; and some tier of
    some list does cost that much.
    */
  lemma WorstCaseBounds(table: seq<seq<Tier>>, u: Usage, k: nat)
    requires k < |table| && table[k] != []
    ensures CostForTiers(table[k], u).0 <= WorstCaseCost(table, u)
    ensures exists i, t :: 0 <= i < |table| && t in table[i] && CostForTiers([t], u).0 == WorstCaseCost(table, u)
  {
    WorstOfTier(table[k], u, TierFor(table[k], u.input));
    WorstOfList(table, u, k);
    WorstInTableCosts(table, u);
  }

  // ---- pricing a merged bucket --------------------------------------------------------------------

  /** `usage_from_bucket`. */
  function UsageOf(b: Bucket): Usage {
    Usage(b.inTokens, b.outTokens, b.cw5m + b.cw1h, b.cr, b.cw5m, b.cw1h)
  }

  function Own(u: Usage): Bucket {
    BucketOf(u, Some(0.0), false)
  }

  function BucketsFor(us: seq<Usage>): Bucket {
    Fold(Merge, NO_USAGE, Own, us)
  }

  function SumOfCosts(tiers: seq<Tier>, us: seq<Usage>): real
    requires tiers != []
  {
    if us == [] then 0.0 else CostForTiers(tiers, us[0]).0 + SumOfCosts(tiers, us[1..])
  }

  /** Input beyond the cache tokens, and cache tokens beyond the input, each summed over the requests. */
  function Excess(us: seq<Usage>): (r: int)
    ensures r >= 0
  {
    if us == [] then 0 else NotBelowZero(Fresh(us[0])) + Excess(us[1..])
  }

  function Shortfall(us: seq<Usage>): (r: int)
    ensures r >= 0
  {
    if us == [] then 0 else NotBelowZero(-Fresh(us[0])) + Shortfall(us[1..])
  }

  /** One request below its cache tokens and another above. */
  ghost predicate Mixed(us: seq<Usage>) {
    (exists i :: 0 <= i < |us| && Fresh(us[i]) > 0) && (exists i :: 0 <= i < |us| && Fresh(us[i]) < 0)
  }

  lemma {:induction false} ExcessAndShortfall(us: seq<Usage>)
    ensures Excess(us) > 0 <==> exists i :: 0 <= i < |us| && Fresh(us[i]) > 0
    ensures Shortfall(us) > 0 <==> exists i :: 0 <= i < |us| && Fresh(us[i]) < 0
  {
    if us != [] {
      ExcessAndShortfall(us[1..]);
      assert forall i :: 0 < i < |us| ==> us[i] == us[1..][i - 1];
      assert forall i :: 0 <= i < |us[1..]| ==> us[1..][i] == us[i + 1];
    }
  }

  lemma PerMillionAdds(a: int, b: int, rate: real)
    ensures PerMillion(a + b, rate) == PerMillion(a, rate) + PerMillion(b, rate)
  {
    assert (a + b) as real * rate == a as real * rate + b as real * rate;
  }

  function PlusLoad(a: Load, b: Load): Load {
    Load(a.uncached + b.uncached, a.output + b.output, a.cw5m + b.cw5m, a.cw1h + b.cw1h, a.cr + b.cr)
  }

  function TotalLoad(us: seq<Usage>): Load {
    if us == [] then Load(0, 0, 0, 0, 0) else PlusLoad(LoadOf(us[0]), TotalLoad(us[1..]))
  }

  lemma PriceAdds(t: Tier, a: Load, b: Load)
    ensures Price(t, PlusLoad(a, b)) == Price(t, a) + Price(t, b)
  {
    PerMillionAdds(a.uncached, b.uncached, t.input);
    PerMillionAdds(a.output, b.output, t.output);
    PerMillionAdds(a.cw5m, b.cw5m, t.cw5m);
    PerMillionAdds(a.cw1h, b.cw1h, t.cw1h);
    PerMillionAdds(a.cr, b.cr, t.cr);
  }

  lemma CostIsPrice(tiers: seq<Tier>, u: Usage)
    requires tiers != []
    ensures CostForTiers(tiers, u).0 == Price(TierFor(tiers, u.input), LoadOf(u))
  {
    if Idle(u) {
      assert LoadOf(u) == Load(0, 0, 0, 0, 0);
      NothingIsFree(TierFor(tiers, u.input));
    }
  }

  lemma NothingIsFree(t: Tier)
    ensures Price(t, Load(0, 0, 0, 0, 0)) == 0.0
  {
  }

  /** Every request falls into this tier of the list. */
  ghost predicate AllIn(tiers: seq<Tier>, us: seq<Usage>, t: Tier)
    requires tiers != []
  {
    forall i :: 0 <= i < |us| ==> TierFor(tiers, us[i].input) == t
  }

  lemma {:induction false} SumIsPrice(tiers: seq<Tier>, us: seq<Usage>, t: Tier)
    requires tiers != [] && AllIn(tiers, us, t)
    ensures SumOfCosts(tiers, us) == Price(t, TotalLoad(us))
  {
    if us == [] {
      NothingIsFree(t);
    } else {
      SumIsPrice(tiers, us[1..], t);
      CostIsPrice(tiers, us[0]);
      PriceAdds(t, LoadOf(us[0]), TotalLoad(us[1..]));
    }
  }

  /** The merged bucket's price: surplus cache tokens of one request offset another's input. */
  lemma OffsetPrice(tiers: seq<Tier>, b: Bucket, excess: int, shortfall: int)
    requires tiers != [] && b.inTokens - b.cw5m - b.cw1h - b.cr == excess - shortfall
    ensures CostForTiers(tiers, UsageOf(b)).0
            == Price(TierFor(tiers, b.inTokens),
                     Load(NotBelowZero(excess - shortfall), b.outTokens, b.cw5m, b.cw1h, b.cr))
  {
    CostIsPrice(tiers, UsageOf(b));
    BucketLoad(b);
  }

  lemma BucketLoad(b: Bucket)
    ensures LoadOf(UsageOf(b))
            == Load(NotBelowZero(b.inTokens - b.cw5m - b.cw1h - b.cr), b.outTokens, b.cw5m, b.cw1h, b.cr)
  {
  }

  lemma {:induction false} TotalLoadIs(us: seq<Usage>)
    ensures var b := BucketsFor(us); TotalLoad(us) == Load(Excess(us), b.outTokens, b.cw5m, b.cw1h, b.cr)
  {
    if us != [] {
      TotalLoadIs(us[1..]);
      BucketsForCons(us);
    }
  }

  lemma BucketsForCons(us: seq<Usage>)
    requires us != []
    ensures BucketsFor(us) == Merge(Own(us[0]), BucketsFor(us[1..]))
  {
  }

  lemma {:induction false} ColumnsAdd(us: seq<Usage>)
    ensures var b := BucketsFor(us); b.inTokens - b.cw5m - b.cw1h - b.cr == Excess(us) - Shortfall(us)
  {
    if us != [] {
      ColumnsAdd(us[1..]);
      BucketsForCons(us);
    }
  }

  lemma PerMillionGrows(a: int, b: int, rate: real)
    requires a <= b && rate >= 0.0
    ensures PerMillion(a, rate) <= PerMillion(b, rate)
    ensures PerMillion(a, rate) == PerMillion(b, rate) <==> a == b || rate == 0.0
  {
    var d := (b - a) as real;
    assert b as real * rate == a as real * rate + d * rate;
    assert d * rate >= 0.0;
    if d > 0.0 && rate > 0.0 { assert d * rate > 0.0; }
  }

  /**
    Where every request and their total fall into the same tier, pricing the merged bucket never costs more than
    pricing the requests one by one, and costs the same if and only if input is free or no two requests stand on
    different sides of the convention.
    */
  lemma MergedCostsNoMore(tiers: seq<Tier>, us: seq<Usage>, t: Tier)
    requires tiers != [] && t.input >= 0.0
    requires AllIn(tiers, us, t) && TierFor(tiers, BucketsFor(us).inTokens) == t
    ensures var merged := CostForTiers(tiers, UsageOf(BucketsFor(us))).0;
            && merged <= SumOfCosts(tiers, us)
            && (merged == SumOfCosts(tiers, us) <==> t.input == 0.0 || !Mixed(us))
  {
    MergedIsPrice(tiers, us, t);
    SumIsPrice(tiers, us, t);
    TotalLoadIs(us);
    OffsetsIff(us);
    Compared(t, TotalLoad(us), NotBelowZero(Excess(us) - Shortfall(us)),
             CostForTiers(tiers, UsageOf(BucketsFor(us))).0, SumOfCosts(tiers, us));
  }

  lemma MergedIsPrice(tiers: seq<Tier>, us: seq<Usage>, t: Tier)
    requires tiers != [] && TierFor(tiers, BucketsFor(us).inTokens) == t
    ensures CostForTiers(tiers, UsageOf(BucketsFor(us))).0
            == Price(t, TotalLoad(us).(uncached := NotBelowZero(Excess(us) - Shortfall(us))))
  {
    TotalLoadIs(us);
    ColumnsAdd(us);
    OffsetPrice(tiers, BucketsFor(us), Excess(us), Shortfall(us));
  }

  lemma Compared(t: Tier, l: Load, f: int, merged: real, sum: real)
    requires f <= l.uncached && t.input >= 0.0 && merged == Price(t, l.(uncached := f)) && sum == Price(t, l)
    ensures merged <= sum && (merged == sum <==> f == l.uncached || t.input == 0.0)
  {
    PriceOfFresh(t, l, f);
  }

  lemma OffsetsIff(us: seq<Usage>)
    ensures NotBelowZero(Excess(us) - Shortfall(us)) <= Excess(us)
    ensures NotBelowZero(Excess(us) - Shortfall(us)) == Excess(us) <==> !Mixed(us)
  {
    ExcessAndShortfall(us);
  }

  lemma PriceOfFresh(t: Tier, l: Load, f: int)
    requires f <= l.uncached && t.input >= 0.0
    ensures Price(t, l.(uncached := f)) <= Price(t, l)
    ensures Price(t, l.(uncached := f)) == Price(t, l) <==> f == l.uncached || t.input == 0.0
  {
    PerMillionGrows(f, l.uncached, t.input);
  }

  /** In particular where every request's input covers its cache tokens. */
  lemma MergedCostsTheSame(tiers: seq<Tier>, us: seq<Usage>, t: Tier)
    requires tiers != [] && t.input >= 0.0
    requires AllIn(tiers, us, t) && TierFor(tiers, BucketsFor(us).inTokens) == t
    requires forall i :: 0 <= i < |us| ==> Fresh(us[i]) >= 0
    ensures CostForTiers(tiers, UsageOf(BucketsFor(us))).0 == SumOfCosts(tiers, us)
  {
    MergedCostsNoMore(tiers, us, t);
  }
}
