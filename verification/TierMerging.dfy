/**
  Exactly which tier lists never charge a merged bucket more than the requests in it: an hour's sum is priced as
  if it were one request (agent_wrap/domain/stats/fold.py), and may land in a tier none of them was in.
  */
module TierMerging {
  import opened Totals
  import opened Pricing

  predicate NonNegative(u: Usage) {
    && u.input >= 0 && u.output >= 0 && u.cacheCreation >= 0 && u.cacheRead >= 0
    && u.ephemeral5m >= 0 && u.ephemeral1h >= 0
  }

  ghost predicate NeverDearer(tiers: seq<Tier>)
    requires tiers != []
  {
    forall us: seq<Usage> :: (forall i :: 0 <= i < |us| ==> NonNegative(us[i])) ==>
      CostForTiers(tiers, UsageOf(BucketsFor(us))).0 <= SumOfCosts(tiers, us)
  }

  // ---- the condition ------------------------------------------------------------------------------

  function Lesser(a: real, b: real): real {
    if a <= b then a else b
  }

  /** The least a token of the input saves by being charged in `to` rather than in `from`, however it is charged. */
  function LeastSaving(from: Tier, to: Tier): real {
    Lesser(from.input - to.input,
           Lesser(from.cw5m - to.cw5m, Lesser(from.cw1h - to.cw1h, from.cr - to.cr)))
  }

  /** No rate besides the input's rises: those columns can outgrow any input. */
  predicate OthersDoNotRise(from: Tier, to: Tier) {
    to.output <= from.output && to.cw5m <= from.cw5m && to.cw1h <= from.cw1h && to.cr <= from.cr
  }

  /** Inputs of `a` and `b` tokens, charged in `s` and `t`, may be added up and charged in `both`. */
  predicate MayMeetIn(s: Tier, t: Tier, both: Tier, a: nat, b: nat) {
    && OthersDoNotRise(s, both) && OthersDoNotRise(t, both)
    && a as real * LeastSaving(s, both) + b as real * LeastSaving(t, both) >= 0.0
  }

  predicate MayMeet(tiers: seq<Tier>, a: nat, b: nat)
    requires tiers != []
  {
    MayMeetIn(TierFor(tiers, a), TierFor(tiers, b), TierFor(tiers, a + b), a, b)
  }

  predicate FreeOrDear(tiers: seq<Tier>) {
    forall t :: t in tiers ==> t.input >= 0.0
  }

  // ---- it is enough -------------------------------------------------------------------------------

  predicate NonNegativeBucket(b: Bucket) {
    b.inTokens >= 0 && b.outTokens >= 0 && b.cw5m >= 0 && b.cw1h >= 0 && b.cr >= 0
  }

  function Loaded(b: Bucket): Load {
    LoadOf(UsageOf(b))
  }

  lemma Grows(a: real, b: real, n: real)
    requires a <= b && n >= 0.0
    ensures a * n <= b * n
  {
  }

  /** Every token of the input is charged somewhere, and no more than all of it as input. */
  predicate Covers(l: Load, input: nat) {
    && 0 <= l.uncached <= input <= l.uncached + l.cw5m + l.cw1h + l.cr
    && l.output >= 0 && l.cw5m >= 0 && l.cw1h >= 0 && l.cr >= 0
  }

  lemma Saves(from: Tier, to: Tier, l: Load, input: nat)
    requires OthersDoNotRise(from, to) && Covers(l, input)
    ensures Price(from, l) - Price(to, l) >= input as real * LeastSaving(from, to) / 1000000.0
  {
    SavesPerColumn(from, to, l);
    SavesInAll(from.input - to.input, from.output - to.output, from.cw5m - to.cw5m, from.cw1h - to.cw1h,
               from.cr - to.cr, l, input, LeastSaving(from, to));
  }

  lemma SavesInAll(gi: real, go: real, g5: real, g1: real, gr: real, l: Load, input: nat, m: real)
    requires Covers(l, input) && go >= 0.0 && g5 >= 0.0 && g1 >= 0.0 && gr >= 0.0
    requires m == Lesser(gi, Lesser(g5, Lesser(g1, gr)))
    ensures gi * l.uncached as real + go * l.output as real + g5 * l.cw5m as real + g1 * l.cw1h as real
            + gr * l.cr as real >= input as real * m
  {
    Grows(0.0, go, l.output as real);
    if m >= 0.0 {
      SavesSomething(gi, g5, g1, gr, l.uncached as real, l.cw5m as real, l.cw1h as real, l.cr as real,
                     input as real, m);
    } else {
      LosesOnInput(gi, g5, g1, gr, l.uncached as real, l.cw5m as real, l.cw1h as real, l.cr as real, input as real);
    }
    And(gi * l.uncached as real + g5 * l.cw5m as real + g1 * l.cw1h as real + gr * l.cr as real, go * l.output as real,
        input as real * m);
  }

  lemma And(a: real, b: real, c: real)
    requires a >= c && b >= 0.0
    ensures a + b >= c
  {
  }

  lemma LosesOnInput(gi: real, g5: real, g1: real, gr: real, u: real, w5: real, w1: real, r: real, n: real)
    requires gi < 0.0 && g5 >= 0.0 && g1 >= 0.0 && gr >= 0.0
    requires u <= n && w5 >= 0.0 && w1 >= 0.0 && r >= 0.0
    ensures gi * u + g5 * w5 + g1 * w1 + gr * r >= n * gi
  {
    Grows(0.0, g5, w5);
    Grows(0.0, g1, w1);
    Grows(0.0, gr, r);
    NegativeSaving(gi, u, n);
  }

  lemma SavesSomething(gi: real, g5: real, g1: real, gr: real, u: real, w5: real, w1: real, r: real, n: real, m: real)
    requires 0.0 <= m <= gi && m <= g5 && m <= g1 && m <= gr
    requires u >= 0.0 && w5 >= 0.0 && w1 >= 0.0 && r >= 0.0 && n <= u + w5 + w1 + r
    ensures gi * u + g5 * w5 + g1 * w1 + gr * r >= n * m
  {
    Grows(m, gi, u);
    Grows(m, g5, w5);
    Grows(m, g1, w1);
    Grows(m, gr, r);
    AddUp(u, w5, w1, r, m);
    Grows(n, u + w5 + w1 + r, m);
  }

  lemma AddUp(a: real, b: real, c: real, d: real, m: real)
    ensures (a + b + c + d) * m == m * a + m * b + m * c + m * d
  {
  }

  lemma NegativeSaving(m: real, u: real, input: real)
    requires m < 0.0 && u <= input
    ensures input * m <= u * m
  {
    Grows(u, input, -m);
  }

  lemma SavesPerColumn(from: Tier, to: Tier, l: Load)
    ensures (Price(from, l) - Price(to, l)) * 1000000.0
            == (from.input - to.input) * l.uncached as real + (from.output - to.output) * l.output as real
               + (from.cw5m - to.cw5m) * l.cw5m as real + (from.cw1h - to.cw1h) * l.cw1h as real
               + (from.cr - to.cr) * l.cr as real
  {
  }

  lemma BucketCovers(b: Bucket)
    requires NonNegativeBucket(b)
    ensures Covers(Loaded(b), b.inTokens)
  {
  }

  /** Two buckets merged cost no more than the two, if their inputs may meet. */
  lemma TwoCostNoMore(s: Tier, t: Tier, both: Tier, p: Bucket, q: Bucket)
    requires both.input >= 0.0 && NonNegativeBucket(p) && NonNegativeBucket(q)
    requires MayMeetIn(s, t, both, p.inTokens, q.inTokens)
    ensures Price(both, Loaded(Merge(p, q))) <= Price(s, Loaded(p)) + Price(t, Loaded(q))
  {
    var merged, x, y := Price(both, Loaded(Merge(p, q))), Price(both, Loaded(p)), Price(both, Loaded(q));
    assert merged <= x + y by { MergedPrice(both, p, q); }
    assert Price(s, Loaded(p)) - x >= p.inTokens as real * LeastSaving(s, both) / 1000000.0 by {
      BucketCovers(p);
      Saves(s, both, Loaded(p), p.inTokens);
    }
    assert Price(t, Loaded(q)) - y >= q.inTokens as real * LeastSaving(t, both) / 1000000.0 by {
      BucketCovers(q);
      Saves(t, both, Loaded(q), q.inTokens);
    }
    Settled(merged, x, y, Price(s, Loaded(p)), Price(t, Loaded(q)),
            p.inTokens as real * LeastSaving(s, both), q.inTokens as real * LeastSaving(t, both));
  }

  lemma Settled(merged: real, p: real, q: real, sp: real, tq: real, x: real, y: real)
    requires merged <= p + q && sp - p >= x / 1000000.0 && tq - q >= y / 1000000.0 && x + y >= 0.0
    ensures merged <= sp + tq
  {
  }

  lemma MergedPrice(both: Tier, p: Bucket, q: Bucket)
    requires both.input >= 0.0
    ensures Price(both, Loaded(Merge(p, q))) <= Price(both, Loaded(p)) + Price(both, Loaded(q))
  {
    MergedLoad(p, q);
    PriceOfFresh(both, PlusLoad(Loaded(p), Loaded(q)), Loaded(Merge(p, q)).uncached);
    PriceAdds(both, Loaded(p), Loaded(q));
  }

  lemma MergedLoad(p: Bucket, q: Bucket)
    ensures var sum := PlusLoad(Loaded(p), Loaded(q));
            && Loaded(Merge(p, q)).uncached <= sum.uncached
            && Loaded(Merge(p, q)) == sum.(uncached := Loaded(Merge(p, q)).uncached)
  {
  }

  lemma OwnBucket(u: Usage)
    requires NonNegative(u)
    ensures var b := Own(u);
            Loaded(b) == LoadOf(u) && b.inTokens == u.input && NonNegativeBucket(b)
  {
  }

  lemma {:induction false} MergedCostsNoMoreThan(tiers: seq<Tier>, us: seq<Usage>)
    requires tiers != [] && FreeOrDear(tiers) && forall i :: 0 <= i < |us| ==> NonNegative(us[i])
    requires forall a: nat, b: nat :: MayMeet(tiers, a, b)
    ensures NonNegativeBucket(BucketsFor(us))
    ensures CostForTiers(tiers, UsageOf(BucketsFor(us))).0 <= SumOfCosts(tiers, us)
  {
    if us == [] {
      assert Idle(UsageOf(BucketsFor(us)));
    } else {
      MergedCostsNoMoreThan(tiers, us[1..]);
      BucketsForCons(us);
      OneMoreCostsNoMore(tiers, us[0], BucketsFor(us[1..]));
    }
  }

  lemma OneMoreCostsNoMore(tiers: seq<Tier>, u: Usage, rest: Bucket)
    requires tiers != [] && FreeOrDear(tiers) && NonNegative(u) && NonNegativeBucket(rest)
    requires MayMeet(tiers, u.input, rest.inTokens)
    ensures var merged := Merge(Own(u), rest);
            && NonNegativeBucket(merged)
            && CostForTiers(tiers, UsageOf(merged)).0 <= CostForTiers(tiers, u).0 + CostForTiers(tiers, UsageOf(rest)).0
  {
    var own := Own(u);
    OwnBucket(u);
    CostIsPrice(tiers, u);
    CostIsPrice(tiers, UsageOf(rest));
    CostIsPrice(tiers, UsageOf(Merge(own, rest)));
    TwoCostNoMore(TierFor(tiers, u.input), TierFor(tiers, rest.inTokens), TierFor(tiers, u.input + rest.inTokens),
                  own, rest);
  }

  // ---- and it is needed ---------------------------------------------------------------------------

  datatype Column = Input | Output | Write5m | Write1h | Read

  function Rate(t: Tier, col: Column): real {
    match col
    case Input => t.input
    case Output => t.output
    case Write5m => t.cw5m
    case Write1h => t.cw1h
    case Read => t.cr
  }

  /** A request with an input of `input` tokens, and `n` tokens in one of the other columns. */
  function Request(input: nat, col: Column, n: nat): Usage {
    match col
    case Input => Usage(input, 0, 0, 0, 0, 0)
    case Output => Usage(input, n, 0, 0, 0, 0)
    case Write5m => Usage(input, 0, n, 0, n, 0)
    case Write1h => Usage(input, 0, n, 0, 0, n)
    case Read => Usage(input, 0, 0, n, 0, 0)
  }

  lemma BucketOfTwo(u: Usage, v: Usage)
    ensures BucketsFor([u, v]) == Merge(Own(u), Own(v))
  {
    BucketsForCons([u, v]);
    BucketsForCons([v]);
    assert [u, v][1..] == [v] && [v][1..] == [];
  }

  lemma CostOfTwo(tiers: seq<Tier>, u: Usage, v: Usage)
    requires tiers != []
    ensures SumOfCosts(tiers, [u, v])
            == Price(TierFor(tiers, u.input), LoadOf(u)) + Price(TierFor(tiers, v.input), LoadOf(v))
    ensures CostForTiers(tiers, UsageOf(BucketsFor([u, v]))).0
            == Price(TierFor(tiers, u.input + v.input), Loaded(Merge(Own(u), Own(v))))
  {
    BucketOfTwo(u, v);
    CostIsPrice(tiers, UsageOf(BucketsFor([u, v])));
    SumOfTwo(tiers, u, v);
    CostIsPrice(tiers, u);
    CostIsPrice(tiers, v);
  }

  /** Two requests that cost more merged are a counterexample. */
  lemma Dearer(tiers: seq<Tier>, u: Usage, v: Usage) returns (us: seq<Usage>)
    requires tiers != [] && NonNegative(u) && NonNegative(v)
    requires Price(TierFor(tiers, u.input + v.input), Loaded(Merge(Own(u), Own(v))))
             > Price(TierFor(tiers, u.input), LoadOf(u)) + Price(TierFor(tiers, v.input), LoadOf(v))
    ensures forall i :: 0 <= i < |us| ==> NonNegative(us[i])
    ensures CostForTiers(tiers, UsageOf(BucketsFor(us))).0 > SumOfCosts(tiers, us)
  {
    CostOfTwo(tiers, u, v);
    us := [u, v];
  }

  lemma SumOfTwo(tiers: seq<Tier>, u: Usage, v: Usage)
    requires tiers != []
    ensures SumOfCosts(tiers, [u, v]) == CostForTiers(tiers, u).0 + CostForTiers(tiers, v).0
  {
    assert [u, v][1..] == [v] && [v][1..] == [];
    assert SumOfCosts(tiers, [v]) == CostForTiers(tiers, v).0 + SumOfCosts(tiers, []);
    assert SumOfCosts(tiers, [u, v]) == CostForTiers(tiers, u).0 + SumOfCosts(tiers, [v]);
  }

  lemma PriceOfColumn(t: Tier, col: Column, n: nat)
    ensures Price(t, OnlyIn(col, n)) == PerMillion(n, Rate(t, col))
  {
  }

  function OnlyIn(col: Column, n: nat): Load {
    match col
    case Input => Load(n, 0, 0, 0, 0)
    case Output => Load(0, n, 0, 0, 0)
    case Write5m => Load(0, 0, n, 0, 0)
    case Write1h => Load(0, 0, 0, n, 0)
    case Read => Load(0, 0, 0, 0, n)
  }

  /** The column in which a token of the input saves least. */
  function LeastColumn(from: Tier, to: Tier): (col: Column)
    ensures col != Output && Rate(from, col) - Rate(to, col) == LeastSaving(from, to)
  {
    if LeastSaving(from, to) == from.input - to.input then Input
    else if LeastSaving(from, to) == from.cw5m - to.cw5m then Write5m
    else if LeastSaving(from, to) == from.cw1h - to.cw1h then Write1h
    else Read
  }

  /** All of the input charged in one column. */
  lemma AllInOneColumn(n: nat, col: Column)
    requires col != Output
    ensures NonNegative(Request(n, col, n)) && LoadOf(Request(n, col, n)) == OnlyIn(col, n)
  {
  }

  /** The columns of a request's own bucket. */
  ghost predicate Fills(b: Bucket, input: nat, col: Column, n: nat) {
    && b.inTokens == input && b.outTokens == (if col == Output then n else 0)
    && b.cw5m == (if col == Write5m then n else 0) && b.cw1h == (if col == Write1h then n else 0)
    && b.cr == (if col == Read then n else 0)
  }

  lemma OwnFills(input: nat, col: Column, n: nat)
    ensures Fills(Own(Request(input, col, n)), input, col, n)
  {
  }

  lemma TwoColumns(a: nat, b: nat, ca: Column, cb: Column)
    requires ca != Output && cb != Output
    ensures Loaded(Merge(Own(Request(a, ca, a)), Own(Request(b, cb, b)))) == PlusLoad(OnlyIn(ca, a), OnlyIn(cb, b))
  {
    var p, q := Own(Request(a, ca, a)), Own(Request(b, cb, b));
    OwnFills(a, ca, a);
    OwnFills(b, cb, b);
    BucketLoad(Merge(p, q));
    FillsTwo(p, q, a, b, ca, cb);
  }

  lemma FillsTwo(p: Bucket, q: Bucket, a: nat, b: nat, ca: Column, cb: Column)
    requires ca != Output && cb != Output && Fills(p, a, ca, a) && Fills(q, b, cb, b)
    ensures var m := Merge(p, q);
            Load(NotBelowZero(m.inTokens - m.cw5m - m.cw1h - m.cr), m.outTokens, m.cw5m, m.cw1h, m.cr)
            == PlusLoad(OnlyIn(ca, a), OnlyIn(cb, b))
  {
  }

  /** The least a and b save, and whether that is a loss. */
  predicate Loses(s: Tier, t: Tier, both: Tier, a: nat, b: nat) {
    a as real * LeastSaving(s, both) + b as real * LeastSaving(t, both) < 0.0
  }

  /** Two inputs, each charged in one column, cost more in `both`. */
  predicate LosesIn(s: Tier, t: Tier, both: Tier, a: nat, b: nat, ca: Column, cb: Column) {
    && ca != Output && cb != Output
    && Price(both, PlusLoad(OnlyIn(ca, a), OnlyIn(cb, b))) > Price(s, OnlyIn(ca, a)) + Price(t, OnlyIn(cb, b))
  }

  /** Where the least savings add up to a loss, two requests that lie in those columns are the loss. */
  lemma LossShows(tiers: seq<Tier>, a: nat, b: nat, ca: Column, cb: Column) returns (us: seq<Usage>)
    requires tiers != []
    requires LosesIn(TierFor(tiers, a), TierFor(tiers, b), TierFor(tiers, a + b), a, b, ca, cb)
    ensures forall i :: 0 <= i < |us| ==> NonNegative(us[i])
    ensures CostForTiers(tiers, UsageOf(BucketsFor(us))).0 > SumOfCosts(tiers, us)
  {
    var u, v := Request(a, ca, a), Request(b, cb, b);
    AllInOneColumn(a, ca);
    AllInOneColumn(b, cb);
    TwoColumns(a, b, ca, cb);
    us := Dearer(tiers, u, v);
  }

  lemma LossPriced(s: Tier, t: Tier, both: Tier, a: nat, b: nat)
    requires Loses(s, t, both, a, b)
    ensures LosesIn(s, t, both, a, b, LeastColumn(s, both), LeastColumn(t, both))
  {
    var ca, cb := LeastColumn(s, both), LeastColumn(t, both);
    LossInAll(a, b, Rate(s, ca), Rate(both, ca), Rate(t, cb), Rate(both, cb));
    PriceOfTwo(both, ca, a, cb, b);
    PriceOfColumn(s, ca, a);
    PriceOfColumn(t, cb, b);
  }

  lemma PriceOfTwo(t: Tier, ca: Column, a: nat, cb: Column, b: nat)
    ensures Price(t, PlusLoad(OnlyIn(ca, a), OnlyIn(cb, b)))
            == PerMillion(a, Rate(t, ca)) + PerMillion(b, Rate(t, cb))
  {
    PriceAdds(t, OnlyIn(ca, a), OnlyIn(cb, b));
    PriceOfColumn(t, ca, a);
    PriceOfColumn(t, cb, b);
  }

  lemma LossInAll(a: nat, b: nat, s: real, bs: real, t: real, bt: real)
    requires a as real * (s - bs) + b as real * (t - bt) < 0.0
    ensures PerMillion(a, bs) + PerMillion(b, bt) > PerMillion(a, s) + PerMillion(b, t)
  {
    Differ(a as real, s, bs);
    Differ(b as real, t, bt);
  }

  lemma Differ(n: real, x: real, y: real)
    ensures n * (x - y) == n * x - n * y
  {
  }

  predicate Rises(from: Tier, to: Tier, col: Column) {
    col != Input && Rate(to, col) > Rate(from, col)
  }

  /** Enough of anything to outweigh a debt. */
  lemma Outweighs(gain: real, debt: real, least: nat) returns (n: nat)
    requires gain > 0.0
    ensures n >= least && n as real * gain > debt
  {
    var k := (debt / gain).Floor + 1;
    n := if k > least then k else least;
    assert n as real > debt / gain;
    OutweighsBy(n as real, gain, debt);
  }

  lemma OutweighsBy(n: real, gain: real, debt: real)
    requires gain > 0.0 && n > debt / gain
    ensures n * gain > debt
  {
    var q := debt / gain;
    assert q * gain == debt;
    assert (n - q) * gain > 0.0;
  }

  /** What one request with `n` tokens in another column comes to, and it and another of `b` tokens. */
  lemma RisingLoads(a: nat, b: nat, col: Column, n: nat)
    requires col != Input && n >= a + b
    ensures NonNegative(Request(a, col, n)) && LoadOf(Request(a, col, n)) == Besides(a, col, n)
    ensures NonNegative(Request(b, Input, 0)) && LoadOf(Request(b, Input, 0)) == OnlyIn(Input, b)
    ensures Loaded(Merge(Own(Request(a, col, n)), Own(Request(b, Input, 0)))) == Besides(a + b, col, n)
  {
    var p, q := Own(Request(a, col, n)), Own(Request(b, Input, 0));
    RequestLoaded(a, col, n);
    OwnFills(a, col, n);
    OwnFills(b, Input, 0);
    BucketLoad(Merge(p, q));
  }

  lemma RequestLoaded(a: nat, col: Column, n: nat)
    requires col != Input && n >= a
    ensures LoadOf(Request(a, col, n)) == Besides(a, col, n)
    ensures NonNegative(Request(a, col, n))
  {
  }

  /** The input is charged as input only where the other tokens are not part of it. */
  function Besides(input: nat, col: Column, n: nat): Load {
    match col
    case Input => Load(n, 0, 0, 0, 0)
    case Output => Load(input, n, 0, 0, 0)
    case Write5m => Load(0, 0, n, 0, 0)
    case Write1h => Load(0, 0, 0, n, 0)
    case Read => Load(0, 0, 0, 0, n)
  }

  lemma PriceBesides(t: Tier, input: nat, col: Column, n: nat)
    requires col != Input
    ensures Price(t, Besides(input, col, n))
            == (n as real * Rate(t, col) + if col == Output then input as real * t.input else 0.0) / 1000000.0
  {
    match col
    case Output => PriceOfInputAndOutput(t, input, n);
    case _ => PriceOfColumn(t, col, n);
  }

  lemma PriceOfInputAndOutput(t: Tier, input: nat, n: nat)
    ensures Price(t, Load(input, n, 0, 0, 0)) == (n as real * t.output + input as real * t.input) / 1000000.0
  {
  }

  /** Where another rate rises, enough tokens of that kind outweigh everything else. */
  lemma RiseShows(tiers: seq<Tier>, a: nat, b: nat, col: Column) returns (us: seq<Usage>)
    requires tiers != [] && Rises(TierFor(tiers, a), TierFor(tiers, a + b), col)
    ensures forall i :: 0 <= i < |us| ==> NonNegative(us[i])
    ensures CostForTiers(tiers, UsageOf(BucketsFor(us))).0 > SumOfCosts(tiers, us)
  {
    var n := RisePriced(TierFor(tiers, a), TierFor(tiers, b), TierFor(tiers, a + b), a, b, col);
    RisingLoads(a, b, col, n);
    us := Dearer(tiers, Request(a, col, n), Request(b, Input, 0));
  }

  lemma RisePriced(s: Tier, t: Tier, both: Tier, a: nat, b: nat, col: Column) returns (n: nat)
    requires Rises(s, both, col)
    ensures n >= a + b
    ensures Price(both, Besides(a + b, col, n)) > Price(s, Besides(a, col, n)) + Price(t, OnlyIn(Input, b))
  {
    var own, sum := if col == Output then a as real * s.input else 0.0,
                    if col == Output then (a + b) as real * both.input else 0.0;
    n := Outweighs(Rate(both, col) - Rate(s, col), own + b as real * t.input - sum, a + b);
    PriceBesides(both, a + b, col, n);
    PriceBesides(s, a, col, n);
    PriceOfColumn(t, Input, b);
    Differ(n as real, Rate(both, col), Rate(s, col));
  }

  lemma MeetingShows(tiers: seq<Tier>, a: nat, b: nat) returns (us: seq<Usage>)
    requires tiers != [] && !MayMeet(tiers, a, b)
    ensures forall i :: 0 <= i < |us| ==> NonNegative(us[i])
    ensures CostForTiers(tiers, UsageOf(BucketsFor(us))).0 > SumOfCosts(tiers, us)
  {
    var why := WhyNot(TierFor(tiers, a), TierFor(tiers, b), TierFor(tiers, a + b), a, b);
    match why
    case FirstRises(col) => us := RiseShows(tiers, a, b, col);
    case SecondRises(col) =>
      assert b + a == a + b;
      us := RiseShows(tiers, b, a, col);
    case Loss(ca, cb) => us := LossShows(tiers, a, b, ca, cb);
  }

  datatype Why = FirstRises(col: Column) | SecondRises(col: Column) | Loss(own: Column, other: Column)

  lemma WhyNot(s: Tier, t: Tier, both: Tier, a: nat, b: nat) returns (why: Why)
    requires !MayMeetIn(s, t, both, a, b)
    ensures match why
            case FirstRises(col) => Rises(s, both, col)
            case SecondRises(col) => Rises(t, both, col)
            case Loss(ca, cb) => LosesIn(s, t, both, a, b, ca, cb)
  {
    if !OthersDoNotRise(s, both) {
      var col := RisingColumn(s, both);
      why := FirstRises(col);
    } else if !OthersDoNotRise(t, both) {
      var col := RisingColumn(t, both);
      why := SecondRises(col);
    } else {
      LossPriced(s, t, both, a, b);
      why := Loss(LeastColumn(s, both), LeastColumn(t, both));
    }
  }

  lemma RisingColumn(from: Tier, to: Tier) returns (col: Column)
    requires !OthersDoNotRise(from, to)
    ensures Rises(from, to, col)
  {
    col := if to.output > from.output then Output
           else if to.cw5m > from.cw5m then Write5m
           else if to.cw1h > from.cw1h then Write1h
           else Read;
  }

  /**
    A tier list never charges a merged bucket more, whatever the requests, if and only if any two inputs may be
    added up: no rate but the input's is higher in the tier of the sum than in either's own, and no loss on the
    input of one exceeds what the other must save.
    */
  lemma NeverDearerIff(tiers: seq<Tier>)
    requires tiers != [] && FreeOrDear(tiers)
    ensures NeverDearer(tiers) <==> forall a: nat, b: nat :: MayMeet(tiers, a, b)
  {
    if forall a: nat, b: nat :: MayMeet(tiers, a, b) {
      forall us: seq<Usage> | forall i :: 0 <= i < |us| ==> NonNegative(us[i])
        ensures CostForTiers(tiers, UsageOf(BucketsFor(us))).0 <= SumOfCosts(tiers, us)
      {
        MergedCostsNoMoreThan(tiers, us);
      }
    } else {
      var a: nat, b: nat :| !MayMeet(tiers, a, b);
      var us := MeetingShows(tiers, a, b);
      assert !NeverDearer(tiers);
    }
  }

  // ---- what that comes to -------------------------------------------------------------------------

  predicate NothingRises(from: Tier, to: Tier) {
    to.input <= from.input && OthersDoNotRise(from, to)
  }

  /** No rate rises towards the end of the list. */
  ghost predicate Falling(tiers: seq<Tier>) {
    forall i, j :: 0 <= i < j < |tiers| ==> NothingRises(tiers[i], tiers[j])
  }

  /** A larger input is never in an earlier tier. */
  lemma {:induction false} TiersInOrder(tiers: seq<Tier>, a: nat, b: nat) returns (i: nat, j: nat)
    requires tiers != [] && a <= b
    ensures i <= j < |tiers| && TierFor(tiers, a) == tiers[i] && TierFor(tiers, b) == tiers[j]
  {
    if |tiers| == 1 || AppliesTo(tiers[0], b) {
      i, j := 0, 0;
    } else {
      i, j := TiersInOrder(tiers[1..], a, b);
      i, j := if AppliesTo(tiers[0], a) then 0 else i + 1, j + 1;
    }
  }

  lemma FallsBetween(tiers: seq<Tier>, a: nat, b: nat)
    requires tiers != [] && Falling(tiers) && a <= b
    ensures NothingRises(TierFor(tiers, a), TierFor(tiers, b))
  {
    var i, j := TiersInOrder(tiers, a, b);
  }

  lemma MayMeetBelow(s: Tier, t: Tier, both: Tier, a: nat, b: nat)
    requires NothingRises(s, both) && NothingRises(t, both)
    ensures MayMeetIn(s, t, both, a, b)
  {
    Grows(0.0, LeastSaving(s, both), a as real);
    Grows(0.0, LeastSaving(t, both), b as real);
  }

  /** Rates that only fall are safe, */
  lemma FallingIsNeverDearer(tiers: seq<Tier>)
    requires tiers != [] && FreeOrDear(tiers) && Falling(tiers)
    ensures NeverDearer(tiers)
  {
    forall a: nat, b: nat
      ensures MayMeet(tiers, a, b)
    {
      FallingMayMeet(tiers, a, b);
    }
    NeverDearerIff(tiers);
  }

  lemma FallingMayMeet(tiers: seq<Tier>, a: nat, b: nat)
    requires tiers != [] && Falling(tiers)
    ensures MayMeet(tiers, a, b)
  {
    FallsBetween(tiers, a, a + b);
    FallsBetween(tiers, b, a + b);
    MayMeetBelow(TierFor(tiers, a), TierFor(tiers, b), TierFor(tiers, a + b), a, b);
  }

  /** and where there are two tiers, each of which some input reaches, nothing else is. */
  lemma TwoTiersIff(first: Tier, second: Tier)
    requires FreeOrDear([first, second]) && first.maxIn.Some? && first.maxIn.value >= 1.0
    ensures NeverDearer([first, second]) <==> NothingRises(first, second)
  {
    var tiers := [first, second];
    assert tiers[1..] == [second];
    if NothingRises(first, second) {
      FallingIsNeverDearer(tiers);
    } else {
      var n := first.maxIn.value.Floor;
      assert TierFor(tiers, n) == first && TierFor(tiers, n + n) == second;
      TwoMayNotMeet(first, second, n);
      assert !MayMeet(tiers, n, n);
      NeverDearerIff(tiers);
    }
  }

  lemma TwoMayNotMeet(first: Tier, second: Tier, n: nat)
    requires n > 0 && !NothingRises(first, second)
    ensures !MayMeetIn(first, first, second, n, n)
  {
    var m := LeastSaving(first, second);
    if OthersDoNotRise(first, second) {
      assert m < 0.0;
      assert n as real * m < 0.0;
    }
  }

  function Flat(rate: real, maxIn: Option<real>): Tier {
    Tier(rate, rate, rate, rate, rate, maxIn)
  }

  /** The third tier's input costs more than the second's, but only 12 and 13 tokens reach it. */
  const NARROW_RISE := [Flat(100.0, Some(10.0)), Flat(1.0, Some(11.0)), Flat(1.0, Some(13.0)).(input := 1.01),
                        Flat(1.0, None)]

  function NarrowIndex(n: nat): (i: nat)
    ensures i < 4
  {
    if n <= 10 then 0 else if n <= 11 then 1 else if n <= 13 then 2 else 3
  }

  lemma NarrowTier(n: nat)
    ensures TierFor(NARROW_RISE, n) == NARROW_RISE[NarrowIndex(n)]
  {
    var r1 := NARROW_RISE[1..];
    var r2 := r1[1..];
    var r3 := r2[1..];
    assert |r3| == 1 && r3[0] == NARROW_RISE[3] && r2[0] == NARROW_RISE[2] && r1[0] == NARROW_RISE[1];
    assert TierFor(r3, n) == r3[0];
    assert TierFor(r2, n) == if n <= 13 then r2[0] else r3[0];
    assert TierFor(r1, n) == if n <= 11 then r1[0] else TierFor(r2, n);
  }

  /** Only from the second tier to the third anything is lost, and what comes from the first saves much more. */
  lemma NarrowSaving(i: nat, k: nat)
    requires i <= k < 4
    ensures OthersDoNotRise(NARROW_RISE[i], NARROW_RISE[k])
    ensures i != 1 || k != 2 ==> LeastSaving(NARROW_RISE[i], NARROW_RISE[k]) >= 0.0
    ensures LeastSaving(NARROW_RISE[1], NARROW_RISE[2]) == -0.01
    ensures LeastSaving(NARROW_RISE[0], NARROW_RISE[2]) == 98.99
  {
  }

  lemma NarrowMayMeet(a: nat, b: nat)
    ensures MayMeet(NARROW_RISE, a, b)
  {
    NarrowTier(a);
    NarrowTier(b);
    NarrowTier(a + b);
    NarrowMayMeetIn(a, b);
  }

  lemma NarrowMayMeetIn(a: nat, b: nat)
    ensures MayMeetIn(NARROW_RISE[NarrowIndex(a)], NARROW_RISE[NarrowIndex(b)], NARROW_RISE[NarrowIndex(a + b)], a, b)
  {
    var i, j, k := NarrowIndex(a), NarrowIndex(b), NarrowIndex(a + b);
    NarrowSaving(i, k);
    NarrowSaving(j, k);
    NarrowSum(a, b, LeastSaving(NARROW_RISE[i], NARROW_RISE[k]), LeastSaving(NARROW_RISE[j], NARROW_RISE[k]));
  }

  lemma NarrowSum(a: nat, b: nat, own: real, other: real)
    requires own >= 0.0 || (NarrowIndex(a) == 1 && NarrowIndex(a + b) == 2 && own == -0.01 && other == 98.99)
    requires other >= 0.0 || (NarrowIndex(b) == 1 && NarrowIndex(a + b) == 2 && other == -0.01 && own == 98.99)
    ensures a as real * own + b as real * other >= 0.0
  {
    if own >= 0.0 { Grows(0.0, own, a as real); }
    if other >= 0.0 { Grows(0.0, other, b as real); }
    if own < 0.0 {
      assert a == 11 && 1 <= b <= 2;
    } else if other < 0.0 {
      assert b == 11 && 1 <= a <= 2;
    }
  }

  /** With more tiers a rising input rate can be harmless: whatever adds up to reach it saves more than it loses. */
  lemma RiseCanBeHarmless()
    ensures NeverDearer(NARROW_RISE) && !Falling(NARROW_RISE)
    ensures TierFor(NARROW_RISE, 11).input < TierFor(NARROW_RISE, 12).input
  {
    forall a: nat, b: nat
      ensures MayMeet(NARROW_RISE, a, b)
    {
      NarrowMayMeet(a, b);
    }
    NeverDearerIff(NARROW_RISE);
    NarrowTier(11);
    NarrowTier(12);
    assert !NothingRises(NARROW_RISE[1], NARROW_RISE[2]);
  }

  /** Alibaba's two tiers of qwen3.7-plus: every rate in use triples past 256000 tokens. */
  const QWEN_PLUS := [Tier(0.40, 1.60, 0.0, 0.0, 0.08, Some(256000.0)),
                      Tier(1.20, 4.80, 0.0, 0.0, 0.24, Some(1000000.0))]

  lemma QwenPlusCanBeDearer()
    ensures !NeverDearer(QWEN_PLUS)
  {
    TwoTiersIff(QWEN_PLUS[0], QWEN_PLUS[1]);
    assert QWEN_PLUS == [QWEN_PLUS[0], QWEN_PLUS[1]];
  }
}
