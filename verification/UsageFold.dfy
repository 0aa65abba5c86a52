/**
  Usage cells folded into priced buckets (agent_wrap/domain/stats/fold.py): first by day and hour, so that
  each hour can be priced at its own rate, then by day; nothing is lost and no order shows.
  */
module UsageFold {
  import opened Totals
  import opened Calendar
  import opened Pricing

  /** One aggregate of the index: an hour bucket's requests of one session, model and source. */
  datatype Cell = Cell(hash: string, session: int, hour: Option<int>, model: string, requests: int, unrecovered: bool,
                       input: int, output: int, cacheWrite: int, cacheRead: int)

  datatype Window = Window(from: Option<Date>, until: Option<Date>, dayStart: int)

  /** UTC weekday (Monday is 0) and hour; None for a cell without an instant. */
  type HourKey = Option<(int, int)>

  datatype Address = Address(hash: string, day: string, hour: HourKey, model: string)

  datatype DayAddress = DayAddress(hash: string, day: string, model: string)

  /** An entry of a dictionary of buckets. */
  datatype Slot<K> = Slot(key: K, bucket: Bucket)

  predicate DatedCell(c: Cell, w: Window) {
    WindowDates(w.from, w.until) && (c.hour.Some? ==> Representable(c.hour.value, w.dayStart))
  }

  ghost predicate Dated(cells: seq<Cell>, w: Window) {
    WindowDates(w.from, w.until) && forall i :: 0 <= i < |cells| ==> DatedCell(cells[i], w)
  }

  /** The flat cache-write total of a cell is charged as 5-minute writes, whatever its split was. */
  function CellBucket(c: Cell): (r: Bucket)
    ensures r == Bucket(c.requests, c.input, c.output, c.cacheWrite, 0, c.cacheRead, 0.0, false,
                        if c.unrecovered then c.requests else 0)
  {
    BucketOf(Usage(c.input, c.output, c.cacheWrite, c.cacheRead, 0, 0), Some(0.0), false)
      .(msgs := c.requests, unrecorded := if c.unrecovered then c.requests else 0)
  }

  function HourKeyOf(hour: Option<int>): HourKey {
    if hour.Some? then Some(((hour.value / HOURS_PER_DAY + 3) % 7, hour.value % HOURS_PER_DAY)) else None
  }

  function AddressOf(c: Cell, dayStart: int): Address
    requires c.hour.Some? ==> Representable(c.hour.value, dayStart)
  {
    Address(c.hash, DayKey(c.hour, dayStart), HourKeyOf(c.hour), c.model)
  }

  function InWindow(c: Cell, w: Window): bool
    requires DatedCell(c, w)
  {
    DayInRange(DayKey(c.hour, w.dayStart), Key(w.from), Key(w.until))
  }

  // ---- dictionaries of buckets --------------------------------------------------------------------

  /** The bucket under `k`, made if missing, with `b` merged in. */
  function Filed<K(==)>(t: seq<Slot<K>>, k: K, b: Bucket): seq<Slot<K>> {
    if t == [] then [Slot(k, Merge(NO_USAGE, b))]
    else if t[0].key == k then [Slot(k, Merge(t[0].bucket, b))] + t[1..]
    else [t[0]] + Filed(t[1..], k, b)
  }

  function At<K(==)>(t: seq<Slot<K>>, k: K): Bucket {
    if t == [] then NO_USAGE else if t[0].key == k then t[0].bucket else At(t[1..], k)
  }

  function KeysOf<K>(t: seq<Slot<K>>): (r: seq<K>)
    ensures |r| == |t|
  {
    if t == [] then [] else [t[0].key] + KeysOf(t[1..])
  }

  lemma {:induction false} FiledIs<K>(t: seq<Slot<K>>, k: K, b: Bucket, q: K)
    ensures At(Filed(t, k, b), q) == if q == k then Merge(At(t, k), b) else At(t, q)
    ensures q in KeysOf(Filed(t, k, b)) <==> q == k || q in KeysOf(t)
  {
    if t != [] {
      FiledIs(t[1..], k, b, q);
      if t[0].key != k {
        assert Filed(t, k, b)[1..] == Filed(t[1..], k, b);
      } else {
        assert Filed(t, k, b)[1..] == t[1..];
      }
    }
  }

  lemma {:induction false} FiledDistinct<K(!new)>(t: seq<Slot<K>>, k: K, b: Bucket)
    requires Distinct(KeysOf(t))
    ensures Distinct(KeysOf(Filed(t, k, b)))
  {
    if t != [] {
      DistinctTail(KeysOf(t));
      assert KeysOf(t)[1..] == KeysOf(t[1..]);
      if t[0].key != k {
        FiledDistinct(t[1..], k, b);
        FiledIs(t[1..], k, b, t[0].key);
        assert Filed(t, k, b)[1..] == Filed(t[1..], k, b);
        DistinctAppend([t[0].key], KeysOf(Filed(t[1..], k, b)));
      } else {
        assert Filed(t, k, b)[1..] == t[1..];
        assert KeysOf(Filed(t, k, b)) == KeysOf(t);
      }
    }
  }

  lemma {:induction false} SlotsAre<K(!new)>(t: seq<Slot<K>>, s: Slot<K>)
    requires Distinct(KeysOf(t))
    ensures s in t <==> s.key in KeysOf(t) && s.bucket == At(t, s.key)
    ensures Distinct(t)
  {
    if t != [] {
      DistinctTail(KeysOf(t));
      assert KeysOf(t)[1..] == KeysOf(t[1..]);
      SlotsAre(t[1..], s);
      SlotsAre(t[1..], t[0]);
      assert t == [t[0]] + t[1..];
      DistinctAppend([t[0]], t[1..]);
    }
  }

  // ---- what a bucket counts, cost aside -----------------------------------------------------------

  function Counts(b: Bucket): Bucket {
    b.(cost := 0.0, costUnknown := false)
  }

  function SlotSum<K>(t: seq<Slot<K>>, pick: K -> bool): Bucket {
    if t == [] then NO_USAGE
    else Merge(Picked(pick(t[0].key), t[0].bucket), SlotSum(t[1..], pick))
  }

  function Picked(picked: bool, b: Bucket): Bucket {
    if picked then Counts(b) else NO_USAGE
  }

  lemma PickedMerges(picked: bool, a: Bucket, b: Bucket, rest: Bucket)
    ensures Merge(Picked(picked, Merge(a, b)), rest) == Merge(Merge(Picked(picked, a), rest), Picked(picked, b))
  {
  }

  lemma MergeAssociates(a: Bucket, b: Bucket, c: Bucket)
    ensures Merge(a, Merge(b, c)) == Merge(Merge(a, b), c)
  {
  }

  /** Filing adds its counts to every sum that looks at its key, and to no other. */
  lemma {:induction false} FiledSum<K>(t: seq<Slot<K>>, k: K, b: Bucket, pick: K -> bool)
    ensures SlotSum(Filed(t, k, b), pick) == Merge(SlotSum(t, pick), Picked(pick(k), b))
  {
    if t == [] {
      assert Filed(t, k, b)[1..] == [];
    } else if t[0].key == k {
      assert Filed(t, k, b)[1..] == t[1..];
      PickedMerges(pick(k), t[0].bucket, b, SlotSum(t[1..], pick));
    } else {
      assert Filed(t, k, b)[1..] == Filed(t[1..], k, b);
      FiledSum(t[1..], k, b, pick);
      MergeAssociates(Picked(pick(t[0].key), t[0].bucket), SlotSum(t[1..], pick), Picked(pick(k), b));
    }
  }

  // ---- first stage: by hour -----------------------------------------------------------------------

  function Folded(cells: seq<Cell>, w: Window): seq<Slot<Address>>
    requires Dated(cells, w)
  {
    if cells == [] then []
    else
      var before, c := Folded(cells[..|cells| - 1], w), cells[|cells| - 1];
      if InWindow(c, w) then Filed(before, AddressOf(c, w.dayStart), CellBucket(c)) else before
  }

  // ---- second stage: priced, then by day ----------------------------------------------------------

  /** The provider's price for a model's bucket at a weekday and hour; None when it knows none. */
  type PriceOf = (string, Bucket, HourKey) -> Option<real>

  function DayOf(a: Address): DayAddress {
    DayAddress(a.hash, a.day, a.model)
  }

  function Priced(s: Slot<Address>, price: PriceOf): Bucket {
    var cost := price(s.key.model, s.bucket, s.key.hour);
    if cost.None? then s.bucket.(costUnknown := true) else s.bucket.(cost := s.bucket.cost + cost.value)
  }

  function Collapsed(slots: seq<Slot<Address>>, price: PriceOf): seq<Slot<DayAddress>> {
    if slots == [] then []
    else
      var last := slots[|slots| - 1];
      Filed(Collapsed(slots[..|slots| - 1], price), DayOf(last.key), Priced(last, price))
  }

  // ---- what a day costs, from its cells -----------------------------------------------------------

  function FallsInto(c: Cell, w: Window, d: DayAddress): bool
    requires DatedCell(c, w)
  {
    InWindow(c, w) && c.hash == d.hash && c.model == d.model && DayKey(c.hour, w.dayStart) == d.day
  }

  /** The usage of exactly the cells that fall into a day at one weekday and hour, in one bucket. */
  function Gathered(cells: seq<Cell>, w: Window, d: DayAddress, k: HourKey): Bucket
    requires Dated(cells, w)
  {
    if cells == [] then NO_USAGE
    else
      var own := if FallsInto(cells[0], w, d) && HourKeyOf(cells[0].hour) == k then CellBucket(cells[0]) else NO_USAGE;
      Merge(own, Gathered(cells[1..], w, d, k))
  }

  /** The weekdays and hours of the cells that fall into a day, each listed once. */
  ghost predicate AreHoursOf(keys: seq<HourKey>, cells: seq<Cell>, w: Window, d: DayAddress)
    requires Dated(cells, w)
  {
    Distinct(keys)
    && forall k :: k in keys <==> exists c :: c in cells && FallsInto(c, w, d) && HourKeyOf(c.hour) == k
  }

  function HourPrice(cells: seq<Cell>, w: Window, price: PriceOf, d: DayAddress, k: HourKey): Option<real>
    requires Dated(cells, w)
  {
    price(d.model, Gathered(cells, w, d, k), k)
  }

  function SumOfPrices(keys: seq<HourKey>, cells: seq<Cell>, w: Window, price: PriceOf, d: DayAddress): real
    requires Dated(cells, w)
  {
    if keys == [] then 0.0
    else
      var own := HourPrice(cells, w, price, d, keys[0]);
      (if own.Some? then own.value else 0.0) + SumOfPrices(keys[1..], cells, w, price, d)
  }

  /**
    A day's cost is the sum, over the weekdays and hours its cells fall on, of the price of what was used then at
    the rate of then; unknown iff one of these prices is. Exactly the days some cell falls into are there.
    */
  ghost predicate CostsByTheHour(byDay: seq<Slot<DayAddress>>, cells: seq<Cell>, w: Window, price: PriceOf)
    requires Dated(cells, w)
  {
    && (forall d :: d in KeysOf(byDay) <==> exists c :: c in cells && FallsInto(c, w, d))
    && forall d, keys :: AreHoursOf(keys, cells, w, d) ==>
         At(byDay, d).cost == SumOfPrices(keys, cells, w, price, d)
         && (At(byDay, d).costUnknown <==> exists k :: k in keys && HourPrice(cells, w, price, d, k) == None)
  }

  method FoldCells(cells: seq<Cell>, w: Window, price: PriceOf) returns (byDay: seq<Slot<DayAddress>>)
    requires Dated(cells, w)
    ensures byDay == Collapsed(Folded(cells, w), price)
    ensures CostsByTheHour(byDay, cells, w, price)
  {
    var slots: seq<Slot<Address>> := [];
    for i := 0 to |cells|
      invariant slots == Folded(cells[..i], w)
    {
      var c := cells[i];
      assert cells[..i + 1][..i] == cells[..i];
      if !InWindow(c, w) {
        continue;
      }
      slots := Filed(slots, AddressOf(c, w.dayStart), CellBucket(c));
    }
    assert cells[..|cells|] == cells;
    byDay := PriceBuckets(slots, price);
    EachHourAtItsPrice(cells, w, price);
  }

  method PriceBuckets(slots: seq<Slot<Address>>, price: PriceOf) returns (byDay: seq<Slot<DayAddress>>)
    ensures byDay == Collapsed(slots, price)
  {
    byDay := [];
    for i := 0 to |slots|
      invariant byDay == Collapsed(slots[..i], price)
    {
      assert slots[..i + 1][..i] == slots[..i];
      byDay := Filed(byDay, DayOf(slots[i].key), Priced(slots[i], price));
    }
    assert slots[..|slots|] == slots;
  }

  // ---- conservation -------------------------------------------------------------------------------

  /** What the cells in the window count, for those days, projects and models `pick` looks at. */
  function CellSum(cells: seq<Cell>, w: Window, pick: DayAddress -> bool): Bucket
    requires Dated(cells, w)
  {
    if cells == [] then NO_USAGE
    else
      var c := cells[|cells| - 1];
      Merge(CellSum(cells[..|cells| - 1], w, pick),
            Picked(InWindow(c, w) && pick(DayOf(AddressOf(c, w.dayStart))), CellBucket(c)))
  }

  function ByDay(pick: DayAddress -> bool): Address -> bool {
    (a: Address) => pick(DayOf(a))
  }

  lemma {:induction false} FoldedConserves(cells: seq<Cell>, w: Window, pick: DayAddress -> bool)
    requires Dated(cells, w)
    ensures SlotSum(Folded(cells, w), ByDay(pick)) == CellSum(cells, w, pick)
  {
    if cells != [] {
      var init, c := cells[..|cells| - 1], cells[|cells| - 1];
      FoldedConserves(init, w, pick);
      if InWindow(c, w) {
        FiledSum(Folded(init, w), AddressOf(c, w.dayStart), CellBucket(c), ByDay(pick));
      }
    }
  }

  lemma {:induction false} SlotSumAppend<K>(t: seq<Slot<K>>, s: Slot<K>, pick: K -> bool)
    ensures SlotSum(t + [s], pick) == Merge(SlotSum(t, pick), Picked(pick(s.key), s.bucket))
  {
    if t == [] {
      assert [s][1..] == [] && t + [s] == [s];
    } else {
      assert (t + [s])[1..] == t[1..] + [s];
      SlotSumAppend(t[1..], s, pick);
      MergeAssociates(Picked(pick(t[0].key), t[0].bucket), SlotSum(t[1..], pick), Picked(pick(s.key), s.bucket));
    }
  }

  lemma PricingKeepsCounts(s: Slot<Address>, price: PriceOf, picked: bool)
    ensures Picked(picked, Priced(s, price)) == Picked(picked, s.bucket)
  {
  }

  lemma {:induction false} CollapsedConserves(slots: seq<Slot<Address>>, price: PriceOf, pick: DayAddress -> bool)
    ensures SlotSum(Collapsed(slots, price), pick) == SlotSum(slots, ByDay(pick))
  {
    if slots != [] {
      var init, last := slots[..|slots| - 1], slots[|slots| - 1];
      CollapsedConserves(init, price, pick);
      OneMoreSlot(Collapsed(init, price), init, last, price, pick);
      assert slots == init + [last];
    }
  }

  lemma OneMoreSlot(days: seq<Slot<DayAddress>>, init: seq<Slot<Address>>, last: Slot<Address>, price: PriceOf,
                    pick: DayAddress -> bool)
    requires SlotSum(days, pick) == SlotSum(init, ByDay(pick))
    ensures SlotSum(Filed(days, DayOf(last.key), Priced(last, price)), pick) == SlotSum(init + [last], ByDay(pick))
  {
    FiledSum(days, DayOf(last.key), Priced(last, price), pick);
    PricingKeepsCounts(last, price, pick(DayOf(last.key)));
    SlotSumAppend(init, last, ByDay(pick));
  }

  /**
    The fold conserves messages, every token column and the unrecorded count over exactly the cells in the window:
    for any choice of projects, days and models, and for all of them together.
    */
  lemma FoldConserves(cells: seq<Cell>, w: Window, price: PriceOf, pick: DayAddress -> bool)
    requires Dated(cells, w)
    ensures SlotSum(Collapsed(Folded(cells, w), price), pick) == CellSum(cells, w, pick)
  {
    FoldedConserves(cells, w, pick);
    CollapsedConserves(Folded(cells, w), price, pick);
  }

  /** Selected by hour bounds or by the day rule: the cells are the same. */
  lemma QueryBoundsSuffice(c: Cell, w: Window)
    requires DatedCell(c, w)
    ensures InWindow(c, w) <==> InBounds(c.hour, HourBounds(w.from, w.until, w.dayStart))
  {
    BoundsAreTheDayRule(c.hour, w.from, w.until, w.dayStart);
  }

  // ---- order --------------------------------------------------------------------------------------

  function Part(c: Cell, w: Window, a: Address): Bucket {
    if DatedCell(c, w) && InWindow(c, w) && AddressOf(c, w.dayStart) == a then CellBucket(c)
    else NO_USAGE
  }

  function PartAt(w: Window, a: Address): Cell -> Bucket {
    (c: Cell) => Part(c, w, a)
  }

  ghost predicate Contributes(cells: seq<Cell>, w: Window, a: Address)
    requires Dated(cells, w)
  {
    exists c :: c in cells && InWindow(c, w) && AddressOf(c, w.dayStart) == a
  }

  lemma {:induction false} FoldedIs(cells: seq<Cell>, w: Window, a: Address)
    requires Dated(cells, w)
    ensures At(Folded(cells, w), a) == Fold(Merge, NO_USAGE, PartAt(w, a), cells)
  {
    if cells != [] {
      var init, c := cells[..|cells| - 1], cells[|cells| - 1];
      FoldedIs(init, w, a);
      FoldedIsNext(init, c, w, a, Folded(init, w));
      LastPutBack(cells);
    }
  }

  lemma FoldedIsNext(init: seq<Cell>, c: Cell, w: Window, a: Address, t: seq<Slot<Address>>)
    requires DatedCell(c, w)
    requires At(t, a) == Fold(Merge, NO_USAGE, PartAt(w, a), init)
    ensures At(if InWindow(c, w) then Filed(t, AddressOf(c, w.dayStart), CellBucket(c)) else t, a)
            == Fold(Merge, NO_USAGE, PartAt(w, a), init + [c])
  {
    FoldLast(init, c, w, a);
    FiledPart(t, c, w, a);
  }

  lemma FiledPart(t: seq<Slot<Address>>, c: Cell, w: Window, a: Address)
    requires DatedCell(c, w)
    ensures At(if InWindow(c, w) then Filed(t, AddressOf(c, w.dayStart), CellBucket(c)) else t, a)
            == Merge(At(t, a), Part(c, w, a))
  {
    if InWindow(c, w) { FiledIs(t, AddressOf(c, w.dayStart), CellBucket(c), a); }
  }

  lemma {:induction false} FoldedKeys(cells: seq<Cell>, w: Window, a: Address)
    requires Dated(cells, w)
    ensures a in KeysOf(Folded(cells, w)) <==> Contributes(cells, w, a)
    ensures Distinct(KeysOf(Folded(cells, w)))
  {
    if cells != [] {
      var init, c := cells[..|cells| - 1], cells[|cells| - 1];
      FoldedKeys(init, w, a);
      assert cells == init + [c];
      assert forall x :: x in cells <==> x in init || x == c;
      if InWindow(c, w) {
        FiledIs(Folded(init, w), AddressOf(c, w.dayStart), CellBucket(c), a);
        FiledDistinct(Folded(init, w), AddressOf(c, w.dayStart), CellBucket(c));
      }
    }
  }

  lemma FoldLast(init: seq<Cell>, c: Cell, w: Window, a: Address)
    ensures Fold(Merge, NO_USAGE, PartAt(w, a), init + [c])
            == Merge(Fold(Merge, NO_USAGE, PartAt(w, a), init), Part(c, w, a))
  {
    var of := PartAt(w, a);
    MergeMonoid();
    FoldAppend(Merge, NO_USAGE, of, init, [c]);
    assert [c][1..] == [];
    assert Fold(Merge, NO_USAGE, of, [c]) == Merge(of(c), Fold(Merge, NO_USAGE, of, []));
  }

  /** The first stage's dictionary holds the same entries whatever order the cells come in. */
  lemma AnyOrderFoldsAlike(a: seq<Cell>, b: seq<Cell>, w: Window)
    requires Dated(a, w) && Dated(b, w) && multiset(a) == multiset(b)
    ensures multiset(Folded(a, w)) == multiset(Folded(b, w))
  {
    SameSlot(a, b, w, Slot(Address("", "", None, ""), NO_USAGE));
    forall x: Slot<Address>
      ensures x in Folded(a, w) <==> x in Folded(b, w)
    {
      SameSlot(a, b, w, x);
    }
    SameMembers(Folded(a, w), Folded(b, w));
  }

  lemma SameSlot(a: seq<Cell>, b: seq<Cell>, w: Window, x: Slot<Address>)
    requires Dated(a, w) && Dated(b, w) && multiset(a) == multiset(b)
    ensures x in Folded(a, w) <==> x in Folded(b, w)
    ensures Distinct(Folded(a, w)) && Distinct(Folded(b, w))
  {
    SlotFoldsAlike(a, b, w, x.key);
    SlotsAre(Folded(a, w), x);
    SlotsAre(Folded(b, w), x);
  }

  lemma SlotFoldsAlike(a: seq<Cell>, b: seq<Cell>, w: Window, k: Address)
    requires Dated(a, w) && Dated(b, w) && multiset(a) == multiset(b)
    ensures At(Folded(a, w), k) == At(Folded(b, w), k)
    ensures k in KeysOf(Folded(a, w)) <==> k in KeysOf(Folded(b, w))
    ensures Distinct(KeysOf(Folded(a, w))) && Distinct(KeysOf(Folded(b, w)))
  {
    MergeMonoid();
    FoldedIs(a, w, k);
    FoldedIs(b, w, k);
    FoldPermuted(Merge, NO_USAGE, PartAt(w, k), a, b);
    FoldedKeys(a, w, k);
    FoldedKeys(b, w, k);
    assert forall c :: c in a <==> c in multiset(a);
    assert forall c :: c in b <==> c in multiset(b);
  }

  function PricedPart(s: Slot<Address>, price: PriceOf, d: DayAddress): Bucket {
    if DayOf(s.key) == d then Priced(s, price) else NO_USAGE
  }

  function PricedPartAt(price: PriceOf, d: DayAddress): Slot<Address> -> Bucket {
    (s: Slot<Address>) => PricedPart(s, price, d)
  }

  lemma {:induction false} CollapsedIs(slots: seq<Slot<Address>>, price: PriceOf, d: DayAddress)
    ensures At(Collapsed(slots, price), d) == Fold(Merge, NO_USAGE, PricedPartAt(price, d), slots)
    ensures d in KeysOf(Collapsed(slots, price)) <==> exists s :: s in slots && DayOf(s.key) == d
  {
    if slots != [] {
      var init, last := slots[..|slots| - 1], slots[|slots| - 1];
      CollapsedIs(init, price, d);
      assert slots == init + [last];
      assert forall x :: x in slots <==> x in init || x == last;
      SlotsLast(init, last, price, d);
      FiledIs(Collapsed(init, price), DayOf(last.key), Priced(last, price), d);
    }
  }

  lemma SlotsLast(init: seq<Slot<Address>>, last: Slot<Address>, price: PriceOf, d: DayAddress)
    ensures Fold(Merge, NO_USAGE, PricedPartAt(price, d), init + [last])
            == Merge(Fold(Merge, NO_USAGE, PricedPartAt(price, d), init),
                     PricedPart(last, price, d))
  {
    var of := PricedPartAt(price, d);
    MergeMonoid();
    FoldAppend(Merge, NO_USAGE, of, init, [last]);
    assert [last][1..] == [];
    assert Fold(Merge, NO_USAGE, of, [last]) == Merge(of(last), Fold(Merge, NO_USAGE, of, []));
  }

  /** So counts and costs come out the same for every order of the cells. */
  lemma AnyOrderPricesAlike(a: seq<Cell>, b: seq<Cell>, w: Window, price: PriceOf, d: DayAddress)
    requires Dated(a, w) && Dated(b, w) && multiset(a) == multiset(b)
    ensures At(Collapsed(Folded(a, w), price), d) == At(Collapsed(Folded(b, w), price), d)
    ensures d in KeysOf(Collapsed(Folded(a, w), price)) <==> d in KeysOf(Collapsed(Folded(b, w), price))
  {
    var s, t := Folded(a, w), Folded(b, w);
    AnyOrderFoldsAlike(a, b, w);
    CollapsedIs(s, price, d);
    CollapsedIs(t, price, d);
    MergeMonoid();
    FoldPermuted(Merge, NO_USAGE, PricedPartAt(price, d), s, t);
    assert forall x :: x in s <==> x in multiset(s);
    assert forall x :: x in t <==> x in multiset(t);
  }

  // ---- each hour at its own price -----------------------------------------------------------------

  function AtHour(d: DayAddress, k: HourKey): Address {
    Address(d.hash, d.day, k, d.model)
  }

  /** A merged bucket of cells has not been priced yet. */
  lemma {:induction false} GatheredIsFolded(cells: seq<Cell>, w: Window, d: DayAddress, k: HourKey)
    requires Dated(cells, w)
    ensures Gathered(cells, w, d, k) == Fold(Merge, NO_USAGE, PartAt(w, AtHour(d, k)), cells)
    ensures Gathered(cells, w, d, k).cost == 0.0 && !Gathered(cells, w, d, k).costUnknown
  {
    if cells != [] {
      var c, a := cells[0], AtHour(d, k);
      GatheredIsFolded(cells[1..], w, d, k);
      assert PartAt(w, a)(c) == Part(c, w, a);
      assert FallsInto(c, w, d) && HourKeyOf(c.hour) == k <==> InWindow(c, w) && AddressOf(c, w.dayStart) == a;
    }
  }

  lemma SlotsAreGathered(cells: seq<Cell>, w: Window, d: DayAddress, k: HourKey)
    requires Dated(cells, w)
    ensures At(Folded(cells, w), AtHour(d, k)) == Gathered(cells, w, d, k)
    ensures AtHour(d, k) in KeysOf(Folded(cells, w))
            <==> exists c :: c in cells && FallsInto(c, w, d) && HourKeyOf(c.hour) == k
    ensures Distinct(KeysOf(Folded(cells, w)))
  {
    FoldedIs(cells, w, AtHour(d, k));
    GatheredIsFolded(cells, w, d, k);
    FoldedKeys(cells, w, AtHour(d, k));
    forall c | c in cells
      ensures FallsInto(c, w, d) && HourKeyOf(c.hour) == k
              <==> InWindow(c, w) && AddressOf(c, w.dayStart) == AtHour(d, k)
    {
    }
  }

  /** What one hour adds to its day. */
  function SlotPrice(slots: seq<Slot<Address>>, price: PriceOf, d: DayAddress, k: HourKey): Option<real> {
    price(d.model, At(slots, AtHour(d, k)), k)
  }

  function SumOfSlotPrices(keys: seq<HourKey>, slots: seq<Slot<Address>>, price: PriceOf, d: DayAddress): real {
    if keys == [] then 0.0
    else
      var own := SlotPrice(slots, price, d, keys[0]);
      (if own.Some? then own.value else 0.0) + SumOfSlotPrices(keys[1..], slots, price, d)
  }

  lemma {:induction false} SlotPricesAppend(a: seq<HourKey>, b: seq<HourKey>, slots: seq<Slot<Address>>,
                                            price: PriceOf, d: DayAddress)
    ensures SumOfSlotPrices(a + b, slots, price, d)
            == SumOfSlotPrices(a, slots, price, d) + SumOfSlotPrices(b, slots, price, d)
  {
    if a == [] {
      assert a + b == b;
    } else {
      assert (a + b)[1..] == a[1..] + b;
      SlotPricesAppend(a[1..], b, slots, price, d);
    }
  }

  /** A slot in front changes nothing for the hours that are not its own. */
  lemma {:induction false} OtherHours(keys: seq<HourKey>, s: Slot<Address>, rest: seq<Slot<Address>>, price: PriceOf,
                                      d: DayAddress)
    requires forall k :: k in keys ==> AtHour(d, k) != s.key
    ensures SumOfSlotPrices(keys, [s] + rest, price, d) == SumOfSlotPrices(keys, rest, price, d)
  {
    if keys != [] {
      assert ([s] + rest)[1..] == rest;
      OtherHours(keys[1..], s, rest, price, d);
    }
  }

  lemma OneHourFirst(keys: seq<HourKey>, s: Slot<Address>, rest: seq<Slot<Address>>, price: PriceOf, d: DayAddress,
                     i: nat)
    requires i < |keys| && Distinct(keys) && AtHour(d, keys[i]) == s.key
    ensures var others, own := keys[..i] + keys[i + 1..], price(d.model, s.bucket, keys[i]);
            && Distinct(others) && (forall k :: k in others <==> k in keys && k != keys[i])
            && SumOfSlotPrices(keys, [s] + rest, price, d)
               == (if own.Some? then own.value else 0.0) + SumOfSlotPrices(others, rest, price, d)
  {
    var before, behind, slots := keys[..i], keys[i + 1..], [s] + rest;
    assert keys == before + ([keys[i]] + behind) && ([keys[i]] + behind)[1..] == behind;
    SlotPricesAppend(before, [keys[i]] + behind, slots, price, d);
    SlotPricesAppend(before, behind, slots, price, d);
    OthersOf(keys, i);
    OtherHours(before + behind, s, rest, price, d);
  }

  lemma OthersOf(keys: seq<HourKey>, i: nat)
    requires i < |keys| && Distinct(keys)
    ensures var others := keys[..i] + keys[i + 1..];
            Distinct(others) && forall k :: k in others <==> k in keys && k != keys[i]
  {
    var others := keys[..i] + keys[i + 1..];
    assert forall j :: 0 <= j < |others| ==> others[j] == if j < i then keys[j] else keys[j + 1];
    assert forall j :: 0 <= j < i ==> keys[j] == others[j];
    assert forall j :: i < j < |keys| ==> keys[j] == others[j - 1];
  }

  ghost predicate Unpriced(slots: seq<Slot<Address>>) {
    forall s :: s in slots ==> s.bucket.cost == 0.0 && !s.bucket.costUnknown
  }

  ghost predicate SomeUnknown(keys: seq<HourKey>, slots: seq<Slot<Address>>, price: PriceOf, d: DayAddress) {
    exists k :: k in keys && SlotPrice(slots, price, d, k) == None
  }

  /** Slot by slot and hour by hour, the two sums of a day agree. */
  lemma {:induction false} SlotsCost(slots: seq<Slot<Address>>, keys: seq<HourKey>, price: PriceOf, d: DayAddress)
    requires Distinct(KeysOf(slots)) && Distinct(keys) && Unpriced(slots)
    requires forall k :: k in keys <==> AtHour(d, k) in KeysOf(slots)
    ensures var day := Fold(Merge, NO_USAGE, PricedPartAt(price, d), slots);
            && day.cost == SumOfSlotPrices(keys, slots, price, d)
            && (day.costUnknown <==> SomeUnknown(keys, slots, price, d))
    decreases slots, 0
  {
    assert keys != [] ==> keys[0] in keys;
    if slots != [] {
      var s, rest := slots[0], slots[1..];
      assert slots == [s] + rest;
      DistinctTail(KeysOf(slots));
      assert KeysOf(slots)[1..] == KeysOf(rest);
      assert forall a :: a in KeysOf(slots) <==> a == s.key || a in KeysOf(rest);
      if DayOf(s.key) == d {
        OwnSlotCost(s, rest, keys, price, d);
      } else {
        assert forall k :: AtHour(d, k) != s.key;
        SlotsCost(rest, keys, price, d);
        OtherHours(keys, s, rest, price, d);
        assert forall k :: SlotPrice(slots, price, d, k) == SlotPrice(rest, price, d, k);
      }
    }
  }

  lemma {:induction false} OwnSlotCost(s: Slot<Address>, rest: seq<Slot<Address>>, keys: seq<HourKey>, price: PriceOf,
                                       d: DayAddress)
    requires DayOf(s.key) == d && s.key !in KeysOf(rest) && Distinct(KeysOf(rest)) && Distinct(keys)
    requires Unpriced([s] + rest) && forall k :: k in keys <==> AtHour(d, k) == s.key || AtHour(d, k) in KeysOf(rest)
    ensures var day := Fold(Merge, NO_USAGE, PricedPartAt(price, d), [s] + rest);
            day.cost == SumOfSlotPrices(keys, [s] + rest, price, d)
            && (day.costUnknown <==> SomeUnknown(keys, [s] + rest, price, d))
    decreases rest, 1
  {
    var k0 := s.key.hour;
    assert AtHour(d, k0) == s.key && forall k :: AtHour(d, k) == s.key ==> k == k0;
    var i :| 0 <= i < |keys| && keys[i] == k0;
    var others := keys[..i] + keys[i + 1..];
    OneHourFirst(keys, s, rest, price, d, i);
    assert s in [s] + rest && forall r :: r in rest ==> r in [s] + rest;
    SlotsCost(rest, others, price, d);
    assert ([s] + rest)[1..] == rest;
    UnknownFirst(keys, others, s, rest, price, d);
  }

  lemma UnknownFirst(keys: seq<HourKey>, others: seq<HourKey>, s: Slot<Address>, rest: seq<Slot<Address>>,
                     price: PriceOf, d: DayAddress)
    requires AtHour(d, s.key.hour) == s.key && s.key.hour in keys
    requires forall k :: k in others <==> k in keys && k != s.key.hour
    ensures SomeUnknown(keys, [s] + rest, price, d)
            <==> price(d.model, s.bucket, s.key.hour) == None || SomeUnknown(others, rest, price, d)
  {
    var slots := [s] + rest;
    assert slots[1..] == rest;
    assert SlotPrice(slots, price, d, s.key.hour) == price(d.model, s.bucket, s.key.hour);
    assert forall k :: k in others ==> SlotPrice(slots, price, d, k) == SlotPrice(rest, price, d, k);
  }

  lemma FoldedIsUnpriced(cells: seq<Cell>, w: Window)
    requires Dated(cells, w)
    ensures Unpriced(Folded(cells, w))
  {
    forall s | s in Folded(cells, w)
      ensures s.bucket.cost == 0.0 && !s.bucket.costUnknown
    {
      SlotsAreGathered(cells, w, DayOf(s.key), s.key.hour);
      SlotsAre(Folded(cells, w), s);
      GatheredIsFolded(cells, w, DayOf(s.key), s.key.hour);
    }
  }

  lemma {:induction false} SameSum(keys: seq<HourKey>, cells: seq<Cell>, w: Window, price: PriceOf, d: DayAddress)
    requires Dated(cells, w)
    ensures SumOfSlotPrices(keys, Folded(cells, w), price, d) == SumOfPrices(keys, cells, w, price, d)
  {
    if keys != [] {
      SlotsAreGathered(cells, w, d, keys[0]);
      SameSum(keys[1..], cells, w, price, d);
    }
  }

  lemma DayCost(keys: seq<HourKey>, cells: seq<Cell>, w: Window, price: PriceOf, d: DayAddress)
    requires Dated(cells, w) && AreHoursOf(keys, cells, w, d)
    ensures var day := At(Collapsed(Folded(cells, w), price), d);
            && day.cost == SumOfPrices(keys, cells, w, price, d)
            && (day.costUnknown <==> exists k :: k in keys && HourPrice(cells, w, price, d, k) == None)
  {
    var slots := Folded(cells, w);
    forall k
      ensures SlotPrice(slots, price, d, k) == HourPrice(cells, w, price, d, k)
      ensures k in keys <==> AtHour(d, k) in KeysOf(slots)
    {
      SlotsAreGathered(cells, w, d, k);
    }
    SlotsAreGathered(cells, w, d, None);
    CollapsedIs(slots, price, d);
    FoldedIsUnpriced(cells, w);
    SlotsCost(slots, keys, price, d);
    SameSum(keys, cells, w, price, d);
  }

  lemma DayIsThere(cells: seq<Cell>, w: Window, price: PriceOf, d: DayAddress)
    requires Dated(cells, w)
    ensures d in KeysOf(Collapsed(Folded(cells, w), price)) <==> exists c :: c in cells && FallsInto(c, w, d)
  {
    var slots := Folded(cells, w);
    CollapsedIs(slots, price, d);
    if s :| s in slots && DayOf(s.key) == d {
      SlotsAreGathered(cells, w, d, s.key.hour);
      SlotsAre(slots, s);
    }
    if c :| c in cells && FallsInto(c, w, d) {
      var a := AtHour(d, HourKeyOf(c.hour));
      SlotsAreGathered(cells, w, d, HourKeyOf(c.hour));
      SlotsAre(slots, Slot(a, At(slots, a)));
    }
  }

  lemma EachHourAtItsPrice(cells: seq<Cell>, w: Window, price: PriceOf)
    requires Dated(cells, w)
    ensures CostsByTheHour(Collapsed(Folded(cells, w), price), cells, w, price)
  {
    forall d: DayAddress
      ensures d in KeysOf(Collapsed(Folded(cells, w), price)) <==> exists c :: c in cells && FallsInto(c, w, d)
    {
      DayIsThere(cells, w, price, d);
    }
    forall d, keys | AreHoursOf(keys, cells, w, d)
      ensures var day := At(Collapsed(Folded(cells, w), price), d);
              day.cost == SumOfPrices(keys, cells, w, price, d)
              && (day.costUnknown <==> exists k :: k in keys && HourPrice(cells, w, price, d, k) == None)
    {
      DayCost(keys, cells, w, price, d);
    }
  }

  /** One cell alone costs its own price at its own weekday and hour. */
  lemma OneCellCost(c: Cell, w: Window, price: PriceOf)
    requires DatedCell(c, w) && InWindow(c, w)
    ensures var day := At(Collapsed(Folded([c], w), price), DayAddress(c.hash, DayKey(c.hour, w.dayStart), c.model));
            var own := price(c.model, CellBucket(c), HourKeyOf(c.hour));
            if own.Some? then day.cost == own.value && !day.costUnknown else day.costUnknown
  {
    var d, k := DayAddress(c.hash, DayKey(c.hour, w.dayStart), c.model), HourKeyOf(c.hour);
    assert c in [c] && AreHoursOf([k], [c], w, d);
    DayCost([k], [c], w, price, d);
    assert [c][1..] == [] && [k][1..] == [] && k in [k];
    assert Gathered([c], w, d, k) == Merge(CellBucket(c), NO_USAGE) == CellBucket(c);
    assert SumOfPrices([], [c], w, price, d) == 0.0;
  }

  /** The key a cell is priced by: the weekday of its UTC date, and how far into that day its hour bucket begins. */
  lemma KeyIsTheClock(hour: int)
    requires Representable(hour, 0)
    ensures var day := DayNumber(hour, 0);
            && 0 <= hour - (day - EPOCH) * HOURS_PER_DAY < HOURS_PER_DAY
            && HourKeyOf(Some(hour)) == Some((Weekday(DateOf(day)), hour - (day - EPOCH) * HOURS_PER_DAY))
  {
    WeekdayOfDay(DayNumber(hour, 0));
  }
}
