/**
  Stats days and hour buckets (agent_wrap/domain/stats/format_utils.py, agent_wrap/lib/daytime.py): the
  proleptic Gregorian calendar, ISO day keys compared as strings, and the window rule in both its forms.
  */
module Calendar {
  import opened Totals
  import opened Lex

  const HOURS_PER_DAY := 24
  const UNKNOWN_TIME_KEY := "?"

  datatype Date = Date(year: int, month: int, day: int)

  predicate Leap(y: int) {
    y % 4 == 0 && (y % 100 != 0 || y % 400 == 0)
  }

  function DaysIn(y: int, m: int): int {
    if m == 2 then (if Leap(y) then 29 else 28)
    else if m == 4 || m == 6 || m == 9 || m == 11 then 30
    else 31
  }

  /** The dates Python's calendar has. */
  predicate IsDate(d: Date) {
    1 <= d.year <= 9999 && 1 <= d.month <= 12 && 1 <= d.day <= DaysIn(d.year, d.month)
  }

  function DaysBeforeYear(y: int): int {
    (y - 1) * 365 + (y - 1) / 4 - (y - 1) / 100 + (y - 1) / 400
  }

  function DaysBeforeMonth(y: int, m: int): int
    decreases m
  {
    if m <= 1 then 0 else DaysBeforeMonth(y, m - 1) + DaysIn(y, m - 1)
  }

  /** `date.toordinal`: 1 for 0001-01-01. */
  function Ordinal(d: Date): int {
    DaysBeforeYear(d.year) + DaysBeforeMonth(d.year, d.month) + d.day
  }

  const MAX_ORDINAL := 3652059

  function NextDay(d: Date): Date {
    if d.day < DaysIn(d.year, d.month) then d.(day := d.day + 1)
    else if d.month < 12 then Date(d.year, d.month + 1, 1)
    else Date(d.year + 1, 1, 1)
  }

  /** Earlier in the calendar. */
  predicate Before(a: Date, b: Date) {
    a.year < b.year || (a.year == b.year && (a.month < b.month || (a.month == b.month && a.day < b.day)))
  }

  lemma YearLength(y: int)
    ensures DaysBeforeYear(y + 1) == DaysBeforeYear(y) + DaysBeforeMonth(y, 13)
    ensures DaysBeforeMonth(y, 13) == if Leap(y) then 366 else 365
  {
    assert DaysBeforeMonth(y, 4) == DaysIn(y, 1) + DaysIn(y, 2) + DaysIn(y, 3);
    assert DaysBeforeMonth(y, 7) == DaysBeforeMonth(y, 4) + DaysIn(y, 4) + DaysIn(y, 5) + DaysIn(y, 6);
    assert DaysBeforeMonth(y, 10) == DaysBeforeMonth(y, 7) + DaysIn(y, 7) + DaysIn(y, 8) + DaysIn(y, 9);
    assert DaysBeforeMonth(y, 13) == DaysBeforeMonth(y, 10) + DaysIn(y, 10) + DaysIn(y, 11) + DaysIn(y, 12);
    Quotients(y);
  }

  lemma Quotients(y: int)
    ensures y / 4 - (y - 1) / 4 == if y % 4 == 0 then 1 else 0
    ensures y / 100 - (y - 1) / 100 == if y % 100 == 0 then 1 else 0
    ensures y / 400 - (y - 1) / 400 == if y % 400 == 0 then 1 else 0
  {
  }

  lemma {:induction false} YearsGrow(y: int, z: int)
    requires y <= z
    ensures DaysBeforeYear(y) <= DaysBeforeYear(z)
    decreases z - y
  {
    if y < z {
      YearLength(z - 1);
      YearsGrow(y, z - 1);
    }
  }

  lemma {:induction false} MonthsGrow(y: int, m: int, n: int)
    requires 1 <= m < n
    ensures DaysBeforeMonth(y, m) + DaysIn(y, m) <= DaysBeforeMonth(y, n)
    decreases n - m
  {
    if m < n - 1 { MonthsGrow(y, m, n - 1); }
  }

  lemma WithinYear(d: Date)
    requires IsDate(d)
    ensures DaysBeforeYear(d.year) < Ordinal(d) <= DaysBeforeYear(d.year + 1)
  {
    YearLength(d.year);
    MonthsGrow(d.year, d.month, 13);
    if d.month > 1 { MonthsGrow(d.year, 1, d.month); }
  }

  /** Ordinals count days in calendar order. */
  lemma OrdinalsInOrder(a: Date, b: Date)
    requires IsDate(a) && IsDate(b)
    ensures Before(a, b) <==> Ordinal(a) < Ordinal(b)
    ensures Ordinal(a) == Ordinal(b) <==> a == b
  {
    OrdinalsRise(a, b);
    OrdinalsRise(b, a);
  }

  lemma YearsRise(a: Date, b: Date)
    requires IsDate(a) && IsDate(b) && a.year < b.year
    ensures Ordinal(a) < Ordinal(b)
  {
    WithinYear(a);
    WithinYear(b);
    YearsGrow(a.year + 1, b.year);
  }

  lemma OrdinalsRise(a: Date, b: Date)
    requires IsDate(a) && IsDate(b)
    ensures Before(a, b) ==> Ordinal(a) < Ordinal(b)
  {
    if a.year < b.year {
      YearsRise(a, b);
    } else if a.year == b.year && a.month < b.month {
      MonthsGrow(a.year, a.month, b.month);
    }
  }

  lemma NextDayIsNext(d: Date)
    requires IsDate(d) && d != Date(9999, 12, 31)
    ensures IsDate(NextDay(d)) && Ordinal(NextDay(d)) == Ordinal(d) + 1
  {
    if d.day == DaysIn(d.year, d.month) {
      if d.month == 12 { YearLength(d.year); }
    }
  }

  lemma LastDay()
    ensures Ordinal(Date(9999, 12, 31)) == MAX_ORDINAL
  {
    YearLength(9999);
    assert DaysBeforeMonth(9999, 13) == DaysBeforeMonth(9999, 12) + DaysIn(9999, 12);
  }

  /** `date.fromordinal`. */
  function DateOf(n: int): (d: Date)
    requires 1 <= n <= MAX_ORDINAL
    ensures IsDate(d) && Ordinal(d) == n
    decreases n
  {
    if n == 1 then Date(1, 1, 1)
    else
      var d := DateOf(n - 1);
      LastDay();
      NextDayIsNext(d);
      NextDay(d)
  }

  // ---- ISO keys -----------------------------------------------------------------------------------

  function Digit(n: int): char
    requires 0 <= n < 10
  {
    "0123456789"[n]
  }

  function Digits(n: nat, width: nat): (s: string)
    ensures |s| == width
  {
    if width == 0 then "" else Digits(n / 10, width - 1) + [Digit(n % 10)]
  }

  function Power10(w: nat): nat {
    if w == 0 then 1 else 10 * Power10(w - 1)
  }

  /** `date.isoformat`. */
  function Iso(d: Date): (s: string)
    requires IsDate(d)
    ensures s != UNKNOWN_TIME_KEY
  {
    Digits(d.year, 4) + ("-" + (Digits(d.month, 2) + ("-" + Digits(d.day, 2))))
  }

  /** Strings of one width decide before what follows them. */
  lemma {:induction false} LexFixedWidth(x: string, y: string, a: string, b: string)
    requires |x| == |y|
    ensures LexLess(x + a, y + b) <==> LexLess(x, y) || (x == y && LexLess(a, b))
    decreases |x|
  {
    if x == "" {
      assert x + a == a && y + b == b;
    } else {
      assert (x + a)[1..] == x[1..] + a && (y + b)[1..] == y[1..] + b;
      assert x == [x[0]] + x[1..] && y == [y[0]] + y[1..];
      LexFixedWidth(x[1..], y[1..], a, b);
    }
  }

  lemma {:induction false} DigitsInOrder(n: nat, m: nat, width: nat)
    requires n < Power10(width) && m < Power10(width)
    ensures LexLess(Digits(n, width), Digits(m, width)) <==> n < m
    ensures Digits(n, width) == Digits(m, width) <==> n == m
    decreases width
  {
    if width > 0 {
      DigitsInOrder(n / 10, m / 10, width - 1);
      LexFixedWidth(Digits(n / 10, width - 1), Digits(m / 10, width - 1), [Digit(n % 10)], [Digit(m % 10)]);
      OneDigit(n % 10, m % 10);
      LastDigit(Digits(n / 10, width - 1), Digits(m / 10, width - 1), Digit(n % 10), Digit(m % 10));
    }
  }

  lemma OneDigit(n: nat, m: nat)
    requires n < 10 && m < 10
    ensures LexLess([Digit(n)], [Digit(m)]) <==> n < m
    ensures Digit(n) == Digit(m) <==> n == m
  {
    assert Digit(n) as int == '0' as int + n && Digit(m) as int == '0' as int + m;
  }

  lemma LastDigit(a: string, b: string, x: char, y: char)
    requires |a| == |b|
    ensures a + [x] == b + [y] <==> a == b && x == y
  {
    assert (a + [x])[..|a|] == a && (b + [y])[..|b|] == b;
    assert (a + [x])[|a|] == x && (b + [y])[|b|] == y;
  }

  /** Comparing day keys as strings compares the days (RFC 3339, section 5.1). */
  lemma IsoInOrder(a: Date, b: Date)
    requires IsDate(a) && IsDate(b)
    ensures LexLess(Iso(a), Iso(b)) <==> Ordinal(a) < Ordinal(b)
  {
    OrdinalsInOrder(a, b);
    assert Power10(2) == 100 && Power10(4) == 10000;
    DigitsInOrder(a.year, b.year, 4);
    DigitsInOrder(a.month, b.month, 2);
    DigitsInOrder(a.day, b.day, 2);
    var da, db := Digits(a.day, 2), Digits(b.day, 2);
    var ma, mb := Digits(a.month, 2), Digits(b.month, 2);
    LexFixedWidth(Digits(a.year, 4), Digits(b.year, 4), "-" + (ma + ("-" + da)), "-" + (mb + ("-" + db)));
    LexPrefix("-", ma + ("-" + da), mb + ("-" + db));
    LexFixedWidth(ma, mb, "-" + da, "-" + db);
    LexPrefix("-", da, db);
  }

  // ---- the window ---------------------------------------------------------------------------------

  const EPOCH := Ordinal(Date(1970, 1, 1))

  /** `date.weekday`: Monday is 0, and the first day of the calendar was one. */
  function Weekday(d: Date): int {
    (Ordinal(d) + 6) % 7
  }

  /** A week has seven days in their order, and 1970-01-01 was a Thursday. */
  lemma WeekdaysInTurn(d: Date)
    requires IsDate(d) && d != Date(9999, 12, 31)
    ensures Weekday(NextDay(d)) == (Weekday(d) + 1) % 7 && Weekday(Date(1970, 1, 1)) == 3
  {
    NextDayIsNext(d);
    assert EPOCH == 719163;
  }

  lemma WeekdayOfDay(n: int)
    requires 1 <= n <= MAX_ORDINAL
    ensures Weekday(DateOf(n)) == (n - EPOCH + 3) % 7
  {
    assert (EPOCH + 6) % 7 == 3 by { assert EPOCH == 719163; }
    Shifted(n, EPOCH);
  }

  lemma Shifted(n: int, epoch: int)
    requires (epoch + 6) % 7 == 3
    ensures (n + 6) % 7 == (n - epoch + 3) % 7
  {
  }

  /** The ordinal of the stats day an hour bucket falls into. */
  function DayNumber(hour: int, dayStart: int): int {
    (hour - dayStart) / HOURS_PER_DAY + EPOCH
  }

  predicate Representable(hour: int, dayStart: int) {
    1 <= DayNumber(hour, dayStart) <= MAX_ORDINAL
  }

  /** `get_day` of the instant the hour bucket starts at, as a key; a cell without an hour has the "?" key. */
  function DayKey(hour: Option<int>, dayStart: int): string
    requires hour.Some? ==> Representable(hour.value, dayStart)
  {
    if hour.Some? then Iso(DateOf(DayNumber(hour.value, dayStart))) else UNKNOWN_TIME_KEY
  }

  /** The day of the clock's first 24 hours is 1970-01-01, and 24 buckets on begins the next day of the calendar. */
  lemma DaysInTurn(hour: int, dayStart: int)
    requires Representable(hour, dayStart)
    ensures 0 <= hour - dayStart < HOURS_PER_DAY ==> DateOf(DayNumber(hour, dayStart)) == Date(1970, 1, 1)
    ensures Representable(hour + HOURS_PER_DAY, dayStart) ==>
              DateOf(DayNumber(hour + HOURS_PER_DAY, dayStart)) == NextDay(DateOf(DayNumber(hour, dayStart)))
  {
    var d := DateOf(DayNumber(hour, dayStart));
    OrdinalsInOrder(d, Date(1970, 1, 1));
    assert DayNumber(hour + HOURS_PER_DAY, dayStart) == DayNumber(hour, dayStart) + 1;
  }

  predicate WindowDates(from: Option<Date>, until: Option<Date>) {
    (from.Some? ==> IsDate(from.value)) && (until.Some? ==> IsDate(until.value))
  }

  function DayInRange(key: string, from: Option<string>, until: Option<string>): bool {
    if key == UNKNOWN_TIME_KEY then from.None? && until.None?
    else if from.Some? && LexLess(key, from.value) then false
    else !(until.Some? && LexLess(until.value, key))
  }

  function DayStartHour(d: Date, dayStart: int): int
    requires IsDate(d)
  {
    (Ordinal(d) - EPOCH) * HOURS_PER_DAY + dayStart
  }

  function HourBounds(from: Option<Date>, until: Option<Date>, dayStart: int): (Option<int>, Option<int>)
    requires WindowDates(from, until)
  {
    (if from.Some? then Some(DayStartHour(from.value, dayStart)) else None,
     if until.Some? then Some(DayStartHour(until.value, dayStart) + HOURS_PER_DAY - 1) else None)
  }

  /** The query's condition: a bound on a cell without an hour is never met. */
  predicate InBounds(hour: Option<int>, bounds: (Option<int>, Option<int>)) {
    && (bounds.0.Some? ==> hour.Some? && bounds.0.value <= hour.value)
    && (bounds.1.Some? ==> hour.Some? && hour.value <= bounds.1.value)
  }

  function Key(d: Option<Date>): Option<string>
    requires d.Some? ==> IsDate(d.value)
  {
    if d.Some? then Some(Iso(d.value)) else None
  }

  /**
    Bounding by hours and testing the day select the same cells, for any day-start offset, dated or not: the
    bound in hours is no second definition of a day.
    */
  lemma BoundsAreTheDayRule(hour: Option<int>, from: Option<Date>, until: Option<Date>, dayStart: int)
    requires WindowDates(from, until) && (hour.Some? ==> Representable(hour.value, dayStart))
    ensures InBounds(hour, HourBounds(from, until, dayStart))
            <==> DayInRange(DayKey(hour, dayStart), Key(from), Key(until))
  {
    if hour.Some? {
      var d := DateOf(DayNumber(hour.value, dayStart));
      if from.Some? {
        IsoInOrder(d, from.value);
        HourOfDay(hour.value, dayStart, Ordinal(from.value));
      }
      if until.Some? {
        IsoInOrder(until.value, d);
        HourOfDay(hour.value, dayStart, Ordinal(until.value));
      }
    }
  }

  lemma HourOfDay(hour: int, dayStart: int, ordinal: int)
    ensures (ordinal - EPOCH) * HOURS_PER_DAY + dayStart <= hour <==> ordinal <= DayNumber(hour, dayStart)
    ensures hour <= (ordinal - EPOCH) * HOURS_PER_DAY + dayStart + HOURS_PER_DAY - 1
            <==> DayNumber(hour, dayStart) <= ordinal
  {
  }
}
