/**
  Repetition detection in user-entered text (agent_wrap/lib/text.py): the one-line
  `len(text) // (text + text).find(text, 1)` and the theorem about words it rests on.
  */
module Text {

  ghost predicate OccursAt(haystack: string, needle: string, i: int) {
    0 <= i && i + |needle| <= |haystack| && haystack[i..i + |needle|] == needle
  }

  /** The least occurrence at or after `start`, or -1: the source's string `find`. */
  function Find(haystack: string, needle: string, start: nat): (i: int)
    ensures i == -1 || (start <= i && OccursAt(haystack, needle, i))
    ensures i == -1 ==> forall j :: start <= j ==> !OccursAt(haystack, needle, j)
    ensures i != -1 ==> forall j :: start <= j < i ==> !OccursAt(haystack, needle, j)
    decreases |haystack| - start
  {
    if start + |needle| > |haystack| then -1
    else if haystack[start..start + |needle|] == needle then start
    else Find(haystack, needle, start + 1)
  }

  function RepetitionCount(text: string): int {
    if text == "" then 1 else |text| / Find(text + text, text, 1)
  }

  function Repeat(unit: string, n: nat): (s: string)
    ensures |s| == n * |unit|
  {
    if n == 0 then "" else unit + Repeat(unit, n - 1)
  }

  function Rotate(t: string, p: nat): string
    requires p <= |t|
  {
    t[p..] + t[..p]
  }

  /** Rotating `t` left by `p` gives `t` back. */
  ghost predicate IsPeriod(t: string, p: nat) {
    p <= |t| && Rotate(t, p) == t
  }

  ghost predicate IsLeastPeriod(t: string, p: nat) {
    1 <= p && IsPeriod(t, p) && forall q: nat :: 1 <= q < p ==> !IsPeriod(t, q)
  }

  lemma OccurrenceIsPeriod(t: string, p: nat)
    requires p <= |t|
    ensures OccursAt(t + t, t, p) <==> IsPeriod(t, p)
  {
    assert (t + t)[p..p + |t|] == Rotate(t, p);
  }

  /** What `find` returns on the doubled text is its least period under rotation. */
  lemma FindGivesLeastPeriod(t: string)
    requires t != ""
    ensures var p := Find(t + t, t, 1); 1 <= p <= |t| && IsLeastPeriod(t, p)
  {
    assert Rotate(t, |t|) == t;
    OccurrenceIsPeriod(t, |t|);
    var p := Find(t + t, t, 1);
    OccurrenceIsPeriod(t, p);
    forall q: nat | 1 <= q < p
      ensures !IsPeriod(t, q)
    {
      OccurrenceIsPeriod(t, q);
    }
  }

  lemma PeriodDifference(t: string, p: nat, q: nat)
    requires p <= q && IsPeriod(t, p) && IsPeriod(t, q)
    ensures IsPeriod(t, q - p)
  {
    assert Rotate(Rotate(t, p), q - p) == Rotate(t, q);
  }

  /** Euclid's argument: every period is a multiple of the least one. */
  lemma {:induction false} LeastPeriodDivides(t: string, p: nat, q: nat) returns (k: nat)
    requires IsLeastPeriod(t, p) && IsPeriod(t, q)
    ensures q == k * p
    decreases q
  {
    if q == 0 {
      k := 0;
    } else {
      assert p <= q;
      PeriodDifference(t, p, q);
      var k' := LeastPeriodDivides(t, p, q - p);
      k := k' + 1;
    }
  }

  lemma {:induction false} RepeatComm(unit: string, n: nat)
    ensures unit + Repeat(unit, n) == Repeat(unit, n) + unit
  {
    if n > 0 {
      calc {
        unit + Repeat(unit, n);
        unit + (unit + Repeat(unit, n - 1));
        { RepeatComm(unit, n - 1); }
        unit + (Repeat(unit, n - 1) + unit);
        (unit + Repeat(unit, n - 1)) + unit;
        Repeat(unit, n) + unit;
      }
    } else {
      assert unit + "" == "" + unit;
    }
  }

  lemma RepeatHasPeriod(unit: string, n: nat)
    requires n >= 1
    ensures IsPeriod(Repeat(unit, n), |unit|)
  {
    RepeatComm(unit, n - 1);
    var t := Repeat(unit, n);
    assert t == unit + Repeat(unit, n - 1);
    assert t[|unit|..] == Repeat(unit, n - 1) && t[..|unit|] == unit;
  }

  /** A text that agrees with itself shifted by `p` is copies of its first `p` characters. */
  lemma {:induction false} ShiftInvariantIsRepeat(t: string, p: nat, k: nat)
    requires 1 <= p && |t| == k * p
    requires k >= 1 ==> t[p..] == t[..|t| - p]
    ensures k >= 1 ==> t == Repeat(t[..p], k)
    ensures k == 0 ==> t == ""
    decreases k
  {
    if k >= 1 {
      assert |t| == (k - 1) * p + p;
      var rest := t[p..];
      if k >= 2 {
        assert |rest| == (k - 2) * p + p;
        assert rest[p..] == t[p..][p..] == t[..|t| - p][p..] == rest[..|rest| - p];
        assert rest[..p] == t[..p];
      }
      ShiftInvariantIsRepeat(rest, p, k - 1);
      assert t == t[..p] + rest;
      assert k == 1 ==> rest == Repeat(t[..p], 0);
    }
  }

  lemma PeriodIsRepeat(t: string, p: nat, k: nat)
    requires 1 <= p && 1 <= k && |t| == k * p && IsPeriod(t, p)
    ensures t == Repeat(t[..p], k)
  {
    assert |t| == (k - 1) * p + p;
    assert t[p..] == Rotate(t, p)[..|t| - p] == t[..|t| - p];
    ShiftInvariantIsRepeat(t, p, k);
  }

  lemma MulAtLeast(x: int, d: int)
    requires x >= 1 && d >= 1
    ensures x * d >= d && x * d >= x
  {
  }

  lemma MulCancel(x: int, y: int, d: int)
    requires d >= 1 && 0 <= x * d - y * d < d
    ensures x == y
  {
    var diff := x - y;
    assert diff * d == x * d - y * d;
    if diff >= 1 {
      MulAtLeast(diff, d);
    } else if diff <= -1 {
      MulAtLeast(-diff, d);
    }
  }

  lemma ExactDivision(n: nat, d: nat, k: nat)
    requires d >= 1 && n == k * d
    ensures n / d == k && n % d == 0
  {
    assert n == (n / d) * d + n % d;
    MulCancel(k, n / d, d);
  }

  /** What the caller offers to store instead: the first `n`-th of the text. */
  function Unit(text: string, n: int): string
    requires n >= 1
  {
    PartFits(|text|, n);
    text[..|text| / n]
  }

  lemma PartFits(len: nat, n: int)
    requires n >= 1
    ensures 0 <= len / n <= len
  {
  }

  /** The prefix the caller offers to store rebuilds the text (secrets service, lines 40-44). */
  lemma UnitRebuildsText(text: string)
    ensures var n := RepetitionCount(text);
            1 <= n && |text| % n == 0 && Repeat(Unit(text, n), n) == text
  {
    if text == "" {
      assert Repeat(text, 1) == text;
    } else {
      FindGivesLeastPeriod(text);
      var p: nat := Find(text + text, text, 1);
      assert IsPeriod(text, |text|) by { assert Rotate(text, |text|) == text; }
      var k := LeastPeriodDivides(text, p, |text|);
      BothDivide(|text|, k, p);
      PeriodIsRepeat(text, p, k);
    }
  }

  lemma BothDivide(n: nat, k: nat, p: nat)
    requires n == k * p && n >= 1 && p >= 1
    ensures k >= 1 && n / p == k && n / k == p && n % k == 0
  {
    assert k != 0;
    ExactDivision(n, p, k);
    ExactDivision(n, k, p);
  }

  lemma CountIsMultiple(n: nat, m: nat, j: nat, p: nat, len: nat)
    requires p >= 1 && m >= 1 && len == j * p && n * p == m * len && m * len != 0
    ensures m <= n && n % m == 0
  {
    assert n * p == (m * j) * p;
    MulCancel(n, m * j, p);
    assert j != 0;
    MulAtLeast(j, m);
    ExactDivision(n, m, j);
  }

  /** Whenever the text is m copies of something, m divides the reported count. */
  lemma CopiesDivideCount(text: string, unit: string, m: nat)
    requires text != "" && text == Repeat(unit, m)
    ensures 1 <= m <= RepetitionCount(text) && RepetitionCount(text) % m == 0
  {
    assert m >= 1;
    RepeatHasPeriod(unit, m);
    FindGivesLeastPeriod(text);
    var p: nat := Find(text + text, text, 1);
    assert IsPeriod(text, |text|) by { assert Rotate(text, |text|) == text; }
    var n := LeastPeriodDivides(text, p, |text|);
    ExactDivision(|text|, p, n);
    var j := LeastPeriodDivides(text, p, |unit|);
    CountIsMultiple(n, m, j, p, |unit|);
  }

  lemma {:induction false} RepeatRepeat(unit: string, a: nat, b: nat)
    ensures Repeat(Repeat(unit, a), b) == Repeat(unit, a * b)
  {
    if b > 0 {
      RepeatRepeat(unit, a, b - 1);
      RepeatSum(unit, a, a * (b - 1));
      assert a + a * (b - 1) == a * b;
    } else {
      assert a * b == 0;
    }
  }

  lemma {:induction false} RepeatSum(unit: string, a: nat, b: nat)
    ensures Repeat(unit, a) + Repeat(unit, b) == Repeat(unit, a + b)
  {
    if a == 0 {
      assert "" + Repeat(unit, b) == Repeat(unit, b);
    } else {
      RepeatSum(unit, a - 1, b);
      assert Repeat(unit, a) + Repeat(unit, b) == unit + (Repeat(unit, a - 1) + Repeat(unit, b));
    }
  }

  lemma SplitIntoDivisor(text: string, n: nat, m: nat)
    requires 1 <= m <= n && n % m == 0
    requires Repeat(text[..|text| / n], n) == text
    ensures exists unit :: text == Repeat(unit, m)
  {
    var q := n / m;
    assert q * m == n;
    RepeatRepeat(text[..|text| / n], q, m);
    assert text == Repeat(Repeat(text[..|text| / n], q), m);
  }

  /** The counts a text can be cut into are exactly the divisors of the reported one. */
  lemma RepetitionCountIsExact(text: string, m: nat)
    requires text != ""
    ensures (exists unit :: text == Repeat(unit, m))
            <==> 1 <= m <= RepetitionCount(text) && RepetitionCount(text) % m == 0
  {
    if unit :| text == Repeat(unit, m) {
      CopiesDivideCount(text, unit, m);
    }
    var n := RepetitionCount(text);
    if 1 <= m <= n && n % m == 0 {
      UnitRebuildsText(text);
      SplitIntoDivisor(text, n, m);
    }
  }
}
