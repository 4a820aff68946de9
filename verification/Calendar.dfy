/** Days and calendar months in UTC, in milliseconds since the epoch. */
module Calendar {
  const HOUR := 3600000
  const DAY := 24 * HOUR

  function EndOfDay(t: int): int
  {
    t / DAY * DAY + DAY - 1
  }

  lemma UpToDay(t: int, u: int)
    ensures t <= EndOfDay(u) <==> t / DAY <= u / DAY
  {}

  function IsLeap(y: int): bool
  {
    y % 4 == 0 && (y % 100 != 0 || y % 400 == 0)
  }

  // Months count from 0 here.
  function DaysIn(y: int, m: int): int
    requires 0 <= m < 12
  {
    if m == 1 then (if IsLeap(y) then 29 else 28)
    else if m == 3 || m == 5 || m == 8 || m == 10 then 30
    else 31
  }

  function DaysBeforeYear(y: int): int
  {
    365 * y + (y + 3) / 4 - (y + 99) / 100 + (y + 399) / 400
  }

  function DaysBeforeMonth(y: int, m: int): int
    requires 0 <= m < 12
  {
    var days := [0, 31, 59, 90, 120, 151, 181, 212, 243, 273, 304, 334];
    DaysBeforeYear(y) + days[m] + if m >= 2 && IsLeap(y) then 1 else 0
  }

  // The first millisecond of the n-th month of the calendar, month 0 being January of year 0.
  function First(n: int): int
  {
    (DaysBeforeMonth(n / 12, n % 12) - DaysBeforeMonth(1970, 0)) * DAY
  }

  lemma YearLength(y: int)
    ensures DaysBeforeYear(y + 1) == DaysBeforeYear(y) + if IsLeap(y) then 366 else 365
  {
    CeilOfNext(y, 4);
    CeilOfNext(y, 100);
    CeilOfNext(y, 400);
    MultiplesNest(y);
  }

  // Going from y to y + 1 passes a multiple of d exactly if y is one.
  lemma CeilOfNext(y: int, d: int)
    requires d == 4 || d == 100 || d == 400
    ensures (y + 1 + (d - 1)) / d == (y + (d - 1)) / d + if y % d == 0 then 1 else 0
  {}

  lemma MultiplesNest(y: int)
    ensures y % 400 == 0 ==> y % 100 == 0
    ensures y % 100 == 0 ==> y % 4 == 0
  {
    MultipleOf(y, 100, 4);
    MultipleOf(y, 4, 25);
  }

  lemma MultipleOf(y: int, d: int, k: int)
    requires (d == 100 && k == 4) || (d == 4 && k == 25)
    ensures y % (d * k) == 0 ==> y % d == 0
  {
    var q := y / (d * k);
    if y % (d * k) == 0 {
      assert y == (k * q) * d;
    }
  }

  lemma MonthLength(n: int)
    ensures First(n + 1) == First(n) + DaysIn(n / 12, n % 12) * DAY
  {
    var y, m := n / 12, n % 12;
    if m == 11 {
      assert (n + 1) / 12 == y + 1 && (n + 1) % 12 == 0;
      YearLength(y);
    } else {
      assert (n + 1) / 12 == y && (n + 1) % 12 == m + 1;
    }
    NextMonth(y, m);
  }

  lemma NextMonth(y: int, m: int)
    requires 0 <= m < 12
    ensures m < 11 ==> DaysBeforeMonth(y, m + 1) == DaysBeforeMonth(y, m) + DaysIn(y, m)
    ensures DaysBeforeMonth(y, 11) + 31 == DaysBeforeYear(y) + if IsLeap(y) then 366 else 365
  {}

  lemma {:induction false} MonthsInOrder(n: int, k: nat)
    requires k >= 1
    ensures First(n) + 28 * DAY * k <= First(n + k)
    decreases k
  {
    MonthLength(n + k - 1);
    if k > 1 {
      MonthsInOrder(n, k - 1);
    }
  }

  lemma MonthStartsADay(n: int)
    ensures EndOfDay(First(n)) == First(n) + DAY - 1
  {
    var d := DaysBeforeMonth(n / 12, n % 12) - DaysBeforeMonth(1970, 0);
    assert First(n) == d * DAY;
    assert d * DAY / DAY == d;
  }

  lemma MonthsApart(a: int, b: int)
    requires a < b
    ensures First(a) + 28 * DAY <= First(b)
  {
    MonthsInOrder(a, b - a);
    assert a + (b - a) == b;
  }

  lemma MonthLengths(n: int)
    ensures 28 * DAY <= First(n + 1) - First(n) <= 31 * DAY
  {
    MonthLength(n);
  }

  // The first of January 1970, of January 2000, of March 2000, of March 2024 and of March 2100.
  lemma FixedDates()
    ensures First(12 * 1970) == 0 && First(12 * 2000) == 946684800000 && First(12 * 2000 + 2) == 951868800000
    ensures First(12 * 2024 + 2) == 1709251200000 && First(12 * 2100 + 2) == 4107542400000
  {
    FirstIs(1970, 0, 719528);
    FirstIs(2000, 0, 730485);
    FirstIs(2000, 2, 730545);
    FirstIs(2024, 2, 739311);
    FirstIs(2100, 2, 767069);
  }

  lemma FirstIs(y: int, m: int, days: int)
    requires 0 <= m < 12 && DaysBeforeMonth(y, m) == days
    ensures First(12 * y + m) == (days - 719528) * DAY
  {
    assert (12 * y + m) / 12 == y && (12 * y + m) % 12 == m;
    assert DaysBeforeMonth(1970, 0) == 719528;
  }

  // Every 400 years come to 146097 days.
  lemma FourCenturies(n: int)
    ensures First(n + 4800) == First(n) + 146097 * DAY
  {
    var y, m := n / 12, n % 12;
    assert (n + 4800) / 12 == y + 400 && (n + 4800) % 12 == m;
    CenturiesLater(y, m);
  }

  lemma CenturiesLater(y: int, m: int)
    requires 0 <= m < 12
    ensures DaysBeforeMonth(y + 400, m) == DaysBeforeMonth(y, m) + 146097
  {
    Later(y, 3, 4, 100);
    Later(y, 99, 100, 4);
    Later(y, 399, 400, 1);
    Later(y, 0, 4, 100);
    Later(y, 0, 100, 4);
    Later(y, 0, 400, 1);
  }

  lemma Later(y: int, a: int, d: int, q: int)
    requires d * q == 400 && (d == 4 || d == 100 || d == 400)
    ensures (y + 400 + a) / d == (y + a) / d + q && (y + 400 + a) % d == (y + a) % d
  {
    assert (y + 400 + a) == (y + a) + q * d;
  }

  function Firsts(): int -> int
  {
    (n: int) => First(n)
  }

  // January 1970.
  const EPOCH := 12 * 1970

  // The month t falls in.
  function MonthOf(t: int): int
  {
    FirstsClimb();
    Find(Firsts(), t, EPOCH)
  }

  predicate Rises(start: int -> int, k: int)
  {
    start(k) < start(k + 1)
  }

  ghost predicate Climbs(start: int -> int)
  {
    forall k {:trigger Rises(start, k)} :: Rises(start, k)
  }

  lemma FirstsClimb()
    ensures Climbs(Firsts())
  {
    forall k ensures Rises(Firsts(), k) {
      MonthLengths(k);
    }
  }

  lemma {:induction false} ClimbsOn(start: int -> int, j: int, k: int)
    requires Climbs(start) && j <= k
    ensures start(j) <= start(k)
    decreases k - j
  {
    if j < k {
      assert Rises(start, j);
      ClimbsOn(start, j + 1, k);
    }
  }

  // The step t is on lies between an earlier and a later one.
  lemma FindBetween(start: int -> int, t: int, lo: int, hi: int) returns (n: int)
    requires Climbs(start) && start(lo) <= t < start(hi)
    ensures lo <= n < hi && start(n) <= t < start(n + 1)
  {
    n := Find(start, t, lo);
    if n < lo {
      ClimbsOn(start, n + 1, lo);
    }
    if hi <= n {
      ClimbsOn(start, hi, n);
    }
  }

  // The step on which a climbing sequence passes t, searched for from the n-th.
  function Find(start: int -> int, t: int, n: int): (m: int)
    requires Climbs(start)
    ensures start(m) <= t < start(m + 1)
  {
    if start(n) <= t then FindAfter(start, t, n) else FindBefore(start, t, n)
  }

  function FindAfter(start: int -> int, t: int, n: int): (m: int)
    requires Climbs(start) && start(n) <= t
    ensures start(m) <= t < start(m + 1)
    decreases t - start(n)
  {
    assert Rises(start, n);
    if t < start(n + 1) then n else FindAfter(start, t, n + 1)
  }

  function FindBefore(start: int -> int, t: int, n: int): (m: int)
    requires Climbs(start) && t < start(n)
    ensures start(m) <= t < start(m + 1)
    decreases start(n) - t
  {
    assert Rises(start, n - 1);
    if start(n - 1) <= t then n - 1 else FindBefore(start, t, n - 1)
  }
}
