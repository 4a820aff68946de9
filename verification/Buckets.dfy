/**
 Time buckets by the hour, the day, the week and the month, numbered since the epoch, and the
 generator of the keys between two dates.
 */
module Buckets {
  import opened Calendar
  import opened Grids

  datatype Granularity = Hour | Day | Week | Month

  const WEEK := 7 * DAY

  function BucketOf(t: int, g: Granularity): int
  {
    match g
    case Hour => t / HOUR
    case Day => t / DAY
    case Week => (t + 3 * DAY) / WEEK
    case Month => MonthOf(t)
  }

  // One step of the generator: by an hour, a day or a week, or to the same day of the next month,
  // which the Date carries over if that month has no such day.
  function NextTime(t: int, g: Granularity): int
  {
    match g
    case Hour => t + HOUR
    case Day => t + DAY
    case Week => t + WEEK
    case Month => SameDayAfter(Firsts(), MonthOf(t), t)
  }

  // As far into bucket n + 1 as t is into bucket n.
  function SameDayAfter(start: int -> int, n: int, t: int): int
  {
    start(n + 1) + (t - start(n))
  }

  // ---- the buckets are a grid ------------------------------------------------------------

  // Where the bucket numbered k begins. Weeks begin on Mondays, and the epoch fell on a Thursday.
  function Starts(g: Granularity): int -> int
  {
    match g
    case Hour => (k: int) => k * HOUR
    case Day => (k: int) => k * DAY
    case Week => (k: int) => k * WEEK - 3 * DAY
    case Month => Firsts()
  }

  function Finder(g: Granularity): int -> int
  {
    (t: int) => BucketOf(t, g)
  }

  // How far into its bucket t lies.
  function Into(t: int, g: Granularity): int
  {
    Offset(Starts(g), Finder(g), t)
  }

  function Shortest(g: Granularity): int
  {
    match g
    case Hour => HOUR
    case Day => DAY
    case Week => WEEK
    case Month => 28 * DAY
  }

  lemma Lengths(k: int, g: Granularity)
    ensures Shortest(g) <= Len(Starts(g), k)
    ensures g != Month ==> Len(Starts(g), k) == Shortest(g)
    ensures g == Month ==> Len(Starts(g), k) <= 31 * DAY
  {
    if g == Month {
      MonthLengths(k);
    }
  }

  lemma StartsGrow(j: int, k: int, g: Granularity)
    requires j < k
    ensures Starts(g)(j) < Starts(g)(k)
  {
    if g == Month {
      MonthsApart(j, k);
    }
  }

  lemma Found(t: int, g: Granularity)
    ensures Holds(Starts(g), Finder(g), t)
  {
    if g == Month {
      MonthFound(t);
    } else {
      WidthFound(t, g);
    }
  }

  lemma MonthFound(t: int)
    ensures Holds(Starts(Month), Finder(Month), t)
  {
    FirstsClimb();
    FindHolds(Starts(Month), Finder(Month), t, EPOCH);
  }

  lemma FindHolds(start: int -> int, bucket: int -> int, t: int, from: int)
    requires Climbs(start) && bucket(t) == Find(start, t, from)
    ensures Holds(start, bucket, t)
  {}

  lemma WidthFound(t: int, g: Granularity)
    requires g != Month
    ensures Holds(Starts(g), Finder(g), t)
  {}

  lemma LengthsFit(k: int, g: Granularity)
    ensures FitsNext(Starts(g), k)
  {
    Lengths(k, g);
    Lengths(k + 1, g);
    Lengths(k + 2, g);
  }

  lemma GridIs(g: Granularity)
    ensures GridOk(Starts(g), Finder(g))
  {
    forall j, k | j < k ensures Starts(g)(j) < Starts(g)(k) {
      StartsGrow(j, k, g);
    }
    forall t ensures Holds(Starts(g), Finder(g), t) {
      Found(t, g);
    }
    forall k ensures FitsNext(Starts(g), k) {
      LengthsFit(k, g);
    }
  }

  lemma ShortestIs(g: Granularity)
    ensures AtLeast(Starts(g), Shortest(g))
  {
    forall k ensures Shortest(g) <= Len(Starts(g), k) {
      Lengths(k, g);
    }
  }

  lemma InBucket(t: int, k: int, g: Granularity)
    requires Starts(g)(k) <= t < Starts(g)(k + 1)
    ensures BucketOf(t, g) == k && Into(t, g) == t - Starts(g)(k)
  {
    GridIs(g);
    BucketIs(Starts(g), Finder(g), t, k);
  }

  // The hour, the day and the month numbered 0 begin with 1970, and the week numbered 1 with Monday
  // the 5th of January.
  lemma FixedBuckets()
    ensures Starts(Hour)(0) == 0 && Starts(Day)(0) == 0 && Starts(Month)(12 * 1970) == 0
    ensures Starts(Week)(1) == 4 * DAY && HOUR == 3600000
  {
    FixedDates();
  }

  lemma BucketsInOrder(t: int, u: int, g: Granularity)
    requires t <= u
    ensures BucketOf(t, g) <= BucketOf(u, g)
  {
    GridIs(g);
    BucketsMonotone(Starts(g), Finder(g), t, u);
  }

  // ---- the generator ---------------------------------------------------------------------

  function KeysFrom(current: int, end: int, g: Granularity): seq<int>
  {
    GridIs(g);
    Keys(Starts(g), Finder(g), current, end)
  }

  lemma StepOfGrid(t: int, g: Granularity)
    ensures NextTime(t, g) == Next(Starts(g), Finder(g), t) > t
  {
    Lengths(BucketOf(t, g), g);
    if g == Month {
      SameDayIsNext(Starts(Month), Finder(Month), MonthOf(t), t);
    }
  }

  lemma SameDayIsNext(start: int -> int, bucket: int -> int, n: int, t: int)
    requires bucket(t) == n
    ensures SameDayAfter(start, n, t) == Next(start, bucket, t)
  {}

  lemma KeysStep(current: int, end: int, g: Granularity)
    requires current <= end
    ensures KeysFrom(current, end, g) == [BucketOf(current, g)] + KeysFrom(NextTime(current, g), end, g)
  {
    StepOfGrid(current, g);
  }

  method GenerateBucketKeys(startDate: int, endDate: int, g: Granularity) returns (keys: seq<int>)
    ensures keys == KeysFrom(startDate, EndOfDay(endDate), g)
  {
    keys := [];
    var end, current := EndOfDay(endDate), startDate;
    while current <= end
      invariant keys + KeysFrom(current, end, g) == KeysFrom(startDate, end, g)
      decreases end - current
    {
      KeysStep(current, end, g);
      StepOfGrid(current, g);
      keys := keys + [BucketOf(current, g)];
      current := NextTime(current, g);
    }
  }

  lemma KeysAscend(start: int, end: int, g: Granularity)
    ensures Rising(KeysFrom(start, end, g))
  {
    GridIs(g);
    KeysRise(Starts(g), Finder(g), start, end);
  }

  lemma KeysInRange(start: int, end: int, g: Granularity, k: int)
    requires k in KeysFrom(start, end, g)
    ensures BucketOf(start, g) <= k <= BucketOf(end, g)
  {
    GridIs(g);
    KeysWithin(Starts(g), Finder(g), start, end, k);
  }

  // ---- which buckets are generated -------------------------------------------------------

  // A day ends where its last hour and it itself end.
  lemma DaysEndBuckets(date: int, g: Granularity)
    requires g == Hour || g == Day
    ensures Into(EndOfDay(date), g) == Shortest(g) - 1
  {
    var d := date / DAY;
    InBucket(EndOfDay(date), if g == Hour then d * 24 + 23 else d, g);
  }

  lemma IntoIsWithin(t: int, g: Granularity)
    ensures 0 <= Into(t, g) < Len(Starts(g), BucketOf(t, g))
  {
    Found(t, g);
  }

  // By the hour and by the day every bucket is generated. By the week every one but the last, and
  // the last exactly if the end lies no earlier in its week than the start in its own.
  lemma GeneratedByWidth(start: int, date: int, g: Granularity, k: int)
    requires g != Month && BucketOf(start, g) <= k <= BucketOf(EndOfDay(date), g)
    ensures k in KeysFrom(start, EndOfDay(date), g) <==>
              g != Week || k < BucketOf(EndOfDay(date), g) || Into(start, g) <= Into(EndOfDay(date), g)
  {
    GridIs(g);
    ShortestIs(g);
    IntoIsWithin(start, g);
    Lengths(BucketOf(start, g), g);
    VisitedIfSmall(Starts(g), Finder(g), start, EndOfDay(date), k, Shortest(g));
    if g != Week {
      DaysEndBuckets(date, g);
    }
  }

  // The k-th month is the first after the n-th with no such day.
  ghost predicate FirstWithout(n: int, offset: int, k: int)
  {
    FirstShort(Starts(Month), n, offset, k)
  }

  // By the month every bucket is generated but two: the first month after the start's that is too
  // short for the start's day is skipped, and the last is left out if the end lies earlier in it
  // than the start in its own month, less the length of the skipped month if there is one.
  lemma GeneratedByMonth(start: int, end: int, k: int)
    requires BucketOf(start, Month) <= k <= BucketOf(end, Month)
    ensures var n, offset := BucketOf(start, Month), Into(start, Month);
            k in KeysFrom(start, end, Month) <==>
              && !FirstWithout(n, offset, k)
              && (k < BucketOf(end, Month) || LandsAt(Starts(Month), n, offset, k, Into(end, Month)))
  {
    GridIs(Month);
    ShortestIs(Month);
    IntoIsWithin(start, Month);
    Lengths(BucketOf(start, Month), Month);
    VisitedIff(Starts(Month), Finder(Month), start, end, k, Shortest(Month));
  }

  // Every bucket from the start's to the end's is generated.
  ghost predicate Complete(start: int, end: int, g: Granularity)
  {
    forall k | BucketOf(start, g) <= k <= BucketOf(end, g) :: k in KeysFrom(start, end, g)
  }

  // Each month after the first up to the last is long enough for an offset.
  ghost predicate EachHas(first: int, last: int, offset: int)
  {
    forall m {:trigger Len(Starts(Month), m)} :: first < m <= last ==> offset < Len(Starts(Month), m)
  }

  // So every month is generated if and only if each one after the first has the start's day of the
  // month, and the end lies no earlier in its month than the start in its own.
  lemma EveryMonthIff(start: int, end: int)
    requires BucketOf(start, Month) <= BucketOf(end, Month)
    ensures Complete(start, end, Month) <==>
              && EachHas(BucketOf(start, Month), BucketOf(end, Month), Into(start, Month))
              && Into(start, Month) <= Into(end, Month)
  {
    MonthsVisitedIff(start, end);
    VisitedIsComplete(start, end, Month);
    HasAll(BucketOf(start, Month), BucketOf(end, Month), Into(start, Month));
  }

  lemma MonthsVisitedIff(start: int, end: int)
    requires BucketOf(start, Month) <= BucketOf(end, Month)
    ensures GridOk(Starts(Month), Finder(Month))
    ensures AllVisited(Starts(Month), Finder(Month), start, end) <==>
              && AllLong(Starts(Month), BucketOf(start, Month), Into(start, Month), BucketOf(end, Month))
              && Into(start, Month) <= Into(end, Month)
  {
    GridIs(Month);
    ShortestIs(Month);
    IntoIsWithin(start, Month);
    Lengths(BucketOf(start, Month), Month);
    AllVisitedIff(Starts(Month), Finder(Month), start, end, Shortest(Month));
  }

  lemma VisitedIsComplete(start: int, end: int, g: Granularity)
    requires GridOk(Starts(g), Finder(g))
    ensures AllVisited(Starts(g), Finder(g), start, end) <==> Complete(start, end, g)
  {
    assert Finder(g)(start) == BucketOf(start, g) && Finder(g)(end) == BucketOf(end, g);
    assert KeysFrom(start, end, g) == Keys(Starts(g), Finder(g), start, end);
  }

  lemma HasAll(first: int, last: int, offset: int)
    ensures AllLong(Starts(Month), first, offset, last) <==> EachHas(first, last, offset)
  {}

  // From Sunday 1970-01-11 to Monday 1970-01-12 there are two weeks, and one bucket.
  lemma WeekLeftOut()
    ensures var start, end := 10 * DAY, EndOfDay(11 * DAY);
            BucketOf(start, Week) < BucketOf(end, Week) && BucketOf(end, Week) !in KeysFrom(start, end, Week)
  {
    InBucket(10 * DAY, 1, Week);
    InBucket(EndOfDay(11 * DAY), 2, Week);
    GeneratedByWidth(10 * DAY, 11 * DAY, Week, 2);
  }

  // The month after the start's, if it is too short, is not generated.
  lemma ShortMonthLeftOut(start: int, end: int)
    requires BucketOf(start, Month) < BucketOf(end, Month)
    requires Len(Starts(Month), BucketOf(start, Month) + 1) <= Into(start, Month)
    ensures BucketOf(start, Month) + 1 !in KeysFrom(start, end, Month)
  {
    GeneratedByMonth(start, end, BucketOf(start, Month) + 1);
  }

  // From the 30th or the 31st of a January, no February is generated.
  lemma FebruaryLeftOut(start: int, end: int)
    requires BucketOf(start, Month) % 12 == 0 && Into(start, Month) >= 29 * DAY
    requires BucketOf(start, Month) < BucketOf(end, Month)
    ensures BucketOf(start, Month) + 1 !in KeysFrom(start, end, Month)
  {
    FebruaryIsShort(BucketOf(start, Month));
    ShortMonthLeftOut(start, end);
  }

  lemma FebruaryIsShort(january: int)
    requires january % 12 == 0
    ensures Len(Starts(Month), january + 1) <= 29 * DAY
  {
    assert (january + 1) % 12 == 1;
    MonthLength(january + 1);
  }
}
