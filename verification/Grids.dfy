/**
 A line of times cut into numbered buckets, not all of one length, and a walk along it that steps
 by the length of the bucket it is in.
 */
module Grids {
  import opened Common
  import opened OrderedMap

  function Len(start: int -> int, k: int): int
  {
    start(k + 1) - start(k)
  }

  predicate Holds(start: int -> int, bucket: int -> int, t: int)
  {
    start(bucket(t)) <= t < start(bucket(t) + 1)
  }

  // What the walk is ahead after a bucket that is too short fits the bucket after that.
  predicate FitsNext(start: int -> int, k: int)
  {
    Len(start, k) - Len(start, k + 1) <= Len(start, k + 2)
  }

  // Bucket k runs from start(k) to start(k + 1), and `bucket` finds the bucket of a time.
  ghost predicate GridOk(start: int -> int, bucket: int -> int)
  {
    && (forall j, k {:trigger start(j), start(k)} :: j < k ==> start(j) < start(k))
    && (forall t {:trigger bucket(t)} :: Holds(start, bucket, t))
    && (forall k {:trigger FitsNext(start, k)} :: FitsNext(start, k))
  }

  // How far into its bucket t lies.
  function Offset(start: int -> int, bucket: int -> int, t: int): int
  {
    t - start(bucket(t))
  }

  lemma BucketIs(start: int -> int, bucket: int -> int, t: int, k: int)
    requires GridOk(start, bucket) && start(k) <= t < start(k + 1)
    ensures bucket(t) == k
  {
    var b := bucket(t);
    assert Holds(start, bucket, t);
    assert b + 1 < k ==> start(b + 1) < start(k);
    assert k + 1 < b ==> start(k + 1) < start(b);
  }

  lemma BucketsMonotone(start: int -> int, bucket: int -> int, t: int, u: int)
    requires GridOk(start, bucket) && t <= u
    ensures bucket(t) <= bucket(u)
  {
    assert Holds(start, bucket, t) && Holds(start, bucket, u);
    assert bucket(u) + 1 < bucket(t) ==> start(bucket(u) + 1) < start(bucket(t));
  }

  // ---- the walk --------------------------------------------------------------------------

  function Next(start: int -> int, bucket: int -> int, t: int): int
  {
    t + Len(start, bucket(t))
  }

  // The buckets the walk visits up to the end.
  function Keys(start: int -> int, bucket: int -> int, current: int, end: int): seq<int>
    requires GridOk(start, bucket)
    decreases end - current
  {
    if current > end then [] else [bucket(current)] + Keys(start, bucket, Next(start, bucket, current), end)
  }

  // Where the walk lands in bucket k, if it is at `offset` in bucket n: a bucket too short to have
  // that offset is skipped, and what is over is carried into the one after it.
  function Landing(start: int -> int, n: int, offset: int, k: int): Option<int>
    decreases k - n
  {
    if n > k then None
    else if n == k then Some(offset)
    else if offset < Len(start, n + 1) then Landing(start, n + 1, offset, k)
    else Landing(start, n + 2, offset - Len(start, n + 1), k)
  }

  predicate LandsBy(start: int -> int, n: int, offset: int, k: int, end: int)
  {
    var l := Landing(start, n, offset, k);
    l.Some? && start(k) + l.value <= end
  }

  lemma NextBucket(start: int -> int, bucket: int -> int, t: int)
    requires GridOk(start, bucket)
    ensures var n, o, next := bucket(t), Offset(start, bucket, t), Next(start, bucket, t);
            if o < Len(start, n + 1) then bucket(next) == n + 1 && Offset(start, bucket, next) == o
            else bucket(next) == n + 2 && Offset(start, bucket, next) == o - Len(start, n + 1)
  {
    var n, o := bucket(t), Offset(start, bucket, t);
    assert Holds(start, bucket, t) && FitsNext(start, n);
    BucketIs(start, bucket, Next(start, bucket, t), if o < Len(start, n + 1) then n + 1 else n + 2);
  }

  lemma {:induction false} LandsLater(start: int -> int, bucket: int -> int, n: int, offset: int, k: int)
    requires GridOk(start, bucket) && Landing(start, n, offset, k).Some?
    ensures n <= k && start(k) + Landing(start, n, offset, k).value >= start(n) + offset
    decreases k - n
  {
    if n < k {
      if offset < Len(start, n + 1) {
        LandsLater(start, bucket, n + 1, offset, k);
      } else {
        LandsLater(start, bucket, n + 2, offset - Len(start, n + 1), k);
      }
    }
  }

  // A landing lies within its bucket.
  lemma {:induction false} LandsWithin(start: int -> int, bucket: int -> int, n: int, offset: int, k: int)
    requires GridOk(start, bucket) && 0 <= offset < Len(start, n) && Landing(start, n, offset, k).Some?
    ensures 0 <= Landing(start, n, offset, k).value < Len(start, k)
    decreases k - n
  {
    if n < k {
      if offset < Len(start, n + 1) {
        LandsWithin(start, bucket, n + 1, offset, k);
      } else {
        assert FitsNext(start, n);
        LandsWithin(start, bucket, n + 2, offset - Len(start, n + 1), k);
      }
    }
  }

  // After one step, the later landings are the same.
  lemma LandingStep(start: int -> int, bucket: int -> int, t: int, k: int)
    requires GridOk(start, bucket) && k != bucket(t)
    ensures var next := Next(start, bucket, t);
            Landing(start, bucket(t), Offset(start, bucket, t), k)
            == Landing(start, bucket(next), Offset(start, bucket, next), k)
  {
    NextBucket(start, bucket, t);
  }

  // The buckets visited are exactly those the walk lands in by the end.
  lemma {:induction false} KeysAreLandings(start: int -> int, bucket: int -> int, t: int, end: int, k: int)
    requires GridOk(start, bucket)
    ensures k in Keys(start, bucket, t, end) <==> LandsBy(start, bucket(t), Offset(start, bucket, t), k, end)
    decreases end - t
  {
    if LandsBy(start, bucket(t), Offset(start, bucket, t), k, end) {
      LandsLater(start, bucket, bucket(t), Offset(start, bucket, t), k);
    }
    if t <= end {
      KeysAreLandings(start, bucket, Next(start, bucket, t), end, k);
      if k != bucket(t) {
        LandingStep(start, bucket, t, k);
      }
    }
  }

  // Ascending, said one key at a time.
  ghost predicate Rising(s: seq<int>)
  {
    s == [] || ((forall k | k in s[1..] :: s[0] < k) && Rising(s[1..]))
  }

  lemma {:induction false} RisingIsUnique(s: seq<int>)
    requires Rising(s)
    ensures Unique(s)
  {
    if s != [] {
      RisingIsUnique(s[1..]);
      forall k | k in s[1..] ensures s[0] != k {}
    }
  }

  lemma {:induction false} KeysRise(start: int -> int, bucket: int -> int, t: int, end: int)
    requires GridOk(start, bucket)
    ensures Rising(Keys(start, bucket, t, end))
    decreases end - t
  {
    if t <= end {
      var next := Next(start, bucket, t);
      KeysRise(start, bucket, next, end);
      assert Keys(start, bucket, t, end)[1..] == Keys(start, bucket, next, end);
      forall k | k in Keys(start, bucket, next, end) ensures bucket(t) < k {
        KeysAreLandings(start, bucket, next, end, k);
        LandsLater(start, bucket, bucket(next), Offset(start, bucket, next), k);
        NextBucket(start, bucket, t);
      }
    }
  }

  // A landing before the end's bucket is before the end; one in it is if it is no further in.
  lemma LandsByTheEnd(start: int -> int, bucket: int -> int, n: int, offset: int, end: int, k: int)
    requires GridOk(start, bucket) && k <= bucket(end)
    requires 0 <= offset < Len(start, n) && Landing(start, n, offset, k).Some?
    ensures LandsBy(start, n, offset, k, end)
            <==> k < bucket(end) || Landing(start, n, offset, k).value <= Offset(start, bucket, end)
  {
    assert Holds(start, bucket, end);
    LandsWithin(start, bucket, n, offset, k);
    assert k + 1 < bucket(end) ==> start(k + 1) < start(bucket(end));
  }

  // ---- which buckets are skipped ---------------------------------------------------------

  ghost predicate AtLeast(start: int -> int, least: int)
  {
    forall k {:trigger Len(start, k)} :: least <= Len(start, k)
  }

  // Every bucket after the n-th up to the k-th has the offset.
  ghost predicate AllLong(start: int -> int, n: int, offset: int, k: int)
  {
    forall m {:trigger Len(start, m)} :: n < m <= k ==> offset < Len(start, m)
  }

  // It is then kept.
  lemma {:induction false} LongLands(start: int -> int, n: int, offset: int, k: int)
    requires n <= k && AllLong(start, n, offset, k)
    ensures Landing(start, n, offset, k) == Some(offset)
    decreases k - n
  {
    if n < k {
      assert offset < Len(start, n + 1);
      LongLands(start, n + 1, offset, k);
    }
  }

  // The first bucket after the n-th that does not have the offset.
  ghost predicate FirstShort(start: int -> int, n: int, offset: int, k: int)
  {
    n < k && Len(start, k) <= offset && forall m {:trigger Len(start, m)} :: n < m < k ==> offset < Len(start, m)
  }

  // If no two lengths differ by as much as any one length, a single bucket is skipped at most: the
  // first that is too short.
  lemma {:induction false} SkippedIsFirstShort(start: int -> int, n: int, offset: int, k: int, least: int)
    requires n <= k && 0 <= offset < least + least && AtLeast(start, least)
    ensures Landing(start, n, offset, k).None? <==> FirstShort(start, n, offset, k)
    decreases k - n
  {
    if n < k {
      if offset < Len(start, n + 1) {
        SkippedIsFirstShort(start, n + 1, offset, k, least);
        assert FirstShort(start, n, offset, k) <==> FirstShort(start, n + 1, offset, k);
      } else if k > n + 1 {
        LongLands(start, n + 2, offset - Len(start, n + 1), k);
        assert !FirstShort(start, n, offset, k);
      }
    }
  }

  // In the buckets after it, what was over is the offset.
  lemma {:induction false} LandsPastShort(
    start: int -> int, n: int, offset: int, short: int, k: int, least: int)
    requires FirstShort(start, n, offset, short) && short < k
    requires 0 <= offset < least + least && AtLeast(start, least)
    ensures Landing(start, n, offset, k) == Some(offset - Len(start, short))
    decreases k - n
  {
    if n + 1 == short {
      LongLands(start, n + 2, offset - Len(start, n + 1), k);
    } else {
      assert offset < Len(start, n + 1);
      LandsPastShort(start, n + 1, offset, short, k, least);
    }
  }

  // If not every bucket has the offset, there is a first that does not.
  lemma {:induction false} FindShort(start: int -> int, n: int, offset: int, k: int) returns (short: int)
    requires !AllLong(start, n, offset, k)
    ensures FirstShort(start, n, offset, short) && short <= k
    decreases k - n
  {
    if Len(start, n + 1) <= offset {
      short := n + 1;
    } else {
      short := FindShort(start, n + 1, offset, k);
    }
  }

  // The offset the walk has in bucket k, its own or what was over after the short one, is at most
  // `latest`.
  ghost predicate LandsAt(start: int -> int, n: int, offset: int, k: int, latest: int)
  {
    && (AllLong(start, n, offset, k) ==> offset <= latest)
    && (forall m | FirstShort(start, n, offset, m) && m < k :: offset - Len(start, m) <= latest)
  }

  lemma LandsAtIs(start: int -> int, n: int, offset: int, k: int, latest: int, least: int)
    requires n <= k && 0 <= offset < least + least && AtLeast(start, least) && !FirstShort(start, n, offset, k)
    ensures Landing(start, n, offset, k).Some?
    ensures LandsAt(start, n, offset, k, latest) <==> Landing(start, n, offset, k).value <= latest
  {
    SkippedIsFirstShort(start, n, offset, k, least);
    forall m | FirstShort(start, n, offset, m) && m < k
      ensures Landing(start, n, offset, k) == Some(offset - Len(start, m))
    {
      LandsPastShort(start, n, offset, m, k, least);
    }
    if AllLong(start, n, offset, k) {
      LongLands(start, n, offset, k);
    } else {
      var short := FindShort(start, n, offset, k);
      assert short < k;
    }
  }

  // The buckets visited lie between those of the two ends.
  lemma KeysWithin(start: int -> int, bucket: int -> int, t: int, end: int, k: int)
    requires GridOk(start, bucket) && k in Keys(start, bucket, t, end)
    ensures bucket(t) <= k <= bucket(end)
  {
    var n, offset := bucket(t), Offset(start, bucket, t);
    assert Holds(start, bucket, t);
    KeysAreLandings(start, bucket, t, end, k);
    LandsLater(start, bucket, n, offset, k);
    LandsWithin(start, bucket, n, offset, k);
    var landed := start(k) + Landing(start, n, offset, k).value;
    BucketIs(start, bucket, landed, k);
    BucketsMonotone(start, bucket, landed, end);
  }

  // With an offset that fits every bucket, each one is visited but the last; that one, if the end
  // lies no earlier in it.
  lemma VisitedIfSmall(start: int -> int, bucket: int -> int, t: int, end: int, k: int, least: int)
    requires GridOk(start, bucket) && AtLeast(start, least) && Offset(start, bucket, t) < least
    requires bucket(t) <= k <= bucket(end)
    ensures k in Keys(start, bucket, t, end)
            <==> k < bucket(end) || Offset(start, bucket, t) <= Offset(start, bucket, end)
  {
    var n, offset := bucket(t), Offset(start, bucket, t);
    assert Holds(start, bucket, t);
    LongLands(start, n, offset, k);
    KeysAreLandings(start, bucket, t, end, k);
    LandsByTheEnd(start, bucket, n, offset, end, k);
  }

  // In general the first bucket too short for the offset is skipped as well, and it is where the
  // walk lands in the last that counts.
  lemma VisitedIff(start: int -> int, bucket: int -> int, t: int, end: int, k: int, least: int)
    requires GridOk(start, bucket) && AtLeast(start, least) && Offset(start, bucket, t) < least + least
    requires bucket(t) <= k <= bucket(end)
    ensures var n, offset := bucket(t), Offset(start, bucket, t);
            k in Keys(start, bucket, t, end) <==>
              && !FirstShort(start, n, offset, k)
              && (k < bucket(end) || LandsAt(start, n, offset, k, Offset(start, bucket, end)))
  {
    var n, offset := bucket(t), Offset(start, bucket, t);
    assert Holds(start, bucket, t);
    SkippedIsFirstShort(start, n, offset, k, least);
    KeysAreLandings(start, bucket, t, end, k);
    if Landing(start, n, offset, k).Some? {
      LandsByTheEnd(start, bucket, n, offset, end, k);
      LandsAtIs(start, n, offset, k, Offset(start, bucket, end), least);
    }
  }

  ghost predicate AllVisited(start: int -> int, bucket: int -> int, t: int, end: int)
    requires GridOk(start, bucket)
  {
    forall k | bucket(t) <= k <= bucket(end) :: k in Keys(start, bucket, t, end)
  }

  // So every bucket up to the end's is visited if and only if each one after the first has the
  // offset, and the end lies no earlier in its bucket than the start in its own.
  lemma AllVisitedIff(start: int -> int, bucket: int -> int, t: int, end: int, least: int)
    requires GridOk(start, bucket) && AtLeast(start, least) && Offset(start, bucket, t) < least + least
    requires bucket(t) <= bucket(end)
    ensures var offset := Offset(start, bucket, t);
            AllVisited(start, bucket, t, end) <==>
              AllLong(start, bucket(t), offset, bucket(end)) && offset <= Offset(start, bucket, end)
  {
    var n, offset, last := bucket(t), Offset(start, bucket, t), bucket(end);
    VisitedIff(start, bucket, t, end, last, least);
    if AllLong(start, n, offset, last) {
      forall k | n <= k < last ensures k in Keys(start, bucket, t, end) {
        VisitedIff(start, bucket, t, end, k, least);
        assert FirstShort(start, n, offset, k) ==> Len(start, k) <= offset;
      }
      assert FirstShort(start, n, offset, last) ==> Len(start, last) <= offset;
      assert forall m | FirstShort(start, n, offset, m) && m < last :: Len(start, m) <= offset;
    } else {
      var short := FindShort(start, n, offset, last);
      VisitedIff(start, bucket, t, end, short, least);
    }
  }
}
