/**
 Readings into time buckets, with empty buckets for the gaps, and the fleet summary. Buckets
 carry their number since the epoch; key strings order the same way while years have four digits.
 */
module Aggregation {
  import opened Common
  import opened OrderedMap
  import opened Sorting
  import opened Statistics
  import opened ReadingStore
  import opened Grouping
  import opened Calendar
  import opened Grids
  import opened Buckets

  datatype Options = Options(
    startDate: Option<int>,
    endDate: Option<int>,
    granularity: Granularity,
    meters: seq<string>,
    aggregationType: Aggregation,
    fillGaps: bool)

  datatype Bucket = Bucket(key: int, value: Option<real>, count: nat)

  function BucketKey(g: Granularity): Reading -> int
  {
    (r: Reading) => BucketOf(r.timestamp, g)
  }

  // ---- selecting readings ----------------------------------------------------------------

  function FromStart(o: Options): Reading -> bool
  {
    (r: Reading) => o.startDate.Some? ==> r.timestamp >= o.startDate.value
  }

  function UpToEnd(o: Options): Reading -> bool
  {
    (r: Reading) => o.endDate.Some? ==> r.timestamp <= EndOfDay(o.endDate.value)
  }

  function OfMeters(o: Options): Reading -> bool
  {
    (r: Reading) => o.meters != [] ==> r.meterId in o.meters
  }

  function InDates(o: Options): Reading -> bool
  {
    (r: Reading) => FromStart(o)(r) && UpToEnd(o)(r)
  }

  function Chosen(o: Options): Reading -> bool
  {
    (r: Reading) => InDates(o)(r) && OfMeters(o)(r)
  }

  function Selected(source: seq<Reading>, o: Options): seq<Reading>
  {
    Filter(Chosen(o), source)
  }

  // The filters run one after the other, each only if it was asked for.
  method Select(source: seq<Reading>, o: Options) returns (filtered: seq<Reading>)
    ensures filtered == Selected(source, o)
  {
    filtered := source;
    if o.startDate.Some? {
      filtered := Filter(FromStart(o), filtered);
    } else {
      FilterAll(FromStart(o), source);
    }
    FilterTwice(UpToEnd(o), FromStart(o), InDates(o), source);
    if o.endDate.Some? {
      filtered := Filter(UpToEnd(o), filtered);
    } else {
      FilterAll(UpToEnd(o), filtered);
    }
    FilterTwice(OfMeters(o), InDates(o), Chosen(o), source);
    if o.meters != [] {
      filtered := Filter(OfMeters(o), filtered);
    } else {
      FilterAll(OfMeters(o), filtered);
    }
  }

  // A selection holds exactly the readings from the start on, up to the day of the end, and of the
  // meters asked for, all of them if none is named.
  lemma SelectedAre(source: seq<Reading>, o: Options, r: Reading)
    ensures r in Selected(source, o) <==>
              && r in source
              && (o.startDate.Some? ==> o.startDate.value <= r.timestamp)
              && (o.endDate.Some? ==> r.timestamp / DAY <= o.endDate.value / DAY)
              && (o.meters == [] || r.meterId in o.meters)
  {
    FilterIn(Chosen(o), source);
    assert Chosen(o)(r) <==> InDates(o)(r) && OfMeters(o)(r);
    assert InDates(o)(r) <==> FromStart(o)(r) && UpToEnd(o)(r);
    if o.endDate.Some? {
      UpToDay(r.timestamp, o.endDate.value);
    }
  }

  // ---- buckets ---------------------------------------------------------------------------

  // The bucket numbered k, over the readings that fall in it.
  function BucketFor(rs: seq<Reading>, o: Options, k: int): Bucket
  {
    var values := ValuesOf(rs, BucketKey(o.granularity), k);
    Bucket(k, AggregateValues(values, o.aggregationType), |values|)
  }

  function BucketsFor(rs: seq<Reading>, o: Options, keys: seq<int>): seq<Bucket>
  {
    seq(|keys|, i requires 0 <= i < |keys| => BucketFor(rs, o, keys[i]))
  }

  function ByKey(): (Bucket, Bucket) -> int
  {
    (a: Bucket, b: Bucket) => a.key - b.key
  }

  function NotAmong(keys: seq<int>): int -> bool
  {
    k => k !in keys
  }

  function FillsGaps(o: Options): bool
  {
    o.fillGaps && o.startDate.Some? && o.endDate.Some?
  }

  // The keys that get a bucket: those of the readings, and those in between that have none.
  function AllKeys(rs: seq<Reading>, o: Options): seq<int>
  {
    var found := GroupBy(rs, BucketKey(o.granularity)).keys;
    if FillsGaps(o) then
      found + Filter(NotAmong(found), KeysFrom(o.startDate.value, EndOfDay(o.endDate.value), o.granularity))
    else found
  }

  function Aggregated(source: seq<Reading>, o: Options): seq<Bucket>
  {
    var rs := Selected(source, o);
    var buckets := BucketsFor(rs, o, AllKeys(rs, o));
    if FillsGaps(o) then Sort(ByKey(), buckets) else buckets
  }

  method AggregateReadings(source: seq<Reading>, o: Options) returns (buckets: seq<Bucket>)
    ensures buckets == Aggregated(source, o)
  {
    var filtered := Select(source, o);
    var groups := Group(filtered, BucketKey(o.granularity));
    buckets := FromGroups(filtered, o, groups);
    if o.fillGaps && o.startDate.Some? && o.endDate.Some? {
      var generated := GenerateBucketKeys(o.startDate.value, o.endDate.value, o.granularity);
      var empty := EmptyBuckets(filtered, o, groups.keys, generated);
      BucketsOfBoth(filtered, o, groups.keys, Filter(NotAmong(groups.keys), generated));
      buckets := Sort(ByKey(), buckets + empty);
    }
  }

  lemma BucketsOfBoth(rs: seq<Reading>, o: Options, a: seq<int>, b: seq<int>)
    ensures BucketsFor(rs, o, a) + BucketsFor(rs, o, b) == BucketsFor(rs, o, a + b)
  {}

  method FromGroups(ghost rs: seq<Reading>, o: Options, groups: Groups<int>) returns (buckets: seq<Bucket>)
    requires groups == GroupBy(rs, BucketKey(o.granularity))
    ensures buckets == BucketsFor(rs, o, groups.keys)
  {
    buckets := [];
    var i := 0;
    while i < |groups.keys|
      invariant 0 <= i <= |groups.keys| && buckets == BucketsFor(rs, o, groups.keys)[..i]
    {
      var key := groups.keys[i];
      BucketHasValues(rs, o.granularity, key);
      var values := groups.values[key];
      buckets := buckets + [Bucket(key, AggregateValues(values, o.aggregationType), |values|)];
      i := i + 1;
    }
  }

  lemma BucketHasValues(rs: seq<Reading>, g: Granularity, k: int)
    requires k in GroupBy(rs, BucketKey(g)).keys
    ensures k in GroupBy(rs, BucketKey(g)).values
            && GroupBy(rs, BucketKey(g)).values[k] == ValuesOf(rs, BucketKey(g), k)
  {
    GroupKeys(rs, BucketKey(g));
    assert k in Elems(GroupBy(rs, BucketKey(g)).keys);
    GroupsAreValues(rs, BucketKey(g), k);
  }

  lemma EmptyBucket(rs: seq<Reading>, o: Options, key: int)
    requires key !in GroupBy(rs, BucketKey(o.granularity)).keys
    ensures BucketFor(rs, o, key) == Bucket(key, if o.aggregationType == Count then Some(0.0) else None, 0)
  {
    GroupKeys(rs, BucketKey(o.granularity));
    assert key !in Elems(GroupBy(rs, BucketKey(o.granularity)).keys);
    GroupsAreValues(rs, BucketKey(o.granularity), key);
  }

  method EmptyBuckets(
    ghost rs: seq<Reading>, o: Options, found: seq<int>, generated: seq<int>) returns (buckets: seq<Bucket>)
    requires found == GroupBy(rs, BucketKey(o.granularity)).keys
    ensures buckets == BucketsFor(rs, o, Filter(NotAmong(found), generated))
  {
    buckets := [];
    var i := 0;
    while i < |generated|
      invariant 0 <= i <= |generated| && buckets == BucketsFor(rs, o, Filter(NotAmong(found), generated[..i]))
    {
      var key := generated[i];
      assert generated[..i + 1] == generated[..i] + [key];
      FilterAppend(NotAmong(found), generated[..i], [key]);
      FilterOne(NotAmong(found), key);
      BucketsOfBoth(rs, o, Filter(NotAmong(found), generated[..i]), Filter(NotAmong(found), [key]));
      if key !in found {
        EmptyBucket(rs, o, key);
        buckets := buckets + [Bucket(key, if o.aggregationType == Count then Some(0.0) else None, 0)];
      }
      i := i + 1;
    }
    assert generated[..i] == generated;
  }

  // ---- what a filled answer is -----------------------------------------------------------

  lemma {:induction false} UniqueBoth<T>(a: seq<T>, b: seq<T>)
    requires Unique(a) && Unique(b) && forall x | x in b :: x !in a
    ensures Unique(a + b)
  {
    if a == [] {
      assert a + b == b;
    } else {
      UniqueBoth(a[1..], b);
      assert (a + b)[1..] == a[1..] + b;
      assert a[0] !in b;
    }
  }

  lemma FilterUnique<T>(keep: T -> bool, s: seq<T>)
    requires Unique(s)
    ensures Unique(Filter(keep, s))
  {
    UniqueDistinct(s);
    FilterDistinct(keep, s);
    UniqueDistinct(Filter(keep, s));
  }

  // The keys are those of the readings and the generated ones, each once.
  lemma AllKeysAre(rs: seq<Reading>, o: Options, generated: seq<int>)
    requires FillsGaps(o) && generated == KeysFrom(o.startDate.value, EndOfDay(o.endDate.value), o.granularity)
             && Unique(generated)
    ensures Unique(AllKeys(rs, o))
    ensures forall k :: k in AllKeys(rs, o) <==> k in generated || SomeWith(rs, BucketKey(o.granularity), k)
  {
    var found := GroupBy(rs, BucketKey(o.granularity)).keys;
    GroupKeys(rs, BucketKey(o.granularity));
    FilterIn(NotAmong(found), generated);
    FilterUnique(NotAmong(found), generated);
    UniqueBoth(found, Filter(NotAmong(found), generated));
    forall k ensures k in AllKeys(rs, o) <==> k in generated || SomeWith(rs, BucketKey(o.granularity), k) {
      GroupsAreValues(rs, BucketKey(o.granularity), k);
      assert k in Elems(found) <==> k in found;
    }
  }

  // Sorting the buckets of any keys lists the buckets of those keys in order.
  lemma SortByKey(rs: seq<Reading>, o: Options, keys: seq<int>, rising: seq<int>)
    requires Unique(keys) && Rising(rising) && forall k :: k in keys <==> k in rising
    ensures Sort(ByKey(), BucketsFor(rs, o, keys)) == BucketsFor(rs, o, rising)
  {
    SameBuckets(rs, o, keys, rising);
    SortedStrictly(BucketsFor(rs, o, keys), rs, o, keys);
    RisingStrict(rs, o, rising);
    OneOrder(Sort(ByKey(), BucketsFor(rs, o, keys)), BucketsFor(rs, o, rising));
  }

  lemma SortedStrictly(buckets: seq<Bucket>, rs: seq<Reading>, o: Options, keys: seq<int>)
    requires Unique(keys) && buckets == BucketsFor(rs, o, keys)
    ensures Strict(ByKey(), Sort(ByKey(), buckets)) && Elems(Sort(ByKey(), buckets)) == Elems(buckets)
  {
    BucketsNoTies(rs, o, keys);
    SortStrict(ByKey(), buckets, buckets);
    SameElements(Sort(ByKey(), buckets), buckets);
  }

  lemma {:induction false} RisingStrict(rs: seq<Reading>, o: Options, keys: seq<int>)
    requires Rising(keys)
    ensures Strict(ByKey(), BucketsFor(rs, o, keys))
    decreases |keys|
  {
    if keys != [] {
      RisingStrict(rs, o, keys[1..]);
      var buckets, rest := BucketsFor(rs, o, keys), BucketsFor(rs, o, keys[1..]);
      forall i, j | 0 <= i < j < |buckets| ensures ByKey()(buckets[i], buckets[j]) < 0 {
        assert buckets[j] == rest[j - 1] && keys[j] in keys[1..];
        assert i > 0 ==> buckets[i] == rest[i - 1] && ByKey()(rest[i - 1], rest[j - 1]) < 0;
      }
    }
  }

  lemma OneOrder(a: seq<Bucket>, b: seq<Bucket>)
    requires Strict(ByKey(), a) && Strict(ByKey(), b) && Elems(a) == Elems(b)
    ensures a == b
  {
    StrictDistinct(ByKey(), a);
    StrictDistinct(ByKey(), b);
    StrictUnique(ByKey(), a, b);
  }

  lemma BucketsNoTies(rs: seq<Reading>, o: Options, keys: seq<int>)
    requires Unique(keys)
    ensures NoTies(ByKey(), BucketsFor(rs, o, keys)) && Preorder(ByKey(), BucketsFor(rs, o, keys))
  {
    UniqueDistinct(keys);
  }

  lemma SameBuckets(rs: seq<Reading>, o: Options, keys: seq<int>, others: seq<int>)
    requires forall k :: k in keys <==> k in others
    ensures Elems(BucketsFor(rs, o, keys)) == Elems(BucketsFor(rs, o, others))
  {
    forall x ensures x in Elems(BucketsFor(rs, o, keys)) <==> x in Elems(BucketsFor(rs, o, others)) {
      BucketsIn(rs, o, keys, x);
      BucketsIn(rs, o, others, x);
    }
  }

  lemma BucketsIn(rs: seq<Reading>, o: Options, keys: seq<int>, x: Bucket)
    ensures x in BucketsFor(rs, o, keys) <==> x.key in keys && x == BucketFor(rs, o, x.key)
  {
    if x.key in keys && x == BucketFor(rs, o, x.key) {
      var i :| 0 <= i < |keys| && keys[i] == x.key;
      assert BucketsFor(rs, o, keys)[i] == x;
    }
  }

  lemma SelectedInDates(source: seq<Reading>, o: Options)
    requires FillsGaps(o)
    ensures forall r | r in Selected(source, o) :: o.startDate.value <= r.timestamp <= EndOfDay(o.endDate.value)
  {
    FilterIn(Chosen(o), source);
    forall r | r in Selected(source, o) ensures o.startDate.value <= r.timestamp <= EndOfDay(o.endDate.value) {
      assert Chosen(o)(r);
      assert InDates(o)(r);
      assert FromStart(o)(r) && UpToEnd(o)(r);
    }
  }

  // A bucket is listed if its key is generated or a reading falls in it.
  ghost predicate Listed(rs: seq<Reading>, o: Options, k: int)
    requires FillsGaps(o)
  {
    || k in KeysFrom(o.startDate.value, EndOfDay(o.endDate.value), o.granularity)
    || SomeWith(rs, BucketKey(o.granularity), k)
  }

  function FirstKey(o: Options): int
    requires FillsGaps(o)
  {
    BucketOf(o.startDate.value, o.granularity)
  }

  function LastKey(o: Options): int
    requires FillsGaps(o)
  {
    BucketOf(EndOfDay(o.endDate.value), o.granularity)
  }

  // The keys listed from lo to hi, in order.
  ghost function ListedFrom(rs: seq<Reading>, o: Options, lo: int, hi: int): seq<int>
    requires FillsGaps(o)
    decreases hi - lo
  {
    if lo > hi then [] else (if Listed(rs, o, lo) then [lo] else []) + ListedFrom(rs, o, lo + 1, hi)
  }

  ghost function Span(rs: seq<Reading>, o: Options): seq<int>
    requires FillsGaps(o)
  {
    ListedFrom(rs, o, FirstKey(o), LastKey(o))
  }

  lemma {:induction false} ListedKeys(rs: seq<Reading>, o: Options, lo: int, hi: int)
    requires FillsGaps(o)
    ensures Rising(ListedFrom(rs, o, lo, hi))
    ensures forall k :: k in ListedFrom(rs, o, lo, hi) <==> lo <= k <= hi && Listed(rs, o, k)
    decreases hi - lo
  {
    if lo <= hi {
      ListedKeys(rs, o, lo + 1, hi);
      var rest := ListedFrom(rs, o, lo + 1, hi);
      if Listed(rs, o, lo) {
        assert ([lo] + rest)[1..] == rest;
      } else {
        assert [] + rest == rest;
      }
    }
  }

  // With gaps filled, the answer is the listed buckets from the start's to the end's, each once, in
  // order and over exactly its readings.
  lemma FilledBuckets(source: seq<Reading>, o: Options)
    requires FillsGaps(o) && o.startDate.value <= EndOfDay(o.endDate.value)
    ensures Aggregated(source, o) == BucketsFor(Selected(source, o), o, Span(Selected(source, o), o))
  {
    var rs := Selected(source, o);
    KeysAreSpan(source, o);
    ListedKeys(rs, o, FirstKey(o), LastKey(o));
    SortByKey(rs, o, AllKeys(rs, o), Span(rs, o));
  }

  lemma KeysAreSpan(source: seq<Reading>, o: Options)
    requires FillsGaps(o) && o.startDate.value <= EndOfDay(o.endDate.value)
    ensures var rs := Selected(source, o);
            Unique(AllKeys(rs, o)) && forall k :: k in AllKeys(rs, o) <==> k in Span(rs, o)
  {
    var rs := Selected(source, o);
    var keys := KeysFrom(o.startDate.value, EndOfDay(o.endDate.value), o.granularity);
    KeysAscend(o.startDate.value, EndOfDay(o.endDate.value), o.granularity);
    RisingIsUnique(keys);
    AllKeysAre(rs, o, keys);
    ReadingsInRange(source, o);
    ListedKeys(rs, o, FirstKey(o), LastKey(o));
    forall k | k in keys ensures FirstKey(o) <= k <= LastKey(o) {
      KeysInRange(o.startDate.value, EndOfDay(o.endDate.value), o.granularity, k);
    }
  }

  lemma ReadingsInRange(source: seq<Reading>, o: Options)
    requires FillsGaps(o)
    ensures forall k | SomeWith(Selected(source, o), BucketKey(o.granularity), k) :: FirstKey(o) <= k <= LastKey(o)
  {
    SelectedInDates(source, o);
    forall k | SomeWith(Selected(source, o), BucketKey(o.granularity), k) ensures FirstKey(o) <= k <= LastKey(o) {
      var r :| r in Selected(source, o) && BucketKey(o.granularity)(r) == k;
      BucketsInOrder(o.startDate.value, r.timestamp, o.granularity);
      BucketsInOrder(r.timestamp, EndOfDay(o.endDate.value), o.granularity);
    }
  }

  // ---- which buckets are listed ----------------------------------------------------------

  lemma {:induction false} AllListed(rs: seq<Reading>, o: Options, lo: int)
    requires FillsGaps(o) && Complete(o.startDate.value, EndOfDay(o.endDate.value), o.granularity)
    requires FirstKey(o) <= lo <= LastKey(o) + 1
    ensures ListedFrom(rs, o, lo, LastKey(o)) == seq(LastKey(o) - lo + 1, i => lo + i)
    decreases LastKey(o) - lo
  {
    if lo <= LastKey(o) {
      AllListed(rs, o, lo + 1);
    }
  }

  // No bucket is then left out of a filled answer.
  lemma WholeIfGenerated(source: seq<Reading>, o: Options)
    requires FillsGaps(o) && Complete(o.startDate.value, EndOfDay(o.endDate.value), o.granularity)
    requires o.startDate.value <= EndOfDay(o.endDate.value)
    ensures FirstKey(o) <= LastKey(o)
    ensures var keys := seq(LastKey(o) - FirstKey(o) + 1, i => FirstKey(o) + i);
            Aggregated(source, o) == BucketsFor(Selected(source, o), o, keys)
  {
    BucketsInOrder(o.startDate.value, EndOfDay(o.endDate.value), o.granularity);
    FilledBuckets(source, o);
    AllListed(Selected(source, o), o, FirstKey(o));
  }

  lemma HoursAndDaysReachTheEnd(source: seq<Reading>, o: Options)
    requires FillsGaps(o) && (o.granularity == Hour || o.granularity == Day)
    requires o.startDate.value <= EndOfDay(o.endDate.value)
    ensures FirstKey(o) <= LastKey(o)
    ensures var keys := seq(LastKey(o) - FirstKey(o) + 1, i => FirstKey(o) + i);
            Aggregated(source, o) == BucketsFor(Selected(source, o), o, keys)
  {
    forall k | FirstKey(o) <= k <= LastKey(o)
      ensures k in KeysFrom(o.startDate.value, EndOfDay(o.endDate.value), o.granularity)
    {
      GeneratedByWidth(o.startDate.value, o.endDate.value, o.granularity, k);
    }
    WholeIfGenerated(source, o);
  }

  // By the month none is left out either, if each month has the start's day and the end lies no
  // earlier in its month than the start in its own.
  lemma MonthsReachTheEnd(source: seq<Reading>, o: Options)
    requires FillsGaps(o) && o.granularity == Month && o.startDate.value <= EndOfDay(o.endDate.value)
    requires EachHas(FirstKey(o), LastKey(o), Into(o.startDate.value, Month))
    requires Into(o.startDate.value, Month) <= Into(EndOfDay(o.endDate.value), Month)
    ensures FirstKey(o) <= LastKey(o)
    ensures var keys := seq(LastKey(o) - FirstKey(o) + 1, i => FirstKey(o) + i);
            Aggregated(source, o) == BucketsFor(Selected(source, o), o, keys)
  {
    BucketsInOrder(o.startDate.value, EndOfDay(o.endDate.value), Month);
    EveryMonthIff(o.startDate.value, EndOfDay(o.endDate.value));
    WholeIfGenerated(source, o);
  }

  // A start after the end selects nothing and fills nothing.
  lemma NothingFromEndToStart(source: seq<Reading>, o: Options)
    requires FillsGaps(o) && o.startDate.value > EndOfDay(o.endDate.value)
    ensures Aggregated(source, o) == []
  {
    forall r | r in source ensures !Chosen(o)(r) {
      assert !(FromStart(o)(r) && UpToEnd(o)(r));
      assert !InDates(o)(r);
    }
    FilterNone(Chosen(o), source);
  }

  // ---- conservation ----------------------------------------------------------------------

  function CountOf(b: Bucket): real
  {
    b.count as real
  }

  function ValueOf(b: Bucket): real
  {
    if b.value.Some? then b.value.value else 0.0
  }

  lemma {:induction false} SumOfBuckets(rs: seq<Reading>, o: Options, keys: seq<int>)
    ensures SumOver(BucketsFor(rs, o, keys), CountOf) == SumOver(keys, CountIn(rs, BucketKey(o.granularity)))
    ensures o.aggregationType == Sum ==>
            SumOver(BucketsFor(rs, o, keys), ValueOf) == SumOver(keys, SumIn(rs, BucketKey(o.granularity)))
    decreases |keys|
  {
    if keys != [] {
      SumOfBuckets(rs, o, keys[1..]);
      assert BucketsFor(rs, o, keys)[1..] == BucketsFor(rs, o, keys[1..]);
    }
  }

  function CountTimesValue(b: Bucket): real
  {
    b.count as real * ValueOf(b)
  }

  // With averages, a bucket's count times its value is the sum of its readings.
  lemma AverageOfBucket(rs: seq<Reading>, o: Options, k: int)
    requires o.aggregationType == Avg
    ensures CountTimesValue(BucketFor(rs, o, k)) == SumIn(rs, BucketKey(o.granularity))(k)
  {
    var values := ValuesOf(rs, BucketKey(o.granularity), k);
    CountSumAverage(values);
  }

  lemma {:induction false} AveragesOfBuckets(rs: seq<Reading>, o: Options, keys: seq<int>)
    requires o.aggregationType == Avg
    ensures SumOver(BucketsFor(rs, o, keys), CountTimesValue) == SumOver(keys, SumIn(rs, BucketKey(o.granularity)))
    decreases |keys|
  {
    if keys != [] {
      AveragesOfBuckets(rs, o, keys[1..]);
      AverageOfBucket(rs, o, keys[0]);
      assert BucketsFor(rs, o, keys)[1..] == BucketsFor(rs, o, keys[1..]);
    }
  }

  // The averages of the filled buckets, each as often as it has readings, add up to the selected
  // total.
  lemma AveragesConserve(source: seq<Reading>, o: Options)
    requires FillsGaps(o) && o.startDate.value <= EndOfDay(o.endDate.value) && o.aggregationType == Avg
    ensures SumOver(Aggregated(source, o), CountTimesValue) == Total(Values(Selected(source, o)))
  {
    var rs := Selected(source, o);
    FilledBuckets(source, o);
    ReadingsInRange(source, o);
    SpanCovers(rs, o);
    AveragesOfBuckets(rs, o, Span(rs, o));
    GroupsConserve(rs, BucketKey(o.granularity), Span(rs, o));
  }

  // Nothing is lost or counted twice: the counts of the filled buckets add up to the selected
  // readings, and their sums to the selected total.
  lemma BucketsConserve(source: seq<Reading>, o: Options)
    requires FillsGaps(o) && o.startDate.value <= EndOfDay(o.endDate.value)
    ensures SumOver(Aggregated(source, o), CountOf) == |Selected(source, o)| as real
    ensures o.aggregationType == Sum ==> SumOver(Aggregated(source, o), ValueOf) == Total(Values(Selected(source, o)))
  {
    FilledBuckets(source, o);
    ReadingsInRange(source, o);
    RangeConserves(Selected(source, o), o);
  }

  lemma RangeConserves(rs: seq<Reading>, o: Options)
    requires FillsGaps(o)
    requires forall k | SomeWith(rs, BucketKey(o.granularity), k) :: FirstKey(o) <= k <= LastKey(o)
    ensures SumOver(BucketsFor(rs, o, Span(rs, o)), CountOf) == |rs| as real
    ensures o.aggregationType == Sum ==> SumOver(BucketsFor(rs, o, Span(rs, o)), ValueOf) == Total(Values(rs))
  {
    SpanCovers(rs, o);
    SumOfBuckets(rs, o, Span(rs, o));
    GroupsConserve(rs, BucketKey(o.granularity), Span(rs, o));
  }

  lemma SpanCovers(rs: seq<Reading>, o: Options)
    requires FillsGaps(o)
    requires forall k | SomeWith(rs, BucketKey(o.granularity), k) :: FirstKey(o) <= k <= LastKey(o)
    ensures Unique(Span(rs, o)) && forall r | r in rs :: BucketKey(o.granularity)(r) in Span(rs, o)
  {
    ListedKeys(rs, o, FirstKey(o), LastKey(o));
    RisingIsUnique(Span(rs, o));
    forall r | r in rs ensures BucketKey(o.granularity)(r) in Span(rs, o) {
      assert SomeWith(rs, BucketKey(o.granularity), BucketKey(o.granularity)(r));
    }
  }

  // ---- the fleet -------------------------------------------------------------------------

  datatype MeterSummary = MeterSummary(meterId: string, value: Option<real>, readings: nat)

  datatype FleetSummary = FleetSummary(
    totalReadings: nat,
    totalMeters: nat,
    value: Option<real>,
    meters: seq<MeterSummary>,
    top: Option<MeterSummary>,
    bottom: Option<MeterSummary>)

  function MeterKey(): Reading -> string
  {
    (r: Reading) => r.meterId
  }

  function MeterFor(rs: seq<Reading>, t: Aggregation, m: string): MeterSummary
  {
    var values := ValuesOf(rs, MeterKey(), m);
    MeterSummary(m, AggregateValues(values, t), |values|)
  }

  function MetersFor(rs: seq<Reading>, t: Aggregation, meters: seq<string>): seq<MeterSummary>
  {
    seq(|meters|, i requires 0 <= i < |meters| => MeterFor(rs, t, meters[i]))
  }

  // Descending by value; a null counts as zero in the subtraction.
  function ByValue(): (MeterSummary, MeterSummary) -> int
  {
    (a: MeterSummary, b: MeterSummary) => Sign(Amount(b), Amount(a))
  }

  function Amount(m: MeterSummary): real
  {
    if m.value.Some? then m.value.value else 0.0
  }

  // The fleet summary knows no meters filter.
  function InDateRange(source: seq<Reading>, startDate: Option<int>, endDate: Option<int>): seq<Reading>
  {
    Selected(source, Options(startDate, endDate, Day, [], Avg, false))
  }

  method SummariseFleet(
    source: seq<Reading>, startDate: Option<int>, endDate: Option<int>, t: Aggregation)
    returns (fleet: FleetSummary)
    ensures Summarises(InDateRange(source, startDate, endDate), t, fleet)
  {
    var filtered := Select(source, Options(startDate, endDate, Day, [], Avg, false));
    fleet := SummariseReadings(filtered, t);
  }

  // Per meter in first-seen order, over everything, and the two ends of the meters by value.
  ghost predicate Summarises(rs: seq<Reading>, t: Aggregation, fleet: FleetSummary)
  {
    var sorted := Sort(ByValue(), fleet.meters);
    && fleet.meters == MetersFor(rs, t, GroupBy(rs, MeterKey()).keys)
    && fleet.totalReadings == |rs| && fleet.totalMeters == |GroupBy(rs, MeterKey()).keys|
    && fleet.value == (if rs == [] then None else AggregateValues(Values(rs), t))
    && fleet.top == (if sorted == [] then None else Some(sorted[0]))
    && fleet.bottom == (if sorted == [] then None else Some(sorted[|sorted| - 1]))
  }

  method SummariseReadings(filtered: seq<Reading>, t: Aggregation) returns (fleet: FleetSummary)
    ensures Summarises(filtered, t, fleet)
  {
    var groups := Group(filtered, MeterKey());
    var meters := SummariseMeters(filtered, t, groups);
    var allValues := Values(filtered);
    var fleetValue := if |allValues| > 0 then AggregateValues(allValues, t) else None;
    var sorted := Sort(ByValue(), meters);
    fleet := FleetSummary(|filtered|, |groups.keys|, fleetValue, meters, None, None);
    if |sorted| > 0 {
      fleet := fleet.(top := Some(sorted[0]), bottom := Some(sorted[|sorted| - 1]));
    }
  }

  method SummariseMeters(
    ghost rs: seq<Reading>, t: Aggregation, groups: Groups<string>) returns (meters: seq<MeterSummary>)
    requires groups == GroupBy(rs, MeterKey())
    ensures meters == MetersFor(rs, t, groups.keys)
  {
    meters := [];
    var i := 0;
    while i < |groups.keys|
      invariant 0 <= i <= |groups.keys| && meters == MetersFor(rs, t, groups.keys)[..i]
    {
      var meterId := groups.keys[i];
      MeterHasValues(rs, meterId);
      var values := groups.values[meterId];
      meters := meters + [MeterSummary(meterId, AggregateValues(values, t), |values|)];
      i := i + 1;
    }
  }

  lemma MeterHasValues(rs: seq<Reading>, m: string)
    requires m in GroupBy(rs, MeterKey()).keys
    ensures m in GroupBy(rs, MeterKey()).values && GroupBy(rs, MeterKey()).values[m] == ValuesOf(rs, MeterKey(), m)
  {
    GroupKeys(rs, MeterKey());
    assert m in Elems(GroupBy(rs, MeterKey()).keys);
    GroupsAreValues(rs, MeterKey(), m);
  }

  function ReadingsOf(m: MeterSummary): real
  {
    m.readings as real
  }

  lemma {:induction false} SumOfMeters(rs: seq<Reading>, t: Aggregation, meters: seq<string>)
    ensures SumOver(MetersFor(rs, t, meters), ReadingsOf) == SumOver(meters, CountIn(rs, MeterKey()))
    ensures t == Sum ==> SumOver(MetersFor(rs, t, meters), Amount) == SumOver(meters, SumIn(rs, MeterKey()))
    decreases |meters|
  {
    if meters != [] {
      SumOfMeters(rs, t, meters[1..]);
      assert MetersFor(rs, t, meters)[1..] == MetersFor(rs, t, meters[1..]);
    }
  }

  // The meters share out the readings of the fleet, and its total; each has at least one.
  lemma MetersConserve(rs: seq<Reading>, t: Aggregation)
    ensures var meters := MetersFor(rs, t, GroupBy(rs, MeterKey()).keys);
            && SumOver(meters, ReadingsOf) == |rs| as real
            && (t == Sum ==> SumOver(meters, Amount) == Total(Values(rs)))
            && (forall m | m in meters :: m.readings >= 1 && m.value.Some?)
  {
    var keys := GroupBy(rs, MeterKey()).keys;
    GroupKeys(rs, MeterKey());
    SumOfMeters(rs, t, keys);
    forall r | r in rs ensures MeterKey()(r) in keys {
      GroupsAreValues(rs, MeterKey(), MeterKey()(r));
      assert SomeWith(rs, MeterKey(), MeterKey()(r));
      assert MeterKey()(r) in Elems(keys);
    }
    GroupsConserve(rs, MeterKey(), keys);
    forall m | m in MetersFor(rs, t, keys) ensures m.readings >= 1 && m.value.Some? {
      assert m.meterId in Elems(keys);
      GroupsAreValues(rs, MeterKey(), m.meterId);
    }
  }

  // No meter is above the top performer or below the bottom one.
  lemma TopAndBottom(meters: seq<MeterSummary>, m: MeterSummary)
    requires m in meters
    ensures var sorted := Sort(ByValue(), meters);
            sorted != [] && sorted[0] in meters && sorted[|sorted| - 1] in meters
            && Amount(sorted[|sorted| - 1]) <= Amount(m) <= Amount(sorted[0])
  {
    var sorted := Sort(ByValue(), meters);
    ByValueIsPreorder(meters);
    SortAscends(ByValue(), meters, meters);
    SameElements(sorted, meters);
    EndsBound(sorted, m);
    assert sorted[0] in sorted && sorted[|sorted| - 1] in sorted;
  }

  lemma ByValueIsPreorder(meters: seq<MeterSummary>)
    ensures Preorder(ByValue(), meters)
  {}

  lemma EndsBound(sorted: seq<MeterSummary>, m: MeterSummary)
    requires Ascending(ByValue(), sorted) && m in sorted
    ensures Amount(sorted[|sorted| - 1]) <= Amount(m) <= Amount(sorted[0])
  {
    var i :| 0 <= i < |sorted| && sorted[i] == m;
    assert i > 0 ==> ByValue()(sorted[0], sorted[i]) <= 0;
    assert i < |sorted| - 1 ==> ByValue()(sorted[i], sorted[|sorted| - 1]) <= 0;
  }
}
