/** The numbers the aggregator condenses values into, over exact reals. */
module Statistics {
  import opened Common
  import opened Sorting

  datatype Aggregation = Count | Sum | Avg | Min | Max | P50 | P95

  // The sign of a - b, which is all a sort looks at.
  function Sign(a: real, b: real): int
  {
    if a < b then -1 else if a > b then 1 else 0
  }

  function Numeric(): (real, real) -> int
  {
    (a: real, b: real) => Sign(a, b)
  }

  function Total(values: seq<real>): real
  {
    if values == [] then 0.0 else Total(values[..|values| - 1]) + values[|values| - 1]
  }

  function Least(values: seq<real>): real
    requires values != []
  {
    if |values| == 1 then values[0]
    else if values[0] <= Least(values[1..]) then values[0]
    else Least(values[1..])
  }

  function Greatest(values: seq<real>): real
    requires values != []
  {
    if |values| == 1 then values[0]
    else if values[0] >= Greatest(values[1..]) then values[0]
    else Greatest(values[1..])
  }

  lemma {:induction false} Extremes(values: seq<real>, v: real)
    requires v in values
    ensures Least(values) <= v <= Greatest(values)
  {
    if |values| > 1 && v != values[0] {
      Extremes(values[1..], v);
    }
  }

  lemma {:induction false} ExtremesTaken(values: seq<real>)
    requires values != []
    ensures Least(values) in values && Greatest(values) in values
  {
    if |values| > 1 {
      ExtremesTaken(values[1..]);
    }
  }

  // ---- percentiles -----------------------------------------------------------------------

  // Where the percentile falls among n values.
  function Position(p: real, n: nat): (x: real)
    requires 0.0 <= p <= 100.0 && n >= 1
    ensures 0.0 <= x <= (n - 1) as real
  {
    var f, m := p / 100.0, (n - 1) as real;
    PartOf(f, m);
    f * m
  }

  lemma PartOf(f: real, m: real)
    requires 0.0 <= f <= 1.0 && m >= 0.0
    ensures 0.0 <= f * m <= m
  {
    MulMonotone(0.0, f, m);
    MulMonotone(f, 1.0, m);
    assert 0.0 * m == 0.0 && 1.0 * m == m;
  }

  lemma MulMonotone(a: real, b: real, c: real)
    requires a <= b && c >= 0.0
    ensures a * c <= b * c
  {
    assert b * c - a * c == (b - a) * c;
  }

  // The value at a position, interpolated between its neighbours.
  function ValueAt(sorted: seq<real>, x: real): real
    requires sorted != [] && 0.0 <= x <= (|sorted| - 1) as real
  {
    var lower := x.Floor;
    if x == lower as real then sorted[lower]
    else Between(sorted[lower], sorted[lower + 1], x - lower as real)
  }

  function Between(a: real, b: real, fraction: real): real
  {
    a + fraction * (b - a)
  }

  lemma BetweenOrdered(a: real, b: real, f: real, g: real)
    requires a <= b && 0.0 <= f <= g <= 1.0
    ensures a <= Between(a, b, f) <= Between(a, b, g) <= b
  {
    var gap := b - a;
    MulMonotone(0.0, f, gap);
    MulMonotone(f, g, gap);
    MulMonotone(g, 1.0, gap);
    assert 0.0 * gap == 0.0 && 1.0 * gap == gap;
    assert Between(a, b, f) == a + f * gap && Between(a, b, g) == a + g * gap;
  }

  function Percentile(sorted: seq<real>, p: real): real
    requires 0.0 <= p <= 100.0
  {
    if sorted == [] then 0.0
    else if |sorted| == 1 then sorted[0]
    else ValueAt(sorted, Position(p, |sorted|))
  }

  ghost predicate InOrder(s: seq<real>)
  {
    forall i, j :: 0 <= i < j < |s| ==> s[i] <= s[j]
  }

  // A value lies between the neighbours of its position.
  lemma ValueBetween(sorted: seq<real>, x: real)
    requires InOrder(sorted) && sorted != [] && 0.0 <= x <= (|sorted| - 1) as real
    ensures sorted[x.Floor] <= ValueAt(sorted, x)
    ensures x != x.Floor as real ==> x.Floor + 1 < |sorted| && ValueAt(sorted, x) <= sorted[x.Floor + 1]
  {
    var lower := x.Floor;
    if x != lower as real {
      assert sorted[lower] <= sorted[lower + 1];
      BetweenOrdered(sorted[lower], sorted[lower + 1], x - lower as real, x - lower as real);
    }
  }

  lemma ValueMonotone(sorted: seq<real>, x: real, y: real)
    requires InOrder(sorted) && sorted != [] && 0.0 <= x <= y <= (|sorted| - 1) as real
    ensures ValueAt(sorted, x) <= ValueAt(sorted, y)
  {
    ValueBetween(sorted, x);
    ValueBetween(sorted, y);
    var lower, upper := x.Floor, y.Floor;
    if lower < upper {
      assert sorted[lower] <= sorted[upper];
      assert lower + 1 < upper ==> sorted[lower + 1] <= sorted[upper];
    } else if x != lower as real {
      SameCell(sorted, x, y);
    }
  }

  lemma SameCell(sorted: seq<real>, x: real, y: real)
    requires InOrder(sorted) && sorted != [] && 0.0 <= x <= y <= (|sorted| - 1) as real
    requires x.Floor == y.Floor && x != x.Floor as real
    ensures ValueAt(sorted, x) <= ValueAt(sorted, y)
  {
    var lower := x.Floor;
    assert sorted[lower] <= sorted[lower + 1];
    BetweenOrdered(sorted[lower], sorted[lower + 1], x - lower as real, y - lower as real);
  }

  lemma PositionMonotone(p: real, q: real, n: nat)
    requires 0.0 <= p <= q <= 100.0 && n >= 1
    ensures Position(p, n) <= Position(q, n)
  {
    var f, g, m := p / 100.0, q / 100.0, (n - 1) as real;
    assert f <= g;
    MulMonotone(f, g, m);
    assert Position(p, n) == f * m && Position(q, n) == g * m;
  }

  // A percentile is the least value at 0, the greatest at 100, never goes down as p goes up, and
  // lies between the two values its position falls between.
  lemma PercentileMonotone(sorted: seq<real>, p: real, q: real)
    requires InOrder(sorted) && 0.0 <= p <= q <= 100.0
    ensures Percentile(sorted, p) <= Percentile(sorted, q)
  {
    if |sorted| > 1 {
      PositionMonotone(p, q, |sorted|);
      ValueMonotone(sorted, Position(p, |sorted|), Position(q, |sorted|));
    }
  }

  lemma PercentileEnds(sorted: seq<real>)
    requires sorted != []
    ensures Percentile(sorted, 0.0) == sorted[0] && Percentile(sorted, 100.0) == sorted[|sorted| - 1]
  {
    if |sorted| > 1 {
      var m := (|sorted| - 1) as real;
      assert Position(0.0, |sorted|) == 0.0;
      assert Position(100.0, |sorted|) == m;
      assert m.Floor == |sorted| - 1;
    }
  }

  lemma PercentileBetween(sorted: seq<real>, p: real)
    requires InOrder(sorted) && sorted != [] && 0.0 <= p <= 100.0
    ensures var x := Position(p, |sorted|);
            && sorted[x.Floor] <= Percentile(sorted, p)
            && (Percentile(sorted, p) <= if x == x.Floor as real then sorted[x.Floor] else sorted[x.Floor + 1])
  {
    ValueBetween(sorted, Position(p, |sorted|));
  }

  // ---- aggregates ------------------------------------------------------------------------

  // None is null; there is nothing to condense in no values, except their count.
  function AggregateValues(values: seq<real>, t: Aggregation): Option<real>
  {
    if values == [] then (if t == Count then Some(0.0) else None)
    else match t
      case Count => Some(|values| as real)
      case Sum => Some(Total(values))
      case Avg => Some(Total(values) / |values| as real)
      case Min => Some(Least(values))
      case Max => Some(Greatest(values))
      case P50 => Some(Percentile(Sort(Numeric(), values), 50.0))
      case P95 => Some(Percentile(Sort(Numeric(), values), 95.0))
  }

  lemma SortInOrder(values: seq<real>)
    ensures InOrder(Sort(Numeric(), values))
  {
    NumericIsPreorder(values);
    SortAscends(Numeric(), values, values);
    AscendingInOrder(Sort(Numeric(), values));
  }

  lemma NumericIsPreorder(values: seq<real>)
    ensures Preorder(Numeric(), values)
  {}

  lemma AscendingInOrder(s: seq<real>)
    requires Ascending(Numeric(), s)
    ensures InOrder(s)
  {
    forall i, j | 0 <= i < j < |s| ensures s[i] <= s[j] {
      assert Numeric()(s[i], s[j]) <= 0;
    }
  }

  lemma {:induction false} TotalBetween(values: seq<real>, low: real, high: real)
    requires forall v | v in values :: low <= v <= high
    ensures low * |values| as real <= Total(values) <= high * |values| as real
  {
    if values != [] {
      var n := |values| - 1;
      assert values[n] in values;
      forall v | v in values[..n] ensures low <= v <= high {
        assert v in values;
      }
      TotalBetween(values[..n], low, high);
      assert low * |values| as real == low * n as real + low;
      assert high * |values| as real == high * n as real + high;
    }
  }

  // Of any values: least <= median <= 95th percentile <= greatest, and the mean in between too.
  lemma AggregatesInOrder(values: seq<real>)
    requires values != []
    ensures var least, greatest := AggregateValues(values, Min).value, AggregateValues(values, Max).value;
            && least <= AggregateValues(values, P50).value <= AggregateValues(values, P95).value <= greatest
            && least <= AggregateValues(values, Avg).value <= greatest
  {
    MedianInOrder(values);
    MeanBetween(values);
  }

  lemma MedianInOrder(values: seq<real>)
    requires values != []
    ensures var s := Sort(Numeric(), values);
            Least(values) <= Percentile(s, 50.0) <= Percentile(s, 95.0) <= Greatest(values)
  {
    SortInOrder(values);
    MedianOf(values, Sort(Numeric(), values));
  }

  lemma MedianOf(values: seq<real>, sorted: seq<real>)
    requires values != [] && InOrder(sorted) && multiset(sorted) == multiset(values)
    ensures Least(values) <= Percentile(sorted, 50.0) <= Percentile(sorted, 95.0) <= Greatest(values)
  {
    assert values[0] in multiset(sorted);
    AllWithin(values, sorted, 0);
    AllWithin(values, sorted, |sorted| - 1);
    PercentilesInOrder(sorted);
  }

  lemma MeanBetween(values: seq<real>)
    requires values != []
    ensures Least(values) <= Total(values) / |values| as real <= Greatest(values)
  {
    forall v | v in values ensures Least(values) <= v <= Greatest(values) {
      Extremes(values, v);
    }
    TotalBetween(values, Least(values), Greatest(values));
    AverageBetween(Total(values), |values|, Least(values), Greatest(values));
  }

  lemma PercentilesInOrder(sorted: seq<real>)
    requires InOrder(sorted) && sorted != []
    ensures sorted[0] <= Percentile(sorted, 50.0) <= Percentile(sorted, 95.0) <= sorted[|sorted| - 1]
  {
    PercentileEnds(sorted);
    PercentileMonotone(sorted, 0.0, 50.0);
    PercentileMonotone(sorted, 50.0, 95.0);
    PercentileMonotone(sorted, 95.0, 100.0);
  }

  lemma AllWithin(values: seq<real>, other: seq<real>, i: nat)
    requires multiset(other) == multiset(values) && i < |other|
    ensures Least(values) <= other[i] <= Greatest(values)
  {
    assert other[i] in multiset(other);
    assert other[i] in multiset(values);
    Extremes(values, other[i]);
  }

  lemma AverageBetween(total: real, n: nat, low: real, high: real)
    requires n >= 1 && low * n as real <= total <= high * n as real
    ensures low <= total / n as real <= high
  {
    DivideMonotone(low * n as real, total, n as real);
    DivideMonotone(total, high * n as real, n as real);
    assert low * n as real / n as real == low && high * n as real / n as real == high;
  }

  lemma DivideMonotone(a: real, b: real, c: real)
    requires a <= b && c > 0.0
    ensures a / c <= b / c
  {
    assert b / c - a / c == (b - a) / c;
  }

  // ---- the order of the values does not matter -------------------------------------------

  lemma SameHead(a: seq<real>, b: seq<real>)
    requires InOrder(a) && InOrder(b) && multiset(a) == multiset(b) && a != []
    ensures b != [] && a[0] == b[0] && multiset(a[1..]) == multiset(b[1..])
  {
    SameElements(a, b);
    HeadIsLeast(a, b[0]);
    HeadIsLeast(b, a[0]);
    RestOf(a);
    RestOf(b);
  }

  lemma HeadIsLeast(a: seq<real>, v: real)
    requires InOrder(a) && v in a
    ensures a[0] <= v
  {}

  lemma RestOf(a: seq<real>)
    requires a != []
    ensures multiset(a[1..]) == multiset(a) - multiset{a[0]}
  {
    assert a == [a[0]] + a[1..];
  }

  lemma {:induction false} SortedUnique(a: seq<real>, b: seq<real>)
    requires InOrder(a) && InOrder(b) && multiset(a) == multiset(b)
    ensures a == b
  {
    SameElements(a, b);
    if a != [] {
      SameHead(a, b);
      SortedUnique(a[1..], b[1..]);
      assert a == [a[0]] + a[1..] && b == [b[0]] + b[1..];
    }
  }

  lemma {:induction false} TotalRemove(values: seq<real>, i: nat)
    requires i < |values|
    ensures Total(values) == values[i] + Total(RemoveAt(values, i))
  {
    var n := |values| - 1;
    var rest := RemoveAt(values, i);
    if i == n {
      assert rest == values[..n];
    } else {
      assert rest[..|rest| - 1] == RemoveAt(values[..n], i);
      assert rest[|rest| - 1] == values[n];
      TotalRemove(values[..n], i);
    }
  }

  lemma {:induction false} TotalOfSame(a: seq<real>, b: seq<real>)
    requires multiset(a) == multiset(b)
    ensures Total(a) == Total(b)
    decreases |a|
  {
    SameElements(a, b);
    if a != [] {
      var n := |a| - 1;
      assert a[n] in b;
      var i :| 0 <= i < |b| && b[i] == a[n];
      TotalRemove(b, i);
      assert a == a[..n] + [a[n]];
      RemovedOnce(b, i);
      TotalOfSame(a[..n], RemoveAt(b, i));
    }
  }

  lemma RemovedOnce<T>(s: seq<T>, i: nat)
    requires i < |s|
    ensures multiset(RemoveAt(s, i)) == multiset(s) - multiset{s[i]}
  {
    assert s == s[..i] + [s[i]] + s[i + 1..];
  }

  lemma OrderIsIrrelevant(a: seq<real>, b: seq<real>, t: Aggregation)
    requires multiset(a) == multiset(b)
    ensures AggregateValues(a, t) == AggregateValues(b, t)
  {
    SameElements(a, b);
    TotalOfSame(a, b);
    SameSort(a, b);
    if a != [] {
      SameExtremes(a, b);
    }
  }

  lemma SameSort(a: seq<real>, b: seq<real>)
    requires multiset(a) == multiset(b)
    ensures Sort(Numeric(), a) == Sort(Numeric(), b)
  {
    SortInOrder(a);
    SortInOrder(b);
    SortedUnique(Sort(Numeric(), a), Sort(Numeric(), b));
  }

  lemma SameExtremes(a: seq<real>, b: seq<real>)
    requires multiset(a) == multiset(b) && a != [] && b != []
    ensures Least(a) == Least(b) && Greatest(a) == Greatest(b)
  {
    SameElements(a, b);
    ExtremesTaken(a);
    ExtremesTaken(b);
    Extremes(b, Least(a));
    Extremes(b, Greatest(a));
    Extremes(a, Least(b));
    Extremes(a, Greatest(b));
  }

  // ---- what each aggregate is ------------------------------------------------------------

  // The count is the number of values, the sum their total, and the average times the count too.
  lemma CountSumAverage(values: seq<real>)
    ensures AggregateValues(values, Count) == Some(|values| as real)
    ensures values != [] ==>
              && AggregateValues(values, Sum) == Some(Total(values))
              && AggregateValues(values, Avg).Some?
              && AggregateValues(values, Avg).value * |values| as real == Total(values)
    ensures values == [] ==> AggregateValues(values, Sum) == AggregateValues(values, Avg) == None
  {
    if values != [] {
      Quotient(Total(values), |values| as real);
    }
  }

  lemma Quotient(a: real, b: real)
    requires b != 0.0
    ensures a / b * b == a
  {}

  // The total adds each value once, wherever it stands.
  lemma {:induction false} TotalOfBoth(a: seq<real>, b: seq<real>)
    ensures Total(a + b) == Total(a) + Total(b) && Total([]) == 0.0 && forall x :: Total([x]) == x
    decreases |b|
  {
    if b == [] {
      assert a + b == a;
    } else {
      var last := |b| - 1;
      TotalOfBoth(a, b[..last]);
      assert (a + b)[..|a + b| - 1] == a + b[..last];
    }
  }

  // The least and the greatest are values, and no value is beyond them.
  lemma MinAndMax(values: seq<real>, v: real)
    requires v in values
    ensures AggregateValues(values, Min).Some? && AggregateValues(values, Max).Some?
    ensures AggregateValues(values, Min).value in values && AggregateValues(values, Max).value in values
    ensures AggregateValues(values, Min).value <= v <= AggregateValues(values, Max).value
  {
    ExtremesTaken(values);
    Extremes(values, v);
  }

  // With p per cent of the way from the first to the last falling `part` of the way from the k-th
  // to the next, the percentile is as far between these two.
  lemma PercentileIs(sorted: seq<real>, p: real, k: nat, part: real)
    requires k < |sorted| && 0.0 <= p <= 100.0 && 0.0 <= part < 1.0
    requires p * (|sorted| - 1) as real == 100.0 * (k as real + part)
    ensures part > 0.0 ==> k + 1 < |sorted|
    ensures Percentile(sorted, p)
         == if part == 0.0 then sorted[k] else sorted[k] + part * (sorted[k + 1] - sorted[k])
  {
    var m := (|sorted| - 1) as real;
    PartIs(p, m, k as real + part);
    if |sorted| > 1 {
      assert Position(p, |sorted|) == k as real + part;
      assert (k as real + part).Floor == k;
    }
  }

  lemma PartIs(p: real, m: real, x: real)
    requires 0.0 <= p <= 100.0 && m >= 0.0 && p * m == 100.0 * x
    ensures p / 100.0 * m == x && x <= m
  {
    var f := p / 100.0;
    assert p == 100.0 * f;
    assert 100.0 * f * m == 100.0 * (f * m);
    PartOf(f, m);
  }

  // s lists the values in ascending order.
  ghost predicate Lists(s: seq<real>, values: seq<real>)
  {
    multiset(s) == multiset(values) && InOrder(s)
  }

  // There is one such listing, and the percentiles are taken from it.
  lemma PercentilesOfListing(values: seq<real>, s: seq<real>)
    requires Lists(s, values) && s != []
    ensures AggregateValues(values, P50) == Some(Percentile(s, 50.0))
    ensures AggregateValues(values, P95) == Some(Percentile(s, 95.0))
  {
    SortInOrder(values);
    SortedUnique(Sort(Numeric(), values), s);
    assert s[0] in multiset(values);
  }

  // The 95th percentile, of the values in order.
  lemma Percentile95(values: seq<real>, s: seq<real>, k: nat, part: real)
    requires Lists(s, values) && k < |s| && 0.0 <= part < 1.0
    requires 95.0 * (|s| - 1) as real == 100.0 * (k as real + part)
    ensures part > 0.0 ==> k + 1 < |s|
    ensures AggregateValues(values, P95) == Some(if part == 0.0 then s[k] else s[k] + part * (s[k + 1] - s[k]))
  {
    PercentileIs(s, 95.0, k, part);
    PercentilesOfListing(values, s);
  }

  // The middle one of sorted values, or halfway between the middle two.
  function Middle(s: seq<real>): real
    requires s != []
  {
    var n := |s|;
    if n % 2 == 1 then s[n / 2] else (s[n / 2 - 1] + s[n / 2]) / 2.0
  }

  // The median is the middle of the values in order; at least half of them are no greater, and at
  // least half no less.
  lemma MedianIs(values: seq<real>, s: seq<real>)
    requires Lists(s, values) && s != []
    ensures AggregateValues(values, P50) == Some(Middle(s))
    ensures forall i :: 0 <= i <= (|s| - 1) / 2 ==> s[i] <= Middle(s)
    ensures forall i :: |s| / 2 <= i < |s| ==> Middle(s) <= s[i]
  {
    PercentilesOfListing(values, s);
    MiddleIsPercentile(s);
    MiddleHalves(s);
  }

  lemma MiddleHalves(s: seq<real>)
    requires InOrder(s) && s != []
    ensures forall i :: 0 <= i <= (|s| - 1) / 2 ==> s[i] <= Middle(s)
    ensures forall i :: |s| / 2 <= i < |s| ==> Middle(s) <= s[i]
  {
    if |s| % 2 == 0 {
      assert s[|s| / 2 - 1] <= s[|s| / 2];
    }
  }

  lemma MiddleIsPercentile(s: seq<real>)
    requires s != []
    ensures Percentile(s, 50.0) == Middle(s)
  {
    var n := |s|;
    if n % 2 == 1 {
      HalfOf(n, n / 2, 0.0);
      PercentileIs(s, 50.0, n / 2, 0.0);
    } else {
      HalfOf(n, n / 2 - 1, 0.5);
      PercentileIs(s, 50.0, n / 2 - 1, 0.5);
    }
  }

  lemma HalfOf(n: nat, k: nat, part: real)
    requires n >= 1 && (if n % 2 == 1 then k == n / 2 && part == 0.0 else k == n / 2 - 1 && part == 0.5)
    ensures 50.0 * (n - 1) as real == 100.0 * (k as real + part)
  {}
}
