/**
 The monthly billing job: which readings a period bills, what each meter is charged, and how far
 the rounded total can be from the rounded charges.
 */
module Billing {
  import opened Common
  import opened OrderedMap
  import opened Statistics
  import opened ReadingStore
  import opened Grouping
  import opened Calendar
  import opened Aggregation

  // ---- periods ---------------------------------------------------------------------------

  // A period as it is written, both parts unchecked but for their digits.
  datatype Period = Period(year: nat, month: nat)

  predicate Exists(p: Period)
  {
    1 <= p.month <= 12
  }

  function Index(p: Period): int
  {
    12 * p.year + p.month - 1
  }

  // The end is computed by Date.UTC, which takes the years 0 to 99 for 1900 to 1999, and is read
  // as the end of that day; a month that does not exist has no start, and selects nothing.
  function EndIndex(p: Period): int
  {
    Index(p) + 1 + if p.year <= 99 then 12 * 1900 else 0
  }

  predicate Bills(p: Period, t: int)
  {
    Exists(p) && First(Index(p)) <= t <= EndOfDay(First(EndIndex(p)))
  }

  // A period is meant to be one calendar month, but it runs through the first day of the next:
  // of two periods, a reading is billed in both if and only if they are consecutive and it was
  // taken on the first day of the later one.
  lemma BilledTwice(p: Period, q: Period, t: int)
    requires Exists(p) && Exists(q) && p.year >= 100 && q.year >= 100 && Index(p) < Index(q)
    ensures Bills(p, t) && Bills(q, t) <==> Index(q) == Index(p) + 1 && First(Index(q)) <= t < First(Index(q)) + DAY
  {
    BillsThroughTheFirst(p, t);
    BillsThroughTheFirst(q, t);
    MonthsOverlap(Index(p), Index(q), t);
  }

  lemma MonthsOverlap(a: int, b: int, t: int)
    requires a < b
    ensures (First(a) <= t < First(a + 1) + DAY && First(b) <= t < First(b + 1) + DAY) <==>
            (b == a + 1 && First(b) <= t < First(b) + DAY)
  {
    MonthsApart(a, a + 1);
    MonthsApart(b, b + 1);
    if b > a + 1 {
      MonthsApart(a + 1, b);
    }
    Overlap(First(a), First(a + 1), First(b), First(b + 1), b == a + 1, t);
  }

  lemma Overlap(a: int, a1: int, b: int, b1: int, next: bool, t: int)
    requires a + 28 * DAY <= a1 && b + 28 * DAY <= b1 && if next then b == a1 else a1 + 28 * DAY <= b
    ensures (a <= t < a1 + DAY && b <= t < b1 + DAY) <==> (next && b <= t < b + DAY)
  {}

  lemma BillsThroughTheFirst(p: Period, t: int)
    requires Exists(p) && p.year >= 100
    ensures Bills(p, t) <==> First(Index(p)) <= t < First(Index(p) + 1) + DAY
  {
    MonthStartsADay(Index(p) + 1);
  }

  // A reading of a month is billed in that month's period.
  lemma MonthBillsItsReadings(p: Period, t: int)
    requires Exists(p) && p.year >= 100 && First(Index(p)) <= t < First(Index(p) + 1)
    ensures Bills(p, t)
  {
    BillsThroughTheFirst(p, t);
  }

  // Every reading of the years 100 to 9999 is billed in some period, and that can be written.
  lemma NoReadingUnbilled(t: int)
    requires First(12 * 100) <= t < First(12 * 10000)
    ensures exists p :: Exists(p) && 100 <= p.year <= 9999 && Bills(p, t)
  {
    FirstsClimb();
    var n := FindBetween(Firsts(), t, 12 * 100, 12 * 10000);
    var p := Period(n / 12, n % 12 + 1);
    assert Index(p) == n;
    MonthBillsItsReadings(p, t);
  }

  // ---- charges ---------------------------------------------------------------------------

  // Number.prototype.toFixed in units of its last digit: the nearest, ties away from zero.
  function Rounded(x: real): int
  {
    if x >= 0.0 then (x + 0.5).Floor else -((-x + 0.5).Floor)
  }

  // Amounts are in cents and consumption in thousandths, as they are shown.
  datatype Invoice = Invoice(meterId: string, consumption: int, amount: int)

  datatype Bill = Bill(invoices: seq<Invoice>, totalConsumption: int, totalAmount: int)

  datatype BillingError = BadPeriod | BadRate | AbortedBefore | AbortedDuring

  // What was given for the rate; anything but a finite number is NotANumber.
  datatype Rate = Default | NotANumber | Given(value: real)

  function RateOf(rate: Rate, defaultRate: Rate): Rate
  {
    if rate.Default? then defaultRate else rate
  }

  // The readings of the period, of one account or of all.
  function Billable(p: Period, account: string): Reading -> bool
  {
    (r: Reading) => Bills(p, r.timestamp) && (account != "" ==> r.meterId == account)
  }

  function Consumption(rs: seq<Reading>, meter: string): real
  {
    Total(ValuesOf(rs, MeterKey(), meter))
  }

  function Charge(rs: seq<Reading>, rate: real): string -> real
  {
    (m: string) => Consumption(rs, m) * rate
  }

  function Used(rs: seq<Reading>): string -> real
  {
    (m: string) => Consumption(rs, m)
  }

  function InvoiceFor(rs: seq<Reading>, rate: real, m: string): Invoice
  {
    Invoice(m, Rounded(Consumption(rs, m) * 1000.0), Rounded(Charge(rs, rate)(m) * 100.0))
  }

  function InvoicesFor(rs: seq<Reading>, rate: real, meters: seq<string>): seq<Invoice>
  {
    seq(|meters|, i requires 0 <= i < |meters| => InvoiceFor(rs, rate, meters[i]))
  }

  function Meters(rs: seq<Reading>): seq<string>
  {
    GroupBy(rs, MeterKey()).keys
  }

  // One invoice per meter, in the order the meters first appear.
  function BillFor(rs: seq<Reading>, rate: real): Bill
  {
    Bill(InvoicesFor(rs, rate, Meters(rs)),
         Rounded(SumOver(Meters(rs), Used(rs)) * 1000.0),
         Rounded(SumOver(Meters(rs), Charge(rs, rate)) * 100.0))
  }

  // The handler looks at its abort signal twice.
  function BillingJob(readings: seq<Reading>, period: Option<Period>, account: string, rate: Rate, defaultRate: Rate,
                      abortedBefore: bool, abortedDuring: bool): Result<Bill, BillingError>
  {
    if period.None? then Err(BadPeriod)
    else
      var r := RateOf(rate, defaultRate);
      if !r.Given? || r.value < 0.0 then Err(BadRate)
      else if abortedBefore then Err(AbortedBefore)
      else
        var rs := Filter(Billable(period.value, account), readings);
        if rs == [] then Ok(Bill([], 0, 0))
        else if abortedDuring then Err(AbortedDuring)
        else Ok(BillFor(rs, r.value))
  }

  // The consumption per meter, as a Map.
  datatype PerMeter = PerMeter(keys: seq<string>, sums: map<string, real>)

  ghost function Sums(rs: seq<Reading>): PerMeter
  {
    PerMeter(Meters(rs), SumsOf(rs))
  }

  ghost function SumsOf(rs: seq<Reading>): map<string, real>
  {
    Totals(GroupBy(rs, MeterKey()).values)
  }

  ghost function Totals(groups: map<string, seq<real>>): map<string, real>
  {
    map m | m in groups :: Total(groups[m])
  }

  lemma TotalsPut(groups: map<string, seq<real>>, m: string, values: seq<real>)
    ensures Totals(groups[m := values]) == Totals(groups)[m := Total(values)]
  {}

  lemma SumsStep(rs: seq<Reading>, i: nat)
    requires i < |rs|
    ensures var m, sums := rs[i].meterId, SumsOf(rs[..i]);
            && SumsOf(rs[..i + 1]) == sums[m := (if m in sums then sums[m] else 0.0) + rs[i].value]
            && Meters(rs[..i + 1]) == if m in sums then Meters(rs[..i]) else Meters(rs[..i]) + [m]
  {
    assert rs[..i + 1] == rs[..i] + [rs[i]];
    GroupAppend(rs[..i], rs[i], rs[..i + 1]);
    SumsAppend(rs[..i], rs[i], rs[..i + 1]);
  }

  lemma GroupAppend(init: seq<Reading>, last: Reading, all: seq<Reading>)
    requires all == init + [last]
    ensures GroupBy(all, MeterKey()) == AddTo(GroupBy(init, MeterKey()), last.meterId, last.value)
  {
    assert all[..|all| - 1] == init;
  }

  lemma SumsAppend(init: seq<Reading>, last: Reading, all: seq<Reading>)
    requires all == init + [last]
    ensures var m, before := last.meterId, SumsOf(init);
            SumsOf(all) == before[m := (if m in before then before[m] else 0.0) + last.value]
  {
    GroupAppend(init, last, all);
    AddedTotals(GroupBy(init, MeterKey()), last.meterId, last.value);
  }

  lemma AddedTotals(g: Groups<string>, m: string, v: real)
    ensures Totals(AddTo(g, m, v).values)
            == Totals(g.values)[m := (if m in g.values then Total(g.values[m]) else 0.0) + v]
  {
    if m in g.values {
      TotalsPut(g.values, m, g.values[m] + [v]);
      TotalAppend(g.values[m], v);
    } else {
      TotalsPut(g.values, m, [v]);
      TotalAppend([], v);
      assert [] + [v] == [v];
    }
  }

  method GroupConsumption(readings: seq<Reading>) returns (perMeter: PerMeter)
    ensures perMeter == Sums(readings)
  {
    perMeter := PerMeter([], map[]);
    var i := 0;
    while i < |readings|
      invariant 0 <= i <= |readings| && perMeter == Sums(readings[..i])
    {
      SumsStep(readings, i);
      var meterId := readings[i].meterId;
      var value := readings[i].value;
      var sum := (if meterId in perMeter.sums then perMeter.sums[meterId] else 0.0) + value;
      var keys := if meterId in perMeter.sums then perMeter.keys else perMeter.keys + [meterId];
      perMeter := PerMeter(keys, perMeter.sums[meterId := sum]);
      i := i + 1;
    }
    assert readings[..i] == readings;
  }

  method MakeBill(readings: seq<Reading>, ratePerUnit: real) returns (bill: Bill)
    ensures bill == BillFor(readings, ratePerUnit)
  {
    var perMeter := GroupConsumption(readings);
    var keys := perMeter.keys;
    var invoices := [];
    var totalConsumption, totalAmount := 0.0, 0.0;
    var i := 0;
    while i < |keys|
      invariant 0 <= i <= |keys| && Tallied(readings, ratePerUnit, keys, i, invoices, totalConsumption, totalAmount)
    {
      MeterHasSum(readings, keys[i]);
      var consumption := perMeter.sums[keys[i]];
      var amount := consumption * ratePerUnit;
      var invoice := Invoice(keys[i], Rounded(consumption * 1000.0), Rounded(amount * 100.0));
      InvoiceIs(readings, ratePerUnit, keys[i], consumption, amount);
      TallyNext(readings, ratePerUnit, keys, i, invoices, totalConsumption, totalAmount, consumption, amount);
      totalConsumption := totalConsumption + consumption;
      totalAmount := totalAmount + amount;
      invoices := invoices + [invoice];
      i := i + 1;
    }
    assert keys[..i] == keys;
    bill := Bill(invoices, Rounded(totalConsumption * 1000.0), Rounded(totalAmount * 100.0));
  }

  // What the loop has added up after the first i meters.
  ghost predicate Tallied(
    rs: seq<Reading>, rate: real, keys: seq<string>, i: nat, invoices: seq<Invoice>, consumption: real, amount: real)
    requires i <= |keys|
  {
    && invoices == InvoicesFor(rs, rate, keys)[..i]
    && consumption == SumOver(keys[..i], Used(rs))
    && amount == SumOver(keys[..i], Charge(rs, rate))
  }

  lemma TallyNext(
    rs: seq<Reading>, rate: real, keys: seq<string>, i: nat, invoices: seq<Invoice>, consumption: real, amount: real,
    used: real, charge: real)
    requires i < |keys| && Tallied(rs, rate, keys, i, invoices, consumption, amount)
    requires used == Used(rs)(keys[i]) && charge == Charge(rs, rate)(keys[i])
    ensures var invoice := InvoiceFor(rs, rate, keys[i]);
            Tallied(rs, rate, keys, i + 1, invoices + [invoice], consumption + used, amount + charge)
  {
    SumNext(keys, Used(rs), i);
    SumNext(keys, Charge(rs, rate), i);
    InvoicesNext(rs, rate, keys, i);
  }

  lemma InvoiceIs(rs: seq<Reading>, rate: real, m: string, used: real, charge: real)
    requires used == Consumption(rs, m) && charge == used * rate
    ensures used == Used(rs)(m) && charge == Charge(rs, rate)(m)
    ensures InvoiceFor(rs, rate, m) == Invoice(m, Rounded(used * 1000.0), Rounded(charge * 100.0))
  {}

  lemma InvoicesNext(rs: seq<Reading>, rate: real, keys: seq<string>, i: nat)
    requires i < |keys|
    ensures InvoicesFor(rs, rate, keys)[..i + 1] == InvoicesFor(rs, rate, keys)[..i] + [InvoiceFor(rs, rate, keys[i])]
  {}

  lemma MeterHasSum(rs: seq<Reading>, m: string)
    requires m in Meters(rs)
    ensures m in Sums(rs).sums && Sums(rs).sums[m] == Consumption(rs, m)
  {
    GroupKeys(rs, MeterKey());
    assert m in Elems(Meters(rs));
    GroupsAreValues(rs, MeterKey(), m);
  }

  lemma SumNext<K>(keys: seq<K>, f: K -> real, i: nat)
    requires i < |keys|
    ensures SumOver(keys[..i + 1], f) == SumOver(keys[..i], f) + f(keys[i])
  {
    assert keys[..i + 1] == keys[..i] + [keys[i]];
    SumAppend(keys[..i], f, keys[i]);
  }

  lemma {:induction false} SumAppend<K>(keys: seq<K>, f: K -> real, k: K)
    ensures SumOver(keys + [k], f) == SumOver(keys, f) + f(k)
  {
    if keys != [] {
      assert (keys + [k])[1..] == keys[1..] + [k];
      SumAppend(keys[1..], f, k);
    } else {
      assert keys + [k] == [k];
    }
  }

  method BillingHandler(readings: seq<Reading>, period: Option<Period>, account: string, rate: Rate, defaultRate: Rate,
                        abortedBefore: bool, abortedDuring: bool) returns (r: Result<Bill, BillingError>)
    ensures r == BillingJob(readings, period, account, rate, defaultRate, abortedBefore, abortedDuring)
  {
    if period.None? {
      return Err(BadPeriod);
    }
    var ratePerUnit := if rate.Default? then defaultRate else rate;
    if !ratePerUnit.Given? || ratePerUnit.value < 0.0 {
      return Err(BadRate);
    }
    if abortedBefore {
      return Err(AbortedBefore);
    }
    var selected := Filter(Billable(period.value, account), readings);
    if |selected| == 0 {
      return Ok(Bill([], 0, 0));
    }
    var bill := MakeBill(selected, ratePerUnit.value);
    if abortedDuring {
      return Err(AbortedDuring);
    }
    return Ok(bill);
  }

  // ---- what the charges add up to --------------------------------------------------------

  lemma {:induction false} SumScaled<K>(keys: seq<K>, f: K -> real, g: K -> real, c: real)
    requires forall k | k in keys :: g(k) == f(k) * c
    ensures SumOver(keys, g) == SumOver(keys, f) * c
  {
    if keys != [] {
      assert keys[0] in keys;
      SumScaled(keys[1..], f, g, c);
      assert (f(keys[0]) + SumOver(keys[1..], f)) * c == f(keys[0]) * c + SumOver(keys[1..], f) * c;
    }
  }

  // Before rounding, the meters' consumption is that of all the readings, each counted once, and
  // the charges come to its price.
  lemma ConsumptionAddsUp(rs: seq<Reading>, rate: real)
    ensures SumOver(Meters(rs), Used(rs)) == Total(Values(rs))
    ensures SumOver(Meters(rs), Charge(rs, rate)) == Total(Values(rs)) * rate
  {
    UsedAddsUp(rs);
    SumScaled(Meters(rs), Used(rs), Charge(rs, rate), rate);
  }

  lemma UsedAddsUp(rs: seq<Reading>)
    ensures SumOver(Meters(rs), Used(rs)) == Total(Values(rs))
  {
    MetersCover(rs);
    GroupsConserve(rs, MeterKey(), Meters(rs));
    SumSame(Meters(rs), SumIn(rs, MeterKey()), Used(rs));
  }

  lemma MetersCover(rs: seq<Reading>)
    ensures Unique(Meters(rs)) && forall r | r in rs :: MeterKey()(r) in Meters(rs)
  {
    GroupKeys(rs, MeterKey());
    forall r | r in rs ensures MeterKey()(r) in Meters(rs) {
      GroupsAreValues(rs, MeterKey(), MeterKey()(r));
      assert SomeWith(rs, MeterKey(), MeterKey()(r));
      assert MeterKey()(r) in Elems(Meters(rs));
    }
  }

  lemma RoundedIsNear(x: real)
    ensures x - 0.5 <= Rounded(x) as real <= x + 0.5
  {}

  function CentsOf(invoices: seq<Invoice>): int
  {
    if invoices == [] then 0 else invoices[0].amount + CentsOf(invoices[1..])
  }

  lemma {:induction false} InvoicesNear(rs: seq<Reading>, rate: real, meters: seq<string>)
    ensures var exact := SumOver(meters, Charge(rs, rate)) * 100.0;
            var cents := CentsOf(InvoicesFor(rs, rate, meters)) as real;
            exact - |meters| as real * 0.5 <= cents <= exact + |meters| as real * 0.5
    decreases |meters|
  {
    if meters != [] {
      InvoicesNear(rs, rate, meters[1..]);
      assert InvoicesFor(rs, rate, meters)[1..] == InvoicesFor(rs, rate, meters[1..]);
      RoundedIsNear(Charge(rs, rate)(meters[0]) * 100.0);
    }
  }

  // With n invoices, the total on the bill is at most (n + 1) / 2 cents from what they add up to.
  lemma RoundingDriftIsBounded(rs: seq<Reading>, rate: real)
    ensures var bill := BillFor(rs, rate);
            var n := |bill.invoices|;
            -(n + 1) <= 2 * (bill.totalAmount - CentsOf(bill.invoices)) <= n + 1
  {
    var meters := Meters(rs);
    InvoicesNear(rs, rate, meters);
    RoundedIsNear(SumOver(meters, Charge(rs, rate)) * 100.0);
  }

  // ---- what a caller of the job gets -----------------------------------------------------

  // The rate the caller gave, or the default if none was given, is a number and not negative.
  predicate RateOk(rate: Rate, defaultRate: Rate)
  {
    match rate
    case Given(v) => v >= 0.0
    case NotANumber => false
    case Default => defaultRate.Given? && defaultRate.value >= 0.0
  }

  lemma RateIs(rate: Rate, defaultRate: Rate)
    ensures RateOk(rate, defaultRate) <==>
              RateOf(rate, defaultRate).Given? && RateOf(rate, defaultRate).value >= 0.0
    ensures RateOf(rate, defaultRate) == match rate
                                         case Given(v) => rate
                                         case NotANumber => rate
                                         case Default => defaultRate
  {}

  // The readings billed: those of the account, or of all if none is named, taken in the period.
  lemma BilledReadings(readings: seq<Reading>, p: Period, account: string, r: Reading)
    requires Exists(p) && p.year >= 100
    ensures r in Filter(Billable(p, account), readings) <==>
              && r in readings && (account == "" || r.meterId == account)
              && First(Index(p)) <= r.timestamp < First(Index(p) + 1) + DAY
  {
    FilterIn(Billable(p, account), readings);
    BillsThroughTheFirst(p, r.timestamp);
    assert Billable(p, account)(r) <==> Bills(p, r.timestamp) && (account != "" ==> r.meterId == account);
  }

  // The job fails on exactly these inputs: a missing or malformed period, a rate that is no number
  // or negative, an abort before it begins, or one while it has readings to bill.
  lemma BillingFailsIff(readings: seq<Reading>, period: Option<Period>, account: string, rate: Rate, defaultRate: Rate,
                        before: bool, during: bool)
    ensures BillingJob(readings, period, account, rate, defaultRate, before, during).Err? <==>
              || period.None? || !RateOk(rate, defaultRate) || before
              || (during && exists r :: r in readings && Billable(period.value, account)(r))
  {
    RateIs(rate, defaultRate);
    if period.Some? {
      var rs := Filter(Billable(period.value, account), readings);
      FilterIn(Billable(period.value, account), readings);
      if rs != [] {
        assert rs[0] in rs;
      }
    }
  }

  // A meter has an invoice exactly if it has a billed reading, and no two.
  ghost predicate OnePerMeter(invoices: seq<Invoice>, rs: seq<Reading>)
  {
    && (forall i, j :: 0 <= i < j < |invoices| ==> invoices[i].meterId != invoices[j].meterId)
    && (forall v | v in invoices :: exists r :: r in rs && r.meterId == v.meterId)
    && (forall r | r in rs :: exists v :: v in invoices && v.meterId == r.meterId)
  }

  // It shows what its readings come to, to half a thousandth, and their price, to half a cent.
  predicate Shows(v: Invoice, used: real, rate: real)
  {
    && used * 1000.0 - 0.5 <= v.consumption as real <= used * 1000.0 + 0.5
    && used * rate * 100.0 - 0.5 <= v.amount as real <= used * rate * 100.0 + 0.5
  }

  lemma InvoiceShows(rs: seq<Reading>, rate: real, m: string)
    ensures Shows(InvoiceFor(rs, rate, m), Consumption(rs, m), rate)
  {
    RoundedIsNear(Consumption(rs, m) * 1000.0);
    RoundedIsNear(Charge(rs, rate)(m) * 100.0);
  }

  lemma InvoicesOnePerMeter(rs: seq<Reading>, rate: real)
    ensures OnePerMeter(InvoicesFor(rs, rate, Meters(rs)), rs)
  {
    MetersCover(rs);
    forall m | m in Meters(rs) ensures exists r :: r in rs && r.meterId == m {
      MeterHasReading(rs, m);
    }
    forall r | r in rs ensures r.meterId in Meters(rs) {
      assert MeterKey()(r) in Meters(rs);
    }
    OneForEach(InvoicesFor(rs, rate, Meters(rs)), Meters(rs), rs);
  }

  lemma OneForEach(invoices: seq<Invoice>, meters: seq<string>, rs: seq<Reading>)
    requires |invoices| == |meters| && forall i :: 0 <= i < |meters| ==> invoices[i].meterId == meters[i]
    requires Unique(meters) && forall m | m in meters :: exists r :: r in rs && r.meterId == m
    requires forall r | r in rs :: r.meterId in meters
    ensures OnePerMeter(invoices, rs)
  {
    UniqueDistinct(meters);
    forall v | v in invoices ensures exists r :: r in rs && r.meterId == v.meterId {
      assert v.meterId in meters;
    }
    forall r | r in rs ensures exists v :: v in invoices && v.meterId == r.meterId {
      var i :| 0 <= i < |meters| && meters[i] == r.meterId;
      assert invoices[i] in invoices;
    }
  }

  lemma MeterHasReading(rs: seq<Reading>, m: string)
    requires m in Meters(rs)
    ensures exists r :: r in rs && r.meterId == m
  {
    GroupKeys(rs, MeterKey());
    assert m in Elems(Meters(rs));
    GroupsAreValues(rs, MeterKey(), m);
    var r :| r in rs && MeterKey()(r) == m;
    assert r.meterId == m;
  }

  // A bill of given readings: one invoice per meter over exactly its readings, totals over all of
  // them, and the amounts on the invoices adding up to the total to (n + 1) / 2 cents.
  ghost predicate BillOf(bill: Bill, rs: seq<Reading>, rate: real)
  {
    && OnePerMeter(bill.invoices, rs)
    && (forall v | v in bill.invoices :: Shows(v, Consumption(rs, v.meterId), rate))
    && Shows(Invoice("", bill.totalConsumption, bill.totalAmount), Total(Values(rs)), rate)
    && -(|bill.invoices| + 1) <= 2 * (bill.totalAmount - CentsOf(bill.invoices)) <= |bill.invoices| + 1
  }

  lemma BillForIsBillOf(rs: seq<Reading>, rate: real)
    ensures BillOf(BillFor(rs, rate), rs, rate)
  {
    InvoicesOnePerMeter(rs, rate);
    RoundingDriftIsBounded(rs, rate);
    forall v | v in InvoicesFor(rs, rate, Meters(rs)) ensures Shows(v, Consumption(rs, v.meterId), rate) {
      InvoiceShows(rs, rate, v.meterId);
    }
    TotalShows(rs, rate);
  }

  lemma TotalShows(rs: seq<Reading>, rate: real)
    ensures var bill := BillFor(rs, rate);
            Shows(Invoice("", bill.totalConsumption, bill.totalAmount), Total(Values(rs)), rate)
  {
    ConsumptionAddsUp(rs, rate);
    RoundedIsNear(SumOver(Meters(rs), Used(rs)) * 1000.0);
    RoundedIsNear(SumOver(Meters(rs), Charge(rs, rate)) * 100.0);
  }

  lemma NothingToBill(rate: real)
    ensures BillOf(Bill([], 0, 0), [], rate)
  {}

  // Whenever the job succeeds, its result is a bill of exactly the billable readings.
  lemma BillingSucceeds(readings: seq<Reading>, period: Option<Period>, account: string, rate: Rate, defaultRate: Rate,
                        before: bool, during: bool)
    requires BillingJob(readings, period, account, rate, defaultRate, before, during).Ok?
    ensures period.Some? && RateOk(rate, defaultRate)
    ensures BillOf(BillingJob(readings, period, account, rate, defaultRate, before, during).value,
                   Filter(Billable(period.value, account), readings),
                   if rate.Given? then rate.value else defaultRate.value)
  {
    RateIs(rate, defaultRate);
    var rs, r := Filter(Billable(period.value, account), readings), RateOf(rate, defaultRate).value;
    if rs == [] {
      NothingToBill(r);
    } else {
      BillForIsBillOf(rs, r);
    }
  }

  // Billing one account gives the invoice the bill of all has for it, and no other.
  lemma OneAccountAlike(readings: seq<Reading>, p: Period, account: string, rate: real)
    requires account != "" && exists r :: r in readings && Billable(p, account)(r)
    ensures var all := Filter(Billable(p, ""), readings);
            var own := Filter(Billable(p, account), readings);
            && BillFor(own, rate).invoices == [InvoiceFor(all, rate, account)]
            && InvoiceFor(all, rate, account) in BillFor(all, rate).invoices
  {
    OwnBill(readings, p, account, rate);
    OwnInvoice(readings, p, account, rate);
    AccountAmongAll(readings, p, account, rate);
  }

  lemma OwnInvoice(readings: seq<Reading>, p: Period, account: string, rate: real)
    requires account != ""
    ensures InvoiceFor(Filter(Billable(p, account), readings), rate, account)
         == InvoiceFor(Filter(Billable(p, ""), readings), rate, account)
  {
    OwnValues(readings, p, account);
    SameInvoice(Filter(Billable(p, account), readings), Filter(Billable(p, ""), readings), rate, account);
  }

  lemma SameInvoice(a: seq<Reading>, b: seq<Reading>, rate: real, m: string)
    requires Consumption(a, m) == Consumption(b, m)
    ensures InvoiceFor(a, rate, m) == InvoiceFor(b, rate, m)
  {
    var used := Consumption(a, m);
    InvoiceIs(a, rate, m, used, used * rate);
    InvoiceIs(b, rate, m, used, used * rate);
  }

  lemma OwnBill(readings: seq<Reading>, p: Period, account: string, rate: real)
    requires account != "" && exists r :: r in readings && Billable(p, account)(r)
    ensures var own := Filter(Billable(p, account), readings);
            BillFor(own, rate).invoices == [InvoiceFor(own, rate, account)]
  {
    FilterIn(Billable(p, account), readings);
    OwnMeter(Filter(Billable(p, account), readings), account);
  }

  lemma AccountAmongAll(readings: seq<Reading>, p: Period, account: string, rate: real)
    requires account != "" && exists r :: r in readings && Billable(p, account)(r)
    ensures var all := Filter(Billable(p, ""), readings);
            InvoiceFor(all, rate, account) in BillFor(all, rate).invoices
  {
    var all := Filter(Billable(p, ""), readings);
    FilterIn(Billable(p, ""), readings);
    MetersCover(all);
    var r :| r in readings && Billable(p, account)(r);
    assert r in all && MeterKey()(r) in Meters(all);
    var i :| 0 <= i < |Meters(all)| && Meters(all)[i] == account;
    assert BillFor(all, rate).invoices[i] == InvoiceFor(all, rate, account);
  }

  // Readings of one meter only make one group.
  lemma OwnMeter(rs: seq<Reading>, m: string)
    requires rs != [] && forall r | r in rs :: r.meterId == m
    ensures Meters(rs) == [m]
  {
    MetersCover(rs);
    UniqueDistinct(Meters(rs));
    assert rs[0] in rs && MeterKey()(rs[0]) in Meters(rs);
    forall i | 0 <= i < |Meters(rs)| ensures Meters(rs)[i] == m {
      MeterHasReading(rs, Meters(rs)[i]);
    }
  }

  // The values of an account are the same among all readings and among its own.
  lemma {:induction false} OwnValues(readings: seq<Reading>, p: Period, account: string)
    requires account != ""
    ensures ValuesOf(Filter(Billable(p, ""), readings), MeterKey(), account)
         == ValuesOf(Filter(Billable(p, account), readings), MeterKey(), account)
    decreases |readings|
  {
    if readings != [] {
      var init, last := readings[..|readings| - 1], readings[|readings| - 1];
      assert readings == init + [last];
      OwnValues(init, p, account);
      ValuesStep(init, last, Billable(p, ""), account);
      ValuesStep(init, last, Billable(p, account), account);
    }
  }

  lemma ValuesStep(init: seq<Reading>, last: Reading, keep: Reading -> bool, m: string)
    ensures ValuesOf(Filter(keep, init + [last]), MeterKey(), m)
         == ValuesOf(Filter(keep, init), MeterKey(), m) + if keep(last) && last.meterId == m then [last.value] else []
  {
    FilterAppend(keep, init, [last]);
    FilterOne(keep, last);
    if keep(last) {
      ValuesNext(Filter(keep, init), last, m);
    } else {
      assert Filter(keep, init) + [] == Filter(keep, init);
    }
  }

  lemma ValuesNext(rs: seq<Reading>, last: Reading, m: string)
    ensures ValuesOf(rs + [last], MeterKey(), m)
         == ValuesOf(rs, MeterKey(), m) + if last.meterId == m then [last.value] else []
  {
    assert (rs + [last])[..|rs|] == rs;
  }
}
