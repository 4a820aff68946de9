/**
 The order cursor pagination relies on: how two field values compare, how a row is compared by
 its sort field and then its id, and that on columns of one type this is a total order with
 missing values last in both directions.
 */
module Keyset {
  import opened Common
  import opened Sorting

  // A field value. `time` is what Date.parse makes of a text that looks like an ISO date, and
  // `digits` is what String makes of a number.
  datatype Value = Missing | Number(n: real, digits: string) | Text(text: string, time: Option<int>)

  // A row, or the anchor rebuilt from a cursor: only the fields that are present.
  type Item = map<string, Value>

  datatype Query = Query(sortBy: string, desc: bool, idField: string)

  function Field(item: Item, name: string): Value
  {
    if name in item then item[name] else Missing
  }

  function AsString(v: Value): string
  {
    match v
    case Missing => "undefined"
    case Number(_, digits) => digits
    case Text(s, _) => s
  }

  // The order of the JavaScript string operator <, over code units.
  function CompareText(a: string, b: string): int
  {
    if a == b then 0
    else if a == [] then -1
    else if b == [] then 1
    else if a[0] != b[0] then (if a[0] < b[0] then -1 else 1)
    else CompareText(a[1..], b[1..])
  }

  function Timestamp(v: Value): Option<int>
  {
    if v.Text? then v.time else None
  }

  // Only the sign of a difference is ever looked at.
  function CompareValues(l: Value, r: Value): int
  {
    if l.Number? && r.Number? then (if l.n < r.n then -1 else if l.n > r.n then 1 else 0)
    else if Timestamp(l).Some? && Timestamp(r).Some? then Timestamp(l).value - Timestamp(r).value
    else CompareText(AsString(l), AsString(r))
  }

  // makeSortComparator: the direction does not apply to missing values.
  function CompareField(name: string, desc: bool, a: Item, b: Item): int
  {
    var l, r := Field(a, name), Field(b, name);
    if l.Missing? && r.Missing? then 0
    else if l.Missing? then 1
    else if r.Missing? then -1
    else if desc then -CompareValues(l, r)
    else CompareValues(l, r)
  }

  // makeKeysetComparator: the sort field, then the id as a tiebreaker in the same direction.
  function Compare(q: Query, a: Item, b: Item): int
  {
    var byField := CompareField(q.sortBy, q.desc, a, b);
    if q.sortBy == q.idField || byField != 0 then byField else CompareField(q.idField, q.desc, a, b)
  }

  function Comparator(q: Query): (Item, Item) -> int
  {
    (a, b) => Compare(q, a, b)
  }

  // ---- columns of one type ---------------------------------------------------------------

  datatype Kind = Numbers | Dates | Texts

  predicate OfKind(k: Kind, v: Value)
  {
    match v
    case Missing => true
    case Number(_, _) => k == Numbers
    case Text(_, time) => if time.Some? then k == Dates else k == Texts
  }

  datatype Schema = Schema(sortKind: Kind, idKind: Kind)

  predicate Typed(q: Query, sc: Schema, item: Item)
  {
    OfKind(sc.sortKind, Field(item, q.sortBy)) && OfKind(sc.idKind, Field(item, q.idField))
  }

  lemma {:induction false} TextTransitive(a: string, b: string, c: string)
    requires CompareText(a, b) <= 0 && CompareText(b, c) <= 0
    ensures CompareText(a, c) <= 0
    ensures CompareText(a, b) < 0 || CompareText(b, c) < 0 ==> CompareText(a, c) < 0
  {
    if a != [] && b != [] && c != [] && a[0] == b[0] == c[0] {
      TextTransitive(a[1..], b[1..], c[1..]);
      assert a == [a[0]] + a[1..] && b == [b[0]] + b[1..] && c == [c[0]] + c[1..];
    }
  }

  lemma {:induction false} TextAntisymmetric(a: string, b: string)
    ensures CompareText(a, b) < 0 <==> CompareText(b, a) > 0
    ensures CompareText(a, b) > 0 <==> CompareText(b, a) < 0
    ensures CompareText(a, b) == 0 <==> a == b
  {
    if a != [] && b != [] && a[0] == b[0] {
      TextAntisymmetric(a[1..], b[1..]);
      assert a == [a[0]] + a[1..] && b == [b[0]] + b[1..];
    }
  }

  lemma FieldAntisymmetric(name: string, desc: bool, k: Kind, a: Item, b: Item)
    requires OfKind(k, Field(a, name)) && OfKind(k, Field(b, name))
    ensures CompareField(name, desc, a, b) < 0 <==> CompareField(name, desc, b, a) > 0
  {
    TextAntisymmetric(AsString(Field(a, name)), AsString(Field(b, name)));
  }

  lemma FieldTransitive(name: string, desc: bool, k: Kind, a: Item, b: Item, c: Item)
    requires OfKind(k, Field(a, name)) && OfKind(k, Field(b, name)) && OfKind(k, Field(c, name))
    requires CompareField(name, desc, a, b) <= 0 && CompareField(name, desc, b, c) <= 0
    ensures CompareField(name, desc, a, c) <= 0
    ensures CompareField(name, desc, a, b) < 0 || CompareField(name, desc, b, c) < 0 ==>
            CompareField(name, desc, a, c) < 0
  {
    var x, y, z := AsString(Field(a, name)), AsString(Field(b, name)), AsString(Field(c, name));
    TextAntisymmetric(x, y);
    TextAntisymmetric(y, z);
    TextAntisymmetric(x, z);
    if !Field(a, name).Missing? && !Field(b, name).Missing? && !Field(c, name).Missing? && k == Texts {
      if desc { TextTransitive(z, y, x); TextAntisymmetric(z, x); } else { TextTransitive(x, y, z); }
    }
  }

  lemma Antisymmetric(q: Query, sc: Schema, a: Item, b: Item)
    requires Typed(q, sc, a) && Typed(q, sc, b)
    ensures Compare(q, a, b) < 0 <==> Compare(q, b, a) > 0
    ensures Compare(q, a, b) == 0 <==> Compare(q, b, a) == 0
  {
    FieldAntisymmetric(q.sortBy, q.desc, sc.sortKind, a, b);
    FieldAntisymmetric(q.sortBy, q.desc, sc.sortKind, b, a);
    FieldAntisymmetric(q.idField, q.desc, sc.idKind, a, b);
    FieldAntisymmetric(q.idField, q.desc, sc.idKind, b, a);
  }

  lemma Transitive(q: Query, sc: Schema, a: Item, b: Item, c: Item)
    requires Typed(q, sc, a) && Typed(q, sc, b) && Typed(q, sc, c)
    requires Compare(q, a, b) <= 0 && Compare(q, b, c) <= 0
    ensures Compare(q, a, c) <= 0
    ensures Compare(q, a, b) < 0 || Compare(q, b, c) < 0 ==> Compare(q, a, c) < 0
  {
    FieldTransitive(q.sortBy, q.desc, sc.sortKind, a, b, c);
    if CompareField(q.sortBy, q.desc, a, b) == 0 && CompareField(q.sortBy, q.desc, b, c) == 0 {
      FieldAntisymmetric(q.sortBy, q.desc, sc.sortKind, a, b);
      FieldAntisymmetric(q.sortBy, q.desc, sc.sortKind, b, a);
      FieldAntisymmetric(q.sortBy, q.desc, sc.sortKind, b, c);
      FieldAntisymmetric(q.sortBy, q.desc, sc.sortKind, c, b);
      FieldTransitive(q.sortBy, q.desc, sc.sortKind, c, b, a);
      FieldAntisymmetric(q.sortBy, q.desc, sc.sortKind, a, c);
      FieldAntisymmetric(q.sortBy, q.desc, sc.sortKind, c, a);
      if q.sortBy != q.idField {
        FieldTransitive(q.idField, q.desc, sc.idKind, a, b, c);
      }
    }
  }

  // Rows with a missing sort value come after every row that has one, ascending or descending.
  lemma MissingLast(q: Query, a: Item, b: Item)
    requires Field(a, q.sortBy).Missing? && !Field(b, q.sortBy).Missing?
    ensures Compare(q, a, b) > 0 && Compare(q, b, a) < 0
  {}

  ghost predicate UniqueIds(q: Query, items: seq<Item>)
  {
    forall i, j :: 0 <= i < j < |items| ==>
      CompareField(q.idField, q.desc, items[i], items[j]) != 0
        && CompareField(q.idField, q.desc, items[j], items[i]) != 0
  }

  predicate SameValue(v: Value, w: Value)
  {
    match v
    case Missing => w.Missing?
    case Number(n, _) => w.Number? && w.n == n
    case Text(text, _) => w.Text? && w.text == text
  }

  // For numeric and for plain-text ids, two ids tie only when they are the same value.
  lemma IdTiesAreEqualities(name: string, desc: bool, k: Kind, a: Item, b: Item)
    requires OfKind(k, Field(a, name)) && OfKind(k, Field(b, name)) && k != Dates
    ensures CompareField(name, desc, a, b) == 0 <==> SameValue(Field(a, name), Field(b, name))
  {
    TextAntisymmetric(AsString(Field(a, name)), AsString(Field(b, name)));
  }

  // Unique ids leave the keyset comparator without ties.
  lemma UniqueIdsNoTies(q: Query, items: seq<Item>)
    requires UniqueIds(q, items)
    ensures NoTies(Comparator(q), items)
  {}

  // ---- columns of mixed types ------------------------------------------------------------

  // A value that is there, of one of two kinds.
  predicate OfEither(j: Kind, k: Kind, v: Value)
  {
    !v.Missing? && (OfKind(j, v) || OfKind(k, v))
  }

  predicate Follows(a: Value, b: Value, c: Value)
  {
    CompareValues(a, b) <= 0 && CompareValues(b, c) <= 0 ==> CompareValues(a, c) <= 0
  }

  ghost predicate OrdersKinds(j: Kind, k: Kind)
  {
    forall a, b, c {:trigger Follows(a, b, c)} :: OfEither(j, k, a) && OfEither(j, k, b) && OfEither(j, k, c) ==>
      Follows(a, b, c)
  }

  // compareValues is transitive on the values of two kinds if and only if they are one kind.
  lemma OrderedIffOneKind(j: Kind, k: Kind)
    ensures OrdersKinds(j, k) <==> j == k
  {
    if j == k {
      forall a, b, c | OfEither(j, k, a) && OfEither(j, k, b) && OfEither(j, k, c) ensures Follows(a, b, c) {
        OneKindFollows(k, a, b, c);
      }
    } else if j == Numbers || k == Numbers {
      NumbersCycle(if j == Numbers then k else j);
    } else {
      DatesCycle();
    }
  }

  lemma OneKindFollows(k: Kind, a: Value, b: Value, c: Value)
    requires OfEither(k, k, a) && OfEither(k, k, b) && OfEither(k, k, c)
    ensures Follows(a, b, c)
  {
    if k == Texts && CompareValues(a, b) <= 0 && CompareValues(b, c) <= 0 {
      TextTransitive(a.text, b.text, c.text);
    }
  }

  // Numbers against texts: 9 < 10 < "5" < 9; against dates: 9 < 10 < "2024-01-01" < 9.
  lemma NumbersCycle(k: Kind)
    requires k != Numbers
    ensures !OrdersKinds(Numbers, k) && !OrdersKinds(k, Numbers)
  {
    var nine, ten := Number(9.0, "9"), Number(10.0, "10");
    var other := if k == Dates then Text("2024-01-01", Some(1704067200000)) else Text("5", None);
    assert CompareText("10", "5") == -1 && CompareText("5", "9") == -1;
    assert CompareText("10", "2024-01-01") == -1 && CompareText("2024-01-01", "9") == -1;
    assert CompareText("9", "2024-01-01") == 1 && CompareText("9", "5") == 1;
    assert OfEither(Numbers, k, nine) && OfEither(Numbers, k, ten) && OfEither(Numbers, k, other);
    assert !Follows(nine, ten, other);
  }

  // Dates against texts: by time 05:00Z is before 00:00-12:00, but between them a text follows
  // the latter and precedes the former.
  lemma DatesCycle()
    ensures !OrdersKinds(Dates, Texts) && !OrdersKinds(Texts, Dates)
  {
    var day := "2024-01-01T0";
    var noon, five, text := day + "0:00:00-12:00", day + "5:00:00Z", day + "1";
    SamePrefix(day, "0:00:00-12:00", "1");
    SamePrefix(day, "5:00:00Z", "1");
    CycleOfDates(Text(noon, Some(1704110400000)), Text(five, Some(1704085200000)), Text(text, None));
  }

  lemma CycleOfDates(later: Value, sooner: Value, text: Value)
    requires later.Text? && sooner.Text? && text.Text? && later.time.Some? && sooner.time.Some? && text.time.None?
    requires sooner.time.value < later.time.value
    requires CompareText(later.text, text.text) < 0 && CompareText(sooner.text, text.text) > 0
    ensures !OrdersKinds(Dates, Texts) && !OrdersKinds(Texts, Dates)
  {
    assert OfEither(Dates, Texts, later) && OfEither(Dates, Texts, sooner) && OfEither(Dates, Texts, text);
    assert OfEither(Texts, Dates, later) && OfEither(Texts, Dates, sooner) && OfEither(Texts, Dates, text);
    assert !Follows(sooner, later, text);
  }

  lemma {:induction false} SamePrefix(prefix: string, a: string, b: string)
    ensures CompareText(prefix + a, prefix + b) == CompareText(a, b)
  {
    if prefix == [] {
      assert prefix + a == a && prefix + b == b;
    } else {
      SamePrefix(prefix[1..], a, b);
      assert (prefix + a)[1..] == prefix[1..] + a && (prefix + b)[1..] == prefix[1..] + b;
      assert prefix + a == prefix + b <==> prefix[1..] + a == prefix[1..] + b;
    }
  }
}
