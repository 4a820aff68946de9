/** Readings grouped by a key, in the order the keys first appear, and what the groups add up to. */
module Grouping {
  import opened Common
  import opened OrderedMap
  import opened Statistics
  import opened ReadingStore

  // A JavaScript Map from keys to the values of their readings.
  datatype Groups<K(==)> = Groups(keys: seq<K>, values: map<K, seq<real>>)

  function AddTo<K>(g: Groups<K>, k: K, v: real): Groups<K>
  {
    if k in g.values then g.(values := g.values[k := g.values[k] + [v]])
    else Groups(g.keys + [k], g.values[k := [v]])
  }

  function GroupBy<K>(rs: seq<Reading>, keyOf: Reading -> K): Groups<K>
  {
    if rs == [] then Groups([], map[])
    else AddTo(GroupBy(rs[..|rs| - 1], keyOf), keyOf(rs[|rs| - 1]), rs[|rs| - 1].value)
  }

  method Group<K(==)>(rs: seq<Reading>, keyOf: Reading -> K) returns (g: Groups<K>)
    ensures g == GroupBy(rs, keyOf)
  {
    g := Groups([], map[]);
    var i := 0;
    while i < |rs|
      invariant 0 <= i <= |rs| && g == GroupBy(rs[..i], keyOf)
    {
      assert rs[..i + 1][..i] == rs[..i];
      g := AddTo(g, keyOf(rs[i]), rs[i].value);
      i := i + 1;
    }
    assert rs[..|rs|] == rs;
  }

  function Values(rs: seq<Reading>): seq<real>
  {
    seq(|rs|, i requires 0 <= i < |rs| => rs[i].value)
  }

  // The values of the readings with key k, in order.
  function ValuesOf<K(==)>(rs: seq<Reading>, keyOf: Reading -> K, k: K): seq<real>
  {
    if rs == [] then []
    else
      var last := rs[|rs| - 1];
      ValuesOf(rs[..|rs| - 1], keyOf, k) + if keyOf(last) == k then [last.value] else []
  }

  ghost predicate SomeWith<K>(rs: seq<Reading>, keyOf: Reading -> K, k: K)
  {
    exists r :: r in rs && keyOf(r) == k
  }

  // Each key that occurs is listed once, with exactly the values of its readings.
  lemma {:induction false} GroupsAreValues<K>(rs: seq<Reading>, keyOf: Reading -> K, k: K)
    ensures var g := GroupBy(rs, keyOf);
            && (k in g.values <==> SomeWith(rs, keyOf, k))
            && (k in g.values ==> g.values[k] == ValuesOf(rs, keyOf, k) && g.values[k] != [])
            && (k !in g.values ==> ValuesOf(rs, keyOf, k) == [])
  {
    if rs != [] {
      var init, last := rs[..|rs| - 1], rs[|rs| - 1];
      GroupsAreValues(init, keyOf, k);
      assert rs == init + [last];
      assert SomeWith(rs, keyOf, k) <==> SomeWith(init, keyOf, k) || keyOf(last) == k;
      assert ValuesOf(init, keyOf, k) + [] == ValuesOf(init, keyOf, k);
    }
  }

  lemma {:induction false} GroupKeys<K>(rs: seq<Reading>, keyOf: Reading -> K)
    ensures var g := GroupBy(rs, keyOf); Unique(g.keys) && Elems(g.keys) == g.values.Keys
  {
    if rs != [] {
      var g := GroupBy(rs[..|rs| - 1], keyOf);
      var k := keyOf(rs[|rs| - 1]);
      GroupKeys(rs[..|rs| - 1], keyOf);
      if k !in g.values {
        assert k !in Elems(g.keys);
        UniqueAppend(g.keys, k);
        AppendElems(g.keys, k);
      }
    }
  }

  lemma UniqueAppend<T>(s: seq<T>, x: T)
    requires Unique(s) && x !in s
    ensures Unique(s + [x])
  {
    UniqueDistinct(s);
    UniqueDistinct(s + [x]);
    AppendElems(s, x);
  }

  // ---- what groups add up to -------------------------------------------------------------

  function SumOver<K>(keys: seq<K>, f: K -> real): real
  {
    if keys == [] then 0.0 else f(keys[0]) + SumOver(keys[1..], f)
  }

  lemma {:induction false} SumSame<K>(keys: seq<K>, f: K -> real, g: K -> real)
    requires forall k | k in keys :: f(k) == g(k)
    ensures SumOver(keys, f) == SumOver(keys, g)
  {
    if keys != [] {
      assert keys[0] in keys;
      SumSame(keys[1..], f, g);
    }
  }

  lemma {:induction false} SumBump<K>(keys: seq<K>, f: K -> real, g: K -> real, j: K, v: real)
    requires Unique(keys) && j in keys
    requires forall k | k in keys :: g(k) == if k == j then f(k) + v else f(k)
    ensures SumOver(keys, g) == SumOver(keys, f) + v
  {
    assert keys[0] in keys;
    if keys[0] == j {
      SumSame(keys[1..], f, g);
    } else {
      SumBump(keys[1..], f, g, j, v);
    }
  }

  lemma {:induction false} SumZero<K>(keys: seq<K>, f: K -> real)
    requires forall k | k in keys :: f(k) == 0.0
    ensures SumOver(keys, f) == 0.0
  {
    if keys != [] {
      assert keys[0] in keys;
      SumZero(keys[1..], f);
    }
  }

  function SumIn<K(==)>(rs: seq<Reading>, keyOf: Reading -> K): K -> real
  {
    k => Total(ValuesOf(rs, keyOf, k))
  }

  function CountIn<K(==)>(rs: seq<Reading>, keyOf: Reading -> K): K -> real
  {
    k => |ValuesOf(rs, keyOf, k)| as real
  }

  // Over any keys that cover the readings, the groups hold every reading and its value once.
  lemma {:induction false} GroupsConserve<K>(rs: seq<Reading>, keyOf: Reading -> K, keys: seq<K>)
    requires Unique(keys) && forall r | r in rs :: keyOf(r) in keys
    ensures SumOver(keys, SumIn(rs, keyOf)) == Total(Values(rs))
    ensures SumOver(keys, CountIn(rs, keyOf)) == |rs| as real
    decreases |rs|
  {
    if rs == [] {
      SumZero(keys, SumIn(rs, keyOf));
      SumZero(keys, CountIn(rs, keyOf));
    } else {
      var init, last := rs[..|rs| - 1], rs[|rs| - 1];
      assert rs == init + [last];
      GroupsConserve(init, keyOf, keys);
      assert last in rs;
      forall k
        ensures SumIn(rs, keyOf)(k) == SumIn(init, keyOf)(k) + if k == keyOf(last) then last.value else 0.0
      {
        TotalAppend(ValuesOf(init, keyOf, k), last.value);
        assert ValuesOf(init, keyOf, k) + [] == ValuesOf(init, keyOf, k);
      }
      SumBump(keys, SumIn(init, keyOf), SumIn(rs, keyOf), keyOf(last), last.value);
      SumBump(keys, CountIn(init, keyOf), CountIn(rs, keyOf), keyOf(last), 1.0);
      assert Values(rs) == Values(init) + [last.value];
      TotalAppend(Values(init), last.value);
    }
  }

  lemma TotalAppend(values: seq<real>, v: real)
    ensures Total(values + [v]) == Total(values) + v
  {
    assert (values + [v])[..|values|] == values;
  }
}
