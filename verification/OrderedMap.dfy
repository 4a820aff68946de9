/**
 A JavaScript Map: its keys in the order they were first inserted, and its entries. Deleting
 while iterating drops keys and keeps the order of the rest.
 */
module OrderedMap {
  import opened Common
  import opened Sorting

  function Filter<T>(keep: T -> bool, s: seq<T>): (r: seq<T>)
    ensures |r| <= |s|
  {
    if s == [] then []
    else if keep(s[0]) then [s[0]] + Filter(keep, s[1..])
    else Filter(keep, s[1..])
  }

  lemma {:induction false} FilterIn<T>(keep: T -> bool, s: seq<T>)
    ensures forall x :: x in Filter(keep, s) <==> x in s && keep(x)
  {
    if s != [] {
      FilterIn(keep, s[1..]);
    }
  }

  lemma {:induction false} FilterAppend<T>(keep: T -> bool, a: seq<T>, b: seq<T>)
    ensures Filter(keep, a + b) == Filter(keep, a) + Filter(keep, b)
  {
    if a == [] {
      assert a + b == b;
    } else {
      assert (a + b)[1..] == a[1..] + b;
      FilterAppend(keep, a[1..], b);
    }
  }

  lemma {:induction false} FilterDistinct<T>(keep: T -> bool, s: seq<T>)
    requires Distinct(s)
    ensures Distinct(Filter(keep, s))
  {
    if s != [] {
      FilterDistinct(keep, s[1..]);
      FilterIn(keep, s[1..]);
      assert s[0] !in s[1..];
    }
  }

  lemma {:induction false} FilterAll<T>(keep: T -> bool, s: seq<T>)
    requires forall x :: x in s ==> keep(x)
    ensures Filter(keep, s) == s
  {
    if s != [] {
      FilterAll(keep, s[1..]);
    }
  }

  lemma {:induction false} FilterSplits<T>(p: T -> bool, q: T -> bool, s: seq<T>)
    requires forall x | x in s :: p(x) <==> !q(x)
    ensures |Filter(p, s)| + |Filter(q, s)| == |s|
  {
    if s != [] {
      assert s[0] in s;
      FilterSplits(p, q, s[1..]);
    }
  }

  lemma {:induction false} FilterSame<T>(p: T -> bool, q: T -> bool, s: seq<T>)
    requires forall x | x in s :: p(x) <==> q(x)
    ensures Filter(p, s) == Filter(q, s)
  {
    if s != [] {
      assert s[0] in s;
      FilterSame(p, q, s[1..]);
    }
  }

  lemma {:induction false} FilterTwice<T>(p: T -> bool, q: T -> bool, r: T -> bool, s: seq<T>)
    requires forall x | x in s :: r(x) <==> p(x) && q(x)
    ensures Filter(p, Filter(q, s)) == Filter(r, s)
  {
    if s != [] {
      assert s[0] in s;
      FilterTwice(p, q, r, s[1..]);
    }
  }

  lemma {:induction false} DropsPrefix<T>(keep: T -> bool, s: seq<T>, m: nat)
    requires Distinct(s) && m <= |s| && forall x | x in s :: keep(x) <==> x !in s[..m]
    ensures Filter(keep, s) == s[m..]
  {
    assert s == s[..m] + s[m..];
    FilterAppend(keep, s[..m], s[m..]);
    FilterNone(keep, s[..m]);
    forall x | x in s[m..] ensures keep(x) {}
    FilterAll(keep, s[m..]);
  }

  lemma {:induction false} FilterNone<T>(keep: T -> bool, s: seq<T>)
    requires forall x | x in s :: !keep(x)
    ensures Filter(keep, s) == []
  {
    if s != [] {
      assert s[0] in s;
      FilterNone(keep, s[1..]);
    }
  }

  lemma FilterOne<T>(p: T -> bool, x: T)
    ensures Filter(p, [x]) == if p(x) then [x] else []
  {}

  lemma InEither<T>(a: seq<T>, b: seq<T>, x: T)
    ensures x in a + b <==> x in a || x in b
  {}

  lemma {:induction false} FilterPrefix<T>(p: T -> bool, s: seq<T>, i: nat)
    requires i <= |s|
    ensures var a, b := Filter(p, s[..i]), Filter(p, s); |a| <= |b| && a == b[..|a|]
  {
    assert s == s[..i] + s[i..];
    FilterAppend(p, s[..i], s[i..]);
  }

  // If a kept element is among the first n kept, so is every kept one before it.
  lemma LaterInPrefix<T>(p: T -> bool, s: seq<T>, h: nat, i: nat, n: nat)
    requires Distinct(s) && h < i < |s| && p(s[h]) && n <= |Filter(p, s)| && s[i] in Filter(p, s)[..n]
    ensures s[h] in Filter(p, s)[..n]
  {
    var before := Filter(p, s[..i]);
    FilterPrefix(p, s, i);
    FilterIn(p, s[..i]);
    FilterIn(p, s);
    assert Filter(p, s)[..Min(n, |before|)] == before[..Min(n, |before|)];
    assert s[h] in s[..i];
    assert s[h] in before;
    assert s[i] !in s[..i];
    assert n > |before|;
    assert Filter(p, s)[..n][..|before|] == before;
  }

  // ---- keys and entries ------------------------------------------------------------------

  // Distinct, said one key at a time.
  ghost predicate Unique<T>(s: seq<T>)
  {
    s == [] || (s[0] !in s[1..] && Unique(s[1..]))
  }

  lemma {:induction false} UniqueDistinct<T>(s: seq<T>)
    ensures Unique(s) <==> Distinct(s)
  {
    if s != [] {
      UniqueDistinct(s[1..]);
      TailElems(s);
      if s[0] !in s[1..] && Distinct(s[1..]) {
        assert s == [s[0]] + s[1..];
      }
    }
  }

  ghost predicate Paired<V>(keys: seq<string>, entries: map<string, V>)
  {
    Unique(keys) && Elems(keys) == entries.Keys
  }

  function NotIn(gone: seq<string>): string -> bool
  {
    k => k !in gone
  }

  function Kept(keys: seq<string>, gone: seq<string>): seq<string>
  {
    Filter(NotIn(gone), keys)
  }

  lemma KeptNone(keys: seq<string>)
    ensures Kept(keys, []) == keys
  {
    FilterAll(NotIn([]), keys);
  }

  lemma KeptOneFewer(keys: seq<string>, gone: seq<string>, key: string)
    ensures Kept(keys, gone + [key]) == Kept(Kept(keys, gone), [key])
  {
    FilterTwice(NotIn([key]), NotIn(gone), NotIn(gone + [key]), keys);
  }

  lemma PairedWithout<V>(keys: seq<string>, entries: map<string, V>, gone: seq<string>)
    requires Paired(keys, entries)
    ensures Paired(Kept(keys, gone), entries - Elems(gone))
  {
    UniqueDistinct(keys);
    UniqueDistinct(Kept(keys, gone));
    FilterDistinct(NotIn(gone), keys);
    FilterIn(NotIn(gone), keys);
    forall k ensures k in Elems(Kept(keys, gone)) <==> k in (entries - Elems(gone)).Keys {
      assert k in Elems(keys) <==> k in entries.Keys;
      assert k in Elems(gone) <==> k in gone;
      assert k in Kept(keys, gone) <==> k in keys && k !in gone;
    }
  }

  lemma PairedPut<V>(keys: seq<string>, entries: map<string, V>, key: string, e: V)
    requires Paired(keys, entries)
    ensures Paired(if key in entries then keys else keys + [key], entries[key := e])
  {
    assert key in Elems(keys) <==> key in entries.Keys;
    UniqueDistinct(keys);
    UniqueDistinct(keys + [key]);
    AppendElems(keys, key);
  }

  lemma KeptSize(keys: seq<string>, gone: seq<string>)
    requires Distinct(keys) && Distinct(gone) && Elems(gone) <= Elems(keys)
    ensures |Kept(keys, gone)| == |keys| - |gone|
  {
    FilterSplits(NotIn(gone), k => k in gone, keys);
    HowMany(keys, gone);
  }

  // As many of the keys are in `some` as it is long.
  lemma HowMany(keys: seq<string>, some: seq<string>)
    requires Distinct(keys) && Distinct(some) && Elems(some) <= Elems(keys)
    ensures |Filter(k => k in some, keys)| == |some|
  {
    var both := Filter(k => k in some, keys);
    FilterDistinct(k => k in some, keys);
    FilterIn(k => k in some, keys);
    forall k ensures k in Elems(both) <==> k in Elems(some) {
      assert k in Elems(some) ==> k in Elems(keys);
      assert k in Elems(some) <==> k in some;
      assert k in Elems(both) <==> k in both;
      assert k in both <==> k in keys && k in some;
    }
    assert Elems(both) == Elems(some);
    DistinctSize(both);
    DistinctSize(some);
  }

  lemma {:induction false} DistinctSize<T>(s: seq<T>)
    requires Distinct(s)
    ensures |Elems(s)| == |s|
  {
    if s != [] {
      TailElems(s);
      DistinctSize(s[1..]);
    }
  }

  lemma {:induction false} ElemsSize<T>(s: seq<T>)
    ensures |Elems(s)| <= |s|
  {
    if s != [] {
      TailElems(s);
      ElemsSize(s[1..]);
    }
  }

  lemma {:induction false} SizeDistinct<T>(s: seq<T>)
    requires |Elems(s)| == |s|
    ensures Distinct(s)
  {
    if s != [] {
      TailElems(s);
      ElemsSize(s[1..]);
      SizeDistinct(s[1..]);
    }
  }

  lemma SameElementsDistinct<T>(a: seq<T>, b: seq<T>)
    requires multiset(a) == multiset(b) && Distinct(a)
    ensures Distinct(b) && Elems(a) == Elems(b)
  {
    SameElements(a, b);
    assert Elems(a) == Elems(b);
    DistinctSize(a);
    SizeDistinct(b);
  }
}
