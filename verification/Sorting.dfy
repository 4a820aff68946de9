/**
 Array.prototype.sort: a stable sort by a comparator. A comparator that is a total preorder on
 the elements gives a sorted permutation, and one without ties a unique one.
 */
module Sorting {
  import opened Common

  // `x` goes before the first element it does not follow, so equal elements keep their order.
  function Insert<T>(cmp: (T, T) -> int, x: T, s: seq<T>): (r: seq<T>)
    ensures multiset(r) == multiset([x] + s)
  {
    if s == [] || cmp(x, s[0]) <= 0 then [x] + s
    else
      assert multiset(s) == multiset([s[0]] + s[1..]) by { assert s == [s[0]] + s[1..]; }
      [s[0]] + Insert(cmp, x, s[1..])
  }

  function Sort<T>(cmp: (T, T) -> int, s: seq<T>): (r: seq<T>)
    ensures multiset(r) == multiset(s)
    ensures |r| == |s|
  {
    if s == [] then []
    else
      assert s == [s[0]] + s[1..];
      var r := Insert(cmp, s[0], Sort(cmp, s[1..]));
      assert |multiset(r)| == |r|;
      assert |multiset(s)| == |s|;
      r
  }

  ghost predicate Preorder<T>(cmp: (T, T) -> int, s: seq<T>)
  {
    && (forall a, b | a in s && b in s :: cmp(a, b) <= 0 || cmp(b, a) <= 0)
    && (forall a, b, c | a in s && b in s && c in s :: cmp(a, b) <= 0 && cmp(b, c) <= 0 ==> cmp(a, c) <= 0)
  }

  ghost predicate Ascending<T>(cmp: (T, T) -> int, s: seq<T>)
  {
    forall i, j :: 0 <= i < j < |s| ==> cmp(s[i], s[j]) <= 0
  }

  ghost predicate Strict<T>(cmp: (T, T) -> int, s: seq<T>)
  {
    forall i, j :: 0 <= i < j < |s| ==> cmp(s[i], s[j]) < 0
  }

  lemma SameElements<T>(a: seq<T>, b: seq<T>)
    requires multiset(a) == multiset(b)
    ensures forall x | x in a :: x in b
    ensures forall x | x in b :: x in a
    ensures |a| == |b|
  {
    forall x | x in a ensures x in b { assert x in multiset(a); }
    forall x | x in b ensures x in a { assert x in multiset(b); }
    assert |multiset(a)| == |a| && |multiset(b)| == |b|;
  }

  lemma InsertElements<T>(cmp: (T, T) -> int, x: T, s: seq<T>)
    ensures forall y | y in Insert(cmp, x, s) :: y == x || y in s
  {
    forall y | y in Insert(cmp, x, s) ensures y == x || y in s {
      assert y in multiset(Insert(cmp, x, s));
      assert y in multiset([x] + s);
    }
  }

  // `all` is any collection the elements come from.
  lemma {:induction false} InsertAscends<T>(cmp: (T, T) -> int, x: T, s: seq<T>, all: seq<T>)
    requires Ascending(cmp, s) && Preorder(cmp, all) && x in all && forall y | y in s :: y in all
    ensures Ascending(cmp, Insert(cmp, x, s))
  {
    if s != [] {
      assert s[0] in all;
      if cmp(x, s[0]) <= 0 {
        forall k | 0 < k < |s| ensures cmp(x, s[k]) <= 0 {
          assert s[k] in all && cmp(s[0], s[k]) <= 0;
        }
      } else {
        InsertAscends(cmp, x, s[1..], all);
        InsertElements(cmp, x, s[1..]);
        assert cmp(s[0], x) <= 0;
        forall y | y in s[1..] ensures cmp(s[0], y) <= 0 {}
      }
    }
  }

  lemma {:induction false} SortAscends<T>(cmp: (T, T) -> int, s: seq<T>, all: seq<T>)
    requires Preorder(cmp, all) && forall y | y in s :: y in all
    ensures Ascending(cmp, Sort(cmp, s))
  {
    if s != [] {
      SortAscends(cmp, s[1..], all);
      SameElements(Sort(cmp, s[1..]), s[1..]);
      InsertAscends(cmp, s[0], Sort(cmp, s[1..]), all);
    }
  }

  ghost predicate NoTies<T>(cmp: (T, T) -> int, s: seq<T>)
  {
    forall i, j :: 0 <= i < j < |s| ==> cmp(s[i], s[j]) != 0 && cmp(s[j], s[i]) != 0
  }

  lemma {:induction false} InsertStrict<T>(cmp: (T, T) -> int, x: T, s: seq<T>, all: seq<T>)
    requires Strict(cmp, s) && Preorder(cmp, all) && x in all && forall y | y in s :: y in all
    requires forall y | y in s :: cmp(x, y) != 0 && cmp(y, x) != 0
    ensures Strict(cmp, Insert(cmp, x, s))
  {
    if s != [] {
      assert s[0] in all && s[0] in s;
      if cmp(x, s[0]) <= 0 {
        forall k | 0 < k < |s| ensures cmp(x, s[k]) < 0 {
          assert s[k] in s && cmp(s[0], s[k]) < 0;
        }
      } else {
        InsertStrict(cmp, x, s[1..], all);
        InsertElements(cmp, x, s[1..]);
        assert cmp(s[0], x) < 0;
        forall y | y in s[1..] ensures cmp(s[0], y) < 0 {}
      }
    }
  }

  // With no two elements tied, the sort is strictly ascending.
  lemma {:induction false} SortStrict<T>(cmp: (T, T) -> int, s: seq<T>, all: seq<T>)
    requires Preorder(cmp, all) && NoTies(cmp, s) && forall y | y in s :: y in all
    ensures Strict(cmp, Sort(cmp, s))
  {
    if s != [] {
      SortStrict(cmp, s[1..], all);
      SameElements(Sort(cmp, s[1..]), s[1..]);
      forall y | y in s[1..] ensures cmp(s[0], y) != 0 && cmp(y, s[0]) != 0 {}
      InsertStrict(cmp, s[0], Sort(cmp, s[1..]), all);
    }
  }

  lemma HeadLeast<T>(cmp: (T, T) -> int, a: seq<T>, x: T)
    requires Strict(cmp, a) && x in Elems(a)
    ensures a != [] && (x == a[0] || cmp(a[0], x) < 0)
  {}

  // Two strictly ascending listings of the same elements are equal.
  lemma {:induction false} StrictUnique<T>(cmp: (T, T) -> int, a: seq<T>, b: seq<T>)
    requires Strict(cmp, a) && Strict(cmp, b) && Elems(a) == Elems(b) && Distinct(a) && Distinct(b)
    requires forall x, y | x in a && y in a :: !(cmp(x, y) < 0 && cmp(y, x) < 0)
    ensures a == b
  {
    if a != [] {
      HeadLeast(cmp, b, a[0]);
      HeadLeast(cmp, a, b[0]);
      assert a[0] == b[0];
      TailElems(a);
      TailElems(b);
      StrictUnique(cmp, a[1..], b[1..]);
    } else if b != [] {
      HeadLeast(cmp, a, b[0]);
    }
  }

  lemma StrictDistinct<T>(cmp: (T, T) -> int, a: seq<T>)
    requires Strict(cmp, a) && forall x, y | x in a && y in a :: !(cmp(x, y) < 0 && cmp(y, x) < 0)
    ensures Distinct(a)
  {
    forall i, j | 0 <= i < j < |a| ensures a[i] != a[j] {
      assert cmp(a[i], a[j]) < 0;
    }
  }
}
