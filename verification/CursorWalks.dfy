/**
 Keyset paging over any strict total order: the page past a row is a run of the sorted rows, and
 a walk from page to page over changing data neither repeats nor skips.
 */
module CursorWalks {
  import opened Common
  import opened Sorting

  predicate Flips<T>(cmp: (T, T) -> int, a: T, b: T)
  {
    cmp(a, b) < 0 <==> cmp(b, a) > 0
  }

  predicate Leads<T>(cmp: (T, T) -> int, a: T, b: T, c: T)
  {
    cmp(a, b) <= 0 && cmp(b, c) <= 0 ==> cmp(a, c) <= 0 && (cmp(a, b) < 0 || cmp(b, c) < 0 ==> cmp(a, c) < 0)
  }

  // On the rows that satisfy ok, cmp is a total preorder given by its sign.
  ghost predicate Orders<T(!new)>(cmp: (T, T) -> int, ok: T -> bool)
  {
    && (forall a, b {:trigger Flips(cmp, a, b)} :: ok(a) && ok(b) ==> Flips(cmp, a, b))
    && (forall a, b, c {:trigger Leads(cmp, a, b, c)} :: ok(a) && ok(b) && ok(c) ==> Leads(cmp, a, b, c))
  }

  ghost predicate All<T>(ok: T -> bool, s: seq<T>)
  {
    forall i :: 0 <= i < |s| ==> ok(s[i])
  }

  // A data set as a request finds it, sorted and without ties.
  ghost predicate ViewOk<T>(cmp: (T, T) -> int, ok: T -> bool, view: seq<T>)
  {
    All(ok, view) && Strict(cmp, view)
  }

  function FindIndex<T>(p: T -> bool, s: seq<T>): (i: int)
    ensures -1 <= i < |s|
    ensures i >= 0 ==> p(s[i]) && forall k :: 0 <= k < i ==> !p(s[k])
    ensures i == -1 ==> forall k :: 0 <= k < |s| ==> !p(s[k])
  {
    if s == [] then -1
    else if p(s[0]) then 0
    else
      var i := FindIndex(p, s[1..]);
      assert forall k :: 0 < k < |s| ==> s[k] == s[1..][k - 1];
      if i == -1 then -1 else i + 1
  }

  predicate After<T>(cmp: (T, T) -> int, x: T, last: Option<T>)
  {
    last.Some? ==> cmp(x, last.value) > 0
  }

  // The first row past `last`.
  function StartAfter<T>(cmp: (T, T) -> int, sorted: seq<T>, last: Option<T>): (start: nat)
    ensures start <= |sorted|
  {
    if last.None? then 0
    else
      var i := FindIndex(x => cmp(x, last.value) > 0, sorted);
      if i == -1 then |sorted| else i
  }

  // The first row at or past `last`.
  function StartAt<T>(cmp: (T, T) -> int, sorted: seq<T>, last: T): (start: nat)
    ensures start <= |sorted|
  {
    var i := FindIndex(x => cmp(x, last) >= 0, sorted);
    if i == -1 then |sorted| else i
  }

  function RowsAfter<T>(cmp: (T, T) -> int, view: seq<T>, last: Option<T>, limit: nat): seq<T>
  {
    var start := StartAfter(cmp, view, last);
    view[start..Min(|view|, start + limit)]
  }

  predicate MoreAfter<T>(cmp: (T, T) -> int, view: seq<T>, last: Option<T>, limit: nat)
  {
    StartAfter(cmp, view, last) + limit < |view|
  }

  // Each page starts after the last row of the one before; the i-th request finds views[i].
  function Walk<T>(cmp: (T, T) -> int, limit: nat, views: seq<seq<T>>, last: Option<T>): seq<T>
    decreases |views|
  {
    if views == [] then []
    else
      var rows := RowsAfter(cmp, views[0], last, limit);
      if MoreAfter(cmp, views[0], last, limit) && rows != [] then
        rows + Walk(cmp, limit, views[1..], Some(rows[|rows| - 1]))
      else rows
  }

  // The walk meets a page without a successor exactly at its last request.
  predicate WalkEnds<T>(cmp: (T, T) -> int, limit: nat, views: seq<seq<T>>, last: Option<T>)
    decreases |views|
  {
    && views != []
    && var rows := RowsAfter(cmp, views[0], last, limit);
       if MoreAfter(cmp, views[0], last, limit) && rows != []
       then WalkEnds(cmp, limit, views[1..], Some(rows[|rows| - 1]))
       else |views| == 1
  }

  // ---- one page --------------------------------------------------------------------------

  // Sorting any rows without ties gives such a view.
  lemma SortedView<T(!new)>(cmp: (T, T) -> int, ok: T -> bool, data: seq<T>)
    requires Orders(cmp, ok) && All(ok, data) && NoTies(cmp, data)
    ensures ViewOk(cmp, ok, Sort(cmp, data)) && Elems(Sort(cmp, data)) == Elems(data)
  {
    forall x | x in data ensures ok(x) {}
    forall a, b | a in data && b in data ensures cmp(a, b) <= 0 || cmp(b, a) <= 0 {
      assert Flips(cmp, b, a);
    }
    forall a, b, c | a in data && b in data && c in data && cmp(a, b) <= 0 && cmp(b, c) <= 0 ensures cmp(a, c) <= 0 {
      assert Leads(cmp, a, b, c);
    }
    SortStrict(cmp, data, data);
    SameElements(Sort(cmp, data), data);
  }

  // The rows of a view past `last` are exactly those from its start on.
  lemma StartCuts<T(!new)>(cmp: (T, T) -> int, ok: T -> bool, view: seq<T>, last: Option<T>)
    requires Orders(cmp, ok) && ViewOk(cmp, ok, view) && (last.Some? ==> ok(last.value))
    ensures forall i :: 0 <= i < |view| ==> (After(cmp, view[i], last) <==> StartAfter(cmp, view, last) <= i)
  {
    var start := StartAfter(cmp, view, last);
    if last.Some? {
      forall i | start < i < |view| ensures cmp(view[i], last.value) > 0 {
        assert cmp(view[start], view[i]) < 0;
        assert Flips(cmp, last.value, view[start]) && Flips(cmp, last.value, view[i]);
        assert Leads(cmp, last.value, view[start], view[i]);
      }
    }
  }

  lemma PageRows<T(!new)>(cmp: (T, T) -> int, ok: T -> bool, view: seq<T>, last: Option<T>, limit: nat)
    requires Orders(cmp, ok) && ViewOk(cmp, ok, view) && (last.Some? ==> ok(last.value))
    ensures var rows := RowsAfter(cmp, view, last, limit);
            ViewOk(cmp, ok, rows) && (forall i :: 0 <= i < |rows| ==> After(cmp, rows[i], last))
  {
    StartCuts(cmp, ok, view, last);
  }

  // A row past `last` is on the page, or past the page.
  lemma PageCovers<T(!new)>(cmp: (T, T) -> int, ok: T -> bool, view: seq<T>, last: Option<T>, limit: nat, i: nat)
    requires Orders(cmp, ok) && ViewOk(cmp, ok, view) && (last.Some? ==> ok(last.value)) && limit >= 1
    requires i < |view| && After(cmp, view[i], last)
    ensures var rows := RowsAfter(cmp, view, last, limit);
            || view[i] in rows
            || (MoreAfter(cmp, view, last, limit) && rows != [] && After(cmp, view[i], Some(rows[|rows| - 1])))
  {
    StartCuts(cmp, ok, view, last);
    var start := StartAfter(cmp, view, last);
    var end := Min(|view|, start + limit);
    var rows := view[start..end];
    if i < end {
      assert rows[i - start] == view[i];
    } else {
      assert rows[|rows| - 1] == view[end - 1];
      assert Flips(cmp, view[end - 1], view[i]);
    }
  }

  // ---- the walk --------------------------------------------------------------------------

  ghost predicate AllOk<T>(cmp: (T, T) -> int, ok: T -> bool, views: seq<seq<T>>)
  {
    views == [] || (ViewOk(cmp, ok, views[0]) && AllOk(cmp, ok, views[1..]))
  }

  lemma JoinIncreases<T(!new)>(cmp: (T, T) -> int, ok: T -> bool, rows: seq<T>, rest: seq<T>, last: Option<T>)
    requires Orders(cmp, ok) && (last.Some? ==> ok(last.value))
    requires rows != [] && ViewOk(cmp, ok, rows) && ViewOk(cmp, ok, rest)
    requires forall i :: 0 <= i < |rows| ==> After(cmp, rows[i], last)
    requires forall i :: 0 <= i < |rest| ==> After(cmp, rest[i], Some(rows[|rows| - 1]))
    ensures ViewOk(cmp, ok, rows + rest)
    ensures forall i :: 0 <= i < |rows + rest| ==> After(cmp, (rows + rest)[i], last)
  {
    var tail := rows[|rows| - 1];
    forall j | 0 <= j < |rest| ensures After(cmp, rest[j], last) {
      assert After(cmp, tail, last);
      assert Flips(cmp, tail, rest[j]);
      if last.Some? {
        assert Flips(cmp, last.value, tail) && Flips(cmp, last.value, rest[j]) && Leads(cmp, last.value, tail, rest[j]);
      }
    }
    forall i, j | 0 <= i < |rows| && 0 <= j < |rest| ensures cmp(rows[i], rest[j]) < 0 {
      assert Flips(cmp, tail, rest[j]) && Leads(cmp, rows[i], tail, rest[j]);
      if i < |rows| - 1 { assert cmp(rows[i], tail) < 0; }
    }
  }

  // Everything a walk serves lies past `last`, in strictly increasing order.
  lemma {:induction false} WalkIncreases<T(!new)>(
    cmp: (T, T) -> int, ok: T -> bool, limit: nat, views: seq<seq<T>>, last: Option<T>)
    requires Orders(cmp, ok) && AllOk(cmp, ok, views) && (last.Some? ==> ok(last.value))
    ensures var served := Walk(cmp, limit, views, last);
            ViewOk(cmp, ok, served) && forall i :: 0 <= i < |served| ==> After(cmp, served[i], last)
    decreases |views|
  {
    if views != [] {
      PageRows(cmp, ok, views[0], last, limit);
      var rows := RowsAfter(cmp, views[0], last, limit);
      if MoreAfter(cmp, views[0], last, limit) && rows != [] {
        var tail := rows[|rows| - 1];
        WalkIncreases(cmp, ok, limit, views[1..], Some(tail));
        JoinIncreases(cmp, ok, rows, Walk(cmp, limit, views[1..], Some(tail)), last);
      }
    }
  }

  // Some row stands where r does in the order.
  ghost predicate Present<T>(cmp: (T, T) -> int, data: seq<T>, r: T)
  {
    exists i :: 0 <= i < |data| && cmp(data[i], r) == 0
  }

  ghost predicate AlwaysPresent<T>(cmp: (T, T) -> int, views: seq<seq<T>>, r: T)
  {
    views == [] || (Present(cmp, views[0], r) && AlwaysPresent(cmp, views[1..], r))
  }

  lemma TieIsAfter<T(!new)>(cmp: (T, T) -> int, ok: T -> bool, x: T, r: T, last: T)
    requires Orders(cmp, ok) && ok(x) && ok(r) && ok(last) && cmp(x, r) == 0
    ensures cmp(x, last) > 0 <==> cmp(r, last) > 0
  {
    assert Flips(cmp, x, r) && Flips(cmp, r, x) && Flips(cmp, last, x) && Flips(cmp, last, r);
    assert Leads(cmp, last, x, r) && Leads(cmp, last, r, x);
  }

  // A row that is there now and past `last` is served now, or is still to come.
  lemma PageServes<T(!new)>(cmp: (T, T) -> int, ok: T -> bool, view: seq<T>, last: Option<T>, limit: nat, r: T)
    requires Orders(cmp, ok) && ViewOk(cmp, ok, view) && (last.Some? ==> ok(last.value)) && limit >= 1
    requires ok(r) && After(cmp, r, last) && Present(cmp, view, r)
    ensures var rows := RowsAfter(cmp, view, last, limit);
            Present(cmp, rows, r)
            || (MoreAfter(cmp, view, last, limit) && rows != [] && ok(rows[|rows| - 1])
                && After(cmp, r, Some(rows[|rows| - 1])))
    ensures var rows := RowsAfter(cmp, view, last, limit); rows != [] ==> ok(rows[|rows| - 1])
  {
    var i :| 0 <= i < |view| && cmp(view[i], r) == 0;
    var rows := RowsAfter(cmp, view, last, limit);
    if last.Some? { TieIsAfter(cmp, ok, view[i], r, last.value); }
    PageRows(cmp, ok, view, last, limit);
    PageCovers(cmp, ok, view, last, limit, i);
    if view[i] !in rows {
      TieIsAfter(cmp, ok, view[i], r, rows[|rows| - 1]);
    }
  }

  // A row past `last` that is there at every request of a walk that ends is served.
  lemma {:induction false} WalkCovers<T(!new)>(
    cmp: (T, T) -> int, ok: T -> bool, limit: nat, views: seq<seq<T>>, last: Option<T>, r: T)
    requires Orders(cmp, ok) && AllOk(cmp, ok, views) && (last.Some? ==> ok(last.value)) && limit >= 1
    requires WalkEnds(cmp, limit, views, last) && ok(r) && After(cmp, r, last) && AlwaysPresent(cmp, views, r)
    ensures Present(cmp, Walk(cmp, limit, views, last), r)
    decreases |views|
  {
    var rows := RowsAfter(cmp, views[0], last, limit);
    PageServes(cmp, ok, views[0], last, limit, r);
    if MoreAfter(cmp, views[0], last, limit) && rows != [] {
      var tail := rows[|rows| - 1];
      if !Present(cmp, rows, r) {
        WalkCovers(cmp, ok, limit, views[1..], Some(tail), r);
      }
      PresentJoin(cmp, rows, Walk(cmp, limit, views[1..], Some(tail)), r);
    }
  }

  lemma PresentJoin<T>(cmp: (T, T) -> int, a: seq<T>, b: seq<T>, r: T)
    requires Present(cmp, a, r) || Present(cmp, b, r)
    ensures Present(cmp, a + b, r)
  {
    if Present(cmp, a, r) {
      var i :| 0 <= i < |a| && cmp(a[i], r) == 0;
      assert (a + b)[i] == a[i];
    } else {
      var i :| 0 <= i < |b| && cmp(b[i], r) == 0;
      assert (a + b)[|a| + i] == b[i];
    }
  }

  // Exactly one row stands where r does in the order.
  ghost predicate OnlyOnce<T>(cmp: (T, T) -> int, served: seq<T>, r: T)
  {
    exists i :: 0 <= i < |served| && cmp(served[i], r) == 0
      && forall j :: 0 <= j < |served| && cmp(served[j], r) == 0 ==> j == i
  }

  // A completed walk serves a row that was always there exactly once.
  lemma WalkServesOnce<T(!new)>(cmp: (T, T) -> int, ok: T -> bool, limit: nat, views: seq<seq<T>>, r: T)
    requires Orders(cmp, ok) && AllOk(cmp, ok, views) && limit >= 1
    requires WalkEnds(cmp, limit, views, None) && ok(r) && AlwaysPresent(cmp, views, r)
    ensures OnlyOnce(cmp, Walk(cmp, limit, views, None), r)
  {
    WalkCovers(cmp, ok, limit, views, None, r);
    WalkIncreases(cmp, ok, limit, views, None);
    OnceInView(cmp, ok, Walk(cmp, limit, views, None), r);
  }

  lemma OnceInView<T(!new)>(cmp: (T, T) -> int, ok: T -> bool, view: seq<T>, r: T)
    requires Orders(cmp, ok) && ViewOk(cmp, ok, view) && ok(r) && Present(cmp, view, r)
    ensures OnlyOnce(cmp, view, r)
  {
    var i :| 0 <= i < |view| && cmp(view[i], r) == 0;
    forall j | 0 <= j < |view| && cmp(view[j], r) == 0 ensures j == i {
      assert Flips(cmp, r, view[i]) && Flips(cmp, view[i], r) && Flips(cmp, r, view[j]) && Flips(cmp, view[j], r);
      assert Leads(cmp, view[i], r, view[j]) && Leads(cmp, view[j], r, view[i]);
      assert Flips(cmp, view[i], view[j]) && Flips(cmp, view[j], view[i]);
    }
  }

  // ---- data that does not change ---------------------------------------------------------

  // The page after the j-th sorted row starts at the next one, and the rows before it end there.
  lemma StartOfRow<T(!new)>(cmp: (T, T) -> int, ok: T -> bool, sorted: seq<T>, j: nat)
    requires Orders(cmp, ok) && ViewOk(cmp, ok, sorted) && j < |sorted|
    ensures StartAfter(cmp, sorted, Some(sorted[j])) == j + 1
    ensures StartAt(cmp, sorted, sorted[j]) == j
  {
    assert Flips(cmp, sorted[j], sorted[j]);
    StartCuts(cmp, ok, sorted, Some(sorted[j]));
    forall i | 0 <= i < |sorted| ensures After(cmp, sorted[i], Some(sorted[j])) <==> i > j {
      assert Flips(cmp, sorted[j], sorted[i]);
    }
    if j + 1 < |sorted| {
      assert After(cmp, sorted[j + 1], Some(sorted[j]));
    }
    assert !After(cmp, sorted[j], Some(sorted[j]));
  }

  // Two views of the same rows are equal, whatever order the rows came in.
  lemma ViewsEqual<T(!new)>(cmp: (T, T) -> int, ok: T -> bool, p: seq<T>, q: seq<T>)
    requires Orders(cmp, ok) && ViewOk(cmp, ok, p) && ViewOk(cmp, ok, q) && Elems(p) == Elems(q)
    ensures p == q
  {
    forall x, y | x in p && y in p ensures !(cmp(x, y) < 0 && cmp(y, x) < 0) { assert Flips(cmp, x, y); }
    forall x, y | x in q && y in q ensures !(cmp(x, y) < 0 && cmp(y, x) < 0) { assert Flips(cmp, x, y); }
    StrictDistinct(cmp, p);
    StrictDistinct(cmp, q);
    StrictUnique(cmp, p, q);
  }
}
