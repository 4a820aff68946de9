/**
 Keyset paging backwards over any strict total order: a walk from page to page before a row, over
 changing data, neither repeats nor skips.
 */
module BackWalks {
  import opened Common
  import opened CursorWalks

  // The page just before `first`.
  function RowsUpTo<T>(cmp: (T, T) -> int, view: seq<T>, first: T, limit: nat): seq<T>
  {
    var end := StartAt(cmp, view, first);
    view[Max(0, end - limit)..end]
  }

  predicate MoreUpTo<T>(cmp: (T, T) -> int, view: seq<T>, first: T, limit: nat)
  {
    StartAt(cmp, view, first) > limit
  }

  // Each page ends before the first row of the one before; the i-th request finds views[i]. What is
  // served later is put in front.
  function BackWalk<T>(cmp: (T, T) -> int, limit: nat, views: seq<seq<T>>, first: T): seq<T>
    decreases |views|
  {
    if views == [] then []
    else
      var rows := RowsUpTo(cmp, views[0], first, limit);
      if MoreUpTo(cmp, views[0], first, limit) && rows != [] then
        BackWalk(cmp, limit, views[1..], rows[0]) + rows
      else rows
  }

  // The walk meets a page without a predecessor exactly at its last request.
  predicate BackEnds<T>(cmp: (T, T) -> int, limit: nat, views: seq<seq<T>>, first: T)
    decreases |views|
  {
    && views != []
    && var rows := RowsUpTo(cmp, views[0], first, limit);
       if MoreUpTo(cmp, views[0], first, limit) && rows != []
       then BackEnds(cmp, limit, views[1..], rows[0])
       else |views| == 1
  }

  // ---- one page --------------------------------------------------------------------------

  // The rows of a view before `first` are exactly those up to where it starts.
  lemma EndCuts<T(!new)>(cmp: (T, T) -> int, ok: T -> bool, view: seq<T>, first: T)
    requires Orders(cmp, ok) && ViewOk(cmp, ok, view) && ok(first)
    ensures forall i :: 0 <= i < |view| ==> (cmp(view[i], first) < 0 <==> i < StartAt(cmp, view, first))
  {
    var end := StartAt(cmp, view, first);
    forall i | end < i < |view| ensures cmp(view[i], first) >= 0 {
      assert cmp(view[end], view[i]) < 0;
      assert Leads(cmp, view[end], view[i], first);
    }
  }

  ghost predicate AllBefore<T>(cmp: (T, T) -> int, rows: seq<T>, first: T)
  {
    forall i :: 0 <= i < |rows| ==> cmp(rows[i], first) < 0
  }

  lemma BackRows<T(!new)>(cmp: (T, T) -> int, ok: T -> bool, view: seq<T>, first: T, limit: nat)
    requires Orders(cmp, ok) && ViewOk(cmp, ok, view) && ok(first)
    ensures var rows := RowsUpTo(cmp, view, first, limit);
            ViewOk(cmp, ok, rows) && AllBefore(cmp, rows, first) && (rows != [] ==> ok(rows[0]))
  {
    EndCuts(cmp, ok, view, first);
  }

  // What is before the page's first row comes in front of the page.
  lemma JoinBefore<T(!new)>(cmp: (T, T) -> int, ok: T -> bool, rest: seq<T>, rows: seq<T>, first: T)
    requires Orders(cmp, ok) && ok(first) && rows != [] && ViewOk(cmp, ok, rows) && ViewOk(cmp, ok, rest)
    requires AllBefore(cmp, rows, first) && AllBefore(cmp, rest, rows[0])
    ensures ViewOk(cmp, ok, rest + rows) && AllBefore(cmp, rest + rows, first)
  {
    forall i | 0 <= i < |rest| ensures cmp(rest[i], first) < 0 {
      assert Leads(cmp, rest[i], rows[0], first);
    }
    forall i, j | 0 <= i < |rest| && 0 <= j < |rows| ensures cmp(rest[i], rows[j]) < 0 {
      if j > 0 {
        assert cmp(rows[0], rows[j]) < 0 && Leads(cmp, rest[i], rows[0], rows[j]);
      }
    }
  }

  // Everything a walk serves lies before `first`, in strictly increasing order.
  lemma {:induction false} BackWalkOrdered<T(!new)>(
    cmp: (T, T) -> int, ok: T -> bool, limit: nat, views: seq<seq<T>>, first: T)
    requires Orders(cmp, ok) && AllOk(cmp, ok, views) && ok(first)
    ensures var served := BackWalk(cmp, limit, views, first);
            ViewOk(cmp, ok, served) && AllBefore(cmp, served, first)
    decreases |views|
  {
    if views != [] {
      BackRows(cmp, ok, views[0], first, limit);
      var rows := RowsUpTo(cmp, views[0], first, limit);
      if MoreUpTo(cmp, views[0], first, limit) && rows != [] {
        BackWalkOrdered(cmp, ok, limit, views[1..], rows[0]);
        JoinBefore(cmp, ok, BackWalk(cmp, limit, views[1..], rows[0]), rows, first);
      }
    }
  }

  lemma TieIsBefore<T(!new)>(cmp: (T, T) -> int, ok: T -> bool, x: T, r: T, first: T)
    requires Orders(cmp, ok) && ok(x) && ok(r) && ok(first) && cmp(x, r) == 0
    ensures cmp(x, first) < 0 <==> cmp(r, first) < 0
  {
    assert Flips(cmp, x, r) && Flips(cmp, r, x);
    assert Leads(cmp, x, r, first) && Leads(cmp, r, x, first);
  }

  // A row that is there now and before `first` is served now, or is still to come.
  lemma BackServes<T(!new)>(cmp: (T, T) -> int, ok: T -> bool, view: seq<T>, first: T, limit: nat, r: T)
    requires Orders(cmp, ok) && ViewOk(cmp, ok, view) && ok(first) && limit >= 1
    requires ok(r) && cmp(r, first) < 0 && Present(cmp, view, r)
    ensures var rows := RowsUpTo(cmp, view, first, limit);
            Present(cmp, rows, r)
            || (MoreUpTo(cmp, view, first, limit) && rows != [] && ok(rows[0]) && cmp(r, rows[0]) < 0)
  {
    var i :| 0 <= i < |view| && cmp(view[i], r) == 0;
    var end := StartAt(cmp, view, first);
    var start, rows := Max(0, end - limit), RowsUpTo(cmp, view, first, limit);
    TieIsBefore(cmp, ok, view[i], r, first);
    EndCuts(cmp, ok, view, first);
    if start <= i {
      assert rows[i - start] == view[i];
    } else {
      assert rows[0] == view[start] && cmp(view[i], view[start]) < 0;
      TieIsBefore(cmp, ok, view[i], r, rows[0]);
    }
  }

  // A row before `first` that is there at every request of a walk that ends is served.
  lemma {:induction false} BackWalkCovers<T(!new)>(
    cmp: (T, T) -> int, ok: T -> bool, limit: nat, views: seq<seq<T>>, first: T, r: T)
    requires Orders(cmp, ok) && AllOk(cmp, ok, views) && ok(first) && limit >= 1
    requires BackEnds(cmp, limit, views, first) && ok(r) && cmp(r, first) < 0 && AlwaysPresent(cmp, views, r)
    ensures Present(cmp, BackWalk(cmp, limit, views, first), r)
    decreases |views|
  {
    var rows := RowsUpTo(cmp, views[0], first, limit);
    BackServes(cmp, ok, views[0], first, limit, r);
    if MoreUpTo(cmp, views[0], first, limit) && rows != [] {
      BackRows(cmp, ok, views[0], first, limit);
      if !Present(cmp, rows, r) {
        BackWalkCovers(cmp, ok, limit, views[1..], rows[0], r);
      }
      PresentJoin(cmp, BackWalk(cmp, limit, views[1..], rows[0]), rows, r);
    }
  }

  // A completed walk serves a row before `first` that was always there exactly once.
  lemma BackServesOnce<T(!new)>(
    cmp: (T, T) -> int, ok: T -> bool, limit: nat, views: seq<seq<T>>, first: T, r: T)
    requires Orders(cmp, ok) && AllOk(cmp, ok, views) && ok(first) && limit >= 1
    requires BackEnds(cmp, limit, views, first) && ok(r) && cmp(r, first) < 0 && AlwaysPresent(cmp, views, r)
    ensures OnlyOnce(cmp, BackWalk(cmp, limit, views, first), r)
  {
    BackWalkCovers(cmp, ok, limit, views, first, r);
    BackWalkOrdered(cmp, ok, limit, views, first);
    OnceInView(cmp, ok, BackWalk(cmp, limit, views, first), r);
  }
}
