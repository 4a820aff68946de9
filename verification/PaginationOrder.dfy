/**
 What a request answers, in terms of the values themselves: which rows, in which order, and when a
 request is refused.
 */
module PaginationOrder {
  import opened Common
  import opened Keyset
  import opened CursorWalks
  import opened BackWalks
  import opened Pagination
  import opened PaginationWalk
  import opened PaginationBack

  // ---- the order of values ---------------------------------------------------------------

  // By code units: a text comes before those it is the start of, and otherwise the first unit in
  // which two differ decides.
  predicate DiffersAt(a: string, b: string, k: nat)
  {
    && k <= |a| && k < |b| && a[..k] == b[..k] && (k == |a| || a[k] < b[k])
  }

  predicate TextBefore(a: string, b: string)
  {
    exists k: nat | k < |b| :: DiffersAt(a, b, k)
  }

  lemma {:induction false} TextBeforeIs(a: string, b: string)
    ensures CompareText(a, b) < 0 <==> TextBefore(a, b)
  {
    forall k: nat | 0 < k < |b| && DiffersAt(a, b, k) ensures a != [] && a[0] == b[0] {
      assert a[..k][0] == b[..k][0];
    }
    if a != [] && b != [] && a[0] == b[0] {
      TextBeforeIs(a[1..], b[1..]);
      if TextBefore(a[1..], b[1..]) {
        var k: nat :| k < |b[1..]| && DiffersAt(a[1..], b[1..], k);
        assert a[..k + 1] == [a[0]] + a[1..][..k] && b[..k + 1] == [b[0]] + b[1..][..k];
        assert DiffersAt(a, b, k + 1);
      }
      if TextBefore(a, b) {
        var k: nat :| k < |b| && DiffersAt(a, b, k);
        assert k > 0;
        assert a[1..][..k - 1] == a[..k][1..] && b[1..][..k - 1] == b[..k][1..];
        assert DiffersAt(a[1..], b[1..], k - 1);
      }
    } else if b != [] && (a == [] || a[0] < b[0]) {
      assert DiffersAt(a, b, 0);
    }
  }

  // Numbers by size, dates by time, other texts by code units.
  predicate ValueBefore(v: Value, w: Value)
  {
    || (v.Number? && w.Number? && v.n < w.n)
    || (v.Text? && w.Text? && v.time.Some? && w.time.Some? && v.time.value < w.time.value)
    || (v.Text? && w.Text? && v.time.None? && w.time.None? && TextBefore(v.text, w.text))
  }

  // A value that is there comes before one that is missing, whichever way the sort goes.
  predicate FieldBefore(name: string, desc: bool, a: Item, b: Item)
  {
    var v, w := Field(a, name), Field(b, name);
    !v.Missing? && (w.Missing? || if desc then ValueBefore(w, v) else ValueBefore(v, w))
  }

  lemma FieldBeforeIs(k: Kind, name: string, desc: bool, a: Item, b: Item)
    requires OfKind(k, Field(a, name)) && OfKind(k, Field(b, name))
    ensures CompareField(name, desc, a, b) < 0 <==> FieldBefore(name, desc, a, b)
    ensures CompareField(name, desc, a, b) > 0 <==> FieldBefore(name, desc, b, a)
  {
    var v, w := AsString(Field(a, name)), AsString(Field(b, name));
    TextBeforeIs(v, w);
    TextBeforeIs(w, v);
    TextAntisymmetric(v, w);
  }

  // By the sort field, and among rows it does not tell apart by the id, in the same direction.
  predicate RowBefore(sortBy: string, desc: bool, idField: string, a: Item, b: Item)
  {
    || FieldBefore(sortBy, desc, a, b)
    || (!FieldBefore(sortBy, desc, b, a) && FieldBefore(idField, desc, a, b))
  }

  lemma RowBeforeIs(q: Query, sc: Schema, a: Item, b: Item)
    requires Typed(q, sc, a) && Typed(q, sc, b)
    ensures Compare(q, a, b) < 0 <==> RowBefore(q.sortBy, q.desc, q.idField, a, b)
  {
    FieldBeforeIs(sc.sortKind, q.sortBy, q.desc, a, b);
    FieldBeforeIs(sc.idKind, q.idField, q.desc, a, b);
  }

  // ---- what was asked for ----------------------------------------------------------------

  function SortField(p: Params): string
  {
    if p.sortBy.Some? && p.sortBy.value != "" then p.sortBy.value else p.idField
  }

  predicate Descending(p: Params)
  {
    p.sortOrder == Some("desc")
  }

  function PageSize(p: Params): nat
  {
    if p.limit.Positive? then p.limit.n else 20
  }

  function InOrder(p: Params): (Item, Item) -> bool
  {
    (a: Item, b: Item) => RowBefore(SortField(p), Descending(p), p.idField, a, b)
  }

  lemma InOrderIs(p: Params, sc: Schema, a: Item, b: Item)
    requires Typed(QueryOf(p), sc, a) && Typed(QueryOf(p), sc, b)
    ensures Comparator(QueryOf(p))(a, b) < 0 <==> InOrder(p)(a, b)
  {
    RowBeforeIs(QueryOf(p), sc, a, b);
  }

  lemma ViewInOrder(p: Params, sc: Schema, view: seq<Item>)
    requires ViewOk(Comparator(QueryOf(p)), IsTyped(QueryOf(p), sc), view)
    ensures Ordered(InOrder(p), view)
  {
    var q := QueryOf(p);
    KeysetOrders(q, sc);
    forall i, j | 0 <= i < |view| && 0 <= j < |view| ensures InOrder(p)(view[i], view[j]) <==> i < j {
      InOrderIs(p, sc, view[i], view[j]);
      assert Flips(Comparator(q), view[i], view[j]) && Flips(Comparator(q), view[j], view[i]);
      assert i < j ==> Comparator(q)(view[i], view[j]) < 0;
      assert j < i ==> Comparator(q)(view[j], view[i]) < 0;
    }
  }

  // ---- runs of rows ----------------------------------------------------------------------

  // Each element comes before the later ones, and before no other.
  ghost predicate Ordered<T>(before: (T, T) -> bool, view: seq<T>)
  {
    forall i, j :: 0 <= i < |view| && 0 <= j < |view| ==> (before(view[i], view[j]) <==> i < j)
  }

  // The rows of the data that qualify, in order: all of them, or the first `limit`.
  ghost predicate IsFirst<T(!new)>(
    before: (T, T) -> bool, qualifies: T -> bool, data: seq<T>, rows: seq<T>, limit: nat)
  {
    && |rows| <= limit && Ordered(before, rows)
    && (forall r | r in rows :: r in data && qualifies(r))
    && (forall x | x in data && x !in rows && qualifies(x) :: |rows| == limit && forall r | r in rows :: before(r, x))
  }

  // All of them, or the last `limit`.
  ghost predicate IsLast<T(!new)>(
    before: (T, T) -> bool, qualifies: T -> bool, data: seq<T>, rows: seq<T>, limit: nat)
  {
    && |rows| <= limit && Ordered(before, rows)
    && (forall r | r in rows :: r in data && qualifies(r))
    && (forall x | x in data && x !in rows && qualifies(x) :: |rows| == limit && forall r | r in rows :: before(x, r))
  }

  // Some row that qualifies is not among them.
  ghost predicate LeavesOut<T>(qualifies: T -> bool, data: seq<T>, rows: seq<T>)
  {
    exists x :: x in data && x !in rows && qualifies(x)
  }

  lemma InRun<T(!new)>(before: (T, T) -> bool, view: seq<T>, start: nat, end: nat, i: nat)
    requires Ordered(before, view) && start <= end <= |view| && i < |view|
    ensures view[i] in view[start..end] <==> start <= i < end
  {
    if view[i] in view[start..end] {
      var j :| 0 <= j < end - start && view[start..end][j] == view[i];
      assert before(view[i], view[start + j]) <==> i < start + j;
      assert before(view[start + j], view[i]) <==> start + j < i;
      assert before(view[i], view[i]) <==> i < i;
    }
    assert start <= i < end ==> view[start..end][i - start] == view[i];
  }

  lemma RunIsFirst<T(!new)>(
    before: (T, T) -> bool, qualifies: T -> bool, view: seq<T>, start: nat, end: nat, limit: nat)
    requires Ordered(before, view) && start <= end == Min(|view|, start + limit)
    requires forall i :: 0 <= i < |view| ==> (qualifies(view[i]) <==> start <= i)
    ensures IsFirst(before, qualifies, view, view[start..end], limit)
    ensures LeavesOut(qualifies, view, view[start..end]) <==> end < |view|
  {
    var rows := view[start..end];
    RunOrdered(before, view, start, end);
    forall r | r in rows ensures r in view && qualifies(r) {
      var i :| 0 <= i < |rows| && rows[i] == r;
      assert view[start + i] == r;
    }
    forall x | x in view && x !in rows && qualifies(x)
      ensures end < |view| && forall r | r in rows :: before(r, x)
    {
      var i :| 0 <= i < |view| && view[i] == x;
      InRun(before, view, start, end, i);
      forall r | r in rows ensures before(r, x) {
        var j :| 0 <= j < |rows| && rows[j] == r;
        assert view[start + j] == r;
      }
    }
    if end < |view| {
      InRun(before, view, start, end, end);
      assert view[end] in view;
    }
  }

  lemma RunOrdered<T(!new)>(before: (T, T) -> bool, view: seq<T>, start: nat, end: nat)
    requires Ordered(before, view) && start <= end <= |view|
    ensures Ordered(before, view[start..end])
  {}

  lemma RunIsLast<T(!new)>(
    before: (T, T) -> bool, qualifies: T -> bool, view: seq<T>, start: nat, end: nat, limit: nat)
    requires Ordered(before, view) && start == Max(0, end - limit) && end <= |view|
    requires forall i :: 0 <= i < |view| ==> (qualifies(view[i]) <==> i < end)
    ensures IsLast(before, qualifies, view, view[start..end], limit)
    ensures LeavesOut(qualifies, view, view[start..end]) <==> start > 0
  {
    var rows := view[start..end];
    RunOrdered(before, view, start, end);
    forall r | r in rows ensures r in view && qualifies(r) {
      var i :| 0 <= i < |rows| && rows[i] == r;
      assert view[start + i] == r;
    }
    forall x | x in view && x !in rows && qualifies(x)
      ensures start > 0 && forall r | r in rows :: before(x, r)
    {
      var i :| 0 <= i < |view| && view[i] == x;
      InRun(before, view, start, end, i);
      forall r | r in rows ensures before(x, r) {
        var j :| 0 <= j < |rows| && rows[j] == r;
        assert view[start + j] == r;
      }
    }
    if start > 0 {
      InRun(before, view, start, end, 0);
      assert view[0] in view;
    }
  }

  // ---- answers ---------------------------------------------------------------------------

  // Past the row a cursor was minted for, or any row without one.
  function Past(p: Params, last: Option<Item>): Item -> bool
  {
    (x: Item) => last.Some? ==> InOrder(p)(last.value, x)
  }

  function Ahead(p: Params, first: Item): Item -> bool
  {
    (x: Item) => InOrder(p)(x, first)
  }

  lemma PastFrom(p: Params, sc: Schema, view: seq<Item>, last: Option<Item>)
    requires ViewOk(Comparator(QueryOf(p)), IsTyped(QueryOf(p), sc), view)
    requires last.Some? ==> Typed(QueryOf(p), sc, last.value)
    ensures forall i :: 0 <= i < |view| ==>
              (Past(p, last)(view[i]) <==> StartAfter(Comparator(QueryOf(p)), view, last) <= i)
  {
    var q := QueryOf(p);
    KeysetOrders(q, sc);
    StartCuts(Comparator(q), IsTyped(q, sc), view, last);
    forall i | 0 <= i < |view|
      ensures Past(p, last)(view[i]) <==> StartAfter(Comparator(q), view, last) <= i
    {
      if last.Some? {
        InOrderIs(p, sc, last.value, view[i]);
        assert Flips(Comparator(q), last.value, view[i]);
      }
      assert After(Comparator(q), view[i], last) <==> StartAfter(Comparator(q), view, last) <= i;
    }
  }

  lemma AheadTo(p: Params, sc: Schema, view: seq<Item>, first: Item)
    requires ViewOk(Comparator(QueryOf(p)), IsTyped(QueryOf(p), sc), view) && Typed(QueryOf(p), sc, first)
    ensures forall i :: 0 <= i < |view| ==>
              (Ahead(p, first)(view[i]) <==> i < StartAt(Comparator(QueryOf(p)), view, first))
  {
    var q := QueryOf(p);
    KeysetOrders(q, sc);
    EndCuts(Comparator(q), IsTyped(q, sc), view, first);
    forall i | 0 <= i < |view| ensures Ahead(p, first)(view[i]) <==> i < StartAt(Comparator(q), view, first) {
      InOrderIs(p, sc, view[i], first);
    }
  }

  lemma SizeIs(p: Params)
    requires ParamsOk(p)
    ensures CheckParams(p).value == PageSize(p)
  {}

  // A request without a cursor, or with one minted for the row `last`, answers the first rows past
  // it in the order asked for, as many as the page holds, and says whether there are more.
  lemma AnswersInOrder(p: Params, sc: Schema, data: seq<Item>, cursor: Option<Cursor>, last: Option<Item>)
    requires ParamsOk(p) && DataOk(QueryOf(p), sc, data) && CursorAt(QueryOf(p), cursor, last)
    requires last.Some? ==> Typed(QueryOf(p), sc, last.value)
    ensures var answer := PaginateCursor(data, p.(cursor := cursor, before := None));
            && answer.Ok?
            && IsFirst(InOrder(p), Past(p, last), data, answer.value.rows, PageSize(p))
            && (answer.value.hasNext <==> LeavesOut(Past(p, last), data, answer.value.rows))
  {
    var view, limit := Sorted(QueryOf(p), data), CheckParams(p).value;
    FetchIsAnswer(p, data, cursor, last);
    SizeIs(p);
    SortedOk(QueryOf(p), sc, data);
    FirstOfView(p, sc, view, last, limit);
    SameData(InOrder(p), Past(p, last), view, data, RowsAfter(Comparator(QueryOf(p)), view, last, limit), limit);
  }

  lemma FirstOfView(p: Params, sc: Schema, view: seq<Item>, last: Option<Item>, limit: nat)
    requires ViewOk(Comparator(QueryOf(p)), IsTyped(QueryOf(p), sc), view)
    requires last.Some? ==> Typed(QueryOf(p), sc, last.value)
    ensures var rows := RowsAfter(Comparator(QueryOf(p)), view, last, limit);
            && IsFirst(InOrder(p), Past(p, last), view, rows, limit)
            && (MoreAfter(Comparator(QueryOf(p)), view, last, limit) <==> LeavesOut(Past(p, last), view, rows))
  {
    ViewInOrder(p, sc, view);
    PastFrom(p, sc, view, last);
    FirstOfRows(InOrder(p), Past(p, last), Comparator(QueryOf(p)), view, last, limit);
  }

  lemma FirstOfRows<T(!new)>(
    before: (T, T) -> bool, qualifies: T -> bool, cmp: (T, T) -> int, view: seq<T>, last: Option<T>, limit: nat)
    requires Ordered(before, view)
    requires forall i :: 0 <= i < |view| ==> (qualifies(view[i]) <==> StartAfter(cmp, view, last) <= i)
    ensures IsFirst(before, qualifies, view, RowsAfter(cmp, view, last, limit), limit)
    ensures MoreAfter(cmp, view, last, limit) <==> LeavesOut(qualifies, view, RowsAfter(cmp, view, last, limit))
  {
    var start := StartAfter(cmp, view, last);
    RunIsFirst(before, qualifies, view, start, Min(|view|, start + limit), limit);
  }

  lemma SameData<T(!new)>(
    before: (T, T) -> bool, qualifies: T -> bool, view: seq<T>, data: seq<T>, rows: seq<T>, limit: nat)
    requires Elems(view) == Elems(data)
    ensures IsFirst(before, qualifies, view, rows, limit) <==> IsFirst(before, qualifies, data, rows, limit)
    ensures IsLast(before, qualifies, view, rows, limit) <==> IsLast(before, qualifies, data, rows, limit)
    ensures LeavesOut(qualifies, view, rows) <==> LeavesOut(qualifies, data, rows)
  {
    forall x ensures x in view <==> x in data {
      assert x in Elems(view) <==> x in Elems(data);
    }
  }

  // A request with `before` minted for a row answers the last rows before it, in the same order.
  lemma AnswersBackInOrder(p: Params, sc: Schema, data: seq<Item>, first: Item)
    requires ParamsOk(p) && DataOk(QueryOf(p), sc, data) && Typed(QueryOf(p), sc, first)
    ensures var before := Some(BuildCursor(QueryOf(p), first));
            var answer := PaginateCursor(data, p.(cursor := None, before := before));
            && answer.Ok?
            && IsLast(InOrder(p), Ahead(p, first), data, answer.value.rows, PageSize(p))
            && (answer.value.prev.Some? <==>
                  answer.value.rows != [] && LeavesOut(Ahead(p, first), data, answer.value.rows))
  {
    var view, limit := Sorted(QueryOf(p), data), CheckParams(p).value;
    FetchBeforeAnswers(p, data, first);
    SizeIs(p);
    SortedOk(QueryOf(p), sc, data);
    LastOfView(p, sc, view, first, limit);
    SameData(InOrder(p), Ahead(p, first), view, data, RowsUpTo(Comparator(QueryOf(p)), view, first, limit), limit);
  }

  lemma LastOfView(p: Params, sc: Schema, view: seq<Item>, first: Item, limit: nat)
    requires ViewOk(Comparator(QueryOf(p)), IsTyped(QueryOf(p), sc), view) && Typed(QueryOf(p), sc, first)
    ensures var rows := RowsUpTo(Comparator(QueryOf(p)), view, first, limit);
            && IsLast(InOrder(p), Ahead(p, first), view, rows, limit)
            && (MoreUpTo(Comparator(QueryOf(p)), view, first, limit) <==> LeavesOut(Ahead(p, first), view, rows))
  {
    ViewInOrder(p, sc, view);
    AheadTo(p, sc, view, first);
    LastOfRows(InOrder(p), Ahead(p, first), Comparator(QueryOf(p)), view, first, limit);
  }

  lemma LastOfRows<T(!new)>(
    before: (T, T) -> bool, qualifies: T -> bool, cmp: (T, T) -> int, view: seq<T>, first: T, limit: nat)
    requires Ordered(before, view)
    requires forall i :: 0 <= i < |view| ==> (qualifies(view[i]) <==> i < StartAt(cmp, view, first))
    ensures IsLast(before, qualifies, view, RowsUpTo(cmp, view, first, limit), limit)
    ensures MoreUpTo(cmp, view, first, limit) <==> LeavesOut(qualifies, view, RowsUpTo(cmp, view, first, limit))
  {
    var end := StartAt(cmp, view, first);
    RunIsLast(before, qualifies, view, Max(0, end - limit), end, limit);
  }

  // ---- what is refused -------------------------------------------------------------------

  predicate Accepts(p: Params, cursor: Cursor)
  {
    && cursor.Payload? && cursor.v == 1 && cursor.k.Some? && cursor.id.Some?
    && cursor.f == SortField(p) && cursor.o == if Descending(p) then "desc" else "asc"
  }

  predicate LimitOk(limit: Param, maxLimit: Param)
  {
    && !maxLimit.NotPositive? && !limit.NotPositive?
    && (limit.Positive? ==> limit.n <= if maxLimit.Positive? then maxLimit.n else 100)
  }

  predicate SortOk(p: Params)
  {
    && (p.sortOrder.Some? ==> p.sortOrder.value == "asc" || p.sortOrder.value == "desc")
    && (p.sortBy.Some? && p.sortBy.value != "" && p.sortableFields.Some? ==> p.sortBy.value in p.sortableFields.value)
  }

  lemma ChecksAre(p: Params)
    ensures CheckParams(p).Ok? <==> SortOk(p) && LimitOk(p.limit, p.maxLimit)
  {}

  lemma AcceptsIs(p: Params, cursor: Cursor, parameter: string)
    ensures ParseCursor(QueryOf(p), cursor, parameter).Ok? <==> Accepts(p, cursor)
  {}

  // A request is refused exactly if it has both cursors, a direction that is neither, a sort field
  // that is not allowed, a limit that is no positive number or beyond the maximum, or a cursor that
  // was not issued for this sort.
  lemma RefusedIff(data: seq<Item>, p: Params)
    ensures PaginateCursor(data, p).Err? <==>
              || (p.cursor.Some? && p.before.Some?)
              || !SortOk(p) || !LimitOk(p.limit, p.maxLimit)
              || (p.cursor.Some? && !Accepts(p, p.cursor.value))
              || (p.before.Some? && !Accepts(p, p.before.value))
  {
    ChecksAre(p);
    var raw, parameter := if p.before.Some? then p.before else p.cursor, if p.before.Some? then "before" else "cursor";
    if raw.Some? {
      AcceptsIs(p, raw.value, parameter);
    }
    if !(p.cursor.Some? && p.before.Some?) {
      RefusedOneWay(data, p, raw, parameter);
    }
  }

  lemma RefusedOneWay(data: seq<Item>, p: Params, raw: Option<Cursor>, parameter: string)
    requires p.cursor.None? || p.before.None?
    requires raw == (if p.before.Some? then p.before else p.cursor)
    requires parameter == if p.before.Some? then "before" else "cursor"
    ensures PaginateCursor(data, p).Err? <==>
              CheckParams(p).Err? || (raw.Some? && ParseCursor(QueryOf(p), raw.value, parameter).Err?)
  {}

  // ---- pages by number -------------------------------------------------------------------

  function PageNumber(page: Param): nat
  {
    if page.Positive? then page.n else 1
  }

  function Size(limit: Param): nat
  {
    if limit.Positive? then limit.n else 20
  }

  // The rows from (page - 1) * limit on, and what is said about the whole.
  predicate IsOffsetPage<T(==)>(data: seq<T>, number: nat, size: nat, rows: seq<T>, meta: Meta)
    requires number >= 1
  {
    var from := (number - 1) * size;
    && |rows| == Max(0, Min(size, |data| - from))
    && (forall i :: 0 <= i < |rows| ==> from + i < |data| && rows[i] == data[from + i])
    && meta.page == number && meta.limit == size && meta.total == |data|
    && (meta.totalPages - 1) * size < |data| <= meta.totalPages * size
    && (meta.hasNext <==> number * size < |data|) && (meta.hasPrev <==> number > 1)
  }

  lemma OffsetPageIs<T>(data: seq<T>, page: Param, limit: Param, maxLimit: Param)
    requires ParamOk(page) && ParamOk(limit)
    ensures Paginate(data, page, limit, maxLimit).Err? <==> page.NotPositive? || !LimitOk(limit, maxLimit)
    ensures Paginate(data, page, limit, maxLimit).Ok? ==>
              var (rows, meta) := Paginate(data, page, limit, maxLimit).value;
              PageNumber(page) >= 1 && IsOffsetPage(data, PageNumber(page), Size(limit), rows, meta)
  {
    var number, size := PageNumber(page), Size(limit);
    var from := (number - 1) * size;
    PaginateParts(data, page, limit, maxLimit, number, size, from);
    if Paginate(data, page, limit, maxLimit).Ok? {
      var (rows, meta) := Paginate(data, page, limit, maxLimit).value;
      PartsArePage(data, number, size, from, rows, meta);
    }
  }

  lemma PartsArePage<T>(data: seq<T>, number: nat, size: nat, from: int, rows: seq<T>, meta: Meta)
    requires number >= 1 && size >= 1 && from >= 0 && from == (number - 1) * size
    requires var total := CeilDiv(|data|, size);
             && rows == Slice(data, from, from + size)
             && meta == Meta(number, size, |data|, total, number < total, number > 1)
    ensures IsOffsetPage(data, number, size, rows, meta)
  {
    SliceIs(data, from, size);
    PagesIs(|data|, size, number);
  }

  lemma ParsedAre(page: Param, limit: Param, maxLimit: Param)
    requires ParamOk(page) && ParamOk(limit)
    ensures ResolveMaxLimit(maxLimit).Err? <==> maxLimit.NotPositive?
    ensures !maxLimit.NotPositive? ==>
              var parsed := ParsePageParams(page, limit, ResolveMaxLimit(maxLimit).value);
              && (parsed.Err? <==> page.NotPositive? || !LimitOk(limit, maxLimit))
              && (parsed.Ok? ==> parsed.value == (PageNumber(page), Size(limit)))
  {}

  lemma MetaIs(page: Param, limit: Param, maxLimit: Param, total: nat)
    requires ParamOk(page) && ParamOk(limit) && !page.NotPositive? && LimitOk(limit, maxLimit)
    ensures Size(limit) >= 1
    ensures var number, size := PageNumber(page), Size(limit);
            var pages := CeilDiv(total, size);
            BuildPaginationMeta(page, limit, total, maxLimit)
            == Ok(Meta(number, size, total, pages, number < pages, number > 1))
  {
    ParsedAre(page, limit, maxLimit);
  }

  lemma PaginateParts<T>(
    data: seq<T>, page: Param, limit: Param, maxLimit: Param, number: nat, size: nat, from: int)
    requires ParamOk(page) && ParamOk(limit)
    requires number == PageNumber(page) && size == Size(limit) && from == (number - 1) * size
    ensures number >= 1 && size >= 1 && from >= 0
    ensures Paginate(data, page, limit, maxLimit).Err? <==> page.NotPositive? || !LimitOk(limit, maxLimit)
    ensures Paginate(data, page, limit, maxLimit).Ok? ==>
              var (rows, meta) := Paginate(data, page, limit, maxLimit).value;
              var total := CeilDiv(|data|, size);
              rows == Slice(data, from, from + size)
              && meta == Meta(number, size, |data|, total, number < total, number > 1)
  {
    ParsedAre(page, limit, maxLimit);
    FromIs(number, size, from);
    if !page.NotPositive? && LimitOk(limit, maxLimit) {
      MetaIs(page, limit, maxLimit, |data|);
    }
  }

  lemma FromIs(number: nat, size: nat, from: int)
    requires number >= 1 && from == (number - 1) * size
    ensures from >= 0
  {}

  lemma SliceIs<T>(s: seq<T>, from: nat, size: nat)
    ensures var rows := Slice(s, from, from + size);
            && |rows| == Max(0, Min(size, |s| - from))
            && forall i :: 0 <= i < |rows| ==> from + i < |s| && rows[i] == s[from + i]
  {}

  lemma PagesIs(n: nat, size: nat, number: nat)
    requires size >= 1
    ensures (CeilDiv(n, size) - 1) * size < n <= CeilDiv(n, size) * size
    ensures number < CeilDiv(n, size) <==> number * size < n
  {
    var t := CeilDiv(n, size);
    assert size * (t - 1) < n <= size * t;
    if number < t {
      assert number * size <= (t - 1) * size;
    } else {
      assert t * size <= number * size;
    }
  }
}
