/**
 Paging over data that does not change: cursor pages are the offset pages of the sorted rows,
 previous undoes next, and the order the rows came in does not matter.
 */
module PaginationStatic {
  import opened Common
  import opened Sorting
  import opened Keyset
  import opened CursorWalks
  import opened Pagination
  import opened PaginationWalk

  // Every row of the view is found at its own place, going forward and going back.
  ghost predicate Indexed(q: Query, view: seq<Item>)
  {
    forall j :: 0 <= j < |view| ==>
      StartAfter(Comparator(q), view, Some(view[j])) == j + 1 && StartAt(Comparator(q), view, view[j]) == j
  }

  lemma ViewIndexed(q: Query, sc: Schema, data: seq<Item>)
    requires DataOk(q, sc, data)
    ensures Indexed(q, Sorted(q, data)) && |Sorted(q, data)| == |data|
  {
    var view := Sorted(q, data);
    SortedOk(q, sc, data);
    KeysetOrders(q, sc);
    forall j | 0 <= j < |view|
      ensures StartAfter(Comparator(q), view, Some(view[j])) == j + 1 && StartAt(Comparator(q), view, view[j]) == j
    {
      StartOfRow(Comparator(q), IsTyped(q, sc), view, j);
    }
  }

  // The answer when the page starts at the j-th row.
  function AnswerFrom(q: Query, view: seq<Item>, j: nat, limit: nat): Page
    requires j <= |view|
  {
    var end := Min(|view|, j + limit);
    Page(view[j..end],
         if end < |view| && end > j then Some(BuildCursor(q, view[end - 1])) else None,
         if 0 < j < end then Some(BuildCursor(q, view[j])) else None,
         end < |view|, j > 0)
  }

  // Where a page starts is all that matters, not which row its cursor was minted for.
  lemma AnswerIsFrom(q: Query, view: seq<Item>, last: Option<Item>, limit: nat)
    requires limit >= 1
    ensures Answer(q, view, last, limit) == AnswerFrom(q, view, StartAfter(Comparator(q), view, last), limit)
  {
    var j := StartAfter(Comparator(q), view, last);
    var end, rows := Min(|view|, j + limit), RowsAfter(Comparator(q), view, last, limit);
    assert rows == view[j..end] && (rows != [] <==> end > j);
    if end > j {
      assert rows[|rows| - 1] == view[end - 1] && rows[0] == view[j];
    }
  }

  // The row just before the j-th, if there is one.
  function RowBefore(view: seq<Item>, j: nat): Option<Item>
    requires j <= |view|
  {
    if j == 0 then None else Some(view[j - 1])
  }

  // What the requests of one client share: the sort, the sorted rows and the page size.
  ghost predicate Serves(p: Params, data: seq<Item>, q: Query, view: seq<Item>, limit: nat)
  {
    QueryOf(p) == q && CheckParams(p) == Ok(limit) && limit >= 1 && Sorted(q, data) == view && Indexed(q, view)
  }

  // The cursor for the page that starts at the j-th row.
  function CursorTo(q: Query, view: seq<Item>, j: nat): Option<Cursor>
    requires j <= |view|
  {
    if j == 0 then None else Some(BuildCursor(q, view[j - 1]))
  }

  lemma FetchFrom(p: Params, data: seq<Item>, cursor: Option<Cursor>, last: Option<Item>, j: nat)
    requires ParamsOk(p) && CursorAt(QueryOf(p), cursor, last)
    requires StartAfter(Comparator(QueryOf(p)), Sorted(QueryOf(p), data), last) == j
    ensures Fetch(p, data, cursor) == Ok(AnswerFrom(QueryOf(p), Sorted(QueryOf(p), data), j, CheckParams(p).value))
  {
    FetchIsAnswer(p, data, cursor, last);
    AnswerIsFrom(QueryOf(p), Sorted(QueryOf(p), data), last, CheckParams(p).value);
  }

  lemma StartOfPage(q: Query, view: seq<Item>, j: nat)
    requires Indexed(q, view) && j <= |view|
    ensures StartAfter(Comparator(q), view, RowBefore(view, j)) == j
    ensures CursorAt(q, CursorTo(q, view, j), RowBefore(view, j))
  {}

  // The server as one client sees it: an answer to every cursor.
  function Server(p: Params, data: seq<Item>): Option<Cursor> -> Result<Page, PageError>
  {
    cursor => Fetch(p, data, cursor)
  }

  // The answer to the k-th request of a client that follows nextCursor.
  function NthPage(server: Option<Cursor> -> Result<Page, PageError>, k: nat): Result<Page, PageError>
  {
    if k == 0 then server(None)
    else match NthPage(server, k - 1)
      case Err(e) => Err(e)
      case Ok(pg) => server(pg.next)
  }

  ghost predicate Answers(server: Option<Cursor> -> Result<Page, PageError>, q: Query, view: seq<Item>, limit: nat)
  {
    forall j {:trigger CursorTo(q, view, j)} :: 0 <= j <= |view| ==>
      server(CursorTo(q, view, j)) == Ok(AnswerFrom(q, view, j, limit))
  }

  lemma ServerAnswers(p: Params, data: seq<Item>, q: Query, view: seq<Item>, limit: nat)
    requires Serves(p, data, q, view, limit)
    ensures Answers(Server(p, data), q, view, limit)
  {
    forall j | 0 <= j <= |view| ensures Server(p, data)(CursorTo(q, view, j)) == Ok(AnswerFrom(q, view, j, limit)) {
      StartOfPage(q, view, j);
      FetchFrom(p, data, CursorTo(q, view, j), RowBefore(view, j), j);
    }
  }

  lemma {:induction false} NthPageFrom(
    server: Option<Cursor> -> Result<Page, PageError>, q: Query, view: seq<Item>, limit: nat, k: nat, j: nat)
    requires Answers(server, q, view, limit) && limit >= 1 && j == k * limit && (k == 0 || j < |view|)
    ensures NthPage(server, k) == Ok(AnswerFrom(q, view, if k == 0 then 0 else j, limit))
  {
    if k == 0 {
      assert CursorTo(q, view, 0) == None;
    } else {
      StepBack(k, limit, j);
      NthPageFrom(server, q, view, limit, k - 1, j - limit);
      assert CursorTo(q, view, j) == AnswerFrom(q, view, j - limit, limit).next;
    }
  }

  lemma StepBack(k: nat, limit: nat, j: nat)
    requires k > 0 && j == k * limit
    ensures j - limit >= 0 && j - limit == (k - 1) * limit
  {}

  lemma OffsetPage(view: seq<Item>, k: nat, limit: Param, maxLimit: Param, max: nat, perPage: nat)
    requires ParamOk(limit) && ResolveMaxLimit(maxLimit) == Ok(max)
             && ParsePageParams(Absent, limit, max) == Ok((1, perPage))
    ensures perPage >= 1 && k * perPage >= 0
    ensures var r := Paginate(view, Positive(k + 1), limit, maxLimit);
            r.Ok? && r.value.0 == Slice(view, k * perPage, k * perPage + perPage)
            && (r.value.1.hasNext <==> k + 1 < CeilDiv(|view|, perPage))
  {}

  // Page k + 1 by offset: the same rows, and a next page exactly while there is one by cursor.
  predicate SamePage(byCursor: Result<Page, PageError>, byOffset: Result<(seq<Item>, Meta), PageError>, more: bool)
  {
    && byCursor.Ok? && byOffset.Ok?
    && byCursor.value.rows == byOffset.value.0
    && byCursor.value.hasNext == byOffset.value.1.hasNext == more
  }

  // The k-th page reached by nextCursor is page k + 1 of the sorted rows by offset, both agree
  // on whether there is a next one, and the pages run out after ceil(n / limit) of them.
  lemma CursorPagesAreOffsetPages(p: Params, sc: Schema, data: seq<Item>, k: nat)
    requires ParamsOk(p) && ParamOk(p.limit) && DataOk(QueryOf(p), sc, data)
    requires k == 0 || k * CheckParams(p).value < |data|
    ensures SamePage(NthPage(Server(p, data), k),
                     Paginate(Sorted(QueryOf(p), data), Positive(k + 1), p.limit, p.maxLimit),
                     k + 1 < CeilDiv(|data|, CheckParams(p).value))
  {
    var q, limit := QueryOf(p), CheckParams(p).value;
    ViewIndexed(q, sc, data);
    ServerAnswers(p, data, q, Sorted(q, data), limit);
    OffsetAgrees(Server(p, data), q, Sorted(q, data), p.limit, p.maxLimit, ResolveMaxLimit(p.maxLimit).value, limit, k);
  }

  lemma OffsetAgrees(
    server: Option<Cursor> -> Result<Page, PageError>, q: Query, view: seq<Item>, limit: Param, maxLimit: Param,
    max: nat, perPage: nat, k: nat)
    requires Answers(server, q, view, perPage) && (k == 0 || k * perPage < |view|)
    requires ParamOk(limit) && ResolveMaxLimit(maxLimit) == Ok(max)
             && ParsePageParams(Absent, limit, max) == Ok((1, perPage))
    requires perPage >= 1
    ensures SamePage(NthPage(server, k), Paginate(view, Positive(k + 1), limit, maxLimit),
                     k + 1 < CeilDiv(|view|, perPage))
  {
    var j := k * perPage;
    NthPageFrom(server, q, view, perPage, k, j);
    OffsetPage(view, k, limit, maxLimit, max, perPage);
    PagesLeft(|view|, perPage, k);
    assert (k + 1) * perPage == j + perPage;
  }

  lemma PagesLeft(n: nat, limit: nat, k: nat)
    requires limit >= 1
    ensures (k + 1) * limit < n <==> k + 1 < CeilDiv(n, limit)
  {
    var t := CeilDiv(n, limit);
    assert limit * (t - 1) < n <= limit * t;
    if k + 1 < t {
      assert (k + 1) * limit <= (t - 1) * limit;
    } else {
      assert t * limit <= (k + 1) * limit;
    }
  }

  // The same server asked for the rows before a cursor.
  function BackServer(p: Params, data: seq<Item>): Option<Cursor> -> Result<Page, PageError>
  {
    cursor => FetchBefore(p, data, cursor)
  }

  // The page has a previous cursor if it is not empty and there are rows before it; paging back from
  // it gives these, and paging forward from there gives it again.
  ghost predicate Undone(
    server: Option<Cursor> -> Result<Page, PageError>, back: Option<Cursor> -> Result<Page, PageError>,
    answer: Result<Page, PageError>, rows: seq<Item>)
  {
    && answer.Ok?
    && var prev := answer.value.prev;
       && (prev.Some? <==> rows != [] && answer.value.rows != [])
       && (prev.Some? ==> back(prev).Ok? && back(prev).value.rows == rows && server(back(prev).value.next) == answer)
  }

  // Paging back from a page gives the rows just before it, and paging forward again gives the
  // page itself, whichever cursor the page was reached by.
  lemma PreviousUndoesNext(p: Params, sc: Schema, data: seq<Item>, cursor: Option<Cursor>, last: Option<Item>)
    requires ParamsOk(p) && DataOk(QueryOf(p), sc, data) && CursorAt(QueryOf(p), cursor, last)
    ensures var q, server := QueryOf(p), Server(p, data);
            Undone(server, BackServer(p, data), server(cursor),
              RowsBefore(q, Sorted(q, data), last, CheckParams(p).value))
  {
    ServerFrom(p, data, cursor, last);
    UndoneAnywhere(p, sc, data, StartAfter(Comparator(QueryOf(p)), Sorted(QueryOf(p), data), last));
    var q, limit := QueryOf(p), CheckParams(p).value;
    UndoneHere(Server(p, data), BackServer(p, data), q, Sorted(q, data), limit, cursor, last);
  }

  lemma UndoneHere(server: Option<Cursor> -> Result<Page, PageError>, back: Option<Cursor> -> Result<Page, PageError>,
                   q: Query, view: seq<Item>, limit: nat, cursor: Option<Cursor>, last: Option<Item>)
    requires var s := StartAfter(Comparator(q), view, last);
             && server(cursor) == Ok(AnswerFrom(q, view, s, limit))
             && Undone(server, back, Ok(AnswerFrom(q, view, s, limit)), view[Max(0, s - limit)..s])
    ensures Undone(server, back, server(cursor), RowsBefore(q, view, last, limit))
  {}

  // The rows a page back from the first one past `last`.
  function RowsBefore(q: Query, view: seq<Item>, last: Option<Item>, limit: nat): seq<Item>
  {
    var s := StartAfter(Comparator(q), view, last);
    view[Max(0, s - limit)..s]
  }

  lemma UndoneAnywhere(p: Params, sc: Schema, data: seq<Item>, s: nat)
    requires ParamsOk(p) && DataOk(QueryOf(p), sc, data) && s <= |Sorted(QueryOf(p), data)|
    ensures var q, view, limit := QueryOf(p), Sorted(QueryOf(p), data), CheckParams(p).value;
            Undone(Server(p, data), BackServer(p, data), Ok(AnswerFrom(q, view, s, limit)), view[Max(0, s - limit)..s])
  {
    ViewIndexed(QueryOf(p), sc, data);
    UndoneFrom(p, data, QueryOf(p), Sorted(QueryOf(p), data), CheckParams(p).value, s);
  }

  lemma ServerFrom(p: Params, data: seq<Item>, cursor: Option<Cursor>, last: Option<Item>)
    requires ParamsOk(p) && CursorAt(QueryOf(p), cursor, last)
    ensures var q, view := QueryOf(p), Sorted(QueryOf(p), data);
            Server(p, data)(cursor)
              == Ok(AnswerFrom(q, view, StartAfter(Comparator(q), view, last), CheckParams(p).value))
  {
    FetchFrom(p, data, cursor, last, StartAfter(Comparator(QueryOf(p)), Sorted(QueryOf(p), data), last));
  }

  lemma UndoneFrom(p: Params, data: seq<Item>, q: Query, view: seq<Item>, limit: nat, s: nat)
    requires Serves(p, data, q, view, limit) && s <= |view|
    ensures Undone(Server(p, data), BackServer(p, data), Ok(AnswerFrom(q, view, s, limit)), view[Max(0, s - limit)..s])
  {
    ServerAnswers(p, data, q, view, limit);
    if 0 < s < |view| {
      BackFrom(p, data, q, view, limit, s);
      BackAndForth(Server(p, data), BackServer(p, data), q, view, limit, s);
    } else {
      PrevOf(q, view, s, limit);
    }
  }

  // What the server answers to the previous cursor of the page that starts at the s-th row.
  ghost predicate BackAt(back: Option<Cursor> -> Result<Page, PageError>, q: Query, view: seq<Item>, limit: nat, s: nat)
    requires s < |view|
  {
    var b := back(Some(BuildCursor(q, view[s])));
    b.Ok? && b.value.rows == view[Max(0, s - limit)..s] && b.value.next == CursorTo(q, view, s)
  }

  lemma BackFrom(p: Params, data: seq<Item>, q: Query, view: seq<Item>, limit: nat, s: nat)
    requires Serves(p, data, q, view, limit) && 0 < s < |view|
    ensures BackAt(BackServer(p, data), q, view, limit, s)
  {
    FetchBeforeCuts(p, data, view[s]);
    BackwardPage(q, view, s, limit);
  }

  lemma BackAndForth(server: Option<Cursor> -> Result<Page, PageError>, back: Option<Cursor> -> Result<Page, PageError>,
                     q: Query, view: seq<Item>, limit: nat, s: nat)
    requires Answers(server, q, view, limit) && 0 < s < |view| && BackAt(back, q, view, limit, s) && limit >= 1
    ensures Undone(server, back, Ok(AnswerFrom(q, view, s, limit)), view[Max(0, s - limit)..s])
  {
    PrevOf(q, view, s, limit);
    assert server(CursorTo(q, view, s)) == Ok(AnswerFrom(q, view, s, limit));
  }

  lemma PrevOf(q: Query, view: seq<Item>, s: nat, limit: nat)
    requires s <= |view| && limit >= 1
    ensures AnswerFrom(q, view, s, limit).prev == if 0 < s < |view| then Some(BuildCursor(q, view[s])) else None
  {}

  lemma BackwardPage(q: Query, view: seq<Item>, s: nat, limit: nat)
    requires 0 < s < |view| && StartAt(Comparator(q), view, view[s]) == s && limit >= 1
    ensures var back := CutPage(q, view, Some(Anchor(q, view[s])), Backward, limit);
            back.rows == view[Max(0, s - limit)..s] && back.next == Some(BuildCursor(q, view[s - 1]))
  {
    BackwardBounds(q, view, s, limit);
    var start := Max(0, s - limit);
    assert view[start..s][s - start - 1] == view[s - 1];
  }

  lemma BackwardBounds(q: Query, view: seq<Item>, s: nat, limit: nat)
    requires s < |view| && StartAt(Comparator(q), view, view[s]) == s
    ensures Bounds(q, view, Some(Anchor(q, view[s])), Backward, limit) == (Max(0, s - limit), s)
  {
    CursorRoundTrip(q, view[s], "before");
  }

  // The order in which the source lists the rows never shows in an answer.
  lemma AnswersIgnoreInputOrder(p: Params, sc: Schema, a: seq<Item>, b: seq<Item>, dir: Direction)
    requires DataOk(QueryOf(p), sc, a) && DataOk(QueryOf(p), sc, b) && multiset(a) == multiset(b)
    ensures PaginateByCursor(a, p, dir) == PaginateByCursor(b, p, dir)
    ensures PaginateCursor(a, p) == PaginateCursor(b, p)
  {
    SortedIgnoresOrder(QueryOf(p), sc, a, b);
    SameSortSamePage(p, a, b, dir);
    SameSortSamePage(p, a, b, if p.before.Some? then Backward else Forward);
  }

  lemma SortedIgnoresOrder(q: Query, sc: Schema, a: seq<Item>, b: seq<Item>)
    requires DataOk(q, sc, a) && DataOk(q, sc, b) && multiset(a) == multiset(b)
    ensures Sorted(q, a) == Sorted(q, b)
  {
    SortedOk(q, sc, a);
    SortedOk(q, sc, b);
    SameElements(a, b);
    KeysetOrders(q, sc);
    ViewsEqual(Comparator(q), IsTyped(q, sc), Sorted(q, a), Sorted(q, b));
  }

  lemma SameSortSamePage(p: Params, a: seq<Item>, b: seq<Item>, dir: Direction)
    requires Sorted(QueryOf(p), a) == Sorted(QueryOf(p), b)
    ensures PaginateByCursor(a, p, dir) == PaginateByCursor(b, p, dir)
  {
    forall anchor, limit
      ensures PageOf(QueryOf(p), a, anchor, dir, limit) == PageOf(QueryOf(p), b, anchor, dir, limit)
    {
      OneSortOnePage(QueryOf(p), a, b, anchor, dir, limit);
    }
  }

  lemma OneSortOnePage(q: Query, a: seq<Item>, b: seq<Item>, anchor: Option<Item>, dir: Direction, limit: nat)
    requires Sorted(q, a) == Sorted(q, b)
    ensures PageOf(q, a, anchor, dir, limit) == PageOf(q, b, anchor, dir, limit)
  {}

  // ---- offset pages ----------------------------------------------------------------------

  // The rows of the first k offset pages, one after the other.
  function FirstPages<T>(data: seq<T>, limit: nat, k: nat): seq<T>
  {
    if k == 0 then [] else FirstPages(data, limit, k - 1) + Slice(data, (k - 1) * limit, (k - 1) * limit + limit)
  }

  lemma {:induction false} FirstPagesAre<T>(data: seq<T>, limit: nat, k: nat)
    requires limit >= 1
    ensures k * limit >= 0 && FirstPages(data, limit, k) == data[..Min(|data|, k * limit)]
  {
    if k > 0 {
      FirstPagesAre(data, limit, k - 1);
      var j := (k - 1) * limit;
      assert j >= 0 && k * limit == j + limit;
      if j < |data| {
        assert data[..j] + data[j..Min(|data|, j + limit)] == data[..Min(|data|, j + limit)];
      }
    }
  }

  // The pages 1 .. totalPages are the data, each row on exactly one page and in place.
  lemma OffsetPagesCoverTheData<T>(data: seq<T>, page: Param, limit: Param, maxLimit: Param)
    requires ParamOk(page) && ParamOk(limit) && Paginate(data, page, limit, maxLimit).Ok?
    ensures var meta := Paginate(data, page, limit, maxLimit).value.1;
            FirstPages(data, meta.limit, meta.totalPages) == data
  {
    var meta := Paginate(data, page, limit, maxLimit).value.1;
    MetaCountsPages(data, page, limit, maxLimit);
    AllPages(data, meta.limit);
  }

  lemma MetaCountsPages<T>(data: seq<T>, page: Param, limit: Param, maxLimit: Param)
    requires ParamOk(page) && ParamOk(limit) && Paginate(data, page, limit, maxLimit).Ok?
    ensures var meta := Paginate(data, page, limit, maxLimit).value.1;
            meta.limit >= 1 && meta.totalPages == CeilDiv(|data|, meta.limit)
  {
    assert BuildPaginationMeta(page, limit, |data|, maxLimit) == Ok(Paginate(data, page, limit, maxLimit).value.1);
  }

  lemma AllPages<T>(data: seq<T>, limit: nat)
    requires limit >= 1
    ensures CeilDiv(|data|, limit) >= 0 && FirstPages(data, limit, CeilDiv(|data|, limit)) == data
  {
    FirstPagesAre(data, limit, CeilDiv(|data|, limit));
    assert data[..|data|] == data;
  }
}
