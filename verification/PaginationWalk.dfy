/**
 What paging promises a client. Over data that changes between requests, following nextCursor
 repeats nothing and skips nothing that stayed; over data that does not change, the pages are
 the offset pages of the sorted rows, and previous undoes next.
 */
module PaginationWalk {
  import opened Common
  import opened Sorting
  import opened Keyset
  import opened CursorWalks
  import opened Pagination

  function IsTyped(q: Query, sc: Schema): Item -> bool
  {
    item => Typed(q, sc, item)
  }

  // Rows of one type per column, no two with the same id.
  ghost predicate DataOk(q: Query, sc: Schema, data: seq<Item>)
  {
    All(IsTyped(q, sc), data) && UniqueIds(q, data)
  }

  lemma KeysetOrders(q: Query, sc: Schema)
    ensures Orders(Comparator(q), IsTyped(q, sc))
  {
    var cmp, ok := Comparator(q), IsTyped(q, sc);
    forall a, b | ok(a) && ok(b) ensures Flips(cmp, a, b) {
      Antisymmetric(q, sc, a, b);
    }
    forall a, b, c | ok(a) && ok(b) && ok(c) ensures Leads(cmp, a, b, c) {
      if cmp(a, b) <= 0 && cmp(b, c) <= 0 {
        Transitive(q, sc, a, b, c);
      }
    }
  }

  function Sorted(q: Query, data: seq<Item>): seq<Item>
  {
    Sort(Comparator(q), data)
  }

  lemma SortedOk(q: Query, sc: Schema, data: seq<Item>)
    requires DataOk(q, sc, data)
    ensures ViewOk(Comparator(q), IsTyped(q, sc), Sorted(q, data)) && Elems(Sorted(q, data)) == Elems(data)
  {
    KeysetOrders(q, sc);
    UniqueIdsNoTies(q, data);
    SortedView(Comparator(q), IsTyped(q, sc), data);
  }

  // ---- cursors ---------------------------------------------------------------------------

  // The anchor rebuilt from the cursor of a row.
  function Anchor(q: Query, item: Item): Item
  {
    map[q.sortBy := Field(item, q.sortBy)][q.idField := Field(item, q.idField)]
  }

  // A cursor minted for a row always parses under the same sort, to an anchor that compares with
  // every row exactly as the row does, whether or not the row still exists.
  lemma CursorRoundTrip(q: Query, item: Item, parameter: string)
    ensures ParseCursor(q, BuildCursor(q, item), parameter) == Ok(Anchor(q, item))
    ensures forall x :: Compare(q, x, Anchor(q, item)) == Compare(q, x, item)
  {}

  // Under any other sort it is refused.
  lemma CursorOfAnotherSort(q: Query, other: Query, item: Item, parameter: string)
    requires q.sortBy != other.sortBy || q.desc != other.desc
    ensures ParseCursor(other, BuildCursor(q, item), parameter) == Err(Invalid([parameter]))
  {
    assert "asc" != "desc";
  }

  // ---- requests as pages of the sorted view ----------------------------------------------

  predicate ParamsOk(p: Params)
  {
    CheckParams(p).Ok? && CheckParams(p).value >= 1
  }

  // A request for the rows after a cursor, or for the first page.
  function Fetch(p: Params, data: seq<Item>, cursor: Option<Cursor>): Result<Page, PageError>
  {
    PaginateCursor(data, p.(cursor := cursor, before := None))
  }

  // A request for the rows before a cursor.
  function FetchBefore(p: Params, data: seq<Item>, cursor: Option<Cursor>): Result<Page, PageError>
  {
    PaginateCursor(data, p.(cursor := None, before := cursor))
  }

  // No cursor yet, or the one minted for the row `last`.
  predicate CursorAt(q: Query, cursor: Option<Cursor>, last: Option<Item>)
  {
    match last
    case None => cursor.None?
    case Some(x) => cursor == Some(BuildCursor(q, x))
  }

  lemma ForwardBounds(q: Query, view: seq<Item>, last: Option<Item>, limit: nat)
    ensures var anchor := if last.Some? then Some(Anchor(q, last.value)) else None;
            var start := StartAfter(Comparator(q), view, last);
            Bounds(q, view, anchor, Forward, limit) == (start, Min(|view|, start + limit))
  {
    if last.Some? {
      CursorRoundTrip(q, last.value, "cursor");
    }
  }

  // What a request answers, in terms of the sorted view.
  function Answer(q: Query, view: seq<Item>, last: Option<Item>, limit: nat): Page
  {
    var start, rows := StartAfter(Comparator(q), view, last), RowsAfter(Comparator(q), view, last, limit);
    var more := MoreAfter(Comparator(q), view, last, limit);
    Page(rows,
         if more && rows != [] then Some(BuildCursor(q, rows[|rows| - 1])) else None,
         if start > 0 && rows != [] then Some(BuildCursor(q, rows[0])) else None,
         more, start > 0)
  }

  lemma PageIsAnswer(q: Query, data: seq<Item>, last: Option<Item>, limit: nat)
    ensures var anchor := if last.Some? then Some(Anchor(q, last.value)) else None;
            PageOf(q, data, anchor, Forward, limit) == Answer(q, Sorted(q, data), last, limit)
  {
    ForwardBounds(q, Sorted(q, data), last, limit);
    CutIsAnswer(q, Sorted(q, data), if last.Some? then Some(Anchor(q, last.value)) else None, last, limit);
  }

  lemma CutIsAnswer(q: Query, view: seq<Item>, anchor: Option<Item>, last: Option<Item>, limit: nat)
    requires var start := StartAfter(Comparator(q), view, last);
             Bounds(q, view, anchor, Forward, limit) == (start, Min(|view|, start + limit))
    ensures CutPage(q, view, anchor, Forward, limit) == Answer(q, view, last, limit)
  {}

  lemma FetchIsAnswer(p: Params, data: seq<Item>, cursor: Option<Cursor>, last: Option<Item>)
    requires ParamsOk(p) && CursorAt(QueryOf(p), cursor, last)
    ensures Fetch(p, data, cursor) == Ok(Answer(QueryOf(p), Sorted(QueryOf(p), data), last, CheckParams(p).value))
  {
    var q, limit := QueryOf(p), CheckParams(p).value;
    var p1 := p.(cursor := cursor, before := None);
    assert QueryOf(p1) == q && CheckParams(p1) == CheckParams(p);
    if last.Some? {
      CursorRoundTrip(q, last.value, "cursor");
    }
    PageIsAnswer(q, data, last, limit);
  }

  lemma FetchBeforeCuts(p: Params, data: seq<Item>, x: Item)
    requires ParamsOk(p)
    ensures var q := QueryOf(p);
            FetchBefore(p, data, Some(BuildCursor(q, x)))
              == Ok(PageOf(q, data, Some(Anchor(q, x)), Backward, CheckParams(p).value))
  {
    var q := QueryOf(p);
    var p1 := p.(cursor := None, before := Some(BuildCursor(q, x)));
    assert QueryOf(p1) == q && CheckParams(p1) == CheckParams(p);
    CursorRoundTrip(q, x, "before");
  }

  // ---- the walk over changing data -------------------------------------------------------

  type Endpoint = (seq<Item>, Option<Cursor>) -> Result<Page, PageError>

  // What the service answers to a cursor, for the data it finds.
  function Service(p: Params): Endpoint
  {
    (data: seq<Item>, cursor: Option<Cursor>) => Fetch(p, data, cursor)
  }

  // A client that reads nextCursor from each answer and sends it with the next request, while
  // the i-th request finds datas[i]; it stops when there is no next page.
  function Served(service: Endpoint, datas: seq<seq<Item>>, cursor: Option<Cursor>): seq<Item>
    decreases |datas|
  {
    if datas == [] then []
    else match service(datas[0], cursor)
      case Err(_) => []
      case Ok(pg) => if pg.next.Some? then pg.rows + Served(service, datas[1..], pg.next) else pg.rows
  }

  // The walk reached a page without a successor exactly at its last request.
  predicate Completes(service: Endpoint, datas: seq<seq<Item>>, cursor: Option<Cursor>)
    decreases |datas|
  {
    && datas != []
    && match service(datas[0], cursor)
       case Err(_) => false
       case Ok(pg) => if pg.next.Some? then Completes(service, datas[1..], pg.next) else |datas| == 1
  }

  ghost predicate AllDataOk(q: Query, sc: Schema, datas: seq<seq<Item>>)
  {
    forall i :: 0 <= i < |datas| ==> DataOk(q, sc, datas[i])
  }

  // At every request some row stood where r does: same sort value, same id.
  ghost predicate AlwaysThere(q: Query, datas: seq<seq<Item>>, r: Item)
  {
    forall i :: 0 <= i < |datas| ==> Present(Comparator(q), datas[i], r)
  }

  function Views(q: Query, datas: seq<seq<Item>>): seq<seq<Item>>
  {
    if datas == [] then [] else [Sorted(q, datas[0])] + Views(q, datas[1..])
  }

  lemma {:induction false} ViewsOk(q: Query, sc: Schema, datas: seq<seq<Item>>)
    requires AllDataOk(q, sc, datas)
    ensures AllOk(Comparator(q), IsTyped(q, sc), Views(q, datas))
  {
    if datas != [] {
      SortedOk(q, sc, datas[0]);
      ViewsOk(q, sc, datas[1..]);
      assert Views(q, datas)[1..] == Views(q, datas[1..]);
    }
  }

  lemma PresentSorted(q: Query, data: seq<Item>, r: Item)
    requires Present(Comparator(q), data, r)
    ensures Present(Comparator(q), Sorted(q, data), r)
  {
    var i :| 0 <= i < |data| && Comparator(q)(data[i], r) == 0;
    SameElements(Sorted(q, data), data);
    assert data[i] in Sorted(q, data);
  }

  lemma {:induction false} ViewsPresent(q: Query, datas: seq<seq<Item>>, r: Item)
    requires AlwaysThere(q, datas, r)
    ensures AlwaysPresent(Comparator(q), Views(q, datas), r)
  {
    if datas != [] {
      PresentSorted(q, datas[0], r);
      ViewsPresent(q, datas[1..], r);
      assert Views(q, datas)[1..] == Views(q, datas[1..]);
    }
  }

  ghost predicate AnswersAll(service: Endpoint, q: Query, limit: nat)
  {
    forall data, cursor, last {:trigger service(data, cursor), Answer(q, Sorted(q, data), last, limit)} ::
      CursorAt(q, cursor, last) ==> service(data, cursor) == Ok(Answer(q, Sorted(q, data), last, limit))
  }

  lemma ServiceAnswers(p: Params)
    requires ParamsOk(p)
    ensures AnswersAll(Service(p), QueryOf(p), CheckParams(p).value)
  {
    var q, limit := QueryOf(p), CheckParams(p).value;
    forall data, cursor, last | CursorAt(q, cursor, last)
      ensures Service(p)(data, cursor) == Ok(Answer(q, Sorted(q, data), last, limit))
    {
      FetchIsAnswer(p, data, cursor, last);
    }
  }

  // The requests a client makes are a walk over the sorted views.
  lemma {:induction false} ServedIsWalk(
    service: Endpoint, q: Query, limit: nat, datas: seq<seq<Item>>, cursor: Option<Cursor>, last: Option<Item>)
    requires AnswersAll(service, q, limit) && CursorAt(q, cursor, last)
    ensures Served(service, datas, cursor) == Walk(Comparator(q), limit, Views(q, datas), last)
    ensures Completes(service, datas, cursor) <==> WalkEnds(Comparator(q), limit, Views(q, datas), last)
    decreases |datas|
  {
    if datas != [] {
      assert service(datas[0], cursor) == Ok(Answer(q, Sorted(q, datas[0]), last, limit));
      var rows := RowsAfter(Comparator(q), Sorted(q, datas[0]), last, limit);
      assert Views(q, datas)[1..] == Views(q, datas[1..]);
      if MoreAfter(Comparator(q), Sorted(q, datas[0]), last, limit) && rows != [] {
        var next := rows[|rows| - 1];
        ServedIsWalk(service, q, limit, datas[1..], Some(BuildCursor(q, next)), Some(next));
      }
    }
  }

  // No page drift: whatever is inserted or deleted between the requests, a client following
  // nextCursor is served rows in strictly increasing order, so none twice; and when it reaches
  // the end it has been served every row that was there at each request exactly once.
  lemma NoPageDrift(p: Params, sc: Schema, datas: seq<seq<Item>>, r: Item)
    requires ParamsOk(p) && AllDataOk(QueryOf(p), sc, datas)
    ensures Strict(Comparator(QueryOf(p)), Served(Service(p), datas, None))
    ensures Completes(Service(p), datas, None) && Typed(QueryOf(p), sc, r) && AlwaysThere(QueryOf(p), datas, r) ==>
              OnlyOnce(Comparator(QueryOf(p)), Served(Service(p), datas, None), r)
  {
    ServiceAnswers(p);
    NoDrift(Service(p), QueryOf(p), CheckParams(p).value, sc, datas, r);
  }

  lemma NoDrift(service: Endpoint, q: Query, limit: nat, sc: Schema, datas: seq<seq<Item>>, r: Item)
    requires AnswersAll(service, q, limit) && limit >= 1 && AllDataOk(q, sc, datas)
    ensures Strict(Comparator(q), Served(service, datas, None))
    ensures Completes(service, datas, None) && Typed(q, sc, r) && AlwaysThere(q, datas, r) ==>
              OnlyOnce(Comparator(q), Served(service, datas, None), r)
  {
    ServedIsWalk(service, q, limit, datas, None, None);
    KeysetOrders(q, sc);
    ViewsOk(q, sc, datas);
    WalkIncreases(Comparator(q), IsTyped(q, sc), limit, Views(q, datas), None);
    if Completes(service, datas, None) && Typed(q, sc, r) && AlwaysThere(q, datas, r) {
      ViewsPresent(q, datas, r);
      WalkServesOnce(Comparator(q), IsTyped(q, sc), limit, Views(q, datas), r);
    }
  }
}
