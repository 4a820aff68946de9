/**
 The walk back: a client that follows prevCursor over changing data is served every row before its
 cursor once.
 */
module PaginationBack {
  import opened Common
  import opened Sorting
  import opened Keyset
  import opened CursorWalks
  import opened BackWalks
  import opened Pagination
  import opened PaginationWalk

  lemma BackwardCut(q: Query, view: seq<Item>, x: Item, limit: nat)
    ensures var end := StartAt(Comparator(q), view, x);
            Bounds(q, view, Some(Anchor(q, x)), Backward, limit) == (Max(0, end - limit), end)
  {
    CursorRoundTrip(q, x, "before");
  }

  // What a request for the rows before x answers, as far as a client going back looks at it.
  predicate AnswersBack(answer: Result<Page, PageError>, q: Query, view: seq<Item>, x: Item, limit: nat)
  {
    var rows := RowsUpTo(Comparator(q), view, x, limit);
    && answer.Ok? && answer.value.rows == rows
    && answer.value.prev == if MoreUpTo(Comparator(q), view, x, limit) && rows != [] then Some(BuildCursor(q, rows[0]))
                            else None
  }

  lemma FetchBeforeAnswers(p: Params, data: seq<Item>, x: Item)
    requires ParamsOk(p)
    ensures var q := QueryOf(p);
            AnswersBack(FetchBefore(p, data, Some(BuildCursor(q, x))), q, Sorted(q, data), x, CheckParams(p).value)
  {
    FetchBeforeCuts(p, data, x);
    BackwardCut(QueryOf(p), Sorted(QueryOf(p), data), x, CheckParams(p).value);
  }

  // What the service answers to a `before` cursor, for the data it finds.
  function BackService(p: Params): Endpoint
  {
    (data: seq<Item>, cursor: Option<Cursor>) => FetchBefore(p, data, cursor)
  }

  // A client that reads prevCursor from each answer and sends it with the next request; what it is
  // served is put in front of what it has.
  function ServedBack(service: Endpoint, datas: seq<seq<Item>>, cursor: Option<Cursor>): seq<Item>
    decreases |datas|
  {
    if datas == [] then []
    else match service(datas[0], cursor)
      case Err(_) => []
      case Ok(pg) => if pg.prev.Some? then ServedBack(service, datas[1..], pg.prev) + pg.rows else pg.rows
  }

  // The walk reached a page without a predecessor exactly at its last request.
  predicate CompletesBack(service: Endpoint, datas: seq<seq<Item>>, cursor: Option<Cursor>)
    decreases |datas|
  {
    && datas != []
    && match service(datas[0], cursor)
       case Err(_) => false
       case Ok(pg) => if pg.prev.Some? then CompletesBack(service, datas[1..], pg.prev) else |datas| == 1
  }

  ghost predicate AnswersAllBack(service: Endpoint, q: Query, limit: nat)
  {
    forall data, x {:trigger service(data, Some(BuildCursor(q, x)))} ::
      AnswersBack(service(data, Some(BuildCursor(q, x))), q, Sorted(q, data), x, limit)
  }

  lemma BackServiceAnswers(p: Params)
    requires ParamsOk(p)
    ensures AnswersAllBack(BackService(p), QueryOf(p), CheckParams(p).value)
  {
    var q, limit := QueryOf(p), CheckParams(p).value;
    forall data, x
      ensures AnswersBack(BackService(p)(data, Some(BuildCursor(q, x))), q, Sorted(q, data), x, limit)
    {
      FetchBeforeAnswers(p, data, x);
    }
  }

  // The requests a client makes are a walk back over the sorted views.
  lemma {:induction false} ServedBackIsWalk(service: Endpoint, q: Query, limit: nat, datas: seq<seq<Item>>, x: Item)
    requires AnswersAllBack(service, q, limit)
    ensures var cursor := Some(BuildCursor(q, x));
            && ServedBack(service, datas, cursor) == BackWalk(Comparator(q), limit, Views(q, datas), x)
            && (CompletesBack(service, datas, cursor) <==> BackEnds(Comparator(q), limit, Views(q, datas), x))
    decreases |datas|
  {
    if datas != [] {
      assert AnswersBack(service(datas[0], Some(BuildCursor(q, x))), q, Sorted(q, datas[0]), x, limit);
      var rows := RowsUpTo(Comparator(q), Sorted(q, datas[0]), x, limit);
      assert Views(q, datas)[1..] == Views(q, datas[1..]);
      if MoreUpTo(Comparator(q), Sorted(q, datas[0]), x, limit) && rows != [] {
        ServedBackIsWalk(service, q, limit, datas[1..], rows[0]);
      }
    }
  }

  // No page drift going back: whatever is inserted or deleted between the requests, a client that
  // follows prevCursor from the cursor of a row x is served rows before x, each page before the one
  // it had, so none twice; and when it reaches the start it has been served every row before x that
  // was there at each request exactly once.
  lemma NoPageDriftBack(p: Params, sc: Schema, datas: seq<seq<Item>>, x: Item, r: Item)
    requires ParamsOk(p) && AllDataOk(QueryOf(p), sc, datas) && Typed(QueryOf(p), sc, x)
    ensures var q := QueryOf(p);
            var served := ServedBack(BackService(p), datas, Some(BuildCursor(q, x)));
            && Strict(Comparator(q), served) && AllBefore(Comparator(q), served, x)
            && (CompletesBack(BackService(p), datas, Some(BuildCursor(q, x)))
                && Typed(q, sc, r) && AlwaysThere(q, datas, r) && Compare(q, r, x) < 0 ==>
                  OnlyOnce(Comparator(q), served, r))
  {
    BackServiceAnswers(p);
    NoDriftBack(BackService(p), QueryOf(p), CheckParams(p).value, sc, datas, x, r);
  }

  lemma NoDriftBack(
    service: Endpoint, q: Query, limit: nat, sc: Schema, datas: seq<seq<Item>>, x: Item, r: Item)
    requires AnswersAllBack(service, q, limit) && limit >= 1 && AllDataOk(q, sc, datas) && Typed(q, sc, x)
    ensures var served := ServedBack(service, datas, Some(BuildCursor(q, x)));
            && Strict(Comparator(q), served) && AllBefore(Comparator(q), served, x)
            && (CompletesBack(service, datas, Some(BuildCursor(q, x)))
                && Typed(q, sc, r) && AlwaysThere(q, datas, r) && Comparator(q)(r, x) < 0 ==>
                  OnlyOnce(Comparator(q), served, r))
  {
    ServedBackIsWalk(service, q, limit, datas, x);
    KeysetOrders(q, sc);
    ViewsOk(q, sc, datas);
    BackWalkOrdered(Comparator(q), IsTyped(q, sc), limit, Views(q, datas), x);
    if CompletesBack(service, datas, Some(BuildCursor(q, x)))
       && Typed(q, sc, r) && AlwaysThere(q, datas, r) && Comparator(q)(r, x) < 0 {
      ViewsPresent(q, datas, r);
      BackServesOnce(Comparator(q), IsTyped(q, sc), limit, Views(q, datas), x, r);
    }
  }
}
