/**
 Offset and cursor pagination: parameter validation, cursors and how a page is cut out of the
 sorted rows.
 */
module Pagination {
  import opened Common
  import opened Sorting
  import opened Keyset
  import opened CursorWalks

  const DEFAULT_LIMIT := 20
  const MAX_LIMIT := 100
  const CURSOR_VERSION := 1

  // What toPositiveInteger makes of a raw parameter.
  datatype Param = Absent | NotPositive | Positive(n: nat)

  datatype PageError = Invalid(fields: seq<string>) | BadArgument(name: string)

  datatype Meta = Meta(page: nat, limit: nat, total: nat, totalPages: nat, hasNext: bool, hasPrev: bool)

  predicate ParamOk(p: Param)
  {
    p.Positive? ==> p.n >= 1
  }

  function ResolveMaxLimit(maxLimit: Param): (r: Result<nat, PageError>)
  {
    match maxLimit
    case Absent => Ok(MAX_LIMIT)
    case NotPositive => Err(BadArgument("maxLimit"))
    case Positive(n) => Ok(n)
  }

  // Both parameters are checked, so that both problems are reported at once.
  function ParsePageParams(page: Param, limit: Param, maxLimit: nat): Result<(nat, nat), PageError>
  {
    var wrong := (if page.NotPositive? then ["page"] else [])
               + (if limit.NotPositive? || (limit.Positive? && limit.n > maxLimit) then ["limit"] else []);
    if wrong != [] then Err(Invalid(wrong))
    else Ok((if page.Positive? then page.n else 1, if limit.Positive? then limit.n else DEFAULT_LIMIT))
  }

  function BuildPaginationMeta(page: Param, limit: Param, total: int, maxLimit: Param): Result<Meta, PageError>
    requires ParamOk(page) && ParamOk(limit)
  {
    if total < 0 then Err(BadArgument("total"))
    else match ResolveMaxLimit(maxLimit)
      case Err(e) => Err(e)
      case Ok(max) =>
        match ParsePageParams(page, limit, max)
        case Err(e) => Err(e)
        case Ok((current, perPage)) =>
          var totalPages := CeilDiv(total, perPage);
          Ok(Meta(current, perPage, total, totalPages, current < totalPages, current > 1))
  }

  // Array.prototype.slice for non-negative bounds.
  function Slice<T>(s: seq<T>, from: nat, to: nat): seq<T>
  {
    if from >= |s| || to <= from then [] else s[from..if to < |s| then to else |s|]
  }

  function Paginate<T>(data: seq<T>, page: Param, limit: Param, maxLimit: Param): Result<(seq<T>, Meta), PageError>
    requires ParamOk(page) && ParamOk(limit)
  {
    match ResolveMaxLimit(maxLimit)
    case Err(e) => Err(e)
    case Ok(max) =>
      match ParsePageParams(page, limit, max)
      case Err(e) => Err(e)
      case Ok((current, perPage)) =>
        var offset := (current - 1) * perPage;
        match BuildPaginationMeta(page, limit, |data|, maxLimit)
        case Err(e) => Err(e)
        case Ok(meta) => Ok((Slice(data, offset, offset + perPage), meta))
  }

  // ---- cursors ---------------------------------------------------------------------------

  // What a cursor parameter decodes to; k and id are absent when the key is.
  datatype Cursor = Undecodable | Payload(v: int, f: string, o: string, k: Option<Value>, id: Option<Value>)

  function OrderName(q: Query): string
  {
    if q.desc then "desc" else "asc"
  }

  function BuildCursor(q: Query, item: Item): Cursor
  {
    Payload(CURSOR_VERSION, q.sortBy, OrderName(q), Some(Field(item, q.sortBy)), Some(Field(item, q.idField)))
  }

  // The anchor is a synthetic row; a cursor of another shape, version or sort is refused.
  function ParseCursor(q: Query, cursor: Cursor, parameter: string): Result<Item, PageError>
  {
    if cursor.Undecodable? || cursor.v != CURSOR_VERSION || cursor.k.None? || cursor.id.None?
    then Err(Invalid([parameter]))
    else if cursor.f != q.sortBy || cursor.o != OrderName(q) then Err(Invalid([parameter]))
    else Ok(map[q.sortBy := cursor.k.value][q.idField := cursor.id.value])
  }

  // ---- cutting a page --------------------------------------------------------------------

  datatype Direction = Forward | Backward

  datatype Page = Page(rows: seq<Item>, next: Option<Cursor>, prev: Option<Cursor>, hasNext: bool, hasPrev: bool)

  // The bounds of the page after the anchor, or of the rows just before it.
  function Bounds(q: Query, sorted: seq<Item>, anchor: Option<Item>, dir: Direction, limit: nat): (b: (nat, nat))
    ensures b.0 <= b.1 <= |sorted|
  {
    match dir
    case Backward =>
      var boundary := if anchor.Some? then FindIndex(item => Compare(q, item, anchor.value) >= 0, sorted) else -1;
      var end := if boundary == -1 then |sorted| else boundary;
      (Max(0, end - limit), end)
    case Forward =>
      var boundary := if anchor.Some? then FindIndex(item => Compare(q, item, anchor.value) > 0, sorted) else 0;
      var start := if boundary == -1 then |sorted| else boundary;
      (start, Min(|sorted|, start + limit))
  }

  function CutPage(q: Query, sorted: seq<Item>, anchor: Option<Item>, dir: Direction, limit: nat): Page
  {
    var (start, end) := Bounds(q, sorted, anchor, dir, limit);
    var rows := sorted[start..end];
    var hasPrev, hasNext := start > 0, end < |sorted|;
    Page(rows,
         if hasNext && rows != [] then Some(BuildCursor(q, rows[|rows| - 1])) else None,
         if hasPrev && rows != [] then Some(BuildCursor(q, rows[0])) else None,
         hasNext, hasPrev)
  }

  function PageOf(q: Query, data: seq<Item>, anchor: Option<Item>, dir: Direction, limit: nat): Page
  {
    CutPage(q, Sort(Comparator(q), data), anchor, dir, limit)
  }

  // The parameters of a cursor request; an empty string counts as absent.
  datatype Params = Params(
    cursor: Option<Cursor>,
    before: Option<Cursor>,
    sortBy: Option<string>,
    sortOrder: Option<string>,
    idField: string,
    sortableFields: Option<seq<string>>,
    limit: Param,
    maxLimit: Param)

  function Requested(p: Params): Option<string>
  {
    if p.sortBy == Some("") then None else p.sortBy
  }

  function QueryOf(p: Params): Query
  {
    Query(if Requested(p).Some? then Requested(p).value else p.idField, p.sortOrder == Some("desc"), p.idField)
  }

  // The checks made before any cursor is looked at, in the order they are made.
  function CheckParams(p: Params): Result<nat, PageError>
  {
    if p.sortOrder.Some? && p.sortOrder.value != "asc" && p.sortOrder.value != "desc" then Err(Invalid(["sortOrder"]))
    else if Requested(p).Some? && p.sortableFields.Some? && Requested(p).value !in p.sortableFields.value
    then Err(Invalid(["sortBy"]))
    else match ResolveMaxLimit(p.maxLimit)
      case Err(e) => Err(e)
      case Ok(max) =>
        match ParsePageParams(Absent, p.limit, max)
        case Err(e) => Err(e)
        case Ok((_, limit)) => Ok(limit)
  }

  function PaginateByCursor(data: seq<Item>, p: Params, dir: Direction): Result<Page, PageError>
  {
    match CheckParams(p)
    case Err(e) => Err(e)
    case Ok(limit) =>
      var usesBefore := dir.Backward? && p.before.Some?;
      var raw := if usesBefore then p.before else p.cursor;
      if raw.None? then Ok(PageOf(QueryOf(p), data, None, dir, limit))
      else match ParseCursor(QueryOf(p), raw.value, if usesBefore then "before" else "cursor")
        case Err(e) => Err(e)
        case Ok(anchor) => Ok(PageOf(QueryOf(p), data, Some(anchor), dir, limit))
  }

  function PaginateCursor(data: seq<Item>, p: Params): Result<Page, PageError>
  {
    if p.cursor.Some? && p.before.Some? then Err(Invalid(["cursor"]))
    else PaginateByCursor(data, p, if p.before.Some? then Backward else Forward)
  }
}
