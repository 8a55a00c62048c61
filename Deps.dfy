/** Query-parameter objects of the listing endpoints (app/deps.py). */
module Deps {
  import opened Wrappers
  import opened Dates

  const DefaultLimit := 50
  const DefaultOffset := 0
  const MaxLimit := 500

  /** `PaginationParams`: a plain record with defaults and no bounds of its own. */
  datatype PaginationParams = PaginationParams(limit: int := DefaultLimit, offset: int := DefaultOffset)

  /**
   * `pagination_params`: `limit` must satisfy `ge=1, le=500` and `offset`
   * `ge=0`; accepted values pass through unchanged.  `None` is a
   * query-parameter validation error.
   */
  function Paginate(limit: int := DefaultLimit, offset: int := DefaultOffset): (r: Option<PaginationParams>)
    ensures r.Some? <==> 1 <= limit <= MaxLimit && 0 <= offset
    ensures r.Some? ==> r.value.limit == limit && r.value.offset == offset
  {
    if 1 <= limit <= MaxLimit && 0 <= offset then Some(PaginationParams(limit, offset)) else None
  }

  /** The defaults are accepted; the bounds 1 and 500 are inclusive, 0 and 501 are rejected. */
  lemma PaginationBoundaries()
    ensures Paginate() == Some(PaginationParams(50, 0))
    ensures Paginate(500).Some? && Paginate(1).Some?
    ensures Paginate(0) == None && Paginate(501) == None
    ensures Paginate(offset := -1) == None
  {
  }

  /**
   * `FilterParams`: every criterion is optional and absent by default.
   * `status`, `kind` (the `type` parameter), `category` and `subcategory`
   * are free strings here, not the enumerations of the payloads.
   */
  datatype FilterParams = FilterParams(
    dateFrom: Option<Date> := None,
    dateTo: Option<Date> := None,
    status: Option<string> := None,
    kind: Option<string> := None,
    category: Option<string> := None,
    subcategory: Option<string> := None)
}
