/**
 * What the JSON handlers of handlers/dashboard share: their reply (a success value or an HTTP
 * status with an error text), the cookie tests, the list filters read from query parameters,
 * and the page arithmetic of the booking lists.
 */
module Http {
  import opened Wrappers
  import BookingQuery

  const BadRequest: int := 400
  const Unauthorized: int := 401
  const Forbidden: int := 403
  const InternalServerError: int := 500

  /** The reply text of both dashboards when a delete statement fails (handlers/dashboard/admin.go:866-868). */
  const DeleteFailed: string := "Delete failed"

  /** A handler's answer: 200 with a value, or a status and the `error` field of the JSON body. */
  datatype Reply<+T> = Accept(value: T) | Reject(status: int, error: string)

  /** `err == nil && cookie.Value != ""` for a cookie read with c.Cookie; None is a missing cookie. */
  predicate SignedIn(cookie: Option<string>)
  {
    cookie.Some? && cookie.value != ""
  }

  /** The role cookie is present and its value is one of `roles`. */
  predicate RoleIn(roleCookie: Option<string>, roles: set<string>)
  {
    roleCookie.Some? && roleCookie.value in roles
  }

  // ===========================================================================
  // Booking list filters
  // ===========================================================================

  /** The query parameters of the booking lists; an absent parameter reads as "". */
  datatype BookingParams = BookingParams(passenger: string, origin: string, destination: string,
                                         status: string, dateFrom: string, dateTo: string)

  /** The filter map: one entry per non-empty parameter, under the key GetFilteredBookings reads. */
  function QueryFilter(p: BookingParams): (m: map<string, string>)
    ensures m.Keys <= {"passenger", "origin", "destination", "status", "date_from", "date_to"}
    ensures "passenger" in m <==> p.passenger != ""
    ensures "origin" in m <==> p.origin != ""
    ensures "destination" in m <==> p.destination != ""
    ensures "status" in m <==> p.status != ""
    ensures "date_from" in m <==> p.dateFrom != ""
    ensures "date_to" in m <==> p.dateTo != ""
  {
    var m0: map<string, string> := map[];
    var m1 := if p.passenger != "" then m0["passenger" := p.passenger] else m0;
    var m2 := if p.origin != "" then m1["origin" := p.origin] else m1;
    var m3 := if p.destination != "" then m2["destination" := p.destination] else m2;
    var m4 := if p.status != "" then m3["status" := p.status] else m3;
    var m5 := if p.dateFrom != "" then m4["date_from" := p.dateFrom] else m4;
    if p.dateTo != "" then m5["date_to" := p.dateTo] else m5
  }

  /** Each entry holds its parameter unchanged. */
  lemma QueryFilterValues(p: BookingParams)
    ensures var m := QueryFilter(p);
            && ("passenger" in m ==> m["passenger"] == p.passenger)
            && ("origin" in m ==> m["origin"] == p.origin)
            && ("destination" in m ==> m["destination"] == p.destination)
            && ("status" in m ==> m["status"] == p.status)
            && ("date_from" in m ==> m["date_from"] == p.dateFrom)
            && ("date_to" in m ==> m["date_to"] == p.dateTo)
  {
  }

  /** The parameter copied to the k-th filter key. */
  function ParamAt(p: BookingParams, k: nat): string
    requires k < |BookingQuery.FilterKeys|
  {
    if k == 0 then p.passenger else if k == 1 then p.origin else if k == 2 then p.destination
    else if k == 3 then p.status else if k == 4 then p.dateFrom else p.dateTo
  }

  /**
   * GetFilteredBookings reads back every parameter under its key, and "" for an absent one, so
   * leaving empty parameters out of the map changes nothing in the query it builds.
   */
  lemma QueryFilterReadsParams(p: BookingParams, k: nat)
    requires k < |BookingQuery.FilterKeys|
    ensures BookingQuery.FilterValue(Some(QueryFilter(p)), BookingQuery.FilterKeys[k]) == ParamAt(p, k)
  {
  }

  // ===========================================================================
  // Pagination (`page`, `page_size` and the slice bookings[start:end])
  // ===========================================================================

  const DefaultPage: int := 1
  const DefaultPageSize: int := 10

  /** A parsed parameter (None when strconv.Atoi fails) replaces the default only when positive. */
  function PositiveOr(parsed: Option<int>, default: int): (n: int)
    requires default > 0
    ensures n > 0
    ensures n == default <== !(parsed.Some? && parsed.value > 0)
    ensures n == parsed.value <== parsed.Some? && parsed.value > 0
  {
    if parsed.Some? && parsed.value > 0 then parsed.value else default
  }

  datatype Window = Window(start: nat, end: nat)

  /** `start := (page-1)*pageSize`, then `start` and `start + pageSize` clamped to the total. */
  function PageWindow(total: nat, page: int, pageSize: int): (w: Window)
    requires page >= 1 && pageSize >= 1
    ensures w.start <= w.end <= total
    ensures w.end - w.start <= pageSize
    ensures (page - 1) * pageSize >= total ==> w.start == w.end
    ensures (page - 1) * pageSize < total ==>
              w.start == (page - 1) * pageSize
              && w.end - w.start == (if total - w.start < pageSize then total - w.start else pageSize)
  {
    var s := (page - 1) * pageSize;
    PageStartNonNegative(page, pageSize);
    var start := if s > total then total else s;
    var end := start + pageSize;
    Window(start, if end > total then total else end)
  }

  lemma PageStartNonNegative(page: int, pageSize: int)
    requires page >= 1 && pageSize >= 1
    ensures (page - 1) * pageSize >= 0
  {
  }

  /** Every row lies on exactly the page `i / pageSize + 1`, at position `i % pageSize`. */
  lemma EveryRowOnItsPage(total: nat, pageSize: int, i: nat)
    requires pageSize >= 1 && i < total
    ensures var w := PageWindow(total, i / pageSize + 1, pageSize);
            w.start <= i < w.end && i - w.start == i % pageSize
  {
    var q := i / pageSize;
    assert q * pageSize <= i < q * pageSize + pageSize;
  }

  /** Consecutive pages meet: each page starts where the one before it ends. */
  lemma PagesAreContiguous(total: nat, page: int, pageSize: int)
    requires page >= 1 && pageSize >= 1
    ensures PageWindow(total, page + 1, pageSize).start == PageWindow(total, page, pageSize).end
  {
    assert (page + 1 - 1) * pageSize == (page - 1) * pageSize + pageSize;
  }

  /** The JSON of a list: `total` counts every row, `bookings` holds the page. */
  datatype Listing<T> = Listing(total: nat, rows: seq<T>)

  /** The page handed back for parsed `page` and `page_size` parameters. */
  function Paginate<T>(rows: seq<T>, pageParam: Option<int>, pageSizeParam: Option<int>): (l: Listing<T>)
    ensures l.total == |rows|
    ensures |l.rows| <= PositiveOr(pageSizeParam, DefaultPageSize)
    ensures (PositiveOr(pageParam, DefaultPage) - 1) * PositiveOr(pageSizeParam, DefaultPageSize) >= |rows| ==> l.rows == []
    ensures var start := (PositiveOr(pageParam, DefaultPage) - 1) * PositiveOr(pageSizeParam, DefaultPageSize);
            var size := PositiveOr(pageSizeParam, DefaultPageSize);
            start < |rows| ==>
              && |l.rows| == (if |rows| - start < size then |rows| - start else size)
              && forall i :: 0 <= i < |l.rows| ==> l.rows[i] == rows[start + i]
  {
    var w := PageWindow(|rows|, PositiveOr(pageParam, DefaultPage), PositiveOr(pageSizeParam, DefaultPageSize));
    Listing(|rows|, rows[w.start..w.end])
  }

  /** With no parameters the first ten rows are shown. */
  lemma DefaultPageIsFirstTen<T>(rows: seq<T>)
    ensures Paginate(rows, None, None).rows == rows[..if |rows| < 10 then |rows| else 10]
  {
  }
}
