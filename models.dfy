/**
 * The part of the `models` package that is not SQL: the pagination arithmetic both
 * listing models run after counting their rows, the statements a listing sends to the
 * store, and the affected-row guard both Delete operations apply.
 */
module Models {
  import opened Wrappers
  import opened Utilities

  /** The metadata fields of FetchAuthorDBModel and FetchBookDBModel. */
  datatype PageState = PageState(
    page: int,
    limit: int,
    next: Option<int>,
    prev: Option<int>,
    recordTotal: int,
    pageTotal: int)

  /** A statement a listing sends to the store: the count query, and the page query with
      its LIMIT and OFFSET arguments. Both carry the optional author filter argument. */
  datatype Statement =
    | CountStatement(sql: string, authorID: Option<int>)
    | SelectStatement(sql: string, limit: int, offset: int, authorID: Option<int>)

  /** How the store answers a listing: getting a connection, the count query, the page
      query. On success the count query yields the number of matching rows. */
  datatype ListingStore = ListingStore(
    connErr: Option<DriverError>,
    count: Result<nat, DriverError>,
    selectErr: Option<DriverError>)

  /** Integer counterpart of `math.Ceil(float64(a) / float64(b))`. */
  function CeilDiv(a: nat, b: int): nat
    requires b > 0
  {
    (a + b - 1) / b
  }

  /** The page count as the code computes it: the ceiling when the division leaves a
      remainder, the exact quotient otherwise. */
  function PageTotalOf(recordTotal: nat, limit: int): nat
    requires limit > 0
  {
    if recordTotal % limit > 0 then CeilDiv(recordTotal, limit) else recordTotal / limit
  }

  /** A requested page beyond the last one becomes the last one. */
  function ClampPage(page: int, pageTotal: int): int
  {
    if page > pageTotal then pageTotal else page
  }

  /** The previous-page pointer: nil on pages below 2. */
  function PrevOf(page: int): Option<int>
  {
    if page < 2 then None else Some(page - 1)
  }

  /** The next-page pointer: nil on the last page. */
  function NextOf(page: int, pageTotal: int): Option<int>
  {
    if page == pageTotal then None else Some(page + 1)
  }

  /** The OFFSET argument of the page query. */
  function Offset(limit: int, page: int): int
  {
    limit * (page - 1)
  }

  /** The metadata a listing holds once its rows are counted: the funnel both Fetch
      methods run, from the requested page and limit and the counted total. */
  function Paginate(page: int, limit: int, recordTotal: nat): PageState
    requires limit > 0
  {
    var pageTotal := PageTotalOf(recordTotal, limit);
    var p := ClampPage(page, pageTotal);
    PageState(p, limit, NextOf(p, pageTotal), PrevOf(p), recordTotal, pageTotal)
  }

  /** The error a listing Fetch returns: the first store step that failed. */
  function FetchError(store: ListingStore): Option<ModelError>
  {
    if store.connErr.Some? then Some(Driver(store.connErr.value))
    else if store.count.Failure? then Some(Driver(store.count.error))
    else if store.selectErr.Some? then Some(Driver(store.selectErr.value))
    else None
  }

  /** Delete's check on the outcome of the DELETE statement (the connection, the
      transaction and the statement folded into one result carrying RowsAffected). */
  function DeleteOutcome(exec: Result<nat, DriverError>): Option<ModelError>
  {
    match exec
    case Failure(e) => Some(Driver(e))
    case Success(rows) => if rows > 1 then Some(ErrTooManyAffectedRows) else None
  }

  // ---------------------------------------------------------------------------------
  // Arithmetic helpers

  /** The quotient and remainder of a Euclidean division are unique. */
  lemma DivModUnique(a: int, b: int, q: int, r: int)
    requires b > 0 && a == b * q + r && 0 <= r < b
    ensures a / b == q && a % b == r
  {
    var q0, r0 := a / b, a % b;
    assert a == b * q0 + r0 && 0 <= r0 < b;
    if q0 > q {
      MulMonotone(b, q + 1, q0);
    } else if q0 < q {
      MulMonotone(b, q0 + 1, q);
    }
  }

  /** Multiplying by a positive factor keeps the order. */
  lemma MulMonotone(b: int, x: int, y: int)
    requires b > 0 && x <= y
    ensures b * x <= b * y
  {
    assert b * y - b * x == b * (y - x);
  }

  // ---------------------------------------------------------------------------------
  // Properties of the pagination funnel

  /** Both branches of the page count compute the ceiling of recordTotal / limit: the
      smallest count of limit-sized pages that holds every record. */
  lemma {:induction false} PageTotalIsCeiling(recordTotal: nat, limit: int)
    requires limit > 0
    ensures var n := PageTotalOf(recordTotal, limit);
      && recordTotal <= limit * n
      && (n > 0 ==> limit * (n - 1) < recordTotal)
      && (n == 0 <==> recordTotal == 0)
      && n == CeilDiv(recordTotal, limit)
  {
    var q, r := recordTotal / limit, recordTotal % limit;
    assert recordTotal == limit * q + r;
    if r > 0 {
      assert recordTotal + limit - 1 == limit * (q + 1) + (r - 1);
      DivModUnique(recordTotal + limit - 1, limit, q + 1, r - 1);
      assert limit * (q + 1) == limit * q + limit;
    } else {
      assert recordTotal + limit - 1 == limit * q + (limit - 1);
      DivModUnique(recordTotal + limit - 1, limit, q, limit - 1);
      if q > 0 {
        assert limit * (q - 1) == limit * q - limit;
      }
    }
  }

  /** After the funnel the page never exceeds the page count; a page already in range is
      kept, any other becomes exactly the last page. Limit and total are not changed. */
  lemma PaginateClampsPage(page: int, limit: int, recordTotal: nat)
    requires limit > 0
    ensures var s := Paginate(page, limit, recordTotal);
      && s.page <= s.pageTotal
      && (page <= s.pageTotal ==> s.page == page)
      && (page > s.pageTotal ==> s.page == s.pageTotal)
      && s.limit == limit && s.recordTotal == recordTotal
      && s.pageTotal == PageTotalOf(recordTotal, limit)
  {
  }

  /** Prev is nil exactly below page 2 and otherwise points one page back; Next is nil
      exactly on the last page and otherwise points one page forward. */
  lemma PaginateLinks(page: int, limit: int, recordTotal: nat)
    requires limit > 0
    ensures var s := Paginate(page, limit, recordTotal);
      && (s.prev == None <==> s.page < 2)
      && (s.prev.Some? ==> s.prev.value == s.page - 1)
      && (s.next == None <==> s.page == s.pageTotal)
      && (s.next.Some? ==> s.next.value == s.page + 1)
  {
  }

  /** For a request the handlers accept (page at least 1) over a non-empty table, the
      page lies in 1..pageTotal, its offset points at an existing row, a Next pointer is
      offered exactly when rows remain after this page, and both pointers stay within
      1..pageTotal. */
  lemma {:induction false} PaginateWindow(page: int, limit: int, recordTotal: nat)
    requires limit > 0 && page >= 1 && recordTotal > 0
    ensures var s := Paginate(page, limit, recordTotal);
      && 1 <= s.page <= s.pageTotal
      && 0 <= Offset(limit, s.page) < recordTotal
      && (s.next.Some? <==> Offset(limit, s.page) + limit < recordTotal)
      && (s.next.Some? ==> s.next.value <= s.pageTotal)
      && (s.prev.Some? ==> 1 <= s.prev.value < s.page)
  {
    var n := PageTotalOf(recordTotal, limit);
    PageTotalIsCeiling(recordTotal, limit);
    var s := Paginate(page, limit, recordTotal);
    MulMonotone(limit, 0, s.page - 1);
    MulMonotone(limit, s.page - 1, n - 1);
    assert Offset(limit, s.page) + limit == limit * s.page;
    if s.page < n {
      MulMonotone(limit, s.page, n - 1);
    } else {
      assert limit * s.page == limit * n;
    }
  }

  /** With no rows the page count is 0, so any accepted page is clamped to 0, both
      pointers are nil and the offset handed to the page query is -limit. */
  lemma PaginateNoRecords(page: int, limit: int)
    requires limit > 0 && page >= 1
    ensures var s := Paginate(page, limit, 0);
      && s.pageTotal == 0 && s.page == 0
      && s.prev == None && s.next == None
      && Offset(limit, s.page) == -limit
  {
  }

  /** The offset is negative exactly when the table is empty, for every accepted page. */
  lemma {:induction false} OffsetNegativeIffEmpty(page: int, limit: int, recordTotal: nat)
    requires limit > 0 && page >= 1
    ensures Offset(limit, Paginate(page, limit, recordTotal).page) < 0 <==> recordTotal == 0
  {
    if recordTotal > 0 {
      PaginateWindow(page, limit, recordTotal);
    } else {
      PaginateNoRecords(page, limit);
    }
  }

  // ---------------------------------------------------------------------------------
  // Properties of the delete guard

  /** Delete reports the sentinel exactly when the statement touched more than one row,
      succeeds for zero or one row, and passes any store error through unchanged. */
  lemma DeleteGuard(exec: Result<nat, DriverError>)
    ensures DeleteOutcome(exec) == Some(ErrTooManyAffectedRows) <==> exec.Success? && exec.value > 1
    ensures DeleteOutcome(exec) == None <==> exec.Success? && exec.value <= 1
    ensures exec.Failure? ==> DeleteOutcome(exec) == Some(Driver(exec.error))
  {
  }
}
