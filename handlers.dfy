/**
 * The request steps the author and book handlers share: reading the `page` and `limit`
 * query parameters, binding the `:id` URI parameter, mapping a failed lookup to a
 * status, and the Get, Update and Delete handlers, which the two entities write out
 * identically apart from their messages. A handler is a function from what the
 * request carried and what the store answered to the store operations it invoked and
 * the response it wrote.
 */
module Handlers {
  import opened Wrappers
  import opened Utilities
  import opened Models
  import opened AuthorModel
  import opened BookModel

  /** `strconv.Atoi`'s two results: the value, and whether the error is nil. */
  datatype Parsed = Parsed(value: int, ok: bool)

  /** What gin's binding of a request part left behind: success, an error that is
      `validator.ValidationErrors`, or an error of any other kind. */
  datatype Binding = Bound | Invalid(errs: seq<FieldError>) | Failed

  datatype Entity = Author | Book

  /** The JSON a handler writes: a `{"msg": ...}` object, the list ParseValidationError
      built, a single record, or a listing with its page metadata. */
  datatype Body =
    | Message(text: string)
    | Violations(msgs: seq<ValidationErrorMsg>)
    | Record(entity: Entity)
    | Listing(entity: Entity, state: PageState)

  /** A written JSON response, no response at all, or a run-time panic. */
  datatype Response = Json(status: int, body: Body) | Silent | Panic

  /** A model operation the handler invoked, with the arguments it set on the model;
      a listing's Fetch also records the statements the model sent. */
  datatype StoreCall =
    | InsertCall(entity: Entity)
    | DetailCall(entity: Entity, id: int)
    | UpdateCall(entity: Entity, id: int, withBody: bool)
    | DeleteCall(entity: Entity, id: int)
    | FetchCall(entity: Entity, page: int, limit: int, authorID: Option<int>, sent: seq<Statement>)

  datatype Outcome = Outcome(calls: seq<StoreCall>, response: Response)

  const StatusOK := 200
  const StatusNotFound := 404
  const StatusConflict := 409
  const StatusUnprocessableEntity := 422
  const StatusInternalServerError := 500

  const PageMessage := "page parameter should be number and greater than 1"
  const LimitMessage := "limit parameter should be number and between 5 and 100"
  const MistakeMessage := "oops, we made a mistake"
  /** The wording of the 500 response of both Add handlers. */
  const InsertMistakeMessage := "oops we made mistake"

  function NotFoundMessage(entity: Entity): string
  {
    match entity
    case Author => "author not found"
    case Book => "book not found"
  }

  function RemovedMessage(entity: Entity): string
  {
    match entity
    case Author => "Author Removed"
    case Book => "Book Removed"
  }

  // ---------------------------------------------------------------------------------
  // Request parameters

  /** `c.DefaultQuery(key, default)`. */
  function DefaultQuery(q: Option<string>, default: string): string
  {
    if q.Some? then q.value else default
  }

  /** The page parameter, `"1"` when absent; anything that does not parse or is below 1
      is answered with 422. */
  function PageParam(atoi: string -> Parsed, q: Option<string>): Result<int, Response>
  {
    var p := atoi(DefaultQuery(q, "1"));
    if !p.ok || p.value < 1 then Failure(Json(StatusUnprocessableEntity, Message(PageMessage)))
    else Success(p.value)
  }

  /** The limit parameter, `"10"` when absent; anything that does not parse or lies
      outside 5..100 is answered with 422. */
  function LimitParam(atoi: string -> Parsed, q: Option<string>): Result<int, Response>
  {
    var p := atoi(DefaultQuery(q, "10"));
    if !p.ok || p.value < 5 || p.value > 100 then Failure(Json(StatusUnprocessableEntity, Message(LimitMessage)))
    else Success(p.value)
  }

  /** The id the handler sets on the model: Atoi's value with its error dropped. */
  function IdOf(atoi: string -> Parsed, raw: string): int
  {
    atoi(raw).value
  }

  /** The 422 answer to a binding that failed validation. */
  function ViolationResponse(errs: seq<FieldError>): Response
  {
    Json(StatusUnprocessableEntity, Violations(Messages(errs)))
  }

  /** The answer to a failed Detail: 404 for no row, 500 otherwise. */
  function DetailFailure(entity: Entity, e: DriverError): Response
  {
    if e == ErrNoRows then Json(StatusNotFound, Message(NotFoundMessage(entity)))
    else Json(StatusInternalServerError, Message(MistakeMessage))
  }

  // ---------------------------------------------------------------------------------
  // The handlers shared by both entities

  /** Get: bind the id, look the record up, answer with it. A binding error that is not
      a validation error is passed over and the id parsed as it is. */
  function Get(entity: Entity, atoi: string -> Parsed, uri: Binding, raw: string,
               detailErr: Option<DriverError>): Outcome
  {
    if uri.Invalid? then Outcome([], ViolationResponse(uri.errs))
    else
      var calls := [DetailCall(entity, IdOf(atoi, raw))];
      if detailErr.Some? then Outcome(calls, DetailFailure(entity, detailErr.value))
      else Outcome(calls, Json(StatusOK, Record(entity)))
  }

  /** Update: bind the id and the JSON body, look the record up, and only then write
      it. A body whose binding failed other than by validation is left as far as it
      decoded (zero-valued when nothing decoded), unvalidated, and that is what gets
      written. */
  function Update(entity: Entity, atoi: string -> Parsed, uri: Binding, raw: string, body: Binding,
                  detailErr: Option<DriverError>, updateErr: Option<DriverError>): Outcome
  {
    if uri.Invalid? then Outcome([], ViolationResponse(uri.errs))
    else if body.Invalid? then Outcome([], ViolationResponse(body.errs))
    else
      var id := IdOf(atoi, raw);
      if detailErr.Some? then Outcome([DetailCall(entity, id)], DetailFailure(entity, detailErr.value))
      else
        var calls := [DetailCall(entity, id), UpdateCall(entity, id, body.Bound?)];
        if updateErr.Some? then Outcome(calls, Json(StatusInternalServerError, Message(MistakeMessage)))
        else Outcome(calls, Json(StatusOK, Record(entity)))
  }

  /** Delete: bind the id, look the record up, and only then delete it; the model's
      guard on the affected rows decides whether the delete failed. */
  function Delete(entity: Entity, atoi: string -> Parsed, uri: Binding, raw: string,
                  detailErr: Option<DriverError>, exec: Result<nat, DriverError>): Outcome
  {
    if uri.Invalid? then Outcome([], ViolationResponse(uri.errs))
    else
      var id := IdOf(atoi, raw);
      if detailErr.Some? then Outcome([DetailCall(entity, id)], DetailFailure(entity, detailErr.value))
      else
        var calls := [DetailCall(entity, id), DeleteCall(entity, id)];
        if DeleteOutcome(exec).Some? then Outcome(calls, Json(StatusInternalServerError, Message(MistakeMessage)))
        else Outcome(calls, Json(StatusOK, Message(RemovedMessage(entity))))
  }

  /** The statements a listing model's Fetch sends when the handler set the accepted
      page and limit on it: the page query uses the page as Fetch clamped it, and the
      book model passes the author filter on to both statements. */
  function ListingStatements(entity: Entity, page: int, limit: int, authorID: Option<int>,
                             store: ListingStore): seq<Statement>
    requires limit > 0
  {
    var clamped := if store.connErr.None? && store.count.Success? then Paginate(page, limit, store.count.value).page
                   else page;
    match entity
    case Author => AuthorStatements(store, limit, clamped)
    case Book => BookStatements(store, authorID, limit, clamped)
  }

  /** The listing handlers after any URI check: page, then limit, then the model's
      Fetch (with the given author filter) and its metadata, or 500 if Fetch failed. */
  function ListingOutcome(entity: Entity, atoi: string -> Parsed, pageQ: Option<string>, limitQ: Option<string>,
                          authorID: Option<int>, store: ListingStore): Outcome
  {
    match PageParam(atoi, pageQ)
    case Failure(r) => Outcome([], r)
    case Success(page) =>
      match LimitParam(atoi, limitQ)
      case Failure(r) => Outcome([], r)
      case Success(limit) =>
        var calls := [FetchCall(entity, page, limit, authorID, ListingStatements(entity, page, limit, authorID, store))];
        if FetchError(store).Some? then Outcome(calls, Json(StatusInternalServerError, Message(MistakeMessage)))
        else Outcome(calls, Json(StatusOK, Listing(entity, Paginate(page, limit, store.count.value))))
  }

  // ---------------------------------------------------------------------------------
  // Properties of the parameter checks

  /** A page is accepted exactly when it parses and is at least 1, and is then used
      as parsed; every rejection is the same 422 message. */
  lemma PageParamAccepts(atoi: string -> Parsed, q: Option<string>)
    ensures var r := PageParam(atoi, q);
      var p := atoi(DefaultQuery(q, "1"));
      && (r.Success? <==> p.ok && p.value >= 1)
      && (r.Success? ==> r.value == p.value && r.value >= 1)
      && (r.Failure? ==> r.error == Json(StatusUnprocessableEntity, Message(PageMessage)))
  {
  }

  /** A limit is accepted exactly when it parses and lies in 5..100. */
  lemma LimitParamAccepts(atoi: string -> Parsed, q: Option<string>)
    ensures var r := LimitParam(atoi, q);
      var p := atoi(DefaultQuery(q, "10"));
      && (r.Success? <==> p.ok && 5 <= p.value <= 100)
      && (r.Success? ==> r.value == p.value && 5 <= r.value <= 100)
      && (r.Failure? ==> r.error == Json(StatusUnprocessableEntity, Message(LimitMessage)))
  {
  }

  /** Absent parameters mean page 1 and limit 10, for an Atoi that reads those digits. */
  lemma ParamDefaults(atoi: string -> Parsed)
    requires atoi("1") == Parsed(1, true) && atoi("10") == Parsed(10, true)
    ensures PageParam(atoi, None) == Success(1)
    ensures LimitParam(atoi, None) == Success(10)
  {
  }

  /** Only a missing row gives 404; every other lookup failure gives 500. */
  lemma DetailFailureStatus(entity: Entity, e: DriverError)
    ensures DetailFailure(entity, e).Json?
    ensures DetailFailure(entity, e).status == StatusNotFound <==> e == ErrNoRows
    ensures e != ErrNoRows ==> DetailFailure(entity, e) == Json(StatusInternalServerError, Message(MistakeMessage))
  {
  }

  // ---------------------------------------------------------------------------------
  // Properties of Get, Update and Delete

  /** A URI binding error that is not a validation error changes nothing: the handler
      behaves as if the binding had succeeded. */
  lemma UriFailureIgnored(entity: Entity, atoi: string -> Parsed, raw: string, body: Binding,
                          detailErr: Option<DriverError>, updateErr: Option<DriverError>,
                          exec: Result<nat, DriverError>)
    ensures Get(entity, atoi, Failed, raw, detailErr) == Get(entity, atoi, Bound, raw, detailErr)
    ensures Update(entity, atoi, Failed, raw, body, detailErr, updateErr)
         == Update(entity, atoi, Bound, raw, body, detailErr, updateErr)
    ensures Delete(entity, atoi, Failed, raw, detailErr, exec) == Delete(entity, atoi, Bound, raw, detailErr, exec)
  {
  }

  /** Get answers with the record exactly when the binding validated and the lookup
      succeeded; the lookup is the only store call, made with the parsed id. */
  lemma GetResponses(entity: Entity, atoi: string -> Parsed, uri: Binding, raw: string,
                     detailErr: Option<DriverError>)
    ensures var o := Get(entity, atoi, uri, raw, detailErr);
      && (o.response == Json(StatusOK, Record(entity)) <==> !uri.Invalid? && detailErr.None?)
      && (uri.Invalid? ==> o == Outcome([], ViolationResponse(uri.errs)))
      && (!uri.Invalid? ==> o.calls == [DetailCall(entity, IdOf(atoi, raw))])
      && (!uri.Invalid? && detailErr == Some(ErrNoRows) ==>
            o.response == Json(StatusNotFound, Message(NotFoundMessage(entity))))
  {
  }

  /** The record is written only after its lookup succeeded, under the same id, and a
      missing record is answered with 404 without any write. */
  lemma UpdateOnlyAfterDetail(entity: Entity, atoi: string -> Parsed, uri: Binding, raw: string, body: Binding,
                              detailErr: Option<DriverError>, updateErr: Option<DriverError>)
    ensures var o := Update(entity, atoi, uri, raw, body, detailErr, updateErr);
      var id := IdOf(atoi, raw);
      && ((exists k :: 0 <= k < |o.calls| && o.calls[k].UpdateCall?) <==>
            !uri.Invalid? && !body.Invalid? && detailErr.None?)
      && (!uri.Invalid? && !body.Invalid? && detailErr.None? ==>
            o.calls == [DetailCall(entity, id), UpdateCall(entity, id, body.Bound?)])
      && (!uri.Invalid? && !body.Invalid? && detailErr == Some(ErrNoRows) ==>
            o == Outcome([DetailCall(entity, id)], Json(StatusNotFound, Message(NotFoundMessage(entity)))))
  {
    var o := Update(entity, atoi, uri, raw, body, detailErr, updateErr);
    if !(!uri.Invalid? && !body.Invalid? && detailErr.None?) {
      forall k | 0 <= k < |o.calls|
        ensures !o.calls[k].UpdateCall?
      {
        assert o.calls[k].DetailCall?;
      }
    } else {
      assert o.calls[1].UpdateCall?;
    }
  }

  /** Update answers 200 with the record exactly when both bindings validated and the
      lookup and the write succeeded; a failed write is always 500. The URI's
      violations are reported ahead of the body's. */
  lemma UpdateResponses(entity: Entity, atoi: string -> Parsed, uri: Binding, raw: string, body: Binding,
                        detailErr: Option<DriverError>, updateErr: Option<DriverError>)
    ensures var o := Update(entity, atoi, uri, raw, body, detailErr, updateErr);
      && (o.response == Json(StatusOK, Record(entity)) <==>
            !uri.Invalid? && !body.Invalid? && detailErr.None? && updateErr.None?)
      && (!uri.Invalid? && !body.Invalid? && detailErr.None? && updateErr.Some? ==>
            o.response == Json(StatusInternalServerError, Message(MistakeMessage)))
      && (uri.Invalid? ==> o.response == ViolationResponse(uri.errs))
      && (!uri.Invalid? && body.Invalid? ==> o.response == ViolationResponse(body.errs))
  {
  }

  /** The record is deleted only after its lookup succeeded, under the same id, and a
      missing record is answered with 404 without any delete. */
  lemma DeleteOnlyAfterDetail(entity: Entity, atoi: string -> Parsed, uri: Binding, raw: string,
                              detailErr: Option<DriverError>, exec: Result<nat, DriverError>)
    ensures var o := Delete(entity, atoi, uri, raw, detailErr, exec);
      var id := IdOf(atoi, raw);
      && ((exists k :: 0 <= k < |o.calls| && o.calls[k].DeleteCall?) <==> !uri.Invalid? && detailErr.None?)
      && (!uri.Invalid? && detailErr.None? ==> o.calls == [DetailCall(entity, id), DeleteCall(entity, id)])
      && (!uri.Invalid? && detailErr == Some(ErrNoRows) ==>
            o == Outcome([DetailCall(entity, id)], Json(StatusNotFound, Message(NotFoundMessage(entity)))))
  {
    var o := Delete(entity, atoi, uri, raw, detailErr, exec);
    if !(!uri.Invalid? && detailErr.None?) {
      forall k | 0 <= k < |o.calls|
        ensures !o.calls[k].DeleteCall?
      {
        assert o.calls[k].DetailCall?;
      }
    } else {
      assert o.calls[1].DeleteCall?;
    }
  }

  /** Delete confirms the removal exactly when the statement succeeded and touched at
      most one row; more rows than that, or a store error, give 500. */
  lemma DeleteResponses(entity: Entity, atoi: string -> Parsed, uri: Binding, raw: string,
                        detailErr: Option<DriverError>, exec: Result<nat, DriverError>)
    ensures var o := Delete(entity, atoi, uri, raw, detailErr, exec);
      && (o.response == Json(StatusOK, Message(RemovedMessage(entity))) <==>
            !uri.Invalid? && detailErr.None? && exec.Success? && exec.value <= 1)
      && (!uri.Invalid? && detailErr.None? && !(exec.Success? && exec.value <= 1) ==>
            o.response == Json(StatusInternalServerError, Message(MistakeMessage)))
  {
    DeleteGuard(exec);
  }

  // ---------------------------------------------------------------------------------
  // Properties of the listing handlers

  /** The page is checked before the limit: a bad page is answered with the page
      message whatever the limit, and neither a bad page nor a bad limit reaches the
      model. */
  lemma ListingChecksPageFirst(entity: Entity, atoi: string -> Parsed, pageQ: Option<string>, limitQ: Option<string>,
                               authorID: Option<int>, store: ListingStore)
    ensures var o := ListingOutcome(entity, atoi, pageQ, limitQ, authorID, store);
      && (PageParam(atoi, pageQ).Failure? ==>
            o == Outcome([], Json(StatusUnprocessableEntity, Message(PageMessage))))
      && (PageParam(atoi, pageQ).Success? && LimitParam(atoi, limitQ).Failure? ==>
            o == Outcome([], Json(StatusUnprocessableEntity, Message(LimitMessage))))
      && (o.calls != [] <==> PageParam(atoi, pageQ).Success? && LimitParam(atoi, limitQ).Success?)
      && (o.calls != [] ==>
            var page, limit := PageParam(atoi, pageQ).value, LimitParam(atoi, limitQ).value;
            o.calls == [FetchCall(entity, page, limit, authorID, ListingStatements(entity, page, limit, authorID, store))])
  {
    PageParamAccepts(atoi, pageQ);
    LimitParamAccepts(atoi, limitQ);
  }

  /** A listing is answered with 200 exactly when both parameters are accepted and the
      model's Fetch succeeded, and then its metadata is the pagination of the accepted
      page and limit over the counted rows; a failed Fetch is 500. */
  lemma ListingResponses(entity: Entity, atoi: string -> Parsed, pageQ: Option<string>, limitQ: Option<string>,
                         authorID: Option<int>, store: ListingStore)
    ensures var o := ListingOutcome(entity, atoi, pageQ, limitQ, authorID, store);
      var accepted := PageParam(atoi, pageQ).Success? && LimitParam(atoi, limitQ).Success?;
      && (o.response.Json? && o.response.status == StatusOK <==> accepted && FetchError(store).None?)
      && (accepted && FetchError(store).None? ==>
            o.response == Json(StatusOK, Listing(entity,
              Paginate(PageParam(atoi, pageQ).value, LimitParam(atoi, limitQ).value, store.count.value))))
      && (accepted && FetchError(store).Some? ==>
            o.response == Json(StatusInternalServerError, Message(MistakeMessage)))
  {
  }

  /** The metadata of any 200 listing is consistent: the limit lies in 5..100, the page
      never passes the page count, the pointers are nil exactly at the ends, and over a
      non-empty table the page is in 1..pageTotal, its offset addresses an existing row,
      and Next is offered exactly when rows remain after it. The empty-table case (page
      0, both pointers nil) assumes a store that accepts the page query's negative
      OFFSET; PostgreSQL rejects it, so such a listing answers 500 there. */
  lemma {:induction false} ListingMetadata(entity: Entity, atoi: string -> Parsed, pageQ: Option<string>,
                                          limitQ: Option<string>, authorID: Option<int>, store: ListingStore,
                                          s: PageState)
    requires ListingOutcome(entity, atoi, pageQ, limitQ, authorID, store).response == Json(StatusOK, Listing(entity, s))
    ensures 5 <= s.limit <= 100
    ensures s.page <= s.pageTotal && s.pageTotal == PageTotalOf(s.recordTotal, s.limit)
    ensures s.prev == None <==> s.page < 2
    ensures s.next == None <==> s.page == s.pageTotal
    ensures s.recordTotal > 0 ==>
      && 1 <= s.page
      && 0 <= Offset(s.limit, s.page) < s.recordTotal
      && (s.next.Some? <==> Offset(s.limit, s.page) + s.limit < s.recordTotal)
    ensures s.recordTotal == 0 ==> s.page == 0 && s.prev == None && s.next == None
  {
    PageParamAccepts(atoi, pageQ);
    LimitParamAccepts(atoi, limitQ);
    var page, limit := PageParam(atoi, pageQ).value, LimitParam(atoi, limitQ).value;
    var total := store.count.value;
    assert s == Paginate(page, limit, total);
    PaginateClampsPage(page, limit, total);
    PaginateLinks(page, limit, total);
    if total > 0 {
      PaginateWindow(page, limit, total);
    } else {
      PaginateNoRecords(page, limit);
    }
  }
}
