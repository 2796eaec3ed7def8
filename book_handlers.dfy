/**
 * The book handlers that differ from the author handlers: Add, whose only recognised
 * store error is a missing author, and Fetch, which lists all books (Get, Update and
 * Delete are the shared ones, with entity Book).
 */
module BookHandlers {
  import opened Wrappers
  import opened Utilities
  import opened Models
  import opened BookModel
  import opened Text
  import opened Handlers

  /** The pg code of a foreign-key violation, here a book naming no existing author. */
  const ForeignKeyViolation := "23503"
  const UnknownAuthorMessage := "unknown author"

  /** Add: bind the body, then insert. As in the author handler, a binding error that is
      not a validation error panics and an unrecognised pg code is answered with
      nothing. */
  function Add(body: Binding, insertErr: Option<DriverError>): Outcome
  {
    match body
    case Invalid(errs) => Outcome([], ViolationResponse(errs))
    case Failed => Outcome([], Panic)
    case Bound =>
      var calls := [InsertCall(Book)];
      match insertErr
      case None => Outcome(calls, Json(StatusOK, Record(Book)))
      case Some(PgError(code)) =>
        if code == ForeignKeyViolation then Outcome(calls, Json(StatusUnprocessableEntity, Message(UnknownAuthorMessage)))
        else Outcome(calls, Silent)
      case Some(_) => Outcome(calls, Json(StatusInternalServerError, Message(InsertMistakeMessage)))
  }

  /** Fetch: check page and limit, and list the page of all books, with no author
      filter. */
  method Fetch(atoi: string -> Parsed, pageQ: Option<string>, limitQ: Option<string>, store: ListingStore)
    returns (o: Outcome)
    ensures o == ListingOutcome(Book, atoi, pageQ, limitQ, None, store)
  {
    var page := PageParam(atoi, pageQ);
    if page.Failure? {
      return Outcome([], page.error);
    }
    var limit := LimitParam(atoi, limitQ);
    if limit.Failure? {
      return Outcome([], limit.error);
    }

    var books := new FetchBookDBModel(page.value, limit.value);
    var err, issued := books.Fetch(None, store);
    assert books.sent == issued;
    var calls := [FetchCall(Book, page.value, limit.value, None, books.sent)];
    if err.Some? {
      return Outcome(calls, Json(StatusInternalServerError, Message(MistakeMessage)));
    }
    o := Outcome(calls, Json(StatusOK, Listing(Book, books.State())));
  }

  // ---------------------------------------------------------------------------------
  // Properties

  /** Add's answers: validation errors give 422 and other binding errors a panic, both
      before any insert; after the insert, success gives 200 with the record, the
      foreign-key violation 422 "unknown author", any other pg code no response, and a
      non-pg error 500. */
  lemma AddResponses(body: Binding, insertErr: Option<DriverError>)
    ensures var o := Add(body, insertErr);
      && (body.Invalid? ==> o == Outcome([], ViolationResponse(body.errs)))
      && (body.Failed? ==> o == Outcome([], Panic))
      && (o.calls != [] <==> body.Bound?)
      && (body.Bound? ==> o.calls == [InsertCall(Book)])
      && (body.Bound? ==>
            (o.response == Json(StatusOK, Record(Book)) <==> insertErr.None?))
      && (body.Bound? ==>
            (o.response == Json(StatusUnprocessableEntity, Message(UnknownAuthorMessage)) <==>
             insertErr == Some(PgError(ForeignKeyViolation))))
      && (body.Bound? ==>
            (o.response == Silent <==>
             insertErr.Some? && insertErr.value.PgError? && insertErr.value.code != ForeignKeyViolation))
      && (body.Bound? ==>
            (o.response == Json(StatusInternalServerError, Message(InsertMistakeMessage)) <==>
             insertErr.Some? && !insertErr.value.PgError?))
  {
  }

  /** Fetch always calls the model with no author filter, and a bad page or limit never
      reaches the model. No statement the model then sends carries an author id: the
      count is the bare count over all books and the page query has no WHERE. */
  lemma FetchUnfiltered(atoi: string -> Parsed, pageQ: Option<string>, limitQ: Option<string>, store: ListingStore)
    ensures var o := ListingOutcome(Book, atoi, pageQ, limitQ, None, store);
      && (o.calls != [] <==> PageParam(atoi, pageQ).Success? && LimitParam(atoi, limitQ).Success?)
      && forall k :: 0 <= k < |o.calls| ==>
           && o.calls[k].FetchCall? && o.calls[k].authorID == None && |o.calls[k].sent| <= 2
           && forall j :: 0 <= j < |o.calls[k].sent| ==>
                var st := o.calls[k].sent[j];
                && st.authorID == None
                && (j == 0 <==> st.CountStatement?)
                && (st.CountStatement? ==> st.sql == CountBase)
                && (st.SelectStatement? ==> !Contains(st.sql, AuthorFilter))
  {
    ListingChecksPageFirst(Book, atoi, pageQ, limitQ, None, store);
    ListQueryFilterIffAuthor(false);
    CountQueryFilterIffAuthor(false);
  }
}
