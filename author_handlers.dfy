/**
 * The author handlers: Add, Fetch and Books, the ones that differ from the book
 * handlers (Get, Update and Delete are the shared ones, with entity Author). Fetch and
 * Books fill a fresh listing model with the accepted page and limit and run its Fetch.
 */
module AuthorHandlers {
  import opened Wrappers
  import opened Utilities
  import opened Models
  import opened AuthorModel
  import opened BookModel
  import opened Text
  import opened Handlers

  /** The pg code of a unique-key violation, here a second author with the same email. */
  const UniqueViolation := "23505"
  const EmailTakenMessage := "email already registered"

  /** Add: bind the body, then insert. The body's binding error is converted to
      validation errors unconditionally, so an error of any other kind panics. A pg
      error whose code is not the unique violation is answered with nothing. */
  function Add(body: Binding, insertErr: Option<DriverError>): Outcome
  {
    match body
    case Invalid(errs) => Outcome([], ViolationResponse(errs))
    case Failed => Outcome([], Panic)
    case Bound =>
      var calls := [InsertCall(Author)];
      match insertErr
      case None => Outcome(calls, Json(StatusOK, Record(Author)))
      case Some(PgError(code)) =>
        if code == UniqueViolation then Outcome(calls, Json(StatusConflict, Message(EmailTakenMessage)))
        else Outcome(calls, Silent)
      case Some(_) => Outcome(calls, Json(StatusInternalServerError, Message(InsertMistakeMessage)))
  }

  /** What Books does: the URI check, then the book listing narrowed to the id's
      author. */
  function BooksOutcome(atoi: string -> Parsed, uri: Binding, raw: string, pageQ: Option<string>,
                        limitQ: Option<string>, store: ListingStore): Outcome
  {
    if uri.Invalid? then Outcome([], ViolationResponse(uri.errs))
    else ListingOutcome(Book, atoi, pageQ, limitQ, Some(IdOf(atoi, raw)), store)
  }

  /** Fetch: check page and limit, and list the authors' page. */
  method Fetch(atoi: string -> Parsed, pageQ: Option<string>, limitQ: Option<string>, store: ListingStore)
    returns (o: Outcome)
    ensures o == ListingOutcome(Author, atoi, pageQ, limitQ, None, store)
  {
    var page := PageParam(atoi, pageQ);
    if page.Failure? {
      return Outcome([], page.error);
    }
    var limit := LimitParam(atoi, limitQ);
    if limit.Failure? {
      return Outcome([], limit.error);
    }

    var authors := new FetchAuthorDBModel(page.value, limit.value);
    var err, issued := authors.Fetch(store);
    assert authors.sent == issued;
    var calls := [FetchCall(Author, page.value, limit.value, None, authors.sent)];
    if err.Some? {
      return Outcome(calls, Json(StatusInternalServerError, Message(MistakeMessage)));
    }
    o := Outcome(calls, Json(StatusOK, Listing(Author, authors.State())));
  }

  /** Books: check the URI, page and limit, and list the books of the author whose id
      the URI names. */
  method Books(atoi: string -> Parsed, uri: Binding, raw: string, pageQ: Option<string>,
               limitQ: Option<string>, store: ListingStore)
    returns (o: Outcome)
    ensures o == BooksOutcome(atoi, uri, raw, pageQ, limitQ, store)
  {
    if uri.Invalid? {
      return Outcome([], ViolationResponse(uri.errs));
    }
    var page := PageParam(atoi, pageQ);
    if page.Failure? {
      return Outcome([], page.error);
    }
    var limit := LimitParam(atoi, limitQ);
    if limit.Failure? {
      return Outcome([], limit.error);
    }

    var authorID := IdOf(atoi, raw);
    var books := new FetchBookDBModel(page.value, limit.value);
    var err, issued := books.Fetch(Some(authorID), store);
    assert books.sent == issued;
    var calls := [FetchCall(Book, page.value, limit.value, Some(authorID), books.sent)];
    if err.Some? {
      return Outcome(calls, Json(StatusInternalServerError, Message(MistakeMessage)));
    }
    o := Outcome(calls, Json(StatusOK, Listing(Book, books.State())));
  }

  // ---------------------------------------------------------------------------------
  // Properties

  /** Add's answers: validation errors give 422 and other binding errors a panic, both
      before any insert; after the insert, success gives 200 with the record, the
      unique violation 409, any other pg code no response, and a non-pg error 500. */
  lemma AddResponses(body: Binding, insertErr: Option<DriverError>)
    ensures var o := Add(body, insertErr);
      && (body.Invalid? ==> o == Outcome([], ViolationResponse(body.errs)))
      && (body.Failed? ==> o == Outcome([], Panic))
      && (o.calls != [] <==> body.Bound?)
      && (body.Bound? ==> o.calls == [InsertCall(Author)])
      && (body.Bound? ==>
            (o.response == Json(StatusOK, Record(Author)) <==> insertErr.None?))
      && (body.Bound? ==>
            (o.response == Json(StatusConflict, Message(EmailTakenMessage)) <==>
             insertErr == Some(PgError(UniqueViolation))))
      && (body.Bound? ==>
            (o.response == Silent <==>
             insertErr.Some? && insertErr.value.PgError? && insertErr.value.code != UniqueViolation))
      && (body.Bound? ==>
            (o.response == Json(StatusInternalServerError, Message(InsertMistakeMessage)) <==>
             insertErr.Some? && !insertErr.value.PgError?))
  {
  }

  /** Fetch never narrows the listing to an author, and a bad page or limit never
      reaches the model. The model sends the count over all authors and then the page
      query, neither with an author filter. */
  lemma FetchUnfiltered(atoi: string -> Parsed, pageQ: Option<string>, limitQ: Option<string>, store: ListingStore)
    ensures var o := ListingOutcome(Author, atoi, pageQ, limitQ, None, store);
      && (o.calls != [] <==> PageParam(atoi, pageQ).Success? && LimitParam(atoi, limitQ).Success?)
      && forall k :: 0 <= k < |o.calls| ==>
           && o.calls[k].FetchCall? && o.calls[k].entity == Author && o.calls[k].authorID == None
           && |o.calls[k].sent| <= 2
           && forall j :: 0 <= j < |o.calls[k].sent| ==>
                var st := o.calls[k].sent[j];
                st.authorID == None && (if j == 0 then st == CountStatement(CountSql, None) else st.sql == ListSql)
  {
    ListingChecksPageFirst(Author, atoi, pageQ, limitQ, None, store);
  }

  /** Books lists books filtered by the author the URI names, once the URI, page and
      limit have been accepted, in that order; violations in the URI are reported
      before anything about page or limit. Every statement the book model sends
      carries the URI's id, the count joins the authors and the page query has the
      author's WHERE. */
  lemma BooksFilterByUriAuthor(atoi: string -> Parsed, uri: Binding, raw: string, pageQ: Option<string>,
                               limitQ: Option<string>, store: ListingStore)
    ensures var o := BooksOutcome(atoi, uri, raw, pageQ, limitQ, store);
      && (uri.Invalid? ==> o == Outcome([], ViolationResponse(uri.errs)))
      && (o.calls != [] <==> !uri.Invalid? && PageParam(atoi, pageQ).Success? && LimitParam(atoi, limitQ).Success?)
      && (o.calls != [] ==>
            var page, limit, id := PageParam(atoi, pageQ).value, LimitParam(atoi, limitQ).value, Some(IdOf(atoi, raw));
            o.calls == [FetchCall(Book, page, limit, id, ListingStatements(Book, page, limit, id, store))])
      && (!uri.Invalid? && PageParam(atoi, pageQ).Failure? ==>
            o.response == Json(StatusUnprocessableEntity, Message(PageMessage)))
      && forall k :: 0 <= k < |o.calls| ==>
           && o.calls[k].FetchCall? && |o.calls[k].sent| <= 2
           && forall j :: 0 <= j < |o.calls[k].sent| ==>
                var st := o.calls[k].sent[j];
                && st.authorID == Some(IdOf(atoi, raw))
                && (j == 0 <==> st.CountStatement?)
                && (st.CountStatement? ==> Contains(st.sql, CountJoin))
                && (st.SelectStatement? ==> Contains(st.sql, AuthorFilter))
  {
    ListingChecksPageFirst(Book, atoi, pageQ, limitQ, Some(IdOf(atoi, raw)), store);
    ListQueryFilterIffAuthor(true);
    CountQueryFilterIffAuthor(true);
  }
}
