/**
 * The author listing model, FetchAuthorDBModel, whose Fetch counts the authors, works
 * out the page metadata on its own fields and then asks for one page of rows.
 */
module AuthorModel {
  import opened Wrappers
  import opened Utilities
  import opened Models

  /** The page query: authors with their book counts, newest first, one window. */
  const ListSql :=
    "SELECT \n"
    + "\ta.id AS id,\n"
    + "\ta.name AS name,\n"
    + "\ta.email as email,\n"
    + "\ta.birth_date AS birth_date,\n"
    + "\ta.bio AS bio,\n"
    + "\tCOUNT(b.id) AS book_total\n"
    + "\tFROM authors a\n"
    + "\tLEFT JOIN books b ON a.id = b.author_id\n"
    + "\tGROUP BY a.id\n"
    + "\tORDER BY a.id DESC\n"
    + "\tLIMIT @limit OFFSET @offset"

  /** The count query over all authors. */
  const CountSql := "SELECT COUNT(id) AS total FROM authors"

  /** The statements Fetch sends, given how far it gets: nothing without a connection,
      the count, and the page query once the metadata is known. */
  function AuthorStatements(store: ListingStore, limit: int, page: int): seq<Statement>
  {
    if store.connErr.Some? then []
    else if store.count.Failure? then [CountStatement(CountSql, None)]
    else [CountStatement(CountSql, None), SelectStatement(ListSql, limit, Offset(limit, page), None)]
  }

  class FetchAuthorDBModel {
    var page: int
    var limit: int
    var next: Option<int>
    var prev: Option<int>
    var recordTotal: int
    var pageTotal: int
    /** Every statement sent through this model so far, in order. */
    var sent: seq<Statement>

    /** The metadata fields as one value. */
    function State(): PageState
      reads this
    {
      PageState(page, limit, next, prev, recordTotal, pageTotal)
    }

    /** `new(models.FetchAuthorDBModel)` followed by the handler setting Page and Limit. */
    constructor (page: int, limit: int)
      ensures State() == PageState(page, limit, None, None, 0, 0)
      ensures sent == []
    {
      this.page := page;
      this.limit := limit;
      next, prev := None, None;
      recordTotal, pageTotal := 0, 0;
      sent := [];
    }

    /** Count the authors, derive the page count, clamp the page, set Prev and Next, and
        query the page at offset limit * (page - 1). If the connection or the count fails
        the metadata stays as it was; otherwise the fields hold Paginate of the old page
        and limit and the counted total, whatever the page query then does. Every
        statement sent is also appended to `sent`. */
    method Fetch(store: ListingStore) returns (err: Option<ModelError>, issued: seq<Statement>)
      requires limit > 0
      modifies this
      ensures err == FetchError(store)
      ensures store.connErr.Some? || store.count.Failure? ==> State() == old(State())
      ensures store.connErr.None? && store.count.Success? ==>
        State() == Paginate(old(page), old(limit), store.count.value)
      ensures issued == AuthorStatements(store, limit, page)
      ensures sent == old(sent) + issued
    {
      issued := [];
      if store.connErr.Some? {
        return Some(Driver(store.connErr.value)), issued;
      }
      issued := issued + [CountStatement(CountSql, None)];
      sent := sent + [CountStatement(CountSql, None)];
      if store.count.Failure? {
        return Some(Driver(store.count.error)), issued;
      }
      var total := store.count.value;
      recordTotal := total;

      if total % limit > 0 {
        pageTotal := CeilDiv(total, limit);
      } else {
        pageTotal := total / limit;
      }

      if page > pageTotal {
        page := pageTotal;
      }

      if page < 2 {
        prev := None;
      } else {
        prev := Some(page - 1);
      }

      if page == pageTotal {
        next := None;
      } else {
        next := Some(page + 1);
      }

      issued := issued + [SelectStatement(ListSql, limit, limit * (page - 1), None)];
      sent := sent + [SelectStatement(ListSql, limit, limit * (page - 1), None)];
      if store.selectErr.Some? {
        return Some(Driver(store.selectErr.value)), issued;
      }
      err := None;
    }
  }
}
