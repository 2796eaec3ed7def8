/**
 * The book listing model, FetchBookDBModel. Its Fetch takes an optional author id: with
 * one, both the page query and the count query are narrowed to that author's books.
 * The SQL text is assembled by appending fragments, and what matters about it is which
 * fragments end up where.
 */
module BookModel {
  import opened Wrappers
  import opened Utilities
  import opened Models
  import opened Text

  /** The page query's select list and join, before any filter or ordering, one line
      of the SQL text per constant (the author's book count spans three). */
  const SelectKeyword := "SELECT\n"
  const BookIdColumn := "\tb.id AS id,\n"
  const BookTitleColumn := "\tb.title AS title,\n"
  const BookDescriptionColumn := "\tb.description AS description,\n"
  const BookPublishDateColumn := "\tb.publish_date AS publish_date,\n"
  const AuthorIdColumn := "\ta.id AS \"author.id\",\n"
  const AuthorNameColumn := "\ta.name AS \"author.name\",\n"
  const AuthorEmailColumn := "\ta.email as \"author.email\",\n"
  const AuthorBirthDateColumn := "\ta.birth_date AS \"author.birth_date\",\n"
  const AuthorBioColumn := "\ta.bio AS \"author.bio\",\n"
  const BookTotalSubquery := "\t(SELECT count(id) FROM books"
  const BookTotalWhere := " WHERE author_id = a.id)"
  const BookTotalAlias := " AS \"author.book_total\"\n"
  const FromBooks := "\tFROM books b\n"
  const JoinAuthors := "\tLEFT JOIN authors a ON a.id = b.author_id"
  const BookSelect :=
    SelectKeyword + BookIdColumn + BookTitleColumn + BookDescriptionColumn + BookPublishDateColumn
    + AuthorIdColumn + AuthorNameColumn + AuthorEmailColumn + AuthorBirthDateColumn + AuthorBioColumn
    + BookTotalSubquery + BookTotalWhere + BookTotalAlias
    + FromBooks + JoinAuthors

  /** The author filter of the page query. */
  const AuthorFilter := " WHERE a.id = @author_id "

  /** The ordering and window of the page query, `" ORDER BY b.id DESC\n\tLIMIT @limit OFFSET @offset"`,
      split around its two named parameters. */
  const OrderHead := " ORDER BY b.id DESC\n\tLIMIT "
  const LimitArgument := "limit OFFSET "
  const OffsetArgument := "offset"
  const OrderQuery := OrderHead + "@" + LimitArgument + "@" + OffsetArgument

  /** The count query over all books, and the join that narrows it to one author. */
  const CountBase := "SELECT COUNT(books.id) AS total FROM books"
  const CountJoin := " JOIN authors ON authors.id = books.author_id where authors.id = @author_id"

  /** The page query for a listing with or without an author filter. */
  function ListQuery(filtered: bool): string
  {
    (if filtered then BookSelect + AuthorFilter else BookSelect) + OrderQuery
  }

  /** The count query for a listing with or without an author filter. */
  function CountQuery(filtered: bool): string
  {
    if filtered then CountBase + CountJoin else CountBase
  }

  /** The statements Fetch sends, given how far it gets. */
  function BookStatements(store: ListingStore, authorID: Option<int>, limit: int, page: int): seq<Statement>
  {
    var filtered := authorID.Some?;
    if store.connErr.Some? then []
    else if store.count.Failure? then [CountStatement(CountQuery(filtered), authorID)]
    else [CountStatement(CountQuery(filtered), authorID),
          SelectStatement(ListQuery(filtered), limit, Offset(limit, page), authorID)]
  }

  // ---------------------------------------------------------------------------------
  // Which fragments the assembled queries contain
  //
  // The NoParameterIn* lemmas are split one per line or short group of lines of the
  // select list only to keep each string-literal fact within the solver's budget.

  /** The select list never uses a named parameter: no line of it contains `@`. */
  lemma NoParameterInSelect()
    ensures '@' !in BookSelect
  {
    NoParameterInBookColumns();
    NoParameterInAuthorIdAndName();
    NoParameterInAuthorEmail();
    NoParameterInAuthorBirthDate();
    NoParameterInAuthorBio();
    NoParameterInBookTotal();
    NoParameterInJoin();
  }

  lemma NoParameterInBookColumns()
    ensures '@' !in SelectKeyword && '@' !in BookIdColumn && '@' !in BookTitleColumn
    ensures '@' !in BookDescriptionColumn && '@' !in BookPublishDateColumn
  {
    NoParameterInBookDescription();
    NoParameterInBookPublishDate();
  }

  lemma NoParameterInBookDescription()
    ensures '@' !in BookDescriptionColumn
  {
  }

  lemma NoParameterInBookPublishDate()
    ensures '@' !in BookPublishDateColumn
  {
  }

  lemma NoParameterInAuthorIdAndName()
    ensures '@' !in AuthorIdColumn && '@' !in AuthorNameColumn
  {
  }

  lemma NoParameterInAuthorEmail()
    ensures '@' !in AuthorEmailColumn
  {
  }

  lemma NoParameterInAuthorBirthDate()
    ensures '@' !in AuthorBirthDateColumn
  {
  }

  lemma NoParameterInAuthorBio()
    ensures '@' !in AuthorBioColumn
  {
  }

  lemma NoParameterInBookTotal()
    ensures '@' !in BookTotalSubquery && '@' !in BookTotalWhere && '@' !in BookTotalAlias
  {
    NoParameterInBookTotalSubquery();
  }

  lemma NoParameterInBookTotalSubquery()
    ensures '@' !in BookTotalSubquery
  {
  }

  lemma NoParameterInJoin()
    ensures '@' !in FromBooks && '@' !in JoinAuthors
  {
    NoParameterInJoinAuthors();
  }

  lemma NoParameterInJoinAuthors()
    ensures '@' !in JoinAuthors
  {
  }

  /** Outside its two parameters the window has no `@` either. */
  lemma NoParameterInOrder()
    ensures '@' !in OrderHead && '@' !in LimitArgument && '@' !in OffsetArgument
  {
  }

  /** Without a filter the page query is the `@`-free text before the window, then
      `@limit OFFSET `, then `@offset`. */
  lemma UnfilteredListQueryMarks()
    ensures var x := BookSelect + OrderHead;
      && '@' !in x
      && ListQuery(false) == x + ['@'] + LimitArgument + ['@'] + OffsetArgument
  {
    NoParameterInSelect();
    NoParameterInOrder();
  }

  /** The filter names its parameter: `@` followed by `a`, at positions 14 and 15. */
  lemma AuthorFilterParameter()
    ensures |AuthorFilter| == 25 && AuthorFilter[14] == '@' && AuthorFilter[15] == 'a'
  {
  }

  /** The page query carries the author filter exactly when an author id is given:
      without one, every `@` in it starts `@limit` or `@offset`, never `@a`. */
  lemma {:induction false} ListQueryFilterIffAuthor(filtered: bool)
    ensures Contains(ListQuery(filtered), AuthorFilter) <==> filtered
  {
    if filtered {
      ContainsMiddle(BookSelect, AuthorFilter, OrderQuery);
    } else {
      UnfilteredListQueryMarks();
      NoParameterInOrder();
      PairOnlyAtMarks(BookSelect + OrderHead, LimitArgument, OffsetArgument, '@', 'a');
      AuthorFilterParameter();
      MissingPairNotContained(ListQuery(false), AuthorFilter, 14);
    }
  }

  /** Whatever the filter, the page query starts with the select list and ends with the
      ORDER BY ... LIMIT ... OFFSET ... window, so the window is always the last part. */
  lemma ListQueryFrame(filtered: bool)
    ensures var s := ListQuery(filtered);
      && |s| >= |BookSelect| + |OrderQuery|
      && s[..|BookSelect|] == BookSelect
      && s[|s| - |OrderQuery|..] == OrderQuery
  {
  }

  /** The count query contains the author join exactly when an author id is given, and
      without one it is exactly the base count query. */
  lemma {:induction false} CountQueryFilterIffAuthor(filtered: bool)
    ensures Contains(CountQuery(filtered), CountJoin) <==> filtered
    ensures !filtered ==> CountQuery(filtered) == CountBase
  {
    if filtered {
      ContainsMiddle(CountBase, CountJoin, "");
      assert CountBase + CountJoin + "" == CountQuery(true);
    } else {
      assert '@' !in CountBase;
      assert CountJoin[|CountJoin| - 10] == '@';
      MissingCharNotContained(CountBase, CountJoin, |CountJoin| - 10);
    }
  }

  class FetchBookDBModel {
    var page: int
    var limit: int
    var next: Option<int>
    var prev: Option<int>
    var recordTotal: int
    var pageTotal: int
    /** Every statement sent through this model so far, in order. */
    var sent: seq<Statement>

    /** The metadata fields as one value. */
    function State(): PageState
      reads this
    {
      PageState(page, limit, next, prev, recordTotal, pageTotal)
    }

    /** `new(models.FetchBookDBModel)` followed by the handler setting Page and Limit. */
    constructor (page: int, limit: int)
      ensures State() == PageState(page, limit, None, None, 0, 0)
      ensures sent == []
    {
      this.page := page;
      this.limit := limit;
      next, prev := None, None;
      recordTotal, pageTotal := 0, 0;
      sent := [];
    }

    /** Build both queries for the optional author filter, count the matching books,
        derive the metadata as the author listing does, and query the page. If the
        connection or the count fails the metadata stays as it was. Every statement sent
        is also appended to `sent`. */
    method Fetch(authorID: Option<int>, store: ListingStore) returns (err: Option<ModelError>, issued: seq<Statement>)
      requires limit > 0
      modifies this
      ensures err == FetchError(store)
      ensures store.connErr.Some? || store.count.Failure? ==> State() == old(State())
      ensures store.connErr.None? && store.count.Success? ==>
        State() == Paginate(old(page), old(limit), store.count.value)
      ensures issued == BookStatements(store, authorID, limit, page)
      ensures sent == old(sent) + issued
    {
      var query := BookSelect;
      var orderQuery := OrderQuery;
      if authorID.Some? {
        query := query + AuthorFilter;
      }
      query := query + orderQuery;

      issued := [];
      if store.connErr.Some? {
        return Some(Driver(store.connErr.value)), issued;
      }

      var countQuery := CountBase;
      if authorID.Some? {
        countQuery := countQuery + CountJoin;
      }

      issued := issued + [CountStatement(countQuery, authorID)];

      sent := sent + [CountStatement(countQuery, authorID)];
      if store.count.Failure? {
        return Some(Driver(store.count.error)), issued;
      }
      var total := store.count.value;
      recordTotal := total;

      if total % limit > 0 {
        pageTotal := CeilDiv(total, limit);
      } else {
        pageTotal := total / limit;
      }

      if page > pageTotal {
        page := pageTotal;
      }

      if page < 2 {
        prev := None;
      } else {
        prev := Some(page - 1);
      }

      if page == pageTotal {
        next := None;
      } else {
        next := Some(page + 1);
      }

      issued := issued + [SelectStatement(query, limit, limit * (page - 1), authorID)];
      sent := sent + [SelectStatement(query, limit, limit * (page - 1), authorID)];
      if store.selectErr.Some? {
        return Some(Driver(store.selectErr.value)), issued;
      }
      err := None;
    }
  }
}
