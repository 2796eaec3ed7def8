# bookies: a verified model of its pagination, query assembly, validation and handler logic

bookies is a small REST service for authors and their books, written in Go on gin and
PostgreSQL. This project models the core of it in Dafny:

- the two listing models (`FetchAuthorDBModel`, `FetchBookDBModel`). Their `Fetch` counts
  rows, works out the page count, clamps the requested page, sets the Prev and Next
  pointers on the receiver, and asks for one window of rows. The book variant first
  assembles both of its SQL statements from fragments, depending on whether an author
  filter is given;
- the affected-row guard of the two `Delete` operations, and the `ErrTooManyAffectedRows`
  sentinel;
- `ParseValidationError`, which turns validator failures into the 422 body;
- the `validname` constraint (`^[\p{L} \.'\-]+$`);
- the decisions of every author and book handler: query-parameter checks, binding
  errors, the mapping from store errors to statuses, and the rule that Update and Delete
  run only after a successful Detail.

Layout, one module per file:

| file | module | models |
|---|---|---|
| wrappers.dfy | Wrappers | `Option`, `Result` |
| utilities.dfy | Utilities | pkg/utilities/error.go |
| validators.dfy | Validators | pkg/validators/validname.go |
| models.dfy | Models | the pagination and delete-guard logic both model files share |
| author_model.dfy | AuthorModel | `FetchAuthorDBModel` of pkg/models/author.go |
| book_model.dfy | BookModel | `FetchBookDBModel` and its SQL assembly, pkg/models/book.go |
| text.dfy | Text | substring facts used for the SQL properties |
| handlers.dfy | Handlers | steps both handler files share, and Get, Update and Delete |
| author_handlers.dfy | AuthorHandlers | Add, Fetch and Books of pkg/handlers/author.go |
| book_handlers.dfy | BookHandlers | Add and Fetch of pkg/handlers/book.go |

Modelling choices:

- **Listing models.** Each is a class whose fields are the receiver fields `Fetch`
  updates. `Fetch` updates them step by step, as the Go method does. Its postcondition
  ties the new state to one specification function, `Models.Paginate`, and the
  properties of the pagination are proved about that function.
- **The store.** The store's answers are inputs. For a listing they are a `ListingStore`
  (connection error, count result, page-query error). `Fetch` also returns the
  statements it sent: SQL text, LIMIT, OFFSET and author filter.
- **Handlers.**
  - A handler is a function from what the request carried and what the store answered
    to an `Outcome`.
  - An `Outcome` is the list of model operations invoked plus the response.
  - A response is a JSON status and body, no response at all (`Silent`), or a run-time
    panic (`Panic`).
  - The listing handlers are methods: they create a fresh listing model, set its page
    and limit, and call its `Fetch`.
  - A listing call records every statement sent through the fresh model, so the author
    filter the handler passes to the model appears in the outcome, and so would any
    extra call.
- **`strconv.Atoi`** is a parameter `atoi: string -> Parsed`, which returns the value and
  whether the error was nil.
- **Unicode's letter class `\p{L}`** is a parameter `letter: char -> bool`.

Behaviour worth knowing:

- **Not every store error gets a response.** A pg error on insert whose code the `Add`
  handler does not recognise writes no response (`Silent`).
- **A binding failure does not always give 422.**
  - In `Add`, a body binding error that is not a validation error panics (`Panic`); the
    error goes through an unchecked type assertion.
  - In Get, Update, Delete and Books, a URI binding error of any other kind is ignored.
  - In Update, a JSON body that fails to bind for a non-validation reason leaves the
    body as far as it decoded (zero-valued when nothing decoded), unvalidated, and that
    is what gets written.
- **The existence check is in the handlers.** Get, Update and Delete all call the
  model's `Detail` first. Update and Delete write only after it succeeded. The model's
  Update and Delete do not look the record up.
- **An empty listing sends a negative OFFSET.** When the count is 0 the page is clamped
  to 0, so the page query is sent with OFFSET -limit (pkg/models/author.go:235-256,
  pkg/models/book.go:265-287). PostgreSQL rejects a negative OFFSET (SQLSTATE 2201X). So
  against PostgreSQL all of these answer 500: GET /authors on an empty table, GET /books
  on an empty table, and GET /authors/:id/books for an author with no books or an id
  that does not exist. The model leaves the page query's error free. The 200 page-0
  listing described by `Handlers.ListingMetadata` therefore needs a store that accepts a
  negative OFFSET.
- **A missing author gives 422 only on insert.** A foreign-key violation maps to 422
  only in the book `Add`. Update errors are always 500.

## Model

| member | source | states |
|---|---|---|
| Utilities.DefaultMessageIffUnknownTag | pkg/utilities/error.go:31-48 | the generic "invalid value" message is produced exactly for tags outside the seven the table knows |
| Utilities.RequiredMessageNamesField | pkg/utilities/error.go:32-33 | `required` gives the field name followed by " is required", so the field is recoverable from the message |
| Utilities.FixedTagMessages | pkg/utilities/error.go:34-45 | `email`, `validname` and `number` give their fixed messages, independent of field and parameter |
| Utilities.ParamMessageCarriesParam | pkg/utilities/error.go:38-43 | `gte`, `lte` and `datetime` give their own prefix followed verbatim by the tag parameter |
| Utilities.ParamPrefixesDistinct | pkg/utilities/error.go:38-43 | two parameterised messages that are equal come from the same tag and the same parameter |
| Utilities.MessagesAt | pkg/utilities/error.go:29-56 | the message list has one entry per failure, in order; entry i describes failure i and keeps its field and value |
| Utilities.MessagesAppend | pkg/utilities/error.go:29-56 | translating a concatenation of failure lists is concatenating their translations |
| Utilities.MessagesEmpty | pkg/utilities/error.go:28-29 | no failures give an empty list |
| Utilities.ParseValidationError | pkg/utilities/error.go:27-59 | the loop's append-per-failure result equals the specification list: same length, and entry i describes failure i |
| Validators.ValidName | pkg/validators/validname.go:15-16 | the anchored one-or-more match holds exactly for a non-empty string whose every character is a letter, space, period, apostrophe or hyphen |
| Validators.EmptyNameRejected | pkg/validators/validname.go:15 | the empty string is rejected |
| Validators.DigitRejected | pkg/validators/validname.go:15 | a name containing an ASCII digit is rejected, given that no digit is a letter |
| Validators.ValidNameConcat | pkg/validators/validname.go:15 | the concatenation of two valid names is valid |
| Validators.ValidNameSplit | pkg/validators/validname.go:15 | every non-empty prefix and suffix of a valid name is valid |
| Models.PageTotalIsCeiling | pkg/models/author.go:226-231 | both branches of the page count compute the ceiling of recordTotal / limit: the fewest limit-sized pages holding all rows, zero exactly for zero rows |
| Models.PaginateClampsPage | pkg/models/author.go:233-237 | the page never exceeds the page count; an in-range page is kept, any other becomes the last page |
| Models.PaginateLinks | pkg/models/author.go:239-252 | Prev is nil exactly below page 2, otherwise page - 1; Next is nil exactly on the last page, otherwise page + 1 |
| Models.PaginateWindow | pkg/models/author.go:226-257 | for page >= 1 over a non-empty table: 1 <= page <= pageTotal, the offset addresses an existing row, Next is offered exactly when rows remain, both pointers lie within 1..pageTotal |
| Models.PaginateNoRecords | pkg/models/author.go:226-257 | over an empty table every accepted page becomes 0, both pointers are nil and the offset is -limit |
| Models.OffsetNegativeIffEmpty | pkg/models/author.go:254-257 | for an accepted page the offset handed to the page query is negative exactly when the table is empty |
| Models.DeleteGuard | pkg/models/author.go:185-194 | Delete returns ErrTooManyAffectedRows exactly when more than one row was affected, succeeds for 0 or 1, passes store errors through (book.go:199-208 is identical) |
| AuthorModel.FetchAuthorDBModel.constructor | pkg/handlers/author.go:66-68 | a fresh listing model holds the requested page and limit, zero metadata and no statements sent |
| AuthorModel.FetchAuthorDBModel.Fetch | pkg/models/author.go:198-267 | the error is the first failing store step; a failed connection or count leaves the metadata unchanged; otherwise the fields hold Paginate of the old page, limit and counted total; the statements sent are the count, then the page query at offset limit * (page - 1); they are appended to the model's record of everything sent through it |
| BookModel.NoParameterInSelect | pkg/models/book.go:213-225 | the select list and join of the page query contain no named parameter |
| BookModel.ListQueryFilterIffAuthor | pkg/models/book.go:227-235 | the page query contains the fragment `WHERE a.id = @author_id` exactly when an author id is given |
| BookModel.ListQueryFrame | pkg/models/book.go:227-235 | the page query starts with the select list and always ends with the ORDER BY ... LIMIT ... OFFSET window |
| BookModel.CountQueryFilterIffAuthor | pkg/models/book.go:245-248 | the count query contains the author join exactly when an author id is given, and is otherwise exactly the base count query |
| BookModel.FetchBookDBModel.constructor | pkg/handlers/book.go:67-69 | a fresh listing model holds the requested page and limit, zero metadata and no statements sent |
| BookModel.FetchBookDBModel.Fetch | pkg/models/book.go:212-293 | as the author Fetch, with both statements built for the optional author filter and carrying it as argument |
| Handlers.PageParamAccepts | pkg/handlers/author.go:53-57 | the page is accepted exactly when it parses and is at least 1; every rejection is 422 with the page message (book.go:54-58 is identical) |
| Handlers.LimitParamAccepts | pkg/handlers/author.go:60-64 | the limit is accepted exactly when it parses and lies in 5..100; every rejection is 422 with the limit message |
| Handlers.ParamDefaults | pkg/handlers/author.go:53-60 | absent page and limit mean 1 and 10 |
| Handlers.DetailFailureStatus | pkg/handlers/author.go:94-101 | a failed lookup gives 404 "<entity> not found" exactly for no row, 500 otherwise |
| Handlers.UriFailureIgnored | pkg/handlers/author.go:83-92 | a URI binding error that is not a validation error changes nothing in Get, Update or Delete |
| Handlers.GetResponses | pkg/handlers/author.go:81-104 | Get answers 200 with the record exactly when the id validated and the lookup succeeded, looking up the parsed id; a missing row gives 404 (book.go:82-105 is identical) |
| Handlers.UpdateOnlyAfterDetail | pkg/handlers/author.go:126-142 | a write happens exactly when both bindings validated and the lookup succeeded, and then right after the lookup of the same id; a missing row gives 404 and no write (book.go:127-144 is identical) |
| Handlers.UpdateResponses | pkg/handlers/author.go:107-145 | Update answers 200 with the record exactly when both bindings validated and the lookup and the write succeeded; a failed write is 500; URI violations are reported before body violations |
| Handlers.DeleteOnlyAfterDetail | pkg/handlers/author.go:158-174 | a delete happens exactly when the id validated and the lookup succeeded, right after the lookup of the same id; a missing row gives 404 and no delete (book.go:160-176 is identical) |
| Handlers.DeleteResponses | pkg/handlers/author.go:170-176 | Delete answers 200 "<Entity> Removed" exactly when the statement succeeded on at most one row; too many rows or a store error give 500 |
| Handlers.ListingChecksPageFirst | pkg/handlers/author.go:53-70 | a bad page gives the page message whatever the limit; a good page and bad limit give the limit message; the model is called exactly when both are accepted, with those values, and the call records the statements that model's Fetch sends for them |
| Handlers.ListingResponses | pkg/handlers/author.go:66-77 | a listing answers 200 exactly when both parameters are accepted and Fetch succeeded, with the pagination of the accepted page and limit over the counted rows; a failed Fetch gives 500 |
| Handlers.ListingMetadata | pkg/handlers/author.go:51-78 | every 200 listing has limit in 5..100, page <= pageTotal, pointers nil exactly at the ends, and over a non-empty table a page in 1..pageTotal whose offset addresses an existing row |
| AuthorHandlers.Fetch | pkg/handlers/author.go:51-78 | the method that fills and runs a FetchAuthorDBModel answers as the listing specification with no author filter, and the statements it records are everything sent through the fresh model |
| AuthorHandlers.Books | pkg/handlers/author.go:180-215 | the method that fills and runs a FetchBookDBModel answers as the specification: the URI check, then the book listing filtered by the URI's id; the recorded statements are everything sent through the fresh model, so the one Fetch it runs is given the URI's id |
| AuthorHandlers.AddResponses | pkg/handlers/author.go:22-48 | validation errors give 422, other binding errors panic, both before the insert; a successful insert gives 200 with the record, pg code 23505 gives 409 "email already registered", any other pg code no response, a non-pg error 500 |
| AuthorHandlers.FetchUnfiltered | pkg/handlers/author.go:66-70 | the author listing calls the model exactly when page and limit are accepted, never with an author filter; the model sends at most the count over all authors and then the page query, neither carrying an author id |
| AuthorHandlers.BooksFilterByUriAuthor | pkg/handlers/author.go:180-208 | Books checks the URI, then page, then limit, and calls the book listing filtered by the id parsed from the URI; every statement sent carries that id, the count contains the authors join and the page query the author WHERE |
| BookHandlers.Fetch | pkg/handlers/book.go:51-79 | the method that fills and runs a FetchBookDBModel answers as the listing specification with no author filter; the recorded statements are everything sent through the fresh model, so its Fetch is only ever called with nil |
| BookHandlers.AddResponses | pkg/handlers/book.go:23-49 | as the author Add, with pg code 23503 giving 422 "unknown author" |
| BookHandlers.FetchUnfiltered | pkg/handlers/book.go:67-71 | the book listing calls the model exactly when page and limit are accepted, always with no author filter; no statement sent carries an author id, the count is the bare count over all books and the page query has no author WHERE |
| Utilities.TagMessage | pkg/utilities/error.go:31-48 | no contract of its own; stated by DefaultMessageIffUnknownTag, RequiredMessageNamesField, FixedTagMessages, ParamMessageCarriesParam and ParamPrefixesDistinct |
| Utilities.Describe | pkg/utilities/error.go:51-55 | no contract of its own; stated by MessagesAt |
| Utilities.Messages | pkg/utilities/error.go:28-58 | no contract of its own; stated by MessagesAt, MessagesAppend and MessagesEmpty, and ParseValidationError is proved equal to it |
| Validators.NameChar | pkg/validators/validname.go:15 | no contract of its own; the character class used by ValidName's contract |
| Models.Paginate | pkg/models/author.go:226-252 | no contract of its own; stated by PageTotalIsCeiling, PaginateClampsPage, PaginateLinks, PaginateWindow, PaginateNoRecords and OffsetNegativeIffEmpty, and both Fetch methods are proved to reach it |
| Models.FetchError | pkg/models/author.go:214-264 | no contract of its own; both Fetch methods are proved to return it |
| Models.DeleteOutcome | pkg/models/author.go:185-194 | no contract of its own; stated by DeleteGuard |
| BookModel.ListQuery | pkg/models/book.go:227-235 | no contract of its own; stated by ListQueryFilterIffAuthor and ListQueryFrame |
| BookModel.CountQuery | pkg/models/book.go:245-248 | no contract of its own; stated by CountQueryFilterIffAuthor |
| Handlers.PageParam | pkg/handlers/author.go:53-57 | no contract of its own; stated by PageParamAccepts and ParamDefaults |
| Handlers.LimitParam | pkg/handlers/author.go:60-64 | no contract of its own; stated by LimitParamAccepts and ParamDefaults |
| Handlers.DetailFailure | pkg/handlers/author.go:94-101 | no contract of its own; stated by DetailFailureStatus |
| Handlers.Get | pkg/handlers/author.go:81-104 | no contract of its own; stated by GetResponses and UriFailureIgnored (book.go:82-105 is identical) |
| Handlers.Update | pkg/handlers/author.go:107-145 | no contract of its own; stated by UpdateOnlyAfterDetail, UpdateResponses and UriFailureIgnored (book.go:108-147 is identical) |
| Handlers.Delete | pkg/handlers/author.go:148-177 | no contract of its own; stated by DeleteOnlyAfterDetail, DeleteResponses and UriFailureIgnored (book.go:150-179 is identical) |
| Handlers.ListingOutcome | pkg/handlers/author.go:51-78 | no contract of its own; stated by ListingChecksPageFirst, ListingResponses and ListingMetadata, and the listing handler methods are proved equal to it |
| Handlers.ListingStatements | pkg/models/author.go:215-264 | no contract of its own; the statements a listing model sends for the accepted page and limit, the page query at the clamped page; both Fetch methods are proved to return them |
| AuthorHandlers.Add | pkg/handlers/author.go:23-48 | no contract of its own; stated by AuthorHandlers.AddResponses |
| AuthorHandlers.BooksOutcome | pkg/handlers/author.go:180-215 | no contract of its own; stated by BooksFilterByUriAuthor, and AuthorHandlers.Books is proved equal to it |
| BookHandlers.Add | pkg/handlers/book.go:24-49 | no contract of its own; stated by BookHandlers.AddResponses |

## Left out

- **SQL execution, row scanning, transactions and the connection pool.** These include
  `pgx`, `pgxscan`, `Begin`, `Commit`/`Rollback` and pkg/database/pool.go. They are
  foreign calls into the driver and are replaced by the store answers given as inputs.
  The listing's `Data` rows are therefore not modelled.
- **The other model operations.** `Insert`, `Detail` and `Update` of both models, and
  the SQL of `Delete`, enter only as their returned error. `Delete` enters as its
  RowsAffected result.
- **Logging.** `log.Println`, `fmt.Println` and the error text of
  `ErrTooManyAffectedRows` only reach the server log.
- **gin's mechanics.**
  - JSON encoding of responses and request binding are left out. A Go nil slice encodes
    as `null`, so a 422 body from an empty failure list reads `null`.
  - What gin does after a handler is left out: gin.Default's recovery turns `Panic` into
    500, and `Silent` leaves gin's default 200 with an empty body.
- **Validator internals.** The go-playground library decides which tags fail; the model
  works on the tag names it reports.
- **Unicode.** The letter class is a parameter. The model does not capture how invalid
  UTF-8 is matched.
- **Floating point.** `math.Ceil(float64(a) / float64(b))` is modelled as integer ceiling
  division. The two agree for every count below 2^40, far beyond any table here.
- **Integer width.** Go's 64-bit `int` is an unbounded integer here. The offset
  `limit * (page - 1)` cannot overflow for any count a table can hold.
- **A failed count scan.** When the count's `Scan` fails, the Fetch model leaves the
  fields unchanged. `Scan` writes nothing on error, and the handler answers 500 either
  way.
- **Router and startup.** Startup, environment loading and route registration contain no
  logic beyond wiring. This covers cmd/server/main.go, pkg/app/rest_server.go and
  pkg/handlers/handler.go.
