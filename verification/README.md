# AniList seasonal ETL: fetch, flatten and load, in Dafny

The modelled system fetches one (year, season) unit of anime from the AniList
GraphQL API. It does so page by page, under a rate limit. It then flattens
the nested records into eight relational projections: Anime, WebAsset,
Studio, Genre, Tag, Review, User and Status. Finally it inserts each row into
an embedded DuckDB database whose eight tables have fixed column orders,
primary keys and a CHECK on the anime season.

The Dafny model has one module per part of the program:

- `Basics`: `Option`; flattening of row blocks (what `explode` does to
  rows); decimal text of integers (a cast to a string column); Python's
  string repetition.
- `Records`: the nested records of one unit, the cells of the flat rows, and
  the frame of one unit (`Dataset`).
- `Polars`: the dataframe behaviour the projections rely on. This covers
  `explode`, date joining and strict parsing, epoch conversion, and the
  exceptions involved.
- `Schema`: the table definitions of `src/init_duckdb.py`.
- `Preprocess`: the eight projections of `src/utils/preprocess.py`.
  `PreprocessLemmas` holds what they promise.
- `Fetch`: `api_call`'s request variables and the page loop of `fetch_from`
  in `src/utils/fetch_data.py`. It has a recursive reference definition and
  a loop method proved equal to it.
- `Loader`: `insert_data` of `src/utils/insert_data.py` and the row loop of
  `handle_insert`.
- `Pipeline`: the eight `handle_insert` calls of one unit in
  `src/data_transfer.py`.

Each projection returns one of three things:

- `Rows(columns, rows)`, a frame;
- `Schema501`, the `501` the source returns on `SchemaError`;
- `NoneResult`, the `None` it returns on any other exception.

The steps that can raise are checked in the order the source's method chain
runs them. A nested column on which `unnest` is called is a struct only if
some record holds a value at that level. Otherwise the dataframe library
infers the Null dtype, and `unnest` raises `SchemaError`. A column the
frame lacks raises `ColumnNotFoundError`. That is not a `SchemaError`, so it
gives `None`.

Behaviour worth knowing:

- A unit in which no anime has a review gives `501` from `reviews` and
  `users`: the `nodes` level then holds no struct, so its `unnest` raises
  `SchemaError` (src/utils/preprocess.py:115-118 and 291-294). There is no
  separate "no data" answer (`PreprocessLemmas.NoReviews`).
- A page with no media returns the `(remaining, limit)` pair at whatever
  page it comes, and the pages gathered before it are dropped
  (src/utils/fetch_data.py:112-115, `Fetch.EmptyLaterPage`).
- `response.json()` runs in the `else` branch of the `try`, and the
  `data.Page.media` and `pageInfo.hasNextPage` lookups follow it outside
  the `try` (src/utils/fetch_data.py:109-120). A body that is not JSON or
  lacks those fields lets the exception out of `fetch_from`. Only a failed
  request, missing or non-integer rate-limit headers, or throttling end the
  loop quietly (lines 86-108).
- A date with a null year, month or day becomes a null date: string
  concatenation with a null is null, and parsing a null gives null
  (src/utils/preprocess.py:49-57). A joined text the strict parse rejects
  makes the whole anime projection `None` (`PreprocessLemmas.AnimeBadDate`).
- `insert_data` has no `return` after a successful `execute`, so it returns
  `None` (src/utils/insert_data.py:24-34); its docstring at line 18 says
  `True`. A value a column cannot convert raises an exception that neither
  handler at lines 30-34 catches. The `except` around the row loop of
  `handle_insert` then ends that table's loop (src/data_transfer.py:109-122),
  so the rest of the batch is not tried.

## Model

| member | source | states |
|---|---|---|
| Polars.ExplodeKeepsItems | src/utils/preprocess.py:246 | an exploded list cell is never empty, its non-null cells read back the list in order, and it holds a null exactly when the list is null or empty |
| Polars.ReadJoinDate | src/utils/preprocess.py:49-55 | the text `year-month-day` built from non-negative parts reads back as the same three numbers |
| Polars.JoinDateExample | src/utils/preprocess.py:49-56 | 2014, 4, 2 join to the unpadded text "2014-4-2", which reads back as (2014, 4, 2) |
| Schema.Table | src/init_duckdb.py:46-163 | every table has matching column and type lists, a non-empty duplicate-free key of valid positions, and only Anime carries the Season CHECK |
| Schema.KeysByName | src/init_duckdb.py:54-161 | the key positions name exactly the PRIMARY KEY columns of each table, in order, and the CHECK guards the Season column |
| Preprocess.Anime | src/utils/preprocess.py:18-99 | a frame has the fourteen renamed columns in order and one 14-cell row per record, in record order, each starting with that record's key |
| Preprocess.ColumnsMatch | src/init_duckdb.py:46-163 | the columns each projection ends with are exactly its table's declared columns, in declaration order, which is what a positional insert needs |
| Preprocess.WebAssets | src/utils/preprocess.py:171-205 | a frame has the ten renamed columns and one 10-cell row per record, in order, each starting with that record's key |
| Preprocess.Studios | src/utils/preprocess.py:208-232 | a frame has the columns its final select names, in order, and every row has 5 cells |
| Preprocess.Genres | src/utils/preprocess.py:235-260 | a frame has the columns its final select names, in order, and every row has 4 cells |
| Preprocess.Tags | src/utils/preprocess.py:263-285 | a frame has the columns its final select names, in order, and every row has 7 cells |
| Preprocess.Reviews | src/utils/preprocess.py:102-168 | a frame has the columns its final select names, in order, and every row has 11 cells |
| Preprocess.Users | src/utils/preprocess.py:288-336 | a frame has the columns its final select names, in order, and every row has 7 cells |
| Preprocess.Status | src/utils/preprocess.py:339-367 | a frame has the columns its final select names, in order, and every row has 5 cells |
| Preprocess.ReviewRowCells | src/utils/preprocess.py:118-160 | a review row holds the review id, rating, rating amount, body and summary, both times as epoch instants, the key of the review's own media node and the author's id at the table's positions |
| Preprocess.UserRowCells | src/utils/preprocess.py:307-330 | a user row holds the author's id, name, donator tier, donator badge and creation instant, then the avatar's large and medium URLs, or two nulls for a null avatar; a null author gives seven nulls |
| PreprocessLemmas.AnimeStartDate | src/utils/preprocess.py:46-60 | the StartDate cell is null exactly when the date or a part is null; otherwise it is a date the parse accepted, whose text reads back as the record's parts |
| PreprocessLemmas.AnimeEndDate | src/utils/preprocess.py:61-75 | the same for EndDate |
| PreprocessLemmas.AnimeBadDate | src/utils/preprocess.py:47-59 | one joined start date the parse rejects turns the whole anime projection into `None` |
| PreprocessLemmas.AnimeAt | src/utils/preprocess.py:30-93 | row i holds record i's English, native and romaji titles, then its format, mean score, popularity, episodes, favourites and duration, in the table's column order |
| PreprocessLemmas.WebAssetsAt | src/utils/preprocess.py:174-199 | row i carries record i's banner, its four cover fields in place, its site URL and its trailer unchanged |
| PreprocessLemmas.GenresAt | src/utils/preprocess.py:246-254 | genre k of record i is the row at record i's offset plus k, carrying record i's key |
| PreprocessLemmas.GenresNone | src/utils/preprocess.py:246 | a record without genres still gives one row, with a null genre and its own key |
| PreprocessLemmas.GenresCount | src/utils/preprocess.py:238-255 | the number of genre rows is the sum over records of their genre count, counting one for a record without genres |
| PreprocessLemmas.GenresOffset | src/utils/preprocess.py:238-246 | record i's genre rows start at the sum, over the records before it, of their genre count (one for a record without genres) |
| PreprocessLemmas.GenresNever501 | src/utils/preprocess.py:235-260 | genres never answers `501`, and answers `None` exactly when the frame lacks a selected column |
| PreprocessLemmas.GenreScenario | src/utils/preprocess.py:235-255 | anime 101 (FALL 2020) with genres Action and Comedy gives exactly the two rows (Action, 101, FALL, 2020) and (Comedy, 101, FALL, 2020) |
| PreprocessLemmas.TagsAt | src/utils/preprocess.py:266-279 | tag k of record i lands at record i's offset plus k, with the tag's cells followed by record i's key |
| PreprocessLemmas.TagsNone | src/utils/preprocess.py:266-279 | a record without tags gives one row at its offset: four null tag cells, then the record's key |
| PreprocessLemmas.TagsCount | src/utils/preprocess.py:266-269 | one tag row per tag, and one for each record without tags |
| PreprocessLemmas.TagsOffset | src/utils/preprocess.py:266-269 | record i's tag rows start at the sum, over the records before it, of their tag count (one for a record without tags) |
| PreprocessLemmas.StatusAt | src/utils/preprocess.py:350-361 | status entry k of record i lands at record i's offset plus k, with record i's key then the amount and status |
| PreprocessLemmas.StatusNone | src/utils/preprocess.py:350-361 | a record without status entries gives one row at its offset: the record's key, then a null amount and status |
| PreprocessLemmas.StatusCount | src/utils/preprocess.py:350-352 | one status row per entry, and one for each record without entries |
| PreprocessLemmas.StatusOffset | src/utils/preprocess.py:350-352 | record i's status rows start at the sum, over the records before it, of their entry count (one for a record without entries) |
| PreprocessLemmas.StudiosAt | src/utils/preprocess.py:211-226 | media node k of studio j of record i gives one row at the nested offsets, keyed by that node and carrying the studio's id and name |
| PreprocessLemmas.StudiosNone | src/utils/preprocess.py:211-226 | a record without studios gives one row of five nulls, since the record's own id was dropped before the explode |
| PreprocessLemmas.StudioBlockSize | src/utils/preprocess.py:211-218 | one record gives, per exploded studio, one row per media node it lists, or one when it lists none or is null |
| PreprocessLemmas.StudiosCount | src/utils/preprocess.py:211-218 | the studio frame has, summed over records, one row per media node of each studio, counting one for a studio without nodes and one for a record without studios |
| PreprocessLemmas.StudiosOffset | src/utils/preprocess.py:211-218 | record i's studio rows start at the sum of the studio row counts of the records before it |
| PreprocessLemmas.StudiosKeyFromNode | src/utils/preprocess.py:216-225 | a record with id 1 whose only studio lists anime 2 contributes a row keyed by anime 2; the outer record's id is not used |
| PreprocessLemmas.ReviewsAt | src/utils/preprocess.py:113-160 | review k of record i lands at record i's offset plus k, with its id, rating, rating amount, body, summary and epoch times, keyed by the review's own media node and carrying the author's id |
| PreprocessLemmas.ReviewsNone | src/utils/preprocess.py:113-160 | a record without reviews gives one review row of eleven nulls, its key included, since the key comes from the review's own media node |
| PreprocessLemmas.UsersAt | src/utils/preprocess.py:289-330 | review k of record i gives, at the same offset, its author's id, name, donator tier and badge, creation instant, and large and medium avatar (nulls for a null avatar); all nulls for a null author |
| PreprocessLemmas.UsersNone | src/utils/preprocess.py:289-330 | a record without reviews gives one user row of seven nulls |
| PreprocessLemmas.ReviewsCount | src/utils/preprocess.py:115-118 | one review row per review, and one for each record without reviews |
| PreprocessLemmas.UsersCount | src/utils/preprocess.py:291-294 | one user row per review, whoever wrote it, and one for each record without reviews, also when the review frame answers `501` |
| PreprocessLemmas.ReviewsOffset | src/utils/preprocess.py:115-118 | record i's review rows and its user rows both start at the sum, over the records before it, of their review count (one for a record without reviews) |
| PreprocessLemmas.UsersRepeat | src/utils/preprocess.py:289-330 | users are not de-duplicated: two reviews of one record by the same author give two equal rows at different positions |
| PreprocessLemmas.UsersMatchReviews | src/utils/preprocess.py:291-294 | when both frames exist they have equally many rows, and user row j's UserID is review row j's UserID |
| PreprocessLemmas.ReviewsHandlerRedundant | src/utils/preprocess.py:162-168 | the extra `ColumnNotFoundError` handler of `reviews` picks the same sentinel as the generic one; only `SchemaError` gives `501` |
| PreprocessLemmas.NoReviews | src/utils/preprocess.py:113-118 | when no anime of the unit has a review, both `reviews` and `users` answer `501` |
| PreprocessLemmas.UsersWithoutReviewMedia | src/utils/preprocess.py:288-336 | when no review names its media node, `reviews` answers `501` while `users`, which drops that node, gives a frame |
| PreprocessLemmas.MissingColumn | src/utils/preprocess.py:97-99 | a frame lacking `id`, `reviews` and `studios` makes all eight projections answer `None` |
| Loader.PlaceholderMarkers | src/utils/insert_data.py:27 | the placeholder list for n cells holds max(n, 1) markers and max(n - 1, 0) commas |
| Loader.StatementMarkers | src/utils/insert_data.py:25-29 | the statement holds as many markers as its placeholder list; an empty row still asks for one value |
| Loader.Insert | src/utils/insert_data.py:24-34 | a table the database does not hold raises; only `None` changes the database, and only for a table it holds |
| Loader.InsertInto | src/utils/insert_data.py:24-34 | `500` exactly when the row's width differs from the table's; an unconvertible cell raises; `404` exactly when a key cell is null, the Season CHECK fails or the key is taken; `None` stores exactly that row under its fresh key; every other outcome leaves the database unchanged |
| Loader.TableNamedText | src/init_duckdb.py:46-163 | every table's name resolves back to that table, so no two tables share a name |
| Loader.InsertExtends | src/utils/insert_data.py:24-34 | an insert never removes or changes a stored row and never adds or drops a table |
| Loader.InsertStores | src/utils/insert_data.py:24-29 | a row that went in is stored under its own key, which was free, and that is the only change to the database |
| Loader.InsertFrame | src/utils/insert_data.py:24-34 | an insert changes no table other than the one its statement names |
| Loader.InsertSettles | src/utils/insert_data.py:24-34 | once a row has been tried without an exception, trying it again answers `404` or `500` |
| Loader.InsertTwice | src/utils/insert_data.py:26-31 | inserting the same row twice answers `None` then `404`; the table gains exactly one key, holding that row |
| Loader.SeasonChecked | src/init_duckdb.py:143 | an Anime row whose Season is null or not one of the four season names is refused with `404` and the database is unchanged |
| Loader.LoadRows | src/data_transfer.py:105-122 | rows are tried in order; `404` and `500` continue, an exception is the last outcome, and without one every row is tried; no stored row is removed or changed |
| Loader.LoadRowsFrame | src/data_transfer.py:105-122 | a loop touches no table but its own, and the keys its table gains are exactly those of the rows that answered `None`, each new key holding the row stored under it |
| Loader.LoadRowsAt | src/data_transfer.py:109-111 | the outcome of row j is what inserting it answers on the database the loop over the rows before it left |
| Loader.LoadIdempotent | src/data_transfer.py:105-122 | after a loop that raised nowhere, running it again inserts nothing and leaves the database as it was |
| Loader.FirstRowKept | src/data_transfer.py:105-115 | a row that went in is still the row stored under its key at the end of the loop; later rows with that key do not replace it |
| Loader.FittingRowsNever500 | src/utils/insert_data.py:32-34 | rows as wide as their table never meet the binding error |
| Pipeline.HandleInsert | src/data_transfer.py:91-127 | a sentinel (`501` or `None`) loads nothing and leaves the database alone; a frame is loaded row by row, stopping at an exception, touching only its own table, and adding exactly the keys of the rows that answered `None` |
| Pipeline.Project | src/data_transfer.py:132-141 | the frame handed to a table, when there is one, has exactly that table's columns and every row is as wide |
| Pipeline.Jobs | src/data_transfer.py:132-141 | a unit makes eight calls; every table receives exactly one projection, and it is that table's own |
| Pipeline.LoadJobs | src/data_transfer.py:132-141 | loading the jobs in order only ever adds rows |
| Pipeline.EmptyDbInitialised | src/init_duckdb.py:46-163 | the freshly initialised database holds all eight tables |
| Pipeline.JobsFit | src/data_transfer.py:132-141 | every projection's rows are as wide as the table it is loaded into |
| Pipeline.UnitNever500 | src/data_transfer.py:132-141 | loading a unit into a database with all eight tables never answers `500` |
| Pipeline.UnitIdempotent | src/data_transfer.py:132-141 | loading a unit a second time, after a first load that raised nowhere, inserts nothing and leaves every table as it was |
| Pipeline.SameKeyRefused | src/utils/insert_data.py:30-31 | after a row went in, a convertible row with the same key value is refused with `404` and the first row stays |
| Pipeline.SharedTagSameKey | src/init_duckdb.py:111 | two anime listing a tag with the same id give Tag rows with the same key, whatever their AnimeIDs |
| Pipeline.SharedUserSameKey | src/init_duckdb.py:68 | two reviews by users with the same id give User rows with the same key |
| Fetch.Classify | src/utils/fetch_data.py:86-122 | the quota pair comes exactly from an unthrottled reply with both headers whose media list is empty, carrying that reply's headers; a page that is kept has at least one record |
| Fetch.FetchFrom | src/utils/fetch_data.py:38-139 | the loop returns what the recursive definition does, and request i asks for page i + 1 of the unit's year and season, 50 per page, sorted by ID, of type ANIME |
| Fetch.FetchAt | src/utils/fetch_data.py:85-139 | after full pages 1 to k-1, page k decides: a failed or throttled request keeps exactly the earlier pages, an exception escapes, an empty page gives the quota pair, and a last page gives all pages concatenated in order |
| Fetch.ThrottledFirstPage | src/utils/fetch_data.py:94-104 | a throttled first request gathers nothing, and the result is `None` |
| Fetch.EmptyLaterPage | src/utils/fetch_data.py:114-115 | a full first page followed by an empty second page gives the quota pair of the second page |
| Fetch.FetchResults | src/utils/fetch_data.py:114-139 | a returned frame is never empty, and the quota pair is always that of some empty page |
| Fetch.ThrottleMessageIgnoresLimit | src/utils/fetch_data.py:97 | the throttle message as written is the same for limits 90 and 30 |
| Fetch.ThrottleMessageShowsLimit | src/utils/fetch_data.py:97 | the corrected throttle message tells any two non-negative limits apart |

## Left out

- Network, sleeping, printing and progress bars. The replies to the page
  requests are a parameter. A page beyond the replies given is a failed
  request.
- `pl.concat` failing on pages whose inferred schemas differ. The model
  concatenates any non-empty list of pages.
- The query document (`src/utils/api_query.graphql`) is not part of this
  model. The nested fields each projection unnests are taken to be exactly
  the ones its table needs, in the table's order: title, cover image, tag,
  user, avatar and status entry fields.
- A JSON null list and an empty list are not told apart. Both explode to one
  null row, and a level where no record holds an element is inferred as
  Null. A column that is null in every record may make `explode` raise
  something other than `SchemaError`; that case is not modelled.
- The calendar is a parameter, `readsAsDate`. It decides which joined texts
  the strict `%Y-%m-%d` parse accepts, including unpadded months and days.
  Date and instant cells record their text and epoch seconds rather than
  calendar values.
- Polars.ReadJoinDate: stated for non-negative parts only. A negative year
  renders with a leading `-`, which the reading function does not accept.
- DuckDB's implicit casts are a parameter, `casts`. Key comparison is
  equality of the cells as produced, before any cast.
- The constraint checks all answer `404`, so their order inside DuckDB is
  not modelled.
- The driver's loop over years and seasons, the quota exception it raises,
  commit and close, the cooldown and cancellation. The command line too.
- `api_call`'s second exception handler. It refers to a response that was
  never assigned, so it would raise, and only a request exception is
  modelled.
- Preprocess.Studios, Preprocess.Genres, Preprocess.Tags, Preprocess.Reviews,
  Preprocess.Users and Preprocess.Status: the ensures state the columns and
  widths only. Where each element lands is stated by the `...At` lemmas of
  `PreprocessLemmas`, and how many rows there are by the `...Count` lemmas.
- Preprocess.Anime: the ensures state the columns, the row count and each
  row's key only. The other cells are stated by `PreprocessLemmas.AnimeAt`,
  `AnimeStartDate` and `AnimeEndDate`.
- Preprocess.WebAssets: the ensures state the columns, the row count and
  each row's key only. The other cells are stated by
  `PreprocessLemmas.WebAssetsAt`.
- Loader.LoadRows: its own contract states the order of the outcomes and
  that the database only grows. Which tables and keys change is stated on
  Loader.LoadRowsFrame, and each row's outcome on Loader.LoadRowsAt.
- Loader.Insert: its own contract covers the table lookup only. The outcome
  for a table the database holds is stated on Loader.InsertInto, which
  Insert calls with that table's definition.
- Table names are matched exactly, with case mattering, against the eight
  declared spellings. DuckDB resolves table names without regard to case.
  So Loader.Insert also raises for a table the database holds when the name
  is spelled differently. The driver always passes the declared spelling
  (src/data_transfer.py:134-141), so no pipeline outcome depends on this.

## Findings

| source | as written | input that shows it | evidently intended | confidence | as-written member | corrected member |
|---|---|---|---|---|---|---|
| src/utils/fetch_data.py:97 | the throttle message prints `remaining/remaining` | remaining 5, limit 90 prints "(5/5)" | `remaining/limit`, as the summary line at line 136 prints them | high; not executed | Fetch.ThrottleMessageIgnoresLimit | Fetch.ThrottleMessageShowsLimit |
