# YogaTube core, modelled in Dafny

YogaTube is a small Go web service. It imports a YouTube playlist into a
SQLite `videos` table and serves one "video of the day", plus a list of
all videos and a health probe. This project models the service's logic
and proves properties of it:

- **Daily picker** (`getDailyVideoHandler`). The process keeps two
  package-level variables, an index and the last date it saw. Once per
  UTC date, the index moves on by one. An `offset` query parameter is
  then added to the index. A lookup that misses is recovered in one of
  four ways, depending on where the id fell:
  - reset the index to 1;
  - answer "exceeded" past the end;
  - count back once from the end;
  - fall through with an empty 200 reply.
- **CORS wrapper** (`corsMiddleware`). It sets four headers, answers
  OPTIONS itself with 204 and forwards every other method.
- **Videos table**. Rows have an AUTOINCREMENT `id` and six text columns,
  one of which, `video_id`, is UNIQUE. The operations are `SaveVideo`,
  `GetVideoById`, `GetTotalVideos` and `GetAllVideos`.
- **Health probe** (`Health`). It builds a statistics map, then picks the
  health message: the last true warning wins.
- **Playlist import loop** (`FetchAndStorePlaylistItems`). Each decoded
  item becomes a `Snippet` with id 0 and gets one save attempt, in
  order. A failed save does not stop the loop.

Modules:

| file | module | models |
|---|---|---|
| wrappers.dfy | `Wrappers` | `Option` |
| models.dfy | `Models` | the records of `internal/models/types.go` |
| strconv.dfy | `Strconv` | Go's 64-bit `int` wrap-around, `strconv.Atoi` and `strconv.Itoa` |
| database.dfy | `Database` | the table as a value (`Store`) and as a mutable object (`VideoTable`), the read operations, the health probe |
| routes.dfy | `Routes` | the CORS decision, the picker as a pure function (`Step`) and as a class with the two variables as fields (`DailyPicker`) |
| ythandler.dfy | `YtHandler` | the item-to-snippet mapping, the batch as a pure function (`SaveAll`), and the import loop |

How the model is set up:

- **Inputs, not calls.** The clock, the upstream fetch and the connection
  pool statistics are inputs:
  - the current date arrives already formatted as `YYYY-MM-DD`;
  - the fetch arrives as decoded items or a failure;
  - the pool statistics arrive as numbers and an already-rendered wait
    duration.
- **Values, not bytes.** Responses are datatypes. A handler that writes
  a JSON record yields the record itself.
- **Go `int` arithmetic.** On the 64-bit builds the model assumes, Go's
  `int` is 64 bits. `dailyVideoIndex++` and `videoId += offset` therefore
  wrap (`Strconv.Wrap64`), and a lemma shows what a very large offset does.
- **Which rows exist.** A table is `WellFormed` when every id lies in
  `1..lastId` (`lastId` is SQLite's sequence value) and `video_id` is
  unique. It is also `Dense` when no id in `1..lastId` is missing. The
  model takes a rejected INSERT to leave the table and its sequence
  unchanged (see "Left out"). Under that reading, a table that only ever
  grew through `SaveVideo` stays dense. The picker lemmas say which of
  their conclusions need density.

Two consequences of the code that are easy to miss:

- **The −1 offset.** With 5 videos, index 1 and offset "-1", the id
  requested is 0. The miss is retried at `total + videoId`, which is
  5 + 0, so row 5 is served (`Routes.ExampleLastVideo`).
- **A failed health ping.** `log.Fatalf` ends the process, so no map is
  returned (`Database.Health` yields `Fatal`).

## Model

| member | source | states |
|---|---|---|
| Strconv.Wrap64 | internal/server/routes.go:76-83 | the result is a 64-bit `int`; an in-range value is unchanged; one step past either end wraps by 2^64 |
| Strconv.Atoi | internal/server/routes.go:80-87 | a parsed value is a 64-bit `int`; only a numeral (an optional sign and at least one digit) parses, so a bare sign does not; an unsigned, `+` or `-` numeral parses to its signed decimal value; every numeral whose value fits in 64 bits parses, whatever its length |
| Strconv.AtoiAcceptsNumerals | internal/server/routes.go:81-86 | `Atoi` returns the numeral's value exactly when the string is an optional sign followed by one or more digits and the value fits in 64 bits, and fails otherwise; every such string shorter than 19 characters is accepted |
| Strconv.Itoa | internal/database/database.go:145-151 | the rendering is a numeral denoting `n`, with a minus sign exactly for negative `n` and never a plus sign; its digits are canonical ("0", or no leading zero) |
| Strconv.AtoiItoa | internal/database/database.go:145-151 | `Atoi(Itoa(n)) == Some(n)` for every 64-bit `n`, so the rendered counters read back as the numbers they render |
| Database.Columns | internal/database/database.go:185-186 | the UNIQUE `video_id` column holds the snippet's upstream video id |
| Database.StoreThenRead | internal/database/database.go:185-197 | storing a snippet's columns and reading them back under its id gives the snippet with exactly the medium thumbnail, the default thumbnail's size and the resource kind zeroed |
| Database.Scan | internal/database/database.go:195-197 | a scanned record carries the row id and exactly the stored columns; the medium thumbnail, the thumbnail sizes and `kind` are zero values |
| Database.Insert | internal/database/database.go:184-191 | the insert succeeds iff the `video_id` is new; a failure changes nothing; a success stores the row under id `lastId + 1`, one past every id handed out before and above every existing row, grows the row count by one and keeps every other row; the table stays well formed |
| Database.InsertKeepsDense | internal/database/database.go:105-111 | AUTOINCREMENT inserts leave no gap in ids `1..lastId` |
| Database.GetVideoById | internal/database/database.go:194-207 | finds a record iff a row has that id; the record has that id and that row's columns |
| Database.GetTotalVideos | internal/database/database.go:241-248 | the count is the number of row ids, and it is 0 exactly for an empty table |
| Database.SaveThenGet | internal/database/database.go:185-197 | after a successful save, fetching the new id returns the saved published time, title, description, default thumbnail URL, video id and channel title |
| Database.DenseCount | internal/database/database.go:241-248 | on a dense table the row count equals the last id, and the ids are exactly `1..count` |
| Database.VideoTable.constructor | internal/database/database.go:105-117 | a new table is empty, well formed and dense, and its sequence is 0 |
| Database.VideoTable.SaveVideo | internal/database/database.go:184-191 | the table changes exactly as `Insert` says; the result is false exactly when the UNIQUE constraint rejects the row; well-formedness and density are kept |
| Database.GetAllVideos | internal/database/database.go:209-238 | one record per row (the length equals `GetTotalVideos`); the ids are exactly the table's ids, with no repeats; each record equals what `GetVideoById` returns for its id; no order is promised |
| Database.HealthMessage | internal/database/database.go:153-167 | the message is the last warning whose condition holds, in the order heavy load, waits, idle closes, lifetime closes (integer halving of open connections); with none true it is "It's healthy" |
| Database.ApplyWarnings | internal/database/database.go:153-168 | the four successive overwrites of "message" leave exactly `HealthMessage` there and change no other key |
| Database.Health | internal/database/database.go:124-171 | a failed ping ends the process with "db down: " and the error; otherwise the map has exactly the nine keys, status "up", the precedence message, the counters as decimal strings and the wait duration as given |
| Routes.Cors | internal/server/routes.go:36-53 | the four CORS headers are always set; OPTIONS, and only OPTIONS, is answered 204 without reaching the wrapped handler |
| Routes.Advance | internal/server/routes.go:72-77 | on a new date the index moves on by one (Go `int` arithmetic) and the date is stored; on the stored date nothing changes |
| Routes.RequestedId | internal/server/routes.go:79-88 | an absent or empty offset requests the index; a parsed offset requests index + offset; an unparsable one is rejected |
| Routes.Recover | internal/server/routes.go:91-120 | after a miss: an index past the row count is reset to 1 and row 1 is tried; otherwise the index stays; "exceeded" exactly when the index is in range and the id past the end; the empty reply exactly when both are in range; a served video is row 1 after a reset, else row `total + id`; after a reset a video is served exactly when row 1 exists, and on the wrap path exactly when row `total + id` exists; "Failed to fetch video" exactly for the reset path and "Failed to fetch last video" on the wrap path; never 400 |
| Routes.Step | internal/server/routes.go:71-127 | the date is always stored; the index ends as advanced or reset to 1 and stays a 64-bit `int`; a served video is the row with its id; 400 is returned exactly for an unparsable offset |
| Routes.DailyPicker.constructor | internal/server/routes.go:67-68 | the index starts at 0 and the date empty |
| Routes.DailyPicker.Resolve | internal/server/routes.go:71-127 | updating the two fields in place, the handler's new state and response are exactly those of `Step` |
| Routes.FirstRequestAdvances | internal/server/routes.go:67-77 | the first request after start moves the index from 0 to 1, because an empty date never equals a formatted one |
| Routes.SameDateDoesNotAdvance | internal/server/routes.go:74-77 | after any request, a second request on the same date does not advance the index again |
| Routes.RunDay | internal/server/routes.go:74-77 | a day of requests stores that date and keeps the index a 64-bit `int` |
| Routes.OneAdvancePerDay | internal/server/routes.go:74-102 | whatever offsets a day's requests carry, the index at the end of the day is the index advanced once, or 1 |
| Routes.MalformedOffset | internal/server/routes.go:80-87 | an unparsable offset gives 400 after the day's advance, and the reply does not depend on the table |
| Routes.Hit | internal/server/routes.go:90-126 | a requested id that has a row is served, and the index stays as advanced |
| Routes.ResetPastEnd | internal/server/routes.go:99-106 | on a miss with the index past the row count, the index becomes 1; row 1 is served, or 500 "Failed to fetch video" if it is missing |
| Routes.ExceededPastEnd | internal/server/routes.go:107-113 | on a miss past the last video with the index in range, the reply is "exceeded" and the index is unchanged |
| Routes.WrapFromEnd | internal/server/routes.go:114-119 | on a miss at or below 0 with the index in range, `total + id` is tried once; 500 "Failed to fetch last video" if it is missing too |
| Routes.GapIsEmptyOk | internal/server/routes.go:90-126 | on a miss inside `1..total` with the index in range, no branch applies and the reply is an empty 200 |
| Routes.DenseTable | internal/server/routes.go:90-126 | on a dense table the empty reply never happens, and a served video's id lies in `1..total` |
| Routes.ExampleExceeded | internal/server/routes.go:107-113 | five videos, index 5, offset "1": "exceeded" |
| Routes.ExampleLastVideo | internal/server/routes.go:114-119 | five videos, index 1, offset "-1": row 5 |
| Routes.ExampleReset | internal/server/routes.go:99-106 | five videos, index 5 from an earlier date: the advance to 6 is reset and row 1 is served |
| Routes.OffsetOverflow | internal/server/routes.go:83-119 | an offset that pushes index + offset past the largest Go `int` wraps to a negative id, so the reply is 500 "Failed to fetch last video" rather than "exceeded" |
| YtHandler.ToDbSnippet | internal/server/ytHandler.go:58-68 | the saved snippet has id 0 and every other field copied from the item |
| YtHandler.SaveAll | internal/server/ytHandler.go:57-72 | saving a batch in order keeps the table well formed and yields one outcome per snippet |
| YtHandler.SaveAllVideoIds | internal/server/ytHandler.go:57-72 | after the batch, the table's video ids are its earlier ones plus every one the batch carried |
| YtHandler.SaveAllStable | internal/server/ytHandler.go:57-72 | a snippet's save outcome is settled when the loop reaches it and later saves do not change it |
| YtHandler.OutcomesPrefix | internal/server/ytHandler.go:57-72 | saving further snippets leaves the outcomes of the first `j` snippets exactly as they were |
| YtHandler.SaveAllOutcome | internal/server/ytHandler.go:57-72 | a snippet is saved iff its video id was not already in the table and no earlier snippet of the batch carried it, so a duplicate fails and the loop goes on |
| YtHandler.SaveAllCount | internal/server/ytHandler.go:57-72 | the row count grows by exactly the number of successful saves |
| YtHandler.SaveAllKeepsRows | internal/server/ytHandler.go:57-72 | rows present before the batch are still there, unchanged, and the sequence does not go back |
| YtHandler.InsertContents | internal/database/database.go:184-191 | one save adds its row to the table's contents, or nothing |
| YtHandler.SaveAllRows | internal/server/ytHandler.go:57-72 | after the batch the table's rows are its earlier rows plus the columns of the snippets whose save succeeded, and nothing else |
| YtHandler.SaveAllKeepsDense | internal/server/ytHandler.go:57-72 | a table without gaps in its ids has none after the batch |
| YtHandler.DistinctBatchIntoEmptyTable | internal/server/ytHandler.go:57-72 | N snippets with distinct video ids saved into an empty table are all saved, and the table then counts N videos |
| YtHandler.FetchAndStorePlaylistItems | internal/server/ytHandler.go:12-83 | a failed fetch gives 500 and no saves; otherwise every item gets one save attempt in order, the table changes exactly as `SaveAll` says, the reply is the full item list, and density is kept |

## Left out

- HTTP transport: the mux and route registration (internal/server/routes.go:12-34), response writing and JSON encoding. Responses are datatypes, and JSON marshal and write failures are not modelled.
- The upstream YouTube Data API call (internal/server/ytHandler.go:13-54). It is network I/O. Its four failure points are one `Fetch` input, as they give the same 500 reply.
- The unreachable `json.Marshal` failure of the item list (internal/server/ytHandler.go:74-77).
- Storage I/O errors. The database is taken to answer every query, so these paths are not modelled:
  - the 500 "Failed to fetch video count" (internal/server/routes.go:94-98);
  - query, scan and iteration errors in `GetAllVideos`;
  - save errors other than the UNIQUE constraint.

  `GetVideoById` fails only when no row has the id.
- SQLite setup: `New`, `Close`, file and directory creation, and the singleton (internal/database/database.go:57-120, 177-180). This is foreign I/O. `VideoTable.constructor` models a fresh database file. `CREATE TABLE IF NOT EXISTS` keeps an existing file's rows and sequence across restarts, while the picker's two variables start again at each restart. The table lemmas hold for any `WellFormed` store unless they name a dense or an empty one, so they also cover a table that a restart inherited.
- The ping itself, its one-second timeout and `db.Stats()`. The ping error and the pool statistics are inputs.
- Database.Health: `WaitDuration.String()` is not modelled. The rendered duration is an input string.
- The wall clock `time.Now().UTC()`. The formatted date is a parameter.
- Concurrent requests. The picker's two variables are shared without a lock, so two requests that span a date change can race. Requests are modelled one at a time.
- `getAllVideosHandler` and `healthHandler` (internal/server/routes.go:55-65, 143). `getAllVideosHandler` writes the JSON that `GetAllVideos` has already built (internal/database/database.go:232-237), or answers 500 "Failed to retrieve videos" on an error. `healthHandler` JSON-encodes `Health`. The model's `GetAllVideos` returns the list of records, not its JSON, so the `null` that an empty table encodes to is not modelled.
- 32-bit builds, where Go's `int` wraps at 2^31 and `Atoi` rejects values outside 32 bits (so an offset such as "3000000000" gets 400 there). The model fixes `int` at 64 bits.
- The 64-bit limit of SQLite's AUTOINCREMENT. Ids are unbounded integers.
- `HelloWorldHandler`, which is not routed; `internal/server/server.go`; `internal/utils/utils.go`; the frontend.
- Routes.DailyPicker.Resolve: the JSON bytes of the served record are not modelled. It returns the record.
- Database.Insert: a rejected INSERT (the UNIQUE constraint) is taken not to use up a sequence value, so the next success gets `lastId + 1`. SQLite's AUTOINCREMENT only promises ids larger than any used before, and a failed insert may leave a gap. The density results (`InsertKeepsDense`, `SaveAllKeepsDense`, `DenseTable`, `DenseCount` as applied to saved tables, and the density clauses of `VideoTable.SaveVideo` and `FetchAndStorePlaylistItems`) rest on this reading.
