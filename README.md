# Spreadsheet row appender: a Dafny model

`services/google/googlesheet.js` appends `{id, from, message, created_at}` records to the
"Test Run" tab of a spreadsheet. Around its calls to the spreadsheet service it makes four
small decisions, and this project models each of them over plain values, with the service's
responses passed in as parameters:

- **Header check** (`ensureHeaderRow`): row 1 is overwritten with `id, from, message, created_at`
  when the A1:D1 read returns nothing, no rows, or a first row whose comma-join differs from the
  header's comma-join.
- **Append target** (`insertRow`): the record is written to row `2 + n`, where `n` is the number
  of data rows read from A2:D (a missing response counts as none).
- **Tab lookup** (`getSheetIdByName`): the id of the first tab whose title equals the name, or a
  tab-not-found error.
- **Styling** (`styleSheetRows`): with fewer than two rows nothing happens; otherwise, for every
  data row `i`, one background request (green for odd `i`, blue for even `i`, columns A-D) and
  one bold request (column C, `message`) are built in a loop and sent as one batch.

Modules:

- `Wrappers` (`wrappers.dfy`): `Option` and `Result`.
- `ArrayJoin` (`array_join.dfy`): JavaScript's `Array.prototype.join()` with the default
  separator, and the fact that the join of non-empty, comma-free cells determines the cells.
- `GoogleSheet` (`googlesheet.dfy`): the decisions above. `StyleSheetRows` keeps the source's
  loop and is proved equal to the recursive specification `StyleRequests`. `InsertRow` runs the
  whole append on a sheet given as its list of rows.

The remote sheet is a value `seq<Row>`. Row number `k` (1-based) is element `k - 1`. Three reads
and one write stand for the service:

- `ReadHeaderRange` reads A1:D1.
- `ReadDataRange` reads A2:D.
- `ReadAll` reads A:D.
- `WriteRow` writes one row.

Each read is absent exactly when its range holds no rows, as the code's `!values` and `|| []`
checks expect.

Four helper functions carry no contract of their own. The lemmas and methods in the table use them:

- `HeaderReadAfter` is the A1:D1 read after one header check (googlesheet.js:31-43). It returns
  what the check wrote, or the earlier read when nothing was written. `EnsureHeaderIdempotent`
  uses it.
- `NumRows` is the row count at googlesheet.js:56. It counts the rows read from A:D, and an
  absent response counts as zero.
- `ToneOf` is the colour choice at googlesheet.js:64-66. It gives `Green` when the row index is
  odd and `Blue` when it is even.
- `RowRequests` is one iteration of the styling loop (googlesheet.js:69-96). It gives the
  background request and then the bold request for one row.

## Model

| member | source | states |
|---|---|---|
| `ArrayJoin.JoinInjective` | services/google/googlesheet.js:36 | two non-empty arrays of comma-free cells with equal `join()` are equal, so comparing joins is comparing cells only for such rows |
| `GoogleSheet.GetSheetIdByName` | services/google/googlesheet.js:17-22 | fails with `TabNotFound(name)` exactly when no tab has that title; otherwise returns the `sheetId` of a tab with that title before which no tab has it (the first match) |
| `GoogleSheet.GetSheetIdIgnoresLaterTabs` | services/google/googlesheet.js:19 | once a matching tab exists, tabs appended after it never change the lookup's result |
| `GoogleSheet.HeaderText` | services/google/googlesheet.js:29 | the header tuple joins to `id,from,message,created_at` |
| `GoogleSheet.EnsureHeaderRow` | services/google/googlesheet.js:35-43 | a write happens exactly when values are absent, have no rows, or row 1's join differs from `id,from,message,created_at`; what is written is the single row `Header` |
| `GoogleSheet.HeaderWriteCellwise` | services/google/googlesheet.js:36-43 | when row 1 has no comma in any cell, a write happens exactly when the read is absent or empty or row 1 differs from the header tuple (cell by cell, in order) |
| `GoogleSheet.HeaderJoinedComparisonQuirk` | services/google/googlesheet.js:36 | row 1 `["id,from", "message", "created_at"]` differs from the header tuple yet causes no write |
| `GoogleSheet.EnsureHeaderIdempotent` | services/google/googlesheet.js:36-43 | for every read of row 1, a second check after the first (reading back what the first wrote, if anything) makes no write, so two calls write at most once |
| `GoogleSheet.WriteRow` | services/google/googlesheet.js:124-129 | after writing row `r`, row `r` holds the record, every other existing row is unchanged and rows created in between are blank |
| `GoogleSheet.NextRowIndex` | services/google/googlesheet.js:118-120 | the target row is at least 2 (never the header row) and is 2 when the data-row read is missing |
| `GoogleSheet.AppendTargetFollowsLastRow` | services/google/googlesheet.js:118-129 | on a sheet with row 1 present, the target is one past the last row, and writing there yields the old rows followed by the record (nothing overwritten, no gap) |
| `GoogleSheet.StyleRequests` | services/google/googlesheet.js:56-97 | the request list is empty for fewer than 2 rows and has exactly `2 * (numRows - 1)` entries otherwise |
| `GoogleSheet.StyleRequestsAt` | services/google/googlesheet.js:63-96 | for each data row `i`, entry `2(i-1)` is a background over rows `[i, i+1)`, columns `[0, 4)` with the tone of `i`, and entry `2(i-1)+1` is bold over rows `[i, i+1)`, columns `[2, 3)` |
| `GoogleSheet.StyleRequestsRanges` | services/google/googlesheet.js:69-96 | every request targets the looked-up sheet and exactly one row `i` with `1 <= i < numRows` (header row 0 is never styled); backgrounds span columns A-D, bold only the `message` column |
| `GoogleSheet.StyleBandsAlternate` | services/google/googlesheet.js:64-66 | for every data row `i`, including the last, row `i` is green exactly when `i` is odd; when row `i + 1` is also a data row, the two rows get different tones |
| `GoogleSheet.StyleSheetRows` | services/google/googlesheet.js:47-104 | no batch exactly when fewer than 2 rows were read (and then no lookup is made); otherwise a missing tab gives `TabNotFound("Test Run")` and a found tab gives one batch equal to `StyleRequests(sheetId, numRows)`, so the empty-list guard is never taken |
| `GoogleSheet.InsertRow` | services/google/googlesheet.js:107-137 | the record is `[id, from, message, createdAt]` (the source returns it only when styling did not fail); row 1 afterwards is the old row 1 when its join equals the header text and the header tuple otherwise; afterwards the record is the last row, directly below the previous last row; data rows are unchanged; row 1 joins to the header text (and is the header tuple when its old cells had no comma); an empty sheet becomes `[Header, record]`; styling covers every row, on an empty sheet the single request pair for row 2 |

## Left out

- All calls to the spreadsheet service (`spreadsheets.get`, `values.get`, `values.update`,
  `batchUpdate`) and the client library. Their responses are parameters. The read and write
  functions above stand for the service under simplifying assumptions:
  - a read returns exactly the rows stored, with no trimming of blank rows or cells;
  - rows have at most four cells;
  - a write is read back unchanged.
- Network, quota and authentication errors. They propagate unmodified in the source; the model
  has no failure path for them.
- `getServiceAccountClient` (config/google.js): it reads a credential file and builds an
  authorisation object from the client library. No decision of the code depends on it.
- `generateRandomId` and `new Date().toISOString()`: random and clock values. `InsertRow` takes
  `id` and `createdAt` as parameters.
- `dotenv`/`process.env` configuration (the spreadsheet id) and `console.log`.
- The RGB values of the two background colours. They are the two-valued `Tone`: `Green` is
  {0.88, 1, 0.88} and `Blue` is {0.88, 0.92, 1}.
- The `fields` masks of the formatting requests. The request kind (`Background` or `Bold`)
  stands for them.
- The commented-out command-line block at the end of the file.
- Concurrent appends. Two `insertRow` calls that read the same rows compute the same target
  and overwrite each other. The model is sequential and does not represent this race.
- `GetSheetIdByName`: the source dereferences `meta.data.sheets` and would throw a `TypeError`
  if the metadata had no tab list. The model always receives a list.
- The tab-not-found error is raised only when at least two rows were read, because the code
  returns before the lookup otherwise. The model follows the code here; a description that says
  a missing tab always fails is broader than the code.
