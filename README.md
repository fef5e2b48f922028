# go-salesforcedb: the result cursor and its connection, in Dafny

This project models the core of `go-salesforcedb`, a `database/sql` driver for Salesforce. The
driver runs a SOQL query through the simpleforce client. The client answers with pages
(`QueryResult`s). Each page holds a list of records, which are field-name → value maps. It also
holds the total size of the whole result and a continuation token (`NextRecordsURL`), which is
empty on the last page. The driver turns these pages into a row cursor.

- `Conn` (connection.go) holds the client handle. `Query` opens a cursor on the first page.
  `Begin` and `Prepare` always refuse. `Ping` always succeeds. `Close` drops the handle and may be
  repeated.
- `Rows` (rows.go) is the cursor. Its state is the connection, the memoised column order, the
  held page and the position in that page.
  - `Columns` discovers the column names once, from the first record of the held page. It leaves
    out the client's own `__client__` and `attributes` keys, compared case-insensitively.
  - `Next` fetches the next page through the continuation token when the held page is used up. It
    reports `io.EOF` when it cannot go on. Otherwise it copies the current record's values, in
    column order, into the caller's slice.
  - `Close` releases everything. A second close reports `errClosed`.

Files, one module each:

- `wrappers.dfy`: `Option` and `Result`.
- `types.dfy`: field values, records, pages (`Batch`), the error values and `math.MaxInt`.
- `simpleforce.dfy`: the remote client, modelled as an oracle. Each request text has a fixed
  answer (`respond`). A ghost call log records every request.
- `folding.dfy`: `strings.EqualFold`.
- `columns.dfy`: `stringInSlice`, the metadata filter and what a discovered column order is.
- `paging.dfy`: one `Next` call as a pure function (`Step`) on the page and the position. It also
  holds the theorem about draining a whole paginated result.
- `salesforcedb.dfy`: the `Conn` and `Rows` classes. They are one module because each refers to
  the other.
- `usage.dfy`: caller-side methods proved from the class contracts alone. They cover double closes
  and the row-counting loop of the repository's tests.

Go's map iteration order is unspecified. A discovered column order is therefore any order with no
duplicates that holds exactly the non-metadata keys (`IsColumnOrder`). `Rows.Columns` picks keys
nondeterministically. `Columns.ColumnOrdersArePermutations` shows that any two such orders are
permutations of each other.

Places where Go would panic become preconditions:

- indexing `Records[0]` of an empty page in `Columns`;
- reading `Records[0]` of an empty fetched page in `Next`;
- a `dest` slice shorter than the column list;
- calling the client after `Conn.Close` has cleared it.

In `Paging.Step` two of these show up as the outcome `Panic`: an empty fetched page and a cleared
client. `Rows.Next` requires a step that is not `Panic`; it also requires `dest` to be as wide as
the column list.

`Next` compares the position *within the held page* with the *total* size of the result
(rows.go:67). The model keeps this comparison as written. `Paging.PageBelowTotal` shows that it
never ends a well-formed result early: every page before the last is shorter than the total,
because the pages after it are not empty.

Three behaviours of the code that the model keeps as written:

- An empty first page: `Columns` indexes `Records[0]` (rows.go:45) and would panic, so the model
  requires a record there.
- The end-of-data test compares the in-page index with `TotalSize` (rows.go:67), not a position
  counted across all pages.
- After `Close`, `Next` and `Close` both return `errClosed`, because `results` is nil
  (rows.go:62-64, 103-105). Neither reports end-of-data.

## Model

| member | source | states |
|---|---|---|
| `Folding.EqualFold` | rows.go:29 | the two strings have the same number of runes and agree rune by rune after case folding |
| `Folding.FoldAll` | rows.go:29 | the folded string has the same length and holds the fold of each rune of the input |
| `Columns.StringInSlice` | rows.go:27-34 | true exactly when some element of the slice equals the string under case folding |
| `Columns.MetadataByFolding` | rows.go:49 | a key is filtered out exactly when its case-folded form is `__client__` or `attributes` |
| `Columns.ColumnOrderWidth` | rows.go:43-54 | every column order discovered from a record has as many columns as the record has non-metadata keys |
| `Columns.ColumnOrdersArePermutations` | rows.go:47 | two column orders discovered from the same record are permutations of each other (map order is unspecified) |
| `Simpleforce.Client.Query` | rows.go:77 | a request returns the service's answer for that text and is appended to the call log |
| `Paging.Step` | rows.go:62-96 | a closed cursor gives `errClosed` and stays as it is; any error leaves the page and position unchanged; a produced row is the record just before the new position; a page change happens only after a fetch under the held page's token, with the fetched page in place and position 1 |
| `Paging.PageBelowTotal` | rows.go:66-67 | in a well-formed chain of pages, every page but the last is shorter than the declared total, so the in-page index never reaches the total size there |
| `Paging.StepAcrossPages` | rows.go:66-96 | at the end of a page that is not the last, `Next` fetches the next page of the chain and reads its first record |
| `Paging.DrainFrom` | rows.go:61-99 | from any position in a chain of pages, repeated `Next` calls yield the rest of the page and every later page, in order, then `io.EOF` on exactly the last allowed call |
| `Paging.StepInChain` | rows.go:61-99 | one `Next` call inside a chain never panics, stops only with `io.EOF` when nothing is left, and otherwise produces the next remaining record and stays in the chain |
| `Paging.DrainChain` | rows.go:61-99 | a cursor opened on the first page yields exactly `TotalSize` rows, the records of all pages in service order, and `io.EOF` on the next call |
| `SalesforceDb.Conn.constructor` | connection.go:12-14 | a connection holds the client it was made with |
| `SalesforceDb.Conn.Begin` | connection.go:25-27 | always `errNoTransactions`; no state changes |
| `SalesforceDb.Conn.Prepare` | connection.go:30-32 | `errNoPrepared` for every query text; no state changes |
| `SalesforceDb.Conn.Close` | connection.go:35-38 | the client handle is cleared and the result is nil, also when the connection was already closed |
| `SalesforceDb.Conn.Ping` | connection.go:41-43 | always nil; no state changes and no request to the client |
| `SalesforceDb.Conn.Query` | connection.go:46-63 | arguments give `errNoPrepared` with no request to the client; otherwise exactly one request with the query text; a client error is passed through and no cursor is made; on success a fresh valid cursor on the first page, position 0, no columns, connected back to this connection |
| `SalesforceDb.Rows.constructor` | connection.go:57-60 | a new cursor holds its connection and first page, at position 0, with no columns yet |
| `SalesforceDb.Rows.Columns` | rows.go:37-58 | a closed cursor gives nil and changes nothing; memoised columns are returned unchanged; otherwise the columns become a duplicate-free order of exactly the non-metadata keys of the page's first record, and nothing else changes |
| `SalesforceDb.Rows.Next` | rows.go:61-99 | the page and position become what `Step` gives; the client sees exactly the continuation token when a fetch happens; on a stop the error is returned and neither columns nor `dest` change; on a row the result is nil, memoised columns are kept or else discovered from the page's first record, `dest[i]` is the record's value for column `i` (nil when absent), and the rest of `dest` is untouched |
| `SalesforceDb.Rows.Close` | rows.go:102-112 | on an open cursor: nil, and the page, columns and connection are released, with the position at `MaxInt`; on a closed cursor: `errClosed` and nothing changes |
| `Usage.CloseRowsTwice` | rows.go:102-112 | the first close of an open cursor succeeds and the second reports `errClosed`; the cursor ends valid and closed, so a later `Next` reports `errClosed` (rows.go:62-64) |
| `Usage.CloseConnTwice` | connection.go:35-38 | two closes of a connection both succeed and leave the handle cleared |
| `Paging.FirstRowPage` | rows.go:87-88 | the first row of a cursor opened on a chain comes from a page whose first record is the first record of the whole result, the record the columns are discovered from |
| `Usage.CountRows` | salesforcedb_test.go:78-88 | the test's `for rows.Next() { numRows++ }` loop over a well-formed chain counts exactly `TotalSize` rows and ends with `io.EOF`, leaving the cursor valid and open on a page of the chain (rows.go:66-74 return without changing it), so the test's `rows.Close()` can follow; the cursor may already hold memoised columns, as after the test's `rows.Columns()` call; `dest` needs only the width of the memoised columns, or else of the first record |
| `Usage.CountThenClose` | salesforcedb_test.go:78-93 | the test's row loop over a well-formed chain counts exactly `TotalSize` rows and ends with `io.EOF`, and the `rows.Close()` that follows returns nil and leaves the cursor closed |

## Left out

- driver.go is not part of this model. It parses the connection string with a regular expression,
  logs in over the network and registers the driver with `database/sql`. `Conn.constructor` takes
  the logged-in client as given.
- The simpleforce client's transport and encoding are not modelled. The client is an oracle whose
  answer depends on the request text only, so a repeated request gets the same answer.
- `driver.Value` contents are opaque (`Payload`). Record values and nil are the only distinction made.
- `driver.Tx` and `driver.Stmt`: `Begin` and `Prepare` always return nil handles, so only their
  errors are modelled.
- `Ping`'s `context.Context` parameter is not modelled, because `Ping` never uses it.
- The `database/sql` layers above the driver (`Scan`, `sqlx`) are not modelled.
- The integration tests' live endpoint and environment variables are not modelled.
  `Usage.CountRows` replaces their row count with a chain of pages given as a parameter.
- Folding.EqualFold: folds ASCII letters and the two non-ASCII runes whose case-fold orbit holds an
  ASCII letter (U+017F, U+212A). Other Unicode orbits (Greek, Cyrillic, …) are treated as unequal.
  The model is exact whenever one side is ASCII, which is always the case for the metadata names.
- Concurrent use of one cursor or connection is not modelled; the source makes no promise about it.
- `currentRow` is a `nat` and `currentRow + 1` is not wrapped at 64 bits. Only a closed cursor
  holds `MaxInt`, and `Next` returns before incrementing on a closed cursor.
- SalesforceDb.Rows.Columns: in Go the returned slice shares storage with the cursor's memoised
  columns (rows.go:57), and `Next` reads names from that same slice (rows.go:93). A caller who
  writes into the returned slice changes what later `Next` calls copy into `dest`. The model returns
  an immutable sequence and does not capture this aliasing.
