# Personal-finance transactions service, modelled in Dafny

The service keeps income and expense transactions in one SQLite table,
`transactions`, and serves them under `/transactions` through an Express
router. This project models two parts:

- the router of `routes/transactions.js`: its six handlers, the status and JSON
  body each one sends, and the order in which Express tries the routes;
- the storage gateway of `db/db.js`: table creation, insert, the two queries,
  update, delete, and the summary query.

Both parts run the same SQL statements. The model gives those statements their
SQLite meaning:

- `AUTOINCREMENT` ids come from a counter that never moves back;
- the `NOT NULL` constraints on type, category, amount and date are enforced;
- `UPDATE` checks the constraints only against a row its `WHERE` selects;
- a text id from the URL is converted to an integer before the comparison;
- `SUM` over no rows is `NULL`.

Modules:

- `Table` (`table.dfy`): the database as a value (`Snapshot`), with one
  function per statement and the lemmas about the `SUM(CASE ...)` totals.
- `Store` (`store.dfy`): the database file as a `Database` object whose methods
  change it in place. Each method is proved to do what the matching `Table`
  function says.
- `Gateway` (`gateway.dfy`): the exported functions of `db/db.js`.
- `PathId` (`path_id.dfy`): how the `:id` path segment selects an integer id.
- `Router` (`router.dfy`): the handlers, the route table as registered,
  first-match dispatch, and the same table with `/summary` moved ahead of `/:id`.
- `History` (`history.dfy`): sequences of gateway calls. It proves the row count,
  that ids are never reused, and that created rows are kept.

## Model

| member | source | states |
|---|---|---|
| Table.CreateIfNotExists | db/db.js:22-31 | afterwards the table exists; rows and the id counter are kept, and an existing table is left untouched |
| Table.CreateIfNotExistsIdempotent | db/db.js:22-31 | running `CREATE TABLE IF NOT EXISTS` twice is the same as running it once |
| Table.Insert | db/db.js:37-40 | the insert succeeds iff the table exists, type/category/amount/date are non-null, and the id space is not exhausted; the new id is absent from the table, larger than every present id, and below the new counter; the table gains exactly that row; a failed insert changes nothing |
| Table.Update | db/db.js:61-64 | fails iff the table is missing or a selected row would get a NULL in a NOT NULL column; reports 1 and overwrites exactly that row when the id selects a row; reports 0 and changes nothing when it does not; the counter never moves |
| Table.Delete | db/db.js:69-72 | reports 1 and removes exactly the selected row, or reports 0 and changes nothing; fails only without the table |
| Table.MinKey | db/db.js:45-46 | a non-empty table has a smallest id, where the scan starts |
| Table.Scan | db/db.js:45-46 | the scan yields one row per table row |
| Table.ScanRows | db/db.js:45-46 | a row is in the scan iff the table holds it, and no id appears twice |
| Table.TotalRemove | db/db.js:79-80 | a `SUM(CASE ...)` total equals the total without any one row plus that row's contribution, so it does not depend on scan order |
| Table.TotalIgnoresOtherKinds | db/db.js:79-80 | a row whose type is not the summed kind adds nothing to that total |
| Table.SumCaseAfterAdd | db/db.js:79-80 | inserting a row under a fresh id raises its own type's total by its amount; other totals keep their value, with NULL read as 0 |
| Table.SumCaseAfterRemove | db/db.js:79-80 | deleting a row lowers its own type's total by its amount |
| Table.SumCaseAfterOverwrite | db/db.js:79-80 | updating a row swaps its old contribution for its new one |
| Table.WorkedExample | routes/transactions.js:98-104 | rows (income 100), (expense 40), (income 25) give totals 125 and 40 and a balance of 85 |
| Table.SelectAll | db/db.js:45-46 | fails iff the table is missing; otherwise returns exactly the table's rows, one per row |
| Table.SelectById | db/db.js:53-54 | fails iff the table is missing; returns the row the key selects, or nothing when there is none |
| Table.SelectTotals | db/db.js:77-83 | the income and expense CASE-sums over the table; both are NULL iff the table is empty |
| Table.InsertThenSelect | db/db.js:35-57 | reading back the id an insert reported yields the inserted values |
| Table.DeleteThenSelect | db/db.js:67-73 | after a delete, the id selects nothing |
| Store.Database.Open | db/db.js:5-11 | opening a new database file gives no tables, no rows, and a fresh counter |
| Store.Database.CreateTable | db/db.js:22-31 | changes the object exactly as `Table.CreateIfNotExists` says |
| Store.Database.Insert | db/db.js:37-40 | changes the object and returns the id exactly as `Table.Insert` says |
| Store.Database.Update | db/db.js:61-64 | changes the object and returns the count exactly as `Table.Update` says |
| Store.Database.Delete | db/db.js:69-72 | changes the object and returns the count exactly as `Table.Delete` says |
| Gateway.InitDb | db/db.js:13-33 | afterwards the table exists, rows and counter are kept, and a second call changes nothing |
| Gateway.AddTransaction | db/db.js:35-41 | returns an id iff the insert is allowed; the id is new, larger than every present id, and holds the stored values; a failure changes nothing |
| Gateway.GetAllTransactions | db/db.js:43-49 | exactly the table's rows, as many as the table holds; a failure iff the table is missing |
| Gateway.GetTransactionById | db/db.js:51-57 | the row with that id, or nothing iff no row has it |
| Gateway.UpdateTransaction | db/db.js:59-65 | returns 1 and overwrites the row iff it exists and the values meet the constraints; returns 0 and changes nothing iff no row has the id |
| Gateway.DeleteTransaction | db/db.js:67-73 | returns 1 and removes the row iff it exists, 0 otherwise; afterwards the id reads back as nothing |
| Gateway.GetTransactionSummary | db/db.js:75-86 | `totalIncome` and `totalExpenses` are the two CASE-sums, both NULL iff the table is empty; no balance is computed |
| Gateway.AddIncomeRaisesIncome | db/db.js:79-80 | after adding an income row, `totalIncome` is the old total (NULL as 0) plus its amount, and `totalExpenses` keeps its value |
| Gateway.AddExpenseRaisesExpenses | db/db.js:79-80 | after adding an expense row, `totalExpenses` rises by its amount, and `totalIncome` keeps its value |
| Gateway.AddOtherTypeKeepsTotals | db/db.js:79-80 | a row of any other type leaves both totals as they were |
| PathId.ParseId | routes/transactions.js:46-49 | a segment selects an id iff it is an integer literal (an optional sign, then at least one digit, nothing else); a digit run selects its decimal value, `+n` selects n and `-n` selects −n |
| PathId.StrayCharacterSelectsNothing | routes/transactions.js:46-53 | a segment with any character that is neither a digit nor a leading sign, such as `12abc`, selects no id |
| PathId.LeadingZero | routes/transactions.js:46-49 | a leading zero does not change the value of a digit run |
| PathId.LeadingZerosSelectSameId | routes/transactions.js:46-49 | `007` selects the same id as `7` |
| PathId.Decimal | routes/transactions.js:46 | the decimal spelling of an id is a non-empty run of digits |
| PathId.DecimalRoundTrip | routes/transactions.js:46-49 | reading the digits of a number's decimal spelling gives the number back |
| PathId.IdTextRoundTrip | routes/transactions.js:46-49 | any id written into the URL selects that same id |
| PathId.SummaryIsNoId | routes/transactions.js:45-49 | the segment `summary` selects no id |
| Router.RepliesIgnoreCount | routes/transactions.js:69-71 | PUT and DELETE reply the same whether 0 rows or 1 row changed |
| Router.PostRoot | routes/transactions.js:16-29 | 201 iff the table exists, the NOT NULL fields are present and ids remain; then the table gains exactly the new row; otherwise 500 and nothing changes |
| Router.GetRoot | routes/transactions.js:32-42 | 200 with exactly the table's rows, or 500 without the table |
| Router.GetById | routes/transactions.js:45-60 | 200 with the row iff the segment selects a present id; 404 "Transaction not found" iff it selects none; 500 without the table |
| Router.PutById | routes/transactions.js:63-77 | 500 iff the table is missing or a selected row would get a NULL; a selected row is overwritten; with no selected row the reply is still 200 and nothing changes |
| Router.DeleteById | routes/transactions.js:80-92 | 200 iff the table exists; a selected row is removed and nothing else changes; afterwards the same segment gets 404 |
| Router.GetSummary | routes/transactions.js:95-111 | 200 with both totals and `balance` = income − expense, with NULL read as 0; on an empty table both totals are null and the balance is 0; 500 without the table |
| Router.FirstMatch | routes/transactions.js:16-95 | the route picked matches the request, and no earlier route matches it; none is picked iff no route matches |
| Router.Serve | routes/transactions.js:16-111 | a request reaches exactly the handler of the first matching route, and its reply and the new database state are that handler's; with no match the reply is 404 and nothing changes |
| Router.SummaryShadowed | routes/transactions.js:45 | as registered, `GET /transactions/summary` is taken by the `/:id` handler |
| Router.SummaryUnreachable | routes/transactions.js:95 | as registered, no request of any verb or path reaches the summary handler |
| Router.SummaryRequestNotFound | routes/transactions.js:49-53 | the `/:id` handler answers `summary` with 404 "Transaction not found", or 500 without the table |
| Router.FirstMatchAt | routes/transactions.js:16-95 | a request reaches the handler of the first route it matches |
| Router.IntendedServesSummary | routes/transactions.js:95-111 | with `/summary` registered before `/:id`, `GET /transactions/summary` reaches the summary handler |
| Router.IntendedKeepsOtherRoutes | routes/transactions.js:16-92 | moving `/summary` first changes the handler of no other request |
| Router.GetByIdOfStoredRow | routes/transactions.js:45-51 | a stored row's id written into the URL returns 200 with that row |
| History.Replay | db/db.js:13-73 | any sequence of gateway calls keeps the database valid, never lowers the id counter, never drops the table, and records one stored entry per reported id |
| History.RowCount | db/db.js:35-73 | the row count is the starting count, plus the successful inserts, minus the deletes that removed a row |
| History.InsertedRowsKept | db/db.js:35-73 | without deletes, every id an insert reported is still in the table; with no updates either, its row still holds the values that insert stored |
| History.NoRemoveNoDeletes | db/db.js:67-73 | a history with no delete call removes no row |
| History.GetAllReturnsCreated | db/db.js:43-49 | starting from an empty table, after calls with no update or delete, `getAllTransactions` returns one row per successful insert, and each created transaction is among them with its id and stored values |
| History.GetAllCountsInsertsAndDeletes | db/db.js:43-49 | starting from an empty table, `getAllTransactions` returns as many rows as inserts succeeded minus rows deleted |
| History.IdsNeverReused | db/db.js:24 | the ids handed out strictly increase, exceed every id present at the start, and stay below the counter, even across deletes |

## Left out

- `index.js`: the server bootstrap, the port and JSON body parsing are not modelled. A request body arrives as a `Payload` of optional fields.
- Opening and closing a connection for every call is not modelled. The same goes for `async`/`await` and the interleaving of concurrent requests. A handler is one atomic step on the database.
- If `connectDB` fails, the handlers fail outside their `try`. That failure is not modelled.
- Opening the file and running a statement can fail in many ways. Only failures the SQL itself determines are modelled: a missing table, a NOT NULL violation, and ids that have run out. Every driver error is the one `Failure` value.
- The two modules open different files. `db/db.js` opens `db/db/database.sqlite`, while the router opens `db/database.sqlite`. The model does not track file paths: the caller passes in the `Database`. The router never creates the table, so `hasTable` records whether a file has one. Without it, every handler answers 500.
- The `categories` table is not modelled. Nothing reads or writes it after `initDb` creates it.
- Amounts are modelled as exact reals. IEEE double rounding in `SUM` and in the JavaScript subtraction is left out.
- SQLite's column type affinity is not modelled. Neither are values that are not text or numbers, such as booleans, objects and arrays from JSON. Each field is present or NULL.
- `SELECT *` returns rows in an order SQL does not promise. The model scans in ascending id, and no contract depends on that order.
- PathId.ParseId: only covers text made of an optional sign and decimal digits. SQLite's conversion also accepts surrounding spaces, a decimal point and exponents, and such segments are not modelled as selecting an id. URL percent-decoding is assumed done.
- Router.Matches: Express's matching is reduced to the three patterns used here, over decoded path segments. Case-insensitive paths, trailing slashes, HEAD requests and the 404 page's HTML are left out.
- Table.Insert: the id counter is a plain integer capped at 2^63−1. Once the largest id has been used, every insert fails, which is SQLite's SQLITE_FULL for AUTOINCREMENT tables.
- One might expect totals of 0 on an empty table. The code returns NULL for both sums, because `SUM` over no rows is NULL, and the model follows the code. The handler's balance is still 0, because JavaScript evaluates `null - null` to 0.

## Findings

| source | as written | input that shows it | evidently intended | confidence | as-written member | corrected member |
|---|---|---|---|---|---|---|
| routes/transactions.js:45-53, 95 | `GET /:id` is registered before `GET /summary`, so Express hands `/transactions/summary` to the id handler, which finds no row | `GET /transactions/summary` on any database with the table: reply 404 "Transaction not found" instead of the totals | register `/summary` before `/:id`, so the summary request reaches its handler and every other request keeps its handler | high, not executed | Router.SummaryShadowed | Router.IntendedServesSummary |
