# finops-cost-tracker in Dafny

A model of the data path of finops-cost-tracker: billing records fetched from the
warehouse are reconciled into four PostgreSQL tables (`services`, `projects`,
`teams`, `costs`), read back by two HTTP handlers, and shown in a sortable
dashboard table with a budget warning.

- `schema.dfy` (module `Schema`): the tables, the serial sequences that number their
  rows, the integrity the schema keeps (`Valid`), and each INSERT statement the
  backend sends, with PostgreSQL's `ON CONFLICT ... DO NOTHING / DO UPDATE ...
  RETURNING id` semantics. A `DO NOTHING` conflict returns no row, so `rows[0]?.id`
  is undefined; the sequence advances even when the row is not inserted; NULL ids
  never collide under a unique key.
- `postgres.dfy` (module `Postgres`): the database as an object whose methods
  update the tables in place. A transaction is a snapshot of the tables taken at
  BEGIN and restored on ROLLBACK (sequences are not restored). Each method is proved
  to do what the matching `Schema` statement says, and to keep `Valid`. `checkedOut`
  counts the pool clients in use.
- `dates.dfy`, `labels.dfy`: the date fallback, the day part of an ISO timestamp,
  the team-label choice and the provider default of both loaders.
- `batches.dfy` (module `Batches`): the record loop both loaders share. Records are
  handled in order, and the first one that throws ends the loop.
- `reconcile.dfy` (module `Reconcile`): `insertDataToDB`, the transactional loader,
  as a specification (`Reconcile`) and as a method on the database object
  (`InsertDataToDB`) proved equal to it.
- `server.dfy` (module `Server`): the `/load-mock-data` loader without a
  transaction (`LoadMockData` and `HandleLoadMockData`), and the `/api/costs`
  LEFT JOIN projection with its `'Unknown'` defaults (`ApiCosts`).
- `costsroute.dfy` (module `CostsRoute`): the costs router's query assembly
  (provider filter, sort whitelist, direction) and the rows its inner joins return.
- `costtable.dfy` (module `CostTable`): the dashboard component's state: the sort
  toggle, the sort, the total and the budget flag.

Costs are exact integers (cents). Date parsing is a parameter `toIso`: the ISO text
of `new Date(s)`, or None for an invalid date. "Now" is a parameter too, given as
ISO text. The draw `Math.floor(Math.random() * 3) + 1` for record `i` is the
parameter `env.roll(i)`.

Two consequences of the conflict policies are proved explicitly:
- `Reconcile.RepeatedProjectReadsUnknown`: the transactional loader stores a NULL
  project id for a project name it already knows.
- `Server.MockRepeatedServiceReadsUnknown`: the mock loader stores a NULL service id
  for a service it already knows.

`/api/costs` then shows those rows with `'Unknown'`, and the costs router's inner
joins drop them (`CostsRoute.NullIdRowsAreDropped`).

The cost insert ends in `ON CONFLICT DO NOTHING`
(finops-backend/insertToDbFromBigQuery.js:142), which reads as meant to keep a
re-run of the same batch from writing a second row. The code does not achieve that,
and the model follows the code.
On the second run the project upsert finds the name stored and returns no id. The
cost row then carries a NULL project id, and a NULL never matches a unique key, so
the row is written again. `Reconcile.RerunDuplicatesCosts` proves this for every
labelled record, with or without a unique key on `costs`.

## Model

| member | source | states |
|---|---|---|
| Schema.InsertService | finops-backend/insertToDbFromBigQuery.js:104-111 | The key is in the table afterwards, and every other row is unchanged. An existing row keeps its id and date, and only DO UPDATE replaces its cost. A new row gets the next serial. RETURNING yields nothing exactly when the key existed under DO NOTHING; otherwise it yields that row's id. The sequence always advances. Integrity is kept and no row is lost. |
| Schema.InsertName | finops-backend/insertToDbFromBigQuery.js:113-136 | No second row is made for an existing name. RETURNING yields nothing exactly when the name existed; otherwise it yields the new row's id, which is the serial. The other tables are unchanged. Integrity is kept. |
| Schema.InsertCost | finops-backend/insertToDbFromBigQuery.js:139-144 | At most one row is appended, and it carries exactly the statement's values. It is appended exactly when neither the unique key nor a foreign key refuses it. A conflict is skipped under ON CONFLICT DO NOTHING and raises otherwise. A dangling id raises. Without a conflict clause, success means exactly one row was appended. |
| Schema.ServiceWithId | finops-backend/index.js:31 | The join finds the service row whose id matches. It finds none exactly when the id is NULL or dangling. |
| Schema.NameWithId | finops-backend/index.js:32-33 | The join finds the project or team whose id matches. It finds none exactly when the id is NULL or dangling. |
| Schema.UnissuedProjectIdTakesNoKey | finops-backend/insertToDbFromBigQuery.js:113-144 | From a state with integrity, a cost row whose project id is the next value of the project sequence never meets the unique key of `costs`. This holds as long as the stored cost rows stay the same. |
| Postgres.Database.constructor | finops-backend/insertToDbFromBigQuery.js:73-76 | The tables start empty and every sequence starts at 1. No transaction is open and no client is held. |
| Postgres.Database.Connect | finops-backend/insertToDbFromBigQuery.js:73 | One more client is held. The tables are unchanged. |
| Postgres.Database.Release | finops-backend/insertToDbFromBigQuery.js:156-158 | The client is given back. The tables are unchanged. |
| Postgres.Database.Begin | finops-backend/insertToDbFromBigQuery.js:76 | The tables are remembered as they stand, and they are not changed. |
| Postgres.Database.Commit | finops-backend/insertToDbFromBigQuery.js:151 | The transaction ends, and the tables stay as they are. |
| Postgres.Database.Rollback | finops-backend/insertToDbFromBigQuery.js:153-155 | The tables return to their state at BEGIN, and the sequences keep their values. |
| Postgres.Database.InsertService | finops-backend/insertToDbFromBigQuery.js:104-112 | The in-place update and the returned id are exactly those of Schema.InsertService. The transaction snapshot stays valid. |
| Postgres.Database.InsertName | finops-backend/insertToDbFromBigQuery.js:113-122 | The in-place update and the returned id are exactly those of Schema.InsertName. |
| Postgres.Database.InsertCost | finops-backend/insertToDbFromBigQuery.js:139-144 | The in-place update and the raised error are exactly those of Schema.InsertCost. |
| Dates.DayPart | finops-backend/insertToDbFromBigQuery.js:94-96 | `split("T")[0]`: the result is a prefix of the input that contains no 'T' and stops at the first 'T'. |
| Dates.DayPartOfStamp | finops-backend/index.js:97 | The day part of "day T time" is the day. |
| Dates.FormattedDate | finops-backend/insertToDbFromBigQuery.js:89-97 | It never fails. A non-empty string that parses gives the day of its ISO form. Anything else gives today's day. |
| Dates.EpochDay | finops-backend/index.js:97 | `new Date(null)` gives the day 1970-01-01. |
| Dates.MockDay | finops-backend/index.js:97 | The result is the day of the ISO form. It fails (None) exactly for undefined or an invalid date. It agrees with FormattedDate wherever the date parses. |
| Dates.AsParameter | finops-backend/index.js:61 | An undefined parameter is sent as NULL, and any other value is sent as it is. |
| Labels.Find | finops-backend/insertToDbFromBigQuery.js:124 | The result is the first label with the key. It is None exactly when no label has that key. |
| Labels.PoolTeam | finops-backend/insertToDbFromBigQuery.js:127 | `Team ${k}` is one of "Team 1", "Team 2", "Team 3". |
| Labels.OwnerTeam | finops-backend/insertToDbFromBigQuery.js:124-127 | The value of the first "owner" label, even an empty one. Without such a label, a name from the pool of three. |
| Labels.MockTeam | finops-backend/index.js:77-78 | The value of the first "team" label if it is non-empty, and "Team A" otherwise. The result is never empty. |
| Labels.MockProvider | finops-backend/index.js:59 | `seller_name` when it is truthy, and "Google Cloud" otherwise. |
| Batches.RunBatch | finops-backend/insertToDbFromBigQuery.js:78-149 | The loop fails only at the index of a record that exists. |
| Batches.RunBatchNext | finops-backend/insertToDbFromBigQuery.js:78 | While no record has failed, record `i` is handled next, on the state the earlier records left. |
| Batches.FailureIsFinal | finops-backend/insertToDbFromBigQuery.js:153-155 | Once a record has thrown, the records after it change nothing. |
| Batches.FailedAtFirstFailingStep | finops-backend/index.js:104-107 | A loop that fails at `k` ran every record before `k` successfully. Record `k` threw, and the state is what its own statements left. |
| Batches.RunStopsAtFirstFailing | finops-backend/insertToDbFromBigQuery.js:78-149 | Suppose that, from every state where an invariant holds, a step throws exactly on some records. Then a loop started where the invariant holds completes if and only if there are none, and otherwise stops at the first. The invariant still holds at the end. |
| Batches.RunStopsNoLaterThan | finops-backend/index.js:50-100 | When a step throws at least on some records, a completed loop had none. A failed loop stopped at or before the first. |
| Batches.RunBatchKeepsValid | finops-backend/insertToDbFromBigQuery.js:78-149 | If every step keeps integrity and loses no row, the whole loop does too. |
| Batches.RunBatchCountsCosts | finops-backend/index.js:89-99 | Suppose every successful step from a state where an invariant holds adds one cost row. Then a loop started there adds one row per record before the failing one. |
| Reconcile.RecordStep | finops-backend/insertToDbFromBigQuery.js:79-148 | A record without labels throws at the team lookup, before any cost row is written. Every cost insert sent draws one id from the `costs` sequence, whether or not a row is added. |
| Reconcile.RecordStepFailsOnlyWithoutLabels | finops-backend/insertToDbFromBigQuery.js:124 | A record throws if and only if it has no `labels`: the ids given to the cost insert always resolve, and a conflict is skipped. |
| Reconcile.RecordStepKeepsValid | finops-backend/insertToDbFromBigQuery.js:78-149 | One record's statements keep integrity, lose no row and never wind a sequence back. |
| Reconcile.RecordStepUpserts | finops-backend/insertToDbFromBigQuery.js:104-121 | After the record, its (service_name, provider_name) row exists with its cost. An existing row changes only in cost. Every other service row is untouched, and its project exists. |
| Reconcile.RecordStepWritesCost | finops-backend/insertToDbFromBigQuery.js:139-144 | A record that went through left its team row. It appended nothing (a skipped conflict) or exactly one row. That row holds the service row's id, a project or team id only when that row is new, the record's cost and its day. |
| Reconcile.RepeatedProjectReadsUnknown | finops-backend/insertToDbFromBigQuery.js:113-121 | A cost row written for an already-known project name has a NULL project id. `/api/costs` shows its project as 'Unknown'. |
| Reconcile.RecordStepAlwaysWrites | finops-backend/insertToDbFromBigQuery.js:113-144 | From a state with integrity, every labelled record goes through and appends exactly one cost row. Its project id is NULL or a freshly issued one, so it never meets the unique key, and ON CONFLICT DO NOTHING never skips a row. |
| Reconcile.ReconcileWritesEveryRecord | finops-backend/insertToDbFromBigQuery.js:78-151 | From a state with integrity, a committed batch appends exactly one cost row per record after the stored rows. A batch that is not committed leaves `costs` as it was. |
| Reconcile.ReconcileOne | finops-backend/insertToDbFromBigQuery.js:66-159 | A one-record batch with labels commits exactly what that record's statements wrote. |
| Reconcile.RerunDuplicatesCosts | finops-backend/insertToDbFromBigQuery.js:113-151 | Running the same labelled one-record batch twice commits both times. The second run adds one more cost row, so re-running is not idempotent. |
| Reconcile.RunStopsAtMissingLabels | finops-backend/insertToDbFromBigQuery.js:78-149 | The loop completes if and only if every record has labels. Otherwise it stops at the first record without them. |
| Reconcile.Reconcile | finops-backend/insertToDbFromBigQuery.js:66-159 | An empty batch changes nothing. A batch commits if and only if it is non-empty and every record has labels. A rollback restores all four tables exactly and names the first record without labels. Integrity is kept and no committed row is lost. |
| Reconcile.ProcessRecord | finops-backend/insertToDbFromBigQuery.js:79-148 | The loop body's in-place statements leave the state RecordStep describes, and report whether a step threw. |
| Reconcile.RunRecords | finops-backend/insertToDbFromBigQuery.js:78-149 | The loop leaves the state of the records run in order, stopping at the first that throws. |
| Reconcile.InsertDataToDB | finops-backend/insertToDbFromBigQuery.js:66-159 | The outcome and the final tables are those of Reconcile. The client is released on every path (the pool count is back where it was), and no transaction is left open. |
| Server.MockStep | finops-backend/index.js:51-99 | A malformed record throws before any cost row is written. Exactly the well-formed records draw one id from the `costs` sequence. |
| Server.MockStepFails | finops-backend/index.js:50-100 | A record missing `service`, `project` or `labels`, or with an invalid date, always throws. A well-formed record can be refused only by a unique key on `costs`. |
| Server.WellFormedStepGoesThrough | finops-backend/index.js:66-99 | From a state with integrity, a well-formed record always goes through and appends one cost row, with or without the unique key. |
| Server.MockStepKeepsServices | finops-backend/index.js:52-64 | DO NOTHING never changes an existing service row. A new key gets the next id, the record's cost and its raw start time. |
| Server.MockStepWritesCost | finops-backend/index.js:89-99 | A record that went through appended exactly one cost row. It holds the ids of the rows it created (NULL for existing ones), its cost and the day part of its date. |
| Server.LoadMockData | finops-backend/index.js:45-108 | The handler answers 200 only if every record was well-formed. A 500 names a record at or before the first malformed one. |
| Server.LoadMockDataFailsOnlyOnMalformed | finops-backend/index.js:104-107 | A 500 at a well-formed record can only come from a unique key on `costs`. |
| Server.LoadMockDataFromValid | finops-backend/index.js:45-108 | From a state with integrity, the handler answers 200 if and only if every record is well-formed. A 500 names the first malformed record. |
| Server.LoadMockDataKeepsPartialWrites | finops-backend/index.js:48-107 | After a 500 at record `k`, every record before `k` went through and nothing is rolled back. The tables extend the state after record `k - 1`, and include what record `k`'s own earlier statements wrote. |
| Server.LoadMockDataAppends | finops-backend/index.js:89-99 | The load adds exactly one cost row per record that went through: `|data|` rows for a 200, `k` rows for a 500 at `k`. Integrity is kept and no earlier row is lost. |
| Server.ProcessMockRecord | finops-backend/index.js:51-99 | The loop body's in-place statements leave the state MockStep describes, and report whether a step threw. |
| Server.HandleLoadMockData | finops-backend/index.js:45-108 | The response and the final tables are those of LoadMockData, with no transaction opened. |
| Server.OrUnknown | finops-backend/index.js:24-29 | `COALESCE(x, 'Unknown')`. |
| Server.View | finops-backend/index.js:22-34 | A cost row keeps its cost and date. Each name is the joined row's name, or 'Unknown' when the join finds nothing. |
| Server.ApiCosts | finops-backend/index.js:19-42 | There is one output row per cost row, and row `i` is the view of cost row `i`. The LEFT JOINs never drop a row. |
| Server.ApiCostsUnknownOnlyForNull | finops-backend/index.js:30-33 | In a consistent database a NULL id reads as 'Unknown'. A non-NULL id always reads as the name of the row it refers to. |
| Server.MockRepeatedServiceReadsUnknown | finops-backend/index.js:55-64 | A mock record for an already-known service is stored with a NULL service id. It reads back with service and provider 'Unknown'. |
| CostsRoute.SortField | finops-backend/routes/costs.js:34-37 | Only "cost" (to `c.cost`) and "project" (to `p.project_name`) select a column. |
| CostsRoute.Direction | finops-backend/routes/costs.js:40-42 | DESC if and only if `order` is exactly "desc". ASC otherwise, missing included. |
| CostsRoute.OrderClause | finops-backend/routes/costs.js:33-44 | With the corrected whitelist, an ORDER BY is appended if and only if `sort` is "cost" or "project", on the mapped column and in the chosen direction. Otherwise nothing is appended. |
| CostsRoute.OrderClauseAsWritten | finops-backend/routes/costs.js:33-44 | As written, an ORDER BY is appended if and only if `sort` is "cost", "project" or an inherited member name. It agrees with OrderClause on every other `sort`. |
| CostsRoute.QueryText | finops-backend/routes/costs.js:10-44 | The query with the corrected whitelist. The base SELECT is always its prefix. |
| CostsRoute.QueryTextAsWritten | finops-backend/routes/costs.js:10-44 | The query as written. The base SELECT is always its prefix, and it equals QueryText unless `sort` names an inherited member. |
| CostsRoute.QueryParams | finops-backend/routes/costs.js:24-30 | The parameters are empty without a provider, and exactly `[provider]` with one. |
| CostsRoute.BuildQuery | finops-backend/routes/costs.js:24-44 | The text built by `+=` and the parameters built by `push` are QueryTextAsWritten and QueryParams. For any `sort` that is not an inherited member name, the text is QueryText. |
| CostsRoute.QueryIsFixedText | finops-backend/routes/costs.js:27-44 | With the corrected whitelist, every request sends one of ten fixed texts. No request value is spliced into the SQL. |
| CostsRoute.QueryIgnoresProviderValue | finops-backend/routes/costs.js:27-30 | The provider's value never changes the text, with the whitelist as written or corrected; it travels only as `$1`. |
| CostsRoute.WhereBeforeOrderBy | finops-backend/routes/costs.js:27-44 | With a provider, the WHERE clause comes right after the SELECT and before any ORDER BY, with the whitelist as written or corrected. |
| CostsRoute.SortFieldIsColumn | finops-backend/routes/costs.js:34-37 | A whitelisted sort field is always one of the two columns. |
| CostsRoute.SortFieldAsWritten | finops-backend/routes/costs.js:39 | The lookup as written also succeeds for names the object literal inherits. It agrees with SortField on "cost" and "project". |
| CostsRoute.InheritedSortNamePassesWhitelist | finops-backend/routes/costs.js:39-42 | `sort=toString` passes the check as written, and it puts a function's text, which is no column, into the ORDER BY. |
| CostsRoute.ToStringOrderClause | finops-backend/routes/costs.js:39-43 | As written, `sort=toString` appends an ORDER BY whose column text starts with 'f', where both real columns start with a table alias. |
| CostsRoute.InheritedSortNameLeavesFixedTexts | finops-backend/routes/costs.js:33-44 | As written, `sort=toString` sends a text that is none of the ten fixed ones. |
| CostsRoute.Select | finops-backend/routes/costs.js:18-30 | Exactly one row is returned per cost row whose three ids all resolve and whose provider matches any filter. Each returned value occurs as many times as there are such cost rows with that view, and every returned row comes from one of them. |
| CostsRoute.NullIdRowsAreDropped | finops-backend/routes/costs.js:18-21 | In a consistent database a cost row is returned exactly when none of its ids is NULL and its provider matches. |
| CostTable.NextDirection | finops-dashboard-ictbit/src/Components/CostTable.jsx:67-70 | The direction is desc if and only if the same key was sorted ascending. Any other click gives asc. |
| CostTable.RepeatedClickAlternates | finops-dashboard-ictbit/src/Components/CostTable.jsx:66-70 | Clicking the same column again flips the direction. |
| CostTable.KeyLe | finops-dashboard-ictbit/src/Components/CostTable.jsx:74-86 | The ascending comparison on one column: numeric on cost, textual otherwise. Equal rows may come in either order. |
| CostTable.Comparator | finops-dashboard-ictbit/src/Components/CostTable.jsx:73-87 | Every row may stand next to itself, and the descending comparator is the ascending one with its arguments swapped. |
| CostTable.ComparatorIsTotalPreorder | finops-dashboard-ictbit/src/Components/CostTable.jsx:73-87 | For each key and direction, the comparator is total and transitive. |
| CostTable.Insert | finops-dashboard-ictbit/src/Components/CostTable.jsx:73 | Inserting keeps every row and adds exactly the new one. |
| CostTable.InsertKeepsSorted | finops-dashboard-ictbit/src/Components/CostTable.jsx:73 | Inserting into sorted rows keeps them sorted. |
| CostTable.SortRows | finops-dashboard-ictbit/src/Components/CostTable.jsx:73-87 | The result is sorted by the comparator and is a permutation of the input. |
| CostTable.SortedOnCost | finops-dashboard-ictbit/src/Components/CostTable.jsx:74-77 | Sorted on cost, the rows are non-decreasing ascending and non-increasing descending. |
| CostTable.Total | finops-dashboard-ictbit/src/Components/CostTable.jsx:50 | The `reduce` sum: a single row totals its own cost, and rows that all have non-negative costs have a non-negative total. |
| CostTable.TotalOfSort | finops-dashboard-ictbit/src/Components/CostTable.jsx:50 | Sorting leaves the summed cost unchanged. |
| CostTable.OverBudgetAsWritten | finops-dashboard-ictbit/src/Components/CostTable.jsx:54-62 | No flag without a positive budget. With one, the flag is set if and only if the budget is at least the total. |
| CostTable.OverBudgetAsWrittenIsInverted | finops-dashboard-ictbit/src/Components/CostTable.jsx:55-59 | A budget of 100.00 against 50.00 raises the warning, and against 150.00 it does not. |
| CostTable.OverBudget | finops-dashboard-ictbit/src/Components/CostTable.jsx:122-127 | The flag is set if and only if a positive budget is lower than or equal to the total, as the alert says. |
| CostTable.OverBudgetDiffersFromAsWritten | finops-dashboard-ictbit/src/Components/CostTable.jsx:54-62 | The two flags agree exactly when no positive budget is set or the budget equals the total. |
| CostTable.Dashboard.constructor | finops-dashboard-ictbit/src/Components/CostTable.jsx:22-28 | No rows, no sort key with direction asc, a zero total and the flag unset. |
| CostTable.Dashboard.CalculateTotalCost | finops-dashboard-ictbit/src/Components/CostTable.jsx:49-63 | `totalCost` is the sum of the rows' costs. `isOverBudget` is set by the comparison as written: exactly when a positive budget is at least that total. Nothing else changes. |
| CostTable.Dashboard.Loaded | finops-dashboard-ictbit/src/Components/CostTable.jsx:35-36 | The fetched rows are shown and totalled, and the flag is set as written. |
| CostTable.Dashboard.HandleSort | finops-dashboard-ictbit/src/Components/CostTable.jsx:66-91 | `sortConfig` becomes the clicked key with the toggled direction. `costs` becomes that sort of the previous rows: sorted, a permutation, same total. The total and the flag are untouched. |

## Left out

- Warehouse access (`fetchBillingData`, `fetchBillingMockData`) is remote I/O. The
  loaders take the fetched rows as input; a failed fetch yields the empty batch.
- The connection pool, its start-up check and `process.exit`, and the module-load
  call of `insertDataToDB` are plumbing. `checkedOut` stands for the pool.
  `pool.query` in the mock loader is modelled as statements on the shared
  database outside any transaction.
- Express wiring, CORS, `/health`, JSON encoding, and logging are not modelled.
  The mock loader's answer is `Response` (the loaded message or status 500).
- JavaScript date parsing and the clock are parameters. `toISOString` formatting is
  not modelled beyond "the day part before 'T'". The kinds of value
  `usage_start_time` may hold are `Timestamp`'s four cases.
- Reconcile.Env: the clock is read once per run (`nowIso`), while the loop calls
  `new Date()` afresh for each record that lacks a valid date
  (finops-backend/insertToDbFromBigQuery.js:93 and 96). A batch that runs across
  midnight can give such records two different days; the model gives them one.
- `services.date` stores the value the statement passed; PostgreSQL's cast of that
  text is not modelled.
- Names and costs from the warehouse are never NULL here. A missing
  `service.description`, `project.name` or `cost` (which PostgreSQL would store as
  NULL or refuse) is not modelled; only a missing `service`, `project` or `labels`
  object throws.
- The constraints of `costs` are not visible in the repository. Whether it has a
  unique key on (service_id, project_id, team_id, date) is the flag
  `Db.costKeyUnique`. Other NOT NULL or CHECK constraints are not modelled.
- Reconcile.Reconcile: the cost insert ends in `ON CONFLICT DO NOTHING`
  (finops-backend/insertToDbFromBigQuery.js:142), which reads as meant to keep a
  re-run from writing a second row; the code does not achieve that, and the model
  follows the code: `RerunDuplicatesCosts` proves the duplicate. No corrected resolver that fetches the existing id is modelled.
- Concurrency between requests, and between the two loaders, is not modelled.
- The base SELECT of the costs router is a fixed text here. The comments embedded in
  the original text, and whether PostgreSQL accepts that text, are not modelled.
- Server.ApiCosts: the query has no ORDER BY, so PostgreSQL promises no row order. The
  model returns the rows in table order.
- CostsRoute.Select: the order in which PostgreSQL returns rows, and so the
  effect of ORDER BY on the row order, is not modelled; it returns the selected
  rows in table order.
- CostTable.SortRows: `localeCompare` is modelled as code-unit lexicographic order,
  and date comparison as the same order on ISO day text. Values a row may lack
  (`a[key]?.`) are not modelled. Stability of the sort is not proved.
- Floating point (`parseFloat`, `toFixed`) is not modelled: costs and the budget are
  integer cents, and a budget that is empty or not a number is None.
- React rendering, the loading and error states, the asynchronous `setState`, and
  the stale budget read when the budget field changes are not modelled. The budget
  is passed to `CalculateTotalCost` explicitly.
- `App.js` only renders the table.

## Findings

| source | as written | input that shows it | evidently intended | confidence | as-written member | corrected member |
|---|---|---|---|---|---|---|
| finops-backend/routes/costs.js:39-42 | `validSortFields[sort]` is a property lookup on an object literal, so it also finds the members inherited from `Object.prototype` | `GET /?sort=toString` passes the check and appends ` ORDER BY function toString() { [native code] } ASC`; this is no column of the SELECT. No response shows it as the repository stands, because the SELECT text already carries `//` comments and no server mounts the router; the whitelist check is still wrong | only "cost" and "project" select a column; any other `sort` leaves the query unsorted | medium, not executed | CostsRoute.SortFieldAsWritten | CostsRoute.SortField |
| finops-dashboard-ictbit/src/Components/CostTable.jsx:55-59 | `isOverBudget` is set when `parseFloat(budget) >= total` | budget 100.00 with a total of 50.00 shows "Budget (100.00) is lower than or equal to the total cost (50.00)" | set when the budget is lower than or equal to the total, as the flag's name and the alert text say | high, not executed | CostTable.OverBudgetAsWritten | CostTable.OverBudget |
