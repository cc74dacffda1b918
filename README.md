# Serial-number reimport and daily report arithmetic, in Dafny

This project models two scripts of an MES-to-PLUS integration.

**Serial-number reconciliation** (`mes2plus/sync_reimport_sn.py`). An upstream
manufacturing-execution system (MES) generates barcodes in batches against
production orders. A downstream inventory system (PLUS) keeps an imported
serial-number table (`物料扫码-SN库`), an incoming table (`物料扫码-库存`) and an
outgoing table (`物料扫码-出库`), all keyed by sales-order code. For each recently
updated MES batch, the job does four things:

- It extracts the order code from the batch's raw order string.
- It compares the batch's barcodes with the codes PLUS has imported for that order.
- It skips the batch when the counts differ, when the code sets are equal, or
  when any incoming or outgoing row exists for the order.
- Otherwise it deletes the order's imported rows and inserts one robot-entered
  row per MES barcode. Both writes run in one transaction on a separate
  connection, and the transaction commits at the end.

An exception during that transaction propagates and ends the run.

**Daily report arithmetic** (`general/send_daily_report.py`). This covers:

- which screenshot routine each configured report goes to;
- which slices of a company shipment report are captured for the current month;
- the order in which those slices are stacked;
- the geometry of the vertical image merge (canvas size, centred x offsets, cumulative y offsets).

Files and modules:

- `wrappers.dfy` (`Wrappers`): `Option` and `Result`.
- `mes.dfy` (`Mes`): the upstream batch and barcode records, given as input.
- `order_code.dfy` (`OrderCode`): the two-tier order-code extractor. The two
  regular expressions are written out as predicates over string positions.
  They use the leftmost-start, greedy-then-backtracking choice that Python's
  `re.search` makes.
- `plus_tables.dfy` (`PlusTables`): the three downstream tables as sequences
  of rows, and the point queries as filters. It also has the delete and the
  bulk insert, plus two classes. `Database` holds the tables. `Transaction`
  stages its writes on a copy of the imported table and assigns the copy
  back only in `Commit`.
- `reconcile.dfy` (`Reconcile`): the per-batch specification `Step` and the
  whole-run specification `RunSpec`, with the lemmas about them. It also has
  the imperative loop body `ProcessBatch` and the loop `RunBatches`, both
  proved against those specifications.
- `daily_report.dfy` (`DailyReport`): month capture, merge order and image stacking.
- `report_dispatch.dfy` (`ReportDispatch`): report dispatch and the configured report list.

### Where the code departs from the job's stated design

The job's design notes make four claims that the code does not keep. The
model follows the code in each case.

- **Count mismatch.** The design says a count mismatch is a signal to
  proceed with the reimport. The code skips the batch (`sync_reimport_sn.py:233-236`). The
  model skips it (`Reconcile.CountGuard`). So with upstream `A1, A2, A3` and
  `A1, A2` imported for `ORD-5`, the batch is skipped, not reimported
  (`Reconcile.ScenarioCountMismatch`). A reimport happens when the counts are
  equal and the sets differ (`Reconcile.ScenarioReplace`).
- **Plain-tier example.** The design says `"XYZ99-Note"` gives
  `"XYZ99"`. The class `[A-Z0-9-]` also takes the `-` and the `N`, so the
  code gives `"XYZ99-N"`. The model gives the same (`OrderCode.ExamplePlain`).
- **Transaction failure.** The design lets the run continue after a failed
  transaction. The code re-raises, which ends the run
  (`sync_reimport_sn.py:268-270`, `275-277`). The model stops at the first
  failure (`Reconcile.RunStopsAtFailure`).
- **Idempotence.** The design says a second run of the whole job with no
  upstream change writes nothing. The code keeps this per batch only: a
  batch run again right after its own reimport is skipped
  (`Reconcile.RerunIsSkipped`). Two batches of one run can map to the same
  order code, for example the split lines `ORD-5-1-1` and `ORD-5-1-2`. When
  each has as many barcodes as PLUS holds but different codes, each run
  reimports the first batch and then overwrites it with the second. A second
  run with no upstream change does the same writes again
  (`Reconcile.RerunRewritesSharedOrder`).

## Model

| member | source | states |
|---|---|---|
| `Mes.BarcodeCodes` | mes2plus/sync_reimport_sn.py:225 | one code per MES barcode, and a code is listed exactly when some barcode carries it |
| `OrderCode.RunEnd` | mes2plus/sync_reimport_sn.py:105 | the greedy `[A-Z0-9-]*` run from a position: every character up to the end is in the class and the next one is not |
| `OrderCode.LastSuffixEnd` | mes2plus/sync_reimport_sn.py:105 | backtracking from the greedy end: the furthest end at which `-d-d` follows, or none in the range |
| `OrderCode.FindSuffixMatch` | mes2plus/sync_reimport_sn.py:105-108 | the tier-1 search: a match at the leftmost possible start with the furthest end for that start, or no match anywhere |
| `OrderCode.FirstUpper` | mes2plus/sync_reimport_sn.py:111-114 | the tier-2 start: the first ASCII upper-case letter, or none |
| `OrderCode.ExtractOrderNumber` | mes2plus/sync_reimport_sn.py:101-116 | no upper-case letter gives the input verbatim; otherwise the result is a non-empty contiguous substring that starts with `A`-`Z` and holds only `[A-Z0-9-]` |
| `OrderCode.SuffixTier` | mes2plus/sync_reimport_sn.py:104-108 | when a run reaches a `-d-d` lookahead, the result is the run from the leftmost such start to the furthest such end, suffix excluded |
| `OrderCode.PlainTier` | mes2plus/sync_reimport_sn.py:110-114 | with no suffixed match, the result is the maximal `[A-Z0-9-]` run starting at the leftmost upper-case letter |
| `OrderCode.Fallback` | mes2plus/sync_reimport_sn.py:116 | a string without `A`-`Z` is returned unchanged |
| `OrderCode.ExampleSuffixed` | mes2plus/sync_reimport_sn.py:104-108 | `"ABC-123-1-2"` gives `"ABC-123"` |
| `OrderCode.ExamplePlain` | mes2plus/sync_reimport_sn.py:110-114 | `"XYZ99-Note"` gives `"XYZ99-N"` |
| `OrderCode.ExampleFurthestEnd` | mes2plus/sync_reimport_sn.py:105-108 | with two `-d-d` lookaheads after one run, the furthest wins: `"A-1-2-3"` gives `"A-1"` |
| `OrderCode.ExampleSplitLines` | mes2plus/sync_reimport_sn.py:104-108 | the split lines `"ORD-5-1-1"` and `"ORD-5-1-2"` both give `"ORD-5"` |
| `OrderCode.ExampleAlreadyCode` | mes2plus/sync_reimport_sn.py:110-114 | an order string that is already a code, `"ORD-5"`, comes back unchanged |
| `PlusTables.RowsFor` | mes2plus/sync_reimport_sn.py:119-131 | the rows selected for an order code all carry that code and are no more than the table's rows |
| `PlusTables.RowsForMembers` | mes2plus/sync_reimport_sn.py:119-131 | the selection holds exactly the table's rows whose order code matches |
| `PlusTables.ImportedCodes` | mes2plus/sync_reimport_sn.py:119-131 | the imported-barcodes query returns one code per matching row |
| `PlusTables.ImportedCodesMembers` | mes2plus/sync_reimport_sn.py:119-131 | a code is returned exactly when some imported row of that order code carries it |
| `PlusTables.MovementCodes` | mes2plus/sync_reimport_sn.py:134-161 | the incoming and outgoing queries come back empty exactly when no row of the table has that order code |
| `PlusTables.MovementCodesMembers` | mes2plus/sync_reimport_sn.py:134-161 | a code is returned exactly when some row of that order code carries it |
| `PlusTables.DeleteOrder` | mes2plus/sync_reimport_sn.py:164-174 | no row of the order code is left, and the rows removed number exactly the rows the order code held |
| `PlusTables.DeleteOrderMembers` | mes2plus/sync_reimport_sn.py:164-174 | every row of every other order code is kept |
| `PlusTables.RowsForAfterDelete` | mes2plus/sync_reimport_sn.py:164-174 | after the delete, the order code selects nothing and every other code selects its old rows in order |
| `PlusTables.NewRows` | mes2plus/sync_reimport_sn.py:183-189 | one insert row per barcode, in barcode order with the barcode's code, every row carrying the order code, the item code, `机器人` twice and the insert time |
| `PlusTables.RowsForNewRows` | mes2plus/sync_reimport_sn.py:177-192 | the inserted rows all belong to the batch's order code |
| `PlusTables.ReplaceOrder` | mes2plus/sync_reimport_sn.py:164-192 | delete then insert leaves the order code exactly the new rows in barcode order, and other codes' rows unchanged |
| `PlusTables.Transaction.Begin` | mes2plus/sync_reimport_sn.py:251 | a new write transaction starts from the current imported table |
| `PlusTables.Transaction.Delete` | mes2plus/sync_reimport_sn.py:164-174 | returns the number of staged rows of the order code and removes them, or raises and changes nothing |
| `PlusTables.Transaction.Insert` | mes2plus/sync_reimport_sn.py:177-192 | appends one staged row per barcode and returns the barcode count, or -1 for an empty barcode list (the untouched `rowcount` of an `executemany` with no parameters), or raises and changes nothing |
| `PlusTables.Transaction.Commit` | mes2plus/sync_reimport_sn.py:266 | the staged imported table becomes the database's imported table, or the commit raises and the database keeps its old imported table |
| `Reconcile.CodeSet` | mes2plus/sync_reimport_sn.py:239 | the set `set(...)` builds from a code list never has more elements than the list |
| `Reconcile.Step` | mes2plus/sync_reimport_sn.py:218-267 | one pass of the loop body: an error is exactly the database error of that batch; no outcome changes the incoming or outgoing table; every outcome other than a reimport leaves all tables unchanged |
| `Reconcile.RunSpec` | mes2plus/sync_reimport_sn.py:217-277 | the loop over the batches reports at most one outcome per batch, and one for every batch when nothing raised |
| `Reconcile.CountGuard` | mes2plus/sync_reimport_sn.py:233-236 | a count mismatch skips the batch and leaves every table unchanged |
| `Reconcile.EqualityGuard` | mes2plus/sync_reimport_sn.py:238-241 | equal counts and equal code sets skip the batch and leave every table unchanged |
| `Reconcile.MovementLock` | mes2plus/sync_reimport_sn.py:243-248 | any incoming or outgoing row for the order code leaves every table unchanged, even when the code sets differ |
| `Reconcile.WritesOnlyWhenSafe` | mes2plus/sync_reimport_sn.py:233-266 | a batch reaches the transaction exactly when it passes all three guards; it commits exactly when no write raises, and raises exactly when one does |
| `Reconcile.ReimportHasBarcodes` | mes2plus/sync_reimport_sn.py:233-264 | a reimported batch has at least one barcode and reports it as the insert count, so the `-1` row count of an empty insert never reaches an outcome |
| `Reconcile.ReimportedStep` | mes2plus/sync_reimport_sn.py:250-267 | a reported reimport means the guards passed, nothing raised, and the tables are the replaced ones |
| `Reconcile.FullReplace` | mes2plus/sync_reimport_sn.py:250-267 | after commit the order code holds one `(order, item, code, 机器人, 机器人, now)` row per MES barcode in MES order; the delete count is the rows held before and the insert count the number of barcodes; other codes and the incoming and outgoing tables are unchanged |
| `Reconcile.RerunIsSkipped` | mes2plus/sync_reimport_sn.py:238-241 | the same batch run again right after a reimport is skipped by the equality guard |
| `Reconcile.RerunRewritesSharedOrder` | mes2plus/sync_reimport_sn.py:217-267 | two batches with the order strings `ORD-5-1-1` and `ORD-5-1-2` and one barcode each (`A1`, then `A2`), against one imported `A9` for `ORD-5`, are both reimported, and a second run with no upstream change reimports both again |
| `Reconcile.RunStopsAtFailure` | mes2plus/sync_reimport_sn.py:251-277 | a run ends after all batches or at the first raising batch, with the tables that batch started from and no later batch processed |
| `Reconcile.RunKeepsMovementTables` | mes2plus/sync_reimport_sn.py:217-273 | a run never changes the incoming or outgoing table |
| `Reconcile.StepFrame` | mes2plus/sync_reimport_sn.py:250-267 | a batch leaves the imported rows of every other order code as they were |
| `Reconcile.RunFrame` | mes2plus/sync_reimport_sn.py:217-273 | an order code that no batch of the run maps to keeps its imported rows |
| `Reconcile.ScenarioCountMismatch` | mes2plus/sync_reimport_sn.py:233-236 | upstream `A1, A2, A3` against imported `A1, A2` for `ORD-5` is skipped with the tables unchanged |
| `Reconcile.ScenarioReplace` | mes2plus/sync_reimport_sn.py:250-267 | upstream `A1, A2, A3` against imported `A1, A2, A9` deletes 3 rows, inserts 3, and leaves `ORD-5` holding exactly `A1, A2, A3` |
| `Reconcile.ProcessBatch` | mes2plus/sync_reimport_sn.py:218-273 | the loop body on the live database gives the outcome and new tables of `Step`, and on a raise leaves the database as it was |
| `Reconcile.RunBatches` | mes2plus/sync_reimport_sn.py:217-277 | the loop over the batches leaves the tables, outcomes and terminating error of `RunSpec` |
| `DailyReport.CaptureSlices` | general/send_daily_report.py:134-179 | captures header, delay, the tail exactly when `has_tail`, months `m` to `min(m+2, 12)` in ascending order, then months 1 and 2 exactly when `m > 10`; every slice is captured once |
| `DailyReport.MergeMonths` | general/send_daily_report.py:181-187 | three distinct months, the current one and the two after it counted across the year end, latest first, each of them captured |
| `DailyReport.MergeOrder` | general/send_daily_report.py:189-197 | header, delay, tail exactly when `has_tail`, then the three merge months; length `5` plus one for a tail; every slice was captured |
| `DailyReport.MaxWidth` | general/send_daily_report.py:251-255 | the canvas width is at least every image's width and equal to one of them |
| `DailyReport.HeightAbove` | general/send_daily_report.py:262-266 | the `y_offset` before image `k` is at least the height of the image directly above it |
| `DailyReport.HeightAboveBounds` | general/send_daily_report.py:262-266 | the `y_offset` before image `k` is at least each earlier image's height, and zero exactly when all earlier images have height zero |
| `DailyReport.TotalHeight` | general/send_daily_report.py:252-256 | `sum(heights)` is at least every image's height, and zero exactly when every height is zero |
| `DailyReport.BandsInOrder` | general/send_daily_report.py:262-266 | the cumulative y offsets put each image's band above every later image's band |
| `DailyReport.Placements` | general/send_daily_report.py:262-266 | one paste position per image, and each image's band ends where the `y_offset` of the next image stands |
| `DailyReport.StackedLayout` | general/send_daily_report.py:251-266 | each image fits horizontally; the bands start at 0, are consecutive and disjoint, and the last ends at the total height |
| `DailyReport.MergeImages` | general/send_daily_report.py:248-266 | an empty list fails as `max` does; otherwise the canvas is the widest image by the summed heights, and the paste loop produces `Placements` |
| `ReportDispatch.Dispatch` | general/send_daily_report.py:73-80 | `今日新单报表` goes to the new-order routine, `延期出货明细表` to the delay routine, every other name to the company routine with a missing `has_tail` read as false |
| `ReportDispatch.Screenshot` | general/send_daily_report.py:69-85 | one screenshot per configured report, in order, each from its dispatched routine |
| `ReportDispatch.ConfiguredDispatch` | general/send_daily_report.py:25-33 | of the seven configured reports, the first two go to their own routines and only `长嘉出货报表` is a company report with a tail |

## Left out

- The database connections (`get_mes_conn`, `get_plus_conn`), environment
  variables and cursor handling are not modelled. They are I/O. A failure to
  open the transaction connection is modelled as a fault of the batch.
- The upstream recency query (`sync_reimport_sn.py:57-81`) is not modelled:
  its join, the `ic_id = 270` filter, the time window and the ordering.
  The batch query (`84-98`) is not modelled either. The batches and each
  batch's non-deleted barcodes are input sequences, already in query order.
- Failing read queries are not modelled. The point queries are total
  filters, so a query error that would abort the run cannot occur in the model.
- Database errors while connecting, deleting, inserting and committing come
  from a per-batch input, one error per batch at most.
  The wall-clock timestamp stamped on inserted rows is an input string.
- Autocommit, isolation and locking between the three connections are not
  modelled, since they concern concurrency. The run is one sequential store
  in which `Commit` publishes the staged table. Closing connections in
  `finally` and logging are also left out.
- In `general/send_daily_report.py`, the following are I/O and are not
  modelled: browser navigation, screenshots, blank-month `tbody` injection
  (`__append_blank_month_tbody`), image files and pixel pasting, the output
  path choice (`269-277`), zipping and e-mail (`send_report_email`),
  `config()` lookups other than the report list, and the clock. The current
  month is a parameter. A captured image is represented by which slice it
  shows, not by its file path.
- A NULL order code is not modelled. The `LEFT JOIN` on the production task
  (`sync_reimport_sn.py:69`) can yield a NULL `order_code`, and `re.search`
  on `None` (`106`) raises `TypeError`, which ends the run at that batch
  (`275-277`). `Mes.Batch.orderCode` is always a string, so the model has
  no such batch.
- Column collation is not modelled. The `WHERE 销售订单 = %s` comparisons
  (`127`, `142`, `157`, `170`) follow the column's collation, and MySQL's
  default `utf8mb4` collations ignore case, so `ord-5`
  rows would be read and deleted for `ORD-5`. `PlusTables.RowsFor`,
  `PlusTables.MovementCodes` and `PlusTables.DeleteOrder` compare order
  codes by exact string equality.
- `__screenshot_new_order_report` and `__screenshot_delay_shipment_report`
  only take browser screenshots. They appear only as the handlers that
  dispatch selects.
