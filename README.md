# Inventory reservations and stock sync, in Dafny

This project models the core of a small inventory web application. Sales staff reserve stock items. A Flask app keeps three MySQL tables:

- `stock_items`: name, category and opening quantity;
- `stock_movements`: item, quantity and IN/OUT type;
- `stock_reservations`: item, holder, quantity, start and end date, and status ACTIVE, EXPIRED or CANCELLED.

Requests run two sweeps over the reservations. The expire sweep marks overdue ACTIVE reservations EXPIRED. The auto-release sweep cancels ACTIVE reservations that no longer fit the item's availability. A per-brand listing shows, for each item, how much is reserved and how much is left.

The stock tables are fed from the Tally accounting system in three ways:

- an HTTP gateway beside Tally that turns ODBC rows into JSON records;
- two sync jobs that fetch those records and truncate-and-reload the MySQL tables. The batch job is `etl_pipeline.py`; the row-by-row job is `elt_pipeline.py`;
- an older job that reads Tally over ODBC directly. It normalises each row with defaults, deduplicates by name (last wins) and then appends and upserts into MySQL, or inserts into SQLite.

## Modules

| file | module | models |
|---|---|---|
| wrappers.dfy | `Wrappers` | `Option` |
| cells.dfy | `Cells` | raw ODBC cells (None, text, number, date), Python's `str()`, `.strip()`, truthiness, `float()`, `date.isoformat()` |
| dedup.dfy | `Dedup` | last-wins deduplication, `list({key(x): x for x in xs}.values())` |
| gateway.dfy | `Gateway` | tally_gateway.py |
| odbc_etl.dfy | `OdbcEtl` | etl/pipeline.py |
| sync_tables.dfy | `SyncTables` | the JSON records and the two tables shared by the sync jobs |
| etl_sync.dfy | `EtlSync` | etl_pipeline.py |
| elt_sync.dfy | `EltSync` | elt_pipeline.py |
| name_order.dfy | `NameOrder` | `ORDER BY name` and `MAX(text)`: code-point order, insertion sort |
| reservations.dfy | `Reservations` | the reservation handlers of app.py |

Some things the source gets from outside become parameters:

- **`Builtins`**: Python's `float(str)` (None where it raises) and `str(float)`.
- **`QueryOutcome`**: each ODBC query, as its rows or a failure.
- **`FetchOutcome`**: the two HTTP GETs of a sync job.
- **`LoadFault`**: a refused connection, a failed TRUNCATE of either table, or the index of the first refused INSERT.
- **`appToday`, `dbToday`**: the two clocks app.py reads. Python's `date.today()` gives default end dates, and MySQL's `CURDATE()` gives start dates and drives the expire sweep. Dates are day numbers.
- **`today`** (etl/pipeline.py): the date `_safe_date` uses for a falsy cell.

## Behaviour worth knowing

- **Reservation INSERTs**: neither INSERT checks availability (app.py:161-164, app.py:234-237), and nothing serialises concurrent reservations.
- **Auto-release is per row**: the sweep compares each reservation's OWN quantity with the item's availability (app.py:262). There is no running total and no ordering of the reservations. After a sweep the ACTIVE total of an item can therefore exceed its availability (`Reservations.AutoReleaseKeepsOversubscription`: two ACTIVE reservations of 3 on an item with 5 in stock both survive).
- **Two clocks**: end dates come from the app host's `date.today()` (app.py:159, app.py:232), while start dates and the expire sweep use the database's `CURDATE()` (app.py:163, app.py:172, app.py:236, app.py:246). When the database is ahead, a short reservation can be expired by the request that made it (`Reservations.ClockSkewExpiresNewReservation`).
- **Listing availability**: the listing's `available_qty` is opening quantity minus ACTIVE reservations; OUT movements play no part (app.py:289). Availability in the auto-release sweep does subtract them.
- **`item` of ODBC movements**: every movement normalised by etl/pipeline.py gets the literal text `"item_name"` as its `item` (etl/pipeline.py:125).
- **Item loop in etl/pipeline.py**: the loop has no per-row `try`. The first row whose `float()` raises ends the loop, keeping the items already converted (etl/pipeline.py:69-85). The movement loop, by contrast, skips bad rows.
- **Ledger comprehension**: it calls `.strip()` on the raw cell, so a truthy non-text cell makes the whole step fail and `companies` keeps its old value.

## Model

| member | source | states |
|---|---|---|
| Cells.IsoFormat | tally_gateway.py:52-54 | the ISO text of a date is ten characters, with dashes at positions 4 and 7 |
| Cells.IsoFormatInjective | tally_gateway.py:52-54 | distinct dates have distinct ISO texts |
| Cells.StripSpec | tally_gateway.py:137-139 | `.strip()` gives the infix left after removing leading and trailing whitespace, and that infix neither starts nor ends with whitespace |
| Cells.StripIdempotent | tally_gateway.py:137-139 | stripping a stripped text changes nothing |
| Gateway.RequireApiKey | tally_gateway.py:39-45 | with an empty key every request passes; otherwise a request passes exactly when its X-API-KEY header equals the key, and a rejection is 401 |
| Gateway.Guarded | tally_gateway.py:39-45 | an endpoint's response reaches the client exactly when the request is admitted; otherwise the client gets 401 |
| Gateway.ToIso | tally_gateway.py:52-57 | None exactly for None; every other value gives its text, and a date gives its ISO text |
| Gateway.SafeFloat | tally_gateway.py:59-69 | never fails: None gives 0.0, a value `float()` accepts gives that value, and any other non-zero result is the parse of the value's text |
| Gateway.RowToDict | tally_gateway.py:71-79 | the keys are exactly the column names; a column's value is the last cell at its position, or None past the end of the row; no date survives |
| Gateway.ItemRecordFields | tally_gateway.py:136-148 | name, category and unit are the stripped texts of columns 0 to 2, None exactly for None cells; closing quantity and rate are `_safe_float` of columns 3 and 4, so 0.0 when missing |
| Gateway.StockItems | tally_gateway.py:125-153 | one record per row, in order; a failed query or a short row gives a 500 response |
| Gateway.MovementRecordFields | tally_gateway.py:167-185 | the date is `_to_iso` of column 0 and None only for None; company and item are the stripped party and item name; qty, rate and amount are `_safe_float` of columns 4, 3 and 5; OUT exactly when the amount is positive; there is never a voucher number |
| Gateway.StockMovements | tally_gateway.py:156-190 | one record per row, in order; a failed query or a short row gives a 500 response |
| Gateway.LedgerFields | tally_gateway.py:115-116 | name and parent are the stripped texts of columns 0 and 1, and None exactly for falsy cells |
| Gateway.Ledgers | tally_gateway.py:108-121 | one record per row, in order, or a 500 response |
| OdbcEtl.SafeDate | etl/pipeline.py:54-59 | a date gives its ISO text, a falsy value gives today's, and anything else the first ten characters of its text; never longer than ten (for the cells modelled, which hold no datetime) |
| OdbcEtl.NormalizeItemDefaults | etl/pipeline.py:74-82 | a truthy name, category or unit is its stripped text and a falsy one is "Unknown Item" or None; a truthy quantity or rate is its `float()` and a falsy one 0.0; the conversion fails exactly for a short row or an unparsable quantity or rate |
| OdbcEtl.NormalizeItemsSpec | etl/pipeline.py:69-85 | the items are the conversions of the longest run of leading rows that convert, in order; the next row fails |
| OdbcEtl.ConvertItems | etl/pipeline.py:74-82 | the item loop computes exactly `NormalizeItems` |
| OdbcEtl.LedgerCompanies | etl/pipeline.py:88-93 | the comprehension succeeds exactly when every row has a first cell and every truthy one is text; its names are stripped |
| OdbcEtl.LedgerCompaniesOne | etl/pipeline.py:90 | a row with a falsy name gives no company, a row with a text name gives one company with that name stripped, and any other row makes the comprehension fail |
| OdbcEtl.LedgerCompaniesAppend | etl/pipeline.py:90 | over consecutive runs of rows the comprehension succeeds exactly when it does over each, and gives their companies in row order |
| OdbcEtl.FirstNamedSpec | etl/pipeline.py:118 | `next(...)` finds the first item with the name, and None only when there is none |
| OdbcEtl.BrandLookup | etl/pipeline.py:118-119 | the brand is the category of the FIRST item with that name when that category is non-empty, and "Unknown" when no item has the name or the first one has no or an empty category |
| OdbcEtl.NormalizeMovementDefaults | etl/pipeline.py:109-130 | a row fails exactly when it is short or a non-blank rate, quantity (other than "Actual Qty") or amount is rejected by `float()`; otherwise a blank or "Actual Qty" quantity is 0, a blank rate is 0, a blank amount is quantity times rate, every other number is its `float()`; OUT exactly when the amount is positive; the item is "item_name"; the company is the brand |
| OdbcEtl.NormalizeMovementsWellFormed | etl/pipeline.py:121-130 | every normalised movement has a date of at most ten characters, no voucher number, item "item_name", a non-empty company and a type matching its amount |
| OdbcEtl.NormalizeMovementsAllConvert | etl/pipeline.py:103-132 | when every row converts, there is one record per row, in order |
| OdbcEtl.NormalizeMovementsAppend | etl/pipeline.py:104-132 | rows are converted independently: the records of two row lists concatenate |
| OdbcEtl.NormalizeMovementsSnoc | etl/pipeline.py:104-132 | one more row adds exactly that row's records at the end |
| OdbcEtl.SkipFailingRow | etl/pipeline.py:109-132 | a row whose conversion raises is skipped, and the rows around it are still converted |
| OdbcEtl.ConvertMovements | etl/pipeline.py:103-132 | the voucher loop computes exactly `NormalizeMovements` |
| OdbcEtl.NamedItems | etl/pipeline.py:146 | keeps exactly the items with a non-empty name |
| OdbcEtl.NamedItemsAppend | etl/pipeline.py:146 | the filter over two runs of items is the filter of the first followed by that of the second |
| OdbcEtl.NamedItemsLast | etl/pipeline.py:146 | the filter keeps input order: the last kept item with a name is the last input item with that name |
| OdbcEtl.TransformItems | etl/pipeline.py:145-146 | output names are non-empty and unique; every named input survives by name; each kept item is the last item of the INPUT with its name |
| OdbcEtl.Upsert | etl/pipeline.py:223-235 | the table's names after the upserts are the old names plus the loaded ones |
| OdbcEtl.UpsertKeepsOthers | etl/pipeline.py:223-235 | rows whose name is not loaded keep their values |
| OdbcEtl.UpsertLastWins | etl/pipeline.py:223-235 | each loaded name holds the last loaded row with that name |
| OdbcEtl.UpsertAfterDedup | etl/pipeline.py:223-235 | upserting the deduplicated items gives the same table as upserting them all |
| OdbcEtl.Pipeline.Extract | etl/pipeline.py:61-138 | a failed connection changes nothing; a failed query leaves its own field; otherwise each field holds the normalised rows |
| OdbcEtl.Pipeline.Transform | etl/pipeline.py:143-148 | companies and named items are deduplicated last-wins; movements are untouched |
| OdbcEtl.Pipeline.Load | etl/pipeline.py:153-240 | MySQL appends the movements and upserts the items; SQLite loads only when no name is taken and otherwise raises, leaving just the reset applied; any other target raises and writes nothing |
| Dedup.Put | etl/pipeline.py:145 | a dict assignment: keys stay unique, the key set gains the new key, the new value is present, other keys' values are kept, and a new key goes at the end |
| Dedup.DedupBy | etl/pipeline.py:145-146 | the output has unique keys, the same key set as the input, and only input elements |
| Dedup.DedupKeepsLast | etl/pipeline.py:145-146 | the last element with each key is kept |
| Dedup.DedupLastWins | etl/pipeline.py:145-146 | each kept element is the last input element with its key |
| Dedup.DedupOfUnique | etl/pipeline.py:145-146 | input with unique keys comes out unchanged |
| Dedup.DedupIdempotent | etl/pipeline.py:145-146 | deduplicating twice is deduplicating once |
| SyncTables.ItemRowOf | etl_pipeline.py:86-95 | a present closing quantity and rate become the opening ones; 0 when missing and NULL when null; the texts are copied |
| SyncTables.MovementRowOf | etl_pipeline.py:110-122 | a present quantity, rate and amount is inserted as is; 0 when missing and NULL when null; the texts are copied |
| SyncTables.ReloadReplaces | etl_pipeline.py:73-104 | once both tables are truncated, what they held has no bearing on what they hold after; a failed second TRUNCATE empties stock_items and keeps the old stock_movements; reloading the same records again changes nothing |
| SyncTables.ReloadContents | etl_pipeline.py:79-132 | after a reload that goes through, row k of each table is fetched record k with its defaults |
| SyncTables.Transport | etl_pipeline.py:50-56 | the fetch succeeds exactly when both responses do, with one record per gateway record |
| SyncTables.GatewayRowsSurvive | etl_pipeline.py:86-95 | records that come from the gateway reach the tables field for field; their quantities never fall back to 0 or NULL |
| EtlSync.Pipeline.Extract | etl_pipeline.py:46-62 | both fields are exactly the fetched lists, or both are empty after any fetch failure |
| EtlSync.Pipeline.Load | etl_pipeline.py:67-145 | with nothing to load the tables are untouched; otherwise a truncate-and-reload, whose failure is swallowed |
| EtlSync.Pipeline.RunOnce | etl_pipeline.py:150-156 | the tables change only when something was extracted, and then by a reload of exactly the fetched lists |
| EltSync.Pipeline.Extract | elt_pipeline.py:47-63 | both fields are exactly the fetched lists, or both are empty after any fetch failure |
| EltSync.Pipeline.Load | elt_pipeline.py:68-113 | always a truncate-and-reload, one INSERT per record in order; with both lists empty both tables end empty |
| EltSync.Pipeline.RunOnce | elt_pipeline.py:118-123 | the tables change only when something was extracted, and then by a reload of exactly the fetched lists |
| EltSync.EmptyLoadDiffers | elt_pipeline.py:68-76 | with nothing to load, the batch job's `load` keeps the tables and the row-by-row job's `load` empties them |
| EltSync.RunOnceAgree | elt_pipeline.py:118-123 | through `run_once` both jobs leave the same tables; a failed or empty fetch leaves them as they were |
| NameOrder.NameLeReflexive | app.py:297 | every name sorts no later than itself |
| NameOrder.NameLeTotal | app.py:297 | any two names are ordered one way or the other |
| NameOrder.NameLeAntisymmetric | app.py:297 | names ordered both ways are equal |
| NameOrder.NameLeTransitive | app.py:297 | the order is transitive |
| NameOrder.InsertBy | app.py:297 | insertion keeps a sorted sequence sorted and adds exactly one element |
| NameOrder.SortBy | app.py:296-297 | the result is sorted by name and a permutation of the input |
| Reservations.FindItem | app.py:256-260 | finds a stock item with the name, and None exactly when there is none |
| Reservations.FindItemUnique | app.py:258-260 | with the name as the table's key, the join on an item's name finds that very row |
| Reservations.SumOutEmpty | app.py:255 | an item without OUT movements has an OUT total of 0 |
| Reservations.AvailableWithoutOut | app.py:254-260 | without OUT movements availability is the opening quantity; an unknown item has none |
| Reservations.SucceedsTransitive | app.py:161-174 | the allowed history of the reservation table composes |
| Reservations.ActiveOnlyByInsert | app.py:161-164 | an ACTIVE reservation was ACTIVE and unchanged before, or was inserted since |
| Reservations.ExpireSweepSpec | app.py:169-174 | exactly the overdue ACTIVE reservations change, and only to EXPIRED; afterwards nothing ACTIVE is overdue |
| Reservations.ExpireSweepIdempotent | app.py:169-174 | a second sweep on the same day changes nothing |
| Reservations.ClockSkewExpiresNewReservation | app.py:159-174 | a new reservation whose end date, taken from the app host's clock, lies before the database's date is expired by the same request |
| Reservations.AutoReleaseSpec | app.py:251-263 | exactly the ACTIVE reservations of known items whose quantity exceeds availability change, and only to CANCELLED |
| Reservations.AutoReleaseSkipsUnknownItems | app.py:251-263 | a reservation of an item missing from stock_items is never cancelled |
| Reservations.AutoReleaseLeavesFitting | app.py:262 | afterwards every ACTIVE reservation of a known item is no larger than the item's availability |
| Reservations.AutoReleaseIdempotent | app.py:332-344 | a second sweep over the same stock changes nothing |
| Reservations.AutoReleaseKeepsOversubscription | app.py:251-263 | two ACTIVE reservations totalling more than availability can both survive the sweep |
| Reservations.ReservedQtyNone | app.py:288 | an item without ACTIVE reservations has 0 reserved |
| Reservations.MaxHolderSpec | app.py:290 | the holder shown is the greatest holder among the item's ACTIVE reservations, None when there are none |
| Reservations.MaxEndSpec | app.py:291 | the end date shown is the latest among the item's ACTIVE reservations, None when there are none |
| Reservations.InBrand | app.py:295 | exactly the items whose category is the brand |
| Reservations.ListingOrdered | app.py:285-298 | one row per item of the brand, ordered by name |
| Reservations.ListingRowAt | app.py:285-298 | each row shows an item of the brand with its opening quantity |
| Reservations.ListingRows | app.py:285-298 | reserved is the sum of the item's ACTIVE quantities, and available is opening minus reserved |
| Reservations.ListingCoversBrand | app.py:292-296 | every item of the brand has a row |
| Reservations.Inventory.Reserve | app.py:161-164 | appends exactly one ACTIVE reservation starting today, with an id no earlier reservation has, and no availability check |
| Reservations.Inventory.ExpireReservations | app.py:169-174 | the reservation table becomes the expire sweep of itself; nothing ACTIVE is left overdue |
| Reservations.Inventory.AutoReleaseReservations | app.py:328-346 | the reservation table becomes the auto-release sweep of itself |
| Reservations.Inventory.StockSummary | app.py:152-174 | an optional reservation by the session user starting on the database's date and ending `days` (default 2) after the app host's date, then the expire sweep against the database's date |
| Reservations.Inventory.StockItemsPage | app.py:219-308 | an optional reservation (holder defaults to the user, end date to the app host's date + 3, start on the database's date), the expire sweep against the database's date, the auto-release sweep, then the brand's listing of the new state |

## Left out

- **Flask glue**: routing, templates, redirects, login and logout, and the report pages (search, sales summary, brands, monthly). These are web glue or read-only queries.
- **Read-only parts of `stock_summary`**: the item search with its LIKE match and redirect, and the per-brand value summary. They do not touch the reservation state.
- **The search variant of the listing (app.py:269-283)**: it adds a LIKE filter on the name and a different date format; the LIKE matching and MySQL collation are not modelled.
- **Form parsing**: a `qty` or `days` value that `float()` or `int()` rejects makes the handler raise before any change. The model takes the form already parsed, with end dates as day numbers.
- **Reservation e-mail**: its failure is swallowed, so it has no effect on state.
- **`inr_format`**: float formatting.
- **Floating point**: quantities are exact reals, and float rounding and NaN are not modelled.
- **Text conversion**: `str()` of a number and `float()` of a text are the `Builtins` parameters.
- **Whitespace**: `.strip()` removes ASCII whitespace and the separators U+001C to U+001F; other Unicode whitespace is not modelled.
- **Dates**: the cells hold dates but no `datetime`. A `datetime` is a `date` in Python, so both `_safe_date` (etl/pipeline.py:55-56) and the gateway's `_to_iso` return its full ISO text of 19 characters or more. The ten-character bound of `OdbcEtl.SafeDate` and of `WellFormedMovement` holds for dates only.
- **NULL columns in app.py's tables**: SQL NULLs in stock_items, stock_movements and stock_reservations are not modelled, and neither are rows whose `stock_items.name` repeats. The name is taken to be the key, as the `ON DUPLICATE KEY UPDATE` of etl/pipeline.py presumes.
- **Reservations.MaxHolderSpec**: compares holders by code point, not by MySQL's default case-insensitive collation.
- **Reservations.FindItem**: matches names exactly, where the server's joins `i.name = m.item` and `r.item = s.item` compare them under MySQL's default case-insensitive collation; a reservation on "widget a" counts against "Widget A" there and against nothing here.
- **Reservations.SumOut**: adds only movements whose item name matches exactly and whose type is exactly "OUT", where both `i.name = m.item` and `m.movement_type='OUT'` (app.py:255-258) compare under the case-insensitive, trailing-space-padded collation.
- **Reservations.ActiveOn**: matches a reservation to an item by exact name, not under the case-insensitive collation.
- **Reservations.InBrand**: compares the category with the brand exactly, where `i.category=%s` is case-insensitive.
- **Reservations.Listing**: orders by code point (`NameOrder.SortBy`), where `ORDER BY i.name` follows the case-insensitive collation; "apple" and "Banana" come out in opposite orders.
- **OdbcEtl.Upsert**: keys the table by exact name, where the unique key of `ON DUPLICATE KEY UPDATE` treats names that differ only in case as the same.
- **Gateway `/companies` and `/health`**: not modelled.
- **HTTP body**: the gateway's error text and the JSON of other shapes are not modelled.
- **Driver and schema plumbing**: driver import failures, `schema.sql` (not part of this model), DROP TABLE, and `pyodbc`/`mysql` connection objects.
- **etl/pipeline.py database failures**: failures other than the SQLite name clash are not modelled.
- **OdbcEtl.Pipeline.Load**: the store's stock_items is a map keyed by name, so the row order of that table is not modelled.
- **Dedup.DedupLastWins**: states which elements are kept, not their order. `Put` defines the order as Python's dict does: first insertion of each key.
- **Concurrency**: the source has no locks or transactions around reservations or sync, and concurrent callers are not modelled.
- **Scheduling**: the `while True` / `time.sleep(1800)` loops of the sync jobs.
- **Other scripts**: etl/load_to_mysql.py and etl/run_etl.py are outside the core.
