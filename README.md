# Inventory and point-of-sale bookkeeping, modelled in Dafny

This project models the bookkeeping core of a small shop's inventory and
point-of-sale application. The application is written in Python on SQLite.
The model covers:

- **Stock ledger.** The `inventory_transactions` rows are a sequence of
  movements (item, quantity, IN/OUT/ORDER, date). They are never stored as
  a balance: every stock figure is a signed sum over them.
  - `get_items_with_stock` has a full mode and a snapshot mode.
  - The dashboard aggregates are total stock, low stock, hot items and dead
    stock.
  - `add_transaction` appends one movement (`Transactions.InventoryTable`
    is the table as a mutable object).
  - The grouped and paginated audit trail is `Audit`.
- **Customer debt.** The `sales` and `debt_payments` tables form a class,
  `Debt.DebtBook`.
  - `record_payment` is a guarded state change: the balance check, one
    payment row, then status Partial or Paid.
  - `get_all_debts` and `get_debt_detail` derive remaining balances.
- **End-of-day report.** The per-sale quota top-up and the mechanic's
  commission are computed. Each sale goes either to the Paid list or to the
  unresolved list, and the day's totals come from the Paid sales only.
- **CSV importers.**
  - The inventory baseline importer and the sales importer each classify
    every record ("imported" or skipped for one reason) and keep counters.
  - A run commits its movements all together, or not at all.
  - `normalize_name`, `norm_text` and the guard of `format_date` are the
    text functions they use.
- **Sales administration list.** `get_sales_paginated` builds its filters,
  counts, orders newest first and pages.

### Conventions

- **Money and rates.** Money is integer centavos. A commission rate is an
  exact fraction, and the commission is rounded half up to the centavo.
- **Dates.** Dates are strings compared by code point, as SQLite compares
  TEXT.
- **Parameters.** Everything the program takes from outside is a
  parameter:
  - "now" and the 30-day cutoffs;
  - SQLite's `DATE()` and `LIKE`;
  - `int(float(x))`;
  - difflib's close match;
  - the date rendering of `format_date`.
- **Rollback.** A rollback is modelled as "the tables are unchanged".

### Behaviour worth noting

- **Full-mode stock** subtracts every row that is not IN, ORDER rows
  included (services/inventory_service.py:36).
- **The report's quota** top-up is applied to each sale on its own
  (services/reports_service.py:154-159).
- **The status Partial** is written by `record_payment`, but the CHECK
  constraint on the sales table (db/schema.py:56) lists only Paid and
  Unresolved. The model's status type has all three values.

## Model

| member | source | states |
|---|---|---|
| Ledger.ItemsWithStock | services/inventory_service.py:3-44 | one row per item, in table order, with the item's full-mode stock without a snapshot date and its snapshot stock with one |
| Ledger.StockFullIsInMinusRest | services/inventory_service.py:32-38 | full-mode stock is the item's IN quantities minus the quantities of all its other rows, ORDER included |
| Ledger.StockSnapshotIsInMinusRecentOut | services/inventory_service.py:11-20 | snapshot stock is all IN quantities minus the OUT quantities dated on or after the snapshot date; other types count zero |
| Ledger.StockFullOwnRows | services/inventory_service.py:21-24 | full-mode stock depends only on the item's own rows |
| Ledger.StockSnapshotOwnRows | services/inventory_service.py:11-24 | snapshot stock depends only on the item's own rows |
| Ledger.NoMovementsNoStock | services/inventory_service.py:20-24 | an item with no movements has stock 0 in both modes (the COALESCE of the LEFT JOIN) |
| Ledger.StockOrderIndependent | services/inventory_service.py:32-42 | reordering the ledger changes no item's stock in either mode |
| Ledger.SnapshotAtLeastFull | services/inventory_service.py:12-19 | with only IN/OUT rows of non-negative quantity, snapshot stock is at least full-mode stock |
| Ledger.StockFullAppend | services/inventory_service.py:34-37 | appending a movement changes its own item's full-mode stock by +q for IN and -q otherwise, and no other item's |
| Ledger.StockSnapshotAppend | services/inventory_service.py:12-19 | appending a movement changes snapshot stock by that movement's snapshot contribution only |
| Ledger.StockFullConcat | services/inventory_service.py:32-38 | committing a batch adds the batch's own full-mode stock to every item |
| Ledger.StockFullOfIns | services/inventory_service.py:34-35 | a batch of positive IN rows adds exactly its IN quantities, which are non-negative |
| Ledger.StockFullOfOuts | services/inventory_service.py:36 | a batch of positive OUT rows takes away exactly its quantities |
| Transactions.ParseType | db/schema.py:72 | only "IN" and "OUT" pass the table's type check, each to the movement type of that name |
| Transactions.InventoryTable.AddTransaction | services/transactions_service.py:3-10 | for IN or OUT, exactly one row holding the given item, quantity and type, with no user, is appended; otherwise nothing is written; no sign check; full-mode stock of that item moves by +q (IN) or -q (OUT) and no other item's changes |
| Analytics.DashboardStats | services/analytics_service.py:3-53 | total_items is the number of items and `items` the item list; total_stock is the table-wide stock sum (which TotalStockIsSumOfItemStocks ties to the per-item stocks); low_stock_count is the length of the low-stock list; top_item is the LIMIT 1 hot item that TopItemSpec characterises |
| Analytics.TotalStockIsSumOfItemStocks | services/analytics_service.py:10-18 | when every row names a listed item, total_stock equals the sum of the items' full-mode stocks |
| Analytics.StockRows | services/analytics_service.py:95-108 | one row per item with its reorder level and full-mode stock |
| Analytics.LowStockSpec | services/analytics_service.py:92-111 | the low-stock list holds exactly the items whose stock is at most their reorder level, as a permutation of them, in ascending stock order; low_stock_count is its length |
| Analytics.HotGroups | services/analytics_service.py:57-65 | one group per item with a recent OUT row |
| Analytics.HotGroupsMembers | services/analytics_service.py:57-65 | the groups are exactly the items with an OUT row since the cutoff, each carrying its recent OUT total |
| Analytics.HotItemsSpec | services/analytics_service.py:55-70 | every hot item is a group; descending total; for a limit n >= 0 exactly the first min(n, groups) entries of the ranking, so at most n (no cap for a negative LIMIT); every group left out sold no more than any entry shown |
| Analytics.TopItemSpec | services/analytics_service.py:38-47 | top_item is absent exactly when no item has a recent OUT row, and otherwise it sold at least as much as any item |
| Analytics.LastOutSpec | services/analytics_service.py:78-82 | the latest OUT date is absent exactly when the item has no OUT row, and otherwise it is one of them and no earlier than any |
| Analytics.DeadStockSpec | services/analytics_service.py:73-89 | an item is dead stock exactly when it has no OUT row or its latest OUT date is at or before the cutoff |
| Catalog.NameOf | services/audit_service.py:65-67 | the JOIN with items: the name of the item carrying the id, absent when no item does |
| Catalog.NameLookupSpec | importers/inventory_importer.py:29-33 | a name dictionary built by comprehension maps each key to the id of the last item with that key, and has no other keys |
| Debt.FindSale | services/debt_service.py:148-158 | the sale lookup finds a row with the id, or reports that none has it |
| Debt.Decide | services/debt_service.py:160-203 | for an existing sale: accepted iff the amount is a number with 0 < amount <= total - paid; the error for each failed guard; on success the rounded amount, remaining = total - (paid + amount) >= 0, and status Paid iff nothing remains, else Partial |
| Debt.NaNPassesGuardsAsWritten | services/debt_service.py:163-169 | as written, a NaN amount passes both guards whatever the balance, and the corrected rule rejects it |
| Debt.GuardsAgreeOnOtherInputs | services/debt_service.py:163-169 | on every input other than NaN the written guards and the corrected rule agree |
| Debt.DebtBook.RecordPayment | services/debt_service.py:136-209 | unknown sale: SaleNotFound; any error: both tables unchanged; success: exactly one payment row for that sale with the rounded amount, the sale's status and paid_at updated as Decide says, nothing else changes, no other sale's paid total changes, and "payments never exceed the total" is preserved |
| Debt.DebtQuerySpec | services/debt_service.py:6-30 | the debt query keeps exactly the Unresolved and Partial sales, each once, with their paid totals, oldest first |
| Debt.DebtQueryAt | services/debt_service.py:25-30 | each query row's paid total is COALESCE(SUM(payments), 0) for its sale |
| Debt.DebtBook.GetAllDebts | services/debt_service.py:6-45 | one row per query row, in order, with remaining = total - paid; each row's sale is open; remaining >= 0 while payments never exceed totals |
| Debt.DebtBook.DebtDetailOf | services/debt_service.py:48-133 | None exactly for an unknown sale; otherwise the sale, its payments oldest first, the paid total and remaining = total - paid |
| Reports.EffectiveRate | services/reports_service.py:136 | a missing commission rate is 0 |
| Reports.ApplyQuota | services/reports_service.py:154-159 | base = services_total + topup; 0 <= topup < quota; topup > 0 iff 0 < services_total < quota; a sale with services has a base of at least the quota |
| Reports.MechanicCutExact | services/reports_service.py:161 | the cut is base × rate to within half a centavo |
| Reports.MechanicCutBounds | services/reports_service.py:161 | no rate means no cut; a rate between 0 and 1 gives a cut between 0 and the base |
| Reports.ServicesTotalSpec | services/reports_service.py:139 | services_total is the sum of the sale's service prices, 0 when it has none |
| Reports.GroupBySale | services/reports_service.py:115-122 | after the setdefault loop each sale id maps to its lines in query order, and an absent id gives [] |
| Reports.RowOfSpec | services/reports_service.py:133-178 | the defaults "#id", "Walk-in", "—" and ""; top-up and effective base are exactly the quota rule's, so no top-up once services reach the quota (or are 0); mechanic_cut is the rounded commission on the effective base, within half a centavo of base × rate; a missing total counts 0; no rate means no cut |
| Reports.SalesReport | services/reports_service.py:77-197 | Empty exactly when the day has no sales; net_revenue = gross - cut - topup |
| Reports.BuildSalesReport | services/reports_service.py:115-197 | the grouping loops and the accumulating loop compute exactly the report function |
| Reports.RouteSales | services/reports_service.py:127-188 | the loop's lists are the Paid rows and the other rows, in query order, and its three running totals are sums over the Paid rows |
| Reports.ReportPartition | services/reports_service.py:180-188 | every sale lands in exactly one list: Paid sales in `sales`, every other status in `unresolved` |
| Reports.ReportTotals | services/reports_service.py:180-195 | the three totals are sums over the Paid sales only, a missing total counting 0; the top-up total is less than one quota per Paid sale |
| Text.Strip | utils/formatters.py:29 | strip() leaves no whitespace at either end and is the slice of its input between an all-whitespace prefix and an all-whitespace suffix |
| Text.StripEmpty | utils/formatters.py:14-15 | strip() leaves nothing exactly when the text is all whitespace |
| Text.WordsAreWords | utils/formatters.py:29 | every piece split() yields is a non-empty run without whitespace |
| Text.WordsOfJoin | utils/formatters.py:29 | split() undoes " ".join of words |
| Text.JoinShape | utils/formatters.py:29 | " ".join of words has no whitespace at its ends and no two spaces in a row |
| Text.NormTextShape | utils/formatters.py:27-29 | None and "" give ""; the result is trimmed and single-spaced and has the same words as the input |
| Text.NormTextIdempotent | utils/formatters.py:27-29 | normalising twice is normalising once |
| Text.NormTextKeepsCharacters | utils/formatters.py:29 | the non-whitespace characters survive in their order |
| Text.LowerIdempotent | importers/inventory_importer.py:18 | lowercasing twice is lowercasing once |
| Text.LowerOfJoin | importers/inventory_importer.py:17-18 | lowercasing a " ".join is joining the lowercased words |
| Text.FormatDateGuard | utils/formatters.py:4-25 | "-" for a missing, empty or whitespace-only date; otherwise the rendering of the text |
| Csv.LastValueSpec | importers/inventory_importer.py:50-56 | `normalized.get(name)`: the value of the last column whose normalised header is `name`, None when there is none |
| InventoryImport.NormalizeNameShape | importers/inventory_importer.py:9-18 | "" gives ""; the result is single-spaced and lowercase, and its words are the input's words lowercased |
| InventoryImport.NormalizeNameIdempotent | importers/inventory_importer.py:9-18 | normalize_name is idempotent |
| InventoryImport.DecideSpec | importers/inventory_importer.py:52-100 | a record is checked in the order missing fields, bad quantity (ValueError), non-positive, unknown item; an OverflowError escapes; a record matching none of these is imported with its item's id and the parsed quantity |
| InventoryImport.TallySpec | importers/inventory_importer.py:38-102 | each counter counts the records with its outcome; imported + skipped = records; skipped = the sum of the four reasons; skipped_rows and the pending INSERTs are exactly the unmatched and the imported records, in file order |
| InventoryImport.RunSpec | importers/inventory_importer.py:48-104 | a record that raises ends the import with nothing committed; otherwise the counters are those of all the records |
| InventoryImport.ImportOutcomeCases | importers/inventory_importer.py:22-104 | a file not ending in .csv is rejected; the import fails uncaught exactly when some record raises; otherwise it completes with the counters of all records |
| InventoryImport.ImportCounts | importers/inventory_importer.py:38-102 | a completed import balances: imported + skipped = records, skipped = the four reasons, one movement per imported record and one skipped row per unmatched record |
| InventoryImport.ImportMovements | importers/inventory_importer.py:92-100 | every committed movement is an IN of positive quantity at the baseline date, with no user, for a listed item with a non-zero id |
| InventoryImport.ImportedRow | importers/inventory_importer.py:29-79 | matching is exact after normalising both sides: an imported record's item has the record's normalised name |
| InventoryImport.ImportSkippedRows | importers/inventory_importer.py:79-89 | skipped_rows holds exactly the unmatched records, each with its raw and normalised name, and the name is not in the lookup or maps to id 0 |
| InventoryImport.ImportRaisesStock | importers/inventory_importer.py:92-104 | a completed import raises each item's full-mode stock by exactly its imported quantities, never lowering it |
| InventoryImport.ImportInventoryCsv | importers/inventory_importer.py:20-121 | the method returns what the import function says; on error the table is unchanged; on success the summary and skipped rows match and the table gains exactly the movements |
| SalesImport.FindItemIdSpec | importers/sales_importer.py:33-45 | an exact key is returned before any close match is tried; no match iff neither succeeds; a close match that is not a key raises KeyError |
| SalesImport.DecideSaleSpec | importers/sales_importer.py:47-94 | each outcome iff its cause: surplus values (the header normalisation raises) or a KeyError from the close match count as "other"; then non-inventory sales type, missing fields, bad quantity and item not found, in source order; otherwise, exactly when a non-zero id is matched, an OUT sale of that item with the raw date |
| SalesImport.SalesTallySpec | importers/sales_importer.py:14-94 | each counter counts its outcome; imported + skipped = records; skipped = the sum of the five reasons; the INSERTs are exactly the sold records in file order |
| SalesImport.SalesImportOutcome | importers/sales_importer.py:6-7 | the import fails exactly when the file name does not end in .csv |
| SalesImport.SalesImportCounts | importers/sales_importer.py:14-94 | a completed import balances, with one movement per imported record |
| SalesImport.SoldRow | importers/sales_importer.py:57-88 | an imported record has a positive quantity, a non-zero item id, its raw "tr date" as the date, and an item whose key is the record's key or its close match |
| SalesImport.SalesMovements | importers/sales_importer.py:84-90 | every committed movement is an OUT of positive quantity for a listed item with a non-zero id, with no user, dated with some record's "tr date" |
| SalesImport.SalesImportLowersStock | importers/sales_importer.py:84-96 | a completed import lowers each item's full-mode stock by exactly its sold quantities, never raising it |
| SalesImport.ImportSalesCsv | importers/sales_importer.py:5-103 | the method returns what the import function says; on error the table is unchanged; on success the table gains exactly the movements |
| Pagination.TotalPagesSpec | services/audit_service.py:50 | total_pages = max(1, ⌈total/50⌉): at least 1, pages × 50 covers the total, and one fewer page would not |
| Pagination.PageSpec | services/audit_service.py:75 | LIMIT 50 OFFSET (page-1)×50: at most 50 rows, row j of the page is row offset+j, a full page when there is room, nothing past the last page, and a page below 1 acts as page 1 |
| Pagination.PageAt | services/sales_admin_service.py:50 | every row appears on exactly its page, a page between 1 and total_pages |
| Pagination.PageSorted | services/audit_service.py:74-75 | a page of an ordered list is ordered and holds only rows of the list |
| Pagination.WhereClauseSpec | services/audit_service.py:35 | the WHERE clause is empty exactly when there are no conditions, and otherwise starts "WHERE " |
| Audit.BuildAuditConditions | services/audit_service.py:20-35 | one condition and one param per given filter, in the order start, end, type; no conditions iff no filter; bound in order they select exactly what the filter asks for |
| Audit.KeysSpec | services/audit_service.py:73 | the group keys are distinct and are exactly the keys of the selected rows, no more of them than rows |
| Audit.GroupsConserveQuantity | services/audit_service.py:57-73 | summing each group's total_qty over the groups gives the sum over the rows |
| Audit.GroupsTotal | services/audit_service.py:57-73 | the groups' totals add up to the rows' quantities |
| Audit.AuditTrailSpec | services/audit_service.py:40-92 | a row is selected iff it joins an item and passes the filter; total counts groups, not rows; the page has at most 50 groups; page, per_page and total_pages echoed, total_pages ≥ 1 covering total |
| Audit.AuditTrailOrder | services/audit_service.py:74-84 | the page is made of groups, newest first, with the date formatted |
| Audit.GetAuditTrail | services/audit_service.py:6-92 | the method computes exactly the audit trail function |
| SalesAdmin.MatchesMeans | services/sales_admin_service.py:16-27 | a sale matches when it lies within the given dates and the search text is in its receipt number or customer name |
| SalesAdmin.BuildSalesConditions | services/sales_admin_service.py:16-29 | one condition per given filter; one param per date bound and the search pattern "%search%" twice; no conditions iff no filter; together they select exactly the matching sales |
| SalesAdmin.SalesPageSpec | services/sales_admin_service.py:31-66 | total counts exactly the matching sales; at most 50 rows; page and per_page echoed; total_pages ≥ 1 covering total |
| SalesAdmin.SalesPageOrder | services/sales_admin_service.py:37-58 | the page lists matching sales newest first, each with its payment method joined and its date formatted |
| SalesAdmin.GetSalesPaginated | services/sales_admin_service.py:6-66 | the method computes exactly the sales page function |

## Left out

- Flask routes, templates, sessions, login, seeding scripts and the `db/schema.py` migrations. These are plumbing around the core.
- `importers/items_importer.py` is not part of this model. It is mostly casts and INSERT OR IGNORE.
- Floating point is not modelled. Money is exact centavos, and Python's `round(x, 2)` on floats is replaced by exact values.
- Reports.MechanicCut: rounds the exact product half up. The source's `round(base * rate, 2)` rounds a binary float half to even.
- Debt.Decide: takes the amount as already rounded to centavos, or as unreadable, or as NaN. `float()` and `round()` on the submitted text are not modelled. An infinite amount arrives as unreadable and is rejected as such. The source rejects it through one of its two guards instead.
- `int(float(x))` quantity parsing is a parameter. So are difflib's `get_close_matches`, SQLite's `DATE()` and `LIKE`, the strptime/strftime rendering in `format_date`, and "now".
- The CSV reader and file decoding are not modelled. A record arrives as the items of csv.DictReader's dict plus a flag for surplus values: distinct raw headers in order of first appearance, each with the value of the last column under that exact header.
- Writing `skipped_inventory_rows.csv` is not modelled. The skipped rows are returned instead.
- Text.Lower: lowercases ASCII letters only. Python's `str.lower()` also folds non-ASCII letters.
- Audit.AuditTrailOf: models each group's key columns, total and item summary. It leaves out user_name, reference_type, notes, sales_number and po_number, which SQLite takes from an arbitrary row of the group.
- Audit.GroupOf: GROUP_CONCAT's order is unspecified in SQLite. The model joins the names in ledger order.
- The joins assume item ids are distinct, as the primary key guarantees.
- Debt.DebtBook.DebtDetailOf: leaves out the joined display names (payment method, cashier), which are lookups outside the debt logic.
- Debt.DebtBook.DebtDetailOf: leaves out the sale's `items` list (item name, quantity, the three unit prices and line_total = quantity × final price) and its `services` list (service name and price) of services/debt_service.py:79-97; they are read-only JOINs displayed beside the balance and take no part in it.
- Debt.DebtBook.DebtDetailOf and Debt.DebtBook.GetAllDebts: leave out the format_date rendering of transaction_date and paid_at (services/debt_service.py:41-42 and 117-125); the model returns the stored dates, and the empty-date guard of format_date is Text.FormatDateGuard.
- The failure of an INSERT or UPDATE other than the type check of `add_transaction` is not modelled. The concurrent double-payment race is not modelled either.
- `get_sales_report_by_range`, sale settlement and purchase-order receiving have no source here.

## Findings

| source | as written | input that shows it | evidently intended | confidence | as-written member | corrected member |
|---|---|---|---|---|---|---|
| services/debt_service.py:163-169 | the guards `amount <= 0` and `amount > remaining` reject only by comparison, and every comparison with NaN is false | `amount_paid = "nan"`: `float("nan")` passes both checks and reaches the INSERT, where SQLite binds NaN as NULL; the outcome then depends on whether `debt_payments.amount_paid` is NOT NULL, which no source file shows: either an IntegrityError and rollback, or a NULL payment with the status set to Partial | a payment is accepted only as a number with 0 < amount <= remaining | not executed | Debt.NaNPassesGuardsAsWritten | Debt.Decide |
