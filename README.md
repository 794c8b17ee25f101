# Abar-Daru inventory core in Dafny

Abar-Daru is a pharmacy inventory system that spans several warehouses.
Its stock ledger holds one row per batch, keyed by (warehouse, drug,
expiry month `YYYY-MM`). Stock moves between warehouses through the
virtual `TRANSIT` warehouse and a transfer record:

- `create` moves the quantity from the source batch into TRANSIT;
- `confirm` takes what arrived out of TRANSIT and credits the destination
  (a consumer or disposal transfer consumes it instead);
- `reject` sends it back;
- `delete` withdraws it;
- an administrator resolves a shortfall ("mismatch") by writing it off,
  returning it to the source, or adding it to the destination.

The web front end does the following:

- colours each batch by the days left to its expiry month;
- hides menu entries and warehouses by role;
- builds a drug × warehouse stock matrix;
- validates the transfer dialog;
- filters, counts and highlights the inventory report;
- lists expiring batches on the dashboard.

This project models those parts:

- The backend ledger and the transfer state machine (`backend/api.py`) are
  the class `Transfers.Store`.
  - Its fields are the stock map and the transfer table.
  - Each endpoint is a method that commits its whole effect or nothing (the
    session rollback).
  - A ghost invariant, `Balanced`, says that each TRANSIT row holds exactly
    what the open transfers of that drug and month still have in flight.
- The stock map itself, with credit, debit and move, is `Ledger`.
- The table definitions (`backend/models.py`) are `Models`. This includes
  SQL's treatment of NULL in the unique constraint.
- The date arithmetic of the front end (`frontend/src/utils/expirationUtils.js`)
  follows ECMAScript semantics. This covers `Number`, `new Date(y, m, d)`
  with its two-digit years, and `Math.ceil`. It also covers how `null` and
  `NaN` behave under `<` and `>=`. The pieces are `ExpirationUtils` and
  `Calendar`.
- Two scripts hold their own copies of that arithmetic with other choices.
  `test_expiry.js` counts to the end of the month, and
  `backend/test_expiration_setting.py` does the same in Python. They are
  `ExpiryScript` and `ExpirationSetting`, and lemmas relate their results
  to each other.
- The remaining modules each follow one front-end file: `Permissions`,
  `Sidebar` (a class for the collapsed and expanded state),
  `InventoryMatrix` (methods with loops), `TransferDialog`, `ReportFilters`
  (the report query and its backend filter), `ComprehensiveReports`,
  `ReportExport` and `ExpiringDrugsCard`.

Time is a parameter: `nowMs` is milliseconds since 1970-01-01 local
midnight, and `today` is a day number. In the following places the code
does less than the system's rules ask for, or something else; the model
follows the code:

- Only administrators should create, confirm or resolve transfers, but the
  backend checks no roles: every endpoint accepts every caller.
- A transfer quantity should be positive, but `create` accepts a quantity
  ≤ 0.
- Only a pending transfer should be deletable, but `delete` refuses only
  confirmed and rejected ones.
- A confirm that receives less than was sent sets the status `mismatch`,
  which then waits for an administrator's resolution.
- A disposal confirm takes stock out of TRANSIT exactly as a consumer
  confirm does.
- A resolution should carry a note, but the notes are optional.
- A batch once used as a transfer source should stay marked as used, but
  `check_inventory_used` looks only at the remaining transfer records, so
  deleting the transfer clears the mark (`Transfers.DeleteClearsUsed`,
  `Transfers.UsedFlagScenario`).

## Model

| member | source | states |
|---|---|---|
| Calendar.JsFullYear | frontend/src/utils/expirationUtils.js:16 | `new Date` maps a year of 0..99 to 1900 + year and keeps every other year. |
| Calendar.MakeDayFirst | frontend/src/utils/expirationUtils.js:16 | `new Date(y, m - 1, 1)` is the first day of month m of year y. |
| Calendar.MakeDayLast | test_expiry.js:8 | `new Date(y, m, 0)` (day 0 of the next month) is the last day of month m. |
| Calendar.CeilDays | frontend/src/utils/expirationUtils.js:28 | `Math.ceil(ms / day)` is the unique r with (r-1)·day < ms ≤ r·day. |
| Calendar.CeilDaysOfSum | frontend/src/utils/expirationUtils.js:28 | A whole number of days minus less than a day rounds up to that number of days. |
| ExpirationUtils.ParseExpireDate | frontend/src/utils/expirationUtils.js:13-17 | The result is null exactly for a missing or empty text. It is an Invalid Date exactly when `Number` of the year part or of the month part is NaN. Every other text gives a date. |
| ExpirationUtils.ParseYearMonth | frontend/src/utils/expirationUtils.js:13-17 | A digit text `Y-M` with 1 ≤ M ≤ 12 parses to the first day of month M of the JS full year of Y. |
| ExpirationUtils.DaysUntilExpiration | frontend/src/utils/expirationUtils.js:22-30 | The result is null exactly when the parse is null and NaN exactly when the date is invalid. Otherwise it is the ceiling of the milliseconds left, in days. |
| ExpirationUtils.DaysIgnoreTimeOfDay | frontend/src/utils/expirationUtils.js:22-30 | At any time during day `today`, the result is the month's first day minus `today`. |
| ExpirationUtils.ColorOfDays | frontend/src/utils/expirationUtils.js:39-46 | The colour is `default` iff the days are null. For a day count n: `error` iff n ≤ 0 or n < dangerDays, `warning` iff not error and n < warningDays, `success` otherwise. NaN falls through to `success`. |
| ExpirationUtils.DefaultColorBands | frontend/src/utils/expirationUtils.js:39-46 | With the defaults 90/30: under 30 days is error, 30..89 is warning, and 90 or more is success. |
| ExpirationUtils.ColorMonotone | frontend/src/utils/expirationUtils.js:39-46 | More days never give a more severe colour. |
| ExpirationUtils.BgColor | frontend/src/utils/expirationUtils.js:51-64 | The result is a `#rrggbb` text, and it is white iff the colour is `default`. |
| ExpirationUtils.TextColor | frontend/src/utils/expirationUtils.js:69-82 | The result is a `#rrggbb` text, and it is black iff the colour is `default`. |
| ExpirationUtils.StylingInjective | frontend/src/utils/expirationUtils.js:51-82 | Different colours get different backgrounds and different text colours. |
| ExpirationUtils.ExpirationLabel | frontend/src/utils/expirationUtils.js:87-97 | "Unknown" iff null. "NaN months" iff NaN. "Expired" iff ≤ 0 days. "1 day" iff exactly 1. "n days" iff 1 < n < 30, with that n. A month count m ≥ 1 iff n ≥ 30, with 30m ≤ n < 30m + 30. |
| ExpirationUtils.LabelMatchesDefaultColor | frontend/src/utils/expirationUtils.js:39-97 | With the default thresholds, a red colour goes with "expired" or a day count, orange with a one- or two-month label, and green with three months or more. |
| ExpirationUtils.SortByExpirationDate | frontend/src/utils/expirationUtils.js:102-112 | The result is a permutation of the items, sorted by date with the undated items last. |
| ExpirationUtils.SortIsStable | frontend/src/utils/expirationUtils.js:102-112 | The sort is stable: for every sort key (a date, or undated), the items with that key appear in the result in their input order. |
| ExpirationUtils.SortRespectsComparator | frontend/src/utils/expirationUtils.js:102-112 | Every pair in the result whose first item has a date is in the order the page's comparator asks for. |
| ExpiryScript.ParseExpireDate | test_expiry.js:3-9 | Null exactly when the text is missing or empty, or `Number` of the year part or of the month part is 0 or NaN (`!year \|\| !month`). A date, when there is one, is 23:59:59 of its day. |
| ExpiryScript.MissingOrZeroMonthIsNull | test_expiry.js:5-6 | A year without a month, and a month written `00`, both give null. |
| ExpiryScript.ParseYearMonth | test_expiry.js:3-9 | A digit text `Y-M` (Y ≠ 0, 1 ≤ M ≤ 12) parses to the last day of month M at 23:59:59. |
| ExpiryScript.DaysUntilExpiration | test_expiry.js:11-20 | The result is null iff the parse is null. Otherwise it is the whole days from today's midnight to the expiry day, plus one. |
| ExpiryScript.DaysToEndOfMonth | test_expiry.js:11-20 | For `Y-M` the result is the last day of the month minus today, plus one. |
| ExpiryScript.CurrentMonthNotExpired | test_expiry.js:11-20 | A batch whose month is the current month or later has at least one day left. |
| ExpiryScript.ScriptCountsWholeMonth | test_expiry.js:3-20 | At midnight of any day, the script's count for a month is the page's count plus that month's length. |
| ExpiryScript.TierOf | test_expiry.js:44-52 | Expired iff < 0. Critical iff 0..29. Warning iff 30..89. Safe iff ≥ 90. |
| ExpiryScript.TierMonotone | test_expiry.js:44-52 | More days never give a more urgent tier. |
| ExpiryScript.Report | test_expiry.js:39-55 | The loop completes iff every test date parses, and otherwise stops at the first that does not. Each printed line holds that date's days and tier. |
| ExpirationSetting.ParseInt | backend/test_expiration_setting.py:92 | For every text: a non-empty run of ASCII, Arabic-Indic or Persian digits is read as its decimal value; a `+` followed by such digits gives their value and a `-` its negation; and a text without `-` never gives a negative number. |
| ExpirationSetting.LeadingSpaceIgnored | backend/test_expiration_setting.py:92 | A blank before the text does not change what `int` reads. |
| ExpirationSetting.TrailingSpaceIgnored | backend/test_expiration_setting.py:92 | For every text, a blank after it does not change what `int` reads. |
| ExpirationSetting.UnderscoreBetweenDigitsIgnored | backend/test_expiration_setting.py:92 | For all non-empty digit texts `a` and `b`, `int(a + "_" + b)` is the value of the digits of `a` followed by those of `b`. |
| ExpirationSetting.BlankAndPlusAccepted | backend/test_expiration_setting.py:92 | `int(" 05")` and `int("+5")` are both 5. |
| ExpirationSetting.UnderscoresBetweenDigits | backend/test_expiration_setting.py:92 | `int("1_000")` is 1000. |
| ExpirationSetting.UnderscoresMisplaced | backend/test_expiration_setting.py:92 | `int("1__0")` and `int("_1")` raise ValueError. |
| ExpirationSetting.PersianDigitsAccepted | backend/test_expiration_setting.py:92 | `int("۱۴۰۳")` is 1403. |
| ExpirationSetting.PersianYearRead | backend/test_expiration_setting.py:85-97 | `۱۴۰۳-05` is read as the last day of May 1403. |
| ExpirationSetting.TwoParts | backend/test_expiration_setting.py:89-92 | A text with exactly one `-` is read by `int` part by part. |
| ExpirationSetting.DayBeforeFirstOf | backend/test_expiration_setting.py:94-97 | `datetime(y, m, 1) - 1 day` succeeds iff the date is in range and not 0001-01-01, and then it is the day before the first of the month. |
| ExpirationSetting.ParseExpireDate | backend/test_expiration_setting.py:85-97 | Missing or empty text, or any number of dash-separated parts other than two, gives `None`. |
| ExpirationSetting.ParseYearMonth | backend/test_expiration_setting.py:85-97 | A digit text `Y-M` with a valid month gives the last day of the month. |
| ExpirationSetting.MonthOutOfRange | backend/test_expiration_setting.py:92-97 | Month 0 silently gives 31 December of the previous year. Month 13 or more raises ValueError. |
| ExpirationSetting.DaysUntilExpiration | backend/test_expiration_setting.py:99-106 | The result fails iff the parse fails and is `None` iff the parse is `None`. Otherwise today + days is the expiry day. |
| ExpirationSetting.ColorOfDays | backend/test_expiration_setting.py:108-117 | Default iff None. Error iff ≤ 0. Warning only for 0 < n < warning. Success only for n ≥ warning. |
| ExpirationSetting.ThresholdOnlyMovesWarning | backend/test_expiration_setting.py:108-117 | Changing the warning threshold never changes error or default. A larger threshold never makes a colour less severe. |
| ExpirationSetting.ExpiredScenario | backend/test_expiration_setting.py:122-136 | A month that contains today − 30 is coloured error at threshold 90, as the test expects. |
| ExpirationSetting.LaterScenario | backend/test_expiration_setting.py:128-153 | A month that contains today + 120 is success at thresholds 90 and 60, as the test expects. |
| ExpirationSetting.FortyFiveDayScenario | backend/test_expiration_setting.py:125-159 | A month that contains today + 45 is 45..75 days away. It is warning at 90 and success at 30, as the test expects. |
| ExpirationSetting.FortyFiveDaysGreenAtSixty | backend/test_expiration_setting.py:149-150 | Counter-example to the test's "~45 days is warning at 60": on 2025-03-17 the month `2025-05` is 75 days away and coloured success. |
| Permissions.RolesConsistent | frontend/src/utils/permissions.js:9-44 | Superadmin implies admin. The three roles are disjoint. Editing is allowed iff a user is present and is not a viewer. |
| Permissions.HasWarehouseAccess | frontend/src/utils/permissions.js:50-62 | Admins reach every warehouse. A warehouseman reaches exactly the listed ones. Anyone else reaches none. |
| Permissions.AccessibleWarehouses | frontend/src/utils/permissions.js:68-76 | The result is null (all warehouses) exactly for admins. With no user it is `[]`. Any other user gets their own list, or `[]` when they have none. |
| Permissions.AccessibleAgreesWithAccess | frontend/src/utils/permissions.js:50-76 | For admins and warehousemen, access to a warehouse is the same as it being in the accessible list. |
| Permissions.ViewerListedButRefused | frontend/src/utils/permissions.js:50-76 | For a viewer the helpers disagree: a warehouse in the viewer's list is accessible by the list, yet the access check refuses it. |
| Permissions.KeepListed | frontend/src/utils/permissions.js:90 | A warehouse is kept iff it is in the list and its id is assigned. |
| Permissions.KeepListedIsSublist | frontend/src/utils/permissions.js:90 | The kept warehouses keep their order. |
| Permissions.FilterWarehousesByAccess | frontend/src/utils/permissions.js:82-95 | No user or no list gives []. Admins, viewers and unassigned warehousemen see everything. An assigned warehouseman sees exactly the assigned warehouses. |
| Permissions.FilterIsSublist | frontend/src/utils/permissions.js:82-95 | The filtered list is an ordered sublist of the input. |
| Sidebar.VisibleCases | frontend/src/components/ProfessionalSidebar.js:124-136 | An unmarked entry is visible to everyone, and a superadmin sees everything. An `admin` entry is shown iff the user is an admin. Any other mark must equal the user's level. |
| Sidebar.VisibleItems | frontend/src/components/ProfessionalSidebar.js:204 | Exactly the visible menu entries are shown. |
| Sidebar.VisibleSubItems | frontend/src/components/ProfessionalSidebar.js:234 | Exactly the visible sub-entries are shown. |
| Sidebar.VisibleItemsInOrder | frontend/src/components/ProfessionalSidebar.js:204 | The visible entries keep the menu's order. |
| Sidebar.VisibleSubItemsInOrder | frontend/src/components/ProfessionalSidebar.js:234 | The visible sub-entries keep their order. |
| Sidebar.UnmarkedItemsKept | frontend/src/components/ProfessionalSidebar.js:204 | A menu with no marks is shown unchanged. |
| Sidebar.AllTopLevelVisible | frontend/src/components/ProfessionalSidebar.js:54-122 | Every top-level entry of the menu is shown to every user. |
| Sidebar.MenuMarks | frontend/src/components/ProfessionalSidebar.js:54-122 | The only marked sub-entries are the five admin routes. |
| Sidebar.SubItemVisibility | frontend/src/components/ProfessionalSidebar.js:124-136 | A sub-entry is shown iff the user is an admin or its route is not an admin route. |
| Sidebar.ToggledMenu | frontend/src/components/ProfessionalSidebar.js:39-42 | The clicked menu flips and every other menu keeps its state. |
| Sidebar.ToggleTwice | frontend/src/components/ProfessionalSidebar.js:35-44 | Two clicks on the same menu restore every menu's state. |
| Sidebar.SidebarState.constructor | frontend/src/components/ProfessionalSidebar.js:31-32 | The sidebar starts with the given collapsed flag and no menu open. |
| Sidebar.SidebarState.HandleMenuClick | frontend/src/components/ProfessionalSidebar.js:35-44 | A click expands a collapsed sidebar and flips exactly the clicked menu. |
| Sidebar.SidebarState.ToggleCollapse | frontend/src/components/ProfessionalSidebar.js:46-52 | The flag flips, and collapsing closes every menu. |
| InventoryMatrix.FilterForDrug | frontend/src/components/InventoryMatrix.js:49 | The result is exactly the drug's batches, in order. |
| InventoryMatrix.EarliestExpire | frontend/src/components/InventoryMatrix.js:52-60 | The result is the smallest non-empty expiry month of the drug's batches under text order, or null if it has none. |
| InventoryMatrix.SumInWarehouse | frontend/src/components/InventoryMatrix.js:64-66 | The result is the drug's quantity in that warehouse. |
| InventoryMatrix.BuildRow | frontend/src/components/InventoryMatrix.js:44-72 | The row holds the drug's id, one cell per warehouse, the earliest month, and the sum of its cells. |
| InventoryMatrix.BuildRows | frontend/src/components/InventoryMatrix.js:44-72 | There is one correct row per drug, in order. |
| InventoryMatrix.Shown | frontend/src/components/InventoryMatrix.js:74-76 | With no drug filter every drug is shown. Otherwise exactly the drugs with that id are shown. |
| InventoryMatrix.KeepDrug | frontend/src/components/InventoryMatrix.js:74-76 | The loop keeps exactly the rows with that id. |
| InventoryMatrix.RowsWithIdMatch | frontend/src/components/InventoryMatrix.js:74-76 | Filtering the rows matches filtering the drugs row for row. |
| InventoryMatrix.SumColumn | frontend/src/components/InventoryMatrix.js:82 | The result is the column's total over the rows. |
| InventoryMatrix.BuildTotalRow | frontend/src/components/InventoryMatrix.js:79-86 | The TOTAL row holds every column total and the grand total. |
| InventoryMatrix.BuildMatrix | frontend/src/components/InventoryMatrix.js:42-90 | Nothing is built unless both lists are non-empty. Otherwise there is one correct row per shown drug, followed by the TOTAL row. |
| InventoryMatrix.CellIsStock | frontend/src/components/InventoryMatrix.js:62-67 | A cell is the drug's stock in that warehouse. |
| InventoryMatrix.RowTotalIsStock | frontend/src/components/InventoryMatrix.js:62-70 | With distinct warehouse ids, a row total is the drug's stock over those warehouses. |
| InventoryMatrix.RowTotalIsDrugStock | frontend/src/components/InventoryMatrix.js:62-70 | When every batch lies in a listed warehouse, a row total is the drug's whole stock. |
| InventoryMatrix.RowTotalIsCellSum | frontend/src/components/InventoryMatrix.js:62-70 | A row total is the sum of its cells. |
| InventoryMatrix.GrandTotalByRows | frontend/src/components/InventoryMatrix.js:79-86 | The sum of the column totals equals the sum of each row's cells. |
| InventoryMatrix.GrandTotalIsSumOfRowTotals | frontend/src/components/InventoryMatrix.js:79-86 | The grand total equals the sum of the row totals. |
| TransferDialog.ParseInt | frontend/src/components/TransferDialog.js:85-96 | `parseInt` of a non-empty digit text is its value. |
| TransferDialog.AvailableInventory | frontend/src/components/TransferDialog.js:59-61 | Exactly the chosen source warehouse's batches with positive quantity are offered. |
| TransferDialog.FindBatch | frontend/src/components/TransferDialog.js:79 | A batch is found iff one has the id, and a found batch has that id. |
| TransferDialog.Submit | frontend/src/components/TransferDialog.js:63-102 | Each of the five refusals happens exactly when its guard is the first to fail, and the request is sent exactly when every guard passes. An accepted request carries the source, the destination or consumer for its type, the batch's drug and month, the parsed quantity, the type and the transfer date. |
| TransferDialog.CompleteFormSubmits | frontend/src/components/TransferDialog.js:63-102 | A complete form whose digit quantity is at most the batch's quantity is submitted with that quantity. |
| TransferDialog.NonPositiveQuantityPasses | frontend/src/components/TransferDialog.js:85-96 | The quantities `-5` and `abc` (NaN) pass the dialog's only quantity check. |
| Models.NewUser | backend/models.py:24-33 | A new user is active with no warehouses, and the default level is `warehouseman`. |
| Models.NewWarehouse | backend/models.py:35-42 | A warehouse is virtual only when that is explicitly set. |
| Models.NewDrug | backend/models.py:65-74 | A drug has an expiry date unless that is explicitly turned off. |
| Models.NewInventory | backend/models.py:76-88 | A new batch has the given key, a missing quantity is 0, and the batch is not disposed. |
| Models.NewTransfer | backend/models.py:102-117 | A new transfer is pending, warehouse-type, with nothing received. |
| Models.DistinctKeysSatisfyConstraint | backend/models.py:78-80 | Rows with distinct keys satisfy the unique constraint. |
| Models.ConstraintAdmitsUndatedTwins | backend/models.py:78-85 | Two undated rows with the same warehouse and drug pass the constraint, because NULLs are distinct. |
| Models.StockOf | backend/models.py:76-88 | The ledger of distinct-key rows maps each row's key to its quantity and holds nothing else. |
| Models.FindByCode | backend/api.py:550-553 | The lookup by code finds a warehouse iff one has the code. |
| Models.FindByCodeUnique | backend/models.py:39 | With unique codes the lookup finds exactly the warehouse with that code. |
| Ledger.Credit | backend/api.py:574-584 | Only the credited row changes, by q, and the total grows by q. |
| Ledger.Debit | backend/api.py:565 | Only the debited row changes, by −q, and the total shrinks by q. |
| Ledger.Move | backend/api.py:561-584 | Only the two rows change, by −q and +q, and the total is unchanged. |
| Ledger.MoveBack | backend/api.py:760-811 | Moving q from a to b and back restores every row. |
| Ledger.CreditKeepsNonNegative | backend/api.py:574-584 | A non-negative credit keeps all stock non-negative. |
| Ledger.DebitKeepsNonNegative | backend/api.py:561-565 | A debit of at most the row's stock keeps all stock non-negative. |
| Ledger.MoveKeepsNonNegative | backend/api.py:561-584 | A move of at most the row's stock keeps all stock non-negative. |
| Transfers.TransitCovers | backend/api.py:642 | In a balanced store, a transfer's TRANSIT row holds at least what it has in flight. |
| Transfers.Received | backend/api.py:668-677 | The status becomes confirmed iff all arrived and mismatch otherwise. Only the received quantity and the status change. |
| Transfers.Receive | backend/api.py:645-677 | A warehouse delivery keeps the total. A consumer or disposal delivery removes the received quantity. |
| Transfers.Withdraw | backend/api.py:828-857 | Deleting a pending transfer takes its quantity from TRANSIT back to the source. |
| Transfers.Settle | backend/api.py:910-962 | Only `delete` removes the shortfall from the total. The other actions credit it elsewhere. |
| Transfers.CreateKeepsBalance | backend/api.py:556-601 | Creating a pending transfer keeps TRANSIT balanced. |
| Transfers.ReceiveKeepsBalance | backend/api.py:645-677 | Confirming keeps TRANSIT balanced, and a mismatch's shortfall stays there. |
| Transfers.RejectKeepsBalance | backend/api.py:760-811 | Rejecting keeps TRANSIT balanced. |
| Transfers.DeletePendingKeepsBalance | backend/api.py:828-857 | Deleting a pending transfer keeps TRANSIT balanced. |
| Transfers.DeleteSettledKeepsBalance | backend/api.py:820-859 | Deleting a settled record has no stock effect and keeps the balance. |
| Transfers.DeleteMismatchUnbalances | backend/api.py:820-859 | Deleting a mismatch record leaves its shortfall in TRANSIT with no transfer to account for it. |
| Transfers.ShortfallCovered | backend/api.py:894-908 | In a balanced store, a mismatch's TRANSIT row holds its whole shortfall. |
| Transfers.SettleKeepsBalance | backend/api.py:910-962 | Every resolution action keeps TRANSIT balanced. |
| Transfers.SessionIsSettle | backend/api.py:910-968 | The session `resolve_mismatch` commits (TRANSIT debited, then the action) is the settlement. It removes the shortfall from the total only for `delete`, and it keeps the balance and non-negativity. |
| Transfers.SettleKeepsNonNegative | backend/api.py:910-962 | Resolving at most the TRANSIT stock keeps all stock non-negative. |
| Transfers.CreditKeepsBalance | backend/api.py:314-350 | Receiving stock into a real warehouse keeps TRANSIT balanced. |
| Transfers.CreateThenRejectRestores | backend/api.py:760-811 | Creating and then rejecting a transfer restores every row of the ledger. |
| Transfers.DeleteClearsUsed | backend/api.py:1317-1330 | Deleting the only record that names a batch as its source clears the batch's "used" flag. |
| Transfers.StatusChangeKeepsUsed | backend/api.py:1317-1330 | Replacing a record by one with the same source batch leaves every "used" flag as it was. |
| Transfers.Store.constructor | backend/api.py:551 | The store starts empty and balanced. |
| Transfers.Store.AddInventory | backend/api.py:314-350 | The batch is credited, creating it if it is missing, and the new quantity is returned. The total grows by the quantity. The balance is kept when the key is outside TRANSIT, and non-negativity when the quantity is ≥ 0. |
| Transfers.Store.CheckInventoryUsed | backend/api.py:1317-1330 | Not found iff the batch is missing. Used iff some remaining transfer has it as its source. |
| Transfers.Store.CreateTransfer | backend/api.py:538-607 | Fails with no state change when there is no batch or too little stock. Otherwise the quantity moves to TRANSIT, a pending record is added, and the total is unchanged. |
| Transfers.Store.ConfirmTransfer | backend/api.py:609-681 | Handles not found, not pending and missing TRANSIT stock with no state change. Otherwise it receives: it credits the destination or consumes, and keeps the balance and every "used" flag. |
| Transfers.Store.ConfirmTransferById | backend/api.py:705-758 | A full confirm, with the same outcomes for the whole sent quantity. |
| Transfers.Store.RejectTransfer | backend/api.py:760-811 | A pending transfer's quantity goes back to the source, the status becomes rejected, and the balance and every "used" flag are kept. |
| Transfers.Store.DeleteTransfer | backend/api.py:813-863 | Confirmed and rejected records are refused. Pending ones are withdrawn. The record is removed, and when it was the only one naming its source batch, that batch is no longer "used". |
| Transfers.Store.ApplyAction | backend/api.py:913-965 | delete writes the shortfall off. return_source credits the source. add_destination credits the destination. Any other action is invalid. |
| Transfers.Store.ResolveMismatch | backend/api.py:871-974 | Only mismatches with a covered shortfall are settled. Their status becomes resolved, and the balance, non-negativity and every "used" flag are kept. |
| Transfers.CreateThenReject | backend/api.py:538-811 | Creating and then rejecting a transfer restores every row of the ledger. |
| Transfers.ResolveTwice | backend/api.py:886-887 | A resolved mismatch cannot be resolved again. |
| Transfers.NegativeQuantityScenario | backend/api.py:561-565 | Creating a transfer of −5 from a batch of 10 leaves 15 at the source and −5 in TRANSIT. |
| Transfers.TransitDestinationScenario | backend/api.py:538-681 | Sending 10 units to TRANSIT and confirming them leaves the 10 units in TRANSIT while the only record is confirmed, so the store is no longer balanced. |
| Transfers.Store.CreateTransferChecked | backend/api.py:538-607 | Rejects a quantity ≤ 0, then a transfer from or to TRANSIT, each with no state change. Otherwise it behaves as create, and it keeps non-negativity and the balance unconditionally. |
| Transfers.MismatchDeleteScenario | backend/api.py:820-859 | Sending 10, receiving 6 and deleting the mismatch record leaves 4 in TRANSIT and no record. |
| Transfers.UsedFlagScenario | backend/api.py:1317-1330 | A batch is "used" while a transfer from it exists and no longer "used" once that transfer is deleted. |
| Transfers.Store.DeleteTransferChecked | backend/api.py:820-821 | Deletes exactly the pending transfers, withdrawing them, and always keeps the balance and the total. |
| ReportFilters.InventoryReport | backend/api.py:979-997 | The report is a sub-map of the ledger with the same quantities, and each reported row passes the query. |
| ReportFilters.UnfilteredReportIsEverything | backend/api.py:987-995 | With no truthy parameter the report is the whole ledger, TRANSIT included. |
| ReportFilters.ReportIsExactlyMatches | backend/api.py:987-995 | A row is reported iff it is in the ledger and passes every truthy condition. |
| ReportFilters.DateBoundDropsUndated | backend/api.py:991-995 | Either date bound drops the undated rows. |
| ReportFilters.NarrowerQueryFewerRows | backend/api.py:987-995 | Adding conditions never adds rows. |
| ReportFilters.MonthTextOrder | backend/api.py:991-995 | For `YYYY-MM` texts, the SQL text order is the chronological order of the months. |
| ReportFilters.GetFilterParams | frontend/src/components/ComprehensiveReports.js:79-86 | A parameter is sent iff its form field is truthy. |
| ReportFilters.FormAndBackendAgree | frontend/src/components/ReportExport.js:31-38 | The backend selects exactly the rows the form describes. The same helper is in both report pages. |
| ReportFilters.BlankFormReportsEverything | frontend/src/components/ComprehensiveReports.js:60 | The initial load with `{}` reports the whole ledger. |
| ComprehensiveReports.ApplyReportType | frontend/src/components/ComprehensiveReports.js:93-111 | Each report type keeps exactly its items, and an unknown type keeps every item. |
| ComprehensiveReports.ReportTypeKeepsOrder | frontend/src/components/ComprehensiveReports.js:93-111 | Every report type shows its rows in the order the backend sent them. |
| ComprehensiveReports.ExpiredExcludesSoon | frontend/src/components/ComprehensiveReports.js:147-152 | No item counts as both expired and expiring soon. |
| ComprehensiveReports.UndatedCountsAsExpiringSoon | frontend/src/components/ComprehensiveReports.js:148-152 | A drug with expiry dates but an undated batch counts as expiring soon, because `null >= 0 && null < 90` holds. |
| ComprehensiveReports.TotalItemsAppend | frontend/src/components/ComprehensiveReports.js:144 | The total of two lists is the sum of their totals. |
| ComprehensiveReports.TotalItemsIsLedgerTotal | frontend/src/components/ComprehensiveReports.js:144 | For backend rows, the page's total is the ledger's total. |
| ComprehensiveReports.UniqueDrugsBounds | frontend/src/components/ComprehensiveReports.js:145 | The unique-drug count is at most the number of items, and at least 1 when there are items. |
| ComprehensiveReports.ExpiryCountsBounded | frontend/src/components/ComprehensiveReports.js:147-152 | The expired count plus the expiring-soon count is at most the number of items. |
| ComprehensiveReports.ReportRowsNeverExpire | frontend/src/components/ComprehensiveReports.js:94-152 | For the rows the backend sends, the expired and expiring-soon reports are empty and both counts are 0. |
| ComprehensiveReports.JoinedFiguresCorrect | frontend/src/components/ComprehensiveReports.js:94-107 | With each row joined to its drug's flag, a row of an expiring drug is expired iff days < 0 and expiring soon iff 0 ≤ days < 90. |
| ComprehensiveReports.JoinedUndatedInNeither | frontend/src/components/ComprehensiveReports.js:147-152 | With the corrected figures, a row without an expiry month is neither expired nor expiring soon. |
| ReportExport.RowClassName | frontend/src/components/ReportExport.js:203-211 | Expired iff < 0 days. Critical iff 0..29. Warning iff 30 ≤ days < warning. No class otherwise, and no class for missing or invalid months. |
| ReportExport.RowClassAgreesWithColor | frontend/src/components/ReportExport.js:203-211 | Expired or critical rows are exactly the `error` ones. Warning rows are exactly the `warning` ones. Unhighlighted rows are exactly `success` or `default`. |
| ReportExport.RowClassMonotone | frontend/src/components/ReportExport.js:203-211 | A later month never gets a more urgent class. |
| ExpiringDrugsCard.GetStatusLabel | frontend/src/components/ExpiringDrugsCard.js:25-32 | No expiry iff null. Expired iff ≤ 0. Near iff 0 < n < warning. Healthy iff ≥ warning. NaN is labelled healthy. |
| ExpiringDrugsCard.LabelAndChipAgree | frontend/src/components/ExpiringDrugsCard.js:56-69 | An undated batch is uncoloured iff unlabelled. An expired batch is red. A near batch is red or orange. A healthy batch with at least 30 days is green. |
| ExpiringDrugsCard.NearExpiryShownInErrorColor | frontend/src/components/ExpiringDrugsCard.js:69 | With 1..29 days left, a batch is labelled near or healthy but coloured the same red as an expired one. |
| ExpiringDrugsCard.WithRowIds | frontend/src/components/ExpiringDrugsCard.js:88 | There is one row per fetched batch, in order. |
| ExpiringDrugsCard.RowIdsArePositions | frontend/src/components/ExpiringDrugsCard.js:88 | The row ids are the positions, so they are distinct. |
| ExpiringDrugsCard.RowIdsRoundTrip | frontend/src/components/ExpiringDrugsCard.js:88 | Dropping the ids gives back the fetched list. |

## Left out

- Authentication, sessions and role checks are left out. The backend endpoints check no roles.
- Operation logging, the `notes` parameter, timestamps (`created_at`, `confirmed_at`), `created_by`, suppliers and Jalali `entry_date` are left out. None of them affects stock.
- Batches are addressed by their key, not by the row id. SQLite's reuse of row ids is not modelled, and transfer ids come from a counter.
- `update_inventory` and the other CRUD endpoints (drugs, warehouses, users, consumers, backup) are outside this core.
- The 500 errors raised when the TRANSIT warehouse is missing are not modelled: the store owns one TRANSIT id.
- A NULL `drug_id` is not modelled.
- `GET /expiring-drugs` returns a fixed `[]`, so the dashboard card always shows an empty list. The card's functions are modelled on any list.
- `Inventory.is_disposed` is documented as excluded from reports, but no query filters on it and no endpoint sets it. The ledger carries no disposed flag.
- Concurrency between requests and database-level locking are left out. Each endpoint is one atomic method.
- Floating point is left out: `Number` and `parseInt` are modelled on digit texts with unbounded integers. Leading and trailing whitespace, signs, decimals, exponents, the `0x`, `0b` and `0o` prefixes (`Number("0x10")` is 16) and `Infinity` in `Number` give NaN in the model.
- JavaScript dates outside ±8.64e15 ms (Invalid Date by range) and daylight-saving shifts are not modelled. Local time is modelled as a fixed offset.
- The 200 ms `setTimeout` in the sidebar's click handler is modelled as immediate.
- ExpirationUtils.SortRespectsComparator: the comparator is inconsistent for invalid dates (NaN differences), so the result is only shown to respect it for pairs whose first item has a parsed date.
- ExpiryScript.ParseExpireDate: the contract states every null case and the time of day, but not the day itself. The exact day is given by ExpiryScript.ParseYearMonth for digit texts only.
- ExpirationSetting.ParseInt: Python `int` also strips Unicode whitespace other than the ASCII blanks and accepts the decimal digits of every other script (fullwidth, Devanagari and so on). The model strips only ASCII whitespace and reads only ASCII, Arabic-Indic and Persian digits; any other such text raises ValueError in the model. The contract states digit texts with an optional sign; whitespace and underscores are stated by ExpirationSetting.LeadingSpaceIgnored, ExpirationSetting.TrailingSpaceIgnored and ExpirationSetting.UnderscoreBetweenDigitsIgnored, and which malformed texts raise ValueError only by the examples in ExpirationSetting.UnderscoresMisplaced.
- ExpirationSetting.ParseExpireDate: the contract states the `None` cases. The values are given by ExpirationSetting.ParseYearMonth and ExpirationSetting.MonthOutOfRange for digit texts only.
- TransferDialog.ParseInt: the contract states digit texts only. A leading sign or a trailing non-digit is handled by the body but not stated in the contract.
- Models.NewUser, Models.NewWarehouse, Models.NewDrug, Models.NewInventory, Models.NewTransfer: these state the column defaults only. Fields without a default are copied from the arguments.
- Transfers.Store.CreateTransfer: it keeps non-negativity only for quantity ≥ 0, and the balance only for quantity ≥ 0 with neither end at TRANSIT, because the code accepts negative quantities and TRANSIT as either end (see Findings).
- Transfers.CreateKeepsBalance: it requires a well-formed record, so a quantity ≥ 0 and neither end at TRANSIT. `create_transfer` accepts both, and then TRANSIT no longer matches what is in flight (see Findings).
- Transfers.Store.AddInventory: it keeps the balance only for a key outside TRANSIT and non-negativity only for a quantity ≥ 0. `add_inventory` checks neither the warehouse nor the sign, so adding to TRANSIT unbalances it and a negative quantity can drive a batch below zero.
- Transfers.Store.DeleteTransfer: it keeps the balance only when the record is not a mismatch, because the code strands a mismatch's shortfall (see Findings).
- The rendering of the pages (MUI components, dialogs, charts, Excel and PDF export) is left out. Only the values they display are modelled.

## Findings

| source | as written | input that shows it | evidently intended | confidence | as-written member | corrected member |
|---|---|---|---|---|---|---|
| backend/api.py:561-565 | `create_transfer` checks only `quantity > stock` | quantity −5 from a batch of 10 | reject a quantity ≤ 0 | not executed | Transfers.NegativeQuantityScenario | Transfers.Store.CreateTransferChecked |
| backend/api.py:538-607 | `create_transfer` does not check that neither end is the TRANSIT warehouse, which the listings hide as virtual | send 10 units from warehouse 2 to TRANSIT, then confirm | refuse a transfer from or to TRANSIT | not executed | Transfers.TransitDestinationScenario | Transfers.Store.CreateTransferChecked |
| backend/api.py:820-859 | `delete_transfer` deletes a mismatch record without touching TRANSIT | send 10, receive 6, delete | only pending transfers may be deleted | not executed | Transfers.MismatchDeleteScenario | Transfers.Store.DeleteTransferChecked |
| frontend/src/components/ComprehensiveReports.js:94-152 | the expiry filters test `item.has_expiry_date === true` on rows from `/inventory/report`, which have no such field | any ledger, report type `expired` | join each row to its drug's flag | not executed | ComprehensiveReports.ReportRowsNeverExpire | ComprehensiveReports.JoinedFiguresCorrect |
| frontend/src/components/ComprehensiveReports.js:148-152 | the expiring-soon figure tests `days >= 0 && days < 90` with `days` null for an undated batch, and null compares as 0 | a drug with expiry dates and one batch without `expire_date` | an undated batch is not expiring soon | not executed | ComprehensiveReports.UndatedCountsAsExpiringSoon | ComprehensiveReports.JoinedUndatedInNeither |
