# Camarão & Sertão sales, finance and inventory — a Dafny model

Camarão & Sertão is a single-page app for a small seafood and dried-meat business with
three outlets: Fortaleza, Jaguaruana and direct sales. The app keeps three lists:

- the sales history;
- the financial ledger;
- the product catalogue with its stock.

Its core is a reconciliation engine. Every sale books a revenue line. A sale linked to a
catalogue product also books a cost-of-goods line and takes its quantity off the stock,
clamped at zero. Editing a sale reverses it and applies it again. Deleting a sale reverses
it and drops its derived lines. Around the engine sit the entry forms, the sales history
with its edit dialog, the inventory screen, the dashboard, the per-product report and the
consolidated cash-flow report.

The model has one Dafny module per part of the program:

- `Types` holds the enumerations and the `Sale`, `Transaction` and `InventoryItem` records.
- `Seqs` holds generic filter, find, sum, sort and permutation facts.
- `Text` covers `trim`, numeric input text and the default string order.
- `Stock` covers product lookup and the clamped stock adjustment.
- `Ledger` holds the income/expense split every report makes.
- `Reconcile` states the engine on values, as functions over `Books` (the three lists),
  with the invariant the engine keeps.
- `AppState` is a class `App` whose fields are the three lists. Each handler method is
  proved to compute the corresponding `Reconcile` or `Stock` function: `HandleAddSale`
  computes `AddSale`, `ProcessSaleImpact` computes `ImpactTransactions` and `SaleStock`,
  `ApplyStockChange` computes `Adjust`, and `SetInventory` computes `ReplaceInventory`.
- Each screen has its own module: `InventoryManager`, `SalesForm`, `FinanceForm`,
  `SalesList`, `Dashboard`, `ProductReports` and `ConsolidatedReport`.

Conventions:

- Money is integer cents.
- A date is an integer instant in milliseconds.
- The date-range filters compare the UTC day (`instant / 86400000`) with optional day
  bounds; an empty bound is `None`.
- The random ids the program draws are parameters.
- `parseInt`/`parseFloat` results are given values, `None` standing for NaN.

Points where the code behaves differently from what its structure suggests, which the model
follows:

- An edit reads as "restore the old stock, then consume the new", but both steps read the
  same pre-edit snapshot. Take an edit that keeps the product, where the product is in the
  inventory and the old quantity is positive, as every form-made sale's is. On
  non-negative stock, such an edit equals one clamped adjustment of that product by the
  old quantity minus the new (`Reconcile.UpdateNetStock`). An edit that changes the
  product is two adjustments on two items (`Reconcile.UpdateSaleStock`).
- An edit re-derives the cost line from the product's current unit cost, not the cost at the
  time of the sale (`Reconcile.EditRepricesCostScenario`).
- Deleting a sale restores its full quantity even when recording it was clamped at zero.
  So add-then-delete is the identity only when the stock covered the sale
  (`Reconcile.AddThenDeleteRestores`, `Reconcile.ClampedRoundTripScenario`).
- The ledger screen may delete a derived line by id. So "every live sale has its revenue
  line" is not an invariant. The invariant kept (`Reconcile.Valid`) has two parts:
  - ledger ids are unique and no derived line is orphaned;
  - sale ids are unique.

## Model

| member | source | states |
|---|---|---|
| Types.Stores | types.ts:2-6 | the three stores, each once, every store listed |
| Types.Salespeople | types.ts:8-12 | the three salespeople, each once, all listed |
| Types.Categories | types.ts:14-20 | the five categories, each once, all listed, RECEITA alone is revenue and comes first |
| Types.CategoryRank | types.ts:14-20 | a category's position in declaration order indexes back to it |
| Types.CategoryNameInjective | types.ts:14-20 | distinct categories have distinct string values |
| Types.DayStart | components/SalesForm.tsx:73 | midnight of a picked day falls on that UTC day |
| Types.WithId | App.tsx:84 | a sale built from a form payload gets the given id and keeps every field: date, amount, store, salesperson, description, product and quantity |
| Types.IdTextInjective | App.tsx:47-68 | the "t-rev-"/"t-cost-" id strings never collide with each other or with manual ids that avoid those prefixes |
| Text.TrimSpec | components/SalesForm.tsx:36 | trim leaves no white space at either end, and leaves nothing exactly when the text is blank |
| Text.IsMissing | components/InventoryManager.tsx:29 | `!s.trim()` is true exactly when only white space was typed |
| Text.Parse | components/SalesForm.tsx:28-29 | empty input parses to NaN; typed input to its parsed value |
| Text.ParseOr | components/SalesForm.tsx:47 | `parseInt(t \|\| d)` falls back to d for empty input |
| Text.NatText | App.tsx:72 | a decimal rendering is non-empty, made of digits, denotes exactly n and has no leading zero unless n is 0 |
| Text.Utf16Length | components/SalesForm.tsx:36 | `length` counts UTF-16 code units: at least one and at most two per character |
| Text.Utf16LengthScenario | components/FinanceForm.tsx:22 | two astral characters count as four code units, three ASCII letters as three |
| Text.LexLessTransitive | components/InventoryManager.tsx:17-20 | the default string sort order is transitive |
| Text.LexLessTotal | components/InventoryManager.tsx:17-20 | any two distinct strings are ordered one way |
| Stock.Floor0 | App.tsx:62 | `Math.max(0, x)` is non-negative, at least x, and x itself when x >= 0 |
| Stock.FindItem | App.tsx:57 | finds the first item with the id in the list, or none exists |
| Stock.AdjustSpec | App.tsx:60-64 | the adjustment moves every item with the id by delta clamped at zero, leaves every other item, the ids and the order alone, and keeps stock non-negative |
| Stock.AdjustKeepsLookup | App.tsx:60-64 | an adjusted inventory finds exactly the ids it found before |
| Stock.ConsumeThenRestock | App.tsx:60-64 | consuming n then restocking n is the identity when nothing was clamped |
| Stock.RestockThenConsume | App.tsx:60-64 | on non-negative stock a restock by a then a consumption by b is one clamped adjustment by a - b |
| Stock.AdjustZero | App.tsx:60-64 | adjusting by zero changes nothing on non-negative stock |
| Stock.RestockNeverClamps | App.tsx:60-64 | restocking non-negative stock adds the full amount |
| Stock.SeedInventory | App.tsx:28-29 | the seed catalogue: two products with distinct ids, non-negative stock, positive prices |
| Stock.ClampScenario | App.tsx:62 | selling 1000 units of the 50-unit seed product leaves 0 |
| Ledger.IncomePlusExpenses | components/Dashboard.tsx:69-70 | RECEITA amounts plus all other amounts are the whole ledger |
| Ledger.BalanceIsSignedSum | components/Dashboard.tsx:86 | revenue minus expenses is the ledger with expenses counted negatively |
| Reconcile.FindSale | App.tsx:92 | returns the first sale with the id in the list, or none has the id |
| Reconcile.ProductOf | App.tsx:56-58 | a product is found exactly when the sale is linked and the snapshot has its id |
| Reconcile.SaleTransactions | App.tsx:45-54 | a revenue line "t-rev-id" with the sale's amount, date and store, then for a found product a cost line "t-cost-id" of unit cost times quantity; all owned by the sale, ids distinct |
| Reconcile.ImpactTransactions | App.tsx:41-80 | a reversal books nothing; an application books the sale's lines |
| Reconcile.SaleStock | App.tsx:56-64 | no stock change unless the product is found; otherwise the quantity is consumed (or restocked on reversal) with the clamp |
| Reconcile.WithoutDerived | App.tsx:95-97 | exactly the lines other than the sale's "t-rev-" and "t-cost-" lines |
| Reconcile.ReplaceSale | App.tsx:99 | the sale with the edited id is replaced where it stands, every other sale kept |
| Reconcile.SeedBooks | App.tsx:15-31 | the first-visit state is valid, empty, and holds the two seed products |
| Reconcile.ReplaceSaleKeepsIds | App.tsx:99 | replacing a sale keeps the set of ids and their distinctness |
| Reconcile.AddSaleKeepsValid | App.tsx:82-89 | adding a sale under a fresh id keeps the books valid |
| Reconcile.RegeneratedLinesValid | App.tsx:95-100 | regenerating a live sale's lines keeps a valid ledger valid |
| Reconcile.UpdateSaleKeepsValid | App.tsx:91-101 | an update keeps the books valid |
| Reconcile.DeleteSaleKeepsValid | App.tsx:103-110 | a delete keeps the books valid |
| Reconcile.AddTransactionKeepsValid | App.tsx:112-119 | a manual line under a fresh non-prefixed key keeps the books valid |
| Reconcile.DeleteTransactionKeepsValid | App.tsx:148 | deleting any ledger line by id keeps the books valid |
| Reconcile.StoredIdsDistinct | App.tsx:47-68 | in valid books the stored id strings are pairwise distinct |
| Reconcile.AddSaleEffects | App.tsx:82-89 | the sale goes first, its lines go in front of the ledger, the stock changes as the sale says |
| Reconcile.RegeneratedLines | App.tsx:95-100 | after an update the sale's new lines lead, and no old line of the sale is left |
| Reconcile.UpdateSaleEffects | App.tsx:91-101 | an unknown id changes nothing; otherwise the sale is replaced in place, its lines regenerated in front of the old ledger less its derived lines, and the stock is the old product restocked by the old quantity, then the new product consumed by the new quantity, each step only when its product is in the inventory |
| Reconcile.UpdateSaleStock | App.tsx:94-98 | the stock after an update, in the four cases of which product the inventory holds |
| Reconcile.RestockThenApply | App.tsx:56-64 | reversing one sale then applying another against the same snapshot, by cases on which product the snapshot holds |
| Reconcile.UpdateNetStock | App.tsx:91-101 | an edit that keeps the product is one clamped adjustment by old minus new quantity |
| Reconcile.UpdateSameLineKeepsStock | App.tsx:91-101 | an edit keeping product and quantity leaves the inventory as it was |
| Reconcile.AmountEditRederivesLines | App.tsx:91-101 | an amount-only edit keeps stock and rebooks the revenue line with the new amount |
| Reconcile.DeleteSaleEffects | App.tsx:103-110 | the id is gone from sales (order kept), its lines dropped, its stock restored; an unknown id changes nothing |
| Reconcile.DeleteSaleIdempotent | App.tsx:103-110 | deleting twice is deleting once |
| Reconcile.ProductSurvivesAdjust | App.tsx:56-64 | a product is found after an adjustment exactly when it was before |
| Reconcile.ReverseUndoesApply | App.tsx:41-80 | reversing right after applying restores the stock when the stock covered the sale |
| Reconcile.AddThenDeleteRestores | App.tsx:82-110 | add then delete under a fresh id restores sales, ledger and stock when the stock covered the sale |
| Reconcile.RecordThenDeleteScenario | App.tsx:82-110 | two units of the first seed product: stock 50 to 48 with two ledger lines, and back |
| Reconcile.ClampedRoundTripScenario | App.tsx:62 | selling 60 of 50 clamps at 0, and the delete then restocks to 60, not 50 |
| Reconcile.EditRepricesCostScenario | App.tsx:66-75 | after a unit-cost change, re-saving a sale rebooks its cost at the new unit cost |
| AppState.App.constructor | App.tsx:15-31 | a first visit starts from the seed books |
| AppState.App.ApplyStockChange | App.tsx:60-64 | the queued map over the inventory is the clamped adjustment |
| AppState.App.ProcessSaleImpact | App.tsx:41-80 | the pushed lines and the stock change are those of the engine |
| AppState.App.HandleAddSale | App.tsx:82-89 | the new state is AddSale, and a fresh id keeps the state valid |
| AppState.App.HandleUpdateSale | App.tsx:91-101 | the new state is UpdateSale, and validity is kept |
| AppState.App.HandleDeleteSale | App.tsx:103-110 | the new state is DeleteSale, and validity is kept |
| AppState.App.HandleAddTransaction | App.tsx:112-119 | the line carries the entry's fields and the new key, goes first, and keeps validity |
| AppState.App.DeleteTransaction | App.tsx:148 | removes the lines with the id and keeps validity |
| AppState.App.SetInventory | App.tsx:149 | the inventory is replaced and validity is kept |
| InventoryManager.SeedIsSound | App.tsx:28-29 | the seed catalogue has non-negative stock and prices of at least a cent |
| InventoryManager.AdjustKeepsSound | App.tsx:60-64 | the engine's stock adjustment keeps a sound catalogue sound |
| InventoryManager.FormErrors | components/InventoryManager.tsx:27-35 | each of the five messages appears exactly when its check fails, at most once, and none means the form is valid |
| InventoryManager.NewItem | components/InventoryManager.tsx:41-44 | the new item carries the id and every field of the form: name, SKU, category, quantity, minimum, price and cost |
| InventoryManager.HandleAddItem | components/InventoryManager.tsx:37-48 | an invalid form changes nothing; a valid one appends exactly the form's item with the id (SKU and minimum included), closes the form and resets it |
| InventoryManager.SafeQuantity | components/InventoryManager.tsx:52 | NaN or a negative quantity becomes 0, anything else is kept |
| InventoryManager.SafePrice | components/InventoryManager.tsx:53 | NaN or less than a cent becomes one cent, anything else is kept |
| InventoryManager.ApplyEdit | components/InventoryManager.tsx:50-58 | only the named field changes, to its sanitised value |
| InventoryManager.FieldUpdateSpec | components/InventoryManager.tsx:50-58 | only items with the id are edited; ids, order and length are kept |
| InventoryManager.FieldUpdateKeepsSound | components/InventoryManager.tsx:50-58 | every inline edit keeps a sound catalogue sound |
| InventoryManager.QuantityEditNonNegative | components/InventoryManager.tsx:52 | a quantity edit never leaves negative stock |
| InventoryManager.StockUpdateIsAdjust | components/InventoryManager.tsx:60-65 | with unique ids the -/+ buttons do exactly the engine's clamped adjustment |
| InventoryManager.StockUpdateKeepsSound | components/InventoryManager.tsx:60-65 | the stock buttons keep a sound catalogue sound |
| InventoryManager.DeleteItem | components/InventoryManager.tsx:279 | unconfirmed: no change; confirmed: every item without the id stays, none with it |
| InventoryManager.DeleteItemKeepsOrder | components/InventoryManager.tsx:279 | what is left keeps its order |
| InventoryManager.StatusLabel | components/InventoryManager.tsx:228 | "Reposição" exactly when stock is at or below the minimum, "OK" otherwise |
| InventoryManager.ItemCategories | components/InventoryManager.tsx:17-20 | each non-empty category once, strictly increasing |
| InventoryManager.ToggleCategory | components/InventoryManager.tsx:129 | clicking the selected category clears it, any other selects it |
| InventoryManager.FilteredInventory | components/InventoryManager.tsx:22-25 | no selection shows everything; a selection shows exactly its category's items |
| InventoryManager.FilteredInventoryOrder | components/InventoryManager.tsx:22-25 | filtered rows keep inventory order, and filtering again changes nothing |
| InventoryManager.CategoryButtonSelectsRows | components/InventoryManager.tsx:121-129 | every category button selects at least one row |
| SalesForm.InitialForm | components/SalesForm.tsx:11-19 | the empty manual form with quantity 1, Fortaleza, Stela and today |
| SalesForm.Shortfall | components/SalesForm.tsx:21-24 | the stock message fires exactly when a selected product has less than the parsed quantity |
| SalesForm.Errors | components/SalesForm.tsx:26-39 | each message appears exactly when its check fails (the description measured in UTF-16 code units after trimming), at most once, and none means the form is valid |
| SalesForm.ProductChange | components/SalesForm.tsx:41-53 | a found product sets the id, prices at unit price times quantity (1 when empty) and names the sale; otherwise id and amount are cleared |
| SalesForm.QtyChange | components/SalesForm.tsx:55-62 | the quantity is stored; with a product the amount is re-priced (empty as 0), else kept |
| SalesForm.ChosenProductIsPriced | components/SalesForm.tsx:41-62 | choosing a product then a quantity n prices the sale at unit price times n |
| SalesForm.Submit | components/SalesForm.tsx:64-87 | an invalid form submits nothing; a valid one submits the parsed fields, '' as no product, the day's midnight, and resets the form |
| SalesForm.SubmittedSaleNeverClamps | components/SalesForm.tsx:33-35 | a sale passing the stock check takes exactly its quantity off its product, so the clamp never acts |
| SalesForm.ManualSaleOnlyRevenue | components/SalesForm.tsx:74-75 | a manual sale books only revenue and leaves stock alone |
| FinanceForm.InitialForm | components/FinanceForm.tsx:10-16 | CUSTO_FIXO at Fortaleza, today, nothing typed |
| FinanceForm.Errors | components/FinanceForm.tsx:18-24 | each message appears exactly when its check fails (the description measured in UTF-16 code units after trimming), at most once, and none means the form is valid |
| FinanceForm.EmojiDescriptionAccepted | components/FinanceForm.tsx:22 | a description of two astral characters passes the three-character minimum, as it does in UTF-16 |
| FinanceForm.Submit | components/FinanceForm.tsx:26-39 | an invalid form submits nothing; a valid one submits the entry and clears only amount and description |
| FinanceForm.SubmitTwiceSubmitsOnce | components/FinanceForm.tsx:38 | the reset form is refused, so a second click submits nothing |
| FinanceForm.SubmittedEntryIsBooked | components/FinanceForm.tsx:26-39 | the entry becomes a manual line in front of the ledger with the same fields, and the books stay valid |
| SalesList.FilteredSales | components/SalesList.tsx:18-26 | exactly the sales in the day range and of the chosen salesperson |
| SalesList.FilteredSalesInOrder | components/SalesList.tsx:18-26 | the shown sales keep history order |
| SalesList.ClearedFilterShowsAll | components/SalesList.tsx:18-26 | no bounds and 'TODOS' show every sale |
| SalesList.TotalSplitsBySalesperson | components/SalesList.tsx:28-30 | the total over 'TODOS' is the sum of the three salespeople's totals |
| SalesList.ApplySaleEdit | components/SalesList.tsx:78-119 | the edited field changes and nothing else; id, product and quantity are never touched |
| SalesList.EditsKeepLine | components/SalesList.tsx:78-119 | any sequence of edits keeps id, product and quantity |
| SalesList.HandleEditSubmit | components/SalesList.tsx:32-38 | the edited sale is handed on when there is one, and the dialog closes |
| SalesList.ShownSaleIsFound | components/SalesList.tsx:32-38 | in valid books the shown sale is the one the engine finds by its id |
| SalesList.EditKeepsInventory | components/SalesList.tsx:32-38 | saving the dialog never moves stock |
| Dashboard.StoreData | components/Dashboard.tsx:19-27 | one row per store in enum order, with the store's sales and non-revenue ledger totals |
| Dashboard.OneRowPerStore | components/Dashboard.tsx:19-27 | every store has exactly one row |
| Dashboard.StoreSalesAddUp | components/Dashboard.tsx:21 | the three stores' sales add up to all sales |
| Dashboard.StoreExpensesAddUp | components/Dashboard.tsx:22-24 | the three stores' expenses add up to the ledger's expenses |
| Dashboard.StoreColumnsAddUp | components/Dashboard.tsx:19-27 | the chart's columns add up to all sales and to the expense card |
| Dashboard.ZeroTotals | components/Dashboard.tsx:31-32 | the seeded record has an entry for every category, each 0 |
| Dashboard.AddLine | components/Dashboard.tsx:35-37 | a line adds its amount to its own category's entry and to no other |
| Dashboard.CategoryTotals | components/Dashboard.tsx:31-38 | every category has an entry, equal to the sum of its lines |
| Dashboard.PositiveSlices | components/Dashboard.tsx:40-42 | exactly the positive entries, with their values, in enum order |
| Dashboard.CategoryData | components/Dashboard.tsx:30-43 | a slice for a category exactly when its total is positive, with that total, in enum order |
| Dashboard.ExpenseCategoriesAddUp | components/Dashboard.tsx:30-43 | the four expense categories add up to the expense card |
| Dashboard.CategoryTotalsAddUp | components/Dashboard.tsx:30-43 | RECEITA's slice is the revenue card, the other four the expense card, and all five the whole ledger |
| Dashboard.LowStockItems | components/Dashboard.tsx:67 | exactly the items at or below their minimum |
| Dashboard.LowStockInOrder | components/Dashboard.tsx:67 | the alert list keeps inventory order |
| Dashboard.NetProfit | components/Dashboard.tsx:69-70 | net profit is the signed ledger sum, and the two cards cover every line once |
| ProductReports.ReportSales | components/ProductReports.tsx:28-34 | exactly the sales with a product, within the day range |
| ProductReports.ProductIdsSpec | components/ProductReports.tsx:36-46 | the record gets one key per distinct product, exactly the products sold |
| ProductReports.StatsStep | components/ProductReports.tsx:48-51 | one sale adds its units, amount, cost at the current unit cost, and profit to its own product's row only |
| ProductReports.Accumulate | components/ProductReports.tsx:36-52 | the record's keys are the products in first-sale order, and each entry is that product's owed row |
| ProductReports.ReportData | components/ProductReports.tsx:24-55 | rows sorted by revenue descending, a permutation of the owed rows, one per product, covering every product sold in range |
| ProductReports.ReportRows | components/ProductReports.tsx:36-55 | any permutation of the owed rows has one row per product, each correct, covering every sold product |
| ProductReports.GroupMargin | components/ProductReports.tsx:48-51 | within a product's group the margins add to revenue less unit cost times units |
| ProductReports.TotalsMatchSales | components/ProductReports.tsx:57-63 | the cards' volume, revenue and profit equal sums over the sales in range |
| ConsolidatedReport.FilteredData | components/ConsolidatedReport.tsx:14-21 | the kept lines, newest first, each exactly as often as in the ledger |
| ConsolidatedReport.FilteredDataMembers | components/ConsolidatedReport.tsx:14-20 | a line is shown exactly when it is in the ledger and passes the filter |
| ConsolidatedReport.Summary | components/ConsolidatedReport.tsx:24-34 | income is the RECEITA total, expense the rest, balance their difference |
| ConsolidatedReport.TotalsIgnoreOrder | components/ConsolidatedReport.tsx:21 | sorting changes neither total |
| ConsolidatedReport.SummaryAccountsForAll | components/ConsolidatedReport.tsx:14-34 | the summary covers each kept line once and the balance is their signed sum |
| ConsolidatedReport.UnfilteredSummaryIsLedger | components/ConsolidatedReport.tsx:14-34 | with no filters the summary is the dashboard's revenue and expense cards |

## Left out

- Persistence to localStorage (App.tsx:15-39) is not modelled: the state is held in memory from the seed.
- The random ids (App.tsx:83, 115; components/InventoryManager.tsx:43) are parameters; their freshness is a precondition where validity is claimed.
- Tab switching, the sidebar, the list of ledger lines (FinanceList) and all rendering are not modelled.
- The dashboard's evolution chart (components/Dashboard.tsx:46-65) is not modelled: it groups by a locale-formatted date string.
- CSV export (InventoryManager, SalesList, ConsolidatedReport) and currency formatting are not modelled: they are output formatting.
- The per-product margin percentage (components/ProductReports.tsx:138-170) is not modelled: it is floating-point division for display.
- Floating-point money: amounts are integer cents, so rounding in `unitCost * quantity` and in sums is not modelled.
- `parseInt` and `parseFloat` are not modelled as string parsers: a numeric input carries its parsed value, `None` for NaN.
- `confirm()` before an inventory delete is a boolean parameter of `InventoryManager.DeleteItem`.
- The clock (`new Date()` in the forms' initial state) is a parameter `today`.
- The `isAdding` toggle of the inventory form is modelled only as part of `InventoryManager.HandleAddItem`'s outcome.
- SalesList.ApplySaleEdit: the amount field's `parseFloat` is taken as already a number; a NaN amount reaching the sale is not modelled.
- InventoryManager.ItemCategories: orders strings by character code point, whereas JavaScript's default sort compares UTF-16 code units; these differ only for characters outside the Basic Multilingual Plane.
- ProductReports.ReportData: states sorted-by-revenue and a permutation of the owed rows, not the particular order of ties, which depends on `Object.values` key order and the engine's sort.
- ConsolidatedReport.FilteredData: likewise states sorted-by-date and a permutation, not the order of lines with equal dates.
- SalesForm.Submit, FinanceForm.Submit, SalesList.ApplySaleEdit: the date is a picked day, so a cleared date input cannot be represented; `new Date('')` then `toISOString()` throws a RangeError in the source (components/SalesForm.tsx:73, components/FinanceForm.tsx:35, components/SalesList.tsx:87), and that exception is not modelled.
- Concurrency of React state updates is not modelled: each handler runs to completion, and its queued updaters apply in order.
