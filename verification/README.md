# Jewellery dashboard: trading desk, stock audit and inventory rules

This project models the client-side behaviour of a jewellery business dashboard. The dashboard covers a point-of-sale and gold-trading desk, a stock-take audit, market analytics, and the product, material and recipe screens of the inventory.

Every screen's state is an immutable record, and every event handler is a pure function from the state before to the state after. Monetary amounts and quantities are `real`.

Text-to-number conversion is a prefix parser that returns `Option` (`parseFloat`/`parseInt`). `None` stands for `NaN`, and `x || 0` becomes `GetOr(0)`.

Every call to the back-end service takes a `SubmitOutcome` parameter (`Succeeded` or `Failed`):
- The step records the request that was sent.
- It records the screen state once the call settled.
- A failed call that the source awaits without catching leaves the state as it was, because the statements after the `await` never run.

Modules:

- `Wrappers`: `Option`.
- `Parsing`: decimal prefixes as `parseFloat`/`parseInt` read them.
- `Entities`: the records the service returns, and the "Walk-in" default.
- `FieldRules`: the field checks the form schemas use.
- `TradeDesk`: the trading desk.
  - The cart of signed lines and its total.
  - The amount-paid field, which follows the total.
  - The debt/change classification.
  - Adding and removing lines, and switching mode.
  - The checkout payload.
- `StockAudit`: the stock-take.
  - Count entry.
  - Variance list, change flag and total variance.
  - The audit payload, sent in ascending id order.
  - Save.
- `Market`: the actual/forecast chart split, the current and predicted prices, and the projected profit.
- `RecipeDialog`: the add-component guard and request, and the recipe cost.
- `ProduceDialog`: quantity entry, the confirm guard, material consumption, and the production request.
- `ProductColumns`, `MaterialColumns`: the margin column, the low-stock flag, the stock value and the SKU placeholder.
- `AddProductDialog`, `AddMaterialDialog`, `EditMaterialDialog`: the three form schemas as predicates, with their defaults, input handlers and submit behaviour.
- `TradeHistory`: the ledger.
  - Receipt figures and the customer fallback.
  - The status badge and the mark-paid action.
  - The debt-only filter.

## Behaviour worth noting (the model follows the code)

- Adding to the cart takes the quantity as entered: zero and negative quantities are not rejected.
- The retail lookup searches the whole product catalogue. The select only offers products in stock, but the lookup does not check stock.
- Switching mode empties the cart and keeps the current selection. A product id left selected is then looked up among the materials in trade mode.
- The amount paid is overwritten with the total whenever the total changes. A typed amount does not survive adding or removing a line.
- Checkout clears the cart, the customer and the amount paid only after the submit resolves. If the submit fails, nothing is cleared.
- Checkout and the audit save clear state after the awaited call returns, not when the request is sent. Lines added, or counts typed, while the request is in flight are not in the payload. A successful submit then discards them, so they are never sent; they do not carry over to the next submit.
- The production handler has no guard of its own. Only the disabled button keeps quantities below 1 from being sent.
- The edit-material form validates the name, but it has no input for it. A material whose name is empty can never be updated through it.
- The add-material form has no input for the reorder level. The level is always its default of 10.

## Model

| member | source | states |
|---|---|---|
| Parsing.ParseFloat | src/routes/_authenticated/trade/index.tsx:119 | a number is read exactly when the text, after an optional sign, starts with a digit or with a point followed by a digit; a leading minus negates a non-negative value |
| Parsing.ParseInt | src/routes/_authenticated/inventory/-components/produce-dialog.tsx:60 | an integer is read exactly when a digit follows the optional sign; its sign follows the sign character |
| Parsing.ParseIntOfIntText | src/routes/_authenticated/inventory/-components/produce-dialog.tsx:60 | the decimal text of any integer, followed by anything that is not a digit, parses back to that integer, with either sign |
| Parsing.ParseFloatOfIntText | src/routes/_authenticated/trade/index.tsx:61 | the text the desk writes for a whole total reads back as the same number |
| Parsing.ParseFloatOfDecimalText | src/routes/_authenticated/trade/index.tsx:119 | a decimal with a fractional part, with any non-digit text after it, reads as its whole part plus the fraction its digits denote, with either sign |
| Parsing.ParseFloatOfSignedText | src/routes/_authenticated/trade/index.tsx:119 | text that does not start with a sign reads as the value of its unsigned prefix, and with a leading minus as the negated value |
| Parsing.UnsignedOfDecimalText | src/routes/_authenticated/inventory/-components/add-product-dialog.tsx:165 | any non-empty digit run, leading zeros included, then a point and fraction digits reads as the run's number plus the fraction, whatever non-digit text follows |
| Parsing.UnsignedOfDigitsText | src/routes/_authenticated/inventory/-components/add-product-dialog.tsx:185 | any non-empty digit run, leading zeros included, reads as the number it denotes |
| Parsing.UnsignedOfPointText | src/routes/_authenticated/inventory/-components/recipe-dialog.tsx:105 | a point followed by fraction digits, with nothing before it, reads as the fraction alone |
| Parsing.PointTextExample | src/routes/_authenticated/inventory/-components/recipe-dialog.tsx:105 | ".5" reads as 0.5 and "-.5" as -0.5 |
| Parsing.LeadingZeroExample | src/routes/_authenticated/inventory/-components/add-product-dialog.tsx:185 | "05" reads as 5 |
| Parsing.LeadingZerosDecimalExample | src/routes/_authenticated/inventory/-components/add-product-dialog.tsx:165 | "007.5" reads as 7.5 |
| Entities.CustomerOrWalkIn | src/routes/_authenticated/trade/index.tsx:123 | the customer name sent is never empty: the typed name when there is one, "Walk-in" otherwise |
| TradeDesk.ReduceTotal | src/routes/_authenticated/trade/index.tsx:59 | the left-to-right running sum equals the sum of quantity times price over every line, with no filtering by sign, and is 0 for an empty cart |
| TradeDesk.TotalAppend | src/routes/_authenticated/trade/index.tsx:59 | the total of two carts joined is the sum of their totals |
| TradeDesk.TotalPermutation | src/routes/_authenticated/trade/index.tsx:59 | two carts holding the same lines in any order have the same total |
| TradeDesk.DebtChangeExclusive | src/routes/_authenticated/trade/index.tsx:139-142 | debt and change are never both shown, and neither is shown exactly when the balance is within 0.01 of zero |
| TradeDesk.SettlementExamples | src/routes/_authenticated/trade/index.tsx:139-142 | against a total of 100, paying "60" leaves a debt of 40, "150" gives change of 50, and "100" settles |
| TradeDesk.FractionalSettlement | src/routes/_authenticated/trade/index.tsx:139-142 | a typed "99.5" counts as 99.5, so against a total of 100 it leaves 0.5 owing and shows debt |
| TradeDesk.Resync | src/routes/_authenticated/trade/index.tsx:60-62 | only the amount paid changes: it is overwritten with the new total when the total moved, and kept when it did not |
| TradeDesk.ResyncSettles | src/routes/_authenticated/trade/index.tsx:60-62 | after any change of total the balance is zero, so neither debt nor change shows |
| TradeDesk.FindById | src/routes/_authenticated/trade/index.tsx:68 | the lookup finds nothing exactly when no catalogue entry has the id; otherwise it returns the first entry with that id, as `find` does |
| TradeDesk.SelectableProducts | src/routes/_authenticated/trade/index.tsx:211-212 | the retail select offers exactly the catalogue's products that have stock left |
| TradeDesk.TradeLine | src/routes/_authenticated/trade/index.tsx:86-106 | a BUY line carries +qty and a SELL line -qty, both at minus the unit cost, so buying contributes -qty*cost and selling +qty*cost |
| TradeDesk.TradeSignRule | src/routes/_authenticated/trade/index.tsx:95-104 | for positive quantity and cost, a purchase is a cash outflow and a sale a cash inflow of the same size |
| TradeDesk.AddToCart | src/routes/_authenticated/trade/index.tsx:64-111 | with nothing selected, or an id missing from the current mode's catalogue, the desk is unchanged; otherwise exactly one line is appended, built from the first catalogue entry with the selected id as `find` returns it, and earlier lines are kept in order, and the selection and quantity are reset |
| TradeDesk.AddToCartTotal | src/routes/_authenticated/trade/index.tsx:59-81 | an add moves the total by exactly the new line's contribution, and the amount paid then follows the new total |
| TradeDesk.TypedAmountOverwritten | src/routes/_authenticated/trade/index.tsx:60-62 | a typed amount paid survives an add only when the total does not change |
| TradeDesk.Without | src/routes/_authenticated/trade/index.tsx:114 | the lines kept are exactly those whose id differs, and an absent id leaves the cart unchanged |
| TradeDesk.WithoutAppend | src/routes/_authenticated/trade/index.tsx:114 | removal commutes with concatenation, so the surviving lines keep their relative order |
| TradeDesk.RemoveFromCart | src/routes/_authenticated/trade/index.tsx:113-115 | removing a line id keeps exactly the other lines and changes nothing else on the desk but the amount paid, which follows the total |
| TradeDesk.SwitchMode | src/routes/_authenticated/trade/index.tsx:156-159 | either mode button sets the mode and empties the cart while keeping the customer, the selection and the quantity |
| TradeDesk.EnterAmountPaid | src/routes/_authenticated/trade/index.tsx:139-140 | typing an amount sets the balance to the total minus the parsed amount, or minus 0 when it does not parse |
| TradeDesk.PayloadLine | src/routes/_authenticated/trade/index.tsx:125-130 | each payload item carries exactly one of a product id and a material id, the one matching the line's kind, and the line's cash effect |
| TradeDesk.PayloadTotalIsTotal | src/routes/_authenticated/trade/index.tsx:125-130 | the amounts sent add up to the desk's total |
| TradeDesk.Checkout | src/routes/_authenticated/trade/index.tsx:117-137 | an empty cart sends nothing; otherwise the payload is built from the desk at the press and matches its cart line for line, with the mode, the defaulted customer and the parsed amount paid; a successful submit then clears the cart, the customer and the amount paid of the desk as it stands when the submit settles, keeping its mode, selection, quantity and action; a failed submit leaves that desk as it was |
| TradeDesk.InFlightLinesDiscarded | src/routes/_authenticated/trade/index.tsx:133-136 | lines added while a checkout is in flight are not sent, and a successful checkout discards them |
| TradeDesk.ConfirmSends | src/routes/_authenticated/trade/index.tsx:361 | whenever the confirm button is enabled, pressing it sends a payload that sums to the total |
| StockAudit.EditCount | src/routes/_authenticated/inventory/audit.tsx:38-46 | unparseable text leaves the counts unchanged; a parseable count sets that material's entry and keeps every other entry |
| StockAudit.Variances | src/routes/_authenticated/inventory/audit.tsx:53-66 | the variance list holds a line for exactly those listed materials that were counted at something other than their stock |
| StockAudit.VarianceArithmetic | src/routes/_authenticated/inventory/audit.tsx:59-64 | each variance line is its material's count minus its stock, costed at its unit cost |
| StockAudit.VariancesAppend | src/routes/_authenticated/inventory/audit.tsx:54 | the variance list follows material-list order |
| StockAudit.HasChanges | src/routes/_authenticated/inventory/audit.tsx:57-68 | saving is enabled exactly when some listed material was counted differently from its stock |
| StockAudit.ComputeStats | src/routes/_authenticated/inventory/audit.tsx:49-69 | the single pass yields the variance list, a change count equal to its length, and the change flag |
| StockAudit.TotalVarianceAppend | src/routes/_authenticated/inventory/audit.tsx:233-238 | the total variance of two lists joined is the sum of their totals |
| StockAudit.MatchingCountsNoVariance | src/routes/_authenticated/inventory/audit.tsx:57 | counts that all equal recorded stock give no variance, a zero total and no changes, even though they stay in the working set |
| StockAudit.AppliedCountsReconcile | src/routes/_authenticated/inventory/audit.tsx:57-64 | once the service has set every counted stock to its count, the same counts show no variance |
| StockAudit.AuditPayload | src/routes/_authenticated/inventory/audit.tsx:74-77 | the payload has exactly one item per counted entry, including counts equal to stock and ids not listed, each with its count, in ascending id order (the loop repeatedly takes the least remaining id, which exists because a non-empty finite set of integers has a least element) |
| StockAudit.Save | src/routes/_authenticated/inventory/audit.tsx:71-81 | nothing is sent without changes; otherwise every count touched at the press is sent; a successful submit empties the working set as it stands when the submit settles, and a failed one leaves it as it was |
| StockAudit.CountTypedInFlightLost | src/routes/_authenticated/inventory/audit.tsx:74-80 | a count typed for a new material while a save is in flight enters the working set but is not in the payload being sent, so the clearing after a successful save drops it unsent |
| StockAudit.ClearedCountsHaveNoChanges | src/routes/_authenticated/inventory/audit.tsx:80 | after a successful save there is no variance and nothing to apply |
| Market.ChartData | src/routes/_authenticated/market/index.tsx:48-62 | the chart has one point per input point with its price; the actual price is set exactly for historical or transition points and the forecast price exactly for forecast or transition points |
| Market.ChartPointsCovered | src/routes/_authenticated/market/index.tsx:57-59 | every point is on at least one line, and on both exactly at a transition point |
| Market.HistoryThenForecastJoin | src/routes/_authenticated/market/index.tsx:52-53 | for a history followed by a forecast, the two lines meet at the last historical point and nowhere else |
| Market.LastActualIndex | src/routes/_authenticated/market/index.tsx:41 | the search finds a historical point with only forecasts after it, or nothing when every point is a forecast |
| Market.CurrentPrice | src/routes/_authenticated/market/index.tsx:40-41 | the current price is that of the last historical point, or 0 when there is none |
| Market.NoForecastNoProfit | src/routes/_authenticated/market/index.tsx:40-46 | a series that ends on a historical point projects no profit |
| Market.CalculatorMatchesChart | src/routes/_authenticated/market/index.tsx:40-62 | for a history followed by a forecast, the current price is the price where the actual and forecast lines join, and the predicted price is the last point of the forecast line |
| RecipeDialog.HandleAdd | src/routes/_authenticated/inventory/-components/recipe-dialog.tsx:52-60 | without a material, or with a quantity that is not positive, nothing is sent; otherwise the product, material and quantity are sent, and the quantity returns to 0 only on success, the material staying chosen |
| RecipeDialog.NoAddBeforeQuantity | src/routes/_authenticated/inventory/-components/recipe-dialog.tsx:47-53 | from the opened dialog, and right after a successful add, nothing is sent until a positive quantity is entered |
| RecipeDialog.AddedComponentCost | src/routes/_authenticated/inventory/-components/recipe-dialog.tsx:62-66 | adding a component raises the recipe cost by exactly its cost, and a recipe still loading costs the same as an empty one: 0 |
| RecipeDialog.TotalRecipeCostNonNegative | src/routes/_authenticated/inventory/-components/recipe-dialog.tsx:62-66 | components with non-negative costs give a non-negative total |
| ProduceDialog.EnterQuantity | src/routes/_authenticated/inventory/-components/produce-dialog.tsx:60 | unparseable input becomes 0, parseable input its integer, and the dialog stays as open as it was |
| ProduceDialog.GarbageDisablesConfirm | src/routes/_authenticated/inventory/-components/produce-dialog.tsx:60-94 | input that does not parse, or parses to 0, leaves confirm disabled |
| ProduceDialog.ConsumptionScales | src/routes/_authenticated/inventory/-components/produce-dialog.tsx:77 | producing n units consumes n times what one unit consumes, and never a negative amount for a positive run |
| ProduceDialog.HandleProduce | src/routes/_authenticated/inventory/-components/produce-dialog.tsx:32-38 | the request carries the product and the current quantity; success closes the dialog with the quantity back at 1; a caught failure changes nothing |
| ProduceDialog.EnabledRequestsArePositive | src/routes/_authenticated/inventory/-components/produce-dialog.tsx:94 | a request made through the enabled button is for at least one unit |
| ProductColumns.MarginPercent | src/routes/_authenticated/inventory/products.tsx:86-90 | for a positive price the percentage times the price is 100 times the margin; otherwise it is 0, so nothing is divided by zero |
| ProductColumns.MarginPercentBounds | src/routes/_authenticated/inventory/products.tsx:89-90 | with a positive price and non-negative cost the percentage is at most 100, positive or zero exactly when the margin is, and 100 exactly when the cost is 0 |
| MaterialColumns.SkuLabel | src/routes/_authenticated/inventory/-components/column.tsx:21 | a missing or empty SKU shows as an em dash; any other SKU shows as itself |
| MaterialColumns.LowStockBoundary | src/routes/_authenticated/inventory/-components/column.tsx:42-45 | a material is low exactly when its stock is at most its reorder level, including at the level itself, and using stock never clears the flag |
| MaterialColumns.TotalValueNonNegative | src/routes/_authenticated/inventory/-components/column.tsx:70-72 | non-negative stock and cost give a non-negative value, and more stock is never worth less |
| AddProductDialog.DefaultsNeedOnlyNameAndSku | src/routes/_authenticated/inventory/-components/add-product-dialog.tsx:28-49 | the default values fail the product schema, and adding a name of two characters and a non-empty SKU is exactly what makes them pass |
| AddProductDialog.StockEntryValidity | src/routes/_authenticated/inventory/-components/add-product-dialog.tsx:34 | after typing a stock, the form is valid exactly when the other fields are and the text parses to a non-negative integer |
| AddProductDialog.UnparseableNumbersRejected | src/routes/_authenticated/inventory/-components/add-product-dialog.tsx:32-33 | typing an unparseable price or cost makes the form fail the schema |
| AddProductDialog.ClearedNumbersRejected | src/routes/_authenticated/inventory/-components/add-product-dialog.tsx:164-185 | clearing a price or cost field, or leaving only a sign or a point in it, makes the form fail the schema |
| AddProductDialog.EnterStockQuantity | src/routes/_authenticated/inventory/-components/add-product-dialog.tsx:206 | the stock field holds a whole number or nothing, and no other field changes |
| AddProductDialog.StockFieldStoresWholeNumbers | src/routes/_authenticated/inventory/-components/add-product-dialog.tsx:206 | the stock field only ever stores whole numbers ("2.5" is stored as 2), so the schema's whole-number rule, which rejects 2.5, never rejects typed input |
| AddProductDialog.Submit | src/routes/_authenticated/inventory/-components/add-product-dialog.tsx:53-61 | an invalid form sends nothing; a valid one sends its values with a non-negative price and cost and a whole non-negative stock; success closes and resets, and a caught failure keeps both the form and the dialog |
| AddMaterialDialog.DefaultsNeedOnlyName | src/routes/_authenticated/inventory/-components/add-material-dialog.tsx:27-50 | the defaults fail only for the missing name, whatever the SKU |
| AddMaterialDialog.StockEntryValidity | src/routes/_authenticated/inventory/-components/add-material-dialog.tsx:32 | after typing a stock, the form is valid exactly when the other fields are and the text parses to a non-negative number |
| AddMaterialDialog.ReorderLevelStaysDefault | src/routes/_authenticated/inventory/-components/add-material-dialog.tsx:34-49 | the numeric inputs never touch the reorder level, so its default of 10 always passes |
| AddMaterialDialog.Submit | src/routes/_authenticated/inventory/-components/add-material-dialog.tsx:54-61 | an invalid form sends nothing; a valid one sends every field unchanged except that an empty SKU is sent as none and a non-empty one as itself; success closes and resets, a failure keeps the form |
| AddMaterialDialog.SentMaterialsAreWellFormed | src/routes/_authenticated/inventory/-components/add-material-dialog.tsx:27-58 | every material sent has a name of at least two characters, non-negative quantities, and no SKU or a non-empty one |
| EditMaterialDialog.NameIsNeverEdited | src/routes/_authenticated/inventory/-components/edit-material-dialog.tsx:21 | no sequence of edits changes the name, so a material with an empty name can never pass the schema |
| EditMaterialDialog.UneditedValidity | src/routes/_authenticated/inventory/-components/edit-material-dialog.tsx:17-22 | the unedited form is valid exactly when the material has a name and non-negative stock, cost and reorder level |
| EditMaterialDialog.OneCharacterName | src/routes/_authenticated/inventory/-components/edit-material-dialog.tsx:21 | a one-character name passes the update schema but fails the creation schema |
| EditMaterialDialog.Submit | src/routes/_authenticated/inventory/-components/edit-material-dialog.tsx:48-51 | an invalid form sends nothing; a valid one sends the material's own id with the edited values, and the dialog closes only on success |
| EditMaterialDialog.UneditedSubmitIsIdentity | src/routes/_authenticated/inventory/-components/edit-material-dialog.tsx:49 | submitting the unedited form asks for an update that leaves the material as it was |
| TradeHistory.ReceiptOf | src/routes/_authenticated/trade/history.tsx:37-39 | the receipt's paid figure plus the balance due equals the total |
| TradeHistory.ReceiptFigures | src/routes/_authenticated/trade/history.tsx:37-39 | for a balance between 0 and the total, the paid figure lies in the same range and equals the total exactly when nothing is due |
| TradeHistory.ReceiptRecoversPayment | src/routes/_authenticated/trade/history.tsx:38 | a transaction recorded with the desk's balance prints back the amount paid |
| TradeHistory.CustomerCell | src/routes/_authenticated/trade/history.tsx:67 | an empty customer shows as "Walk-in", the same default checkout sends |
| TradeHistory.MarkPaidMatchesBadge | src/routes/_authenticated/trade/history.tsx:95-134 | a row offers "Mark as Paid" for its own id exactly when its badge shows "Unpaid" with the row's balance; otherwise it shows "Paid" and offers nothing, as a completed transaction does |
| TradeHistory.DebtFilter | src/routes/_authenticated/trade/history.tsx:143-146 | a filter is requested exactly when the toggle is on, and it admits exactly the pending transactions; with the toggle off every transaction is admitted |
| TradeHistory.DebtViewIsActionable | src/routes/_authenticated/trade/history.tsx:95-146 | if the service returns only rows that meet the requested filter, every row of the debt-only view shows "Unpaid" with its balance and offers "Mark as Paid" |

## Left out

- Rendering: markup, styling, charts, icons, toasts and the loading placeholders are not behaviour and are not modelled.
- Data fetching: query hooks, the HTTP client, cache invalidation and request paths are not modelled. Catalogues, recipes and price series are taken as already loaded, and each service call is reduced to its request plus a success-or-failure outcome.
- Server-side effects are not part of this repository. The model does not decide any of them, except by the stated assumptions in the last item below:
  - stock adjustments after a transaction, an audit or a production run;
  - the COMPLETED/PENDING status and the recorded balance;
  - recipe cost calculation.
  - `StockAudit.ApplyCounts`, `TradeHistory.ReceiptRecoversPayment`, `TradeHistory.DebtViewIsActionable`, `EditMaterialDialog.ApplyUpdate` and `EditMaterialDialog.UneditedSubmitIsIdentity` state what follows if the service behaves as the screens expect. They assume that it applies counts, records the desk's balance, and returns only rows that meet the status filter. They also assume that a material update keeps the SKU, category and unit and overwrites the four fields sent. Nothing in the repository guarantees any of it.
- Authentication, routing, the login and signup forms and their schemas are session plumbing and are not modelled.
- Floating point: amounts are exact reals. IEEE rounding, `NaN` arithmetic (such as a `NaN` quantity passing a `<= 0` test) and display formatting (`toFixed`, currency formatting) are left out.
- Parsing.ParseFloat: the contract fixes which texts parse and their sign. Values are pinned at the level of `ParseFloat` only for canonical digits (`ParseFloatOfIntText`, `ParseFloatOfDecimalText`) and for the texts in `PointTextExample`, `LeadingZeroExample` and `LeadingZerosDecimalExample`. For other digit runs, including leading zeros and a bare fraction, the value is stated in two steps. `UnsignedOfDecimalText`, `UnsignedOfDigitsText` and `UnsignedOfPointText` give the unsigned value, and `ParseFloatOfSignedText` carries it to `ParseFloat` with either sign. `ParseFloat` does not accept exponents, `Infinity` or leading whitespace, which `parseFloat` does. The number inputs rarely produce them.
- Parsing.ParseInt: does not accept leading whitespace.
- TradeDesk.PaidField: the text the desk writes with `total.toString()` is modelled as `Synced(total)`, which reads back as the total. The exact digits of JavaScript's number-to-text conversion are not modelled.
- Line ids come from `Math.random()` in the source. The model takes the fresh id as a parameter and does not model collisions.
- StockAudit.AuditPayload: orders items by ascending id, which is how a JavaScript object enumerates non-negative integer keys. Negative ids, which such an object enumerates in insertion order instead, are not distinguished.
- Form schemas measure string length in Unicode scalar values, while the source counts UTF-16 code units. The two differ only for characters outside the Basic Multilingual Plane.
- Concurrency: an in-flight request appears as the `pending` flag that disables a button, and checkout and save take the screen state at the moment the call settles as a parameter, so edits made meanwhile are modelled there. `RecipeDialog.HandleAdd`, `ProduceDialog.HandleProduce` and the three dialog `Submit`s treat the form at the press as the form when the call settles, so edits made while those requests are in flight are not modelled. The recipe "Add" button has no pending guard (recipe-dialog.tsx:109). Two overlapping requests are not modelled.
- Market: the percentage change next to the calculator divides by a value that can be zero and is left out. The model accuracy figure, dates and the "Today" marker are display-only.
- Receipt printing: the print window is left out; only the receipt's figures are modelled.
- Recipe component removal and the remaining catalogue, material and product tables are outside the modelled core.
