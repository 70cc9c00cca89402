# StockSight dashboard rules in Dafny

StockSight is a React inventory and sales dashboard. Most of its code fetches
JSON from a Flask backend and renders tables and charts. Inside the components
are a number of pure rules, and this project models those rules as total Dafny
functions over immutable records and sequences, and proves what they promise:

- the reorder-point advisor and the forecast chart merge of the item details
  modal;
- the forecast page's summary metrics: growth, confidence, trends, the top
  product and the "Top Growth Product" merge;
- the dashboard aggregations: low stock, the five best sellers, status counts,
  quarter tick labels and the sector chart pivot;
- the sales and purchase-order list filters, the add-sale form, and approving
  and deleting orders;
- the sign-up password rule and error messages, the profile save checks, the
  purchase-order SKU lookup, and the add-item form's unsaved-changes flag.

JavaScript numbers are exact `real`s, and quantities and reorder points are
`int`s. `Math.ceil` and `Math.floor` are `Floor` on reals. A mean of an empty
series, which JavaScript computes as `0 / 0 = NaN`, is `None`. Strings are
`seq<char>` with ASCII case mapping.

Files, one module each:

| file | module | models |
|---|---|---|
| text.dfy | `Text` | `toLowerCase`/`toUpperCase`, `trim`, `includes`, `indexOf`, `Option` |
| seqs.dfy | `Seqs` | `Array.filter`, subsequences, the stable `Array.sort`, `slice(0, n)` |
| series.dfy | `Series` | the `reduce` sums, means and the population variance |
| records.dfy | `Records` | inventory items and sales transactions |
| item_details.dfy | `ItemDetails` | src/components/ItemDetailsModal.tsx |
| forecast.dfy | `ForecastMetrics` | src/Forecast.tsx |
| dashboard.dfy | `Dashboard` | src/Dashboard.tsx |
| sales.dfy | `Sales` | src/Sales.tsx |
| purchase_orders.dfy | `PurchaseOrders` | src/Purchase_Order/PurchaseOrder.tsx |
| create_order.dfy | `CreateOrder` | src/Purchase_Order/CreatePurchaseOrder.tsx |
| signup.dfy | `Signup` | src/Login_SignUp/Signup.tsx |
| profile.dfy | `Profile` | src/Login_SignUp/Profile.tsx |
| add_item.dfy | `AddItem` | src/Inventory/AddItem.tsx |

Things the model takes as parameters:

- Date normalisation (`new Date(d).toISOString().split("T")[0]`) is a function
  parameter `isoDay`.
- `uuidv4()` is a parameter `id`.
- JavaScript's `Number(text)` is a parameter `toNumber`, where `None` stands
  for NaN.
- `Math.sqrt(variance)` is a parameter `sd`, required to satisfy `sd >= 0` and
  `sd * sd == variance`.
- The backend's replies are datatypes: a status and body, or no usable reply.
- A user's answer to `window.confirm` is a boolean parameter.

## Model

| member | source | states |
|---|---|---|
| ItemDetails.TimeFrameOf | src/components/ItemDetailsModal.tsx:115-119 | "week" selects the weekly fields, "month" the monthly ones, and every other name the yearly ones |
| ItemDetails.SalesValues | src/components/ItemDetailsModal.tsx:114-121 | one value per forecast point, in order, taken from the field of the selected time frame |
| ItemDetails.PredictedGrowth | src/components/ItemDetailsModal.tsx:123-142 | growth is 0 when either series is empty or the historical average is not positive; otherwise the historical average times (1 + growth) is the predicted average |
| ItemDetails.ClassifyBands | src/components/ItemDetailsModal.tsx:145-153 | `Classify`'s four categories partition the growth line at 0.2, 0.05 and 0 (high above 0.2, moderate above 0.05, stable from 0, declining below), and the category rank never decreases as growth increases |
| ItemDetails.Adjust | src/components/ItemDetailsModal.tsx:159-176 | the suggestion is at least 1; it is the ceiling of ×1.5, ×1.2 or ×1.05 by band, or max(1, floor(×0.9)) for negative growth; it is at least the current point when growth ≥ 0 and at most max(1, current) when growth < 0 |
| ItemDetails.AdjustMonotoneInGrowth | src/components/ItemDetailsModal.tsx:159-176 | for every current point, more growth never lowers the suggestion |
| ItemDetails.Suggest | src/components/ItemDetailsModal.tsx:101-193 | an error reply keeps the stored point (0 when missing); otherwise the growth is `PredictedGrowth` of the selected time frame's historical and predicted values, the point is `Adjust` of the current point by that growth and at least 1; the "insufficient forecast data" reason appears exactly when there are no prediction points, with growth 0 and the ×1.05 rule; otherwise the reason is the growth's category |
| ItemDetails.SuggestExamples | src/components/ItemDetailsModal.tsx:135-176 | 25% growth takes 10 to 15, −20% takes 10 to 9, and a stable 0 becomes 1 |
| ItemDetails.ChartLeTotalPreorder | src/components/ItemDetailsModal.tsx:265-271 | the (year, period) comparator is a total preorder, so the sort is well defined |
| ItemDetails.PrepareChart | src/components/ItemDetailsModal.tsx:198-274 | no forecast gives no rows; otherwise there are \|historical\| + \|prediction\| rows, a permutation of the mapped points |
| ItemDetails.PrepareChartOrdered | src/components/ItemDetailsModal.tsx:233-271 | the rows are sorted by (year, period); historical rows carry no prediction or bounds, and prediction rows carry bounds exactly when confidence intervals are on; points of the same period keep their input order |
| Series.Mean | src/Forecast.tsx:46 | the mean is undefined exactly for an empty series; otherwise mean × length equals the sum |
| Series.Variance | src/Forecast.tsx:47 | undefined exactly for an empty series; otherwise variance × n equals the sum of the squared deviations from the mean (the population variance, divided by n rather than n − 1) |
| Series.VarianceNonNegative | src/Forecast.tsx:47 | the population variance is never negative |
| Series.ConstantSeries | src/Forecast.tsx:46-47 | a constant series has that constant as its mean and variance 0 |
| ForecastMetrics.GrowthPercent | src/Forecast.tsx:40-42 | growth is 0 when the previous value is 0 or absent; otherwise growth × previous = (current − previous) × 100 |
| ForecastMetrics.GrowthExamples | src/Forecast.tsx:40-42 | 100→150 is +50%, 100→0 is −100%, 0→7 and a one-point series are 0% |
| ForecastMetrics.ScalingFactor | src/Forecast.tsx:50-63 | 3 exactly for "week", 8 exactly for "year", and 5 for every other name |
| ForecastMetrics.DataPointFactor | src/Forecast.tsx:69 | min(1, n/10): between 0 and 1, 0 exactly for no points, 1 exactly from ten points on |
| ForecastMetrics.CoefficientOfVariation | src/Forecast.tsx:66 | sd / mean when the mean is a positive number, otherwise 1 (including the NaN mean of an empty history); never negative |
| ForecastMetrics.Confidence | src/Forecast.tsx:69-70 | with penalty p = cv × scale × 100 × dataPointFactor: 100 when p ≤ 0, 0 when p ≥ 100, and 100 − p in between, so always in [0, 100] |
| ForecastMetrics.ConfidenceExamples | src/Forecast.tsx:69-70 | cv 0.1 at scale 5 over ten points gives 50; cv 0.1 at scale 3 over five points gives 85; cv 0.5 at scale 8 over ten points gives 0 |
| ForecastMetrics.ConfidenceMonotoneInScale | src/Forecast.tsx:50-70 | for a non-negative cv, a larger scaling factor never gives a higher confidence |
| ForecastMetrics.ConfidenceByTimeFrame | src/Forecast.tsx:50-70 | for the same variability and points, year confidence ≤ month confidence ≤ week confidence |
| ForecastMetrics.ConfidenceProperties | src/Forecast.tsx:69-70 | confidence is 100 when cv is 0 or there are no points, and it does not increase as cv grows |
| ForecastMetrics.SalesConfidence | src/Forecast.tsx:45-70 | the confidence of a series lies in [0, 100], and is 100 for a one-point series, whose history is empty |
| ForecastMetrics.SalesConfidenceExample | src/Forecast.tsx:45-70 | the history [10, 30] (mean 20, standard deviation 10) gives 70 for weeks, 50 for months and 20 for years, whatever the prediction point |
| ForecastMetrics.SalesConfidenceIgnoresPrediction | src/Forecast.tsx:45 | the final point is excluded: two series with the same history have the same confidence whatever their prediction point |
| ForecastMetrics.SalesConfidenceMonotone | src/Forecast.tsx:66-70 | for the same time frame and number of points, a history with a larger coefficient of variation never has a higher confidence |
| ForecastMetrics.ConstantHistoryFullConfidence | src/Forecast.tsx:45-70 | a constant positive history has standard deviation 0 and confidence 100 |
| ForecastMetrics.SalesMetrics | src/Forecast.tsx:39-92 | no metrics for no values; otherwise three metrics: predicted sales with badge \|growth\|, trend up and colour success iff growth ≥ 0, and trend down and colour danger iff growth < 0; the growth, with the same trend and colour rule; the growth and confidence cards carry no percentage badge; and the confidence, equal to `SalesConfidence` of the values, whose `ConfidenceBadge` is up/success above 70, neutral/warning in (40, 70] and down/danger at 40 or below |
| ForecastMetrics.ProfitMetrics | src/Forecast.tsx:104-127 | two metrics: predicted profit with badge \|growth\|, trend up and colour success iff growth ≥ 0, and trend down and colour danger iff growth < 0; and the `MarginTrend` card, without a percentage badge, which is neutral (warning) exactly when growth is 0, up (success) exactly when it is positive and down (danger) exactly when it is negative |
| ForecastMetrics.TopIndex | src/Forecast.tsx:144-146 | the strict-`>` fold picks the first product that attains the largest predicted increase |
| ForecastMetrics.TopIndexExample | src/Forecast.tsx:144-146 | of two tied maxima the earlier one wins |
| ForecastMetrics.MergeTopGrowth | src/Forecast.tsx:149-163 | the list ends with exactly one "Top Growth Product" metric; the metrics before it are the other input metrics in order, each occurring exactly as many times as in the input |
| ForecastMetrics.MergeTopGrowthTwice | src/Forecast.tsx:149-163 | merging twice equals merging the second product once, so repeated merges never duplicate the metric |
| ForecastMetrics.ApplyTopProducts | src/Forecast.tsx:142-164 | no products leaves the metrics alone; otherwise the merged product is the first one with the largest predicted increase |
| Dashboard.LowStockItems | src/Dashboard.tsx:112-114 | an order-preserving subsequence holding every copy of each item with quantity ≤ 2 × reorder point and no other item |
| Dashboard.ShowWarningAfterWelcome | src/Dashboard.tsx:198-208 | the warning opens iff some item has quantity ≤ reorder point |
| Dashboard.WarningItemsAreListed | src/Dashboard.tsx:202-204 | with a non-negative reorder point, an item that triggers the warning is in the low-stock list |
| Dashboard.GroupDistinct | src/Dashboard.tsx:117-126 | the rows `Group` builds have pairwise distinct SKUs |
| Dashboard.GroupCoverage | src/Dashboard.tsx:117-126 | `Group` has a row for a SKU iff some sale has that SKU |
| Dashboard.GroupTotals | src/Dashboard.tsx:117-126 | each row of `Group` has as quantity the sum of the quantities sold for its SKU |
| Dashboard.GroupOrigins | src/Dashboard.tsx:117-126 | each row of `Group` copies the first sale of its SKU in every field except the quantity |
| Dashboard.TopSellingItemsOrdered | src/Dashboard.tsx:127-128 | `TopSellingItems` has at most five rows, in non-increasing quantity |
| Dashboard.TopSellingItemsTotals | src/Dashboard.tsx:117-128 | the shown rows have distinct SKUs, each with its total quantity |
| Dashboard.TopSellingItemsOrigins | src/Dashboard.tsx:116-123 | every shown row is a copy of the first sale of its SKU (same SKU, item name and other fields), differing at most in quantity, so no row is invented |
| Dashboard.TopSellingItemsOmitted | src/Dashboard.tsx:117-128 | a SKU left out of the table only happens when five rows are shown, each selling at least as much as that SKU |
| Dashboard.SalesActivity | src/Dashboard.tsx:131-137 | each of the four counters equals the number of transactions with that status; the counts add up to at most the number of sales, and exactly to it when every status is one of the four |
| Dashboard.FormatQuarterLabel | src/Dashboard.tsx:595-599 | `FormatQuarter` shows "YYYY Qn" as "Qn 'YY", and an empty label as "" |
| Dashboard.PivotRow | src/Dashboard.tsx:577-587 | row i has the key "quarter" plus exactly the categories of sectors that have a point i; a sector without a point i adds no key |
| Dashboard.PivotRowLastWriter | src/Dashboard.tsx:581-585 | a category holds the value at index i of the last sector of that category that has a point i |
| Dashboard.PivotRowQuarter | src/Dashboard.tsx:578-585 | "quarter" holds the first sector's quarter unless a sector of category "quarter" has a point i |
| Dashboard.Pivot | src/Dashboard.tsx:575-588 | no sectors give no rows; otherwise one row per point of the first sector |
| Sales.ApplyFilters | src/Sales.tsx:162-199 | the result is an order-preserving subsequence; every kept sale contains the search term (ignoring case) in its id, item name or customer name, and has the chosen status unless it is "all"; every sale passing all active filters is kept; no filters return the list unchanged |
| Sales.ApplyFiltersIsOneFilter | src/Sales.tsx:162-199 | the three successive filters equal one filter by the conjunction of the active conditions |
| Sales.FindIndex | src/Sales.tsx:203-205 | the position of the first inventory item with the SKU, or none exactly when no item has it |
| Sales.AddTransaction | src/Sales.tsx:201-238 | refusal order: unknown SKU, then quantity above stock (reporting the stock), then a blank customer name; an accepted sale is "pending", priced at selling price × quantity, with the form's fields |
| Sales.ItemSelect | src/Sales.tsx:332-339 | the SKU is stored; a known SKU sets the item name and makes the total price × quantity; an unknown one changes nothing else |
| Sales.QuantityChange | src/Sales.tsx:341-347 | the quantity is stored and only the total may change, becoming price × quantity when the SKU is known |
| Sales.ResetForm | src/Sales.tsx:322-330 | quantity 1, payment "cash", total 0, today's date and empty SKU, item name and customer |
| Sales.AcceptedTotalMatchesForm | src/Sales.tsx:225-237 | after either form handler, the total an accepted sale records is the total the form showed |
| Sales.ResetFormRejected | src/Sales.tsx:203-209 | a freshly reset form is refused as "select a valid item" unless some item has an empty SKU |
| PurchaseOrders.FilterOrders | src/Purchase_Order/PurchaseOrder.tsx:61-76 | an order-preserving subsequence holding every copy of each order whose reference, name or SKU contains the search (ignoring case) and whose status matches unless the filter is "all", and no other order |
| PurchaseOrders.FilterOrdersShowsAll | src/Purchase_Order/PurchaseOrder.tsx:61-76 | an empty search with "all" shows every order unchanged |
| PurchaseOrders.Approve | src/Purchase_Order/PurchaseOrder.tsx:89-95 | same length and order; orders with the reference become approved; all others are unchanged |
| PurchaseOrders.ApproveIdempotent | src/Purchase_Order/PurchaseOrder.tsx:89-95 | approving twice equals approving once |
| PurchaseOrders.ApproveCommutes | src/Purchase_Order/PurchaseOrder.tsx:89-95 | approvals of two references commute |
| PurchaseOrders.Delete | src/Purchase_Order/PurchaseOrder.tsx:114-116 | removes every order with the reference and keeps every copy of every other order, in order |
| PurchaseOrders.DeleteAfterApprove | src/Purchase_Order/PurchaseOrder.tsx:89-116 | deleting a reference after approving it gives the same list as deleting it directly |
| PurchaseOrders.ButtonsAfterApprove | src/Purchase_Order/PurchaseOrder.tsx:302-314 | `ApproveVisible` (a "Manager" and a pending order) never holds for an approved row; rows of other references keep their Approve button; no row's `DeleteVisible` (a "Manager") changes |
| Signup.Scan | src/Login_SignUp/Signup.tsx:23-24 | one pass records whether a lower-case letter, an upper-case letter, a digit and a special character occur, and whether every character is allowed |
| Signup.ValidatePassword | src/Login_SignUp/Signup.tsx:22-29 | null exactly for passwords the regular expression accepts (8 or more characters from [A-Za-z0-9@$!%*?&], with each of the four kinds present); otherwise the fixed message |
| Signup.RejectedPasswords | src/Login_SignUp/Signup.tsx:24 | shorter than 8 or containing a character outside the class (such as '#' or a space) is always refused |
| Signup.PasswordExamples | src/Login_SignUp/Signup.tsx:23-24 | "Abcdef1!" is accepted; "Abcdef1#", "Abc1!" and "abcdefg1!" are refused |
| Signup.BackendError | src/Login_SignUp/Signup.tsx:64-74 | precedence "Phone number taken", then "Email taken", then "Username already taken"; the message shown is never empty |
| Signup.BackendErrorPassesOtherMessages | src/Login_SignUp/Signup.tsx:72-73 | another backend message is shown as it is, and an empty one becomes "Signup failed. Please try again." |
| Signup.Submit | src/Login_SignUp/Signup.tsx:31-81 | an invalid password stops with the password message; otherwise an ok reply sends the code, a refusal shows the mapped backend message, and a missing message or no reply shows "An error occurred. Please try again." |
| Signup.RefusedPasswordSendsNothing | src/Login_SignUp/Signup.tsx:36-42 | with a refused password the outcome does not depend on any reply |
| Profile.CheckSave | src/Login_SignUp/Profile.tsx:59-77 | an edited e-mail is refused when blank after trimming, then when it has no '@'; then an edited username is refused when blank; passing means every edited field is acceptable |
| Profile.UpdatedUser | src/Login_SignUp/Profile.tsx:78-83 | the saved record takes name, e-mail and username from the edits and the access level from the stored user |
| Profile.Save | src/Login_SignUp/Profile.tsx:59-102 | a failed check alerts with that check's message and changes nothing; a delivered save alerts success, stores the updated user and closes both editors; a failed request alerts "Failed to update profile" and changes nothing |
| Profile.SavePreservesAccessLevel | src/Login_SignUp/Profile.tsx:59-96 | no save changes the access level; a save that went through stores an e-mail with '@' and a non-blank username for the fields that were edited |
| Profile.SaveAgain | src/Login_SignUp/Profile.tsx:94-96 | after a successful save, saving again passes the checks and stores the same user |
| CreateOrder.TypeSku | src/Purchase_Order/CreatePurchaseOrder.tsx:108-111 | the typed SKU is stored upper-cased; nothing else changes |
| CreateOrder.FindBySku | src/Purchase_Order/CreatePurchaseOrder.tsx:43-45 | the first item whose upper-cased SKU equals the key, or none exactly when there is no such item |
| CreateOrder.LookupName | src/Purchase_Order/CreatePurchaseOrder.tsx:41-50 | only the name can change; with an empty SKU or no match it stays; otherwise it becomes the name of the first item matching the upper-cased, trimmed SKU |
| CreateOrder.LookupNameIdempotent | src/Purchase_Order/CreatePurchaseOrder.tsx:41-50 | running the lookup effect again changes nothing |
| CreateOrder.TypedSkuFindsItem | src/Purchase_Order/CreatePurchaseOrder.tsx:41-50 | typing an item's SKU in any letter case finds that item or an earlier one with the same upper-cased SKU |
| CreateOrder.SubmitPayload | src/Purchase_Order/CreatePurchaseOrder.tsx:61-66 | the sent SKU is upper-cased; name, vendor and quantity pass through |
| CreateOrder.PayloadSkuAsTyped | src/Purchase_Order/CreatePurchaseOrder.tsx:61-66 | for a SKU typed into the form, upper-casing at submission changes nothing |
| AddItem.Change | src/Inventory/AddItem.tsx:21-26 | the named field takes the new text, every other field is unchanged, and the form becomes dirty |
| AddItem.ChangeBack | src/Inventory/AddItem.tsx:21-26 | editing a field back restores the form's contents |
| AddItem.Submit | src/Inventory/AddItem.tsx:29-57 | refused with the negative-number alert exactly when one of quantity, reorder point, cost price or selling price is a negative number, leaving the flag as it was; otherwise the flag is cleared, and the effect is "added" and leave for an ok reply, "Failed to add item." for a refused one, and nothing when the request threw |
| AddItem.Cancel | src/Inventory/AddItem.tsx:187-199 | the discard question is asked exactly when the form is dirty; the page is left iff the form is clean or the user confirms |
| AddItem.DirtyLifecycle | src/Inventory/AddItem.tsx:21-71 | a fresh form is left (by Cancel, reload or close) without a question; after an edit both the Cancel question and the leave-page prompt appear; after a submission each appears again exactly when the check refused it |

## Left out

- Network and storage: every `fetch`, HTTP status handling beyond the reply
  datatypes, `localStorage`, the auth flag, routing and the `loading` flags.
  They carry no logic beyond which branch runs.
- Presentation: JSX, charts, `toFixed` and `toLocaleString`, help and welcome
  popups. Metric values are kept as numbers rather than formatted strings.
- src/Inventory/Inventory.tsx: its item delete (`prevItems.filter(item =>
  item.SKU !== sku)`, line 72) has the same shape as `PurchaseOrders.Delete`
  and is not modelled separately.
- Concurrency in src/Forecast.tsx: the three requests race, and the partial
  profit list can overwrite a merged "Top Growth Product" (line 130). Only the
  merge step is modelled.
- Floating point: numbers are exact reals, so IEEE rounding of `Math.ceil`,
  `Math.floor` and the ×1.05 / ×0.9 products is not reproduced.
- Series.Variance: the square root is not modelled; callers pass the standard
  deviation with `sd * sd == variance`.
- NaN from missing JSON fields is not modelled, except for the NaN mean of a
  one-point series, which is `None`.
- Sales.QuantityChange: the quantity is an `int`. A cleared quantity field
  gives `parseInt("")`, which is NaN (src/Sales.tsx:653); that input is not
  modelled.
- Sales.AddTransaction: for the same reason, a NaN quantity is not modelled.
  In JavaScript `NaN > stock` is false (src/Sales.tsx:212), so such a sale
  would be accepted with a NaN total (src/Sales.tsx:224).
- ItemDetails.Suggest: `ErrorReply` stands for a truthy `error` field. An
  `error` holding the empty string is falsy in JavaScript and takes the
  series path; that reply is not modelled.
- ItemDetails.PrepareChart: the chart's time key is the pair (year, period).
  The string `"year-period"`, its `split("-")` and `Number` round trip are
  not modelled, so a negative or non-numeric period is out of scope.
- Dashboard.SalesActivity: a status other than the four known ones makes
  JavaScript add a `NaN` entry under that key. The model ignores it, and only
  the four counters are modelled.
- Dashboard.FormatQuarterLabel: a label without a space gives
  `"undefined 'YY"` in the model, which matches JavaScript string
  interpolation. `FormatQuarterLabel` states only the well-formed case and the
  empty label.
- Dashboard.WarningItemsAreListed: with a negative reorder point a warning
  item need not be in the 2× list (quantity −1 with reorder point −1 is at
  its reorder point but above −2), so the lemma requires a non-negative
  reorder point.
- Sales date filter: `new Date(...).toISOString()` is the opaque parameter
  `isoDay`; time zones and invalid dates are not modelled.
- Sales status update and delete requests (`handleUpdateStatus`,
  `handleDeleteTransaction`) only send requests and refetch the list; they
  are not modelled.
- Unicode: case mapping and `trim` are ASCII (plus the ASCII whitespace
  characters); non-ASCII letters and Unicode spaces are not modelled.
- AddItem: `Number(text)` is the parameter `toNumber`; what it returns for a
  given string is not modelled.
- CreateOrder: the server's reply to the create request (its `error` text
  and the navigation) is not modelled.
- Signup.BackendError: a `message` field that is not a string is not
  modelled.
- Profile: the initial profile fetch and `handleChange` (a plain field
  update) are not modelled.
