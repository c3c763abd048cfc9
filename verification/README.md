# FlowChain models

FlowChain is a browser application for purchasing, inventory and supplier settlement. Most of it is
user interface; the parts that compute something are modelled here and their properties proved for all
inputs.

| Area | Modules |
|---|---|
| Demand forecasting | `ForecastModel` (what each method fits and projects), `ForecastEngine` (the loops of `runForecast`), `ForecastMethods` (fits and forecasts said of the history alone), `ForecastFigures` (the accuracy figures by their definitions), `ForecastExactness`, `ForecastAccuracy`, `ForecastSmoothing`, `ForecastScaling`, `ForecastUnits` (the theorems), `ForecastLaws` (the same as laws of what `runForecast` returns) |
| CSV | `Csv` (grammar, index loop, writer), `CsvRoundTrip`, `CsvTokens` (the reader against a stream of characters, cell ends and row ends), `CsvRecords` (header-keyed records and the import template), `CsvHeaders` (which column a header names, which rows become records) |
| Linked business records | `Relationships` (what is collected, duplicate removal, grouping), `RelationshipsWalkBack` (what each page links to, nothing lost), `RelationshipsBothWays` (links found again from the other end), `RelationshipsPages` (what each page shows, exactly), `RelationshipsOneWay` (records on which a link is not found again), `RelationshipsLimitations` (what is reported missing), `RelationshipsResolver` (the resolvers step by step), `RelationshipsFields` (which fields are read and compared), `RelationshipsCaptions` (the caption and group of each link) |
| Navigation | `PercentEncoding`, `Routes` (entity id to URL and back), `RouteLookup` (which route a path or an id finds), `Breadcrumbs`, `RecentPages` |
| Planning, matching, money | `Replenishment`, `InvoiceMatching`, `ImportValidation`, `ImportIssues` (what issues, levels and cells say), `CreditMemo` |
| Shared | `Numbers`, `Wrappers` (`Option`), `Text` (trimming as JavaScript does it) |

Code that the source writes as a loop over variables is a method with a loop, proved equal to a
specification function; the theorems are about that function. What that function gives is also said in
terms of the inputs alone: fields, positions and amounts, without any function the code shares. `fitted` and `seasonals[]` are arrays
updated in place, and the recent-pages list is a class. `dafny verify dfyconfig.toml` checks everything.

## What the proofs show about the code

- Holt-Winters gives a repeating history back under every choice of weights if and only if the history is
  all zero, or its first-season mean is at least 1 and no entry is below 0.0001 of that mean
  (`HoltWintersExactIff`). The two clamps in the loop are the reason, and they also make the method
  depend on the unit of measure (`HoltWintersIsNotUnitFree`). A repeating history it gives back in one unit
  is fitted alike in a k times smaller one, under all weights, if and only if k times its mean is at least 1
  (`RepeatingHistoryScalesIff`). For given weights, all histories whose mean is at least 1 in both units are
  fitted alike if and only if gamma is 0 or k is 1 (`WeightsScaleIff`). A single run scales step by step if
  and only if it never meets a biting clamp where demand and gamma are not 0 (`HwScalesIff`); that last
  condition is one on the run, the other two can be read off the request.
- Printing a matrix as CSV and reading it again gives the same matrix if and only if it has a row and no
  row is empty (`RoundTripIff`): quotes, commas, CR and LF in cells are all safe.
- A reference stored with white space around it is followed from an invoice to its order, because the
  resolver trims it, but not from the order to the invoice, because that direction compares with `===`
  (`PaddedReferenceIsOneWay`). `InvoiceOrderWalksBackIff` and `GrnOrderWalksBackIff` give the exact
  condition. Several other directions break because the two sides look at different fields; the table
  below lists them all. Duplicate removal never drops a link, even when ids contain the separator `:`.
- Every link to an inventory movement is reported as a record not found, although the record is there: the
  code for a missing record also stands for a missing detail page (`RecordNotFoundIff`,
  `MovementIsReportedMissing`).
- The recent-pages list holds exactly the visited pages that have been among the last eight distinct visits
  ever since their visit (`KeptIffNeverLeft`). Without closes that is the last eight; after a close a page
  that was cut off does not come back (`RecentListIsLastEightIff`, `CloseDoesNotRefill`).
- A breadcrumb over a registry with unique ids ends in the current page if the whole trail is visible and
  the home route is the root of its own module, as it is in the application's registry
  (`BreadcrumbEndsInRoute`). The general condition is
  `BreadcrumbEndsInRouteIff`; `NestedHomeIsNotLast` is a registry that does not meet it.
- Planning again after ordering the suggested quantity suggests nothing if and only if the projected stock
  was not negative, or nothing was missing, or the order also fills what was cut at zero
  (`SuggestionSettlesIff`). In the profile table and its defaults inbound stock is never negative, so there
  the first always holds (`SuggestionSettles`).
- An order without an amount puts no bound on the invoice matched to it (`ZeroOrderMatchesAnyTotal`). An
  invoice already matched stays matched when only its total moves out of tolerance (`AutoMatchIff`). A
  finding that was written back sticks exactly if neither its amount nor the total is 0
  (`FindingSticksIff`): then no later match makes the invoice automatic, whatever orders, receipts, other
  invoices, lines and references are corrected, as long as the total stays (`StepsKeep`). A finding over no
  amount can be cleared (`FindingOverNothingClears`).
- In `creditMemoTaxSummary` the fallback on the first line's item is never used: a linked invoice with a
  line always has a dominant rate.

### Which links are found again

Whether the page a link leads to shows the link's source, for different records that are listed under
unique ids. The lemmas named state the exact condition, or that the page shows it always or never.

| from | to | way back | shown by |
|---|---|---|---|
| order | item, supplier | always | `OrderItemWalksBack`, `OrderSupplierWalksBack` |
| order | request | if it is the one order the request shows | `OrderRequestWalksBackIff`, `SecondOrderIsOneWay` |
| order | RFQ | if the RFQ names the order | `OrderRfqWalksBackIff`, `SourceRfqIsOneWay` |
| order | invoice, receipt | if the first reference filled in there is the order | `InvoicePage`, `GrnPage` |
| request | item | always | `RequestItemWalksBack` |
| request | RFQ | always, for a unique RFQ id | `RfqPage` |
| request | order | if the order's first request reference is the request | `OrderPage` |
| RFQ | supplier, request | always | `RfqSupplierWalksBack`, `RfqRequestWalksBack` |
| RFQ | order | if the order's first RFQ reference is the RFQ | `OrderPage` |
| receipt | supplier | always | `GrnSupplierWalksBack` |
| receipt | order | if the order's id is stored unpadded | `GrnOrderWalksBackIff` |
| receipt | invoice | if the invoice's first receipt reference is the receipt | `InvoicePage` |
| receipt | item | never | `ItemListsNoReceipt`, `ReceivedItemIsOneWay` |
| invoice | supplier, item | always | `InvoiceSupplierWalksBack`, `InvoiceItemWalksBack` |
| invoice | order | if the order's id is stored unpadded | `InvoiceOrderWalksBackIff`, `PaddedReferenceIsOneWay` |
| invoice | receipt | if it names it as `relatedGrn`, or its order as `relatedPo` | `InvoiceGrnWalksBackIff`, `GrnFieldIsOneWay` |
| supplier | order, receipt, invoice, RFQ | if the name is stored there exactly so, for an RFQ as best supplier | `OrderPage`, `GrnPage`, `InvoicePage`, `RfqPage` |
| supplier | item | always, to the name as an order has it | `SupplierItemWalksBack` |
| item | supplier | if the item comes first on an order to the supplier | `ItemSupplierWalksBackIff`, `SecondItemIsOneWay` |
| item | order, request, invoice | if the order's first item, the request's item or a line of the invoice is the item exactly so | `OrderPage`, `RequestPage`, `InvoicePage` |
| item | RFQ | never | `RfqListsNoItem` |
| any | movement | never | `MovementHasNoPage` |

## Model

| member | source | states |
|---|---|---|
| ForecastEngine.RunForecast | src/domain/forecast/planning.ts:42-152 | for every history, method, parameter set and horizon the engine returns the result the theorems below are about: for an empty cleaned history zeros; else the settled method's own result, which for naive is the last usable entry in every period, for a moving average the mean of the last three, for smoothing the weighted sum, for Holt and Holt-Winters the error-corrected trend and season |
| ForecastEngine.RunNaive | src/domain/forecast/planning.ts:75-77 | the in-place loop fits every entry by its predecessor and the first by nothing, and forecasts the last entry for every period |
| ForecastEngine.RunSma | src/domain/forecast/planning.ts:78-85 | the loop fits and projects window means, and leaves the first window without a fit |
| ForecastEngine.RunSes | src/domain/forecast/planning.ts:86-93 | the running level is the recursive smoothing level at every step |
| ForecastEngine.RunHolt | src/domain/forecast/planning.ts:94-104 | the level and trend variables are the recursive state at every step |
| ForecastEngine.RunHoltWinters | src/domain/forecast/planning.ts:105-125 | the loop with its in-place array of seasonal indices runs through the recursive states, and projects through the slots (n+h-1) mod season |
| ForecastEngine.FitSeasons | src/domain/forecast/planning.ts:114-121 | one array slot changes a step, and level, trend and array together are the recursive state |
| ForecastEngine.Accuracy | src/domain/forecast/planning.ts:127-139 | the eight running sums are the sums over the scored entries |
| ForecastMethods.MethodsAreAsNamed | src/domain/forecast/planning.ts:69-125 | for each of the five methods, every history and horizon, each fit and each forecast is given in closed or recursive form over the history, in no terms of the engine's own projection |
| ForecastMethods.HoltWintersRunsByErrors | src/domain/forecast/planning.ts:107-121 | over every history the loop of three blends is the recursion that corrects level, trend and one index by the two errors, from the season means and ratios |
| ForecastMethods.EffectiveMethodIff | src/domain/forecast/planning.ts:69-73 | which method answers: Holt-Winters exactly with two full seasons, Holt exactly with two entries, smoothing else |
| ForecastMethods.SeasonIsRounded | src/domain/forecast/planning.ts:49 | the season is rounded down, is 2 at least, and 12 if it is 0 |
| ForecastMethods.PeriodsAreRounded | src/domain/forecast/planning.ts:50 | the number of periods is the horizon rounded down, and 0 for a negative one |
| ForecastMethods.SumIsAdditive | src/domain/forecast/planning.ts:78-85 | with the sum of a single entry this determines every sum a window or season mean is taken of |
| ForecastFigures.FiguresAreByDefinition | src/domain/forecast/planning.ts:127-152 | bias, mae, rmse, mape, wmape, smape, tracking signal and Theil's U are the textbook quotients of totals over exactly the entries with a fit and a demand, in increasing order |
| ForecastFigures.LoopTotals | src/domain/forecast/planning.ts:127-139 | the loop's eight running sums are the number of these entries and the seven totals over them |
| ForecastFigures.SignOfTotals | src/domain/forecast/planning.ts:130-146 | fits never above the demand give a total error equal to the total absolute error, fits never below it the negative of that: the error is demand less fit |
| ForecastLaws.NaiveForecastIsLastUsable | src/domain/forecast/planning.ts:75-77 | a naive request on a raw history with a usable entry forecasts the last usable entry for each of its periods |
| ForecastLaws.FiguresOfForecast | src/domain/forecast/planning.ts:127-152 | the figures returned for any raw request are by definition over the scored entries of the cleaned history |
| ForecastModel.CleaningIsStable | src/domain/forecast/planning.ts:26-30 | cleaning a history works entry by entry, keeps the order and changes nothing when done again |
| ForecastModel.CleaningKeepsUsable | src/domain/forecast/planning.ts:26-30 | cleaning keeps exactly the finite, non-negative entries, in order and unchanged |
| ForecastExactness.HoltIsExactOnLines | src/domain/forecast/planning.ts:94-104 | on a straight line a+b·i, whatever alpha and beta are, entry i is fitted by the next point of the line and period h is projected as max(0, a+b·(n-1+h)) |
| ForecastExactness.HoltTracksLine | src/domain/forecast/planning.ts:95-101 | the level follows the line and the trend stays b |
| ForecastExactness.HoltWintersIsExact | src/domain/forecast/planning.ts:105-125 | a repeating history whose clamps stay idle is fitted exactly and continued for every number of periods, whatever the weights are |
| ForecastExactness.StaysSteady | src/domain/forecast/planning.ts:107-119 | on such a history the loop keeps level at the mean, trend at 0 and all seasonal indices fixed |
| ForecastExactness.HoltWintersExactIff | src/domain/forecast/planning.ts:107-121 | a repeating history is fitted exactly under every choice of weights in 0..1 if and only if no clamp bites or it is all zero |
| ForecastAccuracy.AccuracyFiguresAreBounded | src/domain/forecast/planning.ts:127-152 | for every method and history: abs(bias) <= mae, mae² <= rmse² (Cauchy-Schwarz), abs(trackingSignal) <= number of scored entries, smape within 0..200 |
| ForecastAccuracy.CountIsScored | src/domain/forecast/planning.ts:130-134 | the loop's count is the number of entries that have a fit and are not zero |
| ForecastAccuracy.NaiveTheilIsOne | src/domain/forecast/planning.ts:75-77 | the naive method's theilU is 1 if some scored entry differs from its predecessor, else 0 |
| ForecastAccuracy.ZeroErrorIffExact | src/domain/forecast/planning.ts:130-141 | rmse is 0 if and only if every scored entry is fitted exactly |
| ForecastAccuracy.PercentFiguresWithin | src/domain/forecast/planning.ts:145-147 | mape and wmape lie in every range all the percentage errors lie in |
| ForecastSmoothing.SesClosedForm | src/domain/forecast/planning.ts:87-92 | the loop's level is the exponentially weighted sum of the history, and the weights add up to 1 |
| ForecastSmoothing.HoltCorrectsErrors | src/domain/forecast/planning.ts:95-101 | the two blends of a Holt step are one correction by the one-step error, over every history |
| ForecastSmoothing.HoltWintersCorrectsErrors | src/domain/forecast/planning.ts:114-121 | a Holt-Winters step corrects level and trend by the seasonally adjusted error and one index by its own error, and touches no other index |
| ForecastSmoothing.StartTrendIsSeasonalRise | src/domain/forecast/planning.ts:107-109 | the starting trend is the rise from the first season's mean to the second's, per period |
| ForecastSmoothing.AveragesStayWithinHistory | src/domain/forecast/planning.ts:75-93 | for naive, moving average and exponential smoothing (alpha in 0..1) every fit and every forecast lies in every range that holds the cleaned history |
| ForecastSmoothing.SesWithinIff | src/domain/forecast/planning.ts:86-93 | exponential smoothing keeps every history in its range if and only if alpha is in 0..1 |
| ForecastSmoothing.MovingAverageOfThree | src/domain/forecast/planning.ts:78-85 | with three entries or more the window is exactly the three entries before |
| ForecastScaling.ScaleLaw | src/domain/forecast/planning.ts:69-152 | multiplying the history by k > 0 multiplies fit, forecast, mae, bias by k and rmse² by k², and leaves mape, wmape, smape, trackingSignal and theilU alone; for Holt-Winters on the runs that do not see the unit |
| ForecastScaling.HwScalesIff | src/domain/forecast/planning.ts:107-119 | level, trend and indices scale at every step of a run if and only if the start clamp is idle in both units (or the first season is empty) and every step with demand and a gamma other than 0 has its clamp idle in both units |
| ForecastScaling.HwStepScalesIff | src/domain/forecast/planning.ts:114-119 | from any state, one step scales level, trend and indices if and only if gamma or the demand is 0 or the clamp on the level is idle in both units |
| ForecastScaling.FixedIndicesAreUnitFreeIff | src/domain/forecast/planning.ts:107-119 | with gamma 0 only the clamp at the start decides, which is a condition on the history |
| ForecastUnits.RepeatingHistoryScalesIff | src/domain/forecast/planning.ts:105-121 | a repeating history with idle clamps is fitted alike in the new unit under all weights if and only if k times its mean is at least 1 |
| ForecastUnits.WeightsScaleIff | src/domain/forecast/planning.ts:105-121 | for weights in 0..1, every history whose mean is at least 1 in both units is fitted alike if and only if gamma is 0 or k is 1 |
| ForecastScaling.FallbackScales | src/domain/forecast/planning.ts:69-73 | the scale law covers whatever method the downgrade rule settles on, for every request but a Holt-Winters one with two full seasons |
| ForecastScaling.HoltWintersIsNotUnitFree | src/domain/forecast/planning.ts:110-113 | a constant history of 2 is fitted by 2, but the same history in units four times as large is fitted by half its value |
| ForecastLaws.CleaningScales | src/domain/forecast/planning.ts:26-30 | cleaning commutes with a change of unit of the raw history |
| ForecastLaws.ForecastScales | src/domain/forecast/planning.ts:42-152 | the scale law for the result of the whole engine on raw histories, empty ones included |
| ForecastLaws.FiguresAreConsistent | src/domain/forecast/planning.ts:42-152 | for every raw history, method, parameter set and horizon: the bounds on bias, mae, rmse, trackingSignal and smape, rmse 0 exactly for an exact fit, and theilU 0 or 1 for the naive method |
| ForecastLaws.AveragesStayWithinRange | src/domain/forecast/planning.ts:69-93 | whenever a request ends in naive, moving average or exponential smoothing, fit and forecast stay in every range of the usable history |
| ForecastLaws.LinesAreContinued | src/domain/forecast/planning.ts:69-104 | whenever a request ends in Holt, also after a downgrade, a usable history on a line is continued along it |
| ForecastLaws.SeasonsAreContinued | src/domain/forecast/planning.ts:69-125 | whenever a request ends in Holt-Winters, a usable repeating history with idle clamps is given back and repeated |
| Csv.ParseCsvMatrix | src/lib/csv-import.ts:91-127 | the index loop reads what a recursive grammar of rows, cells and quoted stretches reads, on every text |
| CsvRoundTrip.ParseUndoesPrint | src/lib/csv-import.ts:48-54 | every non-empty matrix of non-empty rows, with any characters in its cells, is read back exactly as it was printed |
| CsvRoundTrip.RoundTripIff | src/lib/data-export.ts:16-22 | a matrix survives printing and reading if and only if it has a row and no row is empty |
| CsvRoundTrip.ReadingIsStable | src/lib/csv-import.ts:91-127 | for every text, reading, printing and reading again gives what the first reading gave |
| CsvRoundTrip.RowCount | src/lib/csv-import.ts:114-125 | the number of rows is one more than the line ends outside quotes (CR LF counted once), and no row is empty |
| CsvRoundTrip.PlainTextPrintsBack | src/lib/csv-import.ts:97-125 | a text without quotes is printed back unchanged but for its line ends becoming CR LF |
| CsvTokens.ParseIff | src/lib/csv-import.ts:91-127 | the matrix read is the one and only matrix of non-empty rows whose characters, cell ends and row ends are those of the text, where quoted separators are characters, a doubled quote is one and CR LF is one end |
| CsvTokens.MatricesAgree | src/lib/csv-import.ts:91-127 | two matrices of non-empty rows with the same characters, cell ends and row ends are equal |
| CsvTokens.WrittenCell | src/lib/data-export.ts:16-22 | a cell is written as it is unless it holds a quote, a comma or a line end, and then between quotes with its quotes doubled |
| CsvTokens.DoublingConcat | src/lib/data-export.ts:16-22 | quotes are doubled character by character |
| CsvRecords.ParseCsvText | src/lib/csv-import.ts:30-46 | the loops over rows and columns give the records of the filled rows after the first filled row; what a record holds, and under which column, is said by `ReadingMeans` and `CellOfColumn` |
| CsvRecords.FillRecord | src/lib/csv-import.ts:38-45 | the loop that fills one object gives the record of the row |
| CsvRecords.RecordMeaning | src/lib/csv-import.ts:38-45 | a record's keys are exactly the non-empty headers, and the last column under a header decides its value, trimmed, empty past the end of the row |
| CsvHeaders.HeaderNamesColumn | src/lib/csv-import.ts:5-28 | each spelling of the six columns, in lower case and without spaces or as it stands, is normalised to that column's name |
| CsvHeaders.AnyCaseAndSpacing | src/lib/csv-import.ts:24-28 | for any character-wise lower-casing that keeps spaces, a spelling names its column in any case and with any spaces around and within |
| CsvHeaders.OtherHeaderStands | src/lib/csv-import.ts:24-28 | a header that is none of the spellings is its own trimmed text |
| CsvHeaders.ColumnNamesItself | src/lib/csv-import.ts:5-28 | the name of a column is normalised to itself |
| CsvHeaders.TrimKeepsText | src/lib/csv-import.ts:25-26 | trimming takes away nothing that is left once all spaces are dropped |
| CsvHeaders.ReadingMeans | src/lib/csv-import.ts:30-46 | the first row with text gives the headers, every later row with text one record, in order; without such a row there is none |
| CsvHeaders.CellOfColumn | src/lib/csv-import.ts:24-46 | under a header that spells a column, last of its name, each record holds for that column the trimmed cell of its row, or nothing past the row's end |
| CsvHeaders.FilledIff | src/lib/csv-import.ts:32-37 | a row counts if and only if some cell holds more than white space |
| CsvRecords.TemplateIsMarkedMatrix | src/lib/csv-import.ts:48-54 | a template is a byte-order mark and the printed matrix of the headers and each sample's cells under them |
| CsvRecords.TemplateReadsBack | src/lib/csv-import.ts:24-54 | with usable headers (normalised names non-empty and distinct) and filled samples, the generated template, byte-order mark included, is read as one record a sample, in order, with exactly the normalised headers as keys and the trimmed cells as values |
| CsvRecords.TemplateKeepsCountIff | src/lib/csv-import.ts:30-54 | with any filled header row, the record count is the sample count if and only if no sample row is blank |
| Text.TrimKeepsInnerPart | src/lib/csv-import.ts:25-42 | trimming takes all white space off both ends and leaves the inner part unchanged |
| Text.SpacesByCode | src/lib/csv-import.ts:25-42 | the characters that count as white space, by code point |
| Relationships.PushEach | src/domain/relationships/resolver.ts:207-222 | a resolver loop pushes, in order, the links of exactly the rows its filter keeps, and knows whether there was one |
| RelationshipsResolver.ResolveForPo | src/domain/relationships/resolver.ts:175-225 | the pushes link an order to exactly its source request, source RFQ, first item, supplier, and the receipts, invoices and movements that refer to it; a request or RFQ that is not listed is marked not found; each of the four limitations is reported if and only if no link of that kind was pushed, and no other |
| RelationshipsResolver.ResolveForSku | src/domain/relationships/resolver.ts:227-255 | the pushes link an item to exactly its supplier and the orders (with their suppliers), requests, RFQs, movements and invoices that mention it, by the fields that `ItemPage` and `ItemListsSupplierIff` name; a missing balance is reported if and only if no inventory item has the SKU |
| RelationshipsResolver.ResolveForGrn | src/domain/relationships/resolver.ts:257-278 | the pushes link a receipt to exactly its order, supplier, line items, movements and the invoices that refer to it or its order; a missing invoice is reported if and only if none was linked |
| RelationshipsResolver.ResolveForInvoice | src/domain/relationships/resolver.ts:280-298 | the pushes link an invoice to exactly its order, receipt, supplier, line items and its own match; a missing order or receipt is reported if and only if none was linked |
| RelationshipsResolver.ResolveForSupplier | src/domain/relationships/resolver.ts:300-321 | the pushes link a supplier to exactly its orders (with their items), RFQs, receipts and invoices; the limitation is reported if and only if there is no link at all |
| RelationshipsResolver.ResolveForRfq | src/domain/relationships/resolver.ts:323-336 | the pushes link an RFQ to exactly its request, order and best supplier; a missing request is reported if and only if none was linked |
| RelationshipsResolver.ResolveForPr | src/domain/relationships/resolver.ts:338-351 | the pushes link a request to exactly its item, its RFQs and one order; the limitation is reported if and only if no order was linked |
| Relationships.UniqueRelationships | src/domain/relationships/resolver.ts:147-154 | the filter with its `seen` set keeps the first link of every id |
| Relationships.GroupRelationships | src/domain/relationships/model.ts:117-124 | the groups updated in place are, key by key, the links of that key in order |
| RelationshipsResolver.ResolveEntityRelationships | src/domain/relationships/resolver.ts:353-394 | the page shows exactly the links its resolver collected, without duplicates and grouped; the limitations of the links are added, and a record is reported not found if and only if the page's own is missing or a link shown has no record or leads to a movement |
| RelationshipsLimitations.RecordNotFoundIff | src/lib/businessLinks.ts:107-121 | among the limitations of a page, a record is reported not found if and only if the page's own record is missing or a link shown has no record or leads to a movement |
| RelationshipsLimitations.PagesWithoutLinks | src/domain/relationships/resolver.ts:353-382 | a page whose record is missing shows no link and reports only that; a missing route is reported exactly for a kind of record without a resolver |
| RelationshipsLimitations.OrderLinksFound | src/domain/relationships/resolver.ts:185-197 | on an order's page a link is found if and only if it has an id and, for a request or RFQ, a listed record with that id |
| RelationshipsLimitations.SkuLimitationIsExact | src/domain/relationships/resolver.ts:232-233 | a missing balance is reported if and only if no inventory item has the SKU |
| RelationshipsLimitations.GrnLimitationIsExact | src/domain/relationships/resolver.ts:272-273 | a missing invoice is reported if and only if the receipt links to none |
| RelationshipsLimitations.InvoiceLimitationsAreExact | src/domain/relationships/resolver.ts:285-290 | a missing order or receipt is reported if and only if the invoice links to none |
| RelationshipsLimitations.RfqLimitationIsExact | src/domain/relationships/resolver.ts:328-331 | a missing request is reported if and only if the RFQ links to none |
| RelationshipsLimitations.PrLimitationIsExact | src/domain/relationships/resolver.ts:344-349 | a missing order is reported if and only if the request links to none |
| RelationshipsWalkBack.IdsTellApart | src/domain/relationships/resolver.ts:122-128 | two links of one source with the same id string have the same relation and target, whatever characters their ids hold |
| RelationshipsWalkBack.DedupMembers | src/domain/relationships/resolver.ts:147-154 | what is kept was there, has distinct ids, and every id that was there is kept |
| RelationshipsWalkBack.DedupKeeps | src/domain/relationships/resolver.ts:147-154 | dropping duplicates neither adds nor removes any relation to any target |
| RelationshipsWalkBack.NothingLost | src/domain/relationships/resolver.ts:353-394 | an entity's page shows a link if and only if its resolver collected it |
| RelationshipsBothWays.OrderListsInvoiceIff | src/domain/relationships/resolver.ts:213-217 | an order's page lists exactly the invoices with a reference field holding the order's id as stored |
| RelationshipsBothWays.OrderListsGrnIff | src/domain/relationships/resolver.ts:207-211 | an order's page lists exactly the goods receipts with a reference field holding the order's id as stored |
| RelationshipsBothWays.InvoiceOrderWalksBack | src/domain/relationships/resolver.ts:285-288 | an invoice's link to an existing order is found again from the order when the references are stored trimmed |
| RelationshipsBothWays.GrnOrderWalksBack | src/domain/relationships/resolver.ts:262-263 | a goods receipt's link to an existing order is found again from the order when the references are stored trimmed |
| RelationshipsBothWays.InvoiceOrderWalksBackIff | src/domain/relationships/resolver.ts:213-217 | for a unique invoice id the way back exists if and only if a reference field is the order's id without trimming |
| RelationshipsBothWays.GrnOrderWalksBackIff | src/domain/relationships/resolver.ts:207-211 | for a unique receipt id the way back exists if and only if a reference field is the order's id without trimming |
| RelationshipsBothWays.PaddedReferenceIsOneWay | src/domain/relationships/resolver.ts:213-217 | a concrete pair of records linked from the invoice but not from the order |
| RelationshipsBothWays.OrderSupplierWalksBack | src/domain/relationships/resolver.ts:305-306 | an order's link to a supplier is always found again from the supplier |
| RelationshipsBothWays.GrnSupplierWalksBack | src/domain/relationships/resolver.ts:313-315 | a goods receipt's link to a supplier is always found again from the supplier |
| RelationshipsBothWays.InvoiceSupplierWalksBack | src/domain/relationships/resolver.ts:316-318 | an invoice's link to a supplier is always found again from the supplier |
| RelationshipsBothWays.RfqSupplierWalksBack | src/domain/relationships/resolver.ts:310-334 | an RFQ's link to its best supplier is always found again from the supplier |
| RelationshipsBothWays.RfqRequestWalksBack | src/domain/relationships/resolver.ts:328-347 | an RFQ's link to an existing purchase request is always found again from the request |
| RelationshipsBothWays.OrderItemWalksBack | src/domain/relationships/resolver.ts:199-241 | an order's link to its item is always found again from the item |
| RelationshipsBothWays.RequestItemWalksBack | src/domain/relationships/resolver.ts:242-345 | a purchase request's link to its item is always found again from the item |
| RelationshipsBothWays.GrnListsInvoiceIff | src/domain/relationships/resolver.ts:272-276 | a receipt's page lists exactly the invoices whose `relatedGrn` is its id or whose `relatedPo` is its order, as stored |
| RelationshipsBothWays.InvoiceGrnWalksBackIff | src/domain/relationships/resolver.ts:272-290 | for a unique invoice id the way back from an invoice's receipt exists if and only if the invoice refers to it in one of these two fields |
| RelationshipsBothWays.GrnFieldIsOneWay | src/domain/relationships/resolver.ts:272-290 | a concrete pair of records linked from the invoice, by its `grn` field, but not from the receipt |
| RelationshipsBothWays.OrderRequestWalksBackIff | src/domain/relationships/resolver.ts:180-348 | the way back from an order's request exists if and only if the request's own `linkedPo` is the order or, without one, the first order naming the request is |
| RelationshipsBothWays.RequestShowsOneOrder | src/domain/relationships/resolver.ts:344-348 | a request shows one order at most |
| RelationshipsPages.OrderPage | src/domain/relationships/resolver.ts:175-225 | an order's page shows a request, RFQ, item or supplier if and only if it is the first one its fields name, and a movement if and only if its `relatedPo` is the order |
| RelationshipsPages.GrnPage | src/domain/relationships/resolver.ts:257-271 | a receipt's page shows exactly the first order and supplier its fields name, the items on its lines, and the movements whose `relatedGrn` or `sourceDocument` it is |
| RelationshipsPages.InvoicePage | src/domain/relationships/resolver.ts:280-295 | an invoice's page shows exactly the first order, receipt and supplier its fields name and the items on its lines |
| RelationshipsPages.RfqPage | src/domain/relationships/resolver.ts:323-336 | an RFQ's page shows exactly the first request and order its fields name and its best supplier |
| RelationshipsPages.RfqListsNoItem | src/domain/relationships/resolver.ts:323-336 | an RFQ's page shows no item |
| RelationshipsPages.RequestPage | src/domain/relationships/resolver.ts:338-347 | a request's page shows exactly its first item and the RFQs whose first request reference it is |
| RelationshipsPages.SupplierPage | src/domain/relationships/resolver.ts:300-318 | a supplier's page shows exactly the orders, receipts and invoices with its name, and the RFQs with it as `bestSupplier` or among `supplierNames`, all compared without case and outer spaces |
| RelationshipsPages.SupplierListsItemIff | src/domain/relationships/resolver.ts:305-309 | a supplier's page shows exactly the first items of its orders |
| RelationshipsPages.ItemPage | src/domain/relationships/resolver.ts:238-253 | an item's page shows exactly the orders and requests that mention it, the movements whose `sku` it is, the invoices with such a line, and the RFQs that mention it or whose title includes it |
| RelationshipsPages.ItemListsSupplierIff | src/domain/relationships/resolver.ts:234-241 | an item's page shows exactly the supplier of the item in stock and the suppliers of the orders that mention it |
| RelationshipsPages.ItemListsNoReceipt | src/domain/relationships/resolver.ts:227-255 | an item's page shows no goods receipt |
| RelationshipsPages.MovementHasNoPage | src/domain/relationships/resolver.ts:380-382 | the page of a movement shows no link |
| RelationshipsFields.FirstOfIs | src/domain/relationships/resolver.ts:35-41 | the text read from a list of fields is the first one that is neither missing, blank nor a dash, trimmed; with none it is empty |
| RelationshipsFields.OrderSkuIs | src/domain/relationships/resolver.ts:182-308 | the item of an order is its `sourceSku`, or else the `sku` of its first line |
| RelationshipsFields.MatchesSkuIff | src/domain/relationships/resolver.ts:156-169 | a record mentions an item if and only if the item is not blank and one of `sourceSku`, `sku`, `itemSku` or a line's `sku` is the same without case and outer spaces |
| RelationshipsFields.FindIsFirst | src/domain/relationships/resolver.ts:353-378 | a page's own record is the first listed one with its id, if there is one |
| RelationshipsFields.FindItemIsFirst | src/domain/relationships/resolver.ts:232-236 | the item in stock is the first whose SKU is the same without case and outer spaces |
| RelationshipsFields.OrderReferences | src/domain/relationships/resolver.ts:207-217 | invoices and receipts refer to an order by `relatedPo`, `po` or `poId`, as stored |
| RelationshipsCaptions.LinksAreCaptioned | src/domain/relationships/resolver.ts:175-351 | on every page each link has the caption a table gives for its page, relation and kind, and, but on an order's page, is found if it has an id |
| RelationshipsCaptions.LineIsFound | src/domain/relationships/resolver.ts:266-294 | a line item of a receipt or an invoice is found if and only if its `sku`, or else its `itemName` or `name`, holds text, for a name other than a dash |
| RelationshipsCaptions.GroupHoldsCaption | src/domain/relationships/model.ts:117-124 | a page's group of a caption holds exactly the links shown whose page, relation and kind have it in the table |
| RelationshipsPages.InvoiceItemWalksBack | src/domain/relationships/resolver.ts:251-295 | an invoice's link to an item on its lines is always found again from the item |
| RelationshipsPages.SupplierItemWalksBack | src/domain/relationships/resolver.ts:238-309 | a supplier's link to an item is always found again from the item, to the name as an order has it |
| RelationshipsPages.OrderRfqWalksBackIff | src/domain/relationships/resolver.ts:192-332 | the way back from an order's RFQ exists if and only if the RFQ names the order itself |
| RelationshipsPages.ItemSupplierWalksBackIff | src/domain/relationships/resolver.ts:238-309 | the way back from an item's supplier exists if and only if the item comes first on an order to that supplier |
| RelationshipsOneWay.SecondItemIsOneWay | src/domain/relationships/resolver.ts:238-309 | a concrete order whose second item names the supplier but is not named by it |
| RelationshipsOneWay.ReceivedItemIsOneWay | src/domain/relationships/resolver.ts:238-268 | a concrete receipt that names an item but is not named by it |
| RelationshipsOneWay.SourceRfqIsOneWay | src/domain/relationships/resolver.ts:192-332 | a concrete order that names its RFQ but is not named by it |
| RelationshipsOneWay.SecondOrderIsOneWay | src/domain/relationships/resolver.ts:180-348 | a concrete request with two orders that both name it, of which it names the first only |
| RelationshipsOneWay.MovementIsReportedMissing | src/domain/relationships/resolver.ts:141-144 | a concrete page on which every record is there and one is reported as not found |
| RelationshipsLimitations.OrderLimitationsAreExact | src/domain/relationships/resolver.ts:185-217 | each of the four limitations of an order is reported if and only if there is no link of that kind |
| RelationshipsBothWays.GroupsConserveLinks | src/domain/relationships/model.ts:117-124 | every link is in the group of its own key, as often as it occurs, and in no other group |
| RelationshipsBothWays.GroupsKeepOrder | src/domain/relationships/model.ts:117-124 | grouping a concatenation concatenates the groups |
| RecentPages.RecentList.constructor | src/components/navigation/RecentPages.tsx:11-21 | a fresh mount shows at most eight of the stored pages, all of them registered, distinct if the stored ones are |
| RecentPages.RecentList.Visit | src/components/navigation/RecentPages.tsx:22-31 | a visit moves the page to the end and cuts to eight, memory and storage agree, forms change nothing, ids stay distinct |
| RecentPages.RecentList.Close | src/components/navigation/RecentPages.tsx:33-39 | closing removes that page and no other, memory and storage agree, ids stay distinct |
| RecentPages.UnboundedIsLastVisits | src/components/navigation/RecentPages.tsx:27 | over every run, moving to the end keeps exactly the visits no later event concerns, in order of last visit |
| RecentPages.BoundedVisits | src/components/navigation/RecentPages.tsx:24-31 | over every run of visits, cutting after each one equals the last eight of the uncut list |
| RecentPages.BoundedIsSuffix | src/components/navigation/RecentPages.tsx:24-41 | over every run with closes the list is a suffix of the last visits, has distinct ids and at most eight pages |
| RecentPages.KeptIffNeverLeft | src/components/navigation/RecentPages.tsx:24-41 | over every run with closes a page is in the list if and only if it was visited and has been among the last eight of the last visits ever since |
| RecentPages.RecentListIsLastEightIff | src/components/navigation/RecentPages.tsx:24-41 | over every run with closes the list is the last eight of the last visits if and only if none of these has left them since its visit |
| RecentPages.CloseDoesNotRefill | src/components/navigation/RecentPages.tsx:36-39 | after nine distinct visits and a close the list has seven pages although eight last visits remain |
| RecentPages.ReloadRestores | src/components/navigation/RecentPages.tsx:11-16 | what the component stored is what a fresh mount shows |
| RecentPages.RegisteredPageByPage | src/components/navigation/RecentPages.tsx:11-16 | every stored page is kept or dropped by its own id and path, and the kept ones stay in order |
| RecentPages.LastFewMeans | src/components/navigation/RecentPages.tsx:14-28 | eight pages or fewer are kept all, and of more the last eight |
| PercentEncoding.DecodeUndoesEncode | src/components/business/BusinessEntityDetailPage.tsx:74 | decoding the percent-encoded UTF-8 octets of any text gives the text back |
| PercentEncoding.EncodedIsPathSafe | src/components/business/businessEntityRoutes.ts:42-44 | an encoded id holds no slash, colon, question mark, hash or dollar, and is empty only for the empty id |
| PercentEncoding.EncodeConcat | src/components/business/businessEntityRoutes.ts:42-44 | text is encoded character by character |
| PercentEncoding.EncodedChar | src/components/business/businessEntityRoutes.ts:42-44 | a letter, digit or one of nine marks, listed by code point, stands for itself, and any other character is three characters for each of its octets |
| PercentEncoding.Utf8Two | src/components/business/businessEntityRoutes.ts:42-44 | a code point of two octets has the lead octet 192 + its upper bits and 128 + its lower six (RFC 3629, section 3) |
| PercentEncoding.Utf8Three | src/components/business/businessEntityRoutes.ts:42-44 | the same for three octets, with lead 224 |
| PercentEncoding.Utf8Four | src/components/business/businessEntityRoutes.ts:42-44 | the same for four octets, with lead 240 |
| PercentEncoding.OctetDigits | src/components/business/businessEntityRoutes.ts:42-44 | an octet is a percent sign and two upper-case hexadecimal digits, high half first |
| PercentEncoding.DecodingExamples | src/components/business/BusinessEntityDetailPage.tsx:74 | lower-case digits are read; overlong forms, surrogates, cut-off forms and codes out of range are errors |
| Routes.EntityPathFindsDetailIff | src/app/routeRegistry.tsx:2127-2140 | looking up an entity's path finds its detail route if and only if the id is non-empty and its encoding is not a registered literal sibling, which `SiblingIsFound` then finds |
| RouteLookup.LiteralPageIsFound | src/app/routeRegistry.tsx:2127-2133 | for every pathname, if some route has its path without the trailing slashes, the lookup is the first such route |
| RouteLookup.PatternPageIsFound | src/app/routeRegistry.tsx:2130-2140 | if none has it, the lookup is the first route with a colon that matches, and nothing exactly if there is none |
| RouteLookup.FoundRouteFits | src/app/routeRegistry.tsx:2127-2140 | what is found is registered and has the path, or matches it as a pattern when no route has it; a registered path is always found |
| RouteLookup.NormalizedIsNormal | src/app/routeRegistry.tsx:2127-2128 | the normalised path is the one prefix that only slashes follow and that ends in none, a single character staying as it is |
| RouteLookup.TrailingSlashesDoNotMatter | src/app/routeRegistry.tsx:2127-2140 | one more slash at the end finds the same |
| RouteLookup.SiblingIsFound | src/app/routeRegistry.tsx:2130-2140 | the path of an entity whose encoded id is a registered sibling finds the first route of that sibling |
| RouteLookup.MatchesIff | src/app/routeRegistry.tsx:2134-2138 | for patterns whose colons begin segments, a path matches if and only if it has as many segments and each equals its own or, for a name, is not empty |
| RouteLookup.RouteByIdIsFirst | src/app/routeRegistry.tsx:2142-2147 | an id finds the first route that has it, else the first with it as a legacy id, else nothing |
| Routes.EntityPathKeepsId | src/components/business/BusinessEntityDetailPage.tsx:74 | decoding the last segment of an entity's path gives the id back |
| Routes.DetailMatchesIff | src/app/routeRegistry.tsx:2134-2138 | of all paths, a detail pattern matches exactly its base with one more non-empty segment |
| Routes.MatchKeepsSlashes | src/app/routeRegistry.tsx:2134-2138 | a path that matches a pattern has as many segments as the pattern |
| Breadcrumbs.WalkUp | src/app/routeRegistry.tsx:2172-2177 | the while loop ends on every registry whose parent links can be ranked, and collects the chain from the root down |
| Breadcrumbs.BreadcrumbRoutes | src/app/routeRegistry.tsx:2170-2185 | the routes shown are those of home and chain that are visible and first with their id |
| Breadcrumbs.WalksEndIffRanked | src/app/routeRegistry.tsx:2142-2177 | the walk ends from every route of a registry if and only if its parent links, through ids and legacy ids, can be ranked |
| Breadcrumbs.ChainFollowsParents | src/app/routeRegistry.tsx:2172-2177 | the chain starts at a route without a parent, and each later route's parent is the one before it |
| Breadcrumbs.ParentMeans | src/app/routeRegistry.tsx:2142-2177 | the parent is the first route with the id named, or else the first with it as a legacy id, and there is none for an empty or unknown one |
| Breadcrumbs.BreadcrumbStart | src/app/routeRegistry.tsx:2178-2184 | outside the overview module a breadcrumb starts at a visible home, inside it at a visible root of the chain |
| Breadcrumbs.ChainIsDistinct | src/app/routeRegistry.tsx:2172-2177 | with unique ids no id occurs twice on a chain |
| Breadcrumbs.KeptIsSubsequence | src/app/routeRegistry.tsx:2180-2184 | a breadcrumb is the part of the trail at exactly the positions that are shown and first with their id, in the trail's order from the root down |
| Breadcrumbs.KeptIsDistinct | src/app/routeRegistry.tsx:2180-2184 | a breadcrumb repeats no id and shows nothing hidden and nothing from off the trail, on any registry |
| Breadcrumbs.BreadcrumbIsTrail | src/app/routeRegistry.tsx:2170-2185 | with all of it visible the breadcrumb is home and chain in full if and only if home is not prepended to a chain that already holds it |
| Breadcrumbs.BreadcrumbEndsInRouteIff | src/app/routeRegistry.tsx:2170-2185 | with all of it visible the breadcrumb ends in the route unless the route is home, has a parent and is of another module |
| Breadcrumbs.BreadcrumbEndsInRoute | src/app/routeRegistry.tsx:82-95 | with all of it visible and a home that is the root of its own module, as in the registry, the breadcrumb ends in the route |
| Breadcrumbs.NestedHomeIsNotLast | src/app/routeRegistry.tsx:2178-2184 | a concrete registry whose home sits below a route of another module, and whose breadcrumb ends one step above it |
| Replenishment.SuggestionIsLeastBatch | src/domain/inventory/planning.ts:17-21 | the suggestion is 0, or a batch multiple that covers shortfall and MOQ and is no larger than any other that does |
| Replenishment.ProjectionMeans | src/domain/inventory/planning.ts:38-40 | the projected stock is the quantity less what is allocated and on hold, plus what is inbound, cut at 0 after each of the two steps |
| Replenishment.CoverMeans | src/domain/inventory/planning.ts:38-41 | the days covered are the most whole days whose demand the projection meets, and 999 without demand |
| Replenishment.LevelsMean | src/domain/inventory/planning.ts:42-44 | the reorder point is the least whole number that covers the lead time's demand, rounded up, and the minimum; the target is half a month's demand, rounded up, more, at least twice the minimum, at most the maximum |
| Replenishment.SuggestionMeans | src/domain/inventory/planning.ts:45-46 | nothing is suggested at or above the reorder point or the target; below, the least number of whole batches that covers what is missing and the MOQ |
| Replenishment.PriorityMeans | src/domain/inventory/planning.ts:47-51 | high up to the minimum or the lead time, low above the reorder point and more than a week beyond the lead time, medium between |
| Replenishment.SuggestionSettlesIff | src/domain/inventory/planning.ts:38-46 | planning again with the suggested quantity inbound suggests 0 if and only if the projection was not negative, or nothing was missing, or the order reaches the reorder point or the target over what was cut |
| Replenishment.SuggestionSettles | src/domain/inventory/planning.ts:24-46 | with inbound stock of 0 or more, as in every profile, it always suggests 0 |
| Replenishment.CutProjectionDoesNotSettle | src/domain/inventory/planning.ts:40-46 | a concrete item with negative inbound stock for which more is suggested |
| Replenishment.MoreStockNeverRaises | src/domain/inventory/planning.ts:38-51 | more stock or inbound, or less allocated or on hold, never raises the suggestion or the priority |
| InvoiceMatching.CalculateInvoiceMatch | src/domain/procurement/invoice-matching.ts:59-125 | the ladder of reassignments finds, condition by condition over the listed orders, receipts, invoices and lines, all it says about the invoice (`FoundAsStated`): duplicates and missing orders held back, invoices waiting until the first receipt of that name has passed inspection, over-billed lines, recorded variances, and only then the tolerance; it gives the outcome of the one rule that applies before all others, and writing it back and matching again gives it again |
| InvoiceMatching.MatchFindsAsStated | src/domain/procurement/invoice-matching.ts:44-113 | type, amount, match status and status in each of the six cases, the order's amount (`totalAmount`, else `amount`, else 0) and the received amount, with every case stated over the data itself |
| InvoiceMatching.MatchedAutomaticallyIff | src/domain/procurement/invoice-matching.ts:65-112 | an invoice not matched before is matched automatically if and only if it is not flagged and no other listed invoice has its supplier and number, the first order of that number has an amount that agrees, the first receipt of that name has passed inspection, no line bills more than it received and no variance is recorded |
| InvoiceMatching.FindOrderIsFirst | src/domain/procurement/invoice-matching.ts:65 | the order is the first with that number, and missing exactly if none has it |
| InvoiceMatching.FindReceiptIsFirst | src/domain/procurement/invoice-matching.ts:66 | the same for the receipt |
| InvoiceMatching.OneRuleDecides | src/domain/procurement/invoice-matching.ts:85-113 | for every invoice and all data exactly one rule decides |
| InvoiceMatching.MatchIsIdempotent | src/domain/procurement/invoice-matching.ts:76-113 | writing the findings back and matching again finds the same |
| InvoiceMatching.AutoMatchIff | src/domain/procurement/invoice-matching.ts:82-113 | in terms of the rules: an invoice ends up automatically matched if and only if none of the rules before holds it back and, for an order with an amount, the total is within min(1000, 1%) of 1.13 times it; or it was so before and only the total is off |
| InvoiceMatching.RegisterSettles | src/modules/procurement/SupplierInvoiceRegister.tsx:128-144 | matching the rows of a register with unique ids one after another, in any order and any number of times, gives each row what it alone would have got at the start, and leaves every row's snapshot as it was |
| InvoiceMatching.RunsKeep | src/domain/procurement/invoice-matching.ts:76-113 | over every run of matches against changing orders, receipts and other invoices, the invoice's own document left alone, a recorded variance over a total other than zero stays recorded and is never matched automatically |
| InvoiceMatching.StepsKeep | src/domain/procurement/invoice-matching.ts:76-113 | over every run that also corrects the document between matches, in everything but a total other than zero, a recorded variance stays recorded and is never matched automatically |
| InvoiceMatching.CanBeCorrectedIff | src/domain/procurement/invoice-matching.ts:76-113 | some run of such corrections and matches ends in an automatic match of an unmatched invoice if and only if it has no recorded variance or its total is zero |
| InvoiceMatching.FindingSticksIff | src/domain/procurement/invoice-matching.ts:85-107 | a finding that was written back can be cleared by such a run if and only if its amount or the total is zero |
| InvoiceMatching.FindingOverNothingClears | src/domain/procurement/invoice-matching.ts:100-112 | a concrete over-billed invoice whose finding has the amount 0, and which is matched once the received quantity is corrected |
| InvoiceMatching.CanBeMatchedIff | src/domain/procurement/invoice-matching.ts:66-113 | with the document left alone, some later run, over whatever orders, receipts and other invoices, matches an unmatched invoice automatically if and only if it has no duplicate flag, names a receipt, is not over-billed, and has no recorded variance unless its total is zero |
| InvoiceMatching.ZeroOrderMatchesAnyTotal | src/domain/procurement/invoice-matching.ts:82-108 | with an order amount of zero every total is matched automatically |
| InvoiceMatching.TwinsAreBothRejected | src/domain/procurement/invoice-matching.ts:67-89 | of two listed invoices with the same supplier and number both are held back as duplicates for their full total |
| InvoiceMatching.ReceivedShareIsAShare | src/domain/procurement/invoice-matching.ts:50-55 | for any lines the received ratio is at most 1, and 1 if and only if there are lines and all are fully received; without negative receipts it is at least 0 |
| InvoiceMatching.LineShareMeans | src/domain/procurement/invoice-matching.ts:50-54 | a line's share is received against ordered quantity, all of it from there on and for nothing ordered; ordered 0 gives way to the billed quantity, a missing received quantity to the matched one, and that to 0 |
| InvoiceMatching.SharesAdd | src/domain/procurement/invoice-matching.ts:50-55 | every line's share counts once |
| InvoiceMatching.GrnAmountMeans | src/domain/procurement/invoice-matching.ts:48-57 | the received amount is the subtotal by the mean share to the nearest unit, halves up, and 0 without lines |
| InvoiceMatching.GrnAmountIsBounded | src/domain/procurement/invoice-matching.ts:48-57 | the received amount is at most the rounded subtotal, or at least it for a negative one; without negative receipts it lies between 0 and that; and it is all of it when everything is received |
| ImportValidation.ValidateImportRows | src/lib/excel/importValidationService.ts:39-76 | the loop with its one shared `seen` set gives each row the result that looks only at the rows before it, and counts the levels |
| ImportValidation.CheckFields | src/lib/excel/importValidationService.ts:46-63 | the loop over the fields collects the issues in order and replaces valid numbers |
| ImportValidation.CheckDuplicates | src/lib/excel/importValidationService.ts:64-70 | a token already seen means that an earlier row holds the value under the same key, and the set is extended for the rows after |
| ImportValidation.TokenIsInjective | src/lib/excel/importValidationService.ts:67 | a (key, value) token determines key and value, for the five keys and any value |
| ImportValidation.DuplicateIssuesAreExact | src/lib/excel/importValidationService.ts:64-70 | a row gets as many duplicate errors as there are keys of the schema whose value an earlier row holds |
| ImportValidation.DuplicateIssueIsListed | src/lib/excel/importValidationService.ts:64-70 | for each such key the error is listed under the title of the key's field |
| ImportValidation.ErrorFreeRowsAreDistinct | src/lib/excel/importValidationService.ts:64-72 | a row without an error shares no non-empty value with an earlier row under any duplicate key |
| ImportValidation.ErrorIff | src/lib/excel/importValidationService.ts:71-72 | a row is an error row if and only if a field fails or a key repeats; unknown headers alone never make one |
| ImportIssues.LevelIff | src/lib/excel/importValidationService.ts:41-73 | a row is in error if and only if one of its cells is wrong or one of the five keys repeats an earlier row's value; of the others exactly those under unknown headers warn |
| ImportIssues.FieldIssuesAreDeserved | src/lib/excel/importValidationService.ts:48-63 | a cell draws exactly the complaints it deserves, reason by reason, each once, as errors under its field's title and in a fixed order |
| ImportIssues.IssuesFieldByField | src/lib/excel/importValidationService.ts:48-63 | a row has a field complaint if and only if the cell of some field deserves it |
| ImportIssues.NormalizedMeans | src/lib/excel/importValidationService.ts:46-58 | exactly the keys of the fields are filled, with a number where a numeric field holds one of 0 or more, and as read elsewhere |
| ImportIssues.RawCellMeans | src/lib/excel/importValidationService.ts:46 | a cell is the one under the header mapped to its key, and empty without that header or cell |
| ImportIssues.KeyTextMeans | src/lib/excel/importValidationService.ts:65 | a key's value is the text, or the number written out, where a zero counts as none |
| ImportIssues.FieldForIsFirst | src/lib/excel/importValidationService.ts:68 | a repeated key is reported under the first field that has it |
| ImportIssues.FlaggedMeans | src/lib/excel/importValidationService.ts:40-69 | the keys looked at are invoiceNumber, statementNo, pr, code and sku, as far as the schema has them |
| ImportIssues.UnknownHeadersMean | src/lib/excel/importValidationService.ts:42-43 | the unknown headers are exactly those no field is mapped to, in order and as often as they occur |
| ImportIssues.HeadersComeLast | src/lib/excel/importValidationService.ts:71 | each is a warning at the end of every row's issues |
| ImportValidation.CountsPartition | src/lib/excel/importValidationService.ts:75 | valid, warning and error counts add up to the number of rows |
| ImportIssues.CountsAdd | src/lib/excel/importValidationService.ts:75 | every row is counted once, at its own level |
| CreditMemo.TotalsByRate | src/domain/finance/tax.ts:61-66 | the grouping loop holds exactly the rates that occur, each with the sum of its lines |
| CreditMemo.DominantRate | src/domain/finance/tax.ts:59-69 | the rate has the largest subtotal, the highest rate among equals, and is missing only for an invoice without lines |
| CreditMemo.DominantIsUnique | src/domain/finance/tax.ts:67-68 | there is one such rate at most, so sorting and taking the first gives it |
| CreditMemo.CreditMemoTaxSummary | src/domain/finance/tax.ts:71-90 | the split uses the rate that leads on the first invoice with that number or id, no other rate of it having a larger subtotal and none with the same being higher; without such an invoice or without lines the default code's rate, else 13% |
| CreditMemo.FoundIsFirst | src/domain/finance/tax.ts:72-74 | the linked invoice is the first with that number or id, and missing exactly without a reference or such an invoice |
| CreditMemo.TotalsAdd | src/domain/finance/tax.ts:62-66 | every line counts once, under its own rate |
| CreditMemo.SplitIsExact | src/domain/finance/tax.ts:79-81 | net + tax = gross in cents, net·(1+rate) is within half a cent times (1+rate) of gross, and of two such nets it is the one further from zero |
| CreditMemo.SplitIsMonotone | src/domain/finance/tax.ts:79-81 | for a rate of 0 or more, a larger credit has no smaller net and no smaller tax |

## Left out

- Forecasting: floating-point rounding. Quantities are reals, and `rmse` and `theilU` are kept as squares. Parameters and horizon are numbers; a season of 0 falls back to 12 as in the source.
- Forecasting: `applyForecastScenario`, `genSeries`, `demandDiagnostics` and the parsing and formatting helpers are left out.
- ScaleLaw: for Holt-Winters it speaks of the runs that do not see the unit (`UnitFree`), a condition on the run itself. It is exact for the states (`HwScalesIff`); a fit of 0 can look alike in both units although the states do not.
- Text is a sequence of Unicode characters: lone surrogates, on which `encodeURIComponent` throws, are not modelled.
- `toLowerCase` is a parameter `lower`. The walk-back lemmas for items assume that it leaves only empty text empty, the template lemmas that it leaves empty text empty, `SupplierItemWalksBack` both.
- CSV: cells are strings (`stringifyCellValue` is the identity on them), and a header such as `constructor`, which the source would look up as an inherited property of the alias table, is not treated specially.
- Relationships: fields and line items are strings or missing. Display labels, evidence text, confidence, status, the routes of linked records and the messages of limitations are left out. Every kind of record a resolver links to has a route, so the limitation for a missing route arises only for a page without a resolver.
- Routes: the registry and the entity table are arbitrary data. The round trip assumes what `DetailRegistered` says: one detail route per base path, and no other pattern that reaches below it. `purchase_return`, whose id is a query parameter, is not a path entity. Characters of a path with a meaning in regular expressions are taken literally.
- WalkUp: on a registry with a cycle of parents the source does not end; the method therefore requires a ranking, and `WalksEndIffRanked` shows that this is exactly the condition for the walk to end.
- Breadcrumbs: the lemmas on the full trail assume unique route ids, and that the registry has a route for `overview`.
- Recent pages: local storage is one stored list; unreadable storage, navigation after a close and drawing are left out.
- Import validation: `isValidDate`, number conversion and the master-data look-ups are parameters, cells are strings, schema keys are taken to be distinct and an empty list of options stands for none. Row numbers and suggestion texts are left out, as is `autoMapHeaders`, a single look-up by normalised name.
- Inventory: the look-up of the two profiles with their defaults, and the texts for action, policy and sourcing. The batch multiple is not zero.
- Invoice matching: the text of the suggested action, and the queue, payable and export rows. Missing numbers are zero, as `Number(x || 0)` makes them.
- RegisterSettles: assumes that invoice ids are unique, as the register takes them to be; with a shared id a row would take over the findings of another.
- Credit memos: money is in whole cents, the name of the tax code is left out, and the rate of a line without one is taken as given. Rates are above -100%.
- User interface, network clients, workbook files, AI text, demo tables, label and status tables.
