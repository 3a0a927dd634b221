# CareFuse ROI calculator and page scripts, modelled in Dafny

The CareFuse marketing site has two scripts. This project models the logic in
both.

The calculator script (`js/calculator.js`) keeps an input record,
`calculatorData`, and caches the last result in `window.currentROIResults`.
From seven inputs it computes a return-on-investment result in a fixed chain of
arithmetic. For a surgery-authorisation product, that chain runs: annual
volume, approved cases, low-benefit cases, avoided surgeries, the medical and
administrative savings, the cost, the net return, the ROI percentage and the
payback period. The result is shown through three formatters (currency,
percentage, months). It can be exported as a 25-line CSV or as a report. Two
what-if analyses run over the engine: three fixed low-benefit scenarios, and a
sweep of four inputs by -20% to +20%.

The page script (`js/main.js`) models these parts:

- `formatNumber`, the digit-grouping regex;
- form validation;
- the site search filter and its three-character gate;
- the accordion and dropdown toggles;
- the highlighted navigation link, and the navbar's `scrolled` style.

Modules:

| file | module | models |
|---|---|---|
| numbers.dfy | `JsNumber` | JS numbers: exact reals plus +Infinity, -Infinity and NaN; division, `Math.max`, `Math.min`, `Math.round` |
| seqs.dfy | `Seqs` | `join` and `split` on sequences, and deleting a separator |
| wrappers.dfy | `Wrappers` | `Option` |
| text.dfy | `Text` | display text: literal characters and numerals kept as atoms |
| engine.dfy | `Engine` | the input record and `performROICalculation` |
| formatting.dfy | `Formatting` | `formatCurrency`, `formatPercentage`, `formatMonths` |
| export.dfy | `Export` | `generateROICSV`, and `generateReportContent` as a document of sections |
| analysis.dfy | `Analysis` | `runScenarioAnalysis`, `runSensitivityAnalysis` |
| controller.dfy | `Controller` | the calculator state in a class `Calculator`: the input record, the result cache and the handlers |
| strings.dfy | `Strings` | `trim`, ASCII `toLowerCase`, `includes` |
| number_format.dfy | `NumberFormat` | `formatNumber` on integers |
| forms.dfy | `Forms` | `validateFormData` |
| search.dfy | `Search` | `performSearch` and the search input's gate |
| widgets.dfy | `Widgets` | `toggleAccordion`, `toggleDropdown`, `closeAllDropdowns` over arrays of `active` flags |
| navigation.dfy | `Navigation` | `updateActiveNavLink` and the scroll listener, in a class `Page` |

Numbers are exact reals. JavaScript's `Infinity` and `NaN` appear only where a
division by zero produces them.

- The ROI percentage divides by the total annual cost.
- The payback period divides by the monthly net return.
- The sensitivity change divides by the base net return.

In each of these places the zero denominator is +0, so its sign never decides
the result. `Math.round` rounds halves up.

A number turned into text (`toFixed`, `toLocaleString`, `String(x)`) is kept
as an atom. The atom records the value and which conversion was asked for, so
the digits themselves are not modelled. `formatNumber` builds its own digit
string and is modelled character by character.

## Model

| member | source | states |
|---|---|---|
| `Engine.PerformROICalculation` | js/calculator.js:85-154 | the licence cost never exceeds the $200000 cap; the total cost is $50000 plus the licence; for a non-negative volume the total cost is at least $50000, the ROI percentage is finite and the payback is not NaN; the payback is never -Infinity and, when finite, never negative |
| `Engine.Set` | js/calculator.js:61 | the named field takes the new value and every other field keeps its value |
| `Engine.IntermediateChain` | js/calculator.js:87-100 | annual volume is 12 times the monthly volume; approved cases are the approval share of it; low-benefit cases the low-benefit share of those; the avoidance rate is 0.75; avoided surgeries are the integer within half a case of 75% of the low-benefit cases; medical savings are avoided surgeries times the episode cost |
| `Engine.P2pSavings` | js/calculator.js:104-106 | peer-to-peer savings are 6% of the annual volume (20% reviewed, 30% of those avoided) times the cost per review |
| `Engine.OverturnSavings` | js/calculator.js:109-111 | overturn savings are the non-approved cases times the overturn rate times 8 (40% avoided at $2000 each, over 100) |
| `Engine.Avoided` | js/calculator.js:96-97 | the avoided-surgery count lies within half a case of 75% of the low-benefit cases |
| `Engine.SavingsDecompose` | js/calculator.js:104-123 | administrative savings are the peer-to-peer plus the overturn savings; total savings are medical plus administrative; the net return is total savings minus total cost; implementation is $50000 |
| `Engine.LicenseCost` | js/calculator.js:118 | the licence is $25 per annual case below 8000 cases and exactly $200000 from 8000 on |
| `Engine.RoiPercentageDefined` | js/calculator.js:117-126 | for a non-negative volume the total cost is at least $50000 and the ROI percentage is the finite number netROI / totalCost * 100 |
| `Engine.AdminCostUnused` | js/calculator.js:85-154 | the result does not depend on `adminCostPerCase` |
| `Engine.PaybackBySign` | js/calculator.js:129-140 | for a non-negative monthly volume: a positive net return gives a positive payback with payback * netROI == 12 * totalCost; a negative one gives 0 (the clamp); exactly 0 gives +Infinity |
| `Engine.DefaultsExample` | js/calculator.js:4-12 | the start-up inputs give 1800 annual cases, 287 avoided surgeries, $7175000 medical and $64800 administrative savings, a $95000 cost and a $7144800 net return |
| `Engine.CaseCountBounds` | js/calculator.js:87-100 | for in-range inputs: 0 <= low-benefit <= approved <= annual cases; avoided surgeries are non-negative and at most 75% of the approved cases plus half a case; medical savings are non-negative |
| `Engine.LowBenefitMonotone` | js/calculator.js:93-123 | for a non-negative volume, approval rate and episode cost, raising the low-benefit share never lowers avoided surgeries, medical savings or the net return, and leaves the administrative savings and total cost unchanged |
| `Engine.PaybackWithoutCost` | js/calculator.js:129-140 | when the total cost is 0 or less, a positive net return gives a payback of 0, and a zero net return over a zero cost gives NaN |
| `Engine.NegativeVolumeZeroCost` | js/calculator.js:117-126 | a negative monthly volume of -2000/12 makes the total cost 0 and the ROI percentage non-finite |
| `Engine.VolumeMonotone` | js/calculator.js:87-123 | once the licence is capped (at least 8000 cases a year), with an approval rate from 0 to 100 and non-negative low-benefit share, episode cost, review cost and overturn rate, the total cost is $250000 and a larger monthly volume never lowers the net return |
| `Engine.VolumeUncappedCounterexample` | js/calculator.js:96-123 | below the cap the per-case licence can outgrow the savings: at 100% approval, 0.4 cases a month gives a net return $8.40 lower than 0.3 cases |
| `JsNumber.Div` | js/calculator.js:126 | a JS division is finite exactly when the denominator is not 0; a zero denominator gives +Infinity, -Infinity or NaN by the numerator's sign |
| `JsNumber.Scale` | js/calculator.js:126 | multiplying by a positive constant (`* 100`, and `* 12` when a duration is read back) keeps a number finite exactly when it was, scales a finite value by that constant and leaves NaN and the infinities as they are |
| `JsNumber.DivBy` | js/calculator.js:228 | dividing by a positive constant (`months / 12`) keeps a number finite exactly when it was; the quotient times the constant gives back the finite value; NaN and the infinities stay as they are |
| `JsNumber.MaxZero` | js/calculator.js:140 | `Math.max(x, 0)` keeps NaN and +Infinity, turns -Infinity and negatives into 0, keeps non-negatives |
| `JsNumber.Round` | js/calculator.js:97 | `Math.round` gives the integer r with r - 0.5 <= x < r + 0.5 |
| `JsNumber.LessThan` | js/calculator.js:225 | the JS comparison `months < 12`: false for NaN and +Infinity, true for -Infinity |
| `JsNumber.Min` | js/calculator.js:118 | `Math.min` is at most both arguments and equals one of them |
| `Formatting.FormatCurrency` | js/calculator.js:210-218 | the text starts with `$`; it ends in `M` exactly when the amount is at least 1000000 and in `k` exactly when it is in [1000, 1000000); below 1000, negatives included, it is `$` and the locale numeral |
| `Formatting.FormatPercentage` | js/calculator.js:220-222 | the percentage rendered with one decimal, followed by `%` and nothing else |
| `Formatting.FormatMonths` | js/calculator.js:224-230 | ends in ` months` exactly when the value is below 12, otherwise in ` years` |
| `Formatting.CurrencyRoundTrip` | js/calculator.js:210-218 | reading a formatted amount back (numeral times the suffix's scale) gives the amount |
| `Formatting.MonthsRoundTrip` | js/calculator.js:224-230 | reading a formatted duration back gives the number of months |
| `Formatting.CurrencyExamples` | js/calculator.js:210-218 | 1234567 is shown as millions with one decimal, 45000 as thousands with none, 950 in the locale format |
| `Export.CsvRows` | js/calculator.js:248-274 | 25 rows; the title and the date come first; the section markers INPUT PARAMETERS, CALCULATED RESULTS and DETAILED BREAKDOWN are rows 3, 9 and 21; rows 2, 8 and 20 are blank |
| `Export.InputRows` | js/calculator.js:252-256 | the input section's rows carry the labels Monthly TKA/THA Volume, Baseline Approval Rate, Predicted Low Benefit % and Average Episode Cost, in that order, each with the matching input value |
| `Export.SavingsRows` | js/calculator.js:258-263 | the result rows are labelled Annual Volume, Avoided Surgeries per Year, Medical Cost Savings, Administrative Savings and Total Annual Savings, each with the matching figure |
| `Export.CostRows` | js/calculator.js:264-268 | the cost rows are labelled Implementation Cost, Annual License Cost, Net Annual ROI, ROI Percentage and Payback Period; the ROI percentage shows one decimal followed by `%` |
| `Export.BreakdownRows` | js/calculator.js:270-273 | the breakdown rows are labelled P2P Review Savings, Overturn Cost Savings and Avoidance Rate Applied, each with the matching figure |
| `Seqs.Join` | js/calculator.js:276 | `join` of a single part is that part; otherwise its length is the parts' total length plus one separator between each pair of neighbours |
| `Export.JoinRows` | js/calculator.js:276 | every row becomes one line, its two cells joined by `,` |
| `Export.CellsFree` | js/calculator.js:248-274 | no cell holds a literal `,` or newline when the date holds neither |
| `Export.GenerateROICSV` | js/calculator.js:247-277 | the file opens with the title line `CareFuse ROI Analysis,` and ends with the avoidance-rate line, with no line break after it |
| `Export.CsvShape` | js/calculator.js:247-277 | splitting the CSV at newlines gives 25 lines, and splitting each line at `,` gives exactly that row's name and value |
| `Export.GenerateReportContent` | js/calculator.js:311-377 | the summary has 4 items (net annual return, avoided procedures, ROI percentage and payback period, each the formatted figure followed by its caption); the input table has 4 rows, and the first three show the volume and the two rates as entered; the savings and cost tables have 3 rows each; the assumptions and next steps are the fixed lists |
| `Export.AssumptionsIgnoreInputs` | js/calculator.js:357-363 | the report names $300 per peer-to-peer review whatever `p2pCostPerCase` is |
| `Export.ReportFiguresReadBack` | js/calculator.js:334-351 | each of the report's seven currency cells reads back as its own amount: the episode cost, the medical, administrative and total savings, and the implementation, licence and total costs |
| `Analysis.VolumeSweepMonotone` | js/calculator.js:494-507 | when even the volume lowered by 20% keeps the licence capped, the five points of the monthly-volume sweep have non-decreasing net returns |
| `Analysis.VariedVolume` | js/calculator.js:496-497 | varying the monthly volume by a percentage changes that one input and no other |
| `Analysis.VariedVolumeOrder` | js/calculator.js:496-497 | from -20% upwards, a larger variation gives a larger varied volume, and the smallest still has at least 8000 cases a year |
| `Analysis.RunScenarioAnalysis` | js/calculator.js:467-484 | three results named Conservative, Base Case and Optimistic, in that order; result i is the engine on the current inputs with only the low-benefit share replaced, by 15, 25 and 35 |
| `Analysis.ScenariosIgnoreLowBenefit` | js/calculator.js:474-476 | the scenario results do not depend on the current low-benefit share |
| `Analysis.BaseCaseIsCurrent` | js/calculator.js:470-476 | with the share at 25% the Base Case result is the current result |
| `Analysis.ScenarioAvoidanceRateFixed` | js/calculator.js:468-476 | every scenario applies avoidance 0.75, unlike the 0.6 and 0.85 its preset lists |
| `Analysis.ScenariosOrdered` | js/calculator.js:467-484 | for non-negative volume, approval and episode cost, the avoided surgeries and the net return never decrease from Conservative to Base Case to Optimistic (at volume 0 all three are equal) |
| `Analysis.Perturbed` | js/calculator.js:496-497 | the varied field becomes its value times 1 + variation / 100; every other field keeps its value; a 0% variation changes nothing |
| `Analysis.RoiChange` | js/calculator.js:500 | finite exactly when the base is not 0, then (netROI - base) / base * 100; over a zero base it is NaN exactly when the net return is 0 too; over a positive base it is positive exactly when the net return grew, over a negative base exactly when it fell |
| `Analysis.SensitivityAt` | js/calculator.js:495-505 | a point holds its variation, the net return with the field varied by it, and that return's change against the base; at 0% the net return is the current one |
| `Analysis.Sweep` | js/calculator.js:495-507 | five points with variations -20, -10, 0, 10, 20 in order; point i holds the net return of the inputs varied by variation i and its change against the base net return |
| `Analysis.Assign` | js/calculator.js:495 | assigning an existing key keeps the key order and replaces its value; a new key is added after all the others |
| `Analysis.SensitivityOver` | js/calculator.js:494-508 | for distinct field names, the table's keys are those names in assignment order, each holding its sweep |
| `Analysis.Sensitivity` | js/calculator.js:487-511 | the keys are monthlyVolume, approvalRate, lowBenefit and episodeCost in that order, each holding the sweep of that input against the current result |
| `Analysis.RunSensitivityAnalysis` | js/calculator.js:487-511 | the loop's table equals the table of the four sweeps over the current inputs |
| `Analysis.ZeroVariationIsBaseline` | js/calculator.js:495-505 | the 0% point has the current net return, and its change is 0 unless the current net return is 0, when it is NaN |
| `Analysis.SensitivityIgnoresAdminCost` | js/calculator.js:487-511 | the table does not depend on `adminCostPerCase` |
| `Controller.EditValue` | js/calculator.js:61 | `parseFloat(value) \|\| 0`: an unparsable value becomes 0, a number stays |
| `Controller.SyncUpToFields` | js/calculator.js:31-37 | after the start-up loop each control field holds its control's number, or keeps its value when the control is missing or NaN; other fields are untouched |
| `Controller.EditAndStartupDiffer` | js/calculator.js:31-37 | an unparsable edit sets the field to 0, while the start-up loop keeps the previous value |
| `Controller.Calculator.constructor` | js/calculator.js:4-12 | the state starts with the default inputs and no cached result |
| `Controller.Calculator.UpdateCalculatorData` | js/calculator.js:60-62 | one field takes the edit rule's value; the cache is unchanged |
| `Controller.Calculator.CalculateROI` | js/calculator.js:79-82 | the cache holds the result of the current inputs |
| `Controller.Calculator.SyncFromControls` | js/calculator.js:31-37 | the loop leaves the record the start-up rule gives; the cache is unchanged |
| `Controller.Calculator.Initialize` | js/calculator.js:15-58 | without a calculator nothing changes; otherwise the controls are read in and the first result is cached |
| `Controller.Calculator.OnInput` | js/calculator.js:45-49 | an edit applies the edit rule and then caches the result of the new inputs |
| `Controller.Calculator.ExportROIToCSV` | js/calculator.js:233-244 | no CSV without a cached result; otherwise the CSV of the current inputs and the cached result |
| `Controller.Calculator.GenerateROIReport` | js/calculator.js:296-308 | no report without a cached result; otherwise the report of the current inputs and the cached result |
| `Controller.Calculator.RunScenarioAnalysis` | js/calculator.js:467-484 | the scenarios of the current inputs |
| `Controller.Calculator.RunSensitivityAnalysis` | js/calculator.js:487-511 | the sensitivity table of the current inputs |
| `NumberFormat.DecimalDigits` | js/main.js:205 | `toString` of a non-negative integer: a non-empty digit string without a leading zero |
| `NumberFormat.DecimalDigitsValue` | js/main.js:205 | the digit string denotes the number it was made from |
| `NumberFormat.FormatNumber` | js/main.js:204-206 | the text is never empty; it starts with `-` exactly for a negative number, and with a digit otherwise |
| `NumberFormat.CommaAtDigits` | js/main.js:205 | in a digit string the expression matches exactly at the inner positions followed by a multiple of three digits |
| `NumberFormat.GroupedCopies` | js/main.js:205 | over a stretch with no match the replace copies the text unchanged |
| `NumberFormat.GroupedTriple` | js/main.js:205 | at a group boundary of a digit string the replace writes `,`, the next three digits, and goes on at the next boundary |
| `NumberFormat.GroupedShift` | js/main.js:205 | behind a leading non-word character the replace finds the same matches one position later |
| `NumberFormat.CommasOnlyAdded` | js/main.js:205 | the replace only inserts commas: deleting them gives back any comma-free text |
| `NumberFormat.RemoveCommas` | js/main.js:204-206 | deleting the commas from a formatted integer gives its decimal digits |
| `NumberFormat.FormatGroups` | js/main.js:204-206 | a formatted non-negative integer is its digit groups joined by `,` |
| `NumberFormat.GroupShape` | js/main.js:204-206 | the first group has 1 to 3 digits, each later group exactly 3, and the groups together are the digits |
| `NumberFormat.SplitFormatNumber` | js/main.js:204-206 | splitting a formatted integer at `,` gives its digit groups |
| `NumberFormat.NegativeFormat` | js/main.js:204-206 | a negative integer is a minus sign followed by its absolute value formatted, with no comma after the sign |
| `Strings.Trim` | js/main.js:471 | `trim` returns a slice that neither starts nor ends with white space, and drops only white space |
| `Strings.TrimEmptyIffAllSpace` | js/main.js:471 | the trimmed text is empty exactly when the text is all white space |
| `Strings.ToLower` | js/main.js:537 | `toLowerCase` keeps the length and lowers each ASCII capital |
| `Strings.ToLowerIdempotent` | js/main.js:537 | lower-casing twice is lower-casing once |
| `Strings.Contains` | js/main.js:537 | the empty string is contained in every string, and a contained string is no longer than the text |
| `Strings.ContainsIff` | js/main.js:537 | `includes` holds exactly when the substring occurs at some position |
| `Forms.ValidateFormData` | js/main.js:468-477 | valid exactly when no value is blank after trimming; otherwise the first blank entry's key is reported as `<key> is required`, and the check stops there |
| `Forms.BlankIffAllSpace` | js/main.js:471 | a value fails exactly when it is all white space |
| `Search.Filter` | js/main.js:531-537 | an entry is in the result exactly when it is in the list and its lower-cased title contains the lower-cased query |
| `Search.PerformSearch` | js/main.js:530-537 | the result holds exactly the fixed entries whose lower-cased title contains the lower-cased query, and at most four of them |
| `Search.FilterSubsequence` | js/main.js:531-537 | the result keeps the list's order: it is a subsequence of the fixed list |
| `Search.SearchIgnoresCase` | js/main.js:537 | searching for a query and for its lower-cased form gives the same result |
| `Search.OnSearchInput` | js/main.js:508-518 | hidden exactly when the trimmed query has at most 2 characters; "No results found" exactly when a longer query matches nothing; otherwise the search of the trimmed query |
| `Widgets.Toggled` | js/main.js:322-338 | after a click at most one item is active, the clicked item is active exactly when it was inactive, and every other item is inactive |
| `Widgets.OpenThenClose` | js/main.js:322-338 | two clicks on a closed item leave everything closed |
| `Widgets.ToggleMovesOpenItem` | js/main.js:330-337 | a click on another item closes the open one and opens the clicked one |
| `Widgets.ToggleAccordion` | js/main.js:322-338 | the flags become the toggle rule applied to the old flags |
| `Widgets.CloseAllDropdowns` | js/main.js:368-373 | every dropdown is closed |
| `Widgets.ToggleDropdown` | js/main.js:356-366 | the flags become the toggle rule applied to the old flags |
| `Widgets.OnDocumentClick` | js/main.js:348-352 | a click outside every dropdown closes all of them; a click inside changes nothing here |
| `Navigation.LastReached` | js/main.js:83-90 | none exactly when no section has been reached; otherwise a reached section with no reached section after it |
| `Navigation.CurrentId` | js/main.js:81-90 | the empty id when no section has been reached; otherwise the id of a reached section after which no section is reached |
| `Navigation.LinkFlags` | js/main.js:92-97 | a link is active exactly when its href is `#` followed by the current id |
| `Navigation.NothingReachedHighlightsHash` | js/main.js:81-97 | with no section reached, the active links are those whose href is the bare `#` |
| `Navigation.LastReachedMonotone` | js/main.js:87 | scrolling further down never moves the highlight to an earlier section |
| `Navigation.Page.constructor` | js/main.js:5 | the page starts at the hero section |
| `Navigation.Page.UpdateActiveNavLink` | js/main.js:81-99 | the current section is the last one reached, or empty; the active links are those pointing at it; the section is remembered |
| `Navigation.Page.OnScroll` | js/main.js:54-63 | the navbar is `scrolled` exactly when scrollY > 50, and the highlight is recomputed |

## Left out

- DOM access is not modelled: element lookup, `classList`, `textContent`, `innerHTML` and listener wiring. The page is seen only through sequences, arrays of flags and the parsed values of its controls.
- `parseFloat` is abstracted to `Option<real>`, with `None` standing for NaN. A control that parses to `Infinity` is not modelled.
- IEEE-754 rounding is not modelled; arithmetic is exact over the reals. Non-finite values appear only where a division by zero makes them.
- The digits `toFixed` and `toLocaleString` print are not modelled: numerals are atoms. The CSV round trip therefore holds on this abstract text. With a grouping locale, `toLocaleString` writes `,` inside numbers, and those commas would break the CSV's two-field lines.
- The date from `new Date().toLocaleDateString()` is a parameter.
- Timers, debounce and animations are not modelled. The 300 ms search delay is gone, so the search runs at once. `animateValueChange`, counters and the loading screen are also out.
- Browser side effects are not modelled: the CSV download, the report modal, printing, `alert` and logging.
- The report's HTML markup is not reproduced; the report is a document of sections.
- `updateRangeDisplays` and `updateROIDisplay` only write to the page and are not modelled. Only the cache write at js/calculator.js:171 is kept.
- The stub handlers in js/main.js are not modelled: `openDemo`, `downloadSample`, `downloadROI`, `exportCSV`.
- `NumberFormat.DecimalDigits`: gives the exact decimal digits of every integer. JavaScript's `toString` does so only for integers below 2^53 in magnitude. Above that it prints the shortest digits that read back as the same double, padded with zeros, and from 10^21 on it uses exponent notation, where the expression inserts no commas. The call at js/main.js:185 passes small counts, so the model is meant for |n| < 2^53.
- `formatNumber` is modelled on integers only, its arguments at js/main.js:185. On a decimal string the same expression also groups the fraction digits, but that call is in a stub handler.
- `Strings.ToLower`: only ASCII capitals are lowered, because full Unicode case mapping is a table this model does not carry.
- `Strings.IsSpace` covers the characters JavaScript's `trim` removes, by code point. Strings are sequences of characters, not UTF-16 code units.
- The search box's "hide on click outside" listener (js/main.js:522-527) is not modelled.
- `validateFormData` sees the form as a list of key/value string pairs. File values and repeated keys in `FormData` are not modelled.
- Screen geometry is reduced to each section's `offsetTop`: `getScrollPercentage`, `isElementInViewport` and tooltips are out.
- The mobile-menu toggle is not modelled.
- The scenario presets' `avoidanceRate` is never read by the source (the engine always applies 0.75). The model keeps the field and states that it is ignored, in `Analysis.ScenarioAvoidanceRateFixed`.
- `Engine.PerformROICalculation`: the bound "total cost at least $50000" is stated only for a non-negative monthly volume. The edit handler accepts negative values, and for them the bound fails (`Engine.NegativeVolumeZeroCost`).
- `Engine.PaybackBySign`: the three-way sign rule is promised only for a non-negative monthly volume. At -2000/12 cases a month or below the total cost is 0 or negative. Then a positive net return gives a payback of 0 and a zero net return over a zero cost gives NaN; `Engine.PaybackWithoutCost` states both.
- `Engine.VolumeMonotone`: promised only once the licence is capped, at 8000 or more cases a year. Below that the $25-per-case licence grows with the volume and can outgrow the savings, so a larger volume can lower the net return (`Engine.VolumeUncappedCounterexample`). `Analysis.VolumeSweepMonotone` needs the same cap for the volume lowered by 20%.
- `Engine.LowBenefitMonotone`: promised only for a non-negative volume, approval rate and episode cost. With a negative episode cost, say, a larger low-benefit share lowers the medical savings.
