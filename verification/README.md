# MSA quote generator: pricing core in Dafny

The quote generator is a single-page estimator for managed IT services. It
has a fixed catalog of nine billable asset categories, each with a monthly
rate. A user types a quantity per category. The page then shows each row's
subtotal, the grand total, the total number of units, and a doughnut chart
of the categories that cost something.

This project models the pricing core of `script.js`:

- `catalog.dfy` (module `Catalog`): the rate catalog `rateData`, its rows
  (`Item`: key, display name, rate, quantity) and the "same catalog"
  relation that every edit preserves.
- `parse_int.dfy` (module `JsParseInt`): the ECMAScript `parseInt` the
  handler applies to the raw text of a number box, with no radix. It skips
  leading white space, reads an optional sign, switches to base 16 after a
  `0x`/`0X` prefix, and reads the longest digit run. No digit at all gives
  NaN, written `None`. Its partner is `Decimal`, the canonical numeral of a
  natural number, and the lemmas prove the parser reads it back.
- `quantity.dfy` (module `QuantityInput`): `handleInputChange`. It parses the
  text, forces NaN and negative values to 0, stores the value in the edited
  row only, and recomputes. `ApplyInputs` and `ReachableValid` describe every
  state the page can reach from load.
- `pricing.dfy` (module `Pricing`): `updateCalculations`, written as the same
  single walk over the catalog (`Recompute`). It computes per-row
  subtotals, the grand total, the unit count and the chart breakdown. Slices
  are pushed for rows with a positive subtotal. Each slice's colour is taken
  from the row's catalog position modulo the nine-colour palette. The chart
  title switch of `updateCostChart` is modelled too.
  - The breakdown has an independent description, `KeptIndices`: the
    ascending catalog positions whose subtotal is positive.
  - `ChartIsOrderedFilter` connects the two.

`script.js` has no discount tier, so the model has none: the grand total is
the plain sum of the subtotals.

The page holds its state in a mutable global array. The model makes that
state an explicit value: every operation takes a `seq<Item>` and returns the
next one.

## Model

| member | source | states |
|---|---|---|
| Catalog.RateDataShape | script.js:2-12 | The catalog has nine rows, every rate is positive, every quantity starts at zero, and the row keys are pairwise distinct. |
| JsParseInt.TrimStart | script.js:73 | `parseInt` drops exactly a prefix of white-space characters: the result is a suffix of the input, and it does not start with white space. |
| JsParseInt.LeadingDigits | script.js:73 | The digits read are the longest prefix of the text made only of digits of the base. |
| JsParseInt.ParseDecimal | script.js:73 | Round trip: `parseInt` of the decimal numeral of any natural n is n. This holds even when non-digit text follows, except an `x` after a lone `0`, which would make a hex prefix. |
| JsParseInt.ParseNegativeDecimal | script.js:73 | `parseInt` of a minus sign followed by the numeral of n is -n. |
| JsParseInt.MinusSign | script.js:73 | A leading minus sign negates whatever magnitude follows it. |
| JsParseInt.PlusSign | script.js:73 | A leading plus sign leaves whatever magnitude follows it unchanged. |
| JsParseInt.HexTwoDigits | script.js:73 | After a `0x`/`0X` prefix, two hex digits are read in base 16, most significant first. |
| JsParseInt.HexExamples | script.js:73 | "0x1A" and "0X1a" both parse to 26. |
| JsParseInt.HexPrefixAlone | script.js:73 | A `0x`/`0X` prefix followed by no hex digit is NaN, even though a decimal 0 precedes it. |
| JsParseInt.ParseSkipsWhiteSpace | script.js:73 | A leading white-space character never changes the result of `parseInt`. |
| JsParseInt.NoDigitsIsNaN | script.js:73 | Text with no decimal digit (including the empty text) parses to NaN. |
| JsParseInt.DecimalValue | script.js:73 | The value of the decimal numeral of n, read most significant digit first, is n. |
| QuantityInput.NormalizeQuantity | script.js:73-76 | The stored quantity is never negative. It equals the parsed value when that value is a non-negative number, and otherwise it is 0 (NaN or negative). |
| QuantityInput.NormalizeDecimal | script.js:73-76 | Any non-negative numeral typed into a box is stored as its value. |
| QuantityInput.NormalizeNegative | script.js:73-76 | Any negative numeral is stored as 0. |
| QuantityInput.NormalizeNoDigits | script.js:73-76 | Text with no decimal digit is NaN and is stored as 0. |
| QuantityInput.NormalizeNumeralExamples | script.js:73-76 | "7" is stored as 7 and "-5" as 0. |
| QuantityInput.NormalizeNaNExamples | script.js:73-76 | "abc" and the empty text are stored as 0. |
| QuantityInput.SetQuantity | script.js:79 | Only row i's quantity changes, to the normalised value. Every other row, and every key, name and rate, is unchanged. |
| QuantityInput.SetQuantityPreservesValid | script.js:76-79 | An edit keeps the state valid: the catalog's rows with non-negative quantities. |
| QuantityInput.TotalsAfterInput | script.js:79-82 | After an edit, the grand total moves by the change in the edited row's subtotal alone, and the unit count by the change in its quantity. |
| QuantityInput.ValidTotalsAfterInput | script.js:76-82 | After an edit of a valid state, the grand total and the unit count are non-negative. |
| QuantityInput.HandleInputChange | script.js:71-83 | The handler stores the normalised value in the edited row. The recomputed pass gives every row of the new state its subtotal, and the grand total and unit count of the new state; these differ from the old ones by that row's change alone, and the chart is the breakdown of the new state. From a valid state the result is valid, with non-negative totals. |
| QuantityInput.ApplyInputs | script.js:71-83 | Any sequence of edits keeps the same rows, with the same keys, names and rates, in the same order. |
| QuantityInput.ReachableValid | script.js:2-12 | Every state reachable from the initial catalog by any sequence of edits is valid: same rows, positive rates, non-negative quantities. |
| QuantityInput.ReachableFromValid | script.js:71-83 | Any sequence of edits applied to a valid state leaves it valid. |
| QuantityInput.InitialStateValid | script.js:2-12 | At load the state is valid, nothing is entered, both totals are 0 and the chart shows its prompt title. |
| QuantityInput.TwoRowScenario | script.js:71-114 | From load, entering "2" workstations then "3" small devices gives grand totals 110 and then 155, and 5 units. The breakdown is then Workstation 110 in the first stone colour and Small Device 45 in the second. |
| QuantityInput.FirstTwoIndices | script.js:109 | When exactly the first two rows cost something, exactly those two positions are kept. |
| QuantityInput.FirstTwoKept | script.js:109-113 | When exactly the first two rows are kept, the breakdown lists those two rows' names, subtotals and colours, in order. |
| Pricing.KeptBelow | script.js:100-109 | The kept positions are ascending, and each one is a row with a positive subtotal. |
| Pricing.KeptIndicesComplete | script.js:109 | No row with a positive subtotal is left out of the kept positions. |
| Pricing.ChartBelow | script.js:109-113 | The three chart arrays always have equal lengths. |
| Pricing.ChartBelowEntries | script.js:109-113 | Entry k of the breakdown is the name, the subtotal and the catalog-position colour of the k-th kept row. |
| Pricing.Recompute | script.js:86-114 | One walk gives, for every row, subtotal = rate × quantity. The grand total is the sum of those subtotals, the unit count is the sum of the quantities, and the chart arrays are the breakdown of the kept rows. |
| Pricing.ChartIsOrderedFilter | script.js:94-113 | The breakdown holds one entry per row with a positive subtotal and no other, in strictly ascending catalog order. Its three arrays have equal lengths. Each entry's colour is the palette entry of the row's catalog index (not of its place in the chart). |
| Pricing.ChartSumsToGrandTotal | script.js:100-113 | When no subtotal is negative, the chart's slices add up to the grand total. |
| Pricing.EmptyBreakdownIff | script.js:236-240 | With positive rates and non-negative quantities, the breakdown is empty exactly when every quantity is 0. So the chart title is the prompt exactly then, and the "Monthly Cost by Asset Type" title otherwise. |
| Pricing.ZeroGrandTotalIff | script.js:100-103 | With positive rates and non-negative quantities, the grand total is 0 exactly when every quantity is 0. |
| Pricing.TotalsNonNegative | script.js:100-103 | With non-negative rates and quantities, the grand total and the unit count are non-negative. |
| Pricing.TotalsAfterQuantityChange | script.js:79-103 | Changing one row's quantity moves the grand total by that row's subtotal change and the unit count by its quantity change. |
| Pricing.GrandTotalMonotone | script.js:101-102 | With a non-negative rate, raising one row's quantity never lowers the grand total. |
| Pricing.MoreUnitsCostMore | script.js:101 | With a non-negative rate, more units never give a smaller subtotal. |
| Pricing.SumUpdate | script.js:102-103 | Replacing one term of the running sum changes the sum by exactly the difference. |
| Pricing.SumZeroIff | script.js:102-103 | A sum of non-negative terms is 0 exactly when every term is 0. |
| Pricing.SubtotalPositiveIff | script.js:101-109 | For a positive rate and a non-negative quantity, the subtotal is positive exactly when the quantity is. |

## Left out

- The DOM is not modelled: `initUI` building the input rows, reading `dataset.index`, and writing text into the page. The edited row's index is a parameter and is assumed to name a catalog row. The page only creates inputs for catalog rows.
- Chart.js is not modelled: `initCharts` and the rendering in `updateCostChart`. Only the arrays handed to the chart and the title switch are modelled.
- The display formatting is not modelled: `toLocaleString` with its locale and two fraction digits, and the `CA$` prefix on row subtotals. The model keeps the numbers the text is made from.
- `exportToPDF` and the third-party PDF library are not modelled.
- The discount tier is not modelled, because `script.js` has none (see above).
- The `icon` field of the catalog rows is only displayed, so it is not modelled.
- QuantityInput.NormalizeQuantity: quantities are unbounded integers, not IEEE-754 doubles. So `parseInt` of a numeral above 2^53 is exact here but rounded on the page, and a digit run too long for a double (`Infinity` on the page) is simply a large number here.
- QuantityInput.NormalizeQuantity: inputs such as "-0", "-00" and "-0.5" parse to -0 on the page. -0 passes the `val < 0` test unchanged and is stored as -0, while the model stores 0. The two values compare equal, give equal totals, and are never kept in the chart. The row's subtotal text differs: `toLocaleString` shows the page's -0 with its sign, as "CA$-0", and the model does not model that text.
- Pricing.Recompute: subtotals and totals are exact integer arithmetic. On the page they are doubles, which agree with it for every total below 2^53.
