# Cash Up: a verified model of the till reconciliation

Cash Up is a single-page form used at the end of a trading day. Staff enter:

- the cash in the till, as a total per denomination: £50, £20, £10, £5 and £1, then 50p, 20p, 10p and 5p;
- the three card machines' payment totals and gratuities;
- the petty cash spent, the Z report total, the cash gratuity and the discounts.

From these the form works out:

- the cash taken;
- the takings after the fixed £200 till float;
- the card totals and the gratuity totals;
- a signed overall difference.

The difference is shown with its sign inverted, under a Balanced!/Under/Over label. The form also produces a summary text, headed by the business day. That day runs from 03:00 to 03:00.

This project models that calculator in Dafny.

| file | module | what it holds |
|---|---|---|
| `wrappers.dfy` | `Wrappers` | `Option`, the result of parsing a field's text |
| `decimal.dfy` | `Decimal` | `Number.prototype.toFixed`, over exact reals, following section 21.1.3.3 of ECMA-262 (round half up, zero padding, the point, the leading "-"), and a reader that parses its output back |
| `reconciliation.dfy` | `Reconciliation` | the entities (denominations, card-machine fields, the session of entered amounts, the defaults) and the derived totals as functions, with lemmas relating them to the entered amounts and to single-field updates |
| `display.dfy` | `Display` | the signed difference text and its label, the denomination labels, and the business-day rule with its header |
| `summary.dfy` | `Summary` | the copied summary text and its fourteen lines |
| `cash_up.dfy` | `CashUpForm` | the form's state cells as a class `CashUp`, whose handlers update one entry in place, and `ResetAll` |

Modelling choices:

- **Money.** Amounts are `real`.
- **Parsing.** `parseFloat` of a field's text is a parameter of type `Option<real>`. `None` stands for NaN, which the form stores as 0.
- **Cash total order.** The cash total folds the amounts in the order `Object.values` yields for the denomination record: first the integer-like keys in ascending order (1, 5, 10, 20, 50), then the other keys in insertion order (0.5, 0.2, 0.1, 0.05). A lemma shows that any order gives the same sum.
- **Dates.** The current date is an abstract day number plus an hour from 0 to 23. The locale's weekday and date texts are function parameters.
- **Negative entries.** Entered amounts are not constrained to be non-negative. The form's number inputs have no `min`, and `parseFloat` accepts a leading "-", so the model accepts negative values as the code does.

## Model

| member | source | states |
|---|---|---|
| Reconciliation.ParsedOrZero | src/App.js:49-50 | a field's parsed number is stored as it is, and a text that does not parse (NaN) is stored as 0; the handlers below use it for src/App.js:59 and 69 too |
| Reconciliation.CashTotal | src/App.js:74-76 | the cash taken: the stored amounts folded in enumeration order; its closed form and order independence are CashTotalIsSumOfAmounts, CashTotalAnyOrder and CashTotalInListedOrder |
| Reconciliation.CashTakingsAfterFloat | src/App.js:80-82 | the cash total less the £200 float; see TotalsInTermsOfEntries and WorkedExample |
| Reconciliation.TotalCardPayments | src/App.js:86-88 | the three card machines' totals summed; see TotalsInTermsOfEntries and DifferenceAfterCardChange |
| Reconciliation.TotalCardGratuity | src/App.js:91-93 | the three card machines' gratuities summed; see TotalsInTermsOfEntries and DifferenceAfterCardChange |
| Reconciliation.TotalCombinedGratuity | src/App.js:96-98 | card gratuity plus cash gratuity; see TotalsInTermsOfEntries |
| Reconciliation.OverallDifference | src/App.js:102-105 | planned cash (Z - card payments - petty cash + card gratuity) less the takings after float; see TotalsInTermsOfEntries, DifferenceAfterDenominationChange, DifferenceAfterCardChange, DifferenceAfterNumberChange, DefaultDifference and WorkedExample |
| Reconciliation.CashTotalIsSumOfAmounts | src/App.js:74-76 | the cash total is the sum of the nine stored denomination amounts |
| Reconciliation.CashTotalAnyOrder | src/App.js:74-76 | folding the nine amounts in any order gives the same cash total as the record's enumeration order |
| Reconciliation.SumOverPermutation | src/App.js:75 | a sum over a sequence of denominations depends only on its multiset of denominations |
| Reconciliation.TotalsInTermsOfEntries | src/App.js:74-105 | takings after float = cash total - 200; combined gratuity = card gratuities + cash gratuity; difference = (Z - card totals - petty cash + card gratuities) - (cash total - 200), so discounts and cash gratuity do not enter it |
| Reconciliation.CashTotalInListedOrder | src/App.js:129-132 | summing the amounts in the order the form lists the denominations gives the same cash total |
| Reconciliation.ListedOrderIsPermutation | src/App.js:129-132 | the listed order and the enumeration order hold the same nine denominations |
| Reconciliation.CashTotalAfterUpdate | src/App.js:55-61 | replacing one denomination's amount keeps the nine keys and moves the cash total by exactly the change |
| Reconciliation.DifferenceAfterDenominationChange | src/App.js:100-105 | raising one denomination's amount by some delta lowers the difference by that delta |
| Reconciliation.DifferenceAfterCardChange | src/App.js:85-105 | changing a card total moves the difference by minus the change; changing a card gratuity moves it by plus the change |
| Reconciliation.DifferenceAfterNumberChange | src/App.js:100-105 | changing Z moves the difference by plus the change and petty cash by minus the change; cash gratuity and discounts leave it unchanged |
| Reconciliation.DefaultDifference | src/App.js:10-41 | with every entry at its default of 0 the cash total is 0 and the difference is 200 |
| Reconciliation.WorkedExample | src/App.js:74-105 | £100 in £50s and £40 in £20s, Z 500, card payments 300, card gratuity 20 and petty cash 10 give a cash total of 140, takings after float of -60 and a difference of 270 |
| Display.FormatSignedCurrency | src/App.js:144-157 | the text is "£0.00" exactly when the value is 0; it starts with "-" exactly when the value is positive and with "+" exactly when it is negative |
| Display.SignedCurrencyShowsNegation | src/App.js:144-157 | read back at face value, the text is -value to the nearest penny: a whole number of pennies within half a penny of -value |
| Display.ShortByTwelvePoundsFifty | src/App.js:144-157 | a difference of 12.5 shows "-£12.50" and "Under" |
| Display.OverBySevenPoundsTwentyFive | src/App.js:144-157 | a difference of -7.25 shows "+£7.25" and "Over" |
| Display.ShortByTheFloat | src/App.js:144-157 | a difference of 200 (the untouched form) shows "-£200.00" and "Under" |
| Display.ShortByTwoHundredSeventy | src/App.js:144-157 | a difference of 270 shows "-£270.00" and "Under" |
| Display.NonZeroShowsNegation | src/App.js:144-157 | for a non-zero difference, the shown text read at face value is a whole number k of pennies within half a penny of -value |
| Display.ReadTwoPlaces | src/App.js:156 | the magnitude written with toFixed(2) reads back as a whole number of pennies within half a penny of it |
| Display.TwoPlacesOf | src/App.js:156 | toFixed(2) of a whole number n of pennies, n >= 100, is the digits of n with the point before the last two |
| Display.ShownPennies | src/App.js:144-157 | a non-zero difference of a whole number n of pennies, n >= 100, shows the inverted sign, "£", and the digits of n with the point before the last two |
| Display.DifferenceLabel | src/App.js:532 | the label is "Balanced!" exactly when the difference is 0, "Under" exactly when it is positive and "Over" exactly when it is negative |
| Display.LabelAgreesWithShownSign | src/App.js:532 | the label is "Balanced!" exactly when "£0.00" is shown, "Under" exactly when the shown text starts with "-", and "Over" exactly when it starts with "+" |
| Display.FormatDenominationLabel | src/App.js:135-140 | below £1, toFixed(0) of the value times 100 followed by "p"; otherwise "£" and the key; see DenominationLabelShowsValue, PenceLabelShowsValue and DenominationLabels |
| Display.KeySpellsValue | src/App.js:129-132 | each denomination's key, read as a decimal, is its value |
| Display.DenominationLabelShowsValue | src/App.js:135-140 | below £1 the label is digits then "p", and the digits read as the value times 100; otherwise it is "£" then digits that read as the value |
| Display.PenceLabelShowsValue | src/App.js:136-137 | a coin below £1 is labelled with its value in pence followed by "p" |
| Display.WholeNumberSuffixed | src/App.js:137 | toFixed(0) of a whole number, followed by a one-character suffix, ends in that suffix and reads back as the number |
| Display.DenominationLabels | src/App.js:135-140 | £50 is labelled "£50", £1 "£1", 50p "50p" and 5p "5p" |
| Display.DisplayDay | src/App.js:162-169 | from 00:00 to 02:59 the day shown is the previous day, and from 03:00 the current one |
| Display.DisplayDayAndDate | src/App.js:160-177 | the weekday text and the date text of the business day, joined by ", "; see BusinessDayStartsAtThree and HeaderFixedWithinBusinessDay |
| Display.BusinessDayStartsAtThree | src/App.js:162-169 | counting hours from the start of day 0, the day shown is the day of the hour three hours earlier: hours 00:00 to 02:59 count as the previous day |
| Display.HeaderFixedWithinBusinessDay | src/App.js:160-177 | two moments in the same 03:00-to-03:00 business day get the same header |
| Decimal.ToFixed | src/App.js:156 | toFixed(f) on exact reals: a leading "-" for a negative value, then the magnitude rounded half up to f places, zero padded, with a point before the last f digits; see ReadToFixed, ToFixedExact and ToFixedCharacters |
| Decimal.ReadToFixed | src/App.js:156 | toFixed(x, f) reads back as x rounded to f places: a whole number of units of 10^-f, within half a unit of x |
| Decimal.ReadUnitsOfToFixed | src/App.js:156 | toFixed's text reads back as the signed number of units it rounds to |
| Decimal.UnitsNearest | src/App.js:156 | the units toFixed writes are within half a unit of x times 10^f |
| Decimal.ToFixedExact | src/App.js:156 | an amount that is a whole number of units of 10^-f is shown exactly |
| Decimal.MagnitudeOfWhole | src/App.js:156 | a non-negative amount that is a whole number n of units of 10^-f is scaled by toFixed to exactly n |
| Decimal.ReadUnsignedFixedOf | src/App.js:156 | the digits toFixed writes for n units, with the point before the last f, read back as n |
| Decimal.ToFixedCharacters | src/App.js:156 | toFixed writes a non-empty text of digits, "." and a leading "-", and starts with a digit when x >= 0 |
| Summary.SummaryText | src/App.js:183-195 | the copied summary: the header, then the amount lines with newlines and blank lines as the form concatenates them; see SummaryTextLines and SummaryTextJoinsLines |
| Summary.SummaryHeadedByBusinessDay | src/App.js:160-185 | the summary copied at any hour opens with the weekday and date of its 03:00-to-03:00 business day, provided the locale's texts hold no newline |
| Summary.SummaryTextLines | src/App.js:185-195 | split at newlines, the summary is exactly its fourteen lines in this order: header; Z, Card, Cash (after float), Petty Cash; a blank line; Gratuity, then its Card, Cash and Total; a blank line; Discounts; a blank line; Difference |
| Summary.SummaryTextJoinsLines | src/App.js:185-195 | the summary text is its fourteen lines joined by newlines |
| Summary.SplitJoinLines | src/App.js:185-195 | splitting joined lines at newlines gives the lines back, provided no line holds a newline |
| Summary.SummaryLinesAreOneLine | src/App.js:185-195 | no line of the summary holds a newline, provided the header does not |
| Summary.AmountLineIsOneLine | src/App.js:186-194 | an amount line such as "Z - £" followed by toFixed(2) holds no newline |
| Summary.DifferenceLineIsOneLine | src/App.js:195 | the difference line holds no newline |
| CashUpForm.CashUp.constructor | src/App.js:10-41 | the form starts with all nine denominations, all six card fields and the four amounts at 0, and no feedback message |
| CashUpForm.CashUp.HandleNumberChange | src/App.js:48-51 | petty cash, Z, cash gratuity or discounts takes the parsed number, or 0 when the text does not parse; nothing else changes, and the difference moves by that field's weight times the change |
| CashUpForm.CashUp.HandleDenominationTotalChange | src/App.js:55-61 | one denomination takes the parsed number, or 0; every other denomination and every other field keeps its value and the keys are unchanged; the cash total moves by the change and the difference by minus the change |
| CashUpForm.CashUp.HandleCardReadingChange | src/App.js:65-71 | one card-machine field takes the parsed number, or 0; the other five and every other field keep their values; the difference moves by minus the change for a card total and by plus the change for a gratuity |
| CashUpForm.CashUp.ResetAll | src/App.js:108-126 | all nine denominations, all six card fields and the four amounts become 0 and the feedback message is cleared, whatever the state before; the difference is then the float, 200 |
| CashUpForm.ResetIsIdempotent | src/App.js:108-126 | resetting twice leaves the same state as resetting once |

## Left out

- Copying the summary to the clipboard, and the `execCommand` fallback (src/App.js:197-250). This is browser I/O; the model stops at the summary text. The "Copied!" and "Failed to copy!" feedback messages depend on the clipboard's outcome, so they go too.
- The `mailto:` link and the hand-off through `window.location` (src/App.js:255-275). This is platform I/O, and `encodeURIComponent` is a library call.
- The timer that clears the copy feedback message. Only the clearing done by reset is modelled.
- The text of the weekday and the date, produced by `Intl.DateTimeFormat`. The weekday and date texts are parameters of `Display.DisplayDayAndDate`, and only the choice of day is modelled. Calendar arithmetic (month lengths, daylight saving) is abstracted to consecutive day numbers.
- Binary floating point. Amounts are exact reals, so sums like 0.1 + 0.2 and the rounding of values such as 1.005 are exact in the model and can differ from what a browser shows. The same holds for the exactly-zero test behind "£0.00" and "Balanced!".
- Decimal.ToFixed: does not model the exponential form toFixed uses for magnitudes of 10^21 and above.
- The string rules of `parseFloat` (leading spaces, trailing garbage, "Infinity"). The parse result is a parameter.
- Memoisation with `useMemo` and `useCallback`, all JSX, CSS and colours, and the rule that shows a zero input as blank (src/App.js:278-560). These are presentation only.
- The copy handler's check that the summary element exists. The copy path is left out with the clipboard.
- The Tailwind configuration. It holds no logic.
