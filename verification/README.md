# SIP and GST calculators, modelled in Dafny

The application has two finance calculators, each a single form.

- The **SIP calculator** covers a systematic investment plan. It takes a monthly investment, a duration in years and an expected annual return rate. It computes the amount invested, the estimated returns and the maturity amount. It uses the annuity-due formula `P·((1+r)^n − 1)/r·(1+r)`, with the monthly rate `r = annualRate/12/100` and the month count `n = years·12`. The results screen also shows a "% Returns" figure and the width of a principal bar.
- The **GST calculator** covers India's Goods and Services Tax. It either adds tax on top of an amount or backs the tax out of a tax-inclusive amount. The rate is picked from 0, 5, 12, 18 or 28 %. It stores a record `{gstAmount, netAmount, originalAmount}`, and what the two amount fields mean depends on the mode:
  - after **Add**, `netAmount` holds the tax-inclusive total and `originalAmount` holds the input;
  - after **Remove**, `netAmount` holds the base and `originalAmount` holds the inclusive input.

  The model keeps this record as written. `Gst.Exclusive` and `Gst.Inclusive` read it by mode.

Each calculator is a state record: the parsed input fields plus the last result, where `None` stands for null. Calculate and Reset are pure functions from state to state. Arithmetic is over exact `real`.

- A parsed field is an `Option<real>`. `None` stands for the NaN that `parseFloat` returns for an empty or non-numeric field.
- The JavaScript test `!x` becomes `Fields.Falsy`, meaning NaN or zero. Both calculators use it, and `Fields.Positive` for "parsed and greater than zero".
- Each `alert` becomes a `Failure` carrying the reason. The GST calculator checks the amount first and the rate second.

Files:
- `wrappers.dfy`: the `Option` and `Result` types, and the field tests `Fields.Falsy` and `Fields.Positive`.
- `annuity.dfy`: a recursive power function, the annuity-due sum `b + b² + … + bⁿ` and the geometric-series identity. It also has a month-by-month ledger that independently checks the closed form.
- `sip.dfy`: the SIP form, `CalculateSip`, `Submit`, `Reset` and the two display ratios.
- `gst.dfy`: the GST form, `CalculateGst`, `Submit`, `Reset`, the round trips and the bounds.
- `gst_display.dfy`: which stored figure the results panel shows under which label.

## Model

| member | source | states |
|---|---|---|
| Sip.CalculateSip | App.tsx:26-49 | It fails exactly when a field is NaN, zero or negative. On success the invested total is P·years·12, the maturity is P times the annuity-due sum at growth 1 + annualRate/1200 over the months, maturity = invested + returns, and maturity > invested |
| Sip.MonthlyRate | App.tsx:36 | The monthly rate times 1200 is the annual percentage, and it is positive exactly when the annual rate is |
| Sip.MonthCount | App.tsx:37 | The month count equals years·12 and is at least one |
| Sip.Submit | App.tsx:26-49 | A rejected calculation leaves the whole state unchanged. An accepted one stores exactly the calculated figures, which are consistent, and keeps the inputs. The invariant "any stored result is consistent" is preserved |
| Sip.Reset | App.tsx:51-56 | All three inputs become empty (NaN) and the result becomes null. The invariant holds afterwards |
| Sip.SubmitAfterResetRejected | App.tsx:51-56 | After a reset, Calculate is rejected and changes nothing |
| Sip.ReturnsPercentage | App.tsx:121-124 | It is 0 when there is no result. Otherwise it lies strictly between 0 and 100 and equals returns/maturity·100 |
| Sip.PrincipalWidth | App.tsx:320 | The bar width lies strictly between 0 and 100 and equals invested/maturity·100 |
| Sip.ShareSplitsBar | App.tsx:320 | The returns percentage and the principal width add up to exactly 100 |
| Sip.TenYearExample | App.tsx:36-42 | 5000 a month for 10 years at 12 % gives r = 0.01, 120 months and 600000 invested. The maturity lies strictly between 1161695 and 1161696, and the returns strictly between 561695 and 561696 |
| Sip.MonthlyGrowthOverTenYears | App.tsx:40 | The factor (1 + r)^n that the maturity formula raises for r = 0.01 and n = 120 lies strictly between 3.3003868 and 3.3003869 |
| Sip.RejectedExamples | App.tsx:31-34 | A zero investment, a negative duration and a zero rate are each rejected |
| Annuity.DueSumTelescopes | App.tsx:39-40 | (b − 1)·(b + … + bⁿ) = (bⁿ − 1)·b for every b and every whole n |
| Annuity.ClosedFormIsDueSum | App.tsx:39-40 | For r ≠ 0, the closed form ((1+r)ⁿ − 1)/r·(1+r) equals the annuity-due sum Σ_{k=1..n} (1+r)^k |
| Annuity.DueSumExceedsCount | App.tsx:40-42 | With growth above 1, n ≥ 1 payments grow to more than n, so the returns are positive |
| Annuity.SimulateMonths | App.tsx:39-40 | Paying at the start of each month and compounding at its end ends at P times the annuity-due sum, which for r ≠ 0 is the closed form |
| Gst.CalculateGst | GSTCalculator.tsx:34-69 | InvalidAmount exactly when the amount is NaN, zero or negative. InvalidRate exactly when the amount is valid and the rate is negative. On success: inclusive = exclusive + tax, tax·100 = exclusive·rate, and the input is the exclusive figure (Add) or the inclusive figure (Remove), with the record fields read by mode |
| Gst.SplitsDeterminesResult | GSTCalculator.tsx:52-68 | For a valid amount and rate, any record meeting those three equations is exactly the stored result |
| Gst.AddThenRemove | GSTCalculator.tsx:52-68 | Removing tax from the Add total at the same rate returns exactly the original amount as base, with the same tax |
| Gst.RemoveThenAdd | GSTCalculator.tsx:52-68 | Adding tax to the Remove base at the same rate returns exactly the inclusive amount as total, with the same tax |
| Gst.ZeroRateIsIdentity | GSTCalculator.tsx:52-62 | At rate 0 the tax is 0 and both stored amounts equal the input, in either mode |
| Gst.RemoveBounds | GSTCalculator.tsx:57-62 | In Remove mode, 0 < base ≤ amount and tax ≥ 0. The base is strictly smaller exactly when the rate is positive |
| Gst.AddBounds | GSTCalculator.tsx:52-56 | In Add mode, tax ≥ 0 and total ≥ amount. The total is strictly larger exactly when the rate is positive |
| Gst.OfferedRatesAccepted | GSTCalculator.tsx:18-24 | Every rate in the selector passes the rate check, and the default 18 is one of them |
| Gst.Submit | GSTCalculator.tsx:34-69 | A rejected calculation leaves the state unchanged. An accepted one stores a result meeting the three equations and keeps the inputs |
| Gst.Reset | GSTCalculator.tsx:71-76 | The amount becomes empty, the rate becomes the default 18 (one of the offered rates), the mode becomes Add and the result becomes null |
| Gst.SubmitAfterResetRejected | GSTCalculator.tsx:71-76 | After a reset, Calculate is rejected for the missing amount and changes nothing |
| Gst.WorkedExamples | GSTCalculator.tsx:38-68 | 10000 at 18 % in Add mode stores (1800, 11800, 10000). 11800 at 18 % in Remove mode stores (1800, 10000, 11800). A negative amount is rejected before a negative rate |
| GstDisplay.PanelAsWritten | GSTCalculator.tsx:200-262 | The six captions and the stored field shown under each, per mode, as written. Add mode: netAmount under "Original Amount" and "Base Amount", originalAmount under "Total Amount (Incl. GST)" and "Total". Remove mode: netAmount under the base captions and originalAmount under the inclusive ones |
| GstDisplay.AsWrittenMislabelsAdd | GSTCalculator.tsx:200-244 | As written, the Add-mode panel shows the total under "Original Amount" and the input under "Total Amount (Incl. GST)". It is honest exactly when the rate is 0 |
| GstDisplay.AsWrittenExample | GSTCalculator.tsx:207-241 | For 10000 at 18 % in Add mode, "Original Amount" shows 11800 and the total shows 10000 |
| GstDisplay.AsWrittenHonestInRemove | GSTCalculator.tsx:251-262 | As written, the Remove-mode card and breakdown show each figure under its own label |
| GstDisplay.PanelHonest | GSTCalculator.tsx:200-262 | The corrected panel is honest in both modes. In Add mode it shows the input as "Original Amount" and input + tax as the total |
| GstDisplay.PanelsAgreeInRemove | GSTCalculator.tsx:251-262 | The corrected panel differs from the as-written one only in Add mode |

## Left out

- Sip.CalculateSip: the duration must be a whole number of months (`WholeMonths`). `Math.pow` with a fractional exponent has no exact counterpart over Dafny reals, so fractional month counts are not modelled.
- Sip.Submit: has the same whole-months restriction, for the same reason.
- Sip.MonthCount: requires `years·12` to be a whole number. The code also computes fractional month counts (years = 1.1 gives 13.2) and passes them to `Math.pow`, which is not modelled for the same reason.
- `parseFloat` string parsing is not modelled. A field is its parsed value, and NaN is `None`. Partial parses such as "12abc" are not distinguished.
- IEEE-754 rounding, Infinity and −0 are not modelled. All arithmetic is over exact reals. An `Infinity` typed into a field is not modelled.
- A NaN GST rate is not modelled, because the rate only comes from the fixed selector. It is a `real`, and negative rates are still rejected as in the code.
- `Intl.NumberFormat` currency formatting is not modelled. It is a locale library call with presentation-only rounding: 0 decimals for SIP and 2 for GST. The `toFixed(1)` rounding of the returns percentage is left out for the same reason.
- The rate text inside the tax labels is omitted. The label text has no bearing on which figure is shown.
- Changing the mode or the rate after a calculation is not modelled. The stored result is kept, and the panel labels then follow the new mode. `GstDisplay` takes the mode the result was computed in.
- Screen navigation, JSX layout, styling and the fade-in animation are UI only. This includes the calculator-selection screen, which the two-valued calculator type makes unreachable.
- `alert` dialogs become `Failure` values. The message text appears only as a comment on each error constructor.

## Findings

| source | as written | input that shows it | evidently intended | confidence | as-written member | corrected member |
|---|---|---|---|---|---|---|
| GSTCalculator.tsx:207-255 | In Add mode, the results card and the breakdown show `results.netAmount` under "Original Amount" / "Base Amount". After an Add calculation that field holds the tax-inclusive total. `results.originalAmount`, which holds the input, is shown under "Total Amount (Incl. GST)" / "Total" | amount 10000, rate 18 %, Add: "Original Amount" shows 11800 and "Total Amount (Incl. GST)" shows 10000 | The input appears as the original amount and input + tax as the total, as in Remove mode | high (not executed) | GstDisplay.AsWrittenMislabelsAdd | GstDisplay.PanelHonest |
