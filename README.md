# Mortgage calculator, modelled in Dafny

The repository is one stateless `Calculator` object with three operations:

- `calculate(price, rate, period, downPaymentPerc, annualTax, additionalFees)`:
  the monthly mortgage payment of a fixed-rate loan by the standard
  amortization formula, with the down payment, the principal, the optional
  monthly tax and fees, the monthly total, and the number of payments;
- `downPaymentValue(price, downPaymentPerc)`: the same split of the price
  into down payment and principal, without the loan;
- `downPaymentPerc(price, downPaymentPrice)`: the principal and the
  down-payment percentage for a down payment given as an amount.

Each operation runs a chain of guards, where the first failing guard decides
the error message. It then computes with the price rounded to the cent and
reports every figure twice: as `Math.ceil` of it (the `...Int` keys) and
rounded to two decimals (the `...Decimal` keys). The code catches its own
errors and returns them, so every outcome is a value. The model makes it
a `Result` (`Ok(fields)` or `Err(message)`).

All three operations are pure, so they are Dafny functions, and the
properties are lemmas about them. Numbers are exact `real`s. An argument is
`Num(x)`, `NonNumber` (a truthy value that is not a number) or `Absent` (a
falsy value that is not a number: `undefined`, `null`, `""`, `false`).
`Num(0.0)` is falsy too, as in JavaScript.

Files:

- `rounding.dfy`: `Ceil` (`Math.ceil`) and `Round2` (`+x.toFixed(2)`, to the
  cent, a tie going away from zero), with their laws.
- `amortization.dfy`: `Pow`, the payment formula, the month-by-month loan
  balance, and the proof that the payment repays the loan exactly at the
  last payment and not before.
- `calculator.dfy`: argument values, guards, result records and the three
  operations.
- `properties.dfy`: guard order, price split, monthly total, repayment,
  agreement between operations, and the documented example figures.
- `findings.dfy`: the rounding gap in `downPaymentPerc` (see Findings).

`Math.pow(1 + r, n)` takes a real exponent `n = period * 12`. So `Calculate`
takes the power function as a parameter `pow`. Its only requirement,
`GrowsAboveOne`, is that a base above 1 raised to a positive exponent stays
above 1; real exponentiation has this property. The repayment lemma applies
when `period * 12` is a whole number of months. It also requires that `pow`
gives the natural power for that base and exponent.

Where the code and its documentation differ, the model follows the code:

- An optional tax or fee of `0` counts as not given, because of the falsy
  check. It does not fail the "must be a positive number" guard.
- The down-payment price is compared with the price as given, before
  either is rounded to the cent.

## Model

| member | source | states |
|---|---|---|
| `Rounding.Ceil` | calculator.js:39-51 | `Math.ceil`: the result is the least integer not below `x`, `x <= c < x + 1` |
| `Rounding.Round2` | calculator.js:21 | `toFixed(2)` as a number: a whole number of cents within half a cent of `x`, same sign as `x` |
| `Rounding.Round2OfCents` | calculator.js:101 | rounding a whole number of cents again leaves it unchanged (idempotence) |
| `Rounding.Round2AddCents` | calculator.js:30-37 | adding whole cents commutes with rounding to the cent |
| `Rounding.Round2Monotone` | calculator.js:98-101 | rounding to the cent preserves order, so a down payment below the price never rounds above it |
| `Rounding.Round2IsZero` | calculator.js:21 | a positive price rounds to zero exactly when it is below half a cent |
| `Rounding.CeilOfSum` | calculator.js:41-44 | separately taken ceilings add up to the ceiling of the sum or one more |
| `Amortization.Pow` | calculator.js:26 | natural power: at least 1 for a base of at least 1, above 1 for a base above 1 and a positive exponent |
| `Amortization.Payment` | calculator.js:26 | the payment `M` satisfies `M * (g - 1) == P * r * g`, and it is above the first month's interest `P * r` for a positive loan |
| `Amortization.BalanceClosedForm` | calculator.js:26 | closed form of the balance after `k` monthly payments |
| `Amortization.PaymentRepaysLoan` | calculator.js:26 | after `n` payments of the formula's `M`, nothing is owed |
| `Amortization.PowIncreasing` | calculator.js:26 | `(1 + r)^k` grows with `k` |
| `Amortization.BalanceBeforeTermIsPositive` | calculator.js:26 | before the last of the `n` payments, part of a positive loan is still owed |
| `Calculator.RejectsPositive` | calculator.js:14-15 | the price and rate guard rejects exactly the arguments that are not a number above 0 |
| `Calculator.RejectsPeriod` | calculator.js:16 | the period guard rejects exactly the arguments that are not a number strictly between 0 and 100 |
| `Calculator.RejectsPercent` | calculator.js:17 | the percentage guard rejects exactly the arguments that are not a number from 1 to 99 inclusive |
| `Calculator.RejectsOptional` | calculator.js:18-19 | the tax and fee guards pass exactly the absent values and the numbers from 0 up |
| `Calculator.RejectsDownPrice` | calculator.js:98 | the down-payment price guard rejects exactly the arguments that are not a number strictly between 0 and the given price |
| `Calculator.Report` | calculator.js:38-52 | each figure's integer field is its ceiling, and its decimal field is whole cents within half a cent of it |
| `Calculator.SplitPrice` | calculator.js:24-25 | down payment plus principal is the price, the down payment is `price * perc / 100`, and both parts are positive and below a positive price |
| `Calculator.MonthlyRate` | calculator.js:22 | the monthly rate is the annual percentage over 1200, positive for a positive rate |
| `Calculator.MonthlyTax` | calculator.js:28-33 | the monthly tax is whole cents and not negative, and it is 0 when no tax is given |
| `Calculator.MonthlyFees` | calculator.js:34-37 | the monthly fees are whole cents and not negative, and they are 0 when no fees are given |
| `Calculator.Calculate` | calculator.js:12-58 | `calculate` succeeds exactly when the price and rate are positive numbers, the period is in (0, 100), the percentage is in [1, 99], and the tax and fees are absent or numbers of at least 0 |
| `Calculator.DownPaymentValue` | calculator.js:67-86 | succeeds exactly for a positive price and a percentage in [1, 99]; the price error comes before the percentage error |
| `Calculator.DownPaymentPerc` | calculator.js:95-117 | succeeds exactly for a positive price and a down-payment price strictly between 0 and it; the principal reported is never negative |
| `CalculatorProperties.FirstFailure` | calculator.js:14-19 | the result is the message of the first failing guard, and there is none exactly when every guard passes |
| `CalculatorProperties.CalculateReportsFirstFailure` | calculator.js:14-19 | `calculate` fails exactly when a guard fails, with the message of the earliest one in the order price, rate, period, percentage, tax, fees |
| `CalculatorProperties.NegativePriceIsRejectedFirst` | calculator.js:14 | a price of -100 is reported as the price error whatever the other arguments |
| `CalculatorProperties.BoundaryValues` | calculator.js:16-17 | percentages 1 and 99 pass, 0, 0.5 and 100 fail; a period of 100 fails and 99.99 passes |
| `CalculatorProperties.CalculateSplitsPrice` | calculator.js:21-25 | on success the down payment and principal add up exactly to the price rounded to the cent; both are positive and below it once the price is at least half a cent; their ceilings add up to the price's ceiling or one more |
| `CalculatorProperties.CalculateReportsSplit` | calculator.js:24-25 | the down payment and principal fields of `calculate` report the split of the price rounded to the cent |
| `CalculatorProperties.SplitOfRoundedPrice` | calculator.js:21-25 | both parts of the rounded price are positive and below it from half a cent up, both are 0 below that, and their ceilings add up to the price's ceiling or one more |
| `CalculatorProperties.CalculateAgreesWithDownPaymentValue` | calculator.js:72-80 | `downPaymentValue` reports the same principal and down payment as a successful `calculate`, and both reject an invalid price with the same message |
| `CalculatorProperties.MonthlyTotal` | calculator.js:27-37 | the total's decimal field is exactly the sum of the mortgage, tax and fee decimals; the tax is annual tax / 12 to the cent and the fees are given fees to the cent, each 0 when absent |
| `CalculatorProperties.CalculateReportsMonthly` | calculator.js:26-37 | the monthly fields report the amortization payment on the principal (never negative), the monthly tax, the fees, and their sum as the total |
| `CalculatorProperties.TotalOfCents` | calculator.js:32-36 | rounding a non-negative amount plus whole cents to the cent gives the rounded amount plus those cents |
| `CalculatorProperties.AbsentOptionalsContributeZero` | calculator.js:28-49 | an absent or zero tax or fee is still reported, as 0 and 0.00; with neither, the total equals the mortgage payment; the number of payments is `period * 12` unrounded |
| `CalculatorProperties.MortgageRepaysPrincipal` | calculator.js:22-26 | for a whole number of months, the reported payment repays the reported principal at the monthly rate exactly at the last payment and not before |
| `CalculatorProperties.DownPaymentPercFigures` | calculator.js:100-110 | with a price of at least half a cent, down payment plus principal is the price rounded to the cent, and the percentage is the down payment's share of it to the cent, between 0 and 100 |
| `CalculatorProperties.RoundedShareIsPercent` | calculator.js:104 | a part of a positive whole, as a percentage rounded to the cent, lies in [0, 100] |
| `CalculatorProperties.ThirtyYearScenario` | calculator.js:21-49 | `calculate(300000, 6.5, 30, 20)` has principal 240000, down payment 60000, 360 payments and zero tax and fees |
| `CalculatorProperties.HalfDownScenario` | calculator.js:72-80 | `downPaymentValue(500000, 50)` gives 250000 down and 250000 principal |
| `CalculatorProperties.TwentyPercentScenario` | calculator.js:100-111 | `downPaymentPerc(200000, 40000)` gives principal 160000 and percentage 20 |
| `Findings.DownPaymentPercRoundingGap` | calculator.js:98-104 | the guards let through a price that rounds to 0 (percentage `NaN`) and a down payment that rounds up to the price (principal 0, percentage 100) |
| `Findings.DownPaymentPercChecked` | calculator.js:97-104 | with the bounds checked on the cent-rounded amounts, success gives a real percentage in [0, 100] and two positive parts that add up to the rounded price |
| `Findings.CheckedAgreesWithDownPaymentPerc` | calculator.js:95-117 | where the checked version succeeds it returns what the code returns, and it rejects both inputs of the gap |

## Left out

- Floating point: numbers are exact reals. IEEE-754 rounding error, `NaN` and `Infinity` as arguments are not modelled; for example, an infinite price passes the price guard in the code.
- `Rounding.Round2`: models `toFixed(2)` on the exact value. Binary representation effects (for example `(1.005).toFixed(2)` giving `"1.00"`) are not modelled.
- The decimal fields are strings in the code and reals here. String formatting is not modelled.
- `Calculator.Calculate`: `Math.pow` is a parameter. `Calculate` assumes only that it grows above 1. The repayment lemma also assumes it gives the natural power at the one point it uses. The monthly payment is therefore related to the loan balance only when `period * 12` is a whole number.
- `CalculatorProperties.ThirtyYearScenario`: does not compute the monthly payment of about 1516.96, because that needs the value of `(1 + 0.065/12)^360`.
- A near-zero monthly rate makes the formula's denominator vanish in floating point. This is not modelled, because the rate guard ensures `r > 0`, and with exact reals `(1 + r)^n > 1`.
- Wiring: `module.exports = new Calculator()` is not modelled. The identity of the returned `Error` object is not modelled; an error is just its message.
- Other JavaScript argument kinds are collapsed into `NonNumber` (truthy) and `Absent` (falsy). A `NaN` argument, a falsy number, is not modelled.

## Findings

| source | as written | input that shows it | evidently intended | confidence | as-written member | corrected member |
|---|---|---|---|---|---|---|
| calculator.js:98-104 | `downPaymentPerc` checks `0 < downPaymentPrice < price` on the amounts as given, then rounds both to the cent and divides by the rounded price | price 0.004 with down payment 0.001: both round to 0, so the percentage is `0 / 0`, which is `NaN`. Price 100.004 with down payment 100.001: both round to 100.00, so the principal is 0 and the percentage is 100 | a positive price and a down payment strictly below it after rounding, so the principal is positive and the percentage is a number | medium, not executed | `Findings.DownPaymentPercRoundingGap` | `Findings.DownPaymentPercChecked` |
