# Real no-cost EMI calculator: the amortization engine in Dafny

This project models the calculation core of a client-side EMI (equated
monthly instalment) calculator. Given a loan amount, a tenure in months, a
fixed monthly instalment, an annual interest rate and a one-time processing
fee, `calculateEMIBreakdown` builds a month-by-month breakdown. It also
returns the loan's "hidden cost" and that cost as a percentage of the loan
amount. The hidden cost is the processing fee with 18% GST plus the GST
charged on each month's interest. The model also covers the accept/reject
rule the form applies to every field before it calls the engine.

Each month, the engine:

- charges interest on the opening balance at `rate / 12 / 100`;
- adds 18% GST (`GST_RATE`) on that interest;
- repays the instalment minus the interest as principal, clamped to the
  outstanding balance;
- charges the processing fee with GST in month 1 only;
- reduces the running balance and adds the GST to the hidden cost.

Layout:

- `wrappers.dfy`: module `Wrappers`, the `Option` datatype.
- `breakdown.dfy`: module `EmiBreakdown`. It holds the data model (`Loan`,
  `MonthRecord`, `BreakdownResult`) and the specification functions:
  - `Record` is one month;
  - `BalanceAfter` is the balance after k months;
  - `Schedule` is the first k records;
  - `Breakdown` is the whole result.

  The module also holds `CalculateEmiBreakdown`, the original loop as a
  method. It keeps the running balance, the growing record list and the
  hidden-cost accumulator in local variables, and it is proved equal to
  `Breakdown`.
- `properties.dfy`: module `EmiProperties`, the properties of the
  breakdown, proved for all inputs.
- `scenarios.dfy`: module `EmiScenarios`, the concrete calculations of the
  project's tests.
- `validation.dfy`: module `InputValidation`. It holds the `validateInput`
  rule and what that rule guarantees the engine.

Modelling decisions:

- Arithmetic is exact `real`. The JavaScript double-precision rounding is
  not modelled.
- `loanTenure` is an `int`, which is what `parseInt` produces. The loop runs
  `max(0, loanTenure)` times.
- Dividing the hidden cost by a zero loan amount gives Infinity or NaN in
  JavaScript. This is modelled as `Percentage.NonFinite`.
- The product "opening balance × monthly rate" is named by the function
  `InterestOn`. Both the method and the specification use it.
- Where the code and the tests disagree, the model follows the code.
  - `__tests__/calculations.test.js:81` expects the record of the input
    (1, 1, 1, 1, 1) to hold a near-zero balance. `__tests__/ui.test.js:209`
    expects the first row to show the closing balance.
  - The code stores each month's *opening* balance in `remainingBalance`,
    because the record is pushed before the balance is reduced.
  - `EmiScenarios.MinimumInputs` and `EmiScenarios.NoCostFirstRow` state
    what the code stores. They also state the closing balance the tests
    had in mind: 1/1200 and 96720.
- The hidden cost excludes raw interest, as the code computes it.
  `HiddenCostComposition` states this.

## Model

| member | source | states |
|---|---|---|
| `EmiBreakdown.CalculateEmiBreakdown` | script.js:65-107 | The loop returns exactly `Breakdown` of its five arguments. Its records are the months in order, and its hidden cost is the fee with GST plus the GST of every month. The percentage is of the loan amount. |
| `EmiBreakdown.Schedule` | script.js:75-96 | Processing the first k months pushes exactly k records. |
| `EmiProperties.ScheduleAt` | script.js:75-98 | Record i of the breakdown is month i+1, computed from the balance left after i months. |
| `EmiProperties.BreakdownShape` | script.js:75-96 | The breakdown has `loanTenure` records (none for a non-positive tenure), and their `month` fields run 1, 2, … in order. |
| `EmiProperties.MonthEquations` | script.js:76-98 | Each record's `remainingBalance` is the month's opening balance. Interest is that balance times `rate/12/100`, and GST is 18% of the interest. The payment is the instalment plus GST plus the month's fee. The next record opens with this month's balance minus its principal repaid. |
| `EmiProperties.ZeroRateNoInterest` | script.js:66-83 | With a zero rate, every month has zero interest and zero GST. Its principal repaid is the whole instalment, clamped to the opening balance. |
| `EmiProperties.PrincipalClamped` | script.js:78-98 | The principal repaid never exceeds the opening balance, and is either that balance or the instalment minus the interest. The balance after every month is ≥ 0. It does not exceed the opening balance when the instalment covers the interest and the opening balance is ≥ 0. |
| `EmiProperties.OpeningBalancesNonNegative` | script.js:67-98 | For a non-negative loan amount, every month opens with a non-negative balance. |
| `EmiProperties.FeeFrontLoaded` | script.js:72-85 | Month 1 carries the fee × 1.18, and every later month carries 0. A zero fee gives 0 in every month. |
| `EmiProperties.HiddenCostComposition` | script.js:69-105 | The hidden cost is fee × 1.18 plus 0.18 × the total interest, so raw interest is excluded. With a zero fee it is the sum of the GST. The percentage is hidden cost / loan amount × 100, and is not finite for a zero loan amount. |
| `EmiProperties.HiddenCostPositive` | script.js:69-105 | For a positive amount, a non-negative rate and a positive fee, the hidden cost is at least fee × 1.18. It and its percentage are positive and finite. |
| `EmiProperties.PrincipalConserved` | script.js:67-98 | After any number of months, the loan amount equals the principal repaid so far plus the balance still owed. |
| `EmiProperties.BreakdownConservesPrincipal` | script.js:67-100 | The loan amount equals the sum of `principalRepaid` over the breakdown plus the balance left after the last month. |
| `EmiProperties.PaidOffStaysPaidOff` | script.js:76-98 | With a non-negative instalment, once the balance reaches 0 it stays 0. |
| `EmiProperties.PaidOffMonthsAreEmpty` | script.js:76-98 | Once the balance is 0, every later month opens at 0 and has zero interest, zero GST and zero principal repaid. |
| `EmiScenarios.NoCostFirstMonth` | __tests__/calculations.test.js:29-48 | For 100000 over 12 months at 15%, with fee 500 and instalment 100000/12: 12 records, month-1 interest 1250, GST 225 and fee 590. The month-1 payment exceeds the instalment, and the hidden cost and its percentage are positive. |
| `EmiScenarios.ZeroFeeAndZeroRateFirstMonth` | __tests__/calculations.test.js:68-76 | A zero fee gives a month-1 fee of 0. A zero rate gives month-1 interest and GST of 0. |
| `EmiScenarios.MinimumInputs` | __tests__/calculations.test.js:78-81 | Inputs (1,1,1,1,1) give one record, which holds the opening balance 1. The balance after the month is 1/1200. |
| `EmiScenarios.NoCostFirstRow` | __tests__/ui.test.js:177-209 | For 104000 over 12 months at 16% with instalment 104000/12, month 1 repays 7280. Its record holds the opening balance 104000, and the balance after it is 96720. |
| `InputValidation.ValidateInput` | script.js:51-62 | A field is accepted exactly when it parses to a number strictly greater than 0. NaN (empty or non-numeric input), zero and negative values are rejected. |
| `InputValidation.AcceptedInputsGivePositiveHiddenCost` | script.js:146-164 | When the amount, instalment, rate and fee pass validation and the tenure is a positive integer, the breakdown has one record per month and every opening balance is ≥ 0. The hidden cost and its percentage are positive and finite. |
| `InputValidation.ValidationExamples` | __tests__/calculations.test.js:96-116 | 1000 is accepted. −1000, 0 and empty input are rejected. |

## Left out

- DOM lookups, event listeners, form reset and scrolling (script.js:5-13, 33-48, 136-182) are user-interface plumbing. The guard of the submit handler appears only as the precondition of `AcceptedInputsGivePositiveHiddenCost`.
- `updateTable` and `updateSummary` only render strings into the page.
- `formatCurrency` and `formatPercentage` wrap a foreign locale library (`Intl.NumberFormat`).
- `parseFloat` and `parseInt` are not modelled. A field enters the model already parsed, with NaN as `None`.
  - Because parsing is out of the model, so is one gap it leaves: the tenure is validated with `parseFloat` but passed to the engine with `parseInt`. A tenure such as 0.5 therefore passes validation and yields an empty breakdown.
  - `Infinity` as a parsed value is not representable.
- ValidateInput: does not model the error message written to the field's error element.
- `calculateEMIAmount`, `calculateNoCostEMI`, `updateEMITypeButtons`, `updateEMIFieldVisibility`, `handleFormSubmit`, `handleRecalculate` and `handleInputChange` are called by the tests but not defined in script.js, so they are not part of this model. The EMI formula would also need floating-point exponentiation.
- IEEE-754 rounding and the tests' `toBeCloseTo` and `< 0.01` tolerances. The model is exact, so the 1/1200 balance of `MinimumInputs` stands in for the test's "< 0.01".
- The "total principal within 500 of the amount" check of `__tests__/calculations.test.js:64-65` holds for one input set only. `BreakdownConservesPrincipal` states the exact general relation instead.
- NaN or infinite arguments passed straight to the engine are not modelled.
