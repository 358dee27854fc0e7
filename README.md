# Cash or installments? — a verified model of the calculator's arithmetic

The calculator compares two ways of buying a product. One is paying in full
("à vista") at a discount and investing the amount saved. The other is paying
in equal installments ("parcelado") while the unpaid balance earns a monthly
yield. From four inputs (product value, discount %, monthly yield %, number of
installments) it computes the following:

- the cash price, the discount, what the invested discount earns over the
  period, and the net cash cost;
- the installment amount, and a month-by-month simulation that gives the
  accumulated yield (the chart), each month's closing balance, the total
  yield and the net installment cost;
- a verdict that says which net cost is lower, and by how much;
- a detail table that recomputes the schedule row by row.

Every displayed amount has its separators rewritten for the Brazilian locale:
`,` becomes `X`, then `.` becomes `,`, then `X` becomes `.`.

The model works over exact `real` numbers. It has three modules:

- `BrazilianLocale` (locale.dfy): the separator rewrite, written as the three
  chained one-character replacements.
- `Finance` (finance.dfy): `Pow` for `**`, the cash-option formulas, and the
  schedule as two recursive specification functions. `BalanceAfter` gives the
  balance after k months and `YieldAfter` the yield accumulated over them.
  The module also holds the lemmas about these functions.
- `Comparator` (comparator.dfy): the verdict and the two loops, each a
  `method` proved against `BalanceAfter`/`YieldAfter`. It also holds the
  evaluation as a whole. `Expected` specifies it, with the guard first.
  `Run` performs it in the calculator's order and is proved equal to
  `Expected`.

How the source's steps are modelled:

- The installment count is an `int` and carries no precondition. A count of
  zero or less yields `Err(NonPositiveInstallments)` before anything is
  derived, which is what the halt at app.py:50-52 does.
- The input fields' minimums are value ≥ 100, discount ≥ 0, yield ≥ 0 and
  count ≥ 1. They are not preconditions of the operations, because the
  arithmetic is total over the reals. `WithinFieldMinimums` states them; it is
  the hypothesis of `Comparator.FieldMinimumsKeepFiguresInRange`, while the
  `Finance` lemmas that need sign facts assume only the weaker value ≥ 0,
  discount ≥ 0 and yield ≥ 0.
- The source is a script that updates local variables in loops. Those loops
  become methods with local state and `for` loops. The detail table's rows
  are a sequence of `DetailRow` values.

Over exact reals, with a non-negative value and yield and an installment of
value/n, no balance within the n months is negative
(`Finance.ScheduleStaysNonNegative`).

## Model

| member | source | states |
|---|---|---|
| `BrazilianLocale.ReplaceChar` | app.py:90 | One `replace` call with one-character arguments: the length is kept, each occurrence of the old character becomes the new one, and every other character is unchanged |
| `BrazilianLocale.SwapChar` | app.py:90 | What the three replacements do to one character: the result is never the marker `X`, and a character other than `X` is a separator (`,` or `.`) after the swap exactly when it was one before |
| `BrazilianLocale.SwapSeparators` | app.py:90 | The three chained replacements turn each `,` and each `X` into `.`, each `.` into `,`, and keep every other character; the length is kept and no `X` remains |
| `BrazilianLocale.Currency` | app.py:147-150 | A displayed amount is `R$ ` followed by the swapped number text; the prefix is not altered by the swap |
| `BrazilianLocale.SwapWithoutMarker` | app.py:90 | On text with no `X`, the swap exchanges `,` and `.` and leaves all other characters in place |
| `BrazilianLocale.SwapIsInvolution` | app.py:90 | On text with no `X`, applying the swap twice gives the original text back |
| `BrazilianLocale.SwapDistributes` | app.py:92 | The swap of a concatenation is the concatenation of the swaps, so a message and its amount are rewritten independently |
| `BrazilianLocale.CaptionUntouched` | app.py:117 | A message caption with no `,`, `.` or `X` passes through the swap unchanged; only the amount after it is rewritten |
| `BrazilianLocale.SwapExample` | app.py:90 | The English-grouped text `1,234.50` is displayed as `1.234,50` |
| `Finance.Pow` | app.py:59 | `**` with a natural exponent; a non-negative base gives a non-negative power |
| `Finance.PowOfOne` | app.py:59 | Raising 1 to any number of months gives 1, so a zero yield rate gives a compound factor of 1 |
| `Finance.PowAtLeastOne` | app.py:59 | A base of at least 1 raised to any number of months is at least 1 |
| `Finance.CashOptionOf` | app.py:57-60 | The cash price and the discount add up to the value, and the discount is value × discount% / 100; the discount plus its yield equals the discount times the compound factor (the cash column's final balance, line 93); the net cost plus the yield equals the cash price |
| `Finance.CashWithoutDiscount` | app.py:57-58 | With a 0% discount the cash price is the value, the discount and its yield are 0, and the net cash cost is the value |
| `Finance.CashAtZeroRate` | app.py:59-60 | With a 0% yield the discount earns nothing and the net cash cost equals the cash price |
| `Finance.CashYieldNonNegative` | app.py:59-60 | With non-negative value, discount and yield, the discount and its yield are non-negative, so the net cash cost is at most the cash price |
| `Finance.InstallmentAmount` | app.py:63 | The count times the installment is exactly the value |
| `Finance.MonthlyYield` | app.py:71 | One month's yield on the opening balance (also app.py:142); it is non-negative when the balance and the rate are, and zero at a 0% rate |
| `Finance.BalanceAfter` | app.py:68-76 | The loop's `saldo_atual` after k months (and the detail loop's `saldo_calc`, app.py:139-152). It is the specification both loop methods are proved against; its properties are the lemmas `BalanceIsValuePlusYieldMinusPaid`, `FinalBalanceIsTotalYield` and `ScheduleStaysNonNegative` |
| `Finance.YieldAfter` | app.py:64-73 | The loop's accumulator `rendimento_total_parcelado` after k months. Its properties are the lemmas `NoYieldAtZeroRate`, `ScheduleStaysNonNegative` and `YieldGrowsMonthly` |
| `Finance.BalanceIsValuePlusYieldMinusPaid` | app.py:71-75 | After k months the balance is the value plus the yield accumulated so far minus k installments |
| `Finance.FinalBalanceIsTotalYield` | app.py:105 | With installment value/n, the balance after the last month equals the total installment yield, which line 105 displays as the final balance |
| `Finance.NoYieldAtZeroRate` | app.py:71-72 | At a 0% yield the accumulated yield is 0 after any number of months |
| `Finance.ScheduleStaysNonNegative` | app.py:68-76 | With a non-negative value and yield, no balance within the n months is negative, and neither is the accumulated yield |
| `Finance.PaidWithinValue` | app.py:63 | Within the n months, the installments paid so far are non-negative and never exceed the value |
| `Finance.YieldGrowsMonthly` | app.py:72-73 | With a non-negative value and yield, each month's accumulated yield is at least the previous month's |
| `Comparator.Compare` | app.py:114-125 | The verdict is cash-better exactly when the net cash cost is strictly lower, installment-better exactly when the net installment cost is strictly lower, and a tie exactly when the two are equal; a saving is positive and is the gap between the two costs |
| `Comparator.CompareIsAntisymmetric` | app.py:114-123 | Exchanging the two net costs exchanges the two winning verdicts and keeps the saving |
| `Comparator.SimulateInstallments` | app.py:63-76 | The loop runs exactly n months and both lists have length n; entry i holds the yield accumulated and the balance closing after month i+1; the final total equals the last balance |
| `Comparator.RowAt` | app.py:141-151 | Detail row i is month i+1, opens with the balance after i months, pays the installment, and closes at its opening plus its yield minus the installment |
| `Comparator.DetailSchedule` | app.py:139-152 | The table has n rows; row i is month i+1 and opens with the balance after i months; it holds that month's yield and the installment, and closes with the balance after i+1 months |
| `Comparator.WithinFieldMinimums` | app.py:20-47 | The fields' minimums: value ≥ 100, discount ≥ 0, yield ≥ 0 and count ≥ 1. By `Comparator.Expected`'s contract, inputs within them always pass the guard of app.py:50-52 |
| `Comparator.InstallmentOptionOf` | app.py:63-78 | The installments add up to the value; the two lists have length n; the last chart point and the last balance both equal the total yield; the net installment cost plus the total yield equals the value |
| `Comparator.Expected` | app.py:50-152 | An evaluation fails exactly when the installment count is zero or less, and then no derived figure is produced |
| `Comparator.Run` | app.py:50-152 | The guard, the cash formulas, the simulation loop, the verdict and the detail loop, run in order, give exactly the specified evaluation |
| `Comparator.ReportIsConsistent` | app.py:139-152 | The detail table recomputes the simulation's balances. Each row opens where the previous row closed, and closes at its opening plus its yield minus the installment. Each chart point is the previous one plus that month's yield |
| `Comparator.NeutralInputsTie` | app.py:124-125 | With no discount and a 0% yield, both net costs equal the value, the total yield is 0, and the verdict is a tie |
| `Comparator.ZeroRateFavoursCash` | app.py:114-118 | With a 0% yield and a positive discount on a positive value, paying in full wins by exactly the discount |
| `Comparator.FieldMinimumsKeepFiguresInRange` | app.py:20-47 | Over exact reals, for inputs the fields accept, no balance in the schedule or in the detail table is negative, the charted yield never falls, and neither net cost exceeds the amount paid for that option |
| `Comparator.DefaultInputs` | app.py:20-47 | For the default inputs (1000, 3%, 1%, 2 installments): cash price 970, discount 30, discount yield 0.603 and net cash cost 969.397. Installment 500, chart [10, 15.1], balances [510, 15.1] and net installment cost 984.9. The verdict is cash better by 15.503 |

## Left out

- The user interface: page setup, titles, input widgets, columns, metrics, info and success boxes, the error message, the chart and the expander (app.py:8-47, 82-137, 154). Only the halt itself is modelled, as the `Err` result.
- Table and chart construction with a data-frame library (app.py:129-132, 138, 145). The chart's month column is the position in `cumulativeYields` plus one.
- The unused numeric and plotting imports (app.py:4-5).
- Binary floating point: amounts are exact reals. The identity in `Finance.FinalBalanceIsTotalYield` and the tie branch hold exactly here, but only approximately in floats. Two float effects are therefore not modelled:
  - Rounding can leave a tiny negative final balance. With value 100, yield 0 and 3 installments, which the fields accept, 100/3 rounds up, and the three subtractions at app.py:75 and app.py:143 end at about −1.4e−14. Line 150 displays that as `R$ -0,00`. Over reals the same schedule ends at exactly 0.
  - The float `**` at app.py:59 raises an overflow error when the compound factor leaves the double range, for example a 1% yield over 100000 installments. The count field has no maximum. The real-valued model has no such error path: `Finance.Pow` is defined for every count.
- The `{:,.2f}` number format (rounding to two decimals and thousands grouping): it belongs to the language's formatting library. The separator swap is modelled on the text that format produces, which `BrazilianLocale.Currency` takes as a parameter.
- Comparator.DetailSchedule: its rows hold the amounts themselves, not their formatted `R$` text; `BrazilianLocale.Currency` gives that text for a formatted amount.
- Re-running the computation on every input change: each evaluation is a pure function of its inputs, so running it again with the same inputs gives the same result by construction.
