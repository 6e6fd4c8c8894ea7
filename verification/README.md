# Inflation calculator: income projection

This project models the single piece of logic in the inflation calculator: the
income-projection routine `calculateAdjustedIncome` of `app/page.tsx`. The
routine takes a start year, an end year, an annual inflation rate in percent and
a monthly income. For each year from the start year to the end year it produces
one row:

- the year;
- the nominal yearly income ("Current Income"), `round(monthlyIncome * 12)`;
- the inflation-adjusted yearly income ("Inflation-Adjusted Income"),
  `round(monthlyIncome * (1 + rate/100)^i * 12)`, where `i` counts the years
  since the start.

Layout:

- `js_math.dfy` (module `JsMath`) models the two host operations the routine
  calls. `Pow` stands for `Math.pow` with a non-negative integer exponent.
  `Round` stands for `Math.round`: it rounds to the nearest integer, and a tie
  goes towards positive infinity. The module also proves monotonicity facts
  about both.
- `income_projection.dfy` (module `IncomeProjection`) holds three things:
  - `CalculateAdjustedIncome`, the routine as a counted `while` loop that appends
    one `YearRecord` per round to a local sequence;
  - `Projection`, the pure function the loop is proved to compute;
  - the lemmas that state what the projection promises.

In `app/page.tsx` the four inputs are React state (lines 21-24). Here they are parameters.
Years are `int`. The rate and the income are exact `real`s.

Rounding and monotonicity, as the code has them:

- The routine rounds both income columns itself, with `Math.round`
  (app/page.tsx:40-41). Every value in a row is a whole number.
- For every range, the rounded adjusted column is guaranteed non-decreasing
  when the rate is non-negative and the income is non-negative
  (`ProjectionNonDecreasing`). It is not guaranteed to strictly increase:
  `ExampleRoundedNotStrict` gives a case where two consecutive rows are equal.
  The unrounded yearly income does strictly increase for a positive rate and a
  positive income (`AdjustedYearlyIncomeIncreasing`).
- A non-positive income reverses the direction: for every range, the rounded
  adjusted column is guaranteed non-increasing when the rate is non-negative
  and the income is non-positive (`ProjectionNegativeIncomeNonIncreasing`).
  `ExampleNegativeIncomeDecreases` shows a range where it strictly decreases.
- For every range, the rounded adjusted column is guaranteed non-increasing
  when the rate is between -100% and 0% and the income is non-negative
  (`ProjectionNonIncreasing`). Below -100% the compounding base is negative,
  and the column can alternate in sign (`ExampleBelowMinusHundredOscillates`).

## Model

| member | source | states |
|---|---|---|
| `IncomeProjection.CalculateAdjustedIncome` | app/page.tsx:27-46 | The loop returns exactly `Projection(startYear, endYear, inflationRate, monthlyIncome)`: one row per round, each built as in round `i` of the source loop. |
| `IncomeProjection.ProjectionLength` | app/page.tsx:28-31 | The projection has `max(0, endYear - startYear + 1)` rows. It is empty if and only if `endYear < startYear`. |
| `IncomeProjection.ProjectionYears` | app/page.tsx:31-32 | Row `i` is for year `startYear + i`. Consecutive rows differ by exactly one year. Years strictly ascend. The last row is `endYear`. |
| `IncomeProjection.ProjectionCurrentIncome` | app/page.tsx:35-40 | Every row's nominal income is `round(monthlyIncome * 12)`, whatever its index, rate or year. |
| `IncomeProjection.ProjectionAdjustedIncome` | app/page.tsx:33-41 | Row `i`'s adjusted income is `round(monthlyIncome * (1 + inflationRate/100)^i * 12)`. |
| `IncomeProjection.ProjectionFirstRecord` | app/page.tsx:33-41 | When the range is not empty, the first row is `startYear`. Its adjusted income equals its nominal income. |
| `IncomeProjection.ProjectionZeroRate` | app/page.tsx:33-41 | At a 0% rate, every row's adjusted income equals its nominal income. |
| `IncomeProjection.ProjectionCollapse` | app/page.tsx:33-41 | At a -100% rate, the adjusted income is 0 in every row after the first. |
| `IncomeProjection.AdjustedYearlyIncomeIncreasing` | app/page.tsx:33-36 | For a positive rate and a positive income, the unrounded adjusted yearly income strictly increases with the year offset. |
| `IncomeProjection.ProjectionNonDecreasing` | app/page.tsx:31-41 | For a non-negative rate and a non-negative income, the rounded adjusted column never decreases along the projection. |
| `IncomeProjection.ProjectionNonIncreasing` | app/page.tsx:31-41 | For a rate in [-100%, 0] and a non-negative income, the rounded adjusted column never increases along the projection. |
| `IncomeProjection.ProjectionNegativeIncomeNonIncreasing` | app/page.tsx:31-41 | For a non-negative rate and a non-positive income, the rounded adjusted column never increases along the projection. |
| `IncomeProjection.ExampleTenPercent` | app/page.tsx:27-46 | 2024 to 2026 at 10% on 1000 a month gives the rows (2024, 12000, 12000), (2025, 12000, 13200) and (2026, 12000, 14520). |
| `IncomeProjection.ExampleZeroIncome` | app/page.tsx:27-46 | 2024 to 2024 at 5% on 0 gives the single row (2024, 0, 0). |
| `IncomeProjection.ExampleEmptyRange` | app/page.tsx:28-31 | An end year of 2024 before a start year of 2025 gives no rows. |
| `IncomeProjection.ExampleRoundedNotStrict` | app/page.tsx:33-41 | At 0.001% on 1 a month, the first two rows both have an adjusted income of 12. Rounding makes the growth non-strict. |
| `IncomeProjection.ExampleBelowMinusHundredOscillates` | app/page.tsx:33-41 | At -300%, the adjusted column is 12, -24, 48. It alternates in sign, so it is not monotone. |
| `IncomeProjection.ExampleNegativeIncomeDecreases` | app/page.tsx:33-41 | At 10% on -1000 a month, the adjusted column is -12000, -13200, -14520. It decreases, so a non-negative income is needed for the non-decreasing guarantee. |
| `IncomeProjection.YearCount` | app/page.tsx:28-31 | The number of loop rounds: `endYear - startYear + 1` when that is positive, otherwise 0. |
| `IncomeProjection.Multiplier` | app/page.tsx:33 | The compounding factor `(1 + inflationRate/100)^offset`. |
| `IncomeProjection.AdjustedYearlyIncome` | app/page.tsx:34-36 | The unrounded yearly income `monthlyIncome * multiplier * 12` at a given offset. |
| `IncomeProjection.RecordAt` | app/page.tsx:32-41 | The row pushed in round `offset`: year `startYear + offset`, the rounded nominal and the rounded adjusted yearly income. |
| `IncomeProjection.Projection` | app/page.tsx:27-46 | The whole result as a value: `RecordAt` for each offset from 0 below `YearCount`. What it promises is stated by the `Projection*` lemmas. |
| `JsMath.Pow` | app/page.tsx:33 | `x^n` by recursion on `n`. This is `Math.pow` for a non-negative integer exponent. |
| `JsMath.Round` | app/page.tsx:40-41 | `Math.round(x)` is the integer `r` with `x - 1/2 < r <= x + 1/2`: the nearest integer, with ties rounded up. |
| `JsMath.RoundMonotone` | app/page.tsx:40-41 | Rounding preserves `<=`. |
| `JsMath.RoundOfInteger` | app/page.tsx:40-41 | A whole number rounds to itself. |
| `JsMath.PowOfOne` | app/page.tsx:33 | Every power of 1 is 1. This is the multiplier at a 0% rate. |
| `JsMath.PowOfZero` | app/page.tsx:33 | Every positive power of 0 is 0. This is the multiplier at a -100% rate. |
| `JsMath.PowNonNegative` | app/page.tsx:33 | A non-negative base has non-negative powers. |
| `JsMath.PowAtLeastOne` | app/page.tsx:33 | A base of at least 1 has powers of at least 1. |
| `JsMath.PowMonotone` | app/page.tsx:33 | For a base of at least 1, `m <= n` implies `x^m <= x^n`. |
| `JsMath.PowStrictlyMonotone` | app/page.tsx:33 | For a base above 1, `m < n` implies `x^m < x^n`. |
| `JsMath.PowAntitone` | app/page.tsx:33 | For a base in [0, 1], `m <= n` implies `x^n <= x^m`. |

## Left out

- The page's rendering is not modelled: the JSX layout, the theme provider, the card, input and label components, the table markup and the chart configuration (app/page.tsx:55-216). They are UI code and calls into foreign libraries.
- Display formatting is not modelled: `Intl.NumberFormat`, the currency prefixes and the Y-axis tick formatter. They are locale-dependent host library work.
- The React state hooks, their setters and the dark-mode flag are not modelled. The four inputs are passed as parameters instead.
- The default years taken from the clock (`new Date().getFullYear()`) are not modelled.
- The string-to-number coercion of the form fields is not modelled. That coercion can produce fractional years or 0 for empty text. The model takes integer years and real amounts as given.
- The HTML `min`/`max` attributes are browser hints that the routine does not enforce. They are not preconditions here.
- IEEE-754 rounding error in `Math.pow` and in the multiplications is not modelled, and neither are NaN and Infinity. The model uses exact real arithmetic. So `Round` is exactly `floor(x + 1/2)`, without the double-precision corner cases of `Math.round`.
- Negative zero is not modelled. `Math.round` returns -0 on [-0.5, -0], and `0 * negative` gives -0, which the table would then show as "-0". The model gives 0 in both cases.
- `JsMath.Pow` covers only a non-negative integer exponent. That is the only kind the routine uses.
