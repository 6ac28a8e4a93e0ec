# WealthPilot projection engine, modelled in Dafny

WealthPilot is a personal-finance front end. Its only logic with defined behaviour is the
financial-projection engine and the budget planner's package recommendation. This project models both:

- **Package catalog.** A fixed, ordered table of four investment packages: Conservative 3%,
  Balanced 5%, Growth 7% and Aggressive 9% annual expected return. A package's position is both
  its lookup key and its risk tier. An index outside the table selects Conservative.
- **Monthly recurrence.** One month is `balance * (1 + r/12) + contribution`: growth first, then the
  contribution. `Investment.Grow` applies it a given number of months. It is the one shared primitive
  behind both engine operations.
- **`runProjection`** (`Investment.RunProjection`). A method with the source's nested year/month loop.
  It fills the `labels` and `values` sequences and computes `totalContributions`, `futureValue` and
  `realValue`. It is proved equal to the reference value `Investment.Projection`, which defines year
  `y` directly as the balance after `12*y` months. The lemmas beside it state the promised properties
  of that value.
- **`estimateNetWorth`** (`Investment.EstimateNetWorth`). The same loop from a zero balance, with
  `years` defaulting to 20. It is proved equal to `Investment.NetWorth`.
- **Recommendation rule** (`Income.Recommend`). The recommendation computed in the budget planner
  page, as pure functions:
  - the invested amount: 40% of disposable income, never below zero, capped by savings;
  - the ratio of that amount to income, which is 0 for a zero income;
  - the tier ladder at 0.1, 0.2 and 0.3;
  - the twenty-year estimate for that tier.

Arithmetic is over Dafny's exact `real`. `Math.pow` with an integral exponent is iterated
multiplication (`Investment.Pow`, `Investment.PowInt`). `year.toString()` is the decimal numeral of
the year (`Decimal.NatToString`), proved to read back as the year.

On two edge inputs the code behaves as follows, and so does the model:
- A negative `years` gives empty `labels` and `values`. The loop never runs, so `futureValue` is the
  starting balance. `totalContributions` is the starting balance plus `monthlyContribution * years * 12`,
  so it is below the starting balance only for a positive contribution. `realValue` multiplies by
  `(1 + inflation/100)^|years|`, and is 0 when inflation is -100% (a division by `Math.pow(0, years)`,
  which is Infinity).
- The ratio is computed for any non-zero income (`income ? invest / income : 0`), a negative one
  included. With a negative income and non-negative savings the ratio is at most 0, so the tier is 0.
  With negative savings the amount is negative too, and the ratio can reach any tier.

## Model

| member | source | states |
|---|---|---|
| `Decimal.NatToString` | utils/investment.ts:62 | a year label is a non-empty string of decimal digits with no leading zero, and exactly "0" for year 0 |
| `Decimal.ParseNatToString` | utils/investment.ts:62 | reading a year label as a decimal numeral gives back the year, so labels lose nothing |
| `Decimal.NatToStringInjective` | utils/investment.ts:59-62 | different years get different labels |
| `Investment.CatalogOrdered` | utils/investment.ts:9-34 | the catalog has exactly four packages, all with a positive return, each returning strictly more than the one before it |
| `Investment.FallbackIsConservative` | utils/investment.ts:56 | an index outside 0..3 selects the same package as index 0, which is Conservative at 0.03 |
| `Investment.Pow` | utils/investment.ts:74 | an integral power of a non-zero base is non-zero, and one of a base of at least 1 is at least 1 |
| `Investment.PowInt` | utils/investment.ts:74 | a negative exponent gives the reciprocal of the positive power; the result is non-zero for a non-zero base |
| `Investment.GrowSplit` | utils/investment.ts:61-71 | simulating n months and then k more is the same as simulating n + k months, so year-by-year simulation equals one run of the months |
| `Investment.GrowIdle` | utils/investment.ts:89-95 | from a zero balance with zero contributions the balance stays 0 at any rate |
| `Investment.GrowWithoutInterest` | utils/investment.ts:68 | at rate 0 the balance after n months is the start plus n contributions |
| `Investment.GrowClosedForm` | utils/investment.ts:68 | the recurrence satisfies the annuity formula: balance times q equals (b*q + c)*(1+q)^n - c, where q = r/12 |
| `Investment.GrowNonDecreasing` | utils/investment.ts:68 | with non-negative start, contribution and rate, the balance stays non-negative and never decreases over later months |
| `Investment.GrowCoversContributions` | utils/investment.ts:68 | with non-negative inputs the balance after n months is at least the start plus n contributions |
| `Investment.GrowMonotoneInRate` | utils/investment.ts:68 | with non-negative inputs a higher rate never gives a lower balance |
| `Investment.RunProjection` | utils/investment.ts:49-76 | the loop result equals the reference projection: year y's value is the start compounded for 12*y months at the resolved package's rate, year y's label is its numeral, and the summary fields are as below |
| `Investment.ProjectionShape` | utils/investment.ts:59-73 | labels and values both have length years+1 (0 for negative years); each label reads back as its index; values[0] is the starting balance; futureValue is values[years], or the start for negative years; totalContributions is start + monthly*years*12 |
| `Investment.ProjectionRecurrence` | utils/investment.ts:67-70 | each later value is the previous value compounded for twelve more months, growth before contribution |
| `Investment.Deflate` | utils/investment.ts:74 | dividing by a non-zero power gives the amount that, multiplied back by the power, is the future value; a negative power of zero (Infinity) gives 0 |
| `Investment.ProjectionRealValue` | utils/investment.ts:74 | realValue times (1 + inflation/100)^years is futureValue whenever that power is finite; realValue is 0 for inflation -100% and negative years; with non-negative inflation, years and futureValue, 0 <= realValue <= futureValue |
| `Investment.ProjectionMonotone` | utils/investment.ts:61-71 | with non-negative starting balance and contribution, values are non-negative and non-decreasing |
| `Investment.ProjectionCoversContributions` | utils/investment.ts:72-73 | with non-negative inputs and years, futureValue is at least totalContributions |
| `Investment.ProjectionFallback` | utils/investment.ts:56 | any package index outside 0..3 gives exactly the same projection as index 0 |
| `Investment.EstimateNetWorth` | utils/investment.ts:82-96 | the loop result equals a zero balance compounded for 12*years months (none for negative years) at the resolved rate; years defaults to 20 |
| `Investment.NetWorthIsZeroStartProjection` | utils/investment.ts:89-95 | the estimate equals the futureValue of a projection from a zero start, whatever the inflation |
| `Investment.NetWorthWithoutContributions` | utils/investment.ts:89-95 | with zero monthly investment the estimate is 0 for every package and horizon |
| `Investment.NetWorthFallback` | utils/investment.ts:87 | any package index outside 0..3 gives the same estimate as index 0 |
| `Investment.NetWorthMonotoneInTier` | utils/investment.ts:87-95 | with a non-negative investment, the estimate is at least the contributions paid in, and a higher tier never gives a lower estimate |
| `Income.InvestAmount` | app/income/page.tsx:22-24 | the amount is at most the savings and at most 40% of max(0, income - spending); it equals one of the two, so it is the larger bound that respects both; with non-negative savings it is non-negative |
| `Income.Ratio` | app/income/page.tsx:26 | a zero income gives ratio 0 with no division; otherwise ratio * income == invest; it is non-negative for non-negative invest and positive income |
| `Income.Tier` | app/income/page.tsx:27-31 | the tier is always a valid catalog index 0..3 |
| `Income.TierCountsThresholds` | app/income/page.tsx:27-31 | the tier equals the number of thresholds 0.1, 0.2, 0.3 that the ratio has reached |
| `Income.TierBands` | app/income/page.tsx:27-31 | tier 0 iff ratio < 0.1, tier 1 iff 0.1 <= ratio < 0.2, tier 2 iff 0.2 <= ratio < 0.3, tier 3 iff ratio >= 0.3; each band includes its lower bound |
| `Income.TierMonotone` | app/income/page.tsx:27-31 | a larger ratio never gives a lower tier |
| `Income.TierLadderBoundaries` | app/income/page.tsx:26-31 | with income 1000, investments of 99, 100, 199, 200, 299 and 300 give tiers 0, 1, 1, 2, 2 and 3 |
| `Income.Recommend` | app/income/page.tsx:22-33 | the amount is at most the savings and at most 40% of max(0, income - spending), and equals one of the two; the suggested tier is a valid catalog index and is the ladder applied to the ratio; the estimate is the twenty-year net worth for the amount and tier |
| `Income.RecommendBounds` | app/income/page.tsx:22-24 | with non-negative savings, 0 <= invest <= savings and invest <= 40% of max(0, income - spending), and the estimate is at least 240 * invest |
| `Income.RecommendZeroIncome` | app/income/page.tsx:26-28 | a zero income gives tier 0, Conservative |
| `Income.RecommendNegativeIncome` | app/income/page.tsx:22-31 | a negative income with non-negative savings gives a ratio of at most 0, so tier 0 |
| `Income.RecommendEstimate` | app/income/page.tsx:33 | the estimate equals the futureValue of a twenty-year projection from a zero start with the recommended amount and tier |
| `Income.RecommendDefaults` | app/income/page.tsx:13-33 | the initial inputs (income 5000, savings 1000, spending 3500) give invest 600, ratio 0.12 and tier 1, Balanced |

## Left out

- IEEE-754 doubles: the model computes exactly over `real`. It claims no agreement with the source's rounding.
- Investment.RunProjection: requires that `(1 + inflationPercent/100)^years` is non-zero when years > 0 (`Investment.Deflatable`). When inflation is -100% and years > 0, the source divides by zero and returns Infinity or NaN, which `real` cannot represent.
- Decimal.NatToString: renders every year in plain digits; JavaScript switches to exponent notation from 10^21, which this model does not reproduce.
- Non-integral `years` and package indices: both are `int` here. In the source a fractional index also falls back to Conservative, and a fractional `years` changes the loop count and the `Math.pow` exponent.
- NaN inputs: a NaN income is falsy in the source and gives ratio 0. The model has no NaN.
- React state: `setRecommended`, `setPkgIndex` and `setEstimated`, the `useEffect` re-run policy, the JSX and `formatCurrency` in app/income/page.tsx are framework and display code. Only the values they receive are modelled.
- The dashboard, projection form, packages, planner and layout pages, the style configuration and the Supabase client are rendering, input coercion or I/O, and are not part of this model.
- Determinism of repeated calls is not stated separately: every member here is a function of its inputs.
