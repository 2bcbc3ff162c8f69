# Investment simulator: calculation engine in Dafny

This project models the calculation engine of an investment simulator. The
simulator projects the future value of an initial principal (`valorInicial`)
and a fixed monthly contribution (`aporteMensal`). It uses a monthly
percentage rate (`taxaJuros`) and a term in months (`prazo`). It has two
independent backend routines and two frontend pieces:

- `calculateInvestmentProjection` is the closed form
  `M = P(1+i)^n + PMT·((1+i)^n − 1)/i`. It returns the final amount, the
  total invested and the accumulated interest, each rounded to cents. The
  interest is taken from the two already-rounded figures.
- `calculateMonthlyEvolution` is the month-by-month ledger. Each month adds
  the contribution (none in month 1), rounds that month's interest to cents,
  rounds the new balance to cents, and carries that rounded balance into the
  next month.
- `formatMonthlyEvolution` (frontend) rounds every monetary field of every
  ledger row to the nearest cent.
- The `MonthlyEvolutionTable` paging state shows twelve rows a page and has a
  current page with clamped previous/next handlers.

Modules, one per source file or concern:

- `Money` (`money.dfy`) holds whole cents as `int`. It defines the two rounding
  primitives the program uses: `ToFixed2` is `parseFloat(x.toFixed(2))`
  (ECMA-262 section 21.1.3.3, nearest cent with ties away from zero) and
  `RoundCents` is `Math.round(x * 100)` (ECMA-262 section 21.3.2.28, ties
  toward +infinity). The two agree on non-negative amounts.
- `InvestmentSimulationTypes` (`investment_simulation_types.dfy`) has the
  request, the projection result and the ledger item as datatypes.
  `ValidParams` states the bounds the request schema enforces.
- `InvestmentSimulationLogic` (`investment_simulation_logic.dfy`) holds both
  routines. The projection is a pure function over `Pow`. The ledger is a
  method with a `while` loop. It is proved equal, entry by entry, to the
  recursive specification `Entry(p, mes)`. `Carried(p, mes)` is the balance
  carried into month `mes`. `MonthStep` computes one month from it.
- `Calculations` (`calculations.dfy`) holds the frontend row type and
  `FormatMonthlyEvolution`.
- `EvolutionTable` (`evolution_table.dfy`) holds the page arithmetic as pure
  functions. The class `MonthlyEvolutionTable` holds the `currentPage` state
  and the two handlers.

Inputs are exact reals and every monetary output is an `int` number of cents.
So "every output has at most two decimals" holds by construction, and the
`parseFloat(toFixed(2))` round trip is exact.

Facts about the code that the model makes explicit:

- The ledger balance does not grow in every month of every accepted request.
  A zero principal with a zero contribution stays at 0.00. A principal of
  0.01 at 0.1% earns nothing, because the interest 0.00001 is rounded to 0
  (investmentSimulationLogic.ts:116), so the balance stays at 0.01
  (`NoGrowthOnTinyBalance`). The strict growth checked at
  investmentSimulationLogic.test.ts:139-141 is for 10000/500/1% only.
  `BalanceMonotone` states, from month 2 on, exactly when the balance grows;
  `FirstMonthGrowth` covers month 1.
- The recorded contribution is `toFixed(2)` of the monthly amount
  (investmentSimulationLogic.ts:121), so it is the monthly amount itself only
  for whole-cent input (`ContributionRule`).
- The backend rounds with `toFixed` (investmentSimulationLogic.ts:116-117)
  and the frontend with `Math.round` (calculations.ts:13-15). They differ
  only on negative ties: -0.005 becomes -0.01 under the first and 0.00 under
  the second (`NegativeTieDiffers`).

## Model

| member | source | states |
|---|---|---|
| `Money.ToFixed2` | backend/src/services/investmentSimulation/investmentSimulationLogic.ts:116-121 | the result is the nearest whole cent; a tie goes to the larger magnitude, with the sign kept |
| `Money.RoundCents` | frontend/src/domain/investment/utils/calculations.ts:13-15 | the result is the nearest whole cent, a tie going up |
| `Money.RoundCentsOfCents` | backend/src/services/investmentSimulation/investmentSimulationLogic.ts:62 | an amount that is already whole cents rounds to itself under both primitives |
| `Money.CentsAreCents` | backend/src/api/v1/external/investment-simulation/controller.ts:41 | an amount has at most two decimals exactly when rounding it to cents gives it back |
| `Money.NegativeTieDiffers` | frontend/src/domain/investment/utils/calculations.ts:13-15 | toFixed takes −0.005 to −0.01 while Math.round takes it to 0.00: the two rounding rules differ on a negative tie |
| `InvestmentSimulationTypes.ValidParams` | backend/src/api/v1/external/investment-simulation/controller.ts:33-72 | defines the accepted requests: amounts in [0, 999999999.99], a rate in [0.1, 20], each with at most two decimals, and a whole term in [1, 600]; so an accepted rate is positive and an accepted term at least 1 |
| `InvestmentSimulationLogic.Bernoulli` | backend/src/services/investmentSimulation/investmentSimulationLogic.ts:47 | (1+i)^n ≥ 1 + n·i for every i ≥ −1 |
| `InvestmentSimulationLogic.CalculateInvestmentProjection` | backend/src/services/investmentSimulation/investmentSimulationLogic.ts:32-69 | the accumulated interest equals the final amount minus the total invested, exactly, in cents |
| `InvestmentSimulationLogic.RawFinalAmount` | backend/src/services/investmentSimulation/investmentSimulationLogic.ts:47-49 | defines the unrounded closed form P(1+i)^n + PMT·((1+i)^n − 1)/i; a term of 0 gives P and a term of 1 gives P(1+i) + PMT |
| `InvestmentSimulationLogic.TotalInvestedExact` | backend/src/services/investmentSimulation/investmentSimulationLogic.ts:56 | with whole-cent inputs the total invested is exactly principal + contribution × term |
| `InvestmentSimulationLogic.RawFinalAmountLowerBound` | backend/src/services/investmentSimulation/investmentSimulationLogic.ts:47-50 | for a positive rate and non-negative amounts, the unrounded final amount is at least P(1 + n·i) + PMT·n |
| `InvestmentSimulationLogic.InvestedBelowRawFinalAmount` | backend/src/services/investmentSimulation/investmentSimulationLogic.ts:47-56 | for a positive rate and non-negative amounts, principal + contribution × term is non-negative and at most the unrounded final amount |
| `InvestmentSimulationLogic.FinalAmountCoversInvestment` | backend/src/services/investmentSimulation/investmentSimulationLogic.ts:47-62 | for a positive rate and non-negative amounts, the final amount is at least the total invested and the interest is non-negative |
| `InvestmentSimulationLogic.FinalAmountIsRounded` | backend/src/services/investmentSimulation/investmentSimulationLogic.ts:50 | the final amount is within half a cent of the unrounded closed form |
| `InvestmentSimulationLogic.MonthlyInterest` | backend/src/services/investmentSimulation/investmentSimulationLogic.ts:116 | a month's interest, rounded to cents, is never negative when the base and the rate are not |
| `InvestmentSimulationLogic.MonthStep` | backend/src/services/investmentSimulation/investmentSimulationLogic.ts:114-124 | defines one month from the balance carried in: the entry has that month number, records no contribution in month 1, and for a non-negative base and rate has non-negative interest and a balance within half a cent of base + interest |
| `InvestmentSimulationLogic.Carried` | backend/src/services/investmentSimulation/investmentSimulationLogic.ts:107-126 | defines the balance carried into a month: the principal in month 1, the previous entry's balance, a whole number of cents, from month 2 on |
| `InvestmentSimulationLogic.Entry` | backend/src/services/investmentSimulation/investmentSimulationLogic.ts:119-124 | defines the entry pushed for a month: it carries that month number and, in month 1, a recorded contribution of 0 |
| `InvestmentSimulationLogic.CalculateMonthlyEvolution` | backend/src/services/investmentSimulation/investmentSimulationLogic.ts:96-130 | the ledger has one entry per month of the term, in order; entry k has month k+1 and is the entry of that month, computed on the rounded balance carried from the month before |
| `InvestmentSimulationLogic.ContributionRule` | backend/src/services/investmentSimulation/investmentSimulationLogic.ts:114-121 | the recorded contribution is 0 in month 1 and the monthly amount rounded to cents afterwards, exactly the monthly amount for whole-cent input |
| `InvestmentSimulationLogic.CarriedNonNegative` | backend/src/services/investmentSimulation/investmentSimulationLogic.ts:107-126 | with non-negative inputs every balance carried into a month is non-negative |
| `InvestmentSimulationLogic.CarriedIsCents` | backend/src/services/investmentSimulation/investmentSimulationLogic.ts:126 | from month 2 on, the balance carried in is the previous entry's rounded balance, a whole number of cents |
| `InvestmentSimulationLogic.LedgerAddsUp` | backend/src/services/investmentSimulation/investmentSimulationLogic.ts:115-117 | with whole-cent inputs, balance(m) = balance(m−1) + contribution(m) + interest(m) exactly, with balance(0) the principal |
| `InvestmentSimulationLogic.BalanceMonotone` | backend/src/services/investmentSimulation/investmentSimulationLogic.ts:114-117 | from month 2 on, with non-negative inputs, the balance never decreases, and it strictly increases exactly in months whose recorded contribution or interest is positive |
| `InvestmentSimulationLogic.FirstMonthGrowth` | backend/src/services/investmentSimulation/investmentSimulationLogic.ts:114-117 | in month 1 a positive interest makes the balance exceed the principal |
| `InvestmentSimulationLogic.ValidRequestGuarantees` | backend/src/api/v1/external/investment-simulation/controller.ts:33-72 | for every request the schema accepts: exact total invested, non-negative interest, a ledger that adds up in cents and never decreases |
| `InvestmentSimulationLogic.ReferenceProjections` | backend/src/services/investmentSimulation/investmentSimulationLogic.test.ts:8-81 | the reference scenarios give totals 16000, 12000, 10000 and 310000, with a final amount above the total (and above 0) |
| `InvestmentSimulationLogic.ReferenceLedgerFirstMonth` | backend/src/services/investmentSimulation/investmentSimulationLogic.test.ts:98-112 | 10000/500/1%: month 1 records contribution 0, interest 100.00 and balance 10100.00, above the principal |
| `InvestmentSimulationLogic.ReferenceLedger` | backend/src/services/investmentSimulation/investmentSimulationLogic.test.ts:114-142 | 10000/500/1%: months 2 to 12 record a contribution of 500.00 and a balance strictly larger than the month before |
| `InvestmentSimulationLogic.NoGrowthOnTinyBalance` | backend/src/services/investmentSimulation/investmentSimulationLogic.ts:116-117 | the accepted request 0.01/0/0.1%/2 earns interest that rounds to 0, so its balance stays at 0.01 in months 1 and 2 |
| `Calculations.RoundToCent` | frontend/src/domain/investment/utils/calculations.ts:13-15 | the result has at most two decimals and is the nearest cent, a tie going up |
| `Calculations.FormatItem` | frontend/src/domain/investment/utils/calculations.ts:11-15 | defines the formatting of one row: the month is kept and all three amounts are whole cents |
| `Calculations.FormatMonthlyEvolution` | frontend/src/domain/investment/utils/calculations.ts:10-17 | same length and order; the month is kept; each of the three amounts becomes its nearest cent |
| `Calculations.RoundToCentFixesCents` | frontend/src/domain/investment/utils/calculations.ts:13-15 | an amount already in whole cents is unchanged |
| `Calculations.FormatFixesFormatted` | frontend/src/domain/investment/utils/calculations.ts:11-15 | rows whose amounts are already whole cents come back unchanged |
| `Calculations.FormatIdempotent` | frontend/src/domain/investment/utils/calculations.ts:11-15 | formatting twice equals formatting once |
| `EvolutionTable.TotalPages` | frontend/src/domain/investment/components/MonthlyEvolutionTable/main.tsx:27-28 | the page count is the ceiling of length/12: enough pages, and no empty last page |
| `EvolutionTable.SliceBound` | frontend/src/domain/investment/components/MonthlyEvolutionTable/main.tsx:32 | a slice position is clamped into the data, and a non-negative index is kept up to the length |
| `EvolutionTable.Slice` | frontend/src/domain/investment/components/MonthlyEvolutionTable/main.tsx:32 | defines Array.prototype.slice: never longer than the data, and for 0 ≤ start ≤ end the rows from start to end clipped to the length |
| `EvolutionTable.Page` | frontend/src/domain/investment/components/MonthlyEvolutionTable/main.tsx:30-32 | defines the rows of a page: at most 12, and from page 1 on the rows that follow index (page − 1)·12, in order |
| `EvolutionTable.PageContents` | frontend/src/domain/investment/components/MonthlyEvolutionTable/main.tsx:30-32 | page p holds the rows [(p−1)·12, p·12) clipped to the data, never more than 12 |
| `EvolutionTable.PageNonEmpty` | frontend/src/domain/investment/components/MonthlyEvolutionTable/main.tsx:28-32 | a page from 1 on is non-empty exactly when it is at most the page count |
| `EvolutionTable.PagesArePrefix` | frontend/src/domain/investment/components/MonthlyEvolutionTable/main.tsx:30-32 | pages 1..k in order are the first min(12k, length) rows |
| `EvolutionTable.PagesCoverData` | frontend/src/domain/investment/components/MonthlyEvolutionTable/main.tsx:28-32 | pages 1..totalPages in order give back the whole ledger |
| `EvolutionTable.MonthlyEvolutionTable.constructor` | frontend/src/domain/investment/components/MonthlyEvolutionTable/main.tsx:26 | the table opens on page 1, which satisfies 1 ≤ currentPage ≤ totalPages for non-empty data |
| `EvolutionTable.MonthlyEvolutionTable.CurrentData` | frontend/src/domain/investment/components/MonthlyEvolutionTable/main.tsx:30-32 | the rows on show are never more than one page |
| `EvolutionTable.MonthlyEvolutionTable.HandlePrevPage` | frontend/src/domain/investment/components/MonthlyEvolutionTable/main.tsx:34-36 | the page goes back one and never below 1, is unchanged on page 1, and the invariant is preserved |
| `EvolutionTable.MonthlyEvolutionTable.HandleNextPage` | frontend/src/domain/investment/components/MonthlyEvolutionTable/main.tsx:38-40 | the page goes forward one and never past totalPages, is unchanged on the last page, and the invariant is preserved |

## Left out

- Binary floating point is not modelled. The model uses exact reals and
  integer cents and does not aim for agreement with `Math.pow` or with
  `toFixed` on doubles whose value is not the decimal literal.
- `toFixed` returns exponential notation for magnitudes of 10^21 and more, so
  the program does not round such amounts. The model rounds them like any
  other amount. On doubles they are whole numbers anyway.
- InvestmentSimulationLogic.CalculateInvestmentProjection: requires a
  non-zero rate and a term of at least 0. JavaScript would give Infinity or
  NaN for a zero rate. The request schema guarantees a rate of at least 0.1
  and a whole term from 1 to 600.
- InvestmentSimulationLogic.FinalAmountCoversInvestment: states `≥` and not
  the strict `>` of the reference tests. A strict bound needs at least a cent
  of interest, so the strict cases are proved per scenario in
  `ReferenceProjections`.
- The model does not relate the last ledger balance to the closed-form final
  amount. The two routines are independent and differ by a few cents.
- The schema's two-decimal check runs a regular expression on the number's
  printed form. It is modelled as `IsCents`, and the printing itself is not
  modelled.
- The HTTP handler, route and error middleware, the network client and the
  React UI are not modelled. That covers the form, result cards, hooks,
  router, shared components, and the table's markup and its rentability
  division. Neither are the `Intl`-based display formatters, `parseCurrency`
  or the form's string validators: they wrap JavaScript parsing and printing.
- The backend emits `jurosDoMes` but the frontend row reads `jurosMes`. This
  field-name mismatch is not reconciled. Each side is modelled with its own
  field.
- Calculations.FormatMonthlyEvolution: keeps only the four declared row
  fields. Extra fields that the object spread would copy are not modelled.
- EvolutionTable.MonthlyEvolutionTable: keeps its `data` fixed. A new
  `data` prop arriving while the component stays mounted, with `currentPage`
  kept, is not modelled.
- The timing assertion of the 600-month test is not a property of the model.
