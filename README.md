# FinancialPlan retirement simulator — Dafny model

This project models the simulation engine of FinancialPlan, a retirement planner page, and proves properties of it. The engine has three parts:

- **Accumulation** simulates the saving years. Each year it adds that year's one-time cash, then runs twelve months of growth plus a contribution that rises with inflation. It records one point per year after an initial point.
- **Decumulation** simulates the retirement years. Each month the portfolio grows and then pays a withdrawal. The withdrawal is the inflated general expenses, plus the mortgage while it is due, minus the pension once it has started, and never below 0.
  - A month that ends at or below zero clamps the portfolio to 0 and ends that year's months.
  - The year's one-time cash is added after the months.
  - The trajectory stops after a year that ends exactly at 0.
- **Monte Carlo** runs the same retirement loop `simulations` times, each year with a drawn annual return. The one-time cash comes before the months, and any clamp ends the trial. It returns the fraction of trials that never clamp.

Also modelled are the page logic around the engine:

- the edit of a one-time event;
- the constants derived from the inputs, and how the three results are chained;
- the FIRE target (25 times the need left after the pension);
- the chart series.

Modules, in dependency order:

- `Types`: the records.
- `Inflation`: `calculateInflated`, `Math.pow` on whole years, `Math.round`.
- `CashFlows`: the per-year one-time cash scan and the mortgage gating.
- `Retirement`: the arithmetic of one retirement year and the twelve-month draw-down.
- `Accumulation`, `Decumulation`, `MonteCarlo`: the three simulations.
- `Events`: the event edit, as written and corrected.
- `App`: the planner page as a `Planner` class.

Each loop of services/financialService.ts is a `method` with a `while` loop, proved equal to a recursive specification function. The `.map` calls of the page (the event edit and the chart series) are recursive functions. The source's properties are then proved about those functions.

Numbers are Dafny `real`, so arithmetic is exact. Ages and year counts are `int`. `Math.round(x)` is `(x + 0.5).Floor`. The random source is a parameter: trial `i` uses `draws[i][year - 1]` as the annual return of `year`.

## Model

| member | source | states |
|---|---|---|
| `Inflation.Inflated` | services/financialService.ts:12-14 | `value * (1 + rate)^years`; zero years leave the value unchanged; negative years deflate and need `1 + rate != 0` |
| `Inflation.InflatedZeroRate` | services/financialService.ts:12-14 | with a zero rate the value is unchanged for any number of years |
| `Inflation.InflatedStep` | services/financialService.ts:12-14 | one more year multiplies the result by `1 + rate` |
| `Inflation.InflatedTwice` | services/financialService.ts:12-14 | compounding over `m` years and then over `n` years equals compounding over `m + n` years |
| `Inflation.InflatedRoundTrip` | services/financialService.ts:12-14 | deflating by the same number of years gives the original value back |
| `Inflation.Round` | services/financialService.ts:151-153 | `Math.round` gives the integer within half a unit, with halves rounded up |
| `CashFlows.NetExtraCashFlow` | services/financialService.ts:129-136 | the two `forEach` scans compute the due incomes minus the due expenses for the age |
| `CashFlows.SumDueNonNegative` | services/financialService.ts:130-132 | the due amounts of a list never add up to a negative number |
| `CashFlows.SumDueAppend` | services/financialService.ts:130-135 | the scan of two lists joined is the sum of the two scans |
| `CashFlows.SumDuePermutation` | services/financialService.ts:130-135 | any reordering of the events (the same multiset) gives the same flow |
| `CashFlows.SumDueSingle` | services/financialService.ts:131 | one event counts exactly when its age is the year's age and its amount is positive |
| `CashFlows.SumDueNoneDue` | services/financialService.ts:130-135 | events at other ages, or with amounts of 0 or less, add nothing |
| `CashFlows.SumDueIgnores` | services/financialService.ts:130-135 | adding an event that is not due leaves the year's flow unchanged |
| `Retirement.PensionContribution` | services/financialService.ts:194-195 | before `pensionStartAge` the pension counts as 0 |
| `Retirement.NetWithdrawal` | services/financialService.ts:197 | `Math.max(0, total - pension)`: never negative, at least the uncovered need, and equal either to 0 or to that need |
| `Retirement.MonthlyWithdrawal` | services/financialService.ts:197-198 | the monthly withdrawal is never negative |
| `Retirement.DrawDownAgreesWithUnclamped` | services/financialService.ts:200-207 | the month loop clamps exactly when some month of the unclamped run ends at or below 0; a clamp leaves 0; otherwise the result is the unclamped run's value and is positive |
| `Retirement.DrawDownNonNegative` | services/financialService.ts:200-207 | after at least one month the portfolio is never negative, whatever it started at |
| `Retirement.DrawDownMonotone` | services/financialService.ts:74-82 | from a portfolio at least as large, at a monthly return at least as high (not below -100%) and the same withdrawal, the month loop clamps no sooner and ends at least as high |
| `Retirement.SpendYear` | services/financialService.ts:200-207 | the twelve-month loop with its early exit computes the draw-down, and its result is at least 0 |
| `Accumulation.GrowFlat` | services/financialService.ts:143-145 | with no return and no contribution the month loop leaves the value unchanged |
| `Accumulation.GrowYear` | services/financialService.ts:143-145 | the month loop computes twelve months of growth plus contribution |
| `Accumulation.SavingYear` | services/financialService.ts:127-154 | one pass of the year loop adds the year's one-time cash, inflates the expenses, grows the portfolio for twelve months, inflates the contribution and records the point, exactly the `YearEnd` state and `YearPoint` point |
| `Accumulation.CalculateAccumulationPhase` | services/financialService.ts:110-157 | the loop returns exactly the final value and points that `Accumulate` specifies |
| `Accumulation.PointsLength` | services/financialService.ts:119-155 | after `n` years there are `n + 1` points, and the first is the initial point |
| `Accumulation.StateInflation` | services/financialService.ts:138-147 | after `n` years the contribution and the general expenses have each been inflated over `n` years |
| `Accumulation.PointAt` | services/financialService.ts:149-154 | point `k` has age `startAge + k` and expenses inflated over `k` years; the mortgage is added iff the age is at most `mortgageEndAge`; it has no pension and its value is the rounded `fv` |
| `Accumulation.AccumulationShape` | services/financialService.ts:119-156 | there are `max(0, years) + 1` points at consecutive ages from `startAge`, none with a pension; the initial point is unrounded and its total includes the mortgage; the last value is the rounded final value |
| `Accumulation.AccumulationExpenses` | services/financialService.ts:138-141 | each year's general expenses are the initial ones inflated over `k` years, and the mortgage is in the total iff the age is at most `mortgageEndAge` |
| `Accumulation.AccumulationIdentity` | services/financialService.ts:114-147 | with zero return and zero contribution the final value is the initial value plus the sum of the yearly net one-time cash |
| `Decumulation.DecYear` | services/financialService.ts:189-228 | a retirement year is recorded at age `retirementAge + year`, with the rounded portfolio left after the months and the one-time cash |
| `Decumulation.RetirementYear` | services/financialService.ts:189-228 | one pass of the year loop computes the next running values and the point that `DecYear` specifies |
| `Decumulation.CalculateDecumulationPhase` | services/financialService.ts:175-234 | the loop, with its `break`, returns exactly the trajectory that `Decumulate` specifies |
| `Decumulation.DecFromAt` | services/financialService.ts:188-231 | point `k` is the year outcome of the running values after `k` years |
| `Decumulation.DecFromLength` | services/financialService.ts:188-231 | there are at most `n` points, and at least one when `n >= 1`; every year before the last ends with a non-zero portfolio; a trajectory cut short stops on a year that ends at exactly 0 |
| `Decumulation.WithdrawalSchedule` | services/financialService.ts:218 | the general withdrawal in year `k + 1` is the initial one inflated over `k` years |
| `Decumulation.PensionSchedule` | services/financialService.ts:220 | the pension is revalued once for every earlier year in which it was paid |
| `Decumulation.RecordedFields` | services/financialService.ts:222-228 | the recorded general expense equals the rounded withdrawal of that year, because the inflated baseline is divided back; the total includes the mortgage while it is due; the pension is 0 before it starts |
| `Decumulation.DecumulationShape` | services/financialService.ts:188-231 | at most `max(0, duration)` points, at least one when `duration >= 1`, at consecutive ages from `retirementAge + 1`; a trajectory cut short ends with a recorded value of 0 |
| `Decumulation.DecumulationExpenses` | services/financialService.ts:191-192 | point `k` has general expenses inflated over `k` years; the mortgage is in the total iff the age is at most `mortgageEndAge` |
| `Decumulation.DecumulationPension` | services/financialService.ts:194-227 | the recorded pension is 0 before `pensionStartAge`, and afterwards the initial pension revalued once per earlier paid year |
| `Decumulation.YearNonNegative` | services/financialService.ts:200-216 | a year ends at least at its net one-time cash, because the month loop never leaves less than 0; with no extra expenses the recorded value is never negative |
| `Decumulation.DecumulationNonNegative` | services/financialService.ts:200-216 | without extra expenses no recorded value is negative |
| `Decumulation.NegativeYearContinues` | services/financialService.ts:213-230 | a year pushed below zero by extra expenses is recorded negative, and the trajectory goes on |
| `Decumulation.RoundedZeroContinues` | services/financialService.ts:224-230 | a year ending strictly between 0 and 0.5 is recorded as 0, yet another year follows |
| `Decumulation.EmptyStartStops` | services/financialService.ts:200-230 | an empty starting portfolio with no cash in the first year gives one point, of value 0 |
| `MonteCarlo.SuccessCount` | services/financialService.ts:42-91 | the count of surviving trials is at most the number of trials, and equals it iff every trial survives |
| `MonteCarlo.SpendTrialYear` | services/financialService.ts:56-82 | one trial year adds the one-time cash before the twelve months and computes what `TrialYear` specifies |
| `MonteCarlo.RevalueTrialYear` | services/financialService.ts:85-89 | after a year that did not clamp, the withdrawal is inflated once and the pension is revalued only from the pension start age, as `Revalue` specifies |
| `MonteCarlo.RunTrial` | services/financialService.ts:45-91 | the year loop with its early exits reports survival exactly as `TrialSurvives` specifies |
| `MonteCarlo.RunMonteCarloSimulation` | services/financialService.ts:34-94 | the result is successes / simulations and lies in [0, 1]; it is 1 iff every trial survives, and 1 when the duration is 0 or less |
| `MonteCarlo.TrialYearMonotone` | services/financialService.ts:56-82 | a trial year from a larger portfolio at a higher drawn return, with the same withdrawal and pension, survives whenever the original does and ends at least as high |
| `MonteCarlo.SurvivesMonotone` | services/financialService.ts:50-90 | from a larger portfolio, with every remaining draw at least as high, the rest of a trial survives whenever the original does |
| `MonteCarlo.TrialSurvivesMonotone` | services/financialService.ts:45-91 | a trial whose every draw is at least as high survives whenever the original trial does |
| `MonteCarlo.SuccessCountMonotone` | services/financialService.ts:44-92 | raising every draw of every trial never lowers the number of surviving trials |
| `MonteCarlo.ProbabilityMonotone` | services/financialService.ts:44-93 | raising every draw never lowers the success ratio; a higher mean return shifts every draw up, so the success probability never falls as the mean return rises |
| `MonteCarlo.YearSurvivesIff` | services/financialService.ts:74-82 | a trial year gets through its months iff no month ends at or below 0 |
| `MonteCarlo.SurvivesIffEveryYear` | services/financialService.ts:50-90 | a trial survives iff no year clamps |
| `MonteCarlo.SurvivesIffNoMonthEmpties` | services/financialService.ts:50-91 | a trial survives iff no month of any year ends at or below 0 |
| `MonteCarlo.NoYearsAllSurvive` | services/financialService.ts:50 | with no years to run, every trial survives |
| `MonteCarlo.TrialYearIsProjectionYear` | services/financialService.ts:56-89 | with no one-time events, a trial year and the deterministic projection's year at the same return clamp together and reach the same next state, and a year that does not clamp leaves a positive portfolio |
| `MonteCarlo.TrialMatchesProjectionFrom` | services/financialService.ts:50-89 | with no one-time events and every drawn return equal to `r`, the remaining years of a trial survive iff the deterministic projection from the same state runs them all without clamping |
| `MonteCarlo.TrialMatchesDeterministic` | services/financialService.ts:50-89 | under those conditions a trial survives iff the deterministic decumulation produces `duration` points and never clamps |
| `Events.StoredRoundTrip` | types.ts:2-7 | an event's typed view and its stored form are inverse |
| `Events.UpdateExtraEventsAsWritten` | App.tsx:63-68 | the edit as written keeps the length of the list |
| `Events.AsWrittenAt` | App.tsx:65-67 | only events with a strictly equal id change, and only in the named field, which takes the value as passed |
| `Events.TextAgeNeverFallsDue` | App.tsx:63-68 | any text typed into an age box replaces the age with that string; the event is no longer well typed and its age equals no number |
| `Events.InitialIncomeEditedLost` | App.tsx:268 | the first initial income, dated 60, no longer falls due at 60 once its age is typed in |
| `Events.DescriptionEditWellTyped` | App.tsx:266 | editing a description keeps every event well typed |
| `Events.SetField` | App.tsx:66 | the corrected single-event edit stores what the as-written edit stores when given the converted value |
| `Events.UpdateExtraEvents` | App.tsx:63-68 | the corrected edit keeps the length of the list |
| `Events.UpdateAt` | App.tsx:65-67 | the corrected edit changes exactly the events with a matching id, each in the named field only |
| `Events.CorrectedIsConvertedAsWritten` | App.tsx:63-68 | the corrected edit is the as-written edit given `Number(value)` for numeric fields |
| `Events.EditedAgeFallsDue` | App.tsx:268 | after an age is typed in, the event falls due in that year, as one created with that age would |
| `Events.UpdateIdempotent` | App.tsx:65-67 | repeating an edit changes nothing more |
| `Events.UpdateKeepsOthers` | App.tsx:65-67 | when no id matches, the list is unchanged, in content and order |
| `App.DecumulationDuration` | App.tsx:78 | retirement is simulated up to age 100, and for no years from age 100 on |
| `App.TrialsShareProjectionInputs` | App.tsx:103-137 | the Monte Carlo trials get exactly the inputs of the deterministic retirement projection, except the return |
| `App.ProjectionAges` | App.tsx:88-119 | with `yearsToRetirement >= 0` the stored projection has one point per age from the current age, with no gap or repeat at retirement, and never goes past age 100 unless retirement starts later |
| `App.ReportedIsFirstRetirementYear` | App.tsx:85-86 | the page's `retirementAge < mortgageEndAge` matches the service's `age <= mortgageEndAge` for the first retirement year, so the reported expense is that year's total before rounding |
| `App.PensionAtRetirement` | App.tsx:157-162 | the pension counted at retirement is 0 if it starts later, the entered amount if it starts at retirement, and otherwise the entered amount compounded yearly at the revaluation rate over `retirementAge - pensionStartAge` years, the value `Inflated` gives |
| `App.TargetFire` | App.tsx:152-167 | the target is never negative, and is 0 while no expense figure exists |
| `App.TargetCoversNeed` | App.tsx:164-165 | a 4% draw on the target plus the pension covers the need; the target is 0 iff the pension alone covers it; otherwise the draw plus the pension equal the need exactly |
| `App.TargetMonotone` | App.tsx:164-165 | a larger need never lowers the target |
| `App.TargetPensionVersusProjection` | App.tsx:159-162 | the target compounds a pension that started before retirement, but the projection pays the entered amount in its first year |
| `App.ChartData` | App.tsx:169-180 | one chart point per projection point; none when there is no projection |
| `App.ChartAt` | App.tsx:173-179 | each chart point keeps its point's age, value and total expenses, shows the same target, and shows a missing pension as 0 |
| `App.ChartAppend` | App.tsx:173-179 | the chart of the saving points followed by the retirement points is the two charts one after the other |
| `App.SavingYearsShowNoPension` | App.tsx:178 | every saving year is drawn with a pension of 0 |
| `App.Planner.TargetFIRE` | App.tsx:152-167 | the page's target is never negative |
| `App.Planner.Chart` | App.tsx:169-180 | the page's chart has one point per stored projection point |
| `App.Planner.constructor` | App.tsx:14-54 | the page starts with its default inputs and no results |
| `App.Planner.UpdateExtraEvents` | App.tsx:63-68 | (corrected edit) `isIncome` picks the incomes or the expenses; only that list is edited, with numeric fields stored as numbers, and no other input or result changes |
| `App.Calculate` | App.tsx:77-137 | the derived constants feed the three calls; the final saved value starts both decumulation and the 5000 trials; the projection is the saving points followed by the retirement points; the probability is in [0, 1] and is 1 iff every trial survives |
| `App.Planner.HandleCalculate` | App.tsx:70-138 | stores the final value, the reported expenses, the chained projection and the success ratio of the trials, and leaves the inputs unchanged |

## Left out

- `normalDistribution` (Box–Muller over `Math.random`) is not modelled. The annual returns are a parameter, `draws`.
- IEEE floating point is not modelled: rounding error, NaN, `Infinity`, and `Number()` on text that is not a number. In the corrected edit, reading text as a number is the parameter `toNumber`.
- MonteCarlo.RunMonteCarloSimulation: requires `simulations > 0`, because the source divides by zero otherwise (the page always passes 5000).
- MonteCarlo.ProbabilityMonotone: requires every draw of the original trials to be at least -12 (a monthly return of at least -100%). Below that a month's growth factor is negative, and a larger portfolio can end lower. It is stated for draws raised one by one; the Gaussian sampler that links the draws to the mean return is not modelled.
- App.Planner.HandleCalculate: requires `1 + annualInflation != 0`. Otherwise the source divides by zero when it deflates the recorded general expense, and when it raises `1 + annualInflation` to a negative number of years.
- Only whole-year ages and durations are modelled. The page's inputs may hold fractions.
- Events.UpdateExtraEventsAsWritten: covers only how the stored field changes. A string amount in the yearly scans would make JavaScript concatenate strings, and that arithmetic is not modelled. The scans of the rest of the model use the corrected, typed events.
- App.Planner.UpdateExtraEvents: applies the corrected edit, so the page model stores the number read from the typed text in numeric fields, not the text itself as App.tsx:66 does. The as-written edit is `Events.UpdateExtraEventsAsWritten`.
- App.Planner.HandleCalculate: is modelled without the busy flag, the `try`/`catch`/`finally`, the logging and the `async` plumbing. The results are cleared before the run and then overwritten, so the clearing cannot be seen afterwards; only the final state is stated.
- `handleNumericChange`, the formatters, the collapse state and all JSX are not modelled, nor is anything under `components/`.
- The `retirementDuration` state of the page is never read by any calculation, so it is not modelled.
- `targetFIRE` and `chartData` are recomputed from the current state; React's memoisation is not modelled.

## Findings

| source | as written | input that shows it | evidently intended | confidence | as-written member | corrected member |
|---|---|---|---|---|---|---|
| App.tsx:63-68 | every call site passes `e.target.value`, which is always a string, and `typeof value === 'string' ? value : Number(value)` stores it unchanged, so an edited amount or age becomes a string | typing `60` into the age box of the income with id 1 stores `"60"`; the scan's `income.age === 60` is then false in every year, so the event is never counted | numeric fields stored as numbers (`Number(value)`), as `ExtraEvent` declares | high, not executed | `Events.TextAgeNeverFallsDue` | `Events.EditedAgeFallsDue` |

Two behaviours of the code worth knowing:

- A recorded retirement value can be negative, because extra expenses are subtracted after the monthly clamp (services/financialService.ts:213-230; `Decumulation.NegativeYearContinues`). The loop stops on the unrounded portfolio being exactly 0, so a year that ends strictly between 0 and 0.5 is recorded as 0 and the run continues (`Decumulation.RoundedZeroContinues`).
- A Monte Carlo trial adds the year's one-time cash before the twelve months (services/financialService.ts:56-63), while the projection adds it after them (services/financialService.ts:209-216). With no one-time events the two agree (`MonteCarlo.TrialMatchesDeterministic`).
