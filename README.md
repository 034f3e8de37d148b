# DeFi liquidation research: a verified model

This project models the quantitative core of a research code base. The code base compares
liquidations of Uniswap v3 liquidity positions used as collateral in an Aave-style lending
engine. It does this under two regimes: a fixed loan-to-value ratio (DeFi), and
stress-tested margins (TradFi).

The model covers these parts:

- **Position valuation.** A concentrated-liquidity position is valued as follows.
  - The constructor sizes its liquidity as the smaller of two candidates.
  - `get_amounts` splits the reserves over three price regions.
  - Position value, hold value and impermanent loss are derived from those amounts.
  - The standalone `get_amounts`/`compute_il` pair of the two stress scripts is modelled as well.
  - So are the closed-form full-range impermanent loss and its worked example.
- **Lending engine.** The health factor has an infinite no-debt sentinel. `borrow` lends at the
  maximum loan-to-value ratio. The liquidation decision carries close-factor and bonus
  arithmetic. The module-level milestone copy and the early, unguarded script are modelled too.
- **Stress projection.** An 11-point grid of price shocks gives a worst projected health factor.
  Two policies use it:
  - the hybrid simulation shifts the liquidation threshold to `max(worst + 0.10, 1)`;
  - the loan-shrink simulation shrinks the loan through sliding LTV bands, with a direct or a
    regression projection.
- **Day loops.** Each day loop runs over a fixed pool and a table of prices:
  - daily re-origination;
  - loans fixed at origination;
  - the hybrid simulation;
  - the loan-shrink simulation;
  - the script-level trigger loop.

  Each loop is an imperative `method` whose accumulators are tied by loop invariants to
  functions over the processed prefix. Lemmas about those functions state what the summaries mean.
- **Post-hoc aggregation.** `extract_timeseries` turns per-day CSV records into seven series,
  keyed in ascending date order. The model also covers the price bucketing and the
  correlation-strength labels of the chart script.

How the model represents the source's data:

- Floats are `real`.
- `float('inf')` is the `Fin`/`Inf` datatype `Lending.HF`.
- An exception is a `Result` error (`Common.Error`). A mean of nothing, which numpy reports as
  NaN, is `None`.
- `math.sqrt`/`np.sqrt` is a parameter `sqrt` required to return the non-negative root
  (`RealSqrt.IsSqrt`).
- Position pools and price tables are sequences given as inputs.
- A dictionary iterated by the code is a map together with its keys in iteration order.
- The fitted regression is a parameter `predict`.
- Text-to-float parsing is a parameter `parse`. Date validation is a parameter `validDate`.

Files: `common.dfy`, `real_sqrt.dfy`, `uniswap_v3.dfy`, `il_v2.dfy`, `stress_script.dfy`,
`lending.dfy`, `early_lending.dfy`, `shocks.dfy`, `ledger.dfy`, `hybrid_sim.dfy`,
`loan_shrink.dfy`, `loan_shrink_sim.dfy`, `daily_sim.dfy`, `fixed_loan_sim.dfy`, `text.dfy`,
`analysis.dfy`.

## Model

| member | source | states |
|---|---|---|
| UniswapV3.NewPosition | src/uniswap/il_v3.py:11-45 | The constructor fails with the range-width error unless `0 < w < 1`. It fails with a zero division when either maximum is 0, and with a math-domain error for a negative price ratio. Otherwise the initial price is `usdc_max/eth_max` and the bounds are `initial*(1-w)`, `initial*(1+w)`. Neither deposit exceeds its maximum, and one of them is met exactly. |
| UniswapV3.Sized | src/uniswap/il_v3.py:26-45 | The successful construction path gives a valid position. The range is as the source sets it, the deposits are within the maxima with one of them binding, and the liquidity is positive for positive maxima. |
| UniswapV3.SizedIn | src/uniswap/il_v3.py:38-45 | Over a given valid range, the sized position keeps both deposits within the maxima and meets one of them exactly. |
| UniswapV3.Range | src/uniswap/il_v3.py:29-35 | The range around a positive price is `initial*(1-w) .. initial*(1+w)`, with ordered positive roots. |
| UniswapV3.RangeRoots | src/uniswap/il_v3.py:33-35 | The roots of `lower < initial < upper` are positive, ordered, and square back to the prices. |
| UniswapV3.Liquidity | src/uniswap/il_v3.py:38-42 | `min(L0, L1)` keeps `L*delta0 <= eth_max` and `L*delta1 <= usdc_max`, with one of them an equality. It is positive for positive maxima. The infinite fallbacks never apply. |
| UniswapV3.SizingRespectsMaxima | src/uniswap/il_v3.py:40-42 | The minimum of the two candidates satisfies both deposit bounds and meets one exactly. |
| UniswapV3.Funded | src/uniswap/il_v3.py:45 | The deposit of a position with liquidity `l` is `l*delta0` ETH and `l*delta1` USDC. |
| UniswapV3.GetAmounts | src/uniswap/il_v3.py:55-73 | At or below the lower bound, everything is ETH (USDC is 0). At or above the upper bound, everything is USDC (ETH is 0). With non-negative liquidity, both amounts lie between 0 and their extreme values. |
| UniswapV3.AmountsAtBounds | src/uniswap/il_v3.py:63-68 | With non-negative liquidity, the all-ETH and all-USDC amounts are non-negative. |
| UniswapV3.InRangeRootBounds | src/uniswap/il_v3.py:69-72 | Strictly inside the range, the root of the price lies strictly between the bounds' roots, and both in-range amounts lie within their extremes. |
| UniswapV3.InRangeAmountBounds | src/uniswap/il_v3.py:71-72 | For a root strictly between the bounds' roots, `L*(1/s - 1/sU)` and `L*(s - sL)` lie between 0 and the all-ETH and all-USDC amounts. |
| UniswapV3.AmountsAtInitialPrice | src/uniswap/il_v3.py:45 | At the initial price, `get_amounts` gives the in-range split at the initial root. |
| UniswapV3.DepositAtInitialPrice | src/uniswap/il_v3.py:45 | At the initial price, a constructed position holds exactly its actual deposit. |
| UniswapV3.Value | src/uniswap/il_v3.py:75-85 | Position value is linear in the price at or below the lower bound, constant at or above the upper bound, and non-negative for non-negative liquidity and price. |
| UniswapV3.ValueInRange | src/uniswap/il_v3.py:69-72 | Strictly inside the range, the value is the in-range value at the price's root. |
| UniswapV3.InRangeValueMonotone | src/uniswap/il_v3.py:84-85 | The in-range value does not decrease with the root of the price, up to the upper bound. |
| UniswapV3.InRangeValueAtBounds | src/uniswap/il_v3.py:63-72 | The in-range formula meets the outer formulas at both bounds, so the value is continuous. |
| UniswapV3.ValueMonotone | src/uniswap/il_v3.py:84-85 | With non-negative liquidity, position value never decreases as the price rises. |
| UniswapV3.ValueMonotoneBelowRange | src/uniswap/il_v3.py:63-65 | Below the range, the value is ordered like the price. |
| UniswapV3.ValueMonotoneInRange | src/uniswap/il_v3.py:69-72 | Up to a price inside the range, the value is ordered like the price. |
| UniswapV3.ValueMonotoneAboveRange | src/uniswap/il_v3.py:66-68 | Up to a price at or above the upper bound, the value is ordered like the price. |
| UniswapV3.ImpermanentLoss | src/uniswap/il_v3.py:97-105 | IL is 0 when the hold value is 0. For a funded position at a non-negative price, it lies in `[-1, 0]`. |
| UniswapV3.ILBounds | src/uniswap/il_v3.py:103-105 | `value/hold - 1` lies in `[-1, 0]` for positive liquidity and a non-negative price. |
| UniswapV3.HoldValueMonotone | src/uniswap/il_v3.py:87-95 | The hold value is the actual ETH times the price plus the actual USDC. With a non-negative ETH deposit it rises by the ETH held times the price rise, so it never falls as the price rises. ValueAtMostHold bounds the position value by it. |
| UniswapV3.HoldPositive | src/uniswap/il_v3.py:87-95 | The hold value of a funded position is positive at every non-negative price. |
| UniswapV3.DepositNonnegative | src/uniswap/il_v3.py:45 | Non-negative liquidity deposits non-negative amounts of both tokens. |
| UniswapV3.HoldMinusInRange | src/uniswap/il_v3.py:95 | Hold value minus in-range value is `L*(s - sqrtInitial)^2/sqrtInitial`. |
| UniswapV3.HoldAboveInRange | src/uniswap/il_v3.py:95 | The in-range value never exceeds the hold value. |
| UniswapV3.ValueAtMostHold | src/uniswap/il_v3.py:97-105 | Providing liquidity never beats holding: the position value is at most the hold value at every price. |
| UniswapV3.ValueBelowLowerAtMostHold | src/uniswap/il_v3.py:63-65 | Below the range, the position value is at most the hold value. |
| UniswapV3.ValueAboveUpperAtMostHold | src/uniswap/il_v3.py:66-68 | Above the range, the position value is at most the hold value. |
| UniswapV3.NoLossAtInitialPrice | src/uniswap/il_v3.py:103-105 | At the initial price, hold value equals position value, and impermanent loss is 0. |
| FullRangeIL.ImpermanentLoss | docs/milestone_2/src/uniswap/il.v2.py:3-15 | It fails with a non-positive-ratio error exactly when `r <= 0`. |
| FullRangeIL.NoLossWithoutMove | docs/milestone_2/src/uniswap/il.v2.py:15 | `IL(1) == 0`. |
| FullRangeIL.LossBounds | docs/milestone_2/src/uniswap/il.v2.py:15 | `-1 < IL(r) <= 0` for every `r > 0`. |
| FullRangeIL.ReciprocalSymmetry | docs/milestone_2/src/uniswap/il.v2.py:15 | `IL(1/r) == IL(r)`. |
| FullRangeIL.ReciprocalQuotient | docs/milestone_2/src/uniswap/il.v2.py:15 | The closed-form quotient is the same at a root and at its reciprocal. |
| FullRangeIL.BalancedExampleLoss | docs/milestone_2/src/uniswap/il.v2.py:22-64 | For every balanced deposit and every price drop below 100%, the detailed constant-product loss equals the closed form at `r = 1 - drop`. |
| FullRangeIL.ExampleMatchesClosedForm | docs/milestone_2/src/uniswap/il.v2.py:46-64 | The example's pool-over-hold quotient minus 1 is the closed form. |
| FullRangeIL.PoolOverHold | docs/milestone_2/src/uniswap/il.v2.py:46-60 | Pool value over hold value is `2s/(1 + r)`. |
| FullRangeIL.ReservesAfterMove | docs/milestone_2/src/uniswap/il.v2.py:46-47 | The arbitraged reserves are `eth/s` and `usdc*s`. |
| FullRangeIL.ValueRatio | docs/milestone_2/src/uniswap/il.v2.py:52-60 | `2*usdc*s` over `usdc*(1 + r)` is the closed-form quotient. |
| StressScript.PerLiquidity | src/stress_testing.py:25-41 | Degenerate arguments give `(0, 0)`. Strictly below `pa`, only token 0 is held. Strictly above `pb`, only token 1 is held. |
| StressScript.GetAmounts | src/stress_testing.py:25-41 | The same three regions for liquidity `L`. |
| StressScript.PerLiquidityNonnegative | src/stress_testing.py:32-40 | Per unit of liquidity, both amounts are non-negative in every region. |
| StressScript.AmountsNonnegative | src/st.test.py:24-40 | Non-negative liquidity holds non-negative amounts at every price. |
| StressScript.InRangeRoots | src/stress_testing.py:38-40 | For `0 < pa <= P <= pb`, the roots are ordered. |
| StressScript.AmountsLinear | src/stress_testing.py:51-55 | Both amounts scale linearly with `L`. |
| StressScript.AgreesWithPositionAmounts | src/stress_testing.py:32-40 | Away from the guard, the script's strict region split gives the constructed position's amounts, for the same bounds and liquidity. |
| StressScript.AgreesBelow | src/stress_testing.py:32-34 | At or below the lower bound, the amounts agree. |
| StressScript.AgreesAbove | src/stress_testing.py:35-37 | At or above the upper bound, the amounts agree. |
| StressScript.AgreesInRange | src/stress_testing.py:38-40 | Strictly inside the range, the amounts agree. |
| StressScript.ComputeIL | src/stress_testing.py:45-60 | `compute_il` is 0 when the initial value is 0 and when the rescaled hold value is 0. |
| StressScript.UnshockedPoolIsHold | src/stress_testing.py:52-59 | At the deposit price, the rescaled pool value equals the rescaled hold value. |
| StressScript.NoShockNoLoss | src/st.test.py:44-59 | `compute_il(P, P) == 0`. |
| StressScript.ProjectHealths | src/stress_testing.py:76-80 | The inner loop appends the projected health of every grid shock, in grid order. |
| StressScript.TriggeredIff | src/stress_testing.py:71-90 | A day is flagged iff its realised health factor is finite and below every shock's projection plus 0.1. Each projection is `predict(shock)` plus `compute_il` at the shocked price. |
| StressScript.CountPositive | src/stress_testing.py:100-101 | `(column > 0).sum()` is at most the column's length. It is 0 iff no entry is positive, and the length iff every entry is. |
| StressScript.CountTriggeredBounds | src/stress_testing.py:101 | The number of flagged days is at most the number of days. It is 0 iff no day is flagged, and all of them iff every day is. |
| StressScript.FixedRuleLiquidations | src/stress_testing.py:98 | The fixed-rule column holds each day's recorded `number_of_liquidations`, one entry per day, in day order. |
| StressScript.MarkDay | src/stress_testing.py:76-94 | A day records `mark` iff its realised health is below the worst projection plus 0.1, and 0 otherwise. |
| StressScript.TriggerLoop | src/stress_testing.py:70-94 | One entry per day, in order: `mark` when the realised health is below the worst projection plus 0.1, and 0 otherwise. |
| StressScript.MarksCountTriggered | src/st.test.py:98-105 | With a positive mark, the number of positive entries is the number of triggered days. |
| StressScript.ReductionPct | src/stress_testing.py:102 | The reduction is 0 without fixed days and at most 100. It is non-negative when the stressed count does not exceed the fixed count, and exactly 100 iff no day triggered. |
| StressScript.Summarise | src/stress_testing.py:97-102 | Each day is marked iff it is triggered. The fixed-rule count is the number of days whose recorded `number_of_liquidations` is positive. The stressed count is the number of triggered days. The reduction percentage is computed from these two counts. |
| StressScript.RunStressTesting | src/stress_testing.py:70-102 | Triggered days record 500, other days 0. The fixed-rule count is the number of days whose recorded `number_of_liquidations` is positive. The stressed count is the number of triggered days. The reduction percentage is computed from these two counts. |
| StressScript.RunStTest | src/st.test.py:69-106 | Triggered days record 1, other days 0. The fixed-rule count is the number of days whose recorded `number_of_liquidations` is positive. The stressed count is the number of triggered days. The reduction percentage is computed from these two counts. |
| StressGrid.GridShape | src/hybrid_stress_sim.py:39 | Eleven increasing shocks from -15 to 15, the first one being -15. |
| StressGrid.ShockedPriceOrder | src/hybrid_stress_sim.py:56 | A positive price shocked by more than -100% stays positive. A larger shock never gives a lower price. |
| Lending.HealthFactor | src/aave/aave_original.py:24-31 | Infinite iff `loan <= 0`. Otherwise `hf*loan == value*threshold`. |
| Lending.Borrow | src/aave/aave_original.py:33-37 | For collateral `v >= 0` and `ltv_max` in `[0, 1]`, the loan lies in `[0, v]`. |
| Lending.DecideLiquidation | src/aave/aave_original.py:39-73 | Without debt: not liquidated, infinite health factor, zero repay, zero collateral. Otherwise it reports the health factor and liquidates iff it is below 1. A liquidation repays `loan*close_factor` and takes `repay*(1 + bonus)`. A healthy position has zero repay and zero collateral. |
| Lending.LiquidatedIffUndercollateralised | src/aave/aave_original.py:48-66 | Liquidated iff the position has debt and `value*threshold < loan`. |
| Lending.HealthFactorMonotone | src/aave/aave_original.py:31 | With debt and a positive threshold, the health factor rises strictly with the value. |
| Lending.FreshLoanHealth | src/aave/aave_original.py:14-37 | A fresh maximal loan has health factor `threshold/ltv_max`. It is not liquidated while `ltv_max <= threshold`. |
| Lending.DefaultExamples | docs/milestone_2/src/aave/aave.original.py:6-62 | With the default constants: `borrow(10000) == 6500`, `HF(10000, 6500) == 7000/6500`, `decide(1000, 1000)` liquidates with 0.7, 500, 550, and `decide(10000, 1000)` is healthy with HF 7. |
| EarlyLending.Borrow | docs/milestone_2/src/aave.original.py:13-21 | It fails with a zero division iff the collateral is 0. Otherwise it returns the guarded engine's `v*0.65`. |
| EarlyLending.HealthFactor | docs/milestone_2/src/aave.original.py:25-26 | It fails iff the loan is 0. Otherwise `hf*loan == value*0.70`. |
| EarlyLending.FreshLoanHealth | docs/milestone_2/src/aave.original.py:13-26 | For non-zero collateral, `HF(v, borrow(v)) == 0.70/0.65`. |
| EarlyLending.AgreesWithGuarded | docs/milestone_2/src/aave.original.py:25-26 | For a positive loan, it agrees with the guarded health factor. |
| EarlyLending.ZeroCollateralRaises | docs/milestone_2/src/aave.original.py:13-26 | `borrow(0)` and `HF(0, 0)` both fail with a zero division. |
| EarlyLending.ZeroCollateralGuarded | docs/milestone_2/src/test_aave.py:38-43 | The guarded engine gives `borrow(0) == 0` and `HF(0, 0) == inf`, as the repository's unit test expects. |
| Common.Mean | src/hybrid_stress_sim.py:178 | The mean exists iff the sequence is non-empty. |
| Common.Min | src/hybrid_stress_sim.py:86 | The minimum is an element and is at most every element. |
| Common.MeanBounds | src/sim4.py:225 | The mean lies between any lower and upper bounds of the elements. |
| DayLedger.Present | src/hybrid_stress_sim.py:126-130 | The entries of the visited positions are at most as many as the positions, since worthless ones are skipped. |
| DayLedger.PresentIds | src/hybrid_stress_sim.py:152 | Every present entry carries the id of some position. |
| DayLedger.PresentDistinct | src/hybrid_stress_sim.py:126-153 | Positions with pairwise different ids give entries with pairwise different ids. |
| DayLedger.LiquidationCount | src/hybrid_stress_sim.py:150-151 | The counter is at most the number of entries. |
| DayLedger.FiniteHealthFactors | src/hybrid_stress_sim.py:144-145 | Only finite health factors are kept, so there are at most as many as entries. |
| DayLedger.Average | src/hybrid_stress_sim.py:156 | Infinite iff there is no sample. Otherwise `avg*count == sum`. |
| DayLedger.LiquidatedIdsExactly | src/hybrid_stress_sim.py:150-153 | An id is in the liquidated set iff some liquidated entry carries it. |
| DayLedger.LiquidatedIdsBound | src/hybrid_stress_sim.py:151-153 | The set is never larger than the counter. |
| DayLedger.DistinctIdsCount | src/defi_sim/simulator.py:111-115 | With distinct ids, the set is exactly as large as the counter. |
| DayLedger.LedgerAppend | src/defi_sim/simulator.py:105-115 | All three tallies of a concatenation combine the tallies of the parts. |
| DayLedger.AverageAtLeast | src/hybrid_stress_sim.py:156 | The average of bounded samples stays within the bounds. |
| DayLedger.TallyEntry | src/defi_sim/simulator.py:105-115 | One loop step adds a finite health factor to the sum and the count, and a liquidation to the counter and the set. |
| DayLedger.AverageOfTally | src/defi_sim/simulator.py:153 | `hf_sum/hf_count if hf_count > 0 else inf` is the average of the tallied health factors. |
| HybridStress.ProjectHealth | src/hybrid_stress_sim.py:45-65 | 0 when the shocked price is not positive. Finite whenever the loan is positive. |
| HybridStress.ProjectionMonotone | src/hybrid_stress_sim.py:56-65 | For a positive price and loan, a larger shock never projects a lower health factor. |
| HybridStress.Projections | src/hybrid_stress_sim.py:81-84 | One projection per grid shock. |
| HybridStress.DynamicThreshold | src/hybrid_stress_sim.py:68-90 | Infinite iff `loan <= 0`. Otherwise at least 1 and at least `worst + 0.10`, and equal to one of the two. |
| HybridStress.ComputeDynamicThreshold | src/hybrid_stress_sim.py:78-90 | The loop computes the dynamic threshold. |
| HybridStress.WorstAtDeepestShock | src/hybrid_stress_sim.py:81-86 | The minimum of the grid is the projection at -15%. |
| HybridStress.Assess | src/hybrid_stress_sim.py:126-153 | A position is skipped iff its open value is not positive. A visit carries the position's id. |
| HybridStress.AssessedVerdict | src/hybrid_stress_sim.py:132-153 | The close health factor and the threshold are finite. The position is liquidated iff `actual < threshold`, and so whenever `actual < 1`. |
| HybridStress.LiquidatedAgainstDeepestShock | src/hybrid_stress_sim.py:135-148 | Liquidated iff `actual < HF(-15%) + 0.10` or `actual < 1`. |
| HybridStress.Outcomes | src/hybrid_stress_sim.py:126 | One outcome per pool position. |
| HybridStress.OutcomeAt | src/hybrid_stress_sim.py:126 | The outcome at place `i` is the assessment of position `i`. |
| HybridStress.OutcomeIds | src/hybrid_stress_sim.py:152 | Each visit reports its own position's id. |
| HybridStress.DayEntries | src/hybrid_stress_sim.py:126-153 | At most one entry per position. |
| HybridStress.PriceChangePct | src/hybrid_stress_sim.py:119 | 0 for a non-positive open price. Otherwise `pct*open == (close - open)*100`. |
| HybridStress.Day | src/hybrid_stress_sim.py:155-167 | `unique <= liquidations <= pool size`. |
| HybridStress.EverLiquidatedInPool | src/hybrid_stress_sim.py:153 | Only pool positions are ever liquidated. |
| HybridStress.EverLiquidatedBound | src/hybrid_stress_sim.py:177 | The ever-liquidated set is no larger than the pool. |
| HybridStress.TotalLiquidationsBound | src/hybrid_stress_sim.py:157 | The run total is at most `days * positions`. |
| HybridStress.DistinctPoolDay | src/hybrid_stress_sim.py:166 | With distinct ids, the unique count equals the day's liquidation count. |
| HybridStress.FiniteAverages | src/hybrid_stress_sim.py:178 | Only finite daily averages enter the run's mean. |
| HybridStress.VisitPosition | src/hybrid_stress_sim.py:127-148 | The loop body yields the outcome of position `j`. |
| HybridStress.SimulateDay | src/hybrid_stress_sim.py:121-153 | The inner loop leaves the day's counter, liquidated set and finite health factors equal to those of the day's entries. |
| HybridStress.AddEntry | src/hybrid_stress_sim.py:144-153 | One visited entry brings the three tallies up to date. |
| HybridStress.Days | src/hybrid_stress_sim.py:115 | One record per price row. |
| HybridStress.DayAt | src/hybrid_stress_sim.py:159-167 | Record `d` is the record of row `d`. |
| HybridStress.RecordDay | src/hybrid_stress_sim.py:116-167 | One outer iteration produces the day's record. |
| HybridStress.RunHybridStressSimulation | src/hybrid_stress_sim.py:97-179 | The timeseries is one record per row, in order. The summary holds the row count, the pool size, the sum of the daily counts, the size of the ever-liquidated set, and the mean of the finite daily averages. |
| LoanShrink.MaxZero | src/sim4.py:71 | `max(x, 0)`: at least 0 and at least `x`, and one of the two. |
| LoanShrink.Min2 | src/sim4.py:178-179 | At most both arguments, and one of them. |
| LoanShrink.ProjectHealth | src/sim4.py:50-75 | 0 when the shocked price is not positive. In regression mode it is finite and non-negative, and at least the prediction plus half of the loss when that is positive. In direct mode it is the health factor of the shocked value. |
| LoanShrink.Projections | src/sim4.py:87-90 | One projection per grid shock. |
| LoanShrink.WorstProjectedHF | src/sim4.py:78-91 | Infinite iff `loan <= 0`. Otherwise a projection of the grid, at most every projection. |
| LoanShrink.DirectWorstAtDeepestShock | src/sim4.py:72-91 | In direct mode, the worst projection is the hybrid simulation's -15% projection. |
| LoanShrink.MaxAllowedLtv | src/sim4.py:165-171 | The band is 0.55 iff `worst < 1.2`, and 0.65 otherwise; the 0.45 and 0.35 branches are unreachable. |
| LoanShrink.AdjustedLoan | src/sim4.py:162-179 | Never above the provisional loan. Unchanged unless `0 < worst < inf`. Otherwise it is the least of the provisional, band and stress-safe loans. |
| LoanShrink.ReductionIff | src/sim4.py:156-185 | For a positive open value, the adjusted loan is positive. It is below `borrow(value)` iff `0 < worst < 1.2`. |
| LoanShrink.EffectiveLtv | src/sim4.py:182 | Clamped to `[0, 1]`. For `0 <= loan <= value`, it is `loan/value`. |
| LoanShrink.Judge | src/sim4.py:181-198 | The visit carries the id, and an LTV in `[0, 1]`. |
| LoanShrink.JudgedVisit | src/sim4.py:181-198 | The health factor is finite, and the position is liquidated iff it is below 1. A reduction is counted iff `0 < worst < 1.2`. The LTV is at most 0.65. |
| LoanShrink.LtvOfAdjustedLoan | src/sim4.py:182 | The adjusted loan is positive and at most `0.65*value`. |
| LoanShrink.Assess | src/sim4.py:151-198 | A position is skipped iff its open value is not positive. A visit carries the id, and an LTV in `[0, 1]`. |
| LoanShrink.ShrinkingOnlyHelps | src/sim4.py:162-193 | Any position this simulation liquidates is also liquidated by the hybrid simulation at the same prices. |
| LoanShrink.HealthAtLargerLoan | src/sim4.py:188 | A larger loan on the same value never has a larger health factor. |
| LoanShrinkSim.Outcomes | src/sim4.py:151 | One outcome per pool position. |
| LoanShrinkSim.OutcomeAt | src/sim4.py:151 | The outcome at place `i` is the assessment of position `i`. |
| LoanShrinkSim.Visited | src/sim4.py:152-154 | Skipped positions drop out. |
| LoanShrinkSim.Reductions | src/sim4.py:184-185 | At most one reduction per visit. |
| LoanShrinkSim.EntriesOfVisited | src/sim4.py:151-198 | The visited entries are the verdicts present. |
| LoanShrinkSim.VisitedLtvsInUnit | src/sim4.py:182-183 | Every recorded LTV lies in `[0, 1]`. |
| LoanShrinkSim.OutcomeFacts | src/sim4.py:182-197 | Every visit reports its own id and an LTV in `[0, 1]`. |
| LoanShrinkSim.MeanOrZero | src/sim4.py:201 | 0 for no sample. Otherwise `mean*count == sum`. |
| LoanShrinkSim.Day | src/sim4.py:200-214 | `unique <= liquidations <= pool size`, `reductions <= pool size`, and the average LTV is in `[0, 1]`. |
| LoanShrinkSim.LtvMeanInUnit | src/sim4.py:201 | A mean of LTVs in `[0, 1]` lies in `[0, 1]`. |
| LoanShrinkSim.DistinctPoolDay | src/sim4.py:213 | With distinct ids, the unique count equals the liquidation count. |
| LoanShrinkSim.EverLiquidatedInPool | src/sim4.py:198 | Only pool positions are ever liquidated. |
| LoanShrinkSim.DayLiquidatedInPool | src/sim4.py:193-198 | Every id liquidated on one day is the id of a pool position. |
| LoanShrinkSim.EverLiquidatedBound | src/sim4.py:223 | The ever-liquidated set is no larger than the pool. |
| LoanShrinkSim.Days | src/sim4.py:139 | One record per row. |
| LoanShrinkSim.DayAt | src/sim4.py:204-214 | Record `d` is the record of row `d`. |
| LoanShrinkSim.TotalReductionsBound | src/sim4.py:222-226 | The run's reductions and liquidations are each at most `days * positions`. |
| LoanShrinkSim.RunLtvInUnit | src/sim4.py:225 | The run's mean LTV lies in `[0, 1]`. |
| LoanShrinkSim.ShrinkLoan | src/sim4.py:162-179 | The imperative adjustment computes the adjusted loan. |
| LoanShrinkSim.VisitPosition | src/sim4.py:152-198 | The loop body yields the outcome of position `j`. |
| LoanShrinkSim.TallyVisit | src/sim4.py:183-198 | One visit brings all five tallies up to date. |
| LoanShrinkSim.SimulateDay | src/sim4.py:145-198 | The inner loop leaves every tally equal to that of the day's visits. |
| LoanShrinkSim.RecordDay | src/sim4.py:140-214 | One outer iteration produces the day's record. |
| LoanShrinkSim.RunLoanShrinkSimulation | src/sim4.py:94-227 | The timeseries is one record per row. The summary holds the counts, the liquidation total, the ever-liquidated size, the mean finite health factor, the mean LTV and the total reductions. |
| DailySim.Visit | src/defi_sim/simulator.py:88-100 | The entry carries the position's id. |
| DailySim.VisitVerdict | src/defi_sim/simulator.py:89-100 | A re-originated loan is liquidated iff it has debt and `0.70*close value < 0.65*open value`. |
| DailySim.NoDropNoLiquidation | src/defi_sim/simulator.py:89-98 | A position whose value did not fall is never liquidated. |
| DailySim.RisingDayNoLiquidation | src/defi_sim/simulator.py:89-98 | No position is liquidated on a day when the price did not fall. |
| DailySim.DayEntries | src/defi_sim/simulator.py:88 | One entry per position, carrying its id. |
| DailySim.Day | src/defi_sim/simulator.py:153-162 | `unique <= total <= pool size`. The date and prices are the row's. |
| DailySim.DistinctPoolDay | src/defi_sim/simulator.py:159-160 | With a dictionary's distinct ids, unique equals total. |
| DailySim.RunEntries | src/defi_sim/simulator.py:74-115 | `days * positions` entries. |
| DailySim.Days | src/defi_sim/simulator.py:74 | One record per row. |
| DailySim.DayAt | src/defi_sim/simulator.py:155-162 | Record `d` is the record of row `d`. |
| DailySim.TotalIsSumOfDays | src/defi_sim/simulator.py:112-113 | The run's liquidation total is the sum of the daily totals. |
| DailySim.EverLiquidatedInPool | src/defi_sim/simulator.py:115 | Only pool positions are ever liquidated. |
| DailySim.EverLiquidatedBound | src/defi_sim/simulator.py:176 | The ever-liquidated set is no larger than the pool. |
| DailySim.VisitPosition | src/defi_sim/simulator.py:89-100 | The loop body yields entry `j`. |
| DailySim.SimulateDay | src/defi_sim/simulator.py:80-115 | The day's and the run's tallies are those of the day's entries, and of all entries so far. |
| DailySim.RecordDay | src/defi_sim/simulator.py:75-162 | One outer iteration produces the day's record. |
| DailySim.RunFullSimulation | src/defi_sim/simulator.py:45-179 | The timeseries is one record per row. The summary holds the row count, the pool size, the total, the ever-liquidated size, and the average of all finite health factors (infinite if none). |
| DailySim.ExportPriceChange | src/defi_sim/simulator.py:306 | 0 for a zero open price. Otherwise `pct*open == (close - open)*100`. |
| FixedLoanSim.Decimal | docs/milestone_2/src/simulator.py:46 | Python's `str` of a natural number: non-empty, one digit iff `n < 10`, ending in the last digit. |
| FixedLoanSim.DecimalInjective | docs/milestone_2/src/simulator.py:46 | Different numbers have different numerals. |
| FixedLoanSim.IdOf | docs/milestone_2/src/simulator.py:46 | Ids start with `id#`. |
| FixedLoanSim.IdInjective | docs/milestone_2/src/simulator.py:46 | Different places get different ids. |
| FixedLoanSim.OriginationIsSafe | docs/milestone_2/src/simulator.py:49-53 | The loan is 0.65 of the initial value. A position worth something is not liquidated at its initial price. |
| FixedLoanSim.Ids | docs/milestone_2/src/simulator.py:45-46 | `n` ids, `id#i` at place `i`. |
| FixedLoanSim.IdsDistinct | docs/milestone_2/src/simulator.py:45-46 | The ids are pairwise different. |
| FixedLoanSim.InitializeLoans | docs/milestone_2/src/simulator.py:35-57 | Both dictionaries are keyed by exactly the ids, in list order, and hold `len(positions)` entries. Each id maps to its position and its origination loan. |
| FixedLoanSim.InitializeStep | docs/milestone_2/src/simulator.py:45-55 | One more position keeps the loop invariant. |
| FixedLoanSim.OriginationLoan | docs/milestone_2/src/simulator.py:49-53 | The loan is `borrow(value at the initial price)`. |
| FixedLoanSim.FreshId | docs/milestone_2/src/simulator.py:46-55 | The next id is new, and the key set grows by exactly it. |
| FixedLoanSim.InitializedIsBook | docs/milestone_2/src/simulator.py:57 | What initialisation returns is a valid book for the run. |
| FixedLoanSim.Visit | docs/milestone_2/src/simulator.py:85-90 | The entry carries the dictionary key. |
| FixedLoanSim.LiquidatedAtLowerPrice | docs/milestone_2/src/simulator.py:86-98 | With the loan fixed, a position liquidated at some price is liquidated at every lower price. |
| FixedLoanSim.DayEntries | docs/milestone_2/src/simulator.py:85 | One entry per key, in dictionary order. |
| FixedLoanSim.Day | docs/milestone_2/src/simulator.py:104-112 | `unique == total <= book size`. The date and price are the row's. |
| FixedLoanSim.RunEntries | docs/milestone_2/src/simulator.py:76-102 | `days * positions` entries. |
| FixedLoanSim.Days | docs/milestone_2/src/simulator.py:76 | One record per row. |
| FixedLoanSim.DayAt | docs/milestone_2/src/simulator.py:106-112 | Record `d` is the record of row `d`. |
| FixedLoanSim.EverLiquidatedGrows | docs/milestone_2/src/simulator.py:102 | The ever-liquidated set only grows. |
| FixedLoanSim.EverLiquidatedInBook | docs/milestone_2/src/simulator.py:102 | Only book positions are ever liquidated. |
| FixedLoanSim.EverLiquidatedBound | docs/milestone_2/src/simulator.py:122 | The ever-liquidated set is no larger than the book. |
| FixedLoanSim.TotalIsSumOfDays | docs/milestone_2/src/simulator.py:99-100 | The run total is the sum of the daily totals. |
| FixedLoanSim.VisitPosition | docs/milestone_2/src/simulator.py:86-89 | The loop body looks up the loan, never changes it, and yields entry `j`. |
| FixedLoanSim.SimulateDay | docs/milestone_2/src/simulator.py:80-102 | The day's and the run's tallies are those of the entries. |
| FixedLoanSim.RecordDay | docs/milestone_2/src/simulator.py:77-112 | One outer iteration produces the day's record. |
| FixedLoanSim.RunFullSimulation | docs/milestone_2/src/simulator.py:60-124 | The timeseries is one record per row. The summary holds the row count, the book size, the total, the ever-liquidated size, and the average finite health factor. |
| FixedLoanSim.BookSize | docs/milestone_2/src/simulator.py:120 | The dictionary holds exactly the listed keys. |
| Text.LeadingSpace | src/defi_sim/generate_analysis_charts.py:74 | The leading whitespace run is maximal. |
| Text.TrailingSpace | src/defi_sim/generate_analysis_charts.py:74 | The trailing whitespace run is maximal. |
| Text.Strip | src/defi_sim/generate_analysis_charts.py:74 | `strip()`: no longer than the input, and empty or with non-space ends. |
| Text.StripDecomposes | src/defi_sim/generate_analysis_charts.py:68 | The input is whitespace, then the stripped text, then whitespace. |
| Text.StripPadded | src/defi_sim/generate_analysis_charts.py:87 | Stripping whitespace padding returns the padded text. |
| Text.StripIdempotent | src/defi_sim/generate_analysis_charts.py:74 | Stripping twice is stripping once. |
| Text.LessIrreflexive | src/defi_sim/generate_analysis_charts.py:61 | String order is irreflexive. |
| Text.LessTransitive | src/defi_sim/generate_analysis_charts.py:61 | String order is transitive. |
| Text.LessTotal | src/defi_sim/generate_analysis_charts.py:61 | Of two different strings, one is smaller. |
| Text.LessAsymmetric | src/defi_sim/generate_analysis_charts.py:61 | String order is asymmetric. |
| Text.LeastExists | src/defi_sim/generate_analysis_charts.py:61 | A non-empty key set has a least key. |
| Text.LeastUnique | src/defi_sim/generate_analysis_charts.py:61 | The least key is unique. |
| Text.SortedKeys | src/defi_sim/generate_analysis_charts.py:61 | `sorted(keys)`: strictly ascending, holding exactly the keys. |
| Text.SortKeys | src/defi_sim/generate_analysis_charts.py:61 | The selection loop produces the sorted keys. |
| ChartData.YesCount | src/defi_sim/generate_analysis_charts.py:68 | At most one per record. |
| ChartData.YesCountAll | src/defi_sim/generate_analysis_charts.py:68 | The count equals the number of records iff every stripped flag is `Yes`. |
| ChartData.Parsed | src/defi_sim/generate_analysis_charts.py:73-79 | The failed parses drop out. |
| ChartData.NothingParsed | src/defi_sim/generate_analysis_charts.py:73-80 | Nothing is collected iff every field fails or is `inf`. |
| ChartData.ParsedWithin | src/defi_sim/generate_analysis_charts.py:84-90 | Bounds on the fields carry over to the collected values. |
| ChartData.HealthFields | src/defi_sim/generate_analysis_charts.py:73-79 | Field `k` is record `k`'s stripped health factor, parsed, or nothing for `inf`. |
| ChartData.HealthValues | src/defi_sim/generate_analysis_charts.py:72-79 | At most one value per record. |
| ChartData.InfiniteAverage | src/defi_sim/generate_analysis_charts.py:80 | The average is infinite iff no record has a parseable, non-`inf` health factor. |
| ChartData.IlFields | src/defi_sim/generate_analysis_charts.py:85-90 | Field `k` is record `k`'s stripped loss, parsed. |
| ChartData.IlValues | src/defi_sim/generate_analysis_charts.py:84-90 | At most one value per record. |
| ChartData.IlAverageWithin | src/defi_sim/generate_analysis_charts.py:91 | The mean-or-zero lies within any bounds around 0 that hold for every parsed loss. |
| ChartData.FirstQuote | src/defi_sim/generate_analysis_charts.py:95-97 | No prices iff the day has no records. A failed parse is a parse error. |
| ChartData.Appended | src/defi_sim/generate_analysis_charts.py:65-97 | One day adds its date, one count, one average of each kind, and one price pair when it has records. |
| ChartData.PricedDays | src/defi_sim/generate_analysis_charts.py:95 | At most one priced entry per day. |
| ChartData.Collected | src/defi_sim/generate_analysis_charts.py:61-97 | The dates are the days. Counts and averages have one per day; prices have one per non-empty day. |
| ChartData.CollectedFails | src/defi_sim/generate_analysis_charts.py:65-97 | The loop fails iff some day has a bad date or an unparseable first price. |
| ChartData.CollectedAt | src/defi_sim/generate_analysis_charts.py:67-92 | Entry `i` is the count and the averages of day `i`. |
| ChartData.Changes | src/defi_sim/generate_analysis_charts.py:100-102 | It succeeds iff no close but the last is 0, with `len - 1` changes (none for no closes). A zero previous close is a zero division. |
| ChartData.PercentChange | src/defi_sim/generate_analysis_charts.py:101 | The percentage move is `(next - prev)*100/prev`. |
| ChartData.ChangeAt | src/defi_sim/generate_analysis_charts.py:100-102 | Change `i-1` is the percent move from close `i-1` to close `i`. |
| ChartData.ExtractedShape | src/defi_sim/generate_analysis_charts.py:44-115 | The dates are strictly ascending and are exactly the keys. Counts and averages have one per day; prices have one per non-empty day. Price changes are `[0] + changes`, of length `max(len(closes), 1)`. |
| ChartData.ExtractedDay | src/defi_sim/generate_analysis_charts.py:61-92 | Entry `i` is the count and the averages of the `i`-th smallest key. |
| ChartData.ExtractedParseFails | src/defi_sim/generate_analysis_charts.py:65-97 | A parse error iff some day fails. |
| ChartData.ExtractedZeroDivision | src/defi_sim/generate_analysis_charts.py:100-102 | A zero division iff the days parse and some close but the last is 0. |
| ChartData.HealthValuesOf | src/defi_sim/generate_analysis_charts.py:72-79 | The loop collects the health values. |
| ChartData.IlValuesOf | src/defi_sim/generate_analysis_charts.py:84-90 | The loop collects the loss values. |
| ChartData.AddDay | src/defi_sim/generate_analysis_charts.py:65-97 | The appends of one day. |
| ChartData.ChangesOf | src/defi_sim/generate_analysis_charts.py:100-102 | The loop computes the changes. |
| ChartData.ExtractTimeseries | src/defi_sim/generate_analysis_charts.py:44-115 | The method returns exactly the extracted series. |
| ChartData.Truncate | src/defi_sim/generate_analysis_charts.py:392 | `int()` truncates toward zero. |
| ChartData.PriceBucket | src/defi_sim/generate_analysis_charts.py:392 | A multiple of 100. A non-negative close lies in `[b, b + 100)`; a negative one in `(b - 100, b]`. |
| ChartData.BucketUnique | src/defi_sim/generate_analysis_charts.py:392 | The bucket is the only multiple of 100 bracketing the close. |
| ChartData.BucketMonotone | src/defi_sim/generate_analysis_charts.py:392 | Larger non-negative closes never get smaller buckets. |
| ChartData.StrengthOf | src/defi_sim/generate_analysis_charts.py:506-511 | A correlation is weak iff `|r| < 0.3` and strong iff `|r| >= 0.7`, and moderate otherwise, whatever its sign. |
| ChartData.DirectionOf | src/defi_sim/generate_analysis_charts.py:512 | A correlation reads as positive iff `r > 0`. |

## Left out

- File and CSV I/O, directory bookkeeping, plotting and console output. Price tables, position
  pools and per-day records are inputs; nothing is written.
- The random position pool (`create_positions`). The pool is an input sequence of constructed
  positions.
- The fitting of the regression model. Its prediction is the parameter `predict`. The global
  fallback to direct mode is the `Projector` argument.
- IEEE floating point. Rounding, NaN and string formatting are not modelled. `float()` on text
  is the parameter `parse`, and `strptime` validation is the parameter `validDate`. A parse
  that yields a non-finite float (for example `"nan"`) is not distinguished from a finite one.
- numpy's `corrcoef`. The correlation is an input real; a NaN correlation is not modelled.
- The `price_to_il` grouping loop of the chart script. It only feeds a plot; the bucket
  expression is modelled.
- The hold value, impermanent loss, repay and collateral columns of the daily CSV rows in
  `run_full_simulation`. They are written to files only; the functions computing them are
  modelled.
- The fallback to the first price row in `initialize_loans`. Every constructed position has an
  initial price, so it cannot be taken.
- The crash windows listed at the top of the milestone simulator. They are not used by the
  modelled functions.
- Dates stay key strings. The `datetime` values are not built.
- Lending.Borrow: its contract bounds the loan to `[0, collateral]` only for a loan-to-value
  ratio in `[0, 1]`. The exact amount is stated for the defaults by `Lending.DefaultExamples`,
  and the health factor of a fresh loan by `Lending.FreshLoanHealth`.
- FullRangeIL.LossBounds: the loss is proved to lie in `(-1, 0]` and to vanish at `r = 1`, but
  not to vanish only at `r = 1`.
- UniswapV3.NewPosition: deposits with both maxima negative construct, with negative liquidity,
  as in the source. The monotonicity and value-below-hold lemmas require non-negative
  liquidity.

## Findings

| source | as written | input that shows it | evidently intended | confidence | as-written member | corrected member |
|---|---|---|---|---|---|---|
| docs/milestone_2/src/aave.original.py:13-26 | `borrow` divides by the loan it just computed, and `calculate_health_factor` divides by the loan without a guard | `borrow(0)`, then `calculate_health_factor(0, 0)`: both raise ZeroDivisionError, while docs/milestone_2/src/test_aave.py:38-43 expects 0 and `inf` | a zero loan for zero collateral, and an infinite health factor without debt, as in the guarded engine | not executed | EarlyLending.ZeroCollateralRaises | EarlyLending.ZeroCollateralGuarded |
