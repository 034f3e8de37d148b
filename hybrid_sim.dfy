/**
 * The hybrid stress simulation: every day each position of a fixed pool borrows at the open price,
 * a stress test over the shock grid sets that position's liquidation threshold for the day (the
 * worst projected health factor plus a buffer, never below 1), and the position is liquidated when
 * its health factor at the close falls below that threshold.
 */
module HybridStress {
  import opened Common
  import opened RealSqrt
  import opened StressGrid
  import Lending
  import UniswapV3
  import opened DayLedger

  const SafetyBuffer := 0.10
  /** The floor of the dynamic threshold: the ordinary liquidation point. */
  const LiquidationThreshold := 1.0
  /** The lending simulator, built with its default parameters. */
  const Aave := Lending.Defaults

  /** Every position of the pool was built by the position constructor. */
  ghost predicate ValidPool(pool: seq<UniswapV3.Position>)
  {
    forall i :: 0 <= i < |pool| ==> pool[i].Valid()
  }

  /**
   * project_health_under_shock: 0 when the shocked price is not positive, otherwise the health
   * factor of the position's value at the shocked price against the loan.
   */
  function ProjectHealth(sqrt: real -> real, pos: UniswapV3.Position, initialPrice: real, shockPct: int,
                         loanAmount: real): (hf: Lending.HF)
    requires IsSqrt(sqrt) && pos.Valid()
    ensures ShockedPrice(initialPrice, shockPct) <= 0.0 ==> hf == Lending.Fin(0.0)
    ensures 0.0 < loanAmount ==> hf.Fin?
  {
    var shockedPrice := ShockedPrice(initialPrice, shockPct);
    if shockedPrice <= 0.0 then Lending.Fin(0.0)
    else Lending.HealthFactor(Aave, UniswapV3.Value(sqrt, pos, shockedPrice), loanAmount)
  }

  /** A deeper shock never projects a healthier position: the projection rises with the shock. */
  lemma ProjectionMonotone(sqrt: real -> real, pos: UniswapV3.Position, initialPrice: real,
                           s1: int, s2: int, loanAmount: real)
    requires IsSqrt(sqrt) && pos.Valid() && 0.0 <= pos.liquidity
    requires 0.0 < initialPrice && 0.0 < loanAmount && -100 < s1 <= s2
    ensures ProjectHealth(sqrt, pos, initialPrice, s1, loanAmount).value
         <= ProjectHealth(sqrt, pos, initialPrice, s2, loanAmount).value
  {
    ShockedPriceOrder(initialPrice, s1, s2);
    var v1 := UniswapV3.Value(sqrt, pos, ShockedPrice(initialPrice, s1));
    var v2 := UniswapV3.Value(sqrt, pos, ShockedPrice(initialPrice, s2));
    UniswapV3.ValueMonotone(sqrt, pos, ShockedPrice(initialPrice, s1), ShockedPrice(initialPrice, s2));
    if v1 < v2 {
      Lending.HealthFactorMonotone(Aave, v1, v2, loanAmount);
    }
  }

  /** The projected health factors over the grid, in grid order (a debt is needed for them to be finite). */
  function Projections(sqrt: real -> real, pos: UniswapV3.Position, openPrice: real, loanAmount: real)
    : (hs: seq<real>)
    requires IsSqrt(sqrt) && pos.Valid() && 0.0 < loanAmount
    ensures |hs| == |Shocks|
  {
    seq(|Shocks|, k requires 0 <= k < |Shocks| && IsSqrt(sqrt) && pos.Valid() =>
      ProjectHealth(sqrt, pos, openPrice, Shocks[k], loanAmount).value)
  }

  /**
   * compute_dynamic_threshold: `inf` without debt; otherwise the worst projection plus the buffer,
   * but never below the liquidation point.
   */
  function DynamicThreshold(sqrt: real -> real, pos: UniswapV3.Position, openPrice: real, loanAmount: real)
    : (t: Lending.HF)
    requires IsSqrt(sqrt) && pos.Valid()
    ensures t.Inf? <==> loanAmount <= 0.0
    ensures t.Fin? ==> LiquidationThreshold <= t.value
    ensures t.Fin? ==> Min(Projections(sqrt, pos, openPrice, loanAmount)) + SafetyBuffer <= t.value
    ensures t.Fin? ==> (t.value == LiquidationThreshold
                        || t.value == Min(Projections(sqrt, pos, openPrice, loanAmount)) + SafetyBuffer)
  {
    if loanAmount <= 0.0 then Lending.Inf
    else
      var dynamicThreshold := Min(Projections(sqrt, pos, openPrice, loanAmount)) + SafetyBuffer;
      Lending.Fin(if dynamicThreshold >= LiquidationThreshold then dynamicThreshold else LiquidationThreshold)
  }

  /** The loop of compute_dynamic_threshold, which appends one projection per shock. */
  method ComputeDynamicThreshold(sqrt: real -> real, pos: UniswapV3.Position, openPrice: real, loanAmount: real)
    returns (threshold: Lending.HF)
    requires IsSqrt(sqrt) && pos.Valid()
    ensures threshold == DynamicThreshold(sqrt, pos, openPrice, loanAmount)
  {
    if loanAmount <= 0.0 {
      return Lending.Inf;
    }
    var projectedHfs: seq<real> := [];
    for k := 0 to |Shocks|
      invariant projectedHfs == Projections(sqrt, pos, openPrice, loanAmount)[..k]
    {
      var hfShock := ProjectHealth(sqrt, pos, openPrice, Shocks[k], loanAmount);
      projectedHfs := projectedHfs + [hfShock.value];
    }
    assert projectedHfs == Projections(sqrt, pos, openPrice, loanAmount);
    var worstHf := Min(projectedHfs);
    var dynamicThreshold := worstHf + SafetyBuffer;
    threshold := Lending.Fin(if dynamicThreshold >= LiquidationThreshold then dynamicThreshold else LiquidationThreshold);
  }

  /**
   * Since the value never falls as the price rises, the worst projection of the grid is the one at
   * the -15% shock, and the threshold is fixed by that single scenario.
   */
  lemma WorstAtDeepestShock(sqrt: real -> real, pos: UniswapV3.Position, openPrice: real, loanAmount: real)
    requires IsSqrt(sqrt) && pos.Valid() && 0.0 <= pos.liquidity
    requires 0.0 < openPrice && 0.0 < loanAmount
    ensures Min(Projections(sqrt, pos, openPrice, loanAmount))
         == ProjectHealth(sqrt, pos, openPrice, -15, loanAmount).value
  {
    var hs := Projections(sqrt, pos, openPrice, loanAmount);
    GridShape();
    forall k | 0 <= k < |hs|
      ensures hs[0] <= hs[k]
    {
      ProjectionMonotone(sqrt, pos, openPrice, Shocks[0], Shocks[k], loanAmount);
    }
    var m := Min(hs);
    var k :| 0 <= k < |hs| && hs[k] == m;
  }

  /** The position visited on a day: skipped when worthless at the open, otherwise judged at the close. */
  function Assess(sqrt: real -> real, pos: UniswapV3.Position, openPrice: real, closePrice: real)
    : (e: Option<Entry>)
    requires IsSqrt(sqrt) && pos.Valid()
    ensures e.None? <==> UniswapV3.Value(sqrt, pos, openPrice) <= 0.0
    ensures e.Some? ==> e.value.id == pos.positionId
  {
    var posValueOpen := UniswapV3.Value(sqrt, pos, openPrice);
    if posValueOpen <= 0.0 then None
    else
      var loanAmount := Lending.Borrow(Aave, posValueOpen);
      var dynamicThreshold := DynamicThreshold(sqrt, pos, openPrice, loanAmount);
      var actualHf := Lending.HealthFactor(Aave, UniswapV3.Value(sqrt, pos, closePrice), loanAmount);
      Some(Entry(pos.positionId, actualHf, actualHf.Less(dynamicThreshold)))
  }

  /**
   * A visited position always carries a finite health factor; it is liquidated exactly when that
   * is below the threshold, which is at least 1, so every position below 1 is liquidated.
   */
  lemma AssessedVerdict(sqrt: real -> real, pos: UniswapV3.Position, openPrice: real, closePrice: real)
    requires IsSqrt(sqrt) && pos.Valid()
    requires Assess(sqrt, pos, openPrice, closePrice).Some?
    ensures var e := Assess(sqrt, pos, openPrice, closePrice).value;
            var t := DynamicThreshold(sqrt, pos, openPrice,
                                      Lending.Borrow(Aave, UniswapV3.Value(sqrt, pos, openPrice)));
            && e.healthFactor.Fin? && t.Fin?
            && (e.liquidated <==> e.healthFactor.value < t.value)
            && (e.healthFactor.value < LiquidationThreshold ==> e.liquidated)
  {
    var v := UniswapV3.Value(sqrt, pos, openPrice);
    assert 0.0 < Lending.Borrow(Aave, v) by {
      assert 0.0 < v * 0.65;
    }
  }

  /**
   * For a pool position with non-negative liquidity and a positive open price, the verdict in
   * terms of the -15% scenario alone: liquidated iff the close health factor is below
   * `max(projected health at -15% + 0.10, 1)`.
   */
  lemma LiquidatedAgainstDeepestShock(sqrt: real -> real, pos: UniswapV3.Position, openPrice: real,
                                      closePrice: real)
    requires IsSqrt(sqrt) && pos.Valid() && 0.0 <= pos.liquidity && 0.0 < openPrice
    requires Assess(sqrt, pos, openPrice, closePrice).Some?
    ensures var e := Assess(sqrt, pos, openPrice, closePrice).value;
            var loan := Lending.Borrow(Aave, UniswapV3.Value(sqrt, pos, openPrice));
            var worst := ProjectHealth(sqrt, pos, openPrice, -15, loan).value;
            e.liquidated <==> e.healthFactor.value < worst + SafetyBuffer || e.healthFactor.value < LiquidationThreshold
  {
    AssessedVerdict(sqrt, pos, openPrice, closePrice);
    var v := UniswapV3.Value(sqrt, pos, openPrice);
    assert 0.0 < Lending.Borrow(Aave, v) by {
      assert 0.0 < v * 0.65;
    }
    WorstAtDeepestShock(sqrt, pos, openPrice, Lending.Borrow(Aave, v));
  }

  /** What each pool position, in pool order, yields on a day. */
  function Outcomes(sqrt: real -> real, pool: seq<UniswapV3.Position>, openPrice: real, closePrice: real)
    : (os: seq<Option<Entry>>)
    requires IsSqrt(sqrt) && ValidPool(pool)
    ensures |os| == |pool|
  {
    if pool == [] then []
    else Outcomes(sqrt, pool[..|pool| - 1], openPrice, closePrice)
           + [Assess(sqrt, pool[|pool| - 1], openPrice, closePrice)]
  }

  /** The outcome at place `i` is the assessment of the position at place `i`. */
  lemma {:induction false} OutcomeAt(sqrt: real -> real, pool: seq<UniswapV3.Position>, openPrice: real,
                                     closePrice: real, i: nat)
    requires IsSqrt(sqrt) && ValidPool(pool) && i < |pool|
    ensures Outcomes(sqrt, pool, openPrice, closePrice)[i] == Assess(sqrt, pool[i], openPrice, closePrice)
  {
    var init := pool[..|pool| - 1];
    if i < |pool| - 1 {
      OutcomeAt(sqrt, init, openPrice, closePrice, i);
      assert init[i] == pool[i];
    }
  }

  /** Every assessed position reports its own id. */
  lemma OutcomeIds(sqrt: real -> real, pool: seq<UniswapV3.Position>, openPrice: real, closePrice: real)
    requires IsSqrt(sqrt) && ValidPool(pool)
    ensures var os := Outcomes(sqrt, pool, openPrice, closePrice);
            forall i :: 0 <= i < |pool| && os[i].Some? ==> os[i].value.id == pool[i].positionId
  {
    forall i | 0 <= i < |pool|
      ensures var os := Outcomes(sqrt, pool, openPrice, closePrice);
              os[i].Some? ==> os[i].value.id == pool[i].positionId
    {
      OutcomeAt(sqrt, pool, openPrice, closePrice, i);
    }
  }

  /** The entries of one day, in pool order. */
  function DayEntries(sqrt: real -> real, pool: seq<UniswapV3.Position>, openPrice: real, closePrice: real)
    : (es: seq<Entry>)
    requires IsSqrt(sqrt) && ValidPool(pool)
    ensures |es| <= |pool|
  {
    Present(Outcomes(sqrt, pool, openPrice, closePrice))
  }

  /** The position ids of the pool, in pool order. */
  function Ids(pool: seq<UniswapV3.Position>): (ids: seq<string>)
    ensures |ids| == |pool|
  {
    seq(|pool|, i requires 0 <= i < |pool| => pool[i].positionId)
  }

  /** `price_change_pct` of a timeseries record: relative to a positive open price, else 0. */
  function PriceChangePct(openPrice: real, closePrice: real): (pct: real)
    ensures openPrice <= 0.0 ==> pct == 0.0
    ensures 0.0 < openPrice ==> pct * openPrice == (closePrice - openPrice) * 100.0
  {
    if openPrice > 0.0 then (closePrice - openPrice) / openPrice * 100.0 else 0.0
  }

  /** One record of the timeseries. */
  datatype DayRecord = DayRecord(
    date: string,
    openPrice: real,
    closePrice: real,
    priceChangePct: real,
    liquidationsTradfi: nat,
    avgHealthFactor: Lending.HF,
    uniqueLiquidatedToday: nat)

  /** The record the simulation produces for one price row. */
  function Day(sqrt: real -> real, pool: seq<UniswapV3.Position>, row: PriceRow): (r: DayRecord)
    requires IsSqrt(sqrt) && ValidPool(pool)
    ensures r.uniqueLiquidatedToday <= r.liquidationsTradfi <= |pool|
  {
    var es := DayEntries(sqrt, pool, row.openPrice, row.closePrice);
    LiquidatedIdsBound(es);
    DayRecord(row.date, row.openPrice, row.closePrice, PriceChangePct(row.openPrice, row.closePrice),
              LiquidationCount(es), Average(FiniteHealthFactors(es)), |LiquidatedIds(es)|)
  }

  /** The ids liquidated on at least one of the days. */
  function EverLiquidated(sqrt: real -> real, pool: seq<UniswapV3.Position>, rows: seq<PriceRow>)
    : set<string>
    requires IsSqrt(sqrt) && ValidPool(pool)
  {
    if rows == [] then {}
    else
      var row := rows[|rows| - 1];
      EverLiquidated(sqrt, pool, rows[..|rows| - 1])
        + LiquidatedIds(DayEntries(sqrt, pool, row.openPrice, row.closePrice))
  }

  /** Only pool positions are ever liquidated, so at most as many positions as the pool holds. */
  lemma {:induction false} EverLiquidatedInPool(sqrt: real -> real, pool: seq<UniswapV3.Position>,
                                                rows: seq<PriceRow>)
    requires IsSqrt(sqrt) && ValidPool(pool)
    ensures forall x :: x in EverLiquidated(sqrt, pool, rows) ==>
              exists i :: 0 <= i < |pool| && pool[i].positionId == x
  {
    if rows != [] {
      EverLiquidatedInPool(sqrt, pool, rows[..|rows| - 1]);
      var row := rows[|rows| - 1];
      var es := DayEntries(sqrt, pool, row.openPrice, row.closePrice);
      OutcomeIds(sqrt, pool, row.openPrice, row.closePrice);
      PresentIds(Outcomes(sqrt, pool, row.openPrice, row.closePrice), Ids(pool));
      forall x | x in LiquidatedIds(es)
        ensures exists i :: 0 <= i < |pool| && pool[i].positionId == x
      {
        LiquidatedIdsExactly(es, x);
        var k :| 0 <= k < |es| && es[k].liquidated && es[k].id == x;
        var i :| 0 <= i < |pool| && Ids(pool)[i] == es[k].id;
      }
    }
  }

  lemma EverLiquidatedBound(sqrt: real -> real, pool: seq<UniswapV3.Position>, rows: seq<PriceRow>)
    requires IsSqrt(sqrt) && ValidPool(pool)
    ensures |EverLiquidated(sqrt, pool, rows)| <= |pool|
  {
    EverLiquidatedInPool(sqrt, pool, rows);
    forall x | x in EverLiquidated(sqrt, pool, rows)
      ensures exists i :: 0 <= i < |pool| && Ids(pool)[i] == x
    {
      var i :| 0 <= i < |pool| && pool[i].positionId == x;
      assert Ids(pool)[i] == x;
    }
    SubsetOfSeqCard(EverLiquidated(sqrt, pool, rows), Ids(pool));
  }

  /** The `liquidations_tradfi` entry of a day record. */
  function TradfiLiquidations(r: DayRecord): nat
  {
    r.liquidationsTradfi
  }

  /** The daily liquidation counts of a timeseries. */
  function Liquidations(ts: seq<DayRecord>): seq<nat>
  {
    Column(ts, TradfiLiquidations)
  }

  /** Each day liquidates at most the whole pool, so a run at most `days * positions` times. */
  lemma {:induction false} TotalLiquidationsBound(sqrt: real -> real, pool: seq<UniswapV3.Position>,
                                                  rows: seq<PriceRow>)
    requires IsSqrt(sqrt) && ValidPool(pool)
    ensures SumNat(Liquidations(Days(sqrt, pool, rows))) <= |rows| * |pool|
  {
    if rows != [] {
      var init := rows[..|rows| - 1];
      TotalLiquidationsBound(sqrt, pool, init);
      ColumnPush(Days(sqrt, pool, init), Day(sqrt, pool, rows[|rows| - 1]), TradfiLiquidations);
      assert (|rows| - 1) * |pool| + |pool| == |rows| * |pool|;
    }
  }

  /** With pairwise different position ids, a day's count of liquidations is its count of liquidated ids. */
  lemma DistinctPoolDay(sqrt: real -> real, pool: seq<UniswapV3.Position>, row: PriceRow)
    requires IsSqrt(sqrt) && ValidPool(pool)
    requires forall i, j :: 0 <= i < j < |pool| ==> pool[i].positionId != pool[j].positionId
    ensures Day(sqrt, pool, row).uniqueLiquidatedToday == Day(sqrt, pool, row).liquidationsTradfi
  {
    var os := Outcomes(sqrt, pool, row.openPrice, row.closePrice);
    OutcomeIds(sqrt, pool, row.openPrice, row.closePrice);
    PresentDistinct(os, Ids(pool));
    DistinctIdsCount(Present(os));
  }

  /** The finite daily averages of a timeseries, which the summary averages again. */
  function FiniteAverages(ts: seq<DayRecord>): (hs: seq<real>)
    ensures |hs| <= |ts|
  {
    if ts == [] then []
    else
      var hf := ts[|ts| - 1].avgHealthFactor;
      FiniteAverages(ts[..|ts| - 1]) + (if hf.Fin? then [hf.value] else [])
  }

  /** The run summary; `avgHealthFactorAll` is `None` where numpy's mean of nothing is NaN. */
  datatype Summary = Summary(
    totalDates: nat,
    totalPositions: nat,
    totalLiquidationsAll: nat,
    uniquePositionsEverLiquidated: nat,
    avgHealthFactorAll: Option<real>)

  /**
   * The body of the inner loop for the position at place `j`: skip it when it is worthless at the
   * open, otherwise borrow, stress-test, and judge it at the close.
   */
  method VisitPosition(sqrt: real -> real, pool: seq<UniswapV3.Position>, j: nat, openPrice: real, closePrice: real)
    returns (outcome: Option<Entry>)
    requires IsSqrt(sqrt) && ValidPool(pool) && j < |pool|
    ensures outcome == Outcomes(sqrt, pool, openPrice, closePrice)[j]
  {
    OutcomeAt(sqrt, pool, openPrice, closePrice, j);
    var pos := pool[j];
    var posValueOpen := UniswapV3.Value(sqrt, pos, openPrice);
    if posValueOpen <= 0.0 {
      return None;
    }
    var loanAmount := Lending.Borrow(Aave, posValueOpen);
    var dynamicThreshold := ComputeDynamicThreshold(sqrt, pos, openPrice, loanAmount);
    var posValueClose := UniswapV3.Value(sqrt, pos, closePrice);
    var actualHf := Lending.HealthFactor(Aave, posValueClose, loanAmount);
    var shouldLiquidate := actualHf.Less(dynamicThreshold);
    outcome := Some(Entry(pos.positionId, actualHf, shouldLiquidate));
  }

  /** The inner loop over the pool for one day. */
  method SimulateDay(sqrt: real -> real, pool: seq<UniswapV3.Position>, openPrice: real, closePrice: real)
    returns (dailyLiquidations: nat, liquidatedToday: set<string>, hfValues: seq<real>)
    requires IsSqrt(sqrt) && ValidPool(pool)
    ensures dailyLiquidations == LiquidationCount(DayEntries(sqrt, pool, openPrice, closePrice))
    ensures liquidatedToday == LiquidatedIds(DayEntries(sqrt, pool, openPrice, closePrice))
    ensures hfValues == FiniteHealthFactors(DayEntries(sqrt, pool, openPrice, closePrice))
  {
    ghost var os := Outcomes(sqrt, pool, openPrice, closePrice);
    dailyLiquidations := 0;
    liquidatedToday := {};
    hfValues := [];
    for j := 0 to |pool|
      invariant dailyLiquidations == LiquidationCount(Present(os[..j]))
      invariant liquidatedToday == LiquidatedIds(Present(os[..j]))
      invariant hfValues == FiniteHealthFactors(Present(os[..j]))
    {
      var outcome := VisitPosition(sqrt, pool, j, openPrice, closePrice);
      assert os[..j + 1] == os[..j] + [outcome];
      PresentPush(os[..j], outcome);
      if outcome.Some? {
        dailyLiquidations, liquidatedToday, hfValues :=
          AddEntry(dailyLiquidations, liquidatedToday, hfValues, Present(os[..j]), outcome.value);
      }
    }
    assert os[..|pool|] == os;
  }

  /** One visited position's effect on the three accumulators of the inner loop. */
  method AddEntry(dailyLiquidations: nat, liquidatedToday: set<string>, hfValues: seq<real>,
                    ghost es: seq<Entry>, e: Entry)
    returns (dailyLiquidations': nat, liquidatedToday': set<string>, hfValues': seq<real>)
    requires dailyLiquidations == LiquidationCount(es)
    requires liquidatedToday == LiquidatedIds(es)
    requires hfValues == FiniteHealthFactors(es)
    ensures dailyLiquidations' == LiquidationCount(es + [e])
    ensures liquidatedToday' == LiquidatedIds(es + [e])
    ensures hfValues' == FiniteHealthFactors(es + [e])
  {
    LedgerPush(es, e);
    dailyLiquidations', liquidatedToday', hfValues' := dailyLiquidations, liquidatedToday, hfValues;
    if e.healthFactor.Fin? {
      hfValues' := hfValues + [e.healthFactor.value];
    }
    if e.liquidated {
      dailyLiquidations' := dailyLiquidations + 1;
      liquidatedToday' := liquidatedToday + {e.id};
    }
  }

  /** The timeseries: one record per price row, in row order. */
  function Days(sqrt: real -> real, pool: seq<UniswapV3.Position>, rows: seq<PriceRow>): (ts: seq<DayRecord>)
    requires IsSqrt(sqrt) && ValidPool(pool)
    ensures |ts| == |rows|
  {
    if rows == [] then []
    else Days(sqrt, pool, rows[..|rows| - 1]) + [Day(sqrt, pool, rows[|rows| - 1])]
  }

  /** The record at place `d` of the timeseries is the record of the row at place `d`. */
  lemma {:induction false} DayAt(sqrt: real -> real, pool: seq<UniswapV3.Position>, rows: seq<PriceRow>, d: nat)
    requires IsSqrt(sqrt) && ValidPool(pool) && d < |rows|
    ensures Days(sqrt, pool, rows)[d] == Day(sqrt, pool, rows[d])
  {
    var init := rows[..|rows| - 1];
    if d < |rows| - 1 {
      DayAt(sqrt, pool, init, d);
      assert init[d] == rows[d];
    }
  }

  /** One day of the outer loop: the inner loop's tallies, turned into the day's record. */
  method RecordDay(sqrt: real -> real, pool: seq<UniswapV3.Position>, row: PriceRow)
    returns (record: DayRecord, liquidatedToday: set<string>)
    requires IsSqrt(sqrt) && ValidPool(pool)
    ensures record == Day(sqrt, pool, row)
    ensures liquidatedToday == LiquidatedIds(DayEntries(sqrt, pool, row.openPrice, row.closePrice))
  {
    var dailyLiquidations, hfValues;
    dailyLiquidations, liquidatedToday, hfValues := SimulateDay(sqrt, pool, row.openPrice, row.closePrice);
    var avgHf := Average(hfValues);
    record := DayRecord(row.date, row.openPrice, row.closePrice, PriceChangePct(row.openPrice, row.closePrice),
                        dailyLiquidations, avgHf, |liquidatedToday|);
  }

  /** The timeseries and the liquidated ids after one more row. */
  lemma RunPush(sqrt: real -> real, pool: seq<UniswapV3.Position>, rows: seq<PriceRow>, d: nat)
    requires IsSqrt(sqrt) && ValidPool(pool) && d < |rows|
    ensures Days(sqrt, pool, rows[..d + 1]) == Days(sqrt, pool, rows[..d]) + [Day(sqrt, pool, rows[d])]
    ensures EverLiquidated(sqrt, pool, rows[..d + 1])
         == EverLiquidated(sqrt, pool, rows[..d])
            + LiquidatedIds(DayEntries(sqrt, pool, rows[d].openPrice, rows[d].closePrice))
  {
    assert rows[..d + 1][..d] == rows[..d];
    assert rows[..d + 1][d] == rows[d];
  }

  /**
   * run_hybrid_stress_simulation over a given pool and price table: one record per row, in row
   * order, and the summary of the whole run.
   */
  method RunHybridStressSimulation(sqrt: real -> real, pool: seq<UniswapV3.Position>, rows: seq<PriceRow>)
    returns (timeseries: seq<DayRecord>, summary: Summary)
    requires IsSqrt(sqrt) && ValidPool(pool)
    ensures timeseries == Days(sqrt, pool, rows)
    ensures summary.totalDates == |rows| && summary.totalPositions == |pool|
    ensures summary.totalLiquidationsAll == SumNat(Liquidations(timeseries))
    ensures summary.uniquePositionsEverLiquidated == |EverLiquidated(sqrt, pool, rows)|
    ensures summary.avgHealthFactorAll == Mean(FiniteAverages(timeseries))
  {
    timeseries := [];
    var totalLiquidationsAll: nat := 0;
    var positionsEverLiquidated: set<string> := {};
    for d := 0 to |rows|
      invariant timeseries == Days(sqrt, pool, rows[..d])
      invariant totalLiquidationsAll == SumNat(Liquidations(timeseries))
      invariant positionsEverLiquidated == EverLiquidated(sqrt, pool, rows[..d])
    {
      var record, liquidatedToday := RecordDay(sqrt, pool, rows[d]);
      positionsEverLiquidated := positionsEverLiquidated + liquidatedToday;
      totalLiquidationsAll := totalLiquidationsAll + record.liquidationsTradfi;
      ColumnPush(timeseries, record, TradfiLiquidations);
      RunPush(sqrt, pool, rows, d);
      timeseries := timeseries + [record];
    }
    assert rows[..|rows|] == rows;
    summary := Summary(|rows|, |pool|, totalLiquidationsAll, |positionsEverLiquidated|, Mean(FiniteAverages(timeseries)));
  }
}
