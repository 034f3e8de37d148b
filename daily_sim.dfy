/**
 * The daily re-origination simulation. On every trading day each position of the pool borrows
 * `borrow(value at the open)` afresh and the lender decides, at the close, whether to liquidate;
 * nothing carries over from one day to the next except the run's tallies.
 */
module DailySim {
  import opened Common
  import opened RealSqrt
  import Lending
  import UniswapV3
  import opened DayLedger
  import HybridStress

  const Aave := Lending.Defaults

  /** The pool is the item list of a dictionary keyed by position id: its ids are pairwise different. */
  ghost predicate DistinctPositionIds(pool: seq<UniswapV3.Position>)
  {
    forall i, j :: 0 <= i < j < |pool| ==> pool[i].positionId != pool[j].positionId
  }

  /** One position on one day: a fresh maximal loan against the open value, decided at the close. */
  function Visit(sqrt: real -> real, pos: UniswapV3.Position, row: PriceRow): (e: Entry)
    requires IsSqrt(sqrt) && pos.range.Valid()
    ensures e.id == pos.positionId
  {
    var posValueOpen := UniswapV3.Value(sqrt, pos, row.openPrice);
    var posValueClose := UniswapV3.Value(sqrt, pos, row.closePrice);
    var decision := Lending.DecideLiquidation(Aave, posValueClose, Lending.Borrow(Aave, posValueOpen));
    Entry(pos.positionId, decision.healthFactor, decision.shouldLiquidate)
  }

  /**
   * A loan re-originated at the open is liquidated at the close exactly when it carries debt and
   * the close value, weighted by the 0.70 threshold, falls below 0.65 of the open value.
   */
  lemma VisitVerdict(sqrt: real -> real, pos: UniswapV3.Position, row: PriceRow)
    requires IsSqrt(sqrt) && pos.range.Valid()
    ensures var vo := UniswapV3.Value(sqrt, pos, row.openPrice);
            var vc := UniswapV3.Value(sqrt, pos, row.closePrice);
            && (Visit(sqrt, pos, row).liquidated <==> 0.0 < vo && vc * 0.70 < vo * 0.65)
            && (vo <= 0.0 <==> Visit(sqrt, pos, row).healthFactor.Inf?)
  {
    var vo := UniswapV3.Value(sqrt, pos, row.openPrice);
    var vc := UniswapV3.Value(sqrt, pos, row.closePrice);
    Lending.LiquidatedIffUndercollateralised(Aave, vc, Lending.Borrow(Aave, vo));
  }

  /**
   * A position whose value did not fall during the day is never liquidated: the fresh loan's
   * health factor starts at 0.70 / 0.65 > 1.
   */
  lemma NoDropNoLiquidation(sqrt: real -> real, pos: UniswapV3.Position, row: PriceRow)
    requires IsSqrt(sqrt) && pos.range.Valid()
    requires UniswapV3.Value(sqrt, pos, row.openPrice) <= UniswapV3.Value(sqrt, pos, row.closePrice)
    ensures !Visit(sqrt, pos, row).liquidated
  {
    VisitVerdict(sqrt, pos, row);
  }

  /** Since a position's value does not fall with the price, no position is liquidated on a day the price did not fall. */
  lemma RisingDayNoLiquidation(sqrt: real -> real, pos: UniswapV3.Position, row: PriceRow)
    requires IsSqrt(sqrt) && pos.range.Valid() && 0.0 <= pos.liquidity
    requires row.openPrice <= row.closePrice
    ensures !Visit(sqrt, pos, row).liquidated
  {
    UniswapV3.ValueMonotone(sqrt, pos, row.openPrice, row.closePrice);
    NoDropNoLiquidation(sqrt, pos, row);
  }

  /** The entries of one day, in pool order: every position is visited. */
  function DayEntries(sqrt: real -> real, pool: seq<UniswapV3.Position>, row: PriceRow): (es: seq<Entry>)
    requires IsSqrt(sqrt) && HybridStress.ValidPool(pool)
    ensures |es| == |pool|
    ensures forall i :: 0 <= i < |pool| ==> es[i].id == pool[i].positionId
  {
    seq(|pool|, i requires 0 <= i < |pool| => Visit(sqrt, pool[i], row))
  }

  /** One record of the timeseries. */
  datatype DayRecord = DayRecord(
    date: string,
    openPrice: real,
    closePrice: real,
    totalLiquidations: nat,
    uniqueLiquidated: nat,
    avgHealthFactor: Lending.HF)

  /** The record the simulation produces for one price row. */
  function Day(sqrt: real -> real, pool: seq<UniswapV3.Position>, row: PriceRow): (r: DayRecord)
    requires IsSqrt(sqrt) && HybridStress.ValidPool(pool)
    ensures r.uniqueLiquidated <= r.totalLiquidations <= |pool|
    ensures r.date == row.date && r.openPrice == row.openPrice && r.closePrice == row.closePrice
  {
    var es := DayEntries(sqrt, pool, row);
    LiquidatedIdsBound(es);
    DayRecord(row.date, row.openPrice, row.closePrice, LiquidationCount(es), |LiquidatedIds(es)|,
              Average(FiniteHealthFactors(es)))
  }

  /** Each position is visited once a day, so a day's liquidation count is its count of liquidated ids. */
  lemma DistinctPoolDay(sqrt: real -> real, pool: seq<UniswapV3.Position>, row: PriceRow)
    requires IsSqrt(sqrt) && HybridStress.ValidPool(pool) && DistinctPositionIds(pool)
    ensures Day(sqrt, pool, row).uniqueLiquidated == Day(sqrt, pool, row).totalLiquidations
  {
    DistinctIdsCount(DayEntries(sqrt, pool, row));
  }

  /** The entries of a whole run, day after day. */
  function RunEntries(sqrt: real -> real, pool: seq<UniswapV3.Position>, rows: seq<PriceRow>): (es: seq<Entry>)
    requires IsSqrt(sqrt) && HybridStress.ValidPool(pool)
    ensures |es| == |rows| * |pool|
  {
    if rows == [] then []
    else RunEntries(sqrt, pool, rows[..|rows| - 1]) + DayEntries(sqrt, pool, rows[|rows| - 1])
  }

  /** The timeseries: one record per price row, in row order. */
  function Days(sqrt: real -> real, pool: seq<UniswapV3.Position>, rows: seq<PriceRow>): (ts: seq<DayRecord>)
    requires IsSqrt(sqrt) && HybridStress.ValidPool(pool)
    ensures |ts| == |rows|
  {
    if rows == [] then [] else Days(sqrt, pool, rows[..|rows| - 1]) + [Day(sqrt, pool, rows[|rows| - 1])]
  }

  /** The record at place `d` of the timeseries is the record of the row at place `d`. */
  lemma {:induction false} DayAt(sqrt: real -> real, pool: seq<UniswapV3.Position>, rows: seq<PriceRow>, d: nat)
    requires IsSqrt(sqrt) && HybridStress.ValidPool(pool) && d < |rows|
    ensures Days(sqrt, pool, rows)[d] == Day(sqrt, pool, rows[d])
  {
    var init := rows[..|rows| - 1];
    if d < |rows| - 1 {
      DayAt(sqrt, pool, init, d);
      assert init[d] == rows[d];
    }
  }

  /** The timeseries and the run's entries after one more row. */
  lemma RunPush(sqrt: real -> real, pool: seq<UniswapV3.Position>, rows: seq<PriceRow>, d: nat)
    requires IsSqrt(sqrt) && HybridStress.ValidPool(pool) && d < |rows|
    ensures Days(sqrt, pool, rows[..d + 1]) == Days(sqrt, pool, rows[..d]) + [Day(sqrt, pool, rows[d])]
    ensures RunEntries(sqrt, pool, rows[..d + 1]) == RunEntries(sqrt, pool, rows[..d]) + DayEntries(sqrt, pool, rows[d])
  {
    assert rows[..d + 1][..d] == rows[..d];
    assert rows[..d + 1][d] == rows[d];
  }

  /** The `total_liquidations` entry of a day record. */
  function DayTotal(r: DayRecord): nat
  {
    r.totalLiquidations
  }

  /** The daily liquidation counts of a timeseries. */
  function Liquidations(ts: seq<DayRecord>): seq<nat>
  {
    Column(ts, DayTotal)
  }

  /** The run's liquidation total is the sum of the timeseries' daily totals. */
  lemma {:induction false} TotalIsSumOfDays(sqrt: real -> real, pool: seq<UniswapV3.Position>, rows: seq<PriceRow>)
    requires IsSqrt(sqrt) && HybridStress.ValidPool(pool)
    ensures LiquidationCount(RunEntries(sqrt, pool, rows)) == SumNat(Liquidations(Days(sqrt, pool, rows)))
  {
    if rows != [] {
      var init := rows[..|rows| - 1];
      var last := rows[|rows| - 1];
      TotalIsSumOfDays(sqrt, pool, init);
      LedgerAppend(RunEntries(sqrt, pool, init), DayEntries(sqrt, pool, last));
      ColumnPush(Days(sqrt, pool, init), Day(sqrt, pool, last), DayTotal);
    }
  }

  /** Only pool positions are ever liquidated. */
  lemma {:induction false} EverLiquidatedInPool(sqrt: real -> real, pool: seq<UniswapV3.Position>,
                                                rows: seq<PriceRow>)
    requires IsSqrt(sqrt) && HybridStress.ValidPool(pool)
    ensures forall x :: x in LiquidatedIds(RunEntries(sqrt, pool, rows)) ==>
              exists i :: 0 <= i < |pool| && HybridStress.Ids(pool)[i] == x
  {
    if rows != [] {
      var init := rows[..|rows| - 1];
      var es := DayEntries(sqrt, pool, rows[|rows| - 1]);
      EverLiquidatedInPool(sqrt, pool, init);
      LedgerAppend(RunEntries(sqrt, pool, init), es);
      forall x | x in LiquidatedIds(es)
        ensures exists i :: 0 <= i < |pool| && HybridStress.Ids(pool)[i] == x
      {
        LiquidatedIdsExactly(es, x);
        var k :| 0 <= k < |es| && es[k].liquidated && es[k].id == x;
        assert HybridStress.Ids(pool)[k] == x;
      }
    }
  }

  /** No more positions are ever liquidated than the pool holds. */
  lemma EverLiquidatedBound(sqrt: real -> real, pool: seq<UniswapV3.Position>, rows: seq<PriceRow>)
    requires IsSqrt(sqrt) && HybridStress.ValidPool(pool)
    ensures |LiquidatedIds(RunEntries(sqrt, pool, rows))| <= |pool|
  {
    EverLiquidatedInPool(sqrt, pool, rows);
    SubsetOfSeqCard(LiquidatedIds(RunEntries(sqrt, pool, rows)), HybridStress.Ids(pool));
  }

  /** The run summary. */
  datatype Summary = Summary(
    totalDates: nat,
    totalPositions: nat,
    totalLiquidationsAll: nat,
    uniquePositionsEverLiquidated: nat,
    avgHealthFactorAll: Lending.HF)

  /** The loop body for the position at place `j`. */
  method VisitPosition(sqrt: real -> real, pool: seq<UniswapV3.Position>, j: nat, row: PriceRow)
    returns (e: Entry)
    requires IsSqrt(sqrt) && HybridStress.ValidPool(pool) && j < |pool|
    ensures e == DayEntries(sqrt, pool, row)[j]
  {
    var pos := pool[j];
    var posValueOpen := UniswapV3.Value(sqrt, pos, row.openPrice);
    var posValueClose := UniswapV3.Value(sqrt, pos, row.closePrice);
    var loan := Lending.Borrow(Aave, posValueOpen);
    var decision := Lending.DecideLiquidation(Aave, posValueClose, loan);
    e := Entry(pos.positionId, decision.healthFactor, decision.shouldLiquidate);
  }

  lemma StepEntries(before: seq<Entry>, es: seq<Entry>, j: nat)
    requires j < |es|
    ensures es[..j + 1] == es[..j] + [es[j]]
    ensures before + es[..j + 1] == (before + es[..j]) + [es[j]]
  {
  }

  /**
   * The inner loop over the pool for one day, updating the day's tallies and the run's tallies
   * together, position by position.
   */
  method SimulateDay(sqrt: real -> real, pool: seq<UniswapV3.Position>, row: PriceRow, run: Tally,
                     ghost before: seq<Entry>)
    returns (day: Tally, run': Tally)
    requires IsSqrt(sqrt) && HybridStress.ValidPool(pool)
    requires run == Summed(before)
    ensures day == Summed(DayEntries(sqrt, pool, row))
    ensures run' == Summed(before + DayEntries(sqrt, pool, row))
  {
    ghost var es := DayEntries(sqrt, pool, row);
    SummedEmpty();
    day := Tally(0, {}, 0.0, 0);
    run' := run;
    assert before + es[..0] == before;
    for j := 0 to |pool|
      invariant day == Summed(es[..j])
      invariant run' == Summed(before + es[..j])
    {
      var e := VisitPosition(sqrt, pool, j, row);
      StepEntries(before, es, j);
      day := TallyEntry(day, es[..j], e);
      run' := TallyEntry(run', before + es[..j], e);
    }
    assert es[..|pool|] == es;
  }

  /** One day of the outer loop: the inner loop, then the day's record. */
  method RecordDay(sqrt: real -> real, pool: seq<UniswapV3.Position>, row: PriceRow, run: Tally,
                   ghost before: seq<Entry>)
    returns (record: DayRecord, run': Tally)
    requires IsSqrt(sqrt) && HybridStress.ValidPool(pool)
    requires run == Summed(before)
    ensures record == Day(sqrt, pool, row)
    ensures run' == Summed(before + DayEntries(sqrt, pool, row))
  {
    var day;
    day, run' := SimulateDay(sqrt, pool, row, run, before);
    AverageOfTally(DayEntries(sqrt, pool, row));
    var avgHfDay := if day.hfCount > 0 then Lending.Fin(day.hfSum / (day.hfCount as real)) else Lending.Inf;
    record := DayRecord(row.date, row.openPrice, row.closePrice, day.liquidations, |day.liquidated|, avgHfDay);
  }

  /**
   * run_full_simulation over a pool (the items of the position dictionary, in insertion order) and
   * a price table: one record per row, in row order, and the run's totals.
   */
  method RunFullSimulation(sqrt: real -> real, pool: seq<UniswapV3.Position>, rows: seq<PriceRow>)
    returns (timeseries: seq<DayRecord>, summary: Summary)
    requires IsSqrt(sqrt) && HybridStress.ValidPool(pool) && DistinctPositionIds(pool)
    ensures timeseries == Days(sqrt, pool, rows)
    ensures summary.totalDates == |rows| && summary.totalPositions == |pool|
    ensures summary.totalLiquidationsAll == LiquidationCount(RunEntries(sqrt, pool, rows))
    ensures summary.uniquePositionsEverLiquidated == |LiquidatedIds(RunEntries(sqrt, pool, rows))|
    ensures summary.avgHealthFactorAll == Average(FiniteHealthFactors(RunEntries(sqrt, pool, rows)))
  {
    timeseries := [];
    var totalDates: nat := 0;
    SummedEmpty();
    var run := Tally(0, {}, 0.0, 0);
    for d := 0 to |rows|
      invariant totalDates == d
      invariant timeseries == Days(sqrt, pool, rows[..d])
      invariant run == Summed(RunEntries(sqrt, pool, rows[..d]))
    {
      var record;
      record, run := RecordDay(sqrt, pool, rows[d], run, RunEntries(sqrt, pool, rows[..d]));
      RunPush(sqrt, pool, rows, d);
      timeseries := timeseries + [record];
      totalDates := totalDates + 1;
    }
    assert rows[..|rows|] == rows;
    AverageOfTally(RunEntries(sqrt, pool, rows));
    var avgHfAll := if run.hfCount > 0 then Lending.Fin(run.hfSum / (run.hfCount as real)) else Lending.Inf;
    summary := Summary(totalDates, |pool|, run.liquidations, |run.liquidated|, avgHfAll);
  }

  /** The price change written by export_timeseries_to_csv, in percent; 0 for a zero open price. */
  function ExportPriceChange(openPrice: real, closePrice: real): (pct: real)
    ensures openPrice == 0.0 ==> pct == 0.0
    ensures openPrice != 0.0 ==> pct * openPrice == (closePrice - openPrice) * 100.0
  {
    if openPrice != 0.0 then (closePrice - openPrice) / openPrice * 100.0 else 0.0
  }
}
