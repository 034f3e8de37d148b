/**
 * The day loop of the loan-shrink simulation. Each day every position of a fixed pool is offered
 * `borrow(value)` at the open; the offer is shrunk by the stress test; the position is judged at
 * the close. Besides the liquidation tallies of the other simulations, a day records the mean
 * effective loan-to-value ratio and the number of shrunk loans.
 */
module LoanShrinkSim {
  import opened Common
  import opened RealSqrt
  import Lending
  import UniswapV3
  import opened DayLedger
  import opened LoanShrink
  import HybridStress

  /** What each pool position, in pool order, yields on a day. */
  function Outcomes(sqrt: real -> real, pool: seq<UniswapV3.Position>, openPrice: real, closePrice: real,
                    projector: Projector): (os: seq<Option<Visit>>)
    requires IsSqrt(sqrt) && HybridStress.ValidPool(pool)
    ensures |os| == |pool|
  {
    if pool == [] then []
    else Outcomes(sqrt, pool[..|pool| - 1], openPrice, closePrice, projector)
           + [Assess(sqrt, pool[|pool| - 1], openPrice, closePrice, projector)]
  }

  /** The outcome at place `i` is the assessment of the position at place `i`. */
  lemma {:induction false} OutcomeAt(sqrt: real -> real, pool: seq<UniswapV3.Position>, openPrice: real,
                                     closePrice: real, projector: Projector, i: nat)
    requires IsSqrt(sqrt) && HybridStress.ValidPool(pool) && i < |pool|
    ensures Outcomes(sqrt, pool, openPrice, closePrice, projector)[i]
         == Assess(sqrt, pool[i], openPrice, closePrice, projector)
  {
    var init := pool[..|pool| - 1];
    if i < |pool| - 1 {
      OutcomeAt(sqrt, init, openPrice, closePrice, projector, i);
      assert init[i] == pool[i];
    }
  }

  /** The visits of the positions that were not skipped, in pool order. */
  function Visited(os: seq<Option<Visit>>): (vs: seq<Visit>)
    ensures |vs| <= |os|
  {
    if os == [] then []
    else
      var rest := Visited(os[..|os| - 1]);
      match os[|os| - 1]
      case None => rest
      case Some(v) => rest + [v]
  }

  /** The ledger entries of some visits. */
  function Entries(vs: seq<Visit>): (es: seq<Entry>)
    ensures |es| == |vs|
  {
    if vs == [] then [] else Entries(vs[..|vs| - 1]) + [vs[|vs| - 1].entry]
  }

  /** The effective LTVs of some visits (`daily_ltvs`). */
  function Ltvs(vs: seq<Visit>): (ls: seq<real>)
    ensures |ls| == |vs|
  {
    if vs == [] then [] else Ltvs(vs[..|vs| - 1]) + [vs[|vs| - 1].effectiveLtv]
  }

  /** The number of shrunk loans among some visits (`reductions_applied`). */
  function Reductions(vs: seq<Visit>): (n: nat)
    ensures n <= |vs|
  {
    if vs == [] then 0 else Reductions(vs[..|vs| - 1]) + (if vs[|vs| - 1].reduced then 1 else 0)
  }

  lemma TakeNext<T>(s: seq<T>, n: nat)
    requires n < |s|
    ensures s[..n + 1] == s[..n] + [s[n]]
  {
  }

  lemma VisitedPush(os: seq<Option<Visit>>, o: Option<Visit>)
    ensures Visited(os + [o]) == Visited(os) + (if o.Some? then [o.value] else [])
  {
    assert (os + [o])[..|os + [o]| - 1] == os;
  }

  lemma StepVisited(os: seq<Option<Visit>>, j: nat)
    requires j < |os|
    ensures Visited(os[..j + 1]) == Visited(os[..j]) + (if os[j].Some? then [os[j].value] else [])
  {
    TakeNext(os, j);
    VisitedPush(os[..j], os[j]);
  }

  lemma VisitsPush(vs: seq<Visit>, v: Visit)
    ensures Entries(vs + [v]) == Entries(vs) + [v.entry]
    ensures Ltvs(vs + [v]) == Ltvs(vs) + [v.effectiveLtv]
    ensures Reductions(vs + [v]) == Reductions(vs) + (if v.reduced then 1 else 0)
  {
    assert (vs + [v])[..|vs + [v]| - 1] == vs;
  }

  /** The verdicts alone, with `None` for a skipped position. */
  function Verdicts(os: seq<Option<Visit>>): (ps: seq<Option<Entry>>)
    ensures |ps| == |os|
  {
    seq(|os|, i requires 0 <= i < |os| => if os[i].Some? then Some(os[i].value.entry) else None)
  }

  /** The entries of the visited positions are the entries present among the verdicts. */
  lemma {:induction false} EntriesOfVisited(os: seq<Option<Visit>>)
    ensures Entries(Visited(os)) == Present(Verdicts(os))
  {
    if os != [] {
      var init := os[..|os| - 1];
      EntriesOfVisited(init);
      assert Verdicts(os)[..|os| - 1] == Verdicts(init);
      var o := os[|os| - 1];
      assert os == init + [o];
      VisitedPush(init, o);
      if o.Some? {
        VisitsPush(Visited(init), o.value);
      }
    }
  }

  /** If every visit records an LTV in [0, 1], so does every element of the LTV list. */
  lemma {:induction false} VisitedLtvsInUnit(os: seq<Option<Visit>>)
    requires forall i :: 0 <= i < |os| && os[i].Some? ==> 0.0 <= os[i].value.effectiveLtv <= 1.0
    ensures forall k :: 0 <= k < |Ltvs(Visited(os))| ==> 0.0 <= Ltvs(Visited(os))[k] <= 1.0
  {
    if os != [] {
      var init := os[..|os| - 1];
      VisitedLtvsInUnit(init);
      var o := os[|os| - 1];
      assert os == init + [o];
      VisitedPush(init, o);
      if o.Some? {
        VisitsPush(Visited(init), o.value);
      }
    }
  }

  /** Every visit of a day reports its own position's id and an LTV in [0, 1]. */
  lemma OutcomeFacts(sqrt: real -> real, pool: seq<UniswapV3.Position>, openPrice: real, closePrice: real,
                     projector: Projector)
    requires IsSqrt(sqrt) && HybridStress.ValidPool(pool)
    ensures var os := Outcomes(sqrt, pool, openPrice, closePrice, projector);
            forall i :: 0 <= i < |pool| && os[i].Some? ==>
              os[i].value.entry.id == pool[i].positionId && 0.0 <= os[i].value.effectiveLtv <= 1.0
  {
    forall i | 0 <= i < |pool|
      ensures var os := Outcomes(sqrt, pool, openPrice, closePrice, projector);
              os[i].Some? ==> os[i].value.entry.id == pool[i].positionId && 0.0 <= os[i].value.effectiveLtv <= 1.0
    {
      OutcomeAt(sqrt, pool, openPrice, closePrice, projector, i);
    }
  }

  /** The visits of one day, in pool order. */
  function DayVisits(sqrt: real -> real, pool: seq<UniswapV3.Position>, openPrice: real, closePrice: real,
                     projector: Projector): (vs: seq<Visit>)
    requires IsSqrt(sqrt) && HybridStress.ValidPool(pool)
    ensures |vs| <= |pool|
  {
    Visited(Outcomes(sqrt, pool, openPrice, closePrice, projector))
  }

  /** `np.mean(xs) if xs else 0.0`. */
  function MeanOrZero(xs: seq<real>): (m: real)
    ensures xs == [] ==> m == 0.0
    ensures xs != [] ==> m * (|xs| as real) == Sum(xs)
  {
    match Mean(xs)
    case None => 0.0
    case Some(m) => m
  }

  /** One record of the timeseries. */
  datatype DayRecord = DayRecord(
    date: string,
    openPrice: real,
    closePrice: real,
    priceChangePct: real,
    liquidationsTradfiAdjusted: nat,
    avgHealthFactor: Lending.HF,
    avgEffectiveLtv: real,
    reductionsAppliedToday: nat,
    uniqueLiquidatedToday: nat)

  /** The record the simulation produces for one price row. */
  function Day(sqrt: real -> real, pool: seq<UniswapV3.Position>, row: PriceRow, projector: Projector)
    : (r: DayRecord)
    requires IsSqrt(sqrt) && HybridStress.ValidPool(pool)
    ensures r.uniqueLiquidatedToday <= r.liquidationsTradfiAdjusted <= |pool|
    ensures r.reductionsAppliedToday <= |pool|
    ensures 0.0 <= r.avgEffectiveLtv <= 1.0
  {
    var os := Outcomes(sqrt, pool, row.openPrice, row.closePrice, projector);
    var vs := Visited(os);
    var es := Entries(vs);
    LiquidatedIdsBound(es);
    OutcomeFacts(sqrt, pool, row.openPrice, row.closePrice, projector);
    VisitedLtvsInUnit(os);
    LtvMeanInUnit(Ltvs(vs));
    DayRecord(row.date, row.openPrice, row.closePrice, HybridStress.PriceChangePct(row.openPrice, row.closePrice),
              LiquidationCount(es), Average(FiniteHealthFactors(es)), MeanOrZero(Ltvs(vs)), Reductions(vs),
              |LiquidatedIds(es)|)
  }

  lemma LtvMeanInUnit(ls: seq<real>)
    requires forall k :: 0 <= k < |ls| ==> 0.0 <= ls[k] <= 1.0
    ensures 0.0 <= MeanOrZero(ls) <= 1.0
  {
    if ls != [] {
      MeanBounds(ls, 0.0, 1.0);
    }
  }

  /** With pairwise different position ids, a day's count of liquidations is its count of liquidated ids. */
  lemma DistinctPoolDay(sqrt: real -> real, pool: seq<UniswapV3.Position>, row: PriceRow, projector: Projector)
    requires IsSqrt(sqrt) && HybridStress.ValidPool(pool)
    requires forall i, j :: 0 <= i < j < |pool| ==> pool[i].positionId != pool[j].positionId
    ensures Day(sqrt, pool, row, projector).uniqueLiquidatedToday
         == Day(sqrt, pool, row, projector).liquidationsTradfiAdjusted
  {
    var os := Outcomes(sqrt, pool, row.openPrice, row.closePrice, projector);
    OutcomeFacts(sqrt, pool, row.openPrice, row.closePrice, projector);
    EntriesOfVisited(os);
    PresentDistinct(Verdicts(os), HybridStress.Ids(pool));
    DistinctIdsCount(Entries(Visited(os)));
  }

  /** The ids liquidated on at least one of the days. */
  function EverLiquidated(sqrt: real -> real, pool: seq<UniswapV3.Position>, rows: seq<PriceRow>,
                          projector: Projector): set<string>
    requires IsSqrt(sqrt) && HybridStress.ValidPool(pool)
  {
    if rows == [] then {}
    else
      var row := rows[|rows| - 1];
      EverLiquidated(sqrt, pool, rows[..|rows| - 1], projector)
        + LiquidatedIds(Entries(DayVisits(sqrt, pool, row.openPrice, row.closePrice, projector)))
  }

  /** Only pool positions are ever liquidated. */
  lemma {:induction false} EverLiquidatedInPool(sqrt: real -> real, pool: seq<UniswapV3.Position>,
                                                rows: seq<PriceRow>, projector: Projector)
    requires IsSqrt(sqrt) && HybridStress.ValidPool(pool)
    ensures forall x :: x in EverLiquidated(sqrt, pool, rows, projector) ==>
              exists i :: 0 <= i < |pool| && HybridStress.Ids(pool)[i] == x
  {
    if rows != [] {
      EverLiquidatedInPool(sqrt, pool, rows[..|rows| - 1], projector);
      var row := rows[|rows| - 1];
      DayLiquidatedInPool(sqrt, pool, row.openPrice, row.closePrice, projector);
    }
  }

  /** Only pool positions are liquidated on one day. */
  lemma DayLiquidatedInPool(sqrt: real -> real, pool: seq<UniswapV3.Position>, openPrice: real, closePrice: real,
                            projector: Projector)
    requires IsSqrt(sqrt) && HybridStress.ValidPool(pool)
    ensures forall x :: x in LiquidatedIds(Entries(DayVisits(sqrt, pool, openPrice, closePrice, projector))) ==>
              exists i :: 0 <= i < |pool| && HybridStress.Ids(pool)[i] == x
  {
    var os := Outcomes(sqrt, pool, openPrice, closePrice, projector);
    var es := Entries(Visited(os));
    OutcomeFacts(sqrt, pool, openPrice, closePrice, projector);
    EntriesOfVisited(os);
    PresentIds(Verdicts(os), HybridStress.Ids(pool));
    forall x | x in LiquidatedIds(es)
      ensures exists i :: 0 <= i < |pool| && HybridStress.Ids(pool)[i] == x
    {
      LiquidatedIdsExactly(es, x);
      var k :| 0 <= k < |es| && es[k].liquidated && es[k].id == x;
    }
  }

  /** At most as many positions are ever liquidated as the pool holds. */
  lemma EverLiquidatedBound(sqrt: real -> real, pool: seq<UniswapV3.Position>, rows: seq<PriceRow>,
                            projector: Projector)
    requires IsSqrt(sqrt) && HybridStress.ValidPool(pool)
    ensures |EverLiquidated(sqrt, pool, rows, projector)| <= |pool|
  {
    EverLiquidatedInPool(sqrt, pool, rows, projector);
    SubsetOfSeqCard(EverLiquidated(sqrt, pool, rows, projector), HybridStress.Ids(pool));
  }

  /** The timeseries: one record per price row, in row order. */
  function Days(sqrt: real -> real, pool: seq<UniswapV3.Position>, rows: seq<PriceRow>, projector: Projector)
    : (ts: seq<DayRecord>)
    requires IsSqrt(sqrt) && HybridStress.ValidPool(pool)
    ensures |ts| == |rows|
  {
    if rows == [] then []
    else Days(sqrt, pool, rows[..|rows| - 1], projector) + [Day(sqrt, pool, rows[|rows| - 1], projector)]
  }

  /** The record at place `d` of the timeseries is the record of the row at place `d`. */
  lemma {:induction false} DayAt(sqrt: real -> real, pool: seq<UniswapV3.Position>, rows: seq<PriceRow>,
                                 projector: Projector, d: nat)
    requires IsSqrt(sqrt) && HybridStress.ValidPool(pool) && d < |rows|
    ensures Days(sqrt, pool, rows, projector)[d] == Day(sqrt, pool, rows[d], projector)
  {
    var init := rows[..|rows| - 1];
    if d < |rows| - 1 {
      DayAt(sqrt, pool, init, projector, d);
      assert init[d] == rows[d];
    }
  }

  /** The timeseries and the liquidated ids after one more row. */
  lemma RunPush(sqrt: real -> real, pool: seq<UniswapV3.Position>, rows: seq<PriceRow>, projector: Projector,
                d: nat)
    requires IsSqrt(sqrt) && HybridStress.ValidPool(pool) && d < |rows|
    ensures Days(sqrt, pool, rows[..d + 1], projector)
         == Days(sqrt, pool, rows[..d], projector) + [Day(sqrt, pool, rows[d], projector)]
    ensures EverLiquidated(sqrt, pool, rows[..d + 1], projector)
         == EverLiquidated(sqrt, pool, rows[..d], projector)
            + LiquidatedIds(Entries(DayVisits(sqrt, pool, rows[d].openPrice, rows[d].closePrice, projector)))
  {
    assert rows[..d + 1][..d] == rows[..d];
    assert rows[..d + 1][d] == rows[d];
  }

  /** The `liquidations_tradfi_adjusted` entry of a day record. */
  function AdjustedLiquidations(r: DayRecord): nat
  {
    r.liquidationsTradfiAdjusted
  }

  /** The daily liquidation counts of a timeseries. */
  function Liquidations(ts: seq<DayRecord>): seq<nat>
  {
    Column(ts, AdjustedLiquidations)
  }

  /** The `reductions_applied_today` entry of a day record. */
  function ReductionsToday(r: DayRecord): nat
  {
    r.reductionsAppliedToday
  }

  /** The daily counts of shrunk loans of a timeseries. */
  function ReductionsPerDay(ts: seq<DayRecord>): seq<nat>
  {
    Column(ts, ReductionsToday)
  }

  /** The daily mean LTVs of a timeseries. */
  function AverageLtvs(ts: seq<DayRecord>): (ls: seq<real>)
    ensures |ls| == |ts|
  {
    seq(|ts|, i requires 0 <= i < |ts| => ts[i].avgEffectiveLtv)
  }

  /** The finite daily average health factors of a timeseries. */
  function FiniteAverages(ts: seq<DayRecord>): (hs: seq<real>)
    ensures |hs| <= |ts|
  {
    if ts == [] then []
    else
      var hf := ts[|ts| - 1].avgHealthFactor;
      FiniteAverages(ts[..|ts| - 1]) + (if hf.Fin? then [hf.value] else [])
  }

  /** Each day shrinks at most every loan of the pool, so a run at most `days * positions` loans. */
  lemma {:induction false} TotalReductionsBound(sqrt: real -> real, pool: seq<UniswapV3.Position>,
                                                rows: seq<PriceRow>, projector: Projector)
    requires IsSqrt(sqrt) && HybridStress.ValidPool(pool)
    ensures SumNat(ReductionsPerDay(Days(sqrt, pool, rows, projector))) <= |rows| * |pool|
    ensures SumNat(Liquidations(Days(sqrt, pool, rows, projector))) <= |rows| * |pool|
  {
    if rows != [] {
      var init := rows[..|rows| - 1];
      TotalReductionsBound(sqrt, pool, init, projector);
      var before, today := Days(sqrt, pool, init, projector), Day(sqrt, pool, rows[|rows| - 1], projector);
      ColumnPush(before, today, AdjustedLiquidations);
      ColumnPush(before, today, ReductionsToday);
      assert (|rows| - 1) * |pool| + |pool| == |rows| * |pool|;
    }
  }

  /** The mean of the daily mean LTVs, like each of them, lies in [0, 1]. */
  lemma RunLtvInUnit(sqrt: real -> real, pool: seq<UniswapV3.Position>, rows: seq<PriceRow>,
                     projector: Projector)
    requires IsSqrt(sqrt) && HybridStress.ValidPool(pool) && rows != []
    ensures var m := Mean(AverageLtvs(Days(sqrt, pool, rows, projector)));
            m.Some? && 0.0 <= m.value <= 1.0
  {
    var ls := AverageLtvs(Days(sqrt, pool, rows, projector));
    forall k | 0 <= k < |ls|
      ensures 0.0 <= ls[k] <= 1.0
    {
      DayAt(sqrt, pool, rows, projector, k);
    }
    MeanBounds(ls, 0.0, 1.0);
  }

  /** The run summary; a mean of nothing, which numpy reports as NaN, is `None`. */
  datatype Summary = Summary(
    totalDates: nat,
    totalPositions: nat,
    totalLiquidationsAll: nat,
    uniquePositionsEverLiquidated: nat,
    avgHealthFactorAll: Option<real>,
    avgEffectiveLtvAll: Option<real>,
    totalReductionsApplied: nat)

  /**
   * The stress-driven shrinking of an offer: when the worst projection is positive and finite, the
   * loan becomes the least of the offer, the sliding-band loan and the stress-safe loan.
   */
  method ShrinkLoan(posValueOpen: real, provisionalLoan: real, worstHf: Lending.HF) returns (loanAmount: real)
    ensures loanAmount == AdjustedLoan(posValueOpen, provisionalLoan, worstHf)
  {
    loanAmount := provisionalLoan;
    if worstHf.Fin? && worstHf.value > 0.0 {
      var maxAllowedLtv := LtvMax;
      if worstHf.value < 1.2 {
        maxAllowedLtv := 0.55;
      } else if worstHf.value < 1.0 {
        maxAllowedLtv := 0.45;
      } else if worstHf.value < 0.8 {
        maxAllowedLtv := 0.35;
      }
      var slidingSafeLoan := posValueOpen * maxAllowedLtv;
      var stressFactor := 1.0 / (worstHf.value + SafetyBuffer);
      var stressSafeLoan := posValueOpen * LtvMax / stressFactor;
      var safeLoan := Min2(slidingSafeLoan, stressSafeLoan);
      loanAmount := Min2(provisionalLoan, safeLoan);
    }
  }

  /**
   * The body of the inner loop for the position at place `j`: skip it when worthless at the open;
   * otherwise take the offer, shrink it, and judge the position at the close.
   */
  method VisitPosition(sqrt: real -> real, pool: seq<UniswapV3.Position>, j: nat, openPrice: real,
                       closePrice: real, projector: Projector)
    returns (outcome: Option<Visit>)
    requires IsSqrt(sqrt) && HybridStress.ValidPool(pool) && j < |pool|
    ensures outcome == Outcomes(sqrt, pool, openPrice, closePrice, projector)[j]
  {
    OutcomeAt(sqrt, pool, openPrice, closePrice, projector, j);
    var pos := pool[j];
    var posValueOpen := UniswapV3.Value(sqrt, pos, openPrice);
    if posValueOpen <= 0.0 {
      return None;
    }
    var provisionalLoan := Lending.Borrow(Aave, posValueOpen);
    var worstHf := WorstProjectedHF(sqrt, pos, openPrice, provisionalLoan, projector);
    var loanAmount := ShrinkLoan(posValueOpen, provisionalLoan, worstHf);
    var effectiveLtv := EffectiveLtv(loanAmount, posValueOpen);
    var reduced := loanAmount < provisionalLoan;
    var posValueClose := UniswapV3.Value(sqrt, pos, closePrice);
    var actualHf := Lending.HealthFactor(Aave, posValueClose, loanAmount);
    var shouldLiquidate := actualHf.Below(LiquidationThreshold);
    outcome := Some(Visit(Entry(pos.positionId, actualHf, shouldLiquidate), effectiveLtv, reduced));
    assert Judge(pos.positionId, posValueOpen, posValueClose, worstHf) == outcome.value;
    assert Assess(sqrt, pos, openPrice, closePrice, projector)
        == Some(Judge(pos.positionId, posValueOpen, posValueClose, worstHf));
  }

  /** The tallies of the inner loop, brought up to date with one more visited position. */
  method TallyVisit(v: Visit, ghost vs: seq<Visit>, dailyLiquidations: nat, liquidatedToday: set<string>,
                    hfValues: seq<real>, dailyLtvs: seq<real>, reductionsApplied: nat)
    returns (dailyLiquidations': nat, liquidatedToday': set<string>, hfValues': seq<real>, dailyLtvs': seq<real>,
             reductionsApplied': nat)
    requires dailyLiquidations == LiquidationCount(Entries(vs)) && liquidatedToday == LiquidatedIds(Entries(vs))
    requires hfValues == FiniteHealthFactors(Entries(vs))
    requires dailyLtvs == Ltvs(vs) && reductionsApplied == Reductions(vs)
    ensures dailyLiquidations' == LiquidationCount(Entries(vs + [v]))
    ensures liquidatedToday' == LiquidatedIds(Entries(vs + [v]))
    ensures hfValues' == FiniteHealthFactors(Entries(vs + [v]))
    ensures dailyLtvs' == Ltvs(vs + [v]) && reductionsApplied' == Reductions(vs + [v])
  {
    VisitsPush(vs, v);
    LedgerPush(Entries(vs), v.entry);
    dailyLiquidations', liquidatedToday', hfValues' := dailyLiquidations, liquidatedToday, hfValues;
    dailyLtvs' := dailyLtvs + [v.effectiveLtv];
    reductionsApplied' := reductionsApplied;
    if v.reduced {
      reductionsApplied' := reductionsApplied + 1;
    }
    if v.entry.healthFactor.Fin? {
      hfValues' := hfValues + [v.entry.healthFactor.value];
    }
    if v.entry.liquidated {
      dailyLiquidations' := dailyLiquidations + 1;
      liquidatedToday' := liquidatedToday + {v.entry.id};
    }
  }

  /** The inner loop over the pool for one day. */
  method SimulateDay(sqrt: real -> real, pool: seq<UniswapV3.Position>, openPrice: real, closePrice: real,
                     projector: Projector)
    returns (dailyLiquidations: nat, liquidatedToday: set<string>, hfValues: seq<real>, dailyLtvs: seq<real>,
             reductionsApplied: nat)
    requires IsSqrt(sqrt) && HybridStress.ValidPool(pool)
    ensures var vs := DayVisits(sqrt, pool, openPrice, closePrice, projector);
            && dailyLiquidations == LiquidationCount(Entries(vs))
            && liquidatedToday == LiquidatedIds(Entries(vs))
            && hfValues == FiniteHealthFactors(Entries(vs))
            && dailyLtvs == Ltvs(vs)
            && reductionsApplied == Reductions(vs)
  {
    ghost var os := Outcomes(sqrt, pool, openPrice, closePrice, projector);
    ghost var vs: seq<Visit> := [];
    dailyLiquidations, liquidatedToday, hfValues, dailyLtvs, reductionsApplied := 0, {}, [], [], 0;
    for j := 0 to |pool|
      invariant vs == Visited(os[..j])
      invariant dailyLiquidations == LiquidationCount(Entries(vs))
      invariant liquidatedToday == LiquidatedIds(Entries(vs))
      invariant hfValues == FiniteHealthFactors(Entries(vs))
      invariant dailyLtvs == Ltvs(vs)
      invariant reductionsApplied == Reductions(vs)
    {
      var outcome := VisitPosition(sqrt, pool, j, openPrice, closePrice, projector);
      StepVisited(os, j);
      if outcome.Some? {
        dailyLiquidations, liquidatedToday, hfValues, dailyLtvs, reductionsApplied :=
          TallyVisit(outcome.value, vs, dailyLiquidations, liquidatedToday, hfValues, dailyLtvs, reductionsApplied);
        vs := vs + [outcome.value];
      }
    }
    assert os[..|pool|] == os;
  }

  /** One day of the outer loop: the inner loop's tallies, turned into the day's record. */
  method RecordDay(sqrt: real -> real, pool: seq<UniswapV3.Position>, row: PriceRow, projector: Projector)
    returns (record: DayRecord, liquidatedToday: set<string>)
    requires IsSqrt(sqrt) && HybridStress.ValidPool(pool)
    ensures record == Day(sqrt, pool, row, projector)
    ensures liquidatedToday == LiquidatedIds(Entries(DayVisits(sqrt, pool, row.openPrice, row.closePrice, projector)))
  {
    var dailyLiquidations, hfValues, dailyLtvs, reductionsApplied;
    dailyLiquidations, liquidatedToday, hfValues, dailyLtvs, reductionsApplied :=
      SimulateDay(sqrt, pool, row.openPrice, row.closePrice, projector);
    var avgHf := Average(hfValues);
    var avgLtv := MeanOrZero(dailyLtvs);
    record := DayRecord(row.date, row.openPrice, row.closePrice, HybridStress.PriceChangePct(row.openPrice, row.closePrice),
                        dailyLiquidations, avgHf, avgLtv, reductionsApplied, |liquidatedToday|);
  }

  /** The two running totals of the outer loop, after one more day's record. */
  method AddDayTotals(ts: seq<DayRecord>, record: DayRecord, liquidations: nat, reductions: nat)
    returns (liquidations': nat, reductions': nat)
    requires liquidations == SumNat(Liquidations(ts)) && reductions == SumNat(ReductionsPerDay(ts))
    ensures liquidations' == SumNat(Liquidations(ts + [record]))
    ensures reductions' == SumNat(ReductionsPerDay(ts + [record]))
  {
    liquidations' := liquidations + record.liquidationsTradfiAdjusted;
    reductions' := reductions + record.reductionsAppliedToday;
    ColumnPush(ts, record, AdjustedLiquidations);
    ColumnPush(ts, record, ReductionsToday);
  }

  /**
   * run_hybrid_stress_simulation of the loan-shrink variant over a given pool, price table and
   * projector: one record per row, in row order, and the summary of the whole run.
   */
  method RunLoanShrinkSimulation(sqrt: real -> real, pool: seq<UniswapV3.Position>, rows: seq<PriceRow>,
                                 projector: Projector)
    returns (timeseries: seq<DayRecord>, summary: Summary)
    requires IsSqrt(sqrt) && HybridStress.ValidPool(pool)
    ensures timeseries == Days(sqrt, pool, rows, projector)
    ensures summary.totalDates == |rows| && summary.totalPositions == |pool|
    ensures summary.totalLiquidationsAll == SumNat(Liquidations(timeseries))
    ensures summary.uniquePositionsEverLiquidated == |EverLiquidated(sqrt, pool, rows, projector)|
    ensures summary.avgHealthFactorAll == Mean(FiniteAverages(timeseries))
    ensures summary.avgEffectiveLtvAll == Mean(AverageLtvs(timeseries))
    ensures summary.totalReductionsApplied == SumNat(ReductionsPerDay(timeseries))
  {
    timeseries := [];
    var totalLiquidationsAll: nat := 0;
    var totalReductions: nat := 0;
    var positionsEverLiquidated: set<string> := {};
    for d := 0 to |rows|
      invariant timeseries == Days(sqrt, pool, rows[..d], projector)
      invariant totalLiquidationsAll == SumNat(Liquidations(timeseries))
      invariant totalReductions == SumNat(ReductionsPerDay(timeseries))
      invariant positionsEverLiquidated == EverLiquidated(sqrt, pool, rows[..d], projector)
    {
      var record, liquidatedToday := RecordDay(sqrt, pool, rows[d], projector);
      positionsEverLiquidated := positionsEverLiquidated + liquidatedToday;
      totalLiquidationsAll, totalReductions := AddDayTotals(timeseries, record, totalLiquidationsAll, totalReductions);
      RunPush(sqrt, pool, rows, projector, d);
      timeseries := timeseries + [record];
    }
    assert rows[..|rows|] == rows;
    summary := Summary(|rows|, |pool|, totalLiquidationsAll, |positionsEverLiquidated|,
                       Mean(FiniteAverages(timeseries)), Mean(AverageLtvs(timeseries)), totalReductions);
  }
}
