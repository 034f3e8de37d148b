/**
 * The fixed-loan simulation of the second milestone. Each position borrows once, against its value
 * at its own initial price; the loans are then held fixed while the position is revalued at every
 * day's price. The position and loan dictionaries are keyed by ids `"id#<index>"`; a dictionary is
 * modelled as a map together with its keys in insertion order, the order in which it is iterated.
 */
module FixedLoanSim {
  import opened Common
  import opened RealSqrt
  import Lending
  import UniswapV3
  import opened DayLedger

  const Aave := Lending.Defaults

  /** One row of the milestone price table: a single price per day. */
  datatype PricePoint = PricePoint(date: string, price: real)

  /** The decimal numeral of a natural number, as Python's `str` writes it. */
  function Decimal(n: nat): (s: string)
    ensures |s| >= 1
    ensures n < 10 <==> |s| == 1
    ensures s[|s| - 1] == DigitChar(n % 10)
    decreases n
  {
    if n < 10 then [DigitChar(n)] else Decimal(n / 10) + [DigitChar(n % 10)]
  }

  function DigitChar(d: nat): char
    requires d < 10
  {
    (48 + d) as char
  }

  /** Different numbers have different numerals. */
  lemma {:induction false} DecimalInjective(a: nat, b: nat)
    requires Decimal(a) == Decimal(b)
    ensures a == b
    decreases a
  {
    if 10 <= a {
      var sa, sb := Decimal(a), Decimal(b);
      assert sa[..|sa| - 1] == Decimal(a / 10);
      assert sb[..|sb| - 1] == Decimal(b / 10);
      DecimalInjective(a / 10, b / 10);
      assert DigitChar(a % 10) == DigitChar(b % 10);
    } else {
      assert DigitChar(a) == DigitChar(b);
    }
  }

  /** The id of the position at place `i`: `f"id#{i}"`. */
  function IdOf(i: nat): (id: string)
    ensures |id| > 3 && id[..3] == "id#"
  {
    "id#" + Decimal(i)
  }

  /** Positions at different places get different ids. */
  lemma IdInjective(i: nat, j: nat)
    requires IdOf(i) == IdOf(j)
    ensures i == j
  {
    assert IdOf(i)[3..] == Decimal(i);
    assert IdOf(j)[3..] == Decimal(j);
    DecimalInjective(i, j);
  }

  /** The loan a position takes at origination: the maximal loan against its value at its initial price. */
  function InitialLoan(sqrt: real -> real, pos: UniswapV3.Position): (loan: real)
    requires IsSqrt(sqrt) && pos.range.Valid()
  {
    Lending.Borrow(Aave, UniswapV3.Value(sqrt, pos, pos.range.initialPrice))
  }

  /**
   * A loan at origination is 0.65 of the position's initial value, and, when that value is
   * positive, the position is not liquidated at its initial price.
   */
  lemma OriginationIsSafe(sqrt: real -> real, pos: UniswapV3.Position)
    requires IsSqrt(sqrt) && pos.range.Valid()
    ensures InitialLoan(sqrt, pos) == UniswapV3.Value(sqrt, pos, pos.range.initialPrice) * 0.65
    ensures 0.0 < UniswapV3.Value(sqrt, pos, pos.range.initialPrice) ==>
              !Lending.DecideLiquidation(Aave, UniswapV3.Value(sqrt, pos, pos.range.initialPrice),
                                         InitialLoan(sqrt, pos)).shouldLiquidate
  {
    var v := UniswapV3.Value(sqrt, pos, pos.range.initialPrice);
    if 0.0 < v {
      Lending.FreshLoanHealth(Aave, v);
    }
  }

  /** The ids of a list of `n` positions, in order. */
  function Ids(n: nat): (ids: seq<string>)
    ensures |ids| == n
    ensures forall i :: 0 <= i < n ==> ids[i] == IdOf(i)
  {
    seq(n, i requires 0 <= i < n => IdOf(i))
  }

  lemma IdsPush(n: nat)
    ensures Ids(n + 1) == Ids(n) + [IdOf(n)]
  {
  }

  /** The ids of a list of positions are pairwise different. */
  lemma IdsDistinct(n: nat)
    ensures forall i, j :: 0 <= i < j < n ==> Ids(n)[i] != Ids(n)[j]
  {
    forall i, j | 0 <= i < j < n
      ensures Ids(n)[i] != Ids(n)[j]
    {
      if Ids(n)[i] == Ids(n)[j] {
        IdInjective(i, j);
      }
    }
  }

  ghost predicate ValidPositions(positions: seq<UniswapV3.Position>)
  {
    forall i :: 0 <= i < |positions| ==> positions[i].range.Valid()
  }

  /**
   * The state of initialize_loans after the first `n` positions: the ids so far, in order, key
   * both dictionaries, which map each to its position and to its loan at origination.
   */
  ghost predicate Initialized(sqrt: real -> real, positions: seq<UniswapV3.Position>, n: nat, order: seq<string>,
                              positionLoans: map<string, real>, positionObjs: map<string, UniswapV3.Position>)
    requires IsSqrt(sqrt) && ValidPositions(positions) && n <= |positions|
  {
    && order == Ids(n)
    && positionLoans.Keys == positionObjs.Keys == (set k | 0 <= k < n :: order[k])
    && forall k :: 0 <= k < n ==>
         positionObjs[order[k]] == positions[k] && positionLoans[order[k]] == InitialLoan(sqrt, positions[k])
  }

  /**
   * initialize_loans: both dictionaries are keyed by the ids of the positions, in list order; each
   * id maps to its position and to the loan taken at origination.
   */
  method InitializeLoans(sqrt: real -> real, positions: seq<UniswapV3.Position>)
    returns (order: seq<string>, positionLoans: map<string, real>, positionObjs: map<string, UniswapV3.Position>)
    requires IsSqrt(sqrt) && ValidPositions(positions)
    ensures order == Ids(|positions|)
    ensures positionLoans.Keys == positionObjs.Keys == set k | 0 <= k < |order| :: order[k]
    ensures |positionLoans| == |positionObjs| == |positions|
    ensures forall i :: 0 <= i < |positions| ==>
              positionObjs[order[i]] == positions[i] && positionLoans[order[i]] == InitialLoan(sqrt, positions[i])
  {
    order, positionLoans, positionObjs := [], map[], map[];
    for i := 0 to |positions|
      invariant Initialized(sqrt, positions, i, order, positionLoans, positionObjs)
    {
      var pos := positions[i];
      var posId := "id#" + Decimal(i);
      var loanAmount := OriginationLoan(sqrt, pos);
      InitializeStep(sqrt, positions, i, order, positionLoans, positionObjs);
      positionLoans := positionLoans[posId := loanAmount];
      positionObjs := positionObjs[posId := pos];
      order := order + [posId];
    }
    IdsDistinct(|positions|);
    DistinctSeqCard(order);
  }

  /** One more position keeps the state of initialize_loans. */
  lemma InitializeStep(sqrt: real -> real, positions: seq<UniswapV3.Position>, i: nat, order: seq<string>,
                       positionLoans: map<string, real>, positionObjs: map<string, UniswapV3.Position>)
    requires IsSqrt(sqrt) && ValidPositions(positions) && i < |positions|
    requires Initialized(sqrt, positions, i, order, positionLoans, positionObjs)
    ensures Initialized(sqrt, positions, i + 1, order + [IdOf(i)],
                        positionLoans[IdOf(i) := InitialLoan(sqrt, positions[i])],
                        positionObjs[IdOf(i) := positions[i]])
  {
    var loans := seq(|positions|, k requires 0 <= k < |positions| => InitialLoan(sqrt, positions[k]));
    KeyedStep(order, positionLoans, loans, i);
    KeyedStep(order, positionObjs, positions, i);
    IdsPush(i);
  }

  /** Keying the value at place `i` by the next id extends a dictionary keyed by the ids before it. */
  lemma KeyedStep<V>(order: seq<string>, m: map<string, V>, vals: seq<V>, i: nat)
    requires order == Ids(i) && i < |vals|
    requires m.Keys == set k | 0 <= k < i :: order[k]
    requires forall k :: 0 <= k < i ==> order[k] in m && m[order[k]] == vals[k]
    ensures m[IdOf(i) := vals[i]].Keys == set k | 0 <= k < i + 1 :: (order + [IdOf(i)])[k]
    ensures forall k :: 0 <= k < i + 1 ==> m[IdOf(i) := vals[i]][(order + [IdOf(i)])[k]] == vals[k]
  {
    FreshId(order, i);
    var order' := order + [IdOf(i)];
    forall k | 0 <= k < i + 1
      ensures m[IdOf(i) := vals[i]][order'[k]] == vals[k]
    {
      if k < i {
        assert order'[k] == order[k] != IdOf(i);
      }
    }
  }

  /** The loan of one position at origination: the maximal loan against its value at its initial price. */
  method OriginationLoan(sqrt: real -> real, pos: UniswapV3.Position) returns (loanAmount: real)
    requires IsSqrt(sqrt) && pos.range.Valid()
    ensures loanAmount == InitialLoan(sqrt, pos)
  {
    var initialPrice := pos.range.initialPrice;
    var posValue := UniswapV3.Value(sqrt, pos, initialPrice);
    loanAmount := Lending.Borrow(Aave, posValue);
  }

  /**
   * The id given at place `i` differs from every id given before it, and the key set grows by
   * exactly that id.
   */
  lemma FreshId(order: seq<string>, i: nat)
    requires order == Ids(i)
    ensures forall k :: 0 <= k < i ==> order[k] != IdOf(i)
    ensures (set k | 0 <= k < i + 1 :: (order + [IdOf(i)])[k]) == (set k | 0 <= k < i :: order[k]) + {IdOf(i)}
  {
    forall k | 0 <= k < i
      ensures order[k] != IdOf(i)
    {
      if order[k] == IdOf(i) {
        IdInjective(k, i);
      }
    }
    var next := order + [IdOf(i)];
    assert forall k :: 0 <= k < i ==> next[k] == order[k];
    assert next[i] == IdOf(i);
  }

  /**
   * What run_full_simulation needs of its dictionaries: `order` lists the position dictionary's
   * keys once each, every position has a loan, and every position was constructed.
   */
  ghost predicate Book(order: seq<string>, positionLoans: map<string, real>,
                       positionObjs: map<string, UniswapV3.Position>)
  {
    && (forall i, j :: 0 <= i < j < |order| ==> order[i] != order[j])
    && (forall i :: 0 <= i < |order| ==> order[i] in positionObjs && order[i] in positionLoans)
    && (forall i :: 0 <= i < |order| ==> positionObjs[order[i]].range.Valid())
  }

  /** What initialize_loans returns is a book for run_full_simulation. */
  lemma InitializedIsBook(sqrt: real -> real, positions: seq<UniswapV3.Position>, order: seq<string>,
                          positionLoans: map<string, real>, positionObjs: map<string, UniswapV3.Position>)
    requires ValidPositions(positions)
    requires order == Ids(|positions|)
    requires positionLoans.Keys == positionObjs.Keys == set k | 0 <= k < |order| :: order[k]
    requires forall i :: 0 <= i < |positions| ==> positionObjs[order[i]] == positions[i]
    ensures Book(order, positionLoans, positionObjs)
  {
    IdsDistinct(|positions|);
  }

  /** One position on one day: its fixed loan, decided at the day's value. */
  function Visit(sqrt: real -> real, id: string, pos: UniswapV3.Position, loan: real, price: real): (e: Entry)
    requires IsSqrt(sqrt) && pos.range.Valid()
    ensures e.id == id
  {
    var decision := Lending.DecideLiquidation(Aave, UniswapV3.Value(sqrt, pos, price), loan);
    Entry(id, decision.healthFactor, decision.shouldLiquidate)
  }

  /**
   * With the loan held fixed, a position liquidated at some price is liquidated at every lower
   * price too (its value does not rise as the price falls).
   */
  lemma LiquidatedAtLowerPrice(sqrt: real -> real, id: string, pos: UniswapV3.Position, loan: real,
                               lower: real, price: real)
    requires IsSqrt(sqrt) && pos.range.Valid() && 0.0 <= pos.liquidity && lower <= price
    requires Visit(sqrt, id, pos, loan, price).liquidated
    ensures Visit(sqrt, id, pos, loan, lower).liquidated
  {
    var v1 := UniswapV3.Value(sqrt, pos, lower);
    var v2 := UniswapV3.Value(sqrt, pos, price);
    UniswapV3.ValueMonotone(sqrt, pos, lower, price);
    Lending.LiquidatedIffUndercollateralised(Aave, v1, loan);
    Lending.LiquidatedIffUndercollateralised(Aave, v2, loan);
  }

  /** The entries of one day, in dictionary order. */
  function DayEntries(sqrt: real -> real, order: seq<string>, positionLoans: map<string, real>,
                      positionObjs: map<string, UniswapV3.Position>, price: real): (es: seq<Entry>)
    requires IsSqrt(sqrt) && Book(order, positionLoans, positionObjs)
    ensures |es| == |order|
    ensures forall i :: 0 <= i < |order| ==> es[i].id == order[i]
  {
    seq(|order|, i requires 0 <= i < |order| =>
      Visit(sqrt, order[i], positionObjs[order[i]], positionLoans[order[i]], price))
  }

  /** One record of the timeseries. */
  datatype DayRecord = DayRecord(
    date: string,
    price: real,
    totalLiquidations: nat,
    uniqueLiquidated: nat,
    avgHealthFactor: Lending.HF)

  /** The record the simulation produces for one price row. */
  function Day(sqrt: real -> real, order: seq<string>, positionLoans: map<string, real>,
               positionObjs: map<string, UniswapV3.Position>, row: PricePoint): (r: DayRecord)
    requires IsSqrt(sqrt) && Book(order, positionLoans, positionObjs)
    ensures r.uniqueLiquidated == r.totalLiquidations <= |order|
    ensures r.date == row.date && r.price == row.price
  {
    var es := DayEntries(sqrt, order, positionLoans, positionObjs, row.price);
    DistinctIdsCount(es);
    DayRecord(row.date, row.price, LiquidationCount(es), |LiquidatedIds(es)|, Average(FiniteHealthFactors(es)))
  }

  /** The entries of a whole run, day after day. */
  function RunEntries(sqrt: real -> real, order: seq<string>, positionLoans: map<string, real>,
                      positionObjs: map<string, UniswapV3.Position>, rows: seq<PricePoint>): (es: seq<Entry>)
    requires IsSqrt(sqrt) && Book(order, positionLoans, positionObjs)
    ensures |es| == |rows| * |order|
  {
    if rows == [] then []
    else RunEntries(sqrt, order, positionLoans, positionObjs, rows[..|rows| - 1])
           + DayEntries(sqrt, order, positionLoans, positionObjs, rows[|rows| - 1].price)
  }

  /** The timeseries: one record per price row, in row order. */
  function Days(sqrt: real -> real, order: seq<string>, positionLoans: map<string, real>,
                positionObjs: map<string, UniswapV3.Position>, rows: seq<PricePoint>): (ts: seq<DayRecord>)
    requires IsSqrt(sqrt) && Book(order, positionLoans, positionObjs)
    ensures |ts| == |rows|
  {
    if rows == [] then []
    else Days(sqrt, order, positionLoans, positionObjs, rows[..|rows| - 1])
           + [Day(sqrt, order, positionLoans, positionObjs, rows[|rows| - 1])]
  }

  /** The record at place `d` of the timeseries is the record of the row at place `d`. */
  lemma {:induction false} DayAt(sqrt: real -> real, order: seq<string>, positionLoans: map<string, real>,
                                 positionObjs: map<string, UniswapV3.Position>, rows: seq<PricePoint>, d: nat)
    requires IsSqrt(sqrt) && Book(order, positionLoans, positionObjs) && d < |rows|
    ensures Days(sqrt, order, positionLoans, positionObjs, rows)[d]
         == Day(sqrt, order, positionLoans, positionObjs, rows[d])
  {
    var init := rows[..|rows| - 1];
    if d < |rows| - 1 {
      DayAt(sqrt, order, positionLoans, positionObjs, init, d);
      assert init[d] == rows[d];
    }
  }

  /** The timeseries and the run's entries after one more row. */
  lemma RunPush(sqrt: real -> real, order: seq<string>, positionLoans: map<string, real>,
                positionObjs: map<string, UniswapV3.Position>, rows: seq<PricePoint>, d: nat)
    requires IsSqrt(sqrt) && Book(order, positionLoans, positionObjs) && d < |rows|
    ensures Days(sqrt, order, positionLoans, positionObjs, rows[..d + 1])
         == Days(sqrt, order, positionLoans, positionObjs, rows[..d])
            + [Day(sqrt, order, positionLoans, positionObjs, rows[d])]
    ensures RunEntries(sqrt, order, positionLoans, positionObjs, rows[..d + 1])
         == RunEntries(sqrt, order, positionLoans, positionObjs, rows[..d])
            + DayEntries(sqrt, order, positionLoans, positionObjs, rows[d].price)
  {
    assert rows[..d + 1][..d] == rows[..d];
    assert rows[..d + 1][d] == rows[d];
  }

  /** The set of positions ever liquidated only grows from one day to the next. */
  lemma EverLiquidatedGrows(sqrt: real -> real, order: seq<string>, positionLoans: map<string, real>,
                            positionObjs: map<string, UniswapV3.Position>, rows: seq<PricePoint>, d: nat)
    requires IsSqrt(sqrt) && Book(order, positionLoans, positionObjs) && d < |rows|
    ensures LiquidatedIds(RunEntries(sqrt, order, positionLoans, positionObjs, rows[..d]))
         <= LiquidatedIds(RunEntries(sqrt, order, positionLoans, positionObjs, rows[..d + 1]))
  {
    RunPush(sqrt, order, positionLoans, positionObjs, rows, d);
    LedgerAppend(RunEntries(sqrt, order, positionLoans, positionObjs, rows[..d]),
                 DayEntries(sqrt, order, positionLoans, positionObjs, rows[d].price));
  }

  /** Only positions of the book are ever liquidated. */
  lemma {:induction false} EverLiquidatedInBook(sqrt: real -> real, order: seq<string>,
                                                positionLoans: map<string, real>,
                                                positionObjs: map<string, UniswapV3.Position>, rows: seq<PricePoint>)
    requires IsSqrt(sqrt) && Book(order, positionLoans, positionObjs)
    ensures forall x :: x in LiquidatedIds(RunEntries(sqrt, order, positionLoans, positionObjs, rows)) ==>
              exists i :: 0 <= i < |order| && order[i] == x
  {
    if rows != [] {
      var init := rows[..|rows| - 1];
      var es := DayEntries(sqrt, order, positionLoans, positionObjs, rows[|rows| - 1].price);
      EverLiquidatedInBook(sqrt, order, positionLoans, positionObjs, init);
      LedgerAppend(RunEntries(sqrt, order, positionLoans, positionObjs, init), es);
      forall x | x in LiquidatedIds(es)
        ensures exists i :: 0 <= i < |order| && order[i] == x
      {
        LiquidatedIdsExactly(es, x);
        var k :| 0 <= k < |es| && es[k].liquidated && es[k].id == x;
      }
    }
  }

  /** No more positions are ever liquidated than the book holds. */
  lemma EverLiquidatedBound(sqrt: real -> real, order: seq<string>, positionLoans: map<string, real>,
                            positionObjs: map<string, UniswapV3.Position>, rows: seq<PricePoint>)
    requires IsSqrt(sqrt) && Book(order, positionLoans, positionObjs)
    ensures |LiquidatedIds(RunEntries(sqrt, order, positionLoans, positionObjs, rows))| <= |order|
  {
    EverLiquidatedInBook(sqrt, order, positionLoans, positionObjs, rows);
    SubsetOfSeqCard(LiquidatedIds(RunEntries(sqrt, order, positionLoans, positionObjs, rows)), order);
  }

  /** The `total_liquidations` entry of a day record. */
  function DayTotal(r: DayRecord): nat
  {
    r.totalLiquidations
  }

  /** The daily liquidation counts of a timeseries. */
  function Liquidations(ts: seq<DayRecord>): seq<nat>
  {
    Column(ts, DayTotal)
  }

  /** The run's liquidation total is the sum of the timeseries' daily totals. */
  lemma {:induction false} TotalIsSumOfDays(sqrt: real -> real, order: seq<string>,
                                            positionLoans: map<string, real>,
                                            positionObjs: map<string, UniswapV3.Position>, rows: seq<PricePoint>)
    requires IsSqrt(sqrt) && Book(order, positionLoans, positionObjs)
    ensures LiquidationCount(RunEntries(sqrt, order, positionLoans, positionObjs, rows))
         == SumNat(Liquidations(Days(sqrt, order, positionLoans, positionObjs, rows)))
  {
    if rows != [] {
      var init := rows[..|rows| - 1];
      var last := rows[|rows| - 1];
      TotalIsSumOfDays(sqrt, order, positionLoans, positionObjs, init);
      LedgerAppend(RunEntries(sqrt, order, positionLoans, positionObjs, init),
                   DayEntries(sqrt, order, positionLoans, positionObjs, last.price));
      ColumnPush(Days(sqrt, order, positionLoans, positionObjs, init),
                 Day(sqrt, order, positionLoans, positionObjs, last), DayTotal);
    }
  }

  /** The run summary. */
  datatype Summary = Summary(
    totalDates: nat,
    totalPositions: nat,
    totalLiquidationsAll: nat,
    uniquePositionsEverLiquidated: nat,
    avgHealthFactorAll: Lending.HF)

  /** The loop body for the position at place `j` of the dictionary: the loan is looked up, never changed. */
  method VisitPosition(sqrt: real -> real, order: seq<string>, positionLoans: map<string, real>,
                       positionObjs: map<string, UniswapV3.Position>, j: nat, price: real)
    returns (e: Entry)
    requires IsSqrt(sqrt) && Book(order, positionLoans, positionObjs) && j < |order|
    ensures e == DayEntries(sqrt, order, positionLoans, positionObjs, price)[j]
  {
    var pid := order[j];
    var pos := positionObjs[pid];
    var posValue := UniswapV3.Value(sqrt, pos, price);
    var loan := positionLoans[pid];
    var decision := Lending.DecideLiquidation(Aave, posValue, loan);
    e := Entry(pid, decision.healthFactor, decision.shouldLiquidate);
  }

  lemma StepEntries(before: seq<Entry>, es: seq<Entry>, j: nat)
    requires j < |es|
    ensures es[..j + 1] == es[..j] + [es[j]]
    ensures before + es[..j + 1] == (before + es[..j]) + [es[j]]
  {
  }

  /** The inner loop over the book for one day, updating the day's and the run's tallies together. */
  method SimulateDay(sqrt: real -> real, order: seq<string>, positionLoans: map<string, real>,
                     positionObjs: map<string, UniswapV3.Position>, price: real, run: Tally,
                     ghost before: seq<Entry>)
    returns (day: Tally, run': Tally)
    requires IsSqrt(sqrt) && Book(order, positionLoans, positionObjs)
    requires run == Summed(before)
    ensures day == Summed(DayEntries(sqrt, order, positionLoans, positionObjs, price))
    ensures run' == Summed(before + DayEntries(sqrt, order, positionLoans, positionObjs, price))
  {
    ghost var es := DayEntries(sqrt, order, positionLoans, positionObjs, price);
    SummedEmpty();
    day := Tally(0, {}, 0.0, 0);
    run' := run;
    assert before + es[..0] == before;
    for j := 0 to |order|
      invariant day == Summed(es[..j])
      invariant run' == Summed(before + es[..j])
    {
      var e := VisitPosition(sqrt, order, positionLoans, positionObjs, j, price);
      StepEntries(before, es, j);
      day := TallyEntry(day, es[..j], e);
      run' := TallyEntry(run', before + es[..j], e);
    }
    assert es[..|order|] == es;
  }

  /** One day of the outer loop: the inner loop, then the day's record. */
  method RecordDay(sqrt: real -> real, order: seq<string>, positionLoans: map<string, real>,
                   positionObjs: map<string, UniswapV3.Position>, row: PricePoint, run: Tally,
                   ghost before: seq<Entry>)
    returns (record: DayRecord, run': Tally)
    requires IsSqrt(sqrt) && Book(order, positionLoans, positionObjs)
    requires run == Summed(before)
    ensures record == Day(sqrt, order, positionLoans, positionObjs, row)
    ensures run' == Summed(before + DayEntries(sqrt, order, positionLoans, positionObjs, row.price))
  {
    var day;
    day, run' := SimulateDay(sqrt, order, positionLoans, positionObjs, row.price, run, before);
    AverageOfTally(DayEntries(sqrt, order, positionLoans, positionObjs, row.price));
    var avgHfDay := if day.hfCount > 0 then Lending.Fin(day.hfSum / (day.hfCount as real)) else Lending.Inf;
    record := DayRecord(row.date, row.price, day.liquidations, |day.liquidated|, avgHfDay);
  }

  /**
   * run_full_simulation with loans fixed at origination: one record per row, in row order, and the
   * run's totals.
   */
  method RunFullSimulation(sqrt: real -> real, order: seq<string>, positionLoans: map<string, real>,
                           positionObjs: map<string, UniswapV3.Position>, rows: seq<PricePoint>)
    returns (timeseries: seq<DayRecord>, summary: Summary)
    requires IsSqrt(sqrt) && Book(order, positionLoans, positionObjs)
    requires positionObjs.Keys == set i | 0 <= i < |order| :: order[i]
    ensures timeseries == Days(sqrt, order, positionLoans, positionObjs, rows)
    ensures summary.totalDates == |rows| && summary.totalPositions == |positionObjs|
    ensures summary.totalLiquidationsAll == LiquidationCount(RunEntries(sqrt, order, positionLoans, positionObjs, rows))
    ensures summary.uniquePositionsEverLiquidated
         == |LiquidatedIds(RunEntries(sqrt, order, positionLoans, positionObjs, rows))|
    ensures summary.avgHealthFactorAll
         == Average(FiniteHealthFactors(RunEntries(sqrt, order, positionLoans, positionObjs, rows)))
  {
    timeseries := [];
    var totalDates: nat := 0;
    SummedEmpty();
    var run := Tally(0, {}, 0.0, 0);
    for d := 0 to |rows|
      invariant totalDates == d
      invariant timeseries == Days(sqrt, order, positionLoans, positionObjs, rows[..d])
      invariant run == Summed(RunEntries(sqrt, order, positionLoans, positionObjs, rows[..d]))
    {
      var record;
      record, run := RecordDay(sqrt, order, positionLoans, positionObjs, rows[d], run,
                               RunEntries(sqrt, order, positionLoans, positionObjs, rows[..d]));
      RunPush(sqrt, order, positionLoans, positionObjs, rows, d);
      timeseries := timeseries + [record];
      totalDates := totalDates + 1;
    }
    assert rows[..|rows|] == rows;
    AverageOfTally(RunEntries(sqrt, order, positionLoans, positionObjs, rows));
    var avgHfAll := if run.hfCount > 0 then Lending.Fin(run.hfSum / (run.hfCount as real)) else Lending.Inf;
    summary := Summary(totalDates, |positionObjs|, run.liquidations, |run.liquidated|, avgHfAll);
  }

  /** The dictionary iterated in `order` holds exactly `|order|` positions. */
  lemma BookSize(order: seq<string>, positionLoans: map<string, real>, positionObjs: map<string, UniswapV3.Position>)
    requires Book(order, positionLoans, positionObjs)
    requires positionObjs.Keys == set i | 0 <= i < |order| :: order[i]
    ensures |positionObjs| == |order|
  {
    DistinctSeqCard(order);
  }
}
