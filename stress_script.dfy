/**
 * The two stand-alone stress scripts (stress_testing.py and its copy st.test.py). Each carries its
 * own `get_amounts` and `compute_il` over raw range bounds, then runs one pass over the daily
 * timeseries: a day is flagged when its realised health factor falls below the worst projected
 * health factor over the shock grid plus a buffer. The fitted regression is the parameter
 * `predict`; the CSV rows are the sequence `days`.
 */
module StressScript {
  import opened Common
  import opened RealSqrt
  import opened StressGrid
  import Lending
  import UniswapV3

  /** The pair `(amount0, amount1)` returned by get_amounts. */
  datatype Amounts = Amounts(amount0: real, amount1: real)

  /** The arguments for which get_amounts returns `(0, 0)` without computing anything. */
  predicate Degenerate(price: real, pa: real, pb: real)
  {
    price <= 0.0 || pa <= 0.0 || pb <= 0.0 || pa >= pb
  }

  /**
   * The amounts get_amounts returns per unit of liquidity: only token 0 below the range, only
   * token 1 above it, and the bounds themselves take the in-range formula.
   */
  function PerLiquidity(sqrt: real -> real, price: real, pa: real, pb: real): (r: Amounts)
    requires IsSqrt(sqrt)
    ensures Degenerate(price, pa, pb) ==> r == Amounts(0.0, 0.0)
    ensures !Degenerate(price, pa, pb) && price < pa ==> r.amount1 == 0.0
    ensures !Degenerate(price, pa, pb) && price > pb ==> r.amount0 == 0.0
  {
    if Degenerate(price, pa, pb) then Amounts(0.0, 0.0)
    else
      RootOf(sqrt, pa);
      RootOf(sqrt, pb);
      if price < pa then Amounts(1.0 / sqrt(pa) - 1.0 / sqrt(pb), 0.0)
      else if price > pb then Amounts(0.0, sqrt(pb) - sqrt(pa))
      else
        RootOf(sqrt, price);
        Amounts(1.0 / sqrt(price) - 1.0 / sqrt(pb), sqrt(price) - sqrt(pa))
  }

  /** get_amounts: token amounts of liquidity `l` over `[pa, pb]` at `price`. */
  function GetAmounts(sqrt: real -> real, price: real, pa: real, pb: real, l: real): (r: Amounts)
    requires IsSqrt(sqrt)
    ensures Degenerate(price, pa, pb) ==> r == Amounts(0.0, 0.0)
    ensures !Degenerate(price, pa, pb) && price < pa ==> r.amount1 == 0.0
    ensures !Degenerate(price, pa, pb) && price > pb ==> r.amount0 == 0.0
  {
    var unit := PerLiquidity(sqrt, price, pa, pb);
    Amounts(l * unit.amount0, l * unit.amount1)
  }

  /** Per unit of liquidity both amounts are non-negative in every region. */
  lemma PerLiquidityNonnegative(sqrt: real -> real, price: real, pa: real, pb: real)
    requires IsSqrt(sqrt)
    ensures 0.0 <= PerLiquidity(sqrt, price, pa, pb).amount0 && 0.0 <= PerLiquidity(sqrt, price, pa, pb).amount1
  {
    if !Degenerate(price, pa, pb) {
      RootOf(sqrt, pa);
      RootMonotone(sqrt, pa, pb);
      ReciprocalAntitone(sqrt(pa), sqrt(pb));
      if pa <= price <= pb {
        InRangeRoots(sqrt, price, pa, pb);
      }
    }
  }

  /** A non-negative liquidity holds non-negative amounts at every price. */
  lemma AmountsNonnegative(sqrt: real -> real, price: real, pa: real, pb: real, l: real)
    requires IsSqrt(sqrt) && 0.0 <= l
    ensures 0.0 <= GetAmounts(sqrt, price, pa, pb, l).amount0 && 0.0 <= GetAmounts(sqrt, price, pa, pb, l).amount1
  {
    PerLiquidityNonnegative(sqrt, price, pa, pb);
    var unit := PerLiquidity(sqrt, price, pa, pb);
    MulNonneg(l, unit.amount0);
    MulNonneg(l, unit.amount1);
  }

  lemma InRangeRoots(sqrt: real -> real, price: real, pa: real, pb: real)
    requires IsSqrt(sqrt) && 0.0 < pa <= price <= pb
    ensures 0.0 < sqrt(pa) <= sqrt(price) <= sqrt(pb)
    ensures 1.0 / sqrt(pb) <= 1.0 / sqrt(price)
  {
    RootOf(sqrt, pa);
    RootMonotone(sqrt, pa, price);
    RootMonotone(sqrt, price, pb);
    if sqrt(price) < sqrt(pb) {
      ReciprocalAntitone(sqrt(price), sqrt(pb));
    }
  }

  /** Both amounts are linear in the liquidity: scaling `l` scales the holdings. */
  lemma AmountsLinear(sqrt: real -> real, price: real, pa: real, pb: real, l: real, c: real)
    requires IsSqrt(sqrt)
    ensures GetAmounts(sqrt, price, pa, pb, l * c)
         == Amounts(GetAmounts(sqrt, price, pa, pb, l).amount0 * c, GetAmounts(sqrt, price, pa, pb, l).amount1 * c)
  {
    ScalePair(PerLiquidity(sqrt, price, pa, pb), l, c);
  }

  lemma ScalePair(unit: Amounts, l: real, c: real)
    ensures (l * c) * unit.amount0 == (l * unit.amount0) * c && (l * c) * unit.amount1 == (l * unit.amount1) * c
  {
  }

  /**
   * The strict comparisons at the bounds do not matter: away from the guard the script's amounts
   * are the constructed position's amounts (at or below the lower bound all ETH, at or above the
   * upper bound all USDC, the reserve formulas in between) for the same bounds and liquidity.
   */
  lemma AgreesWithPositionAmounts(sqrt: real -> real, pos: UniswapV3.Position, price: real)
    requires IsSqrt(sqrt) && pos.range.Valid() && 0.0 < price
    ensures Agree(sqrt, pos, price)
  {
    if price <= pos.range.lowerPrice {
      AgreesBelow(sqrt, pos, price);
    } else if price >= pos.range.upperPrice {
      AgreesAbove(sqrt, pos, price);
    } else {
      AgreesInRange(sqrt, pos, price);
    }
  }

  /** The script's amounts for the position's bounds and liquidity are the position's amounts. */
  ghost predicate Agree(sqrt: real -> real, pos: UniswapV3.Position, price: real)
    requires IsSqrt(sqrt) && pos.range.Valid()
  {
    var a := GetAmounts(sqrt, price, pos.range.lowerPrice, pos.range.upperPrice, pos.liquidity);
    a.amount0 == UniswapV3.GetAmounts(sqrt, pos, price).0 && a.amount1 == UniswapV3.GetAmounts(sqrt, pos, price).1
  }

  lemma AgreesBelow(sqrt: real -> real, pos: UniswapV3.Position, price: real)
    requires IsSqrt(sqrt) && pos.range.Valid() && 0.0 < price <= pos.range.lowerPrice
    ensures Agree(sqrt, pos, price)
  {
    RootUnique(sqrt, pos.range.lowerPrice, pos.range.sqrtLower);
    RootUnique(sqrt, pos.range.upperPrice, pos.range.sqrtUpper);
    if price == pos.range.lowerPrice {
      assert pos.range.sqrtLower - pos.range.sqrtLower == 0.0;
    }
    assert PerLiquidity(sqrt, price, pos.range.lowerPrice, pos.range.upperPrice)
        == Amounts(1.0 / pos.range.sqrtLower - 1.0 / pos.range.sqrtUpper, 0.0);
  }

  lemma AgreesAbove(sqrt: real -> real, pos: UniswapV3.Position, price: real)
    requires IsSqrt(sqrt) && pos.range.Valid() && pos.range.upperPrice <= price
    ensures Agree(sqrt, pos, price)
  {
    RootUnique(sqrt, pos.range.lowerPrice, pos.range.sqrtLower);
    RootUnique(sqrt, pos.range.upperPrice, pos.range.sqrtUpper);
    assert PerLiquidity(sqrt, price, pos.range.lowerPrice, pos.range.upperPrice)
        == Amounts(0.0, pos.range.sqrtUpper - pos.range.sqrtLower);
  }

  lemma AgreesInRange(sqrt: real -> real, pos: UniswapV3.Position, price: real)
    requires IsSqrt(sqrt) && pos.range.Valid() && pos.range.lowerPrice < price < pos.range.upperPrice
    ensures Agree(sqrt, pos, price)
  {
    RootUnique(sqrt, pos.range.lowerPrice, pos.range.sqrtLower);
    RootUnique(sqrt, pos.range.upperPrice, pos.range.sqrtUpper);
    RootOf(sqrt, price);
    assert PerLiquidity(sqrt, price, pos.range.lowerPrice, pos.range.upperPrice)
        == Amounts(1.0 / sqrt(price) - 1.0 / pos.range.sqrtUpper, sqrt(price) - pos.range.sqrtLower);
  }

  /** Value of the initial holdings of compute_il, `amount0 + amount1 * P` at the current price. */
  function InitialValue(sqrt: real -> real, current: real, paFactor: real, pbFactor: real, initialL: real): real
    requires IsSqrt(sqrt)
  {
    var amounts := GetAmounts(sqrt, current, current * paFactor, current * pbFactor, initialL);
    amounts.amount0 + amounts.amount1 * current
  }

  /**
   * `pool_value` of compute_il: the position rescaled to an initial value of 100, valued at the
   * shocked price; 0 when compute_il returns before computing it.
   */
  function ScaledPoolValue(sqrt: real -> real, current: real, shocked: real, paFactor: real, pbFactor: real,
                           initialL: real): real
    requires IsSqrt(sqrt)
  {
    var pa := current * paFactor;
    var pb := current * pbFactor;
    var initial := GetAmounts(sqrt, current, pa, pb, initialL);
    var initialValue := initial.amount0 + initial.amount1 * current;
    if initialValue == 0.0 then 0.0
    else
      var shockedAmounts := GetAmounts(sqrt, shocked, pa, pb, initialL * (100.0 / initialValue));
      shockedAmounts.amount0 + shockedAmounts.amount1 * shocked
  }

  /**
   * `hold_value` of compute_il: the initial holdings, rescaled to a value of 100, valued at the
   * shocked price; 0 when compute_il returns before computing it.
   */
  function ScaledHoldValue(sqrt: real -> real, current: real, shocked: real, paFactor: real, pbFactor: real,
                           initialL: real): real
    requires IsSqrt(sqrt)
  {
    var initial := GetAmounts(sqrt, current, current * paFactor, current * pbFactor, initialL);
    var initialValue := initial.amount0 + initial.amount1 * current;
    if initialValue == 0.0 then 0.0
    else
      var scale := 100.0 / initialValue;
      initial.amount0 * scale + initial.amount1 * scale * shocked
  }

  /**
   * compute_il: the range is `[current * paFactor, current * pbFactor]`; the initial holdings are
   * rescaled to a value of 100 and the pool's holdings at the shocked price are compared with
   * keeping the rescaled initial holdings. Holdings are valued `amount0 + amount1 * P`. A zero
   * initial value or a zero hold value gives 0.
   */
  function ComputeIL(sqrt: real -> real, current: real, shocked: real, paFactor: real, pbFactor: real, initialL: real): (il: real)
    requires IsSqrt(sqrt)
    ensures InitialValue(sqrt, current, paFactor, pbFactor, initialL) == 0.0 ==> il == 0.0
    ensures ScaledHoldValue(sqrt, current, shocked, paFactor, pbFactor, initialL) == 0.0 ==> il == 0.0
  {
    var pa := current * paFactor;
    var pb := current * pbFactor;
    var initial := GetAmounts(sqrt, current, pa, pb, initialL);
    var initialValue := initial.amount0 + initial.amount1 * current;
    if initialValue == 0.0 then 0.0
    else
      var poolValue := ScaledPoolValue(sqrt, current, shocked, paFactor, pbFactor, initialL);
      var holdValue := ScaledHoldValue(sqrt, current, shocked, paFactor, pbFactor, initialL);
      if holdValue == 0.0 then 0.0 else (poolValue - holdValue) / holdValue
  }

  /** Without a shock there is no loss: the rescaled pool holds exactly the rescaled deposit. */
  lemma NoShockNoLoss(sqrt: real -> real, price: real, paFactor: real, pbFactor: real, initialL: real)
    requires IsSqrt(sqrt)
    ensures ComputeIL(sqrt, price, price, paFactor, pbFactor, initialL) == 0.0
  {
    UnshockedPoolIsHold(sqrt, price, paFactor, pbFactor, initialL);
  }

  /** At the price it was deposited at, the rescaled pool is worth exactly the rescaled deposit. */
  lemma UnshockedPoolIsHold(sqrt: real -> real, price: real, paFactor: real, pbFactor: real, initialL: real)
    requires IsSqrt(sqrt)
    ensures ScaledPoolValue(sqrt, price, price, paFactor, pbFactor, initialL)
         == ScaledHoldValue(sqrt, price, price, paFactor, pbFactor, initialL)
  {
    var pa := price * paFactor;
    var pb := price * pbFactor;
    var initial := GetAmounts(sqrt, price, pa, pb, initialL);
    var initialValue := initial.amount0 + initial.amount1 * price;
    if initialValue != 0.0 {
      AmountsLinear(sqrt, price, pa, pb, initialL, 100.0 / initialValue);
    }
  }

  /** The script's settings: `compute_il` with its default range factors and liquidity. */
  function DefaultIL(sqrt: real -> real, current: real, shocked: real): real
    requires IsSqrt(sqrt)
  {
    ComputeIL(sqrt, current, shocked, 0.9, 1.1, 10000.0)
  }

  /** One row of the daily timeseries the scripts read. */
  datatype Day = Day(
    openPrice: real,
    averageHealthFactor: Lending.HF,
    numberOfLiquidations: int)

  const Buffer := 0.1

  /** `model.predict([[shock]]) + compute_il(open, shocked)` for one shock. */
  function ProjectedHealth(sqrt: real -> real, predict: real -> real, openPrice: real, shockPct: int): real
    requires IsSqrt(sqrt)
  {
    predict(shockPct as real) + DefaultIL(sqrt, openPrice, ShockedPrice(openPrice, shockPct))
  }

  /** The projected health for every shock of the grid, in grid order. */
  function Projections(sqrt: real -> real, predict: real -> real, openPrice: real): seq<real>
    requires IsSqrt(sqrt)
  {
    seq(|Shocks|, k requires 0 <= k < |Shocks| && IsSqrt(sqrt) => ProjectedHealth(sqrt, predict, openPrice, Shocks[k]))
  }

  /** The day is flagged when its realised health is below the worst projection plus the buffer. */
  predicate Triggered(sqrt: real -> real, predict: real -> real, day: Day)
    requires IsSqrt(sqrt)
  {
    day.averageHealthFactor.Below(Min(Projections(sqrt, predict, day.openPrice)) + Buffer)
  }

  /**
   * A day is flagged iff its realised health factor is finite and below the projection of every
   * shock of the grid plus the buffer: the worst projection is the one that decides it.
   */
  lemma TriggeredIff(sqrt: real -> real, predict: real -> real, day: Day)
    requires IsSqrt(sqrt)
    ensures var ps := Projections(sqrt, predict, day.openPrice);
      Triggered(sqrt, predict, day) <==>
        day.averageHealthFactor.Fin? &&
        forall k :: 0 <= k < |ps| ==> day.averageHealthFactor.value < ps[k] + Buffer
  {
    var ps := Projections(sqrt, predict, day.openPrice);
    if day.averageHealthFactor.Fin? {
      BelowMin(ps, day.averageHealthFactor.value - Buffer);
    }
  }

  /** A bound lies below the least element iff it lies below every element. */
  lemma BelowMin(xs: seq<real>, x: real)
    requires |xs| > 0
    ensures x < Min(xs) <==> forall k :: 0 <= k < |xs| ==> x < xs[k]
  {
    if forall k :: 0 <= k < |xs| ==> x < xs[k] {
      var k :| 0 <= k < |xs| && xs[k] == Min(xs);
    }
  }

  /** Number of flagged days. */
  function CountTriggered(sqrt: real -> real, predict: real -> real, days: seq<Day>): nat
    requires IsSqrt(sqrt)
  {
    if days == [] then 0
    else CountTriggered(sqrt, predict, days[..|days| - 1]) + (if Triggered(sqrt, predict, days[|days| - 1]) then 1 else 0)
  }

  /** `(column > 0).sum()`: the number of positive entries; none or all exactly when no or every entry is. */
  function CountPositive(xs: seq<int>): (n: nat)
    ensures n <= |xs|
    ensures n == 0 <==> forall i :: 0 <= i < |xs| ==> xs[i] <= 0
    ensures n == |xs| <==> forall i :: 0 <= i < |xs| ==> xs[i] > 0
  {
    if xs == [] then 0 else CountPositive(xs[..|xs| - 1]) + (if xs[|xs| - 1] > 0 then 1 else 0)
  }

  /** The inner loop: the projected health for each shock, appended in grid order. */
  method ProjectHealths(sqrt: real -> real, predict: real -> real, openPrice: real) returns (projected: seq<real>)
    requires IsSqrt(sqrt)
    ensures projected == Projections(sqrt, predict, openPrice)
  {
    projected := [];
    var k := 0;
    while k < |Shocks|
      invariant 0 <= k <= |Shocks|
      invariant projected == Projections(sqrt, predict, openPrice)[..k]
    {
      var shocked := ShockedPrice(openPrice, Shocks[k]);
      var il := DefaultIL(sqrt, openPrice, shocked);
      projected := projected + [predict(Shocks[k] as real) + il];
      k := k + 1;
    }
  }

  /** One iteration of the day loop: project, take the worst case, compare with the day's health. */
  method MarkDay(sqrt: real -> real, predict: real -> real, day: Day, mark: int) returns (m: int)
    requires IsSqrt(sqrt)
    ensures m == (if Triggered(sqrt, predict, day) then mark else 0)
  {
    var projected := ProjectHealths(sqrt, predict, day.openPrice);
    var worst := Min(projected);
    var threshold := worst + Buffer;
    var triggered := day.averageHealthFactor.Below(threshold);
    m := if triggered then mark else 0;
  }

  /**
   * The day loop: `mark` for each flagged day and 0 otherwise, one entry per day in order.
   * stress_testing.py marks 500, st.test.py marks 1.
   */
  method TriggerLoop(sqrt: real -> real, predict: real -> real, days: seq<Day>, mark: int) returns (liquidations: seq<int>)
    requires IsSqrt(sqrt)
    ensures |liquidations| == |days|
    ensures forall i :: 0 <= i < |days| ==> liquidations[i] == (if Triggered(sqrt, predict, days[i]) then mark else 0)
  {
    liquidations := [];
    var i := 0;
    while i < |days|
      invariant 0 <= i <= |days|
      invariant |liquidations| == i
      invariant forall j :: 0 <= j < i ==> liquidations[j] == (if Triggered(sqrt, predict, days[j]) then mark else 0)
    {
      var m := MarkDay(sqrt, predict, days[i], mark);
      liquidations := liquidations + [m];
      i := i + 1;
    }
  }

  /** With a positive mark, the positive entries of the loop's output are exactly the flagged days. */
  lemma {:induction false} MarksCountTriggered(sqrt: real -> real, predict: real -> real, days: seq<Day>, mark: int, liquidations: seq<int>)
    requires IsSqrt(sqrt) && 0 < mark
    requires |liquidations| == |days|
    requires forall i :: 0 <= i < |days| ==> liquidations[i] == (if Triggered(sqrt, predict, days[i]) then mark else 0)
    ensures CountPositive(liquidations) == CountTriggered(sqrt, predict, days)
  {
    if days != [] {
      var n := |days| - 1;
      MarksCountTriggered(sqrt, predict, days[..n], mark, liquidations[..n]);
    }
  }

  /** At most every day is flagged; none exactly when no day is, all exactly when every day is. */
  lemma CountTriggeredBounds(sqrt: real -> real, predict: real -> real, days: seq<Day>)
    requires IsSqrt(sqrt)
    ensures CountTriggered(sqrt, predict, days) <= |days|
    ensures CountTriggered(sqrt, predict, days) == 0 <==> forall i :: 0 <= i < |days| ==> !Triggered(sqrt, predict, days[i])
    ensures CountTriggered(sqrt, predict, days) == |days| <==> forall i :: 0 <= i < |days| ==> Triggered(sqrt, predict, days[i])
  {
    var marks := seq(|days|, i requires 0 <= i < |days| && IsSqrt(sqrt) => if Triggered(sqrt, predict, days[i]) then 1 else 0);
    MarksCountTriggered(sqrt, predict, days, 1, marks);
    var c := CountTriggered(sqrt, predict, days);
    if c == 0 {
      forall i | 0 <= i < |days| ensures !Triggered(sqrt, predict, days[i]) {
        assert marks[i] <= 0;
      }
    } else {
      var i :| 0 <= i < |days| && marks[i] > 0;
      assert Triggered(sqrt, predict, days[i]);
    }
    if c == |days| {
      forall i | 0 <= i < |days| ensures Triggered(sqrt, predict, days[i]) {
        assert marks[i] > 0;
      }
    } else {
      assert !(forall i :: 0 <= i < |marks| ==> marks[i] > 0);
      var i :| 0 <= i < |days| && marks[i] <= 0;
      assert !Triggered(sqrt, predict, days[i]);
    }
  }

  /** The reduction in flagged days relative to the fixed-LTV days, in percent; 0 without fixed days. */
  function ReductionPct(fixedCount: nat, tradfiCount: nat): (pct: real)
    ensures fixedCount == 0 ==> pct == 0.0
    ensures 0 < fixedCount ==> pct <= 100.0
    ensures 0 < fixedCount && tradfiCount <= fixedCount ==> 0.0 <= pct
    ensures 0 < fixedCount ==> (pct == 100.0 <==> tradfiCount == 0)
  {
    if fixedCount > 0 then ((fixedCount - tradfiCount) as real) / (fixedCount as real) * 100.0 else 0.0
  }

  /** The `number_of_liquidations` column: the fixed-rule liquidations recorded for each day. */
  function FixedRuleLiquidations(days: seq<Day>): (ns: seq<int>)
    ensures |ns| == |days|
    ensures forall i :: 0 <= i < |days| ==> ns[i] == days[i].numberOfLiquidations
  {
    seq(|days|, i requires 0 <= i < |days| => days[i].numberOfLiquidations)
  }

  /** The script summary: the marks, the two day counts and the reduction percentage. */
  method Summarise(sqrt: real -> real, predict: real -> real, days: seq<Day>, mark: int)
    returns (liquidations: seq<int>, fixedCount: nat, tradfiCount: nat, reductionPct: real)
    requires IsSqrt(sqrt) && 0 < mark
    ensures |liquidations| == |days|
    ensures forall i :: 0 <= i < |days| ==> liquidations[i] == (if Triggered(sqrt, predict, days[i]) then mark else 0)
    ensures fixedCount == CountPositive(FixedRuleLiquidations(days))
    ensures tradfiCount == CountTriggered(sqrt, predict, days)
    ensures reductionPct == ReductionPct(fixedCount, tradfiCount)
  {
    liquidations := TriggerLoop(sqrt, predict, days, mark);
    fixedCount := CountPositive(FixedRuleLiquidations(days));
    tradfiCount := CountPositive(liquidations);
    MarksCountTriggered(sqrt, predict, days, mark, liquidations);
    reductionPct := ReductionPct(fixedCount, tradfiCount);
  }

  /** stress_testing.py: flagged days are recorded as 500 liquidations. */
  method RunStressTesting(sqrt: real -> real, predict: real -> real, days: seq<Day>)
    returns (liquidations: seq<int>, fixedCount: nat, tradfiCount: nat, reductionPct: real)
    requires IsSqrt(sqrt)
    ensures |liquidations| == |days| && tradfiCount == CountTriggered(sqrt, predict, days)
    ensures forall i :: 0 <= i < |days| ==> liquidations[i] == (if Triggered(sqrt, predict, days[i]) then 500 else 0)
    ensures fixedCount == CountPositive(FixedRuleLiquidations(days))
    ensures reductionPct == ReductionPct(fixedCount, tradfiCount)
  {
    liquidations, fixedCount, tradfiCount, reductionPct := Summarise(sqrt, predict, days, 500);
  }

  /** st.test.py: flagged days are recorded as a single liquidation. */
  method RunStTest(sqrt: real -> real, predict: real -> real, days: seq<Day>)
    returns (liquidations: seq<int>, fixedCount: nat, tradfiCount: nat, reductionPct: real)
    requires IsSqrt(sqrt)
    ensures |liquidations| == |days| && tradfiCount == CountTriggered(sqrt, predict, days)
    ensures forall i :: 0 <= i < |days| ==> liquidations[i] == (if Triggered(sqrt, predict, days[i]) then 1 else 0)
    ensures fixedCount == CountPositive(FixedRuleLiquidations(days))
    ensures reductionPct == ReductionPct(fixedCount, tradfiCount)
  {
    liquidations, fixedCount, tradfiCount, reductionPct := Summarise(sqrt, predict, days, 1);
  }
}
