/**
 * The Aave-style lending engine (class AaveSimulator, and the module-level functions of the
 * milestone version, which are the same code over fixed constants). Nothing here has state: the
 * simulator's four parameters are a value, and every operation computes a fresh result.
 */
module Lending {

  /** The governance parameters stored by the simulator's constructor. */
  datatype Params = Params(
    ltvMax: real,
    liquidationThreshold: real,
    closeFactor: real,
    liquidationBonus: real)

  /** The constructor's default arguments, which are also the milestone module's constants. */
  const Defaults := Params(0.65, 0.70, 0.5, 0.10)

  /** A health factor: `Inf` is the `float("inf")` returned when there is no debt. */
  datatype HF = Inf | Fin(value: real)
  {
    /** `hf < x` with the float ordering, where infinity is above every bound. */
    predicate Below(x: real)
    {
      Fin? && value < x
    }

    /** `self < other` between two health factors, either of which may be infinite. */
    predicate Less(other: HF)
    {
      Fin? && (other.Inf? || value < other.value)
    }
  }

  /** The dictionary returned by decide_liquidation. */
  datatype Decision = Decision(
    shouldLiquidate: bool,
    healthFactor: HF,
    repayAmount: real,
    collateralToTake: real)

  /** calculate_health_factor: infinite without debt, otherwise the threshold-weighted value over the loan. */
  function HealthFactor(p: Params, positionValue: real, loanAmount: real): (hf: HF)
    ensures hf.Inf? <==> loanAmount <= 0.0
    ensures hf.Fin? ==> hf.value * loanAmount == positionValue * p.liquidationThreshold
  {
    if loanAmount <= 0.0 then Inf
    else Fin(positionValue * p.liquidationThreshold / loanAmount)
  }

  /** borrow: the maximum loan the collateral allows. */
  function Borrow(p: Params, collateralValue: real): (loan: real)
    ensures 0.0 <= collateralValue && 0.0 <= p.ltvMax <= 1.0 ==> 0.0 <= loan <= collateralValue
  {
    MulBetween(collateralValue, p.ltvMax);
    collateralValue * p.ltvMax
  }

  /** decide_liquidation: liquidate exactly the positions whose health factor is below one. */
  function DecideLiquidation(p: Params, positionValue: real, loanAmount: real): (d: Decision)
    ensures loanAmount <= 0.0 ==> d == Decision(false, Inf, 0.0, 0.0)
    ensures d.healthFactor == HealthFactor(p, positionValue, loanAmount)
    ensures d.shouldLiquidate <==> d.healthFactor.Below(1.0)
    ensures d.shouldLiquidate ==> d.repayAmount == loanAmount * p.closeFactor
    ensures d.shouldLiquidate ==> d.collateralToTake == d.repayAmount * (1.0 + p.liquidationBonus)
    ensures !d.shouldLiquidate ==> d.repayAmount == 0.0 && d.collateralToTake == 0.0
  {
    if loanAmount <= 0.0 then
      Decision(false, Inf, 0.0, 0.0)
    else
      var hf := HealthFactor(p, positionValue, loanAmount);
      if hf.value < 1.0 then
        var repay := loanAmount * p.closeFactor;
        Decision(true, hf, repay, repay * (1.0 + p.liquidationBonus))
      else
        Decision(false, hf, 0.0, 0.0)
  }

  lemma MulBetween(c: real, x: real)
    ensures 0.0 <= c && 0.0 <= x <= 1.0 ==> 0.0 <= c * x <= c
  {
    if 0.0 <= c && 0.0 <= x <= 1.0 {
      assert c - c * x == c * (1.0 - x);
      assert 0.0 <= c * (1.0 - x);
    }
  }

  /**
   * A position is liquidated exactly when it carries debt and its threshold-weighted value is
   * below that debt; the health factor is only a ratio form of this comparison.
   */
  lemma LiquidatedIffUndercollateralised(p: Params, positionValue: real, loanAmount: real)
    ensures DecideLiquidation(p, positionValue, loanAmount).shouldLiquidate
        <==> 0.0 < loanAmount && positionValue * p.liquidationThreshold < loanAmount
  {
    if 0.0 < loanAmount {
      var hf := HealthFactor(p, positionValue, loanAmount);
      RatioBelowOne(positionValue * p.liquidationThreshold, loanAmount, hf.value);
    }
  }

  lemma RatioBelowOne(a: real, b: real, q: real)
    requires 0.0 < b && q * b == a
    ensures q < 1.0 <==> a < b
  {
    if q < 1.0 {
      assert b - a == (1.0 - q) * b;
      assert 0.0 < (1.0 - q) * b;
    } else {
      assert a - b == (q - 1.0) * b;
      assert 0.0 <= (q - 1.0) * b;
    }
  }

  /** With debt and a positive threshold, the health factor rises strictly with the position value. */
  lemma HealthFactorMonotone(p: Params, v1: real, v2: real, loanAmount: real)
    requires 0.0 < loanAmount && 0.0 < p.liquidationThreshold && v1 < v2
    ensures HealthFactor(p, v1, loanAmount).value < HealthFactor(p, v2, loanAmount).value
  {
    var t := p.liquidationThreshold;
    assert v1 * t < v2 * t by {
      assert v2 * t - v1 * t == (v2 - v1) * t;
      assert 0.0 < (v2 - v1) * t;
    }
    assert v2 * t / loanAmount - v1 * t / loanAmount == (v2 * t - v1 * t) / loanAmount;
  }

  /**
   * A loan just taken at the maximum loan-to-value has health factor `threshold / ltv`, whatever the
   * collateral; it is not liquidated while the threshold is at least the loan-to-value ratio.
   */
  lemma FreshLoanHealth(p: Params, collateralValue: real)
    requires 0.0 < collateralValue && 0.0 < p.ltvMax
    ensures HealthFactor(p, collateralValue, Borrow(p, collateralValue))
         == Fin(p.liquidationThreshold / p.ltvMax)
    ensures p.ltvMax <= p.liquidationThreshold
        ==> !DecideLiquidation(p, collateralValue, Borrow(p, collateralValue)).shouldLiquidate
  {
    var loan := collateralValue * p.ltvMax;
    assert 0.0 < loan by {
      assert 0.0 < collateralValue * p.ltvMax;
    }
    var hf := HealthFactor(p, collateralValue, loan);
    assert hf.value == p.liquidationThreshold / p.ltvMax by {
      assert hf.value * (collateralValue * p.ltvMax) == collateralValue * p.liquidationThreshold;
      assert (hf.value * p.ltvMax) * collateralValue == p.liquidationThreshold * collateralValue;
      assert hf.value * p.ltvMax == p.liquidationThreshold;
    }
    if p.ltvMax <= p.liquidationThreshold {
      LiquidatedIffUndercollateralised(p, collateralValue, loan);
      assert collateralValue * p.ltvMax <= collateralValue * p.liquidationThreshold by {
        assert collateralValue * p.liquidationThreshold - collateralValue * p.ltvMax
            == collateralValue * (p.liquidationThreshold - p.ltvMax);
        assert 0.0 <= collateralValue * (p.liquidationThreshold - p.ltvMax);
      }
    }
  }

  /** The default parameters on the documented examples. */
  lemma DefaultExamples()
    ensures Borrow(Defaults, 10000.0) == 6500.0
    ensures HealthFactor(Defaults, 10000.0, 6500.0) == Fin(7000.0 / 6500.0)
    ensures DecideLiquidation(Defaults, 1000.0, 1000.0) == Decision(true, Fin(0.7), 500.0, 550.0)
    ensures DecideLiquidation(Defaults, 10000.0, 1000.0) == Decision(false, Fin(7.0), 0.0, 0.0)
  {
  }
}
