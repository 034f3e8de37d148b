/**
 * The earliest lending script (milestone 2, top level): `borrow` and `calculate_health_factor` over
 * the fixed constants 0.65 and 0.70, without the no-debt guard. Both divide by the loan, so a zero
 * loan is a ZeroDivisionError, modelled as `Err(ZeroDivision)`.
 */
module EarlyLending {
  import opened Common
  import Lending

  const LtvMax := 0.65
  const LiquidationThreshold := 0.70

  /**
   * borrow: the loan is `value * 0.65`, but the function first computes an (unused) health factor
   * `value * 0.70 / loan`, which raises when the loan is zero, that is when the collateral is zero.
   */
  function Borrow(collateralValue: real): (r: Result<real>)
    ensures r.Err? <==> collateralValue == 0.0
    ensures r.Err? ==> r.error == ZeroDivision
    ensures r.Ok? ==> r.value == Lending.Borrow(Lending.Defaults, collateralValue)
  {
    var loanAmount := collateralValue * LtvMax;
    if loanAmount == 0.0 then Err(ZeroDivision)
    else Ok(loanAmount)
  }

  /** calculate_health_factor with no guard: any non-zero loan, including a negative one, divides. */
  function HealthFactor(positionValue: real, loanAmount: real): (r: Result<real>)
    ensures r.Err? <==> loanAmount == 0.0
    ensures r.Ok? ==> r.value * loanAmount == positionValue * LiquidationThreshold
  {
    if loanAmount == 0.0 then Err(ZeroDivision)
    else Ok(positionValue * LiquidationThreshold / loanAmount)
  }

  /** A fresh loan on any non-zero collateral has health factor 0.70 / 0.65. */
  lemma FreshLoanHealth(collateralValue: real)
    requires collateralValue != 0.0
    ensures Borrow(collateralValue).Ok?
    ensures HealthFactor(collateralValue, Borrow(collateralValue).value) == Ok(0.70 / 0.65)
  {
    var loan := collateralValue * LtvMax;
    var hf := HealthFactor(collateralValue, loan).value;
    assert hf * (collateralValue * 0.65) == collateralValue * 0.70;
    assert (hf * 0.65) * collateralValue == 0.70 * collateralValue;
    assert hf * 0.65 == 0.70;
  }

  /** For a positive loan the early health factor agrees with the guarded one. */
  lemma AgreesWithGuarded(positionValue: real, loanAmount: real)
    requires 0.0 < loanAmount
    ensures Lending.HealthFactor(Lending.Defaults, positionValue, loanAmount)
         == Lending.Fin(HealthFactor(positionValue, loanAmount).value)
  {
  }

  /**
   * Zero collateral: the script raises in both functions, where its test expects a zero loan and an
   * infinite health factor; the guarded engine meets that expectation.
   */
  lemma ZeroCollateralRaises()
    ensures Borrow(0.0) == Err(ZeroDivision)
    ensures HealthFactor(0.0, 0.0) == Err(ZeroDivision)
  {
  }

  lemma ZeroCollateralGuarded()
    ensures Lending.Borrow(Lending.Defaults, 0.0) == 0.0
    ensures Lending.HealthFactor(Lending.Defaults, 0.0, 0.0) == Lending.Inf
  {
  }
}
