/**
 * The loan-shrink variant of the hybrid stress simulation. The liquidation point stays at 1; the
 * stress test instead lowers each day's loan when the worst projected health factor is low.
 * Projections come either from the position's value at the shocked price (direct mode) or from a
 * fitted predictor corrected by the position's impermanent loss (regression mode).
 */
module LoanShrink {
  import opened Common
  import opened RealSqrt
  import opened StressGrid
  import Lending
  import UniswapV3
  import HybridStress
  import DayLedger

  /** Weight of the impermanent loss in a regression projection. */
  const IlAdjustFactor := 0.5
  /** Cushion added to the worst projection when the stress-safe loan is sized. */
  const SafetyBuffer := 0.6
  const LiquidationThreshold := 1.0
  const LtvMax := 0.65
  /** The lending simulator, built with its default parameters. */
  const Aave := Lending.Defaults

  /**
   * How a shock is projected: from the position's value, or from the fitted regression, whose
   * prediction at a shock (in percent) is `predict`.
   */
  datatype Projector = Direct | Regression(predict: real -> real)

  /** `max(x, 0.0)`. */
  function MaxZero(x: real): (m: real)
    ensures 0.0 <= m && x <= m
    ensures m == x || m == 0.0
  {
    if x >= 0.0 then x else 0.0
  }

  /** Python's two-argument `min`, which keeps the first argument on a tie. */
  function Min2(a: real, b: real): (m: real)
    ensures m <= a && m <= b
    ensures m == a || m == b
  {
    if b < a then b else a
  }

  /**
   * project_health_under_shock: 0 when the shocked price is not positive; in regression mode the
   * prediction plus half the impermanent loss at the shocked price, floored at 0; in direct mode
   * the health factor of the shocked value, as in the hybrid simulation.
   */
  function ProjectHealth(sqrt: real -> real, pos: UniswapV3.Position, initialPrice: real, shockPct: int,
                         loanAmount: real, projector: Projector): (hf: Lending.HF)
    requires IsSqrt(sqrt) && pos.Valid()
    ensures ShockedPrice(initialPrice, shockPct) <= 0.0 ==> hf == Lending.Fin(0.0)
    ensures 0.0 < loanAmount || projector.Regression? ==> hf.Fin?
    ensures projector.Regression? ==> 0.0 <= hf.value
    ensures projector.Regression? && 0.0 < pos.liquidity && 0.0 < ShockedPrice(initialPrice, shockPct)
            ==> MaxZero(projector.predict(shockPct as real) - IlAdjustFactor) <= hf.value
                <= MaxZero(projector.predict(shockPct as real))
    ensures projector.Direct?
            ==> hf == HybridStress.ProjectHealth(sqrt, pos, initialPrice, shockPct, loanAmount)
  {
    var shockedPrice := ShockedPrice(initialPrice, shockPct);
    if shockedPrice <= 0.0 then Lending.Fin(0.0)
    else
      match projector
      case Regression(predict) =>
        var regPred := predict(shockPct as real);
        var il := UniswapV3.ImpermanentLoss(sqrt, pos, shockedPrice);
        var adjustedHf := regPred + il * IlAdjustFactor;
        Lending.Fin(MaxZero(adjustedHf))
      case Direct =>
        Lending.HealthFactor(Aave, UniswapV3.Value(sqrt, pos, shockedPrice), loanAmount)
  }

  /** The projections over the grid, in grid order. */
  function Projections(sqrt: real -> real, pos: UniswapV3.Position, openPrice: real, loanAmount: real,
                       projector: Projector): (hs: seq<real>)
    requires IsSqrt(sqrt) && pos.Valid() && 0.0 < loanAmount
    ensures |hs| == |Shocks|
  {
    seq(|Shocks|, k requires 0 <= k < |Shocks| && IsSqrt(sqrt) && pos.Valid() =>
      ProjectHealth(sqrt, pos, openPrice, Shocks[k], loanAmount, projector).value)
  }

  /** compute_worst_projected_hf: `inf` without debt, otherwise the lowest projection of the grid. */
  function WorstProjectedHF(sqrt: real -> real, pos: UniswapV3.Position, openPrice: real, loanAmount: real,
                            projector: Projector): (w: Lending.HF)
    requires IsSqrt(sqrt) && pos.Valid()
    ensures w.Inf? <==> loanAmount <= 0.0
    ensures w.Fin? ==> w.value in Projections(sqrt, pos, openPrice, loanAmount, projector)
    ensures w.Fin? ==> forall k :: 0 <= k < |Shocks| ==>
              w.value <= Projections(sqrt, pos, openPrice, loanAmount, projector)[k]
  {
    if loanAmount <= 0.0 then Lending.Inf
    else Lending.Fin(Min(Projections(sqrt, pos, openPrice, loanAmount, projector)))
  }

  /**
   * In direct mode the grid is the hybrid simulation's grid, so the worst projection is the one at
   * the -15% shock, and the hybrid threshold is that worst projection plus 0.10, floored at 1.
   */
  lemma DirectWorstAtDeepestShock(sqrt: real -> real, pos: UniswapV3.Position, openPrice: real,
                                  loanAmount: real)
    requires IsSqrt(sqrt) && pos.Valid() && 0.0 <= pos.liquidity
    requires 0.0 < openPrice && 0.0 < loanAmount
    ensures WorstProjectedHF(sqrt, pos, openPrice, loanAmount, Direct)
         == HybridStress.ProjectHealth(sqrt, pos, openPrice, -15, loanAmount)
    ensures var w := WorstProjectedHF(sqrt, pos, openPrice, loanAmount, Direct).value;
            (HybridStress.DynamicThreshold(sqrt, pos, openPrice, loanAmount)
             == Lending.Fin(if w + HybridStress.SafetyBuffer >= 1.0 then w + HybridStress.SafetyBuffer else 1.0))
  {
    var hs := Projections(sqrt, pos, openPrice, loanAmount, Direct);
    var gs := HybridStress.Projections(sqrt, pos, openPrice, loanAmount);
    assert hs == gs by {
      forall k | 0 <= k < |Shocks|
        ensures hs[k] == gs[k]
      {
      }
    }
    HybridStress.WorstAtDeepestShock(sqrt, pos, openPrice, loanAmount);
  }

  /**
   * The loan-to-value band for a worst projection. The branches are evaluated in the order written,
   * so the 0.45 and 0.35 bands are never chosen: every projection below 1.2 gets 0.55.
   */
  function MaxAllowedLtv(worstHf: real): (band: real)
    ensures band == 0.55 <==> worstHf < 1.2
    ensures band == 0.55 || band == LtvMax
  {
    if worstHf < 1.2 then 0.55
    else if worstHf < 1.0 then 0.45
    else if worstHf < 0.8 then 0.35
    else LtvMax
  }

  /**
   * The loan after the stress adjustment: unchanged unless the worst projection is positive and
   * finite; then the smallest of the provisional loan, the open value at the band, and the
   * stress-safe loan `value * 0.65 / (1 / (worst + 0.6))`.
   */
  function AdjustedLoan(posValueOpen: real, provisionalLoan: real, worstHf: Lending.HF): (loan: real)
    ensures loan <= provisionalLoan
    ensures !(worstHf.Fin? && 0.0 < worstHf.value) ==> loan == provisionalLoan
    ensures worstHf.Fin? && 0.0 < worstHf.value ==>
              && loan <= posValueOpen * MaxAllowedLtv(worstHf.value)
              && loan <= posValueOpen * LtvMax * (worstHf.value + SafetyBuffer)
              && (|| loan == provisionalLoan
                  || loan == posValueOpen * MaxAllowedLtv(worstHf.value)
                  || loan == posValueOpen * LtvMax * (worstHf.value + SafetyBuffer))
  {
    if worstHf.Fin? && 0.0 < worstHf.value then
      var worst := worstHf.value;
      var slidingSafeLoan := posValueOpen * MaxAllowedLtv(worst);
      var stressFactor := 1.0 / (worst + SafetyBuffer);
      var stressSafeLoan := posValueOpen * LtvMax / stressFactor;
      DivideByReciprocal(posValueOpen * LtvMax, worst + SafetyBuffer);
      var safeLoan := Min2(slidingSafeLoan, stressSafeLoan);
      Min2(provisionalLoan, safeLoan)
    else
      provisionalLoan
  }

  lemma DivideByReciprocal(a: real, x: real)
    requires x != 0.0
    ensures 1.0 / x != 0.0
    ensures a / (1.0 / x) == a * x
  {
    assert (1.0 / x) * x == 1.0;
    assert (a * x) * (1.0 / x) == a;
  }

  /**
   * For a position worth something at the open and the loan `borrow` offers, the adjusted loan is
   * positive, and it is smaller than the offer exactly when the worst projection is in (0, 1.2).
   */
  lemma ReductionIff(posValueOpen: real, worstHf: Lending.HF)
    requires 0.0 < posValueOpen
    ensures var provisionalLoan := Lending.Borrow(Aave, posValueOpen);
            var loan := AdjustedLoan(posValueOpen, provisionalLoan, worstHf);
            && 0.0 < loan
            && (loan < provisionalLoan <==> worstHf.Fin? && 0.0 < worstHf.value < 1.2)
  {
    var provisionalLoan := Lending.Borrow(Aave, posValueOpen);
    assert provisionalLoan == posValueOpen * LtvMax;
    if worstHf.Fin? && 0.0 < worstHf.value {
      var worst := worstHf.value;
      var loan := AdjustedLoan(posValueOpen, provisionalLoan, worstHf);
      var sliding := posValueOpen * MaxAllowedLtv(worst);
      var stressSafe := posValueOpen * LtvMax * (worst + SafetyBuffer);
      assert 0.0 < sliding by {
        MulLt(posValueOpen, 0.0, MaxAllowedLtv(worst));
      }
      assert 0.0 < stressSafe by {
        MulLt(posValueOpen * LtvMax, 0.0, worst + SafetyBuffer);
      }
      if worst < 1.2 {
        assert sliding < provisionalLoan by {
          MulLt(posValueOpen, 0.55, LtvMax);
        }
      } else {
        assert provisionalLoan < stressSafe by {
          MulLt(posValueOpen * LtvMax, 1.0, worst + SafetyBuffer);
        }
      }
    }
  }

  /**
   * effective_ltv: the loan over the open value (0 without value), clamped to [0, 1]. For a
   * positive loan no larger than the value it is the loan-to-value ratio itself.
   */
  function EffectiveLtv(loanAmount: real, posValueOpen: real): (ltv: real)
    ensures 0.0 <= ltv <= 1.0
    ensures 0.0 < posValueOpen && 0.0 <= loanAmount <= posValueOpen ==> ltv * posValueOpen == loanAmount
  {
    var ratio := if posValueOpen > 0.0 then loanAmount / posValueOpen else 0.0;
    var floored := if ratio >= 0.0 then ratio else 0.0;
    if 1.0 < floored then 1.0 else floored
  }

  /** What the loop records for one position: its verdict, its effective LTV, and whether the loan shrank. */
  datatype Visit = Visit(entry: DayLedger.Entry, effectiveLtv: real, reduced: bool)

  /**
   * The visit of a position worth `posValueOpen` at the open and `posValueClose` at the close, whose
   * worst projection is `worstHf`: it borrows the adjusted loan and is judged at the close against
   * the ordinary liquidation point.
   */
  function Judge(id: string, posValueOpen: real, posValueClose: real, worstHf: Lending.HF): (v: Visit)
    ensures v.entry.id == id && 0.0 <= v.effectiveLtv <= 1.0
  {
    var provisionalLoan := Lending.Borrow(Aave, posValueOpen);
    var loanAmount := AdjustedLoan(posValueOpen, provisionalLoan, worstHf);
    var actualHf := Lending.HealthFactor(Aave, posValueClose, loanAmount);
    Visit(DayLedger.Entry(id, actualHf, actualHf.Below(LiquidationThreshold)),
          EffectiveLtv(loanAmount, posValueOpen), loanAmount < provisionalLoan)
  }

  /**
   * For a position worth something at the open: the health factor is finite and the position is
   * liquidated exactly when it is below 1; the loan shrank exactly when the worst projection lies
   * in (0, 1.2); the recorded LTV is the loan's share of the open value, at most 0.65; and with a
   * non-negative close value, a liquidation here is also one under the unshrunk offer.
   */
  lemma JudgedVisit(id: string, posValueOpen: real, posValueClose: real, worstHf: Lending.HF)
    requires 0.0 < posValueOpen
    ensures var v := Judge(id, posValueOpen, posValueClose, worstHf);
            var provisionalLoan := Lending.Borrow(Aave, posValueOpen);
            var loan := AdjustedLoan(posValueOpen, provisionalLoan, worstHf);
            && v.entry.healthFactor.Fin?
            && (v.entry.liquidated <==> v.entry.healthFactor.value < LiquidationThreshold)
            && (v.reduced <==> worstHf.Fin? && 0.0 < worstHf.value < 1.2)
            && v.effectiveLtv * posValueOpen == loan
            && v.effectiveLtv <= LtvMax
            && (0.0 <= posValueClose && v.entry.liquidated
                ==> Lending.HealthFactor(Aave, posValueClose, provisionalLoan).Below(LiquidationThreshold))
  {
    var provisionalLoan := Lending.Borrow(Aave, posValueOpen);
    var loan := AdjustedLoan(posValueOpen, provisionalLoan, worstHf);
    LtvOfAdjustedLoan(posValueOpen, worstHf);
    var hf := Lending.HealthFactor(Aave, posValueClose, loan);
    assert Judge(id, posValueOpen, posValueClose, worstHf)
        == Visit(DayLedger.Entry(id, hf, hf.Below(LiquidationThreshold)), EffectiveLtv(loan, posValueOpen),
                 loan < provisionalLoan);
    if 0.0 <= posValueClose {
      HealthAtLargerLoan(posValueClose, loan, provisionalLoan);
    }
  }

  /** The adjusted loan is positive and at most 0.65 of the value, so it is recorded unclamped. */
  lemma LtvOfAdjustedLoan(posValueOpen: real, worstHf: Lending.HF)
    requires 0.0 < posValueOpen
    ensures var provisionalLoan := Lending.Borrow(Aave, posValueOpen);
            var loan := AdjustedLoan(posValueOpen, provisionalLoan, worstHf);
            && 0.0 < loan <= provisionalLoan
            && (loan < provisionalLoan <==> worstHf.Fin? && 0.0 < worstHf.value < 1.2)
            && EffectiveLtv(loan, posValueOpen) * posValueOpen == loan
            && EffectiveLtv(loan, posValueOpen) <= LtvMax
  {
    var provisionalLoan := Lending.Borrow(Aave, posValueOpen);
    var loan := AdjustedLoan(posValueOpen, provisionalLoan, worstHf);
    ReductionIff(posValueOpen, worstHf);
    assert 0.0 < loan <= posValueOpen * LtvMax;
    assert loan <= posValueOpen by {
      MulLe(posValueOpen, LtvMax, 1.0);
    }
    var ltv := EffectiveLtv(loan, posValueOpen);
    LtvBound(posValueOpen, loan, ltv);
  }

  lemma LtvBound(posValueOpen: real, loan: real, ltv: real)
    requires 0.0 < posValueOpen && ltv * posValueOpen == loan && loan <= posValueOpen * LtvMax
    ensures ltv <= LtvMax
  {
    if LtvMax < ltv {
      MulLt(posValueOpen, LtvMax, ltv);
      assert false;
    }
  }

  /**
   * The position visited on a day: skipped when worthless at the open; otherwise it is offered
   * `borrow(value)`, the offer's worst projection is computed, and the position is judged.
   */
  function Assess(sqrt: real -> real, pos: UniswapV3.Position, openPrice: real, closePrice: real,
                  projector: Projector): (v: Option<Visit>)
    requires IsSqrt(sqrt) && pos.Valid()
    ensures v.None? <==> UniswapV3.Value(sqrt, pos, openPrice) <= 0.0
    ensures v.Some? ==> v.value.entry.id == pos.positionId && 0.0 <= v.value.effectiveLtv <= 1.0
  {
    var posValueOpen := UniswapV3.Value(sqrt, pos, openPrice);
    if posValueOpen <= 0.0 then None
    else
      var provisionalLoan := Lending.Borrow(Aave, posValueOpen);
      var worstHf := WorstProjectedHF(sqrt, pos, openPrice, provisionalLoan, projector);
      Some(Judge(pos.positionId, posValueOpen, UniswapV3.Value(sqrt, pos, closePrice), worstHf))
  }

  /**
   * Shrinking the loan never causes a liquidation: a position liquidated here at some prices is
   * also liquidated by the hybrid simulation, which lends the full offer, at the same prices.
   */
  lemma ShrinkingOnlyHelps(sqrt: real -> real, pos: UniswapV3.Position, openPrice: real, closePrice: real,
                           projector: Projector)
    requires IsSqrt(sqrt) && pos.Valid() && 0.0 <= pos.liquidity && 0.0 <= closePrice
    requires Assess(sqrt, pos, openPrice, closePrice, projector).Some?
    requires Assess(sqrt, pos, openPrice, closePrice, projector).value.entry.liquidated
    ensures HybridStress.Assess(sqrt, pos, openPrice, closePrice).Some?
    ensures HybridStress.Assess(sqrt, pos, openPrice, closePrice).value.liquidated
  {
    var posValueOpen := UniswapV3.Value(sqrt, pos, openPrice);
    var provisionalLoan := Lending.Borrow(Aave, posValueOpen);
    var worst := WorstProjectedHF(sqrt, pos, openPrice, provisionalLoan, projector);
    JudgedVisit(pos.positionId, posValueOpen, UniswapV3.Value(sqrt, pos, closePrice), worst);
    HybridStress.AssessedVerdict(sqrt, pos, openPrice, closePrice);
  }

  /** A larger loan on the same non-negative value never has a larger health factor. */
  lemma HealthAtLargerLoan(positionValue: real, smaller: real, larger: real)
    requires 0.0 <= positionValue && 0.0 < smaller <= larger
    ensures Lending.HealthFactor(Aave, positionValue, larger).value
         <= Lending.HealthFactor(Aave, positionValue, smaller).value
  {
    var a := positionValue * Aave.liquidationThreshold;
    assert 0.0 <= a;
    var hs := a / smaller;
    var hl := a / larger;
    assert hl * larger == a && hs * smaller == a;
    assert 0.0 <= hl;
    if hs < hl {
      MulLt(smaller, hs, hl);
      MulLe(hl, smaller, larger);
      assert false;
    }
  }
}
