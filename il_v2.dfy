/**
 * Full-range (Uniswap v2 style) impermanent loss: the closed form `2*sqrt(r)/(1+r) - 1` for a
 * price ratio `r`, and the worked constant-product example that re-derives it from pool reserves.
 */
module FullRangeIL {
  import opened Common
  import opened RealSqrt

  /** calculate_impermanent_loss: rejects a non-positive ratio, otherwise the closed form. */
  function ImpermanentLoss(sqrt: real -> real, ratio: real): (il: Result<real>)
    requires IsSqrt(sqrt)
    ensures il.Err? <==> ratio <= 0.0
    ensures il.Err? ==> il.error == NonPositiveRatio
  {
    if ratio <= 0.0 then Err(NonPositiveRatio)
    else Ok(2.0 * sqrt(ratio) / (1.0 + ratio) - 1.0)
  }

  /** No price move, no loss. */
  lemma NoLossWithoutMove(sqrt: real -> real)
    requires IsSqrt(sqrt)
    ensures ImpermanentLoss(sqrt, 1.0) == Ok(0.0)
  {
    RootUnique(sqrt, 1.0, 1.0);
  }

  /** The loss is never a gain and never the whole position: `-1 < IL <= 0`. */
  lemma LossBounds(sqrt: real -> real, ratio: real)
    requires IsSqrt(sqrt) && 0.0 < ratio
    ensures -1.0 < ImpermanentLoss(sqrt, ratio).value <= 0.0
  {
    RootOf(sqrt, ratio);
    // `2s <= 1 + s*s`, so the quotient `2s / (1 + s*s)` lies in (0, 1] for the positive root.
    var s, r := sqrt(ratio), ratio;
    var d := s - 1.0;
    MulNonneg(d, d);
    MulNonneg(-d, -d);
    assert (-d) * (-d) == d * d;
    Expand(s, d);
    QuotientAtMostOne(2.0 * s, 1.0 + r);
  }

  lemma Expand(s: real, d: real)
    requires d == s - 1.0
    ensures d * d == s * s - 2.0 * s + 1.0
  {
  }

  lemma QuotientAtMostOne(a: real, b: real)
    requires 0.0 < a <= b
    ensures 0.0 < a / b <= 1.0
  {
    MulLe(1.0 / b, a, b);
    assert b / b == 1.0;
  }

  /** A move by a factor and by its reciprocal cost the same: IL(r) == IL(1/r). */
  lemma ReciprocalSymmetry(sqrt: real -> real, ratio: real)
    requires IsSqrt(sqrt) && 0.0 < ratio
    ensures ImpermanentLoss(sqrt, 1.0 / ratio) == ImpermanentLoss(sqrt, ratio)
  {
    RootOf(sqrt, ratio);
    RootOf(sqrt, 1.0 / ratio);
    RootOfReciprocal(sqrt, ratio);
    ReciprocalQuotient(sqrt(ratio), sqrt(1.0 / ratio), ratio, 1.0 / ratio);
  }

  /** With `s*t == 1`, `2t / (1 + t^2) == 2s / (1 + s^2)`: multiply above and below by `s*s`. */
  lemma ReciprocalQuotient(s: real, t: real, r: real, q: real)
    requires 0.0 < s && t == 1.0 / s && s * s == r && t * t == q
    ensures 2.0 * t / (1.0 + q) == 2.0 * s / (1.0 + r)
  {
    assert s * t == 1.0;
    ProductOfSquares(s, t, r, q);
    assert (2.0 * t) * r == 2.0 * s;
    DistributeOne(q, r);
    assert (1.0 + q) * r == r + 1.0;
    MulNonneg(t, t);
    MulNonneg(s, s);
    ScaleQuotient(2.0 * t, 1.0 + q, r);
  }

  lemma ProductOfSquares(s: real, t: real, r: real, q: real)
    requires s * t == 1.0 && s * s == r && t * t == q
    ensures q * r == 1.0
  {
    assert (t * t) * (s * s) == (s * t) * (s * t);
  }

  lemma DistributeOne(a: real, b: real)
    ensures (1.0 + a) * b == b + a * b
  {
  }

  lemma ScaleQuotient(a: real, b: real, c: real)
    requires 0.0 < b && 0.0 < c
    ensures a / b == (a * c) / (b * c)
  {
  }

  /**
   * The worked example: a balanced deposit (`usdc == eth * price`) of `eth` and `usdc` into a
   * constant-product pool with invariant `K = eth * usdc`, after the price falls by `priceDrop`.
   * Arbitrage moves the reserves to `sqrt(K / p')` ETH and `sqrt(K * p')` USDC; the loss compares
   * their value with the value of the untouched deposit at the new price `p'`. It agrees with the
   * closed form for every balanced deposit.
   */
  function BalancedExampleLoss(sqrt: real -> real, eth: real, usdc: real, priceDrop: real): (il: real)
    requires IsSqrt(sqrt)
    requires 0.0 < eth && 0.0 < usdc && priceDrop < 1.0
    ensures il == ImpermanentLoss(sqrt, 1.0 - priceDrop).value
  {
    var initialPrice := usdc / eth;
    var k := eth * usdc;
    var r := 1.0 - priceDrop;
    var newPrice := initialPrice * r;
    assert 0.0 < newPrice by { MulLt(initialPrice, 0.0, r); }
    var newEthReserve := sqrt(k / newPrice);
    var newUsdcReserve := sqrt(k * newPrice);
    var poolValueNew := newEthReserve * newPrice + newUsdcReserve;
    var holdValueNew := eth * newPrice + usdc;
    assert 0.0 < holdValueNew by { MulLt(eth, 0.0, newPrice); }
    ExampleMatchesClosedForm(sqrt, eth, usdc, r, k, newPrice, newEthReserve, newUsdcReserve);
    poolValueNew / holdValueNew - 1.0
  }

  /** The example's quotient of pool value over hold value is the closed form's `2s / (1 + r)`. */
  lemma ExampleMatchesClosedForm(sqrt: real -> real, eth: real, usdc: real, r: real, k: real, newPrice: real,
                                 ethReserve: real, usdcReserve: real)
    requires IsSqrt(sqrt) && 0.0 < eth && 0.0 < usdc && 0.0 < r
    requires k == eth * usdc && newPrice == (usdc / eth) * r && 0.0 < newPrice
    requires ethReserve == sqrt(k / newPrice) && usdcReserve == sqrt(k * newPrice)
    requires 0.0 < eth * newPrice + usdc
    ensures (ethReserve * newPrice + usdcReserve) / (eth * newPrice + usdc) - 1.0
         == ImpermanentLoss(sqrt, r).value
  {
    RootOf(sqrt, r);
    PoolOverHold(sqrt, eth, usdc, r, sqrt(r), k, newPrice, ethReserve, usdcReserve);
  }

  lemma PoolOverHold(sqrt: real -> real, eth: real, usdc: real, r: real, s: real, k: real, newPrice: real,
                     ethReserve: real, usdcReserve: real)
    requires IsSqrt(sqrt) && 0.0 < eth && 0.0 < usdc && 0.0 < s && s * s == r
    requires k == eth * usdc && newPrice == (usdc / eth) * r && 0.0 < newPrice
    requires ethReserve == sqrt(k / newPrice) && usdcReserve == sqrt(k * newPrice)
    ensures (ethReserve * newPrice + usdcReserve) / (eth * newPrice + usdc) == 2.0 * s / (1.0 + r)
  {
    ReservesAfterMove(eth, usdc, r, s, k, newPrice);
    RootUnique(sqrt, k / newPrice, eth / s);
    RootUnique(sqrt, k * newPrice, usdc * s);
    ValueRatio(eth, usdc, r, s, newPrice, ethReserve, usdcReserve);
  }

  /** The reserves after the move are `eth/s` and `usdc*s`, where `s*s == r`. */
  lemma ReservesAfterMove(eth: real, usdc: real, r: real, s: real, k: real, newPrice: real)
    requires 0.0 < eth && 0.0 < usdc && 0.0 < s && s * s == r
    requires k == eth * usdc && newPrice == (usdc / eth) * r
    ensures k / newPrice == (eth / s) * (eth / s)
    ensures k * newPrice == (usdc * s) * (usdc * s)
    ensures 0.0 <= eth / s && 0.0 <= usdc * s
  {
    assert (usdc / eth) * eth == usdc;
    assert k / newPrice == (eth * eth) / r;
    assert (eth / s) * (eth / s) == (eth * eth) / (s * s);
    assert k * newPrice == (usdc * usdc) * r;
    MulLt(usdc, 0.0, s);
  }

  /** Pool value `2*usdc*s` over hold value `usdc*(1 + r)` is the closed-form quotient. */
  lemma ValueRatio(eth: real, usdc: real, r: real, s: real, newPrice: real, ethReserve: real, usdcReserve: real)
    requires 0.0 < eth && 0.0 < usdc && 0.0 < s && s * s == r
    requires newPrice == (usdc / eth) * r && ethReserve == eth / s && usdcReserve == usdc * s
    ensures (ethReserve * newPrice + usdcReserve) / (eth * newPrice + usdc) == 2.0 * s / (1.0 + r)
  {
    assert (usdc / eth) * eth == usdc;
    assert ethReserve * newPrice == usdc * s;
    assert eth * newPrice + usdc == usdc * (1.0 + r);
    MulNonneg(s, s);
    ScaleQuotient(2.0 * s, 1.0 + r, usdc);
  }
}
