/**
 * A Uniswap v3 concentrated-liquidity position for an ETH/USDC pair (class UniswapV3Position).
 * Prices are USDC per ETH. The constructor fixes every field once; afterwards the position is
 * only valued, never changed, so it is a datatype here and its methods are functions. The
 * price-range fields (the prices and their square roots) are grouped in a `PriceRange`.
 */
module UniswapV3 {
  import opened Common
  import opened RealSqrt

  datatype PriceRange = PriceRange(
    initialPrice: real,
    lowerPrice: real,
    upperPrice: real,
    sqrtInitial: real,
    sqrtLower: real,
    sqrtUpper: real)
  {
    /** A range strictly around a positive price, with the positive roots of its three prices. */
    ghost predicate Valid()
    {
      Ordered() && Rooted()
    }

    /** The prices, and their roots, in increasing order and positive. */
    ghost predicate Ordered()
    {
      && 0.0 < lowerPrice < initialPrice < upperPrice
      && 0.0 < sqrtLower < sqrtInitial < sqrtUpper
    }

    /** Each root squares back to its price. */
    ghost predicate Rooted()
    {
      && sqrtLower * sqrtLower == lowerPrice
      && sqrtInitial * sqrtInitial == initialPrice
      && sqrtUpper * sqrtUpper == upperPrice
    }

    /** `delta0`: ETH deposited per unit of liquidity at the initial price. */
    function EthPerLiquidity(): real
      requires Ordered()
    {
      1.0 / sqrtInitial - 1.0 / sqrtUpper
    }

    /** `delta1`: USDC deposited per unit of liquidity at the initial price. */
    function UsdcPerLiquidity(): real
    {
      sqrtInitial - sqrtLower
    }
  }

  datatype Position = Position(
    positionId: string,
    range: PriceRange,
    liquidity: real,
    actualEth: real,
    actualUsdc: real)
  {
    /** A constructed position: a valid range, and a deposit that is its split at the initial price. */
    ghost predicate Valid()
    {
      range.Valid() && Deposited()
    }

    /** The actual deposit is the in-range split of the liquidity at the initial price. */
    ghost predicate Deposited()
    {
      && range.Ordered()
      && actualEth == liquidity * range.EthPerLiquidity()
      && actualUsdc == liquidity * range.UsdcPerLiquidity()
    }

    /** ETH held once the price has fallen to the lower bound (the whole position is ETH). */
    function EthAtLower(): real
      requires range.Ordered()
    {
      liquidity * (1.0 / range.sqrtLower - 1.0 / range.sqrtUpper)
    }

    /** USDC held once the price has risen to the upper bound (the whole position is USDC). */
    function UsdcAtUpper(): real
    {
      liquidity * (range.sqrtUpper - range.sqrtLower)
    }
  }

  /**
   * The constructor. A range width outside (0, 1) raises ValueError; a zero ETH maximum, and a
   * zero USDC maximum (through 1/sqrt(0)), raise ZeroDivisionError; a negative price ratio makes
   * math.sqrt raise ValueError. Otherwise the liquidity is the smaller of the two candidates, so
   * neither deposit exceeds its maximum and the binding one is met exactly.
   */
  function NewPosition(sqrt: real -> real, id: string, ethMax: real, usdcMax: real, rangeWidth: real)
    : (r: Result<Position>)
    requires IsSqrt(sqrt)
    ensures r.Ok? <==> 0.0 < rangeWidth < 1.0 && ethMax != 0.0 && usdcMax / ethMax > 0.0
    ensures !(0.0 < rangeWidth < 1.0) ==> r == Err(RangeWidthError)
    ensures 0.0 < rangeWidth < 1.0 && (ethMax == 0.0 || usdcMax == 0.0) ==> r == Err(ZeroDivision)
    ensures 0.0 < rangeWidth < 1.0 && ethMax != 0.0 && usdcMax / ethMax < 0.0 ==> r == Err(MathDomain)
    ensures r.Ok? ==>
      var p := r.value;
      && p.Valid()
      && p.positionId == id
      && p.range.initialPrice == usdcMax / ethMax
      && p.range.lowerPrice == p.range.initialPrice * (1.0 - rangeWidth)
      && p.range.upperPrice == p.range.initialPrice * (1.0 + rangeWidth)
      && p.actualEth <= ethMax && p.actualUsdc <= usdcMax
      && (p.actualEth == ethMax || p.actualUsdc == usdcMax)
      && (0.0 < ethMax && 0.0 < usdcMax ==> 0.0 < p.liquidity)
  {
    if rangeWidth <= 0.0 || rangeWidth >= 1.0 then Err(RangeWidthError)
    else if ethMax == 0.0 then Err(ZeroDivision)
    else if usdcMax / ethMax < 0.0 then Err(MathDomain)
    // a zero initial price makes every root 0, and `1 / sqrt_initial` divides by it
    else if usdcMax / ethMax == 0.0 then Err(ZeroDivision)
    else Ok(Sized(sqrt, id, ethMax, usdcMax, rangeWidth))
  }

  /** The constructor's successful path: the range, the liquidity, and the deposit it takes. */
  function Sized(sqrt: real -> real, id: string, ethMax: real, usdcMax: real, rangeWidth: real)
    : (p: Position)
    requires IsSqrt(sqrt)
    requires 0.0 < rangeWidth < 1.0 && ethMax != 0.0 && usdcMax / ethMax > 0.0
    ensures p.Valid()
    ensures p.positionId == id
    ensures p.range.initialPrice == usdcMax / ethMax
    ensures p.range.lowerPrice == p.range.initialPrice * (1.0 - rangeWidth)
    ensures p.range.upperPrice == p.range.initialPrice * (1.0 + rangeWidth)
    ensures p.actualEth <= ethMax && p.actualUsdc <= usdcMax
    ensures p.actualEth == ethMax || p.actualUsdc == usdcMax
    ensures 0.0 < ethMax && 0.0 < usdcMax ==> 0.0 < p.liquidity
  {
    SizedIn(sqrt, id, Range(sqrt, usdcMax / ethMax, rangeWidth), ethMax, usdcMax)
  }

  /** The position sized by the maxima over a given range, and what its deposit takes. */
  function SizedIn(sqrt: real -> real, id: string, range: PriceRange, ethMax: real, usdcMax: real): (p: Position)
    requires IsSqrt(sqrt) && range.Valid()
    requires ethMax != 0.0 && usdcMax / ethMax > 0.0
    ensures p.Valid() && p.positionId == id && p.range == range
    ensures p.actualEth <= ethMax && p.actualUsdc <= usdcMax
    ensures p.actualEth == ethMax || p.actualUsdc == usdcMax
    ensures 0.0 < ethMax && 0.0 < usdcMax ==> 0.0 < p.liquidity
  {
    Funded(id, range, Liquidity(range, ethMax, usdcMax))
  }

  /** The price range `initial*(1-w) .. initial*(1+w)` around a positive price, with its roots. */
  function Range(sqrt: real -> real, initial: real, rangeWidth: real): (r: PriceRange)
    requires IsSqrt(sqrt)
    requires 0.0 < rangeWidth < 1.0 && 0.0 < initial
    ensures r.Valid()
    ensures r.initialPrice == initial
    ensures r.lowerPrice == initial * (1.0 - rangeWidth)
    ensures r.upperPrice == initial * (1.0 + rangeWidth)
  {
    var lower := initial * (1.0 - rangeWidth);
    var upper := initial * (1.0 + rangeWidth);
    MulLt(initial, 1.0 - rangeWidth, 1.0);
    MulLt(initial, 1.0, 1.0 + rangeWidth);
    MulLt(initial, 0.0, 1.0 - rangeWidth);
    RangeRoots(sqrt, initial, lower, upper);
    PriceRange(initial, lower, upper, sqrt(initial), sqrt(lower), sqrt(upper))
  }

  /** The bounds of a range strictly around a positive price have ordered positive roots. */
  lemma RangeRoots(sqrt: real -> real, initial: real, lower: real, upper: real)
    requires IsSqrt(sqrt)
    requires 0.0 < lower < initial < upper
    ensures 0.0 < sqrt(lower) < sqrt(initial) < sqrt(upper)
    ensures sqrt(lower) * sqrt(lower) == lower
    ensures sqrt(initial) * sqrt(initial) == initial
    ensures sqrt(upper) * sqrt(upper) == upper
  {
    RootOf(sqrt, lower);
    RootOf(sqrt, initial);
    RootOf(sqrt, upper);
    RootMonotone(sqrt, lower, initial);
    RootMonotone(sqrt, initial, upper);
  }

  /**
   * The liquidity: the smaller of the candidates that would spend all the ETH and all the USDC.
   * Both deltas are positive for a valid range, so the `float('inf')` fallbacks never apply.
   */
  function Liquidity(range: PriceRange, ethMax: real, usdcMax: real): (l: real)
    requires range.Ordered()
    requires ethMax != 0.0 && usdcMax / ethMax > 0.0
    ensures l * range.EthPerLiquidity() <= ethMax
    ensures l * range.UsdcPerLiquidity() <= usdcMax
    ensures l * range.EthPerLiquidity() == ethMax || l * range.UsdcPerLiquidity() == usdcMax
    ensures 0.0 < ethMax && 0.0 < usdcMax ==> 0.0 < l
  {
    ReciprocalAntitone(range.sqrtInitial, range.sqrtUpper);
    var l0 := ethMax / range.EthPerLiquidity();
    var l1 := usdcMax / range.UsdcPerLiquidity();
    var l := if l1 < l0 then l1 else l0;
    SizingRespectsMaxima(ethMax, usdcMax, range.EthPerLiquidity(), range.UsdcPerLiquidity(), l0, l1, l);
    l
  }

  /** `min` of the two candidates keeps both implied deposits within their maxima. */
  lemma SizingRespectsMaxima(ethMax: real, usdcMax: real, delta0: real, delta1: real,
                             l0: real, l1: real, liquidity: real)
    requires 0.0 < delta0 && 0.0 < delta1
    requires ethMax != 0.0 && usdcMax / ethMax > 0.0
    requires l0 == ethMax / delta0 && l1 == usdcMax / delta1
    requires liquidity == if l1 < l0 then l1 else l0
    ensures liquidity * delta0 <= ethMax && liquidity * delta1 <= usdcMax
    ensures liquidity * delta0 == ethMax || liquidity * delta1 == usdcMax
    ensures 0.0 < ethMax && 0.0 < usdcMax ==> 0.0 < liquidity
  {
    assert l0 * delta0 == ethMax;
    assert l1 * delta1 == usdcMax;
    MulLe(delta0, liquidity, l0);
    MulLe(delta1, liquidity, l1);
    assert liquidity * delta0 <= ethMax;
    assert liquidity * delta1 <= usdcMax;
  }

  /** The position holding liquidity `l` over `range`, with the deposit that takes at the initial price. */
  function Funded(id: string, range: PriceRange, l: real): (p: Position)
    requires range.Valid()
    ensures p.Valid()
    ensures p.positionId == id && p.range == range && p.liquidity == l
    ensures p.actualEth == l * range.EthPerLiquidity() && p.actualUsdc == l * range.UsdcPerLiquidity()
  {
    Position(id, range, l, l * range.EthPerLiquidity(), l * range.UsdcPerLiquidity())
  }

  /**
   * get_amounts: the position's ETH and USDC at a price. At or below the lower bound everything
   * is ETH, at or above the upper bound everything is USDC, and in between the two reserve
   * formulas of a concentrated-liquidity range apply (Uniswap v3 whitepaper, eqs. 6.29-6.30).
   */
  function GetAmounts(sqrt: real -> real, pos: Position, price: real): (r: (real, real))
    requires IsSqrt(sqrt) && pos.range.Valid()
    ensures price <= pos.range.lowerPrice ==> r == (pos.EthAtLower(), 0.0)
    ensures price >= pos.range.upperPrice ==> r == (0.0, pos.UsdcAtUpper())
    ensures 0.0 <= pos.liquidity ==> 0.0 <= r.0 <= pos.EthAtLower() && 0.0 <= r.1 <= pos.UsdcAtUpper()
  {
    if price <= pos.range.lowerPrice then
      AmountsAtBounds(pos);
      (pos.EthAtLower(), 0.0)
    else if price >= pos.range.upperPrice then
      AmountsAtBounds(pos);
      (0.0, pos.UsdcAtUpper())
    else
      var s := sqrt(price);
      InRangeRootBounds(sqrt, pos, price);
      (pos.liquidity * (1.0 / s - 1.0 / pos.range.sqrtUpper), pos.liquidity * (s - pos.range.sqrtLower))
  }

  lemma AmountsAtBounds(pos: Position)
    requires pos.range.Ordered()
    ensures 0.0 <= pos.liquidity ==> 0.0 <= pos.EthAtLower() && 0.0 <= pos.UsdcAtUpper()
  {
    ReciprocalAntitone(pos.range.sqrtLower, pos.range.sqrtUpper);
    if 0.0 <= pos.liquidity {
      MulBetween(pos.liquidity, 0.0, 1.0 / pos.range.sqrtLower - 1.0 / pos.range.sqrtUpper);
      MulBetween(pos.liquidity, 0.0, pos.range.sqrtUpper - pos.range.sqrtLower);
    }
  }

  /** Strictly inside the range the root of the price lies strictly between the bounds' roots. */
  lemma InRangeRootBounds(sqrt: real -> real, pos: Position, price: real)
    requires IsSqrt(sqrt) && pos.range.Valid()
    requires pos.range.lowerPrice < price < pos.range.upperPrice
    ensures pos.range.sqrtLower < sqrt(price) < pos.range.sqrtUpper
    ensures sqrt(price) * sqrt(price) == price
    ensures 0.0 <= pos.liquidity ==>
      && 0.0 <= pos.liquidity * (1.0 / sqrt(price) - 1.0 / pos.range.sqrtUpper) <= pos.EthAtLower()
      && 0.0 <= pos.liquidity * (sqrt(price) - pos.range.sqrtLower) <= pos.UsdcAtUpper()
  {
    RootOf(sqrt, price);
    RootUnique(sqrt, pos.range.lowerPrice, pos.range.sqrtLower);
    RootUnique(sqrt, pos.range.upperPrice, pos.range.sqrtUpper);
    RootMonotone(sqrt, pos.range.lowerPrice, price);
    RootMonotone(sqrt, price, pos.range.upperPrice);
    if 0.0 <= pos.liquidity {
      InRangeAmountBounds(pos, sqrt(price));
    }
  }

  lemma InRangeAmountBounds(pos: Position, s: real)
    requires pos.range.Ordered() && 0.0 <= pos.liquidity
    requires pos.range.sqrtLower < s < pos.range.sqrtUpper
    ensures 0.0 <= pos.liquidity * (1.0 / s - 1.0 / pos.range.sqrtUpper) <= pos.EthAtLower()
    ensures 0.0 <= pos.liquidity * (s - pos.range.sqrtLower) <= pos.UsdcAtUpper()
  {
    InRangeEthBounds(pos, s);
    InRangeUsdcBounds(pos, s);
  }

  lemma InRangeEthBounds(pos: Position, s: real)
    requires pos.range.Ordered() && 0.0 <= pos.liquidity
    requires pos.range.sqrtLower < s < pos.range.sqrtUpper
    ensures 0.0 <= pos.liquidity * (1.0 / s - 1.0 / pos.range.sqrtUpper) <= pos.EthAtLower()
  {
    ReciprocalAntitone(s, pos.range.sqrtUpper);
    ReciprocalAntitone(pos.range.sqrtLower, s);
    MulBetween(pos.liquidity, 1.0 / s - 1.0 / pos.range.sqrtUpper,
               1.0 / pos.range.sqrtLower - 1.0 / pos.range.sqrtUpper);
  }

  lemma InRangeUsdcBounds(pos: Position, s: real)
    requires pos.range.Ordered() && 0.0 <= pos.liquidity
    requires pos.range.sqrtLower < s < pos.range.sqrtUpper
    ensures 0.0 <= pos.liquidity * (s - pos.range.sqrtLower) <= pos.UsdcAtUpper()
  {
    MulBetween(pos.liquidity, s - pos.range.sqrtLower, pos.range.sqrtUpper - pos.range.sqrtLower);
  }

  /** At the initial price the position holds the in-range split at the initial root. */
  lemma AmountsAtInitialPrice(sqrt: real -> real, pos: Position)
    requires IsSqrt(sqrt) && pos.range.Valid()
    ensures GetAmounts(sqrt, pos, pos.range.initialPrice)
         == (pos.liquidity * pos.range.EthPerLiquidity(), pos.liquidity * pos.range.UsdcPerLiquidity())
  {
    RootUnique(sqrt, pos.range.initialPrice, pos.range.sqrtInitial);
    var r := GetAmounts(sqrt, pos, pos.range.initialPrice);
    assert r.0 == pos.liquidity * (1.0 / sqrt(pos.range.initialPrice) - 1.0 / pos.range.sqrtUpper);
    assert r.1 == pos.liquidity * (sqrt(pos.range.initialPrice) - pos.range.sqrtLower);
    assert r.0 == pos.liquidity * pos.range.EthPerLiquidity();
    assert r.1 == pos.liquidity * pos.range.UsdcPerLiquidity();
  }

  /** At the initial price a constructed position holds exactly its actual deposit. */
  lemma DepositAtInitialPrice(sqrt: real -> real, pos: Position)
    requires IsSqrt(sqrt) && pos.Valid()
    ensures GetAmounts(sqrt, pos, pos.range.initialPrice) == (pos.actualEth, pos.actualUsdc)
  {
    assert pos.Deposited();
    AmountsAtInitialPrice(sqrt, pos);
  }

  /**
   * compute_position_value: ETH valued at the price plus USDC. Below the range it is linear in the
   * price (all ETH), above the range it is constant (all USDC).
   */
  function Value(sqrt: real -> real, pos: Position, price: real): (v: real)
    requires IsSqrt(sqrt) && pos.range.Valid()
    ensures price <= pos.range.lowerPrice ==> v == pos.EthAtLower() * price
    ensures price >= pos.range.upperPrice ==> v == pos.UsdcAtUpper()
    ensures 0.0 <= pos.liquidity && 0.0 <= price ==> 0.0 <= v
  {
    var (eth, usdc) := GetAmounts(sqrt, pos, price);
    MulNonneg(eth, price);
    eth * price + usdc
  }

  /** compute_hold_value: the actual deposit kept outside the pool, valued at the price. */
  function HoldValue(pos: Position, price: real): real
  {
    pos.actualEth * price + pos.actualUsdc
  }

  /**
   * compute_impermanent_loss: position value over hold value, minus one, and 0 when the hold
   * value is 0. For a funded position at a non-negative price it lies in [-1, 0].
   */
  function ImpermanentLoss(sqrt: real -> real, pos: Position, price: real): (il: real)
    requires IsSqrt(sqrt) && pos.Valid()
    ensures HoldValue(pos, price) == 0.0 ==> il == 0.0
    ensures 0.0 < pos.liquidity && 0.0 <= price ==> -1.0 <= il <= 0.0
  {
    var value := Value(sqrt, pos, price);
    var hold := HoldValue(pos, price);
    if hold != 0.0 then
      ILBounds(sqrt, pos, price);
      value / hold - 1.0
    else 0.0
  }

  lemma ILBounds(sqrt: real -> real, pos: Position, price: real)
    requires IsSqrt(sqrt) && pos.Valid()
    ensures 0.0 < pos.liquidity && 0.0 <= price ==>
      && 0.0 < HoldValue(pos, price)
      && -1.0 <= Value(sqrt, pos, price) / HoldValue(pos, price) - 1.0 <= 0.0
  {
    if 0.0 < pos.liquidity && 0.0 <= price {
      ValueAtMostHold(sqrt, pos, price);
      HoldPositive(pos, price);
      RatioInUnit(Value(sqrt, pos, price), HoldValue(pos, price));
    }
  }

  lemma RatioInUnit(a: real, b: real)
    requires 0.0 <= a <= b && 0.0 < b
    ensures 0.0 <= a / b <= 1.0
  {
    calc {
      a / b;
    <=  { MulLe(1.0 / b, a, b); }
      b / b;
    ==
      1.0;
    }
    MulBetween(1.0 / b, 0.0, a);
  }

  /** Holding only gains as the price rises, by the ETH held times the rise. */
  lemma HoldValueMonotone(pos: Position, p1: real, p2: real)
    requires 0.0 <= pos.actualEth && p1 <= p2
    ensures HoldValue(pos, p1) <= HoldValue(pos, p2)
    ensures HoldValue(pos, p2) - HoldValue(pos, p1) == pos.actualEth * (p2 - p1)
  {
    MulLe(pos.actualEth, p1, p2);
  }

  lemma HoldPositive(pos: Position, price: real)
    requires pos.Deposited() && 0.0 < pos.liquidity && 0.0 <= price
    ensures 0.0 < HoldValue(pos, price)
  {
    DepositNonnegative(pos);
    MulLt(pos.liquidity, 0.0, pos.range.UsdcPerLiquidity());
    MulBetween(pos.actualEth, 0.0, price);
  }

  /** A position with non-negative liquidity deposits non-negative amounts of both tokens. */
  lemma DepositNonnegative(pos: Position)
    requires pos.Deposited() && 0.0 <= pos.liquidity
    ensures 0.0 <= pos.actualEth && 0.0 <= pos.actualUsdc
  {
    ReciprocalAntitone(pos.range.sqrtInitial, pos.range.sqrtUpper);
    MulBetween(pos.liquidity, 0.0, pos.range.EthPerLiquidity());
    MulBetween(pos.liquidity, 0.0, pos.range.UsdcPerLiquidity());
  }

  /** The in-range value written as a function of the root `s` of the price. */
  function InRangeValue(pos: Position, s: real): real
    requires pos.range.Ordered()
  {
    pos.liquidity * (2.0 * s - s * s / pos.range.sqrtUpper - pos.range.sqrtLower)
  }

  lemma ValueInRange(sqrt: real -> real, pos: Position, price: real)
    requires IsSqrt(sqrt) && pos.range.Valid()
    requires pos.range.lowerPrice < price < pos.range.upperPrice
    ensures pos.range.sqrtLower < sqrt(price) < pos.range.sqrtUpper
    ensures Value(sqrt, pos, price) == InRangeValue(pos, sqrt(price))
  {
    InRangeRootBounds(sqrt, pos, price);
    var s := sqrt(price);
    InRangeIdentity(pos.liquidity, s, pos.range.sqrtLower, pos.range.sqrtUpper);
    assert Value(sqrt, pos, price)
        == pos.liquidity * (1.0 / s - 1.0 / pos.range.sqrtUpper) * (s * s)
           + pos.liquidity * (s - pos.range.sqrtLower);
  }

  /** ETH at the root `s`, valued at the price `s*s`, plus USDC, in one bracket. */
  lemma InRangeIdentity(l: real, s: real, sL: real, sU: real)
    requires 0.0 < s && 0.0 < sU
    ensures l * (1.0 / s - 1.0 / sU) * (s * s) + l * (s - sL) == l * (2.0 * s - s * s / sU - sL)
  {
    assert (1.0 / s - 1.0 / sU) * (s * s) == s - s * s / sU;
  }

  /** The in-range value grows with the root of the price up to the upper bound. */
  lemma InRangeValueMonotone(pos: Position, s1: real, s2: real)
    requires pos.range.Ordered() && 0.0 <= pos.liquidity
    requires s1 <= s2 <= pos.range.sqrtUpper
    ensures InRangeValue(pos, s1) <= InRangeValue(pos, s2)
  {
    PeakMonotone(pos.range.sqrtUpper, s1, s2);
    MulLe(pos.liquidity,
          2.0 * s1 - s1 * s1 / pos.range.sqrtUpper - pos.range.sqrtLower,
          2.0 * s2 - s2 * s2 / pos.range.sqrtUpper - pos.range.sqrtLower);
  }

  /** `2s - s^2/u` is non-decreasing in `s` up to its peak at `s == u`. */
  lemma PeakMonotone(u: real, s1: real, s2: real)
    requires 0.0 < u && s1 <= s2 <= u
    ensures 2.0 * s1 - s1 * s1 / u <= 2.0 * s2 - s2 * s2 / u
  {
    PeakForm(u, s1);
    PeakForm(u, s2);
    SquareMonotone(u - s2, u - s1);
    DivMonotone((u - s2) * (u - s2), (u - s1) * (u - s1), u);
  }

  /** `2s - s^2/u` written around its peak at `s == u`, where it equals `u`. */
  lemma PeakForm(u: real, s: real)
    requires 0.0 < u
    ensures 2.0 * s - s * s / u == u - (u - s) * (u - s) / u
  {
    assert (u - s) * (u - s) == u * u - 2.0 * u * s + s * s;
    assert (u * u - 2.0 * u * s + s * s) / u == u * u / u - 2.0 * u * s / u + s * s / u;
    assert u * u / u == u;
    assert 2.0 * u * s / u == 2.0 * s;
  }

  lemma DivMonotone(x: real, y: real, u: real)
    requires x <= y && 0.0 < u
    ensures x / u <= y / u
  {
    MulLe(1.0 / u, x, y);
  }

  /** The in-range formula meets the outer formulas at both bounds, so the value is continuous. */
  lemma InRangeValueAtBounds(pos: Position)
    requires pos.range.Valid()
    ensures InRangeValue(pos, pos.range.sqrtLower) == pos.EthAtLower() * pos.range.lowerPrice
    ensures InRangeValue(pos, pos.range.sqrtUpper) == pos.UsdcAtUpper()
  {
    InRangeIdentity(pos.liquidity, pos.range.sqrtLower, pos.range.sqrtLower, pos.range.sqrtUpper);
    assert pos.range.sqrtUpper * pos.range.sqrtUpper / pos.range.sqrtUpper == pos.range.sqrtUpper;
  }

  /** At or below the lower bound the value is at most the value at the lower bound. */
  lemma ValueBelowLower(sqrt: real -> real, pos: Position, price: real)
    requires IsSqrt(sqrt) && pos.range.Valid() && 0.0 <= pos.liquidity
    requires price <= pos.range.lowerPrice
    ensures Value(sqrt, pos, price) <= InRangeValue(pos, pos.range.sqrtLower)
  {
    AmountsAtBounds(pos);
    InRangeValueAtBounds(pos);
    ScaledLe(pos.EthAtLower(), price, pos.range.lowerPrice, Value(sqrt, pos, price), InRangeValue(pos, pos.range.sqrtLower));
  }

  /** Position value is non-decreasing in the price for a position with non-negative liquidity. */
  lemma ValueMonotone(sqrt: real -> real, pos: Position, p1: real, p2: real)
    requires IsSqrt(sqrt) && pos.range.Valid() && 0.0 <= pos.liquidity
    requires p1 <= p2
    ensures Value(sqrt, pos, p1) <= Value(sqrt, pos, p2)
  {
    if p2 <= pos.range.lowerPrice {
      ValueMonotoneBelowRange(sqrt, pos, p1, p2);
    } else if p2 < pos.range.upperPrice {
      ValueMonotoneInRange(sqrt, pos, p1, p2);
    } else {
      ValueMonotoneAboveRange(sqrt, pos, p1, p2);
    }
  }

  lemma ValueMonotoneBelowRange(sqrt: real -> real, pos: Position, p1: real, p2: real)
    requires IsSqrt(sqrt) && pos.range.Valid() && 0.0 <= pos.liquidity
    requires p1 <= p2 <= pos.range.lowerPrice
    ensures Value(sqrt, pos, p1) <= Value(sqrt, pos, p2)
  {
    AmountsAtBounds(pos);
    ScaledLe(pos.EthAtLower(), p1, p2, Value(sqrt, pos, p1), Value(sqrt, pos, p2));
  }

  /** Two values that scale ordered arguments by the same non-negative factor are ordered. */
  lemma ScaledLe(c: real, x: real, y: real, u: real, v: real)
    requires 0.0 <= c && x <= y && u == c * x && v == c * y
    ensures u <= v
  {
    MulLe(c, x, y);
  }

  lemma ValueMonotoneInRange(sqrt: real -> real, pos: Position, p1: real, p2: real)
    requires IsSqrt(sqrt) && pos.range.Valid() && 0.0 <= pos.liquidity
    requires p1 <= p2 && pos.range.lowerPrice < p2 < pos.range.upperPrice
    ensures Value(sqrt, pos, p1) <= Value(sqrt, pos, p2)
  {
    ValueInRange(sqrt, pos, p2);
    if p1 <= pos.range.lowerPrice {
      ValueBelowLower(sqrt, pos, p1);
      InRangeValueMonotone(pos, pos.range.sqrtLower, sqrt(p2));
    } else {
      ValueInRange(sqrt, pos, p1);
      RootMonotone(sqrt, p1, p2);
      InRangeValueMonotone(pos, sqrt(p1), sqrt(p2));
    }
  }

  lemma ValueMonotoneAboveRange(sqrt: real -> real, pos: Position, p1: real, p2: real)
    requires IsSqrt(sqrt) && pos.range.Valid() && 0.0 <= pos.liquidity
    requires p1 <= p2 && pos.range.upperPrice <= p2
    ensures Value(sqrt, pos, p1) <= Value(sqrt, pos, p2)
  {
    InRangeValueAtBounds(pos);
    if p1 <= pos.range.lowerPrice {
      ValueBelowLower(sqrt, pos, p1);
      InRangeValueMonotone(pos, pos.range.sqrtLower, pos.range.sqrtUpper);
    } else if p1 < pos.range.upperPrice {
      ValueInRange(sqrt, pos, p1);
      InRangeValueMonotone(pos, sqrt(p1), pos.range.sqrtUpper);
    }
  }

  /** Hold value minus the in-range value at root `s` is `L*(s - sqrtInitial)^2/sqrtInitial`. */
  lemma HoldMinusInRange(pos: Position, s: real)
    requires pos.Deposited()
    ensures HoldValue(pos, s * s) - InRangeValue(pos, s)
         == pos.liquidity * ((s - pos.range.sqrtInitial) * (s - pos.range.sqrtInitial) / pos.range.sqrtInitial)
  {
    HoldGap(pos.actualEth, pos.actualUsdc, pos.liquidity,
            pos.range.sqrtInitial, pos.range.sqrtLower, pos.range.sqrtUpper, s);
  }

  lemma HoldGap(eth: real, usdc: real, l: real, sI: real, sL: real, sU: real, s: real)
    requires 0.0 < sI && 0.0 < sU
    requires eth == l * (1.0 / sI - 1.0 / sU) && usdc == l * (sI - sL)
    ensures eth * (s * s) + usdc - l * (2.0 * s - s * s / sU - sL) == l * ((s - sI) * (s - sI) / sI)
  {
    calc {
      eth * (s * s) + usdc - l * (2.0 * s - s * s / sU - sL);
    ==
      (l * (1.0 / sI - 1.0 / sU)) * (s * s) + l * (sI - sL) - l * (2.0 * s - s * s / sU - sL);
    ==  { Distribute(l, 1.0 / sI - 1.0 / sU, s * s, sI - sL, 2.0 * s - s * s / sU - sL); }
      l * ((1.0 / sI - 1.0 / sU) * (s * s) + (sI - sL) - (2.0 * s - s * s / sU - sL));
    ==  { GapForm(sI, sU, s); }
      l * ((s - sI) * (s - sI) / sI);
    }
  }

  /** The bracket left once the liquidity is factored out of the hold-minus-value gap. */
  lemma GapForm(a: real, u: real, s: real)
    requires 0.0 < a && 0.0 < u
    ensures (1.0 / a - 1.0 / u) * (s * s) + a - (2.0 * s - s * s / u) == (s - a) * (s - a) / a
  {
    assert (1.0 / a - 1.0 / u) * (s * s) == s * s / a - s * s / u;
    assert (s - a) * (s - a) == s * s - 2.0 * a * s + a * a;
    assert (s * s - 2.0 * a * s + a * a) / a == s * s / a - 2.0 * a * s / a + a * a / a;
    assert a * a / a == a;
    assert 2.0 * a * s / a == 2.0 * s;
  }

  lemma Distribute(l: real, a: real, x: real, b: real, c: real)
    ensures (l * a) * x + l * b - l * c == l * (a * x + b - c)
  {
  }

  lemma HoldAboveInRange(pos: Position, s: real)
    requires pos.Deposited() && 0.0 <= pos.liquidity
    ensures InRangeValue(pos, s) <= HoldValue(pos, s * s)
  {
    HoldMinusInRange(pos, s);
    var d := s - pos.range.sqrtInitial;
    MulBetween(1.0 / pos.range.sqrtInitial, 0.0, d * d);
    assert 0.0 <= d * d / pos.range.sqrtInitial;
    MulBetween(pos.liquidity, 0.0, d * d / pos.range.sqrtInitial);
  }

  /**
   * Providing liquidity never beats holding: the position value is at most the hold value at
   * every price, for a position with non-negative liquidity.
   */
  lemma ValueAtMostHold(sqrt: real -> real, pos: Position, price: real)
    requires IsSqrt(sqrt) && pos.Valid() && 0.0 <= pos.liquidity
    ensures Value(sqrt, pos, price) <= HoldValue(pos, price)
  {
    if price <= pos.range.lowerPrice {
      ValueBelowLowerAtMostHold(sqrt, pos, price);
    } else if price < pos.range.upperPrice {
      ValueInRange(sqrt, pos, price);
      HoldAboveInRange(pos, sqrt(price));
      RootOf(sqrt, price);
    } else {
      ValueAboveUpperAtMostHold(sqrt, pos, price);
    }
  }

  /** Below the range the gap at the lower bound persists and grows as the price falls further. */
  lemma ValueBelowLowerAtMostHold(sqrt: real -> real, pos: Position, price: real)
    requires IsSqrt(sqrt) && pos.Valid() && 0.0 <= pos.liquidity
    requires price <= pos.range.lowerPrice
    ensures Value(sqrt, pos, price) <= HoldValue(pos, price)
  {
    InRangeValueAtBounds(pos);
    HoldAboveInRange(pos, pos.range.sqrtLower);
    ReciprocalAntitone(pos.range.sqrtLower, pos.range.sqrtInitial);
    SlopeGap(pos.liquidity, 1.0 / pos.range.sqrtLower, 1.0 / pos.range.sqrtInitial, 1.0 / pos.range.sqrtUpper);
    MulBetween(pos.EthAtLower() - pos.actualEth, 0.0, pos.range.lowerPrice - price);
    LinearGap(pos.EthAtLower(), pos.actualEth, pos.actualUsdc, price, pos.range.lowerPrice);
  }

  lemma SlopeGap(l: real, x: real, y: real, z: real)
    requires 0.0 <= l && y < x
    ensures 0.0 <= l * (x - z) - l * (y - z)
  {
    MulLe(l, y - z, x - z);
  }

  lemma LinearGap(e: real, h: real, u: real, p: real, lo: real)
    ensures h * p + u - e * p == (h * lo + u - e * lo) + (e - h) * (lo - p)
  {
  }

  /** Above the range the value is frozen at its upper-bound level while holding keeps gaining. */
  lemma ValueAboveUpperAtMostHold(sqrt: real -> real, pos: Position, price: real)
    requires IsSqrt(sqrt) && pos.Valid() && 0.0 <= pos.liquidity
    requires pos.range.upperPrice <= price
    ensures Value(sqrt, pos, price) <= HoldValue(pos, price)
  {
    InRangeValueAtBounds(pos);
    HoldAboveInRange(pos, pos.range.sqrtUpper);
    DepositNonnegative(pos);
    MulLe(pos.actualEth, pos.range.upperPrice, price);
  }

  /** Hold value equals position value at the initial price, so impermanent loss is 0 there. */
  lemma NoLossAtInitialPrice(sqrt: real -> real, pos: Position)
    requires IsSqrt(sqrt) && pos.Valid()
    ensures Value(sqrt, pos, pos.range.initialPrice) == HoldValue(pos, pos.range.initialPrice)
    ensures ImpermanentLoss(sqrt, pos, pos.range.initialPrice) == 0.0
  {
    DepositAtInitialPrice(sqrt, pos);
    var hold := HoldValue(pos, pos.range.initialPrice);
    if hold != 0.0 {
      assert hold / hold == 1.0;
    }
  }
}
