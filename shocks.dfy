/**
 * The stress-test grid shared by the stress scripts and simulators: eleven price shocks, in
 * percent, from -15 to +15 in steps of 3 (the `shocks` / `SHOCK_LEVELS_PCT` arrays).
 */
module StressGrid {

  const Shocks: seq<int> := [-15, -12, -9, -6, -3, 0, 3, 6, 9, 12, 15]

  /** `price * (1 + shock / 100)`: the price after a shock of `shockPct` percent. */
  function ShockedPrice(price: real, shockPct: int): real
  {
    price * (1.0 + (shockPct as real) / 100.0)
  }

  /** The grid is increasing and lies within plus or minus fifteen percent, starting at -15. */
  lemma GridShape()
    ensures |Shocks| == 11 && Shocks[0] == -15
    ensures forall k :: 0 <= k < |Shocks| ==> -15 <= Shocks[k] <= 15
    ensures forall j, k :: 0 <= j < k < |Shocks| ==> Shocks[j] < Shocks[k]
  {
    forall j, k | 0 <= j < k < |Shocks| ensures Shocks[j] < Shocks[k] {
      assert Shocks[j] == -15 + 3 * j;
      assert Shocks[k] == -15 + 3 * k;
    }
  }

  /**
   * On the grid a positive price stays positive, and a larger shock never gives a lower price; so
   * the -15% shock gives the lowest shocked price of the grid.
   */
  lemma ShockedPriceOrder(price: real, s1: int, s2: int)
    requires 0.0 < price && -100 < s1 <= s2
    ensures 0.0 < ShockedPrice(price, s1) <= ShockedPrice(price, s2)
  {
    var f1 := 1.0 + (s1 as real) / 100.0;
    var f2 := 1.0 + (s2 as real) / 100.0;
    assert 0.0 < f1 <= f2;
    assert price * f2 - price * f1 == price * (f2 - f1);
    assert 0.0 <= price * (f2 - f1);
    assert 0.0 < price * f1;
  }
}
