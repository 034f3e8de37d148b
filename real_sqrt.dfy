/**
 * Square roots. The Python code calls `math.sqrt` / `np.sqrt`; Dafny has no such function, so
 * the model receives the square root as a parameter and relies only on its defining property.
 */
module RealSqrt {

  /**
   * `sqrt` returns the non-negative root of every non-negative real. The property of one argument
   * is a separate predicate so that proofs obtain it only where they ask for it, through RootOf.
   */
  ghost predicate IsSqrt(sqrt: real -> real)
  {
    forall x :: RootAt(sqrt, x)
  }

  ghost predicate RootAt(sqrt: real -> real, x: real)
  {
    0.0 <= x ==> 0.0 <= sqrt(x) && sqrt(x) * sqrt(x) == x
  }

  lemma RootOf(sqrt: real -> real, x: real)
    requires IsSqrt(sqrt) && 0.0 <= x
    ensures 0.0 <= sqrt(x) && sqrt(x) * sqrt(x) == x
    ensures 0.0 < x ==> 0.0 < sqrt(x)
  {
    assert RootAt(sqrt, x);
  }

  /** Two non-negative reals with the same square are equal. */
  lemma SquareInjective(a: real, b: real)
    requires 0.0 <= a && 0.0 <= b && a * a == b * b
    ensures a == b
  {
    SquareMonotone(a, b);
  }

  /** The square of a non-negative real is below another's exactly when the reals are. */
  lemma SquareMonotone(a: real, b: real)
    requires 0.0 <= a && 0.0 <= b
    ensures a * a <= b * b <==> a <= b
    ensures a * a < b * b <==> a < b
  {
    if a < b {
      StrictSquare(a, b);
    } else if b < a {
      StrictSquare(b, a);
    }
  }

  lemma StrictSquare(a: real, b: real)
    requires 0.0 <= a < b
    ensures a * a < b * b
  {
    calc {
      a * a;
    <=  { MulLe(a, a, b); }
      a * b;
    <   { MulLt(b, a, b); }
      b * b;
    }
  }

  lemma MulLe(c: real, x: real, y: real)
    requires 0.0 <= c && x <= y
    ensures c * x <= c * y
  {
    assert c * y - c * x == c * (y - x);
  }

  lemma MulLt(c: real, x: real, y: real)
    requires 0.0 < c && x < y
    ensures c * x < c * y
  {
    assert c * y - c * x == c * (y - x);
  }

  /** Scaling an ordered pair of non-negative reals by a non-negative factor keeps the order. */
  lemma MulBetween(c: real, x: real, y: real)
    requires 0.0 <= c && 0.0 <= x <= y
    ensures 0.0 <= c * x <= c * y
  {
    MulLe(c, 0.0, x);
    MulLe(c, x, y);
  }

  /** Taking reciprocals reverses the order of positive reals. */
  lemma ReciprocalAntitone(a: real, b: real)
    requires 0.0 < a < b
    ensures 1.0 / b < 1.0 / a
  {
    calc {
      1.0 / b;
    ==
      (1.0 / a) * (a / b);
    <  { MulLt(1.0 / a, a / b, 1.0); }
      1.0 / a;
    }
  }

  lemma MulNonneg(a: real, b: real)
    ensures 0.0 <= a && 0.0 <= b ==> 0.0 <= a * b
  {
    if 0.0 <= a && 0.0 <= b {
      MulLe(a, 0.0, b);
    }
  }

  /** The root is determined by its defining property: any non-negative `a` with `a*a == x` is `sqrt(x)`. */
  lemma RootUnique(sqrt: real -> real, x: real, a: real)
    requires IsSqrt(sqrt)
    requires 0.0 <= a && a * a == x
    ensures sqrt(x) == a
  {
    RootOf(sqrt, x);
    SquareInjective(sqrt(x), a);
  }

  /** Roots preserve the order of their arguments, strictly and weakly. */
  lemma RootMonotone(sqrt: real -> real, x: real, y: real)
    requires IsSqrt(sqrt)
    requires 0.0 <= x && 0.0 <= y
    ensures x <= y <==> sqrt(x) <= sqrt(y)
    ensures x < y <==> sqrt(x) < sqrt(y)
  {
    RootOf(sqrt, x);
    RootOf(sqrt, y);
    SquareMonotone(sqrt(x), sqrt(y));
  }

  /** The root of a product of non-negative reals is the product of the roots. */
  lemma RootOfProduct(sqrt: real -> real, x: real, y: real)
    requires IsSqrt(sqrt)
    requires 0.0 <= x && 0.0 <= y
    ensures sqrt(x * y) == sqrt(x) * sqrt(y)
  {
    RootOf(sqrt, x);
    RootOf(sqrt, y);
    var a := sqrt(x) * sqrt(y);
    assert a * a == (sqrt(x) * sqrt(x)) * (sqrt(y) * sqrt(y));
    RootUnique(sqrt, x * y, a);
  }

  /** The root of a reciprocal is the reciprocal of the root. */
  lemma RootOfReciprocal(sqrt: real -> real, x: real)
    requires IsSqrt(sqrt)
    requires 0.0 < x
    ensures 0.0 < sqrt(x)
    ensures sqrt(1.0 / x) == 1.0 / sqrt(x)
  {
    RootOf(sqrt, x);
    var s := sqrt(x);
    var a := 1.0 / s;
    assert a * a == 1.0 / (s * s);
    RootUnique(sqrt, 1.0 / x, a);
  }
}
