/** Shared value types and sequence arithmetic used by every part of the model. */
module Common {

  datatype Option<T> = None | Some(value: T)

  /** The exceptions the Python code can raise on the paths the model covers. */
  datatype Error =
    | RangeWidthError   // ValueError raised by the position constructor
    | ZeroDivision      // ZeroDivisionError from a float division
    | MathDomain        // ValueError from math.sqrt of a negative number
    | NonPositiveRatio  // ValueError raised for a price ratio <= 0
    | ParseError        // ValueError from float() of a malformed field

  datatype Result<T> = Ok(value: T) | Err(error: Error)

  /** Sum of a sequence, peeled from the right so that appending one element is one unfolding. */
  function Sum(xs: seq<real>): real
  {
    if xs == [] then 0.0 else Sum(xs[..|xs| - 1]) + xs[|xs| - 1]
  }

  function SumNat(xs: seq<nat>): nat
  {
    if xs == [] then 0 else SumNat(xs[..|xs| - 1]) + xs[|xs| - 1]
  }

  /** Arithmetic mean (`statistics.mean`, `np.mean`); `None` stands for the empty case. */
  function Mean(xs: seq<real>): (m: Option<real>)
    ensures m.Some? <==> |xs| > 0
  {
    if xs == [] then None else Some(Sum(xs) / (|xs| as real))
  }

  /** Smallest element of a non-empty sequence (Python's `min` over a list). */
  function Min(xs: seq<real>): (m: real)
    requires |xs| > 0
    ensures m in xs
    ensures forall i :: 0 <= i < |xs| ==> m <= xs[i]
  {
    if |xs| == 1 then xs[0]
    else
      var rest := Min(xs[..|xs| - 1]);
      if xs[|xs| - 1] < rest then xs[|xs| - 1] else rest
  }

  lemma SumAppend(xs: seq<real>, x: real)
    ensures Sum(xs + [x]) == Sum(xs) + x
  {
    assert (xs + [x])[..|xs + [x]| - 1] == xs;
  }

  lemma SumNatAppend(xs: seq<nat>, x: nat)
    ensures SumNat(xs + [x]) == SumNat(xs) + x
  {
    assert (xs + [x])[..|xs + [x]| - 1] == xs;
  }

  /** One numeric column of a table: `f` of every row, in row order. */
  function Column<T>(rows: seq<T>, f: T -> nat): (ns: seq<nat>)
    ensures |ns| == |rows|
    ensures forall i :: 0 <= i < |rows| ==> ns[i] == f(rows[i])
  {
    seq(|rows|, i requires 0 <= i < |rows| => f(rows[i]))
  }

  /** Appending a row adds its entry to the column's total. */
  lemma ColumnPush<T>(rows: seq<T>, r: T, f: T -> nat)
    ensures SumNat(Column(rows + [r], f)) == SumNat(Column(rows, f)) + f(r)
  {
    assert Column(rows + [r], f) == Column(rows, f) + [f(r)];
    SumNatAppend(Column(rows, f), f(r));
  }

  /** The mean lies between the smallest and the largest element. */
  lemma {:induction false} SumBounds(xs: seq<real>, lo: real, hi: real)
    requires forall i :: 0 <= i < |xs| ==> lo <= xs[i] <= hi
    ensures (|xs| as real) * lo <= Sum(xs) <= (|xs| as real) * hi
  {
    if xs != [] {
      SumBounds(xs[..|xs| - 1], lo, hi);
    }
  }

  lemma MeanBounds(xs: seq<real>, lo: real, hi: real)
    requires |xs| > 0
    requires forall i :: 0 <= i < |xs| ==> lo <= xs[i] <= hi
    ensures lo <= Mean(xs).value <= hi
  {
    SumBounds(xs, lo, hi);
    var n := |xs| as real;
    assert n * lo <= Sum(xs) <= n * hi;
    assert lo == (n * lo) / n;
    assert hi == (n * hi) / n;
  }

  /** The set of elements of a sequence has at most as many members as the sequence has places. */
  lemma {:induction false} CardOfSeqSet<T>(s: seq<T>)
    ensures |set i | 0 <= i < |s| :: s[i]| <= |s|
  {
    if s != [] {
      var init := s[..|s| - 1];
      CardOfSeqSet(init);
      var a := set i | 0 <= i < |init| :: init[i];
      var b := set i | 0 <= i < |s| :: s[i];
      assert b == a + {s[|s| - 1]} by {
        forall y | y in b ensures y in a + {s[|s| - 1]} {
          var i :| 0 <= i < |s| && s[i] == y;
          if i < |s| - 1 { assert init[i] == y; }
        }
        forall y | y in a ensures y in b {
          var i :| 0 <= i < |init| && init[i] == y;
          assert s[i] == y;
        }
      }
    }
  }

  /** A sub-set of a sequence's elements is no larger than the sequence. */
  lemma SubsetOfSeqCard<T>(ids: set<T>, s: seq<T>)
    requires forall x :: x in ids ==> exists i :: 0 <= i < |s| && s[i] == x
    ensures |ids| <= |s|
  {
    var all := set i | 0 <= i < |s| :: s[i];
    forall x | x in ids ensures x in all {
      var i :| 0 <= i < |s| && s[i] == x;
    }
    CardOfSeqSet(s);
    assert |ids| <= |all| by { SubsetCard(ids, all); }
  }

  lemma SubsetCard<T>(a: set<T>, b: set<T>)
    requires a <= b
    ensures |a| <= |b|
  {
    assert b == a + (b - a);
  }

  /** A sequence without repetitions has exactly as many distinct elements as places. */
  lemma {:induction false} DistinctSeqCard<T>(s: seq<T>)
    requires forall i, j :: 0 <= i < j < |s| ==> s[i] != s[j]
    ensures |set i | 0 <= i < |s| :: s[i]| == |s|
  {
    if s != [] {
      var init := s[..|s| - 1];
      DistinctSeqCard(init);
      var a := set i | 0 <= i < |init| :: init[i];
      var b := set i | 0 <= i < |s| :: s[i];
      assert s[|s| - 1] !in a;
      assert b == a + {s[|s| - 1]} by {
        forall y | y in b ensures y in a + {s[|s| - 1]} {
          var i :| 0 <= i < |s| && s[i] == y;
          if i < |s| - 1 { assert init[i] == y; }
        }
        forall y | y in a ensures y in b {
          var i :| 0 <= i < |init| && init[i] == y;
          assert s[i] == y;
        }
      }
    }
  }
}
