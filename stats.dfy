/** Sums, the population mean and variance of a category, and the outlier
    bound `mean + factor * stdDev` written without a square root. */
module Stats {
  import opened Types

  /** The sum of the amounts, added left to right from 0. */
  function SumAmounts(txs: seq<Transaction>): real {
    if txs == [] then 0.0 else SumAmounts(txs[..|txs| - 1]) + txs[|txs| - 1].amount
  }

  /** Appending a transaction adds its amount to the sum. */
  lemma SumAmountsSnoc(g: seq<Transaction>, t: Transaction)
    ensures SumAmounts(g + [t]) == SumAmounts(g) + t.amount
  {
    assert (g + [t])[..|g|] == g;
  }

  /** The population mean; an empty group (which the engine never builds) has mean 0. */
  function Mean(g: seq<Transaction>): real {
    if g == [] then 0.0 else SumAmounts(g) / (|g| as real)
  }

  /** `x * x`, kept behind a name so that the solver treats squares as terms. */
  function Sq(x: real): real {
    x * x
  }

  /** `x * y`, kept behind a name for the same reason. */
  function Mul(x: real, y: real): real {
    x * y
  }

  /** The sum of squared deviations of the amounts from `m`. */
  function SquaredDeviations(g: seq<Transaction>, m: real): real {
    if g == [] then 0.0 else SquaredDeviations(g[..|g| - 1], m) + Sq(g[|g| - 1].amount - m)
  }

  /** The population variance: squared deviations divided by N, not N - 1.
      The standard deviation of the source is its square root. */
  function Variance(g: seq<Transaction>): real {
    if g == [] then 0.0 else SquaredDeviations(g, Mean(g)) / (|g| as real)
  }

  /** `mean + d > mean + factor * sqrt(variance)`, that is `d > factor * stdDev`,
      decided by squaring, for a deviation `d` from the mean. */
  predicate ExceedsBound(d: real, factor: real, variance: real) {
    if factor >= 0.0 then d > 0.0 && Sq(d) > Sq(factor) * variance
    else d > 0.0 || Sq(d) < Sq(factor) * variance
  }

  lemma SqNegate(x: real)
    ensures Sq(-x) == Sq(x)
  {
  }

  lemma SqProduct(x: real, y: real)
    ensures Sq(x * y) == Sq(x) * Sq(y)
  {
  }

  lemma SqNonNegative(x: real)
    ensures Sq(x) >= 0.0
  {
  }

  lemma MulPositive(x: real, y: real)
    requires x > 0.0 && y > 0.0
    ensures Mul(x, y) > 0.0
  {
  }

  lemma DifferenceOfSquares(a: real, b: real)
    ensures Sq(b) - Sq(a) == Mul(b - a, b + a)
  {
  }

  lemma SqStrictlyMonotonic(a: real, b: real)
    requires 0.0 <= a < b
    ensures Sq(a) < Sq(b)
  {
    DifferenceOfSquares(a, b);
    MulPositive(b - a, b + a);
  }

  /** On non-negative numbers squaring preserves and reflects `<`. */
  lemma SqLessIff(a: real, b: real)
    requires a >= 0.0 && b >= 0.0
    ensures a < b <==> Sq(a) < Sq(b)
  {
    if a < b {
      SqStrictlyMonotonic(a, b);
    } else if b < a {
      SqStrictlyMonotonic(b, a);
    }
  }

  lemma SqPositive(x: real)
    requires x != 0.0
    ensures Sq(x) > 0.0
  {
    assert Sq(0.0) == 0.0;
    if x > 0.0 {
      SqStrictlyMonotonic(0.0, x);
    } else {
      SqNegate(x);
      SqStrictlyMonotonic(0.0, -x);
    }
  }

  /** The squared form agrees with the comparison against the square root:
      for the standard deviation `s` (the non-negative `s` with
      `s * s == variance`), `ExceedsBound` holds exactly when `d > factor * s`. */
  lemma ExceedsBoundIff(d: real, factor: real, variance: real, s: real)
    requires s >= 0.0 && Sq(s) == variance
    ensures ExceedsBound(d, factor, variance) <==> d > factor * s
  {
    var b := factor * s;
    SqProduct(factor, s);
    assert Sq(b) == Sq(factor) * variance;
    if factor >= 0.0 {
      assert b >= 0.0 by { assert factor * s >= 0.0; }
      if d > 0.0 {
        SqLessIff(b, d);
      }
    } else {
      assert b <= 0.0 by { assert (-factor) * s >= 0.0; }
      if d <= 0.0 {
        SqNegate(d);
        SqNegate(b);
        SqLessIff(-d, -b);
      }
    }
  }

  lemma {:induction false} SquaredDeviationsNonNegative(g: seq<Transaction>, m: real)
    ensures SquaredDeviations(g, m) >= 0.0
  {
    if g != [] {
      SquaredDeviationsNonNegative(g[..|g| - 1], m);
      SqNonNegative(g[|g| - 1].amount - m);
    }
  }

  lemma VarianceNonNegative(g: seq<Transaction>)
    ensures Variance(g) >= 0.0
  {
    if g != [] {
      SquaredDeviationsNonNegative(g, Mean(g));
    }
  }

  /** Squared deviations vanish only when every amount equals `m`. */
  lemma {:induction false} SquaredDeviationsZero(g: seq<Transaction>, m: real)
    ensures SquaredDeviations(g, m) == 0.0 <==> forall i :: 0 <= i < |g| ==> g[i].amount == m
  {
    if g != [] {
      var p := g[..|g| - 1];
      var x := g[|g| - 1].amount - m;
      SquaredDeviationsZero(p, m);
      SquaredDeviationsNonNegative(p, m);
      SqNonNegative(x);
      if x != 0.0 {
        SqPositive(x);
      }
      assert forall i :: 0 <= i < |p| ==> p[i] == g[i];
    }
  }

  lemma {:induction false} SumOfConstant(g: seq<Transaction>, a: real)
    requires forall i :: 0 <= i < |g| ==> g[i].amount == a
    ensures SumAmounts(g) == (|g| as real) * a
  {
    if g != [] {
      SumOfConstant(g[..|g| - 1], a);
    }
  }

  /** The standard deviation of a category is 0 exactly when all of its
      amounts are equal; those categories are skipped by the outlier pass. */
  lemma VarianceZeroIff(g: seq<Transaction>)
    ensures Variance(g) == 0.0 <==> forall i, j :: 0 <= i < |g| && 0 <= j < |g| ==> g[i].amount == g[j].amount
  {
    if g != [] {
      var n := |g| as real;
      var m := Mean(g);
      SquaredDeviationsZero(g, m);
      if forall i, j :: 0 <= i < |g| && 0 <= j < |g| ==> g[i].amount == g[j].amount {
        var a := g[0].amount;
        SumOfConstant(g, a);
        assert m == a;
      }
      assert Variance(g) == 0.0 <==> SquaredDeviations(g, m) == 0.0;
    }
  }
}
