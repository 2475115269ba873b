/**
 * Small facts of real arithmetic that the solver does not find on its own
 * (products, quotients and squares of variables). Each is stated over plain
 * reals so that the proofs that use them stay linear.
 *
 * Squares are Sq(x) = Power(x, 2) with Power recursive: the verifier unfolds
 * it one step at a time, so a square stays an opaque term in every proof
 * except those that ask for its value through SqUnfold.
 */
module Algebra {

  /** x to the n-th power. */
  function Power(x: real, n: nat): real
  {
    if n == 0 then 1.0 else x * Power(x, n - 1)
  }

  /** The square of x. */
  function Sq(x: real): real { Power(x, 2) }

  lemma SqUnfold(x: real)
    ensures Sq(x) == x * Power(x, 1) && Power(x, 1) == x
  {
  }

  lemma ProductSigns(a: real, b: real)
    requires b > 0.0
    ensures a >= 0.0 ==> a * b >= 0.0
    ensures a > 0.0 ==> a * b > 0.0
  {
  }

  lemma ScaledFraction(t: real, m: real, u: real, k: real)
    requires m > 0.0 && u == t / m
    ensures t - k * m == (u - k) * m
  {
  }

  /** Multiplying by a positive m keeps the bounds lo <= f < hi and lo < f <= hi (scaled). */
  lemma ScaleBounds(f: real, lo: real, hi: real, m: real)
    requires m > 0.0
    ensures lo <= f < hi ==> lo * m <= f * m < hi * m
    ensures lo < f <= hi ==> lo * m < f * m <= hi * m
  {
    if lo <= f < hi {
      ProductSigns(f - lo, m);
      ProductSigns(hi - f, m);
    }
    if lo < f <= hi {
      ProductSigns(f - lo, m);
      ProductSigns(hi - f, m);
    }
  }

  /** Dividing by a positive m keeps the sign. */
  lemma QuotientSign(t: real, m: real)
    requires m > 0.0
    ensures 0.0 <= t <==> 0.0 <= t / m
  {
    var u := t / m;
    assert u * m == t;
    if 0.0 <= t && u < 0.0 {
      ProductSigns(-u, m);
    }
    if t < 0.0 && 0.0 <= u {
      ProductSigns(u, m);
    }
  }

  /** p = f * m with m > 0: f in [0, 1) gives p in [0, m), and f in (-1, 0] gives p in (-m, 0]. */
  lemma UnitIntervalScaled(f: real, m: real, p: real)
    requires m > 0.0 && p == f * m
    ensures 0.0 <= f < 1.0 ==> 0.0 <= p < m
    ensures -1.0 < f <= 0.0 ==> -m < p <= 0.0
  {
    var below := 1.0 - f;
    var above := f + 1.0;
    assert below * m == m - p;
    assert above * m == p + m;
    if 0.0 <= f < 1.0 {
      ProductSigns(f, m);
      ProductSigns(below, m);
    }
    if -1.0 < f <= 0.0 {
      ProductSigns(-f, m);
      assert (-f) * m == -p;
      ProductSigns(above, m);
    }
  }

  /** Multiplying by a positive m preserves order, both ways. */
  lemma ScaleOrder(x: real, y: real, m: real)
    requires m > 0.0
    ensures x <= y <==> x * m <= y * m
    ensures x == y <==> x * m == y * m
  {
    if x < y {
      ProductSigns(y - x, m);
    } else if y < x {
      ProductSigns(x - y, m);
    }
  }

  lemma SqOne()
    ensures Sq(1.0) == 1.0
  {
    SqUnfold(1.0);
  }

  /** Equal values have equal squares (stated for values the solver only knows equal by arithmetic). */
  lemma SqCongruent(a: real, b: real)
    requires a == b
    ensures Sq(a) == Sq(b)
  {
  }

  lemma SqSign(x: real)
    ensures Sq(x) >= 0.0
    ensures x != 0.0 ==> Sq(x) > 0.0
  {
    SqUnfold(x);
  }

  lemma SqMul(a: real, b: real)
    ensures Sq(a * b) == Sq(a) * Sq(b)
  {
    SqUnfold(a);
    SqUnfold(b);
    SqUnfold(a * b);
  }

  lemma Distrib(a: real, b: real, m: real)
    ensures m * (a + b) == m * a + m * b
  {
  }

  /** Scaling a vector by k scales its length by k: the length relation survives. */
  lemma HypotScales(h: real, dx: real, dy: real, k: real)
    requires Sq(h) == Sq(dx) + Sq(dy)
    ensures Sq(k * h) == Sq(k * dx) + Sq(k * dy)
  {
    SqMul(k, h);
    SqMul(k, dx);
    SqMul(k, dy);
    Distrib(Sq(dx), Sq(dy), Sq(k));
  }

  /** A sum of two squares vanishes only at the origin. */
  lemma SumOfSquaresZero(x: real, y: real)
    requires Sq(x) + Sq(y) == 0.0
    ensures x == 0.0 && y == 0.0
  {
    SqSign(x);
    SqSign(y);
  }

  /** Multiplying a strict increase a < b by m >= 0 keeps the order, strictly when m > 0. */
  lemma Stretch(a: real, b: real, m: real)
    requires a < b && m >= 0.0
    ensures m > 0.0 ==> a * m < b * m
    ensures a * m <= b * m
  {
    if m > 0.0 {
      ProductSigns(b - a, m);
    }
  }

  /** Squaring is strictly increasing on the non-negative reals. */
  lemma StrictSquare(a: real, b: real)
    requires 0.0 <= a < b
    ensures Sq(a) < Sq(b)
  {
    SqUnfold(a);
    SqUnfold(b);
    // a * a <= a * b < b * b
    Stretch(a, b, b);
    Stretch(a, b, a);
  }

  /** Squaring is monotone on the non-negative reals. */
  lemma MonotoneSquare(a: real, b: real)
    requires 0.0 <= a <= b
    ensures Sq(a) <= Sq(b)
  {
    if a < b {
      StrictSquare(a, b);
    }
  }

  /** Two non-negative reals with the same square are equal. */
  lemma SquareInjective(a: real, b: real)
    requires a >= 0.0 && b >= 0.0 && Sq(a) == Sq(b)
    ensures a == b
  {
    if a < b {
      StrictSquare(a, b);
    } else if b < a {
      StrictSquare(b, a);
    }
  }
}
