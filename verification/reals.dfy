/** Facts about real multiplication and division that the solver does not
    find on its own; each is proved from one explicit step. */
module Reals {

  lemma ProductPositive(a: real, b: real)
    requires a > 0.0 && b > 0.0
    ensures a * b > 0.0
  {
  }

  /** Dividing by a positive number can be undone and keeps the sign. */
  lemma DivFacts(c: real, t: real)
    requires t > 0.0
    ensures c / t * t == c
    ensures c >= 0.0 ==> c / t >= 0.0
    ensures c > 0.0 ==> c / t > 0.0
  {
    FactorSign(c / t, t);
  }

  /** A product with a positive factor has the sign of the other factor. */
  lemma FactorSign(a: real, b: real)
    requires b > 0.0
    ensures a * b >= 0.0 ==> a >= 0.0
    ensures a * b > 0.0 ==> a > 0.0
  {
  }

  /** A ratio of a part to a positive whole lies in [0, 1] and is 1 or 0
      exactly when the part is the whole or nothing. */
  lemma RatioFacts(c: real, n: real)
    requires 0.0 <= c <= n && n > 0.0
    ensures 0.0 <= c / n <= 1.0
    ensures c / n * n == c
    ensures c / n == 1.0 <==> c == n
    ensures c / n == 0.0 <==> c == 0.0
  {
    DivFacts(c, n);
    var q := c / n;
    calc { (1.0 - q) * n; == n - q * n; == n - c; }
    FactorSign(1.0 - q, n);
  }

  /** A square is non-negative, and positive away from zero. */
  lemma SquareFacts(x: real, y: real)
    requires y == x * x
    ensures y >= 0.0
    ensures x != 0.0 ==> y > 0.0
  {
    if x > 0.0 {
      calc { y; == x * x; > 0.0; }
    } else if x < 0.0 {
      calc { y; == x * x; > 0.0; }
    }
  }

  /** Scaling a fraction in [0, 1] by a positive weight stays within
      [0, weight] and is zero only for a zero fraction. */
  lemma ScaleFacts(m: real, w: real)
    requires 0.0 <= m <= 1.0 && w > 0.0
    ensures 0.0 <= m * w <= w
    ensures m * w == 0.0 <==> m == 0.0
  {
    if m > 0.0 {
      ProductPositive(m, w);
    }
    if m < 1.0 {
      ProductPositive(1.0 - m, w);
      calc { w; == m * w + (1.0 - m) * w; > m * w; }
    }
  }

  /** A product of non-negative factors is non-negative. */
  lemma ProductNonNegative(a: real, b: real)
    ensures a >= 0.0 && b >= 0.0 ==> a * b >= 0.0
  {
    if a > 0.0 && b > 0.0 {
      ProductPositive(a, b);
    }
  }

  /** A ratio to a positive number reaches 1 exactly when the numerator
      reaches the denominator. */
  lemma RatioAtLeastOne(c: real, t: real)
    requires t > 0.0
    ensures c / t >= 1.0 <==> c >= t
  {
    DivFacts(c, t);
    var q := c / t;
    if q >= 1.0 {
      ProductNonNegative(q - 1.0, t);
      calc { c; == q * t; == (q - 1.0) * t + t; >= t; }
    } else {
      ProductPositive(1.0 - q, t);
      calc { c; == q * t; == t - (1.0 - q) * t; < t; }
    }
  }
}
