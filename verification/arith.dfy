/** Facts about real multiplication that the solver does not find unaided. */
module RealArith {

  /** Scaling by a non-negative factor keeps an inequality. */
  lemma ScaleMonotone(x: real, y: real, c: real)
    requires x <= y && c >= 0.0
    ensures x * c <= y * c
  {
  }

  /** Scaling by a positive factor keeps a strict inequality. */
  lemma ScaleStrict(x: real, y: real, c: real)
    requires x < y && c > 0.0
    ensures x * c < y * c
  {
  }

  /** A positive factor can be cancelled from both sides of an equation. */
  lemma CancelFactor(a: real, b: real, d: real)
    requires d > 0.0 && a * d == b * d
    ensures a == b
  {
  }

  /** A quantity splits into its alpha and (1 - alpha) parts. */
  lemma SplitByFactor(x: real, alpha: real)
    ensures x * alpha + x * (1.0 - alpha) == x
  {
  }

  /** Two inequalities add up. */
  lemma AddBounds(a: real, b: real, c: real, d: real)
    requires a <= c && b <= d
    ensures a + b <= c + d
  {
  }

  /** Non-negative weights keep two values' weighted sum below the same
      weights applied to a common upper bound. */
  lemma WeightedBelow(x: real, y: real, a: real, b: real, hi: real)
    requires a >= 0.0 && b >= 0.0
    requires x <= hi && y <= hi
    ensures x * a + y * b <= hi * a + hi * b
  {
    ScaleMonotone(x, hi, a);
    ScaleMonotone(y, hi, b);
    AddBounds(x * a, y * b, hi * a, hi * b);
  }

  /** Non-negative weights keep two values' weighted sum above the same
      weights applied to a common lower bound. */
  lemma WeightedAbove(x: real, y: real, a: real, b: real, lo: real)
    requires a >= 0.0 && b >= 0.0
    requires lo <= x && lo <= y
    ensures lo * a + lo * b <= x * a + y * b
  {
    ScaleMonotone(lo, x, a);
    ScaleMonotone(lo, y, b);
    AddBounds(lo * a, lo * b, x * a, y * b);
  }

  /** A weighted average with weights a and 1 - a in [0, 1] stays within
      any bounds of the two things averaged. */
  lemma WeightedBetween(x: real, y: real, a: real, lo: real, hi: real)
    requires 0.0 <= a <= 1.0
    requires lo <= x <= hi && lo <= y <= hi
    ensures lo <= x * a + y * (1.0 - a) <= hi
  {
    WeightedAbove(x, y, a, 1.0 - a, lo);
    WeightedBelow(x, y, a, 1.0 - a, hi);
    SplitByFactor(lo, a);
    SplitByFactor(hi, a);
  }

  /** Product of two reals, with the sign facts squares rely on. */
  function Product(a: real, b: real): (r: real)
    ensures a > 0.0 && b > 0.0 ==> r > 0.0
    ensures a < 0.0 && b < 0.0 ==> r > 0.0
    ensures a == 0.0 || b == 0.0 ==> r == 0.0
  {
    a * b
  }

  /** The square `Math.pow(x, 2)`: never negative, and zero only at zero. */
  function Square(x: real): (r: real)
    ensures r >= 0.0
    ensures r == 0.0 <==> x == 0.0
  {
    Product(x, x)
  }

  /** Squaring is strictly increasing on the non-negative reals. */
  lemma SquareMonotone(a: real, b: real)
    requires 0.0 <= a < b
    ensures Square(a) < Square(b)
  {
  }

  /** For a non-negative s, `d > 2s` holds exactly when d is positive and its
      square exceeds four times the square of s. */
  lemma ExceedsTwiceIff(d: real, s: real)
    requires s >= 0.0
    ensures d > 2.0 * s <==> d > 0.0 && Square(d) > 4.0 * Square(s)
  {
    assert Square(2.0 * s) == 4.0 * Square(s);
    if d > 2.0 * s {
      SquareMonotone(2.0 * s, d);
    } else if 0.0 < d < 2.0 * s {
      SquareMonotone(d, 2.0 * s);
    }
  }
}
