/** Real arithmetic, one product at a time. */
module Reals {

  lemma Distribute(a: real, b: real, c: real, t: real)
    requires c == a + b
    ensures c * t == a * t + b * t
  {
  }

  lemma SquarePositive(x: real)
    requires x > 0.0
    ensures x * x > 0.0
  {
  }

  lemma SquareNonNegative(x: real)
    ensures x * x >= 0.0
  {
    if x > 0.0 {
      SquarePositive(x);
    } else if x < 0.0 {
      SquarePositive(-x);
      assert x * x == (-x) * (-x);
    }
  }

  lemma ProductPositive(a: real, b: real)
    requires a > 0.0 && b > 0.0
    ensures a * b > 0.0
  {
  }

  lemma DivideSum(a: real, b: real, c: real, d: real)
    requires d > 0.0 && c == a + b
    ensures a / d + b / d == c / d
  {
  }

  lemma RatioToOne(a: real, d: real)
    requires d > 0.0
    ensures a <= d ==> a / d <= 1.0
    ensures a < d ==> a / d < 1.0
    ensures a == d ==> a / d == 1.0
  {
  }

  lemma AtLeastRatio(w: real, c: real, total: real)
    requires total > 0.0 && w >= c * total
    ensures w / total >= c
  {
    var q := w / total;
    assert q * total == w;
    if q < c {
      ProductPositive(c - q, total);
      Distribute(q, c - q, c, total);
    }
  }
}
