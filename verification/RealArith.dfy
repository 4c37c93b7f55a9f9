/** The few facts of real arithmetic the solver needs to be reminded of. */
module RealArith {
  lemma MulNonNegative(x: real, y: real)
    requires x >= 0.0 && y >= 0.0
    ensures x * y >= 0.0
  {}

  lemma MulPositive(x: real, y: real)
    requires x > 0.0 && y > 0.0
    ensures x * y > 0.0
  {}

  lemma MulMonotone(x: real, y: real, c: real)
    requires x <= y && c >= 0.0
    ensures x * c <= y * c
  {
    MulNonNegative(y - x, c);
  }

  lemma MulStrict(x: real, y: real, c: real)
    requires x < y && c > 0.0
    ensures x * c < y * c
  {
    MulPositive(y - x, c);
  }

  lemma Cancel(x: real, d: real)
    requires d != 0.0
    ensures x / d * d == x
  {}

  /** `q` is the quotient of `x` by `d` when `q * d` is `x`. */
  lemma Quotient(x: real, d: real, q: real)
    requires d != 0.0 && q * d == x
    ensures x / d == q
  {
    Cancel(x, d);
    assert (x / d - q) * d == 0.0;
  }

  lemma DivMonotone(x: real, y: real, d: real)
    requires x <= y && d > 0.0
    ensures x / d <= y / d
  {
  }

  lemma DivStrict(x: real, y: real, d: real)
    requires x < y && d > 0.0
    ensures x / d < y / d
  {
  }

  lemma ScalingKeepsOrder(x: real, y: real, c: real)
    requires x > 0.0 && y > 0.0 && c > 0.0
    ensures x * c > 0.0 && y * c > 0.0 && (x * c <= y * c <==> x <= y)
  {
    MulPositive(x, c);
    MulPositive(y, c);
    if x <= y { MulMonotone(x, y, c); } else { MulStrict(y, x, c); }
  }
}
