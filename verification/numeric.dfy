/** Real-number helpers shared by the numeric modules. */
module Numeric {

  /** JavaScript's `Math.abs` on a real. */
  function Abs(x: real): (r: real)
    ensures r >= 0.0 && (r == x || r == -x)
  {
    if x < 0.0 then -x else x
  }

  /** JavaScript's `Math.max` of two reals. */
  function Max(a: real, b: real): (r: real)
    ensures r >= a && r >= b && (r == a || r == b)
  {
    if a >= b then a else b
  }

  /** JavaScript's `Math.min` of two reals. */
  function Min(a: real, b: real): (r: real)
    ensures r <= a && r <= b && (r == a || r == b)
  {
    if a <= b then a else b
  }

  /** A product of non-negative reals is non-negative. */
  lemma MulNonneg(a: real, b: real)
    requires a >= 0.0 && b >= 0.0
    ensures a * b >= 0.0
  {
  }

  /** Scaling a non-negative d by a factor in [0, 1] stays in [0, d]. */
  lemma MulAtMost(t: real, d: real)
    requires 0.0 <= t <= 1.0 && d >= 0.0
    ensures 0.0 <= t * d <= d
  {
    MulNonneg(t, d);
    MulNonneg(1.0 - t, d);
    assert (1.0 - t) * d == d - t * d;
  }

  /** A square is non-negative. */
  lemma SquareNonneg(a: real)
    ensures a * a >= 0.0
  {
    if a < 0.0 {
      MulNonneg(-a, -a);
    } else {
      MulNonneg(a, a);
    }
  }

  /** A product of positive reals is positive. */
  lemma MulPositive(a: real, b: real)
    requires a > 0.0 && b > 0.0
    ensures a * b > 0.0
  {
  }

  /** c times x, as a named product: products of equal factors are then equal by congruence alone. */
  function Scale(c: real, x: real): real {
    c * x
  }

  /** n divided by d, as a named quotient for the same reason. */
  function Quot(n: real, d: real): real
    requires d != 0.0
  {
    n / d
  }

  /** Adding a term `w * a` with w in [0, 1] to a total in [0, m] gives a total in [0, m + a]. */
  lemma WeightedStep(t: real, m: real, w: real, a: real)
    requires 0.0 <= t <= m && 0.0 <= w <= 1.0 && a > 0.0
    ensures 0.0 <= t + Scale(w, a) <= m + a
  {
    MulAtMost(w, a);
  }

  /** A part of a positive whole, divided by the whole, lies in [0, 1]. */
  lemma RatioInUnitInterval(t: real, m: real)
    requires m > 0.0 && 0.0 <= t <= m
    ensures 0.0 <= t / m <= 1.0
  {
  }
}
