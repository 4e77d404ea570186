/**
 * The arithmetic the frame loop relies on, stated over exact reals:
 * Python's int() applied to a float, and numpy's piecewise-linear interp
 * with a single segment.
 */
module Numeric {

  function Min(a: real, b: real): real { if a <= b then a else b }

  function Max(a: real, b: real): real { if a <= b then b else a }

  /** Python's int() on a float: truncation toward zero. */
  function Trunc(x: real): (n: int)
    ensures 0.0 <= x ==> n as real <= x < n as real + 1.0
    ensures x < 0.0 ==> n as real - 1.0 < x <= n as real
  {
    if 0.0 <= x then x.Floor else -((-x).Floor)
  }

  lemma TruncOfInteger(n: int)
    ensures Trunc(n as real) == n
  {
  }

  /** A value between two integers truncates to a value between them. */
  lemma TruncBetween(v: real, lo: int, hi: int)
    requires lo as real <= v <= hi as real
    ensures lo <= Trunc(v) <= hi
  {
  }

  /** A non-negative value truncates to k exactly when it lies in [k, k + 1). */
  lemma TruncOfNonNegative(v: real, k: int)
    requires 0.0 <= v && k as real <= v < k as real + 1.0
    ensures Trunc(v) == k
  {
  }

  /** A fraction x in [0, 1] of a non-negative c lies in [0, c]. */
  lemma UnitScale(x: real, c: real)
    requires 0.0 <= x <= 1.0 && 0.0 <= c
    ensures 0.0 <= x * c <= c
  {
    MulNonNegative(x, c);
    MulNonNegative(1.0 - x, c);
    assert (1.0 - x) * c == c - x * c;
  }

  lemma TruncMonotone(u: real, v: real)
    requires u <= v
    ensures Trunc(u) <= Trunc(v)
  {
  }

  /**
   * np.interp(x, [x0, x1], [y0, y1]): y0 at and below x0, y1 at and above x1,
   * and in between the line through (x0, y0) and (x1, y1). The target range
   * may be decreasing (y1 < y0).
   */
  function Interp(x: real, x0: real, x1: real, y0: real, y1: real): (y: real)
    requires x0 < x1
    ensures Min(y0, y1) <= y <= Max(y0, y1)
    ensures x <= x0 ==> y == y0
    ensures x1 <= x ==> y == y1
  {
    if x <= x0 then y0
    else if x1 <= x then y1
    else
      var t := (x - x0) / (x1 - x0);
      FractionBounds(x - x0, x1 - x0);
      ScaledStepBetween(t, y0, y1);
      t * (y1 - y0) + y0
  }

  /** A part a of a whole d, as a fraction of d, lies in [0, 1]. */
  lemma FractionBounds(a: real, d: real)
    requires 0.0 <= a <= d && 0.0 < d
    ensures 0.0 <= a / d <= 1.0
  {
    DivMonotone(0.0, a, d);
    DivMonotone(a, d, d);
    DivSelf(d);
  }

  lemma DivSelf(d: real)
    requires d != 0.0
    ensures d / d == 1.0
  {
  }

  lemma PositiveFactor(u: real, d: real)
    requires 0.0 < d && 0.0 < u * d
    ensures 0.0 < u
  {
  }

  lemma MulNonNegative(a: real, b: real)
    requires 0.0 <= a && 0.0 <= b
    ensures 0.0 <= a * b
  {
  }

  lemma DivMonotone(a: real, b: real, d: real)
    requires 0.0 < d && a <= b
    ensures a / d <= b / d
  {
    assert b / d - a / d == (b - a) / d;
  }

  /** A point a fraction t of the way from a to b lies between them. */
  lemma ScaledStepBetween(t: real, a: real, b: real)
    requires 0.0 <= t <= 1.0
    ensures Min(a, b) <= t * (b - a) + a <= Max(a, b)
  {
    if a <= b {
      MulNonNegative(t, b - a);
      MulNonNegative(1.0 - t, b - a);
      assert (1.0 - t) * (b - a) == (b - a) - t * (b - a);
    } else {
      MulNonNegative(t, a - b);
      MulNonNegative(1.0 - t, a - b);
      assert (1.0 - t) * (a - b) == (a - b) - t * (a - b);
      assert t * (a - b) == -(t * (b - a));
    }
  }

  /** Moving further along from a towards b never moves away from b. */
  lemma StepMonotone(t1: real, t2: real, a: real, b: real)
    requires t1 <= t2
    ensures a <= b ==> t1 * (b - a) + a <= t2 * (b - a) + a
    ensures b <= a ==> t2 * (b - a) + a <= t1 * (b - a) + a
  {
    if a <= b {
      MulNonNegative(t2 - t1, b - a);
      assert (t2 - t1) * (b - a) == t2 * (b - a) - t1 * (b - a);
    } else {
      MulNonNegative(t2 - t1, a - b);
      assert (t2 - t1) * (a - b) == t1 * (b - a) - t2 * (b - a);
    }
  }

  /** Truncating a step from a towards b keeps the monotonicity of the step. */
  lemma TruncStepMonotone(t1: real, t2: real, a: real, b: real)
    requires t1 <= t2
    ensures a <= b ==> Trunc(t1 * (b - a) + a) <= Trunc(t2 * (b - a) + a)
    ensures b <= a ==> Trunc(t2 * (b - a) + a) <= Trunc(t1 * (b - a) + a)
  {
    StepMonotone(t1, t2, a, b);
    if a <= b {
      TruncMonotone(t1 * (b - a) + a, t2 * (b - a) + a);
    } else {
      TruncMonotone(t2 * (b - a) + a, t1 * (b - a) + a);
    }
  }

  /** Interp is non-decreasing for an increasing target and non-increasing for a decreasing one. */
  lemma InterpMonotone(xa: real, xb: real, x0: real, x1: real, y0: real, y1: real)
    requires x0 < x1 && xa <= xb
    ensures y0 <= y1 ==> Interp(xa, x0, x1, y0, y1) <= Interp(xb, x0, x1, y0, y1)
    ensures y1 <= y0 ==> Interp(xb, x0, x1, y0, y1) <= Interp(xa, x0, x1, y0, y1)
  {
    var ca := Clamp(xa, x0, x1);
    var cb := Clamp(xb, x0, x1);
    InterpOfClamp(xa, x0, x1, y0, y1);
    InterpOfClamp(xb, x0, x1, y0, y1);
    var ta := (ca - x0) / (x1 - x0);
    var tb := (cb - x0) / (x1 - x0);
    DivMonotone(ca - x0, cb - x0, x1 - x0);
    StepMonotone(ta, tb, y0, y1);
  }

  function Clamp(x: real, lo: real, hi: real): real
  {
    if x <= lo then lo else if hi <= x then hi else x
  }

  /** Outside the source range Interp takes the value at the nearer end point. */
  lemma InterpOfClamp(x: real, x0: real, x1: real, y0: real, y1: real)
    requires x0 < x1
    ensures Interp(x, x0, x1, y0, y1)
         == (Clamp(x, x0, x1) - x0) / (x1 - x0) * (y1 - y0) + y0
  {
    if x <= x0 {
      assert Clamp(x, x0, x1) - x0 == 0.0;
    } else if x1 <= x {
      assert Clamp(x, x0, x1) == x1;
      DivSelf(x1 - x0);
    }
  }

  /**
   * Mapping into an affinely transformed target range is the same as
   * transforming the mapped value: this is what ties the three mappings of
   * the frame loop together.
   */
  lemma InterpAffine(x: real, x0: real, x1: real, y0: real, y1: real, a: real, b: real)
    requires x0 < x1
    ensures Interp(x, x0, x1, a + b * y0, a + b * y1) == a + b * Interp(x, x0, x1, y0, y1)
  {
    InterpOfClamp(x, x0, x1, y0, y1);
    InterpOfClamp(x, x0, x1, a + b * y0, a + b * y1);
    var t := (Clamp(x, x0, x1) - x0) / (x1 - x0);
    assert t * ((a + b * y1) - (a + b * y0)) == b * (t * (y1 - y0));
  }
}
