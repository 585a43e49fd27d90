/**
  The numeric conversions the source takes from Go's `math` package, on
  exact reals, and the small facts about real multiplication and division
  the proofs lean on.
 */
module Numeric {

  /** `math.Ceil` followed by the conversion to `int`. */
  function Ceil(x: real): (c: int)
    ensures c as real - 1.0 < x <= c as real
  {
    var f := x.Floor;
    if f as real == x then f else f + 1
  }

  /** `math.Round`: to the nearest integer, halves away from zero. */
  function Round(x: real): (r: int)
    ensures x >= 0.0 ==> x - 0.5 < r as real <= x + 0.5
    ensures x < 0.0 ==> x - 0.5 <= r as real < x + 0.5
  {
    if x >= 0.0 then (x + 0.5).Floor else -((-x + 0.5).Floor)
  }

  /** `math.Abs`. */
  function Abs(x: real): (a: real)
    ensures a >= 0.0 && (a == x || a == -x)
  {
    if x < 0.0 then -x else x
  }

  function Min(a: real, b: real): (m: real)
    ensures m <= a && m <= b && (m == a || m == b)
  {
    if a < b then a else b
  }

  lemma MulLe(a: real, b: real, p: real)
    requires a <= b && p > 0.0
    ensures a * p <= b * p
  {}

  lemma MulLt(a: real, b: real, p: real)
    requires a < b && p > 0.0
    ensures a * p < b * p
  {}

  lemma DivMul(t: real, p: real)
    requires p > 0.0
    ensures (t / p) * p == t
  {}

  lemma DivNonneg(x: real, t: real)
    requires x >= 0.0 && t > 0.0
    ensures x / t >= 0.0
  {}

  lemma MulDiv(x: real, t: real)
    requires t != 0.0
    ensures (x * t) / t == x
  {}

  lemma DivLt(x: real, y: real, t: real)
    requires x < y && t > 0.0
    ensures x / t < y / t
  {}

  lemma DivLe(x: real, y: real, t: real)
    requires x <= y && t > 0.0
    ensures x / t <= y / t
  {}

  lemma DivAtMost(x: real, t: real)
    requires x >= 0.0 && t >= 1.0
    ensures x / t <= x
  {
    MulLe(1.0, t, x / t + 1.0);
  }
}
