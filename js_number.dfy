/**
 * The two JavaScript roundings the planner applies, over exact reals:
 * `Math.round(x)` and the value denoted by `x.toFixed(1)`.
 */
module JsNumber {

  /** `Math.round(x)`: the nearest integer, halves rounded towards +infinity. */
  function Round(x: real): (n: int)
    ensures n as real - 0.5 <= x < n as real + 0.5
  {
    (x + 0.5).Floor
  }

  /**
   * The number of tenths in `x.toFixed(1)`: the nearest integer to 10x,
   * halves rounded away from zero (toFixed works on the magnitude and
   * re-attaches the sign).
   */
  function Tenths(x: real): (n: int)
    ensures x >= 0.0 ==> n >= 0 && n as real - 0.5 <= 10.0 * x < n as real + 0.5
    ensures x < 0.0 ==> n <= 0 && n as real - 0.5 < 10.0 * x <= n as real + 0.5
  {
    if x >= 0.0 then (10.0 * x + 0.5).Floor else -((-10.0 * x + 0.5).Floor)
  }

  /** The value of `x.toFixed(1)` (the string read back as a number). */
  function ToFixed1(x: real): (r: real)
    ensures -0.05 <= r - x <= 0.05
    ensures x >= 0.0 ==> r >= 0.0
    ensures x <= 0.0 ==> r <= 0.0
  {
    Tenths(x) as real / 10.0
  }

  /** Rounding to tenths never reverses the order of two numbers. */
  lemma ToFixed1Monotone(x: real, y: real)
    requires x <= y
    ensures ToFixed1(x) <= ToFixed1(y)
  {
    var a, b := Tenths(x), Tenths(y);
    if x >= 0.0 || y < 0.0 {
      // on one side of zero, both roundings are floors of the same increasing expression
      assert a <= b;
    }
  }

  /** A number that already has at most one decimal is printed unchanged. */
  lemma ToFixed1OfTenths(n: int)
    ensures ToFixed1(n as real / 10.0) == n as real / 10.0
  {
    var x := n as real / 10.0;
    assert 10.0 * x == n as real;
    var t := Tenths(x);
    assert n as real - 0.5 <= t as real <= n as real + 0.5;
    if x >= 0.0 {
      assert t as real - 0.5 <= n as real < t as real + 0.5;
    } else {
      assert t as real - 0.5 < n as real <= t as real + 0.5;
    }
    assert t == n;
  }
}
