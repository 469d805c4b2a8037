/** Rounding of discounts to two decimal places, as `toFixed(2)` does it on
    the decimal value of a number: the magnitude goes to the nearest
    hundredth, a tie goes away from zero. */
module Decimal {

  /** x is a whole number of hundredths. */
  predicate HasTwoDecimals(x: real) {
    x * 100.0 == (x * 100.0).Floor as real
  }

  /** The number of hundredths `x.toFixed(2)` writes for a non-negative x. */
  function HundredthsOf(x: real): (n: int)
    requires x >= 0.0
    ensures n >= 0
    ensures (n as real) - 0.5 <= x * 100.0 < (n as real) + 0.5
  {
    (x * 100.0 + 0.5).Floor
  }

  /** `parseFloat(x.toFixed(2))`: the sign is set aside, the magnitude is
      rounded, the sign is put back. */
  function Round2(x: real): (r: real)
    ensures HasTwoDecimals(r)
    ensures -0.005 <= r - x <= 0.005
    ensures x >= 0.0 ==> r >= 0.0
    ensures x <= 0.0 ==> r <= 0.0
  {
    if x >= 0.0 then
      var n := HundredthsOf(x);
      HundredthsScaled(n);
      n as real / 100.0
    else
      var n := HundredthsOf(-x);
      HundredthsScaled(-n);
      -(n as real / 100.0)
  }

  lemma HundredthsScaled(n: int)
    ensures (n as real / 100.0) * 100.0 == n as real
    ensures HasTwoDecimals(n as real / 100.0)
  {
  }

  /** A number that already has two decimals is stored as it is. */
  lemma Round2KeepsTwoDecimals(x: real)
    requires HasTwoDecimals(x)
    ensures Round2(x) == x
  {
    var k := (x * 100.0).Floor;
    if x >= 0.0 {
      assert x * 100.0 + 0.5 == k as real + 0.5;
      assert HundredthsOf(x) == k;
    } else {
      assert -x * 100.0 == (-k) as real;
      assert -x * 100.0 + 0.5 == (-k) as real + 0.5;
      assert HundredthsOf(-x) == -k;
    }
  }

  /** Rounding twice is rounding once. */
  lemma Round2Idempotent(x: real)
    ensures Round2(Round2(x)) == Round2(x)
  {
    Round2KeepsTwoDecimals(Round2(x));
  }

  /** No number with two decimals is strictly closer to x than Round2(x). */
  lemma Round2IsNearest(x: real, y: real)
    requires HasTwoDecimals(y)
    ensures Abs(Round2(x) - x) <= Abs(y - x)
  {
    var r := Round2(x);
    var n := (r * 100.0).Floor;
    var m := (y * 100.0).Floor;
    assert r * 100.0 == n as real;
    assert y * 100.0 == m as real;
    assert Abs(n as real - x * 100.0) <= 0.5;
    if m != n {
      // two distinct whole numbers of hundredths are a hundredth apart
      assert Abs(m as real - n as real) >= 1.0;
      assert Abs(m as real - x * 100.0) >= 0.5;
    }
    assert Abs(r - x) * 100.0 == Abs(n as real - x * 100.0);
    assert Abs(y - x) * 100.0 == Abs(m as real - x * 100.0);
  }

  function Abs(x: real): real {
    if x < 0.0 then -x else x
  }
}
