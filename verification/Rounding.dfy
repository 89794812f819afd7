/** Decimal rounding of prices.
    Amounts are exact reals. Python's `round(x, n)` is nearest, ties to even, on
    a grid of 10^-n; that is what the functions below compute. */
module Rounding {
  function RoundEven(y: real): (k: int) {
    var f := y.Floor;
    var d := y - f as real;
    if d < 0.5 then f
    else if d > 0.5 then f + 1
    else if f % 2 == 0 then f
    else f + 1
  }

  function Round2(x: real): real { RoundEven(x * 100.0) as real / 100.0 }

  function Round3(x: real): real { RoundEven(x * 1000.0) as real / 1000.0 }

  function Round4(x: real): real { RoundEven(x * 10000.0) as real / 10000.0 }

  /** x is a whole number of cents. */
  predicate OnCentGrid(x: real) { x == Round2(x) }

  const HALF_CENT: real := 0.005

  lemma {:induction false} RoundEvenNear(y: real)
    ensures -0.5 <= RoundEven(y) as real - y <= 0.5
  {
  }

  lemma {:induction false} RoundEvenMonotone(x: real, y: real)
    requires x <= y
    ensures RoundEven(x) <= RoundEven(y)
  {
    var fx, fy := x.Floor, y.Floor;
    assert fx < fy + 1;
  }

  /** Ties-to-even is symmetric about every integer. */
  lemma {:induction false} RoundEvenReflect(k: int, y: real)
    ensures RoundEven(2.0 * k as real - y) == 2 * k - RoundEven(y)
  {
    var z := 2.0 * k as real - y;
    var f := y.Floor;
    var d := y - f as real;
    if d == 0.0 {
      assert z == (2 * k - f) as real;
      assert z.Floor == 2 * k - f;
    } else {
      assert (2 * k - f - 1) as real < z < (2 * k - f) as real;
      assert z.Floor == 2 * k - f - 1;
      assert z - z.Floor as real == 1.0 - d;
    }
  }

  lemma {:induction false} Round2Near(x: real)
    ensures -HALF_CENT <= Round2(x) - x <= HALF_CENT
  {
    RoundEvenNear(x * 100.0);
  }

  lemma {:induction false} Round4Near(x: real)
    ensures -0.00005 <= Round4(x) - x <= 0.00005
  {
    RoundEvenNear(x * 10000.0);
  }

  lemma {:induction false} Round2Monotone(x: real, y: real)
    requires x <= y
    ensures Round2(x) <= Round2(y)
  {
    RoundEvenMonotone(x * 100.0, y * 100.0);
  }

  /** Amounts more than a cent apart stay strictly apart. */
  lemma {:induction false} Round2Strict(x: real, y: real)
    requires x + 0.01 < y
    ensures Round2(x) < Round2(y)
  {
    Round2Near(x);
    Round2Near(y);
  }

  /** Reflection about a whole-cent price commutes with rounding to cents and to
      hundredths of a cent. */
  lemma {:induction false} RoundReflect(e: real, x: real)
    requires OnCentGrid(e)
    ensures Round2(2.0 * e - x) == 2.0 * e - Round2(x)
    ensures Round4(2.0 * e - x) == 2.0 * e - Round4(x)
  {
    var k := RoundEven(e * 100.0);
    assert e * 100.0 == k as real;
    assert (2.0 * e - x) * 100.0 == 2.0 * k as real - x * 100.0;
    RoundEvenReflect(k, x * 100.0);
    assert (2.0 * e - x) * 10000.0 == 2.0 * (100 * k) as real - x * 10000.0;
    RoundEvenReflect(100 * k, x * 10000.0);
  }
}
