/** Python's `round(x, n)` on floats, taken as exact reals: round to the nearest multiple
    of 10^-n, ties to the even multiple. */
module Rounding {

  /** The nearest integer to `y`; of two equally near, the even one. */
  function RoundHalfEven(y: real): (k: int)
    ensures -0.5 <= k as real - y <= 0.5
    ensures (k as real - y == 0.5 || y - k as real == 0.5) ==> k % 2 == 0
  {
    var n := y.Floor;
    var frac := y - n as real;
    if frac < 0.5 then n
    else if frac > 0.5 then n + 1
    else if n % 2 == 0 then n
    else n + 1
  }

  /** `round(x, 1)`. */
  function Round1(x: real): (r: real)
    ensures -0.05 <= r - x <= 0.05
  {
    RoundHalfEven(x * 10.0) as real / 10.0
  }

  /** `round(x, 2)`. */
  function Round2(x: real): (r: real)
    ensures -0.005 <= r - x <= 0.005
  {
    RoundHalfEven(x * 100.0) as real / 100.0
  }

  /** `round(x, 2)` is positive, negative or zero exactly as `x` lies above, below or
      within half a hundredth of zero (a tie at +-0.005 rounds to the even 0). */
  lemma Round2Sign(x: real)
    ensures Round2(x) > 0.0 <==> x > 0.005
    ensures Round2(x) < 0.0 <==> x < -0.005
    ensures Round2(x) == 0.0 <==> -0.005 <= x <= 0.005
  {
    var k := RoundHalfEven(x * 100.0);
    assert Round2(x) == k as real / 100.0;
    if x * 100.0 == 0.5 {
      assert k == 0 || k == 1;
      assert k == 0;
    } else if x * 100.0 == -0.5 {
      assert k == 0 || k == -1;
      assert k == 0;
    }
  }

  /** Rounding a whole number, or zero, gives it back. */
  lemma RoundWhole(n: int)
    ensures Round1(n as real) == n as real
    ensures Round2(n as real) == n as real
  {
    assert RoundHalfEven(n as real * 10.0) == n * 10;
    assert RoundHalfEven(n as real * 100.0) == n * 100;
  }
}
