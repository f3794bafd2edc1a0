/**
 * The two pieces of Python number semantics the map code relies on: `2 ** n`
 * for an integer exponent of either sign, and `int(x)` on a float, which
 * truncates toward zero. Floats are idealised as exact reals.
 */
module Numerics {

  /** `2 ** n`: an integer power for `n >= 0`, a fraction for negative `n`. */
  function Pow2(n: int): (r: real)
    ensures r > 0.0
    decreases if n < 0 then -n else n
  {
    if n == 0 then 1.0
    else if n > 0 then 2.0 * Pow2(n - 1)
    else Pow2(n + 1) / 2.0
  }

  /** One more in the exponent doubles the power, whatever the sign of the exponent. */
  lemma Pow2Succ(n: int)
    ensures Pow2(n + 1) == 2.0 * Pow2(n)
  {
    if n < 0 {
      assert Pow2(n) == Pow2(n + 1) / 2.0;
    }
  }

  /** `int(x)` for a float `x`: the integer part, rounding toward zero. */
  function Trunc(x: real): (r: int)
    ensures x >= 0.0 ==> r >= 0 && r as real <= x < r as real + 1.0
    ensures x < 0.0 ==> r <= 0 && r as real - 1.0 < x <= r as real
  {
    if x >= 0.0 then x.Floor else -((-x).Floor)
  }

  /** Truncation never reverses the order of two values. */
  lemma TruncMonotone(x: real, y: real)
    requires x <= y
    ensures Trunc(x) <= Trunc(y)
  {
  }

  /** `int(w / 2)` agrees with `w // 2` on a non-negative integer `w`. */
  lemma TruncHalf(w: int)
    requires w >= 0
    ensures Trunc(w as real / 2.0) == w / 2
  {
    var q := w / 2;
    assert w == 2 * q || w == 2 * q + 1;
    assert q as real <= w as real / 2.0 < q as real + 1.0;
  }
}
