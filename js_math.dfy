/** JavaScript's `Math.round` over exact reals: halves round up, which is
    `Floor(x + 0.5)`. Floating-point rounding error is not modelled. */
module JsMath {

  /** `Math.round`: the nearest integer, halves rounded up. */
  function Round(x: real): (n: int)
    ensures n as real - 0.5 <= x < n as real + 0.5
  {
    (x + 0.5).Floor
  }

  /** Rounding commutes with adding a whole number. */
  lemma RoundShift(x: real, k: int)
    ensures Round(x + k as real) == Round(x) + k
  {
    var n := Round(x);
    assert (n + k) as real - 0.5 <= x + k as real < (n + k) as real + 0.5;
    RoundUnique(x + k as real, n + k);
  }

  /** The nearest-integer bounds determine the rounded value. */
  lemma RoundUnique(x: real, n: int)
    requires n as real - 0.5 <= x < n as real + 0.5
    ensures Round(x) == n
  {
    var m := Round(x);
    assert m as real - 0.5 <= x < m as real + 0.5;
    assert (m - n) as real < 1.0 && (n - m) as real < 1.0;
  }

  /** Rounding is monotone. */
  lemma RoundMonotone(x: real, y: real)
    requires x <= y
    ensures Round(x) <= Round(y)
  {
    var m, n := Round(x), Round(y);
    assert m as real - 0.5 <= x <= y < n as real + 0.5;
    assert (m - n) as real < 1.0;
  }

  /** A value of at least -0.5 rounds to a non-negative integer. */
  lemma RoundNonNegative(x: real)
    requires -0.5 <= x
    ensures 0 <= Round(x)
  {
  }
}
