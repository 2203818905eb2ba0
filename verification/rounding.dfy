/**
 Real-number helpers for the scorer: absolute value, maximum, and
 rounding to two decimal places the way Python's `round(x, 2)` does it,
 to the nearest hundredth with ties going to the even neighbour. The
 source's numbers are binary floats; here they are exact reals, so the
 rounding is that of the exact value.
 */
module Rounding {

  function Abs(x: real): (r: real)
    ensures r >= 0.0
    ensures r == x || r == -x
  {
    if x < 0.0 then -x else x
  }

  function Max(a: real, b: real): (r: real)
    ensures r >= a && r >= b
    ensures r == a || r == b
  {
    if a < b then b else a
  }

  /** The integer nearest to `y`; of two equally near, the even one. */
  function RoundHalfEven(y: real): (n: int)
    ensures n as real - 0.5 <= y <= n as real + 0.5
    ensures Abs(y - n as real) == 0.5 ==> n % 2 == 0
  {
    var f := y.Floor;
    var frac := y - f as real;
    if frac < 0.5 then f
    else if frac > 0.5 then f + 1
    else if f % 2 == 0 then f
    else f + 1
  }

  /** Rounding to the nearest integer never reverses order. */
  lemma RoundHalfEvenMonotone(x: real, y: real)
    requires x <= y
    ensures RoundHalfEven(x) <= RoundHalfEven(y)
  {
  }

  /** An integer rounds to itself. */
  lemma RoundHalfEvenInt(n: int)
    ensures RoundHalfEven(n as real) == n
  {
  }

  /** `x` rounded to two decimal places. */
  function Round2(x: real): (r: real)
    ensures Abs(r - x) <= 0.005
    ensures (100.0 * r).Floor as real == 100.0 * r
    ensures Abs(100.0 * x - 100.0 * r) == 0.5 ==> (100.0 * r).Floor % 2 == 0
  {
    RoundHalfEven(100.0 * x) as real / 100.0
  }

  /** Rounding to hundredths never reverses order. */
  lemma Round2Monotone(x: real, y: real)
    requires x <= y
    ensures Round2(x) <= Round2(y)
  {
    RoundHalfEvenMonotone(100.0 * x, 100.0 * y);
  }

  /** A number with at most two decimals is left as it is; in particular
      every integer is. */
  lemma Round2Hundredths(k: int)
    ensures Round2(k as real / 100.0) == k as real / 100.0
  {
    assert 100.0 * (k as real / 100.0) == k as real;
    RoundHalfEvenInt(k);
  }

  lemma Round2Int(n: int)
    ensures Round2(n as real) == n as real
  {
    assert n as real == (100 * n) as real / 100.0;
    Round2Hundredths(100 * n);
  }

  /** Ties go to the even hundredth, as in Python. */
  lemma Round2Examples()
    ensures Round2(0.125) == 0.12
    ensures Round2(0.375) == 0.38
    ensures Round2(97.6) == 97.6
    ensures Round2(2.0 / 3.0) == 0.67
  {
  }
}
