/**
 * Conversions from real numbers to integers used by the nodes: C's
 * `static_cast<int32_t>` and Python's `int()` both truncate toward zero.
 */
module RealMath {
  /** Truncation toward zero. */
  function Trunc(x: real): (n: int)
    ensures x >= 0.0 ==> 0 <= n && n as real <= x < n as real + 1.0
    ensures x < 0.0 ==> n <= 0 && n as real - 1.0 < x <= n as real
  {
    if x >= 0.0 then x.Floor else -((-x).Floor)
  }

  /** An integer-valued real truncates to that integer. */
  lemma TruncOfInt(n: int)
    ensures Trunc(n as real) == n
  {
  }

  /** Truncation keeps a value inside any integer interval around it. */
  lemma TruncWithin(x: real, lo: int, hi: int)
    requires lo as real <= x <= hi as real
    ensures lo <= Trunc(x) <= hi
  {
  }

  function Abs(x: real): real
  {
    if x < 0.0 then -x else x
  }
}
