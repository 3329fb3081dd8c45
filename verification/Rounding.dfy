/** Numeric helpers with the source languages' rounding rules, over exact numbers. */
module Rounding {

  const TWO32 := 0x1_0000_0000

  /** The signed integers of 32 bits. */
  type Int32 = t: int | -0x8000_0000 <= t < 0x8000_0000

  /** Rounding to the nearest integer with ties away from zero (C++ `std::round`, Go `math.Round`). */
  function Round(x: real): (n: int)
    ensures x - 0.5 <= n as real <= x + 0.5
  {
    if x >= 0.0 then (x + 0.5).Floor else -((0.5 - x).Floor)
  }

  /** Halves are rounded away from zero. */
  lemma RoundHalves(k: nat)
    ensures Round(k as real + 0.5) == k + 1 && Round(-(k as real) - 0.5) == 0 - k - 1
  {
  }

  lemma RoundMonotone(x: real, y: real)
    requires x <= y
    ensures Round(x) <= Round(y)
  {
  }

  function Abs(x: real): (r: real)
    ensures r >= 0.0 && (r == x || r == -x)
  {
    if x < 0.0 then -x else x
  }

  function Max(a: int, b: int): (m: int)
    ensures m >= a && m >= b && (m == a || m == b)
  {
    if a > b then a else b
  }

  function Min(a: int, b: int): (m: int)
    ensures m <= a && m <= b && (m == a || m == b)
  {
    if a < b then a else b
  }

  /** Integer division truncating toward zero (C++ and Go `/`). */
  function TruncDiv(a: int, b: int): int
    requires b != 0
  {
    if a >= 0 then (if b > 0 then a / b else -(a / -b))
    else if b > 0 then -(-a / b) else -a / -b
  }

  /** The remainder that goes with `TruncDiv` (C++ and Go `%`). */
  function TruncMod(a: int, b: int): int
    requires b != 0
  {
    a - TruncDiv(a, b) * b
  }

  /** Multiplication of reals, named so that a proof can hide it and reason linearly about products. */
  function Times(a: real, b: real): real
  {
    a * b
  }

  lemma TimesAdd(a: real, b: real, k: real)
    ensures Times(a + b, k) == Times(a, k) + Times(b, k)
    ensures Times(a - b, k) == Times(a, k) - Times(b, k)
    ensures Times(k, a + b) == Times(k, a) + Times(k, b)
    ensures Times(k, a - b) == Times(k, a) - Times(k, b)
  {
  }

  lemma TimesRegroup(a: real, b: real, c: real)
    ensures Times(a, Times(b, c)) == Times(Times(a, b), c)
    ensures Times(Times(a, b), c) == Times(Times(a, c), b)
    ensures Times(a, b) == Times(b, a)
  {
  }

  lemma TimesUnit(a: real)
    ensures Times(1.0, a) == a && Times(a, 1.0) == a && Times(0.0, a) == 0.0
    ensures Times(0.5, a) == a / 2.0 && Times(-0.5, a) == -(a / 2.0)
  {
  }

  lemma TimesBound(d: real, low: real, high: real, k: real)
    requires low <= d <= high && k >= 0.0
    ensures Times(low, k) <= Times(d, k) <= Times(high, k)
  {
  }

  lemma TimesNegate(a: real, d: real)
    ensures Times(a, -d) == -Times(a, d) && Times(-a, d) == -Times(a, d)
  {
  }

  lemma TimesQuotient(a: real, s: real)
    requires s > 0.0
    ensures Times(a / s, s) == a && (a >= 0.0 ==> a / s >= 0.0)
  {
  }

  lemma TimesCancel(k: real, s: real)
    requires s > 0.0 && Times(k, s) == s
    ensures k == 1.0
  {
  }
}
