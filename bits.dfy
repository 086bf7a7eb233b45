/** Python's integer bit operators on unbounded two's-complement integers,
    and the byte values that a `bytearray` holds.

    Dafny's `/` and `%` with a positive divisor round toward negative infinity,
    which is exactly Python's `//`, `%` and `>>` on negative numbers too. */
module Bits {

  /** An element of a Python `bytearray`. */
  type byte = x: int | 0 <= x < 256

  function Abs(x: int): nat { if x < 0 then -x else x }

  function Pow2(k: nat): (r: nat)
    ensures r >= 1
  {
    if k == 0 then 1 else 2 * Pow2(k - 1)
  }

  /** The powers the driver's shifts use. */
  lemma Pow2Values()
    ensures Pow2(2) == 4 && Pow2(4) == 16 && Pow2(5) == 32 && Pow2(8) == 256
    ensures Pow2(12) == 4096 && Pow2(16) == 65536
  {
  }

  /** Python `a << k`. Shifting back right undoes it: no bit is lost. */
  function Shl(a: int, k: nat): (r: int)
    ensures Shr(r, k) == a
  {
    DivModUnique(a * Pow2(k), Pow2(k), a, 0);
    a * Pow2(k)
  }

  /** Python `a >> k`, an arithmetic shift: the largest `r` with
      `r << k <= a`, for negative `a` too. */
  function Shr(a: int, k: nat): (r: int)
    ensures r * Pow2(k) <= a < (r + 1) * Pow2(k)
  {
    a / Pow2(k)
  }

  /** True of the two integers whose infinite two's-complement bit strings
      are all zeros or all ones; every bitwise recursion ends there. */
  predicate IsSignWord(a: int) { a == 0 || a == -1 }

  /** Python `a | b`: bit 0 is the OR of the low bits, the rest is `(a >> 1) | (b >> 1)`. */
  function Or(a: int, b: int): (r: int)
    decreases Abs(a) + Abs(b)
  {
    if IsSignWord(a) && IsSignWord(b) then (if a == -1 || b == -1 then -1 else 0)
    else 2 * Or(a / 2, b / 2) + (if a % 2 == 1 || b % 2 == 1 then 1 else 0)
  }

  /** Python `a & b`, by the same recursion as `Or`. */
  function And(a: int, b: int): (r: int)
    decreases Abs(a) + Abs(b)
  {
    if IsSignWord(a) && IsSignWord(b) then (if a == -1 && b == -1 then -1 else 0)
    else 2 * And(a / 2, b / 2) + (if a % 2 == 1 && b % 2 == 1 then 1 else 0)
  }

  /** OR of two non-negative integers is at least each of them and at most
      their sum; OR with a negative integer is negative. */
  lemma {:induction false} OrBounds(a: int, b: int)
    ensures a >= 0 && b >= 0 ==> a <= Or(a, b) && b <= Or(a, b) && Or(a, b) <= a + b
    ensures a < 0 || b < 0 ==> Or(a, b) < 0
    decreases Abs(a) + Abs(b)
  {
    if !(IsSignWord(a) && IsSignWord(b)) {
      OrBounds(a / 2, b / 2);
    }
  }

  /** AND with a non-negative integer lies between zero and it: this is why a
      mask such as `x & 0x0F` gives a value in 0..15. */
  lemma {:induction false} AndBounds(a: int, b: int)
    ensures a >= 0 ==> 0 <= And(a, b) <= a
    ensures b >= 0 ==> 0 <= And(a, b) <= b
    decreases Abs(a) + Abs(b)
  {
    if !(IsSignWord(a) && IsSignWord(b)) {
      AndBounds(a / 2, b / 2);
    }
  }

  lemma {:induction false} OrZero(a: int)
    ensures Or(a, 0) == a
    decreases Abs(a)
  {
    if !IsSignWord(a) {
      OrZero(a / 2);
    }
  }

  lemma {:induction false} AndZero(a: int)
    ensures And(a, 0) == 0
    decreases Abs(a)
  {
    if !IsSignWord(a) {
      AndZero(a / 2);
    }
  }

  /** OR-ing a shifted value with something narrower than the shift adds the
      two: the bits do not overlap. This is how every `x << k | y` of the
      driver turns into arithmetic. */
  lemma {:induction false} OrDisjoint(a: int, k: nat, n: int)
    requires 0 <= n < Pow2(k)
    ensures Or(Shl(a, k), n) == Shl(a, k) + n
  {
    if k == 0 {
      OrZero(a);
    } else {
      var m := Shl(a, k - 1);
      assert Shl(a, k) == 2 * m;
      if !(IsSignWord(2 * m) && IsSignWord(n)) {
        assert (2 * m) / 2 == m && (2 * m) % 2 == 0;
        OrDisjoint(a, k - 1, n / 2);
      }
    }
  }

  lemma DivModUnique(a: int, m: int, q: int, r: int)
    requires m > 0 && 0 <= r < m && a == m * q + r
    ensures a / m == q && a % m == r
  {
    var d := q - a / m;
    assert m * d == a % m - r;
    MulBounds(m, d);
  }

  /** A nonzero multiple of `m` is at least `m` away from zero. */
  lemma MulBounds(m: int, d: int)
    requires m > 0
    ensures d >= 1 ==> m * d >= m
    ensures d <= -1 ==> m * d <= -m
  {
  }

  lemma ModDouble(a: int, p: int)
    requires p > 0
    ensures a % (2 * p) == 2 * ((a / 2) % p) + a % 2
  {
    var h := a / 2;
    assert a == 2 * h + a % 2;
    assert h == p * (h / p) + h % p;
    assert a == (2 * p) * (h / p) + (2 * (h % p) + a % 2);
    DivModUnique(a, 2 * p, h / p, 2 * (h % p) + a % 2);
  }

  /** Masking with `2^k - 1` keeps the low `k` bits: `a & (2^k - 1) == a mod 2^k`. */
  lemma {:induction false} AndLowMask(a: int, k: nat)
    ensures And(a, Pow2(k) - 1) == a % Pow2(k)
    decreases k
  {
    if k == 0 {
      AndZero(a);
    } else {
      var p := Pow2(k - 1);
      var mask := Pow2(k) - 1;
      assert mask / 2 == p - 1 && mask % 2 == 1 && !IsSignWord(mask);
      assert And(a, mask) == 2 * And(a / 2, p - 1) + a % 2;
      AndLowMask(a / 2, k - 1);
      ModDouble(a, p);
    }
  }
}
