/**
 * Java's 32-bit int operators on mathematical integers.
 *
 * A Java int is read as the infinite two's-complement bit string of its
 * value (sign-extended to the left).  On that reading `&`, `|`, `^` and `~`
 * of two 32-bit operands give exactly the 32-bit results Java computes, and
 * `x >> n` is rounding towards minus infinity, which is Dafny's `/` by a
 * positive divisor.  The operators are defined one bit at a time, from the
 * least significant bit upwards.
 */
module Bits {

  function Abs(x: int): nat { if x < 0 then -x else x }

  function Pow2(n: nat): (p: nat)
    ensures p >= 1
  {
    if n == 0 then 1 else 2 * Pow2(n - 1)
  }

  /** The powers of two the machine's widths use. */
  lemma Pow2Values()
    ensures Pow2(4) == 16 && Pow2(20) == 0x10_0000
    ensures Pow2(23) == 0x80_0000 && Pow2(24) == 0x100_0000
  {
    assert Pow2(1) == 2;
    assert Pow2(2) == 4;
    assert Pow2(3) == 8;
    assert Pow2(4) == 16;
    assert Pow2(5) == 32;
    assert Pow2(6) == 64;
    assert Pow2(7) == 128;
    assert Pow2(8) == 256;
    assert Pow2(9) == 512;
    assert Pow2(10) == 1024;
    assert Pow2(11) == 2048;
    assert Pow2(12) == 4096;
    assert Pow2(13) == 8192;
    assert Pow2(14) == 16384;
    assert Pow2(15) == 32768;
    assert Pow2(16) == 65536;
    assert Pow2(17) == 131072;
    assert Pow2(18) == 262144;
    assert Pow2(19) == 524288;
    assert Pow2(20) == 1048576;
    assert Pow2(21) == 2097152;
    assert Pow2(22) == 4194304;
    assert Pow2(23) == 8388608;
  }

  /** 0 and -1 are the bit strings made of one repeated sign bit. */
  predicate IsSignOnly(x: int) { x == 0 || x == -1 }

  /** Java `a & b`. */
  function And(a: int, b: int): int
    decreases Abs(a) + Abs(b)
  {
    if IsSignOnly(a) && IsSignOnly(b) then (if a == -1 && b == -1 then -1 else 0)
    else 2 * And(a / 2, b / 2) + (if a % 2 == 1 && b % 2 == 1 then 1 else 0)
  }

  /** Java `a | b`. */
  function Or(a: int, b: int): int
    decreases Abs(a) + Abs(b)
  {
    if IsSignOnly(a) && IsSignOnly(b) then (if a == -1 || b == -1 then -1 else 0)
    else 2 * Or(a / 2, b / 2) + (if a % 2 == 1 || b % 2 == 1 then 1 else 0)
  }

  /** Java `a ^ b`. */
  function Xor(a: int, b: int): int
    decreases Abs(a) + Abs(b)
  {
    if IsSignOnly(a) && IsSignOnly(b) then (if a == b then 0 else -1)
    else 2 * Xor(a / 2, b / 2) + (if a % 2 != b % 2 then 1 else 0)
  }

  /** Java `~a`: every bit flipped. */
  function Not(a: int): int
  {
    -a - 1
  }

  /** Java `a >> n` (arithmetic: the sign is shifted in). */
  function ShiftRight(a: int, n: nat): int
  {
    a / Pow2(n)
  }

  /** Java `a << n`, for results that stay within 32 bits. */
  function ShiftLeft(a: int, n: nat): int
  {
    a * Pow2(n)
  }

  // ---------------------------------------------------------------- division

  lemma DivModUnique(a: int, d: int, q: int, r: int)
    requires d > 0 && 0 <= r < d && a == d * q + r
    ensures a / d == q && a % d == r
  {
    var q', r' := a / d, a % d;
    assert d * q' + r' == d * q + r;
    assert d * (q - q') == r' - r;
    if q' < q {
      MulAtLeast(d, q - q');
    } else if q' > q {
      MulAtLeast(d, q' - q);
    }
  }

  lemma {:induction false} MulAtLeast(d: int, t: int)
    requires d > 0 && t >= 1
    ensures d * t >= d
    decreases t
  {
    if t > 1 {
      MulAtLeast(d, t - 1);
      assert d * t == d * (t - 1) + d;
    }
  }

  /** Dividing by 2d is halving, then dividing by d; the remainders combine. */
  lemma HalveThenDivide(a: int, d: int)
    requires d > 0
    ensures a / (2 * d) == (a / 2) / d
    ensures a % (2 * d) == 2 * ((a / 2) % d) + a % 2
  {
    var q1, r1 := a / 2, a % 2;
    var q2, r2 := q1 / d, q1 % d;
    assert a == 2 * d * q2 + (2 * r2 + r1);
    DivModUnique(a, 2 * d, q2, 2 * r2 + r1);
  }

  lemma Pow2Halves(k: nat)
    requires k >= 1
    ensures Pow2(k) == 2 * Pow2(k - 1)
    ensures (Pow2(k) - 1) / 2 == Pow2(k - 1) - 1 && (Pow2(k) - 1) % 2 == 1
  {
    DivModUnique(Pow2(k) - 1, 2, Pow2(k - 1) - 1, 1);
  }

  /** Adding a multiple of the divisor does not change the remainder. */
  lemma ModShift(z: int, d: int, m: int)
    requires d > 0
    ensures (z + m * d) % d == z % d
  {
    DivModUnique(z + m * d, d, z / d + m, z % d);
  }

  // ------------------------------------------------------------------- and

  lemma {:induction false} AndZero(a: int)
    ensures And(a, 0) == 0
    decreases Abs(a)
  {
    if !IsSignOnly(a) {
      AndZero(a / 2);
    }
  }

  /** -1 has every bit set: and-ing with it changes nothing. */
  lemma {:induction false} AndAllOnes(b: int)
    ensures And(-1, b) == b
    decreases Abs(b)
  {
    if !IsSignOnly(b) {
      AndAllOnes(b / 2);
    }
  }

  /** Masking with 2^k - 1 keeps the k low bits: the Euclidean remainder. */
  lemma {:induction false} AndLowMask(a: int, k: nat)
    ensures And(a, Pow2(k) - 1) == a % Pow2(k)
    decreases k
  {
    if k == 0 {
      AndZero(a);
    } else {
      Pow2Halves(k);
      AndLowMask(a / 2, k - 1);
      HalveThenDivide(a, Pow2(k - 1));
    }
  }

  /** Masking with m * 2^k selects the bits of m, shifted up by k. */
  lemma {:induction false} AndShiftedMask(a: int, m: nat, k: nat)
    ensures And(a, m * Pow2(k)) == And(a / Pow2(k), m) * Pow2(k)
    decreases k
  {
    if k == 0 {
    } else if m == 0 {
      AndZero(a);
      AndZero(a / Pow2(k));
    } else {
      var p := Pow2(k - 1);
      Pow2Halves(k);
      EvenMultiple(m, p);
      AndEvenMask(a, 2 * (m * p));
      AndShiftedMask(a / 2, m, k - 1);
      HalveThenDivide(a, p);
      Regroup(And((a / 2) / p, m), p);
    }
  }

  lemma EvenMultiple(m: nat, p: nat)
    requires m >= 1 && p >= 1
    ensures m * (2 * p) == 2 * (m * p) && m * p >= 1
  {
    MulAtLeast(m, p);
  }

  lemma Regroup(x: int, p: int)
    ensures 2 * (x * p) == x * (2 * p)
  {
  }

  /** A mask with a clear low bit clears the low bit of the result. */
  lemma AndEvenMask(a: int, b: int)
    requires b >= 2 && b % 2 == 0
    ensures And(a, b) == 2 * And(a / 2, b / 2)
  {
  }

  // -------------------------------------------------------------------- or

  lemma {:induction false} OrZero(a: int)
    ensures Or(a, 0) == a
    decreases Abs(a)
  {
    if !IsSignOnly(a) {
      OrZero(a / 2);
    }
  }

  lemma {:induction false} OrCommutes(a: int, b: int)
    ensures Or(a, b) == Or(b, a)
    decreases Abs(a) + Abs(b)
  {
    if !(IsSignOnly(a) && IsSignOnly(b)) {
      OrCommutes(a / 2, b / 2);
    }
  }

  /** Or-ing a value into zero low bits is addition. */
  lemma {:induction false} OrDisjoint(high: int, b: int, k: nat)
    requires 0 <= b < Pow2(k)
    ensures Or(high * Pow2(k), b) == high * Pow2(k) + b
    decreases k
  {
    if k == 0 {
      OrZero(high);
    } else {
      Pow2Halves(k);
      var H := high * Pow2(k);
      assert H == 2 * (high * Pow2(k - 1));
      DivModUnique(H, 2, high * Pow2(k - 1), 0);
      if IsSignOnly(H) && IsSignOnly(b) {
        assert H == 0 && b == 0;
      } else {
        OrDisjoint(high, b / 2, k - 1);
      }
    }
  }
}
