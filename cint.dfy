/**
 * The C integer semantics both drivers rely on: 32-bit two's-complement return
 * codes, the `ret |= ...` accumulation of bus errors, truncating stores into
 * narrower fields, and the Linux error numbers they return (negated).
 */
module CInt {

  type Int32 = x: int | -0x8000_0000 <= x < 0x8000_0000
  type U32 = x: int | 0 <= x < 0x1_0000_0000
  type U16 = x: int | 0 <= x < 0x1_0000
  type Byte = x: int | 0 <= x < 0x100

  const EINTR: Int32 := 4
  const EBUSY: Int32 := 16
  const EINVAL: Int32 := 22
  const ETIMEDOUT: Int32 := 110

  function Abs(x: int): nat { if x < 0 then -x else x }

  function Pow2(n: nat): (r: int)
    ensures r >= 1
  {
    if n == 0 then 1 else 2 * Pow2(n - 1)
  }

  lemma Pow2Values()
    ensures Pow2(5) == 32 && Pow2(6) == 64 && Pow2(8) == 256 && Pow2(10) == 1024
    ensures Pow2(11) == 2048 && Pow2(16) == 0x1_0000
    ensures Pow2(31) == 0x8000_0000 && Pow2(32) == 0x1_0000_0000
  {
    assert Pow2(4) == 16;
    assert Pow2(8) == 256;
    assert Pow2(10) == 1024;
    assert Pow2(12) == 4096;
    assert Pow2(16) == 0x1_0000;
    assert Pow2(20) == 0x10_0000;
    assert Pow2(24) == 0x100_0000;
    assert Pow2(28) == 0x1000_0000;
  }

  /**
   * Bitwise OR of two integers in two's complement, bit by bit from the low
   * end (Dafny's `/ 2` and `% 2` floor, so a negative number keeps its
   * infinite run of high one-bits).  This is what `ret |= rc` computes.
   */
  function Or(a: int, b: int): (r: int)
    ensures r == 0 <==> a == 0 && b == 0
    ensures a < 0 || b < 0 ==> r < 0
    ensures a == 0 ==> r == b
    ensures b == 0 ==> r == a
    decreases Abs(a) + Abs(b), 2
  {
    if a == 0 then b
    else if b == 0 then a
    else if a == -1 || b == -1 then -1
    else OrStep(a, b)
  }

  /** The lowest bit of the OR above the OR of the remaining bits. */
  function OrStep(a: int, b: int): int
    requires a != 0 && b != 0 && a != -1 && b != -1
    decreases Abs(a) + Abs(b), 1
  {
    2 * Or(a / 2, b / 2) + (if a % 2 == 1 || b % 2 == 1 then 1 else 0)
  }

  /** OR never sets a bit above the operands' width. */
  lemma {:induction false} OrWithin(a: int, b: int, n: nat)
    requires -Pow2(n) <= a < Pow2(n) && -Pow2(n) <= b < Pow2(n)
    ensures -Pow2(n) <= Or(a, b) < Pow2(n)
    decreases n
  {
    if a == 0 || b == 0 || a == -1 || b == -1 {
    } else {
      OrWithin(a / 2, b / 2, n - 1);
    }
  }

  /**
   * OR-ing a value whose set bits all lie below bit n into a multiple of 2^n
   * adds it: the two sets of bits are disjoint.  This is how a high byte and
   * a low byte are joined with `|`.
   */
  lemma {:induction false} OrLowBits(a: nat, lo: int, n: nat)
    requires 0 <= lo < Pow2(n)
    ensures Or(a * Pow2(n), lo) == a * Pow2(n) + lo
    decreases n
  {
    if a == 0 || lo == 0 {
    } else {
      var m := a * Pow2(n - 1);
      assert m >= 1 by { MulPos(a, Pow2(n - 1)); }
      assert a * Pow2(n) == 2 * m by { assert Pow2(n) == 2 * Pow2(n - 1); }
      assert (2 * m) / 2 == m && (2 * m) % 2 == 0;
      OrLowBits(a, lo / 2, n - 1);
      assert lo == 2 * (lo / 2) + lo % 2;
    }
  }

  lemma MulPos(a: int, b: int)
    requires a >= 1 && b >= 1
    ensures a * b >= 1
  {
  }

  /**
   * `ret |= rc` on C `int`s: the accumulated code is zero exactly when both
   * parts are, and an error (negative) part keeps the whole negative.
   */
  function OrErr(ret: Int32, rc: Int32): (r: Int32)
    ensures r == 0 <==> ret == 0 && rc == 0
    ensures ret < 0 || rc < 0 ==> r < 0
    ensures rc == 0 ==> r == ret
    ensures ret == 0 ==> r == rc
  {
    Pow2Values();
    OrWithin(ret, rc, 31);
    Or(ret, rc)
  }

  /** Pow2 grows with its exponent. */
  lemma {:induction false} Pow2Le(a: nat, b: nat)
    requires a <= b
    ensures Pow2(a) <= Pow2(b)
    decreases b
  {
    if a < b {
      Pow2Le(a, b - 1);
    }
  }

  /** `x >> n` on a two's-complement value: floor division by 2^n. */
  function Shr(x: int, n: nat): (r: int)
    ensures x >= 0 ==> r >= 0
    decreases n
  {
    if n == 0 then x else Shr(x / 2, n - 1)
  }

  /** `x & ((1 << n) - 1)` on a two's-complement value: its n lowest bits. */
  function LowBits(x: int, n: nat): (r: nat)
    ensures r < Pow2(n)
    decreases n
  {
    if n == 0 then 0 else 2 * LowBits(x / 2, n - 1) + x % 2
  }

  /** A register field is at most the eight bits of its register. */
  type FieldWidth = w: nat | 1 <= w <= 8 witness 1

  /** Where a field sits in a register value: `width` bits from bit `shift` up. */
  datatype FieldPos = FieldPos(shift: nat, width: FieldWidth)

  /**
   * ADV_REG_GETFIELD: `(x & mask) >> shift` for the mask of the field's bits,
   * i.e. the field's bits moved down to bit 0.
   */
  function GetField(p: FieldPos, x: int): (r: Byte)
    ensures r < Pow2(p.width)
  {
    Pow2Values();
    Pow2Le(p.width, 8);
    LowBits(Shr(x, p.shift), p.width)
  }

  /** The low byte of a C `int`, as kept by a store into a `u8`. */
  function Low8(x: int): (r: Byte)
    ensures exists q :: x == q * 0x100 + r
  {
    assert x == (x / 0x100) * 0x100 + x % 0x100;
    x % 0x100
  }

  /** A `u16` store keeps the value modulo 2^16. */
  function ToU16(x: int): (r: U16)
    ensures 0 <= x < 0x1_0000 ==> r == x
  {
    x % 0x1_0000
  }

  /** A `u32` bit pattern read back through a C `int`. */
  function U32ToInt32(u: U32): (r: Int32)
    ensures 0 <= r ==> r == u
    ensures r < 0 ==> r == u - 0x1_0000_0000
  {
    if u < 0x8000_0000 then u else u - 0x1_0000_0000
  }
}
