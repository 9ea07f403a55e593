/*
 * The AssemblyScript-style integer casts (`i8`, `i16`, `i32`, `u8`, `u16`,
 * `u32`) and the JavaScript 32-bit operators they are built from. Every JS
 * bitwise operator first applies ToInt32 (or ToUint32 for `>>>`) to its
 * operands; this module writes those conversions out on unbounded integers.
 * Only integer-valued inputs are modelled.
 */
module Casts {

  /** 2^k */
  function Pow2(k: nat): (r: nat)
    ensures r >= 1
  {
    if k == 0 then 1 else 2 * Pow2(k - 1)
  }

  /** ToInt32, written `x | 0`: the 32-bit two's-complement reading of x. */
  function I32(x: int): (r: int)
    ensures -0x8000_0000 <= r < 0x8000_0000
    ensures r % 0x1_0000_0000 == x % 0x1_0000_0000
    ensures -0x8000_0000 <= x < 0x8000_0000 ==> r == x
  {
    var m := x % 0x1_0000_0000;
    if m < 0x8000_0000 then m else m - 0x1_0000_0000
  }

  /** ToUint32, written `x >>> 0`. */
  function U32(x: int): (r: int)
    ensures 0 <= r < 0x1_0000_0000
    ensures r % 0x1_0000_0000 == x % 0x1_0000_0000
    ensures 0 <= x < 0x1_0000_0000 ==> r == x
  {
    x % 0x1_0000_0000
  }

  /** `x << k` on numbers: ToInt32(x) shifted left, the result read again as int32. */
  function ShiftLeft(x: int, k: nat): int
    requires k < 32
  {
    I32(I32(x) * Pow2(k))
  }

  /** `x >> k` on numbers: the arithmetic (sign-propagating) shift, i.e. floor division. */
  function ShiftRight(x: int, k: nat): int
    requires k < 32
  {
    I32(x) / Pow2(k)
  }

  /** `i8`: `(x << 24) >> 24`. */
  function I8(x: int): (r: int)
    ensures -128 <= r < 128
    ensures r % 256 == x % 256
  {
    ShiftPairSignExtends8(x);
    SignExtendIsCongruent(x, 256);
    ShiftRight(ShiftLeft(x, 24), 24)
  }

  /** `i16`: `(x << 16) >> 16`. */
  function I16(x: int): (r: int)
    ensures -0x8000 <= r < 0x8000
    ensures r % 0x1_0000 == x % 0x1_0000
  {
    ShiftPairSignExtends16(x);
    SignExtendIsCongruent(x, 0x1_0000);
    ShiftRight(ShiftLeft(x, 16), 16)
  }

  /** `u8`: `x & 0xff`. */
  function U8(x: int): (r: int)
    ensures 0 <= r < 256
    ensures r == x % 256
  {
    ModOfCongruent(I32(x), x);
    I32(x) % 256
  }

  /** `u16`: `x & 0xffff`. */
  function U16(x: int): (r: int)
    ensures 0 <= r < 0x1_0000
    ensures r == x % 0x1_0000
  {
    ModOfCongruent(I32(x), x);
    I32(x) % 0x1_0000
  }

  /** Reference definition: the signed value in [-2^(k-1), 2^(k-1)) congruent to x modulo m = 2^k. */
  function SignExtend(x: int, m: int): int
    requires m == 256 || m == 0x1_0000
  {
    var low := x % m;
    if low < m / 2 then low else low - m
  }

  // ---------------------------------------------------------------------------
  // Facts about the shift pairs

  /** SignExtend lands in the signed range and agrees with x modulo m. */
  lemma SignExtendIsCongruent(x: int, m: int)
    requires m == 256 || m == 0x1_0000
    ensures -m / 2 <= SignExtend(x, m) < m / 2
    ensures SignExtend(x, m) % m == x % m
  {
    var low := x % m;
    if low >= m / 2 {
      assert (low - m) % m == low % m;
    }
  }

  lemma Pow2Values()
    ensures Pow2(8) == 256 && Pow2(16) == 0x1_0000 && Pow2(24) == 0x100_0000
  {
  }

  /** Values that agree modulo 2^32 agree modulo 2^8 and 2^16. */
  lemma ModOfCongruent(x: int, y: int)
    requires x % 0x1_0000_0000 == y % 0x1_0000_0000
    ensures x % 256 == y % 256
    ensures x % 0x1_0000 == y % 0x1_0000
  {
    var k := x / 0x1_0000_0000 - y / 0x1_0000_0000;
    assert x - y == 0x1_0000_0000 * k;
    ModOfMultiple8(x, y, 0x100_0000 * k);
    ModOfMultiple16(x, y, 0x1_0000 * k);
  }

  lemma ModOfMultiple8(x: int, y: int, k: int)
    requires x - y == 256 * k
    ensures x % 256 == y % 256
  {
  }

  lemma ModOfMultiple16(x: int, y: int, k: int)
    requires x - y == 0x1_0000 * k
    ensures x % 0x1_0000 == y % 0x1_0000
  {
  }

  lemma ModOfMultiple32(x: int, y: int, k: int)
    requires x - y == 0x1_0000_0000 * k
    ensures x % 0x1_0000_0000 == y % 0x1_0000_0000
  {
  }

  /** Two signed bytes that agree modulo 2^8 are equal. */
  lemma UniqueInt8(a: int, b: int)
    requires -128 <= a < 128 && -128 <= b < 128 && a % 256 == b % 256
    ensures a == b
  {
  }

  /** Two signed 16-bit values that agree modulo 2^16 are equal. */
  lemma UniqueInt16(a: int, b: int)
    requires -0x8000 <= a < 0x8000 && -0x8000 <= b < 0x8000 && a % 0x1_0000 == b % 0x1_0000
    ensures a == b
  {
  }

  /** Two int32 values that agree modulo 2^32 are equal. */
  lemma UniqueInt32(a: int, b: int)
    requires -0x8000_0000 <= a < 0x8000_0000 && -0x8000_0000 <= b < 0x8000_0000
    requires a % 0x1_0000_0000 == b % 0x1_0000_0000
    ensures a == b
  {
  }

  /**
   * `(x << 24) >> 24` keeps the low eight bits of x and spreads bit 7 over
   * the upper bits.
   */
  lemma ShiftPairSignExtends8(x: int)
    ensures ShiftRight(ShiftLeft(x, 24), 24) == SignExtend(x, 256)
  {
    Pow2Values();
    ShiftLeft24Scales(x);
    var se := SignExtend(x, 256);
    assert I32(se * 0x100_0000) == se * 0x100_0000;
    assert se * 0x100_0000 / 0x100_0000 == se;
  }

  /** `x << 24` is the sign-extended low 8 bits of x, times 2^24. */
  lemma ShiftLeft24Scales(x: int)
    ensures ShiftLeft(x, 24) == SignExtend(x, 256) * 0x100_0000
  {
    Pow2Values();
    var y := I32(x);
    var se := SignExtend(x, 256);
    ModOfCongruent(y, x);
    var j := (y - se) / 256;
    assert y - se == 256 * j;
    var p := y * 0x100_0000;
    assert p == se * 0x100_0000 + 0x1_0000_0000 * j;
    ModOfMultiple32(p, se * 0x100_0000, j);
    UniqueInt32(I32(p), se * 0x100_0000);
  }

  /** `(x << 16) >> 16` keeps the low sixteen bits of x and spreads bit 15 over the upper bits. */
  lemma ShiftPairSignExtends16(x: int)
    ensures ShiftRight(ShiftLeft(x, 16), 16) == SignExtend(x, 0x1_0000)
  {
    Pow2Values();
    ShiftLeft16Scales(x);
    var se := SignExtend(x, 0x1_0000);
    assert I32(se * 0x1_0000) == se * 0x1_0000;
    assert se * 0x1_0000 / 0x1_0000 == se;
  }

  /** `x << 16` is the sign-extended low 16 bits of x, times 2^16. */
  lemma ShiftLeft16Scales(x: int)
    ensures ShiftLeft(x, 16) == SignExtend(x, 0x1_0000) * 0x1_0000
  {
    Pow2Values();
    var y := I32(x);
    var se := SignExtend(x, 0x1_0000);
    ModOfCongruent(y, x);
    var j := (y - se) / 0x1_0000;
    assert y - se == 0x1_0000 * j;
    var p := y * 0x1_0000;
    assert p == se * 0x1_0000 + 0x1_0000_0000 * j;
    ModOfMultiple32(p, se * 0x1_0000, j);
    UniqueInt32(I32(p), se * 0x1_0000);
  }

  // ---------------------------------------------------------------------------
  // Properties of the casts

  /** Each cast is idempotent. */
  lemma SignedCastsIdempotent(x: int)
    ensures I8(I8(x)) == I8(x)
    ensures I16(I16(x)) == I16(x)
    ensures I32(I32(x)) == I32(x)
  {
    UniqueInt8(I8(I8(x)), I8(x));
    UniqueInt16(I16(I16(x)), I16(x));
  }

  lemma UnsignedCastsIdempotent(x: int)
    ensures U8(U8(x)) == U8(x)
    ensures U16(U16(x)) == U16(x)
    ensures U32(U32(x)) == U32(x)
  {
  }

  /** Narrowing to a signed byte keeps the low eight bits. */
  lemma U8OfI8(x: int)
    ensures U8(I8(x)) == U8(x)
  {
  }

  /** The arithmetic right shift of a negative int32 is negative: `>>=` never reaches 0 from below. */
  lemma ShiftRightKeepsSign(x: int, k: nat)
    requires 0 < k < 32
    requires -0x8000_0000 <= x < 0x8000_0000
    ensures x < 0 ==> ShiftRight(x, k) < 0
    ensures x >= 0 ==> ShiftRight(x, k) == x / Pow2(k)
  {
  }

  /** The arithmetic right shift by 31 of an int32 is its sign mask: 0 or -1. */
  lemma SignMask(x: int)
    ensures ShiftRight(x, 31) == (if I32(x) < 0 then -1 else 0)
  {
    Pow2Is(31);
  }

  lemma Pow2Is(k: nat)
    requires k == 1 || k == 7 || k == 31
    ensures k == 1 ==> Pow2(k) == 2
    ensures k == 7 ==> Pow2(k) == 128
    ensures k == 31 ==> Pow2(k) == 0x8000_0000
  {
    Pow2Values();
    if k == 31 {
      assert Pow2(31) == 128 * Pow2(24) by { Pow2Add(24, 7); }
    }
  }

  lemma Pow2Add(a: nat, b: nat)
    ensures Pow2(a + b) == Pow2(a) * Pow2(b)
    decreases b
  {
    if b > 0 { Pow2Add(a, b - 1); }
  }
}
