/*
 * The primitive encodings of the V8 wire format shared by both serializer
 * ports: base-128 varints (as in the "Base 128 Varints" rule of the Protocol
 * Buffers encoding), the ZigZag mapping of signed 32-bit integers, and
 * little-endian byte images of integers and UTF-16 code units. Each encoder
 * is paired with a spec-level decoder and a round-trip lemma.
 */
module Wire {
  import Casts

  type Byte = x: int | 0 <= x < 256
  type CodeUnit = x: int | 0 <= x < 0x1_0000

  datatype Option<T> = None | Some(value: T)

  function Min(a: nat, b: nat): nat
  {
    if a <= b then a else b
  }

  function Pow128(k: nat): (r: nat)
    ensures r >= 1
  {
    if k == 0 then 1 else 128 * Pow128(k - 1)
  }

  // ---------------------------------------------------------------------------
  // Base-128 varints

  /**
   * The varint of v: seven-bit groups, least significant first, with the
   * continuation bit 0x80 set on every byte but the last.
   */
  function Varint(v: nat): (r: seq<Byte>)
    ensures 1 <= |r|
    decreases v
  {
    if v < 128 then [v] else [v % 128 + 128] + Varint(v / 128)
  }

  /**
   * The bytes the writers' do-while loop stores before it clears the
   * continuation bit of the last one: every group carries 0x80.
   */
  function Groups(v: nat): (r: seq<Byte>)
    ensures 1 <= |r|
    decreases v
  {
    if v < 128 then [v + 128] else [v % 128 + 128] + Groups(v / 128)
  }

  /**
   * What a varint writer whose stack buffer holds `capacity` bytes emits:
   * the varint when it fits; otherwise the first `capacity` groups, all with
   * the continuation bit set (stores past the end of a typed array are
   * ignored, and so is clearing the bit of a group that was never stored).
   */
  function StackVarint(v: nat, capacity: nat): seq<Byte>
  {
    if |Groups(v)| <= capacity then Varint(v) else Groups(v)[..capacity]
  }

  /** Every byte but the last carries the continuation bit; the last does not. */
  ghost predicate WellFormedVarint(bs: seq<Byte>)
  {
    1 <= |bs|
    && (forall i :: 0 <= i < |bs| - 1 ==> bs[i] >= 128)
    && bs[|bs| - 1] < 128
  }

  /** The number a group sequence denotes: the sum of (b_i & 0x7f) * 128^i. */
  function VarintValue(bs: seq<Byte>): nat
  {
    if bs == [] then 0 else bs[0] % 128 + 128 * VarintValue(bs[1..])
  }

  /**
   * Spec-level reader: the value of the varint at the front of bs and the
   * number of bytes it occupies, or None when bs ends inside a varint.
   */
  function DecodeVarint(bs: seq<Byte>): Option<(nat, nat)>
  {
    if bs == [] then None
    else if bs[0] < 128 then Some((bs[0], 1))
    else match DecodeVarint(bs[1..])
      case None => None
      case Some((v, n)) => Some((bs[0] - 128 + 128 * v, n + 1))
  }

  lemma {:induction false} VarintIsWellFormed(v: nat)
    ensures WellFormedVarint(Varint(v))
    decreases v
  {
    if v >= 128 {
      VarintIsWellFormed(v / 128);
      assert Varint(v)[1..] == Varint(v / 128);
    }
  }

  /** The groups of a varint add back up to its value. */
  lemma {:induction false} VarintValueOfVarint(v: nat)
    ensures VarintValue(Varint(v)) == v
    decreases v
  {
    if v >= 128 {
      VarintValueOfVarint(v / 128);
      assert Varint(v)[1..] == Varint(v / 128);
    }
  }

  lemma {:induction false} DecodeVarintRoundTrip(v: nat, rest: seq<Byte>)
    ensures DecodeVarint(Varint(v) + rest) == Some((v, |Varint(v)|))
    decreases v
  {
    if v >= 128 {
      DecodeVarintRoundTrip(v / 128, rest);
      assert (Varint(v) + rest)[1..] == Varint(v / 128) + rest;
    }
  }

  /** A varint fits in k bytes exactly when its value is below 128^k. */
  lemma {:induction false} VarintLength(v: nat, k: nat)
    requires 1 <= k
    ensures |Varint(v)| <= k <==> v < Pow128(k)
    decreases k
  {
    if v >= 128 && k > 1 {
      VarintLength(v / 128, k - 1);
    }
  }

  lemma VarintLengthBounds(v: nat)
    ensures v < 128 <==> |Varint(v)| == 1
    ensures 128 <= v < 0x4000 ==> |Varint(v)| == 2
    ensures v < 0x8_0000_0000 ==> |Varint(v)| <= 5
    ensures v < 0x1_0000_0000_0000_0000 ==> |Varint(v)| <= 10
  {
    VarintLength(v, 2);
    VarintLength(v, 5);
    VarintLength(v, 10);
    Pow128Values();
  }

  lemma Pow128Values()
    ensures Pow128(2) == 0x4000
    ensures Pow128(5) == 0x8_0000_0000
    ensures Pow128(10) == 0x40_0000_0000_0000_0000
  {
  }

  /** The loop's groups differ from the varint only in the last byte's continuation bit. */
  lemma {:induction false} GroupsAndVarint(v: nat)
    ensures |Groups(v)| == |Varint(v)|
    ensures forall i :: 0 <= i < |Groups(v)| ==> Groups(v)[i] >= 128
    ensures Varint(v) == Groups(v)[..|Groups(v)| - 1] + [Groups(v)[|Groups(v)| - 1] - 128]
    decreases v
  {
    if v >= 128 {
      GroupsAndVarint(v / 128);
    }
  }

  /** Clearing the continuation bit of the last group yields the varint. */
  lemma ClearLastContinuationBit(v: nat)
    ensures var g := Groups(v); g[|g| - 1 := g[|g| - 1] % 128] == Varint(v)
  {
    GroupsAndVarint(v);
  }

  /** Buffers of 5 and 10 bytes hold every varint below 2^31 and 2^64 respectively. */
  lemma StackVarintFits(v: nat, capacity: nat)
    requires (capacity == 5 && v < 0x8000_0000) || (capacity == 10 && v < 0x1_0000_0000_0000_0000)
    ensures StackVarint(v, capacity) == Varint(v)
  {
    GroupsAndVarint(v);
    VarintLengthBounds(v);
  }

  /** A value below 128 is written as itself by every varint writer. */
  lemma SmallVarint(v: nat, capacity: nat)
    requires v < 128 && 1 <= capacity
    ensures StackVarint(v, capacity) == Varint(v) == [v]
  {
  }

  /**
   * One pass of the number loops (`value & 0x7f` and `value >>= 7`) agrees
   * with division by 128 exactly while the value is a non-negative int32.
   */
  lemma Int32LoopStep(value: nat)
    requires value < 0x8000_0000
    ensures Casts.I32(value) % 128 == value % 128
    ensures Casts.ShiftRight(value, 7) == value / 128
  {
    Casts.Pow2Is(7);
  }

  /**
   * The do-while loop of the varint writers, storing into a fixed stack
   * buffer. It returns how many stored bytes the writer then passes on
   * (`subarray(0, index)`, clamped to the buffer's length).
   */
  method FillVarintStack(stack: array<Byte>, v: nat) returns (n: nat)
    requires 1 <= stack.Length
    modifies stack
    ensures n == Min(|Groups(v)|, stack.Length)
    ensures stack[..n] == StackVarint(v, stack.Length)
  {
    var index := StoreGroups(stack, v);
    if index <= stack.Length {
      ghost var before := stack[..index];
      assert before == Groups(v);
      stack[index - 1] := stack[index - 1] % 128;
      assert stack[..index] == before[index - 1 := before[index - 1] % 128];
      ClearLastContinuationBit(v);
    } else {
      assert stack[..stack.Length] == Groups(v)[..stack.Length];
    }
    n := Min(index, stack.Length);
  }

  /** One pass of the loop: the low group with its continuation bit, then the rest. */
  lemma GroupsStep(value: nat)
    ensures value < 128 ==> Groups(value) == [value % 128 + 128]
    ensures value >= 128 ==> Groups(value) == [value % 128 + 128] + Groups(value / 128)
  {
  }

  /** The loop itself: every group with its continuation bit, as far as the buffer reaches. */
  method StoreGroups(stack: array<Byte>, v: nat) returns (index: nat)
    modifies stack
    ensures index == |Groups(v)|
    ensures forall i :: 0 <= i < index && i < stack.Length ==> stack[i] == Groups(v)[i]
  {
    index := 0;
    var value := v;
    ghost var stored: seq<Byte> := [];
    while true
      invariant Groups(v) == stored + Groups(value)
      invariant index == |stored|
      invariant forall i :: 0 <= i < index && i < stack.Length ==> stack[i] == stored[i]
      decreases value
    {
      var group := value % 128 + 128;
      if index < stack.Length {
        stack[index] := group;
      }
      stored := stored + [group];
      index := index + 1;
      GroupsStep(value);
      if value < 128 {
        break;
      }
      value := value / 128;
    }
  }

  /**
   * `bytesNeededForVariantUint32`: counts the passes of the same do-while
   * loop. The loop shifts with `>>=`, so it ends only for values below 2^31.
   */
  method BytesNeededForVariantUint32(v: nat) returns (r: nat)
    requires v < 0x8000_0000
    ensures r == |Varint(v)|
  {
    r := 0;
    var value: int := v;
    while true
      invariant 0 <= value <= v
      invariant r + |Varint(value)| == |Varint(v)|
      decreases value
    {
      r := r + 1;
      Int32LoopStep(value);
      if value < 128 {
        break;
      }
      value := Casts.ShiftRight(value, 7);
    }
  }

  // ---------------------------------------------------------------------------
  // ZigZag

  /** `x ^ mask` for an int32 x and a sign mask of 0 or -1 (all bits set). */
  function XorSignMask(x: int, mask: int): int
    requires mask == 0 || mask == -1
  {
    if mask == 0 then x else -x - 1
  }

  /** `((value | 0) << 1) ^ (value >> 31)`, the ZigZag mapping of an int32. */
  function ZigZagInt32(n: int): int
  {
    Casts.SignMask(n);
    XorSignMask(Casts.ShiftLeft(Casts.I32(n), 1), Casts.ShiftRight(n, 31))
  }

  /** The inverse mapping: even numbers to the non-negative, odd ones to the negative. */
  function UnZigZag(u: nat): int
  {
    if u % 2 == 0 then u / 2 else -((u + 1) / 2)
  }

  /** On [-2^30, 2^30) ZigZag maps n to 2n or -2n-1, a non-negative value below 2^31. */
  lemma ZigZagOfSafeRange(n: int)
    requires -0x4000_0000 <= n < 0x4000_0000
    ensures ZigZagInt32(n) == if n >= 0 then 2 * n else -2 * n - 1
    ensures 0 <= ZigZagInt32(n) < 0x8000_0000
  {
    Casts.Pow2Is(1);
    Casts.SignMask(n);
  }

  /**
   * Every other int32 maps to a negative number, on which the varint loop's
   * `>>=` never reaches 0.
   */
  lemma ZigZagOutsideSafeRange(n: int)
    requires -0x8000_0000 <= n < 0x8000_0000
    requires n < -0x4000_0000 || 0x4000_0000 <= n
    ensures ZigZagInt32(n) < 0
  {
    Casts.Pow2Is(1);
    Casts.SignMask(n);
  }

  lemma ZigZagRoundTrip(n: int)
    requires -0x4000_0000 <= n < 0x4000_0000
    ensures 0 <= ZigZagInt32(n)
    ensures UnZigZag(ZigZagInt32(n)) == n
  {
    ZigZagOfSafeRange(n);
    UnZigZagOfDoubled(n);
  }

  /** UnZigZag undoes n -> 2n and n -> -2n-1. */
  lemma UnZigZagOfDoubled(n: int)
    ensures n >= 0 ==> UnZigZag(2 * n) == n
    ensures n < 0 ==> UnZigZag(-2 * n - 1) == n
  {
    if n < 0 {
      assert (-2 * n - 1 + 1) / 2 == -n;
    }
  }

  lemma UnZigZagRoundTrip(u: nat)
    requires u < 0x8000_0000
    ensures -0x4000_0000 <= UnZigZag(u) < 0x4000_0000
    ensures ZigZagInt32(UnZigZag(u)) == u
  {
    ZigZagOfSafeRange(UnZigZag(u));
  }

  lemma ZigZagExamples()
    ensures ZigZagInt32(0) == 0 && ZigZagInt32(-1) == 1
    ensures ZigZagInt32(1) == 2 && ZigZagInt32(-2) == 3
    ensures ZigZagInt32(42) == 84
  {
    ZigZagOfSafeRange(0);
    ZigZagOfSafeRange(-1);
    ZigZagOfSafeRange(1);
    ZigZagOfSafeRange(-2);
    ZigZagOfSafeRange(42);
  }

  // ---------------------------------------------------------------------------
  // Little-endian images

  function Pow256(n: nat): (r: nat)
    ensures r >= 1
  {
    if n == 0 then 1 else 256 * Pow256(n - 1)
  }

  /** The low n bytes of x, least significant first. */
  function LeBytes(x: nat, n: nat): (r: seq<Byte>)
    ensures |r| == n
  {
    if n == 0 then [] else [x % 256] + LeBytes(x / 256, n - 1)
  }

  /** The number a little-endian byte sequence denotes. */
  function LeValue(bs: seq<Byte>): nat
  {
    if bs == [] then 0 else bs[0] + 256 * LeValue(bs[1..])
  }

  lemma {:induction false} LeRoundTrip(x: nat, n: nat)
    requires x < Pow256(n)
    ensures LeValue(LeBytes(x, n)) == x
    decreases n
  {
    if n > 0 {
      LeRoundTrip(x / 256, n - 1);
      assert LeBytes(x, n)[1..] == LeBytes(x / 256, n - 1);
    }
  }

  lemma {:induction false} LeValueRoundTrip(bs: seq<Byte>)
    ensures LeValue(bs) < Pow256(|bs|)
    ensures LeBytes(LeValue(bs), |bs|) == bs
    decreases |bs|
  {
    if bs != [] {
      LeValueRoundTrip(bs[1..]);
      assert LeValue(bs) / 256 == LeValue(bs[1..]);
    }
  }

  /** The two bytes of each UTF-16 code unit, low byte first, as a little-endian host lays them out. */
  function UnitsLe(units: seq<CodeUnit>): (r: seq<Byte>)
    ensures |r| == 2 * |units|
  {
    if units == [] then [] else [units[0] % 256, units[0] / 256] + UnitsLe(units[1..])
  }

  function UnitsFromLe(bs: seq<Byte>): seq<CodeUnit>
    requires |bs| % 2 == 0
  {
    if bs == [] then [] else [bs[0] as int + 256 * (bs[1] as int)] + UnitsFromLe(bs[2..])
  }

  lemma {:induction false} UnitsLeRoundTrip(units: seq<CodeUnit>)
    ensures UnitsFromLe(UnitsLe(units)) == units
    decreases |units|
  {
    if units != [] {
      UnitsLeRoundTrip(units[1..]);
      assert UnitsLe(units)[2..] == UnitsLe(units[1..]);
    }
  }

  lemma UnitsLeAppend(a: seq<CodeUnit>, b: seq<CodeUnit>)
    ensures UnitsLe(a + b) == UnitsLe(a) + UnitsLe(b)
    decreases |a|
  {
    if a == [] {
      assert a + b == b;
    } else {
      UnitsLeAppend(a[1..], b);
      assert (a + b)[0] == a[0];
      assert (a + b)[1..] == a[1..] + b;
      var head := [a[0] % 256, a[0] / 256];
      calc {
        UnitsLe(a + b);
        head + UnitsLe(a[1..] + b);
        head + (UnitsLe(a[1..]) + UnitsLe(b));
        (head + UnitsLe(a[1..])) + UnitsLe(b);
        UnitsLe(a) + UnitsLe(b);
      }
    }
  }

  // ---------------------------------------------------------------------------
  // Copying into a typed array

  /** `dest.set(source, offset)` on byte arrays. */
  method CopyInto(dest: array<Byte>, offset: nat, source: seq<Byte>)
    requires offset + |source| <= dest.Length
    modifies dest
    ensures dest[..offset] == old(dest[..offset])
    ensures dest[offset..offset + |source|] == source
    ensures dest[offset + |source|..] == old(dest[offset + |source|..])
  {
    forall i | 0 <= i < |source| {
      dest[offset + i] := source[i];
    }
  }
}
