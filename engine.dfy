/*
 * The engine helpers the main serializer port calls (src/internal/h.ts):
 * the RegExp flag bitfield, the BigInt header and digit block, the Smi test,
 * the holey-array test, the flat-content view of a string (whose one-byte
 * test is a UTF-8 length comparison) and the instance-type string test.
 */
module Engine {
  import opened Wire
  import opened Values
  import Casts

  // ---------------------------------------------------------------------------
  // RegExp flags

  /** The weight the bitfield table gives a flag letter; 'd' and 'v' count 0. */
  function FlagWeight(c: char): nat
  {
    match c
    case 'g' => 1
    case 'i' => 2
    case 'm' => 4
    case 'y' => 8
    case 'u' => 16
    case 's' => 32
    case _ => 0
  }

  /** What `RegExp.prototype.flags` can return: known letters, each at most once. */
  predicate ValidFlags(flags: seq<char>)
  {
    (forall i :: 0 <= i < |flags| ==> flags[i] in "dgimsuvy")
    && (forall i, j :: 0 <= i < j < |flags| ==> flags[i] != flags[j])
  }

  /** `[...flags].reduce((a, x) => a + bits[x], acc)`. */
  function SumFlagWeights(acc: nat, flags: seq<char>): nat
    decreases |flags|
  {
    if flags == [] then acc else SumFlagWeights(acc + FlagWeight(flags[0]), flags[1..])
  }

  /** `RegExpPrototypeGetFlagsBitfield`. */
  function RegExpFlagsBitfield(flags: seq<char>): nat
  {
    SumFlagWeights(0, flags)
  }

  function Bit(b: bool): nat
  {
    if b then 1 else 0
  }

  /** Reference definition: the bitwise OR of the single-bit masks of the letters present. */
  function FlagsMask(flags: seq<char>): nat
  {
    Bit('g' in flags) + 2 * Bit('i' in flags) + 4 * Bit('m' in flags)
    + 8 * Bit('y' in flags) + 16 * Bit('u' in flags) + 32 * Bit('s' in flags)
  }

  /** A letter's weight is the sum of the single-bit masks it matches. */
  lemma FlagWeightIsBits(c: char)
    ensures FlagWeight(c) == Bit(c == 'g') + 2 * Bit(c == 'i') + 4 * Bit(c == 'm')
      + 8 * Bit(c == 'y') + 16 * Bit(c == 'u') + 32 * Bit(c == 's')
  {
  }

  lemma MemberBitSplit(x: char, flags: seq<char>)
    requires flags != [] && flags[0] !in flags[1..]
    ensures Bit(x in flags) == Bit(x == flags[0]) + Bit(x in flags[1..])
  {
    assert flags == [flags[0]] + flags[1..];
    assert x in flags <==> x == flags[0] || x in flags[1..];
  }

  /** Taking off a letter that does not recur takes its weight off the mask. */
  lemma FlagsMaskCons(flags: seq<char>)
    requires flags != [] && flags[0] !in flags[1..]
    ensures FlagsMask(flags) == FlagWeight(flags[0]) + FlagsMask(flags[1..])
  {
    FlagWeightIsBits(flags[0]);
    MemberBitSplit('g', flags);
    MemberBitSplit('i', flags);
    MemberBitSplit('m', flags);
    MemberBitSplit('y', flags);
    MemberBitSplit('u', flags);
    MemberBitSplit('s', flags);
  }

  lemma {:induction false} SumFlagWeightsIsMask(acc: nat, flags: seq<char>)
    requires ValidFlags(flags)
    ensures SumFlagWeights(acc, flags) == acc + FlagsMask(flags)
    decreases |flags|
  {
    if flags != [] {
      var rest := flags[1..];
      ValidFlagsTail(flags);
      SumFlagWeightsIsMask(acc + FlagWeight(flags[0]), rest);
      FlagsMaskCons(flags);
    }
  }

  /** Dropping the first letter keeps the flags valid, and that letter does not recur. */
  lemma ValidFlagsTail(flags: seq<char>)
    requires ValidFlags(flags) && flags != []
    ensures ValidFlags(flags[1..]) && flags[0] !in flags[1..]
  {
    var rest := flags[1..];
    forall i | 0 <= i < |rest|
      ensures rest[i] in "dgimsuvy" && rest[i] != flags[0]
    {
      assert rest[i] == flags[i + 1];
    }
    forall i, j | 0 <= i < j < |rest|
      ensures rest[i] != rest[j]
    {
      assert rest[i] == flags[i + 1] && rest[j] == flags[j + 1];
    }
  }

  /**
   * Each letter occurs at most once, so the sum of weights is the bitwise OR
   * of the letters' bits: below 64, with bit k set exactly when the letter of
   * weight 2^k is present.
   */
  lemma RegExpFlagsBitfieldIsMask(flags: seq<char>)
    requires ValidFlags(flags)
    ensures RegExpFlagsBitfield(flags) == FlagsMask(flags)
    ensures RegExpFlagsBitfield(flags) < 64
    ensures RegExpFlagsBitfield(flags) % 2 == 1 <==> 'g' in flags
    ensures (RegExpFlagsBitfield(flags) / 32) % 2 == 1 <==> 's' in flags
  {
    SumFlagWeightsIsMask(0, flags);
  }

  // ---------------------------------------------------------------------------
  // BigInt

  /** `16 | +(bigint < 0)`: the sign in bit 0 and the digit byte length 8 in the bits above. */
  function BigIntBitfield(b: int): (r: nat)
    ensures r == 16 || r == 17
    ensures r % 2 == 1 <==> b < 0
    ensures r / 2 == BigIntDigitsByteLength(r)
  {
    16 + Bit(b < 0)
  }

  /** `BigIntDigitsByteLengthForBitfield`: 8 whatever the bitfield. */
  function BigIntDigitsByteLength(bitfield: nat): nat
  {
    8
  }

  function Abs(b: int): nat
  {
    if b < 0 then -b else b
  }

  /** The digit block: |b| reduced to 64 bits, as eight little-endian bytes. */
  function BigIntDigits(b: int): (r: seq<Byte>)
    ensures |r| == 8
  {
    LeBytes(Abs(b) % 0x1_0000_0000_0000_0000, 8)
  }

  /** The digit block reads back as |b| mod 2^64. */
  lemma BigIntDigitsValue(b: int)
    ensures LeValue(BigIntDigits(b)) == Abs(b) % 0x1_0000_0000_0000_0000
  {
    assert Pow256(8) == 0x1_0000_0000_0000_0000;
    LeRoundTrip(Abs(b) % 0x1_0000_0000_0000_0000, 8);
  }

  /** `BigIntPrototypeSerializeDigits(bigint, dest)`, dest being the window at `offset`. */
  method BigIntSerializeDigits(b: int, dest: array<Byte>, offset: nat)
    requires offset + 8 <= dest.Length
    modifies dest
    ensures dest[..offset] == old(dest[..offset])
    ensures dest[offset..offset + 8] == BigIntDigits(b)
    ensures dest[offset + 8..] == old(dest[offset + 8..])
  {
    var positive := if b < 0 then -b else b;
    CopyInto(dest, offset, LeBytes(positive % 0x1_0000_0000_0000_0000, 8));
  }

  // ---------------------------------------------------------------------------
  // Numbers and arrays

  /** `typeof x === "number" && (x | 0) === x`; -0 passes because `(-0 | 0) === -0`. */
  predicate IsSmi(v: Value)
  {
    v.Num? &&
    match v.n.value
    case Integer(i) => Casts.I32(i) == i
    case MinusZero => true
    case NonInteger => false
  }

  /** The int32 a Smi stands for. */
  function SmiValue(v: Value): int
    requires IsSmi(v)
  {
    match v.n.value
    case Integer(i) => i
    case MinusZero => 0
  }

  /** A number is a Smi exactly when it is an integer in [-2^31, 2^31) (or -0). */
  lemma IsSmiRange(v: Value)
    requires v.Num? && v.n.value.Integer?
    ensures IsSmi(v) <==> -0x8000_0000 <= v.n.value.i < 0x8000_0000
  {
  }

  /** `ArrayPrototypeHasHoleyElements`: scans the indices in order and stops at the first hole. */
  method ArrayHasHoleyElements(length: nat, elements: map<nat, Value>) returns (r: bool)
    ensures r <==> exists i :: 0 <= i < length && i !in elements
  {
    var i := 0;
    while i < length
      invariant i <= length
      invariant forall j :: 0 <= j < i ==> j in elements
    {
      if i !in elements {
        return true;
      }
      i := i + 1;
    }
    return false;
  }

  // ---------------------------------------------------------------------------
  // Strings

  predicate IsHighSurrogate(u: CodeUnit) { 0xD800 <= u < 0xDC00 }
  predicate IsLowSurrogate(u: CodeUnit) { 0xDC00 <= u < 0xE000 }

  /**
   * `new TextEncoder().encode(s)`: UTF-8 (section 3 of RFC 3629) of the
   * string's code points, a lone surrogate becoming U+FFFD.
   */
  function Utf8Encode(s: JsString): seq<Byte>
    decreases |s|
  {
    if s == [] then []
    else if s[0] < 0x80 then [s[0]] + Utf8Encode(s[1..])
    else if s[0] < 0x800 then [0xC0 + s[0] / 0x40, 0x80 + s[0] % 0x40] + Utf8Encode(s[1..])
    else if IsHighSurrogate(s[0]) && |s| >= 2 && IsLowSurrogate(s[1]) then
      var high: int, low: int := s[0], s[1];
      var cp := 0x1_0000 + (high - 0xD800) * 0x400 + (low - 0xDC00);
      [0xF0 + cp / 0x4_0000, 0x80 + (cp / 0x1000) % 0x40, 0x80 + (cp / 0x40) % 0x40, 0x80 + cp % 0x40]
      + Utf8Encode(s[2..])
    else if IsHighSurrogate(s[0]) || IsLowSurrogate(s[0]) then [0xEF, 0xBF, 0xBD] + Utf8Encode(s[1..])
    else [0xE0 + s[0] / 0x1000, 0x80 + (s[0] / 0x40) % 0x40, 0x80 + s[0] % 0x40] + Utf8Encode(s[1..])
  }

  predicate AllAscii(s: JsString)
  {
    forall i :: 0 <= i < |s| ==> s[i] < 0x80
  }

  /** `flat.isOneByte()`: the UTF-8 encoding is exactly as long as the string. */
  predicate IsOneByte(s: JsString)
  {
    |Utf8Encode(s)| == |s|
  }

  /** Every code point takes at least as many UTF-8 bytes as it has UTF-16 units, and ASCII exactly one. */
  lemma {:induction false} Utf8Length(s: JsString)
    ensures |Utf8Encode(s)| >= |s|
    ensures |Utf8Encode(s)| == |s| <==> AllAscii(s)
    decreases |s|
  {
    if s != [] {
      if s[0] < 0x80 {
        Utf8Length(s[1..]);
        assert AllAscii(s) <==> AllAscii(s[1..]) by {
          if AllAscii(s[1..]) {
            forall i | 0 <= i < |s|
              ensures s[i] < 0x80
            {
              if i > 0 { assert s[i] == s[1..][i - 1]; }
            }
          }
        }
      } else if IsHighSurrogate(s[0]) && |s| >= 2 && IsLowSurrogate(s[1]) {
        Utf8Length(s[2..]);
      } else {
        Utf8Length(s[1..]);
      }
    }
  }

  /** The one-byte test holds exactly for ASCII strings. */
  lemma IsOneByteIffAscii(s: JsString)
    ensures IsOneByte(s) <==> AllAscii(s)
  {
    Utf8Length(s);
  }

  /** An ASCII string's UTF-8 bytes are its code units. */
  lemma {:induction false} AsciiEncodesToItself(s: JsString)
    requires AllAscii(s)
    ensures Utf8Encode(s) == s
    decreases |s|
  {
    if s != [] {
      assert AllAscii(s[1..]) by {
        forall i | 0 <= i < |s[1..]|
          ensures s[1..][i] < 0x80
        {
          assert s[1..][i] == s[i + 1];
        }
      }
      AsciiEncodesToItself(s[1..]);
      assert s == [s[0]] + s[1..];
    }
  }

  /** `flat.toUC16Vector()`: a fresh Uint16Array filled with `charCodeAt(i)` for each i. */
  method ToUC16Vector(s: JsString) returns (view: array<CodeUnit>)
    ensures fresh(view)
    ensures view[..] == s
  {
    view := new CodeUnit[|s|];
    for i := 0 to |s|
      invariant view[..i] == s[..i]
    {
      view[i] := s[i];
    }
  }

  /** The `InstanceType` members `ObjectPrototypeInstanceType` can name for an object. */
  datatype InstanceType = PrimitiveWrapperType | MapType

  /**
   * `ObjectPrototypeInstanceType` of an object, decided by its constructor:
   * the five wrapper constructors and `Map` are named, and every other
   * object falls off the end of the switch, which returns undefined (None).
   */
  function ObjectPrototypeInstanceType(kind: ReceiverKind): (r: Option<InstanceType>)
    ensures r == Some(PrimitiveWrapperType) <==> kind.PrimitiveWrapper?
    ensures r == Some(MapType) <==> kind.Map?
    ensures r.None? <==> !kind.PrimitiveWrapper? && !kind.Map?
  {
    match kind
    case PrimitiveWrapper(_) => Some(PrimitiveWrapperType)
    case Map(_) => Some(MapType)
    case _ => None
  }

  /**
   * `isSpecialReceiverInstanceType`: `LAST_SPECIAL_RECEIVER_TYPE` is not a
   * member of the enum, so the test compares with undefined and is false.
   */
  function IsSpecialReceiverInstanceType(instanceType: Option<InstanceType>): (r: bool)
    ensures !r
  {
    false
  }

  /** `InstanceTypeChecker.isString`: a stub that answers false for every instance type. */
  function IsStringInstanceType(instanceType: nat): (r: bool)
    ensures !r
  {
    false
  }
}
