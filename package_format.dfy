/*
 * The byte layouts of the second port (v8-value-serializer.js/src/ValueSerializer.ts)
 * where they differ from the main port's: the ZigZag expression built on
 * typed arrays, ZigZag-encoded back references, strings without padding and
 * with payloads built by iterating the string, the stub BigInt contents, and
 * the delegate-free growth of the buffer. Each is related to the main port's
 * layout or to the spec-level readers.
 */
module PackageFormat {
  import opened Wire
  import opened Values
  import T = Tags
  import Engine
  import Casts
  import opened InternalFormat
  import opened InternalReaders

  // ---------------------------------------------------------------------------
  // ZigZag

  /**
   * `(Uint32Array.from(Int32Array.of(value))[0] << 1) ^ (value >> 31)`: the
   * int32 image of the value read back as uint32, shifted, then xor-ed with
   * the sign mask.
   */
  function ZigZagViaUint32(n: int): int
  {
    Casts.SignMask(n);
    XorSignMask(Casts.ShiftLeft(Casts.U32(Casts.I32(n)), 1), Casts.ShiftRight(n, 31))
  }

  /**
   * Going through Uint32Array changes nothing: `<<` converts its operand back
   * to int32, so the expression is the ZigZag mapping of the main port.
   */
  lemma ZigZagViaUint32IsZigZag(n: int)
    ensures ZigZagViaUint32(n) == ZigZagInt32(n)
  {
    var a := Casts.I32(n);
    Casts.UniqueInt32(Casts.I32(Casts.U32(a)), Casts.I32(a));
  }

  /** The mapping the doc comment of `writeZigZag_int32` promises: 0, -1, 1, -2 become 0, 1, 2, 3. */
  lemma ZigZagViaUint32Examples()
    ensures ZigZagViaUint32(0) == 0 && ZigZagViaUint32(-1) == 1
    ensures ZigZagViaUint32(1) == 2 && ZigZagViaUint32(-2) == 3
  {
    ZigZagExamples();
    ZigZagViaUint32IsZigZag(0);
    ZigZagViaUint32IsZigZag(-1);
    ZigZagViaUint32IsZigZag(1);
    ZigZagViaUint32IsZigZag(-2);
  }

  /** `writeJSReceiver`'s back reference: the reference tag, then the id ZigZag-encoded. */
  function ZigZagBackReferenceBytes(id: nat): seq<Byte>
    requires id < 0x4000_0000
  {
    Tag(T.ObjectReference) + Varint(ZigZag(id))
  }

  /**
   * A ZigZag-encoded id is twice the id, so the record is the main port's
   * back reference to id 2 * id, and a reader of plain varint ids reads 2 * id.
   */
  lemma ZigZagBackReferenceDoublesId(id: nat, rest: seq<Byte>)
    requires id < 0x4000_0000
    ensures ZigZagBackReferenceBytes(id) == BackReferenceBytes(2 * id)
    ensures ReadTaggedVarint(T.ObjectReference, ZigZagBackReferenceBytes(id) + rest) == Some((2 * id, rest))
  {
    ZigZagOfSafeRange(id);
    BackReferenceReadsBack(2 * id, rest);
  }

  /** `writeHeader` then `writeSMI(42)`: the version tag, varint(15), `I` and ZigZag(42) = 84. */
  lemma HeaderThenSmi42Bytes()
    ensures T.HeaderBytes() + SmiBytes(42) == [0xFF, 0x0F, 0x49, 0x54]
  {
    T.HeaderIsFF0F();
    ZigZagExamples();
    assert Varint(84) == [84];
  }

  // ---------------------------------------------------------------------------
  // Strings

  /** The string starts with a high surrogate followed by a low one: one code point, two units. */
  predicate StartsPair(s: JsString)
  {
    |s| >= 2 && Engine.IsHighSurrogate(s[0]) && Engine.IsLowSurrogate(s[1])
  }

  predicate HasSurrogatePair(s: JsString)
  {
    exists i :: 0 <= i < |s| && StartsPair(s[i..])
  }

  /**
   * `Array.from(value, (c) => c.charCodeAt(0))` as the typed arrays' `from`
   * runs it: the string is iterated by code points, and each yields its first
   * code unit, so a surrogate pair contributes its high surrogate only.
   */
  function CodePointHeads(s: JsString): (r: JsString)
    ensures |r| <= |s|
    decreases |s|
  {
    if s == [] then []
    else if StartsPair(s) then [s[0]] + CodePointHeads(s[2..])
    else [s[0]] + CodePointHeads(s[1..])
  }

  /** Past a first unit that does not start a pair, the pairs are those of the rest. */
  lemma PairsOfTail(s: JsString)
    requires s != [] && !StartsPair(s)
    ensures HasSurrogatePair(s) <==> HasSurrogatePair(s[1..])
  {
    if HasSurrogatePair(s) {
      var i :| 0 <= i < |s| && StartsPair(s[i..]);
      assert i != 0;
      assert s[1..][i - 1..] == s[i..];
    }
    if HasSurrogatePair(s[1..]) {
      var j :| 0 <= j < |s[1..]| && StartsPair(s[1..][j..]);
      assert s[j + 1..] == s[1..][j..];
    }
  }

  /** Without surrogate pairs, iterating by code points visits every unit. */
  lemma {:induction false} CodePointHeadsOfPairFree(s: JsString)
    requires !HasSurrogatePair(s)
    ensures CodePointHeads(s) == s
    decreases |s|
  {
    if s != [] {
      assert s[0..] == s;
      PairsOfTail(s);
      CodePointHeadsOfPairFree(s[1..]);
      assert s == [s[0]] + s[1..];
    }
  }

  /** With a surrogate pair, iterating by code points yields fewer values than the string has units. */
  lemma {:induction false} CodePointHeadsShorter(s: JsString)
    requires HasSurrogatePair(s)
    ensures |CodePointHeads(s)| < |s|
    decreases |s|
  {
    if !StartsPair(s) {
      PairsOfTail(s);
      CodePointHeadsShorter(s[1..]);
    }
  }

  /** An ASCII string has no surrogates at all. */
  lemma AsciiIsPairFree(s: JsString)
    requires Engine.AllAscii(s)
    ensures !HasSurrogatePair(s)
  {
  }

  /** A Uint8Array keeps each stored value modulo 256. */
  function Narrow(units: seq<CodeUnit>): (r: seq<Byte>)
    ensures |r| == |units|
  {
    seq(|units|, i requires 0 <= i < |units| => units[i] % 256)
  }

  /** `writeOneByteString`'s payload: `Uint8Array.from(value, (c) => c.charCodeAt(0))`. */
  function OneBytePayload(s: JsString): seq<Byte>
  {
    Narrow(CodePointHeads(s))
  }

  /** For the strings `writeString` sends there, the payload is the string's units, i.e. its UTF-8 bytes. */
  lemma OneBytePayloadOfOneByte(s: JsString)
    requires Engine.IsOneByte(s)
    ensures OneBytePayload(s) == Engine.Utf8Encode(s)
  {
    Engine.IsOneByteIffAscii(s);
    AsciiIsPairFree(s);
    CodePointHeadsOfPairFree(s);
    Engine.AsciiEncodesToItself(s);
  }

  /**
   * `writeTwoByteString` as written: the count announces two bytes per code
   * unit, but the payload holds one unit per code point.
   */
  function TwoByteStringBytesAsWritten(s: JsString): seq<Byte>
  {
    Varint(2 * |s|) + UnitsLe(CodePointHeads(s))
  }

  /** Without surrogate pairs the written record is the intended one. */
  lemma TwoByteAsWrittenAgreesWithoutPairs(s: JsString)
    requires !HasSurrogatePair(s)
    ensures TwoByteStringBytesAsWritten(s) == TwoByteStringBytes(s)
  {
    CodePointHeadsOfPairFree(s);
  }

  /** With a surrogate pair the payload is shorter than the byte count in front of it. */
  lemma TwoByteAsWrittenUnderfills(s: JsString)
    requires HasSurrogatePair(s)
    ensures |UnitsLe(CodePointHeads(s))| < 2 * |s|
  {
    CodePointHeadsShorter(s);
  }

  /**
   * U+1F600 (the units D83D DE00): the count says 4 bytes, two follow,
   * and the record does not read back at all.
   */
  lemma SurrogatePairBreaksTwoByteRecord()
    ensures TwoByteStringBytesAsWritten([0xD83D, 0xDE00]) == [4, 0x3D, 0xD8]
    ensures ReadStringRecord(Tag(T.TwoByteString) + TwoByteStringBytesAsWritten([0xD83D, 0xDE00])) == None
  {
    var s: JsString := [0xD83D, 0xDE00];
    assert StartsPair(s);
    assert CodePointHeads(s) == [0xD83D];
    assert UnitsLe([0xD83D]) == [0x3D, 0xD8];
    var record := Tag(T.TwoByteString) + [4, 0x3D, 0xD8];
    DecodeVarintRoundTrip(4, [0x3D, 0xD8]);
    assert record[1..] == Varint(4) + [0x3D, 0xD8];
  }

  /**
   * `writeString`: the one-byte record when the UTF-8 size equals the length,
   * otherwise the two-byte record with the payload of every code unit; never
   * a Padding byte.
   */
  function StringBytes2(s: JsString): seq<Byte>
  {
    if Engine.IsOneByte(s) then Tag(T.OneByteString) + Varint(|s|) + OneBytePayload(s)
    else TwoByteRecord(s)
  }

  /** The record starts with `"` exactly for ASCII strings, with `c` otherwise, and never with Padding. */
  lemma StringBytes2Tag(s: JsString)
    ensures StringBytes2(s)[0] == T.TagCode(T.OneByteString) <==> Engine.AllAscii(s)
    ensures StringBytes2(s)[0] != T.TagCode(T.Padding)
  {
    Engine.IsOneByteIffAscii(s);
    StringTagCodes();
  }

  /** The main port writes the same record, padded when two-byte. */
  lemma StringBytes2IsUnpadded(pos: nat, s: JsString)
    ensures StringBytes(pos, s) == (if Engine.IsOneByte(s) then [] else PaddingFor(pos, s)) + StringBytes2(s)
  {
    if Engine.IsOneByte(s) {
      OneBytePayloadOfOneByte(s);
    }
  }

  /** Every string record reads back as the string. */
  lemma StringBytes2ReadsBack(s: JsString, rest: seq<Byte>)
    ensures ReadString(StringBytes2(s) + rest) == Some((s, rest))
  {
    if Engine.IsOneByte(s) {
      var utf8 := Engine.Utf8Encode(s);
      OneBytePayloadOfOneByte(s);
      assert StringBytes2(s) == OneByteRecord(utf8);
      OneByteStringReadsBack(utf8, rest);
      OneByteStringWidens(s);
    } else {
      TwoByteStringReadsBack([], s, rest);
      assert [] + TwoByteRecord(s) == TwoByteRecord(s);
    }
  }

  // ---------------------------------------------------------------------------
  // BigInts

  /** `writeBigIntContents` with the stubs: the bitfield varint and no digit bytes. */
  function StubBigIntContentsBytes(b: int): seq<Byte>
  {
    Varint(T.StubBigIntBitField(b)) + []
  }

  /** Every BigInt is written as the record of 0n: the tag and a zero bitfield. */
  lemma StubBigIntIsZero(b: int)
    ensures Tag(T.BigInt) + StubBigIntContentsBytes(b) == [T.TagCode(T.BigInt), 0]
    ensures StubBigIntContentsBytes(b) == StubBigIntContentsBytes(0)
  {
    assert Varint(0) == [0];
  }

  // ---------------------------------------------------------------------------
  // Growth without a delegate

  function Zeros(n: nat): (r: seq<Byte>)
    ensures |r| == n
  {
    seq(n, _ => 0)
  }

  /**
   * The delegate-free branch of `expandBuffer` as written: a zeroed buffer of
   * the requested size, then `newBuffer.set(this.#buffer!)`, which throws a
   * TypeError when there is no buffer yet.
   */
  function GrowWithoutDelegateAsWritten(current: Option<seq<Byte>>, requestedCapacity: nat): Completion<seq<Byte>>
    requires current.Some? ==> |current.value| <= requestedCapacity
  {
    match current
    case None => Abrupt(TypeError)
    case Some(bytes) => Normal(bytes + Zeros(requestedCapacity - |bytes|))
  }

  /** A fresh serializer has no buffer, so its first growth, and with it its first write, throws. */
  lemma FirstGrowthWithoutDelegateThrows(requestedCapacity: nat)
    ensures GrowWithoutDelegateAsWritten(None, requestedCapacity) == Abrupt(TypeError)
  {
  }

  /**
   * The same branch with a missing buffer taken as an empty one: the new
   * buffer has the requested size, starts with the old contents and is
   * zero after them, and wherever the code as written succeeds it agrees.
   */
  function GrowWithoutDelegate(current: Option<seq<Byte>>, requestedCapacity: nat): (r: seq<Byte>)
    requires current.Some? ==> |current.value| <= requestedCapacity
    ensures |r| == requestedCapacity
    ensures current.Some? ==> r[..|current.value|] == current.value
    ensures forall i :: (if current.Some? then |current.value| else 0) <= i < |r| ==> r[i] == 0
    ensures GrowWithoutDelegateAsWritten(current, requestedCapacity).Normal? ==>
              GrowWithoutDelegateAsWritten(current, requestedCapacity).value == r
  {
    var bytes := if current.Some? then current.value else [];
    bytes + Zeros(requestedCapacity - |bytes|)
  }
}
