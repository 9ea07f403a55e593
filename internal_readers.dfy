/*
 * Spec-level readers for the records of InternalFormat, and the lemmas that
 * each record the main port writes reads back to what was written: the
 * integers, strings, BigInts, views, buffers and Error records of the V8
 * wire format, format version 15.
 */
module InternalReaders {
  import opened Wire
  import opened Values
  import T = Tags
  import Engine
  import opened InternalFormat

  // ---------------------------------------------------------------------------
  // Varints

  /** The varint at the front of bs and the bytes after it. */
  function ReadVarint(bs: seq<Byte>): Option<(nat, seq<Byte>)>
  {
    match DecodeVarint(bs)
    case None => None
    case Some((v, used)) => if used <= |bs| then Some((v, bs[used..])) else None
  }

  lemma VarintReadsBack(v: nat, rest: seq<Byte>)
    ensures ReadVarint(Varint(v) + rest) == Some((v, rest))
  {
    DecodeVarintRoundTrip(v, rest);
    assert (Varint(v) + rest)[|Varint(v)|..] == rest;
  }

  /** A given tag, then a varint. */
  function ReadTaggedVarint(tag: T.SerializationTag, bs: seq<Byte>): Option<(nat, seq<Byte>)>
  {
    if |bs| > 0 && bs[0] == T.TagCode(tag) then ReadVarint(bs[1..]) else None
  }

  /** Array headers, object trailers, back references and transfer ids read back. */
  lemma TaggedVarintReadsBack(tag: T.SerializationTag, v: nat, rest: seq<Byte>)
    ensures ReadTaggedVarint(tag, TaggedVarint(tag, v) + rest) == Some((v, rest))
  {
    VarintReadsBack(v, rest);
    assert (TaggedVarint(tag, v) + rest)[1..] == Varint(v) + rest;
  }

  /** A back reference names the id it was written with. */
  lemma BackReferenceReadsBack(id: nat, rest: seq<Byte>)
    ensures ReadTaggedVarint(T.ObjectReference, BackReferenceBytes(id) + rest) == Some((id, rest))
  {
    TaggedVarintReadsBack(T.ObjectReference, id, rest);
  }

  // ---------------------------------------------------------------------------
  // Primitives

  /** An Int32 record: the tag, then the ZigZag varint undone. */
  function ReadSmi(bs: seq<Byte>): Option<(int, seq<Byte>)>
  {
    match ReadTaggedVarint(T.Int32, bs)
    case None => None
    case Some((u, rest)) => Some((UnZigZag(u), rest))
  }

  lemma SmiReadsBack(n: int, rest: seq<Byte>)
    requires -0x4000_0000 <= n < 0x4000_0000
    ensures ReadSmi(SmiBytes(n) + rest) == Some((n, rest))
  {
    TaggedVarintReadsBack(T.Int32, ZigZag(n), rest);
    ZigZagRoundTrip(n);
  }

  /**
   * BigInt contents: the bitfield varint, whose low bit is the sign and whose
   * upper bits give the digit byte count, then the digits as a magnitude.
   */
  function ReadBigIntContents(bs: seq<Byte>): Option<(bool, nat, seq<Byte>)>
  {
    match ReadVarint(bs)
    case None => None
    case Some((bitfield, rest)) =>
      var n := Engine.BigIntDigitsByteLength(bitfield);
      if n <= |rest| then Some((bitfield % 2 == 1, LeValue(rest[..n]), rest[n..])) else None
  }

  /** The contents give back the sign and the magnitude reduced to 64 bits. */
  lemma BigIntContentsReadBack(b: int, rest: seq<Byte>)
    ensures ReadBigIntContents(BigIntContentsBytes(b) + rest)
         == Some((b < 0, Engine.Abs(b) % 0x1_0000_0000_0000_0000, rest))
  {
    var digits := Engine.BigIntDigits(b);
    var tail := digits + rest;
    AppendAssociates2(Varint(Engine.BigIntBitfield(b)), digits, rest);
    VarintReadsBack(Engine.BigIntBitfield(b), tail);
    assert tail[..8] == digits;
    assert tail[8..] == rest;
    Engine.BigIntDigitsValue(b);
    BigIntContentsOf(BigIntContentsBytes(b) + rest, Engine.BigIntBitfield(b), tail);
  }

  lemma BigIntContentsOf(bs: seq<Byte>, bitfield: nat, tail: seq<Byte>)
    requires ReadVarint(bs) == Some((bitfield, tail)) && |tail| >= 8
    ensures ReadBigIntContents(bs) == Some((bitfield % 2 == 1, LeValue(tail[..8]), tail[8..]))
  {
  }

  /**
   * `writeObject` ends normally (falsy) on every value except strings,
   * symbols and objects, which it rejects before writing anything.
   */
  lemma ObjectOutcomes(v: Value)
    requires SafeSmi(v)
    ensures ObjectExpected(v).outcome
         == if v.Str? || v.Symbol? || v.Object? then Abrupt(DataCloneError) else Normal(false)
    ensures ObjectExpected(v).outcome.Abrupt? ==> ObjectExpected(v).bytes == []
    ensures ObjectExpected(v).outcome != Normal(true)
  {
  }

  // ---------------------------------------------------------------------------
  // Strings

  lemma OneByteRecordReadsBack(chars: seq<Byte>, rest: seq<Byte>)
    ensures ReadStringRecord(OneByteRecord(chars) + rest) == Some((Widen(chars), rest))
  {
    var bs := OneByteRecord(chars) + rest;
    var n := |chars|;
    assert bs[1..] == Varint(n) + (chars + rest);
    DecodeVarintRoundTrip(n, chars + rest);
    var start := 1 + |Varint(n)|;
    assert bs[start..start + n] == chars;
    assert bs[start + n..] == rest;
  }

  lemma TwoByteRecordReadsBack(units: JsString, rest: seq<Byte>)
    ensures ReadStringRecord(TwoByteRecord(units) + rest) == Some((units, rest))
  {
    var bs := TwoByteRecord(units) + rest;
    var n := 2 * |units|;
    assert bs[1..] == Varint(n) + (UnitsLe(units) + rest);
    DecodeVarintRoundTrip(n, UnitsLe(units) + rest);
    var start := 1 + |Varint(n)|;
    assert bs[start..start + n] == UnitsLe(units);
    assert bs[start + n..] == rest;
    UnitsLeRoundTrip(units);
  }

  /** An ASCII string widens back from its UTF-8 bytes. */
  lemma OneByteStringWidens(s: JsString)
    requires |Engine.Utf8Encode(s)| == |s|
    ensures Widen(Engine.Utf8Encode(s)) == s
  {
    Engine.Utf8Length(s);
    Engine.AsciiEncodesToItself(s);
  }

  /** The bytes of the tags a string record can start with. */
  lemma StringTagCodes()
    ensures T.TagCode(T.Padding) == 0x00
    ensures T.TagCode(T.OneByteString) == 0x22
    ensures T.TagCode(T.TwoByteString) == 0x63
  {
  }

  /** A one-byte record does not start with the Padding byte, so the reader takes it as it is. */
  lemma OneByteStringReadsBack(chars: seq<Byte>, rest: seq<Byte>)
    ensures ReadString(OneByteRecord(chars) + rest) == Some((Widen(chars), rest))
  {
    StringTagCodes();
    OneByteRecordReadsBack(chars, rest);
  }

  /** The reader skips one Padding byte before a two-byte record. */
  lemma TwoByteStringReadsBack(padding: seq<Byte>, units: JsString, rest: seq<Byte>)
    requires padding == [] || padding == Tag(T.Padding)
    ensures ReadString(padding + TwoByteRecord(units) + rest) == Some((units, rest))
  {
    StringTagCodes();
    TwoByteRecordReadsBack(units, rest);
    var record := TwoByteRecord(units) + rest;
    assert padding + TwoByteRecord(units) + rest == padding + record;
    assert record[0] == T.TagCode(T.TwoByteString);
    if padding != [] {
      assert (padding + record)[1..] == record;
    } else {
      assert padding + record == record;
    }
  }

  /** Whatever the offset, a string record reads back to the string, the bytes after it untouched. */
  lemma StringReadsBack(pos: nat, s: JsString, rest: seq<Byte>)
    ensures ReadString(StringBytes(pos, s) + rest) == Some((s, rest))
  {
    var utf8 := Engine.Utf8Encode(s);
    if |utf8| == |s| {
      OneByteStringReadsBack(utf8, rest);
      OneByteStringWidens(s);
    } else {
      TwoByteStringReadsBack(PaddingFor(pos, s), s, rest);
    }
  }

  /** The Padding byte is there exactly when the tag and the count end at an odd offset. */
  lemma PaddingLength(pos: nat, s: JsString)
    ensures |PaddingFor(pos, s)| == (pos + 1 + |Varint(2 * |s|)|) % 2
  {
  }

  /**
   * A two-byte string's code units start at an even buffer offset, the
   * Padding byte inserted exactly when the header would end at an odd one.
   */
  lemma TwoBytePayloadAligned(pos: nat, s: JsString)
    requires |Engine.Utf8Encode(s)| != |s|
    ensures var header := PaddingFor(pos, s) + Tag(T.TwoByteString) + Varint(2 * |s|);
            && StringBytes(pos, s) == header + UnitsLe(s)
            && (pos + |header|) % 2 == 0
            && (|PaddingFor(pos, s)| == 1 <==> (pos + 1 + |Varint(2 * |s|)|) % 2 == 1)
  {
    TwoByteLayout(pos, s);
    TwoByteHeaderEven(pos, s);
    PaddingLength(pos, s);
  }

  lemma TwoByteLayout(pos: nat, s: JsString)
    requires |Engine.Utf8Encode(s)| != |s|
    ensures StringBytes(pos, s) == PaddingFor(pos, s) + Tag(T.TwoByteString) + Varint(2 * |s|) + UnitsLe(s)
  {
    AppendAssociates3(PaddingFor(pos, s), Tag(T.TwoByteString), Varint(2 * |s|), UnitsLe(s));
  }

  lemma TwoByteHeaderEven(pos: nat, s: JsString)
    ensures var header := PaddingFor(pos, s) + Tag(T.TwoByteString) + Varint(2 * |s|);
            (pos + |header|) % 2 == 0
  {
    PaddingLength(pos, s);
    PaddingMakesEven(pos + 1 + |Varint(2 * |s|)|, |PaddingFor(pos, s)|);
  }

  lemma PaddingMakesEven(end: nat, padding: nat)
    requires padding == end % 2
    ensures (end + padding) % 2 == 0
  {
  }

  // ---------------------------------------------------------------------------
  // Runs of varints

  /** The varints of vs, one after the other. */
  function VarintsBytes(vs: seq<nat>): seq<Byte>
  {
    if vs == [] then [] else Varint(vs[0]) + VarintsBytes(vs[1..])
  }

  /** n varints in a row. */
  function ReadVarints(n: nat, bs: seq<Byte>): Option<(seq<nat>, seq<Byte>)>
  {
    if n == 0 then Some(([], bs))
    else match ReadVarint(bs)
      case None => None
      case Some((v, rest)) =>
        match ReadVarints(n - 1, rest)
        case None => None
        case Some((vs, after)) => Some(([v] + vs, after))
  }

  lemma {:induction false} VarintsReadBack(vs: seq<nat>, rest: seq<Byte>)
    ensures ReadVarints(|vs|, VarintsBytes(vs) + rest) == Some((vs, rest))
    decreases |vs|
  {
    if vs != [] {
      var bs, tail := VarintsBytes(vs) + rest, VarintsBytes(vs[1..]) + rest;
      assert bs == Varint(vs[0]) + tail;
      VarintReadsBack(vs[0], tail);
      VarintsReadBack(vs[1..], rest);
      assert ReadVarints(|vs| - 1, tail) == Some((vs[1..], rest));
      assert ReadVarints(|vs|, bs) == Some(([vs[0]] + vs[1..], rest));
      assert [vs[0]] + vs[1..] == vs;
    } else {
      assert VarintsBytes(vs) + rest == rest;
    }
  }

  // ---------------------------------------------------------------------------
  // Objects and arrays

  /**
   * Only an object without own properties is written whole: the first key is
   * a string, which `writeObject` rejects right after the begin tag.
   */
  lemma ObjectSlowWritesOnlyEmptyObjects(properties: seq<(JsString, Value)>)
    ensures ObjectSlowExpected(properties)
         == if |properties| == 0
            then Expected(Tag(T.BeginJSObject) + TaggedVarint(T.EndJSObject, 0), Normal(false))
            else Expected(Tag(T.BeginJSObject), Abrupt(DataCloneError))
  {
    if |properties| > 0 {
      ObjectOutcomes(Str(properties[0].0));
    }
  }

  /** A dense array is its begin tag and length alone, and ends normally. */
  lemma DenseArrayReadsBack(length: nat, elements: map<nat, Value>, properties: seq<(JsString, Value)>,
                            rest: seq<Byte>)
    requires Dense(length, elements)
    ensures ArrayExpected(length, elements, properties).outcome == Normal(false)
    ensures ReadTaggedVarint(T.BeginDenseJSArray, ArrayExpected(length, elements, properties).bytes + rest)
         == Some((length, rest))
  {
    TaggedVarintReadsBack(T.BeginDenseJSArray, length, rest);
  }

  /**
   * A holey array writes its begin tag and length; its first own property
   * (an array always has "length") is rejected, so only an array without
   * own properties gets its trailer.
   */
  lemma SparseArrayOutcomes(length: nat, elements: map<nat, Value>, properties: seq<(JsString, Value)>)
    requires !Dense(length, elements)
    ensures ArrayExpected(length, elements, properties)
         == if |properties| == 0
            then Expected(TaggedVarint(T.BeginSparseJSArray, length) + SparseArrayTrailer(0, length), Normal(false))
            else Expected(TaggedVarint(T.BeginSparseJSArray, length), Abrupt(DataCloneError))
  {
    if |properties| > 0 {
      ObjectOutcomes(Str(properties[0].0));
      assert TaggedVarint(T.BeginSparseJSArray, length) + [] == TaggedVarint(T.BeginSparseJSArray, length);
    }
  }

  /** The end tag, the property count and the length. */
  function ReadSparseArrayTrailer(bs: seq<Byte>): Option<(nat, nat, seq<Byte>)>
  {
    match ReadTaggedVarint(T.EndSparseJSArray, bs)
    case None => None
    case Some((count, rest)) =>
      match ReadVarint(rest)
      case None => None
      case Some((length, after)) => Some((count, length, after))
  }

  lemma SparseArrayTrailerReadsBack(count: nat, length: nat, rest: seq<Byte>)
    ensures ReadSparseArrayTrailer(SparseArrayTrailer(count, length) + rest) == Some((count, length, rest))
  {
    var tail := Varint(length) + rest;
    AppendAssociates2(TaggedVarint(T.EndSparseJSArray, count), Varint(length), rest);
    TaggedVarintReadsBack(T.EndSparseJSArray, count, tail);
    VarintReadsBack(length, rest);
    TrailerOf(SparseArrayTrailer(count, length) + rest, count, tail, length, rest);
  }

  lemma TrailerOf(bs: seq<Byte>, count: nat, tail: seq<Byte>, length: nat, rest: seq<Byte>)
    requires ReadTaggedVarint(T.EndSparseJSArray, bs) == Some((count, tail))
    requires ReadVarint(tail) == Some((length, rest))
    ensures ReadSparseArrayTrailer(bs) == Some((count, length, rest))
  {
  }

  // ---------------------------------------------------------------------------
  // Regular expressions, views and buffers

  /** The RegExp tag, the source string and the flag bitfield. */
  function ReadRegExp(bs: seq<Byte>): Option<(JsString, nat, seq<Byte>)>
  {
    if |bs| > 0 && bs[0] == T.TagCode(T.RegExp) then
      match ReadString(bs[1..])
      case None => None
      case Some((source, rest)) =>
        match ReadVarint(rest)
        case None => None
        case Some((flags, after)) => Some((source, flags, after))
    else None
  }

  /** A RegExp reads back to its source and the bits of exactly the flags it has. */
  lemma RegExpReadsBack(pos: nat, source: JsString, flags: seq<char>, rest: seq<Byte>)
    requires Engine.ValidFlags(flags)
    ensures ReadRegExp(RegExpBytes(pos, source, flags) + rest)
         == Some((source, Engine.FlagsMask(flags), rest))
  {
    var bitfield := Engine.RegExpFlagsBitfield(flags);
    var record := StringBytes(pos + 1, source);
    var tail := Varint(bitfield) + rest;
    AppendAssociates3(Tag(T.RegExp), record, Varint(bitfield), rest);
    StringReadsBack(pos + 1, source, tail);
    VarintReadsBack(bitfield, rest);
    RegExpOf(record + tail, source, tail, bitfield, rest);
    Engine.RegExpFlagsBitfieldIsMask(flags);
  }

  lemma RegExpOf(bs: seq<Byte>, source: JsString, tail: seq<Byte>, flags: nat, rest: seq<Byte>)
    requires ReadString(bs) == Some((source, tail))
    requires ReadVarint(tail) == Some((flags, rest))
    ensures ReadRegExp(Tag(T.RegExp) + bs) == Some((source, flags, rest))
  {
    assert (Tag(T.RegExp) + bs)[1..] == bs;
  }

  /** The view tag, then the sub-tag, offset, length and flags as varints. */
  function ReadView(bs: seq<Byte>): Option<(seq<nat>, seq<Byte>)>
  {
    if |bs| > 0 && bs[0] == T.TagCode(T.ArrayBufferView) then ReadVarints(4, bs[1..]) else None
  }

  lemma ViewFieldsAreVarints(code: Byte, byteOffset: nat, byteLength: nat)
    requires code < 0x80
    ensures ViewFields(code, byteOffset, byteLength) == VarintsBytes([code, byteOffset, byteLength, 0])
  {
    var vs: seq<nat> := [code, byteOffset, byteLength, 0];
    assert vs[1..] == [byteOffset, byteLength, 0];
    assert vs[1..][1..] == [byteLength, 0];
    assert vs[1..][1..][1..] == [0];
    assert VarintsBytes(vs[1..][1..][1..]) == Varint(0) + VarintsBytes([]);
    assert VarintsBytes(vs[1..][1..]) == Varint(byteLength) + Varint(0);
    assert VarintsBytes(vs[1..]) == Varint(byteOffset) + (Varint(byteLength) + Varint(0));
    assert Varint(code) == [code];
    assert VarintsBytes(vs) == [code] + (Varint(byteOffset) + (Varint(byteLength) + Varint(0)));
  }

  /**
   * A view that is written (not as a host object, not a DataView on shared
   * memory) reads back to its sub-tag, offset, length and zero flags.
   */
  lemma ViewReadsBack(view: ViewState, rest: seq<Byte>)
    requires !(view.kind.DataView? && view.bufferShared)
    ensures ViewExpected(view, false).outcome == Normal(false)
    ensures ReadView(ViewExpected(view, false).bytes + rest)
         == Some(([T.ViewTagCode(ViewTagOf(view.kind)), view.byteOffset, view.byteLength, 0], rest))
  {
    var code := T.ViewTagCode(ViewTagOf(view.kind));
    T.ViewTagCodesDistinctAndSmall();
    ViewFieldsAreVarints(code, view.byteOffset, view.byteLength);
    var fields := ViewFields(code, view.byteOffset, view.byteLength);
    assert (ViewExpected(view, false).bytes + rest)[1..] == fields + rest;
    VarintsReadBack([code, view.byteOffset, view.byteLength, 0], rest);
  }

  /** A fixed-length buffer: its tag, its length, its bytes. */
  function ReadArrayBuffer(bs: seq<Byte>): Option<(seq<Byte>, seq<Byte>)>
  {
    match ReadTaggedVarint(T.ArrayBuffer, bs)
    case None => None
    case Some((n, rest)) => if n <= |rest| then Some((rest[..n], rest[n..])) else None
  }

  lemma PlainArrayBufferReadsBack(contents: seq<Byte>, rest: seq<Byte>)
    ensures ReadArrayBuffer(PlainArrayBufferBytes(contents) + rest) == Some((contents, rest))
  {
    assert PlainArrayBufferBytes(contents) + rest == TaggedVarint(T.ArrayBuffer, |contents|) + (contents + rest);
    TaggedVarintReadsBack(T.ArrayBuffer, |contents|, contents + rest);
    assert (contents + rest)[..|contents|] == contents;
    assert (contents + rest)[|contents|..] == rest;
  }

  /** A resizable buffer: its tag, its length and maximum length, its bytes. */
  function ReadResizableArrayBuffer(bs: seq<Byte>): Option<(seq<Byte>, nat, seq<Byte>)>
  {
    if |bs| > 0 && bs[0] == T.TagCode(T.ResizableArrayBuffer) then
      match ReadVarints(2, bs[1..])
      case None => None
      case Some((lengths, rest)) =>
        if |lengths| == 2 && lengths[0] <= |rest| then Some((rest[..lengths[0]], lengths[1], rest[lengths[0]..]))
        else None
    else None
  }

  lemma ResizableArrayBufferReadsBack(contents: seq<Byte>, maxByteLength: nat, rest: seq<Byte>)
    ensures ReadResizableArrayBuffer(ResizableArrayBufferBytes(contents, maxByteLength) + rest)
         == Some((contents, maxByteLength, rest))
  {
    var lengths: seq<nat> := [|contents|, maxByteLength];
    assert lengths[1..] == [maxByteLength];
    assert VarintsBytes([maxByteLength]) == Varint(maxByteLength) + VarintsBytes([]);
    assert VarintsBytes(lengths) == Varint(|contents|) + Varint(maxByteLength);
    assert (ResizableArrayBufferBytes(contents, maxByteLength) + rest)[1..] == VarintsBytes(lengths) + (contents + rest);
    VarintsReadBack(lengths, contents + rest);
    assert (contents + rest)[..|contents|] == contents;
    assert (contents + rest)[|contents|..] == rest;
  }

  /**
   * `writeJSArrayBuffer` ends normally exactly for a buffer that is not
   * shared and is either transferred, or attached with lengths that fit in
   * 32 bits; when it throws it has written nothing.
   */
  lemma ArrayBufferOutcomes(buffer: ArrayBufferState, entry: Option<int>)
    requires ArrayBufferWritable(buffer, entry)
    ensures ArrayBufferExpected(buffer, entry).outcome.Normal?
        <==> !buffer.shared
             && (Transferred(entry)
                 || (!buffer.detached && |buffer.contents| <= 0xFFFF_FFFF
                     && (buffer.resizable ==> buffer.maxByteLength <= 0xFFFF_FFFF)))
    ensures ArrayBufferExpected(buffer, entry).outcome.Abrupt? ==> ArrayBufferExpected(buffer, entry).bytes == []
    ensures ArrayBufferExpected(buffer, entry).outcome.Abrupt?
            && ArrayBufferExpected(buffer, entry).outcome.error == DataCloneErrorDetachedArrayBuffer
        <==> !buffer.shared && !Transferred(entry) && buffer.detached
  {
  }

  /** A transferred buffer is written as its transfer id, its contents left out. */
  lemma TransferReadsBack(buffer: ArrayBufferState, entry: Option<int>, rest: seq<Byte>)
    requires ArrayBufferWritable(buffer, entry)
    requires !buffer.shared && Transferred(entry)
    ensures ReadTaggedVarint(T.ArrayBufferTransfer, ArrayBufferExpected(buffer, entry).bytes + rest)
         == Some((entry.value, rest))
  {
    TaggedVarintReadsBack(T.ArrayBufferTransfer, entry.value, rest);
  }

  // ---------------------------------------------------------------------------
  // Errors

  lemma ErrorTagCodeValues()
    ensures T.ErrorTagCode(T.EvalErrorPrototype) == 0x45 && T.ErrorTagCode(T.RangeErrorPrototype) == 0x52
    ensures T.ErrorTagCode(T.ReferenceErrorPrototype) == 0x46 && T.ErrorTagCode(T.SyntaxErrorPrototype) == 0x53
    ensures T.ErrorTagCode(T.TypeErrorPrototype) == 0x54 && T.ErrorTagCode(T.UriErrorPrototype) == 0x55
    ensures T.ErrorTagCode(T.Message) == 0x6D && T.ErrorTagCode(T.Stack) == 0x73
    ensures T.ErrorTagCode(T.Cause) == 0x63 && T.ErrorTagCode(T.End) == 0x2E
  {
  }

  /** The prototype sub-tags of the six built-in error constructors. */
  predicate IsPrototypeCode(b: Byte)
  {
    || b == T.ErrorTagCode(T.EvalErrorPrototype)
    || b == T.ErrorTagCode(T.RangeErrorPrototype)
    || b == T.ErrorTagCode(T.ReferenceErrorPrototype)
    || b == T.ErrorTagCode(T.SyntaxErrorPrototype)
    || b == T.ErrorTagCode(T.TypeErrorPrototype)
    || b == T.ErrorTagCode(T.UriErrorPrototype)
  }

  /** What may follow the fields: the cause or the end sub-tag. */
  predicate StartsErrorEnd(bs: seq<Byte>)
  {
    bs != [] && (bs[0] == T.ErrorTagCode(T.Cause) || bs[0] == T.ErrorTagCode(T.End))
  }

  /** A field that may be absent: its sub-tag and a string, or nothing when another byte comes next. */
  function ReadErrorField(tag: T.ErrorTag, bs: seq<Byte>): Option<(Option<JsString>, seq<Byte>)>
  {
    if |bs| > 0 && bs[0] == T.ErrorTagCode(tag) then
      match ReadString(bs[1..])
      case None => None
      case Some((s, rest)) => Some((Some(s), rest))
    else Some((None, bs))
  }

  /** An optional prototype sub-tag, then the optional message and stack fields. */
  function ReadErrorFields(bs: seq<Byte>): Option<(seq<Byte>, Option<JsString>, Option<JsString>, seq<Byte>)>
  {
    var prototype := if |bs| > 0 && IsPrototypeCode(bs[0]) then bs[..1] else [];
    match ReadErrorField(T.Message, bs[|prototype|..])
    case None => None
    case Some((message, afterMessage)) =>
      match ReadErrorField(T.Stack, afterMessage)
      case None => None
      case Some((stack, after)) => Some((prototype, message, stack, after))
  }

  lemma PresentFieldReadsBack(tag: T.ErrorTag, record: seq<Byte>, s: JsString, rest: seq<Byte>)
    requires ReadString(record + rest) == Some((s, rest))
    ensures ReadErrorField(tag, [T.ErrorTagCode(tag)] + record + rest) == Some((Some(s), rest))
  {
    assert ([T.ErrorTagCode(tag)] + record + rest)[1..] == record + rest;
  }

  lemma ErrorFieldReadsBack(pos: nat, tag: T.ErrorTag, s: Option<JsString>, rest: seq<Byte>)
    requires rest != [] && rest[0] != T.ErrorTagCode(tag)
    ensures ReadErrorField(tag, StringField(pos, tag, s) + rest) == Some((s, rest))
  {
    if s.Some? {
      StringReadsBack(pos + 1, s.value, rest);
      PresentFieldReadsBack(tag, StringBytes(pos + 1, s.value), s.value, rest);
    } else {
      assert StringField(pos, tag, s) + rest == rest;
    }
  }

  /** The prototype sub-tag is absent or a single byte that no field starts with. */
  lemma PrototypeTagShape(name: JsString)
    ensures var proto := ErrorPrototypeTag(name);
            proto == [] || (|proto| == 1 && IsPrototypeCode(proto[0]))
  {
  }

  /** A named error's fields read back up to the cause or end sub-tag that follows them. */
  lemma ErrorFieldsReadBack(pos: nat, name: JsString, message: Option<JsString>, stack: Option<JsString>,
                            tail: seq<Byte>)
    requires StartsErrorEnd(tail)
    ensures ReadErrorFields(ErrorFields(pos, name, message, stack) + tail)
         == Some((ErrorPrototypeTag(name), message, stack, tail))
  {
    var proto := ErrorPrototypeTag(name);
    var messageAt := pos + |proto|;
    var messageField := StringField(messageAt, T.Message, message);
    var stackAt := messageAt + |messageField|;
    var stackField := StringField(stackAt, T.Stack, stack);
    ErrorFieldsSplit(pos, name, message, stack, messageAt, stackAt);
    AppendAssociates3(proto, messageField, stackField, tail);
    PrototypeTagShape(name);
    MessageAndStackReadBack(messageAt, message, stackAt, stack, tail);
    FieldsAfterPrototype(proto, messageField + (stackField + tail), message, stackField + tail, stack, tail);
  }

  /** The message and stack fields read back, and neither starts like a prototype sub-tag. */
  lemma MessageAndStackReadBack(messageAt: nat, message: Option<JsString>, stackAt: nat, stack: Option<JsString>,
                                tail: seq<Byte>)
    requires StartsErrorEnd(tail)
    ensures var afterMessage := StringField(stackAt, T.Stack, stack) + tail;
            var afterProto := StringField(messageAt, T.Message, message) + afterMessage;
            && afterProto != [] && !IsPrototypeCode(afterProto[0])
            && ReadErrorField(T.Message, afterProto) == Some((message, afterMessage))
            && ReadErrorField(T.Stack, afterMessage) == Some((stack, tail))
  {
    var afterMessage := StringField(stackAt, T.Stack, stack) + tail;
    var afterProto := StringField(messageAt, T.Message, message) + afterMessage;
    ErrorTagCodeValues();
    ErrorFieldReadsBack(stackAt, T.Stack, stack, tail);
    assert afterMessage[0] == T.ErrorTagCode(T.Stack) || afterMessage[0] == tail[0];
    ErrorFieldReadsBack(messageAt, T.Message, message, afterMessage);
    assert afterProto[0] == T.ErrorTagCode(T.Message) || afterProto[0] == afterMessage[0];
  }

  lemma FieldsAfterPrototype(proto: seq<Byte>, afterProto: seq<Byte>, message: Option<JsString>,
                             afterMessage: seq<Byte>, stack: Option<JsString>, tail: seq<Byte>)
    requires proto == [] || (|proto| == 1 && IsPrototypeCode(proto[0]))
    requires afterProto != [] && !IsPrototypeCode(afterProto[0])
    requires ReadErrorField(T.Message, afterProto) == Some((message, afterMessage))
    requires ReadErrorField(T.Stack, afterMessage) == Some((stack, tail))
    ensures ReadErrorFields(proto + afterProto) == Some((proto, message, stack, tail))
  {
    assert (proto + afterProto)[|proto|..] == afterProto;
    if proto != [] {
      assert (proto + afterProto)[..1] == proto;
    } else {
      assert proto + afterProto == afterProto;
    }
  }

  /**
   * A whole Error record: the tag, the fields and then either the end
   * sub-tag, or the cause sub-tag followed by the cause's own record
   * (reported as whether a cause follows).
   */
  function ReadError(bs: seq<Byte>): Option<(seq<Byte>, Option<JsString>, Option<JsString>, bool, seq<Byte>)>
  {
    if |bs| > 0 && bs[0] == T.TagCode(T.Error) then
      match ReadErrorFields(bs[1..])
      case None => None
      case Some((prototype, message, stack, rest)) =>
        if StartsErrorEnd(rest) then
          Some((prototype, message, stack, rest[0] == T.ErrorTagCode(T.Cause), rest[1..]))
        else None
    else None
  }

  lemma ErrorRecordReadsBack(bs: seq<Byte>, tail: seq<Byte>,
                             prototype: seq<Byte>, message: Option<JsString>, stack: Option<JsString>)
    requires StartsErrorEnd(tail)
    requires |bs| > 0 && bs[0] == T.TagCode(T.Error)
    requires ReadErrorFields(bs[1..]) == Some((prototype, message, stack, tail))
    ensures ReadError(bs) == Some((prototype, message, stack, tail[0] == T.ErrorTagCode(T.Cause), tail[1..]))
  {
  }

  /** The end of an Error record starts with the cause sub-tag exactly when there is a cause. */
  lemma ErrorEndStarts(cause: Value, rest: seq<Byte>)
    requires SafeSmi(cause)
    ensures var tail := ErrorEnd(cause).bytes + rest;
            && StartsErrorEnd(tail)
            && (tail[0] == T.ErrorTagCode(T.Cause) <==> IsPresent(cause))
            && tail[1..] == if IsPresent(cause) then ObjectExpected(cause).bytes + rest else rest
  {
    ErrorTagCodeValues();
    var tail := ErrorEnd(cause).bytes + rest;
    if IsPresent(cause) {
      assert tail == [T.ErrorTagCode(T.Cause)] + (ObjectExpected(cause).bytes + rest);
    } else {
      assert tail == [T.ErrorTagCode(T.End)] + rest;
    }
  }

  /**
   * A named error reads back to its prototype, message and stack; a cause
   * follows exactly when the error has one, its record after the sub-tag.
   */
  lemma ErrorReadsBack(pos: nat, e: ErrorState, rest: seq<Byte>)
    requires e.name.Some? && SafeSmi(e.cause)
    ensures ReadError(ErrorExpected(pos, e).bytes + rest)
         == Some((ErrorPrototypeTag(e.name.value), e.message, e.stack, IsPresent(e.cause),
                  if IsPresent(e.cause) then ObjectExpected(e.cause).bytes + rest else rest))
  {
    var end := ErrorEnd(e.cause);
    var fields := ErrorFields(pos + 1, e.name.value, e.message, e.stack);
    var tail := end.bytes + rest;
    ErrorEndStarts(e.cause, rest);
    ErrorFieldsReadBack(pos + 1, e.name.value, e.message, e.stack, tail);
    var bs := ErrorExpected(pos, e).bytes + rest;
    assert bs == Tag(T.Error) + (fields + tail) by {
      AppendAssociates3(Tag(T.Error), fields, end.bytes, rest);
    }
    assert bs[1..] == fields + tail;
    ErrorRecordReadsBack(bs, tail, ErrorPrototypeTag(e.name.value), e.message, e.stack);
  }

  /** An unnamed error is the Error tag alone; a named one ends as its cause's `writeObject` does. */
  lemma ErrorOutcomes(pos: nat, e: ErrorState)
    requires e.name.Some? ==> SafeSmi(e.cause)
    ensures e.name.None? ==> ErrorExpected(pos, e) == Expected(Tag(T.Error), Normal(false))
    ensures ErrorExpected(pos, e).outcome
         == if e.name.Some? && IsPresent(e.cause) && (e.cause.Str? || e.cause.Symbol? || e.cause.Object?)
            then Abrupt(DataCloneError) else Normal(false)
  {
    if e.name.Some? && IsPresent(e.cause) {
      ObjectOutcomes(e.cause);
    }
  }

  lemma AppendAssociates3<X>(a: seq<X>, b: seq<X>, c: seq<X>, d: seq<X>)
    ensures a + (b + (c + d)) == a + b + c + d
  {
  }

  lemma AppendAssociates2<X>(a: seq<X>, b: seq<X>, c: seq<X>)
    ensures a + b + c == a + (b + c)
  {
  }

  // ---------------------------------------------------------------------------
  // Receivers

  /**
   * Every receiver other than a callable, a primitive wrapper and a Map
   * reaches `writeJSSet`: one without an iterator throws a TypeError before
   * any byte, one whose iteration is empty writes `'` `,` 0, and any other
   * writes `'` and then the first value its iteration yields, and ends with
   * that value's outcome.
   */
  lemma UnnamedReceiversReachSet(pos: nat, kind: ReceiverKind)
    requires Writable(kind) && !kind.Callable? && !kind.PrimitiveWrapper? && !kind.Map?
    ensures Iteration(kind).None? ==> BodyExpected(pos, kind) == Expected([], Abrupt(TypeError))
    ensures Iteration(kind).Some? && |Iteration(kind).value| == 0 ==>
      BodyExpected(pos, kind) == Expected(Tag(T.BeginJSSet) + Tag(T.EndJSSet) + Varint(0), Normal(false))
    ensures Iteration(kind).Some? && |Iteration(kind).value| > 0 ==>
      var first := ObjectExpected(Iteration(kind).value[0]);
      && BodyExpected(pos, kind).bytes == Tag(T.BeginJSSet) + first.bytes
      && BodyExpected(pos, kind).outcome == (if first.outcome.Abrupt? then first.outcome else Normal(false))
  {
  }

  /**
   * Plain objects, dates, regular expressions, ArrayBuffers, DataViews and
   * errors have no iterator, so `new Set(o)` throws before anything is written.
   */
  lemma NonIterableReceiversThrow(pos: nat, kind: ReceiverKind)
    requires || kind.PlainObject? || kind.Date? || kind.RegExp? || kind.ArrayBuffer? || kind.Error?
             || (kind.ArrayBufferView? && kind.view.kind.DataView?)
    ensures Writable(kind) && BodyExpected(pos, kind) == Expected([], Abrupt(TypeError))
  {
  }

  /** The Int32 number n. */
  function SmiNumber(n: int, bits: Float64): Value
  {
    Num(Number(Integer(n), bits))
  }

  /** `writeObject(1)` writes `I` 2 and yields undefined. */
  lemma SmiOneExpected(bits: Float64)
    ensures SafeSmi(SmiNumber(1, bits))
    ensures ObjectExpected(SmiNumber(1, bits)) == Expected([0x49, 2], Normal(false))
  {
    assert ZigZag(1) == 2 by { ZigZagOfSafeRange(1); }
  }

  /** `[]` reaches the Set record and writes `'` `,` 0. */
  lemma EmptyArrayWritesSetRecord(pos: nat, properties: seq<(JsString, Value)>)
    ensures Writable(Array(0, map[], properties))
    ensures BodyExpected(pos, Array(0, map[], properties)) == Expected([0x27, 0x2C, 0], Normal(false))
  {
    assert |Iteration(Array(0, map[], properties)).value| == 0;
  }

  /** `[1, 2]` reaches the Set record and writes `'` `I` 2: the loop stops after 1. */
  lemma PairArrayWritesSetRecord(pos: nat, one: Float64, two: Float64, properties: seq<(JsString, Value)>)
    ensures Writable(Array(2, map[0 := SmiNumber(1, one), 1 := SmiNumber(2, two)], properties))
    ensures BodyExpected(pos, Array(2, map[0 := SmiNumber(1, one), 1 := SmiNumber(2, two)], properties))
         == Expected([0x27, 0x49, 2], Normal(false))
  {
    var a := Array(2, map[0 := SmiNumber(1, one), 1 := SmiNumber(2, two)], properties);
    assert Iteration(a).value[0] == SmiNumber(1, one);
    SmiOneExpected(one);
  }

  /** `[, 1]` reaches the Set record and writes `'` `_`: its hole reads as undefined. */
  lemma HoleyArrayWritesSetRecord(pos: nat, one: Float64, properties: seq<(JsString, Value)>)
    ensures Writable(Array(2, map[1 := SmiNumber(1, one)], properties))
    ensures BodyExpected(pos, Array(2, map[1 := SmiNumber(1, one)], properties)) == Expected([0x27, 0x5F], Normal(false))
  {
    var holey := Array(2, map[1 := SmiNumber(1, one)], properties);
    assert Iteration(holey).value[0] == Undefined;
  }

  /** A typed array reaches the Set record too: `Uint8Array.of(1)` writes `'` `I` 2. */
  lemma TypedArrayWritesSetRecord(pos: nat, view: ViewState, one: Float64)
    requires view.kind.TypedArray?
    ensures Writable(ArrayBufferView(view, [SmiNumber(1, one)]))
    ensures BodyExpected(pos, ArrayBufferView(view, [SmiNumber(1, one)])) == Expected([0x27, 0x49, 2], Normal(false))
  {
    SmiOneExpected(one);
  }
}
