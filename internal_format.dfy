/*
 * The byte layouts the main port's writers produce (src/internal/value-serializer.ts),
 * as functions of the value written and of the buffer position where the
 * record starts, together with how each writer ends (normally, with the
 * falsy value every writer returns, or by throwing). Spec-level readers
 * read the records back; the methods of InternalSerializer.ValueSerializer
 * are proved to append exactly these bytes.
 */
module InternalFormat {
  import opened Wire
  import opened Values
  import T = Tags
  import Engine

  /** `writeTag(t)`: the tag's single byte. */
  function Tag(t: T.SerializationTag): seq<Byte>
  {
    [T.TagCode(t)]
  }

  /** The bytes a writer appends when no allocation fails, and how the call ends. */
  datatype Expected<R> = Expected(bytes: seq<Byte>, outcome: Completion<R>)

  /**
   * The number-typed varint loops shift with `>>=`, which first converts to
   * int32. Below 2^31 that conversion changes nothing; a value whose int32
   * image is negative never shifts down to 0, so the loop does not end.
   * The model covers the values below this bound.
   */
  const VarintLimit: nat := 0x8000_0000

  /** A tag followed by a varint: array headers, object trailers, references and transfers. */
  function TaggedVarint(tag: T.SerializationTag, v: nat): seq<Byte>
  {
    Tag(tag) + Varint(v)
  }

  /** A Smi whose ZigZag image is below 2^31, so that writing it ends. */
  predicate SafeSmi(v: Value)
  {
    Engine.IsSmi(v) ==> -0x4000_0000 <= Engine.SmiValue(v) < 0x4000_0000
  }

  function ZigZag(n: int): (r: nat)
    requires -0x4000_0000 <= n < 0x4000_0000
    ensures r < VarintLimit
  {
    ZigZagOfSafeRange(n);
    ZigZagInt32(n)
  }

  // ---------------------------------------------------------------------------
  // Primitives

  /** `writeSmi`: the Int32 tag and the ZigZag varint. */
  function SmiBytes(n: int): seq<Byte>
    requires -0x4000_0000 <= n < 0x4000_0000
  {
    Tag(T.Int32) + Varint(ZigZag(n))
  }

  /** `writeOddball` */
  function OddballTag(v: Value): T.SerializationTag
    requires v.Undefined? || v.Null? || v.Bool?
  {
    match v
    case Undefined => T.Undefined
    case Null => T.Null
    case Bool(b) => if b then T.True else T.False
  }

  /** `writeBigIntContents`: the bitfield as a varint, then the eight digit bytes. */
  function BigIntContentsBytes(b: int): seq<Byte>
  {
    Varint(Engine.BigIntBitfield(b)) + Engine.BigIntDigits(b)
  }

  /** What `writeObject` writes for the values it accepts, None for those it rejects. */
  function PrimitiveBytes(v: Value): Option<seq<Byte>>
    requires SafeSmi(v)
  {
    if Engine.IsSmi(v) then Some(SmiBytes(Engine.SmiValue(v)))
    else match v
      case Undefined => Some(Tag(OddballTag(v)))
      case Null => Some(Tag(OddballTag(v)))
      case Bool(_) => Some(Tag(OddballTag(v)))
      case Num(n) => Some(Tag(T.Double) + n.bits)
      case BigInt(b) => Some(Tag(T.BigInt) + BigIntContentsBytes(b))
      case _ => None
  }

  /**
   * `writeObject(v)` on a buffer that has not run out of memory: strings,
   * symbols and objects are classified as nothing it handles and rejected.
   */
  function ObjectExpected(v: Value): Expected<bool>
    requires SafeSmi(v)
  {
    match PrimitiveBytes(v)
    case Some(bytes) => Expected(bytes, Normal(false))
    case None => Expected([], Abrupt(DataCloneError))
  }

  // ---------------------------------------------------------------------------
  // Strings

  /** Both string headers hold a varint of at most twice the length. */
  predicate StringFits(s: JsString)
  {
    2 * |s| < VarintLimit
  }

  /** The Padding byte that puts the two-byte payload at an even offset. */
  function PaddingFor(pos: nat, s: JsString): seq<Byte>
  {
    if (pos + 1 + |Varint(2 * |s|)|) % 2 == 1 then Tag(T.Padding) else []
  }

  /**
   * `writeString(s)` at buffer offset pos: one-byte when the UTF-8 image is
   * as long as the string (its bytes are then the payload), two-byte otherwise.
   */
  function StringBytes(pos: nat, s: JsString): seq<Byte>
  {
    var utf8 := Engine.Utf8Encode(s);
    if |utf8| == |s| then OneByteRecord(utf8)
    else PaddingFor(pos, s) + TwoByteRecord(s)
  }

  /** A one-byte string record: its tag, then `writeOneByteString`'s bytes. */
  function OneByteRecord(chars: seq<Byte>): seq<Byte>
  {
    Tag(T.OneByteString) + OneByteStringBytes(chars)
  }

  /** A two-byte string record: its tag, then `writeTwoByteString`'s bytes. */
  function TwoByteRecord(units: JsString): seq<Byte>
  {
    Tag(T.TwoByteString) + TwoByteStringBytes(units)
  }

  /** `writeOneByteString`: the byte count, then the bytes. */
  function OneByteStringBytes(chars: seq<Byte>): seq<Byte>
  {
    Varint(|chars|) + chars
  }

  /** `writeTwoByteString`: the byte count, then each code unit little-endian. */
  function TwoByteStringBytes(units: JsString): seq<Byte>
  {
    Varint(2 * |units|) + UnitsLe(units)
  }

  function Widen(bs: seq<Byte>): (r: JsString)
    ensures |r| == |bs|
  {
    seq(|bs|, i requires 0 <= i < |bs| => bs[i])
  }

  /** Spec-level reader of a string record, an optional Padding byte first. */
  function ReadString(bs: seq<Byte>): (r: Option<(JsString, seq<Byte>)>)
    ensures r.Some? ==> |r.value.1| < |bs|
  {
    if |bs| > 0 && bs[0] == T.TagCode(T.Padding) then ReadStringRecord(bs[1..])
    else ReadStringRecord(bs)
  }

  function ReadStringRecord(bs: seq<Byte>): (r: Option<(JsString, seq<Byte>)>)
    ensures r.Some? ==> |r.value.1| < |bs|
  {
    if |bs| == 0 then None
    else match DecodeVarint(bs[1..])
      case None => None
      case Some((n, used)) =>
        var start := 1 + used;
        if start + n > |bs| then None
        else if bs[0] == T.TagCode(T.OneByteString) then
          Some((Widen(bs[start..start + n]), bs[start + n..]))
        else if bs[0] == T.TagCode(T.TwoByteString) && n % 2 == 0 then
          Some((UnitsFromLe(bs[start..start + n]), bs[start + n..]))
        else None
  }

  // ---------------------------------------------------------------------------
  // Receivers

  /** `writeJSDate`, followed by the caller's out-of-memory check. */
  function DateExpected(time: Float64): Expected<bool>
  {
    Expected(Tag(T.Date) + time, Normal(false))
  }

  /** `writeJSPrimitiveWrapper(value)`, by the wrapped primitive. */
  function WrapperExpected(pos: nat, inner: Value): Expected<bool>
  {
    match inner
    case Bool(b) => Expected(Tag(if b then T.TrueObject else T.FalseObject), Normal(false))
    case Num(n) => Expected(Tag(T.NumberObject) + n.bits, Normal(false))
    case BigInt(b) => Expected(Tag(T.BigIntObject) + BigIntContentsBytes(b), Normal(false))
    case Str(s) => Expected(Tag(T.StringObject) + StringBytes(pos + 1, s), Normal(false))
    case _ => Expected([], Abrupt(DataCloneError))
  }

  /** `writeJSRegExp`: the source string and the flag bitfield. */
  function RegExpBytes(pos: nat, source: JsString, flags: seq<char>): seq<Byte>
  {
    Tag(T.RegExp) + StringBytes(pos + 1, source) + Varint(Engine.RegExpFlagsBitfield(flags))
  }

  /**
   * `writeJSMap`: the entry loop destructures the holes of a fresh array, so a
   * non-empty map throws a TypeError before anything is written.
   */
  function MapExpected(entries: seq<(Value, Value)>): Expected<bool>
  {
    if |entries| == 0 then Expected(Tag(T.BeginJSMap) + Tag(T.EndJSMap) + Varint(0), Normal(false))
    else Expected([], Abrupt(TypeError))
  }

  /**
   * What iterating an object yields, None for an object without
   * `Symbol.iterator`: an array's elements with its holes read as undefined,
   * a Set's members and a typed array's items. Maps and primitive wrappers
   * are iterable too, but the receiver switch never hands them to `writeJSSet`.
   */
  function Iteration(kind: ReceiverKind): Option<seq<Value>>
    requires !kind.Map? && !kind.PrimitiveWrapper?
  {
    match kind
    case Array(length, elements, _) => Some(seq(length, i => if i in elements then elements[i] else Undefined))
    case Set(members) => Some(members)
    case ArrayBufferView(view, items) => if view.kind.TypedArray? then Some(items) else None
    case _ => None
  }

  /**
   * `[...new Set(values)]`: each value at its first occurrence, in order.
   * Values are compared by the model's equality, not by SameValueZero.
   */
  function Distinct(values: seq<Value>): (r: seq<Value>)
    ensures |r| <= |values|
    ensures |values| > 0 ==> |r| > 0 && r[0] == values[0]
    ensures forall v :: v in r <==> v in values
    ensures forall i, j :: 0 <= i < j < |r| ==> r[i] != r[j]
  {
    if |values| == 0 then []
    else
      var init := Distinct(values[..|values| - 1]);
      assert values == values[..|values| - 1] + [values[|values| - 1]];
      if values[|values| - 1] in init then init else init + [values[|values| - 1]]
  }

  /** The first value `writeJSSet` hands to `writeObject` is a safe Smi if a Smi at all. */
  predicate SetWritable(iterated: Option<seq<Value>>)
  {
    iterated.Some? && |iterated.value| > 0 ==> SafeSmi(iterated.value[0])
  }

  /**
   * `writeJSSet(o)`: `new Set(o)` throws a TypeError for an object without an
   * iterator; otherwise the loop stops at the first entry, for which
   * `writeObject` is falsy or throws.
   */
  function SetExpected(iterated: Option<seq<Value>>): Expected<bool>
    requires SetWritable(iterated)
  {
    if iterated.None? then Expected([], Abrupt(TypeError))
    else
      var entries := Distinct(iterated.value);
      if |entries| == 0 then Expected(Tag(T.BeginJSSet) + Tag(T.EndJSSet) + Varint(0), Normal(false))
      else
        var first := ObjectExpected(entries[0]);
        Expected(Tag(T.BeginJSSet) + first.bytes, if first.outcome.Abrupt? then first.outcome else Normal(false))
  }

  /**
   * `writeJSObjectPropertiesSlow`: the count of properties written, None for
   * the falsy stop; the first key, a string, is already rejected by `writeObject`.
   */
  function PropertiesExpected(properties: seq<(JsString, Value)>): Expected<Option<nat>>
  {
    if |properties| == 0 then Expected([], Normal(Some(0)))
    else
      var key := ObjectExpected(Str(properties[0].0));
      Expected(key.bytes, if key.outcome.Abrupt? then Abrupt(key.outcome.error) else Normal(None))
  }

  /** `writeJSObjectSlow`: the begin tag, the properties, the end tag and their count. */
  function ObjectSlowExpected(properties: seq<(JsString, Value)>): Expected<bool>
  {
    var p := PropertiesExpected(properties);
    var head := Tag(T.BeginJSObject) + p.bytes;
    match p.outcome
    case Abrupt(e) => Expected(head, Abrupt(e))
    case Normal(None) => Expected(head, Normal(false))
    case Normal(Some(n)) => Expected(head + TaggedVarint(T.EndJSObject, n), Normal(false))
  }

  /** No index below the length is a hole. */
  predicate Dense(length: nat, elements: map<nat, Value>)
  {
    forall i :: 0 <= i < length ==> i in elements
  }

  /** A sparse array's end tag, the property count and the length again. */
  function SparseArrayTrailer(count: nat, length: nat): seq<Byte>
  {
    Tag(T.EndSparseJSArray) + Varint(count) + Varint(length)
  }

  /** `writeJSArray`: a dense array writes its begin tag and length only. */
  function ArrayExpected(length: nat, elements: map<nat, Value>, properties: seq<(JsString, Value)>): Expected<bool>
  {
    if Dense(length, elements) then Expected(TaggedVarint(T.BeginDenseJSArray, length), Normal(false))
    else SparseArrayExpected(length, properties)
  }

  /** The sparse form: begin tag and length, the properties, then (when they yield a count) the trailer. */
  function SparseArrayExpected(length: nat, properties: seq<(JsString, Value)>): Expected<bool>
  {
    var p := PropertiesExpected(properties);
    var head := TaggedVarint(T.BeginSparseJSArray, length) + p.bytes;
    match p.outcome
    case Abrupt(e) => Expected(head, Abrupt(e))
    case Normal(None) => Expected(head, Normal(false))
    case Normal(Some(n)) => Expected(head + SparseArrayTrailer(n, length), Normal(false))
  }

  /** `writeHostObject` without a delegate: the tag, then a DataCloneError. */
  function HostObjectExpected(): Expected<bool>
  {
    Expected(Tag(T.HostObject), Abrupt(DataCloneError))
  }

  /** The sub-tag `writeJSArrayBufferView` picks; a constructor the switch does not name keeps Int8Array. */
  function ViewTagOf(kind: ViewKind): T.ArrayBufferViewTag
  {
    match kind
    case DataView => T.DataView
    case TypedArray(elements) =>
      match elements
      case Int8 => T.Int8Array
      case Uint8 => T.Uint8Array
      case Uint8Clamped => T.Uint8ClampedArray
      case Int16 => T.Int16Array
      case Uint16 => T.Uint16Array
      case Int32 => T.Int32Array
      case Uint32 => T.Uint32Array
      case Float32 => T.Float32Array
      case Float64Elements => T.Float64Array
      case BigInt64 => T.BigInt64Array
      case BigUint64 => T.BigUint64Array
      case OtherTypedArray => T.Int8Array
  }

  /** `writeJSArrayBufferView`: the view record, flags 0. */
  function ViewExpected(view: ViewState, asHostObject: bool): Expected<bool>
  {
    if asHostObject then HostObjectExpected()
    else if view.kind.DataView? && view.bufferShared then Expected(Tag(T.ArrayBufferView), Abrupt(DataCloneError))
    else Expected(
      Tag(T.ArrayBufferView) + ViewFields(T.ViewTagCode(ViewTagOf(view.kind)), view.byteOffset, view.byteLength),
      Normal(false))
  }

  /**
   * A view's sub-tag (below 128, so its varint is the byte itself), offset,
   * length and flags, which are always 0.
   */
  function ViewFields(code: Byte, byteOffset: nat, byteLength: nat): seq<Byte>
  {
    [code] + Varint(byteOffset) + Varint(byteLength) + Varint(0)
  }

  predicate ViewWritable(view: ViewState, asHostObject: bool)
  {
    asHostObject || (view.kind.DataView? && view.bufferShared)
    || (view.byteOffset < VarintLimit && view.byteLength < VarintLimit)
  }

  /** The prototype tag for the built-in error names; any other name writes none. */
  function ErrorPrototypeTag(name: JsString): seq<Byte>
  {
    if name == Ascii("EvalError") then [T.ErrorTagCode(T.EvalErrorPrototype)]
    else if name == Ascii("RangeError") then [T.ErrorTagCode(T.RangeErrorPrototype)]
    else if name == Ascii("ReferenceError") then [T.ErrorTagCode(T.ReferenceErrorPrototype)]
    else if name == Ascii("SyntaxError") then [T.ErrorTagCode(T.SyntaxErrorPrototype)]
    else if name == Ascii("TypeError") then [T.ErrorTagCode(T.TypeErrorPrototype)]
    else if name == Ascii("URIError") then [T.ErrorTagCode(T.UriErrorPrototype)]
    else []
  }

  /** A field tag and its string at offset pos, or nothing for an absent field. */
  function StringField(pos: nat, tag: T.ErrorTag, s: Option<JsString>): seq<Byte>
  {
    if s.None? then [] else [T.ErrorTagCode(tag)] + StringBytes(pos + 1, s.value)
  }

  /**
   * What `writeJSError` writes after its tag for a named error starting at
   * offset pos: the prototype sub-tag, then the message and stack fields.
   */
  function ErrorFields(pos: nat, name: JsString, message: Option<JsString>, stack: Option<JsString>): seq<Byte>
  {
    var proto := ErrorPrototypeTag(name);
    var withMessage := proto + StringField(pos + |proto|, T.Message, message);
    withMessage + StringField(pos + |withMessage|, T.Stack, stack)
  }

  /** The fields of a named error as three pieces, each starting where the previous one ends. */
  lemma ErrorFieldsSplit(pos: nat, name: JsString, message: Option<JsString>, stack: Option<JsString>,
                         messageAt: nat, stackAt: nat)
    requires messageAt == pos + |ErrorPrototypeTag(name)|
    requires stackAt == messageAt + |StringField(messageAt, T.Message, message)|
    ensures ErrorFields(pos, name, message, stack)
         == ErrorPrototypeTag(name) + StringField(messageAt, T.Message, message) + StringField(stackAt, T.Stack, stack)
  {
  }

  /**
   * How `writeJSError` ends: a present cause is written with `writeObject`,
   * whose result ends the call; otherwise the end sub-tag.
   */
  function ErrorEnd(cause: Value): Expected<bool>
    requires SafeSmi(cause)
  {
    if IsPresent(cause) then
      var written := ObjectExpected(cause);
      Expected([T.ErrorTagCode(T.Cause)] + written.bytes,
               if written.outcome.Abrupt? then written.outcome else Normal(false))
    else Expected([T.ErrorTagCode(T.End)], Normal(false))
  }

  /** `writeJSError`: prototype, message, stack, then the cause or the end tag. */
  function ErrorExpected(pos: nat, e: ErrorState): Expected<bool>
    requires e.name.Some? ==> SafeSmi(e.cause)
  {
    if e.name.None? then Expected(Tag(T.Error), Normal(false))
    else
      var end := ErrorEnd(e.cause);
      Expected(Tag(T.Error) + ErrorFields(pos + 1, e.name.value, e.message, e.stack) + end.bytes, end.outcome)
  }

  predicate ErrorWritable(e: ErrorState)
  {
    e.name.Some? ==>
      && (e.message.Some? ==> StringFits(e.message.value))
      && (e.stack.Some? ==> StringFits(e.stack.value))
      && SafeSmi(e.cause)
  }

  /** The values every varint and nested `writeObject` of a receiver's body needs for the writer to end. */
  predicate Writable(kind: ReceiverKind)
  {
    match kind
    case Callable => true
    case PrimitiveWrapper(inner) => inner.Str? ==> StringFits(inner.s)
    case Map(_) => true
    case _ => SetWritable(Iteration(kind))
  }

  /**
   * What `writeJSReceiver` writes after assigning the id. A callable is
   * rejected; otherwise the switch goes by `ObjectPrototypeInstanceType`,
   * which names only primitive wrappers and Maps. Every other object has the
   * instance type undefined, and the first case label that is undefined as
   * well, because `InstanceType` has no such member, is `JS_SET_TYPE`.
   */
  function BodyExpected(pos: nat, kind: ReceiverKind): Expected<bool>
    requires Writable(kind)
  {
    if kind.Callable? then Expected([], Abrupt(DataCloneError))
    else
      match Engine.ObjectPrototypeInstanceType(kind)
      case Some(PrimitiveWrapperType) => WrapperExpected(pos, kind.inner)
      case Some(MapType) => MapExpected(kind.entries)
      case None => SetExpected(Iteration(kind))
  }

  /** `^` and the id of an object written before. */
  function BackReferenceBytes(id: nat): seq<Byte>
  {
    TaggedVarint(T.ObjectReference, id)
  }

  // ---------------------------------------------------------------------------
  // ArrayBuffers

  /** The transfer map's entry counts only when truthy: present and not 0. */
  predicate Transferred(entry: Option<int>)
  {
    entry.Some? && entry.value != 0
  }

  /** The varints `writeJSArrayBuffer` reaches take values below 2^31. */
  predicate ArrayBufferWritable(buffer: ArrayBufferState, entry: Option<int>)
  {
    if buffer.shared then true
    else if Transferred(entry) then 0 < entry.value < VarintLimit
    else if buffer.detached || |buffer.contents| > 0xFFFF_FFFF then true
    else if buffer.resizable then
      buffer.maxByteLength > 0xFFFF_FFFF || (|buffer.contents| < VarintLimit && buffer.maxByteLength < VarintLimit)
    else |buffer.contents| < VarintLimit
  }

  /**
   * `writeJSArrayBuffer` without a delegate: shared, transferred, detached,
   * too long, resizable and plain buffers, tested in that order.
   */
  function ArrayBufferExpected(buffer: ArrayBufferState, entry: Option<int>): Expected<bool>
    requires ArrayBufferWritable(buffer, entry)
  {
    var length := |buffer.contents|;
    if buffer.shared then Expected([], Abrupt(DataCloneError))
    else if Transferred(entry) then Expected(TaggedVarint(T.ArrayBufferTransfer, entry.value), Normal(false))
    else if buffer.detached then Expected([], Abrupt(DataCloneErrorDetachedArrayBuffer))
    else if length > 0xFFFF_FFFF then Expected([], Abrupt(DataCloneError))
    else if buffer.resizable then
      if buffer.maxByteLength > 0xFFFF_FFFF then Expected([], Abrupt(DataCloneError))
      else Expected(ResizableArrayBufferBytes(buffer.contents, buffer.maxByteLength), Normal(false))
    else Expected(PlainArrayBufferBytes(buffer.contents), Normal(false))
  }

  /** A fixed-length buffer: the tag, the byte length, the bytes. */
  function PlainArrayBufferBytes(contents: seq<Byte>): seq<Byte>
  {
    Tag(T.ArrayBuffer) + Varint(|contents|) + contents
  }

  /** A resizable buffer: the tag, the byte length, the maximum byte length, the bytes. */
  function ResizableArrayBufferBytes(contents: seq<Byte>, maxByteLength: nat): seq<Byte>
  {
    Tag(T.ResizableArrayBuffer) + Varint(|contents|) + Varint(maxByteLength) + contents
  }
}
