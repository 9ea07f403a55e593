/*
 * The JavaScript values the serializers are handed, as far as the writers
 * look at them. The engine's run-time classification of objects is not
 * modelled: each object arrives already tagged with the kind its writer
 * expects, together with a handle that stands for its identity. Floating
 * point numbers are carried as the eight bytes `Float64Array.of(x)` lays
 * out, without interpreting them.
 */
module Values {
  import opened Wire

  /** The identity of a JS object (what a `Map` keyed by objects compares). */
  type Handle = nat

  /** A JS string: a sequence of UTF-16 code units, lone surrogates allowed. */
  type JsString = seq<CodeUnit>

  /** The eight bytes of a float64 in host (little-endian) order. */
  type Float64 = s: seq<Byte> | |s| == 8 witness [0, 0, 0, 0, 0, 0, 0, 0]

  /** What the integer tests can see of a number. */
  datatype NumberValue =
    | Integer(i: int)
    | MinusZero
    | NonInteger  // NaN, the infinities and numbers with a fractional part

  datatype Number = Number(value: NumberValue, bits: Float64)

  datatype Value =
    | Undefined
    | Null
    | Bool(b: bool)
    | Num(n: Number)
    | BigInt(i: int)
    | Str(s: JsString)
    | Symbol
    | Object(receiver: Receiver)

  /**
   * An object: its identity and what its kind-specific writer reads from it.
   * `properties` lists `Object.getOwnPropertyNames` in order with the values;
   * for an array it always holds at least "length". A view's `items` are the
   * numbers or BigInts iterating a typed array yields.
   */
  datatype Receiver = Receiver(handle: Handle, kind: ReceiverKind)

  datatype ReceiverKind =
    | Callable
    | PlainObject(properties: seq<(JsString, Value)>)
    | SpecialApiObject
    | Array(length: nat, elements: map<nat, Value>, properties: seq<(JsString, Value)>)
    | Date(time: Float64)
    | PrimitiveWrapper(inner: Value)
    | RegExp(source: JsString, flags: seq<char>)
    | Map(entries: seq<(Value, Value)>)
    | Set(members: seq<Value>)
    | ArrayBuffer(buffer: ArrayBufferState)
    | ArrayBufferView(view: ViewState, items: seq<Value>)
    | Error(error: ErrorState)
    | SharedObject
    | WasmModule
    | Unclassified

  /** byteLength is |contents|. */
  datatype ArrayBufferState = ArrayBufferState(
    shared: bool,
    detached: bool,
    resizable: bool,
    maxByteLength: nat,
    contents: seq<Byte>)

  /** The constructor of a typed array; OtherTypedArray stands for one the writer's switch does not name. */
  datatype TypedArrayKind =
    | Int8 | Uint8 | Uint8Clamped | Int16 | Uint16 | Int32 | Uint32
    | Float32 | Float64Elements | BigInt64 | BigUint64 | OtherTypedArray

  datatype ViewKind = TypedArray(elements: TypedArrayKind) | DataView

  datatype ViewState = ViewState(kind: ViewKind, byteOffset: nat, byteLength: nat, bufferShared: bool)

  /** The properties `writeJSError` reads; None stands for null or undefined. */
  datatype ErrorState = ErrorState(
    name: Option<JsString>,
    message: Option<JsString>,
    stack: Option<JsString>,
    cause: Value)

  /** The exceptions the writers can end with. */
  datatype ErrorKind =
    | DataCloneError
    | DataCloneErrorDetachedArrayBuffer
    | DataCloneErrorOutOfMemory
    | TypeError
    | ReferenceError

  /** How a JS call ends: with a value, or by throwing. */
  datatype Completion<T> = Normal(value: T) | Abrupt(error: ErrorKind)

  /** The code units of an ASCII literal. */
  function Ascii(s: string): JsString
  {
    seq(|s|, i requires 0 <= i < |s| => (s[i] as int) % 0x1_0000)
  }

  /** `x != null`: neither undefined nor null. */
  predicate IsPresent(v: Value)
  {
    !v.Undefined? && !v.Null?
  }
}
