/*
 * The constant tables of the wire format, version 15: the one-character
 * tags that open every record, the ArrayBufferView sub-tags and the Error
 * record's field tags. The main port writes `"x".charCodeAt(0)` numbers and
 * the second port one-character strings; both are the same characters, so
 * the table is kept once, as characters, with the byte each one becomes.
 * The second port's BigInt stubs live beside the tables, as in its source.
 */
module Tags {
  import opened Wire

  /** The format version both ports announce in the header. */
  const LatestVersion: nat := 15

  /** The record tags, the 14 legacy reserved ones included. */
  datatype SerializationTag =
      Version | Padding | VerifyObjectCount | TheHole
    | Undefined | Null | True | False
    | Int32 | Uint32 | Double | BigInt
    | Utf8String | OneByteString | TwoByteString | ObjectReference
    | BeginJSObject | EndJSObject | BeginSparseJSArray | EndSparseJSArray
    | BeginDenseJSArray | EndDenseJSArray | Date | TrueObject
    | FalseObject | NumberObject | BigIntObject | StringObject
    | RegExp | BeginJSMap | EndJSMap | BeginJSSet
    | EndJSSet | ArrayBuffer | ResizableArrayBuffer | ArrayBufferTransfer
    | ArrayBufferView | SharedArrayBuffer | SharedObject | WasmModuleTransfer
    | HostObject | WasmMemoryTransfer | Error | LegacyReservedMessagePort
    | LegacyReservedBlob | LegacyReservedBlobIndex | LegacyReservedFile | LegacyReservedFileIndex
    | LegacyReservedDOMFileSystem | LegacyReservedFileList | LegacyReservedFileListIndex | LegacyReservedImageData
    | LegacyReservedImageBitmap | LegacyReservedImageBitmapTransfer | LegacyReservedOffscreenCanvas | LegacyReservedCryptoKey
    | LegacyReservedRTCCertificate

  function TagChar(t: SerializationTag): char
  {
    match t
    case Version => '\U{FF}'
    case Padding => '\0'
    case VerifyObjectCount => '?'
    case TheHole => '-'
    case Undefined => '_'
    case Null => '0'
    case True => 'T'
    case False => 'F'
    case Int32 => 'I'
    case Uint32 => 'U'
    case Double => 'N'
    case BigInt => 'Z'
    case Utf8String => 'S'
    case OneByteString => '"'
    case TwoByteString => 'c'
    case ObjectReference => '^'
    case BeginJSObject => 'o'
    case EndJSObject => '{'
    case BeginSparseJSArray => 'a'
    case EndSparseJSArray => '@'
    case BeginDenseJSArray => 'A'
    case EndDenseJSArray => '$'
    case Date => 'D'
    case TrueObject => 'y'
    case FalseObject => 'x'
    case NumberObject => 'n'
    case BigIntObject => 'z'
    case StringObject => 's'
    case RegExp => 'R'
    case BeginJSMap => ';'
    case EndJSMap => ':'
    case BeginJSSet => '\''
    case EndJSSet => ','
    case ArrayBuffer => 'B'
    case ResizableArrayBuffer => '~'
    case ArrayBufferTransfer => 't'
    case ArrayBufferView => 'V'
    case SharedArrayBuffer => 'u'
    case SharedObject => 'p'
    case WasmModuleTransfer => 'w'
    case HostObject => '\\'
    case WasmMemoryTransfer => 'm'
    case Error => 'r'
    case LegacyReservedMessagePort => 'M'
    case LegacyReservedBlob => 'b'
    case LegacyReservedBlobIndex => 'i'
    case LegacyReservedFile => 'f'
    case LegacyReservedFileIndex => 'e'
    case LegacyReservedDOMFileSystem => 'd'
    case LegacyReservedFileList => 'l'
    case LegacyReservedFileListIndex => 'L'
    case LegacyReservedImageData => '#'
    case LegacyReservedImageBitmap => 'g'
    case LegacyReservedImageBitmapTransfer => 'G'
    case LegacyReservedOffscreenCanvas => 'H'
    case LegacyReservedCryptoKey => 'K'
    case LegacyReservedRTCCertificate => 'k'
  }

  /** The byte a tag is written as. */
  function TagCode(t: SerializationTag): Byte
  {
    TagChar(t) as int
  }

  /** The tag a character stands for, if any. */
  function TagOfChar(c: char): Option<SerializationTag>
  {
    match c
    case '\U{FF}' => Some(Version)
    case '\0' => Some(Padding)
    case '?' => Some(VerifyObjectCount)
    case '-' => Some(TheHole)
    case '_' => Some(Undefined)
    case '0' => Some(Null)
    case 'T' => Some(True)
    case 'F' => Some(False)
    case 'I' => Some(Int32)
    case 'U' => Some(Uint32)
    case 'N' => Some(Double)
    case 'Z' => Some(BigInt)
    case 'S' => Some(Utf8String)
    case '"' => Some(OneByteString)
    case 'c' => Some(TwoByteString)
    case '^' => Some(ObjectReference)
    case 'o' => Some(BeginJSObject)
    case '{' => Some(EndJSObject)
    case 'a' => Some(BeginSparseJSArray)
    case '@' => Some(EndSparseJSArray)
    case 'A' => Some(BeginDenseJSArray)
    case '$' => Some(EndDenseJSArray)
    case 'D' => Some(Date)
    case 'y' => Some(TrueObject)
    case 'x' => Some(FalseObject)
    case 'n' => Some(NumberObject)
    case 'z' => Some(BigIntObject)
    case 's' => Some(StringObject)
    case 'R' => Some(RegExp)
    case ';' => Some(BeginJSMap)
    case ':' => Some(EndJSMap)
    case '\'' => Some(BeginJSSet)
    case ',' => Some(EndJSSet)
    case 'B' => Some(ArrayBuffer)
    case '~' => Some(ResizableArrayBuffer)
    case 't' => Some(ArrayBufferTransfer)
    case 'V' => Some(ArrayBufferView)
    case 'u' => Some(SharedArrayBuffer)
    case 'p' => Some(SharedObject)
    case 'w' => Some(WasmModuleTransfer)
    case '\\' => Some(HostObject)
    case 'm' => Some(WasmMemoryTransfer)
    case 'r' => Some(Error)
    case 'M' => Some(LegacyReservedMessagePort)
    case 'b' => Some(LegacyReservedBlob)
    case 'i' => Some(LegacyReservedBlobIndex)
    case 'f' => Some(LegacyReservedFile)
    case 'e' => Some(LegacyReservedFileIndex)
    case 'd' => Some(LegacyReservedDOMFileSystem)
    case 'l' => Some(LegacyReservedFileList)
    case 'L' => Some(LegacyReservedFileListIndex)
    case '#' => Some(LegacyReservedImageData)
    case 'g' => Some(LegacyReservedImageBitmap)
    case 'G' => Some(LegacyReservedImageBitmapTransfer)
    case 'H' => Some(LegacyReservedOffscreenCanvas)
    case 'K' => Some(LegacyReservedCryptoKey)
    case 'k' => Some(LegacyReservedRTCCertificate)
    case _ => None
  }

  /** The sub-tag naming an ArrayBufferView's element type. */
  datatype ArrayBufferViewTag =
      Int8Array | Uint8Array | Uint8ClampedArray | Int16Array
    | Uint16Array | Int32Array | Uint32Array | Float32Array
    | Float64Array | BigInt64Array | BigUint64Array | DataView

  function ViewTagChar(t: ArrayBufferViewTag): char
  {
    match t
    case Int8Array => 'b'
    case Uint8Array => 'B'
    case Uint8ClampedArray => 'C'
    case Int16Array => 'w'
    case Uint16Array => 'W'
    case Int32Array => 'd'
    case Uint32Array => 'D'
    case Float32Array => 'f'
    case Float64Array => 'F'
    case BigInt64Array => 'q'
    case BigUint64Array => 'Q'
    case DataView => '?'
  }

  function ViewTagCode(t: ArrayBufferViewTag): Byte
  {
    ViewTagChar(t) as int
  }

  function ViewTagOfChar(c: char): Option<ArrayBufferViewTag>
  {
    match c
    case 'b' => Some(Int8Array)
    case 'B' => Some(Uint8Array)
    case 'C' => Some(Uint8ClampedArray)
    case 'w' => Some(Int16Array)
    case 'W' => Some(Uint16Array)
    case 'd' => Some(Int32Array)
    case 'D' => Some(Uint32Array)
    case 'f' => Some(Float32Array)
    case 'F' => Some(Float64Array)
    case 'q' => Some(BigInt64Array)
    case 'Q' => Some(BigUint64Array)
    case '?' => Some(DataView)
    case _ => None
  }

  /** The tags of an Error record: the prototype, then its fields, then the end marker. */
  datatype ErrorTag =
      EvalErrorPrototype | RangeErrorPrototype | ReferenceErrorPrototype | SyntaxErrorPrototype
    | TypeErrorPrototype | UriErrorPrototype | Message | Cause
    | Stack | End

  function ErrorTagChar(t: ErrorTag): char
  {
    match t
    case EvalErrorPrototype => 'E'
    case RangeErrorPrototype => 'R'
    case ReferenceErrorPrototype => 'F'
    case SyntaxErrorPrototype => 'S'
    case TypeErrorPrototype => 'T'
    case UriErrorPrototype => 'U'
    case Message => 'm'
    case Cause => 'c'
    case Stack => 's'
    case End => '.'
  }

  function ErrorTagCode(t: ErrorTag): Byte
  {
    ErrorTagChar(t) as int
  }

  function ErrorTagOfChar(c: char): Option<ErrorTag>
  {
    match c
    case 'E' => Some(EvalErrorPrototype)
    case 'R' => Some(RangeErrorPrototype)
    case 'F' => Some(ReferenceErrorPrototype)
    case 'S' => Some(SyntaxErrorPrototype)
    case 'T' => Some(TypeErrorPrototype)
    case 'U' => Some(UriErrorPrototype)
    case 'm' => Some(Message)
    case 'c' => Some(Cause)
    case 's' => Some(Stack)
    case '.' => Some(End)
    case _ => None
  }

  /** The bytes `writeHeader` emits: the version tag and the version as a varint. */
  function HeaderBytes(): seq<Byte>
  {
    [TagCode(Version)] + Varint(LatestVersion)
  }

  // ---------------------------------------------------------------------------
  // The second port's BigInt helpers, which are stubs

  /** `BigInt_getBitFieldForSerialization`: always 0. */
  function StubBigIntBitField(b: int): nat
  {
    0
  }

  /** `BigInt_digitsByteLengthForSerialization`: always 0. */
  function StubBigIntDigitsByteLength(b: int): nat
  {
    0
  }

  // ---------------------------------------------------------------------------
  // Properties of the tables

  lemma TagCharRoundTrip(t: SerializationTag)
    ensures TagOfChar(TagChar(t)) == Some(t)
  {
    if t.Version? || t.Padding? || t.VerifyObjectCount? || t.TheHole? || t.Undefined? || t.Null? || t.True? || t.False? || t.Int32? || t.Uint32? || t.Double? || t.BigInt? {
      TagCharRoundTrip0(t);
    } else if t.Utf8String? || t.OneByteString? || t.TwoByteString? || t.ObjectReference? || t.BeginJSObject? || t.EndJSObject? || t.BeginSparseJSArray? || t.EndSparseJSArray? || t.BeginDenseJSArray? || t.EndDenseJSArray? {
      TagCharRoundTrip1(t);
    } else if t.Date? || t.TrueObject? || t.FalseObject? || t.NumberObject? || t.BigIntObject? || t.StringObject? || t.RegExp? || t.BeginJSMap? {
      TagCharRoundTrip2(t);
    } else if t.EndJSMap? || t.BeginJSSet? || t.EndJSSet? || t.ArrayBuffer? || t.ResizableArrayBuffer? || t.ArrayBufferTransfer? || t.ArrayBufferView? {
      TagCharRoundTrip3(t);
    } else if t.SharedArrayBuffer? || t.SharedObject? || t.WasmModuleTransfer? || t.HostObject? || t.WasmMemoryTransfer? || t.Error? || t.LegacyReservedMessagePort? {
      TagCharRoundTrip4(t);
    } else if t.LegacyReservedBlob? || t.LegacyReservedBlobIndex? || t.LegacyReservedFile? || t.LegacyReservedFileIndex? {
      TagCharRoundTrip5(t);
    } else if t.LegacyReservedDOMFileSystem? || t.LegacyReservedFileList? || t.LegacyReservedFileListIndex? {
      TagCharRoundTrip6(t);
    } else if t.LegacyReservedImageData? || t.LegacyReservedImageBitmap? || t.LegacyReservedImageBitmapTransfer? {
      TagCharRoundTrip7(t);
    } else {
      TagCharRoundTrip8(t);
    }
  }

  lemma TagCharRoundTrip0(t: SerializationTag)
    requires t.Version? || t.Padding? || t.VerifyObjectCount? || t.TheHole? || t.Undefined? || t.Null? || t.True? || t.False? || t.Int32? || t.Uint32? || t.Double? || t.BigInt?
    ensures TagOfChar(TagChar(t)) == Some(t)
  {
  }

  lemma TagCharRoundTrip1(t: SerializationTag)
    requires t.Utf8String? || t.OneByteString? || t.TwoByteString? || t.ObjectReference? || t.BeginJSObject? || t.EndJSObject? || t.BeginSparseJSArray? || t.EndSparseJSArray? || t.BeginDenseJSArray? || t.EndDenseJSArray?
    ensures TagOfChar(TagChar(t)) == Some(t)
  {
  }

  lemma TagCharRoundTrip2(t: SerializationTag)
    requires t.Date? || t.TrueObject? || t.FalseObject? || t.NumberObject? || t.BigIntObject? || t.StringObject? || t.RegExp? || t.BeginJSMap?
    ensures TagOfChar(TagChar(t)) == Some(t)
  {
  }

  lemma TagCharRoundTrip3(t: SerializationTag)
    requires t.EndJSMap? || t.BeginJSSet? || t.EndJSSet? || t.ArrayBuffer? || t.ResizableArrayBuffer? || t.ArrayBufferTransfer? || t.ArrayBufferView?
    ensures TagOfChar(TagChar(t)) == Some(t)
  {
  }

  lemma TagCharRoundTrip4(t: SerializationTag)
    requires t.SharedArrayBuffer? || t.SharedObject? || t.WasmModuleTransfer? || t.HostObject? || t.WasmMemoryTransfer? || t.Error? || t.LegacyReservedMessagePort?
    ensures TagOfChar(TagChar(t)) == Some(t)
  {
  }

  lemma TagCharRoundTrip5(t: SerializationTag)
    requires t.LegacyReservedBlob? || t.LegacyReservedBlobIndex? || t.LegacyReservedFile? || t.LegacyReservedFileIndex?
    ensures TagOfChar(TagChar(t)) == Some(t)
  {
  }

  lemma TagCharRoundTrip6(t: SerializationTag)
    requires t.LegacyReservedDOMFileSystem? || t.LegacyReservedFileList? || t.LegacyReservedFileListIndex?
    ensures TagOfChar(TagChar(t)) == Some(t)
  {
  }

  lemma TagCharRoundTrip7(t: SerializationTag)
    requires t.LegacyReservedImageData? || t.LegacyReservedImageBitmap? || t.LegacyReservedImageBitmapTransfer?
    ensures TagOfChar(TagChar(t)) == Some(t)
  {
  }

  lemma TagCharRoundTrip8(t: SerializationTag)
    requires t.LegacyReservedOffscreenCanvas? || t.LegacyReservedCryptoKey? || t.LegacyReservedRTCCertificate?
    ensures TagOfChar(TagChar(t)) == Some(t)
  {
  }

  /** No two record tags share a byte. */
  lemma TagCodesDistinct()
    ensures forall a, b :: TagCode(a) == TagCode(b) ==> a == b
  {
    forall a, b | TagCode(a) == TagCode(b)
      ensures a == b
    {
      TagCharRoundTrip(a);
      TagCharRoundTrip(b);
    }
  }

  lemma ViewTagCharRoundTrip(t: ArrayBufferViewTag)
    ensures ViewTagOfChar(ViewTagChar(t)) == Some(t)
  {
  }

  /**
   * The view sub-tags are distinct and below 0x80, so a uint8 varint of a
   * sub-tag is that single byte.
   */
  lemma ViewTagCodesDistinctAndSmall()
    ensures forall a, b :: ViewTagCode(a) == ViewTagCode(b) ==> a == b
    ensures forall t :: ViewTagCode(t) < 0x80 && Varint(ViewTagCode(t)) == [ViewTagCode(t)]
  {
    forall a, b | ViewTagCode(a) == ViewTagCode(b)
      ensures a == b
    {
      ViewTagCharRoundTrip(a);
      ViewTagCharRoundTrip(b);
    }
  }

  lemma ErrorTagCharRoundTrip(t: ErrorTag)
    ensures ErrorTagOfChar(ErrorTagChar(t)) == Some(t)
  {
  }

  /** The Error record tags are distinct and below 0x80: each is written as one byte. */
  lemma ErrorTagCodesDistinctAndSmall()
    ensures forall a, b :: ErrorTagCode(a) == ErrorTagCode(b) ==> a == b
    ensures forall t :: ErrorTagCode(t) < 0x80 && Varint(ErrorTagCode(t)) == [ErrorTagCode(t)]
  {
    forall a, b | ErrorTagCode(a) == ErrorTagCode(b)
      ensures a == b
    {
      ErrorTagCharRoundTrip(a);
      ErrorTagCharRoundTrip(b);
    }
  }

  /** The version tag is 0xFF and the padding byte 0x00, so every stream starts FF 0F. */
  lemma HeaderIsFF0F()
    ensures TagCode(Version) == 0xFF && TagCode(Padding) == 0x00
    ensures HeaderBytes() == [0xFF, 0x0F]
  {
  }
}
