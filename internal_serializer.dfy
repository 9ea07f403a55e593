/*
 * The main port's `ValueSerializer` (src/internal/value-serializer.ts): a
 * growable byte buffer with a sticky out-of-memory flag, the identity table
 * of `writeJSReceiver`, and the per-kind writers. The model is the
 * serializer without a delegate; the memory provider is represented by
 * `memoryLimit`: a request for more bytes than that is refused.
 */
module InternalSerializer {
  import opened Wire
  import opened Values
  import T = Tags
  import Engine
  import Casts
  import opened InternalFormat
  import opened Buffers

  /** Three steps in a row without the flag: each started where the previous one ended. */
  lemma ErrorFieldsSteps(pos: nat, name: JsString, message: Option<JsString>, stack: Option<JsString>,
                         c0: seq<Byte>, m0: bool, c1: seq<Byte>, m1: bool, p1: nat,
                         c2: seq<Byte>, m2: bool, p2: nat, c3: seq<Byte>, m3: bool)
    requires !m0 ==> |c0| == pos
    requires p1 == |c1| && p2 == |c2|
    requires Extends(c0, m0, c1, m1, ErrorPrototypeTag(name))
    requires Extends(c1, m1, c2, m2, StringField(p1, T.Message, message))
    requires Extends(c2, m2, c3, m3, StringField(p2, T.Stack, stack))
    ensures !m3 ==> p1 == pos + |ErrorPrototypeTag(name)|
    ensures !m3 ==> p2 == p1 + |StringField(p1, T.Message, message)|
    ensures !m3 ==> c3 == c0 + ErrorPrototypeTag(name) + StringField(p1, T.Message, message) + StringField(p2, T.Stack, stack)
  {
  }

  lemma AppendAssociates(a: seq<Byte>, b: seq<Byte>, c: seq<Byte>, d: seq<Byte>)
    ensures a + b + c + d == a + (b + c + d)
  {
  }

  /** The three writes of a named error's fields add up to `ErrorFields`. */
  lemma ErrorFieldsChain(pos: nat, name: JsString, message: Option<JsString>, stack: Option<JsString>,
                         c0: seq<Byte>, m0: bool, c1: seq<Byte>, m1: bool, p1: nat,
                         c2: seq<Byte>, m2: bool, p2: nat, c3: seq<Byte>, m3: bool)
    requires !m0 ==> |c0| == pos
    requires p1 == |c1| && p2 == |c2|
    requires Extends(c0, m0, c1, m1, ErrorPrototypeTag(name))
    requires Extends(c1, m1, c2, m2, StringField(p1, T.Message, message))
    requires Extends(c2, m2, c3, m3, StringField(p2, T.Stack, stack))
    ensures Extends(c0, m0, c3, m3, ErrorFields(pos, name, message, stack))
  {
    ErrorFieldsSteps(pos, name, message, stack, c0, m0, c1, m1, p1, c2, m2, p2, c3, m3);
    if !m3 {
      ErrorFieldsSplit(pos, name, message, stack, p1, p2);
      AppendAssociates(c0, ErrorPrototypeTag(name), StringField(p1, T.Message, message), StringField(p2, T.Stack, stack));
    }
  }

  /** A writer that ends with `this.throwIfOutOfMemory(); return;`: the check throws, or the call yields undefined. */
  function ThenUndefined(check: Completion<bool>): Completion<bool>
  {
    if check.Abrupt? then check else Normal(false)
  }

  class ValueSerializer {
    var treatArrayBufferViewsAsHostObjects: bool
    var buffer: array?<Byte>
    var bufferCapacity: nat
    var bufferSize: nat
    var outOfMemory: bool
    var arrayBufferTransferMap: map<Handle, int>
    var idMap: map<Handle, nat>
    var nextId: nat
    /** The bytes written so far: the first `bufferSize` bytes of `buffer`. */
    ghost var written: seq<Byte>
    /** The receivers in the order they were given ids: receiver `idOrder[i]` has id i. */
    ghost var idOrder: seq<Handle>
    const memoryLimit: nat

    /**
     * size <= capacity, the capacity is the length of the backing buffer (0
     * when there is none), and `written` is what the buffer holds below the size.
     */
    ghost predicate BufferValid()
      reads this, buffer
    {
      && bufferSize <= bufferCapacity
      && |written| == bufferSize
      && (buffer == null ==> bufferCapacity == 0)
      && (buffer != null ==> buffer.Length == bufferCapacity && buffer[..bufferSize] == written)
    }

    /** Ids are dense and 0-based: the map stores id + 1 for exactly the receivers seen so far. */
    ghost predicate IdsValid()
      reads this
    {
      && |idOrder| == nextId
      && (forall i, j :: 0 <= i < j < |idOrder| ==> idOrder[i] != idOrder[j])
      && (forall i :: 0 <= i < |idOrder| ==> idOrder[i] in idMap && idMap[idOrder[i]] == i + 1)
      && (forall h :: h in idMap ==> h in idOrder)
    }

    ghost predicate Valid()
      reads this, buffer
    {
      BufferValid() && IdsValid()
    }

    /** What `expandBuffer` asks the provider for. */
    function Requested(requiredCapacity: nat): nat
      reads this
    {
      Max(requiredCapacity, bufferCapacity * 2) + 64
    }

    /** Whether n more bytes can be reserved: they fit, or the provider grants the growth. */
    ghost predicate Fits(n: nat)
      reads this
    {
      bufferSize + n <= bufferCapacity || Requested(bufferSize + n) <= memoryLimit
    }

    /** The backing buffer is the old one or a new one. */
    twostate predicate BufferFramed()
      reads this
    {
      buffer == old(buffer) || (buffer != null && fresh(buffer))
    }

    /** Several reservations: the flag is sticky, and without it the bytes are appended. */
    twostate predicate Wrote(bytes: seq<Byte>)
      reads this
    {
      BufferFramed() && Extends(old(written), old(outOfMemory), written, outOfMemory, bytes)
    }

    /**
     * One reservation's worth of bytes: appended whole when they fit (or the
     * provider grants the growth), otherwise refused with the flag set.
     */
    twostate predicate Put(bytes: seq<Byte>)
      reads this
    {
      && Wrote(bytes)
      && outOfMemory == (old(outOfMemory) || !old(Fits(|bytes|)))
      && written == if old(Fits(|bytes|)) then old(written) + bytes else old(written)
    }

    /**
     * A writer that returns: it wrote the expected bytes and ended as
     * expected, unless an allocation failed on the way, in which case its
     * final check may throw DataCloneErrorOutOfMemory instead.
     */
    twostate predicate Delivers<R>(e: Expected<R>, new r: Completion<R>)
      reads this
    {
      Wrote(e.bytes) && (r == e.outcome || (outOfMemory && r == Abrupt(DataCloneErrorOutOfMemory)))
    }

    /** The transfer id `transferArrayBuffer` registered for an ArrayBuffer. */
    function TransferEntry(h: Handle): Option<int>
      reads this
    {
      if h in arrayBufferTransferMap then Some(arrayBufferTransferMap[h]) else None
    }

    /** The receiver with a recorded id is the one that id was given to. */
    lemma IdOfHandle(h: Handle)
      requires IdsValid() && h in idMap
      ensures 1 <= idMap[h] <= nextId && idOrder[idMap[h] - 1] == h
    {
      var i :| 0 <= i < |idOrder| && idOrder[i] == h;
    }

    /** Distinct receivers never share an id. */
    lemma IdsDistinct(h1: Handle, h2: Handle)
      requires IdsValid() && h1 in idMap && h2 in idMap && h1 != h2
      ensures idMap[h1] != idMap[h2]
    {
      IdOfHandle(h1);
      IdOfHandle(h2);
    }

    constructor(memoryLimit: nat)
      ensures Valid() && this.memoryLimit == memoryLimit
      ensures buffer == null && bufferSize == 0 && bufferCapacity == 0 && !outOfMemory && written == []
      ensures idMap == map[] && nextId == 0 && arrayBufferTransferMap == map[]
      ensures !treatArrayBufferViewsAsHostObjects
    {
      this.memoryLimit := memoryLimit;
      treatArrayBufferViewsAsHostObjects := false;
      buffer := null;
      bufferCapacity := 0;
      bufferSize := 0;
      outOfMemory := false;
      arrayBufferTransferMap := map[];
      idMap := map[];
      nextId := 0;
      written := [];
      idOrder := [];
    }

    /** `expandBuffer(requiredCapacity)` */
    method ExpandBuffer(requiredCapacity: nat) returns (ok: bool)
      requires BufferValid()
      modifies this`buffer, this`bufferCapacity, this`outOfMemory
      ensures BufferValid() && BufferFramed()
      ensures ok <==> old(Requested(requiredCapacity)) <= memoryLimit
      ensures ok ==> fresh(buffer) && bufferCapacity == old(Requested(requiredCapacity))
                     && bufferCapacity > requiredCapacity && outOfMemory == old(outOfMemory)
      ensures !ok ==> buffer == old(buffer) && bufferCapacity == old(bufferCapacity) && outOfMemory
    {
      var requestedCapacity := Max(requiredCapacity, bufferCapacity * 2) + 64;
      var newBuffer := Reallocate(buffer, requestedCapacity, memoryLimit);
      if newBuffer != null {
        if buffer != null {
          assert newBuffer[..bufferSize] == buffer[..buffer.Length][..bufferSize];
        }
        buffer := newBuffer;
        bufferCapacity := requestedCapacity;
        ok := true;
      } else {
        outOfMemory := true;
        ok := false;
      }
    }

    /**
     * `reserveRawBytes(bytes)`: the offset of the reserved window, or None
     * when the buffer could not grow. The window's bytes are whatever the
     * buffer held there.
     */
    method ReserveRawBytes(bytes: nat) returns (dest: Option<nat>)
      requires BufferValid()
      modifies this`buffer, this`bufferCapacity, this`outOfMemory, this`bufferSize, this`written
      ensures BufferValid() && BufferFramed()
      ensures old(Fits(bytes)) ==>
        && dest == Some(old(bufferSize))
        && bufferSize == old(bufferSize) + bytes
        && outOfMemory == old(outOfMemory)
        && written[..old(bufferSize)] == old(written)
      ensures !old(Fits(bytes)) ==>
        dest == None && outOfMemory && bufferSize == old(bufferSize) && written == old(written)
    {
      var oldSize := bufferSize;
      var newSize := oldSize + bytes;
      if newSize > bufferCapacity {
        var ok := ExpandBuffer(newSize);
        if !ok {
          return None;
        }
      }
      bufferSize := newSize;
      written := if buffer == null then [] else buffer[..newSize];
      dest := Some(oldSize);
    }

    /** `writeRawBytes(source)` */
    method WriteRawBytes(source: seq<Byte>)
      requires BufferValid()
      modifies this`buffer, this`bufferCapacity, this`outOfMemory, this`bufferSize, this`written, buffer
      ensures BufferValid() && Put(source)
    {
      var dest := ReserveRawBytes(|source|);
      if dest.Some? {
        if |source| > 0 {
          assert buffer[..dest.value] == old(written) by {
            assert buffer[..dest.value] == buffer[..bufferSize][..dest.value];
          }
          CopyInto(buffer, dest.value, source);
          assert buffer[..bufferSize] == buffer[..dest.value] + buffer[dest.value..bufferSize];
        }
        written := old(written) + source;
      }
    }
    /** `writeTag(tag)` */
    method WriteTag(tag: T.SerializationTag)
      requires BufferValid()
      modifies this`buffer, this`bufferCapacity, this`outOfMemory, this`bufferSize, this`written, buffer
      ensures BufferValid() && Put(Tag(tag))
    {
      WriteRawBytes([T.TagCode(tag)]);
    }

    /** A tag and a varint, as array headers, object trailers, references and transfers are written. */
    method WriteTaggedVarint(tag: T.SerializationTag, v: nat)
      requires BufferValid() && v < VarintLimit
      modifies this`buffer, this`bufferCapacity, this`outOfMemory, this`bufferSize, this`written, buffer
      ensures BufferValid() && Wrote(TaggedVarint(tag, v))
    {
      ghost var c0, m0 := written, outOfMemory;
      WriteTag(tag);
      ghost var c1, m1 := written, outOfMemory;
      WriteVariantUint32(v);
      ExtendsChain(c0, m0, c1, m1, Tag(tag), written, outOfMemory, Varint(v));
    }

    /** `writeByte(value)`: the store into a Uint8Array keeps the value modulo 256. */
    method WriteByte(value: int)
      requires BufferValid()
      modifies this`buffer, this`bufferCapacity, this`outOfMemory, this`bufferSize, this`written, buffer
      ensures BufferValid() && Put([Casts.U8(value)])
    {
      var dest := ReserveRawBytes(1);
      if dest.Some? {
        assert buffer[..dest.value] == old(written) by {
          assert buffer[..dest.value] == buffer[..bufferSize][..dest.value];
        }
        buffer[dest.value] := Casts.U8(value);
        assert buffer[..bufferSize] == buffer[..dest.value] + [buffer[dest.value]];
        written := old(written) + [Casts.U8(value)];
      }
    }

    /** `writeVariantUint8`: a two-byte stack buffer, so only the first two groups survive. */
    method WriteVariantUint8(value: nat)
      requires BufferValid() && value < VarintLimit
      modifies this`buffer, this`bufferCapacity, this`outOfMemory, this`bufferSize, this`written, buffer
      ensures BufferValid() && Put(StackVarint(value, 2))
    {
      var stackBuffer := new Byte[2](_ => 0);
      var n := FillVarintStack(stackBuffer, value);
      WriteRawBytes(stackBuffer[..n]);
    }

    /** `writeVariantUint32`: five stack bytes hold every varint below 2^31. */
    method WriteVariantUint32(value: nat)
      requires BufferValid() && value < VarintLimit
      modifies this`buffer, this`bufferCapacity, this`outOfMemory, this`bufferSize, this`written, buffer
      ensures BufferValid() && Put(Varint(value))
    {
      var stackBuffer := new Byte[5](_ => 0);
      var n := FillVarintStack(stackBuffer, value);
      StackVarintFits(value, 5);
      WriteRawBytes(stackBuffer[..n]);
    }

    /** `writeVariantBigUint64`: ten stack bytes, enough for every value below 2^64. */
    method WriteVariantBigUint64(value: nat)
      requires BufferValid()
      modifies this`buffer, this`bufferCapacity, this`outOfMemory, this`bufferSize, this`written, buffer
      ensures BufferValid() && Put(StackVarint(value, 10))
    {
      var stackBuffer := new Byte[10](_ => 0);
      var n := FillVarintStack(stackBuffer, value);
      WriteRawBytes(stackBuffer[..n]);
    }

    /** `writeUint32(value)` */
    method WriteUint32(value: nat)
      requires BufferValid() && value < VarintLimit
      modifies this`buffer, this`bufferCapacity, this`outOfMemory, this`bufferSize, this`written, buffer
      ensures BufferValid() && Put(Varint(value))
    {
      WriteVariantUint32(value);
    }

    /** `writeBigUint64(value)` */
    method WriteBigUint64(value: nat)
      requires BufferValid()
      modifies this`buffer, this`bufferCapacity, this`outOfMemory, this`bufferSize, this`written, buffer
      ensures BufferValid() && Put(StackVarint(value, 10))
    {
      WriteVariantBigUint64(value);
    }

    /** `writeZigZagInt32` */
    method WriteZigZagInt32(value: int)
      requires BufferValid() && -0x4000_0000 <= value < 0x4000_0000
      modifies this`buffer, this`bufferCapacity, this`outOfMemory, this`bufferSize, this`written, buffer
      ensures BufferValid() && Put(Varint(ZigZag(value)))
    {
      ZigZagOfSafeRange(value);
      WriteVariantUint32(ZigZagInt32(value));
    }

    /** `writeDouble`: the eight bytes of the float64. */
    method WriteDouble(bits: Float64)
      requires BufferValid()
      modifies this`buffer, this`bufferCapacity, this`outOfMemory, this`bufferSize, this`written, buffer
      ensures BufferValid() && Put(bits)
    {
      WriteRawBytes(bits);
    }

    /** `writeOneByteString` */
    method WriteOneByteString(chars: seq<Byte>)
      requires BufferValid() && |chars| < VarintLimit
      modifies this`buffer, this`bufferCapacity, this`outOfMemory, this`bufferSize, this`written, buffer
      ensures BufferValid() && Wrote(OneByteStringBytes(chars))
    {
      ghost var c0, m0 := written, outOfMemory;
      WriteVariantUint32(|chars|);
      ghost var c1, m1 := written, outOfMemory;
      WriteRawBytes(chars);
      ExtendsChain(c0, m0, c1, m1, Varint(|chars|), written, outOfMemory, chars);
    }

    /** `writeTwoByteString` */
    method WriteTwoByteString(chars: array<CodeUnit>)
      requires BufferValid() && 2 * chars.Length < VarintLimit
      modifies this`buffer, this`bufferCapacity, this`outOfMemory, this`bufferSize, this`written, buffer
      ensures BufferValid() && Wrote(TwoByteStringBytes(chars[..]))
    {
      ghost var c0, m0 := written, outOfMemory;
      WriteVariantUint32(chars.Length * 2);
      ghost var c1, m1 := written, outOfMemory;
      WriteRawBytes(UnitsLe(chars[..]));
      ExtendsChain(c0, m0, c1, m1, Varint(2 * chars.Length), written, outOfMemory, UnitsLe(chars[..]));
    }

    /** `writeBigIntContents`: the bitfield, then the digits serialized into a reserved window. */
    method WriteBigIntContents(bigint: int)
      requires BufferValid()
      modifies this`buffer, this`bufferCapacity, this`outOfMemory, this`bufferSize, this`written, buffer
      ensures BufferValid() && Wrote(BigIntContentsBytes(bigint))
    {
      var bitfield := Engine.BigIntBitfield(bigint);
      var bytelength := Engine.BigIntDigitsByteLength(bitfield);
      ghost var c0, m0 := written, outOfMemory;
      WriteVariantUint32(bitfield);
      ghost var c1, m1 := written, outOfMemory;
      WriteBigIntDigits(bigint, bytelength);
      ExtendsChain(c0, m0, c1, m1, Varint(bitfield), written, outOfMemory, Engine.BigIntDigits(bigint));
    }

    /** The digit bytes `writeBigIntContents` reserves and lets the engine fill. */
    method WriteBigIntDigits(bigint: int, bytelength: nat)
      requires BufferValid() && bytelength == |Engine.BigIntDigits(bigint)|
      modifies this`buffer, this`bufferCapacity, this`outOfMemory, this`bufferSize, this`written, buffer
      ensures BufferValid() && Wrote(Engine.BigIntDigits(bigint))
    {
      var dest := ReserveRawBytes(bytelength);
      if dest.Some? {
        assert buffer[..dest.value] == old(written) by {
          assert buffer[..dest.value] == buffer[..bufferSize][..dest.value];
        }
        Engine.BigIntSerializeDigits(bigint, buffer, dest.value);
        assert buffer[..bufferSize] == buffer[..dest.value] + buffer[dest.value..bufferSize];
        written := old(written) + Engine.BigIntDigits(bigint);
      }
    }

    /** `writeString`: one-byte when the UTF-8 image is as long as the string, two-byte (padded to an even offset) otherwise. */
    method WriteString(s: JsString)
      requires BufferValid() && StringFits(s)
      modifies this`buffer, this`bufferCapacity, this`outOfMemory, this`bufferSize, this`written, buffer
      ensures BufferValid() && Wrote(StringBytes(old(bufferSize), s))
    {
      var utf8 := Engine.Utf8Encode(s);
      if |utf8| == |s| {
        WriteOneByteRecord(utf8);
      } else {
        var chars := Engine.ToUC16Vector(s);
        var byteLength := chars.Length * 2;
        var needed := BytesNeededForVariantUint32(byteLength);
        ghost var c0, m0 := written, outOfMemory;
        WritePadding(s, needed);
        ghost var c1, m1 := written, outOfMemory;
        WriteTwoByteRecord(chars);
        ExtendsChain(c0, m0, c1, m1, PaddingFor(old(bufferSize), s), written, outOfMemory, TwoByteRecord(s));
      }
    }

    /** The one-byte branch of `writeString`: the tag, then the bytes. */
    method WriteOneByteRecord(utf8: seq<Byte>)
      requires BufferValid() && |utf8| < VarintLimit
      modifies this`buffer, this`bufferCapacity, this`outOfMemory, this`bufferSize, this`written, buffer
      ensures BufferValid() && Wrote(OneByteRecord(utf8))
    {
      ghost var c0, m0 := written, outOfMemory;
      WriteTag(T.OneByteString);
      ghost var c1, m1 := written, outOfMemory;
      WriteOneByteString(utf8);
      ExtendsChain(c0, m0, c1, m1, Tag(T.OneByteString), written, outOfMemory, OneByteStringBytes(utf8));
    }

    /** The padding `writeString` inserts so that the two-byte payload starts at an even offset. */
    method WritePadding(s: JsString, needed: nat)
      requires BufferValid() && needed == |Varint(2 * |s|)|
      modifies this`buffer, this`bufferCapacity, this`outOfMemory, this`bufferSize, this`written, buffer
      ensures BufferValid() && Wrote(PaddingFor(old(bufferSize), s))
    {
      if (bufferSize + 1 + needed) % 2 == 1 {
        WriteTag(T.Padding);
      }
    }

    /** The two-byte branch of `writeString` after the padding: the tag, then the code units. */
    method WriteTwoByteRecord(chars: array<CodeUnit>)
      requires BufferValid() && 2 * chars.Length < VarintLimit
      modifies this`buffer, this`bufferCapacity, this`outOfMemory, this`bufferSize, this`written, buffer
      ensures BufferValid() && Wrote(TwoByteRecord(chars[..]))
    {
      ghost var c0, m0 := written, outOfMemory;
      WriteTag(T.TwoByteString);
      ghost var c1, m1 := written, outOfMemory;
      WriteTwoByteString(chars);
      ExtendsChain(c0, m0, c1, m1, Tag(T.TwoByteString), written, outOfMemory, TwoByteStringBytes(chars[..]));
    }

    /** `writeHeader`: the version tag and the latest version. */
    method WriteHeader()
      requires BufferValid()
      modifies this`buffer, this`bufferCapacity, this`outOfMemory, this`bufferSize, this`written, buffer
      ensures BufferValid() && Wrote(T.HeaderBytes())
    {
      ghost var c0, m0 := written, outOfMemory;
      WriteTag(T.Version);
      ghost var c1, m1 := written, outOfMemory;
      WriteVariantUint32(T.LatestVersion);
      ExtendsChain(c0, m0, c1, m1, Tag(T.Version), written, outOfMemory, Varint(T.LatestVersion));
    }

    /** The `treatArrayBufferViewsAsHostObjects` setter. */
    method SetTreatArrayBufferViewsAsHostObjects(v: bool)
      modifies this`treatArrayBufferViewsAsHostObjects
      ensures treatArrayBufferViewsAsHostObjects == v
    {
      treatArrayBufferViewsAsHostObjects := v;
    }

    /** `release()`: hands out the written bytes and forgets the buffer. */
    method Release() returns (result: seq<Byte>)
      requires BufferValid()
      modifies this`buffer, this`bufferSize, this`bufferCapacity, this`written
      ensures result == old(written)
      ensures buffer == null && bufferSize == 0 && bufferCapacity == 0 && BufferValid()
    {
      result := if buffer == null then [] else buffer[..bufferSize];
      written := [];
      buffer := null;
      bufferSize := 0;
      bufferCapacity := 0;
    }

    /** `transferArrayBuffer(transferId, arrayBuffer)` */
    method TransferArrayBuffer(transferId: int, arrayBuffer: Handle)
      modifies this`arrayBufferTransferMap
      ensures arrayBufferTransferMap == old(arrayBufferTransferMap)[arrayBuffer := transferId]
    {
      arrayBufferTransferMap := arrayBufferTransferMap[arrayBuffer := transferId];
    }

    /** `throwIfOutOfMemory()` */
    method ThrowIfOutOfMemory() returns (r: Completion<bool>)
      ensures r.Abrupt? <==> outOfMemory
      ensures r.Abrupt? ==> r.error == DataCloneErrorOutOfMemory
      ensures r.Normal? ==> r.value
    {
      if outOfMemory {
        return Abrupt(DataCloneErrorOutOfMemory);
      }
      return Normal(true);
    }

    // -------------------------------------------------------------------------
    // Primitives

    /** `writeOddball` */
    method WriteOddball(oddball: Value)
      requires BufferValid() && (oddball.Undefined? || oddball.Null? || oddball.Bool?)
      modifies this`buffer, this`bufferCapacity, this`outOfMemory, this`bufferSize, this`written, buffer
      ensures BufferValid() && Put(Tag(OddballTag(oddball)))
    {
      var tag := T.Undefined;
      if oddball.Undefined? {
        tag := T.Undefined;
      } else if oddball == Bool(false) {
        tag := T.False;
      } else if oddball == Bool(true) {
        tag := T.True;
      } else {
        tag := T.Null;
      }
      WriteTag(tag);
    }

    /** `writeSmi` */
    method WriteSmi(smi: int)
      requires BufferValid() && -0x4000_0000 <= smi < 0x4000_0000
      modifies this`buffer, this`bufferCapacity, this`outOfMemory, this`bufferSize, this`written, buffer
      ensures BufferValid() && Wrote(SmiBytes(smi))
    {
      ghost var c0, m0 := written, outOfMemory;
      WriteTag(T.Int32);
      ghost var c1, m1 := written, outOfMemory;
      WriteZigZagInt32(smi);
      ExtendsChain(c0, m0, c1, m1, Tag(T.Int32), written, outOfMemory, Varint(ZigZag(smi)));
    }

    /** `writeHeapNumber` */
    method WriteHeapNumber(bits: Float64)
      requires BufferValid()
      modifies this`buffer, this`bufferCapacity, this`outOfMemory, this`bufferSize, this`written, buffer
      ensures BufferValid() && Wrote(Tag(T.Double) + bits)
    {
      ghost var c0, m0 := written, outOfMemory;
      WriteTag(T.Double);
      ghost var c1, m1 := written, outOfMemory;
      WriteDouble(bits);
      ExtendsChain(c0, m0, c1, m1, Tag(T.Double), written, outOfMemory, bits);
    }

    /** `writeBigInt` */
    method WriteBigInt(bigint: int)
      requires BufferValid()
      modifies this`buffer, this`bufferCapacity, this`outOfMemory, this`bufferSize, this`written, buffer
      ensures BufferValid() && Wrote(Tag(T.BigInt) + BigIntContentsBytes(bigint))
    {
      ghost var c0, m0 := written, outOfMemory;
      WriteTag(T.BigInt);
      ghost var c1, m1 := written, outOfMemory;
      WriteBigIntContents(bigint);
      ExtendsChain(c0, m0, c1, m1, Tag(T.BigInt), written, outOfMemory, BigIntContentsBytes(bigint));
    }

    /**
     * `writeObject`: after the out-of-memory check, Smis, oddballs, other
     * numbers and BigInts. The instance type it switches on classifies every
     * string, symbol and object as none of the cases it handles, so those
     * end in a DataCloneError.
     */
    method WriteObject(v: Value) returns (r: Completion<bool>)
      requires BufferValid() && SafeSmi(v)
      modifies this`buffer, this`bufferCapacity, this`outOfMemory, this`bufferSize, this`written, buffer
      ensures BufferValid()
      ensures old(outOfMemory) ==> r == Abrupt(DataCloneErrorOutOfMemory) && written == old(written)
      ensures Delivers(ObjectExpected(v), r)
    {
      var check := ThrowIfOutOfMemory();
      if check.Abrupt? {
        return check;
      }
      if Engine.IsSmi(v) {
        WriteSmi(Engine.SmiValue(v));
      } else {
        match v {
          case Undefined => WriteOddball(v);
          case Null => WriteOddball(v);
          case Bool(_) => WriteOddball(v);
          case Num(n) => WriteHeapNumber(n.bits);
          case BigInt(b) => WriteBigInt(b);
          case _ => return Abrupt(DataCloneError);
        }
      }
      check := ThrowIfOutOfMemory();
      r := ThenUndefined(check);
    }

    // -------------------------------------------------------------------------
    // Receivers

    /**
     * `writeJSObjectPropertiesSlow`: the loop stops at its first key, which
     * is a string and so rejected by `writeObject`; the count is returned
     * only when there is no property at all.
     */
    method WriteJSObjectPropertiesSlow(properties: seq<(JsString, Value)>) returns (r: Completion<Option<nat>>)
      requires BufferValid()
      modifies this`buffer, this`bufferCapacity, this`outOfMemory, this`bufferSize, this`written, buffer
      ensures BufferValid() && Delivers(PropertiesExpected(properties), r)
    {
      if |properties| == 0 {
        return Normal(Some(0));
      }
      var keyWritten := WriteObject(Str(properties[0].0));
      // `!(undefined ?? false)` holds, so a key that is written still stops the loop
      r := if keyWritten.Abrupt? then Abrupt(keyWritten.error) else Normal(None);
    }

    /** `writeJSObjectSlow` (what `writeJSObject` delegates to) */
    method WriteJSObjectSlow(properties: seq<(JsString, Value)>) returns (r: Completion<bool>)
      requires BufferValid()
      modifies this`buffer, this`bufferCapacity, this`outOfMemory, this`bufferSize, this`written, buffer
      ensures BufferValid() && Delivers(ObjectSlowExpected(properties), r)
    {
      ghost var c0, m0 := written, outOfMemory;
      WriteTag(T.BeginJSObject);
      ghost var c1, m1 := written, outOfMemory;
      var propertiesWritten := WriteJSObjectPropertiesSlow(properties);
      ghost var p := PropertiesExpected(properties).bytes;
      ExtendsChain(c0, m0, c1, m1, Tag(T.BeginJSObject), written, outOfMemory, p);
      if !(propertiesWritten.Normal? && propertiesWritten.value.Some?) {
        return if propertiesWritten.Abrupt? then Abrupt(propertiesWritten.error) else Normal(false);
      }
      ghost var c2, m2 := written, outOfMemory;
      WriteTaggedVarint(T.EndJSObject, propertiesWritten.value.value);
      ExtendsChain(c0, m0, c2, m2, Tag(T.BeginJSObject) + p, written, outOfMemory,
                   TaggedVarint(T.EndJSObject, propertiesWritten.value.value));
      var check := ThrowIfOutOfMemory();
      r := ThenUndefined(check);
    }

    /** The three writes that close `writeJSArray`'s sparse form. */
    method WriteSparseArrayTrailer(count: nat, length: nat)
      requires BufferValid() && count < VarintLimit && length < VarintLimit
      modifies this`buffer, this`bufferCapacity, this`outOfMemory, this`bufferSize, this`written, buffer
      ensures BufferValid() && Wrote(SparseArrayTrailer(count, length))
    {
      ghost var c0, m0 := written, outOfMemory;
      WriteTag(T.EndSparseJSArray);
      ghost var c1, m1 := written, outOfMemory;
      WriteVariantUint32(count);
      ExtendsChain(c0, m0, c1, m1, Tag(T.EndSparseJSArray), written, outOfMemory, Varint(count));
      ghost var c2, m2 := written, outOfMemory;
      WriteVariantUint32(length);
      ExtendsChain(c0, m0, c2, m2, Tag(T.EndSparseJSArray) + Varint(count), written, outOfMemory, Varint(length));
    }

    /** `writeJSArray`: dense arrays write their length only; sparse ones their properties. */
    method WriteJSArray(length: nat, elements: map<nat, Value>, properties: seq<(JsString, Value)>)
      returns (r: Completion<bool>)
      requires BufferValid() && length < VarintLimit
      modifies this`buffer, this`bufferCapacity, this`outOfMemory, this`bufferSize, this`written, buffer
      ensures BufferValid() && Delivers(ArrayExpected(length, elements, properties), r)
    {
      var holey := Engine.ArrayHasHoleyElements(length, elements);
      var shouldSerializeDensely := !holey;
      assert shouldSerializeDensely == Dense(length, elements);
      if shouldSerializeDensely {
        WriteTaggedVarint(T.BeginDenseJSArray, length);
        var check := ThrowIfOutOfMemory();
        r := ThenUndefined(check);
      } else {
        r := WriteSparseJSArray(length, properties);
      }
    }

    /**
     * The sparse branch of `writeJSArray`, together with the
     * `throwIfOutOfMemory` both branches reach.
     */
    method WriteSparseJSArray(length: nat, properties: seq<(JsString, Value)>) returns (r: Completion<bool>)
      requires BufferValid() && length < VarintLimit
      modifies this`buffer, this`bufferCapacity, this`outOfMemory, this`bufferSize, this`written, buffer
      ensures BufferValid() && Delivers(SparseArrayExpected(length, properties), r)
    {
      ghost var c0, m0 := written, outOfMemory;
      WriteTaggedVarint(T.BeginSparseJSArray, length);
      ghost var c1, m1 := written, outOfMemory;
      var propertiesWritten := WriteJSObjectPropertiesSlow(properties);
      ghost var pe := PropertiesExpected(properties);
      ghost var head := TaggedVarint(T.BeginSparseJSArray, length);
      ExtendsChain(c0, m0, c1, m1, head, written, outOfMemory, pe.bytes);
      if !(propertiesWritten.Normal? && propertiesWritten.value.Some?) {
        return if propertiesWritten.Abrupt? then Abrupt(propertiesWritten.error) else Normal(false);
      }
      ghost var c2, m2 := written, outOfMemory;
      WriteSparseArrayTrailer(propertiesWritten.value.value, length);
      ExtendsChain(c0, m0, c2, m2, head + pe.bytes, written, outOfMemory,
                   SparseArrayTrailer(propertiesWritten.value.value, length));
      var check := ThrowIfOutOfMemory();
      r := ThenUndefined(check);
    }

    /** `writeJSDate`: the tag and the time value's float64. */
    method WriteJSDate(time: Float64)
      requires BufferValid()
      modifies this`buffer, this`bufferCapacity, this`outOfMemory, this`bufferSize, this`written, buffer
      ensures BufferValid() && Wrote(DateExpected(time).bytes)
    {
      WriteTaggedDouble(T.Date, time);
    }

    /** A tag followed by a float64, as `writeJSDate` and the number wrapper write. */
    method WriteTaggedDouble(tag: T.SerializationTag, bits: Float64)
      requires BufferValid()
      modifies this`buffer, this`bufferCapacity, this`outOfMemory, this`bufferSize, this`written, buffer
      ensures BufferValid() && Wrote(Tag(tag) + bits)
    {
      ghost var c0, m0 := written, outOfMemory;
      WriteTag(tag);
      ghost var c1, m1 := written, outOfMemory;
      WriteDouble(bits);
      ExtendsChain(c0, m0, c1, m1, Tag(tag), written, outOfMemory, bits);
    }

    /** A tag followed by a BigInt's contents, as the BigInt wrapper writes. */
    method WriteTaggedBigInt(tag: T.SerializationTag, b: int)
      requires BufferValid()
      modifies this`buffer, this`bufferCapacity, this`outOfMemory, this`bufferSize, this`written, buffer
      ensures BufferValid() && Wrote(Tag(tag) + BigIntContentsBytes(b))
    {
      ghost var c0, m0 := written, outOfMemory;
      WriteTag(tag);
      ghost var c1, m1 := written, outOfMemory;
      WriteBigIntContents(b);
      ExtendsChain(c0, m0, c1, m1, Tag(tag), written, outOfMemory, BigIntContentsBytes(b));
    }

    /** A tag followed by a string, as the string wrapper and `writeJSRegExp` write. */
    method WriteTaggedString(tag: T.SerializationTag, s: JsString)
      requires BufferValid() && StringFits(s)
      modifies this`buffer, this`bufferCapacity, this`outOfMemory, this`bufferSize, this`written, buffer
      ensures BufferValid() && Wrote(Tag(tag) + StringBytes(old(bufferSize) + 1, s))
    {
      ghost var c0, m0 := written, outOfMemory;
      WriteTag(tag);
      ghost var c1, m1, p1 := written, outOfMemory, bufferSize;
      WriteString(s);
      ExtendsChain(c0, m0, c1, m1, Tag(tag), written, outOfMemory, StringBytes(p1, s));
    }

    /** `writeJSPrimitiveWrapper`, on the wrapper's `valueOf()` */
    method WriteJSPrimitiveWrapper(innerValue: Value) returns (r: Completion<bool>)
      requires BufferValid() && (innerValue.Str? ==> StringFits(innerValue.s))
      modifies this`buffer, this`bufferCapacity, this`outOfMemory, this`bufferSize, this`written, buffer
      ensures BufferValid() && Delivers(WrapperExpected(old(bufferSize), innerValue), r)
    {
      match innerValue {
        case Bool(b) =>
          WriteTag(if b then T.TrueObject else T.FalseObject);
        case Num(n) =>
          WriteTaggedDouble(T.NumberObject, n.bits);
        case BigInt(b) =>
          WriteTaggedBigInt(T.BigIntObject, b);
        case Str(s) =>
          WriteTaggedString(T.StringObject, s);
        case _ =>
          return Abrupt(DataCloneError);
      }
      var check := ThrowIfOutOfMemory();
      r := ThenUndefined(check);
    }

    /** `writeJSRegExp` */
    method WriteJSRegExp(source: JsString, flags: seq<char>)
      requires BufferValid() && StringFits(source) && Engine.ValidFlags(flags)
      modifies this`buffer, this`bufferCapacity, this`outOfMemory, this`bufferSize, this`written, buffer
      ensures BufferValid() && Wrote(RegExpBytes(old(bufferSize), source, flags))
    {
      ghost var c0, m0 := written, outOfMemory;
      WriteTaggedString(T.RegExp, source);
      Engine.RegExpFlagsBitfieldIsMask(flags);
      ghost var c2, m2 := written, outOfMemory;
      WriteVariantUint32(Engine.RegExpFlagsBitfield(flags));
      ExtendsChain(c0, m0, c2, m2, Tag(T.RegExp) + StringBytes(old(bufferSize) + 1, source),
                   written, outOfMemory, Varint(Engine.RegExpFlagsBitfield(flags)));
    }

    /**
     * `writeJSMap`: the copy loop iterates `new Array(length)`, whose holes
     * cannot be destructured, so only an empty map gets written.
     */
    method WriteJSMap(entries: seq<(Value, Value)>) returns (r: Completion<bool>)
      requires BufferValid()
      modifies this`buffer, this`bufferCapacity, this`outOfMemory, this`bufferSize, this`written, buffer
      ensures BufferValid() && Delivers(MapExpected(entries), r)
    {
      var length := |entries| * 2;
      if length > 0 {
        return Abrupt(TypeError);
      }
      ghost var c0, m0 := written, outOfMemory;
      WriteTag(T.BeginJSMap);
      ghost var c1, m1 := written, outOfMemory;
      WriteTag(T.EndJSMap);
      ExtendsChain(c0, m0, c1, m1, Tag(T.BeginJSMap), written, outOfMemory, Tag(T.EndJSMap));
      ghost var c2, m2 := written, outOfMemory;
      WriteVariantUint32(length);
      ExtendsChain(c0, m0, c2, m2, Tag(T.BeginJSMap) + Tag(T.EndJSMap), written, outOfMemory, Varint(length));
      var check := ThrowIfOutOfMemory();
      r := ThenUndefined(check);
    }

    /**
     * `writeJSSet(o)`, given what iterating `o` yields (None when it has no
     * iterator, and `new Set(o)` throws): `writeObject` never yields a
     * truthy value, so the loop returns at the first entry.
     */
    method WriteJSSet(iterated: Option<seq<Value>>) returns (r: Completion<bool>)
      requires BufferValid() && SetWritable(iterated)
      modifies this`buffer, this`bufferCapacity, this`outOfMemory, this`bufferSize, this`written, buffer
      ensures BufferValid() && Delivers(SetExpected(iterated), r)
    {
      if iterated.None? {
        return Abrupt(TypeError);
      }
      var entries := Distinct(iterated.value);
      var length := |entries|;
      ghost var c0, m0 := written, outOfMemory;
      WriteTag(T.BeginJSSet);
      ghost var c1, m1 := written, outOfMemory;
      if length > 0 {
        var first := WriteObject(entries[0]);
        ExtendsChain(c0, m0, c1, m1, Tag(T.BeginJSSet), written, outOfMemory, ObjectExpected(entries[0]).bytes);
        return if first.Abrupt? then first else Normal(false);
      }
      WriteTag(T.EndJSSet);
      ExtendsChain(c0, m0, c1, m1, Tag(T.BeginJSSet), written, outOfMemory, Tag(T.EndJSSet));
      ghost var c2, m2 := written, outOfMemory;
      WriteVariantUint32(length);
      ExtendsChain(c0, m0, c2, m2, Tag(T.BeginJSSet) + Tag(T.EndJSSet), written, outOfMemory, Varint(length));
      var check := ThrowIfOutOfMemory();
      r := ThenUndefined(check);
    }

    /** `writeJSArrayBuffer`: the plain form after its checks. */
    method WritePlainArrayBuffer(contents: seq<Byte>)
      requires BufferValid() && |contents| < VarintLimit
      modifies this`buffer, this`bufferCapacity, this`outOfMemory, this`bufferSize, this`written, buffer
      ensures BufferValid() && Wrote(PlainArrayBufferBytes(contents))
    {
      ghost var c0, m0 := written, outOfMemory;
      WriteTag(T.ArrayBuffer);
      ghost var c1, m1 := written, outOfMemory;
      WriteVariantUint32(|contents|);
      ExtendsChain(c0, m0, c1, m1, Tag(T.ArrayBuffer), written, outOfMemory, Varint(|contents|));
      ghost var c2, m2 := written, outOfMemory;
      WriteRawBytes(contents);
      ExtendsChain(c0, m0, c2, m2, Tag(T.ArrayBuffer) + Varint(|contents|), written, outOfMemory, contents);
    }

    /** `writeJSArrayBuffer`: the resizable form after its checks. */
    method WriteResizableArrayBuffer(contents: seq<Byte>, maxByteLength: nat)
      requires BufferValid() && |contents| < VarintLimit && maxByteLength < VarintLimit
      modifies this`buffer, this`bufferCapacity, this`outOfMemory, this`bufferSize, this`written, buffer
      ensures BufferValid() && Wrote(ResizableArrayBufferBytes(contents, maxByteLength))
    {
      ghost var c0, m0 := written, outOfMemory;
      WriteTag(T.ResizableArrayBuffer);
      ghost var c1, m1 := written, outOfMemory;
      WriteVariantUint32(|contents|);
      ghost var head := Tag(T.ResizableArrayBuffer);
      ExtendsChain(c0, m0, c1, m1, head, written, outOfMemory, Varint(|contents|));
      head := head + Varint(|contents|);
      ghost var c2, m2 := written, outOfMemory;
      WriteVariantUint32(maxByteLength);
      ExtendsChain(c0, m0, c2, m2, head, written, outOfMemory, Varint(maxByteLength));
      head := head + Varint(maxByteLength);
      ghost var c3, m3 := written, outOfMemory;
      WriteRawBytes(contents);
      ExtendsChain(c0, m0, c3, m3, head, written, outOfMemory, contents);
    }

    /**
     * `writeJSArrayBuffer` without a delegate: shared buffers are refused,
     * transferred ones written by their transfer id, detached or too long
     * ones refused, the rest written whole.
     */
    method WriteJSArrayBuffer(handle: Handle, arrayBuffer: ArrayBufferState) returns (r: Completion<bool>)
      requires BufferValid() && ArrayBufferWritable(arrayBuffer, TransferEntry(handle))
      modifies this`buffer, this`bufferCapacity, this`outOfMemory, this`bufferSize, this`written, buffer
      ensures BufferValid() && Delivers(ArrayBufferExpected(arrayBuffer, old(TransferEntry(handle))), r)
    {
      if arrayBuffer.shared {
        return Abrupt(DataCloneError);
      }
      var transferEntry := TransferEntry(handle);
      if transferEntry.Some? && transferEntry.value != 0 {
        WriteTaggedVarint(T.ArrayBufferTransfer, transferEntry.value);
        var check := ThrowIfOutOfMemory();
        return ThenUndefined(check);
      }
      if arrayBuffer.detached {
        return Abrupt(DataCloneErrorDetachedArrayBuffer);
      }
      var byteLength := |arrayBuffer.contents|;
      if byteLength > 0xFFFF_FFFF {
        return Abrupt(DataCloneError);
      }
      if arrayBuffer.resizable {
        var maxByteLength := arrayBuffer.maxByteLength;
        if maxByteLength > 0xFFFF_FFFF {
          return Abrupt(DataCloneError);
        }
        WriteResizableArrayBuffer(arrayBuffer.contents, maxByteLength);
        var check := ThrowIfOutOfMemory();
        return ThenUndefined(check);
      }
      WritePlainArrayBuffer(arrayBuffer.contents);
      var check := ThrowIfOutOfMemory();
      r := ThenUndefined(check);
    }

    /** `writeHostObject` without a delegate: the tag, then a DataCloneError. */
    method WriteHostObject() returns (r: Completion<bool>)
      requires BufferValid()
      modifies this`buffer, this`bufferCapacity, this`outOfMemory, this`bufferSize, this`written, buffer
      ensures BufferValid() && Delivers(HostObjectExpected(), r)
    {
      WriteTag(T.HostObject);
      r := Abrupt(DataCloneError);
    }

    /** `writeVariantUint8` of an ArrayBufferView or Error sub-tag: every one is below 0x80, so one byte. */
    method WriteSubTag(code: nat)
      requires BufferValid() && code < 0x80
      modifies this`buffer, this`bufferCapacity, this`outOfMemory, this`bufferSize, this`written, buffer
      ensures BufferValid() && Put([code])
    {
      SmallVarint(code, 2);
      WriteVariantUint8(code);
    }

    /** The sub-tag, offset, length and flags that `writeJSArrayBufferView` writes after its tag. */
    method WriteViewFields(code: Byte, byteOffset: nat, byteLength: nat)
      requires BufferValid() && code < 0x80 && byteOffset < VarintLimit && byteLength < VarintLimit
      modifies this`buffer, this`bufferCapacity, this`outOfMemory, this`bufferSize, this`written, buffer
      ensures BufferValid() && Wrote(ViewFields(code, byteOffset, byteLength))
    {
      ghost var c0, m0 := written, outOfMemory;
      WriteSubTag(code);
      ghost var head: seq<Byte> := [code];
      ghost var c1, m1 := written, outOfMemory;
      WriteVariantUint32(byteOffset);
      ExtendsChain(c0, m0, c1, m1, head, written, outOfMemory, Varint(byteOffset));
      head := head + Varint(byteOffset);
      ghost var c2, m2 := written, outOfMemory;
      WriteVariantUint32(byteLength);
      ExtendsChain(c0, m0, c2, m2, head, written, outOfMemory, Varint(byteLength));
      head := head + Varint(byteLength);
      var flags := 0;
      ghost var c3, m3 := written, outOfMemory;
      WriteVariantUint32(flags);
      ExtendsChain(c0, m0, c3, m3, head, written, outOfMemory, Varint(flags));
    }

    /** `writeJSArrayBufferView`: the sub-tag by constructor, offset, length and flags 0. */
    method WriteJSArrayBufferView(view: ViewState) returns (r: Completion<bool>)
      requires BufferValid() && ViewWritable(view, treatArrayBufferViewsAsHostObjects)
      modifies this`buffer, this`bufferCapacity, this`outOfMemory, this`bufferSize, this`written, buffer
      ensures BufferValid() && Delivers(ViewExpected(view, treatArrayBufferViewsAsHostObjects), r)
    {
      if treatArrayBufferViewsAsHostObjects {
        r := WriteHostObject();
        return;
      }
      ghost var c0, m0 := written, outOfMemory;
      WriteTag(T.ArrayBufferView);
      var tag := T.Int8Array;
      if view.kind.TypedArray? {
        match view.kind.elements {
          case Uint8 => tag := T.Uint8Array;
          case Uint8Clamped => tag := T.Uint8ClampedArray;
          case Int8 => tag := T.Int8Array;
          case Uint16 => tag := T.Uint16Array;
          case Int16 => tag := T.Int16Array;
          case Uint32 => tag := T.Uint32Array;
          case Int32 => tag := T.Int32Array;
          case BigUint64 => tag := T.BigUint64Array;
          case BigInt64 => tag := T.BigInt64Array;
          case Float32 => tag := T.Float32Array;
          case Float64Elements => tag := T.Float64Array;
          case OtherTypedArray =>
        }
      } else {
        if view.bufferShared {
          return Abrupt(DataCloneError);
        }
        tag := T.DataView;
      }
      assert tag == ViewTagOf(view.kind);
      T.ViewTagCodesDistinctAndSmall();
      ghost var c1, m1 := written, outOfMemory;
      WriteViewFields(T.ViewTagCode(tag), view.byteOffset, view.byteLength);
      ExtendsChain(c0, m0, c1, m1, Tag(T.ArrayBufferView), written, outOfMemory,
                   ViewFields(T.ViewTagCode(tag), view.byteOffset, view.byteLength));
      var check := ThrowIfOutOfMemory();
      r := ThenUndefined(check);
    }

    // -------------------------------------------------------------------------
    // Errors

    /** The prototype sub-tag `writeJSError` picks by the error's name; the plain Error prototype writes none. */
    method WriteErrorPrototype(name: JsString)
      requires BufferValid()
      modifies this`buffer, this`bufferCapacity, this`outOfMemory, this`bufferSize, this`written, buffer
      ensures BufferValid() && Wrote(ErrorPrototypeTag(name))
    {
      T.ErrorTagCodesDistinctAndSmall();
      if name == Ascii("EvalError") {
        WriteSubTag(T.ErrorTagCode(T.EvalErrorPrototype));
      } else if name == Ascii("RangeError") {
        WriteSubTag(T.ErrorTagCode(T.RangeErrorPrototype));
      } else if name == Ascii("ReferenceError") {
        WriteSubTag(T.ErrorTagCode(T.ReferenceErrorPrototype));
      } else if name == Ascii("SyntaxError") {
        WriteSubTag(T.ErrorTagCode(T.SyntaxErrorPrototype));
      } else if name == Ascii("TypeError") {
        WriteSubTag(T.ErrorTagCode(T.TypeErrorPrototype));
      } else if name == Ascii("URIError") {
        WriteSubTag(T.ErrorTagCode(T.UriErrorPrototype));
      }
    }

    /**
     * One of `writeJSError`'s optional string fields: nothing when absent,
     * otherwise its sub-tag and the string.
     */
    method WriteStringField(tag: T.ErrorTag, s: Option<JsString>)
      requires BufferValid() && (s.Some? ==> StringFits(s.value))
      modifies this`buffer, this`bufferCapacity, this`outOfMemory, this`bufferSize, this`written, buffer
      ensures BufferValid() && Wrote(StringField(old(bufferSize), tag, s))
    {
      if s.Some? {
        T.ErrorTagCodesDistinctAndSmall();
        ghost var c0, m0 := written, outOfMemory;
        WriteSubTag(T.ErrorTagCode(tag));
        ghost var c1, m1, p1 := written, outOfMemory, bufferSize;
        WriteString(s.value);
        ExtendsChain(c0, m0, c1, m1, [T.ErrorTagCode(tag)], written, outOfMemory, StringBytes(p1, s.value));
        assert !m1 ==> p1 == old(bufferSize) + 1;
      }
    }

    /** The prototype, message and stack `writeJSError` writes for a named error. */
    method WriteErrorFields(name: JsString, message: Option<JsString>, stack: Option<JsString>)
      requires BufferValid()
      requires message.Some? ==> StringFits(message.value)
      requires stack.Some? ==> StringFits(stack.value)
      modifies this`buffer, this`bufferCapacity, this`outOfMemory, this`bufferSize, this`written, buffer
      ensures BufferValid() && Wrote(ErrorFields(old(bufferSize), name, message, stack))
    {
      ghost var c0, m0 := written, outOfMemory;
      WriteErrorPrototype(name);
      ghost var c1, m1, p1 := written, outOfMemory, bufferSize;
      WriteStringField(T.Message, message);
      ghost var c2, m2, p2 := written, outOfMemory, bufferSize;
      WriteStringField(T.Stack, stack);
      ErrorFieldsChain(old(bufferSize), name, message, stack, c0, m0, c1, m1, p1, c2, m2, p2, written, outOfMemory);
    }

    /**
     * `writeJSError`: the tag, then (when the error has a name) the prototype,
     * message and stack; a present cause is written with `writeObject` and
     * ends the call without the end tag.
     */
    method WriteJSError(e: ErrorState) returns (r: Completion<bool>)
      requires BufferValid() && ErrorWritable(e)
      modifies this`buffer, this`bufferCapacity, this`outOfMemory, this`bufferSize, this`written, buffer
      ensures BufferValid() && Delivers(ErrorExpected(old(bufferSize), e), r)
    {
      var stack := e.stack;
      var message := e.message;
      var cause := e.cause;
      ghost var c0, m0, p0 := written, outOfMemory, bufferSize;
      WriteTag(T.Error);
      var name := e.name;
      if name.None? {
        return Normal(false);
      }
      ghost var c1, m1 := written, outOfMemory;
      WriteErrorFields(name.value, message, stack);
      ghost var head := Tag(T.Error) + ErrorFields(p0 + 1, name.value, message, stack);
      ExtendsChain(c0, m0, c1, m1, Tag(T.Error), written, outOfMemory, ErrorFields(p0 + 1, name.value, message, stack));
      ghost var c2, m2 := written, outOfMemory;
      r := WriteErrorEnd(cause);
      ExtendsChain(c0, m0, c2, m2, head, written, outOfMemory, ErrorEnd(cause).bytes);
    }

    /** The end of `writeJSError`: the cause through `writeObject`, or the end sub-tag. */
    method WriteErrorEnd(cause: Value) returns (r: Completion<bool>)
      requires BufferValid() && SafeSmi(cause)
      modifies this`buffer, this`bufferCapacity, this`outOfMemory, this`bufferSize, this`written, buffer
      ensures BufferValid() && Delivers(ErrorEnd(cause), r)
    {
      T.ErrorTagCodesDistinctAndSmall();
      ghost var c0, m0 := written, outOfMemory;
      if IsPresent(cause) {
        WriteSubTag(T.ErrorTagCode(T.Cause));
        ghost var c1, m1 := written, outOfMemory;
        var causeWritten := WriteObject(cause);
        ExtendsChain(c0, m0, c1, m1, [T.ErrorTagCode(T.Cause)], written, outOfMemory, ObjectExpected(cause).bytes);
        // `!this.writeObject(cause)` holds for its undefined result too
        return if causeWritten.Abrupt? then causeWritten else Normal(false);
      }
      WriteSubTag(T.ErrorTagCode(T.End));
      var check := ThrowIfOutOfMemory();
      r := ThenUndefined(check);
    }

    // -------------------------------------------------------------------------
    // Receivers and their identities

    /**
     * The rest of `writeJSReceiver` once the receiver has its id: a callable
     * is rejected, and the switch on `ObjectPrototypeInstanceType` sends
     * primitive wrappers and Maps to their writers and every other object,
     * whose instance type is undefined, to `writeJSSet` through the
     * `JS_SET_TYPE` label, which is undefined too.
     */
    method WriteReceiverBody(kind: ReceiverKind) returns (r: Completion<bool>)
      requires BufferValid() && Writable(kind)
      modifies this`buffer, this`bufferCapacity, this`outOfMemory, this`bufferSize, this`written, buffer
      ensures BufferValid() && Delivers(BodyExpected(old(bufferSize), kind), r)
    {
      var instanceType := Engine.ObjectPrototypeInstanceType(kind);
      if kind.Callable? || Engine.IsSpecialReceiverInstanceType(instanceType) {
        return Abrupt(DataCloneError);
      }
      match instanceType {
        case Some(PrimitiveWrapperType) =>
          r := WriteJSPrimitiveWrapper(kind.inner);
        case Some(MapType) =>
          r := WriteJSMap(kind.entries);
        case None =>
          r := WriteJSSet(Iteration(kind));
      }
    }

    /**
     * `writeJSReceiver`: a receiver seen before is written as a back
     * reference to its id; a new one gets the next id, recorded as id + 1,
     * before its body is written.
     */
    method WriteJSReceiver(receiver: Receiver) returns (r: Completion<bool>)
      requires Valid() && nextId <= VarintLimit
      requires Writable(receiver.kind)
      modifies this`buffer, this`bufferCapacity, this`outOfMemory, this`bufferSize, this`written, buffer
      modifies this`idMap, this`nextId, this`idOrder
      ensures Valid()
      ensures receiver.handle in old(idMap) ==>
        && idMap == old(idMap) && nextId == old(nextId) && idOrder == old(idOrder)
        && Delivers(Expected(BackReferenceBytes(old(idMap)[receiver.handle] - 1), Normal(false)), r)
      ensures receiver.handle !in old(idMap) ==>
        && idMap == old(idMap)[receiver.handle := old(nextId) + 1]
        && nextId == old(nextId) + 1
        && idOrder == old(idOrder) + [receiver.handle]
        && Delivers(BodyExpected(old(bufferSize), receiver.kind), r)
    {
      var h := receiver.handle;
      var findResult := if h in idMap then idMap[h] else 0;
      if findResult != 0 {
        IdOfHandle(h);
        WriteTaggedVarint(T.ObjectReference, findResult - 1);
        var check := ThrowIfOutOfMemory();
        return ThenUndefined(check);
      }
      assert h !in idMap by {
        if h in idMap {
          IdOfHandle(h);
        }
      }
      var id := nextId;
      nextId := nextId + 1;
      idMap := idMap[h := id + 1];
      idOrder := idOrder + [h];
      r := WriteReceiverBody(receiver.kind);
    }
  }
}
