/*
 * The second port's `ValueSerializer` (v8-value-serializer.js/src/ValueSerializer.ts):
 * the same growable buffer, out-of-memory flag and identity table as the
 * main port, with an optional delegate that provides the memory. With a
 * delegate, a request above `memoryLimit` is refused; without one the
 * buffer is a fresh zero-filled Uint8Array. The class is only partly
 * written: several helpers it calls are defined nowhere, and the model
 * ends those calls with the exception JavaScript raises for them.
 */
module PackageSerializer {
  import opened Wire
  import opened Values
  import T = Tags
  import opened InternalFormat
  import opened Buffers
  import Engine
  import opened PackageFormat

  class ValueSerializer {
    const hasDelegate: bool
    const memoryLimit: nat
    var buffer: array?<Byte>
    var bufferSize: nat
    var bufferCapacity: nat
    var treatArrayBufferViewsAsHostObjects: bool
    var outOfMemory: bool
    var nextId: nat
    var arrayBufferTransferMap: map<int, Handle>
    var idMap: map<Handle, nat>
    /** The bytes written so far: the first `bufferSize` bytes of `buffer`. */
    ghost var written: seq<Byte>
    /** The receivers in the order they were given ids: receiver `idOrder[i]` has id i. */
    ghost var idOrder: seq<Handle>

    /**
     * size <= capacity, the capacity is the length of the backing buffer (0
     * when there is none), and `written` is what the buffer holds below the size.
     */
    ghost predicate BufferValid()
      reads this, buffer
    {
      && bufferSize <= bufferCapacity
      && |written| == bufferSize
      && (buffer == null ==> bufferCapacity == 0)
      && (buffer != null ==> buffer.Length == bufferCapacity && buffer[..bufferSize] == written)
    }

    /** Ids are dense and 0-based: the map stores id + 1 for exactly the receivers seen so far. */
    ghost predicate IdsValid()
      reads this
    {
      && |idOrder| == nextId
      && (forall i, j :: 0 <= i < j < |idOrder| ==> idOrder[i] != idOrder[j])
      && (forall i :: 0 <= i < |idOrder| ==> idOrder[i] in idMap && idMap[idOrder[i]] == i + 1)
      && (forall h :: h in idMap ==> h in idOrder)
    }

    ghost predicate Valid()
      reads this, buffer
    {
      BufferValid() && IdsValid()
    }

    /** The backing buffer's contents, None when there is none. */
    ghost function Contents(): Option<seq<Byte>>
      reads this, buffer
    {
      if buffer == null then None else Some(buffer[..])
    }

    /** What `expandBuffer` asks for. */
    function Requested(requiredCapacity: nat): nat
      reads this
    {
      Max(requiredCapacity, bufferCapacity * 2) + 64
    }

    /** Whether n more bytes can be reserved: they fit, there is no delegate to refuse, or the delegate grants the growth. */
    ghost predicate Fits(n: nat)
      reads this
    {
      bufferSize + n <= bufferCapacity || !hasDelegate || Requested(bufferSize + n) <= memoryLimit
    }

    /** The backing buffer is the old one or a new one. */
    twostate predicate BufferFramed()
      reads this
    {
      buffer == old(buffer) || (buffer != null && fresh(buffer))
    }

    /**
     * Several reservations: the flag is sticky, without it the bytes are
     * appended, and without a delegate no allocation fails.
     */
    twostate predicate Wrote(bytes: seq<Byte>)
      reads this
    {
      && BufferFramed()
      && Extends(old(written), old(outOfMemory), written, outOfMemory, bytes)
      && (!hasDelegate ==> outOfMemory == old(outOfMemory))
    }

    /**
     * One reservation's worth of bytes: appended whole when they fit (or the
     * growth is granted), otherwise refused with the flag set.
     */
    twostate predicate Put(bytes: seq<Byte>)
      reads this
    {
      && Wrote(bytes)
      && outOfMemory == (old(outOfMemory) || !old(Fits(|bytes|)))
      && written == if old(Fits(|bytes|)) then old(written) + bytes else old(written)
    }

    /**
     * A writer that ends with a reservation that may be empty: it wrote the
     * bytes, and it throws only when an earlier growth failed and left no
     * buffer for `subarray` to be called on.
     */
    twostate predicate Delivers(bytes: seq<Byte>, new r: Completion<()>)
      reads this
    {
      Wrote(bytes) && (r.Abrupt? ==> r.error == TypeError && outOfMemory && buffer == null)
    }

    /** The receiver with a recorded id is the one that id was given to. */
    lemma IdOfHandle(h: Handle)
      requires IdsValid() && h in idMap
      ensures 1 <= idMap[h] <= nextId && idOrder[idMap[h] - 1] == h
    {
      var i :| 0 <= i < |idOrder| && idOrder[i] == h;
    }

    /** Distinct receivers never share an id. */
    lemma IdsDistinct(h1: Handle, h2: Handle)
      requires IdsValid() && h1 in idMap && h2 in idMap && h1 != h2
      ensures idMap[h1] != idMap[h2]
    {
      IdOfHandle(h1);
      IdOfHandle(h2);
    }

    /** `new ValueSerializer()` or `new ValueSerializer(delegate)` */
    constructor(hasDelegate: bool, memoryLimit: nat)
      ensures Valid() && this.hasDelegate == hasDelegate && this.memoryLimit == memoryLimit
      ensures buffer == null && bufferSize == 0 && bufferCapacity == 0 && !outOfMemory && written == []
      ensures idMap == map[] && nextId == 0 && arrayBufferTransferMap == map[]
      ensures !treatArrayBufferViewsAsHostObjects
    {
      this.hasDelegate := hasDelegate;
      this.memoryLimit := memoryLimit;
      buffer := null;
      bufferSize := 0;
      bufferCapacity := 0;
      treatArrayBufferViewsAsHostObjects := false;
      outOfMemory := false;
      nextId := 0;
      arrayBufferTransferMap := map[];
      idMap := map[];
      written := [];
      idOrder := [];
    }

    /**
     * `expandBuffer(requiredCapacity)`: the delegate's reallocation, or a
     * fresh zeroed buffer holding the old contents. Without a delegate the
     * source copies `this.#buffer!` even when there is none, which throws
     * (PackageFormat.GrowWithoutDelegateAsWritten); the model takes a
     * missing buffer as an empty one.
     */
    method ExpandBuffer(requiredCapacity: nat) returns (ok: bool)
      requires BufferValid()
      modifies this`buffer, this`bufferCapacity, this`outOfMemory
      ensures BufferValid() && BufferFramed()
      ensures ok <==> !hasDelegate || old(Requested(requiredCapacity)) <= memoryLimit
      ensures ok ==> fresh(buffer) && bufferCapacity == old(Requested(requiredCapacity))
                     && bufferCapacity > requiredCapacity && outOfMemory == old(outOfMemory)
      ensures ok && !hasDelegate ==> buffer[..] == GrowWithoutDelegate(old(Contents()), old(Requested(requiredCapacity)))
      ensures !ok ==> buffer == old(buffer) && bufferCapacity == old(bufferCapacity) && outOfMemory
    {
      var requestedCapacity := Max(requiredCapacity, bufferCapacity * 2) + 64;
      var newBuffer: array?<Byte>;
      if hasDelegate {
        newBuffer := Reallocate(buffer, requestedCapacity, memoryLimit);
      } else {
        newBuffer := GrowFresh(requestedCapacity);
      }
      if newBuffer != null {
        if buffer != null {
          assert newBuffer[..bufferSize] == buffer[..buffer.Length][..bufferSize];
        }
        buffer := newBuffer;
        bufferCapacity := requestedCapacity;
        ok := true;
      } else {
        outOfMemory := true;
        ok := false;
      }
    }

    /** `new Uint8Array(requestedCapacity)`, then `newBuffer.set(...)` with the old contents when there are any. */
    method GrowFresh(requestedCapacity: nat) returns (newBuffer: array<Byte>)
      requires buffer != null ==> buffer.Length <= requestedCapacity
      ensures fresh(newBuffer)
      ensures newBuffer.Length == requestedCapacity
      ensures newBuffer[..] == GrowWithoutDelegate(Contents(), requestedCapacity)
    {
      newBuffer := new Byte[requestedCapacity](_ => 0);
      if buffer != null {
        CopyInto(newBuffer, 0, buffer[..]);
        assert newBuffer[..] == newBuffer[..buffer.Length] + newBuffer[buffer.Length..];
      }
    }

    /**
     * `reserveRawBytes(bytes)`: the offset of the reserved window, or None
     * when the buffer could not grow. A window that needs no growth is cut
     * from `this.#buffer!`, which throws a TypeError when there is no buffer.
     */
    method ReserveRawBytes(bytes: nat) returns (dest: Completion<Option<nat>>)
      requires BufferValid()
      modifies this`buffer, this`bufferCapacity, this`outOfMemory, this`bufferSize, this`written
      ensures BufferValid() && BufferFramed()
      ensures dest.Abrupt? <==> old(buffer) == null && bytes == 0
      ensures dest.Abrupt? ==> && dest.error == TypeError && buffer == old(buffer)
                               && written == old(written) && outOfMemory == old(outOfMemory)
      ensures dest.Normal? && old(Fits(bytes)) ==>
        && dest.value == Some(old(bufferSize))
        && bufferSize == old(bufferSize) + bytes
        && outOfMemory == old(outOfMemory)
        && written[..old(bufferSize)] == old(written)
      ensures !old(Fits(bytes)) ==>
        dest == Normal(None) && outOfMemory && bufferSize == old(bufferSize) && written == old(written)
    {
      var oldSize := bufferSize;
      var newSize := oldSize + bytes;
      if newSize > bufferCapacity {
        var ok := ExpandBuffer(newSize);
        if !ok {
          return Normal(None);
        }
      }
      bufferSize := newSize;
      if buffer == null {
        return Abrupt(TypeError);
      }
      written := buffer[..newSize];
      dest := Normal(Some(oldSize));
    }

    /** `writeRawBytes(source)`: reserve, then copy the source's bytes into the window. */
    method WriteRawBytes(source: seq<Byte>) returns (r: Completion<()>)
      requires BufferValid()
      modifies this`buffer, this`bufferCapacity, this`outOfMemory, this`bufferSize, this`written, buffer
      ensures BufferValid() && Put(source)
      ensures r.Abrupt? <==> old(buffer) == null && |source| == 0
      ensures r.Abrupt? ==> r.error == TypeError && buffer == old(buffer)
    {
      var dest := ReserveRawBytes(|source|);
      if dest.Abrupt? {
        return Abrupt(dest.error);
      }
      r := Normal(());
      if dest.value.Some? && |source| > 0 {
        var offset := dest.value.value;
        assert buffer[..offset] == old(written) by {
          assert buffer[..offset] == buffer[..bufferSize][..offset];
        }
        CopyInto(buffer, offset, source);
        assert buffer[..bufferSize] == buffer[..offset] + buffer[offset..bufferSize];
        written := old(written) + source;
      }
    }

    /** `writeTag(tag)`: the tag's character code as one byte. */
    method WriteTag(tag: T.SerializationTag)
      requires BufferValid()
      modifies this`buffer, this`bufferCapacity, this`outOfMemory, this`bufferSize, this`written, buffer
      ensures BufferValid() && Put(Tag(tag))
    {
      var _ := WriteRawBytes([T.TagCode(tag)]);
    }

    /** `writeVariant_uint32`: a five-byte stack buffer, which holds every varint below 2^31. */
    method WriteVariantUint32(value: nat)
      requires BufferValid() && value < VarintLimit
      modifies this`buffer, this`bufferCapacity, this`outOfMemory, this`bufferSize, this`written, buffer
      ensures BufferValid() && Put(Varint(value))
    {
      var stackBuffer := new Byte[5](_ => 0);
      var n := FillVarintStack(stackBuffer, value);
      StackVarintFits(value, 5);
      var _ := WriteRawBytes(stackBuffer[..n]);
    }

    /**
     * `writeVariant_uint64`: the same loop on a bigint, into a ten-byte stack
     * buffer, so a value of 2^64 or more keeps only its first ten groups.
     */
    method WriteVariantUint64(value: nat)
      requires BufferValid()
      modifies this`buffer, this`bufferCapacity, this`outOfMemory, this`bufferSize, this`written, buffer
      ensures BufferValid() && Put(StackVarint(value, 10))
    {
      var stackBuffer := new Byte[10](_ => 0);
      var n := FillVarintStack(stackBuffer, value);
      var _ := WriteRawBytes(stackBuffer[..n]);
    }

    /** `writeZigZag_int32`: the ZigZag image through Uint32Array, as a varint. */
    method WriteZigZagInt32(value: int)
      requires BufferValid() && -0x4000_0000 <= value < 0x4000_0000
      modifies this`buffer, this`bufferCapacity, this`outOfMemory, this`bufferSize, this`written, buffer
      ensures BufferValid() && Put(Varint(ZigZag(value)))
    {
      ZigZagViaUint32IsZigZag(value);
      ZigZagOfSafeRange(value);
      WriteVariantUint32(ZigZagViaUint32(value));
    }

    /** `writeDouble`: the eight bytes of the float64. */
    method WriteDouble(bits: Float64)
      requires BufferValid()
      modifies this`buffer, this`bufferCapacity, this`outOfMemory, this`bufferSize, this`written, buffer
      ensures BufferValid() && Put(bits)
    {
      var _ := WriteRawBytes(bits);
    }

    /** `writeOneByteString`: the length, then the code points' first units stored as bytes. */
    method WriteOneByteString(value: JsString) returns (r: Completion<()>)
      requires BufferValid() && |value| < VarintLimit
      modifies this`buffer, this`bufferCapacity, this`outOfMemory, this`bufferSize, this`written, buffer
      ensures BufferValid() && Delivers(Varint(|value|) + OneBytePayload(value), r)
    {
      ghost var c0, m0 := written, outOfMemory;
      WriteVariantUint32(|value|);
      ghost var c1, m1 := written, outOfMemory;
      r := WriteRawBytes(OneBytePayload(value));
      ExtendsChain(c0, m0, c1, m1, Varint(|value|), written, outOfMemory, OneBytePayload(value));
    }

    /**
     * `writeTwoByteString`: the byte count, then every code unit
     * little-endian. The source builds the payload by iterating code points
     * (PackageFormat.TwoByteStringBytesAsWritten); the model writes the units.
     */
    method WriteTwoByteString(value: JsString) returns (r: Completion<()>)
      requires BufferValid() && StringFits(value)
      modifies this`buffer, this`bufferCapacity, this`outOfMemory, this`bufferSize, this`written, buffer
      ensures BufferValid() && Delivers(TwoByteStringBytes(value), r)
    {
      ghost var c0, m0 := written, outOfMemory;
      WriteVariantUint32(|value| * 2);
      ghost var c1, m1 := written, outOfMemory;
      r := WriteRawBytes(UnitsLe(value));
      ExtendsChain(c0, m0, c1, m1, Varint(2 * |value|), written, outOfMemory, UnitsLe(value));
    }

    /** `writeBigIntContents`: the stub bitfield, then a window of the stub length, which the stub leaves alone. */
    method WriteBigIntContents(bigint: int) returns (r: Completion<()>)
      requires BufferValid()
      modifies this`buffer, this`bufferCapacity, this`outOfMemory, this`bufferSize, this`written, buffer
      ensures BufferValid() && Delivers(StubBigIntContentsBytes(bigint), r)
    {
      var bitField := T.StubBigIntBitField(bigint);
      var byteLength := T.StubBigIntDigitsByteLength(bigint);
      ghost var c0, m0 := written, outOfMemory;
      WriteVariantUint32(bitField);
      ghost var c1, m1 := written, outOfMemory;
      var dest := ReserveRawBytes(byteLength);
      r := if dest.Abrupt? then Abrupt(dest.error) else Normal(());
      assert written == c1 + [] by {
        if !outOfMemory {
          assert written == written[..|c1|];
        }
      }
      ExtendsChain(c0, m0, c1, m1, Varint(bitField), written, outOfMemory, []);
    }

    /** `writeByte(value)`: the store into a Uint8Array keeps the value modulo 256. */
    method WriteByte(value: int)
      requires BufferValid()
      modifies this`buffer, this`bufferCapacity, this`outOfMemory, this`bufferSize, this`written, buffer
      ensures BufferValid() && Put([value % 256])
    {
      var dest := ReserveRawBytes(1);
      if dest.Normal? && dest.value.Some? {
        var offset := dest.value.value;
        assert buffer[..offset] == old(written) by {
          assert buffer[..offset] == buffer[..bufferSize][..offset];
        }
        buffer[offset] := value % 256;
        assert buffer[..bufferSize] == buffer[..offset] + [buffer[offset]];
        written := old(written) + [value % 256];
      }
    }

    /** `writeUint32(value)` */
    method WriteUint32(value: nat)
      requires BufferValid() && value < VarintLimit
      modifies this`buffer, this`bufferCapacity, this`outOfMemory, this`bufferSize, this`written, buffer
      ensures BufferValid() && Put(Varint(value))
    {
      WriteVariantUint32(value);
    }

    /** `writeUint64(value)` */
    method WriteUint64(value: nat)
      requires BufferValid()
      modifies this`buffer, this`bufferCapacity, this`outOfMemory, this`bufferSize, this`written, buffer
      ensures BufferValid() && Put(StackVarint(value, 10))
    {
      WriteVariantUint64(value);
    }

    /** `writeHeader`: the version tag and the latest version. */
    method WriteHeader()
      requires BufferValid()
      modifies this`buffer, this`bufferCapacity, this`outOfMemory, this`bufferSize, this`written, buffer
      ensures BufferValid() && Wrote(T.HeaderBytes())
    {
      ghost var c0, m0 := written, outOfMemory;
      WriteTag(T.Version);
      ghost var c1, m1 := written, outOfMemory;
      WriteVariantUint32(T.LatestVersion);
      ExtendsChain(c0, m0, c1, m1, Tag(T.Version), written, outOfMemory, Varint(T.LatestVersion));
    }

    /** The `treatArrayBufferViewsAsHostObjects` setter. */
    method SetTreatArrayBufferViewsAsHostObjects(mode: bool)
      modifies this`treatArrayBufferViewsAsHostObjects
      ensures treatArrayBufferViewsAsHostObjects == mode
    {
      treatArrayBufferViewsAsHostObjects := mode;
    }

    /**
     * `release()`: hands out the whole backing array (null when there is
     * none), whose first `bufferSize` bytes are the stream, and forgets it.
     */
    method Release() returns (result: array?<Byte>)
      requires BufferValid()
      modifies this`buffer, this`bufferSize, this`bufferCapacity, this`written
      ensures result == old(buffer)
      ensures result != null ==> result.Length == old(bufferCapacity) && result[..old(bufferSize)] == old(written)
      ensures result == null ==> old(written) == []
      ensures buffer == null && bufferSize == 0 && bufferCapacity == 0 && BufferValid()
    {
      result := buffer;
      buffer := null;
      bufferSize := 0;
      bufferCapacity := 0;
      written := [];
    }

    /**
     * `close()`: without a delegate the backing buffer is dropped; with one
     * it is handed to `freeBufferMemory` (outside the model) and the field
     * keeps it. Neither branch resets the size or the capacity.
     */
    method Close()
      modifies this`buffer
      ensures buffer == (if old(buffer) != null && !hasDelegate then null else old(buffer))
    {
      if buffer != null {
        if !hasDelegate {
          buffer := null;
        }
      }
    }

    /** `transferArrayBuffer(transferId, arrayBuffer)`: the map is keyed by the transfer id. */
    method TransferArrayBuffer(transferId: int, arrayBuffer: Handle)
      modifies this`arrayBufferTransferMap
      ensures arrayBufferTransferMap == old(arrayBufferTransferMap)[transferId := arrayBuffer]
    {
      arrayBufferTransferMap := arrayBufferTransferMap[transferId := arrayBuffer];
    }

    /**
     * `writeObject(object)`: after out of memory it calls
     * `this.throwIfOutOfMemory`, which the class does not define; otherwise
     * its first test calls `Object_isSMI`, which is not declared anywhere.
     * Either way it throws before writing anything.
     */
    method WriteObject(value: Value) returns (r: Completion<bool>)
      ensures r.Abrupt?
      ensures r.error == TypeError <==> outOfMemory
      ensures r.error == ReferenceError <==> !outOfMemory
    {
      if outOfMemory {
        return Abrupt(TypeError);
      }
      return Abrupt(ReferenceError);
    }

    /** `writeOddball`: the switch calls `Oddball_kind`, which is not declared anywhere. */
    method WriteOddball(oddball: Value) returns (r: Completion<()>)
      requires oddball.Undefined? || oddball.Null? || oddball.Bool?
      ensures r == Abrupt(ReferenceError)
    {
      r := Abrupt(ReferenceError);
    }

    /** `writeSMI`: the Int32 tag and the ZigZag varint. */
    method WriteSmi(smi: int)
      requires BufferValid() && -0x4000_0000 <= smi < 0x4000_0000
      modifies this`buffer, this`bufferCapacity, this`outOfMemory, this`bufferSize, this`written, buffer
      ensures BufferValid() && Wrote(SmiBytes(smi))
    {
      ghost var c0, m0 := written, outOfMemory;
      WriteTag(T.Int32);
      ghost var c1, m1 := written, outOfMemory;
      WriteZigZagInt32(smi);
      ExtendsChain(c0, m0, c1, m1, Tag(T.Int32), written, outOfMemory, Varint(ZigZag(smi)));
    }

    /** `writeHeapNumber` */
    method WriteHeapNumber(bits: Float64)
      requires BufferValid()
      modifies this`buffer, this`bufferCapacity, this`outOfMemory, this`bufferSize, this`written, buffer
      ensures BufferValid() && Wrote(Tag(T.Double) + bits)
    {
      ghost var c0, m0 := written, outOfMemory;
      WriteTag(T.Double);
      ghost var c1, m1 := written, outOfMemory;
      WriteDouble(bits);
      ExtendsChain(c0, m0, c1, m1, Tag(T.Double), written, outOfMemory, bits);
    }

    /** `writeBigInt` */
    method WriteBigInt(bigint: int) returns (r: Completion<()>)
      requires BufferValid()
      modifies this`buffer, this`bufferCapacity, this`outOfMemory, this`bufferSize, this`written, buffer
      ensures BufferValid() && Delivers(Tag(T.BigInt) + StubBigIntContentsBytes(bigint), r)
    {
      ghost var c0, m0 := written, outOfMemory;
      WriteTag(T.BigInt);
      ghost var c1, m1 := written, outOfMemory;
      r := WriteBigIntContents(bigint);
      ExtendsChain(c0, m0, c1, m1, Tag(T.BigInt), written, outOfMemory, StubBigIntContentsBytes(bigint));
    }

    /** `writeString`: one-byte when the UTF-8 size (`new Blob([string]).size`) equals the length, else two-byte; no padding. */
    method WriteString(s: JsString) returns (r: Completion<()>)
      requires BufferValid() && StringFits(s)
      modifies this`buffer, this`bufferCapacity, this`outOfMemory, this`bufferSize, this`written, buffer
      ensures BufferValid() && Delivers(StringBytes2(s), r)
    {
      var blobSize := |Engine.Utf8Encode(s)|;
      if blobSize == |s| {
        r := WriteOneByteRecord(s);
      } else {
        r := WriteTwoByteRecord(s);
      }
    }

    /** The one-byte branch of `writeString`: the tag, then `writeOneByteString`. */
    method WriteOneByteRecord(s: JsString) returns (r: Completion<()>)
      requires BufferValid() && |s| < VarintLimit
      modifies this`buffer, this`bufferCapacity, this`outOfMemory, this`bufferSize, this`written, buffer
      ensures BufferValid() && Delivers(Tag(T.OneByteString) + Varint(|s|) + OneBytePayload(s), r)
    {
      ghost var c0, m0 := written, outOfMemory;
      WriteTag(T.OneByteString);
      ghost var c1, m1 := written, outOfMemory;
      r := WriteOneByteString(s);
      ExtendsChain(c0, m0, c1, m1, Tag(T.OneByteString), written, outOfMemory, Varint(|s|) + OneBytePayload(s));
      assert Tag(T.OneByteString) + (Varint(|s|) + OneBytePayload(s))
          == Tag(T.OneByteString) + Varint(|s|) + OneBytePayload(s);
    }

    /** The two-byte branch of `writeString`: the tag, then `writeTwoByteString`. */
    method WriteTwoByteRecord(s: JsString) returns (r: Completion<()>)
      requires BufferValid() && StringFits(s)
      modifies this`buffer, this`bufferCapacity, this`outOfMemory, this`bufferSize, this`written, buffer
      ensures BufferValid() && Delivers(TwoByteRecord(s), r)
    {
      ghost var c0, m0 := written, outOfMemory;
      WriteTag(T.TwoByteString);
      ghost var c1, m1 := written, outOfMemory;
      r := WriteTwoByteString(s);
      ExtendsChain(c0, m0, c1, m1, Tag(T.TwoByteString), written, outOfMemory, TwoByteStringBytes(s));
    }

    /** The reference tag, then the id through `writeZigZag_int32`. */
    method WriteBackReference(id: nat)
      requires BufferValid() && id < 0x4000_0000
      modifies this`buffer, this`bufferCapacity, this`outOfMemory, this`bufferSize, this`written, buffer
      ensures BufferValid() && Wrote(ZigZagBackReferenceBytes(id))
    {
      ghost var c0, m0 := written, outOfMemory;
      WriteTag(T.ObjectReference);
      ghost var c1, m1 := written, outOfMemory;
      WriteZigZagInt32(id);
      ExtendsChain(c0, m0, c1, m1, Tag(T.ObjectReference), written, outOfMemory, Varint(ZigZag(id)));
    }

    /**
     * `writeJSReceiver` up to where it stops: a receiver seen before is
     * written as a ZigZag-encoded back reference, after which the call to the
     * undefined `this.throwIfOutOfMemory` throws a TypeError; a new one gets
     * the next id, recorded as id + 1, and then reading `instanceType` before
     * its declaration throws a ReferenceError.
     */
    method WriteJSReceiver(receiver: Handle) returns (r: Completion<bool>)
      requires Valid() && nextId <= 0x4000_0000
      modifies this`buffer, this`bufferCapacity, this`outOfMemory, this`bufferSize, this`written, buffer
      modifies this`idMap, this`nextId, this`idOrder
      ensures Valid()
      ensures receiver in old(idMap) ==>
        && old(idMap)[receiver] - 1 < 0x4000_0000
        && idMap == old(idMap) && nextId == old(nextId) && idOrder == old(idOrder)
        && Wrote(ZigZagBackReferenceBytes(old(idMap)[receiver] - 1))
        && r == Abrupt(TypeError)
      ensures receiver !in old(idMap) ==>
        && idMap == old(idMap)[receiver := old(nextId) + 1]
        && nextId == old(nextId) + 1
        && idOrder == old(idOrder) + [receiver]
        && written == old(written) && outOfMemory == old(outOfMemory)
        && r == Abrupt(ReferenceError)
    {
      if receiver in idMap {
        var findResult := idMap[receiver];
        IdOfHandle(receiver);
        WriteBackReference(findResult - 1);
        return Abrupt(TypeError);
      }
      var id := nextId;
      nextId := nextId + 1;
      idMap := idMap[receiver := id + 1];
      idOrder := idOrder + [receiver];
      r := Abrupt(ReferenceError);
    }
  }

  /**
   * `writeHeader()` then `writeSMI(42)` on a serializer without a delegate,
   * then `release()`: the stream is FF 0F 49 54.
   */
  method HeaderThenSmi42() returns (stream: seq<Byte>)
    ensures stream == [0xFF, 0x0F, 0x49, 0x54]
  {
    var serializer := new ValueSerializer(false, 0);
    serializer.WriteHeader();
    serializer.WriteSmi(42);
    var size := serializer.bufferSize;
    var released := serializer.Release();
    HeaderThenSmi42Bytes();
    stream := released[..size];
  }
}
