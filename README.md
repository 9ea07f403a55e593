# V8 ValueSerializer write side, format version 15, in Dafny

This project models the core of two TypeScript ports of V8's `ValueSerializer`.
The serializer turns JavaScript values into V8's structured-clone wire format,
version 15. Both ports are unfinished.

- **The main port** is `src/internal/value-serializer.ts`. It uses the engine
  helpers in `src/internal/h.ts` and the integer casts in
  `src/internal/REF-assemblyscript-std-portable/index.ts`.
- **The second port** is `v8-value-serializer.js/src/ValueSerializer.ts`. It
  uses the tag tables and BigInt stubs in
  `v8-value-serializer.js/src/internal/index.ts`.

Each port's serializer is a Dafny `class` with the same mutable state as the
source:

- a growable `array` buffer, with its size and capacity;
- the sticky out-of-memory flag;
- the identity map from objects to ids, and the next id;
- the ArrayBuffer transfer map;
- the "treat views as host objects" flag.

A ghost sequence `written` mirrors the first `bufferSize` bytes of the buffer.
The writers are methods with the source's loops and buffer copies. Each one is
proved to append exactly the bytes of a specification function. Once set,
the out-of-memory flag stays set. Later writes that fit still append, and
`writeObject` refuses to start. While the flag stays clear, the stream is the
old stream followed by those bytes.

The specification functions live in separate modules:

- `InternalFormat` and `PackageFormat` give the record layouts.
- `Wire` covers varints, ZigZag and little-endian bytes.
- `Tags` holds the constant tables.

The specification readers in `InternalReaders` and `PackageFormat` read every
record back. These round-trip lemmas are the partners of the writers.

Conventions of the model:

- A JavaScript value is the datatype `Values.Value`. An object arrives already
  tagged with its kind, and carries a `Handle` that stands for its identity.
- A float64 is carried as its eight bytes and never interpreted. Byte views
  are taken in little-endian order, the host order of the usual platforms.
- How a JS call ends is `Completion<T>`: `Normal(value)` or `Abrupt(error)`.
  The error kinds are `DataCloneError`, `DataCloneErrorDetachedArrayBuffer` and
  `DataCloneErrorOutOfMemory`. Calls to names that do not exist end in
  `TypeError` or `ReferenceError`, as JavaScript would throw them.
- The allocator, `realloc` or the delegate's `reallocateBufferMemory`, is
  modelled by `memoryLimit`. A request above the limit fails, and any other
  request returns a buffer of exactly the requested capacity with the old bytes
  as its prefix.
- Integers are unbounded. The casts write out ToInt32 and ToUint32, and the
  varint loops' `>>=` is the arithmetic 32-bit shift.

Where the written code and the intended format disagree, the model follows the
code, except in the two places listed under "Findings". In particular:

- In the main port, `writeObject` sends strings and receivers to
  `throwDataCloneError`, because `isString` always returns false.
- In the main port, `ObjectPrototypeInstanceType` names only the primitive
  wrappers and `Map`. Every other object gets the instance type undefined.
  `InstanceType` has no `JS_SET_TYPE` member, so that case label is undefined
  too, and `writeJSReceiver` sends every such object to `writeJSSet`. There,
  `new Set(o)` throws a TypeError for an object without an iterator. Arrays,
  Sets and typed arrays write a Set record of their first entry.
- The main port's other receiver writers (arrays, dates, regular expressions,
  ArrayBuffers, views, errors, plain objects) are modelled as methods called
  on their own, since the switch never reaches them.
- Dense arrays write only their header.
- `writeJSMap` destructures the holes of a freshly made array, so a non-empty
  map throws a TypeError.
- The Set loop stops after its first member, because `writeObject` returns
  undefined. The property loop throws on its first key, a string.
- The second port encodes back references with ZigZag.
- The second port's class is built on the corrected members of the two
  "Findings" rows: growth without a delegate, and the two-byte string payload.
  Without a delegate, every row of the second port that appends bytes assumes
  that growth and says "corrected"; as written, such a serializer throws a
  TypeError at its first growth.

## Model

| member | source | states |
|---|---|---|
| Casts.I32 | src/internal/REF-assemblyscript-std-portable/index.ts:3 | `i32(x)` (ToInt32) lies in [-2^31, 2^31), is congruent to x mod 2^32, and is x itself when x is already in range |
| Casts.U32 | src/internal/REF-assemblyscript-std-portable/index.ts:6 | `u32(x)` lies in [0, 2^32), is congruent to x mod 2^32, and is x when x is in range |
| Casts.I8 | src/internal/REF-assemblyscript-std-portable/index.ts:1 | `i8(x)` lies in [-128, 128) and is congruent to x mod 2^8 |
| Casts.I16 | src/internal/REF-assemblyscript-std-portable/index.ts:2 | `i16(x)` lies in [-2^15, 2^15) and is congruent to x mod 2^16 |
| Casts.U8 | src/internal/REF-assemblyscript-std-portable/index.ts:4 | `u8(x)` lies in [0, 256) and equals x mod 256 |
| Casts.U16 | src/internal/REF-assemblyscript-std-portable/index.ts:5 | `u16(x)` lies in [0, 2^16) and equals x mod 2^16 |
| Casts.ShiftPairSignExtends8 | src/internal/REF-assemblyscript-std-portable/index.ts:1 | `(x << 24) >> 24` sign-extends the low byte of x |
| Casts.ShiftPairSignExtends16 | src/internal/REF-assemblyscript-std-portable/index.ts:2 | `(x << 16) >> 16` sign-extends the low 16 bits of x |
| Casts.UniqueInt8 | src/internal/REF-assemblyscript-std-portable/index.ts:1 | two values in the int8 range that agree mod 2^8 are equal, so `i8` is the only cast with its contract |
| Casts.UniqueInt32 | src/internal/REF-assemblyscript-std-portable/index.ts:3 | two values in the int32 range that agree mod 2^32 are equal |
| Casts.SignedCastsIdempotent | src/internal/REF-assemblyscript-std-portable/index.ts:1-3 | `i8`, `i16` and `i32` are idempotent |
| Casts.UnsignedCastsIdempotent | src/internal/REF-assemblyscript-std-portable/index.ts:4-6 | `u8`, `u16` and `u32` are idempotent |
| Casts.U8OfI8 | src/internal/REF-assemblyscript-std-portable/index.ts:1-4 | `u8(i8(x)) == u8(x)` |
| Casts.ShiftRightKeepsSign | src/internal/value-serializer.ts:155-165 | the arithmetic `>>` of an int32 stays negative for a negative operand and is floor division by 2^k otherwise, which is why the varint loop ends only below 2^31 |
| Casts.SignMask | src/internal/value-serializer.ts:178-180 | `n >> 31` is -1 for a negative int32 and 0 otherwise |
| Wire.Varint | src/internal/value-serializer.ts:155-165 | a base-128 varint is never empty |
| Wire.VarintIsWellFormed | src/internal/value-serializer.ts:155-165 | every byte of a varint except the last has the 0x80 bit, and the last is below 0x80 |
| Wire.VarintValueOfVarint | src/internal/value-serializer.ts:155-165 | the sum of the 7-bit groups, least significant first, of `Varint(v)` is v |
| Wire.DecodeVarintRoundTrip | src/internal/value-serializer.ts:155-165 | decoding `Varint(v)` followed by any bytes gives v and the varint's length |
| Wire.VarintLength | src/internal/value-serializer.ts:155-165 | a varint has at most k bytes iff v < 128^k |
| Wire.VarintLengthBounds | src/internal/value-serializer.ts:5-12 | 1 byte iff v < 128, 2 bytes for 128..16383, at most 5 bytes below 2^35, and at most 10 bytes below 2^64 |
| Wire.GroupsAndVarint | src/internal/value-serializer.ts:155-165 | the loop's groups with the 0x80 bit set are the varint, except for the last byte, whose bit is cleared |
| Wire.StackVarintFits | v8-value-serializer.js/src/ValueSerializer.ts:100-141 | a 5-byte stack holds every varint below 2^31, and a 10-byte stack every varint below 2^64, so nothing is cut off |
| Wire.SmallVarint | src/internal/value-serializer.ts:144-154 | a value below 128 is written as that single byte, whatever the stack size |
| Wire.Int32LoopStep | src/internal/value-serializer.ts:155-165 | below 2^31 the loop's `value & 0x7f` and `value >>= 7` are `% 128` and `/ 128` |
| Wire.FillVarintStack | src/internal/value-serializer.ts:144-176 | the do-while loop over a stack buffer yields the varint when it fits; otherwise the first stack-length groups, all with the continuation bit set, since stores past the end of a typed array are dropped |
| Wire.StoreGroups | src/internal/value-serializer.ts:155-165 | the loop visits exactly the varint's groups and stores each one in order while it fits |
| Wire.BytesNeededForVariantUint32 | src/internal/value-serializer.ts:5-12 | `bytesNeededForVariantUint32(v)` is the length of the varint `writeVariantUint32(v)` appends |
| Wire.ZigZagOfSafeRange | src/internal/value-serializer.ts:178-180 | for \|n\| < 2^30, `(n << 1) ^ (n >> 31)` is 2n for n >= 0 and -2n-1 for n < 0, and lies in [0, 2^31) |
| Wire.ZigZagOutsideSafeRange | src/internal/value-serializer.ts:178-180 | outside that range the int32 result is negative, so the varint loop would not end |
| Wire.ZigZagRoundTrip | src/internal/value-serializer.ts:178-180 | un-ZigZag inverts ZigZag on the safe range |
| Wire.UnZigZagRoundTrip | src/internal/value-serializer.ts:178-180 | ZigZag inverts un-ZigZag below 2^31 |
| Wire.ZigZagExamples | v8-value-serializer.js/src/ValueSerializer.ts:147-159 | 0->0, -1->1, 1->2, -2->3, and 42->84 |
| Wire.LeRoundTrip | src/internal/h.ts:30-33 | the n little-endian bytes of x < 256^n read back as x |
| Wire.LeValueRoundTrip | src/internal/h.ts:30-33 | every byte string is the little-endian image of its value |
| Wire.UnitsLe | src/internal/value-serializer.ts:191-196 | the UTF-16LE image of n code units has 2n bytes |
| Wire.UnitsLeRoundTrip | src/internal/value-serializer.ts:191-196 | UTF-16LE bytes read back as the same code units |
| Wire.UnitsLeAppend | src/internal/value-serializer.ts:191-196 | the UTF-16LE image of a concatenation is the concatenation of the images |
| Wire.CopyInto | v8-value-serializer.js/src/ValueSerializer.ts:232-238 | `dest.set` on the reserved subarray puts the source at the offset and leaves every other byte of the destination unchanged |
| Tags.TagCharRoundTrip | v8-value-serializer.js/src/internal/index.ts:46-172 | each of the 57 tags' characters maps back to that tag |
| Tags.TagCodesDistinct | v8-value-serializer.js/src/internal/index.ts:46-172 | the tag bytes are pairwise distinct |
| Tags.ViewTagCharRoundTrip | v8-value-serializer.js/src/internal/index.ts:174-187 | each ArrayBufferView sub-tag's character maps back to that sub-tag |
| Tags.ViewTagCodesDistinctAndSmall | v8-value-serializer.js/src/internal/index.ts:174-187 | the 12 sub-tags are pairwise distinct and below 0x80, so the varint of a sub-tag is that single byte |
| Tags.ErrorTagCharRoundTrip | src/internal/value-serializer.ts:89-100 | each Error field tag's character maps back to that tag |
| Tags.ErrorTagCodesDistinctAndSmall | src/internal/value-serializer.ts:89-100 | the Error field tags are pairwise distinct and single-byte varints |
| Tags.HeaderIsFF0F | v8-value-serializer.js/src/internal/index.ts:40-50 | the version tag is 0xFF and padding is 0x00, so the header (version tag then varint(15)) is FF 0F |
| Engine.SumFlagWeightsIsMask | src/internal/h.ts:7-20 | the `reduce` over the flag letters adds exactly the weights of the letters present |
| Engine.RegExpFlagsBitfieldIsMask | src/internal/h.ts:7-20 | for flags without repeats the sum equals the bitwise OR of the flag bits, lies below 64, has bit 0 iff `g` is present and bit 5 iff `s` is present |
| Engine.BigIntBitfield | src/internal/h.ts:22-24 | the bitfield is 16 or 17, is odd iff the BigInt is negative, and half of it is the digit byte length, 8 |
| Engine.BigIntDigits | src/internal/h.ts:26-28 | the digit block is always 8 bytes |
| Engine.BigIntDigitsValue | src/internal/h.ts:30-33 | the digit block is \|b\| mod 2^64 in little-endian order |
| Engine.BigIntSerializeDigits | src/internal/h.ts:30-33 | `dest.set` puts the 8 digit bytes at the offset and changes nothing else in `dest` |
| Engine.IsSmiRange | src/internal/h.ts:51-53 | `isSmi` holds for an integer number iff it lies in [-2^31, 2^31) |
| Engine.ArrayHasHoleyElements | src/internal/h.ts:142-147 | the scan returns true iff some index below the length is absent |
| Engine.Utf8Length | src/internal/h.ts:116-119 | the UTF-8 length is at least the code-unit count, and equal iff every unit is ASCII |
| Engine.IsOneByteIffAscii | src/internal/h.ts:116-122 | `isOneByte` holds iff every code unit is below 0x80 |
| Engine.AsciiEncodesToItself | src/internal/h.ts:116-123 | for an ASCII string `toOneByteVector` gives the code units themselves |
| Engine.ToUC16Vector | src/internal/h.ts:124-130 | the loop copies each code unit in order into a fresh array |
| Engine.ObjectPrototypeInstanceType | src/internal/h.ts:89-110 | an object's instance type is the wrapper type iff it is a primitive wrapper, the Map type iff it is a Map, and undefined for every other object |
| Engine.IsSpecialReceiverInstanceType | src/internal/h.ts:138-140 | the comparison with the missing `LAST_SPECIAL_RECEIVER_TYPE` is false for every instance type |
| Engine.IsStringInstanceType | src/internal/h.ts:83-87 | `isString` is false for every instance type |
| Buffers.Reallocate | src/internal/h.ts:35-49 | growth succeeds iff the request is within the memory limit; a new buffer has the requested length and keeps the old bytes as its prefix |
| Buffers.ExtendsChain | src/internal/value-serializer.ts:215-250 | two appends in a row are one append of both byte strings, and the out-of-memory flag stays sticky |
| InternalFormat.ZigZag | src/internal/value-serializer.ts:178-180 | the ZigZag of a Smi in the safe range is a value the varint loop can write |
| InternalFormat.ReadStringRecord | src/internal/value-serializer.ts:359-375 | the string reader consumes at least one byte |
| InternalReaders.VarintReadsBack | src/internal/value-serializer.ts:155-165 | a varint reads back as its value, with the rest of the stream left over |
| InternalReaders.TaggedVarintReadsBack | src/internal/value-serializer.ts:139-165 | a tag followed by a varint reads back as that value |
| InternalReaders.BackReferenceReadsBack | src/internal/value-serializer.ts:379-383 | `^` and a varint id read back as the id |
| InternalReaders.SmiReadsBack | src/internal/value-serializer.ts:344-347 | an `I` record of a Smi in the safe range reads back as the same integer |
| InternalReaders.BigIntContentsReadBack | src/internal/value-serializer.ts:198-206 | the bitfield and digits read back as the sign and \|b\| mod 2^64 |
| InternalReaders.ObjectOutcomes | src/internal/value-serializer.ts:279-328 | `writeObject` throws DataCloneError, after writing nothing, exactly for strings, symbols and objects; every other value ends normally |
| InternalReaders.OneByteStringReadsBack | src/internal/value-serializer.ts:359-365 | a `"` record reads back as its bytes widened to code units |
| InternalReaders.TwoByteStringReadsBack | src/internal/value-serializer.ts:366-373 | a `c` record, with or without a padding byte in front, reads back as its code units |
| InternalReaders.OneByteStringWidens | src/internal/value-serializer.ts:362-365 | for a one-byte string, widening the UTF-8 bytes gives the string back |
| InternalReaders.StringReadsBack | src/internal/value-serializer.ts:359-375 | whatever position it starts at, a string record reads back as the string written |
| InternalReaders.PaddingLength | src/internal/value-serializer.ts:369-371 | a padding byte is written iff size + 1 + bytesNeeded(2 len) is odd |
| InternalReaders.TwoBytePayloadAligned | src/internal/value-serializer.ts:366-373 | a two-byte record is padding, `c`, varint(2 len) and the UTF-16LE units, and the units start at an even offset |
| InternalReaders.TwoByteHeaderEven | src/internal/value-serializer.ts:369-372 | padding, tag and length varint always end at an even offset |
| InternalReaders.VarintsReadBack | src/internal/value-serializer.ts:694-698 | a run of varints reads back as the same values |
| InternalReaders.ObjectSlowWritesOnlyEmptyObjects | src/internal/value-serializer.ts:470-484 | an object with no properties is `o` then `{` 0; with any property, `writeObject` rejects the first key, a string, with DataCloneError after `o` |
| InternalReaders.DenseArrayReadsBack | src/internal/value-serializer.ts:486-494 | a dense array writes only `A` and its length, which read back |
| InternalReaders.SparseArrayOutcomes | src/internal/value-serializer.ts:495-511 | a holey array writes `a` and its length; `writeObject` then rejects the first key with DataCloneError, and only a key list without "length", which no real array has, reaches the `@` 0 length trailer |
| InternalReaders.SparseArrayTrailerReadsBack | src/internal/value-serializer.ts:507-509 | the `@` count length trailer reads back |
| InternalFormat.Distinct | src/internal/value-serializer.ts:569-572 | `[...new Set(values)]` keeps each value once, at its first occurrence: no duplicates, the same values, no longer than the input, and the same first value |
| InternalReaders.UnnamedReceiversReachSet | src/internal/value-serializer.ts:389-440 | every receiver except callables, wrappers and Maps ends as `writeJSSet`: TypeError with no bytes when not iterable, `'` `,` 0 for an empty iteration, else `'` and the first entry's record and outcome |
| InternalReaders.NonIterableReceiversThrow | src/internal/value-serializer.ts:569-570 | plain objects, dates, regular expressions, ArrayBuffers, DataViews and errors throw TypeError before any byte |
| InternalReaders.EmptyArrayWritesSetRecord | src/internal/value-serializer.ts:438-439 | `[]` writes `'` `,` 0 |
| InternalReaders.PairArrayWritesSetRecord | src/internal/value-serializer.ts:438-439 | `[1, 2]` writes `'` `I` 2 |
| InternalReaders.HoleyArrayWritesSetRecord | src/internal/value-serializer.ts:438-439 | `[, 1]` writes `'` `_` |
| InternalReaders.TypedArrayWritesSetRecord | src/internal/value-serializer.ts:438-439 | a typed array holding 1 writes `'` `I` 2 |
| InternalReaders.RegExpReadsBack | src/internal/value-serializer.ts:540-544 | an `R` record reads back as the source and the OR of the flag bits |
| InternalReaders.ViewFieldsAreVarints | src/internal/value-serializer.ts:694-698 | sub-tag, offset, length and flags are four varints |
| InternalReaders.ViewReadsBack | src/internal/value-serializer.ts:645-700 | a view that is not a DataView on a shared buffer ends normally, and its record reads back as sub-tag, byte offset, byte length and 0 |
| InternalReaders.PlainArrayBufferReadsBack | src/internal/value-serializer.ts:639-642 | a `B` record reads back as the buffer's bytes |
| InternalReaders.ResizableArrayBufferReadsBack | src/internal/value-serializer.ts:626-637 | a `~` record reads back as the bytes and the maximum length |
| InternalReaders.ArrayBufferOutcomes | src/internal/value-serializer.ts:585-643 | an ArrayBuffer ends normally iff it is not shared and is either transferred (a truthy id) or not detached with lengths below 2^32; the errors follow the source's order of checks |
| InternalReaders.TransferReadsBack | src/internal/value-serializer.ts:607-613 | a transferred buffer writes `t` and its transfer id, which read back |
| InternalReaders.ErrorTagCodeValues | src/internal/value-serializer.ts:89-100 | the Error field tags are the characters E R F S T U m s c . |
| InternalReaders.ErrorFieldsReadBack | src/internal/value-serializer.ts:714-738 | prototype tag, message and stack read back as written |
| InternalReaders.ErrorEndStarts | src/internal/value-serializer.ts:740-747 | the cause marker is present iff the cause is neither null nor undefined |
| InternalReaders.ErrorReadsBack | src/internal/value-serializer.ts:702-749 | an Error record reads back as prototype, message, stack and whether a cause follows |
| InternalReaders.ErrorOutcomes | src/internal/value-serializer.ts:702-749 | a nameless error writes only `r`; a named one throws only when its cause is a string, symbol or object |
| InternalSerializer.ErrorFieldsChain | src/internal/value-serializer.ts:714-738 | writing prototype, message and stack in turn appends the Error fields as a whole |
| InternalSerializer.ValueSerializer.IdOfHandle | src/internal/value-serializer.ts:386-387 | a receiver in the map has id+1 stored, and that id was given to that receiver |
| InternalSerializer.ValueSerializer.IdsDistinct | src/internal/value-serializer.ts:386-387 | distinct receivers have distinct ids |
| InternalSerializer.ValueSerializer.constructor | src/internal/value-serializer.ts:113-118 | a new serializer has no buffer, size and capacity 0, the flag clear and empty maps |
| InternalSerializer.ValueSerializer.ExpandBuffer | src/internal/value-serializer.ts:227-250 | requests max(required, 2 capacity)+64; on success the capacity exceeds the requirement, else the flag is set and the buffer unchanged |
| InternalSerializer.ValueSerializer.ReserveRawBytes | src/internal/value-serializer.ts:215-225 | when the bytes fit or growth succeeds it returns the old size and advances it by n, keeping the stream; otherwise it returns nothing, sets the flag and changes nothing else |
| InternalSerializer.ValueSerializer.WriteRawBytes | src/internal/value-serializer.ts:208-213 | appends the source bytes, or sets the flag |
| InternalSerializer.ValueSerializer.WriteTag | src/internal/value-serializer.ts:139-142 | appends the tag's byte |
| InternalSerializer.ValueSerializer.WriteByte | src/internal/value-serializer.ts:252-257 | appends the value mod 256 |
| InternalSerializer.ValueSerializer.WriteVariantUint8 | src/internal/value-serializer.ts:144-154 | appends the varint when it fits the two-byte stack (below 2^14); otherwise its first two groups, both with the continuation bit |
| InternalSerializer.ValueSerializer.WriteVariantUint32 | src/internal/value-serializer.ts:155-165 | appends the varint of the value |
| InternalSerializer.ValueSerializer.WriteVariantBigUint64 | src/internal/value-serializer.ts:166-176 | appends what a ten-byte stack holds of the varint, which is the whole varint below 2^64 |
| InternalSerializer.ValueSerializer.WriteUint32 | src/internal/value-serializer.ts:259-261 | appends the varint of the value |
| InternalSerializer.ValueSerializer.WriteBigUint64 | src/internal/value-serializer.ts:263-265 | appends the ten-byte-stack varint |
| InternalSerializer.ValueSerializer.WriteZigZagInt32 | src/internal/value-serializer.ts:178-180 | appends the varint of the ZigZag of the value |
| InternalSerializer.ValueSerializer.WriteDouble | src/internal/value-serializer.ts:182-184 | appends the eight float64 bytes |
| InternalSerializer.ValueSerializer.WriteOneByteString | src/internal/value-serializer.ts:186-189 | appends varint(len) and the bytes |
| InternalSerializer.ValueSerializer.WriteTwoByteString | src/internal/value-serializer.ts:191-196 | appends varint(2 len) and the units in UTF-16LE |
| InternalSerializer.ValueSerializer.WriteBigIntContents | src/internal/value-serializer.ts:198-206 | appends the bitfield varint and the 8 digit bytes, which read back as the sign and \|b\| mod 2^64 |
| InternalSerializer.ValueSerializer.WriteString | src/internal/value-serializer.ts:359-375 | appends the string record of the current position, which reads back as the string |
| InternalSerializer.ValueSerializer.WritePadding | src/internal/value-serializer.ts:369-371 | appends the padding byte exactly when the payload would otherwise start at an odd offset |
| InternalSerializer.ValueSerializer.WriteHeader | src/internal/value-serializer.ts:130-133 | appends FF 0F |
| InternalSerializer.ValueSerializer.SetTreatArrayBufferViewsAsHostObjects | src/internal/value-serializer.ts:135-137 | sets the flag |
| InternalSerializer.ValueSerializer.Release | src/internal/value-serializer.ts:267-273 | returns exactly the bytes written and leaves no buffer, size 0 and capacity 0 |
| InternalSerializer.ValueSerializer.TransferArrayBuffer | src/internal/value-serializer.ts:275-277 | records the transfer id under the buffer |
| InternalSerializer.ValueSerializer.ThrowIfOutOfMemory | src/internal/value-serializer.ts:846-851 | throws DataCloneErrorOutOfMemory iff the flag is set, else returns true |
| InternalSerializer.ValueSerializer.WriteOddball | src/internal/value-serializer.ts:330-342 | appends `_`, `0`, `T` or `F` |
| InternalSerializer.ValueSerializer.WriteSmi | src/internal/value-serializer.ts:344-347 | appends `I` and the ZigZag varint |
| InternalSerializer.ValueSerializer.WriteHeapNumber | src/internal/value-serializer.ts:349-352 | appends `N` and the float64 bytes |
| InternalSerializer.ValueSerializer.WriteBigInt | src/internal/value-serializer.ts:354-357 | appends `Z` and the BigInt contents |
| InternalSerializer.ValueSerializer.WriteObject | src/internal/value-serializer.ts:279-328 | after out of memory it throws DataCloneErrorOutOfMemory and writes nothing; otherwise it writes the primitive's record and ends normally, and throws DataCloneError for strings, symbols and objects |
| InternalSerializer.ValueSerializer.WriteJSObjectPropertiesSlow | src/internal/value-serializer.ts:813-828 | returns the count 0 for no keys; otherwise it writes nothing and throws the DataCloneError `writeObject` raises for the first key |
| InternalSerializer.ValueSerializer.WriteJSObjectSlow | src/internal/value-serializer.ts:466-484 | writes `o`, then `{` 0 when there are no properties; with any property it throws DataCloneError after `o` |
| InternalSerializer.ValueSerializer.WriteJSArray | src/internal/value-serializer.ts:486-512 | a dense array writes `A` and the length; a holey one writes the sparse record |
| InternalSerializer.ValueSerializer.WriteSparseJSArray | src/internal/value-serializer.ts:495-511 | writes the sparse header, the properties and the trailer |
| InternalSerializer.ValueSerializer.WriteJSDate | src/internal/value-serializer.ts:514-517 | appends `D` and the time's float64 bytes |
| InternalSerializer.ValueSerializer.WriteJSPrimitiveWrapper | src/internal/value-serializer.ts:519-538 | appends `y`, `x`, `n`+double, `z`+BigInt or `s`+string, and throws DataCloneError for anything else, such as a symbol |
| InternalSerializer.ValueSerializer.WriteJSRegExp | src/internal/value-serializer.ts:540-544 | appends `R`, the source string and the flags bitfield |
| InternalSerializer.ValueSerializer.WriteJSMap | src/internal/value-serializer.ts:546-567 | an empty map writes `;` `:` 0; a non-empty one throws TypeError before writing anything |
| InternalSerializer.ValueSerializer.WriteJSSet | src/internal/value-serializer.ts:569-583 | an object without an iterator throws TypeError before any byte; an empty iteration writes `'` `,` 0; otherwise `'` and the record of the first distinct entry, and the call ends with that entry's result |
| InternalSerializer.ValueSerializer.WritePlainArrayBuffer | src/internal/value-serializer.ts:639-642 | appends `B`, the length and the bytes |
| InternalSerializer.ValueSerializer.WriteResizableArrayBuffer | src/internal/value-serializer.ts:626-637 | appends `~`, the length, the maximum length and the bytes |
| InternalSerializer.ValueSerializer.WriteJSArrayBuffer | src/internal/value-serializer.ts:585-643 | without a delegate a shared buffer throws; a truthy transfer id writes `t` and the id; a detached buffer or a length of 2^32 or more throws; otherwise `~` or `B` |
| InternalSerializer.ValueSerializer.WriteHostObject | src/internal/value-serializer.ts:798-811 | writes `\` and throws, since there is no delegate |
| InternalSerializer.ValueSerializer.WriteViewFields | src/internal/value-serializer.ts:694-698 | appends sub-tag, offset, length and flags 0 as varints |
| InternalSerializer.ValueSerializer.WriteJSArrayBufferView | src/internal/value-serializer.ts:645-700 | writes as a host object when the flag is set, else `V` and the view fields; a DataView on a shared buffer throws |
| InternalSerializer.ValueSerializer.WriteErrorPrototype | src/internal/value-serializer.ts:714-728 | appends the prototype tag for the six named error types and nothing for any other name |
| InternalSerializer.ValueSerializer.WriteStringField | src/internal/value-serializer.ts:730-738 | appends the field tag and string when present, nothing otherwise |
| InternalSerializer.ValueSerializer.WriteErrorFields | src/internal/value-serializer.ts:714-738 | appends prototype, message and stack fields |
| InternalSerializer.ValueSerializer.WriteErrorEnd | src/internal/value-serializer.ts:740-748 | a present cause writes `c` and the cause's record, and then the falsy result ends the call without the end tag; otherwise it writes `.` |
| InternalSerializer.ValueSerializer.WriteJSError | src/internal/value-serializer.ts:702-749 | writes `r`, then stops for a nameless error; otherwise the prototype, message and stack fields and the cause or end tag, which read back |
| InternalSerializer.ValueSerializer.WriteReceiverBody | src/internal/value-serializer.ts:389-440 | a callable throws DataCloneError; a primitive wrapper and a Map reach their writers; every other object reaches `writeJSSet` through the undefined `JS_SET_TYPE` label |
| InternalSerializer.ValueSerializer.WriteJSReceiver | src/internal/value-serializer.ts:377-464 | a seen receiver writes `^` and its id and keeps the ids; an unseen one gets the next id (stored +1) before the switch writes its body |
| PackageFormat.ZigZagViaUint32IsZigZag | v8-value-serializer.js/src/ValueSerializer.ts:147-159 | `u32(i32(n) << 1) ^ (n >> 31)` equals the main port's ZigZag |
| PackageFormat.ZigZagViaUint32Examples | v8-value-serializer.js/src/ValueSerializer.ts:147-159 | 0->0, -1->1, 1->2, -2->3, as the doc comment says |
| PackageFormat.ZigZagBackReferenceDoublesId | v8-value-serializer.js/src/ValueSerializer.ts:514-525 | a back reference to id i is the main port's back reference to 2i, and reads back as 2i |
| PackageFormat.HeaderThenSmi42Bytes | v8-value-serializer.js/src/ValueSerializer.ts:67-70 | header then Smi 42 is FF 0F 49 54 |
| PackageFormat.CodePointHeads | v8-value-serializer.js/src/ValueSerializer.ts:193-205 | iterating a string by code point yields at most as many units as the string |
| PackageFormat.CodePointHeadsOfPairFree | v8-value-serializer.js/src/ValueSerializer.ts:193-205 | without surrogate pairs, the code-point iteration yields the string itself |
| PackageFormat.CodePointHeadsShorter | v8-value-serializer.js/src/ValueSerializer.ts:202-205 | with a surrogate pair it yields strictly fewer units |
| PackageFormat.AsciiIsPairFree | v8-value-serializer.js/src/ValueSerializer.ts:500-508 | ASCII strings contain no surrogate pair |
| PackageFormat.Narrow | v8-value-serializer.js/src/ValueSerializer.ts:193-196 | `Uint8Array.from` keeps one byte per unit |
| PackageFormat.OneBytePayloadOfOneByte | v8-value-serializer.js/src/ValueSerializer.ts:193-196 | for a one-byte string the payload is the string's UTF-8 bytes |
| PackageFormat.TwoByteAsWrittenAgreesWithoutPairs | v8-value-serializer.js/src/ValueSerializer.ts:202-205 | without surrogate pairs the as-written two-byte payload is the UTF-16LE units |
| PackageFormat.TwoByteAsWrittenUnderfills | v8-value-serializer.js/src/ValueSerializer.ts:202-205 | with a pair, the as-written payload is shorter than the 2 len bytes announced |
| PackageFormat.SurrogatePairBreaksTwoByteRecord | v8-value-serializer.js/src/ValueSerializer.ts:202-205 | for U+1F600 the as-written bytes are 04 3D D8, which do not read back as a string |
| PackageFormat.StringBytes2Tag | v8-value-serializer.js/src/ValueSerializer.ts:500-508 | the record starts with `"` iff the string is ASCII, and never with padding |
| PackageFormat.StringBytes2IsUnpadded | v8-value-serializer.js/src/ValueSerializer.ts:500-508 | it is the main port's record with the padding byte removed |
| PackageFormat.StringBytes2ReadsBack | v8-value-serializer.js/src/ValueSerializer.ts:500-508 | the string record reads back as the string |
| PackageFormat.StubBigIntIsZero | v8-value-serializer.js/src/internal/index.ts:9-22 | with the stubs, every BigInt is written as `Z` 00, the same as 0n |
| PackageFormat.FirstGrowthWithoutDelegateThrows | v8-value-serializer.js/src/ValueSerializer.ts:263-289 | as written, growing a missing buffer without a delegate throws TypeError |
| PackageFormat.GrowWithoutDelegate | v8-value-serializer.js/src/ValueSerializer.ts:263-289 | the corrected growth has the requested length, keeps the old bytes, zero-fills the rest, and agrees with the as-written code whenever that does not throw |
| PackageSerializer.ValueSerializer.IdOfHandle | v8-value-serializer.js/src/ValueSerializer.ts:514-525 | a receiver in the map has id+1 stored, and that id was given to that receiver |
| PackageSerializer.ValueSerializer.IdsDistinct | v8-value-serializer.js/src/ValueSerializer.ts:514-525 | distinct receivers have distinct ids |
| PackageSerializer.ValueSerializer.constructor | v8-value-serializer.js/src/ValueSerializer.ts:41-43 | a new serializer has no buffer, size and capacity 0, the flag clear and empty maps |
| PackageSerializer.ValueSerializer.Close | v8-value-serializer.js/src/ValueSerializer.ts:50-58 | drops the buffer only when there is one and no delegate |
| PackageSerializer.ValueSerializer.ExpandBuffer | v8-value-serializer.js/src/ValueSerializer.ts:263-289 | with a delegate, succeeds iff the request is within the limit; without one it always succeeds with the corrected zero-filled copy |
| PackageSerializer.ValueSerializer.GrowFresh | v8-value-serializer.js/src/ValueSerializer.ts:276-278 | the fresh Uint8Array of the requested size holds the old bytes then zeros |
| PackageSerializer.ValueSerializer.ReserveRawBytes | v8-value-serializer.js/src/ValueSerializer.ts:246-257 | corrected: throws TypeError iff there is no buffer and 0 bytes are asked for; otherwise reserves as the main port does |
| PackageSerializer.ValueSerializer.WriteRawBytes | v8-value-serializer.js/src/ValueSerializer.ts:226-240 | corrected: appends the bytes or sets the flag; throws TypeError iff there is no buffer and the source is empty |
| PackageSerializer.ValueSerializer.WriteTag | v8-value-serializer.js/src/ValueSerializer.ts:91-94 | corrected: appends the tag's byte |
| PackageSerializer.ValueSerializer.WriteVariantUint32 | v8-value-serializer.js/src/ValueSerializer.ts:100-118 | corrected: appends the varint of the value |
| PackageSerializer.ValueSerializer.WriteVariantUint64 | v8-value-serializer.js/src/ValueSerializer.ts:123-141 | corrected: appends what a ten-byte stack holds of the varint, which is the whole varint below 2^64 |
| PackageSerializer.ValueSerializer.WriteZigZagInt32 | v8-value-serializer.js/src/ValueSerializer.ts:147-159 | corrected: appends the varint of the ZigZag of the value |
| PackageSerializer.ValueSerializer.WriteDouble | v8-value-serializer.js/src/ValueSerializer.ts:184-187 | corrected: appends the eight float64 bytes |
| PackageSerializer.ValueSerializer.WriteOneByteString | v8-value-serializer.js/src/ValueSerializer.ts:193-196 | corrected: appends varint(len) and the narrowed code-point heads |
| PackageSerializer.ValueSerializer.WriteTwoByteString | v8-value-serializer.js/src/ValueSerializer.ts:202-205 | corrected: appends varint(2 len) and all the code units in UTF-16LE |
| PackageSerializer.ValueSerializer.WriteBigIntContents | v8-value-serializer.js/src/ValueSerializer.ts:211-219 | corrected: appends varint(0) and reserves no digit bytes |
| PackageSerializer.ValueSerializer.WriteByte | v8-value-serializer.js/src/ValueSerializer.ts:296-301 | corrected: appends the value mod 256 |
| PackageSerializer.ValueSerializer.WriteUint32 | v8-value-serializer.js/src/ValueSerializer.ts:315-317 | corrected: appends the varint of the value |
| PackageSerializer.ValueSerializer.WriteUint64 | v8-value-serializer.js/src/ValueSerializer.ts:331-333 | corrected: appends the ten-byte-stack varint |
| PackageSerializer.ValueSerializer.WriteHeader | v8-value-serializer.js/src/ValueSerializer.ts:67-70 | corrected: appends FF 0F |
| PackageSerializer.ValueSerializer.SetTreatArrayBufferViewsAsHostObjects | v8-value-serializer.js/src/ValueSerializer.ts:83-85 | sets the flag |
| PackageSerializer.ValueSerializer.Release | v8-value-serializer.js/src/ValueSerializer.ts:348-354 | returns the whole backing array, whose length is the capacity and whose prefix is the stream, and resets the buffer, size and capacity |
| PackageSerializer.ValueSerializer.TransferArrayBuffer | v8-value-serializer.js/src/ValueSerializer.ts:365-374 | records the buffer under its transfer id |
| PackageSerializer.ValueSerializer.WriteObject | v8-value-serializer.js/src/ValueSerializer.ts:383-441 | always throws: TypeError iff the flag is set (undefined `throwIfOutOfMemory`), ReferenceError otherwise (undeclared `Object_isSMI`) |
| PackageSerializer.ValueSerializer.WriteOddball | v8-value-serializer.js/src/ValueSerializer.ts:447-466 | throws ReferenceError (undeclared `Oddball_kind`) |
| PackageSerializer.ValueSerializer.WriteSmi | v8-value-serializer.js/src/ValueSerializer.ts:472-476 | corrected: appends `I` and the ZigZag varint |
| PackageSerializer.ValueSerializer.WriteHeapNumber | v8-value-serializer.js/src/ValueSerializer.ts:482-485 | corrected: appends `N` and the float64 bytes |
| PackageSerializer.ValueSerializer.WriteBigInt | v8-value-serializer.js/src/ValueSerializer.ts:491-494 | corrected: appends `Z` 00 |
| PackageSerializer.ValueSerializer.WriteString | v8-value-serializer.js/src/ValueSerializer.ts:500-508 | corrected: appends the unpadded string record, which reads back as the string |
| PackageSerializer.ValueSerializer.WriteBackReference | v8-value-serializer.js/src/ValueSerializer.ts:516-521 | corrected: appends `^` and the ZigZag of the id |
| PackageSerializer.ValueSerializer.WriteJSReceiver | v8-value-serializer.js/src/ValueSerializer.ts:514-528 | corrected: a seen receiver writes `^` zigzag(id), keeps the ids, then throws TypeError; an unseen one gets the next id (stored +1), nothing is written, and it throws ReferenceError at `instanceType` |
| PackageSerializer.HeaderThenSmi42 | v8-value-serializer.js/src/ValueSerializer.ts:67-70 | corrected: a fresh serializer without a delegate, given writeHeader, writeSMI(42) and release, yields FF 0F 49 54 |

## Left out

- Float64 payloads (`writeDouble`, `writeHeapNumber`, dates, Number wrappers, `f32`/`f64`): each is an opaque 8-byte block, and no IEEE 754 arithmetic is modelled.
- The engine's run-time classification (`isCallable`, `isJSTypedArray`, an object's constructor and iterator, `Object.getOwnPropertyNames`): each value arrives pre-classified in `Values.ReceiverKind`, and `ObjectPrototypeInstanceType` is computed from that kind.
- InternalFormat.Distinct: compares values by the model's equality, not by SameValueZero, so NaN and the two zeros are not merged as `new Set` merges them; `writeJSSet` reads only whether the set is empty and its first entry, which are the same either way.
- Little-endian host: two-byte string payloads, BigInt digits and float64 bytes are modelled for a little-endian host, while the source writes host order through typed-array byte views.
- `realloc` throws a RangeError when `ArrayBuffer.transfer` cannot allocate; the model turns every failure into the null result the writers test for, at the bound `memoryLimit`.
- A delegate's `reallocateBufferMemory` is assumed to return exactly the requested capacity, and `freeBufferMemory` in `close` is not modelled.
- Delegate-driven paths are not modelled: host objects with a delegate, `isHostObject`, shared objects, `writeWASMModule`, `writeWASMMemory` and shared array buffers with a delegate. Without a delegate they throw DataCloneError, and the model ends them that way.
- InternalSerializer.ValueSerializer.WriteVariantUint32: requires the value below 2^31, because the `>>=` loop never ends for larger values; callers such as WriteUint32, WriteZigZagInt32 and the length writers carry the same bound.
- PackageSerializer.ValueSerializer.WriteVariantUint32: requires the value below 2^31 for the same reason; WriteUint32 carries the same bound.
- InternalSerializer.ValueSerializer.WriteZigZagInt32: requires |n| < 2^30, outside which the int32 ZigZag is negative and the loop does not end.
- InternalSerializer.ValueSerializer.WriteJSReceiver: requires fewer than 2^31 ids, a wrapped string that fits the varint bound, and that the first entry `writeJSSet` hands to `writeObject` is a safe Smi if a Smi at all (`Writable`).
- PackageSerializer.ValueSerializer.WriteJSReceiver: requires fewer than 2^30 ids, because a seen receiver's id goes through `writeZigZag_int32`, whose loop does not end outside |n| < 2^30.
- PackageSerializer.ValueSerializer.WriteZigZagInt32: requires |n| < 2^30, although its doc comment and `console.assert` accept every int32; outside that range the int32 ZigZag is negative and the varint loop does not end, in both ports.
- InternalSerializer.ValueSerializer.WriteVariantBigUint64: takes a non-negative bigint; for a negative one `value >>= 7n` never reaches 0 and the loop does not end.
- PackageSerializer.ValueSerializer.WriteVariantUint64: takes a non-negative bigint, as its `console.assert` demands; for a negative one the loop does not end.
- What the main port's receiver switch was meant to dispatch to (arrays, dates, regular expressions, ArrayBuffers, views, errors, host objects and plain objects) is not modelled as a dispatch; those writers are modelled as methods called on their own.
- The second port's `writeZigZag_int64` is not modelled: it shifts by 31 instead of 63 and never ends for negative inputs.
- The second port's `writeJSObject` is truncated, and the rest of `writeJSReceiver` and `writeObject` cannot be reached past the undeclared `Object_isSMI` and the `instanceType` use before its declaration; only the reachable prefix is modelled.
- src/internal/REF-v8/value-serializer.ts is not part of this model: it calls helpers it does not define, and its working logic duplicates the main port.
- src/internal/node_serdes.ts and the delegate interface files are not part of this model.
- Deserialization is modelled only as the spec-level readers the round-trip lemmas use.
- Byte equality with `node:v8` is not claimed, since the ports do not define the `writeValue` entry point their tests drive.
- Error message text is not modelled; errors are the kinds in `Values.ErrorKind`.

## Findings

| source | as written | input that shows it | evidently intended | confidence | as-written member | corrected member |
|---|---|---|---|---|---|---|
| v8-value-serializer.js/src/ValueSerializer.ts:263-289 | without a delegate, the first growth calls `new Uint8Array(n).set(this.#buffer!)` while the buffer is still null, which throws TypeError | a new serializer without a delegate, then `writeHeader()` | a missing buffer counts as empty: the new buffer is zero-filled with the old bytes (none) as its prefix | not executed | PackageFormat.FirstGrowthWithoutDelegateThrows | PackageFormat.GrowWithoutDelegate |
| v8-value-serializer.js/src/ValueSerializer.ts:202-205 | the two-byte payload iterates the string by code point and keeps one unit per code point, while the header announces 2 len bytes | the string "\uD83D\uDE00" (U+1F600, one surrogate pair) | the payload is every UTF-16 code unit in little-endian order | not executed | PackageFormat.SurrogatePairBreaksTwoByteRecord | PackageSerializer.ValueSerializer.WriteTwoByteString |
