# rexif TIFF/EXIF core in Dafny

A verified model of the binary engine of rexif, a Rust library that reads and
writes EXIF metadata. The model covers:

- **Byte readers** (`LowLevel`): endian-aware 16- and 32-bit integers,
  unsigned and signed rationals, and the all-or-nothing array readers built on
  `read_elements`.
- **Rationals** (`Rational`): the `URational`/`IRational` pairs, their
  `"n/d"` text form and their field-wise equality.
- **Directory entries** (`Types`, `IfdEntries`): the format codes, the element
  size, the total length, the rule that a payload of at most 4 bytes lives
  inline in the value field, `copy_data` (imperative, on an `IfdEntry` class),
  the 12-byte record `IfdEntry::serialize` writes, the entry equality, and
  `TagValue::to_i64`.
- **Container sniffing** (`Image`): `detect_type`, `FileType::as_str` and the
  JPEG segment walk that finds the TIFF structure inside the APP1 "Exif\0\0"
  segment (JPEG markers as in ITU-T T.81 Annex B; the APP1 preamble as in
  section 4.5.4 of the Exif standard, JEITA CP-3451). The walk is a `while`
  loop, proved equal to a recursive specification.
- **Serializer** (`Serializer`, `SerializerFacts`, `ExifDataFacts`):
  `ExifData::serialize` and `serialize_ifd` write a TIFF 6.0 structure. That
  is a header ("II*\0" or "MM\0*"), the offset 8 of IFD-0, then IFD-0, the
  Exif directory and the GPS directory. Each directory is a count, 12-byte
  records and a zero next-directory word.
  - A payload wider than 4 bytes goes through deferred offset patching. A zero
    placeholder is written and a patch is queued. Once the directory is
    complete, the payload is appended and the placeholder is backfilled with
    the payload's position.
  - The Exif and GPS pointer slots in IFD-0 are backfilled the same way.
  - The imperative methods (record loops, byte overwrites, patch resolution)
    are proved equal to specification functions. The layout properties are
    proved about those functions.
- **Tag table** (`ExifTable`): `tag_to_exif`, with the readable-text
  formatter kept as an opaque enumeration.

Integer widths are subset types of `int` (`byte`, `u16`, `u32`, `i8`, `i16`,
`i32`, `i64`). The Rust `as u32` and `as u16` casts of the serializer are
written out as wrap-around (`AsU32`, `AsU16`). The layout lemmas then
require the output to stay within 32-bit offsets.

## Model

| member | source | states |
|---|---|---|
| Ints.AsU32 | src/types.rs:121-124 | the `as u32` cast of a buffer length: identity for every length below 2^32 |
| Ints.AsU16 | src/types.rs:78-82 | the `as u16` cast of an entry count: identity for every count below 2^16 |
| LowLevel.ReadU16 | src/lowlevel.rs:6-9 | None exactly when fewer than 2 bytes are given |
| LowLevel.ReadI16 | src/lowlevel.rs:13-16 | None exactly when fewer than 2 bytes are given |
| LowLevel.ReadU32 | src/lowlevel.rs:20-23 | None exactly when fewer than 4 bytes are given |
| LowLevel.ReadI32 | src/lowlevel.rs:27-30 | None exactly when fewer than 4 bytes are given |
| LowLevel.ReadURational | src/lowlevel.rs:46-50 | needs 8 bytes (shorter input panics in the source); always yields a pair |
| LowLevel.ReadIRational | src/lowlevel.rs:54-58 | needs 8 bytes (shorter input panics in the source); always yields a pair |
| LowLevel.ReadersIgnoreTrailingBytes | src/lowlevel.rs:6-30 | only the leading 2 or 4 bytes are decoded; bytes after them never change the result |
| LowLevel.BigEndianIsReversedLittle | src/lowlevel.rs:6-23 | a big-endian reading is the little-endian reading of the reversed bytes |
| LowLevel.U16RoundTrip | src/lowlevel.rs:6-9 | reading back the 2 bytes the serializer writes for a u16 gives the u16, in either byte order |
| LowLevel.U16Inverse | src/lowlevel.rs:6-9 | re-encoding a read u16 gives back the 2 bytes read |
| LowLevel.U32RoundTrip | src/lowlevel.rs:20-23 | reading back the 4 bytes the serializer writes for a u32 gives the u32, in either byte order |
| LowLevel.U32Inverse | src/lowlevel.rs:20-23 | re-encoding a read u32 gives back the 4 bytes read |
| LowLevel.ReadI16Reinterprets | src/lowlevel.rs:13-16 | the signed reading is the two's-complement reinterpretation of the unsigned reading of the same bytes |
| LowLevel.ReadI32Reinterprets | src/lowlevel.rs:27-30 | the signed reading is the two's-complement reinterpretation of the unsigned reading of the same bytes |
| LowLevel.URationalRoundTrip | src/lowlevel.rs:46-50 | numerator from bytes 0..4, denominator from bytes 4..8: an encoded pair reads back as itself |
| LowLevel.ElementBytesNeverOverflow | src/lowlevel.rs:62-64 | with an element size below 256 and a u32 count, `checked_mul` never overflows a 64-bit `usize` |
| LowLevel.ReadElements | src/lowlevel.rs:61-72 | all or nothing: Some exactly when size*count neither overflows nor exceeds the input; then exactly `count` elements, element i decoded from bytes i*size to (i+1)*size |
| LowLevel.ReadI8Array | src/lowlevel.rs:75-77 | Some exactly when there are `count` bytes; then the first `count` bytes reinterpreted as signed |
| LowLevel.ReadU16Array | src/lowlevel.rs:81-83 | Some exactly when there are 2*count bytes; each element equals `read_u16` of its chunk |
| LowLevel.ReadI16Array | src/lowlevel.rs:86-88 | Some exactly when there are 2*count bytes; each element equals `read_i16` of its chunk |
| LowLevel.ReadU32Array | src/lowlevel.rs:91-93 | Some exactly when there are 4*count bytes; each element equals `read_u32` of its chunk |
| LowLevel.ReadI32Array | src/lowlevel.rs:96-98 | Some exactly when there are 4*count bytes; each element equals `read_i32` of its chunk |
| LowLevel.ReadURationalArray | src/lowlevel.rs:111-113 | Some exactly when there are 8*count bytes; each element equals `read_urational` of its chunk |
| LowLevel.ReadIRationalArray | src/lowlevel.rs:116-118 | Some exactly when there are 8*count bytes; each element equals `read_irational` of its chunk |
| Rational.URational.ToString | src/rational.rs:40-44 | `Display` for `URational`: "n/d" in decimal; URationalDisplayRoundTrip and DisplayExamples state what the text holds |
| Rational.IRational.ToString | src/rational.rs:19-23 | `Display` for `IRational`: "n/d" with signed decimals; IRationalDisplayRoundTrip and DisplayExamples state what the text holds |
| Rational.URationalDisplayRoundTrip | src/rational.rs:40-44 | the text is the decimal numerator, "/", the decimal denominator: parsing it back gives the same pair |
| Rational.IRationalDisplayRoundTrip | src/rational.rs:19-23 | the same with signed decimals: parsing the text back gives the same pair |
| Rational.DecimalParses | src/rational.rs:21 | the decimal rendering of a natural number reads back as that number |
| Rational.SignedDecimalParses | src/rational.rs:21 | the signed decimal rendering of an integer reads back as that integer |
| Rational.DisplayExamples | src/rational.rs:19-44 | -1 over 2 shows as "-1/2"; a zero denominator is shown, 1 over 0 as "1/0" |
| Rational.EqualityIsFieldwise | src/rational.rs:25-30 | derived equality compares numerator and denominator, so 1/2 differs from 2/4 |
| Types.FormatFromCode | src/types_impl.rs:18-34 | codes 1 to 12 give the format with that discriminant; 0 and every code above 12 give Unknown |
| Types.FormatCodeRoundTrip | src/types.rs:567-581 | mapping a format's discriminant back gives the format |
| Types.TagValue.ToI64 | src/types.rs:719-729 | Some exactly for the six integer variants at an index inside the array; the value is within the i32/u32 range. Which value comes back is stated per variant by the six `*ToI64ReadsBack` lemmas |
| Types.ExifTag.Code | src/types.rs:342-449 | every tag's discriminant fits in 16 bits, so the `as u16` casts on tags lose nothing |
| IfdEntries.U16ToI64ReadsBack | src/types.rs:722 | `to_i64` on a decoded U16 array gives, at each index, `read_u16` of that chunk of the raw bytes |
| IfdEntries.I32ToI64ReadsBack | src/types.rs:726 | `to_i64` on a decoded I32 array gives, at each index, `read_i32` of that chunk (signs kept) |
| IfdEntries.U8ToI64ReadsBack | src/types.rs:721 | `to_i64` on a U8 value gives, at each index, the raw byte |
| IfdEntries.I8ToI64ReadsBack | src/types.rs:724 | `to_i64` on a decoded I8 array gives, at each index, that byte reinterpreted as signed |
| IfdEntries.I16ToI64ReadsBack | src/types.rs:725 | `to_i64` on a decoded I16 array gives, at each index, `read_i16` of that chunk (signs kept) |
| IfdEntries.U32ToI64ReadsBack | src/types.rs:723 | `to_i64` on a decoded U32 array gives, at each index, `read_u32` of that chunk (no sign change above 2^31) |
| IfdEntries.IfdEntry.Size | src/types_impl.rs:58-74 | 1 for U8, Ascii, I8, Undefined, Unknown; 2 for U16, I16; 4 for U32, I32, F32; 8 for the rationals and F64 (both directions) |
| IfdEntries.IfdEntry.Length | src/types_impl.rs:79-81 | the contract bounds the length between count and 8*count; the exact value, size times count, is tied to the readers by `LengthIsReadersDemand` |
| IfdEntries.InlineRule | src/types_impl.rs:88-90 | inline exactly when the count fits 4 bytes at the element size (4 bytes, 2 shorts, 1 word, or no elements) |
| IfdEntries.SizeByFormat | src/types_impl.rs:79-90 | U32×1 is inline, U32×2 is not, a rational is never inline |
| IfdEntries.LengthIsReadersDemand | src/types_impl.rs:79-81 | the array reader of the entry's format succeeds exactly when at least `length()` bytes are given |
| IfdEntries.IfdEntry.TryDataAsOffset | src/types_impl.rs:50-52 | None exactly when the value field has fewer than 4 bytes; otherwise the u32 its first 4 bytes encode in the entry's byte order |
| IfdEntries.OffsetRoundTrip | src/types_impl.rs:50-52 | a value field holding an encoded offset gives back that offset |
| IfdEntries.IfdEntry.CopyData | src/types_impl.rs:96-114 | inline: true, `data` becomes the whole value field, `ext_data` kept. External: true exactly when the offset reads and the range fits, then `ext_data` and `data` are that range; otherwise false with nothing changed |
| IfdEntries.IfdEntry.Record | src/types.rs:287-315 | tag, format, count, then the inline data or a 4-byte zero placeholder |
| IfdEntries.IfdEntry.AppendedTo | src/types.rs:283-316 | UnsupportedNamespace exactly for a non-standard entry; otherwise the record is appended, and a patch for the placeholder is queued exactly when the data is external |
| IfdEntries.IfdEntry.Serialize | src/types.rs:277-317 | the imperative form equals AppendedTo |
| IfdEntries.RecordReadsBack | src/types.rs:287-306 | reading the first 8 bytes of a record back gives the tag, the format and the count |
| IfdEntries.InlineRecordIsTwelveBytes | src/types.rs:308-310 | an inline entry with a 4-byte value field writes a 12-byte record |
| IfdEntries.PatchPointsAtPlaceholder | src/types.rs:311-315 | the queued patch's position is the start of the 4 zero bytes, carrying the entry's data |
| IfdEntries.BitNot16 | src/types.rs:262 | Rust's unary `!` on a `u16`, as 0xFFFF minus the value; that this is bitwise NOT is proved by BitNot16FlipsEveryBit |
| IfdEntries.BitNot16FlipsEveryBit | src/types.rs:262 | each of the sixteen bits of `!x` is the opposite of the same bit of `x` |
| IfdEntries.IfdEntry.EqualsAsWritten | src/types.rs:260-273 | `PartialEq` as written, with the bitwise-NOT guard; its properties are EqualsAsWrittenIgnoresPayload and EqualsAsWrittenMissesDataChange |
| IfdEntries.IfdEntry.Equals | src/types.rs:257-273 | `PartialEq` with the guard corrected to `tag != ExifOffset && tag != GPSOffset`; its properties are EqualsComparesInlinePayload and EqualsAsWrittenMissesDataChange |
| IfdEntries.EqualsAsWrittenIgnoresPayload | src/types.rs:260-273 | equality as written holds exactly when namespace, tag, count and byte order agree |
| IfdEntries.EqualsAsWrittenMissesDataChange | src/types.rs:262-266 | two inline Orientation entries differing only in their value compare equal as written |
| IfdEntries.EqualsComparesInlinePayload | src/types.rs:257-273 | corrected equality also compares the payloads of inline entries other than the two sub-directory pointers |
| Image.AsStr | src/image.rs:19-25 | Unknown, JPEG and TIFF give "application/octet-stream", "image/jpeg" and "image/tiff" (both directions) |
| Image.AsStrInjective | src/image.rs:19-25 | distinct file types have distinct MIME types |
| Image.DetectType | src/image.rs:29-49 | under 11 bytes is Unknown; JPEG exactly for FF D8 FF with "JFIF\0" or "Exif\0" at bytes 6..11; otherwise TIFF exactly for an "II" or "MM" header; otherwise Unknown |
| Image.FindEmbeddedTiffInJpeg | src/image.rs:52-96 | the loop computes the recursive segment walk from offset 2 |
| Image.ScanFound | src/image.rs:76-86 | on success (o, n): the block lies inside the buffer, preceded by "Exif\0\0", by a big-endian size word equal to n+8, and by marker FF E1 |
| Image.ScanFailsWithoutExif | src/image.rs:55-95 | every failure of the walk is JpegWithoutExif |
| Image.SkipsSegment | src/image.rs:60-92 | a well-formed segment other than APP1 and start-of-scan is skipped whole, header and size included |
| Image.App1Found | src/image.rs:76-86 | a first APP1 segment with the preamble is found: the walk returns exactly the block after the preamble |
| Image.ScanStopsAtStartOfScan | src/image.rs:88-91 | at any offset, a well-formed start-of-scan segment ends the walk with LastMarkWithoutExif, whatever follows; with SkipsSegment, so does one reached before any APP1 |
| Image.ForeignApp1Stops | src/image.rs:76-86 | at any offset, a well-formed APP1 segment shorter than the preamble fails with PreambleTruncated, and one of 8 bytes or more without "Exif\0\0" fails with PreambleUnrecognized, whatever follows |
| Serializer.OverwriteElements | src/types.rs:171-173 | the skip/zip overwrite changes exactly the bytes from `pos` that exist, to the given bytes; no byte past the end is added |
| Serializer.WriteAt | src/types.rs:171-173 | the loop over the buffer equals the overwrite specification |
| Serializer.ResolvePatches | src/types.rs:117-130 | resolving patches grows the buffer by exactly the total payload length |
| Serializer.ResolveAll | src/types.rs:182-193 | the patch loop equals the in-order resolution specification |
| Serializer.WalkAppends | src/types.rs:93-95 | writing records succeeds exactly when every entry is standard (else UnsupportedNamespace); it only appends, at least 8 bytes per entry |
| Serializer.WalkFailurePersists | src/types.rs:94 | the first failing record ends the loop with its error |
| Serializer.WriteRecords | src/types.rs:177-179 | the record loop of `serialize_ifd` equals the record walk |
| Serializer.WriteIfd0Records | src/types.rs:93-107 | the IFD-0 loop equals the record walk, and remembers the slot of the last ExifOffset and GPSOffset record |
| Serializer.PointerExists | src/types.rs:101-106 | a pointer slot is remembered exactly when some IFD-0 entry carries the tag |
| Serializer.PointerInRecords | src/types.rs:96-106 | the remembered slot is the last 4 bytes of a record, inside the written records |
| Serializer.GroupMembers | src/types.rs:59-69 | an entry is in a directory's group exactly when it is among the entries with that kind |
| Serializer.GroupEntries | src/types.rs:54-69 | the grouping loop puts each entry in its kind's list, in order, and drops Makernote and Interoperability entries |
| Serializer.ExifData.Ifd0Start | src/types.rs:37-82 | the header, the offset and the count take 10 bytes; no patch is queued yet |
| Serializer.ExifData.Serialized | src/types.rs:142-146 | succeeds exactly when the TIFF structure does; "Exif\0\0" goes in front exactly for "image/jpeg" |
| Serializer.ExifData.SerializeIfd | src/types.rs:150-195 | the method equals the sub-directory specification: count, backfilled slot, records, zero word, payloads |
| Serializer.ExifData.WriteIfd0 | src/types.rs:77-130 | header, IFD-0 and its payloads equal the IFD-0 stage; both pointer slots are reported |
| Serializer.ExifData.WriteExifIfd | src/types.rs:132-134 | the method equals the Exif stage specification, which appends the Exif directory only when there are Exif entries |
| Serializer.ExifData.WriteGpsIfd | src/types.rs:136-138 | the method equals the final stage specification, which appends the GPS directory, after the Exif one, only when there are GPS entries |
| Serializer.ExifData.Serialize | src/types.rs:35-147 | the whole method equals `Serialized` |
| SerializerFacts.PatchLands | src/types.rs:117-130 | each payload is appended after the buffer and the earlier payloads, and its placeholder holds that position |
| SerializerFacts.PatchPointsAtData | src/types.rs:118-129 | within 32-bit offsets, a placeholder reads back as the exact position of its payload, and the payload is there |
| SerializerFacts.PatchesKeepRest | src/types.rs:127-129 | resolving patches changes no byte of the buffer outside the placeholders |
| SerializerFacts.WalkSlots | src/types.rs:308-315 | records queue their placeholders in order, without overlap, each inside its own record |
| SerializerFacts.SubIfdShape | src/types.rs:150-195 | a sub-directory is the written records, plus the zero word and the resolved payloads, with placeholders in order past the count |
| SerializerFacts.SubIfdLinked | src/types.rs:156-173 | the slot in IFD-0 reads back as the start of the sub-directory; every other earlier byte is kept; the start holds the entry count |
| SerializerFacts.SubIfdByte | src/types.rs:169-173 | only the 4 bytes of the pointer slot change in what was already written |
| SerializerFacts.DirectoryTerminated | src/types.rs:109-110 | a finished directory's records are followed by the zero next-directory word |
| SerializerFacts.DirectoryKeepsStart | src/types.rs:117-130 | finishing a directory leaves everything written before its records unchanged |
| SerializerFacts.DirectoryPayload | src/types.rs:182-193 | in a finished directory, each placeholder inside the records reads back as the position of its payload, which is there |
| SerializerFacts.SubIfdTerminated | src/types.rs:181 | a sub-directory ends its records with the zero word |
| ExifDataFacts.Ifd1IsRejected | src/types.rs:73-75 | any IFD-1 entry makes serialization fail with UnsupportedNamespace |
| ExifDataFacts.Ifd0Outcome | src/types.rs:73-94 | IFD-0 succeeds exactly with no IFD-1 entry and only standard IFD-0 entries; else UnsupportedNamespace |
| ExifDataFacts.MissingExifPointer | src/types.rs:132-134 | Exif entries without an ExifOffset entry in IFD-0 give MissingExifOffset |
| ExifDataFacts.MissingGpsPointer | src/types.rs:136-137 | GPS entries without a GPSOffset entry in IFD-0 give the same MissingExifOffset |
| ExifDataFacts.Written | src/types.rs:65-67 | keeps no Makernote or Interoperability entry |
| ExifDataFacts.GroupOfWritten | src/types.rs:59-69 | dropping those entries leaves each of the four written groups unchanged |
| ExifDataFacts.GroupAppend | src/types.rs:59-69 | grouping a concatenation concatenates the groups |
| ExifDataFacts.OtherKindsIgnored | src/types.rs:65-67 | Makernote and Interoperability entries do not change the output |
| ExifDataFacts.Ifd0Shape | src/types.rs:77-130 | IFD-0 is its written records, then the zero word and the resolved payloads, placeholders past the 10 header bytes |
| ExifDataFacts.Ifd0Header | src/types.rs:37-82 | the first 10 bytes of IFD-0's stage are the header, the offset and the count |
| ExifDataFacts.Ifd0Terminated | src/types.rs:109-110 | IFD-0's records are followed by the zero word: IFD-1 is never linked |
| ExifDataFacts.PointerSlotInIfd0 | src/types.rs:101-106 | a pointer slot lies inside IFD-0, past the header and the count |
| ExifDataFacts.SubIfdKeepsHeader | src/types.rs:169-173 | appending a sub-directory keeps the 10 header bytes |
| ExifDataFacts.StagesGrow | src/types.rs:132-138 | IFD-0, then the Exif stage, then the GPS stage, each only appending |
| ExifDataFacts.HeaderLayout | src/types.rs:37-82 | the output starts with "II*\0" or "MM\0*", the u32 8 and the u16 IFD-0 count, in the set byte order |
| ExifDataFacts.ExifLinked | src/types.rs:101-103 | the ExifOffset record's value reads back as the start of the Exif directory, which holds its entry count |
| ExifDataFacts.GpsLinked | src/types.rs:104-106 | the GPSOffset record's value reads back as the start of the GPS directory, which holds its entry count |
| ExifDataFacts.TiffBodyLength | src/types.rs:37-110 | the TIFF structure holds at least 14 bytes |
| ExifDataFacts.JpegMimeIsJpegType | src/types.rs:142 | the MIME type that gets the preamble is the one `as_str` gives JPEG files |
| ExifDataFacts.TiffHeaderIsDetected | src/types.rs:37-43 | a buffer of 11 bytes or more starting with either TIFF header is detected as TIFF |
| ExifDataFacts.SerializedTiffIsDetected | src/types.rs:142-146 | output for anything but a JPEG is detected as TIFF |
| ExifDataFacts.SerializedJpegIsFound | src/types.rs:142-146 | JPEG output placed in an APP1 segment after the start-of-image marker is detected as JPEG, and the walk finds exactly the TIFF structure |
| ExifDataFacts.JpegSegmentFound | src/types.rs:142-143 | the same for any TIFF block behind the preamble |
| ExifTable.TagToExif | src/exif.rs:15-226 | `tag_to_exif`, one row per listed code and the catch-all row; its properties are TagCodeMatches, TagLookupInverts, UnlistedCodeIsUnknown, CountBoundsShape and KnownRows |
| ExifTable.TagCodeMatches | src/exif.rs:15-224 | every listed code names the tag whose discriminant's low word is that code |
| ExifTable.TagLookupInverts | src/exif.rs:15-224 | every tag except UnknownToMe is listed under its own code |
| ExifTable.UnlistedCodeIsUnknown | src/exif.rs:225 | a code no tag has gives (UnknownToMe, "Unknown unit", Unknown, -1, -1), and only such a code |
| ExifTable.CountBoundsShape | src/exif.rs:15-226 | count bounds are both -1 or 1 <= min <= max <= 6; every Ascii row has -1, -1 |
| ExifTable.KnownRows | src/exif.rs:25-49 | 0x8769 is ExifOffset and 0x8825 is GPSOffset, both U32 with counts 1..1; 0x0112 is Orientation, U16, 1..1 |

## Left out

- Floating point: `value()` of the rationals, `to_f64`, `read_f32`, `read_f64` and their array readers. F32 and F64 tag values are kept as raw bit patterns.
- Display of `TagValue`, `ExifError` and `ExifTag`, and the human-readable formatters of the tag table. The formatter is an opaque enumeration.
- `ExifEntry` equality. It depends on `tag_value_eq`, which is not part of this model.
- The IFD reader that walks directories and records. It is not part of this model; `copy_data` and the readers are.
- I/O: the `io::Error` conversion, the `try_reserve_exact` allocation failure in `read_elements`, and the unreachable `unimplemented!("IFD-1")` branch. The IFD-1 check runs before it.
- The text of `JpegWithoutExif` errors. It is abstracted to an enumeration of the eight reasons.
- Serializer.ExifData.Serialize: the source is one function. The model splits it into the methods WriteIfd0, WriteExifIfd and WriteGpsIfd, plus the loop methods GroupEntries, WriteIfd0Records and WriteRecords. The `&mut Vec` buffer and patch list are passed in and out as values, not updated in place.
- Serializer.WriteIfd0Records: the loop invariant is packed into the predicate `Ifd0Progress`.
- Ints.AsU32: the `as u32` and `as u16` casts wrap instead of being excluded by a precondition. The layout lemmas (HeaderLayout, ExifLinked, GpsLinked, DirectoryPayload and the rest) assume an output within 32-bit offsets, and an IFD-0 count within 16 bits where it matters.
- IfdEntries.IfdEntry.CopyData: an inline entry keeps the whole value field as `data`, not truncated to `length()`. This is what the code does.
- LowLevel.ReadURational: requires 8 bytes, so the panic of `read_urational` and `read_irational` on shorter input is not modelled; every caller passes an 8-byte chunk.
- LowLevel.ReadIRational: requires 8 bytes for the same reason; the source panics on shorter input.
- Patch: the payload is a copy of the entry's bytes, not a borrow.

## Findings

| source | as written | input that shows it | evidently intended | confidence | as-written member | corrected member |
|---|---|---|---|---|---|---|
| src/types.rs:262 | `!self.tag == ExifTag::ExifOffset as u16` is a bitwise NOT compared with 0x8769; `!tag == 0x8769` and `!tag == 0x8825` cannot both hold, so the payload comparison never runs | two inline Orientation (0x0112) U16×1 entries with data [0,1,0,0] and [0,6,0,0] compare equal | `self.tag != ExifOffset as u16 && self.tag != GPSOffset as u16` | not executed | IfdEntries.EqualsAsWrittenMissesDataChange | IfdEntries.EqualsComparesInlinePayload |
