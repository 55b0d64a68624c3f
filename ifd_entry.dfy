// A parsed TIFF directory entry (`IfdEntry`): element size, total length,
// the inline-versus-external rule, payload resolution, the 12-byte record
// the serializer writes for it, and its equality.

module IfdEntries {
  import opened Ints
  import opened Wrappers
  import opened Types
  import opened LowLevel

  /**
   * The output of serialization in progress: the bytes written so far and
   * the offset fields still waiting for the position of their data.
   */
  datatype Writer = Writer(buf: seq<byte>, patches: seq<Patch>)

  /** `!x` on a `u16`: bitwise complement. */
  function BitNot16(x: u16): (r: u16)
    ensures r + x == 0xFFFF
  {
    0xFFFF - x
  }

  /** Bit `i` of `n`, counting from the least significant bit. */
  function Bit(n: nat, i: nat): nat
  {
    if i == 0 then n % 2 else Bit(n / 2, i - 1)
  }

  function Pow2(k: nat): nat
  {
    if k == 0 then 1 else 2 * Pow2(k - 1)
  }

  /** `BitNot16` flips each of the sixteen bits of its argument. */
  lemma BitNot16FlipsEveryBit(x: u16, i: nat)
    requires i < 16
    ensures Bit(BitNot16(x), i) == 1 - Bit(x, i)
  {
    assert Pow2(1) == 2;
    assert Pow2(2) == 4;
    assert Pow2(3) == 8;
    assert Pow2(4) == 16;
    assert Pow2(5) == 32;
    assert Pow2(6) == 64;
    assert Pow2(7) == 128;
    assert Pow2(8) == 256;
    assert Pow2(9) == 512;
    assert Pow2(10) == 1024;
    assert Pow2(11) == 2048;
    assert Pow2(12) == 4096;
    assert Pow2(13) == 8192;
    assert Pow2(14) == 16384;
    assert Pow2(15) == 32768;
    assert Pow2(16) == 0x1_0000;
    ComplementBits(x, BitNot16(x), 16, i);
  }

  /** Two numbers summing to 2^k - 1 have complementary bits below bit k. */
  lemma {:induction false} ComplementBits(x: nat, r: nat, k: nat, i: nat)
    requires x + r == Pow2(k) - 1 && i < k
    ensures Bit(r, i) == 1 - Bit(x, i)
  {
    assert x % 2 + r % 2 == 1;
    if i > 0 {
      assert x / 2 + r / 2 == Pow2(k - 1) - 1;
      ComplementBits(x / 2, r / 2, k - 1, i - 1);
    }
  }

  class IfdEntry {
    const namespace: Namespace
    const tag: u16
    const format: IfdFormat
    const count: u32
    /** The entry's payload; `CopyData` fills it in. */
    var data: seq<byte>
    /** The 4-byte value field of the directory record: the payload or its offset. */
    const ifdData: seq<byte>
    /** The payload when it lives outside the directory. */
    var extData: seq<byte>
    /** Byte order of the entry's integers and offset. */
    const le: bool

    constructor (namespace: Namespace, tag: u16, format: IfdFormat, count: u32,
                 data: seq<byte>, ifdData: seq<byte>, extData: seq<byte>, le: bool)
      ensures this.namespace == namespace && this.tag == tag && this.format == format && this.count == count
      ensures this.data == data && this.ifdData == ifdData && this.extData == extData && this.le == le
    {
      this.namespace := namespace;
      this.tag := tag;
      this.format := format;
      this.count := count;
      this.data := data;
      this.ifdData := ifdData;
      this.extData := extData;
      this.le := le;
    }

    /** Size in bytes of one element of the entry's format. */
    function Size(): (s: nat)
      ensures s == 1 || s == 2 || s == 4 || s == 8
      ensures s == 1 <==> format in {IfdFormat.U8, IfdFormat.Ascii, IfdFormat.I8, IfdFormat.Undefined, IfdFormat.Unknown}
      ensures s == 2 <==> format in {IfdFormat.U16, IfdFormat.I16}
      ensures s == 4 <==> format in {IfdFormat.U32, IfdFormat.I32, IfdFormat.F32}
      ensures s == 8 <==> format in {IfdFormat.URational, IfdFormat.IRational, IfdFormat.F64}
    {
      match format
      case U8 => 1
      case Ascii => 1
      case U16 => 2
      case U32 => 4
      case URational => 8
      case I8 => 1
      case Undefined => 1
      case I16 => 2
      case I32 => 4
      case IRational => 8
      case F32 => 4
      case F64 => 8
      case Unknown => 1
    }

    /** Total payload length: element count times element size. */
    function Length(): (n: nat)
      ensures count <= n <= 8 * count
    {
      Size() * count
    }

    /** Whether the payload fits in the 4-byte value field of the record. */
    predicate InIfd()
    {
      Length() <= DATA_WIDTH
    }

    /**
     * The value field read as an offset in the entry's byte order; `None`
     * when the field holds fewer than 4 bytes.
     */
    function TryDataAsOffset(): (r: Option<u32>)
      ensures r.None? <==> |ifdData| < 4
      ensures r.Some? ==> U32Bytes(le, r.value) == ifdData[..4]
    {
      var r := ReadU32(le, ifdData);
      if r.Some? then U32Inverse(le, ifdData); r else r
    }

    /**
     * Resolves the payload: an inline entry takes its whole value field; an
     * external one takes `Length()` bytes of `contents` at the offset its value
     * field holds, and fails, changing nothing, when there is no offset or the
     * range runs past the end of `contents`.
     */
    method CopyData(contents: seq<byte>) returns (ok: bool)
      modifies this
      ensures InIfd() ==> ok && data == ifdData && extData == old(extData)
      ensures !InIfd() ==>
        (ok <==> TryDataAsOffset().Some? && TryDataAsOffset().value + Length() <= |contents|)
      ensures !InIfd() && ok ==>
        var offset := TryDataAsOffset().value;
        extData == contents[offset..offset + Length()] && data == extData
      ensures !InIfd() && !ok ==> data == old(data) && extData == old(extData)
    {
      if InIfd() {
        data := ifdData;
        return true;
      }
      var offset := TryDataAsOffset();
      if offset.None? {
        return false;
      }
      var o := offset.value;
      if o + Length() <= |contents| {
        extData := contents[o..o + Length()];
        data := extData;
        return true;
      }
      return false;
    }

    /**
     * The 12-byte directory record (8 header bytes when the payload is inline
     * and shorter): tag, format code and count in the entry's byte order,
     * then the inline payload or a zero placeholder for its offset.
     */
    function Record(): (r: seq<byte>)
      reads this
      ensures |r| == 8 + (if InIfd() then |data| else 4)
      ensures !InIfd() ==> r[8..] == [0, 0, 0, 0]
      ensures InIfd() ==> r[8..] == data
    {
      U16Bytes(le, tag) + U16Bytes(le, format.Code()) + U32Bytes(le, count)
        + (if InIfd() then data else [0, 0, 0, 0])
    }

    /**
     * What `serialize` makes of `w`: an error for a non-standard namespace,
     * otherwise `w` with the record appended and, for an external payload,
     * one patch whose position is that of the placeholder.
     */
    function AppendedTo(w: Writer): (r: Result<Writer, ExifError>)
      reads this
      ensures r.Err? <==> namespace != Namespace.Standard
      ensures r.Err? ==> r.error == ExifError.UnsupportedNamespace
      ensures r.Ok? ==> r.value.buf == w.buf + Record()
      ensures r.Ok? && InIfd() ==> r.value.patches == w.patches
      ensures r.Ok? && !InIfd() ==>
        r.value.patches == w.patches + [Patch(AsU32(|w.buf| + 8), data)]
    {
      if namespace != Namespace.Standard then Err(ExifError.UnsupportedNamespace)
      else
        var patches := if InIfd() then w.patches else w.patches + [Patch(AsU32(|w.buf| + 8), data)];
        Ok(Writer(w.buf + Record(), patches))
    }

    /** `IfdEntry::serialize`: appends to the buffer and patch list it is given. */
    method Serialize(w: Writer) returns (r: Result<Writer, ExifError>)
      ensures r == AppendedTo(w)
    {
      if namespace != Namespace.Standard {
        return Err(ExifError.UnsupportedNamespace);
      }
      var serialized := w.buf;
      var patches := w.patches;
      serialized := serialized + U16Bytes(le, tag);
      serialized := serialized + U16Bytes(le, format.Code());
      serialized := serialized + U32Bytes(le, count);
      if InIfd() {
        serialized := serialized + data;
      } else {
        patches := patches + [Patch(AsU32(|serialized|), data)];
        serialized := serialized + [0, 0, 0, 0];
      }
      assert serialized == w.buf + Record();
      return Ok(Writer(serialized, patches));
    }

    /**
     * `PartialEq` as written: the guard `!tag == ExifOffset && !tag == GPSOffset`
     * complements the tag, so payloads are compared only when the complement
     * equals two different codes at once.
     */
    predicate EqualsAsWritten(other: IfdEntry)
      reads this, other
    {
      var payloadEq := data == other.data && ifdData == other.ifdData && extData == other.extData;
      var dataEq := if InIfd() && BitNot16(tag) == 0x8769 && BitNot16(tag) == 0x8825 then payloadEq else true;
      namespace == other.namespace && tag == other.tag && count == other.count && dataEq && le == other.le
    }

    /**
     * `PartialEq` as its comment describes it: payloads of inline entries are
     * compared, except for the Exif and GPS sub-directory pointers, whose value
     * is an offset that may legitimately differ.
     */
    predicate Equals(other: IfdEntry)
      reads this, other
    {
      var payloadEq := data == other.data && ifdData == other.ifdData && extData == other.extData;
      var dataEq := if InIfd() && tag != 0x8769 && tag != 0x8825 then payloadEq else true;
      namespace == other.namespace && tag == other.tag && count == other.count && dataEq && le == other.le
    }
  }

  /** The payload lengths stated per format. */
  lemma SizeByFormat(e: IfdEntry)
    ensures e.format == IfdFormat.U32 && e.count == 1 ==> e.InIfd()
    ensures e.format == IfdFormat.U32 && e.count == 2 ==> !e.InIfd()
    ensures e.format == IfdFormat.URational && e.count >= 1 ==> !e.InIfd()
  {
  }

  /** An entry is inline exactly when its count fits four bytes at its element size. */
  lemma InlineRule(e: IfdEntry)
    ensures e.InIfd() <==>
      e.count == 0 || (e.Size() == 1 && e.count <= 4) || (e.Size() == 2 && e.count <= 2) || (e.Size() == 4 && e.count == 1)
  {
    var s := e.Size();
    if e.count >= 5 {
      assert s * e.count >= s * 5;
    } else if e.count >= 3 {
      assert s * e.count >= s * 3;
    } else if e.count == 2 {
      assert s * e.count == s + s;
    }
  }

  /**
   * The element size is the width the array readers consume: a payload of
   * `Length()` bytes is exactly what each reader needs for `count` elements.
   */
  lemma LengthIsReadersDemand(e: IfdEntry, raw: seq<byte>)
    ensures e.format == IfdFormat.U8 || e.format == IfdFormat.I8 ==> (ReadI8Array(e.count, raw).Some? <==> e.Length() <= |raw|)
    ensures e.format == IfdFormat.U16 ==> (ReadU16Array(e.le, e.count, raw).Some? <==> e.Length() <= |raw|)
    ensures e.format == IfdFormat.I16 ==> (ReadI16Array(e.le, e.count, raw).Some? <==> e.Length() <= |raw|)
    ensures e.format == IfdFormat.U32 ==> (ReadU32Array(e.le, e.count, raw).Some? <==> e.Length() <= |raw|)
    ensures e.format == IfdFormat.I32 ==> (ReadI32Array(e.le, e.count, raw).Some? <==> e.Length() <= |raw|)
    ensures e.format == IfdFormat.URational ==> (ReadURationalArray(e.le, e.count, raw).Some? <==> e.Length() <= |raw|)
    ensures e.format == IfdFormat.IRational ==> (ReadIRationalArray(e.le, e.count, raw).Some? <==> e.Length() <= |raw|)
  {
  }

  /** A value field written as `x` in the entry's byte order reads back as the offset `x`. */
  lemma OffsetRoundTrip(e: IfdEntry, x: u32, rest: seq<byte>)
    requires e.ifdData == U32Bytes(e.le, x) + rest
    ensures e.TryDataAsOffset() == Some(x)
  {
    U32RoundTrip(e.le, x, rest);
  }

  /**
   * The record reads back: its first 8 bytes decode, in the entry's own byte
   * order, to the tag, the format and the count.
   */
  lemma RecordReadsBack(e: IfdEntry)
    ensures ReadU16(e.le, e.Record()) == Some(e.tag)
    ensures ReadU16(e.le, e.Record()[2..]).Some?
    ensures FormatFromCode(ReadU16(e.le, e.Record()[2..]).value) == e.format
    ensures ReadU32(e.le, e.Record()[4..]) == Some(e.count)
  {
    var r := e.Record();
    var rest := if e.InIfd() then e.data else [0, 0, 0, 0];
    assert r == U16Bytes(e.le, e.tag) + (U16Bytes(e.le, e.format.Code()) + U32Bytes(e.le, e.count) + rest);
    U16RoundTrip(e.le, e.tag, U16Bytes(e.le, e.format.Code()) + U32Bytes(e.le, e.count) + rest);
    assert r[2..] == U16Bytes(e.le, e.format.Code()) + (U32Bytes(e.le, e.count) + rest);
    U16RoundTrip(e.le, e.format.Code(), U32Bytes(e.le, e.count) + rest);
    FormatCodeRoundTrip(e.format);
    assert r[4..] == U32Bytes(e.le, e.count) + rest;
    U32RoundTrip(e.le, e.count, rest);
  }

  /**
   * A resolved inline entry whose value field is the usual 4 bytes yields a
   * full 12-byte record.
   */
  lemma InlineRecordIsTwelveBytes(e: IfdEntry)
    requires e.InIfd() && e.data == e.ifdData && |e.ifdData| == 4
    ensures |e.Record()| == 12
  {
  }

  /**
   * For an external payload the patch points at the zero placeholder: its
   * position is the last 4 bytes of the appended record.
   */
  lemma PatchPointsAtPlaceholder(e: IfdEntry, w: Writer)
    requires e.namespace == Namespace.Standard && !e.InIfd()
    requires |w.buf| + 12 <= U32_LIMIT
    ensures var r := e.AppendedTo(w).value;
      var p := r.patches[|r.patches| - 1];
      && p.offsetPos == |w.buf| + 8
      && p.offsetPos + 4 == |r.buf|
      && r.buf[p.offsetPos..p.offsetPos + 4] == [0, 0, 0, 0]
      && p.data == e.data
  {
    var r := e.AppendedTo(w).value;
    assert r.buf[|w.buf| + 8..] == e.Record()[8..];
  }

  /** As written, equality ignores payloads altogether: the payload guard never holds. */
  lemma EqualsAsWrittenIgnoresPayload(a: IfdEntry, b: IfdEntry)
    ensures a.EqualsAsWritten(b) <==>
      a.namespace == b.namespace && a.tag == b.tag && a.count == b.count && a.le == b.le
  {
  }

  /**
   * Two inline Orientation entries with different values: equal as written,
   * unequal under the intended comparison.
   */
  lemma EqualsAsWrittenMissesDataChange(a: IfdEntry, b: IfdEntry)
    requires a.namespace == b.namespace == Namespace.Standard && a.tag == b.tag == 0x0112
    requires a.format == IfdFormat.U16 && a.count == b.count == 1 && a.le == b.le
    requires a.data == [0, 1, 0, 0] && b.data == [0, 6, 0, 0]
    ensures a.EqualsAsWritten(b)
    ensures !a.Equals(b)
  {
  }

  /**
   * The intended comparison: equal entries agree on the identifying fields, and
   * inline entries other than the sub-directory pointers also on their bytes.
   */
  lemma EqualsComparesInlinePayload(a: IfdEntry, b: IfdEntry)
    ensures a.Equals(b) ==> a.namespace == b.namespace && a.tag == b.tag && a.count == b.count && a.le == b.le
    ensures a.Equals(b) && a.InIfd() && a.tag != 0x8769 && a.tag != 0x8825 ==>
      a.data == b.data && a.ifdData == b.ifdData && a.extData == b.extData
    ensures a.InIfd() && (a.tag == 0x8769 || a.tag == 0x8825) ==>
      (a.Equals(b) <==> a.namespace == b.namespace && a.tag == b.tag && a.count == b.count && a.le == b.le)
  {
  }

  /**
   * `to_i64` on a decoded `U16` array gives back, element by element, what
   * the scalar reader reads from the corresponding chunk of the raw bytes.
   */
  lemma U16ToI64ReadsBack(le: bool, count: u32, raw: seq<byte>, i: nat)
    requires i < count && ReadU16Array(le, count, raw).Some?
    ensures TagValue.U16(ReadU16Array(le, count, raw).value).ToI64(i) == ReadU16(le, raw[2 * i..2 * i + 2])
  {
    var v := ReadU16Array(le, count, raw).value;
    assert Some(v[i]) == ReadU16(le, raw[2 * i..2 * i + 2]);
  }

  /** The same for a decoded `I32` array: negative elements stay negative. */
  lemma I32ToI64ReadsBack(le: bool, count: u32, raw: seq<byte>, i: nat)
    requires i < count && ReadI32Array(le, count, raw).Some?
    ensures TagValue.I32(ReadI32Array(le, count, raw).value).ToI64(i) == ReadI32(le, raw[4 * i..4 * i + 4])
  {
    var v := ReadI32Array(le, count, raw).value;
    assert Some(v[i]) == ReadI32(le, raw[4 * i..4 * i + 4]);
  }

  /** A `U8` value holds the raw bytes: `to_i64` gives back the byte itself. */
  lemma U8ToI64ReadsBack(raw: seq<byte>, i: nat)
    requires i < |raw|
    ensures TagValue.U8(raw).ToI64(i) == Some(raw[i])
  {
  }

  /** The same for a decoded `I8` array: each byte reinterpreted as signed. */
  lemma I8ToI64ReadsBack(count: u32, raw: seq<byte>, i: nat)
    requires i < count && ReadI8Array(count, raw).Some?
    ensures TagValue.I8(ReadI8Array(count, raw).value).ToI64(i) == Some(SignedByte(raw[i]))
  {
    var v := ReadI8Array(count, raw).value;
    assert v[i] == SignedByte(raw[i]);
  }

  /** The same for a decoded `I16` array. */
  lemma I16ToI64ReadsBack(le: bool, count: u32, raw: seq<byte>, i: nat)
    requires i < count && ReadI16Array(le, count, raw).Some?
    ensures TagValue.I16(ReadI16Array(le, count, raw).value).ToI64(i) == ReadI16(le, raw[2 * i..2 * i + 2])
  {
    var v := ReadI16Array(le, count, raw).value;
    assert Some(v[i]) == ReadI16(le, raw[2 * i..2 * i + 2]);
  }

  /** The same for a decoded `U32` array: values above 2^31 stay positive. */
  lemma U32ToI64ReadsBack(le: bool, count: u32, raw: seq<byte>, i: nat)
    requires i < count && ReadU32Array(le, count, raw).Some?
    ensures TagValue.U32(ReadU32Array(le, count, raw).value).ToI64(i) == ReadU32(le, raw[4 * i..4 * i + 4])
  {
    var v := ReadU32Array(le, count, raw).value;
    assert Some(v[i]) == ReadU32(le, raw[4 * i..4 * i + 4]);
  }
}
