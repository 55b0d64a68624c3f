// Properties of the finished serialization of an `ExifData`: which inputs it
// rejects, which entries it ignores, what its header holds and how IFD-0
// points at the Exif and GPS sub-directories.

module ExifDataFacts {
  import opened Ints
  import opened Wrappers
  import opened Types
  import opened LowLevel
  import opened Serializer
  import opened SerializerFacts
  import opened Image

  // ---------------------------------------------------------------------------
  // Failures
  // ---------------------------------------------------------------------------

  /** Any IFD-1 entry makes serialization fail: writing IFD-1 is not supported. */
  lemma Ifd1IsRejected(d: ExifData)
    requires |Group(d.entries, IfdKind.Ifd1)| > 0
    ensures d.Serialized() == Err(ExifError.UnsupportedNamespace)
  {
  }

  /**
   * IFD-0 serializes exactly when there is no IFD-1 entry and every IFD-0 entry
   * is in the standard namespace; otherwise the error is `UnsupportedNamespace`.
   */
  lemma Ifd0Outcome(d: ExifData)
    ensures d.Ifd0Stage().Ok? <==>
      |Group(d.entries, IfdKind.Ifd1)| == 0 && AllStandard(Group(d.entries, IfdKind.Ifd0))
    ensures d.Ifd0Stage().Err? ==> d.Ifd0Stage().error == ExifError.UnsupportedNamespace
  {
    WalkAppends(d.Ifd0Start(), Group(d.entries, IfdKind.Ifd0));
  }

  /** Exif entries without an ExifOffset entry in IFD-0 to point at them: `MissingExifOffset`. */
  lemma MissingExifPointer(d: ExifData)
    requires d.Ifd0Stage().Ok? && |Group(d.entries, IfdKind.Exif)| > 0
    requires TagAbsent(Group(d.entries, IfdKind.Ifd0), ExifTag.ExifOffset)
    ensures d.Serialized() == Err(ExifError.MissingExifOffset)
  {
    PointerExists(d.Ifd0Start(), Group(d.entries, IfdKind.Ifd0), ExifTag.ExifOffset);
    WalkAppends(d.Ifd0Start(), Group(d.entries, IfdKind.Ifd0));
  }

  /**
   * GPS entries without a GPSOffset entry in IFD-0: the same error,
   * `MissingExifOffset`, since the GPS pass reuses the Exif pass's code.
   */
  lemma MissingGpsPointer(d: ExifData)
    requires d.ExifStage().Ok? && |Group(d.entries, IfdKind.Gps)| > 0
    requires TagAbsent(Group(d.entries, IfdKind.Ifd0), ExifTag.GPSOffset)
    ensures d.Serialized() == Err(ExifError.MissingExifOffset)
  {
    assert d.Ifd0Stage().Ok?;
    PointerExists(d.Ifd0Start(), Group(d.entries, IfdKind.Ifd0), ExifTag.GPSOffset);
    WalkAppends(d.Ifd0Start(), Group(d.entries, IfdKind.Ifd0));
  }

  // ---------------------------------------------------------------------------
  // Ignored entries
  // ---------------------------------------------------------------------------

  /** The entries of the four directories the serializer writes. */
  function Written(es: seq<ExifEntry>): (r: seq<ExifEntry>)
    ensures |r| <= |es|
    ensures forall e | e in r :: e.kind != IfdKind.Makernote && e.kind != IfdKind.Interoperability
  {
    if |es| == 0 then []
    else
      var last := es[|es| - 1];
      Written(es[..|es| - 1]) + (if last.kind in {IfdKind.Makernote, IfdKind.Interoperability} then [] else [last])
  }

  lemma {:induction false} GroupOfWritten(es: seq<ExifEntry>, kind: IfdKind)
    requires kind in {IfdKind.Ifd0, IfdKind.Ifd1, IfdKind.Exif, IfdKind.Gps}
    ensures Group(Written(es), kind) == Group(es, kind)
  {
    if |es| > 0 {
      var prefix := es[..|es| - 1];
      var last := es[|es| - 1];
      GroupOfWritten(prefix, kind);
      var tail := if last.kind in {IfdKind.Makernote, IfdKind.Interoperability} then [] else [last];
      GroupAppend(Written(prefix), tail, kind);
    }
  }

  /** Grouping a concatenation groups each part. */
  lemma {:induction false} GroupAppend(a: seq<ExifEntry>, b: seq<ExifEntry>, kind: IfdKind)
    ensures Group(a + b, kind) == Group(a, kind) + Group(b, kind)
    decreases |b|
  {
    if |b| > 0 {
      var n := |b| - 1;
      var ab := a + b;
      assert ab[..|ab| - 1] == a + b[..n];
      assert ab[|ab| - 1] == b[n];
      GroupAppend(a, b[..n], kind);
      var t := if b[n].kind == kind then [b[n]] else [];
      assert Group(ab, kind) == Group(a + b[..n], kind) + t;
      assert Group(b, kind) == Group(b[..n], kind) + t;
      assert Group(a, kind) + Group(b[..n], kind) + t == Group(a, kind) + (Group(b[..n], kind) + t);
    } else {
      assert a + b == a;
    }
  }

  /** Makernote and interoperability entries do not reach the output. */
  lemma OtherKindsIgnored(d: ExifData)
    ensures d.Serialized() == d.(entries := Written(d.entries)).Serialized()
  {
    GroupOfWritten(d.entries, IfdKind.Ifd0);
    GroupOfWritten(d.entries, IfdKind.Ifd1);
    GroupOfWritten(d.entries, IfdKind.Exif);
    GroupOfWritten(d.entries, IfdKind.Gps);
  }

  // ---------------------------------------------------------------------------
  // Layout
  // ---------------------------------------------------------------------------

  /** IFD-0 within 32-bit offsets: its records follow the 10 header bytes, their placeholders in order past them. */
  lemma Ifd0Shape(d: ExifData)
    requires d.Ifd0Stage().Ok? && |d.Ifd0Stage().value| <= U32_LIMIT
    ensures Walk(d.Ifd0Start(), Group(d.entries, IfdKind.Ifd0)).Ok?
    ensures var w := Walk(d.Ifd0Start(), Group(d.entries, IfdKind.Ifd0)).value;
      d.Ifd0Stage().value == ResolvePatches(d.le, w.buf + [0, 0, 0, 0], w.patches) &&
      d.Ifd0Start().buf <= w.buf && |w.buf| + 4 <= |d.Ifd0Stage().value| &&
      SlotsInOrder(w.buf + [0, 0, 0, 0], w.patches) && SlotsFrom(w.patches, 18)
  {
    var w0 := d.Ifd0Start();
    var ifd0 := Group(d.entries, IfdKind.Ifd0);
    var w := Walk(w0, ifd0).value;
    WalkAppends(w0, ifd0);
    WalkSlots(w0, ifd0);
    SlotsInOrderGrow(w.buf, [0, 0, 0, 0], w.patches);
  }

  /** The first 10 bytes of IFD-0's stage are the header, the offset 8 and the entry count. */
  lemma {:induction false} Ifd0Header(d: ExifData)
    requires d.Ifd0Stage().Ok? && |d.Ifd0Stage().value| <= U32_LIMIT
    ensures 10 <= |d.Ifd0Stage().value| && d.Ifd0Stage().value[..10] == d.Ifd0Start().buf
  {
    Ifd0Shape(d);
    var w := Walk(d.Ifd0Start(), Group(d.entries, IfdKind.Ifd0)).value;
    forall k | 0 <= k < 10
      ensures d.Ifd0Stage().value[k] == d.Ifd0Start().buf[k]
    {
      assert OutsideSlots(w.patches, k);
      PatchesKeepRest(d.le, w.buf + [0, 0, 0, 0], w.patches, k);
    }
  }

  /** IFD-0 ends with the zero next-directory word right after its records: IFD-1 is never linked. */
  lemma {:induction false} Ifd0Terminated(d: ExifData)
    requires d.Ifd0Stage().Ok? && |d.Ifd0Stage().value| <= U32_LIMIT
    ensures Walk(d.Ifd0Start(), Group(d.entries, IfdKind.Ifd0)).Ok?
    ensures var end := |Walk(d.Ifd0Start(), Group(d.entries, IfdKind.Ifd0)).value.buf|;
      10 + 8 * |Group(d.entries, IfdKind.Ifd0)| <= end && end + 4 <= |d.Ifd0Stage().value| &&
      d.Ifd0Stage().value[end..end + 4] == [0, 0, 0, 0]
  {
    Ifd0Shape(d);
    var w0 := d.Ifd0Start();
    var ifd0 := Group(d.entries, IfdKind.Ifd0);
    DirectoryTerminated(d.le, w0, ifd0, Walk(w0, ifd0).value);
  }

  /** The pointer slot of a `t` entry lies in IFD-0, past the header and the count. */
  lemma PointerSlotInIfd0(d: ExifData, t: ExifTag)
    requires d.Ifd0Stage().Ok? && |d.Ifd0Stage().value| <= U32_LIMIT && d.PointerSlot(t).Some?
    ensures 14 <= d.PointerSlot(t).value && d.PointerSlot(t).value + 4 <= |d.Ifd0Stage().value|
  {
    Ifd0Shape(d);
    PointerInRecords(d.Ifd0Start(), Group(d.entries, IfdKind.Ifd0), t);
  }

  /** A sub-directory keeps the header of what it is appended to. */
  lemma {:induction false} SubIfdKeepsHeader(le: bool, buf: seq<byte>, es: seq<ExifEntry>, pos: nat)
    requires SubIfd(le, buf, es, Some(pos)).Ok? && |SubIfd(le, buf, es, Some(pos)).value| <= U32_LIMIT
    requires 10 <= pos && pos + 4 <= |buf|
    ensures 10 <= |SubIfd(le, buf, es, Some(pos)).value| && SubIfd(le, buf, es, Some(pos)).value[..10] == buf[..10]
  {
    SubIfdLinked(le, buf, es, pos);
    var r := SubIfd(le, buf, es, Some(pos)).value;
    assert r[..10] == r[..pos][..10];
  }

  /** Each stage only appends after the one before, within 32-bit offsets. */
  lemma StagesGrow(d: ExifData)
    requires d.TiffBody().Ok? && |d.TiffBody().value| <= U32_LIMIT
    ensures d.ExifStage().Ok? && d.Ifd0Stage().Ok?
    ensures |d.Ifd0Stage().value| <= |d.ExifStage().value| <= |d.TiffBody().value|
  {
    var gps := Group(d.entries, IfdKind.Gps);
    var exif := Group(d.entries, IfdKind.Exif);
    assert d.ExifStage().Ok?;
    if |gps| > 0 {
      SubIfdShape(d.le, d.ExifStage().value, gps, d.PointerSlot(ExifTag.GPSOffset).value);
    }
    assert d.Ifd0Stage().Ok?;
    if |exif| > 0 {
      SubIfdShape(d.le, d.Ifd0Stage().value, exif, d.PointerSlot(ExifTag.ExifOffset).value);
    }
  }

  /**
   * Within 32-bit offsets the output starts with the byte-order mark and magic
   * number, the offset 8 of IFD-0 and IFD-0's entry count, whatever follows.
   */
  lemma HeaderLayout(d: ExifData)
    requires d.TiffBody().Ok? && |d.TiffBody().value| <= U32_LIMIT
    ensures 10 <= |d.TiffBody().value|
    ensures d.TiffBody().value[..10] ==
      TiffHeader(d.le) + U32Bytes(d.le, 8) + U16Bytes(d.le, AsU16(|Group(d.entries, IfdKind.Ifd0)|))
  {
    StagesGrow(d);
    Ifd0Header(d);
    var exif := Group(d.entries, IfdKind.Exif);
    var gps := Group(d.entries, IfdKind.Gps);
    if |exif| > 0 {
      PointerSlotInIfd0(d, ExifTag.ExifOffset);
      SubIfdKeepsHeader(d.le, d.Ifd0Stage().value, exif, d.PointerSlot(ExifTag.ExifOffset).value);
    }
    assert d.ExifStage().value[..10] == d.Ifd0Start().buf;
    if |gps| > 0 {
      PointerSlotInIfd0(d, ExifTag.GPSOffset);
      SubIfdKeepsHeader(d.le, d.ExifStage().value, gps, d.PointerSlot(ExifTag.GPSOffset).value);
    }
  }

  /**
   * The Exif sub-directory is linked in: the value field of IFD-0's last
   * ExifOffset record reads back as the position where the sub-directory
   * starts, and there its entry count is stored.
   */
  lemma ExifLinked(d: ExifData)
    requires d.ExifStage().Ok? && |d.ExifStage().value| <= U32_LIMIT && |Group(d.entries, IfdKind.Exif)| > 0
    ensures d.Ifd0Stage().Ok? && d.PointerSlot(ExifTag.ExifOffset).Some?
    ensures var r := d.ExifStage().value;
      var ptr := d.PointerSlot(ExifTag.ExifOffset).value;
      var start := |d.Ifd0Stage().value|;
      ptr + 4 <= start < |r| &&
      ReadU32(d.le, r[ptr..]) == Some(AsU32(start)) && AsU32(start) == start &&
      ReadU16(d.le, r[start..]) == Some(AsU16(|Group(d.entries, IfdKind.Exif)|))
  {
    var exif := Group(d.entries, IfdKind.Exif);
    assert d.Ifd0Stage().Ok?;
    var body := d.Ifd0Stage().value;
    var ptr := d.PointerSlot(ExifTag.ExifOffset).value;
    SubIfdShape(d.le, body, exif, ptr);
    PointerSlotInIfd0(d, ExifTag.ExifOffset);
    SubIfdLinked(d.le, body, exif, ptr);
  }

  /**
   * The GPS sub-directory is linked in: the value field of IFD-0's last
   * GPSOffset record reads back as the position where the GPS sub-directory
   * starts, and there its entry count is stored.
   */
  lemma GpsLinked(d: ExifData)
    requires d.TiffBody().Ok? && |d.TiffBody().value| <= U32_LIMIT && |Group(d.entries, IfdKind.Gps)| > 0
    ensures d.ExifStage().Ok? && d.PointerSlot(ExifTag.GPSOffset).Some?
    ensures var r := d.TiffBody().value;
      var ptr := d.PointerSlot(ExifTag.GPSOffset).value;
      var start := |d.ExifStage().value|;
      ptr + 4 <= start < |r| &&
      ReadU32(d.le, r[ptr..]) == Some(AsU32(start)) && AsU32(start) == start &&
      ReadU16(d.le, r[start..]) == Some(AsU16(|Group(d.entries, IfdKind.Gps)|))
  {
    var gps := Group(d.entries, IfdKind.Gps);
    StagesGrow(d);
    var body := d.ExifStage().value;
    var ptr := d.PointerSlot(ExifTag.GPSOffset).value;
    PointerSlotInIfd0(d, ExifTag.GPSOffset);
    SubIfdLinked(d.le, body, gps, ptr);
  }

  // ---------------------------------------------------------------------------
  // Reading the output back as a file
  // ---------------------------------------------------------------------------

  /** The MIME type that gets the APP1 preamble is the one `FileType::as_str` gives JPEG files. */
  lemma JpegMimeIsJpegType()
    ensures AsStr(FileType.JPEG) == JPEG_MIME
  {
  }

  /** A buffer of at least 11 bytes that starts with a TIFF header is classified as TIFF. */
  lemma TiffHeaderIsDetected(le: bool, body: seq<byte>)
    requires |body| >= 11 && body[..4] == TiffHeader(le)
    ensures DetectType(body) == FileType.TIFF
  {
    assert body[0] == body[..4][0] != 0xff;
    assert body[..3] != SOI_AND_MARKER_START;
  }

  /** The TIFF structure holds at least the header, the offset, the count and the next-directory word. */
  lemma TiffBodyLength(d: ExifData)
    requires d.TiffBody().Ok? && |d.TiffBody().value| <= U32_LIMIT
    ensures 14 <= |d.TiffBody().value|
  {
    StagesGrow(d);
    Ifd0Shape(d);
  }

  /**
   * Serialized metadata for anything but a JPEG, within 32-bit offsets, is a
   * bare TIFF structure: the sniffer classifies it as TIFF.
   */
  lemma SerializedTiffIsDetected(d: ExifData, out: seq<byte>)
    requires d.mime != JPEG_MIME && d.Serialized() == Ok(out) && |out| <= U32_LIMIT
    ensures DetectType(out) == FileType.TIFF
  {
    assert d.TiffBody() == Ok(out);
    TiffBodyLength(d);
    HeaderLayout(d);
    assert out[..4] == out[..10][..4];
    TiffHeaderIsDetected(d.le, out);
  }

  /**
   * Serialized metadata for a JPEG, stored as the body of an APP1 segment
   * right after the start-of-image marker: the sniffer classifies the file as
   * JPEG and the segment walk finds exactly the TIFF structure.
   */
  lemma SerializedJpegIsFound(d: ExifData, out: seq<byte>, rest: seq<byte>)
    requires d.mime == JPEG_MIME && d.Serialized() == Ok(out) && |out| + 2 < U16_LIMIT
    ensures d.TiffBody().Ok?
    ensures var tiff := d.TiffBody().value;
      var contents := [0xff, 0xd8, 0xff, 0xe1, (|out| + 2) / 256, (|out| + 2) % 256] + out + rest;
      DetectType(contents) == FileType.JPEG &&
      ScanFrom(contents, 2) == Ok((12, |tiff|)) && contents[12..12 + |tiff|] == tiff
  {
    var tiff := d.TiffBody().value;
    assert out == EXIF_HEADER + tiff;
    JpegSegmentFound(tiff, rest);
  }

  /** Plain-sequence form of the above. */
  lemma JpegSegmentFound(tiff: seq<byte>, rest: seq<byte>)
    requires |tiff| + 8 < U16_LIMIT
    ensures var out := EXIF_HEADER + tiff;
      var contents := [0xff, 0xd8, 0xff, 0xe1, (|out| + 2) / 256, (|out| + 2) % 256] + out + rest;
      DetectType(contents) == FileType.JPEG &&
      ScanFrom(contents, 2) == Ok((12, |tiff|)) && contents[12..12 + |tiff|] == tiff
  {
    App1Found(tiff, rest);
    var size := |tiff| + 8;
    assert [0xff, 0xd8, 0xff, 0xe1, size / 256, size % 256] + (EXIF_HEADER + tiff) + rest
      == [0xff, 0xd8, 0xff, 0xe1, size / 256, size % 256] + EXIF_HEADER + tiff + rest;
  }
}
