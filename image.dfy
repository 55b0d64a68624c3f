// The container sniffer and the JPEG segment walker that locates the TIFF
// structure inside an APP1 segment.

module Image {
  import opened Ints
  import opened Wrappers
  import opened Types

  datatype FileType = Unknown | JPEG | TIFF

  /** `FileType::as_str`: the MIME type of each kind of file. */
  function AsStr(t: FileType): (s: string)
    ensures t == FileType.Unknown <==> s == "application/octet-stream"
    ensures t == FileType.JPEG <==> s == "image/jpeg"
    ensures t == FileType.TIFF <==> s == "image/tiff"
  {
    match t
    case Unknown => "application/octet-stream"
    case JPEG => "image/jpeg"
    case TIFF => "image/tiff"
  }

  /** Distinct file types have distinct MIME types, so the MIME type identifies the file type. */
  lemma AsStrInjective(a: FileType, b: FileType)
    requires AsStr(a) == AsStr(b)
    ensures a == b
  {
  }

  const SOI_AND_MARKER_START: seq<byte> := [0xff, 0xd8, 0xff]
  const JFIF_TAG: seq<byte> := [0x4a, 0x46, 0x49, 0x46, 0x00]
  const EXIF_TAG: seq<byte> := [0x45, 0x78, 0x69, 0x66, 0x00]

  /** A JPEG start-of-image followed by a JFIF or Exif application segment. */
  predicate LooksLikeJpeg(contents: seq<byte>)
    requires |contents| >= 11
  {
    contents[..3] == SOI_AND_MARKER_START && (contents[6..11] == JFIF_TAG || contents[6..11] == EXIF_TAG)
  }

  /** A TIFF header in either byte order. */
  predicate LooksLikeTiff(contents: seq<byte>)
    requires |contents| >= 4
  {
    contents[..4] == INTEL_TIFF_HEADER || contents[..4] == MOTOROLA_TIFF_HEADER
  }

  /**
   * `detect_type`: buffers under 11 bytes are never recognised; the JPEG test
   * comes before the TIFF test.
   */
  function DetectType(contents: seq<byte>): (t: FileType)
    ensures |contents| < 11 ==> t == FileType.Unknown
    ensures t == FileType.JPEG <==> |contents| >= 11 && LooksLikeJpeg(contents)
    ensures t == FileType.TIFF <==> |contents| >= 11 && !LooksLikeJpeg(contents) && LooksLikeTiff(contents)
  {
    if |contents| < 11 then FileType.Unknown
    else if contents[..3] == SOI_AND_MARKER_START && contents[6..11] == JFIF_TAG then FileType.JPEG
    else if contents[..3] == SOI_AND_MARKER_START && contents[6..11] == EXIF_TAG then FileType.JPEG
    else if contents[..4] == INTEL_TIFF_HEADER then FileType.TIFF
    else if contents[..4] == MOTOROLA_TIFF_HEADER then FileType.TIFF
    else FileType.Unknown
  }

  // ---------------------------------------------------------------------------
  // JPEG segment walk
  // ---------------------------------------------------------------------------

  const APP1: int := 0xffe1
  const SOS: int := 0xffda

  /** A big-endian 16-bit word from two bytes. */
  function BigEndianWord(hi: byte, lo: byte): (w: u16)
    ensures w / 256 == hi && w % 256 == lo
  {
    hi * 256 + lo
  }

  function Fault(f: JpegFault): ExifError
  {
    ExifError.JpegWithoutExif(f)
  }

  /**
   * The walk of `find_embedded_tiff_in_jpeg` from the marker at `offset`:
   * each segment is a marker, a big-endian size counting itself, and a body;
   * the walk stops at the first APP1 segment (which must carry the Exif
   * preamble), at the start-of-scan segment, or at the first malformed
   * segment. On success: where the TIFF structure starts and how long it is.
   */
  function ScanFrom(contents: seq<byte>, offset: nat): (r: Result<(nat, nat), ExifError>)
    decreases |contents| - offset
  {
    if offset >= |contents| then Err(Fault(JpegFault.ScanPastEof))
    else if |contents| < offset + 4 then Err(Fault(JpegFault.TruncatedMarkerHeader))
    else
      var marker := BigEndianWord(contents[offset], contents[offset + 1]);
      if marker < 0xff00 then Err(Fault(JpegFault.InvalidMarker(marker)))
      else
        var at := offset + 2;
        var size := BigEndianWord(contents[at], contents[at + 1]) as nat;
        if size < 2 then Err(Fault(JpegFault.MarkerSizeBelowTwo))
        else if |contents| < at + size then Err(Fault(JpegFault.TruncatedMarkerBody))
        else if marker == APP1 then
          if size < 8 then Err(Fault(JpegFault.PreambleTruncated))
          else if contents[at + 2..at + 8] != EXIF_HEADER then Err(Fault(JpegFault.PreambleUnrecognized))
          else Ok((at + 8, size - 8))
        else if marker == SOS then Err(Fault(JpegFault.LastMarkWithoutExif))
        else ScanFrom(contents, at + size)
  }

  /** `find_embedded_tiff_in_jpeg`: the walk starts after the 2-byte start-of-image marker. */
  method FindEmbeddedTiffInJpeg(contents: seq<byte>) returns (r: Result<(nat, nat), ExifError>)
    ensures r == ScanFrom(contents, 2)
  {
    var offset := 2;
    while offset < |contents|
      invariant ScanFrom(contents, offset) == ScanFrom(contents, 2)
      decreases |contents| - offset
    {
      if |contents| < offset + 4 {
        return Err(Fault(JpegFault.TruncatedMarkerHeader));
      }
      var marker: u16 := contents[offset] as int * 256 + contents[offset + 1] as int;
      if marker < 0xff00 {
        return Err(Fault(JpegFault.InvalidMarker(marker)));
      }
      offset := offset + 2;
      var size: nat := contents[offset] as int * 256 + contents[offset + 1] as int;
      if size < 2 {
        return Err(Fault(JpegFault.MarkerSizeBelowTwo));
      }
      if |contents| < offset + size {
        return Err(Fault(JpegFault.TruncatedMarkerBody));
      }
      if marker == APP1 {
        if size < 8 {
          return Err(Fault(JpegFault.PreambleTruncated));
        }
        if contents[offset + 2..offset + 8] != EXIF_HEADER {
          return Err(Fault(JpegFault.PreambleUnrecognized));
        }
        return Ok((offset + 8, size - 8));
      }
      if marker == SOS {
        return Err(Fault(JpegFault.LastMarkWithoutExif));
      }
      offset := offset + size;
    }
    return Err(Fault(JpegFault.ScanPastEof));
  }

  /**
   * What a successful walk returns: a block inside the buffer, preceded by
   * the Exif preamble, by a big-endian size word counting the block, the
   * preamble and itself, and by the APP1 marker.
   */
  lemma {:induction false} ScanFound(contents: seq<byte>, offset: nat)
    requires ScanFrom(contents, offset).Ok?
    ensures var (o, n) := ScanFrom(contents, offset).value;
      offset + 10 <= o && o + n <= |contents| &&
      contents[o - 6..o] == EXIF_HEADER &&
      BigEndianWord(contents[o - 8], contents[o - 7]) == n + 8 &&
      contents[o - 10] == 0xff && contents[o - 9] == 0xe1
    decreases |contents| - offset
  {
    var at := offset + 2;
    var marker := BigEndianWord(contents[offset], contents[offset + 1]);
    var size := BigEndianWord(contents[at], contents[at + 1]) as nat;
    if marker != APP1 {
      ScanFound(contents, at + size);
    }
  }

  /** Every failure of the walk is a `JpegWithoutExif` error. */
  lemma {:induction false} ScanFailsWithoutExif(contents: seq<byte>, offset: nat)
    requires ScanFrom(contents, offset).Err?
    ensures ScanFrom(contents, offset).error.JpegWithoutExif?
    decreases |contents| - offset
  {
    if offset < |contents| && offset + 4 <= |contents| {
      var at := offset + 2;
      var marker := BigEndianWord(contents[offset], contents[offset + 1]);
      var size := BigEndianWord(contents[at], contents[at + 1]) as nat;
      if marker >= 0xff00 && size >= 2 && at + size <= |contents| && marker != APP1 && marker != SOS {
        ScanFailsWithoutExif(contents, at + size);
      }
    }
  }

  /** A well-formed segment (not APP1, not start-of-scan) is skipped as a whole. */
  lemma SkipsSegment(contents: seq<byte>, offset: nat, marker: byte, body: seq<byte>)
    requires marker != 0xe1 && marker != 0xda && |body| + 2 < U16_LIMIT
    requires offset + 4 + |body| <= |contents|
    requires contents[offset..offset + 4 + |body|] == [0xff, marker, (|body| + 2) / 256, (|body| + 2) % 256] + body
    ensures ScanFrom(contents, offset) == ScanFrom(contents, offset + 4 + |body|)
  {
    var seg := contents[offset..offset + 4 + |body|];
    assert contents[offset] == seg[0] && contents[offset + 1] == seg[1];
    assert contents[offset + 2] == seg[2] && contents[offset + 3] == seg[3];
  }

  /**
   * A JPEG whose first segment is an APP1 segment holding the Exif preamble
   * and then `tiff`: it is detected as a JPEG, and the walk returns exactly
   * where `tiff` lies.
   */
  lemma App1Found(tiff: seq<byte>, rest: seq<byte>)
    requires |tiff| + 8 < U16_LIMIT
    ensures var size := |tiff| + 8;
      var contents := [0xff, 0xd8, 0xff, 0xe1, size / 256, size % 256] + EXIF_HEADER + tiff + rest;
      DetectType(contents) == FileType.JPEG &&
      ScanFrom(contents, 2) == Ok((12, |tiff|)) && contents[12..12 + |tiff|] == tiff
  {
    var size := |tiff| + 8;
    var contents := [0xff, 0xd8, 0xff, 0xe1, size / 256, size % 256] + EXIF_HEADER + tiff + rest;
    assert contents[6..11] == EXIF_TAG;
    assert contents[6..12] == EXIF_HEADER;
    assert contents[12..12 + |tiff|] == tiff;
  }

  /**
   * A well-formed start-of-scan segment ends the walk with an error, whatever
   * follows it; with `SkipsSegment`, so does one reached before any APP1.
   */
  lemma ScanStopsAtStartOfScan(contents: seq<byte>, offset: nat)
    requires offset + 4 <= |contents| && contents[offset] == 0xff && contents[offset + 1] == 0xda
    requires var size := BigEndianWord(contents[offset + 2], contents[offset + 3]);
      2 <= size && offset + 2 + size <= |contents|
    ensures ScanFrom(contents, offset) == Err(Fault(JpegFault.LastMarkWithoutExif))
  {
    assert BigEndianWord(contents[offset], contents[offset + 1]) == SOS;
  }

  /**
   * The first APP1 segment decides the walk: one too short for the preamble
   * or without the Exif preamble fails at once, even when a valid Exif
   * segment follows it.
   */
  lemma ForeignApp1Stops(contents: seq<byte>, offset: nat)
    requires offset + 4 <= |contents| && contents[offset] == 0xff && contents[offset + 1] == 0xe1
    requires var size := BigEndianWord(contents[offset + 2], contents[offset + 3]);
      2 <= size && offset + 2 + size <= |contents|
    ensures var size := BigEndianWord(contents[offset + 2], contents[offset + 3]);
      && (size < 8 ==> ScanFrom(contents, offset) == Err(Fault(JpegFault.PreambleTruncated)))
      && (8 <= size && contents[offset + 4..offset + 10] != EXIF_HEADER ==>
            ScanFrom(contents, offset) == Err(Fault(JpegFault.PreambleUnrecognized)))
  {
    assert BigEndianWord(contents[offset], contents[offset + 1]) == APP1;
  }
}
