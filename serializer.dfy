// `ExifData::serialize`: writes the entries back out as a TIFF structure
// (header, IFD-0, then the Exif and GPS sub-directories), using deferred
// offset patching: a record whose payload does not fit in its value field
// gets a zero placeholder and a patch; once the directory is complete each
// patch appends its payload and backfills the placeholder with the payload's
// position.

module Serializer {
  import opened Ints
  import opened Wrappers
  import opened Types
  import opened LowLevel
  import opened IfdEntries

  /** A parsed EXIF tag: the raw directory entry plus its interpretation. */
  datatype ExifEntry = ExifEntry(
    namespace: Namespace,
    ifd: IfdEntry,
    tag: ExifTag,
    value: TagValue,
    unit: string,
    valueMoreReadable: string,
    kind: IfdKind)

  /** The directory entries an entry list refers to. */
  function Ifds(es: seq<ExifEntry>): set<IfdEntry>
  {
    set e | e in es :: e.ifd
  }

  const JPEG_MIME: string := "image/jpeg"

  function TiffHeader(le: bool): (h: seq<byte>)
    ensures |h| == 4
  {
    if le then INTEL_TIFF_HEADER else MOTOROLA_TIFF_HEADER
  }

  // ---------------------------------------------------------------------------
  // In-place overwrites and patch resolution
  // ---------------------------------------------------------------------------

  /**
   * `buf.iter_mut().skip(pos).zip(bytes)`: writes `bytes` over `buf` from
   * `pos` on, stopping at whichever of the two ends first; the length of
   * `buf` never changes.
   */
  function Overwrite(buf: seq<byte>, pos: nat, bytes: seq<byte>): (r: seq<byte>)
    ensures |r| == |buf|
    decreases |bytes|
  {
    if |bytes| == 0 || pos >= |buf| then buf
    else Overwrite(buf[pos := bytes[0]], pos + 1, bytes[1..])
  }

  /** Byte by byte: inside the written window the new bytes, elsewhere the old ones. */
  lemma {:induction false} OverwriteElements(buf: seq<byte>, pos: nat, bytes: seq<byte>)
    ensures forall i | 0 <= i < |buf| ::
      Overwrite(buf, pos, bytes)[i] == if pos <= i < pos + |bytes| then bytes[i - pos] else buf[i]
    decreases |bytes|
  {
    if |bytes| > 0 && pos < |buf| {
      OverwriteElements(buf[pos := bytes[0]], pos + 1, bytes[1..]);
    }
  }

  method WriteAt(buf: seq<byte>, pos: nat, bytes: seq<byte>) returns (r: seq<byte>)
    ensures r == Overwrite(buf, pos, bytes)
  {
    r := buf;
    var k := 0;
    while k < |bytes| && pos + k < |r|
      invariant 0 <= k <= |bytes|
      invariant |r| == |buf|
      invariant forall i | 0 <= i < |buf| :: r[i] == if pos <= i < pos + k then bytes[i - pos] else buf[i]
    {
      r := r[pos + k := bytes[k]];
      k := k + 1;
    }
    OverwriteElements(buf, pos, bytes);
    assert forall i | 0 <= i < |buf| :: r[i] == Overwrite(buf, pos, bytes)[i];
  }

  /** Resolving one patch: append its data, then backfill its slot with where the data starts. */
  function Backfill(le: bool, buf: seq<byte>, p: Patch): (r: seq<byte>)
    ensures |r| == |buf| + |p.data|
  {
    Overwrite(buf + p.data, p.offsetPos as nat, U32Bytes(le, AsU32(|buf|)))
  }

  /** The total number of bytes the patches append. */
  function DataLength(ps: seq<Patch>): nat
  {
    if |ps| == 0 then 0 else DataLength(ps[..|ps| - 1]) + |ps[|ps| - 1].data|
  }

  /** Patches resolved one after the other, in the order they were queued. */
  function ResolvePatches(le: bool, buf: seq<byte>, ps: seq<Patch>): (r: seq<byte>)
    ensures |r| == |buf| + DataLength(ps)
  {
    if |ps| == 0 then buf
    else Backfill(le, ResolvePatches(le, buf, ps[..|ps| - 1]), ps[|ps| - 1])
  }

  method ResolveAll(le: bool, buf: seq<byte>, ps: seq<Patch>) returns (r: seq<byte>)
    ensures r == ResolvePatches(le, buf, ps)
  {
    r := buf;
    for i := 0 to |ps|
      invariant r == ResolvePatches(le, buf, ps[..i])
    {
      var bytes := U32Bytes(le, AsU32(|r|));
      var oldR := r;
      r := r + ps[i].data;
      r := WriteAt(r, ps[i].offsetPos as nat, bytes);
      assert ps[..i + 1][..i] == ps[..i];
      assert r == Backfill(le, oldR, ps[i]);
    }
    assert ps[..|ps|] == ps;
  }

  // ---------------------------------------------------------------------------
  // Writing a directory
  // ---------------------------------------------------------------------------

  predicate AllStandard(es: seq<ExifEntry>)
    reads Ifds(es)
  {
    forall i | 0 <= i < |es| :: es[i].ifd.namespace == Namespace.Standard
  }

  /** Serializing the entries' records one after the other into `w`. */
  function Walk(w: Writer, es: seq<ExifEntry>): Result<Writer, ExifError>
    reads Ifds(es)
  {
    if |es| == 0 then Ok(w)
    else
      var prefix := es[..|es| - 1];
      assert Ifds(prefix) <= Ifds(es);
      match Walk(w, prefix)
      case Err(e) => Err(e)
      case Ok(w') => es[|es| - 1].ifd.AppendedTo(w')
  }

  /**
   * Where the pointer slot of the last entry tagged `t` lies once the entries
   * are serialized: the last 4 bytes of its record.
   */
  function Pointer(w: Writer, es: seq<ExifEntry>, t: ExifTag): Option<nat>
    reads Ifds(es)
  {
    if |es| == 0 then None
    else
      var prefix := es[..|es| - 1];
      assert Ifds(prefix) <= Ifds(es);
      if es[|es| - 1].tag == t then
        match Walk(w, es)
        case Ok(w') => if |w'.buf| >= DATA_WIDTH then Some(|w'.buf| - DATA_WIDTH) else None
        case Err(_) => None
      else Pointer(w, prefix, t)
  }

  /** One more entry: the fold unfolded once, written for loop invariants. */
  lemma WalkExtend(w: Writer, es: seq<ExifEntry>, i: nat)
    requires i < |es|
    ensures Walk(w, es[..i + 1]) ==
      match Walk(w, es[..i])
      case Err(e) => Err(e)
      case Ok(w') => es[i].ifd.AppendedTo(w')
  {
    assert es[..i + 1][..i] == es[..i];
  }

  /** One more entry, for the pointer slot of tag `t`: the new record's slot when it carries `t`. */
  lemma PointerExtend(w: Writer, es: seq<ExifEntry>, i: nat, t: ExifTag, w': Writer)
    requires i < |es| && Walk(w, es[..i + 1]) == Ok(w')
    ensures |w'.buf| >= DATA_WIDTH
    ensures Pointer(w, es[..i + 1], t) ==
      if es[i].tag == t then Some(|w'.buf| - DATA_WIDTH) else Pointer(w, es[..i], t)
  {
    assert es[..i + 1][..i] == es[..i];
    WalkAppends(w, es[..i + 1]);
  }

  /**
   * Writing the records succeeds exactly when every entry is in the standard
   * namespace; it only appends to the buffer and the patch list, 8 bytes at
   * least per entry.
   */
  lemma {:induction false} WalkAppends(w: Writer, es: seq<ExifEntry>)
    ensures Walk(w, es).Ok? <==> AllStandard(es)
    ensures Walk(w, es).Err? ==> Walk(w, es).error == ExifError.UnsupportedNamespace
    ensures Walk(w, es).Ok? ==> w.buf <= Walk(w, es).value.buf && w.patches <= Walk(w, es).value.patches
    ensures Walk(w, es).Ok? ==> |w.buf| + 8 * |es| <= |Walk(w, es).value.buf|
  {
    if |es| > 0 {
      var prefix := es[..|es| - 1];
      WalkAppends(w, prefix);
      assert forall i | 0 <= i < |prefix| :: prefix[i] == es[i];
    }
  }

  /** Once a prefix of the entries fails, the whole list fails the same way. */
  lemma WalkFailurePersists(w: Writer, es: seq<ExifEntry>, k: nat)
    requires k <= |es| && Walk(w, es[..k]).Err?
    ensures Walk(w, es) == Walk(w, es[..k])
  {
    WalkAppends(w, es[..k]);
    WalkAppends(w, es);
    assert !AllStandard(es[..k]);
    var i :| 0 <= i < k && es[..k][i].ifd.namespace != Namespace.Standard;
    assert es[i] == es[..k][i];
  }

  /** The pointer slot exists exactly when some entry carries the tag. */
  lemma {:induction false} PointerExists(w: Writer, es: seq<ExifEntry>, t: ExifTag)
    requires Walk(w, es).Ok?
    ensures Pointer(w, es, t).None? <==> TagAbsent(es, t)
    decreases |es|
  {
    if |es| == 0 {
    } else if es[|es| - 1].tag != t {
      PointerSkips(w, es, t);
    } else {
      WalkAppends(w, es);
      assert Pointer(w, es, t).Some?;
    }
  }

  lemma {:induction false} PointerSkips(w: Writer, es: seq<ExifEntry>, t: ExifTag)
    requires Walk(w, es).Ok? && |es| > 0 && es[|es| - 1].tag != t
    ensures Pointer(w, es, t).None? <==> TagAbsent(es, t)
    decreases |es|, 0
  {
    var prefix := es[..|es| - 1];
    assert Walk(w, prefix).Ok?;
    PointerExists(w, prefix, t);
    assert Pointer(w, es, t) == Pointer(w, prefix, t);
    TagAbsentStep(es, t);
  }

  predicate TagAbsent(es: seq<ExifEntry>, t: ExifTag)
  {
    forall i | 0 <= i < |es| :: es[i].tag != t
  }

  lemma TagAbsentStep(es: seq<ExifEntry>, t: ExifTag)
    requires |es| > 0 && es[|es| - 1].tag != t
    ensures TagAbsent(es, t) <==> TagAbsent(es[..|es| - 1], t)
  {
    assert forall i | 0 <= i < |es| - 1 :: es[..|es| - 1][i] == es[i];
  }

  /** The pointer slot lies within the records written, past the start. */
  lemma {:induction false} PointerInRecords(w: Writer, es: seq<ExifEntry>, t: ExifTag)
    requires Walk(w, es).Ok? && Pointer(w, es, t).Some?
    ensures |w.buf| + 4 <= Pointer(w, es, t).value
    ensures Pointer(w, es, t).value + 4 <= |Walk(w, es).value.buf|
  {
    var prefix := es[..|es| - 1];
    var before := Walk(w, prefix);
    assert before.Ok?;
    var after := Walk(w, es).value;
    assert |before.value.buf| <= |after.buf|;
    if es[|es| - 1].tag != t {
      PointerInRecords(w, prefix, t);
    } else {
      WalkAppends(w, es);
    }
  }

  /** The entries of one kind, in their original order. */
  function Group(es: seq<ExifEntry>, kind: IfdKind): (g: seq<ExifEntry>)
    ensures |g| <= |es|
  {
    if |es| == 0 then []
    else Group(es[..|es| - 1], kind) + (if es[|es| - 1].kind == kind then [es[|es| - 1]] else [])
  }

  /** A directory's group holds exactly the entries of that kind. */
  lemma {:induction false} GroupMembers(es: seq<ExifEntry>, kind: IfdKind, e: ExifEntry)
    ensures e in Group(es, kind) <==> e in es && e.kind == kind
  {
    if |es| > 0 {
      GroupMembers(es[..|es| - 1], kind, e);
      assert es == es[..|es| - 1] + [es[|es| - 1]];
    }
  }

  lemma GroupIfds(es: seq<ExifEntry>, kind: IfdKind)
    ensures Ifds(Group(es, kind)) <= Ifds(es)
  {
    forall e | e in Group(es, kind)
      ensures e.ifd in Ifds(es)
    {
      GroupMembers(es, kind, e);
    }
  }

  /**
   * `serialize_ifd`: a sub-directory appended to `buf`, its start written
   * into the pointer slot `pos` of IFD-0, its records, the zero next-directory
   * word and its patches resolved; an error when there is no slot.
   */
  function SubIfd(le: bool, buf: seq<byte>, es: seq<ExifEntry>, pos: Option<nat>): (r: Result<seq<byte>, ExifError>)
    reads Ifds(es)
  {
    var start := U32Bytes(le, AsU32(|buf|));
    var counted := buf + U16Bytes(le, AsU16(|es|));
    if pos.None? then Err(ExifError.MissingExifOffset)
    else
      match Walk(Writer(Overwrite(counted, pos.value, start), []), es)
      case Err(e) => Err(e)
      case Ok(w) => Ok(ResolvePatches(le, w.buf + [0, 0, 0, 0], w.patches))
  }

  /** Top-level structure of the parsed metadata of an image. */
  datatype ExifData = ExifData(mime: string, entries: seq<ExifEntry>, le: bool)
  {
    /** The TIFF header, the offset 8 of IFD-0 and IFD-0's entry count. */
    function Ifd0Start(): (w: Writer)
      ensures |w.buf| == 10 && w.patches == []
    {
      Writer(TiffHeader(le) + U32Bytes(le, 8) + U16Bytes(le, AsU16(|Group(entries, IfdKind.Ifd0)|)), [])
    }

    /**
     * Header and IFD-0 with its payloads; fails when there is an IFD-1 entry
     * or an IFD-0 entry outside the standard namespace.
     */
    function Ifd0Stage(): (r: Result<seq<byte>, ExifError>)
      reads Ifds(entries)
    {
      var ifd0 := Group(entries, IfdKind.Ifd0);
      GroupIfds(entries, IfdKind.Ifd0);
      if |Group(entries, IfdKind.Ifd1)| > 0 then Err(ExifError.UnsupportedNamespace)
      else
        match Walk(Ifd0Start(), ifd0)
        case Err(e) => Err(e)
        case Ok(w) => Ok(ResolvePatches(le, w.buf + [0, 0, 0, 0], w.patches))
    }

    /** The pointer slot of the last `t` entry of IFD-0. */
    function PointerSlot(t: ExifTag): Option<nat>
      reads Ifds(entries)
    {
      GroupIfds(entries, IfdKind.Ifd0);
      Pointer(Ifd0Start(), Group(entries, IfdKind.Ifd0), t)
    }

    /** IFD-0 followed by the Exif sub-directory, when there are Exif entries. */
    function ExifStage(): (r: Result<seq<byte>, ExifError>)
      reads Ifds(entries)
    {
      var exif := Group(entries, IfdKind.Exif);
      GroupIfds(entries, IfdKind.Exif);
      match Ifd0Stage()
      case Err(e) => Err(e)
      case Ok(body) => if |exif| > 0 then SubIfd(le, body, exif, PointerSlot(ExifTag.ExifOffset)) else Ok(body)
    }

    /** The whole TIFF structure: then the GPS sub-directory, when there are GPS entries. */
    function TiffBody(): (r: Result<seq<byte>, ExifError>)
      reads Ifds(entries)
    {
      var gps := Group(entries, IfdKind.Gps);
      GroupIfds(entries, IfdKind.Gps);
      match ExifStage()
      case Err(e) => Err(e)
      case Ok(body) => if |gps| > 0 then SubIfd(le, body, gps, PointerSlot(ExifTag.GPSOffset)) else Ok(body)
    }

    /** The serialized metadata: the TIFF structure, behind the APP1 preamble for a JPEG. */
    function Serialized(): (r: Result<seq<byte>, ExifError>)
      reads Ifds(entries)
      ensures r.Ok? <==> TiffBody().Ok?
      ensures r.Ok? && mime == JPEG_MIME ==> r.value == EXIF_HEADER + TiffBody().value
      ensures r.Ok? && mime != JPEG_MIME ==> r.value == TiffBody().value
    {
      match TiffBody()
      case Err(e) => Err(e)
      case Ok(body) => Ok(if mime == JPEG_MIME then EXIF_HEADER + body else body)
    }

    /** `serialize_ifd`. */
    method SerializeIfd(serialized: seq<byte>, es: seq<ExifEntry>, pos: Option<nat>)
      returns (r: Result<seq<byte>, ExifError>)
      ensures r == SubIfd(le, serialized, es, pos)
    {
      label start:
      var bytes := U32Bytes(le, AsU32(|serialized|));
      var buf := serialized + U16Bytes(le, AsU16(|es|));
      if pos.None? {
        return Err(ExifError.MissingExifOffset);
      }
      buf := WriteAt(buf, pos.value, bytes);
      assert unchanged@start(Ifds(es));
      var written := WriteRecords(Writer(buf, []), es);
      assert unchanged@start(Ifds(es));
      if written.Err? {
        return Err(written.error);
      }
      var w := written.value;
      buf := w.buf + [0, 0, 0, 0];
      buf := ResolveAll(le, buf, w.patches);
      assert unchanged@start(Ifds(es));
      return Ok(buf);
    }

    /**
     * The IFD-0 part of `serialize`: header, count, records (remembering the
     * sub-directory pointer slots), next-directory word and patches.
     */
    method WriteIfd0(ifd0: seq<ExifEntry>) returns (r: Result<seq<byte>, ExifError>, exifPointer: Option<nat>, gpsPointer: Option<nat>)
      requires ifd0 == Group(entries, IfdKind.Ifd0) && |Group(entries, IfdKind.Ifd1)| == 0
      ensures r == Ifd0Stage()
      ensures r.Ok? ==> exifPointer == PointerSlot(ExifTag.ExifOffset) && gpsPointer == PointerSlot(ExifTag.GPSOffset)
    {
      label start:
      GroupIfds(entries, IfdKind.Ifd0);
      var serialized := TiffHeader(le);
      serialized := serialized + U32Bytes(le, 8);
      serialized := serialized + U16Bytes(le, AsU16(|ifd0|));
      var written;
      written, exifPointer, gpsPointer := WriteIfd0Records(Writer(serialized, []), ifd0);
      assert unchanged@start(Ifds(entries));
      if written.Err? {
        return Err(written.error), exifPointer, gpsPointer;
      }
      var w := written.value;
      serialized := w.buf + [0, 0, 0, 0];
      serialized := ResolveAll(le, serialized, w.patches);
      assert unchanged@start(Ifds(entries));
      return Ok(serialized), exifPointer, gpsPointer;
    }

    /** The EXIF part of `serialize`: the EXIF sub-directory after IFD-0, when there are EXIF entries. */
    method WriteExifIfd(body: seq<byte>, exif: seq<ExifEntry>, exifPointer: Option<nat>) returns (r: Result<seq<byte>, ExifError>)
      requires Ifd0Stage() == Ok(body) && exif == Group(entries, IfdKind.Exif)
      requires exifPointer == PointerSlot(ExifTag.ExifOffset)
      ensures r == ExifStage()
    {
      label start:
      GroupIfds(entries, IfdKind.Exif);
      r := Ok(body);
      if |exif| > 0 {
        r := SerializeIfd(body, exif, exifPointer);
        assert unchanged@start(Ifds(entries));
      }
    }

    /** The GPS part of `serialize`: the GPS sub-directory last, when there are GPS entries. */
    method WriteGpsIfd(body: seq<byte>, gps: seq<ExifEntry>, gpsPointer: Option<nat>) returns (r: Result<seq<byte>, ExifError>)
      requires ExifStage() == Ok(body) && gps == Group(entries, IfdKind.Gps)
      requires gpsPointer == PointerSlot(ExifTag.GPSOffset)
      ensures r == TiffBody()
    {
      label start:
      GroupIfds(entries, IfdKind.Gps);
      r := Ok(body);
      if |gps| > 0 {
        r := SerializeIfd(body, gps, gpsPointer);
        assert unchanged@start(Ifds(entries));
      }
    }

    /** `ExifData::serialize`. */
    method Serialize() returns (r: Result<seq<byte>, ExifError>)
      ensures r == Serialized()
    {
      label start:
      var ifd0, ifd1, exif, gps := GroupEntries(entries);
      assert unchanged@start(Ifds(entries));
      if |ifd1| > 0 {
        return Err(ExifError.UnsupportedNamespace);
      }
      var serialized, exifPointer, gpsPointer := WriteIfd0(ifd0);
      assert unchanged@start(Ifds(entries));
      if serialized.Err? {
        return serialized;
      }
      serialized := WriteExifIfd(serialized.value, exif, exifPointer);
      assert unchanged@start(Ifds(entries));
      if serialized.Err? {
        return serialized;
      }
      serialized := WriteGpsIfd(serialized.value, gps, gpsPointer);
      assert unchanged@start(Ifds(entries));
      if serialized.Err? {
        return serialized;
      }
      if mime == JPEG_MIME {
        return Ok(EXIF_HEADER + serialized.value);
      }
      return serialized;
    }
  }

  /** The grouping loop of `serialize`: Makernote and Interoperability entries fall through. */
  method GroupEntries(entries: seq<ExifEntry>) returns (ifd0: seq<ExifEntry>, ifd1: seq<ExifEntry>, exif: seq<ExifEntry>, gps: seq<ExifEntry>)
    ensures ifd0 == Group(entries, IfdKind.Ifd0) && ifd1 == Group(entries, IfdKind.Ifd1)
    ensures exif == Group(entries, IfdKind.Exif) && gps == Group(entries, IfdKind.Gps)
  {
    ifd0, ifd1, exif, gps := [], [], [], [];
    for i := 0 to |entries|
      invariant ifd0 == Group(entries[..i], IfdKind.Ifd0) && ifd1 == Group(entries[..i], IfdKind.Ifd1)
      invariant exif == Group(entries[..i], IfdKind.Exif) && gps == Group(entries[..i], IfdKind.Gps)
    {
      assert entries[..i + 1][..i] == entries[..i];
      var e := entries[i];
      match e.kind
      case Ifd0 => ifd0 := ifd0 + [e];
      case Ifd1 => ifd1 := ifd1 + [e];
      case Exif => exif := exif + [e];
      case Gps => gps := gps + [e];
      case _ =>
    }
    assert entries[..|entries|] == entries;
  }

  /** The record loop of `serialize_ifd`: `IfdEntry::serialize` for each entry, stopping at the first error. */
  method WriteRecords(w0: Writer, es: seq<ExifEntry>) returns (r: Result<Writer, ExifError>)
    ensures r == Walk(w0, es)
  {
    var w := w0;
    for i := 0 to |es|
      invariant Walk(w0, es[..i]) == Ok(w)
    {
      label before:
      var step := es[i].ifd.Serialize(w);
      assert unchanged@before(Ifds(es[..i]));
      WalkExtend(w0, es, i);
      if step.Err? {
        WalkFailurePersists(w0, es, i + 1);
        return step;
      }
      w := step.value;
    }
    assert es[..|es|] == es;
    return Ok(w);
  }

  /**
   * The IFD-0 record loop of `serialize`, which also remembers the pointer slot
   * of the last ExifOffset and of the last GPSOffset record.
   */
  method WriteIfd0Records(w0: Writer, es: seq<ExifEntry>)
    returns (r: Result<Writer, ExifError>, exifPointer: Option<nat>, gpsPointer: Option<nat>)
    ensures r == Walk(w0, es)
    ensures r.Ok? ==> exifPointer == Pointer(w0, es, ExifTag.ExifOffset)
    ensures r.Ok? ==> gpsPointer == Pointer(w0, es, ExifTag.GPSOffset)
  {
    exifPointer, gpsPointer := None, None;
    var w := w0;
    assert es[..0] == [];
    for i := 0 to |es|
      invariant Ifd0Progress(w0, es, i, w, exifPointer, gpsPointer)
    {
      label before:
      var step := es[i].ifd.Serialize(w);
      assert unchanged@before(Ifds(es[..i]));
      if step.Err? {
        Ifd0Failure(w0, es, i, w);
        return step, exifPointer, gpsPointer;
      }
      var w' := step.value;
      Ifd0Step(w0, es, i, w, w', exifPointer, gpsPointer);
      if es[i].tag.ExifOffset? {
        exifPointer := Some(|w'.buf| - DATA_WIDTH);
      }
      if es[i].tag.GPSOffset? {
        gpsPointer := Some(|w'.buf| - DATA_WIDTH);
      }
      w := w';
    }
    assert es[..|es|] == es;
    return Ok(w), exifPointer, gpsPointer;
  }

  /** The IFD-0 loop after `i` entries: where the walk stands and which pointer slots it has seen. */
  predicate Ifd0Progress(w0: Writer, es: seq<ExifEntry>, i: nat, w: Writer, exifPointer: Option<nat>, gpsPointer: Option<nat>)
    requires i <= |es|
    reads Ifds(es[..i])
  {
    Walk(w0, es[..i]) == Ok(w) &&
    exifPointer == Pointer(w0, es[..i], ExifTag.ExifOffset) &&
    gpsPointer == Pointer(w0, es[..i], ExifTag.GPSOffset)
  }

  /** One more IFD-0 record: the walk moves on to `w'` and both pointer slots follow. */
  lemma Ifd0Step(w0: Writer, es: seq<ExifEntry>, i: nat, w: Writer, w': Writer, exifPointer: Option<nat>, gpsPointer: Option<nat>)
    requires i < |es| && Ifd0Progress(w0, es, i, w, exifPointer, gpsPointer) && es[i].ifd.AppendedTo(w) == Ok(w')
    ensures |w'.buf| >= DATA_WIDTH
    ensures Ifd0Progress(w0, es, i + 1, w',
      if es[i].tag.ExifOffset? then Some(|w'.buf| - DATA_WIDTH) else exifPointer,
      if es[i].tag.GPSOffset? then Some(|w'.buf| - DATA_WIDTH) else gpsPointer)
  {
    WalkExtend(w0, es, i);
    PointerExtend(w0, es, i, ExifTag.ExifOffset, w');
    PointerExtend(w0, es, i, ExifTag.GPSOffset, w');
  }

  /** A failing IFD-0 record ends the walk with its error. */
  lemma Ifd0Failure(w0: Writer, es: seq<ExifEntry>, i: nat, w: Writer)
    requires i < |es| && Walk(w0, es[..i]) == Ok(w)
    requires es[i].ifd.AppendedTo(w).Err?
    ensures Walk(w0, es) == es[i].ifd.AppendedTo(w)
  {
    WalkExtend(w0, es, i);
    WalkFailurePersists(w0, es, i + 1);
  }
}
