// Properties of `ExifData::serialize` as a whole: where the deferred payloads
// land, what the finished structure starts with, and when it fails.

module SerializerFacts {
  import opened Ints
  import opened Wrappers
  import opened Types
  import opened LowLevel
  import opened IfdEntries
  import opened Serializer

  // ---------------------------------------------------------------------------
  // Patch resolution
  // ---------------------------------------------------------------------------

  /** Every placeholder lies inside `buf`, and the placeholders come in order without overlapping. */
  predicate SlotsInOrder(buf: seq<byte>, ps: seq<Patch>)
  {
    (forall i | 0 <= i < |ps| :: ps[i].offsetPos as nat + 4 <= |buf|) &&
    (forall i, j | 0 <= i < j < |ps| :: ps[i].offsetPos as nat + 4 <= ps[j].offsetPos as nat)
  }

  /** Where the payload of patch `i` is appended: after `buf` and the payloads before it. */
  function DataStart(buf: seq<byte>, ps: seq<Patch>, i: nat): nat
    requires i <= |ps|
  {
    |buf| + DataLength(ps[..i])
  }

  /** `data` sits at `at` in `r`, and the 4 bytes at `pos` hold `at` as a 32-bit word. */
  predicate Placed(le: bool, r: seq<byte>, pos: nat, at: nat, data: seq<byte>)
  {
    pos + 4 <= |r| && at + |data| <= |r| &&
    r[pos..pos + 4] == U32Bytes(le, AsU32(at)) && r[at..at + |data|] == data
  }

  /** Patch `i` is resolved in `r`: its payload sits at `DataStart`, and its placeholder holds that position. */
  predicate Lands(le: bool, r: seq<byte>, buf: seq<byte>, ps: seq<Patch>, i: nat)
    requires i < |ps|
  {
    Placed(le, r, ps[i].offsetPos as nat, DataStart(buf, ps, i), ps[i].data)
  }

  /** Byte `k` is not part of any placeholder. */
  predicate OutsideSlots(ps: seq<Patch>, k: nat)
  {
    forall i | 0 <= i < |ps| :: !(ps[i].offsetPos as nat <= k < ps[i].offsetPos as nat + 4)
  }

  /** The prefix of an ordered patch list is ordered. */
  lemma {:induction false} SlotsInOrderPrefix(buf: seq<byte>, ps: seq<Patch>, n: nat)
    requires SlotsInOrder(buf, ps) && n <= |ps|
    ensures SlotsInOrder(buf, ps[..n])
  {
    assert forall i | 0 <= i < n :: ps[..n][i] == ps[i];
  }

  /** An overwrite leaves a range it does not reach as it was. */
  lemma {:induction false} OverwriteKeeps(buf: seq<byte>, pos: nat, bytes: seq<byte>, lo: nat, hi: nat)
    requires lo <= hi <= |buf| && (hi <= pos || pos + |bytes| <= lo)
    ensures Overwrite(buf, pos, bytes)[lo..hi] == buf[lo..hi]
  {
    var r := Overwrite(buf, pos, bytes);
    OverwriteElements(buf, pos, bytes);
    assert forall j | lo <= j < hi :: r[j] == buf[j];
  }

  /** An overwrite that fits puts its bytes in place. */
  lemma {:induction false} OverwriteWrites(buf: seq<byte>, pos: nat, bytes: seq<byte>)
    requires pos + |bytes| <= |buf|
    ensures Overwrite(buf, pos, bytes)[pos..pos + |bytes|] == bytes
  {
    var r := Overwrite(buf, pos, bytes);
    OverwriteElements(buf, pos, bytes);
    assert forall j | pos <= j < pos + |bytes| :: r[j] == bytes[j - pos];
  }

  /** The last patch's payload and position land. */
  lemma {:induction false} LastPatchLands(le: bool, buf: seq<byte>, ps: seq<Patch>)
    requires SlotsInOrder(buf, ps) && |ps| > 0
    ensures Lands(le, ResolvePatches(le, buf, ps), buf, ps, |ps| - 1)
  {
    var n := |ps| - 1;
    var r0 := ResolvePatches(le, buf, ps[..n]);
    var pos := ps[n].offsetPos as nat;
    var word := U32Bytes(le, AsU32(|r0|));
    var grown := r0 + ps[n].data;
    assert ResolvePatches(le, buf, ps) == Overwrite(grown, pos, word);
    assert |r0| == DataStart(buf, ps, n);
    OverwriteWrites(grown, pos, word);
    OverwriteKeeps(grown, pos, word, |r0|, |grown|);
    assert grown[|r0|..|grown|] == ps[n].data;
  }

  /** Resolving a patch leaves the bytes before its placeholder, and those after it up to the old end, as they were. */
  lemma {:induction false} BackfillKeeps(le: bool, r0: seq<byte>, p: Patch, lo: nat, hi: nat)
    requires lo <= hi <= |r0| && (hi <= p.offsetPos as nat || p.offsetPos as nat + 4 <= lo)
    ensures Backfill(le, r0, p)[lo..hi] == r0[lo..hi]
  {
    var grown := r0 + p.data;
    OverwriteKeeps(grown, p.offsetPos as nat, U32Bytes(le, AsU32(|r0|)), lo, hi);
    assert grown[lo..hi] == r0[lo..hi];
  }

  /** A placement below a patch's placeholder and payload survives resolving that patch. */
  lemma {:induction false} PlacedSurvivesBackfill(le: bool, r0: seq<byte>, q: Patch, pos: nat, at: nat, data: seq<byte>)
    requires Placed(le, r0, pos, at, data)
    requires pos + 4 <= q.offsetPos as nat && q.offsetPos as nat + 4 <= at
    ensures Placed(le, Backfill(le, r0, q), pos, at, data)
  {
    BackfillKeeps(le, r0, q, pos, pos + 4);
    BackfillKeeps(le, r0, q, at, at + |data|);
  }

  /** Resolving a patch leaves every old byte outside its placeholder as it was. */
  lemma {:induction false} BackfillKeepsByte(le: bool, r0: seq<byte>, q: Patch, k: nat)
    requires k < |r0| && !(q.offsetPos as nat <= k < q.offsetPos as nat + 4)
    ensures Backfill(le, r0, q)[k] == r0[k]
  {
    OverwriteElements(r0 + q.data, q.offsetPos as nat, U32Bytes(le, AsU32(|r0|)));
  }

  /**
   * Resolving the patches puts payload `i` where its placeholder says: at the
   * end of `buf`, after the payloads queued before it.
   */
  lemma {:induction false} PatchLands(le: bool, buf: seq<byte>, ps: seq<Patch>, i: nat)
    requires SlotsInOrder(buf, ps) && i < |ps|
    ensures Lands(le, ResolvePatches(le, buf, ps), buf, ps, i)
  {
    var n := |ps| - 1;
    if i == n {
      LastPatchLands(le, buf, ps);
    } else {
      var prefix := ps[..n];
      SlotsInOrderPrefix(buf, ps, n);
      PatchLands(le, buf, prefix, i);
      var r0 := ResolvePatches(le, buf, prefix);
      assert ResolvePatches(le, buf, ps) == Backfill(le, r0, ps[n]);
      assert prefix[i] == ps[i] && prefix[..i] == ps[..i];
      assert Lands(le, r0, buf, prefix, i);
      PlacedSurvivesBackfill(le, r0, ps[n], ps[i].offsetPos as nat, DataStart(buf, ps, i), ps[i].data);
    }
  }

  /** The payloads queued before patch `i`, and patch `i` itself, are part of all the payloads. */
  lemma {:induction false} DataLengthPrefix(ps: seq<Patch>, i: nat)
    requires i < |ps|
    ensures DataLength(ps[..i]) + |ps[i].data| <= DataLength(ps)
    decreases |ps|
  {
    var n := |ps| - 1;
    assert ps[..n + 1] == ps;
    if i < n {
      DataLengthPrefix(ps[..n], i);
      assert ps[..n][..i] == ps[..i] && ps[..n][i] == ps[i];
    } else {
      assert ps[..i] == ps[..n];
    }
  }

  /**
   * Within 32-bit offsets, the placeholder of patch `i` reads back as the
   * exact position of its payload, and the payload is there.
   */
  lemma {:induction false} PatchPointsAtData(le: bool, buf: seq<byte>, ps: seq<Patch>, i: nat)
    requires SlotsInOrder(buf, ps) && i < |ps| && |buf| + DataLength(ps) < U32_LIMIT
    ensures var r := ResolvePatches(le, buf, ps);
      var at := DataStart(buf, ps, i);
      var pos := ps[i].offsetPos as nat;
      at + |ps[i].data| <= |r| && pos + 4 <= |r| &&
      ReadU32(le, r[pos..]) == Some(AsU32(at)) && AsU32(at) == at && r[at..at + |ps[i].data|] == ps[i].data
  {
    PatchLands(le, buf, ps, i);
    DataLengthPrefix(ps, i);
    var r := ResolvePatches(le, buf, ps);
    var pos := ps[i].offsetPos as nat;
    var word := U32Bytes(le, AsU32(DataStart(buf, ps, i)));
    assert r[pos..pos + 4] == word;
    assert r[pos..] == word + r[pos + 4..];
    U32RoundTrip(le, AsU32(DataStart(buf, ps, i)), r[pos + 4..]);
  }

  /** Resolving the patches leaves every byte of `buf` outside the placeholders as it was. */
  lemma {:induction false} PatchesKeepRest(le: bool, buf: seq<byte>, ps: seq<Patch>, k: nat)
    requires k < |buf| && OutsideSlots(ps, k)
    ensures ResolvePatches(le, buf, ps)[k] == buf[k]
  {
    if |ps| > 0 {
      var n := |ps| - 1;
      var prefix := ps[..n];
      assert forall i | 0 <= i < n :: prefix[i] == ps[i];
      assert OutsideSlots(prefix, k);
      PatchesKeepRest(le, buf, prefix, k);
      BackfillKeepsByte(le, ResolvePatches(le, buf, prefix), ps[n], k);
    }
  }

  // ---------------------------------------------------------------------------
  // Directories
  // ---------------------------------------------------------------------------

  /** No placeholder starts before `lo`. */
  predicate SlotsFrom(ps: seq<Patch>, lo: nat)
  {
    forall i | 0 <= i < |ps| :: lo <= ps[i].offsetPos as nat
  }

  /** A longer buffer still holds every placeholder. */
  lemma {:induction false} SlotsInOrderGrow(buf: seq<byte>, more: seq<byte>, ps: seq<Patch>)
    requires SlotsInOrder(buf, ps)
    ensures SlotsInOrder(buf + more, ps)
  {
  }

  /** A record with an external payload queues its placeholder after all the earlier ones. */
  lemma {:induction false} SlotsPush(buf: seq<byte>, record: seq<byte>, ps: seq<Patch>, lo: nat, data: seq<byte>)
    requires SlotsInOrder(buf, ps) && SlotsFrom(ps, lo) && lo <= |buf| + 8
    requires |record| == 12 && |buf| + 12 <= U32_LIMIT
    ensures SlotsInOrder(buf + record, ps + [Patch(AsU32(|buf| + 8), data)])
    ensures SlotsFrom(ps + [Patch(AsU32(|buf| + 8), data)], lo)
  {
    var qs := ps + [Patch(AsU32(|buf| + 8), data)];
    assert forall i | 0 <= i < |ps| :: qs[i] == ps[i];
  }

  /**
   * The records of a directory queue their placeholders in order, each in its
   * own record (past the first 8 bytes of the first one), as long as the
   * directory stays within 32-bit offsets.
   */
  lemma {:induction false} WalkSlots(w: Writer, es: seq<ExifEntry>)
    requires w.patches == [] && Walk(w, es).Ok? && |Walk(w, es).value.buf| <= U32_LIMIT
    ensures SlotsInOrder(Walk(w, es).value.buf, Walk(w, es).value.patches)
    ensures SlotsFrom(Walk(w, es).value.patches, |w.buf| + 8)
  {
    if |es| > 0 {
      var prefix := es[..|es| - 1];
      assert Ifds(prefix) <= Ifds(es);
      var before := Walk(w, prefix);
      assert before.Ok?;
      var w' := before.value;
      var e := es[|es| - 1].ifd;
      var f := Walk(w, es).value;
      assert Walk(w, es) == e.AppendedTo(w');
      assert f.buf == w'.buf + e.Record();
      WalkSlots(w, prefix);
      WalkAppends(w, prefix);
      if e.InIfd() {
        SlotsInOrderGrow(w'.buf, e.Record(), w'.patches);
      } else {
        SlotsPush(w'.buf, e.Record(), w'.patches, |w.buf| + 8, e.data);
      }
    }
  }

  /** The writer `serialize_ifd` starts its records with: count appended, pointer slot `pos` filled. */
  function SubWriter(le: bool, buf: seq<byte>, es: seq<ExifEntry>, pos: nat): (w: Writer)
    ensures |w.buf| == |buf| + 2 && w.patches == []
  {
    Writer(Overwrite(buf + U16Bytes(le, AsU16(|es|)), pos, U32Bytes(le, AsU32(|buf|))), [])
  }

  /**
   * A successful sub-directory, within 32-bit offsets: its records resolved
   * from the written writer, whose placeholders are in order past the count.
   */
  lemma {:induction false} SubIfdShape(le: bool, buf: seq<byte>, es: seq<ExifEntry>, pos: nat)
    requires SubIfd(le, buf, es, Some(pos)).Ok? && |SubIfd(le, buf, es, Some(pos)).value| <= U32_LIMIT
    ensures Walk(SubWriter(le, buf, es, pos), es).Ok?
    ensures var w := Walk(SubWriter(le, buf, es, pos), es).value;
      SubIfd(le, buf, es, Some(pos)).value == ResolvePatches(le, w.buf + [0, 0, 0, 0], w.patches) &&
      SubWriter(le, buf, es, pos).buf <= w.buf && |buf| + 6 + 8 * |es| <= |SubIfd(le, buf, es, Some(pos)).value| &&
      SlotsInOrder(w.buf + [0, 0, 0, 0], w.patches) && SlotsFrom(w.patches, |buf| + 10)
  {
    var w0 := SubWriter(le, buf, es, pos);
    assert Walk(w0, es).Ok?;
    var w := Walk(w0, es).value;
    WalkAppends(w0, es);
    WalkSlots(w0, es);
    SlotsInOrderGrow(w.buf, [0, 0, 0, 0], w.patches);
  }

  /**
   * A sub-directory leaves the bytes before it as they were, except the pointer
   * slot, which it fills with its own start; the count follows at that start.
   */
  lemma {:induction false} SubIfdByte(le: bool, buf: seq<byte>, es: seq<ExifEntry>, pos: nat, k: nat)
    requires SubIfd(le, buf, es, Some(pos)).Ok? && |SubIfd(le, buf, es, Some(pos)).value| <= U32_LIMIT
    requires k < |buf| + 2
    ensures var r := SubIfd(le, buf, es, Some(pos)).value;
      k < |r| && r[k] == if pos <= k < pos + 4 then U32Bytes(le, AsU32(|buf|))[k - pos] else (buf + U16Bytes(le, AsU16(|es|)))[k]
  {
    SubIfdShape(le, buf, es, pos);
    var w0 := SubWriter(le, buf, es, pos);
    var w := Walk(w0, es).value;
    OverwriteElements(buf + U16Bytes(le, AsU16(|es|)), pos, U32Bytes(le, AsU32(|buf|)));
    assert w.buf[k] == w0.buf[k];
    assert OutsideSlots(w.patches, k);
    PatchesKeepRest(le, w.buf + [0, 0, 0, 0], w.patches, k);
  }

  /** `r` is `buf` with `start` written at `pos` and `count` appended, byte by byte. */
  predicate Linked(r: seq<byte>, buf: seq<byte>, pos: nat, start: seq<byte>, count: seq<byte>)
  {
    |buf| + 2 <= |r| && pos + 4 <= |buf| && |start| == 4 && |count| == 2 &&
    forall k | 0 <= k < |buf| + 2 :: r[k] == if pos <= k < pos + 4 then start[k - pos] else (buf + count)[k]
  }

  lemma {:induction false} LinkedReads(le: bool, r: seq<byte>, buf: seq<byte>, pos: nat, x: u32, c: u16)
    requires Linked(r, buf, pos, U32Bytes(le, x), U16Bytes(le, c))
    ensures r[..pos] == buf[..pos] && r[pos + 4..|buf|] == buf[pos + 4..]
    ensures ReadU32(le, r[pos..]) == Some(x) && ReadU16(le, r[|buf|..]) == Some(c)
  {
    assert r[pos..] == U32Bytes(le, x) + r[pos + 4..];
    U32RoundTrip(le, x, r[pos + 4..]);
    assert r[|buf|..] == U16Bytes(le, c) + r[|buf| + 2..];
    U16RoundTrip(le, c, r[|buf| + 2..]);
  }

  /**
   * `serialize_ifd` links the sub-directory: the pointer slot in the part
   * already written reads back as the sub-directory's start, everything else
   * there is kept, and the start holds the entry count (cast to 16 bits).
   */
  lemma {:induction false} SubIfdLinked(le: bool, buf: seq<byte>, es: seq<ExifEntry>, pos: nat)
    requires SubIfd(le, buf, es, Some(pos)).Ok? && |SubIfd(le, buf, es, Some(pos)).value| <= U32_LIMIT
    requires pos + 4 <= |buf|
    ensures var r := SubIfd(le, buf, es, Some(pos)).value;
      |buf| + 2 <= |r| && r[..pos] == buf[..pos] && r[pos + 4..|buf|] == buf[pos + 4..] &&
      ReadU32(le, r[pos..]) == Some(AsU32(|buf|)) && AsU32(|buf|) == |buf| &&
      ReadU16(le, r[|buf|..]) == Some(AsU16(|es|))
  {
    var r := SubIfd(le, buf, es, Some(pos)).value;
    var start := U32Bytes(le, AsU32(|buf|));
    var count := U16Bytes(le, AsU16(|es|));
    SubIfdShape(le, buf, es, pos);
    forall k | 0 <= k < |buf| + 2
      ensures k < |r| && r[k] == if pos <= k < pos + 4 then start[k - pos] else (buf + count)[k]
    {
      SubIfdByte(le, buf, es, pos, k);
    }
    assert Linked(r, buf, pos, start, count);
    LinkedReads(le, r, buf, pos, AsU32(|buf|), AsU16(|es|));
  }

  /** Resolving patches whose placeholders all lie before `lo` keeps the bytes from `lo` to `hi`. */
  lemma {:induction false} PatchesKeepTail(le: bool, buf: seq<byte>, ps: seq<Patch>, lo: nat, hi: nat)
    requires lo <= hi <= |buf| && forall i | 0 <= i < |ps| :: ps[i].offsetPos as nat + 4 <= lo
    ensures |buf| <= |ResolvePatches(le, buf, ps)| && ResolvePatches(le, buf, ps)[lo..hi] == buf[lo..hi]
  {
    forall k | lo <= k < hi
      ensures ResolvePatches(le, buf, ps)[k] == buf[k]
    {
      assert OutsideSlots(ps, k);
      PatchesKeepRest(le, buf, ps, k);
    }
  }

  /**
   * A finished directory (records from `w0` on, the zero next-directory word,
   * payloads resolved) ends its records with the zero word.
   */
  lemma {:induction false} DirectoryTerminated(le: bool, w0: Writer, es: seq<ExifEntry>, w: Writer)
    requires w0.patches == [] && Walk(w0, es) == Ok(w)
    requires |w.buf| + 4 + DataLength(w.patches) <= U32_LIMIT
    ensures |w0.buf| + 8 * |es| <= |w.buf|
    ensures ResolvePatches(le, w.buf + [0, 0, 0, 0], w.patches)[|w.buf|..|w.buf| + 4] == [0, 0, 0, 0]
  {
    WalkSlots(w0, es);
    WalkAppends(w0, es);
    PatchesKeepTail(le, w.buf + [0, 0, 0, 0], w.patches, |w.buf|, |w.buf| + 4);
  }

  /** A finished directory leaves what came before its records as it was. */
  lemma {:induction false} DirectoryKeepsStart(le: bool, w0: Writer, es: seq<ExifEntry>, w: Writer)
    requires w0.patches == [] && Walk(w0, es) == Ok(w)
    requires |w.buf| + 4 + DataLength(w.patches) <= U32_LIMIT
    ensures |w0.buf| <= |w.buf|
    ensures ResolvePatches(le, w.buf + [0, 0, 0, 0], w.patches)[..|w0.buf|] == w0.buf
  {
    WalkSlots(w0, es);
    WalkAppends(w0, es);
    var b := w.buf + [0, 0, 0, 0];
    var r := ResolvePatches(le, b, w.patches);
    forall k | 0 <= k < |w0.buf|
      ensures r[k] == w0.buf[k]
    {
      assert OutsideSlots(w.patches, k);
      PatchesKeepRest(le, b, w.patches, k);
    }
  }

  /**
   * In a finished directory within 32-bit offsets, the placeholder of each
   * deferred payload reads back as the exact position where that payload was
   * appended after the directory, and the payload is there.
   */
  lemma {:induction false} DirectoryPayload(le: bool, w0: Writer, es: seq<ExifEntry>, w: Writer, i: nat)
    requires w0.patches == [] && Walk(w0, es) == Ok(w) && i < |w.patches|
    requires |w.buf| + 4 + DataLength(w.patches) < U32_LIMIT
    ensures var r := ResolvePatches(le, w.buf + [0, 0, 0, 0], w.patches);
      var at := DataStart(w.buf + [0, 0, 0, 0], w.patches, i);
      var slot := w.patches[i].offsetPos as nat;
      |w0.buf| + 8 <= slot && slot + 4 <= |w.buf| && at + |w.patches[i].data| <= |r| &&
      ReadU32(le, r[slot..]) == Some(AsU32(at)) && AsU32(at) == at && r[at..at + |w.patches[i].data|] == w.patches[i].data
  {
    WalkSlots(w0, es);
    SlotsInOrderGrow(w.buf, [0, 0, 0, 0], w.patches);
    PatchPointsAtData(le, w.buf + [0, 0, 0, 0], w.patches, i);
  }

  /** A sub-directory ends with the zero next-directory word right after its records. */
  lemma {:induction false} SubIfdTerminated(le: bool, buf: seq<byte>, es: seq<ExifEntry>, pos: nat)
    requires SubIfd(le, buf, es, Some(pos)).Ok? && |SubIfd(le, buf, es, Some(pos)).value| <= U32_LIMIT
    ensures Walk(SubWriter(le, buf, es, pos), es).Ok?
    ensures var end := |Walk(SubWriter(le, buf, es, pos), es).value.buf|;
      |buf| + 2 + 8 * |es| <= end && end + 4 <= |SubIfd(le, buf, es, Some(pos)).value| &&
      SubIfd(le, buf, es, Some(pos)).value[end..end + 4] == [0, 0, 0, 0]
  {
    SubIfdShape(le, buf, es, pos);
    var w0 := SubWriter(le, buf, es, pos);
    DirectoryTerminated(le, w0, es, Walk(w0, es).value);
  }
}
