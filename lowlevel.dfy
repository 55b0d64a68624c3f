/**
 * Endian-aware decoding of fixed-width integers and rationals from a byte
 * slice (src/lowlevel.rs), with the all-or-nothing array readers, and the
 * `to_le_bytes`/`to_be_bytes` encoders the serializer uses.
 */
module LowLevel {
  import opened Ints
  import opened Wrappers
  import opened Rational

  /** Largest `usize` on the 64-bit targets the crate is built for. */
  const USIZE_MAX: int := 0xFFFF_FFFF_FFFF_FFFF

  // ---------------------------------------------------------------------------
  // Two's-complement reinterpretation
  // ---------------------------------------------------------------------------

  /** `b as i8`: a byte read as a signed byte. */
  function SignedByte(b: byte): i8 {
    if b < 0x80 then b else b - 0x100
  }

  /** `u as i16`: the same 16 bits read as a signed value. */
  function AsI16(u: u16): i16 {
    if u < 0x8000 then u else u - 0x1_0000
  }

  /** `u as i32`: the same 32 bits read as a signed value. */
  function AsI32(u: u32): i32 {
    if u < 0x8000_0000 then u else u - 0x1_0000_0000
  }

  // ---------------------------------------------------------------------------
  // Scalar readers (lowlevel.rs:6-30, 46-58)
  // ---------------------------------------------------------------------------

  /** `read_u16`: the leading two bytes, least significant first when `le`. */
  function ReadU16(le: bool, raw: seq<byte>): (r: Option<u16>)
    ensures r.None? <==> |raw| < 2
  {
    if |raw| < 2 then None
    else Some(if le then raw[0] as int + 0x100 * (raw[1] as int) else 0x100 * (raw[0] as int) + raw[1])
  }

  /** `read_i16`: `i16::from_*_bytes`, whose most significant byte carries the sign. */
  function ReadI16(le: bool, raw: seq<byte>): (r: Option<i16>)
    ensures r.None? <==> |raw| < 2
  {
    if |raw| < 2 then None
    else Some(if le then raw[0] + 0x100 * SignedByte(raw[1]) else 0x100 * SignedByte(raw[0]) + raw[1])
  }

  /** The unsigned value of four bytes, least significant first. */
  function Word(b0: byte, b1: byte, b2: byte, b3: byte): u32 {
    b0 as int + 0x100 * b1 + 0x1_0000 * b2 + 0x100_0000 * b3
  }

  /** `read_u32`: the leading four bytes, least significant first when `le`. */
  function ReadU32(le: bool, raw: seq<byte>): (r: Option<u32>)
    ensures r.None? <==> |raw| < 4
  {
    if |raw| < 4 then None
    else if le then Some(Word(raw[0], raw[1], raw[2], raw[3]))
    else Some(Word(raw[3], raw[2], raw[1], raw[0]))
  }

  /** `read_i32`: `i32::from_*_bytes`, whose most significant byte carries the sign. */
  function ReadI32(le: bool, raw: seq<byte>): (r: Option<i32>)
    ensures r.None? <==> |raw| < 4
  {
    if |raw| < 4 then None
    else if le then Some(raw[0] + 0x100 * raw[1] + 0x1_0000 * raw[2] + 0x100_0000 * SignedByte(raw[3]))
    else Some(0x100_0000 * SignedByte(raw[0]) + 0x1_0000 * raw[1] as int + 0x100 * raw[2] as int + raw[3])
  }

  /**
   * `read_urational`: numerator from bytes 0..4, denominator from bytes 4..8.
   * The source slices `raw[0..4]` and `raw[4..8]` unchecked, so shorter input panics.
   */
  function ReadURational(le: bool, raw: seq<byte>): (r: Option<URational>)
    requires |raw| >= 8
    ensures r.Some?
  {
    match (ReadU32(le, raw[0..4]), ReadU32(le, raw[4..8]))
    case (Some(n), Some(d)) => Some(URational(n, d))
    case _ => None
  }

  /** `read_irational`: as `ReadURational`, with signed halves. */
  function ReadIRational(le: bool, raw: seq<byte>): (r: Option<IRational>)
    requires |raw| >= 8
    ensures r.Some?
  {
    match (ReadI32(le, raw[0..4]), ReadI32(le, raw[4..8]))
    case (Some(n), Some(d)) => Some(IRational(n, d))
    case _ => None
  }

  // ---------------------------------------------------------------------------
  // Encoders: `u16::to_le_bytes`, `u32::to_be_bytes`, ...
  // ---------------------------------------------------------------------------

  function U16Bytes(le: bool, x: u16): (b: seq<byte>)
    ensures |b| == 2
  {
    var lo, hi := x % 0x100, x / 0x100;
    if le then [lo, hi] else [hi, lo]
  }

  function U32Bytes(le: bool, x: u32): (b: seq<byte>)
    ensures |b| == 4
  {
    var b0, b1, b2, b3 := x % 0x100, (x / 0x100) % 0x100, (x / 0x1_0000) % 0x100, x / 0x100_0000;
    if le then [b0, b1, b2, b3] else [b3, b2, b1, b0]
  }

  function URationalBytes(le: bool, q: URational): seq<byte> {
    U32Bytes(le, q.numerator) + U32Bytes(le, q.denominator)
  }

  // ---------------------------------------------------------------------------
  // Array readers (lowlevel.rs:61-118)
  // ---------------------------------------------------------------------------

  lemma ChunkBound(i: nat, size: nat, count: nat)
    requires i < count
    ensures i * size + size <= size * count
  {
    var k := count - i - 1;
    assert count == i + 1 + k;
    assert size * count == size * i + size + size * k;
  }

  /** Where chunk `i` of `size` bytes starts in a buffer of `count` chunks. */
  function ChunkStart(i: nat, size: nat, count: nat): (o: nat)
    requires i < count
    ensures o == i * size && o + size <= size * count
  {
    ChunkBound(i, size, count);
    i * size
  }

  /** `count` consecutive `size`-byte chunks of `bytes`, each converted. */
  function Chunks<T>(bytes: seq<byte>, size: nat, count: nat, convert: seq<byte> --> T): (r: seq<T>)
    requires 0 < size && |bytes| == size * count
    requires forall ch: seq<byte> | |ch| == size :: convert.requires(ch)
    ensures |r| == count
    ensures forall i :: 0 <= i < count ==>
      r[i] == convert(bytes[ChunkStart(i, size, count)..ChunkStart(i, size, count) + size])
    decreases count
  {
    if count == 0 then []
    else
      MulStep(count, size);
      var rest := Chunks(bytes[size..], size, count - 1, convert);
      var r := [convert(bytes[..size])] + rest;
      assert forall i | 1 <= i < count ::
        r[i] == convert(bytes[ChunkStart(i, size, count)..ChunkStart(i, size, count) + size])
      by {
        forall i | 1 <= i < count
          ensures r[i] == convert(bytes[ChunkStart(i, size, count)..ChunkStart(i, size, count) + size])
        {
          var o := ChunkStart(i - 1, size, count - 1);
          MulStep(i, size);
          assert r[i] == rest[i - 1];
          assert bytes[size..][o..o + size] == bytes[o + size..o + size + size];
        }
      }
      r
  }

  lemma MulStep(n: nat, size: nat)
    requires n > 0
    ensures n * size == (n - 1) * size + size
  {
  }

  /**
   * `read_elements`: all or nothing. None when `size * count` overflows `usize`
   * or the slice is shorter than `size * count`; otherwise exactly `count`
   * elements, element i decoded from bytes `i*size .. (i+1)*size`.
   */
  function ReadElements<T>(size: nat, count: u32, raw: seq<byte>, convert: seq<byte> --> T): (r: Option<seq<T>>)
    requires 0 < size < 0x100
    requires forall ch: seq<byte> | |ch| == size :: convert.requires(ch)
    ensures r.Some? <==> size * count <= USIZE_MAX && size * count <= |raw|
    ensures r.Some? ==> |r.value| == count
    ensures r.Some? ==> forall i :: 0 <= i < count ==>
      r.value[i] == convert(raw[ChunkStart(i, size, count)..ChunkStart(i, size, count) + size])
  {
    if size * count > USIZE_MAX then None
    else if |raw| < size * count then None
    else
      var bytes := raw[..size * count];
      var out := Chunks(bytes, size, count, convert);
      assert forall i | 0 <= i < count ::
        out[i] == convert(raw[ChunkStart(i, size, count)..ChunkStart(i, size, count) + size])
      by {
        forall i | 0 <= i < count
          ensures out[i] == convert(raw[ChunkStart(i, size, count)..ChunkStart(i, size, count) + size])
        {
          var o := ChunkStart(i, size, count);
          assert bytes[o..o + size] == raw[o..o + size];
        }
      }
      Some(out)
  }

  /** `read_i8_array`: the first `count` bytes, reinterpreted as signed. */
  function ReadI8Array(count: u32, raw: seq<byte>): (r: Option<seq<i8>>)
    ensures r.Some? <==> count <= |raw|
    ensures r.Some? ==> |r.value| == count && forall i :: 0 <= i < count ==> r.value[i] == SignedByte(raw[i])
  {
    if |raw| < count then None else Some(seq(count, i requires 0 <= i < count => SignedByte(raw[i])))
  }

  function ReadU16Array(le: bool, count: u32, raw: seq<byte>): (r: Option<seq<u16>>)
    ensures r.Some? <==> 2 * count <= |raw|
    ensures r.Some? ==> |r.value| == count
    ensures r.Some? ==> forall i :: 0 <= i < count ==> Some(r.value[i]) == ReadU16(le, raw[2 * i..2 * i + 2])
  {
    ReadElements(2, count, raw, ch requires |ch| == 2 => ReadU16(le, ch).value)
  }

  function ReadI16Array(le: bool, count: u32, raw: seq<byte>): (r: Option<seq<i16>>)
    ensures r.Some? <==> 2 * count <= |raw|
    ensures r.Some? ==> |r.value| == count
    ensures r.Some? ==> forall i :: 0 <= i < count ==> Some(r.value[i]) == ReadI16(le, raw[2 * i..2 * i + 2])
  {
    ReadElements(2, count, raw, ch requires |ch| == 2 => ReadI16(le, ch).value)
  }

  function ReadU32Array(le: bool, count: u32, raw: seq<byte>): (r: Option<seq<u32>>)
    ensures r.Some? <==> 4 * count <= |raw|
    ensures r.Some? ==> |r.value| == count
    ensures r.Some? ==> forall i :: 0 <= i < count ==> Some(r.value[i]) == ReadU32(le, raw[4 * i..4 * i + 4])
  {
    ReadElements(4, count, raw, ch requires |ch| == 4 => ReadU32(le, ch).value)
  }

  function ReadI32Array(le: bool, count: u32, raw: seq<byte>): (r: Option<seq<i32>>)
    ensures r.Some? <==> 4 * count <= |raw|
    ensures r.Some? ==> |r.value| == count
    ensures r.Some? ==> forall i :: 0 <= i < count ==> Some(r.value[i]) == ReadI32(le, raw[4 * i..4 * i + 4])
  {
    ReadElements(4, count, raw, ch requires |ch| == 4 => ReadI32(le, ch).value)
  }

  function ReadURationalArray(le: bool, count: u32, raw: seq<byte>): (r: Option<seq<URational>>)
    ensures r.Some? <==> 8 * count <= |raw|
    ensures r.Some? ==> |r.value| == count
    ensures r.Some? ==> forall i :: 0 <= i < count ==> Some(r.value[i]) == ReadURational(le, raw[8 * i..8 * i + 8])
  {
    ReadElements(8, count, raw, ch requires |ch| == 8 => ReadURational(le, ch).value)
  }

  function ReadIRationalArray(le: bool, count: u32, raw: seq<byte>): (r: Option<seq<IRational>>)
    ensures r.Some? <==> 8 * count <= |raw|
    ensures r.Some? ==> |r.value| == count
    ensures r.Some? ==> forall i :: 0 <= i < count ==> Some(r.value[i]) == ReadIRational(le, raw[8 * i..8 * i + 8])
  {
    ReadElements(8, count, raw, ch requires |ch| == 8 => ReadIRational(le, ch).value)
  }

  // ---------------------------------------------------------------------------
  // Properties
  // ---------------------------------------------------------------------------

  /** Only the leading bytes are decoded; anything after them is ignored. */
  lemma ReadersIgnoreTrailingBytes(le: bool, raw: seq<byte>, rest: seq<byte>)
    ensures |raw| >= 2 ==> ReadU16(le, raw + rest) == ReadU16(le, raw) && ReadI16(le, raw + rest) == ReadI16(le, raw)
    ensures |raw| >= 4 ==> ReadU32(le, raw + rest) == ReadU32(le, raw) && ReadI32(le, raw + rest) == ReadI32(le, raw)
  {
  }

  /** Big-endian reading is little-endian reading of the reversed bytes. */
  lemma BigEndianIsReversedLittle(raw: seq<byte>)
    ensures |raw| >= 2 ==> ReadU16(false, raw) == ReadU16(true, [raw[1], raw[0]])
    ensures |raw| >= 4 ==> ReadU32(false, raw) == ReadU32(true, [raw[3], raw[2], raw[1], raw[0]])
  {
  }

  /** Reading back what the encoder wrote gives the value back. */
  lemma U16RoundTrip(le: bool, x: u16, rest: seq<byte>)
    ensures ReadU16(le, U16Bytes(le, x) + rest) == Some(x)
  {
  }

  /** Encoding what the reader decoded gives the bytes back. */
  lemma U16Inverse(le: bool, raw: seq<byte>)
    requires |raw| >= 2
    ensures U16Bytes(le, ReadU16(le, raw).value) == raw[..2]
  {
  }

  /** The four base-256 digits of `x` put back together give `x`. */
  lemma WordOfDigits(x: u32)
    ensures Word(x % 0x100, (x / 0x100) % 0x100, (x / 0x1_0000) % 0x100, x / 0x100_0000) == x
  {
    var q1, q2 := x / 0x100, x / 0x1_0000;
    assert x == 0x100 * q1 + x % 0x100;
    assert q1 / 0x100 == q2;
    assert q1 == 0x100 * q2 + q1 % 0x100;
    assert q2 / 0x100 == x / 0x100_0000;
    assert q2 == 0x100 * (x / 0x100_0000) + q2 % 0x100;
  }

  /** The base-256 digits of a word are the bytes it was made of. */
  lemma DigitsOfWord(b0: byte, b1: byte, b2: byte, b3: byte)
    ensures var w := Word(b0, b1, b2, b3);
      w % 0x100 == b0 && (w / 0x100) % 0x100 == b1 && (w / 0x1_0000) % 0x100 == b2 && w / 0x100_0000 == b3
  {
    var w := Word(b0, b1, b2, b3);
    var h1 := b1 as int + 0x100 * b2 + 0x1_0000 * b3;
    var h2 := b2 as int + 0x100 * b3;
    assert w == 0x100 * h1 + b0;
    assert w / 0x100 == h1 && w % 0x100 == b0;
    assert h1 == 0x100 * h2 + b1;
    assert h1 % 0x100 == b1;
    assert w == 0x1_0000 * h2 + (b0 as int + 0x100 * b1);
    assert w / 0x1_0000 == h2;
    assert h2 % 0x100 == b2;
    assert w == 0x100_0000 * b3 + (b0 as int + 0x100 * b1 + 0x1_0000 * b2);
    assert w / 0x100_0000 == b3;
  }

  lemma U32RoundTrip(le: bool, x: u32, rest: seq<byte>)
    ensures ReadU32(le, U32Bytes(le, x) + rest) == Some(x)
  {
    WordOfDigits(x);
  }

  lemma U32Inverse(le: bool, raw: seq<byte>)
    requires |raw| >= 4
    ensures U32Bytes(le, ReadU32(le, raw).value) == raw[..4]
  {
    if le {
      DigitsOfWord(raw[0], raw[1], raw[2], raw[3]);
    } else {
      DigitsOfWord(raw[3], raw[2], raw[1], raw[0]);
    }
  }

  /** `read_i16` is the two's-complement reading of what `read_u16` reads. */
  lemma ReadI16Reinterprets(le: bool, raw: seq<byte>)
    requires |raw| >= 2
    ensures ReadI16(le, raw) == Some(AsI16(ReadU16(le, raw).value))
  {
  }

  /** `read_i32` is the two's-complement reading of what `read_u32` reads. */
  lemma ReadI32Reinterprets(le: bool, raw: seq<byte>)
    requires |raw| >= 4
    ensures ReadI32(le, raw) == Some(AsI32(ReadU32(le, raw).value))
  {
  }

  /** A rational written as two u32 words reads back field by field. */
  lemma URationalRoundTrip(le: bool, q: URational, rest: seq<byte>)
    ensures ReadURational(le, URationalBytes(le, q) + rest) == Some(q)
  {
    var b := URationalBytes(le, q) + rest;
    assert b[0..4] == U32Bytes(le, q.numerator) + [];
    assert b[4..8] == U32Bytes(le, q.denominator) + [];
    U32RoundTrip(le, q.numerator, []);
    U32RoundTrip(le, q.denominator, []);
  }

  /** For `size` below 256 and a `u32` count, `size * count` never overflows a 64-bit `usize`. */
  lemma ElementBytesNeverOverflow(size: nat, count: u32)
    requires size < 0x100
    ensures size * count <= USIZE_MAX
  {
    assert size * count <= 0xFF * count;
  }
}
