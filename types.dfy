/**
 * The enumerations and value types of the metadata model (src/types.rs):
 * directory formats, namespaces, directory kinds, errors, tag values, the
 * recognised EXIF tags, and the deferred-write `Patch`.
 */
module Types {
  import opened Ints
  import opened Wrappers
  import Rational

  /** The APP1 preamble that introduces EXIF data in a JPEG file. */
  const EXIF_HEADER: seq<byte> := [0x45, 0x78, 0x69, 0x66, 0x00, 0x00]
  /** TIFF byte-order marks followed by the 42 marker, in each byte order. */
  const INTEL_TIFF_HEADER: seq<byte> := [0x49, 0x49, 0x2a, 0x00]
  const MOTOROLA_TIFF_HEADER: seq<byte> := [0x4d, 0x4d, 0x00, 0x2a]
  /** Width of the value/offset field of a directory entry. */
  const DATA_WIDTH: nat := 4

  /** On-disk element type of a directory entry; `Code` is the enum's discriminant. */
  datatype IfdFormat =
    | Unknown | U8 | Ascii | U16 | U32 | URational | I8 | Undefined | I16 | I32 | IRational | F32 | F64
  {
    /** `format as u16`: the TIFF format code. */
    function Code(): u16 {
      match this
      case Unknown => 0
      case U8 => 1
      case Ascii => 2
      case U16 => 3
      case U32 => 4
      case URational => 5
      case I8 => 6
      case Undefined => 7
      case I16 => 8
      case I32 => 9
      case IRational => 10
      case F32 => 11
      case F64 => 12
    }
  }

  /**
   * `IfdFormat::new`: the variant whose code is `code`; every other code,
   * 0 included, is `Unknown`.
   */
  function FormatFromCode(code: u16): (f: IfdFormat)
    ensures 1 <= code <= 12 ==> f.Code() == code
    ensures f == IfdFormat.Unknown <==> code == 0 || code > 12
  {
    match code
    case 1 => IfdFormat.U8
    case 2 => IfdFormat.Ascii
    case 3 => IfdFormat.U16
    case 4 => IfdFormat.U32
    case 5 => IfdFormat.URational
    case 6 => IfdFormat.I8
    case 7 => IfdFormat.Undefined
    case 8 => IfdFormat.I16
    case 9 => IfdFormat.I32
    case 10 => IfdFormat.IRational
    case 11 => IfdFormat.F32
    case 12 => IfdFormat.F64
    case _ => IfdFormat.Unknown
  }

  /** Decoding a format's own code gives the format back, `Unknown` (code 0) included. */
  lemma FormatCodeRoundTrip(f: IfdFormat)
    ensures FormatFromCode(f.Code()) == f
  {
  }

  /** Tag namespaces: Standard is the EXIF standard, the others are maker-note families. */
  datatype Namespace = Standard | Nikon | Canon

  /** The directory an entry belongs to. */
  datatype IfdKind = Ifd0 | Ifd1 | Exif | Gps | Makernote | Interoperability

  /** Why a JPEG scan found no EXIF payload (the text of `JpegWithoutExif`). */
  datatype JpegFault =
    | TruncatedMarkerHeader
    | InvalidMarker(marker: u16)
    | MarkerSizeBelowTwo
    | TruncatedMarkerBody
    | PreambleTruncated
    | PreambleUnrecognized
    | LastMarkWithoutExif
    | ScanPastEof

  /** Fatal errors of parsing and serialization. */
  datatype ExifError =
    | IoError(description: string)
    | FileTypeUnknown
    | JpegWithoutExif(fault: JpegFault)
    | TiffTruncated
    | TiffBadPreamble(reason: string)
    | IfdTruncated
    | ExifIfdTruncated(reason: string)
    | ExifIfdEntryNotFound
    | UnsupportedNamespace
    | MissingExifOffset

  /**
   * A decoded tag value. Every field is an array, even when the tag is
   * logically scalar. IEEE floats are kept as their raw bit patterns.
   */
  datatype TagValue =
    | U8(seq<byte>)
    | Ascii(string)
    | U16(seq<u16>)
    | U32(seq<u32>)
    | URational(seq<Rational.URational>)
    | I8(seq<i8>)
    | Undefined(seq<byte>, bool)
    | I16(seq<i16>)
    | I32(seq<i32>)
    | IRational(seq<Rational.IRational>)
    | F32(seq<u32>)
    | F64(seq<u64>)
    | Unknown(seq<byte>, bool)
    | Invalid(seq<byte>, bool, u16, u32)
  {
    /** The variants that `to_i64` reads: the integer arrays. */
    predicate IsInteger() {
      U8? || U16? || U32? || I8? || I16? || I32?
    }

    /** Number of elements of an integer array. */
    function IntegerCount(): nat
      requires IsInteger()
    {
      match this
      case U8(v) => |v|
      case U16(v) => |v|
      case U32(v) => |v|
      case I8(v) => |v|
      case I16(v) => |v|
      case I32(v) => |v|
    }

    /**
     * `to_i64`: element `index` of an integer array, widened without loss;
     * None for out-of-range indices and for every other variant.
     */
    function ToI64(index: nat): (r: Option<i64>)
      ensures r.Some? <==> IsInteger() && index < IntegerCount()
      ensures r.Some? ==> -0x8000_0000 <= r.value < 0x1_0000_0000
    {
      match this
      case U8(v) => if index < |v| then Some(v[index]) else None
      case U16(v) => if index < |v| then Some(v[index]) else None
      case U32(v) => if index < |v| then Some(v[index]) else None
      case I8(v) => if index < |v| then Some(v[index]) else None
      case I16(v) => if index < |v| then Some(v[index]) else None
      case I32(v) => if index < |v| then Some(v[index]) else None
      case _ => None
    }
  }

  /**
   * The recognised tags. `Code` is the enum's `u32` discriminant: namespace in
   * the high word (always Standard, 0, here) and the tag code in the low word.
   */
  datatype ExifTag =
    | UnknownToMe
    | ImageDescription
    | Make
    | Model
    | Orientation
    | XResolution
    | YResolution
    | ResolutionUnit
    | Software
    | DateTime
    | HostComputer
    | WhitePoint
    | PrimaryChromaticities
    | YCbCrCoefficients
    | ReferenceBlackWhite
    | Copyright
    | ExifOffset
    | GPSOffset
    | ExposureTime
    | FNumber
    | ExposureProgram
    | SpectralSensitivity
    | ISOSpeedRatings
    | OECF
    | SensitivityType
    | ExifVersion
    | DateTimeOriginal
    | DateTimeDigitized
    | ShutterSpeedValue
    | ApertureValue
    | BrightnessValue
    | ExposureBiasValue
    | MaxApertureValue
    | SubjectDistance
    | MeteringMode
    | LightSource
    | Flash
    | FocalLength
    | SubjectArea
    | MakerNote
    | UserComment
    | FlashPixVersion
    | ColorSpace
    | RelatedSoundFile
    | FlashEnergy
    | FocalPlaneXResolution
    | FocalPlaneYResolution
    | FocalPlaneResolutionUnit
    | SubjectLocation
    | ExposureIndex
    | SensingMethod
    | FileSource
    | SceneType
    | CFAPattern
    | CustomRendered
    | ExposureMode
    | WhiteBalanceMode
    | DigitalZoomRatio
    | FocalLengthIn35mmFilm
    | SceneCaptureType
    | GainControl
    | Contrast
    | Saturation
    | Sharpness
    | DeviceSettingDescription
    | SubjectDistanceRange
    | ImageUniqueID
    | LensSpecification
    | LensMake
    | LensModel
    | Gamma
    | GPSVersionID
    | GPSLatitudeRef
    | GPSLatitude
    | GPSLongitudeRef
    | GPSLongitude
    | GPSAltitudeRef
    | GPSAltitude
    | GPSTimeStamp
    | GPSSatellites
    | GPSStatus
    | GPSMeasureMode
    | GPSDOP
    | GPSSpeedRef
    | GPSSpeed
    | GPSTrackRef
    | GPSTrack
    | GPSImgDirectionRef
    | GPSImgDirection
    | GPSMapDatum
    | GPSDestLatitudeRef
    | GPSDestLatitude
    | GPSDestLongitudeRef
    | GPSDestLongitude
    | GPSDestBearingRef
    | GPSDestBearing
    | GPSDestDistanceRef
    | GPSDestDistance
    | GPSProcessingMethod
    | GPSAreaInformation
    | GPSDateStamp
    | GPSDifferential
  {
    function Code(): (c: u32)
      ensures c < 0x1_0000
    {
      match this
      case UnknownToMe => 0xffff
      case ImageDescription => 0x010e
      case Make => 0x010f
      case Model => 0x0110
      case Orientation => 0x0112
      case XResolution => 0x011a
      case YResolution => 0x011b
      case ResolutionUnit => 0x0128
      case Software => 0x0131
      case DateTime => 0x0132
      case HostComputer => 0x013c
      case WhitePoint => 0x013e
      case PrimaryChromaticities => 0x013f
      case YCbCrCoefficients => 0x0211
      case ReferenceBlackWhite => 0x0214
      case Copyright => 0x8298
      case ExifOffset => 0x8769
      case GPSOffset => 0x8825
      case ExposureTime => 0x829a
      case FNumber => 0x829d
      case ExposureProgram => 0x8822
      case SpectralSensitivity => 0x8824
      case ISOSpeedRatings => 0x8827
      case OECF => 0x8828
      case SensitivityType => 0x8830
      case ExifVersion => 0x9000
      case DateTimeOriginal => 0x9003
      case DateTimeDigitized => 0x9004
      case ShutterSpeedValue => 0x9201
      case ApertureValue => 0x9202
      case BrightnessValue => 0x9203
      case ExposureBiasValue => 0x9204
      case MaxApertureValue => 0x9205
      case SubjectDistance => 0x9206
      case MeteringMode => 0x9207
      case LightSource => 0x9208
      case Flash => 0x9209
      case FocalLength => 0x920a
      case SubjectArea => 0x9214
      case MakerNote => 0x927c
      case UserComment => 0x9286
      case FlashPixVersion => 0xa000
      case ColorSpace => 0xa001
      case RelatedSoundFile => 0xa004
      case FlashEnergy => 0xa20b
      case FocalPlaneXResolution => 0xa20e
      case FocalPlaneYResolution => 0xa20f
      case FocalPlaneResolutionUnit => 0xa210
      case SubjectLocation => 0xa214
      case ExposureIndex => 0xa215
      case SensingMethod => 0xa217
      case FileSource => 0xa300
      case SceneType => 0xa301
      case CFAPattern => 0xa302
      case CustomRendered => 0xa401
      case ExposureMode => 0xa402
      case WhiteBalanceMode => 0xa403
      case DigitalZoomRatio => 0xa404
      case FocalLengthIn35mmFilm => 0xa405
      case SceneCaptureType => 0xa406
      case GainControl => 0xa407
      case Contrast => 0xa408
      case Saturation => 0xa409
      case Sharpness => 0xa40a
      case DeviceSettingDescription => 0xa40b
      case SubjectDistanceRange => 0xa40c
      case ImageUniqueID => 0xa420
      case LensSpecification => 0xa432
      case LensMake => 0xa433
      case LensModel => 0xa434
      case Gamma => 0xa500
      case GPSVersionID => 0x0000
      case GPSLatitudeRef => 0x0001
      case GPSLatitude => 0x0002
      case GPSLongitudeRef => 0x0003
      case GPSLongitude => 0x0004
      case GPSAltitudeRef => 0x0005
      case GPSAltitude => 0x0006
      case GPSTimeStamp => 0x0007
      case GPSSatellites => 0x0008
      case GPSStatus => 0x0009
      case GPSMeasureMode => 0x000a
      case GPSDOP => 0x000b
      case GPSSpeedRef => 0x000c
      case GPSSpeed => 0x000d
      case GPSTrackRef => 0x000e
      case GPSTrack => 0x000f
      case GPSImgDirectionRef => 0x0010
      case GPSImgDirection => 0x0011
      case GPSMapDatum => 0x0012
      case GPSDestLatitudeRef => 0x0013
      case GPSDestLatitude => 0x0014
      case GPSDestLongitudeRef => 0x0015
      case GPSDestLongitude => 0x0016
      case GPSDestBearingRef => 0x0017
      case GPSDestBearing => 0x0018
      case GPSDestDistanceRef => 0x0019
      case GPSDestDistance => 0x001a
      case GPSProcessingMethod => 0x001b
      case GPSAreaInformation => 0x001c
      case GPSDateStamp => 0x001d
      case GPSDifferential => 0x001e
    }
  }

  /**
   * A deferred write: the position of a 4-byte offset field to fill in, and
   * the bytes whose final position that field must receive.
   */
  datatype Patch = Patch(offsetPos: u32, data: seq<byte>)
}
