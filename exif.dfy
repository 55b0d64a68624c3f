/**
 * The tag lookup table (src/exif.rs): tag code to (tag, unit, expected
 * format, minimum count, maximum count, formatter). The formatters belong to
 * the human-readable text layer, which is not part of this model; each is
 * kept here as an opaque name.
 */
module ExifTable {
  import opened Ints
  import opened Types

  /** Names of the human-readable formatters of src/exifreadable.rs. */
  datatype Formatter =
    | Strpass
    | Orientation
    | RationalValue
    | ResolutionUnit
    | RationalValues
    | ExposureTime
    | FNumber
    | ExposureProgram
    | SensitivityType
    | IsoSpeeds
    | UndefinedAsBlob
    | UndefinedAsAscii
    | ApexTv
    | ApexAv
    | ApexBrightness
    | ApexEv
    | Meters
    | MeteringMode
    | LightSource
    | Flash
    | FocalLength
    | SubjectArea
    | UndefinedAsEncodedString
    | ColorSpace
    | FlashEnergy
    | SubjectLocation
    | SensingMethod
    | FileSource
    | SceneType
    | UndefinedAsU8
    | CustomRendered
    | ExposureMode
    | WhiteBalanceMode
    | FocalLength35
    | SceneCaptureType
    | GainControl
    | Contrast
    | Saturation
    | Sharpness
    | LensSpec
    | SubjectDistanceRange
    | Dms
    | GpsAltRef
    | Gpstimestamp
    | Gpsstatus
    | Gpsmeasuremode
    | Gpsspeedref
    | Gpsspeed
    | Gpsbearingref
    | Gpsbearing
    | Gpsdestdistanceref
    | Gpsdestdistance
    | Gpsdiff
    | Unknown

  /** One row of the table; -1 counts mean "no constraint". */
  datatype TagInfo = TagInfo(tag: ExifTag, unit: string, format: IfdFormat, minCount: int, maxCount: int, readable: Formatter)

  /** The row returned for every code the table does not list. */
  const UNKNOWN_TAG_INFO: TagInfo := TagInfo(ExifTag.UnknownToMe, "Unknown unit", IfdFormat.Unknown, -1, -1, Formatter.Unknown)

  /** `tag_to_exif`. */
  function TagToExif(f: u16): TagInfo {
    match f
    case 0x010e => TagInfo(ExifTag.ImageDescription, "none", IfdFormat.Ascii, -1, -1, Formatter.Strpass)
    case 0x010f => TagInfo(ExifTag.Make, "none", IfdFormat.Ascii, -1, -1, Formatter.Strpass)
    case 0x013c => TagInfo(ExifTag.HostComputer, "none", IfdFormat.Ascii, -1, -1, Formatter.Strpass)
    case 0x0110 => TagInfo(ExifTag.Model, "none", IfdFormat.Ascii, -1, -1, Formatter.Strpass)
    case 0x0112 => TagInfo(ExifTag.Orientation, "none", IfdFormat.U16, 1, 1, Formatter.Orientation)
    case 0x011a => TagInfo(ExifTag.XResolution, "pixels per res unit", IfdFormat.URational, 1, 1, Formatter.RationalValue)
    case 0x011b => TagInfo(ExifTag.YResolution, "pixels per res unit", IfdFormat.URational, 1, 1, Formatter.RationalValue)
    case 0x0128 => TagInfo(ExifTag.ResolutionUnit, "none", IfdFormat.U16, 1, 1, Formatter.ResolutionUnit)
    case 0x0131 => TagInfo(ExifTag.Software, "none", IfdFormat.Ascii, -1, -1, Formatter.Strpass)
    case 0x0132 => TagInfo(ExifTag.DateTime, "none", IfdFormat.Ascii, -1, -1, Formatter.Strpass)
    case 0x013e => TagInfo(ExifTag.WhitePoint, "CIE 1931 coordinates", IfdFormat.URational, 2, 2, Formatter.RationalValues)
    case 0x013f => TagInfo(ExifTag.PrimaryChromaticities, "CIE 1931 coordinates", IfdFormat.URational, 6, 6, Formatter.RationalValues)
    case 0x0211 => TagInfo(ExifTag.YCbCrCoefficients, "none", IfdFormat.URational, 3, 3, Formatter.RationalValues)
    case 0x0214 => TagInfo(ExifTag.ReferenceBlackWhite, "RGB or YCbCr", IfdFormat.URational, 6, 6, Formatter.RationalValues)
    case 0x8298 => TagInfo(ExifTag.Copyright, "none", IfdFormat.Ascii, -1, -1, Formatter.Strpass)
    case 0x8769 => TagInfo(ExifTag.ExifOffset, "byte offset", IfdFormat.U32, 1, 1, Formatter.Strpass)
    case 0x8825 => TagInfo(ExifTag.GPSOffset, "byte offset", IfdFormat.U32, 1, 1, Formatter.Strpass)
    case 0x829a => TagInfo(ExifTag.ExposureTime, "s", IfdFormat.URational, 1, 1, Formatter.ExposureTime)
    case 0x829d => TagInfo(ExifTag.FNumber, "f-number", IfdFormat.URational, 1, 1, Formatter.FNumber)
    case 0x8822 => TagInfo(ExifTag.ExposureProgram, "none", IfdFormat.U16, 1, 1, Formatter.ExposureProgram)
    case 0x8824 => TagInfo(ExifTag.SpectralSensitivity, "ASTM string", IfdFormat.Ascii, -1, -1, Formatter.Strpass)
    case 0x8830 => TagInfo(ExifTag.SensitivityType, "none", IfdFormat.U16, 1, 1, Formatter.SensitivityType)
    case 0x8827 => TagInfo(ExifTag.ISOSpeedRatings, "ISO", IfdFormat.U16, 1, 3, Formatter.IsoSpeeds)
    case 0x8828 => TagInfo(ExifTag.OECF, "none", IfdFormat.Undefined, -1, -1, Formatter.UndefinedAsBlob)
    case 0x9000 => TagInfo(ExifTag.ExifVersion, "none", IfdFormat.Undefined, -1, -1, Formatter.UndefinedAsAscii)
    case 0x9003 => TagInfo(ExifTag.DateTimeOriginal, "none", IfdFormat.Ascii, -1, -1, Formatter.Strpass)
    case 0x9004 => TagInfo(ExifTag.DateTimeDigitized, "none", IfdFormat.Ascii, -1, -1, Formatter.Strpass)
    case 0x9201 => TagInfo(ExifTag.ShutterSpeedValue, "APEX", IfdFormat.IRational, 1, 1, Formatter.ApexTv)
    case 0x9202 => TagInfo(ExifTag.ApertureValue, "APEX", IfdFormat.URational, 1, 1, Formatter.ApexAv)
    case 0x9203 => TagInfo(ExifTag.BrightnessValue, "APEX", IfdFormat.IRational, 1, 1, Formatter.ApexBrightness)
    case 0x9204 => TagInfo(ExifTag.ExposureBiasValue, "APEX", IfdFormat.IRational, 1, 1, Formatter.ApexEv)
    case 0x9205 => TagInfo(ExifTag.MaxApertureValue, "APEX", IfdFormat.URational, 1, 1, Formatter.ApexAv)
    case 0x9206 => TagInfo(ExifTag.SubjectDistance, "m", IfdFormat.URational, 1, 1, Formatter.Meters)
    case 0x9207 => TagInfo(ExifTag.MeteringMode, "none", IfdFormat.U16, 1, 1, Formatter.MeteringMode)
    case 0x9208 => TagInfo(ExifTag.LightSource, "none", IfdFormat.U16, 1, 1, Formatter.LightSource)
    case 0x9209 => TagInfo(ExifTag.Flash, "none", IfdFormat.U16, 1, 2, Formatter.Flash)
    case 0x920a => TagInfo(ExifTag.FocalLength, "mm", IfdFormat.URational, 1, 1, Formatter.FocalLength)
    case 0x9214 => TagInfo(ExifTag.SubjectArea, "px", IfdFormat.U16, 2, 4, Formatter.SubjectArea)
    case 0x927c => TagInfo(ExifTag.MakerNote, "none", IfdFormat.Undefined, -1, -1, Formatter.UndefinedAsBlob)
    case 0x9286 => TagInfo(ExifTag.UserComment, "none", IfdFormat.Undefined, -1, -1, Formatter.UndefinedAsEncodedString)
    case 0xa000 => TagInfo(ExifTag.FlashPixVersion, "none", IfdFormat.Undefined, -1, -1, Formatter.UndefinedAsAscii)
    case 0xa001 => TagInfo(ExifTag.ColorSpace, "none", IfdFormat.U16, 1, 1, Formatter.ColorSpace)
    case 0xa004 => TagInfo(ExifTag.RelatedSoundFile, "none", IfdFormat.Ascii, -1, -1, Formatter.Strpass)
    case 0xa20b => TagInfo(ExifTag.FlashEnergy, "BCPS", IfdFormat.URational, 1, 1, Formatter.FlashEnergy)
    case 0xa20e => TagInfo(ExifTag.FocalPlaneXResolution, "@FocalPlaneResolutionUnit", IfdFormat.URational, 1, 1, Formatter.RationalValue)
    case 0xa20f => TagInfo(ExifTag.FocalPlaneYResolution, "@FocalPlaneResolutionUnit", IfdFormat.URational, 1, 1, Formatter.RationalValue)
    case 0xa210 => TagInfo(ExifTag.FocalPlaneResolutionUnit, "none", IfdFormat.U16, 1, 1, Formatter.ResolutionUnit)
    case 0xa214 => TagInfo(ExifTag.SubjectLocation, "X,Y", IfdFormat.U16, 2, 2, Formatter.SubjectLocation)
    case 0xa215 => TagInfo(ExifTag.ExposureIndex, "EI", IfdFormat.URational, 1, 1, Formatter.RationalValue)
    case 0xa217 => TagInfo(ExifTag.SensingMethod, "none", IfdFormat.U16, 1, 1, Formatter.SensingMethod)
    case 0xa300 => TagInfo(ExifTag.FileSource, "none", IfdFormat.Undefined, 1, 1, Formatter.FileSource)
    case 0xa301 => TagInfo(ExifTag.SceneType, "none", IfdFormat.Undefined, 1, 1, Formatter.SceneType)
    case 0xa302 => TagInfo(ExifTag.CFAPattern, "none", IfdFormat.Undefined, -1, -1, Formatter.UndefinedAsU8)
    case 0xa401 => TagInfo(ExifTag.CustomRendered, "none", IfdFormat.U16, 1, 1, Formatter.CustomRendered)
    case 0xa402 => TagInfo(ExifTag.ExposureMode, "none", IfdFormat.U16, 1, 1, Formatter.ExposureMode)
    case 0xa403 => TagInfo(ExifTag.WhiteBalanceMode, "none", IfdFormat.U16, 1, 1, Formatter.WhiteBalanceMode)
    case 0xa404 => TagInfo(ExifTag.DigitalZoomRatio, "none", IfdFormat.URational, 1, 1, Formatter.RationalValue)
    case 0xa405 => TagInfo(ExifTag.FocalLengthIn35mmFilm, "mm", IfdFormat.U16, 1, 1, Formatter.FocalLength35)
    case 0xa406 => TagInfo(ExifTag.SceneCaptureType, "none", IfdFormat.U16, 1, 1, Formatter.SceneCaptureType)
    case 0xa407 => TagInfo(ExifTag.GainControl, "none", IfdFormat.U16, 1, 1, Formatter.GainControl)
    case 0xa408 => TagInfo(ExifTag.Contrast, "none", IfdFormat.U16, 1, 1, Formatter.Contrast)
    case 0xa409 => TagInfo(ExifTag.Saturation, "none", IfdFormat.U16, 1, 1, Formatter.Saturation)
    case 0xa40a => TagInfo(ExifTag.Sharpness, "none", IfdFormat.U16, 1, 1, Formatter.Sharpness)
    case 0xa432 => TagInfo(ExifTag.LensSpecification, "none", IfdFormat.URational, 4, 4, Formatter.LensSpec)
    case 0xa433 => TagInfo(ExifTag.LensMake, "none", IfdFormat.Ascii, -1, -1, Formatter.Strpass)
    case 0xa434 => TagInfo(ExifTag.LensModel, "none", IfdFormat.Ascii, -1, -1, Formatter.Strpass)
    case 0xa500 => TagInfo(ExifTag.Gamma, "none", IfdFormat.URational, 1, 1, Formatter.RationalValue)
    case 0xa40b => TagInfo(ExifTag.DeviceSettingDescription, "none", IfdFormat.Undefined, -1, -1, Formatter.UndefinedAsBlob)
    case 0xa40c => TagInfo(ExifTag.SubjectDistanceRange, "none", IfdFormat.U16, 1, 1, Formatter.SubjectDistanceRange)
    case 0xa420 => TagInfo(ExifTag.ImageUniqueID, "none", IfdFormat.Ascii, -1, -1, Formatter.Strpass)
    case 0x0000 => TagInfo(ExifTag.GPSVersionID, "none", IfdFormat.U8, 4, 4, Formatter.Strpass)
    case 0x0001 => TagInfo(ExifTag.GPSLatitudeRef, "none", IfdFormat.Ascii, -1, -1, Formatter.Strpass)
    case 0x0002 => TagInfo(ExifTag.GPSLatitude, "D/M/S", IfdFormat.URational, 3, 3, Formatter.Dms)
    case 0x0003 => TagInfo(ExifTag.GPSLongitudeRef, "none", IfdFormat.Ascii, -1, -1, Formatter.Strpass)
    case 0x0004 => TagInfo(ExifTag.GPSLongitude, "D/M/S", IfdFormat.URational, 3, 3, Formatter.Dms)
    case 0x0005 => TagInfo(ExifTag.GPSAltitudeRef, "none", IfdFormat.U8, 1, 1, Formatter.GpsAltRef)
    case 0x0006 => TagInfo(ExifTag.GPSAltitude, "m", IfdFormat.URational, 1, 1, Formatter.Meters)
    case 0x0007 => TagInfo(ExifTag.GPSTimeStamp, "UTC time", IfdFormat.URational, 3, 3, Formatter.Gpstimestamp)
    case 0x0008 => TagInfo(ExifTag.GPSSatellites, "none", IfdFormat.Ascii, -1, -1, Formatter.Strpass)
    case 0x0009 => TagInfo(ExifTag.GPSStatus, "none", IfdFormat.Ascii, -1, -1, Formatter.Gpsstatus)
    case 0x000a => TagInfo(ExifTag.GPSMeasureMode, "none", IfdFormat.Ascii, -1, -1, Formatter.Gpsmeasuremode)
    case 0x000b => TagInfo(ExifTag.GPSDOP, "none", IfdFormat.URational, 1, 1, Formatter.RationalValue)
    case 0x000c => TagInfo(ExifTag.GPSSpeedRef, "none", IfdFormat.Ascii, -1, -1, Formatter.Gpsspeedref)
    case 0x000d => TagInfo(ExifTag.GPSSpeed, "@GPSSpeedRef", IfdFormat.URational, 1, 1, Formatter.Gpsspeed)
    case 0x000e => TagInfo(ExifTag.GPSTrackRef, "none", IfdFormat.Ascii, -1, -1, Formatter.Gpsbearingref)
    case 0x000f => TagInfo(ExifTag.GPSTrack, "deg", IfdFormat.URational, 1, 1, Formatter.Gpsbearing)
    case 0x0010 => TagInfo(ExifTag.GPSImgDirectionRef, "none", IfdFormat.Ascii, -1, -1, Formatter.Gpsbearingref)
    case 0x0011 => TagInfo(ExifTag.GPSImgDirection, "deg", IfdFormat.URational, 1, 1, Formatter.Gpsbearing)
    case 0x0012 => TagInfo(ExifTag.GPSMapDatum, "none", IfdFormat.Ascii, -1, -1, Formatter.Strpass)
    case 0x0013 => TagInfo(ExifTag.GPSDestLatitudeRef, "none", IfdFormat.Ascii, -1, -1, Formatter.Strpass)
    case 0x0014 => TagInfo(ExifTag.GPSDestLatitude, "D/M/S", IfdFormat.URational, 3, 3, Formatter.Dms)
    case 0x0015 => TagInfo(ExifTag.GPSDestLongitudeRef, "none", IfdFormat.Ascii, -1, -1, Formatter.Strpass)
    case 0x0016 => TagInfo(ExifTag.GPSDestLongitude, "D/M/S", IfdFormat.URational, 3, 3, Formatter.Dms)
    case 0x0017 => TagInfo(ExifTag.GPSDestBearingRef, "none", IfdFormat.Ascii, -1, -1, Formatter.Gpsbearingref)
    case 0x0018 => TagInfo(ExifTag.GPSDestBearing, "deg", IfdFormat.URational, 1, 1, Formatter.Gpsbearing)
    case 0x0019 => TagInfo(ExifTag.GPSDestDistanceRef, "none", IfdFormat.Ascii, -1, -1, Formatter.Gpsdestdistanceref)
    case 0x001a => TagInfo(ExifTag.GPSDestDistance, "@GPSDestDistanceRef", IfdFormat.URational, 1, 1, Formatter.Gpsdestdistance)
    case 0x001b => TagInfo(ExifTag.GPSProcessingMethod, "none", IfdFormat.Undefined, -1, -1, Formatter.UndefinedAsEncodedString)
    case 0x001c => TagInfo(ExifTag.GPSAreaInformation, "none", IfdFormat.Undefined, -1, -1, Formatter.UndefinedAsEncodedString)
    case 0x001d => TagInfo(ExifTag.GPSDateStamp, "none", IfdFormat.Ascii, -1, -1, Formatter.Strpass)
    case 0x001e => TagInfo(ExifTag.GPSDifferential, "none", IfdFormat.U16, 1, 1, Formatter.Gpsdiff)
    case _ => UNKNOWN_TAG_INFO
  }

  // ---------------------------------------------------------------------------
  // Properties of the table
  // ---------------------------------------------------------------------------

  /** A recognised code names the tag whose discriminant has that code in its low word. */
  lemma TagCodeMatches(c: u16)
    ensures TagToExif(c).tag != ExifTag.UnknownToMe ==> TagToExif(c).tag.Code() == c
  {
    match c
    case 0x0000 => RowGPSVersionID();
    case 0x0001 => RowGPSLatitudeRef();
    case 0x0002 => RowGPSLatitude();
    case 0x0003 => RowGPSLongitudeRef();
    case 0x0004 => RowGPSLongitude();
    case 0x0005 => RowGPSAltitudeRef();
    case 0x0006 => RowGPSAltitude();
    case 0x0007 => RowGPSTimeStamp();
    case 0x0008 => RowGPSSatellites();
    case 0x0009 => RowGPSStatus();
    case 0x000a => RowGPSMeasureMode();
    case 0x000b => RowGPSDOP();
    case 0x000c => RowGPSSpeedRef();
    case 0x000d => RowGPSSpeed();
    case 0x000e => RowGPSTrackRef();
    case 0x000f => RowGPSTrack();
    case 0x0010 => RowGPSImgDirectionRef();
    case 0x0011 => RowGPSImgDirection();
    case 0x0012 => RowGPSMapDatum();
    case 0x0013 => RowGPSDestLatitudeRef();
    case 0x0014 => RowGPSDestLatitude();
    case 0x0015 => RowGPSDestLongitudeRef();
    case 0x0016 => RowGPSDestLongitude();
    case 0x0017 => RowGPSDestBearingRef();
    case 0x0018 => RowGPSDestBearing();
    case 0x0019 => RowGPSDestDistanceRef();
    case 0x001a => RowGPSDestDistance();
    case 0x001b => RowGPSProcessingMethod();
    case 0x001c => RowGPSAreaInformation();
    case 0x001d => RowGPSDateStamp();
    case 0x001e => RowGPSDifferential();
    case 0x010e => RowImageDescription();
    case 0x010f => RowMake();
    case 0x0110 => RowModel();
    case 0x0112 => RowOrientation();
    case 0x011a => RowXResolution();
    case 0x011b => RowYResolution();
    case 0x0128 => RowResolutionUnit();
    case 0x0131 => RowSoftware();
    case 0x0132 => RowDateTime();
    case 0x013c => RowHostComputer();
    case 0x013e => RowWhitePoint();
    case 0x013f => RowPrimaryChromaticities();
    case 0x0211 => RowYCbCrCoefficients();
    case 0x0214 => RowReferenceBlackWhite();
    case 0x8298 => RowCopyright();
    case 0x829a => RowExposureTime();
    case 0x829d => RowFNumber();
    case 0x8769 => RowExifOffset();
    case 0x8822 => RowExposureProgram();
    case 0x8824 => RowSpectralSensitivity();
    case 0x8825 => RowGPSOffset();
    case 0x8827 => RowISOSpeedRatings();
    case 0x8828 => RowOECF();
    case 0x8830 => RowSensitivityType();
    case 0x9000 => RowExifVersion();
    case 0x9003 => RowDateTimeOriginal();
    case 0x9004 => RowDateTimeDigitized();
    case 0x9201 => RowShutterSpeedValue();
    case 0x9202 => RowApertureValue();
    case 0x9203 => RowBrightnessValue();
    case 0x9204 => RowExposureBiasValue();
    case 0x9205 => RowMaxApertureValue();
    case 0x9206 => RowSubjectDistance();
    case 0x9207 => RowMeteringMode();
    case 0x9208 => RowLightSource();
    case 0x9209 => RowFlash();
    case 0x920a => RowFocalLength();
    case 0x9214 => RowSubjectArea();
    case 0x927c => RowMakerNote();
    case 0x9286 => RowUserComment();
    case 0xa000 => RowFlashPixVersion();
    case 0xa001 => RowColorSpace();
    case 0xa004 => RowRelatedSoundFile();
    case 0xa20b => RowFlashEnergy();
    case 0xa20e => RowFocalPlaneXResolution();
    case 0xa20f => RowFocalPlaneYResolution();
    case 0xa210 => RowFocalPlaneResolutionUnit();
    case 0xa214 => RowSubjectLocation();
    case 0xa215 => RowExposureIndex();
    case 0xa217 => RowSensingMethod();
    case 0xa300 => RowFileSource();
    case 0xa301 => RowSceneType();
    case 0xa302 => RowCFAPattern();
    case 0xa401 => RowCustomRendered();
    case 0xa402 => RowExposureMode();
    case 0xa403 => RowWhiteBalanceMode();
    case 0xa404 => RowDigitalZoomRatio();
    case 0xa405 => RowFocalLengthIn35mmFilm();
    case 0xa406 => RowSceneCaptureType();
    case 0xa407 => RowGainControl();
    case 0xa408 => RowContrast();
    case 0xa409 => RowSaturation();
    case 0xa40a => RowSharpness();
    case 0xa40b => RowDeviceSettingDescription();
    case 0xa40c => RowSubjectDistanceRange();
    case 0xa420 => RowImageUniqueID();
    case 0xa432 => RowLensSpecification();
    case 0xa433 => RowLensMake();
    case 0xa434 => RowLensModel();
    case 0xa500 => RowGamma();
    case _ =>
  }

  /** Every tag other than the catch-all is listed in the table under its own code. */
  lemma TagLookupInverts(t: ExifTag)
    requires t != ExifTag.UnknownToMe
    ensures TagToExif(t.Code()).tag == t
  {
    match t
    case GPSVersionID => RowGPSVersionID();
    case GPSLatitudeRef => RowGPSLatitudeRef();
    case GPSLatitude => RowGPSLatitude();
    case GPSLongitudeRef => RowGPSLongitudeRef();
    case GPSLongitude => RowGPSLongitude();
    case GPSAltitudeRef => RowGPSAltitudeRef();
    case GPSAltitude => RowGPSAltitude();
    case GPSTimeStamp => RowGPSTimeStamp();
    case GPSSatellites => RowGPSSatellites();
    case GPSStatus => RowGPSStatus();
    case GPSMeasureMode => RowGPSMeasureMode();
    case GPSDOP => RowGPSDOP();
    case GPSSpeedRef => RowGPSSpeedRef();
    case GPSSpeed => RowGPSSpeed();
    case GPSTrackRef => RowGPSTrackRef();
    case GPSTrack => RowGPSTrack();
    case GPSImgDirectionRef => RowGPSImgDirectionRef();
    case GPSImgDirection => RowGPSImgDirection();
    case GPSMapDatum => RowGPSMapDatum();
    case GPSDestLatitudeRef => RowGPSDestLatitudeRef();
    case GPSDestLatitude => RowGPSDestLatitude();
    case GPSDestLongitudeRef => RowGPSDestLongitudeRef();
    case GPSDestLongitude => RowGPSDestLongitude();
    case GPSDestBearingRef => RowGPSDestBearingRef();
    case GPSDestBearing => RowGPSDestBearing();
    case GPSDestDistanceRef => RowGPSDestDistanceRef();
    case GPSDestDistance => RowGPSDestDistance();
    case GPSProcessingMethod => RowGPSProcessingMethod();
    case GPSAreaInformation => RowGPSAreaInformation();
    case GPSDateStamp => RowGPSDateStamp();
    case GPSDifferential => RowGPSDifferential();
    case ImageDescription => RowImageDescription();
    case Make => RowMake();
    case Model => RowModel();
    case Orientation => RowOrientation();
    case XResolution => RowXResolution();
    case YResolution => RowYResolution();
    case ResolutionUnit => RowResolutionUnit();
    case Software => RowSoftware();
    case DateTime => RowDateTime();
    case HostComputer => RowHostComputer();
    case WhitePoint => RowWhitePoint();
    case PrimaryChromaticities => RowPrimaryChromaticities();
    case YCbCrCoefficients => RowYCbCrCoefficients();
    case ReferenceBlackWhite => RowReferenceBlackWhite();
    case Copyright => RowCopyright();
    case ExposureTime => RowExposureTime();
    case FNumber => RowFNumber();
    case ExifOffset => RowExifOffset();
    case ExposureProgram => RowExposureProgram();
    case SpectralSensitivity => RowSpectralSensitivity();
    case GPSOffset => RowGPSOffset();
    case ISOSpeedRatings => RowISOSpeedRatings();
    case OECF => RowOECF();
    case SensitivityType => RowSensitivityType();
    case ExifVersion => RowExifVersion();
    case DateTimeOriginal => RowDateTimeOriginal();
    case DateTimeDigitized => RowDateTimeDigitized();
    case ShutterSpeedValue => RowShutterSpeedValue();
    case ApertureValue => RowApertureValue();
    case BrightnessValue => RowBrightnessValue();
    case ExposureBiasValue => RowExposureBiasValue();
    case MaxApertureValue => RowMaxApertureValue();
    case SubjectDistance => RowSubjectDistance();
    case MeteringMode => RowMeteringMode();
    case LightSource => RowLightSource();
    case Flash => RowFlash();
    case FocalLength => RowFocalLength();
    case SubjectArea => RowSubjectArea();
    case MakerNote => RowMakerNote();
    case UserComment => RowUserComment();
    case FlashPixVersion => RowFlashPixVersion();
    case ColorSpace => RowColorSpace();
    case RelatedSoundFile => RowRelatedSoundFile();
    case FlashEnergy => RowFlashEnergy();
    case FocalPlaneXResolution => RowFocalPlaneXResolution();
    case FocalPlaneYResolution => RowFocalPlaneYResolution();
    case FocalPlaneResolutionUnit => RowFocalPlaneResolutionUnit();
    case SubjectLocation => RowSubjectLocation();
    case ExposureIndex => RowExposureIndex();
    case SensingMethod => RowSensingMethod();
    case FileSource => RowFileSource();
    case SceneType => RowSceneType();
    case CFAPattern => RowCFAPattern();
    case CustomRendered => RowCustomRendered();
    case ExposureMode => RowExposureMode();
    case WhiteBalanceMode => RowWhiteBalanceMode();
    case DigitalZoomRatio => RowDigitalZoomRatio();
    case FocalLengthIn35mmFilm => RowFocalLengthIn35mmFilm();
    case SceneCaptureType => RowSceneCaptureType();
    case GainControl => RowGainControl();
    case Contrast => RowContrast();
    case Saturation => RowSaturation();
    case Sharpness => RowSharpness();
    case DeviceSettingDescription => RowDeviceSettingDescription();
    case SubjectDistanceRange => RowSubjectDistanceRange();
    case ImageUniqueID => RowImageUniqueID();
    case LensSpecification => RowLensSpecification();
    case LensMake => RowLensMake();
    case LensModel => RowLensModel();
    case Gamma => RowGamma();
  }

  // One row of the table at a time, so that each proof unfolds the table once.

  lemma RowGPSVersionID()
    ensures ExifTag.GPSVersionID.Code() == 0x0000
    ensures var i := TagToExif(0x0000); i.tag == ExifTag.GPSVersionID && CountsWellFormed(i)
  {}

  lemma RowGPSLatitudeRef()
    ensures ExifTag.GPSLatitudeRef.Code() == 0x0001
    ensures var i := TagToExif(0x0001); i.tag == ExifTag.GPSLatitudeRef && CountsWellFormed(i)
  {}

  lemma RowGPSLatitude()
    ensures ExifTag.GPSLatitude.Code() == 0x0002
    ensures var i := TagToExif(0x0002); i.tag == ExifTag.GPSLatitude && CountsWellFormed(i)
  {}

  lemma RowGPSLongitudeRef()
    ensures ExifTag.GPSLongitudeRef.Code() == 0x0003
    ensures var i := TagToExif(0x0003); i.tag == ExifTag.GPSLongitudeRef && CountsWellFormed(i)
  {}

  lemma RowGPSLongitude()
    ensures ExifTag.GPSLongitude.Code() == 0x0004
    ensures var i := TagToExif(0x0004); i.tag == ExifTag.GPSLongitude && CountsWellFormed(i)
  {}

  lemma RowGPSAltitudeRef()
    ensures ExifTag.GPSAltitudeRef.Code() == 0x0005
    ensures var i := TagToExif(0x0005); i.tag == ExifTag.GPSAltitudeRef && CountsWellFormed(i)
  {}

  lemma RowGPSAltitude()
    ensures ExifTag.GPSAltitude.Code() == 0x0006
    ensures var i := TagToExif(0x0006); i.tag == ExifTag.GPSAltitude && CountsWellFormed(i)
  {}

  lemma RowGPSTimeStamp()
    ensures ExifTag.GPSTimeStamp.Code() == 0x0007
    ensures var i := TagToExif(0x0007); i.tag == ExifTag.GPSTimeStamp && CountsWellFormed(i)
  {}

  lemma RowGPSSatellites()
    ensures ExifTag.GPSSatellites.Code() == 0x0008
    ensures var i := TagToExif(0x0008); i.tag == ExifTag.GPSSatellites && CountsWellFormed(i)
  {}

  lemma RowGPSStatus()
    ensures ExifTag.GPSStatus.Code() == 0x0009
    ensures var i := TagToExif(0x0009); i.tag == ExifTag.GPSStatus && CountsWellFormed(i)
  {}

  lemma RowGPSMeasureMode()
    ensures ExifTag.GPSMeasureMode.Code() == 0x000a
    ensures var i := TagToExif(0x000a); i.tag == ExifTag.GPSMeasureMode && CountsWellFormed(i)
  {}

  lemma RowGPSDOP()
    ensures ExifTag.GPSDOP.Code() == 0x000b
    ensures var i := TagToExif(0x000b); i.tag == ExifTag.GPSDOP && CountsWellFormed(i)
  {}

  lemma RowGPSSpeedRef()
    ensures ExifTag.GPSSpeedRef.Code() == 0x000c
    ensures var i := TagToExif(0x000c); i.tag == ExifTag.GPSSpeedRef && CountsWellFormed(i)
  {}

  lemma RowGPSSpeed()
    ensures ExifTag.GPSSpeed.Code() == 0x000d
    ensures var i := TagToExif(0x000d); i.tag == ExifTag.GPSSpeed && CountsWellFormed(i)
  {}

  lemma RowGPSTrackRef()
    ensures ExifTag.GPSTrackRef.Code() == 0x000e
    ensures var i := TagToExif(0x000e); i.tag == ExifTag.GPSTrackRef && CountsWellFormed(i)
  {}

  lemma RowGPSTrack()
    ensures ExifTag.GPSTrack.Code() == 0x000f
    ensures var i := TagToExif(0x000f); i.tag == ExifTag.GPSTrack && CountsWellFormed(i)
  {}

  lemma RowGPSImgDirectionRef()
    ensures ExifTag.GPSImgDirectionRef.Code() == 0x0010
    ensures var i := TagToExif(0x0010); i.tag == ExifTag.GPSImgDirectionRef && CountsWellFormed(i)
  {}

  lemma RowGPSImgDirection()
    ensures ExifTag.GPSImgDirection.Code() == 0x0011
    ensures var i := TagToExif(0x0011); i.tag == ExifTag.GPSImgDirection && CountsWellFormed(i)
  {}

  lemma RowGPSMapDatum()
    ensures ExifTag.GPSMapDatum.Code() == 0x0012
    ensures var i := TagToExif(0x0012); i.tag == ExifTag.GPSMapDatum && CountsWellFormed(i)
  {}

  lemma RowGPSDestLatitudeRef()
    ensures ExifTag.GPSDestLatitudeRef.Code() == 0x0013
    ensures var i := TagToExif(0x0013); i.tag == ExifTag.GPSDestLatitudeRef && CountsWellFormed(i)
  {}

  lemma RowGPSDestLatitude()
    ensures ExifTag.GPSDestLatitude.Code() == 0x0014
    ensures var i := TagToExif(0x0014); i.tag == ExifTag.GPSDestLatitude && CountsWellFormed(i)
  {}

  lemma RowGPSDestLongitudeRef()
    ensures ExifTag.GPSDestLongitudeRef.Code() == 0x0015
    ensures var i := TagToExif(0x0015); i.tag == ExifTag.GPSDestLongitudeRef && CountsWellFormed(i)
  {}

  lemma RowGPSDestLongitude()
    ensures ExifTag.GPSDestLongitude.Code() == 0x0016
    ensures var i := TagToExif(0x0016); i.tag == ExifTag.GPSDestLongitude && CountsWellFormed(i)
  {}

  lemma RowGPSDestBearingRef()
    ensures ExifTag.GPSDestBearingRef.Code() == 0x0017
    ensures var i := TagToExif(0x0017); i.tag == ExifTag.GPSDestBearingRef && CountsWellFormed(i)
  {}

  lemma RowGPSDestBearing()
    ensures ExifTag.GPSDestBearing.Code() == 0x0018
    ensures var i := TagToExif(0x0018); i.tag == ExifTag.GPSDestBearing && CountsWellFormed(i)
  {}

  lemma RowGPSDestDistanceRef()
    ensures ExifTag.GPSDestDistanceRef.Code() == 0x0019
    ensures var i := TagToExif(0x0019); i.tag == ExifTag.GPSDestDistanceRef && CountsWellFormed(i)
  {}

  lemma RowGPSDestDistance()
    ensures ExifTag.GPSDestDistance.Code() == 0x001a
    ensures var i := TagToExif(0x001a); i.tag == ExifTag.GPSDestDistance && CountsWellFormed(i)
  {}

  lemma RowGPSProcessingMethod()
    ensures ExifTag.GPSProcessingMethod.Code() == 0x001b
    ensures var i := TagToExif(0x001b); i.tag == ExifTag.GPSProcessingMethod && CountsWellFormed(i)
  {}

  lemma RowGPSAreaInformation()
    ensures ExifTag.GPSAreaInformation.Code() == 0x001c
    ensures var i := TagToExif(0x001c); i.tag == ExifTag.GPSAreaInformation && CountsWellFormed(i)
  {}

  lemma RowGPSDateStamp()
    ensures ExifTag.GPSDateStamp.Code() == 0x001d
    ensures var i := TagToExif(0x001d); i.tag == ExifTag.GPSDateStamp && CountsWellFormed(i)
  {}

  lemma RowGPSDifferential()
    ensures ExifTag.GPSDifferential.Code() == 0x001e
    ensures var i := TagToExif(0x001e); i.tag == ExifTag.GPSDifferential && CountsWellFormed(i)
  {}

  lemma RowImageDescription()
    ensures ExifTag.ImageDescription.Code() == 0x010e
    ensures var i := TagToExif(0x010e); i.tag == ExifTag.ImageDescription && CountsWellFormed(i)
  {}

  lemma RowMake()
    ensures ExifTag.Make.Code() == 0x010f
    ensures var i := TagToExif(0x010f); i.tag == ExifTag.Make && CountsWellFormed(i)
  {}

  lemma RowModel()
    ensures ExifTag.Model.Code() == 0x0110
    ensures var i := TagToExif(0x0110); i.tag == ExifTag.Model && CountsWellFormed(i)
  {}

  lemma RowOrientation()
    ensures ExifTag.Orientation.Code() == 0x0112
    ensures var i := TagToExif(0x0112); i.tag == ExifTag.Orientation && CountsWellFormed(i)
  {}

  lemma RowXResolution()
    ensures ExifTag.XResolution.Code() == 0x011a
    ensures var i := TagToExif(0x011a); i.tag == ExifTag.XResolution && CountsWellFormed(i)
  {}

  lemma RowYResolution()
    ensures ExifTag.YResolution.Code() == 0x011b
    ensures var i := TagToExif(0x011b); i.tag == ExifTag.YResolution && CountsWellFormed(i)
  {}

  lemma RowResolutionUnit()
    ensures ExifTag.ResolutionUnit.Code() == 0x0128
    ensures var i := TagToExif(0x0128); i.tag == ExifTag.ResolutionUnit && CountsWellFormed(i)
  {}

  lemma RowSoftware()
    ensures ExifTag.Software.Code() == 0x0131
    ensures var i := TagToExif(0x0131); i.tag == ExifTag.Software && CountsWellFormed(i)
  {}

  lemma RowDateTime()
    ensures ExifTag.DateTime.Code() == 0x0132
    ensures var i := TagToExif(0x0132); i.tag == ExifTag.DateTime && CountsWellFormed(i)
  {}

  lemma RowHostComputer()
    ensures ExifTag.HostComputer.Code() == 0x013c
    ensures var i := TagToExif(0x013c); i.tag == ExifTag.HostComputer && CountsWellFormed(i)
  {}

  lemma RowWhitePoint()
    ensures ExifTag.WhitePoint.Code() == 0x013e
    ensures var i := TagToExif(0x013e); i.tag == ExifTag.WhitePoint && CountsWellFormed(i)
  {}

  lemma RowPrimaryChromaticities()
    ensures ExifTag.PrimaryChromaticities.Code() == 0x013f
    ensures var i := TagToExif(0x013f); i.tag == ExifTag.PrimaryChromaticities && CountsWellFormed(i)
  {}

  lemma RowYCbCrCoefficients()
    ensures ExifTag.YCbCrCoefficients.Code() == 0x0211
    ensures var i := TagToExif(0x0211); i.tag == ExifTag.YCbCrCoefficients && CountsWellFormed(i)
  {}

  lemma RowReferenceBlackWhite()
    ensures ExifTag.ReferenceBlackWhite.Code() == 0x0214
    ensures var i := TagToExif(0x0214); i.tag == ExifTag.ReferenceBlackWhite && CountsWellFormed(i)
  {}

  lemma RowCopyright()
    ensures ExifTag.Copyright.Code() == 0x8298
    ensures var i := TagToExif(0x8298); i.tag == ExifTag.Copyright && CountsWellFormed(i)
  {}

  lemma RowExposureTime()
    ensures ExifTag.ExposureTime.Code() == 0x829a
    ensures var i := TagToExif(0x829a); i.tag == ExifTag.ExposureTime && CountsWellFormed(i)
  {}

  lemma RowFNumber()
    ensures ExifTag.FNumber.Code() == 0x829d
    ensures var i := TagToExif(0x829d); i.tag == ExifTag.FNumber && CountsWellFormed(i)
  {}

  lemma RowExifOffset()
    ensures ExifTag.ExifOffset.Code() == 0x8769
    ensures var i := TagToExif(0x8769); i.tag == ExifTag.ExifOffset && CountsWellFormed(i)
  {}

  lemma RowExposureProgram()
    ensures ExifTag.ExposureProgram.Code() == 0x8822
    ensures var i := TagToExif(0x8822); i.tag == ExifTag.ExposureProgram && CountsWellFormed(i)
  {}

  lemma RowSpectralSensitivity()
    ensures ExifTag.SpectralSensitivity.Code() == 0x8824
    ensures var i := TagToExif(0x8824); i.tag == ExifTag.SpectralSensitivity && CountsWellFormed(i)
  {}

  lemma RowGPSOffset()
    ensures ExifTag.GPSOffset.Code() == 0x8825
    ensures var i := TagToExif(0x8825); i.tag == ExifTag.GPSOffset && CountsWellFormed(i)
  {}

  lemma RowISOSpeedRatings()
    ensures ExifTag.ISOSpeedRatings.Code() == 0x8827
    ensures var i := TagToExif(0x8827); i.tag == ExifTag.ISOSpeedRatings && CountsWellFormed(i)
  {}

  lemma RowOECF()
    ensures ExifTag.OECF.Code() == 0x8828
    ensures var i := TagToExif(0x8828); i.tag == ExifTag.OECF && CountsWellFormed(i)
  {}

  lemma RowSensitivityType()
    ensures ExifTag.SensitivityType.Code() == 0x8830
    ensures var i := TagToExif(0x8830); i.tag == ExifTag.SensitivityType && CountsWellFormed(i)
  {}

  lemma RowExifVersion()
    ensures ExifTag.ExifVersion.Code() == 0x9000
    ensures var i := TagToExif(0x9000); i.tag == ExifTag.ExifVersion && CountsWellFormed(i)
  {}

  lemma RowDateTimeOriginal()
    ensures ExifTag.DateTimeOriginal.Code() == 0x9003
    ensures var i := TagToExif(0x9003); i.tag == ExifTag.DateTimeOriginal && CountsWellFormed(i)
  {}

  lemma RowDateTimeDigitized()
    ensures ExifTag.DateTimeDigitized.Code() == 0x9004
    ensures var i := TagToExif(0x9004); i.tag == ExifTag.DateTimeDigitized && CountsWellFormed(i)
  {}

  lemma RowShutterSpeedValue()
    ensures ExifTag.ShutterSpeedValue.Code() == 0x9201
    ensures var i := TagToExif(0x9201); i.tag == ExifTag.ShutterSpeedValue && CountsWellFormed(i)
  {}

  lemma RowApertureValue()
    ensures ExifTag.ApertureValue.Code() == 0x9202
    ensures var i := TagToExif(0x9202); i.tag == ExifTag.ApertureValue && CountsWellFormed(i)
  {}

  lemma RowBrightnessValue()
    ensures ExifTag.BrightnessValue.Code() == 0x9203
    ensures var i := TagToExif(0x9203); i.tag == ExifTag.BrightnessValue && CountsWellFormed(i)
  {}

  lemma RowExposureBiasValue()
    ensures ExifTag.ExposureBiasValue.Code() == 0x9204
    ensures var i := TagToExif(0x9204); i.tag == ExifTag.ExposureBiasValue && CountsWellFormed(i)
  {}

  lemma RowMaxApertureValue()
    ensures ExifTag.MaxApertureValue.Code() == 0x9205
    ensures var i := TagToExif(0x9205); i.tag == ExifTag.MaxApertureValue && CountsWellFormed(i)
  {}

  lemma RowSubjectDistance()
    ensures ExifTag.SubjectDistance.Code() == 0x9206
    ensures var i := TagToExif(0x9206); i.tag == ExifTag.SubjectDistance && CountsWellFormed(i)
  {}

  lemma RowMeteringMode()
    ensures ExifTag.MeteringMode.Code() == 0x9207
    ensures var i := TagToExif(0x9207); i.tag == ExifTag.MeteringMode && CountsWellFormed(i)
  {}

  lemma RowLightSource()
    ensures ExifTag.LightSource.Code() == 0x9208
    ensures var i := TagToExif(0x9208); i.tag == ExifTag.LightSource && CountsWellFormed(i)
  {}

  lemma RowFlash()
    ensures ExifTag.Flash.Code() == 0x9209
    ensures var i := TagToExif(0x9209); i.tag == ExifTag.Flash && CountsWellFormed(i)
  {}

  lemma RowFocalLength()
    ensures ExifTag.FocalLength.Code() == 0x920a
    ensures var i := TagToExif(0x920a); i.tag == ExifTag.FocalLength && CountsWellFormed(i)
  {}

  lemma RowSubjectArea()
    ensures ExifTag.SubjectArea.Code() == 0x9214
    ensures var i := TagToExif(0x9214); i.tag == ExifTag.SubjectArea && CountsWellFormed(i)
  {}

  lemma RowMakerNote()
    ensures ExifTag.MakerNote.Code() == 0x927c
    ensures var i := TagToExif(0x927c); i.tag == ExifTag.MakerNote && CountsWellFormed(i)
  {}

  lemma RowUserComment()
    ensures ExifTag.UserComment.Code() == 0x9286
    ensures var i := TagToExif(0x9286); i.tag == ExifTag.UserComment && CountsWellFormed(i)
  {}

  lemma RowFlashPixVersion()
    ensures ExifTag.FlashPixVersion.Code() == 0xa000
    ensures var i := TagToExif(0xa000); i.tag == ExifTag.FlashPixVersion && CountsWellFormed(i)
  {}

  lemma RowColorSpace()
    ensures ExifTag.ColorSpace.Code() == 0xa001
    ensures var i := TagToExif(0xa001); i.tag == ExifTag.ColorSpace && CountsWellFormed(i)
  {}

  lemma RowRelatedSoundFile()
    ensures ExifTag.RelatedSoundFile.Code() == 0xa004
    ensures var i := TagToExif(0xa004); i.tag == ExifTag.RelatedSoundFile && CountsWellFormed(i)
  {}

  lemma RowFlashEnergy()
    ensures ExifTag.FlashEnergy.Code() == 0xa20b
    ensures var i := TagToExif(0xa20b); i.tag == ExifTag.FlashEnergy && CountsWellFormed(i)
  {}

  lemma RowFocalPlaneXResolution()
    ensures ExifTag.FocalPlaneXResolution.Code() == 0xa20e
    ensures var i := TagToExif(0xa20e); i.tag == ExifTag.FocalPlaneXResolution && CountsWellFormed(i)
  {}

  lemma RowFocalPlaneYResolution()
    ensures ExifTag.FocalPlaneYResolution.Code() == 0xa20f
    ensures var i := TagToExif(0xa20f); i.tag == ExifTag.FocalPlaneYResolution && CountsWellFormed(i)
  {}

  lemma RowFocalPlaneResolutionUnit()
    ensures ExifTag.FocalPlaneResolutionUnit.Code() == 0xa210
    ensures var i := TagToExif(0xa210); i.tag == ExifTag.FocalPlaneResolutionUnit && CountsWellFormed(i)
  {}

  lemma RowSubjectLocation()
    ensures ExifTag.SubjectLocation.Code() == 0xa214
    ensures var i := TagToExif(0xa214); i.tag == ExifTag.SubjectLocation && CountsWellFormed(i)
  {}

  lemma RowExposureIndex()
    ensures ExifTag.ExposureIndex.Code() == 0xa215
    ensures var i := TagToExif(0xa215); i.tag == ExifTag.ExposureIndex && CountsWellFormed(i)
  {}

  lemma RowSensingMethod()
    ensures ExifTag.SensingMethod.Code() == 0xa217
    ensures var i := TagToExif(0xa217); i.tag == ExifTag.SensingMethod && CountsWellFormed(i)
  {}

  lemma RowFileSource()
    ensures ExifTag.FileSource.Code() == 0xa300
    ensures var i := TagToExif(0xa300); i.tag == ExifTag.FileSource && CountsWellFormed(i)
  {}

  lemma RowSceneType()
    ensures ExifTag.SceneType.Code() == 0xa301
    ensures var i := TagToExif(0xa301); i.tag == ExifTag.SceneType && CountsWellFormed(i)
  {}

  lemma RowCFAPattern()
    ensures ExifTag.CFAPattern.Code() == 0xa302
    ensures var i := TagToExif(0xa302); i.tag == ExifTag.CFAPattern && CountsWellFormed(i)
  {}

  lemma RowCustomRendered()
    ensures ExifTag.CustomRendered.Code() == 0xa401
    ensures var i := TagToExif(0xa401); i.tag == ExifTag.CustomRendered && CountsWellFormed(i)
  {}

  lemma RowExposureMode()
    ensures ExifTag.ExposureMode.Code() == 0xa402
    ensures var i := TagToExif(0xa402); i.tag == ExifTag.ExposureMode && CountsWellFormed(i)
  {}

  lemma RowWhiteBalanceMode()
    ensures ExifTag.WhiteBalanceMode.Code() == 0xa403
    ensures var i := TagToExif(0xa403); i.tag == ExifTag.WhiteBalanceMode && CountsWellFormed(i)
  {}

  lemma RowDigitalZoomRatio()
    ensures ExifTag.DigitalZoomRatio.Code() == 0xa404
    ensures var i := TagToExif(0xa404); i.tag == ExifTag.DigitalZoomRatio && CountsWellFormed(i)
  {}

  lemma RowFocalLengthIn35mmFilm()
    ensures ExifTag.FocalLengthIn35mmFilm.Code() == 0xa405
    ensures var i := TagToExif(0xa405); i.tag == ExifTag.FocalLengthIn35mmFilm && CountsWellFormed(i)
  {}

  lemma RowSceneCaptureType()
    ensures ExifTag.SceneCaptureType.Code() == 0xa406
    ensures var i := TagToExif(0xa406); i.tag == ExifTag.SceneCaptureType && CountsWellFormed(i)
  {}

  lemma RowGainControl()
    ensures ExifTag.GainControl.Code() == 0xa407
    ensures var i := TagToExif(0xa407); i.tag == ExifTag.GainControl && CountsWellFormed(i)
  {}

  lemma RowContrast()
    ensures ExifTag.Contrast.Code() == 0xa408
    ensures var i := TagToExif(0xa408); i.tag == ExifTag.Contrast && CountsWellFormed(i)
  {}

  lemma RowSaturation()
    ensures ExifTag.Saturation.Code() == 0xa409
    ensures var i := TagToExif(0xa409); i.tag == ExifTag.Saturation && CountsWellFormed(i)
  {}

  lemma RowSharpness()
    ensures ExifTag.Sharpness.Code() == 0xa40a
    ensures var i := TagToExif(0xa40a); i.tag == ExifTag.Sharpness && CountsWellFormed(i)
  {}

  lemma RowDeviceSettingDescription()
    ensures ExifTag.DeviceSettingDescription.Code() == 0xa40b
    ensures var i := TagToExif(0xa40b); i.tag == ExifTag.DeviceSettingDescription && CountsWellFormed(i)
  {}

  lemma RowSubjectDistanceRange()
    ensures ExifTag.SubjectDistanceRange.Code() == 0xa40c
    ensures var i := TagToExif(0xa40c); i.tag == ExifTag.SubjectDistanceRange && CountsWellFormed(i)
  {}

  lemma RowImageUniqueID()
    ensures ExifTag.ImageUniqueID.Code() == 0xa420
    ensures var i := TagToExif(0xa420); i.tag == ExifTag.ImageUniqueID && CountsWellFormed(i)
  {}

  lemma RowLensSpecification()
    ensures ExifTag.LensSpecification.Code() == 0xa432
    ensures var i := TagToExif(0xa432); i.tag == ExifTag.LensSpecification && CountsWellFormed(i)
  {}

  lemma RowLensMake()
    ensures ExifTag.LensMake.Code() == 0xa433
    ensures var i := TagToExif(0xa433); i.tag == ExifTag.LensMake && CountsWellFormed(i)
  {}

  lemma RowLensModel()
    ensures ExifTag.LensModel.Code() == 0xa434
    ensures var i := TagToExif(0xa434); i.tag == ExifTag.LensModel && CountsWellFormed(i)
  {}

  lemma RowGamma()
    ensures ExifTag.Gamma.Code() == 0xa500
    ensures var i := TagToExif(0xa500); i.tag == ExifTag.Gamma && CountsWellFormed(i)
  {}

  /** A code the table does not recognise yields the generic row, whatever the code. */
  lemma UnlistedCodeIsUnknown(c: u16)
    ensures TagToExif(c).tag == ExifTag.UnknownToMe ==> TagToExif(c) == UNKNOWN_TAG_INFO
    ensures TagToExif(c).tag == ExifTag.UnknownToMe <==> forall t: ExifTag :: t != ExifTag.UnknownToMe ==> t.Code() != c
  {
    if TagToExif(c).tag != ExifTag.UnknownToMe {
      TagCodeMatches(c);
    } else {
      forall t: ExifTag | t != ExifTag.UnknownToMe ensures t.Code() != c {
        TagLookupInverts(t);
      }
    }
  }

  /** The count bounds of a row: none, or a range within one to six; an ASCII row never bounds its count. */
  predicate CountsWellFormed(i: TagInfo)
  {
    && ((i.minCount == -1 && i.maxCount == -1) || (1 <= i.minCount <= i.maxCount <= 6))
    && (i.format == IfdFormat.Ascii ==> i.minCount == -1 && i.maxCount == -1)
  }

  /** Every row's count bounds are well formed, listed or not. */
  lemma CountBoundsShape(c: u16)
    ensures CountsWellFormed(TagToExif(c))
  {
    match c
    case 0x0000 => RowGPSVersionID();
    case 0x0001 => RowGPSLatitudeRef();
    case 0x0002 => RowGPSLatitude();
    case 0x0003 => RowGPSLongitudeRef();
    case 0x0004 => RowGPSLongitude();
    case 0x0005 => RowGPSAltitudeRef();
    case 0x0006 => RowGPSAltitude();
    case 0x0007 => RowGPSTimeStamp();
    case 0x0008 => RowGPSSatellites();
    case 0x0009 => RowGPSStatus();
    case 0x000a => RowGPSMeasureMode();
    case 0x000b => RowGPSDOP();
    case 0x000c => RowGPSSpeedRef();
    case 0x000d => RowGPSSpeed();
    case 0x000e => RowGPSTrackRef();
    case 0x000f => RowGPSTrack();
    case 0x0010 => RowGPSImgDirectionRef();
    case 0x0011 => RowGPSImgDirection();
    case 0x0012 => RowGPSMapDatum();
    case 0x0013 => RowGPSDestLatitudeRef();
    case 0x0014 => RowGPSDestLatitude();
    case 0x0015 => RowGPSDestLongitudeRef();
    case 0x0016 => RowGPSDestLongitude();
    case 0x0017 => RowGPSDestBearingRef();
    case 0x0018 => RowGPSDestBearing();
    case 0x0019 => RowGPSDestDistanceRef();
    case 0x001a => RowGPSDestDistance();
    case 0x001b => RowGPSProcessingMethod();
    case 0x001c => RowGPSAreaInformation();
    case 0x001d => RowGPSDateStamp();
    case 0x001e => RowGPSDifferential();
    case 0x010e => RowImageDescription();
    case 0x010f => RowMake();
    case 0x0110 => RowModel();
    case 0x0112 => RowOrientation();
    case 0x011a => RowXResolution();
    case 0x011b => RowYResolution();
    case 0x0128 => RowResolutionUnit();
    case 0x0131 => RowSoftware();
    case 0x0132 => RowDateTime();
    case 0x013c => RowHostComputer();
    case 0x013e => RowWhitePoint();
    case 0x013f => RowPrimaryChromaticities();
    case 0x0211 => RowYCbCrCoefficients();
    case 0x0214 => RowReferenceBlackWhite();
    case 0x8298 => RowCopyright();
    case 0x829a => RowExposureTime();
    case 0x829d => RowFNumber();
    case 0x8769 => RowExifOffset();
    case 0x8822 => RowExposureProgram();
    case 0x8824 => RowSpectralSensitivity();
    case 0x8825 => RowGPSOffset();
    case 0x8827 => RowISOSpeedRatings();
    case 0x8828 => RowOECF();
    case 0x8830 => RowSensitivityType();
    case 0x9000 => RowExifVersion();
    case 0x9003 => RowDateTimeOriginal();
    case 0x9004 => RowDateTimeDigitized();
    case 0x9201 => RowShutterSpeedValue();
    case 0x9202 => RowApertureValue();
    case 0x9203 => RowBrightnessValue();
    case 0x9204 => RowExposureBiasValue();
    case 0x9205 => RowMaxApertureValue();
    case 0x9206 => RowSubjectDistance();
    case 0x9207 => RowMeteringMode();
    case 0x9208 => RowLightSource();
    case 0x9209 => RowFlash();
    case 0x920a => RowFocalLength();
    case 0x9214 => RowSubjectArea();
    case 0x927c => RowMakerNote();
    case 0x9286 => RowUserComment();
    case 0xa000 => RowFlashPixVersion();
    case 0xa001 => RowColorSpace();
    case 0xa004 => RowRelatedSoundFile();
    case 0xa20b => RowFlashEnergy();
    case 0xa20e => RowFocalPlaneXResolution();
    case 0xa20f => RowFocalPlaneYResolution();
    case 0xa210 => RowFocalPlaneResolutionUnit();
    case 0xa214 => RowSubjectLocation();
    case 0xa215 => RowExposureIndex();
    case 0xa217 => RowSensingMethod();
    case 0xa300 => RowFileSource();
    case 0xa301 => RowSceneType();
    case 0xa302 => RowCFAPattern();
    case 0xa401 => RowCustomRendered();
    case 0xa402 => RowExposureMode();
    case 0xa403 => RowWhiteBalanceMode();
    case 0xa404 => RowDigitalZoomRatio();
    case 0xa405 => RowFocalLengthIn35mmFilm();
    case 0xa406 => RowSceneCaptureType();
    case 0xa407 => RowGainControl();
    case 0xa408 => RowContrast();
    case 0xa409 => RowSaturation();
    case 0xa40a => RowSharpness();
    case 0xa40b => RowDeviceSettingDescription();
    case 0xa40c => RowSubjectDistanceRange();
    case 0xa420 => RowImageUniqueID();
    case 0xa432 => RowLensSpecification();
    case 0xa433 => RowLensMake();
    case 0xa434 => RowLensModel();
    case 0xa500 => RowGamma();
    case _ =>
  }

  /** The two sub-directory pointers and Orientation. */
  lemma KnownRows()
    ensures TagToExif(0x8769) == TagInfo(ExifTag.ExifOffset, "byte offset", IfdFormat.U32, 1, 1, Formatter.Strpass)
    ensures TagToExif(0x8825) == TagInfo(ExifTag.GPSOffset, "byte offset", IfdFormat.U32, 1, 1, Formatter.Strpass)
    ensures TagToExif(0x0112).tag == ExifTag.Orientation && TagToExif(0x0112).format == IfdFormat.U16
    ensures TagToExif(0x0112).minCount == 1 && TagToExif(0x0112).maxCount == 1
  {
  }
}
