/**
 * The SDK's enumerations and the three translators that turn them into the
 * labels printed in diagnostics (picapture.h:12-109; info/info.c:12-109 is an
 * identical copy).  The numeric values of the enumerations live in the SDK's
 * header, which is not part of this model: each enumeration is a datatype with
 * one constructor per case the translators list, plus one constructor that
 * carries any other value.
 */
module AsiLabels {
  import opened Wrappers

  /** ASI_ERROR_CODE: the status every SDK call returns. */
  datatype ErrorCode =
    | Success
    | InvalidIndex
    | InvalidId
    | InvalidControlType
    | CameraClosed
    | CameraRemoved
    | InvalidPath
    | InvalidFileFormat
    | InvalidSize
    | InvalidImgType
    | OutOfBoundary
    | Timeout
    | InvalidSequence
    | BufferTooSmall
    | VideoModeActive
    | ExposureInProgress
    | GeneralError
    | ErrorEnd
    | OtherCode(code: int)

  /** ASI_CONTROL_TYPE: the identifier of a tunable camera parameter. */
  datatype ControlType =
    | Gain
    | Exposure
    | Gamma
    | WbR
    | WbB
    | Offset
    | BandwidthOverload
    | Overclock
    | Temperature
    | Flip
    | AutoMaxGain
    | AutoMaxExp
    | AutoTargetBrightness
    | HardwareBin
    | HighSpeedMode
    | CoolerPowerPerc
    | TargetTemp
    | CoolerOn
    | MonoBin
    | FanOn
    | PatternAdjust
    | AntiDewHeater
    | FanAdjust
    | PwrLedBright
    | GpsSupport
    | GpsStartLine
    | GpsEndLine
    | RollingInterval
    | OtherControl(control: int)

  /** ASI_IMG_TYPE: a pixel format; ImgEnd terminates the camera's format table. */
  datatype ImgType = Raw8 | Rgb24 | Raw16 | Y8 | ImgEnd | OtherImg(imgType: int)

  const UnknownErrorCode: string := "Unknown ASI_ERROR_CODE"
  const UnknownControlType: string := "Unknown ASI_CONTROL_TYPE"
  const UnknownImgType: string := "Unknown ASI_IMG_TYPE"

  /** The error codes asi_error_code_string has a case for. */
  predicate ListedErrorCode(e: ErrorCode) {
    !e.OtherCode?
  }

  /** The control types asi_control_type_string has a case for. */
  predicate ListedControlType(c: ControlType) {
    !c.OtherControl?
  }

  /** The image types asi_img_type_string has a case for (ImgEnd is not one). */
  predicate ListedImgType(t: ImgType) {
    t.Raw8? || t.Rgb24? || t.Raw16? || t.Y8?
  }

  /**
   * asi_error_code_string.  The label of ASI_ERROR_INVALID_INDEX is spelt
   * "ASE_ERROR_INVALID_INDEX" in the source and is kept that way.
   */
  function ErrorCodeLabel(e: ErrorCode): (name: string)
    ensures name == UnknownErrorCode <==> !ListedErrorCode(e)
  {
    match e
    case Success => "ASI_SUCCESS"
    case InvalidIndex => "ASE_ERROR_INVALID_INDEX"
    case InvalidId => "ASI_ERROR_INVALID_ID"
    case InvalidControlType => "ASI_ERROR_INVALID_CONTROL_TYPE"
    case CameraClosed => "ASI_ERROR_CAMERA_CLOSED"
    case CameraRemoved => "ASI_ERROR_CAMERA_REMOVED"
    case InvalidPath => "ASI_ERROR_INVALID_PATH"
    case InvalidFileFormat => "ASI_ERROR_INVALID_FILEFORMAT"
    case InvalidSize => "ASI_ERROR_INVALID_SIZE"
    case InvalidImgType => "ASI_ERROR_INVALID_IMGTYPE"
    case OutOfBoundary => "ASI_ERROR_OUTOF_BOUNDARY"
    case Timeout => "ASI_ERROR_TIMEOUT"
    case InvalidSequence => "ASI_ERROR_INVALID_SEQUENCE"
    case BufferTooSmall => "ASI_ERROR_BUFFER_TOO_SMALL"
    case VideoModeActive => "ASI_ERROR_VIDEO_MODE_ACTIVE"
    case ExposureInProgress => "ASI_ERROR_EXPOSURE_IN_PROGRESS"
    case GeneralError => "ASI_ERROR_GENERAL_ERROR"
    case ErrorEnd => "ASI_ERROR_END"
    case OtherCode(_) => UnknownErrorCode
  }

  /** asi_control_type_string. */
  function ControlTypeLabel(c: ControlType): (name: string)
    ensures name == UnknownControlType <==> !ListedControlType(c)
  {
    match c
    case Gain => "ASI_GAIN"
    case Exposure => "ASI_EXPOSURE"
    case Gamma => "ASI_GAMMA"
    case WbR => "ASI_WB_R"
    case WbB => "ASI_WB_B"
    case Offset => "ASI_OFFSET"
    case BandwidthOverload => "ASI_BANDWIDTHOVERLOAD"
    case Overclock => "ASI_OVERCLOCK"
    case Temperature => "ASI_TEMPERATURE"
    case Flip => "ASI_FLIP"
    case AutoMaxGain => "ASI_AUTO_MAX_GAIN"
    case AutoMaxExp => "ASI_AUTO_MAX_EXP"
    case AutoTargetBrightness => "ASI_AUTO_TARGET_BRIGHTNESS"
    case HardwareBin => "ASI_HARDWARE_BIN"
    case HighSpeedMode => "ASI_HIGH_SPEED_MODE"
    case CoolerPowerPerc => "ASI_COOLER_POWER_PERC"
    case TargetTemp => "ASI_TARGET_TEMP"
    case CoolerOn => "ASI_COOLER_ON"
    case MonoBin => "ASI_MONO_BIN"
    case FanOn => "ASI_FAN_ON"
    case PatternAdjust => "ASI_PATTERN_ADJUST"
    case AntiDewHeater => "ASI_ANTI_DEW_HEATER"
    case FanAdjust => "ASI_FAN_ADJUST"
    case PwrLedBright => "ASI_PWRLED_BRIGNT"
    case GpsSupport => "ASI_GPS_SUPPORT"
    case GpsStartLine => "ASI_GPS_START_LINE"
    case GpsEndLine => "ASI_GPS_END_LINE"
    case RollingInterval => "ASI_ROLLING_INTERVAL"
    case OtherControl(_) => UnknownControlType
  }

  /** asi_img_type_string: only the four pixel formats have a label of their own. */
  function ImgTypeLabel(t: ImgType): (name: string)
    ensures name == UnknownImgType <==> !ListedImgType(t)
  {
    match t
    case Raw8 => "ASI_IMG_RAW8"
    case Rgb24 => "ASI_IMG_RGB24"
    case Raw16 => "ASI_IMG_RAW16"
    case Y8 => "ASI_IMG_Y8"
    case _ => UnknownImgType
  }

  /**
   * The reverse reading of an error-code label: None for the fallback label and
   * any other text.  The labels are grouped by length, which keeps the
   * comparisons the verifier has to make few.
   */
  function ErrorCodeOfLabel(name: string): Option<ErrorCode> {
    match |name|
    case 11 => if name == "ASI_SUCCESS" then Some(Success) else None
    case 13 => if name == "ASI_ERROR_END" then Some(ErrorEnd) else None
    case 17 => if name == "ASI_ERROR_TIMEOUT" then Some(Timeout) else None
    case 20 => if name == "ASI_ERROR_INVALID_ID" then Some(InvalidId) else None
    case 22 =>
      if name == "ASI_ERROR_INVALID_PATH" then Some(InvalidPath)
      else if name == "ASI_ERROR_INVALID_SIZE" then Some(InvalidSize)
      else None
    case 23 =>
      if name == "ASE_ERROR_INVALID_INDEX" then Some(InvalidIndex)
      else if name == "ASI_ERROR_CAMERA_CLOSED" then Some(CameraClosed)
      else if name == "ASI_ERROR_GENERAL_ERROR" then Some(GeneralError)
      else None
    case 24 =>
      if name == "ASI_ERROR_CAMERA_REMOVED" then Some(CameraRemoved)
      else if name == "ASI_ERROR_OUTOF_BOUNDARY" then Some(OutOfBoundary)
      else None
    case 25 => if name == "ASI_ERROR_INVALID_IMGTYPE" then Some(InvalidImgType) else None
    case 26 =>
      if name == "ASI_ERROR_INVALID_SEQUENCE" then Some(InvalidSequence)
      else if name == "ASI_ERROR_BUFFER_TOO_SMALL" then Some(BufferTooSmall)
      else None
    case 27 => if name == "ASI_ERROR_VIDEO_MODE_ACTIVE" then Some(VideoModeActive) else None
    case 28 => if name == "ASI_ERROR_INVALID_FILEFORMAT" then Some(InvalidFileFormat) else None
    case 30 =>
      if name == "ASI_ERROR_INVALID_CONTROL_TYPE" then Some(InvalidControlType)
      else if name == "ASI_ERROR_EXPOSURE_IN_PROGRESS" then Some(ExposureInProgress)
      else None
    case _ => None
  }

  /** The reverse reading of a control-type label. */
  function ControlTypeOfLabel(name: string): Option<ControlType> {
    match |name|
    case 8 =>
      if name == "ASI_GAIN" then Some(Gain)
      else if name == "ASI_WB_R" then Some(WbR)
      else if name == "ASI_WB_B" then Some(WbB)
      else if name == "ASI_FLIP" then Some(Flip)
      else None
    case 9 => if name == "ASI_GAMMA" then Some(Gamma) else None
    case 10 =>
      if name == "ASI_OFFSET" then Some(Offset)
      else if name == "ASI_FAN_ON" then Some(FanOn)
      else None
    case 12 =>
      if name == "ASI_EXPOSURE" then Some(Exposure)
      else if name == "ASI_MONO_BIN" then Some(MonoBin)
      else None
    case 13 =>
      if name == "ASI_OVERCLOCK" then Some(Overclock)
      else if name == "ASI_COOLER_ON" then Some(CoolerOn)
      else None
    case 14 => if name == "ASI_FAN_ADJUST" then Some(FanAdjust) else None
    case 15 =>
      if name == "ASI_TEMPERATURE" then Some(Temperature)
      else if name == "ASI_TARGET_TEMP" then Some(TargetTemp)
      else if name == "ASI_GPS_SUPPORT" then Some(GpsSupport)
      else None
    case 16 =>
      if name == "ASI_AUTO_MAX_EXP" then Some(AutoMaxExp)
      else if name == "ASI_HARDWARE_BIN" then Some(HardwareBin)
      else if name == "ASI_GPS_END_LINE" then Some(GpsEndLine)
      else None
    case 17 =>
      if name == "ASI_AUTO_MAX_GAIN" then Some(AutoMaxGain)
      else if name == "ASI_PWRLED_BRIGNT" then Some(PwrLedBright)
      else None
    case 18 =>
      if name == "ASI_PATTERN_ADJUST" then Some(PatternAdjust)
      else if name == "ASI_GPS_START_LINE" then Some(GpsStartLine)
      else None
    case 19 =>
      if name == "ASI_HIGH_SPEED_MODE" then Some(HighSpeedMode)
      else if name == "ASI_ANTI_DEW_HEATER" then Some(AntiDewHeater)
      else None
    case 20 => if name == "ASI_ROLLING_INTERVAL" then Some(RollingInterval) else None
    case 21 =>
      if name == "ASI_BANDWIDTHOVERLOAD" then Some(BandwidthOverload)
      else if name == "ASI_COOLER_POWER_PERC" then Some(CoolerPowerPerc)
      else None
    case 26 => if name == "ASI_AUTO_TARGET_BRIGHTNESS" then Some(AutoTargetBrightness) else None
    case _ => None
  }

  /** The reverse reading of an image-type label. */
  function ImgTypeOfLabel(name: string): Option<ImgType> {
    match |name|
    case 10 => if name == "ASI_IMG_Y8" then Some(Y8) else None
    case 12 => if name == "ASI_IMG_RAW8" then Some(Raw8) else None
    case 13 =>
      if name == "ASI_IMG_RGB24" then Some(Rgb24)
      else if name == "ASI_IMG_RAW16" then Some(Raw16)
      else None
    case _ => None
  }

  /** Every listed error code is named by a label that reads back as that code; the fallback reads back as nothing. */
  lemma ErrorCodeLabelRoundTrip(e: ErrorCode)
    ensures ErrorCodeOfLabel(ErrorCodeLabel(e)) == if ListedErrorCode(e) then Some(e) else None
  {
  }

  /** Every listed control type is named by a label that reads back as that type. */
  lemma ControlTypeLabelRoundTrip(c: ControlType)
    ensures ControlTypeOfLabel(ControlTypeLabel(c)) == if ListedControlType(c) then Some(c) else None
  {
    match c {
      case Gain =>
      case Exposure =>
      case Gamma =>
      case WbR =>
      case WbB =>
      case Offset =>
      case BandwidthOverload =>
      case Overclock =>
      case Temperature =>
      case Flip =>
      case AutoMaxGain =>
      case AutoMaxExp =>
      case AutoTargetBrightness =>
      case HardwareBin =>
      case HighSpeedMode =>
      case CoolerPowerPerc =>
      case TargetTemp =>
      case CoolerOn =>
      case MonoBin =>
      case FanOn =>
      case PatternAdjust =>
      case AntiDewHeater =>
      case FanAdjust =>
      case PwrLedBright =>
      case GpsSupport =>
      case GpsStartLine =>
      case GpsEndLine =>
      case RollingInterval =>
      case OtherControl(_) =>
    }
  }

  /** Every listed image type is named by a label that reads back as that type. */
  lemma ImgTypeLabelRoundTrip(t: ImgType)
    ensures ImgTypeOfLabel(ImgTypeLabel(t)) == if ListedImgType(t) then Some(t) else None
  {
  }

  /** Distinct listed codes get distinct labels. */
  lemma ErrorCodeLabelsDistinct(a: ErrorCode, b: ErrorCode)
    requires ListedErrorCode(a) && ListedErrorCode(b) && a != b
    ensures ErrorCodeLabel(a) != ErrorCodeLabel(b)
  {
    ErrorCodeLabelRoundTrip(a);
    ErrorCodeLabelRoundTrip(b);
  }

  /** Distinct listed control types get distinct labels. */
  lemma ControlTypeLabelsDistinct(a: ControlType, b: ControlType)
    requires ListedControlType(a) && ListedControlType(b) && a != b
    ensures ControlTypeLabel(a) != ControlTypeLabel(b)
  {
    ControlTypeLabelRoundTrip(a);
    ControlTypeLabelRoundTrip(b);
  }

  /** Distinct listed image types get distinct labels. */
  lemma ImgTypeLabelsDistinct(a: ImgType, b: ImgType)
    requires ListedImgType(a) && ListedImgType(b) && a != b
    ensures ImgTypeLabel(a) != ImgTypeLabel(b)
  {
    ImgTypeLabelRoundTrip(a);
    ImgTypeLabelRoundTrip(b);
  }
}
