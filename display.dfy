/**
 * The two listing loops of display_camera_info (picapture.c:228-256, copied
 * in info/info.c:126-154): the supported bins and the supported video modes,
 * each read from a fixed-size table up to its end marker.
 */
module Display {
  import opened AsiLabels
  import opened Decimal
  import opened Sdk

  const BinsPrefix: string := "   Supported Bins: "
  const ModesPrefix: string := "   Supported Video Modes: "

  /** The length of the leading run of non-zero entries: the bins the camera supports. */
  function BinCount(bins: seq<int>): (n: nat)
    ensures n <= |bins|
    ensures forall k :: 0 <= k < n ==> bins[k] != 0
    ensures n < |bins| ==> bins[n] == 0
  {
    if bins == [] || bins[0] == 0 then 0 else 1 + BinCount(bins[1..])
  }

  /** "Bin1 Bin2 … Bink ": one word per supported bin, numbered from 1. */
  function BinWords(k: nat): string {
    if k == 0 then "" else BinWords(k - 1) + "Bin" + NatDigits(k) + " "
  }

  /** The number of formats before the first ASI_IMG_END: the video modes the camera supports. */
  function ModeCount(formats: seq<ImgType>): (n: nat)
    ensures n <= |formats|
    ensures forall k :: 0 <= k < n ==> formats[k] != ImgEnd
    ensures n < |formats| ==> formats[n] == ImgEnd
  {
    if formats == [] || formats[0] == ImgEnd then 0 else 1 + ModeCount(formats[1..])
  }

  /** The labels of the first k formats, each followed by a space. */
  function ModeWords(formats: seq<ImgType>, k: nat): string
    requires k <= |formats|
  {
    if k == 0 then "" else ModeWords(formats, k - 1) + ImgTypeLabel(formats[k - 1]) + " "
  }

  /**
   * The supported-bins line: a word "Bin<i+1>" for each entry i of the table
   * until the first zero entry, all 16 when there is none.
   */
  method SupportedBinsLine(info: CameraInfo) returns (line: string)
    ensures line == BinsPrefix + BinWords(BinCount(info.supportedBins)) + "\n"
  {
    var words := "";
    var i := 0;
    while i < 16
      invariant 0 <= i <= 16
      invariant i <= BinCount(info.supportedBins)
      invariant words == BinWords(i)
    {
      var binSupported := info.supportedBins[i];
      if binSupported == 0 {
        break;
      }
      words := words + "Bin" + IntToDecimal(i + 1) + " ";
      i := i + 1;
    }
    line := BinsPrefix + words + "\n";
  }

  /**
   * The supported-video-modes line: the label of each format of the table
   * until the first ASI_IMG_END, all 8 when there is none.
   */
  method SupportedModesLine(info: CameraInfo) returns (line: string)
    ensures line == ModesPrefix + ModeWords(info.supportedVideoFormat, ModeCount(info.supportedVideoFormat)) + "\n"
  {
    var formats := info.supportedVideoFormat;
    var words := "";
    var i := 0;
    while i < 8 && formats[i] != ImgEnd
      invariant 0 <= i <= 8
      invariant i <= ModeCount(formats)
      invariant words == ModeWords(formats, i)
    {
      assert i != ModeCount(formats) by {
        assert formats[i] != ImgEnd;
      }
      var name := ImgTypeLabel(formats[i]);
      words := words + name + " ";
      i := i + 1;
    }
    line := ModesPrefix + words + "\n";
  }

  /** The two listing lines display_camera_info prints for a camera, in order. */
  function Listing(info: CameraInfo): seq<string> {
    [ BinsPrefix + BinWords(BinCount(info.supportedBins)) + "\n",
      ModesPrefix + ModeWords(info.supportedVideoFormat, ModeCount(info.supportedVideoFormat)) + "\n" ]
  }

  /** display_camera_info's listing loops, one after the other. */
  method DisplayCameraInfo(info: CameraInfo) returns (lines: seq<string>)
    ensures lines == Listing(info)
  {
    var bins := SupportedBinsLine(info);
    var modes := SupportedModesLine(info);
    lines := [bins, modes];
  }
}
