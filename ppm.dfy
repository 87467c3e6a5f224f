/**
 * The binary portable pixmap ("P6") writer save_rgb24_to_ppm
 * (picapture.c:29-59), and a reader of the same format that the writer's
 * output is proved to round-trip through.
 */
module Ppm {
  import opened Wrappers
  import opened Platform
  import opened Decimal

  const SP: byte := 32
  const LF: byte := 10

  /** The bytes of a text whose characters all fit in a byte. */
  function Ascii(s: string): (b: seq<byte>)
    requires forall i :: 0 <= i < |s| ==> s[i] as int < 256
    ensures |b| == |s| && forall i :: 0 <= i < |s| ==> b[i] == s[i] as int
  {
    seq(|s|, i requires 0 <= i < |s| => s[i] as int)
  }

  /** The text of a sequence of bytes, one character per byte. */
  function Text(b: seq<byte>): (s: string)
    ensures |s| == |b| && forall i :: 0 <= i < |b| ==> s[i] as int == b[i]
  {
    seq(|b|, i requires 0 <= i < |b| => b[i] as char)
  }

  /** The bytes "%d" writes for n. */
  function DecimalBytes(n: int): seq<byte> {
    Ascii(IntToDecimal(n))
  }

  const Magic: seq<byte> := [80, 54, 10]       // "P6\n"
  const Maxval: seq<byte> := [50, 53, 53, 10]  // "255\n"

  /** What fprintf(output, "P6\n%d %d\n255\n", width, height) writes. */
  function Header(width: int, height: int): seq<byte> {
    Magic + DecimalBytes(width) + [SP] + DecimalBytes(height) + [LF] + Maxval
  }

  /** The header, read as text, is the line fprintf formats: "P6", the width and height in decimal, and 255. */
  lemma HeaderText(width: int, height: int)
    ensures Text(Header(width, height)) == "P6\n" + IntToDecimal(width) + " " + IntToDecimal(height) + "\n255\n"
  {
    var w := IntToDecimal(width);
    var h := IntToDecimal(height);
    var text := "P6\n" + w + " " + h + "\n255\n";
    var bytes := Header(width, height);
    assert bytes == Magic + Ascii(w) + [SP] + Ascii(h) + [LF] + Maxval;
    assert |bytes| == |text|;
    forall k | 0 <= k < |text|
      ensures Text(bytes)[k] == text[k]
    {
      if k < 3 {
      } else if k < 3 + |w| {
        assert bytes[k] == Ascii(w)[k - 3];
        assert text[k] == w[k - 3];
      } else if k == 3 + |w| {
      } else if k < 4 + |w| + |h| {
        assert bytes[k] == Ascii(h)[k - 4 - |w|];
        assert text[k] == h[k - 4 - |w|];
      } else {
      }
    }
  }

  /** The number of pixels the row and column loops visit: none when either bound is not positive. */
  function PixelCount(width: int, height: int): nat {
    if width > 0 && height > 0 then width * height else 0
  }

  /** The file the writer produces: the header, then the first 3 * width * height bytes of the buffer. */
  function PpmImage(width: int, height: int, pixels: seq<byte>): seq<byte>
    requires 3 * PixelCount(width, height) <= |pixels|
  {
    Header(width, height) + pixels[..3 * PixelCount(width, height)]
  }

  /** Rows before row i + 1 end no later than the last row does. */
  lemma RowBound(i: nat, rows: nat, cols: nat)
    requires i < rows
    ensures (i + 1) * cols == i * cols + cols
    ensures i * cols + cols <= rows * cols
  {
    var k := rows - (i + 1);
    assert rows * cols == (i + 1) * cols + k * cols;
  }

  /**
   * The row and column loops of save_rgb24_to_ppm: three bytes per pixel,
   * row by row and column by column, taken from the buffer in order.
   */
  method PixelBytes(width: int, height: int, data: array<byte>) returns (body: seq<byte>)
    requires 3 * PixelCount(width, height) <= data.Length
    ensures body == data[..3 * PixelCount(width, height)]
  {
    ghost var pixels := data[..];
    ghost var cols: nat := if width > 0 then width else 0;
    ghost var rows: nat := if height > 0 then height else 0;
    assert PixelCount(width, height) == rows * cols;
    body := [];
    var buffer := 0;
    var i := 0;
    while i < height
      invariant 0 <= i <= rows
      invariant buffer == 3 * (i * cols)
      invariant body == pixels[..buffer]
    {
      RowBound(i, rows, cols);
      var j := 0;
      while j < width
        invariant 0 <= j <= cols
        invariant buffer == 3 * (i * cols) + 3 * j
        invariant body == pixels[..buffer]
      {
        var color := [data[buffer], data[buffer + 1], data[buffer + 2]];
        assert pixels[..buffer + 3] == pixels[..buffer] + color;
        buffer := buffer + 3;
        body := body + color;
        j := j + 1;
      }
      i := i + 1;
    }
  }

  /**
   * save_rgb24_to_ppm: when the file cannot be opened it fails and writes
   * nothing; otherwise the file holds the header and then the pixel bytes.
   * canOpen stands for the outcome of fopen(file, "wb").
   */
  method SaveRgb24ToPpm(width: int, height: int, data: array<byte>, canOpen: bool)
    returns (rc: int, written: Option<seq<byte>>)
    requires 3 * PixelCount(width, height) <= data.Length
    ensures canOpen ==> rc == EXIT_SUCCESS && written == Some(PpmImage(width, height, data[..]))
    ensures !canOpen ==> rc == EXIT_FAILURE && written == None
  {
    if !canOpen {
      return EXIT_FAILURE, None;
    }
    var output := Header(width, height);
    var body := PixelBytes(width, height, data);
    output := output + body;
    return EXIT_SUCCESS, Some(output);
  }

  /** Pixel (row, col) is the (row * width + col)-th of the picture's pixels. */
  lemma PixelIndexBound(width: nat, height: nat, row: nat, col: nat)
    requires row < height && col < width
    ensures row * width + col < PixelCount(width, height)
  {
    RowBound(row, height, width);
  }

  /** Byte at of the picture follows the header, unchanged. */
  lemma ImageByte(width: int, height: int, pixels: seq<byte>, at: nat)
    requires 3 * PixelCount(width, height) <= |pixels|
    requires at < 3 * PixelCount(width, height)
    ensures PpmImage(width, height, pixels)[|Header(width, height)| + at] == pixels[at]
  {
    var n := 3 * PixelCount(width, height);
    var header := Header(width, height);
    assert (header + pixels[..n])[|header| + at] == pixels[..n][at];
  }

  /** Where byte k of pixel (row, col) sits among the picture's bytes: rows one after the other, three bytes per pixel. */
  function PixelOffset(width: nat, height: nat, row: nat, col: nat, k: nat): (at: nat)
    requires row < height && col < width && k < 3
    ensures at < 3 * PixelCount(width, height)
  {
    PixelIndexBound(width, height, row, col);
    3 * (row * width + col) + k
  }

  /** Byte k of pixel (row, col) sits PixelOffset bytes after the header: row-major, no reordering. */
  lemma PixelAt(width: nat, height: nat, pixels: seq<byte>, row: nat, col: nat, k: nat)
    requires 3 * PixelCount(width, height) <= |pixels|
    requires row < height && col < width && k < 3
    ensures PpmImage(width, height, pixels)[|Header(width, height)| + PixelOffset(width, height, row, col, k)]
      == pixels[PixelOffset(width, height, row, col, k)]
  {
    ImageByte(width, height, pixels, PixelOffset(width, height, row, col, k));
  }

  /** The image a well-formed P6 file describes. */
  datatype Image = Image(width: nat, height: nat, pixels: seq<byte>)

  /** The position of the first b in s, or |s| when there is none. */
  function FirstIndexOf(s: seq<byte>, b: byte): (i: nat)
    ensures i <= |s|
    ensures forall k :: 0 <= k < i ==> s[k] != b
    ensures i < |s| ==> s[i] == b
  {
    if s == [] then 0 else if s[0] == b then 0 else 1 + FirstIndexOf(s[1..], b)
  }

  /** A canonical decimal field ended by sep: its value and the bytes after the separator. */
  function ParseFieldUntil(s: seq<byte>, sep: byte): Option<(nat, seq<byte>)> {
    var i := FirstIndexOf(s, sep);
    if i == |s| then None
    else
      var t := Text(s[..i]);
      if IsCanonicalNat(t) then Some((DigitsValue(t), s[i + 1..])) else None
  }

  /** Reads a P6 file with a maxval of 255 whose header is laid out as the writer lays it out. */
  function ParsePpm(file: seq<byte>): Option<Image> {
    if |file| < 3 || file[..3] != Magic then None else ParseDimensions(file[3..])
  }

  /** The width field, ended by a space. */
  function ParseDimensions(s: seq<byte>): Option<Image> {
    match ParseFieldUntil(s, SP)
    case None => None
    case Some((width, rest)) => ParseHeight(width, rest)
  }

  /** The height field, ended by a newline. */
  function ParseHeight(width: nat, s: seq<byte>): Option<Image> {
    match ParseFieldUntil(s, LF)
    case None => None
    case Some((height, rest)) => ParsePixels(width, height, rest)
  }

  /** The maxval line, then exactly three bytes per pixel. */
  function ParsePixels(width: nat, height: nat, s: seq<byte>): Option<Image> {
    if |s| < 4 || s[..4] != Maxval then None
    else if |s| - 4 != 3 * (width * height) then None
    else Some(Image(width, height, s[4..]))
  }

  /** In "field, separator, rest", the first separator is the one right after the field. */
  lemma FirstIndexAfterField(field: seq<byte>, b: byte, rest: seq<byte>)
    requires b !in field
    ensures FirstIndexOf(field + [b] + rest, b) == |field|
  {
    var s := field + [b] + rest;
    assert forall k :: 0 <= k < |field| ==> s[k] == field[k];
    assert s[|field|] == b;
  }

  /** The "%d" digits of a natural number, then a separator, read back as that number and what follows. */
  lemma FieldRoundTrip(n: nat, sep: byte, rest: seq<byte>)
    requires sep == SP || sep == LF
    ensures ParseFieldUntil(Ascii(NatDigits(n)) + [sep] + rest, sep) == Some((n, rest))
  {
    var d := Ascii(NatDigits(n));
    var s := d + [sep] + rest;
    FirstIndexAfterField(d, sep, rest);
    assert s[..|d|] == d;
    assert Text(d) == NatDigits(n);
    assert s[|d| + 1..] == rest;
    NatDigitsValue(n);
  }

  /** The header followed by the pixel bytes, regrouped field by field. */
  lemma HeaderFields(width: nat, height: nat, body: seq<byte>)
    ensures Header(width, height) + body
         == Magic + (Ascii(NatDigits(width)) + [SP] + (Ascii(NatDigits(height)) + [LF] + (Maxval + body)))
  {
    var w := Ascii(NatDigits(width));
    var h := Ascii(NatDigits(height));
    assert DecimalBytes(width) == w && DecimalBytes(height) == h;
    assert Header(width, height) + body == Magic + (w + [SP] + (h + [LF] + (Maxval + body)));
  }

  lemma PixelsLayout(width: nat, height: nat, body: seq<byte>)
    requires |body| == 3 * (width * height)
    ensures ParsePixels(width, height, Maxval + body) == Some(Image(width, height, body))
  {
    assert (Maxval + body)[..4] == Maxval;
    assert (Maxval + body)[4..] == body;
  }

  /** Reading what the writer writes gives back the dimensions and the pixel bytes it wrote. */
  lemma PpmRoundTrip(width: nat, height: nat, pixels: seq<byte>)
    requires 3 * PixelCount(width, height) <= |pixels|
    ensures ParsePpm(PpmImage(width, height, pixels))
         == Some(Image(width, height, pixels[..3 * PixelCount(width, height)]))
  {
    var body := pixels[..3 * PixelCount(width, height)];
    assert PixelCount(width, height) == width * height;
    var afterHeight := Maxval + body;
    var afterWidth := Ascii(NatDigits(height)) + [LF] + afterHeight;
    var afterMagic := Ascii(NatDigits(width)) + [SP] + afterWidth;
    HeaderFields(width, height, body);
    assert PpmImage(width, height, pixels) == Magic + afterMagic;
    assert (Magic + afterMagic)[..3] == Magic;
    assert (Magic + afterMagic)[3..] == afterMagic;
    FieldRoundTrip(width, SP, afterWidth);
    FieldRoundTrip(height, LF, afterHeight);
    PixelsLayout(width, height, body);
  }
}
