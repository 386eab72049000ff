/**
 * `Util.getImage`: turns the module matrix of a QR code into an ARGB image
 * of the same size, one pixel per module, dark modules in the dark colour
 * and light ones in the light colour. The image is an `array2<int>` indexed
 * `[x, y]`, as `BufferedImage.getRGB(x, y)` reads it; its pixels start at 0
 * (transparent black), as a new `TYPE_INT_ARGB` image's do.
 */
module CodeImage {
  import opened Wrappers

  const INT_RANGE: int := 0x1_0000_0000

  /** A colour component, 0..255. */
  type Channel = c: int | 0 <= c < 256

  /** A `java.awt.Color`. */
  datatype Color = Color(red: Channel, green: Channel, blue: Channel, alpha: Channel)

  /** `Color.white` and `Color.black`, both opaque. */
  const WHITE: Color := Color(255, 255, 255, 255)
  const BLACK: Color := Color(0, 0, 0, 255)

  /** The 32 bits of `Color.getRGB`, unsigned: alpha, red, green, blue, from the top byte down. */
  function PackedArgb(c: Color): (bits: int)
    ensures 0 <= bits < INT_RANGE
  {
    ((c.alpha * 256 + c.red) * 256 + c.green) * 256 + c.blue
  }

  /** `Color.getRGB`: the packed ARGB bits as Java's signed 32-bit `int`. */
  function GetRGB(c: Color): int {
    var bits := PackedArgb(c);
    if bits >= INT_RANGE / 2 then bits - INT_RANGE else bits
  }

  lemma {:induction false} PackDigit(high: int, low: int, high': int, low': int)
    requires 0 <= low < 256 && 0 <= low' < 256
    requires high * 256 + low == high' * 256 + low'
    ensures high == high' && low == low'
  {
    var k := high - high';
    assert k * 256 == low' - low;
  }

  /** `getRGB` tells colours apart: two colours with the same `int` are the same colour. */
  lemma GetRGBInjective(c: Color, d: Color)
    requires GetRGB(c) == GetRGB(d)
    ensures c == d
  {
    assert PackedArgb(c) == PackedArgb(d);
    PackDigit(((c.alpha * 256 + c.red) * 256 + c.green), c.blue, ((d.alpha * 256 + d.red) * 256 + d.green), d.blue);
    PackDigit(c.alpha * 256 + c.red, c.green, d.alpha * 256 + d.red, d.green);
    PackDigit(c.alpha, c.red, d.alpha, d.red);
  }

  /** `getRGB` of the default colours: white is all ones (-1), black is opaque alpha over zeros. */
  lemma DefaultColours()
    ensures GetRGB(WHITE) == -1
    ensures GetRGB(BLACK) == -0x100_0000
  {
  }

  /** A QR code's module matrix, `modules[y][x]`, `size` modules a side. */
  datatype QrCode = QrCode(size: nat, modules: seq<seq<bool>>) {
    predicate Square() {
      |modules| == size && forall y :: 0 <= y < size ==> |modules[y]| == size
    }

    /** `QrCode.getModule(x, y)`: whether the module is dark; false outside the matrix. */
    function GetModule(x: int, y: int): bool
      requires Square()
    {
      0 <= x < size && 0 <= y < size && modules[y][x]
    }
  }

  /** A QR code of version 1 to 40: a square matrix of 21 to 177 modules a side, in steps of 4. */
  type Code = q: QrCode | q.Square() && 21 <= q.size <= 177 && (q.size - 21) % 4 == 0
    witness QrCode(21, seq(21, y => seq(21, x => false)))

  /** The colour `getImage` draws with: the one given, or the default when it is null. */
  function Chosen(colour: Option<Color>, default: Color): Color {
    if colour.None? then default else colour.value
  }

  /** The value `getImage` gives the pixel of module (x, y). */
  function PixelOf(qr: Code, light: Color, dark: Color, x: int, y: int): int {
    if qr.GetModule(x, y) then GetRGB(dark) else GetRGB(light)
  }

  /** `BufferedImage.setRGB(0, y, width, 1, line, 0, width)`: row y becomes `line`, the other rows stay. */
  method SetRow(image: array2<int>, y: int, line: array<int>)
    requires 0 <= y < image.Length1 && line.Length == image.Length0
    modifies image
    ensures forall x :: 0 <= x < image.Length0 ==> image[x, y] == line[x]
    ensures forall x, y' :: 0 <= x < image.Length0 && 0 <= y' < image.Length1 && y' != y ==>
              image[x, y'] == old(image[x, y'])
  {
    var x := 0;
    while x < line.Length
      invariant 0 <= x <= line.Length
      invariant forall i :: 0 <= i < x ==> image[i, y] == line[i]
      invariant forall i, y' :: 0 <= i < image.Length0 && 0 <= y' < image.Length1 && y' != y ==>
                  image[i, y'] == old(image[i, y'])
    {
      image[x, y] := line[x];
      x := x + 1;
    }
  }

  /**
   * `Util.getImage(qrCode, light, dark)`: a `size` by `size` image whose
   * pixel (x, y) is the dark colour's `int` where module (x, y) is dark and
   * the light colour's elsewhere; a null light colour is white and a null
   * dark colour is black. When the two colours differ, a pixel has the dark
   * colour exactly when its module is dark, and every pixel has one of the
   * two colours.
   */
  method GetImage(qr: Code, light: Option<Color>, dark: Option<Color>) returns (image: array2<int>)
    ensures fresh(image)
    ensures image.Length0 == qr.size && image.Length1 == qr.size
    ensures forall x, y :: 0 <= x < qr.size && 0 <= y < qr.size ==>
              image[x, y] == PixelOf(qr, Chosen(light, WHITE), Chosen(dark, BLACK), x, y)
    ensures forall x, y :: 0 <= x < qr.size && 0 <= y < qr.size ==>
              image[x, y] in {GetRGB(Chosen(light, WHITE)), GetRGB(Chosen(dark, BLACK))}
    ensures Chosen(light, WHITE) != Chosen(dark, BLACK) ==>
              forall x, y :: 0 <= x < qr.size && 0 <= y < qr.size ==>
                (image[x, y] == GetRGB(Chosen(dark, BLACK)) <==> qr.GetModule(x, y))
  {
    var lightColour := if light.None? then WHITE else light.value;
    var darkColour := if dark.None? then BLACK else dark.value;
    var size := qr.size;
    var cl := GetRGB(lightColour);
    var cd := GetRGB(darkColour);
    image := new int[size, size]((x, y) => 0);
    var line := new int[size];

    var y := 0;
    while y < size
      invariant 0 <= y <= size
      invariant forall x, y' :: 0 <= x < size && 0 <= y' < y ==> image[x, y'] == PixelOf(qr, lightColour, darkColour, x, y')
      invariant forall x, y' :: 0 <= x < size && y <= y' < size ==> image[x, y'] == 0
    {
      var x := 0;
      while x < size
        invariant 0 <= x <= size
        invariant forall i :: 0 <= i < x ==> line[i] == PixelOf(qr, lightColour, darkColour, i, y)
        modifies line
      {
        line[x] := if qr.GetModule(x, y) then cd else cl;
        x := x + 1;
      }
      SetRow(image, y, line);
      y := y + 1;
    }

    if lightColour != darkColour {
      if cl == cd {
        GetRGBInjective(lightColour, darkColour);
      }
    }
  }
}
