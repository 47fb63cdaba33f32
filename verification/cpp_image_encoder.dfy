/**
 * `IImageEncoder`'s static helpers and the integer geometry of
 * `OpenCVImageEncoder`: which extension and encoder parameters an image
 * type gets, how a rotation angle is normalised and which exact quarter
 * turn it selects, which flip code the two flip flags give, how a crop
 * rectangle is clamped to the picture, and how padding borders centre a
 * picture in its target size. A picture is a rectangular grid of pixels,
 * row by row. Resampling (`cv::resize`), rotation by other angles
 * (`cv::warpAffine`), colour conversion and the encoders themselves are
 * OpenCV's: where the code hands a picture to one of them, the result is a
 * parameter.
 */
module CppImageEncoder {
  import opened Common
  import opened CppTypes
  import opened CppImgHelper
  import opened CppRawCanvas

  /** `imgTypeToExt`: each type's own extension, and ".jpg" for `RAW`. */
  function ImgTypeToExt(t: ImgType): (ext: string)
    ensures ext == ".png" <==> t == PNG
    ensures ext == ".bmp" <==> t == BMP
    ensures ext == ".webp" <==> t == WEBP
    ensures ext == ".jpg" <==> t == JPG || t == RAW
  {
    match t
    case JPG => ".jpg"
    case PNG => ".png"
    case BMP => ".bmp"
    case WEBP => ".webp"
    case RAW => ".jpg"
  }

  /** Two types share an extension only when they are `JPG` and `RAW`. */
  lemma ExtensionShared(a: ImgType, b: ImgType)
    requires a != b && ImgTypeToExt(a) == ImgTypeToExt(b)
    ensures {a, b} == {JPG, RAW}
  {
  }

  /** `supportsAlpha`: only PNG and WEBP keep an alpha channel. */
  function SupportsAlpha(t: ImgType): (b: bool)
    ensures b <==> t == PNG || t == WEBP
  {
    t == PNG || t == WEBP
  }

  /** The OpenCV write flags `imgEncodeParams` uses. */
  datatype EncodeFlag = JpegQuality | PngCompression | WebpQuality

  /** `imgEncodeParams`: the quality for JPEG and WEBP, compression level 3 for PNG, nothing otherwise. */
  function ImgEncodeParams(t: ImgType, quality: int): (p: seq<(EncodeFlag, int)>)
    ensures p == [] <==> t == RAW || t == BMP
    ensures t == JPG ==> p == [(JpegQuality, quality)]
    ensures t == PNG ==> p == [(PngCompression, 3)]
    ensures t == WEBP ==> p == [(WebpQuality, quality)]
  {
    match t
    case JPG => [(JpegQuality, quality)]
    case PNG => [(PngCompression, 3)]
    case WEBP => [(WebpQuality, quality)]
    case _ => []
  }

  /** The quality reaches the encoder exactly for the lossy types. */
  lemma QualityOnlyForLossy(t: ImgType, q1: int, q2: int)
    requires q1 != q2
    ensures ImgEncodeParams(t, q1) != ImgEncodeParams(t, q2) <==> t == JPG || t == WEBP
  {
  }

  /** C++ `%` by 360 on `int`: the remainder takes the sign of the dividend. */
  function TruncatingRemainder360(a: int): (r: int)
    ensures -360 < r < 360
    ensures a >= 0 ==> r >= 0
    ensures a <= 0 ==> r <= 0
    ensures (a - r) % 360 == 0
  {
    if a >= 0 then a % 360 else -((-a) % 360)
  }

  /** The angle normalisation of `rotate`: the remainder by 360, moved up by 360 when negative. */
  function NormalizeAngle(angle: int): (r: int)
    ensures 0 <= r < 360
    ensures (angle - r) % 360 == 0
  {
    var a := TruncatingRemainder360(angle);
    if a < 0 then a + 360 else a
  }

  /** The normalised angle is the one angle in [0, 360) that is congruent to the given one. */
  lemma NormalizeAngleUnique(angle: int, r: int)
    requires 0 <= r < 360 && (angle - r) % 360 == 0
    ensures NormalizeAngle(angle) == r
  {
    var n := NormalizeAngle(angle);
    var k := (angle - r) / 360;
    var l := (angle - n) / 360;
    assert angle - r == 360 * k;
    assert angle - n == 360 * l;
    assert n - r == 360 * (k - l);
  }

  /** `static_cast<int>` of the `double` angle: its integer part, truncated toward zero. */
  function TruncateToInt(a: real): (r: int)
    ensures 0.0 <= a ==> 0 <= r && r as real <= a < r as real + 1.0
    ensures a < 0.0 ==> r <= 0 && r as real - 1.0 < a <= r as real
  {
    if a >= 0.0 then a.Floor else -((-a).Floor)
  }

  /** Truncation comes before the 90/180/270 test, so fractional angles such as 90.5 and -90.9 still select an exact turn. */
  lemma FractionalAnglesTruncate()
    ensures NormalizeAngle(TruncateToInt(90.5)) == 90
    ensures NormalizeAngle(TruncateToInt(-90.9)) == 270
    ensures NormalizeAngle(TruncateToInt(-0.5)) == 0
  {
    assert TruncateToInt(90.5) == 90;
    assert TruncateToInt(-90.9) == -90;
    assert TruncateToInt(-0.5) == 0;
  }

  /** A picture: rows of pixels. */
  type Mat<T> = seq<seq<T>>

  function Cols<T>(m: Mat<T>): nat
  {
    if |m| == 0 then 0 else |m[0]|
  }

  /** Every row as long as the first. */
  predicate IsMat<T>(m: Mat<T>)
  {
    forall i | 0 <= i < |m| :: |m[i]| == Cols(m)
  }

  /** `mat.empty()`: no pixel at all. */
  predicate Empty<T>(m: Mat<T>)
  {
    |m| == 0 || Cols(m) == 0
  }

  /** `ROTATE_90_CLOCKWISE`: column i, read bottom up, becomes row i. */
  function RotateClockwise<T>(m: Mat<T>): (r: Mat<T>)
    requires IsMat(m) && !Empty(m)
    ensures IsMat(r) && !Empty(r) && |r| == Cols(m) && Cols(r) == |m|
    ensures forall i, j | 0 <= i < |r| && 0 <= j < |m| :: r[i][j] == m[|m| - 1 - j][i]
  {
    seq(Cols(m), i requires 0 <= i < Cols(m) => seq(|m|, j requires 0 <= j < |m| => m[|m| - 1 - j][i]))
  }

  /** `ROTATE_90_COUNTERCLOCKWISE`: column i from the right, read top down, becomes row i. */
  function RotateCounterClockwise<T>(m: Mat<T>): (r: Mat<T>)
    requires IsMat(m) && !Empty(m)
    ensures IsMat(r) && !Empty(r) && |r| == Cols(m) && Cols(r) == |m|
    ensures forall i, j | 0 <= i < |r| && 0 <= j < |m| :: r[i][j] == m[j][Cols(m) - 1 - i]
  {
    seq(Cols(m), i requires 0 <= i < Cols(m) => seq(|m|, j requires 0 <= j < |m| => m[j][Cols(m) - 1 - i]))
  }

  /** `ROTATE_180`: the pixel opposite through the centre. */
  function Rotate180<T>(m: Mat<T>): (r: Mat<T>)
    requires IsMat(m) && !Empty(m)
    ensures IsMat(r) && !Empty(r) && |r| == |m| && Cols(r) == Cols(m)
    ensures forall i, j | 0 <= i < |m| && 0 <= j < Cols(m) :: r[i][j] == m[|m| - 1 - i][Cols(m) - 1 - j]
  {
    seq(|m|, i requires 0 <= i < |m| => seq(Cols(m), j requires 0 <= j < Cols(m) => m[|m| - 1 - i][Cols(m) - 1 - j]))
  }

  /** A quarter turn one way undoes a quarter turn the other way. */
  lemma QuarterTurnsCancel<T>(m: Mat<T>)
    requires IsMat(m) && !Empty(m)
    ensures RotateCounterClockwise(RotateClockwise(m)) == m
    ensures RotateClockwise(RotateCounterClockwise(m)) == m
  {
    var a := RotateCounterClockwise(RotateClockwise(m));
    assert |a| == |m|;
    forall i | 0 <= i < |m|
      ensures a[i] == m[i]
    {
      assert |a[i]| == |m[i]|;
    }
    var b := RotateClockwise(RotateCounterClockwise(m));
    assert |b| == |m|;
    forall i | 0 <= i < |m|
      ensures b[i] == m[i]
    {
      assert |b[i]| == |m[i]|;
    }
  }

  /** Two clockwise quarter turns make the half turn. */
  lemma TwoQuartersMakeHalf<T>(m: Mat<T>)
    requires IsMat(m) && !Empty(m)
    ensures RotateClockwise(RotateClockwise(m)) == Rotate180(m)
  {
    var a := RotateClockwise(RotateClockwise(m));
    var b := Rotate180(m);
    forall i | 0 <= i < |m|
      ensures a[i] == b[i]
    {
      assert |a[i]| == |b[i]|;
    }
  }

  /**
   * `rotate`: an empty picture stays; a normalised angle of 90, 180 or 270
   * is the exact quarter or half turn; any other angle, 0 included, goes to
   * `warpAffine`, whose same-sized result is `warped`.
   */
  function Rotate<T>(m: Mat<T>, angle: int, warped: Mat<T>): (r: Mat<T>)
    requires IsMat(m)
    requires IsMat(warped) && |warped| == |m| && Cols(warped) == Cols(m)
    ensures IsMat(r)
    ensures Empty(m) ==> r == m
    ensures !Empty(m) && NormalizeAngle(angle) == 90 ==> r == RotateClockwise(m)
    ensures !Empty(m) && NormalizeAngle(angle) == 180 ==> r == Rotate180(m)
    ensures !Empty(m) && NormalizeAngle(angle) == 270 ==> r == RotateCounterClockwise(m)
    ensures !Empty(m) && NormalizeAngle(angle) !in {90, 180, 270} ==> r == warped
  {
    if Empty(m) then m
    else
      var a := NormalizeAngle(angle);
      if a == 90 then RotateClockwise(m)
      else if a == 180 then Rotate180(m)
      else if a == 270 then RotateCounterClockwise(m)
      else warped
  }

  /** Any angle congruent to 90 (such as -270 or 450) is the clockwise quarter turn, and likewise for 180 and 270. */
  lemma RotateByCongruentAngle<T>(m: Mat<T>, angle: int, warped: Mat<T>)
    requires IsMat(m) && !Empty(m)
    requires IsMat(warped) && |warped| == |m| && Cols(warped) == Cols(m)
    ensures angle % 360 == 90 ==> Rotate(m, angle, warped) == RotateClockwise(m)
    ensures angle % 360 == 180 ==> Rotate(m, angle, warped) == Rotate180(m)
    ensures angle % 360 == 270 ==> Rotate(m, angle, warped) == RotateCounterClockwise(m)
  {
    NormalizeAngleUnique(angle, angle % 360);
  }

  /** The flip code `flip` hands to `cv::flip`: -1 for both flags, 1 for horizontal, 0 for vertical, none without flags. */
  function FlipCode(hflip: bool, vflip: bool): (c: Option<int>)
    ensures c.None? <==> !hflip && !vflip
    ensures c == Some(-1) <==> hflip && vflip
    ensures c == Some(1) <==> hflip && !vflip
    ensures c == Some(0) <==> !hflip && vflip
  {
    if !hflip && !vflip then None
    else if hflip && vflip then Some(-1)
    else if hflip then Some(1)
    else Some(0)
  }

  /** The rows in reverse order: the mirror image top to bottom. */
  function FlipRows<T>(m: Mat<T>): (r: Mat<T>)
    requires IsMat(m)
    ensures IsMat(r) && |r| == |m| && Cols(r) == Cols(m)
    ensures forall i | 0 <= i < |m| :: r[i] == m[|m| - 1 - i]
  {
    seq(|m|, i requires 0 <= i < |m| => m[|m| - 1 - i])
  }

  /** Each row reversed: the mirror image left to right. */
  function FlipCols<T>(m: Mat<T>): (r: Mat<T>)
    requires IsMat(m)
    ensures IsMat(r) && |r| == |m| && Cols(r) == Cols(m)
    ensures forall i, j | 0 <= i < |m| && 0 <= j < Cols(m) :: r[i][j] == m[i][Cols(m) - 1 - j]
  {
    var r := seq(|m|, i requires 0 <= i < |m| => seq(Cols(m), j requires 0 <= j < Cols(m) => m[i][Cols(m) - 1 - j]));
    assert forall i | 0 <= i < |r| :: |r[i]| == Cols(m);
    r
  }

  /** `cv::flip`: code 0 mirrors top to bottom, a positive code left to right, a negative one both. */
  function CvFlip<T>(m: Mat<T>, code: int): (r: Mat<T>)
    requires IsMat(m)
    ensures IsMat(r) && |r| == |m| && Cols(r) == Cols(m)
    ensures code == 0 ==> r == FlipRows(m)
    ensures code > 0 ==> r == FlipCols(m)
    ensures code < 0 ==> r == FlipCols(FlipRows(m))
  {
    if code == 0 then FlipRows(m)
    else if code > 0 then FlipCols(m)
    else FlipCols(FlipRows(m))
  }

  /** `flip`: an empty picture, or no flag, leaves the picture as it is. */
  function Flip<T>(m: Mat<T>, hflip: bool, vflip: bool): (r: Mat<T>)
    requires IsMat(m)
    ensures IsMat(r) && |r| == |m| && Cols(r) == Cols(m)
    ensures Empty(m) || FlipCode(hflip, vflip).None? ==> r == m
  {
    if Empty(m) then m
    else match FlipCode(hflip, vflip)
      case None => m
      case Some(code) => CvFlip(m, code)
  }

  lemma FlipRowsTwice<T>(m: Mat<T>)
    requires IsMat(m)
    ensures FlipRows(FlipRows(m)) == m
  {
  }

  lemma FlipColsTwice<T>(m: Mat<T>)
    requires IsMat(m)
    ensures FlipCols(FlipCols(m)) == m
  {
    var a := FlipCols(FlipCols(m));
    forall i | 0 <= i < |m|
      ensures a[i] == m[i]
    {
      assert |a[i]| == |m[i]|;
    }
  }

  lemma FlipsCommute<T>(m: Mat<T>)
    requires IsMat(m)
    ensures FlipRows(FlipCols(m)) == FlipCols(FlipRows(m))
  {
    var a := FlipRows(FlipCols(m));
    var b := FlipCols(FlipRows(m));
    forall i | 0 <= i < |m|
      ensures a[i] == b[i]
    {
      assert |a[i]| == |b[i]|;
    }
  }

  /** Flipping twice with the same flags gives the picture back. */
  lemma FlipTwice<T>(m: Mat<T>, hflip: bool, vflip: bool)
    requires IsMat(m)
    ensures Flip(Flip(m, hflip, vflip), hflip, vflip) == m
  {
    if !Empty(m) {
      FlipRowsTwice(m);
      FlipColsTwice(m);
      if hflip && vflip {
        var once := FlipCols(FlipRows(m));
        FlipsCommute(FlipRows(m));
        FlipColsTwice(FlipRows(m));
        assert FlipCols(FlipRows(once)) == FlipRows(FlipCols(once));
        assert FlipCols(once) == FlipRows(m);
      }
    }
  }

  /** Flipping both ways is the half turn. */
  lemma FlipBothIsHalfTurn<T>(m: Mat<T>)
    requires IsMat(m) && !Empty(m)
    ensures Flip(m, true, true) == Rotate180(m)
  {
    var a := Flip(m, true, true);
    var b := Rotate180(m);
    forall i | 0 <= i < |m|
      ensures a[i] == b[i]
    {
      assert |a[i]| == |b[i]|;
    }
  }

  /** A `uint32_t` converted to `int`: values from 2^31 up come out negative. */
  function Int32Of(u: nat): (r: int)
    requires u < 0x1_0000_0000
    ensures -0x8000_0000 <= r < 0x8000_0000
    ensures (r - u) % 0x1_0000_0000 == 0
  {
    if u < 0x8000_0000 then u else u - 0x1_0000_0000
  }

  /** `std::clamp`. */
  function Clamp(v: int, lo: int, hi: int): (r: int)
    requires lo <= hi
    ensures lo <= r <= hi
    ensures lo <= v <= hi ==> r == v
    ensures v < lo ==> r == lo
    ensures v > hi ==> r == hi
  {
    if v < lo then lo else if v > hi then hi else v
  }

  /** The rectangle `crop` cuts: corners as `int` (the far corner summed in 32 bits), each clamped to the picture. */
  datatype CropRect = CropRect(x1: int, y1: int, x2: int, y2: int)

  function CropBounds(rows: nat, cols: nat, x: nat, y: nat, width: nat, height: nat): (b: CropRect)
    requires x < 0x1_0000_0000 && y < 0x1_0000_0000 && width < 0x1_0000_0000 && height < 0x1_0000_0000
    ensures 0 <= b.x1 <= cols && 0 <= b.x2 <= cols && 0 <= b.y1 <= rows && 0 <= b.y2 <= rows
  {
    CropRect(Clamp(Int32Of(x), 0, cols), Clamp(Int32Of(y), 0, rows),
             Clamp(Int32Of((x + width) % 0x1_0000_0000), 0, cols),
             Clamp(Int32Of((y + height) % 0x1_0000_0000), 0, rows))
  }

  /**
   * `crop`: the clamped rectangle's pixels; an empty picture, or a
   * rectangle that clamps to nothing, leaves the picture as it is.
   */
  function Crop<T>(m: Mat<T>, x: nat, y: nat, width: nat, height: nat): (r: Mat<T>)
    requires IsMat(m)
    requires x < 0x1_0000_0000 && y < 0x1_0000_0000 && width < 0x1_0000_0000 && height < 0x1_0000_0000
    ensures IsMat(r)
    ensures var b := CropBounds(|m|, Cols(m), x, y, width, height);
            if Empty(m) || b.x2 - b.x1 <= 0 || b.y2 - b.y1 <= 0 then r == m
            else |r| == b.y2 - b.y1 && Cols(r) == b.x2 - b.x1 &&
                 forall i, j | 0 <= i < |r| && 0 <= j < Cols(r) :: r[i][j] == m[b.y1 + i][b.x1 + j]
  {
    var b := CropBounds(|m|, Cols(m), x, y, width, height);
    if Empty(m) || b.x2 - b.x1 <= 0 || b.y2 - b.y1 <= 0 then m
    else Cut(m, b.y1, b.y2, b.x1, b.x2)
  }

  /** Rows `y1` up to `y2` of columns `x1` up to `x2`. */
  function Cut<T>(m: Mat<T>, y1: nat, y2: nat, x1: nat, x2: nat): (r: Mat<T>)
    requires IsMat(m) && y1 < y2 <= |m| && x1 < x2 <= Cols(m)
    ensures IsMat(r) && |r| == y2 - y1 && Cols(r) == x2 - x1
    ensures forall i, j | 0 <= i < |r| && 0 <= j < Cols(r) :: r[i][j] == m[y1 + i][x1 + j]
  {
    seq(y2 - y1, i requires 0 <= i < y2 - y1 => m[y1 + i][x1..x2])
  }

  /** A rectangle that lies inside the picture is cut out exactly. */
  lemma CropInside<T>(m: Mat<T>, x: nat, y: nat, width: nat, height: nat)
    requires IsMat(m) && width > 0 && height > 0
    requires x + width <= Cols(m) && y + height <= |m|
    requires x + width < 0x8000_0000 && y + height < 0x8000_0000
    ensures |Crop(m, x, y, width, height)| == height && Cols(Crop(m, x, y, width, height)) == width
    ensures forall i, j | 0 <= i < height && 0 <= j < width :: Crop(m, x, y, width, height)[i][j] == m[y + i][x + j]
  {
    assert Int32Of(x) == x && Int32Of(y) == y;
    assert (x + width) % 0x1_0000_0000 == x + width && (y + height) % 0x1_0000_0000 == y + height;
    assert CropBounds(|m|, Cols(m), x, y, width, height) == CropRect(x, y, x + width, y + height);
  }

  /** A rectangle that starts right of or below the picture leaves the picture as it is. */
  lemma CropOutsideUnchanged<T>(m: Mat<T>, x: nat, y: nat, width: nat, height: nat)
    requires IsMat(m)
    requires x < 0x8000_0000 && y < 0x8000_0000 && width < 0x1_0000_0000 && height < 0x1_0000_0000
    requires x >= Cols(m) || y >= |m|
    ensures Crop(m, x, y, width, height) == m
  {
  }

  /** The borders the pad option adds to a scaled picture: half the slack on top and left, the rest below and right. */
  datatype Borders = Borders(top: nat, bottom: nat, left: nat, right: nat)

  function PadBorders(targetWidth: nat, targetHeight: nat, rows: nat, cols: nat): (b: Borders)
    requires rows <= targetHeight && cols <= targetWidth
    ensures b.top + b.bottom == targetHeight - rows && b.left + b.right == targetWidth - cols
    ensures b.top <= b.bottom <= b.top + 1 && b.left <= b.right <= b.left + 1
  {
    var top := (targetHeight - rows) / 2;
    var left := (targetWidth - cols) / 2;
    Borders(top, targetHeight - rows - top, left, targetWidth - cols - left)
  }

  /** `copyMakeBorder` with a constant: the picture framed by the fill value. */
  function MakeBorder<T>(m: Mat<T>, b: Borders, fill: T): (r: Mat<T>)
    requires IsMat(m)
    ensures IsMat(r) && |r| == b.top + |m| + b.bottom
    ensures |r| > 0 ==> Cols(r) == b.left + Cols(m) + b.right
    ensures forall i, j | 0 <= i < |m| && 0 <= j < Cols(m) :: r[b.top + i][b.left + j] == m[i][j]
    ensures forall i, j | 0 <= i < |r| && 0 <= j < |r[i]| ::
              (i < b.top || i >= b.top + |m| || j < b.left || j >= b.left + Cols(m)) ==> r[i][j] == fill
  {
    var r := seq(b.top + |m| + b.bottom, i requires 0 <= i < b.top + |m| + b.bottom =>
      seq(b.left + Cols(m) + b.right, j requires 0 <= j < b.left + Cols(m) + b.right =>
        if b.top <= i < b.top + |m| && b.left <= j < b.left + Cols(m) then m[i - b.top][j - b.left] else fill));
    assert forall i | 0 <= i < |r| :: |r[i]| == b.left + Cols(m) + b.right;
    r
  }

  /** The pad option fills the target size exactly, with the scaled picture centred in it. */
  lemma PadFillsTarget<T>(scaled: Mat<T>, targetWidth: nat, targetHeight: nat, fill: T)
    requires IsMat(scaled) && !Empty(scaled)
    requires |scaled| <= targetHeight && Cols(scaled) <= targetWidth
    ensures var r := MakeBorder(scaled, PadBorders(targetWidth, targetHeight, |scaled|, Cols(scaled)), fill);
            |r| == targetHeight && Cols(r) == targetWidth
  {
  }

  /**
   * `convertMatToRawBytes`: `false` for an empty picture; BGR888 copies the
   * pixel bytes row by row, RGB16 hands over OpenCV's 565 conversion
   * (`rgb565`), and RGB888 returns `true` without writing anything.
   */
  function ConvertMatToRawBytes(m: Grid, out: seq<Byte>, format: ImgFormat, rgb565: seq<Byte>): (r: (bool, seq<Byte>))
    ensures !r.0 <==> Empty(m)
    ensures !r.0 ==> r.1 == out
    ensures r.0 && format == BGR888 ==> r.1 == Flatten(m)
    ensures r.0 && format == RGB16 ==> r.1 == rgb565
    ensures r.0 && format == RGB888 ==> r.1 == out
  {
    if Empty(m) then (false, out)
    else match format
      case BGR888 => (true, Flatten(m))
      case RGB16 => (true, rgb565)
      case RGB888 => (true, out)
  }

  /** A BGR888 conversion yields three bytes per pixel in the layout of a canvas without alpha. */
  lemma Bgr888Layout(m: Grid, out: seq<Byte>, rgb565: seq<Byte>, x: nat, y: nat, k: nat)
    requires IsMat(m) && !Empty(m) && Shaped(m, Cols(m), |m|, 3)
    requires x < Cols(m) && y < |m| && k < 3
    ensures var r := ConvertMatToRawBytes(m, out, BGR888, rgb565);
            r.0 && Valid(RawCanvas(Cols(m), |m|, false, r.1)) &&
            r.1[PixelOffset(RawCanvas(Cols(m), |m|, false, r.1), x, y) + k] == m[y][x][k]
  {
    FlattenLayout(m, Cols(m), |m|, false, x, y, k);
  }

  /** How the picture is shaped before rotation and flipping. */
  datatype Shaping = Cropped(x: int, y: int, width: nat, height: nat) | Scaled(width: nat, height: nat) | Padded(width: nat, height: nat) | Unshaped

  /** The steps an encode goes through. */
  datatype EncodePlan =
    | Refused
    | Direct(ext: string, params: seq<(EncodeFlag, int)>)
    | Bitmap
    | Processed(shaping: Shaping, angle: int, hflip: bool, vflip: bool, ext: string, params: seq<(EncodeFlag, int)>)

  /**
   * The branches of `encodeToMemory` (and `encodeToFile`) for a canvas: an
   * empty canvas is refused, the default helper encodes JPEG as is, a crop
   * needs the crop mode, offsets from 0 and a positive size, a resize needs
   * the resize mode and a positive size; anything else keeps the canvas.
   */
  function CanvasPlan(inputEmpty: bool, h: ImgHelper, quality: int): (p: EncodePlan)
    ensures p.Refused? <==> inputEmpty
    ensures p.Direct? <==> !inputEmpty && Equal(h, DefaultHelper())
    ensures p.Direct? ==> p == Direct(".jpg", [(JpegQuality, quality)])
    ensures p.Processed? ==> p.ext == ImgTypeToExt(h.imgType) && p.params == ImgEncodeParams(h.imgType, quality)
    ensures p.Processed? ==> p.angle == h.rotateAngle && p.hflip == h.flipHorizontal && p.vflip == h.flipVertical
    ensures p.Processed? && p.shaping.Cropped? <==>
              p.Processed? && h.processer == ImgProcess.Crop && h.cropOffsetX >= 0 && h.cropOffsetY >= 0 && h.width > 0 && h.height > 0
    ensures p.Processed? && (p.shaping.Scaled? || p.shaping.Padded?) <==>
              p.Processed? && h.processer == Resize && h.width > 0 && h.height > 0
    ensures !p.Bitmap?
  {
    if inputEmpty then Refused
    else if Equal(h, DefaultHelper()) then Direct(ImgTypeToExt(JPG), ImgEncodeParams(JPG, quality))
    else
      var shaping :=
        if h.processer == ImgProcess.Crop && h.cropOffsetX >= 0 && h.cropOffsetY >= 0 && h.width > 0 && h.height > 0 then
          Cropped(h.cropOffsetX, h.cropOffsetY, h.width, h.height)
        else if h.processer == Resize && h.width > 0 && h.height > 0 then
          (if h.resizeOption == Scale then Scaled(h.width, h.height) else Padded(h.width, h.height))
        else Unshaped;
      Processed(shaping, h.rotateAngle, h.flipHorizontal, h.flipVertical, ImgTypeToExt(h.imgType), ImgEncodeParams(h.imgType, quality))
  }

  /**
   * The branches of `encodeToMemory` for encoded input bytes: undecodable
   * input is refused, the default helper re-encodes JPEG, `RAW` goes to
   * `encodeToBitmap`; otherwise the picture is scaled or padded to the
   * helper's size whatever the processing mode and size, and never cropped.
   */
  function BytesPlan(decodedEmpty: bool, h: ImgHelper, quality: int): (p: EncodePlan)
    ensures p.Refused? <==> decodedEmpty
    ensures p.Direct? <==> !decodedEmpty && Equal(h, DefaultHelper())
    ensures p.Bitmap? <==> !decodedEmpty && !Equal(h, DefaultHelper()) && h.imgType == RAW
    ensures p.Processed? ==> !p.shaping.Cropped? && p.ext == ImgTypeToExt(h.imgType)
    ensures p.Processed? ==> (p.shaping == Scaled(h.width, h.height) <==> h.resizeOption == Scale)
  {
    if decodedEmpty then Refused
    else if Equal(h, DefaultHelper()) then Direct(ImgTypeToExt(JPG), ImgEncodeParams(JPG, quality))
    else if h.imgType == RAW then Bitmap
    else
      Processed(if h.resizeOption == Scale then Scaled(h.width, h.height) else Padded(h.width, h.height),
                h.rotateAngle, h.flipHorizontal, h.flipVertical, ImgTypeToExt(h.imgType), ImgEncodeParams(h.imgType, quality))
  }
}
