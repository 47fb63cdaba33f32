/**
 * The raw background format of the 293 and 293s: the formatted image is
 * walked pixel by pixel and each pixel contributes its blue, green and red
 * bytes. The two models walk the image in different orders, so the byte
 * stream is specified by the order and the position of a pixel in it.
 */
module PyBgr {
  import opened Common

  datatype Pixel = Pixel(r: Byte, g: Byte, b: Byte)

  /** An image as rows of pixels: `img[y][x]`, `height` rows of `width` pixels. */
  predicate IsImage(img: seq<seq<Pixel>>, width: nat, height: nat)
  {
    |img| == height && forall y | 0 <= y < height :: |img[y]| == width
  }

  /** Row by row (x varies fastest), or column by column (y varies fastest). */
  datatype Order = RowMajor | ColumnMajor

  /** The pixel visited `i`-th in the given order. */
  function PixelAt(img: seq<seq<Pixel>>, width: nat, height: nat, order: Order, i: nat): Pixel
    requires IsImage(img, width, height) && i < width * height
  {
    match order
    case RowMajor =>
      LinearIndexBound(i, width, height);
      img[i / width][i % width]
    case ColumnMajor =>
      LinearIndexBound(i, height, width);
      img[i % height][i / height]
  }

  /** The bytes one pixel contributes: blue, green, red. */
  function Bgr(p: Pixel): seq<Byte>
  {
    [p.b, p.g, p.r]
  }

  /** The bytes of the first `n` pixels in the given order. */
  function Flat(img: seq<seq<Pixel>>, width: nat, height: nat, order: Order, n: nat): seq<Byte>
    requires IsImage(img, width, height) && n <= width * height
  {
    if n == 0 then [] else Flat(img, width, height, order, n - 1) + Bgr(PixelAt(img, width, height, order, n - 1))
  }

  lemma LinearIndexBound(i: nat, inner: nat, outer: nat)
    requires i < inner * outer
    ensures inner > 0 && i / inner < outer && i % inner < inner
  {
    if i / inner >= outer {
      MulMonotone(outer, i / inner, inner);
    }
  }

  lemma MulMonotone(a: nat, b: nat, n: nat)
    requires a <= b
    ensures a * n <= b * n
  {
  }

  /** One more pixel appends its three bytes. */
  lemma FlatAppend(img: seq<seq<Pixel>>, width: nat, height: nat, order: Order, n: nat)
    requires IsImage(img, width, height) && n < width * height
    ensures Flat(img, width, height, order, n + 1) == Flat(img, width, height, order, n) + Bgr(PixelAt(img, width, height, order, n))
  {
  }

  /** The stream holds three bytes per pixel. */
  lemma {:induction false} FlatLength(img: seq<seq<Pixel>>, width: nat, height: nat, order: Order, n: nat)
    requires IsImage(img, width, height) && n <= width * height
    ensures |Flat(img, width, height, order, n)| == 3 * n
  {
    if n > 0 {
      FlatLength(img, width, height, order, n - 1);
    }
  }

  /** The `i`-th pixel visited owns bytes 3i, 3i+1, 3i+2 of the stream, blue first. */
  lemma {:induction false} FlatSlot(img: seq<seq<Pixel>>, width: nat, height: nat, order: Order, n: nat, i: nat)
    requires IsImage(img, width, height) && n <= width * height && i < n
    ensures |Flat(img, width, height, order, n)| == 3 * n
    ensures Flat(img, width, height, order, n)[3 * i .. 3 * i + 3] == Bgr(PixelAt(img, width, height, order, i))
  {
    var prev := Flat(img, width, height, order, n - 1);
    var last := Bgr(PixelAt(img, width, height, order, n - 1));
    assert Flat(img, width, height, order, n) == prev + last;
    FlatLength(img, width, height, order, n - 1);
    hide Flat;
    if i < n - 1 {
      FlatSlot(img, width, height, order, n - 1, i);
      assert (prev + last)[3 * i .. 3 * i + 3] == prev[3 * i .. 3 * i + 3];
    } else {
      assert (prev + last)[3 * i .. 3 * i + 3] == last;
    }
  }

  /** In row order, pixel (x, y) owns the bytes at 3(y*width + x). */
  lemma RowMajorOffset(img: seq<seq<Pixel>>, width: nat, height: nat, x: nat, y: nat)
    requires IsImage(img, width, height) && x < width && y < height
    ensures y * width + x < width * height
    ensures PixelAt(img, width, height, RowMajor, y * width + x) == img[y][x]
  {
    DivModOfLinear(y, x, width);
    MulMonotone(y + 1, height, width);
  }

  /** In column order, pixel (x, y) owns the bytes at 3(x*height + y). */
  lemma ColumnMajorOffset(img: seq<seq<Pixel>>, width: nat, height: nat, x: nat, y: nat)
    requires IsImage(img, width, height) && x < width && y < height
    ensures x * height + y < width * height
    ensures PixelAt(img, width, height, ColumnMajor, x * height + y) == img[y][x]
  {
    DivModOfLinear(x, y, height);
    MulMonotone(x + 1, width, height);
  }

  /** The first linear index of line `i` when every line holds `n` pixels. */
  function LineStart(i: nat, n: nat): nat
  {
    i * n
  }

  /** Of `count` lines of `n` pixels, line `i` starts within `n * count` and the next line `n` pixels later. */
  lemma LineStartFacts(i: nat, n: nat, count: nat)
    requires i <= count
    ensures LineStart(i, n) <= n * count == count * n
    ensures i == 0 ==> LineStart(i, n) == 0
    ensures i == count ==> LineStart(i, n) == n * count
    ensures i < count ==> LineStart(i + 1, n) == LineStart(i, n) + n <= n * count
  {
    MulMonotone(i, count, n);
    if i < count {
      MulMonotone(i + 1, count, n);
    }
  }

  /** Packing in row order: pixel (x, y) comes right after the first y * width + x pixels. */
  lemma RowMajorStep(img: seq<seq<Pixel>>, width: nat, height: nat, x: nat, y: nat)
    requires IsImage(img, width, height) && x < width && y < height
    ensures LineStart(y, width) + x < width * height
    ensures Flat(img, width, height, RowMajor, LineStart(y, width) + x + 1) ==
            Flat(img, width, height, RowMajor, LineStart(y, width) + x) + Bgr(img[y][x])
  {
    RowMajorOffset(img, width, height, x, y);
    FlatAppend(img, width, height, RowMajor, y * width + x);
  }

  /** Packing in column order: pixel (x, y) comes right after the first x * height + y pixels. */
  lemma ColumnMajorStep(img: seq<seq<Pixel>>, width: nat, height: nat, x: nat, y: nat)
    requires IsImage(img, width, height) && x < width && y < height
    ensures LineStart(x, height) + y < width * height
    ensures Flat(img, width, height, ColumnMajor, LineStart(x, height) + y + 1) ==
            Flat(img, width, height, ColumnMajor, LineStart(x, height) + y) + Bgr(img[y][x])
  {
    ColumnMajorOffset(img, width, height, x, y);
    FlatAppend(img, width, height, ColumnMajor, x * height + y);
  }

  /** A background write: rejected with -1, or `setBackgroundImg(data, size)`. */
  datatype BackgroundAction =
    | RejectBackground                              // returns -1
    | RaiseBackground                               // an exception leaves the method
    | SetBackgroundImg(data: seq<Byte>, size: int)  // returns the transport status
}
