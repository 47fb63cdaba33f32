/**
 * `Gif2ImgFrame` (C++): a GIF, already decoded by giflib into its logical
 * screen and saved images, is composed frame by frame onto one canvas, and
 * each composed canvas is handed to an image encoder together with the
 * frame's delay. The canvas is held as rows of pixels; `CppRawCanvas`
 * shows that this is the byte layout `RawCanvas` stores. The encoder is a
 * parameter: the bytes it makes of a canvas.
 */
module CppGifFrames {
  import opened Common
  import opened CppTypes
  import opened CppRawCanvas
  import opened CppImageEncoder
  import opened CppImgHelper

  /** `GifFrameData`: one encoded frame and how long it shows. */
  datatype GifFrameData = GifFrameData(encodedData: seq<Byte>, delayMs: U16)

  /** giflib's disposal modes. */
  const DisposalUnspecified: int := 0
  const DisposeDoNot: int := 1
  const DisposeBackground: int := 2
  const DisposePrevious: int := 3
  /** giflib's `NO_TRANSPARENT_COLOR`. */
  const NoTransparentColor: int := -1

  /** `GifColorType`. */
  datatype GifColor = GifColor(red: Byte, green: Byte, blue: Byte)

  /** `GraphicsControlBlock`, as `DGifSavedExtensionToGCB` fills it for one image. */
  datatype Gcb = Gcb(disposalMode: int, delayTime: U16, transparentColor: int)

  /** `SavedImage`: the image's rectangle on the screen, its own colour map if any, its colour indices row by row, and its control block. */
  datatype SavedImage = SavedImage(left: nat, top: nat, width: nat, height: nat,
                                   colorMap: Option<seq<GifColor>>, raster: seq<Byte>, gcb: Gcb)

  /** `GifFileType` after `DGifSlurp`: the screen size, the global colour map if any, and the images. */
  datatype GifFile = GifFile(width: nat, height: nat, colorMap: Option<seq<GifColor>>, images: seq<SavedImage>)

  type Pixel = seq<Byte>

  /**
   * `delayMs`: the delay in hundredths of a second times ten, kept in 16
   * bits, and 100 when that comes to 0.
   */
  function DelayMs(delayTime: U16): (d: U16)
    ensures d > 0
    ensures (delayTime * 10) % 0x1_0000 != 0 ==> d == (delayTime * 10) % 0x1_0000
    ensures (delayTime * 10) % 0x1_0000 == 0 ==> d == 100
  {
    var ms := (delayTime * 10) % 0x1_0000;
    if ms == 0 then 100 else ms
  }

  /**
   * Up to 6553 hundredths the delay is exact and an unset delay shows for
   * 100 ms; longer delays wrap around in 16 bits, so 6554 hundredths show
   * for 4 ms and 32768 for the default 100 ms.
   */
  lemma DelayRange(delayTime: U16)
    ensures delayTime == 0 ==> DelayMs(delayTime) == 100
    ensures 0 < delayTime <= 6553 ==> DelayMs(delayTime) == delayTime * 10
    ensures DelayMs(6554) == 4 && DelayMs(32768) == 100
  {
  }

  /** The mode frame `i` is rendered with: the first frame's is `DISPOSE_DO_NOT`, any other's the one the frame before it declares. */
  function DisposalFor(gif: GifFile, i: nat): (mode: int)
    requires i < |gif.images|
    ensures i == 0 ==> mode == DisposeDoNot
    ensures i > 0 ==> mode == gif.images[i - 1].gcb.disposalMode
  {
    if i == 0 then DisposeDoNot else gif.images[i - 1].gcb.disposalMode
  }

  /** The image's own colour map, or else the global one. */
  function ColorMapOf(gif: GifFile, f: SavedImage): (m: Option<seq<GifColor>>)
    ensures f.colorMap.Some? ==> m == f.colorMap
    ensures f.colorMap.None? ==> m == gif.colorMap
  {
    if f.colorMap.Some? then f.colorMap else gif.colorMap
  }

  /** A colour index for every pixel of the rectangle, each one in the map unless it is the transparent one. */
  predicate RasterFits(f: SavedImage, cmap: seq<GifColor>)
  {
    |f.raster| == f.width * f.height &&
    forall k | 0 <= k < |f.raster| :: f.raster[k] == f.gcb.transparentColor || f.raster[k] < |cmap|
  }

  /** What rendering demands of an image: its rectangle lies on the screen (`pixel` asserts it) and its indices can be looked up. */
  predicate ImageFits(gif: GifFile, f: SavedImage)
  {
    f.left + f.width <= gif.width && f.top + f.height <= gif.height &&
    (ColorMapOf(gif, f).Some? ==> RasterFits(f, ColorMapOf(gif, f).value))
  }

  predicate Renderable(gif: GifFile)
  {
    forall i | 0 <= i < |gif.images| :: ImageFits(gif, gif.images[i])
  }

  /** Screen pixel (x, y) lies in the image's rectangle. */
  predicate InsideFrame(f: SavedImage, x: int, y: int)
  {
    f.left <= x < f.left + f.width && f.top <= y < f.top + f.height
  }

  /** Where the image's colour index for screen pixel (x, y) sits in its raster. */
  function RasterIndex(f: SavedImage, x: int, y: int): (k: nat)
    requires InsideFrame(f, x, y) && |f.raster| == f.width * f.height
    ensures k < |f.raster|
  {
    PositionBound(f.width, f.height, x - f.left, y - f.top);
    (y - f.top) * f.width + (x - f.left)
  }

  /** The image's colour index for screen pixel (x, y). */
  function ColorIndexAt(f: SavedImage, x: int, y: int): Byte
    requires InsideFrame(f, x, y) && |f.raster| == f.width * f.height
  {
    f.raster[RasterIndex(f, x, y)]
  }

  /** A pixel with every channel 0. */
  function ClearedPixel(alpha: bool): (p: Pixel)
    ensures |p| == Channels(alpha) && forall k | 0 <= k < |p| :: p[k] == 0
  {
    seq(Channels(alpha), _ => 0)
  }

  /** A colour as stored on the canvas: blue, green, red, then 255 when there is alpha. */
  function ColorPixel(c: GifColor, alpha: bool): (p: Pixel)
    ensures |p| == Channels(alpha)
    ensures p[0] == c.blue && p[1] == c.green && p[2] == c.red
    ensures alpha ==> p[3] == 255
  {
    [c.blue, c.green, c.red] + (if alpha then [255] else [])
  }

  /** The blank canvas `RawCanvas(width, height, alpha)` starts as. */
  function Blank(width: nat, height: nat, alpha: bool): (c: Grid)
    ensures Shaped(c, width, height, Channels(alpha))
  {
    seq(height, _ => seq(width, _ => ClearedPixel(alpha)))
  }

  /** The blank canvas is, byte for byte, the zero-filled buffer of a new `RawCanvas`. */
  lemma BlankIsNewCanvas(width: nat, height: nat, alpha: bool)
    ensures Flatten(Blank(width, height, alpha)) == NewCanvas(width, height, alpha).pixels
  {
    var b := Blank(width, height, alpha);
    var n := NewCanvas(width, height, alpha);
    FlattenLength(b, width, height, Channels(alpha));
    forall k | 0 <= k < |n.pixels|
      ensures Flatten(b)[k] == 0
    {
      SlotsCover(n, k);
      var p := k / Channels(alpha);
      var x := p % width;
      var y := p / width;
      var o := PixelOffset(n, x, y);
      FlattenLayout(b, width, height, alpha, x, y, k - o);
      assert PixelOffset(RawCanvas(width, height, alpha, Flatten(b)), x, y) == o;
    }
  }

  /** The first pass: with `DISPOSE_BACKGROUND` every pixel of the image's rectangle is cleared; any other mode changes nothing. */
  function Disposed(canvas: Grid, mode: int, alpha: bool, f: SavedImage): (c: Grid)
    ensures SameShape(c, canvas)
  {
    if mode == DisposeBackground then
      seq(|canvas|, y requires 0 <= y < |canvas| =>
        seq(|canvas[y]|, x requires 0 <= x < |canvas[y]| => if InsideFrame(f, x, y) then ClearedPixel(alpha) else canvas[y][x]))
    else canvas
  }

  /**
   * The second pass on one pixel of the rectangle: a transparent index
   * leaves the pixel, except that with alpha and an image that itself
   * disposes to background it is cleared; any other index writes its colour.
   */
  function DrawnPixel(cmap: seq<GifColor>, f: SavedImage, alpha: bool, x: int, y: int, p: Pixel): Pixel
    requires InsideFrame(f, x, y) && RasterFits(f, cmap)
  {
    var k := RasterIndex(f, x, y);
    var c := f.raster[k];
    assert c == f.gcb.transparentColor || c < |cmap|;
    if c == f.gcb.transparentColor then
      (if alpha && f.gcb.disposalMode == DisposeBackground then ClearedPixel(true) else p)
    else ColorPixel(cmap[c], alpha)
  }

  /** The second pass over the whole canvas. */
  function Drawn(canvas: Grid, cmap: seq<GifColor>, f: SavedImage, alpha: bool): (c: Grid)
    requires RasterFits(f, cmap)
    ensures SameShape(c, canvas)
  {
    seq(|canvas|, y requires 0 <= y < |canvas| =>
      seq(|canvas[y]|, x requires 0 <= x < |canvas[y]| =>
        if InsideFrame(f, x, y) then DrawnPixel(cmap, f, alpha, x, y, canvas[y][x]) else canvas[y][x]))
  }

  /**
   * `renderFrameRaw`: without a colour map nothing happens; otherwise the
   * first pass then the second. `DISPOSE_PREVIOUS` swaps in the copy of the
   * canvas taken on entry, so it changes nothing either.
   */
  function Rendered(gif: GifFile, i: nat, canvas: Grid, mode: int, alpha: bool): (c: Grid)
    requires Renderable(gif) && i < |gif.images|
    ensures SameShape(c, canvas)
  {
    var f := gif.images[i];
    assert ImageFits(gif, f);
    match ColorMapOf(gif, f)
    case None => canvas
    case Some(cmap) => Drawn(Disposed(canvas, mode, alpha, f), cmap, f, alpha)
  }

  /** Rendering onto a canvas the size of the screen gives one the size of the screen. */
  lemma RenderedShaped(gif: GifFile, i: nat, canvas: Grid, mode: int, alpha: bool)
    requires Renderable(gif) && i < |gif.images|
    requires Shaped(canvas, gif.width, gif.height, Channels(alpha))
    ensures Shaped(Rendered(gif, i, canvas, mode, alpha), gif.width, gif.height, Channels(alpha))
  {
    var f := gif.images[i];
    assert ImageFits(gif, f);
    var r := Rendered(gif, i, canvas, mode, alpha);
    if ColorMapOf(gif, f).Some? {
      var d := Disposed(canvas, mode, alpha, f);
      assert Shaped(d, gif.width, gif.height, Channels(alpha));
      SameShapeShaped(r, d, gif.width, gif.height, Channels(alpha));
    }
  }

  /**
   * One pixel after `renderFrameRaw`: outside the rectangle, or with no
   * colour map, it is as before; an opaque index gives its colour in BGR
   * order (alpha 255); a transparent index keeps what the first pass left,
   * unless alpha is on and the image disposes to background.
   */
  lemma RenderedPixel(gif: GifFile, i: nat, canvas: Grid, mode: int, alpha: bool, x: nat, y: nat)
    requires Renderable(gif) && i < |gif.images|
    requires Shaped(canvas, gif.width, gif.height, Channels(alpha))
    requires x < gif.width && y < gif.height
    ensures var f := gif.images[i];
            var r := Rendered(gif, i, canvas, mode, alpha)[y][x];
            (ColorMapOf(gif, f).None? || !InsideFrame(f, x, y) ==> r == canvas[y][x]) &&
            (ColorMapOf(gif, f).Some? && InsideFrame(f, x, y) ==>
               var c := ColorIndexAt(f, x, y);
               (c != f.gcb.transparentColor ==> r == ColorPixel(ColorMapOf(gif, f).value[c], alpha)) &&
               (c == f.gcb.transparentColor && alpha && f.gcb.disposalMode == DisposeBackground ==> r == ClearedPixel(alpha)) &&
               (c == f.gcb.transparentColor && !(alpha && f.gcb.disposalMode == DisposeBackground) ==>
                  r == if mode == DisposeBackground then ClearedPixel(alpha) else canvas[y][x]))
  {
    assert ImageFits(gif, gif.images[i]);
  }

  /** As written, `DISPOSE_PREVIOUS` renders exactly like `DISPOSE_DO_NOT`. */
  lemma PreviousLikeDoNot(gif: GifFile, i: nat, canvas: Grid, alpha: bool)
    requires Renderable(gif) && i < |gif.images|
    ensures Rendered(gif, i, canvas, DisposePrevious, alpha) == Rendered(gif, i, canvas, DisposeDoNot, alpha)
  {
  }

  /** The image's rectangle lies on every row of the canvas. */
  predicate RectOn(f: SavedImage, canvas: Grid)
  {
    f.top + f.height <= |canvas| && forall y | 0 <= y < |canvas| :: f.left + f.width <= |canvas[y]|
  }

  /** Pixel (x, y) of the rectangle comes before row `row`, column `col` of the rectangle in the passes' order. */
  predicate Visited(f: SavedImage, row: int, col: int, x: int, y: int)
  {
    InsideFrame(f, x, y) && (y - f.top < row || (y - f.top == row && x - f.left < col))
  }

  /** Same number of rows, each as long as before. */
  predicate SameShape(a: Grid, b: Grid)
  {
    |a| == |b| && forall y | 0 <= y < |a| :: |a[y]| == |b[y]|
  }

  /** The first pass has cleared exactly the pixels visited before row `row`, column `col` of the rectangle. */
  predicate ClearedUpTo(out: Grid, canvas: Grid, f: SavedImage, alpha: bool, row: int, col: int)
  {
    SameShape(out, canvas) &&
    forall y, x | 0 <= y < |out| && 0 <= x < |out[y]| ::
      out[y][x] == if Visited(f, row, col, x, y) then ClearedPixel(alpha) else canvas[y][x]
  }

  lemma ClearStep(out: Grid, canvas: Grid, f: SavedImage, alpha: bool, row: nat, col: nat)
    requires RectOn(f, canvas) && row < f.height && col < f.width
    requires ClearedUpTo(out, canvas, f, alpha, row, col)
    ensures f.top + row < |out| && f.left + col < |out[f.top + row]|
    ensures ClearedUpTo(out[f.top + row := out[f.top + row][f.left + col := ClearedPixel(alpha)]], canvas, f, alpha, row, col + 1)
  {
  }

  lemma ClearDone(out: Grid, canvas: Grid, f: SavedImage, alpha: bool)
    requires ClearedUpTo(out, canvas, f, alpha, f.height, 0)
    ensures out == Disposed(canvas, DisposeBackground, alpha, f)
  {
    var d := Disposed(canvas, DisposeBackground, alpha, f);
    forall y | 0 <= y < |out|
      ensures out[y] == d[y]
    {
      forall x | 0 <= x < |out[y]|
        ensures out[y][x] == d[y][x]
      {
        assert Visited(f, f.height, 0, x, y) == InsideFrame(f, x, y);
      }
    }
  }

  /** The first pass's loops, for `DISPOSE_BACKGROUND`. */
  method ClearRect(canvas: Grid, f: SavedImage, alpha: bool) returns (out: Grid)
    requires RectOn(f, canvas)
    ensures out == Disposed(canvas, DisposeBackground, alpha, f)
  {
    out := canvas;
    var y := 0;
    while y < f.height
      invariant 0 <= y <= f.height
      invariant ClearedUpTo(out, canvas, f, alpha, y, 0)
    {
      var x := 0;
      while x < f.width
        invariant 0 <= x <= f.width
        invariant ClearedUpTo(out, canvas, f, alpha, y, x)
      {
        var gifX := f.left + x;
        var gifY := f.top + y;
        ClearStep(out, canvas, f, alpha, y, x);
        out := out[gifY := out[gifY][gifX := ClearedPixel(alpha)]];
        x := x + 1;
      }
      y := y + 1;
    }
    ClearDone(out, canvas, f, alpha);
  }

  /** The second pass has drawn exactly the pixels visited before row `row`, column `col` of the rectangle. */
  predicate DrawnUpTo(out: Grid, canvas: Grid, cmap: seq<GifColor>, f: SavedImage, alpha: bool, row: int, col: int)
    requires RasterFits(f, cmap)
  {
    SameShape(out, canvas) &&
    forall y, x | 0 <= y < |out| && 0 <= x < |out[y]| ::
      out[y][x] == if Visited(f, row, col, x, y) then DrawnPixel(cmap, f, alpha, x, y, canvas[y][x]) else canvas[y][x]
  }

  lemma DrawStep(out: Grid, canvas: Grid, cmap: seq<GifColor>, f: SavedImage, alpha: bool, row: nat, col: nat, p: Pixel)
    requires RectOn(f, canvas) && RasterFits(f, cmap) && row < f.height && col < f.width
    requires DrawnUpTo(out, canvas, cmap, f, alpha, row, col)
    requires InsideFrame(f, f.left + col, f.top + row)
    requires p == DrawnPixel(cmap, f, alpha, f.left + col, f.top + row, canvas[f.top + row][f.left + col])
    ensures f.top + row < |out| && f.left + col < |out[f.top + row]|
    ensures DrawnUpTo(out[f.top + row := out[f.top + row][f.left + col := p]], canvas, cmap, f, alpha, row, col + 1)
  {
  }

  lemma DrawSkip(out: Grid, canvas: Grid, cmap: seq<GifColor>, f: SavedImage, alpha: bool, row: nat, col: nat)
    requires RectOn(f, canvas) && RasterFits(f, cmap) && row < f.height && col < f.width
    requires DrawnUpTo(out, canvas, cmap, f, alpha, row, col)
    requires InsideFrame(f, f.left + col, f.top + row)
    requires canvas[f.top + row][f.left + col] == DrawnPixel(cmap, f, alpha, f.left + col, f.top + row, canvas[f.top + row][f.left + col])
    ensures DrawnUpTo(out, canvas, cmap, f, alpha, row, col + 1)
  {
  }

  lemma DrawDone(out: Grid, canvas: Grid, cmap: seq<GifColor>, f: SavedImage, alpha: bool)
    requires RasterFits(f, cmap)
    requires DrawnUpTo(out, canvas, cmap, f, alpha, f.height, 0)
    ensures out == Drawn(canvas, cmap, f, alpha)
  {
    var d := Drawn(canvas, cmap, f, alpha);
    forall y | 0 <= y < |out|
      ensures out[y] == d[y]
    {
      forall x | 0 <= x < |out[y]|
        ensures out[y][x] == d[y][x]
      {
        assert Visited(f, f.height, 0, x, y) == InsideFrame(f, x, y);
      }
    }
  }

  /** The second pass's loops. */
  method DrawRect(canvas: Grid, cmap: seq<GifColor>, f: SavedImage, alpha: bool) returns (out: Grid)
    requires RectOn(f, canvas) && RasterFits(f, cmap)
    ensures out == Drawn(canvas, cmap, f, alpha)
  {
    out := canvas;
    var y := 0;
    while y < f.height
      invariant 0 <= y <= f.height
      invariant DrawnUpTo(out, canvas, cmap, f, alpha, y, 0)
    {
      var x := 0;
      while x < f.width
        invariant 0 <= x <= f.width
        invariant DrawnUpTo(out, canvas, cmap, f, alpha, y, x)
      {
        var gifX := f.left + x;
        var gifY := f.top + y;
        assert InsideFrame(f, gifX, gifY);
        var colorIdx := f.raster[RasterIndex(f, gifX, gifY)];
        assert colorIdx == f.gcb.transparentColor || colorIdx < |cmap|;
        if colorIdx == f.gcb.transparentColor {
          if alpha && f.gcb.disposalMode == DisposeBackground {
            DrawStep(out, canvas, cmap, f, alpha, y, x, ClearedPixel(true));
            out := out[gifY := out[gifY][gifX := ClearedPixel(true)]];
          } else {
            DrawSkip(out, canvas, cmap, f, alpha, y, x);
          }
        } else {
          DrawStep(out, canvas, cmap, f, alpha, y, x, ColorPixel(cmap[colorIdx], alpha));
          out := out[gifY := out[gifY][gifX := ColorPixel(cmap[colorIdx], alpha)]];
        }
        x := x + 1;
      }
      y := y + 1;
    }
    DrawDone(out, canvas, cmap, f, alpha);
  }

  /** `renderFrameRaw`. */
  method RenderFrameRaw(gif: GifFile, i: nat, canvas: Grid, mode: int, alpha: bool) returns (out: Grid)
    requires Renderable(gif) && i < |gif.images|
    requires Shaped(canvas, gif.width, gif.height, Channels(alpha))
    ensures out == Rendered(gif, i, canvas, mode, alpha)
  {
    var f := gif.images[i];
    assert ImageFits(gif, f);
    var cmap := ColorMapOf(gif, f);
    if cmap.None? {
      return canvas;
    }
    var backup := canvas;
    out := canvas;
    if mode == DisposeBackground {
      out := ClearRect(out, f, alpha);
    } else if mode == DisposePrevious {
      out := backup;
    }
    out := DrawRect(out, cmap.value, f, alpha);
  }

  /** The canvas after the first `n` frames, as `encodeFramesWithDelay` composes them. */
  function CanvasAsWritten(gif: GifFile, alpha: bool, n: nat): (c: Grid)
    requires Renderable(gif) && n <= |gif.images|
  {
    if n == 0 then Blank(gif.width, gif.height, alpha)
    else Rendered(gif, n - 1, CanvasAsWritten(gif, alpha, n - 1), DisposalFor(gif, n - 1), alpha)
  }

  /**
   * The canvas after the first `n` frames when `DISPOSE_PREVIOUS` restores
   * what the canvas was before the image that declared it was drawn: image
   * `n - 1` is rendered starting from `StartOf(n - 1)`.
   */
  function CanvasAfter(gif: GifFile, alpha: bool, n: nat): (c: Grid)
    requires Renderable(gif) && n <= |gif.images|
    decreases n, 0
  {
    if n == 0 then Blank(gif.width, gif.height, alpha)
    else Rendered(gif, n - 1, StartOf(gif, alpha, n - 1), DisposalFor(gif, n - 1), alpha)
  }

  /**
   * The canvas the rendering of image `i` starts from: after an image that
   * declared `DISPOSE_PREVIOUS`, the canvas that image was drawn over;
   * otherwise the last composed canvas.
   */
  function StartOf(gif: GifFile, alpha: bool, i: nat): (c: Grid)
    requires Renderable(gif) && i < |gif.images|
    decreases i, 1
  {
    if i > 0 && DisposalFor(gif, i) == DisposePrevious then DrawnOver(gif, alpha, i - 1)
    else CanvasAfter(gif, alpha, i)
  }

  /** The canvas image `i` is drawn over: where its rendering starts, once the first pass has cleared it or not. */
  function DrawnOver(gif: GifFile, alpha: bool, i: nat): (c: Grid)
    requires Renderable(gif) && i < |gif.images|
    decreases i, 2
  {
    var f := gif.images[i];
    if ColorMapOf(gif, f).None? then StartOf(gif, alpha, i)
    else Disposed(StartOf(gif, alpha, i), DisposalFor(gif, i), alpha, f)
  }

  /** Rendering keeps the canvas's shape. */
  lemma SameShapeShaped(a: Grid, b: Grid, w: nat, h: nat, ch: nat)
    requires SameShape(a, b) && Shaped(b, w, h, ch)
    requires forall y, x | 0 <= y < |a| && 0 <= x < |a[y]| :: |a[y][x]| == ch
    ensures Shaped(a, w, h, ch)
  {
  }

  /** The first pass keeps a screen-sized canvas screen-sized. */
  lemma DisposedShaped(gif: GifFile, canvas: Grid, mode: int, alpha: bool, f: SavedImage)
    requires Shaped(canvas, gif.width, gif.height, Channels(alpha))
    ensures Shaped(Disposed(canvas, mode, alpha, f), gif.width, gif.height, Channels(alpha))
  {
  }

  /** Both compositions keep the screen's shape, frame after frame, and so do the canvases the corrected one draws over. */
  lemma {:induction false} CanvasShaped(gif: GifFile, alpha: bool, n: nat)
    requires Renderable(gif) && n <= |gif.images|
    ensures Shaped(CanvasAsWritten(gif, alpha, n), gif.width, gif.height, Channels(alpha))
    ensures Shaped(CanvasAfter(gif, alpha, n), gif.width, gif.height, Channels(alpha))
    ensures n < |gif.images| ==> Shaped(StartOf(gif, alpha, n), gif.width, gif.height, Channels(alpha))
    ensures n < |gif.images| ==> Shaped(DrawnOver(gif, alpha, n), gif.width, gif.height, Channels(alpha))
  {
    hide Rendered, Disposed;
    if n > 0 {
      CanvasShaped(gif, alpha, n - 1);
      RenderedShaped(gif, n - 1, CanvasAsWritten(gif, alpha, n - 1), DisposalFor(gif, n - 1), alpha);
      RenderedShaped(gif, n - 1, StartOf(gif, alpha, n - 1), DisposalFor(gif, n - 1), alpha);
    }
    if n < |gif.images| {
      if n > 0 && DisposalFor(gif, n) == DisposePrevious {
        assert StartOf(gif, alpha, n) == DrawnOver(gif, alpha, n - 1);
      } else {
        assert StartOf(gif, alpha, n) == CanvasAfter(gif, alpha, n);
      }
      DisposedShaped(gif, StartOf(gif, alpha, n), DisposalFor(gif, n), alpha, gif.images[n]);
    }
  }

  /**
   * One more image of `CanvasAfter`: it is drawn over `DrawnOver(i)`, which
   * after a `DISPOSE_PREVIOUS` image is the canvas that image was drawn over
   * and otherwise the last canvas, cleared when the mode is
   * `DISPOSE_BACKGROUND` and the image has a colour map.
   */
  lemma CanvasAfterStep(gif: GifFile, alpha: bool, i: nat, last: Grid, under: Grid)
    requires Renderable(gif) && i < |gif.images|
    requires last == CanvasAfter(gif, alpha, i)
    requires i > 0 ==> under == DrawnOver(gif, alpha, i - 1)
    ensures Shaped(last, gif.width, gif.height, Channels(alpha))
    ensures i > 0 ==> Shaped(under, gif.width, gif.height, Channels(alpha))
    ensures var start := if i > 0 && DisposalFor(gif, i) == DisposePrevious then under else last;
            DrawnOver(gif, alpha, i) ==
              if ColorMapOf(gif, gif.images[i]).None? then start
              else Disposed(start, DisposalFor(gif, i), alpha, gif.images[i])
    ensures ImageFits(gif, gif.images[i])
    ensures CanvasAfter(gif, alpha, i + 1) ==
              match ColorMapOf(gif, gif.images[i])
              case None => DrawnOver(gif, alpha, i)
              case Some(cmap) => Drawn(DrawnOver(gif, alpha, i), cmap, gif.images[i], alpha)
  {
    hide Drawn, Disposed;
    CanvasShaped(gif, alpha, i);
    if i > 0 {
      CanvasShaped(gif, alpha, i - 1);
    }
    assert ImageFits(gif, gif.images[i]);
  }

  /**
   * After an image that declared `DISPOSE_PREVIOUS` the next one is drawn
   * over exactly the canvas that image was drawn over, so the composed
   * canvas is the next image rendered onto it.
   */
  lemma PreviousRestores(gif: GifFile, alpha: bool, n: nat)
    requires Renderable(gif) && 2 <= n <= |gif.images|
    requires gif.images[n - 2].gcb.disposalMode == DisposePrevious
    ensures DrawnOver(gif, alpha, n - 1) == DrawnOver(gif, alpha, n - 2)
    ensures CanvasAfter(gif, alpha, n) == Rendered(gif, n - 1, DrawnOver(gif, alpha, n - 2), DisposeDoNot, alpha)
  {
    PreviousLikeDoNot(gif, n - 1, DrawnOver(gif, alpha, n - 2), alpha);
  }

  /** Where no image declares `DISPOSE_PREVIOUS`, the two compositions agree. */
  lemma {:induction false} AgreeWithoutPrevious(gif: GifFile, alpha: bool, n: nat)
    requires Renderable(gif) && n <= |gif.images|
    requires forall j | 0 <= j < |gif.images| :: gif.images[j].gcb.disposalMode != DisposePrevious
    ensures CanvasAsWritten(gif, alpha, n) == CanvasAfter(gif, alpha, n)
  {
    hide Rendered;
    if n > 0 {
      AgreeWithoutPrevious(gif, alpha, n - 1);
    }
  }

  /** A first frame with an opaque index at (x, y) paints that colour there, and the two compositions agree after it. */
  lemma FirstFrameColor(gif: GifFile, alpha: bool, x: nat, y: nat)
    requires Renderable(gif) && 0 < |gif.images| && x < gif.width && y < gif.height
    requires ColorMapOf(gif, gif.images[0]).Some? && InsideFrame(gif.images[0], x, y)
    requires ImageFits(gif, gif.images[0])
    requires ColorIndexAt(gif.images[0], x, y) != gif.images[0].gcb.transparentColor
    ensures CanvasAfter(gif, alpha, 1) == CanvasAsWritten(gif, alpha, 1)
    ensures Shaped(CanvasAsWritten(gif, alpha, 1), gif.width, gif.height, Channels(alpha))
    ensures CanvasAsWritten(gif, alpha, 1)[y][x] ==
              ColorPixel(ColorMapOf(gif, gif.images[0]).value[ColorIndexAt(gif.images[0], x, y)], alpha)
  {
    hide Rendered;
    var blank := Blank(gif.width, gif.height, alpha);
    CanvasShaped(gif, alpha, 1);
    assert CanvasAsWritten(gif, alpha, 1) == Rendered(gif, 0, blank, DisposeDoNot, alpha);
    RenderedPixel(gif, 0, blank, DisposeDoNot, alpha, x, y);
  }

  /**
   * Without alpha, a transparent pixel of the frame after a
   * `DISPOSE_PREVIOUS` frame shows, as written, what that frame drew there;
   * restoring the canvas from before it shows the blank pixel.
   */
  lemma TransparentAfterPrevious(gif: GifFile, x: nat, y: nat)
    requires Renderable(gif) && 2 <= |gif.images| && x < gif.width && y < gif.height
    requires gif.images[0].gcb.disposalMode == DisposePrevious
    requires ColorMapOf(gif, gif.images[1]).Some? && InsideFrame(gif.images[1], x, y)
    requires ImageFits(gif, gif.images[1])
    requires ColorIndexAt(gif.images[1], x, y) == gif.images[1].gcb.transparentColor
    ensures Shaped(CanvasAsWritten(gif, false, 1), gif.width, gif.height, 3)
    ensures Shaped(CanvasAsWritten(gif, false, 2), gif.width, gif.height, 3)
    ensures Shaped(CanvasAfter(gif, false, 2), gif.width, gif.height, 3)
    ensures CanvasAsWritten(gif, false, 2)[y][x] == CanvasAsWritten(gif, false, 1)[y][x]
    ensures CanvasAfter(gif, false, 2)[y][x] == ClearedPixel(false)
  {
    hide Rendered;
    CanvasShaped(gif, false, 2);
    var blank := Blank(gif.width, gif.height, false);
    CanvasShaped(gif, false, 1);
    assert DisposalFor(gif, 1) == DisposePrevious;
    RenderedPixel(gif, 1, CanvasAsWritten(gif, false, 1), DisposePrevious, false, x, y);
    assert CanvasAfter(gif, false, 0) == blank;
    RenderedPixel(gif, 1, blank, DisposePrevious, false, x, y);
  }

  /** A one-pixel GIF whose red first frame declares `DISPOSE_PREVIOUS`, followed by a fully transparent frame. */
  function PreviousExample(): GifFile
  {
    GifFile(1, 1, Some([GifColor(255, 0, 0)]),
            [SavedImage(0, 0, 1, 1, None, [0], Gcb(DisposePrevious, 0, NoTransparentColor)),
             SavedImage(0, 0, 1, 1, None, [0], Gcb(DisposeDoNot, 0, 0))])
  }

  /** A one-pixel image at the origin looks its one index up for the origin. */
  lemma OnePixelIndex(f: SavedImage)
    requires f.left == 0 && f.top == 0 && f.width == 1 && f.height == 1 && |f.raster| == 1
    ensures InsideFrame(f, 0, 0) && ColorIndexAt(f, 0, 0) == f.raster[0]
  {
    assert RasterIndex(f, 0, 0) == 0;
  }

  /** The example can be rendered: its first image is red at the origin, its second transparent there. */
  lemma ExampleFacts(gif: GifFile)
    requires gif == PreviousExample()
    ensures Renderable(gif) && |gif.images| == 2 && gif.width == 1 && gif.height == 1
    ensures gif.images[0].gcb.disposalMode == DisposePrevious
    ensures ImageFits(gif, gif.images[0]) && ImageFits(gif, gif.images[1])
    ensures ColorMapOf(gif, gif.images[0]) == Some([GifColor(255, 0, 0)])
    ensures ColorMapOf(gif, gif.images[1]).Some?
    ensures InsideFrame(gif.images[0], 0, 0) && ColorIndexAt(gif.images[0], 0, 0) == 0
    ensures InsideFrame(gif.images[1], 0, 0) && ColorIndexAt(gif.images[1], 0, 0) == gif.images[1].gcb.transparentColor
    ensures RedThenTransparent(gif)
  {
    var cmap := [GifColor(255, 0, 0)];
    assert gif.colorMap == Some(cmap);
    forall i | 0 <= i < |gif.images|
      ensures ImageFits(gif, gif.images[i])
    {
      var f := gif.images[i];
      assert f.colorMap.None? && f.raster == [0] && f.width * f.height == 1;
      assert RasterFits(f, cmap);
    }
    OnePixelIndex(gif.images[0]);
    OnePixelIndex(gif.images[1]);
  }

  /** The facts about the example that the two halves of its argument use. */
  predicate RedThenTransparent(gif: GifFile)
  {
    Renderable(gif) && |gif.images| == 2 && gif.width == 1 && gif.height == 1 &&
    gif.images[0].gcb.disposalMode == DisposePrevious &&
    ImageFits(gif, gif.images[0]) && ImageFits(gif, gif.images[1]) &&
    ColorMapOf(gif, gif.images[0]) == Some([GifColor(255, 0, 0)]) &&
    ColorMapOf(gif, gif.images[1]).Some? &&
    InsideFrame(gif.images[0], 0, 0) && ColorIndexAt(gif.images[0], 0, 0) == 0 &&
    gif.images[0].gcb.transparentColor == NoTransparentColor &&
    InsideFrame(gif.images[1], 0, 0) && ColorIndexAt(gif.images[1], 0, 0) == gif.images[1].gcb.transparentColor
  }

  /** As written, the second frame of such a GIF still shows the first frame's red. */
  lemma StaysRed(gif: GifFile)
    requires RedThenTransparent(gif)
    ensures Shaped(CanvasAsWritten(gif, false, 2), 1, 1, 3)
    ensures CanvasAsWritten(gif, false, 2)[0][0] == [0, 0, 255]
  {
    hide Rendered;
    FirstFrameColor(gif, false, 0, 0);
    TransparentAfterPrevious(gif, 0, 0);
    assert ColorPixel(GifColor(255, 0, 0), false) == [0, 0, 255];
  }

  /** Restoring the canvas from before the first frame, the second frame of such a GIF shows black. */
  lemma TurnsBlack(gif: GifFile)
    requires RedThenTransparent(gif)
    ensures Shaped(CanvasAfter(gif, false, 2), 1, 1, 3)
    ensures CanvasAfter(gif, false, 2)[0][0] == [0, 0, 0]
  {
    hide Rendered;
    TransparentAfterPrevious(gif, 0, 0);
    assert ClearedPixel(false) == [0, 0, 0];
  }

  /** As written the red pixel survives into the second frame; restoring the earlier canvas would show it black. */
  lemma PreviousIgnored(gif: GifFile)
    requires gif == PreviousExample()
    ensures Renderable(gif) && |gif.images| == 2
    ensures Shaped(CanvasAsWritten(gif, false, 2), 1, 1, 3) && Shaped(CanvasAfter(gif, false, 2), 1, 1, 3)
    ensures CanvasAsWritten(gif, false, 2)[0][0] == [0, 0, 255]
    ensures CanvasAfter(gif, false, 2)[0][0] == [0, 0, 0]
  {
    hide Rendered;
    ExampleFacts(gif);
    StaysRed(gif);
    TurnsBlack(gif);
  }

  /**
   * A one-pixel GIF of three images: red declaring `firstMode`, green
   * declaring `DISPOSE_PREVIOUS`, then a fully transparent one.
   */
  function ThreeImages(firstMode: int): GifFile
  {
    GifFile(1, 1, Some([GifColor(255, 0, 0), GifColor(0, 255, 0)]),
            [SavedImage(0, 0, 1, 1, None, [0], Gcb(firstMode, 0, NoTransparentColor)),
             SavedImage(0, 0, 1, 1, None, [1], Gcb(DisposePrevious, 0, NoTransparentColor)),
             SavedImage(0, 0, 1, 1, None, [0], Gcb(DisposeDoNot, 0, 0))])
  }

  /** A one-pixel image at the origin of a one-pixel screen, using the global colour map, fits. */
  lemma OnePixelFits(gif: GifFile, f: SavedImage)
    requires gif.width == 1 && gif.height == 1 && gif.colorMap.Some?
    requires f.left == 0 && f.top == 0 && f.width == 1 && f.height == 1 && f.colorMap.None?
    requires |f.raster| == 1 && (f.raster[0] == f.gcb.transparentColor || f.raster[0] < |gif.colorMap.value|)
    ensures ImageFits(gif, f)
  {
  }

  /** `ThreeImages` can be rendered; its green and transparent images cover the one pixel. */
  lemma ThreeImagesFacts(gif: GifFile, firstMode: int)
    requires gif == ThreeImages(firstMode)
    ensures Renderable(gif) && |gif.images| == 3 && gif.width == 1 && gif.height == 1
    ensures DisposalFor(gif, 1) == firstMode && DisposalFor(gif, 2) == DisposePrevious
    ensures ColorMapOf(gif, gif.images[1]) == Some([GifColor(255, 0, 0), GifColor(0, 255, 0)])
    ensures ColorMapOf(gif, gif.images[2]).Some?
    ensures InsideFrame(gif.images[1], 0, 0) && ColorIndexAt(gif.images[1], 0, 0) == 1
    ensures gif.images[1].gcb.transparentColor == NoTransparentColor
    ensures InsideFrame(gif.images[2], 0, 0) && ColorIndexAt(gif.images[2], 0, 0) == gif.images[2].gcb.transparentColor
    ensures ImageFits(gif, gif.images[2])
  {
    var imgs := gif.images;
    OnePixelFits(gif, imgs[0]);
    OnePixelFits(gif, imgs[1]);
    OnePixelFits(gif, imgs[2]);
    forall i | 0 <= i < |imgs|
      ensures ImageFits(gif, imgs[i])
    {
      assert i == 0 || i == 1 || i == 2;
    }
    OnePixelIndex(imgs[1]);
    OnePixelIndex(imgs[2]);
  }

  /** As written, the last frame of `ThreeImages` keeps the green of the image before it. */
  lemma ThreeImagesAsWritten(gif: GifFile, firstMode: int)
    requires gif == ThreeImages(firstMode)
    ensures Renderable(gif) && |gif.images| == 3
    ensures Shaped(CanvasAsWritten(gif, false, 3), 1, 1, 3)
    ensures CanvasAsWritten(gif, false, 3)[0][0] == [0, 255, 0]
  {
    ThreeImagesFacts(gif, firstMode);
    hide Rendered, Drawn, Disposed, CanvasAfter;
    CanvasShaped(gif, false, 1);
    CanvasShaped(gif, false, 2);
    CanvasShaped(gif, false, 3);
    RenderedPixel(gif, 1, CanvasAsWritten(gif, false, 1), firstMode, false, 0, 0);
    assert ColorPixel(GifColor(0, 255, 0), false) == [0, 255, 0];
    RenderedPixel(gif, 2, CanvasAsWritten(gif, false, 2), DisposePrevious, false, 0, 0);
  }

  /** The first pass for `DISPOSE_BACKGROUND` clears every pixel of the image's rectangle. */
  lemma DisposedClears(canvas: Grid, alpha: bool, f: SavedImage, x: nat, y: nat)
    requires y < |canvas| && x < |canvas[y]| && InsideFrame(f, x, y)
    ensures Disposed(canvas, DisposeBackground, alpha, f)[y][x] == ClearedPixel(alpha)
  {
  }

  /**
   * When the image before image 1 declared `DISPOSE_PREVIOUS` or
   * `DISPOSE_BACKGROUND` and image 1 covers pixel (x, y) with a colour map,
   * image 1 is drawn over a cleared pixel there: the blank canvas image 0
   * was drawn over, or image 0 cleared.
   */
  lemma SecondDrawnOverCleared(gif: GifFile, alpha: bool, x: nat, y: nat)
    requires Renderable(gif) && 2 <= |gif.images| && x < gif.width && y < gif.height
    requires DisposalFor(gif, 1) == DisposePrevious || DisposalFor(gif, 1) == DisposeBackground
    requires ColorMapOf(gif, gif.images[1]).Some? && InsideFrame(gif.images[1], x, y)
    ensures Shaped(DrawnOver(gif, alpha, 1), gif.width, gif.height, Channels(alpha))
    ensures DrawnOver(gif, alpha, 1)[y][x] == ClearedPixel(alpha)
  {
    CanvasShaped(gif, alpha, 1);
    hide Rendered, CanvasAsWritten, Drawn;
    if DisposalFor(gif, 1) == DisposePrevious {
      assert StartOf(gif, alpha, 1) == DrawnOver(gif, alpha, 0);
      assert DrawnOver(gif, alpha, 0) == Blank(gif.width, gif.height, alpha);
    } else {
      hide CanvasAfter;
      assert StartOf(gif, alpha, 1) == CanvasAfter(gif, alpha, 1);
      DisposedClears(CanvasAfter(gif, alpha, 1), alpha, gif.images[1], x, y);
    }
  }

  /**
   * Without alpha, after image 1 declared `DISPOSE_PREVIOUS` following an
   * image 0 that declared `DISPOSE_PREVIOUS` or `DISPOSE_BACKGROUND`, a
   * transparent pixel of image 2 shows the cleared pixel image 1 was drawn
   * over.
   */
  lemma ThirdAfterPreviousCleared(gif: GifFile, x: nat, y: nat)
    requires Renderable(gif) && 3 <= |gif.images| && x < gif.width && y < gif.height
    requires DisposalFor(gif, 1) == DisposePrevious || DisposalFor(gif, 1) == DisposeBackground
    requires DisposalFor(gif, 2) == DisposePrevious
    requires ColorMapOf(gif, gif.images[1]).Some? && InsideFrame(gif.images[1], x, y)
    requires ColorMapOf(gif, gif.images[2]).Some? && InsideFrame(gif.images[2], x, y)
    requires ImageFits(gif, gif.images[2])
    requires ColorIndexAt(gif.images[2], x, y) == gif.images[2].gcb.transparentColor
    ensures Shaped(CanvasAfter(gif, false, 3), gif.width, gif.height, 3)
    ensures CanvasAfter(gif, false, 3)[y][x] == ClearedPixel(false) == [0, 0, 0]
  {
    assert ClearedPixel(false) == [0, 0, 0];
    SecondDrawnOverCleared(gif, false, x, y);
    CanvasShaped(gif, false, 3);
    hide *;
    PreviousRestores(gif, false, 3);
    RenderedPixel(gif, 2, DrawnOver(gif, false, 1), DisposeDoNot, false, x, y);
  }

  /**
   * With the canvas restored, the last frame of `ThreeImages` is black when
   * the red image declares `DISPOSE_PREVIOUS` too (the blank canvas it was
   * drawn over) or `DISPOSE_BACKGROUND` (the red image cleared); as written
   * it is green.
   */
  lemma ThreeImagesLastFrame(gif: GifFile, firstMode: int)
    requires firstMode == DisposePrevious || firstMode == DisposeBackground
    requires gif == ThreeImages(firstMode)
    ensures Renderable(gif) && |gif.images| == 3
    ensures Shaped(CanvasAsWritten(gif, false, 3), 1, 1, 3) && Shaped(CanvasAfter(gif, false, 3), 1, 1, 3)
    ensures CanvasAsWritten(gif, false, 3)[0][0] == [0, 255, 0]
    ensures CanvasAfter(gif, false, 3)[0][0] == [0, 0, 0]
  {
    hide *;
    ThreeImagesFacts(gif, firstMode);
    ThreeImagesAsWritten(gif, firstMode);
    ThirdAfterPreviousCleared(gif, 0, 0);
  }

  /** Two images in a row that declare `DISPOSE_PREVIOUS`: the frame after them is restored to the blank canvas. */
  lemma TwoPreviousInARow()
    ensures var gif := ThreeImages(DisposePrevious);
            Renderable(gif) && |gif.images| == 3 && Shaped(CanvasAfter(gif, false, 3), 1, 1, 3) &&
            CanvasAfter(gif, false, 3)[0][0] == [0, 0, 0]
  {
    ThreeImagesLastFrame(ThreeImages(DisposePrevious), DisposePrevious);
  }

  /** `DISPOSE_PREVIOUS` after `DISPOSE_BACKGROUND`: the frame after them is restored to the cleared canvas. */
  lemma PreviousAfterBackground()
    ensures var gif := ThreeImages(DisposeBackground);
            Renderable(gif) && |gif.images| == 3 && Shaped(CanvasAfter(gif, false, 3), 1, 1, 3) &&
            CanvasAfter(gif, false, 3)[0][0] == [0, 0, 0]
  {
    ThreeImagesLastFrame(ThreeImages(DisposeBackground), DisposeBackground);
  }

  /** A composed canvas and how long it shows, before it is encoded. */
  datatype ComposedFrame = ComposedFrame(canvas: Grid, delayMs: U16)

  /** Each frame's canvas and delay, in order. */
  function Composed(gif: GifFile, alpha: bool): (r: seq<ComposedFrame>)
    requires Renderable(gif)
    ensures |r| == |gif.images|
    ensures forall i | 0 <= i < |r| :: r[i] == ComposedFrame(CanvasAfter(gif, alpha, i + 1), DelayMs(gif.images[i].gcb.delayTime))
  {
    seq(|gif.images|, i requires 0 <= i < |gif.images| => ComposedFrame(CanvasAfter(gif, alpha, i + 1), DelayMs(gif.images[i].gcb.delayTime)))
  }

  /** Each frame's canvas and delay, in order, composed as written. */
  function ComposedAsWritten(gif: GifFile, alpha: bool): (r: seq<ComposedFrame>)
    requires Renderable(gif)
    ensures |r| == |gif.images|
    ensures forall i | 0 <= i < |r| :: r[i] == ComposedFrame(CanvasAsWritten(gif, alpha, i + 1), DelayMs(gif.images[i].gcb.delayTime))
  {
    seq(|gif.images|, i requires 0 <= i < |gif.images| => ComposedFrame(CanvasAsWritten(gif, alpha, i + 1), DelayMs(gif.images[i].gcb.delayTime)))
  }

  /** Without `DISPOSE_PREVIOUS` images, both compositions give the same frames. */
  lemma ComposedAgreeWithoutPrevious(gif: GifFile, alpha: bool)
    requires Renderable(gif)
    requires forall j | 0 <= j < |gif.images| :: gif.images[j].gcb.disposalMode != DisposePrevious
    ensures ComposedAsWritten(gif, alpha) == Composed(gif, alpha)
  {
    hide Rendered;
    var asWritten := ComposedAsWritten(gif, alpha);
    var frames := Composed(gif, alpha);
    forall i | 0 <= i < |frames|
      ensures asWritten[i] == frames[i]
    {
      FrameAgreesWithoutPrevious(gif, alpha, i);
    }
  }

  lemma FrameAgreesWithoutPrevious(gif: GifFile, alpha: bool, i: nat)
    requires Renderable(gif) && i < |gif.images|
    requires forall j | 0 <= j < |gif.images| :: gif.images[j].gcb.disposalMode != DisposePrevious
    ensures ComposedAsWritten(gif, alpha)[i] == Composed(gif, alpha)[i]
  {
    hide *;
    AgreeWithoutPrevious(gif, alpha, i + 1);
  }

  /** Each frame handed to the encoder, its delay kept. */
  function EncodeAll(frames: seq<ComposedFrame>, encode: Grid -> seq<Byte>): (r: seq<GifFrameData>)
    ensures |r| == |frames|
    ensures forall i | 0 <= i < |r| :: r[i].encodedData == encode(frames[i].canvas) && r[i].delayMs == frames[i].delayMs
  {
    seq(|frames|, i requires 0 <= i < |frames| => GifFrameData(encode(frames[i].canvas), frames[i].delayMs))
  }

  /** Encoding one more frame appends its encoding. */
  lemma EncodeAllStep(frames: seq<ComposedFrame>, encode: Grid -> seq<Byte>, i: nat)
    requires i < |frames|
    ensures EncodeAll(frames[..i + 1], encode) == EncodeAll(frames[..i], encode) + [GifFrameData(encode(frames[i].canvas), frames[i].delayMs)]
  {
    var r := EncodeAll(frames[..i + 1], encode);
    var r' := EncodeAll(frames[..i], encode) + [GifFrameData(encode(frames[i].canvas), frames[i].delayMs)];
    assert forall k | 0 <= k < |r| :: r[k] == r'[k];
  }

  /**
   * `encodeFramesWithDelay` as written: the result vector is sized from
   * the GIF before the validity check, so a GIF that failed to load
   * reads the image count through a null `gif`; otherwise one entry per image.
   */
  function FramesAsWritten(gif: Option<GifFile>, alpha: bool, encode: Grid -> seq<Byte>): (r: Result<seq<GifFrameData>>)
    requires gif.Some? ==> Renderable(gif.value)
    ensures r.Err? <==> gif.None?
    ensures r.Ok? ==> r.value == EncodeAll(ComposedAsWritten(gif.value, alpha), encode)
  {
    match gif
    case None => Err("null GifFileType dereferenced")
    case Some(g) => Ok(EncodeAll(ComposedAsWritten(g, alpha), encode))
  }

  /** Without `DISPOSE_PREVIOUS` images, a GIF that loaded gets the frames `EncodeFramesWithDelay` returns. */
  lemma FramesAgreeWithoutPrevious(gif: GifFile, alpha: bool, encode: Grid -> seq<Byte>)
    requires Renderable(gif)
    requires forall j | 0 <= j < |gif.images| :: gif.images[j].gcb.disposalMode != DisposePrevious
    ensures FramesAsWritten(Some(gif), alpha, encode) == Ok(EncodeAll(Composed(gif, alpha), encode))
  {
    hide Rendered;
    ComposedAgreeWithoutPrevious(gif, alpha);
  }

  /**
   * One pass of the corrected frame loop: pick image `i`'s disposal mode,
   * start from the canvas the image before it was drawn over when that mode
   * is `DISPOSE_PREVIOUS` and from the last canvas otherwise, clear the
   * rectangle for `DISPOSE_BACKGROUND`, keep that canvas as the one image
   * `i` is drawn over, then draw.
   */
  method RenderNext(g: GifFile, alpha: bool, i: nat, canvas: Grid, under: Grid) returns (next: Grid, over: Grid)
    requires Renderable(g) && i < |g.images|
    requires canvas == CanvasAfter(g, alpha, i)
    requires i > 0 ==> under == DrawnOver(g, alpha, i - 1)
    ensures next == CanvasAfter(g, alpha, i + 1)
    ensures over == DrawnOver(g, alpha, i)
  {
    hide Rendered, Drawn;
    var mode := DisposeDoNot;
    if i != 0 {
      mode := g.images[i - 1].gcb.disposalMode;
    }
    assert mode == DisposalFor(g, i);
    CanvasAfterStep(g, alpha, i, canvas, under);
    var f := g.images[i];
    var cmap := ColorMapOf(g, f);
    var start := canvas;
    if i > 0 && mode == DisposePrevious {
      start := under;
    }
    over := start;
    next := start;
    if cmap.Some? {
      if mode == DisposeBackground {
        over := ClearRect(start, f, alpha);
      }
      next := DrawRect(over, cmap.value, f, alpha);
    }
  }

  /** The composition starts from the blank canvas. */
  lemma CanvasAfterZero(gif: GifFile, alpha: bool)
    requires Renderable(gif)
    ensures CanvasAfter(gif, alpha, 0) == Blank(gif.width, gif.height, alpha)
  {
  }

  /** Encoding the frames up to `i + 1` appends frame `i`'s canvas and delay to those up to `i`. */
  lemma EncodeNext(gif: GifFile, alpha: bool, encode: Grid -> seq<Byte>, i: nat)
    requires Renderable(gif) && i < |gif.images|
    ensures EncodeAll(Composed(gif, alpha)[..i + 1], encode) ==
              EncodeAll(Composed(gif, alpha)[..i], encode) +
              [GifFrameData(encode(CanvasAfter(gif, alpha, i + 1)), DelayMs(gif.images[i].gcb.delayTime))]
  {
    hide *;
    EncodeAllStep(Composed(gif, alpha), encode, i);
  }

  /**
   * `encodeFramesWithDelay`, with the validity check first and the canvas
   * the last image was drawn over kept for `DISPOSE_PREVIOUS`: nothing for a
   * GIF that failed to load, else one entry per image, in order.
   */
  method EncodeFramesWithDelay(gif: Option<GifFile>, imgType: ImgType, encode: Grid -> seq<Byte>) returns (result: seq<GifFrameData>)
    requires gif.Some? ==> Renderable(gif.value)
    ensures gif.None? ==> result == []
    ensures gif.Some? ==> result == EncodeAll(Composed(gif.value, SupportsAlpha(imgType)), encode)
  {
    hide *;
    if gif.None? {
      return [];
    }
    var g := gif.value;
    var alpha := SupportsAlpha(imgType);
    var canvas := Blank(g.width, g.height, alpha);
    CanvasAfterZero(g, alpha);
    var under := canvas;
    result := [];
    var i := 0;
    while i < |g.images|
      invariant 0 <= i <= |g.images|
      invariant canvas == CanvasAfter(g, alpha, i)
      invariant i > 0 ==> under == DrawnOver(g, alpha, i - 1)
      invariant result == EncodeAll(Composed(g, alpha)[..i], encode)
    {
      var delayMs := DelayMs(g.images[i].gcb.delayTime);
      var next, over := RenderNext(g, alpha, i, canvas, under);
      EncodeNext(g, alpha, encode, i);
      under := over;
      canvas := next;
      result := result + [GifFrameData(encode(canvas), delayMs)];
      i := i + 1;
    }
    assert Composed(g, alpha)[..i] == Composed(g, alpha);
  }

  /**
   * `readGifWithDelays`: nothing without an encoder or with the default
   * helper (checked before the file is opened), nothing for a GIF that
   * failed to load, else the frames `encodeFramesWithDelay` makes for the
   * helper's image type. The JPEG quality is part of `encode`.
   */
  method ReadGifWithDelays(hasEncoder: bool, helper: ImgHelper, gif: Option<GifFile>, encode: Grid -> seq<Byte>)
    returns (result: seq<GifFrameData>)
    requires gif.Some? ==> Renderable(gif.value)
    ensures !hasEncoder || Equal(helper, DefaultHelper()) || gif.None? ==> result == []
    ensures hasEncoder && !Equal(helper, DefaultHelper()) && gif.Some? ==>
              result == EncodeAll(Composed(gif.value, SupportsAlpha(helper.imgType)), encode)
  {
    if !hasEncoder || Equal(helper, DefaultHelper()) {
      return [];
    }
    result := EncodeFramesWithDelay(gif, helper.imgType, encode);
  }
}
