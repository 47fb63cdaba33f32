/**
 * `ImgHelper`: how an image must be shaped before it is sent (target
 * size, crop offsets, rotation, resize and flip options, encoding), and
 * its equality, which ignores the processing mode.
 */
module CppImgHelper {
  import opened CppTypes

  datatype ImgProcess = Resize | Crop

  datatype ResizeOption = Scale | Pad

  /** The helper's public fields. `rotateAngle` is in whole degrees. */
  datatype ImgHelper = ImgHelper(
    cropOffsetX: int, cropOffsetY: int,
    width: nat, height: nat,
    rotateAngle: int,
    resizeOption: ResizeOption,
    flipVertical: bool, flipHorizontal: bool,
    imgType: ImgType, imgFormat: ImgFormat,
    processer: ImgProcess)

  /** `ImgHelper()`: the member initialisers. */
  function DefaultHelper(): (h: ImgHelper)
    ensures h.cropOffsetX == -1 && h.cropOffsetY == -1 && h.width == 0 && h.height == 0
    ensures h.imgType == JPG && h.imgFormat == BGR888 && h.processer == Resize && h.resizeOption == Scale
    ensures !h.flipVertical && !h.flipHorizontal && h.rotateAngle == 0
  {
    ImgHelper(-1, -1, 0, 0, 0, Scale, false, false, JPG, BGR888, Resize)
  }

  /** The size constructor: the crop offsets keep their initial -1. */
  function SizeHelper(width: nat, height: nat, rotateAngle: int, resizeOption: ResizeOption,
                      flipVertical: bool, flipHorizontal: bool, imgType: ImgType, imgFormat: ImgFormat): (h: ImgHelper)
    ensures h.cropOffsetX == -1 && h.cropOffsetY == -1 && h.processer == Resize
    ensures h.width == width && h.height == height && h.imgType == imgType && h.imgFormat == imgFormat
  {
    DefaultHelper().(width := width, height := height, rotateAngle := rotateAngle, resizeOption := resizeOption,
                     flipVertical := flipVertical, flipHorizontal := flipHorizontal,
                     imgType := imgType, imgFormat := imgFormat)
  }

  /** The crop constructor: the offsets are set, the processing mode stays `Resize`. */
  function CropHelper(x: int, y: int, width: nat, height: nat, rotateAngle: int, resizeOption: ResizeOption,
                      flipVertical: bool, flipHorizontal: bool, imgType: ImgType, imgFormat: ImgFormat): (h: ImgHelper)
    ensures h.cropOffsetX == x && h.cropOffsetY == y && h.processer == Resize
    ensures h.width == width && h.height == height && h.imgType == imgType && h.imgFormat == imgFormat
  {
    SizeHelper(width, height, rotateAngle, resizeOption, flipVertical, flipHorizontal, imgType, imgFormat)
      .(cropOffsetX := x, cropOffsetY := y)
  }

  /** `operator==`: every field but `_processer`. */
  predicate Equal(a: ImgHelper, b: ImgHelper)
  {
    a.cropOffsetX == b.cropOffsetX && a.cropOffsetY == b.cropOffsetY &&
    a.width == b.width && a.height == b.height &&
    a.rotateAngle == b.rotateAngle && a.resizeOption == b.resizeOption &&
    a.flipVertical == b.flipVertical && a.flipHorizontal == b.flipHorizontal &&
    a.imgType == b.imgType && a.imgFormat == b.imgFormat
  }

  /** `operator!=`. */
  predicate NotEqual(a: ImgHelper, b: ImgHelper)
  {
    !Equal(a, b)
  }

  /** Two helpers are equal exactly when they differ at most in the processing mode. */
  lemma EqualIgnoresProcesser(a: ImgHelper, b: ImgHelper)
    ensures Equal(a, b) <==> a.(processer := b.processer) == b
    ensures Equal(a, b) <==> !NotEqual(a, b)
    ensures Equal(a, a)
    ensures Equal(a, b) ==> Equal(b, a)
  {
  }

  /** A helper built by either constructor equals the default one only when it was built from the defaults. */
  lemma SizeHelperIsDefault(width: nat, height: nat, rotateAngle: int)
    ensures Equal(SizeHelper(width, height, rotateAngle, Scale, false, false, JPG, BGR888), DefaultHelper())
            <==> width == 0 && height == 0 && rotateAngle == 0
  {
  }
}
