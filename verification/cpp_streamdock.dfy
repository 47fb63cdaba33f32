/**
 * `StreamDock` (C++ base class): the device description, feature flags and
 * read-value table a device class fills in, the image helpers and
 * controllers set up after construction, and the checks in front of the
 * image writes. The transport is a can-write flag, the firmware string the
 * device reports, and a log of the commands handed to it.
 */
module CppStreamDock {
  import opened Common
  import opened CppTypes
  import opened CppImgHelper

  /** A command handed to the transport. */
  datatype Command =
    | KeyImageStream(stream: seq<Byte>, key: Byte)
    | BackgroundImageStream(stream: seq<Byte>, timeoutMs: nat)
    | BackgroundBitmap(stream: seq<Byte>, timeoutMs: nat)
    | ClearKeyCommand(key: Byte)
    | ChangeMode(mode: Byte)
    | KeyboardBacklightBrightness(brightness: Byte)
    | KeyboardLightingEffects(effect: Byte)
    | KeyboardLightingSpeed(speed: Byte)
    | KeyboardRgbBacklight(red: Byte, green: Byte, blue: Byte)
    | KeyboardOsModeSwitch(osMode: Byte)
    | BackgroundFrameStream(stream: seq<Byte>, width: nat, height: nat, x: U16, y: U16)
    | ClearBackgroundFrameStream(position: Byte)
    | RefreshScreen

  /** `isJpegData`: at least four bytes starting with the SOI marker FF D8; the EOI marker is looked at but not required. */
  function IsJpegData(data: seq<Byte>): (r: bool)
    ensures r <==> |data| >= 4 && data[0] == 0xFF && data[1] == 0xD8
  {
    if |data| < 4 then false
    else if data[0] != 0xFF || data[1] != 0xD8 then false
    else if data[|data| - 2] == 0xFF && data[|data| - 1] == 0xD9 then true
    else true
  }

  const PngSignature: seq<Byte> := [0x89, 0x50, 0x4E, 0x47, 0x0D, 0x0A, 0x1A, 0x0A]

  /** `isPngData`: at least eight bytes that open with the PNG signature. */
  function IsPngData(data: seq<Byte>): (r: bool)
    ensures r <==> |data| >= 8 && data[..8] == PngSignature
  {
    if |data| < 8 then false
    else
      data[0] == 0x89 && data[1] == 0x50 && data[2] == 0x4E && data[3] == 0x47 &&
      data[4] == 0x0D && data[5] == 0x0A && data[6] == 0x1A && data[7] == 0x0A
  }

  /** A truncated JPEG (no EOI) passes, and no stream passes both signature checks. */
  lemma SignatureChecks(data: seq<Byte>, tail: seq<Byte>)
    requires |tail| >= 2
    ensures IsJpegData([0xFF, 0xD8] + tail)
    ensures !(IsJpegData(data) && IsPngData(data))
  {
  }

  /** `isStreamDockHidDeviceUsage`: usage 1 on the vendor usage page 0xFFA0 (65440). */
  function IsStreamDockHidDeviceUsage(device: HidDeviceInfo): (r: bool)
    ensures r ==> device.usagePage == 65440 && device.usage == 1
  {
    device.usage == 1 && device.usagePage == 65440
  }

  /** The usage check looks only at the usage pair: path, ids and interface number play no part. */
  lemma UsageOnlyMatters(a: HidDeviceInfo, b: HidDeviceInfo)
    requires a.usage == b.usage && a.usagePage == b.usagePage
    ensures IsStreamDockHidDeviceUsage(a) == IsStreamDockHidDeviceUsage(b)
    ensures a.usage == 1 && a.usagePage == 65440 ==> IsStreamDockHidDeviceUsage(a)
  {
  }

  class StreamDock {
    /** The derived class this object was built as; `dispatchEvent` is chosen by it. */
    const cls: DeviceClass
    /** `_readValueMap`, filled in by the derived constructor. */
    const readValueMap: ReadValueMap
    /** The firmware string the transport reports. */
    const deviceFirmware: string

    var info: DeviceInfo
    var feature: FeatureOption

    var bgHelper: Option<ImgHelper>
    var kyHelper: Option<ImgHelper>
    var secondHelper: Option<ImgHelper>
    var bgGifHelper: Option<ImgHelper>

    /** Whether the real (rather than the null) controller is installed. */
    var readController: bool
    var rgbController: bool
    var gifController: bool
    var configer: bool

    /** `_transport->canWrite()`. */
    var canWrite: bool
    /** Commands handed to the transport, oldest first. */
    var log: seq<Command>

    /** The base constructor plus the derived constructor's field assignments. */
    constructor(cls: DeviceClass, info: DeviceInfo, feature: FeatureOption, readValueMap: ReadValueMap,
                canWrite: bool, deviceFirmware: string)
      ensures this.cls == cls && this.info == info && this.feature == feature
      ensures this.readValueMap == readValueMap && this.deviceFirmware == deviceFirmware
      ensures this.canWrite == canWrite && log == []
      ensures bgHelper.None? && kyHelper.None? && secondHelper.None? && bgGifHelper.None?
      ensures !readController && !rgbController && !gifController && !configer
    {
      this.cls := cls;
      this.info := info;
      this.feature := feature;
      this.readValueMap := readValueMap;
      this.canWrite := canWrite;
      this.deviceFirmware := deviceFirmware;
      log := [];
      bgHelper, kyHelper, secondHelper, bgGifHelper := None, None, None, None;
      readController, rgbController, gifController, configer := false, false, false, false;
    }

    /** `init`: the read controller always; LEDs, GIFs and config only when the device has them. */
    method Init()
      modifies this`readController, this`rgbController, this`gifController, this`configer
      ensures readController
      ensures rgbController == (old(rgbController) || feature.hasRGBLed)
      ensures gifController == (old(gifController) || feature.isDualDevice)
      ensures configer == (old(configer) || feature.supportConfig)
    {
      readController := true;
      if feature.hasRGBLed {
        rgbController := true;
      }
      if feature.isDualDevice {
        gifController := true;
      }
      if feature.supportConfig {
        configer := true;
      }
    }

    /** `initImgHelper`: fills each helper still missing, from the current description and features. */
    method InitImgHelper()
      modifies this`bgHelper, this`kyHelper, this`secondHelper, this`bgGifHelper
      ensures bgHelper == if old(bgHelper).Some? then old(bgHelper) else
        Some(SizeHelper(info.width, info.height, info.bgRotateAngle, Scale, info.bgFlipVertical, info.bgFlipHorizontal,
                        info.backgroundEncodeType, info.backgroundEncodeFormat))
      ensures kyHelper == if old(kyHelper).Some? then old(kyHelper) else
        Some(SizeHelper(info.keyWidth, info.keyHeight, info.keyRotateAngle, Scale, info.keyFlipVertical, info.keyFlipHorizontal,
                        info.keyEncodeType, BGR888))
      ensures secondHelper == if old(secondHelper).Some? || !feature.hasSecondScreen then old(secondHelper) else
        Some(SizeHelper(feature.secondScreenWidth, feature.secondScreenHeight, info.keyRotateAngle, Scale,
                        info.keyFlipVertical, info.keyFlipHorizontal, feature.secondScreenEncodeType, BGR888))
      ensures bgGifHelper == if old(bgGifHelper).Some? || !feature.supportBackGroundGif then old(bgGifHelper) else
        Some(CropHelper(0, 0, info.width, info.height, info.bgRotateAngle, Scale, info.bgFlipVertical, info.bgFlipHorizontal,
                        feature.backgroundGifEncodeType, BGR888))
    {
      if bgHelper.None? {
        bgHelper := Some(SizeHelper(info.width, info.height, info.bgRotateAngle, Scale, info.bgFlipVertical,
                                    info.bgFlipHorizontal, info.backgroundEncodeType, info.backgroundEncodeFormat));
      }
      if kyHelper.None? {
        kyHelper := Some(SizeHelper(info.keyWidth, info.keyHeight, info.keyRotateAngle, Scale, info.keyFlipVertical,
                                    info.keyFlipHorizontal, info.keyEncodeType, BGR888));
      }
      if secondHelper.None? && feature.hasSecondScreen {
        secondHelper := Some(SizeHelper(feature.secondScreenWidth, feature.secondScreenHeight, info.keyRotateAngle, Scale,
                                        info.keyFlipVertical, info.keyFlipHorizontal, feature.secondScreenEncodeType, BGR888));
      }
      if bgGifHelper.None? && feature.supportBackGroundGif {
        bgGifHelper := Some(CropHelper(0, 0, info.width, info.height, info.bgRotateAngle, Scale, info.bgFlipVertical,
                                       info.bgFlipHorizontal, feature.backgroundGifEncodeType, BGR888));
      }
    }

    /** `getFirmwareVersion`: the stored version, or the device's answer while none is stored. */
    function FirmwareVersion(): (v: string)
      reads this`info
      ensures info.firmwareVersion != "" ==> v == info.firmwareVersion
      ensures info.firmwareVersion == "" ==> v == deviceFirmware
    {
      if info.firmwareVersion == "" then deviceFirmware else info.firmwareVersion
    }

    predicate InMainRange(key: int)
      reads this`info
    {
      info.minKey <= key <= info.maxKey
    }

    predicate InSecondRange(key: int)
      reads this`feature
    {
      feature.min2rdScreenKey <= key <= feature.max2rdScreenKey
    }

    /**
     * `outOfRange`: outside the key range and, on a dual device, outside
     * the second-screen range too. A device that is not dual never
     * reports a key out of range.
     */
    function OutOfRange(key: int): (r: bool)
      reads this`info, this`feature
      ensures !feature.isDualDevice ==> !r
      ensures r ==> !InMainRange(key) && !InSecondRange(key)
      ensures feature.isDualDevice && !InMainRange(key) && !InSecondRange(key) ==> r
    {
      !InMainRange(key) && (if feature.isDualDevice then !InSecondRange(key) else false)
    }

    /** `getKyImgHelper`: the key helper for main keys, the second-screen helper for its keys, else a default helper. */
    function KyImgHelper(key: int): (h: ImgHelper)
      reads this`info, this`feature, this`kyHelper, this`secondHelper
      ensures InMainRange(key) && kyHelper.Some? ==> h == kyHelper.value
      ensures !(InMainRange(key) && kyHelper.Some?) && feature.hasSecondScreen && InSecondRange(key) && secondHelper.Some?
              ==> h == secondHelper.value
      ensures h == DefaultHelper() || Some(h) == kyHelper || Some(h) == secondHelper
    {
      if InMainRange(key) && kyHelper.Some? then kyHelper.value
      else if feature.hasSecondScreen && InSecondRange(key) && secondHelper.Some? then secondHelper.value
      else DefaultHelper()
    }

    /** `canTransportWrite`. */
    predicate CanTransportWrite()
      reads this`canWrite
    {
      canWrite
    }

    /** What `setKeyImgFileStream` lets through: key in range, a writable transport, and data matching the key helper's type. */
    predicate KeyImageAccepted(stream: seq<Byte>, key: Byte)
      requires kyHelper.Some?
      reads this`info, this`feature, this`kyHelper, this`canWrite
    {
      !OutOfRange(key) && CanTransportWrite() &&
      !(kyHelper.value.imgType == JPG && !IsJpegData(stream)) &&
      !(feature.supportTransparentIcon && kyHelper.value.imgType == PNG && !IsPngData(stream))
    }

    /** `setKeyImgFileStream`: one key-image command when the checks pass, nothing otherwise. */
    method SetKeyImgFileStream(stream: seq<Byte>, key: Byte)
      requires kyHelper.Some?
      modifies this`log
      ensures log == old(log) + if KeyImageAccepted(stream, key) then [KeyImageStream(stream, key)] else []
    {
      if OutOfRange(key) {
        return;
      }
      if !CanTransportWrite() {
        return;
      }
      if (kyHelper.value.imgType == JPG && !IsJpegData(stream)) ||
         (feature.supportTransparentIcon && kyHelper.value.imgType == PNG && !IsPngData(stream)) {
        return;
      }
      log := log + [KeyImageStream(stream, key)];
    }

    /** The commands `setBackgroundImgStream` sends: a JPEG-checked stream on a dual device, a bitmap otherwise. */
    function BackgroundCommands(stream: seq<Byte>, timeoutMs: nat): (cs: seq<Command>)
      reads this`feature, this`canWrite
      ensures |cs| <= 1
      ensures cs != [] ==> CanTransportWrite()
      ensures feature.isDualDevice ==> cs == if CanTransportWrite() && IsJpegData(stream) then [BackgroundImageStream(stream, timeoutMs)] else []
      ensures !feature.isDualDevice ==> cs == if CanTransportWrite() then [BackgroundBitmap(stream, timeoutMs)] else []
    {
      if !CanTransportWrite() then []
      else if feature.isDualDevice then
        if !IsJpegData(stream) then [] else [BackgroundImageStream(stream, timeoutMs)]
      else [BackgroundBitmap(stream, timeoutMs)]
    }

    /** `setBackgroundImgStream`. */
    method SetBackgroundImgStream(stream: seq<Byte>, timeoutMs: nat)
      modifies this`log
      ensures log == old(log) + BackgroundCommands(stream, timeoutMs)
    {
      if !CanTransportWrite() {
        return;
      }
      if feature.isDualDevice {
        if !IsJpegData(stream) {
          return;
        }
        log := log + [BackgroundImageStream(stream, timeoutMs)];
      } else {
        log := log + [BackgroundBitmap(stream, timeoutMs)];
      }
    }

    /** `getBgImgHelper`: the background helper, or a default (zero-sized) one while there is none. */
    function BgImgHelper(): (h: ImgHelper)
      reads this`bgHelper
      ensures bgHelper.Some? ==> h == bgHelper.value
      ensures bgHelper.None? ==> h.width == 0 && h.height == 0
    {
      if bgHelper.Some? then bgHelper.value else DefaultHelper()
    }

    /** `getBackgroundGifHelper`: the background-GIF helper, or a default (zero-sized) one while there is none. */
    function BackgroundGifHelper(): (h: ImgHelper)
      reads this`bgGifHelper
      ensures bgGifHelper.Some? ==> h == bgGifHelper.value
      ensures bgGifHelper.None? ==> h.width == 0 && h.height == 0
    {
      if bgGifHelper.Some? then bgGifHelper.value else DefaultHelper()
    }

    /** `refresh`: sent only to a writable transport. */
    method Refresh()
      modifies this`log
      ensures log == old(log) + if CanTransportWrite() then [RefreshScreen] else []
    {
      if CanTransportWrite() {
        log := log + [RefreshScreen];
      }
    }

    /** `clearKey`: refused out of range, sent only to a writable transport. */
    method ClearKey(key: Byte)
      modifies this`log
      ensures log == old(log) + if !OutOfRange(key) && CanTransportWrite() then [ClearKeyCommand(key)] else []
    {
      if OutOfRange(key) {
        return;
      }
      if CanTransportWrite() {
        log := log + [ClearKeyCommand(key)];
      }
    }
  }

  /** On a device that is not dual, any JPEG-typed key image with a JPEG stream is sent, whatever the key number. */
  lemma NonDualAcceptsAnyKey(d: StreamDock, stream: seq<Byte>, key: Byte)
    requires d.kyHelper.Some? && d.kyHelper.value.imgType == JPG
    requires !d.feature.isDualDevice && d.canWrite && IsJpegData(stream)
    ensures d.KeyImageAccepted(stream, key)
  {
  }

  /** Whatever is sent as a key image passed the range check and, for a JPEG helper, starts with FF D8. */
  lemma AcceptedKeyImage(d: StreamDock, stream: seq<Byte>, key: Byte)
    requires d.kyHelper.Some? && d.KeyImageAccepted(stream, key)
    ensures d.canWrite
    ensures d.feature.isDualDevice ==> d.InMainRange(key) || d.InSecondRange(key)
    ensures d.kyHelper.value.imgType == JPG ==> |stream| >= 4 && stream[..2] == [0xFF, 0xD8]
    ensures d.kyHelper.value.imgType == PNG && d.feature.supportTransparentIcon ==> stream[..8] == PngSignature
  {
  }

  /** After `initImgHelper`, main keys get the key-sized helper and second-screen keys the second-screen-sized one. */
  lemma HelperSizesAfterInit(d: StreamDock, key: int)
    requires d.kyHelper == Some(SizeHelper(d.info.keyWidth, d.info.keyHeight, d.info.keyRotateAngle, Scale,
                                           d.info.keyFlipVertical, d.info.keyFlipHorizontal, d.info.keyEncodeType, BGR888))
    requires d.feature.hasSecondScreen
    requires d.secondHelper == Some(SizeHelper(d.feature.secondScreenWidth, d.feature.secondScreenHeight, d.info.keyRotateAngle,
                                               Scale, d.info.keyFlipVertical, d.info.keyFlipHorizontal,
                                               d.feature.secondScreenEncodeType, BGR888))
    ensures d.InMainRange(key) ==> d.KyImgHelper(key).width == d.info.keyWidth && d.KyImgHelper(key).height == d.info.keyHeight
    ensures !d.InMainRange(key) && d.InSecondRange(key) ==>
      d.KyImgHelper(key).width == d.feature.secondScreenWidth && d.KyImgHelper(key).height == d.feature.secondScreenHeight
    ensures !d.InMainRange(key) && !d.InSecondRange(key) ==> d.KyImgHelper(key) == DefaultHelper()
  {
  }
}
