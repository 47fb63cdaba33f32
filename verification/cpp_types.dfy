/**
 * Shared vocabulary of the C++ SDK: the input events a device reports,
 * the per-model device description and feature flags, image types and
 * formats, and the read-value table every device class fills in.
 */
module CppTypes {
  import opened Common

  /** A C++ `uint16_t`. */
  type U16 = x: int | 0 <= x < 0x1_0000

  /** The `hid_device_info` fields the SDK reads. */
  datatype HidDeviceInfo = HidDeviceInfo(
    path: string, vendorId: U16, productId: U16,
    serialNumber: string, releaseNumber: U16,
    usagePage: U16, usage: U16, interfaceNumber: int)

  /** `RegisterEvent`, with the numeric values of its enumerators. */
  datatype RegisterEvent =
    | EveryThing | KeyPress | KeyRelease | KnobLeft | KnobRight
    | KnobPress | KnobRelease | SwipeLeft | SwipeRight | ToggleUp | ToggleDown

  function EventCode(e: RegisterEvent): (c: Byte)
    ensures e == EveryThing <==> c == 0xFF
    ensures e != EveryThing ==> 1 <= c <= 0x0A
  {
    match e
    case EveryThing => 0xFF
    case KeyPress => 0x01
    case KeyRelease => 0x02
    case KnobLeft => 0x03
    case KnobRight => 0x04
    case KnobPress => 0x05
    case KnobRelease => 0x06
    case SwipeLeft => 0x07
    case SwipeRight => 0x08
    case ToggleUp => 0x09
    case ToggleDown => 0x0A
  }

  /** No two enumerators share a value. */
  lemma EventCodeInjective(a: RegisterEvent, b: RegisterEvent)
    ensures EventCode(a) == EventCode(b) ==> a == b
  {
  }

  /** `DeviceOriginType`. */
  datatype DeviceOriginType =
    | UnknownOrigin | SD293 | SD293s | SDN3 | SDN1 | SDN4 | SDM18 | SDN4Pro | SDXL | SDM3 | K1ProOrigin

  /**
   * The concrete C++ class behind a device. Several classes share one
   * origin type (the N3 generations, the 293 generations), so dispatch is
   * chosen by class, not by origin type.
   */
  datatype DeviceClass =
    | N4ProClass | N4Class | K1ProClass | M3Class | N1Class | N3V25Class | N3V2Class
    | XLClass | M18Class | S293V3Class | S293sV2Class | S293sV3Class | S293V2Class

  datatype ImgFormat = BGR888 | RGB16 | RGB888

  datatype ImgType = RAW | JPG | PNG | BMP | WEBP

  /**
   * `StreamDockInfo`. Rotation angles are whole degrees: every device
   * constructor assigns one of -90, 0, 90, 180 or 270.
   */
  datatype DeviceInfo = DeviceInfo(
    originType: DeviceOriginType,
    vendorId: nat, productId: nat,
    serialNumber: string, firmwareVersion: string,
    width: nat, height: nat, keyWidth: nat, keyHeight: nat,
    minKey: nat, maxKey: nat,
    keyEncodeType: ImgType, backgroundEncodeType: ImgType, backgroundEncodeFormat: ImgFormat,
    keyFlipVertical: bool, keyFlipHorizontal: bool,
    bgFlipVertical: bool, bgFlipHorizontal: bool,
    keyRotateAngle: int, bgRotateAngle: int)

  /** The member initialisers of `StreamDockInfo`. */
  function DefaultInfo(): (i: DeviceInfo)
    ensures i.originType == UnknownOrigin && i.minKey == 0 && i.maxKey == 0
    ensures i.keyEncodeType == JPG && i.backgroundEncodeType == JPG && i.backgroundEncodeFormat == BGR888
  {
    DeviceInfo(UnknownOrigin, 0, 0, "", "", 0, 0, 0, 0, 0, 0, JPG, JPG, BGR888,
               false, false, false, false, 0, 0)
  }

  /** `FeatureOption`. */
  datatype FeatureOption = FeatureOption(
    isDualDevice: bool, hasSecondScreen: bool, hasRGBLed: bool,
    supportBackGroundGif: bool, supportTransparentIcon: bool, supportConfig: bool,
    min2rdScreenKey: nat, max2rdScreenKey: nat,
    secondScreenWidth: nat, secondScreenHeight: nat,
    secondScreenEncodeType: ImgType, backgroundGifEncodeType: ImgType,
    ledCounts: nat)

  /** The member initialisers of `FeatureOption`: every flag off, every size zero. */
  function DefaultFeature(): (f: FeatureOption)
    ensures !f.isDualDevice && !f.hasSecondScreen && !f.hasRGBLed
    ensures !f.supportBackGroundGif && !f.supportTransparentIcon && !f.supportConfig
    ensures f.min2rdScreenKey == 0 && f.max2rdScreenKey == 0 && f.ledCounts == 0
  {
    FeatureOption(false, false, false, false, false, false, 0, 0, 0, 0, JPG, JPG, 0)
  }

  /**
   * `_readValueMap`: logical key -> the byte the device reports for it.
   * The C++ container is an unordered map keyed by the logical key.
   */
  type ReadValueMap = map<Byte, Byte>

  /** No two logical keys share a reported byte. */
  predicate DistinctCodes(m: ReadValueMap)
  {
    forall a, b | a in m && b in m && a != b :: m[a] != m[b]
  }

  /** `inv` undoes `m` on its whole domain and holds nothing else. */
  predicate IsInverse(m: ReadValueMap, inv: ReadValueMap)
  {
    (forall k | k in m :: m[k] in inv && inv[m[k]] == k) &&
    (forall c | c in inv :: inv[c] in m && m[inv[c]] == c)
  }

  /** A table with an inverse has distinct codes, and its codes are the inverse's keys. */
  lemma InverseDistinct(m: ReadValueMap, inv: ReadValueMap)
    requires IsInverse(m, inv)
    ensures DistinctCodes(m)
    ensures m.Values == inv.Keys
  {
    forall a, b | a in m && b in m && a != b ensures m[a] != m[b] {
      assert inv[m[a]] == a && inv[m[b]] == b;
    }
    forall c | c in inv ensures c in m.Values {
      assert m[inv[c]] == c;
    }
  }

  /** The logical key a reported byte stands for, when the table has one. */
  ghost predicate MapsTo(m: ReadValueMap, logical: Byte, code: Byte)
  {
    logical in m && m[logical] == code
  }

  /** With distinct codes, at most one logical key reports a given byte. */
  lemma MapsToUnique(m: ReadValueMap, a: Byte, b: Byte, code: Byte)
    requires DistinctCodes(m)
    requires MapsTo(m, a, code) && MapsTo(m, b, code)
    ensures a == b
  {
  }
}
