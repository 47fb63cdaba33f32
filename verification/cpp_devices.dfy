/**
 * The C++ device classes side by side: what each class's constructor
 * fills in, its `dispatchEvent`, the (vendor, product) pairs each class
 * registers with the factory, and the creator each registration installs.
 */
module CppDevices {
  import opened Common
  import opened CppTypes
  import opened CppImgHelper
  import opened CppStreamDock
  import CppN4Pro
  import CppN4
  import CppK1Pro
  import CppM3
  import CppN1
  import CppN3V25
  import CppN3V2
  import CppXL
  import CppM18
  import Cpp293V3
  import Cpp293sV2
  import Cpp293sV3
  import Cpp293V2

  /** The `_readValueMap` each class's constructor installs. */
  function ReadValueMapOf(cls: DeviceClass): ReadValueMap
  {
    match cls
    case N4ProClass => CppN4Pro.ReadValueMap
    case N4Class => CppN4.ReadValueMap
    case K1ProClass => CppK1Pro.ReadValueMap
    case M3Class => CppM3.ReadValueMap
    case N1Class => CppN1.ReadValueMap
    case N3V25Class => CppN3V25.ReadValueMap
    case N3V2Class => CppN3V2.ReadValueMap
    case XLClass => CppXL.ReadValueMap
    case M18Class => CppM18.ReadValueMap
    case S293V3Class => Cpp293V3.ReadValueMap
    case S293sV2Class => Cpp293sV2.ReadValueMap
    case S293sV3Class => Cpp293sV3.ReadValueMap
    case S293V2Class => Cpp293V2.ReadValueMap
  }

  /** The overriding `dispatchEvent` of each class. */
  function DispatchOf(cls: DeviceClass, readValue: Byte, eventValue: Byte): RegisterEvent
  {
    match cls
    case N4ProClass => CppN4Pro.Dispatch(readValue, eventValue)
    case N4Class => CppN4.Dispatch(readValue, eventValue)
    case K1ProClass => CppK1Pro.Dispatch(readValue, eventValue)
    case M3Class => CppM3.Dispatch(readValue, eventValue)
    case N1Class => CppN1.Dispatch(readValue, eventValue)
    case N3V25Class => CppN3V25.Dispatch(readValue, eventValue)
    case N3V2Class => CppN3V2.Dispatch(readValue, eventValue)
    case XLClass => CppXL.Dispatch(readValue, eventValue)
    case M18Class => CppM18.Dispatch(readValue, eventValue)
    case S293V3Class => Cpp293V3.Dispatch(readValue, eventValue)
    case S293sV2Class => Cpp293sV2.Dispatch(readValue, eventValue)
    case S293sV3Class => Cpp293sV3.Dispatch(readValue, eventValue)
    case S293V2Class => Cpp293V2.Dispatch(readValue, eventValue)
  }

  /** The `_info` each class's constructor fills in from the HID descriptor. */
  function InfoOf(cls: DeviceClass, vendorId: nat, productId: nat, serial: string): DeviceInfo
  {
    match cls
    case N4ProClass => CppN4Pro.Info(vendorId, productId, serial)
    case N4Class => CppN4.Info(vendorId, productId, serial)
    case K1ProClass => CppK1Pro.Info(vendorId, productId, serial)
    case M3Class => CppM3.Info(vendorId, productId, serial)
    case N1Class => CppN1.Info(vendorId, productId, serial)
    case N3V25Class => CppN3V25.Info(vendorId, productId, serial)
    case N3V2Class => CppN3V2.Info(vendorId, productId, serial)
    case XLClass => CppXL.Info(vendorId, productId, serial)
    case M18Class => CppM18.Info(vendorId, productId, serial)
    case S293V3Class => Cpp293V3.Info(vendorId, productId, serial)
    case S293sV2Class => Cpp293sV2.Info(vendorId, productId, serial)
    case S293sV3Class => Cpp293sV3.Info(vendorId, productId, serial)
    case S293V2Class => Cpp293V2.Info(vendorId, productId, serial)
  }

  /** The `_feature` assignments each class's constructor makes before any firmware switch. */
  function FeatureOf(cls: DeviceClass): FeatureOption
  {
    match cls
    case N4ProClass => CppN4Pro.Feature
    case N4Class => CppN4.Feature
    case K1ProClass => CppK1Pro.Feature
    case M3Class => CppM3.Feature
    case N1Class => CppN1.Feature
    case N3V25Class => CppN3V25.Feature
    case N3V2Class => CppN3V2.Feature
    case XLClass => CppXL.Feature
    case M18Class => CppM18.Feature
    case S293V3Class => Cpp293V3.Feature
    case S293sV2Class => Cpp293sV2.Feature
    case S293sV3Class => Cpp293sV3.Feature
    case S293V2Class => Cpp293V2.Feature
  }

  /** The features once the constructor is done: only the N3V25 switches, on the firmware it reads. */
  function ConstructedFeature(cls: DeviceClass, firmware: string): (f: FeatureOption)
    ensures cls != N3V25Class ==> f == FeatureOf(cls)
    ensures cls == N3V25Class ==> f == CppN3V25.ApplyMode(CppN3V25.Feature, CppN3V25.ModeOf(firmware))
  {
    if cls == N3V25Class then CppN3V25.ApplyMode(CppN3V25.Feature, CppN3V25.ModeOf(firmware))
    else FeatureOf(cls)
  }

  /** In every class no two logical keys share a reported byte, so the read loop's reverse lookup is unambiguous. */
  lemma TablesDistinct(cls: DeviceClass)
    ensures DistinctCodes(ReadValueMapOf(cls))
  {
    hide DistinctCodes;
    match cls
    case N4ProClass => CppN4Pro.ReadValueMapDistinct();
    case N4Class => CppN4.SameAsN4Pro(0, 0);
    case K1ProClass => CppK1Pro.ReadValueMapDistinct();
    case M3Class => CppM3.ReadValueMapDistinct();
    case N1Class => CppN1.ReadValueMapDistinct();
    case N3V25Class => CppN3V25.ReadValueMapDistinct();
    case N3V2Class => CppN3V2.SameAsN3V25(0, 0);
    case XLClass => CppXL.ReadValueMapDistinct();
    case M18Class => CppM18.ReadValueMapDistinct();
    case S293V3Class => Cpp293V3.ReadValueMapDistinct();
    case S293sV2Class => Cpp293sV2.SameAs293sV3(0, 0);
    case S293sV3Class => Cpp293sV3.ReadValueMapIdentity();
    case S293V2Class => Cpp293V2.SameAs293V3(0, 0);
  }

  /** Every class's main key range is non-empty and the identity fields come from the descriptor. */
  lemma InfoWellFormed(cls: DeviceClass, vendorId: nat, productId: nat, serial: string)
    ensures var i := InfoOf(cls, vendorId, productId, serial);
      1 <= i.minKey <= i.maxKey && i.vendorId == vendorId && i.productId == productId &&
      i.serialNumber == serial && i.firmwareVersion == "" && i.originType != UnknownOrigin
  {
  }

  /** No class's constructor fills in the firmware version; `enumerator` does, after construction. */
  lemma InfoFirmwareUnset(cls: DeviceClass, vendorId: nat, productId: nat, serial: string)
    ensures InfoOf(cls, vendorId, productId, serial).firmwareVersion == ""
  {
    InfoWellFormed(cls, vendorId, productId, serial);
  }

  /** A class reports second-screen keys only if it is built with a second screen whose range lies outside the main keys. */
  lemma SecondScreenDisjoint(cls: DeviceClass, key: int)
    requires FeatureOf(cls).hasSecondScreen
    ensures var i := InfoOf(cls, 0, 0, "");
      var f := FeatureOf(cls);
      f.min2rdScreenKey <= f.max2rdScreenKey && !(i.minKey <= key <= i.maxKey && f.min2rdScreenKey <= key <= f.max2rdScreenKey)
  {
  }

  /** One factory registration: a (vendor, product) pair and the class its creator builds. */
  datatype Registration = Registration(vid: U16, pid: U16, cls: DeviceClass)

  /** Every `registerDevice` call the device classes make at static initialisation. */
  const Registrations: seq<Registration> := [
    Registration(0x5548, 0x1008, N4ProClass), Registration(0x5548, 0x1021, N4ProClass),
    Registration(0x6602, 0x1001, N4Class), Registration(0x6603, 0x1007, N4Class),
    Registration(0x6603, 0x1015, K1ProClass), Registration(0x6603, 0x1019, K1ProClass),
    Registration(0x5548, 0x1020, M3Class),
    Registration(0x6603, 0x1011, N1Class), Registration(0x6603, 0x1000, N1Class),
    Registration(0x6603, 0x1002, N3V25Class), Registration(0x6603, 0x1003, N3V25Class),
    Registration(0x6602, 0x1000, N3V2Class), Registration(0x6602, 0x1002, N3V2Class),
    Registration(0x5548, 0x1028, XLClass), Registration(0x5548, 0x1031, XLClass),
    Registration(0x6603, 0x1009, M18Class), Registration(0x6603, 0x1012, M18Class),
    Registration(0x6603, 0x1005, S293V3Class), Registration(0x6603, 0x1006, S293V3Class),
    Registration(0x5548, 0x6670, S293sV2Class),
    Registration(0x6603, 0x1014, S293sV3Class),
    Registration(0x5500, 0x1001, S293V2Class)]

  /** Position of each pair in `Registrations`. */
  const RegistrationIndex: map<(U16, U16), nat> := map[
    (0x5548, 0x1008) := 0, (0x5548, 0x1021) := 1,
    (0x6602, 0x1001) := 2, (0x6603, 0x1007) := 3,
    (0x6603, 0x1015) := 4, (0x6603, 0x1019) := 5,
    (0x5548, 0x1020) := 6,
    (0x6603, 0x1011) := 7, (0x6603, 0x1000) := 8,
    (0x6603, 0x1002) := 9, (0x6603, 0x1003) := 10,
    (0x6602, 0x1000) := 11, (0x6602, 0x1002) := 12,
    (0x5548, 0x1028) := 13, (0x5548, 0x1031) := 14,
    (0x6603, 0x1009) := 15, (0x6603, 0x1012) := 16,
    (0x6603, 0x1005) := 17, (0x6603, 0x1006) := 18,
    (0x5548, 0x6670) := 19,
    (0x6603, 0x1014) := 20,
    (0x5500, 0x1001) := 21]

  function KeyOf(r: Registration): (U16, U16)
  {
    (r.vid, r.pid)
  }

  /** No two registrations share a pair. */
  predicate PairsDistinct(regs: seq<Registration>)
  {
    forall i, j | 0 <= i < |regs| && 0 <= j < |regs| && i != j :: KeyOf(regs[i]) != KeyOf(regs[j])
  }

  lemma IndexAt(i: nat)
    requires i < |Registrations|
    ensures KeyOf(Registrations[i]) in RegistrationIndex && RegistrationIndex[KeyOf(Registrations[i])] == i
  {
  }

  /**
   * The twenty-two registered pairs are pairwise distinct, so no
   * registration overwrites another and the order in which the static
   * initialisers run does not matter.
   */
  lemma {:induction false} RegistrationsDistinct()
    ensures PairsDistinct(Registrations)
  {
    forall i, j | 0 <= i < |Registrations| && 0 <= j < |Registrations| && i != j
      ensures KeyOf(Registrations[i]) != KeyOf(Registrations[j])
    {
      IndexAt(i);
      IndexAt(j);
    }
  }

  lemma N3V25Feature()
    ensures FeatureOf(N3V25Class) == CppN3V25.Feature
  {
  }

  /**
   * The creator a registration installs: construct the class (the N3V25
   * switching its features on the firmware it reads), then `init` and
   * `initImgHelper`.
   */
  method Construct(cls: DeviceClass, device: HidDeviceInfo, canWrite: bool, firmware: string) returns (d: StreamDock)
    ensures fresh(d)
    ensures d.cls == cls && d.readValueMap == ReadValueMapOf(cls) && d.deviceFirmware == firmware
    ensures d.info == InfoOf(cls, device.vendorId, device.productId, device.serialNumber)
    ensures d.feature == ConstructedFeature(cls, firmware)
    ensures d.canWrite == canWrite && d.log == []
    ensures d.readController && d.rgbController == d.feature.hasRGBLed
    ensures d.gifController == d.feature.isDualDevice && d.configer == d.feature.supportConfig
    ensures d.kyHelper == Some(SizeHelper(d.info.keyWidth, d.info.keyHeight, d.info.keyRotateAngle, Scale,
                                          d.info.keyFlipVertical, d.info.keyFlipHorizontal, d.info.keyEncodeType, BGR888))
    ensures d.bgHelper == Some(SizeHelper(d.info.width, d.info.height, d.info.bgRotateAngle, Scale, d.info.bgFlipVertical,
                                          d.info.bgFlipHorizontal, d.info.backgroundEncodeType, d.info.backgroundEncodeFormat))
    ensures d.secondHelper.Some? <==> d.feature.hasSecondScreen
    ensures d.bgGifHelper.Some? <==> d.feature.supportBackGroundGif
  {
    hide *;
    d := new StreamDock(cls, InfoOf(cls, device.vendorId, device.productId, device.serialNumber), FeatureOf(cls),
                        ReadValueMapOf(cls), canWrite, firmware);
    if cls == N3V25Class {
      N3V25Feature();
      InfoFirmwareUnset(cls, device.vendorId, device.productId, device.serialNumber);
      CppN3V25.ChangeFirmwareVersionMode(d);
    }
    d.Init();
    d.InitImgHelper();
  }

  /** A V25-firmware N3V25 ends up single-image with no GIF controller and no GIF helper; a V3 one keeps both images but still no GIF. */
  lemma N3V25Generations(firmware: string)
    ensures CppN3V25.ModeOf(firmware) == CppN3V25.V25Mode ==>
      !ConstructedFeature(N3V25Class, firmware).isDualDevice && !ConstructedFeature(N3V25Class, firmware).supportBackGroundGif
    ensures CppN3V25.ModeOf(firmware) != CppN3V25.V25Mode ==> ConstructedFeature(N3V25Class, firmware).isDualDevice
    ensures !ConstructedFeature(N3V25Class, firmware).supportBackGroundGif
  {
  }
}
