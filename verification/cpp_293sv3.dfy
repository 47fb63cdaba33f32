/**
 * StreamDock293sV3 (C++): fifteen keys that report their own number, and
 * a three-key second screen that only displays.
 */
module Cpp293sV3 {
  import opened Common
  import opened CppTypes
  import opened CppImgHelper
  import opened CppStreamDock

  /** Each entry of the table below (logical key -> reported byte); 0 where there is none. */
  function KeyCode(k: Byte): Byte
  {
    match k
    case 1 => 0x01 case 2 => 0x02 case 3 => 0x03 case 4 => 0x04 case 5 => 0x05
    case 6 => 0x06 case 7 => 0x07 case 8 => 0x08 case 9 => 0x09 case 10 => 0x0A
    case 11 => 0x0B case 12 => 0x0C case 13 => 0x0D case 14 => 0x0E case 15 => 0x0F
    case _ => 0
  }

  /** `_readValueMap`: every key reports its own number. */
  const ReadValueMap: ReadValueMap := map k: Byte | KeyCode(k) != 0 :: KeyCode(k)

  function Info(vendorId: nat, productId: nat, serial: string): DeviceInfo
  {
    DefaultInfo().(originType := SD293s, vendorId := vendorId, productId := productId,
                   serialNumber := serial, width := 854, height := 480, keyWidth := 96, keyHeight := 96,
                   minKey := 1, maxKey := 15, keyRotateAngle := 270, bgRotateAngle := 270)
  }

  const Feature: FeatureOption := DefaultFeature().(isDualDevice := true, hasSecondScreen := true,
                                                     min2rdScreenKey := 16, max2rdScreenKey := 18,
                                                     secondScreenWidth := 80, secondScreenHeight := 80)

  /** `dispatchEvent`. */
  function Dispatch(readValue: Byte, eventValue: Byte): RegisterEvent
  {
    if 0x01 <= readValue <= 0x0F && eventValue == 0x00 then KeyRelease
    else if 0x01 <= readValue <= 0x0F && eventValue == 0x01 then KeyPress
    else EveryThing
  }

  /** The table is the identity on 1..15, so its codes are distinct and it is its own inverse. */
  lemma {:induction false} ReadValueMapIdentity()
    ensures forall k | k in ReadValueMap :: ReadValueMap[k] == k
    ensures forall k: Byte :: k in ReadValueMap <==> 1 <= k <= 15
    ensures IsInverse(ReadValueMap, ReadValueMap)
    ensures DistinctCodes(ReadValueMap)
  {
    forall k | k in ReadValueMap ensures ReadValueMap[k] == k {
      IdentityAt(k);
    }
    InverseDistinct(ReadValueMap, ReadValueMap);
  }

  lemma IdentityAt(k: Byte)
    requires k in ReadValueMap
    ensures ReadValueMap[k] == k
  {
  }

  /**
   * The second-screen keys 16..18 report nothing; they are accepted for
   * images and drawn with the 80x80 helper.
   */
  lemma SecondScreenDisplayOnly(d: StreamDock, key: Byte, eventValue: Byte)
    requires d.info == Info(d.info.vendorId, d.info.productId, d.info.serialNumber) && d.feature == Feature
    requires d.secondHelper.Some? && d.secondHelper.value.width == 80 && d.secondHelper.value.height == 80
    requires 16 <= key <= 18
    ensures forall k | k in ReadValueMap :: ReadValueMap[k] != key
    ensures Dispatch(key, eventValue) == EveryThing
    ensures !d.OutOfRange(key)
    ensures d.KyImgHelper(key).width == 80 && d.KyImgHelper(key).height == 80
  {
    ReadValueMapIdentity();
  }

  /** A key number beyond the second screen is refused. */
  lemma BeyondSecondScreen(d: StreamDock, key: Byte)
    requires d.info == Info(d.info.vendorId, d.info.productId, d.info.serialNumber) && d.feature == Feature
    requires key == 0 || key > 18
    ensures d.OutOfRange(key)
  {
  }
}
