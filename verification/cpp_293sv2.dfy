/**
 * StreamDock293sV2 (C++): the 293sV3's keys and second screen on the
 * single-image generation, with an uncompressed BGR background.
 */
module Cpp293sV2 {
  import opened Common
  import opened CppTypes
  import opened CppImgHelper
  import opened CppStreamDock
  import Cpp293sV3

  /** Each entry of the table below (logical key -> reported byte); 0 where there is none. */
  function KeyCode(k: Byte): Byte
  {
    match k
    case 1 => 0x01 case 2 => 0x02 case 3 => 0x03 case 4 => 0x04 case 5 => 0x05
    case 6 => 0x06 case 7 => 0x07 case 8 => 0x08 case 9 => 0x09 case 10 => 0x0A
    case 11 => 0x0B case 12 => 0x0C case 13 => 0x0D case 14 => 0x0E case 15 => 0x0F
    case _ => 0
  }

  /** `_readValueMap`, written out again in this class. */
  const ReadValueMap: ReadValueMap := map k: Byte | KeyCode(k) != 0 :: KeyCode(k)

  function Info(vendorId: nat, productId: nat, serial: string): DeviceInfo
  {
    DefaultInfo().(originType := SD293s, vendorId := vendorId, productId := productId,
                   serialNumber := serial, width := 854, height := 480, keyWidth := 96, keyHeight := 96,
                   minKey := 1, maxKey := 15, keyRotateAngle := 270, bgRotateAngle := 270,
                   backgroundEncodeType := RAW, backgroundEncodeFormat := BGR888)
  }

  /** A second screen but no dual-image mode. */
  const Feature: FeatureOption := DefaultFeature().(hasSecondScreen := true,
                                                     min2rdScreenKey := 16, max2rdScreenKey := 18,
                                                     secondScreenWidth := 80, secondScreenHeight := 80)

  /** `dispatchEvent`, written out again in this class. */
  function Dispatch(readValue: Byte, eventValue: Byte): RegisterEvent
  {
    if 0x01 <= readValue <= 0x0F && eventValue == 0x00 then KeyRelease
    else if 0x01 <= readValue <= 0x0F && eventValue == 0x01 then KeyPress
    else EveryThing
  }

  /** Table and dispatch are the 293sV3's; the features differ only in the dual flag. */
  lemma SameAs293sV3(readValue: Byte, eventValue: Byte)
    ensures ReadValueMap == Cpp293sV3.ReadValueMap
    ensures DistinctCodes(ReadValueMap)
    ensures Dispatch(readValue, eventValue) == Cpp293sV3.Dispatch(readValue, eventValue)
    ensures Feature.(isDualDevice := true) == Cpp293sV3.Feature
    ensures Info(0, 0, "").(backgroundEncodeType := JPG) == Cpp293sV3.Info(0, 0, "")
  {
    Cpp293sV3.ReadValueMapIdentity();
  }

  /**
   * Without the dual flag the range check never refuses a key: the 293sV3
   * refuses key 19, the 293sV2 lets it through and draws it with the
   * default helper.
   */
  lemma NoRangeCheck(d: StreamDock, key: Byte)
    requires d.info == Info(d.info.vendorId, d.info.productId, d.info.serialNumber) && d.feature == Feature
    requires key > 18
    ensures !d.OutOfRange(key)
    ensures d.KyImgHelper(key) == DefaultHelper()
  {
  }
}
