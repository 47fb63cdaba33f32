/**
 * StreamDock293V2 (C++): the 293V3's keys on the single-image generation,
 * with 100-pixel keys and an uncompressed BGR background.
 */
module Cpp293V2 {
  import opened Common
  import opened CppTypes
  import opened CppStreamDock
  import Cpp293V3

  /** Each entry of the table below (logical key -> reported byte); 0 where there is none. */
  function KeyCode(k: Byte): Byte
  {
    match k
    case 1 => 0x0B case 2 => 0x0C case 3 => 0x0D case 4 => 0x0E case 5 => 0x0F
    case 6 => 0x06 case 7 => 0x07 case 8 => 0x08 case 9 => 0x09 case 10 => 0x0A
    case 11 => 0x01 case 12 => 0x02 case 13 => 0x03 case 14 => 0x04 case 15 => 0x05
    case _ => 0
  }

  /** `_readValueMap`, written out again in this class. */
  const ReadValueMap: ReadValueMap := map k: Byte | KeyCode(k) != 0 :: KeyCode(k)

  function Info(vendorId: nat, productId: nat, serial: string): DeviceInfo
  {
    DefaultInfo().(originType := SD293, vendorId := vendorId, productId := productId,
                   serialNumber := serial, width := 800, height := 480, keyWidth := 100, keyHeight := 100,
                   minKey := 1, maxKey := 15, keyRotateAngle := 180, bgRotateAngle := 180,
                   backgroundEncodeType := RAW, backgroundEncodeFormat := BGR888)
  }

  /** No feature is switched on. */
  const Feature: FeatureOption := DefaultFeature()

  /** `dispatchEvent`, written out again in this class. */
  function Dispatch(readValue: Byte, eventValue: Byte): RegisterEvent
  {
    if 0x01 <= readValue <= 0x0F && eventValue == 0x00 then KeyRelease
    else if 0x01 <= readValue <= 0x0F && eventValue == 0x01 then KeyPress
    else EveryThing
  }

  /** Table and dispatch are the 293V3's, so the codes are distinct; only size, background and features differ. */
  lemma SameAs293V3(readValue: Byte, eventValue: Byte)
    ensures ReadValueMap == Cpp293V3.ReadValueMap
    ensures DistinctCodes(ReadValueMap)
    ensures Dispatch(readValue, eventValue) == Cpp293V3.Dispatch(readValue, eventValue)
    ensures Info(0, 0, "").(keyWidth := 112, keyHeight := 112, backgroundEncodeType := JPG) == Cpp293V3.Info(0, 0, "")
    ensures Feature.(isDualDevice := true) == Cpp293V3.Feature
  {
    Cpp293V3.ReadValueMapDistinct();
  }

  /** Being single-image, the 293V2 sends every background as a bitmap and refuses no key number. */
  lemma BitmapBackground(d: StreamDock, key: int, stream: seq<Byte>, timeoutMs: nat)
    requires d.feature == Feature && d.canWrite
    ensures d.BackgroundCommands(stream, timeoutMs) == [BackgroundBitmap(stream, timeoutMs)]
    ensures !d.OutOfRange(key)
  {
  }
}
