/**
 * StreamDockN3 (the V2 generation, C++): the same keys, buttons and knobs
 * as the N3V25, a single-image device with an uncompressed RGB565
 * background and no firmware switch.
 */
module CppN3V2 {
  import opened Common
  import opened CppTypes
  import opened CppStreamDock
  import CppN3V25

  /** Each entry of the table below (logical key -> reported byte); 0 where there is none. */
  function KeyCode(k: Byte): Byte
  {
    match k
    case 1 => 0x01 case 2 => 0x02 case 3 => 0x03 case 4 => 0x04 case 5 => 0x05 case 6 => 0x06
    case 7 => 0x25 case 8 => 0x30 case 9 => 0x31
    case 10 => 0x33 case 11 => 0x34 case 12 => 0x35
    case 13 => 0x90 case 14 => 0x60 case 15 => 0x50
    case 16 => 0x91 case 17 => 0x61 case 18 => 0x51
    case _ => 0
  }

  /** `_readValueMap`, written out again in this class. */
  const ReadValueMap: ReadValueMap := map k: Byte | KeyCode(k) != 0 :: KeyCode(k)

  function Info(vendorId: nat, productId: nat, serial: string): DeviceInfo
  {
    DefaultInfo().(originType := SDN3, vendorId := vendorId, productId := productId,
                   serialNumber := serial, width := 320, height := 240, keyWidth := 64, keyHeight := 64,
                   backgroundEncodeType := RAW, backgroundEncodeFormat := RGB16,
                   minKey := 1, maxKey := 6, keyRotateAngle := 0, bgRotateAngle := 90)
  }

  /** No feature is switched on. */
  const Feature: FeatureOption := DefaultFeature()

  /** `dispatchEvent`, written out again in this class. */
  function Dispatch(readValue: Byte, eventValue: Byte): RegisterEvent
  {
    if 0x01 <= readValue <= 0x06 && eventValue == 0x00 then KeyRelease
    else if 0x01 <= readValue <= 0x06 && eventValue == 0x01 then KeyPress
    else if 0x25 <= readValue <= 0x31 && eventValue == 0x00 then KeyRelease
    else if 0x25 <= readValue <= 0x31 && eventValue == 0x01 then KeyPress
    else if 0x33 <= readValue <= 0x35 && eventValue == 0x00 then KnobPress
    else if (readValue == 0x90 || readValue == 0x60 || readValue == 0x50) && eventValue == 0x00 then KnobLeft
    else if (readValue == 0x91 || readValue == 0x61 || readValue == 0x51) && eventValue == 0x00 then KnobRight
    else EveryThing
  }

  /** The V2 class carries the N3V25's table and dispatch unchanged, so its codes are distinct too. */
  lemma SameAsN3V25(readValue: Byte, eventValue: Byte)
    ensures ReadValueMap == CppN3V25.ReadValueMap
    ensures DistinctCodes(ReadValueMap)
    ensures Dispatch(readValue, eventValue) == CppN3V25.Dispatch(readValue, eventValue)
  {
    CppN3V25.ReadValueMapDistinct();
  }

  /**
   * The V2 generation is what a V25 device becomes after its firmware
   * switch, apart from the bitmap background and the key rotation.
   */
  lemma V25SwitchMatchesV2()
    ensures CppN3V25.ApplyMode(CppN3V25.Feature, CppN3V25.V25Mode) == Feature
    ensures Info(0, 0, "").(backgroundEncodeType := JPG, backgroundEncodeFormat := BGR888, keyRotateAngle := 90)
            == CppN3V25.Info(0, 0, "")
  {
  }

  /** Backgrounds are sent as bitmaps, whatever the bytes, and keys are never refused as out of range. */
  lemma BitmapBackground(d: StreamDock, key: int, stream: seq<Byte>, timeoutMs: nat)
    requires d.feature == Feature && d.canWrite
    ensures d.BackgroundCommands(stream, timeoutMs) == [BackgroundBitmap(stream, timeoutMs)]
    ensures !d.OutOfRange(key)
  {
  }
}
