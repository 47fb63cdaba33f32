/**
 * StreamDockN4 (C++): the N4Pro's table and dispatch without its RGB,
 * background-GIF and config features.
 */
module CppN4 {
  import opened Common
  import opened CppTypes
  import CppN4Pro

  /** Each entry of the table below (logical key -> reported byte); 0 where there is none. */
  function KeyCode(k: Byte): Byte
  {
    match k
    case 1 => 0x40 case 2 => 0x41 case 3 => 0x42 case 4 => 0x43
    case 6 => 0x06 case 7 => 0x07 case 8 => 0x08 case 9 => 0x09 case 10 => 0x0A
    case 11 => 0x01 case 12 => 0x02 case 13 => 0x03 case 14 => 0x04 case 15 => 0x05
    case 16 => 0xA0 case 17 => 0xA1 case 18 => 0x50 case 19 => 0x51 case 20 => 0x90 case 21 => 0x91 case 22 => 0x70 case 23 => 0x71
    case 24 => 0x37 case 25 => 0x35 case 26 => 0x33 case 27 => 0x36
    case 28 => 0x38 case 29 => 0x39
    case _ => 0
  }

  /** `_readValueMap`, entry for entry the N4Pro's. */
  const ReadValueMap: ReadValueMap := map k: Byte | KeyCode(k) != 0 :: KeyCode(k)

  function Info(vendorId: nat, productId: nat, serial: string): DeviceInfo
  {
    DefaultInfo().(originType := SDN4, vendorId := vendorId, productId := productId,
                   serialNumber := serial, width := 800, height := 480,
                   keyWidth := 112, keyHeight := 112, minKey := 6, maxKey := 15,
                   keyRotateAngle := 180, bgRotateAngle := 180)
  }

  const Feature: FeatureOption := DefaultFeature().(
    isDualDevice := true, hasSecondScreen := true,
    min2rdScreenKey := 1, max2rdScreenKey := 4,
    secondScreenWidth := 176, secondScreenHeight := 112)

  /** `dispatchEvent`. */
  function Dispatch(readValue: Byte, eventValue: Byte): RegisterEvent
  {
    if 0x01 <= readValue <= 0x0A && eventValue == 0x00 then KeyRelease
    else if 0x01 <= readValue <= 0x0A && eventValue == 0x01 then KeyPress
    else if 0x40 <= readValue <= 0x43 && eventValue == 0x00 then KeyRelease
    else if (readValue == 0xA0 || readValue == 0x50 || readValue == 0x90 || readValue == 0x70) && eventValue == 0x00 then KnobLeft
    else if (readValue == 0xA1 || readValue == 0x51 || readValue == 0x91 || readValue == 0x71) && eventValue == 0x00 then KnobRight
    else if (readValue == 0x37 || readValue == 0x35 || readValue == 0x33 || readValue == 0x36) && eventValue == 0x00 then KnobPress
    else if readValue == 0x38 && eventValue == 0x00 then SwipeLeft
    else if readValue == 0x39 && eventValue == 0x00 then SwipeRight
    else EveryThing
  }

  /** The N4 reads and dispatches exactly like the N4Pro, so its codes are distinct too. */
  lemma {:induction false} SameAsN4Pro(readValue: Byte, eventValue: Byte)
    ensures ReadValueMap == CppN4Pro.ReadValueMap
    ensures DistinctCodes(ReadValueMap)
    ensures Dispatch(readValue, eventValue) == CppN4Pro.Dispatch(readValue, eventValue)
  {
    CppN4Pro.ReadValueMapDistinct();
  }

  /** Main keys 6..15 and second-screen keys 1..4 do not overlap; the N4 lacks the N4Pro's LEDs, GIF and config. */
  lemma KeyRanges(vendorId: nat, productId: nat, serial: string, k: int)
    ensures var i := Info(vendorId, productId, serial);
      i.minKey == 6 && i.maxKey == 15 && Feature.min2rdScreenKey == 1 && Feature.max2rdScreenKey == 4
    ensures !(6 <= k <= 15 && 1 <= k <= 4)
    ensures !Feature.hasRGBLed && !Feature.supportBackGroundGif && !Feature.supportConfig
    ensures CppN4Pro.Feature.hasRGBLed && CppN4Pro.Feature.supportBackGroundGif && CppN4Pro.Feature.supportConfig
  {
  }

  /** Codes 0x01..0x0A: release on event 0, press on event 1. */
  lemma DispatchKeys(readValue: Byte, eventValue: Byte)
    requires 0x01 <= readValue <= 0x0A
    ensures Dispatch(readValue, eventValue) == KeyPress <==> eventValue == 0x01
    ensures Dispatch(readValue, eventValue) == KeyRelease <==> eventValue == 0x00
  {
  }

  /** Knob and swipe events fire only on event 0; unlisted codes give `EveryThing`. */
  lemma DispatchKnobsAndSwipes(readValue: Byte, eventValue: Byte)
    ensures Dispatch(readValue, eventValue) in {KnobLeft, KnobRight, KnobPress, SwipeLeft, SwipeRight} ==> eventValue == 0x00
    ensures !(0x01 <= readValue <= 0x0A || 0x40 <= readValue <= 0x43 ||
              readValue in {0xA0, 0x50, 0x90, 0x70, 0xA1, 0x51, 0x91, 0x71, 0x37, 0x35, 0x33, 0x36, 0x38, 0x39})
            ==> Dispatch(readValue, eventValue) == EveryThing
  {
  }
}
