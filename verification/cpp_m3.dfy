/**
 * StreamDockM3 (C++): fifteen keys in the 293 row order, three knobs that
 * report their press on event 1, PNG key images.
 */
module CppM3 {
  import opened Common
  import opened CppTypes
  import opened CppImgHelper
  import opened CppStreamDock

  /** Each entry of the table below (logical key -> reported byte); 0 where there is none. */
  function KeyCode(k: Byte): Byte
  {
    match k
    case 1 => 0x0B case 2 => 0x0C case 3 => 0x0D case 4 => 0x0E case 5 => 0x0F
    case 6 => 0x06 case 7 => 0x07 case 8 => 0x08 case 9 => 0x09 case 10 => 0x0A
    case 11 => 0x01 case 12 => 0x02 case 13 => 0x03 case 14 => 0x04 case 15 => 0x05
    case 16 => 0xA0 case 17 => 0xA1 case 18 => 0x90 case 19 => 0x91 case 20 => 0x50 case 21 => 0x51
    case 22 => 0x37 case 23 => 0x33 case 24 => 0x35
    case _ => 0
  }

  /** `_readValueMap`: keys 1..15, knob turns 16..21, knob presses 22..24. */
  const ReadValueMap: ReadValueMap := map k: Byte | KeyCode(k) != 0 :: KeyCode(k)

  /** Each entry of the table below (reported byte -> logical key); 0 where there is none. */
  function CodeKey(c: Byte): Byte
  {
    match c
    case 0x0B => 1 case 0x0C => 2 case 0x0D => 3 case 0x0E => 4 case 0x0F => 5
    case 0x06 => 6 case 0x07 => 7 case 0x08 => 8 case 0x09 => 9 case 0x0A => 10
    case 0x01 => 11 case 0x02 => 12 case 0x03 => 13 case 0x04 => 14 case 0x05 => 15
    case 0xA0 => 16 case 0xA1 => 17 case 0x90 => 18 case 0x91 => 19 case 0x50 => 20 case 0x51 => 21
    case 0x37 => 22 case 0x33 => 23 case 0x35 => 24
    case _ => 0
  }

  /** Reported byte -> logical key. */
  const CodeToKey: ReadValueMap := map c: Byte | CodeKey(c) != 0 :: CodeKey(c)

  function Info(vendorId: nat, productId: nat, serial: string): DeviceInfo
  {
    DefaultInfo().(originType := SDM3, vendorId := vendorId, productId := productId,
                   serialNumber := serial, width := 854, height := 480,
                   keyWidth := 96, keyHeight := 96, minKey := 1, maxKey := 15,
                   keyRotateAngle := -90, bgRotateAngle := -90, keyEncodeType := PNG)
  }

  const Feature: FeatureOption := DefaultFeature().(isDualDevice := true, supportBackGroundGif := true)

  /** `dispatchEvent`. */
  function Dispatch(readValue: Byte, eventValue: Byte): RegisterEvent
  {
    if 0x01 <= readValue <= 0x0F && eventValue == 0x00 then KeyRelease
    else if 0x01 <= readValue <= 0x0F && eventValue == 0x01 then KeyPress
    else if 0x40 <= readValue <= 0x43 && eventValue == 0x00 then KeyRelease
    else if (readValue == 0xA0 || readValue == 0x90 || readValue == 0x50) && eventValue == 0x00 then KnobLeft
    else if (readValue == 0xA1 || readValue == 0x91 || readValue == 0x51) && eventValue == 0x00 then KnobRight
    else if (readValue == 0x37 || readValue == 0x33 || readValue == 0x35) && eventValue == 0x01 then KnobPress
    else EveryThing
  }

  lemma ForwardAt(k: Byte)
    requires k in ReadValueMap
    ensures ReadValueMap[k] in CodeToKey && CodeToKey[ReadValueMap[k]] == k
  {
  }

  lemma BackwardAt(c: Byte)
    requires c in CodeToKey
    ensures CodeToKey[c] in ReadValueMap && ReadValueMap[CodeToKey[c]] == c
  {
  }

  /** The 24 logical values have pairwise distinct codes. */
  lemma {:induction false} ReadValueMapDistinct()
    ensures IsInverse(ReadValueMap, CodeToKey)
    ensures DistinctCodes(ReadValueMap)
    ensures forall k: Byte :: k in ReadValueMap <==> 1 <= k <= 24
  {
    forall k | k in ReadValueMap ensures ReadValueMap[k] in CodeToKey && CodeToKey[ReadValueMap[k]] == k {
      ForwardAt(k);
    }
    forall c | c in CodeToKey ensures CodeToKey[c] in ReadValueMap && ReadValueMap[CodeToKey[c]] == c {
      BackwardAt(c);
    }
    InverseDistinct(ReadValueMap, CodeToKey);
  }

  /** Codes 0x01..0x0F: release on event 0, press on event 1. */
  lemma DispatchKeys(readValue: Byte, eventValue: Byte)
    requires 0x01 <= readValue <= 0x0F
    ensures Dispatch(readValue, eventValue) == KeyPress <==> eventValue == 0x01
    ensures Dispatch(readValue, eventValue) == KeyRelease <==> eventValue == 0x00
  {
  }

  /** Knob presses come on event 1 (the N4 reports them on event 0); turns on event 0; there is no knob release. */
  lemma DispatchKnobs(readValue: Byte, eventValue: Byte)
    ensures Dispatch(readValue, eventValue) == KnobPress <==> readValue in {0x37, 0x33, 0x35} && eventValue == 0x01
    ensures Dispatch(readValue, eventValue) == KnobLeft <==> readValue in {0xA0, 0x90, 0x50} && eventValue == 0x00
    ensures Dispatch(readValue, eventValue) == KnobRight <==> readValue in {0xA1, 0x91, 0x51} && eventValue == 0x00
    ensures Dispatch(readValue, eventValue) != KnobRelease
  {
  }

  /**
   * Codes 0x40..0x43 dispatch a release, but no logical key reports them,
   * so the read loop drops them before dispatch.
   */
  lemma UnmappedReleaseCodes(readValue: Byte)
    requires 0x40 <= readValue <= 0x43
    ensures Dispatch(readValue, 0x00) == KeyRelease
    ensures readValue !in CodeToKey
    ensures forall k | k in ReadValueMap :: ReadValueMap[k] != readValue
  {
    ReadValueMapDistinct();
  }

  /**
   * The key helper is PNG-typed but the M3 does not claim transparent
   * icons, so no signature is checked: any stream for a key in 1..15 is
   * sent to a writable transport.
   */
  lemma KeyImagesUnchecked(d: StreamDock, stream: seq<Byte>, key: Byte)
    requires d.info == Info(d.info.vendorId, d.info.productId, d.info.serialNumber) && d.feature == Feature
    requires d.kyHelper.Some? && d.kyHelper.value.imgType == PNG
    requires d.canWrite && 1 <= key <= 15
    ensures d.KeyImageAccepted(stream, key)
  {
  }
}
