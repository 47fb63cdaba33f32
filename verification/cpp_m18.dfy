/**
 * StreamDockM18 (C++): the 293V3's fifteen keys plus three buttons, RGB
 * LEDs, and a switch to the single-image V2 generation.
 */
module CppM18 {
  import opened Common
  import opened CppTypes
  import opened CppStreamDock
  import Cpp293V3

  /** Each entry of the table below (logical key -> reported byte); 0 where there is none. */
  function KeyCode(k: Byte): Byte
  {
    match k
    case 1 => 0x0B case 2 => 0x0C case 3 => 0x0D case 4 => 0x0E case 5 => 0x0F
    case 6 => 0x06 case 7 => 0x07 case 8 => 0x08 case 9 => 0x09 case 10 => 0x0A
    case 11 => 0x01 case 12 => 0x02 case 13 => 0x03 case 14 => 0x04 case 15 => 0x05
    case 16 => 0x25 case 17 => 0x30 case 18 => 0x31
    case _ => 0
  }

  /** `_readValueMap`: keys 1..15 row by row from the bottom, buttons 16..18. */
  const ReadValueMap: ReadValueMap := map k: Byte | KeyCode(k) != 0 :: KeyCode(k)

  /** Each entry of the table below (reported byte -> logical key); 0 where there is none. */
  function CodeKey(c: Byte): Byte
  {
    match c
    case 0x0B => 1 case 0x0C => 2 case 0x0D => 3 case 0x0E => 4 case 0x0F => 5
    case 0x06 => 6 case 0x07 => 7 case 0x08 => 8 case 0x09 => 9 case 0x0A => 10
    case 0x01 => 11 case 0x02 => 12 case 0x03 => 13 case 0x04 => 14 case 0x05 => 15
    case 0x25 => 16 case 0x30 => 17 case 0x31 => 18
    case _ => 0
  }

  /** Reported byte -> logical key. */
  const CodeToKey: ReadValueMap := map c: Byte | CodeKey(c) != 0 :: CodeKey(c)

  function Info(vendorId: nat, productId: nat, serial: string): DeviceInfo
  {
    DefaultInfo().(originType := SDM18, vendorId := vendorId, productId := productId,
                   serialNumber := serial, width := 480, height := 272, keyWidth := 64, keyHeight := 64,
                   minKey := 1, maxKey := 15, keyRotateAngle := 0, bgRotateAngle := 0)
  }

  const Feature: FeatureOption := DefaultFeature().(isDualDevice := true, hasRGBLed := true, ledCounts := 24)

  /** `dispatchEvent`. */
  function Dispatch(readValue: Byte, eventValue: Byte): RegisterEvent
  {
    if 0x01 <= readValue <= 0x0F && eventValue == 0x00 then KeyRelease
    else if 0x01 <= readValue <= 0x0F && eventValue == 0x01 then KeyPress
    else if 0x25 <= readValue <= 0x31 && eventValue == 0x00 then KeyRelease
    else if 0x25 <= readValue <= 0x31 && eventValue == 0x01 then KeyPress
    else EveryThing
  }

  lemma ForwardAt(k: Byte)
    requires k in ReadValueMap
    ensures ReadValueMap[k] in CodeToKey && CodeToKey[ReadValueMap[k]] == k
  {
  }

  lemma BackwardAt(c: Byte)
    requires c in CodeToKey
    ensures CodeToKey[c] in ReadValueMap && ReadValueMap[CodeToKey[c]] == c
  {
  }

  /** The eighteen codes are pairwise distinct. */
  lemma {:induction false} ReadValueMapDistinct()
    ensures IsInverse(ReadValueMap, CodeToKey)
    ensures DistinctCodes(ReadValueMap)
  {
    forall k | k in ReadValueMap ensures ReadValueMap[k] in CodeToKey && CodeToKey[ReadValueMap[k]] == k {
      ForwardAt(k);
    }
    forall c | c in CodeToKey ensures CodeToKey[c] in ReadValueMap && ReadValueMap[CodeToKey[c]] == c {
      BackwardAt(c);
    }
    InverseDistinct(ReadValueMap, CodeToKey);
  }

  /** The fifteen keys are laid out as on the 293V3, and dispatch agrees with it on their codes. */
  lemma KeysAs293V3(k: Byte, eventValue: Byte)
    requires 1 <= k <= 15
    ensures k in ReadValueMap && k in Cpp293V3.ReadValueMap && ReadValueMap[k] == Cpp293V3.ReadValueMap[k]
    ensures Dispatch(ReadValueMap[k], eventValue) == Cpp293V3.Dispatch(ReadValueMap[k], eventValue)
  {
    Cpp293V3.RowsMirrored(k);
    assert k == 1 || k == 2 || k == 3 || k == 4 || k == 5 || k == 6 || k == 7 || k == 8 ||
           k == 9 || k == 10 || k == 11 || k == 12 || k == 13 || k == 14 || k == 15;
  }

  /** Every key and button presses on event 1 and releases on event 0; the button band also covers 0x26..0x2F, which no key reports. */
  lemma DispatchMapped(k: Byte, gap: Byte)
    requires k in ReadValueMap
    requires 0x26 <= gap <= 0x2F
    ensures Dispatch(ReadValueMap[k], 0x01) == KeyPress && Dispatch(ReadValueMap[k], 0x00) == KeyRelease
    ensures Dispatch(gap, 0x01) == KeyPress && gap !in CodeToKey
  {
  }

  /** `changeV2Mode`: single-image, no background GIF. */
  method ChangeV2Mode(d: StreamDock)
    modifies d`feature
    ensures d.feature == old(d.feature).(isDualDevice := false, supportBackGroundGif := false)
  {
    d.feature := d.feature.(isDualDevice := false, supportBackGroundGif := false);
  }

  /** After `changeV2Mode` no key is refused as out of range and backgrounds go out as bitmaps. */
  lemma V2ModeIsSingleImage(d: StreamDock, key: int, stream: seq<Byte>, timeoutMs: nat)
    requires !d.feature.isDualDevice && d.canWrite
    ensures !d.OutOfRange(key)
    ensures d.BackgroundCommands(stream, timeoutMs) == [BackgroundBitmap(stream, timeoutMs)]
  {
  }
}
