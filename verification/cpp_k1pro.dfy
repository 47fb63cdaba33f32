/**
 * K1Pro (C++): a six-key keyboard with three knobs. Its table and
 * dispatch, and the keyboard lighting setters, which go to the transport
 * without a can-write check.
 */
module CppK1Pro {
  import opened Common
  import opened CppTypes
  import opened CppStreamDock

  /** Each entry of the table below (logical key -> reported byte); 0 where there is none. */
  function KeyCode(k: Byte): Byte
  {
    match k
    case 1 => 0x05 case 2 => 0x03 case 3 => 0x01 case 4 => 0x06 case 5 => 0x04 case 6 => 0x02
    case 7 => 0x25 case 8 => 0x30 case 9 => 0x31
    case 10 => 0x50 case 11 => 0x60 case 12 => 0x90
    case 13 => 0x51 case 14 => 0x61 case 15 => 0x91
    case _ => 0
  }

  /** `_readValueMap`: keys 1..6, knob presses 7..9, left turns 10..12, right turns 13..15. */
  const ReadValueMap: ReadValueMap := map k: Byte | KeyCode(k) != 0 :: KeyCode(k)

  /** Each entry of the table below (reported byte -> logical key); 0 where there is none. */
  function CodeKey(c: Byte): Byte
  {
    match c
    case 0x05 => 1 case 0x03 => 2 case 0x01 => 3 case 0x06 => 4 case 0x04 => 5 case 0x02 => 6
    case 0x25 => 7 case 0x30 => 8 case 0x31 => 9
    case 0x50 => 10 case 0x60 => 11 case 0x90 => 12
    case 0x51 => 13 case 0x61 => 14 case 0x91 => 15
    case _ => 0
  }

  /** Reported byte -> logical key. */
  const CodeToKey: ReadValueMap := map c: Byte | CodeKey(c) != 0 :: CodeKey(c)

  function Info(vendorId: nat, productId: nat, serial: string): DeviceInfo
  {
    DefaultInfo().(originType := K1ProOrigin, vendorId := vendorId, productId := productId,
                   serialNumber := serial, keyWidth := 64, keyHeight := 64, minKey := 1, maxKey := 6,
                   keyRotateAngle := 90, keyEncodeType := JPG)
  }

  const Feature: FeatureOption := DefaultFeature().(isDualDevice := true)

  /** `dispatchEvent`. */
  function Dispatch(readValue: Byte, eventValue: Byte): RegisterEvent
  {
    var key := readValue == 0x05 || readValue == 0x03 || readValue == 0x01 ||
               readValue == 0x06 || readValue == 0x04 || readValue == 0x02;
    var knob := readValue == 0x25 || readValue == 0x30 || readValue == 0x31;
    if key && eventValue == 0x01 then KeyPress
    else if key && eventValue == 0x00 then KeyRelease
    else if knob && eventValue == 0x01 then KnobPress
    else if knob && eventValue == 0x00 then KnobRelease
    else if (readValue == 0x50 || readValue == 0x60 || readValue == 0x90) && eventValue == 0x00 then KnobLeft
    else if (readValue == 0x51 || readValue == 0x61 || readValue == 0x91) && eventValue == 0x00 then KnobRight
    else EveryThing
  }

  lemma ForwardAt(k: Byte)
    requires k in ReadValueMap
    ensures ReadValueMap[k] in CodeToKey && CodeToKey[ReadValueMap[k]] == k
  {
  }

  lemma BackwardAt(c: Byte)
    requires c in CodeToKey
    ensures CodeToKey[c] in ReadValueMap && ReadValueMap[CodeToKey[c]] == c
  {
  }

  /** The fifteen codes are pairwise distinct; keys, knob presses and turns occupy 1..6, 7..9 and 10..15. */
  lemma {:induction false} ReadValueMapDistinct()
    ensures IsInverse(ReadValueMap, CodeToKey)
    ensures DistinctCodes(ReadValueMap)
    ensures forall k: Byte :: k in ReadValueMap <==> 1 <= k <= 15
  {
    forall k | k in ReadValueMap ensures ReadValueMap[k] in CodeToKey && CodeToKey[ReadValueMap[k]] == k {
      ForwardAt(k);
    }
    forall c | c in CodeToKey ensures CodeToKey[c] in ReadValueMap && ReadValueMap[CodeToKey[c]] == c {
      BackwardAt(c);
    }
    InverseDistinct(ReadValueMap, CodeToKey);
  }

  /** Key codes: press on event 1, release on event 0. */
  lemma DispatchKeys(k: Byte, eventValue: Byte)
    requires 1 <= k <= 6
    ensures Dispatch(ReadValueMap[k], eventValue) == KeyPress <==> eventValue == 0x01
    ensures Dispatch(ReadValueMap[k], eventValue) == KeyRelease <==> eventValue == 0x00
  {
  }

  /** Knob codes give press and release; turns fire only on event 0; anything else is `EveryThing`. */
  lemma DispatchKnobs(readValue: Byte, eventValue: Byte)
    ensures Dispatch(readValue, eventValue) == KnobPress <==> readValue in {0x25, 0x30, 0x31} && eventValue == 0x01
    ensures Dispatch(readValue, eventValue) == KnobRelease <==> readValue in {0x25, 0x30, 0x31} && eventValue == 0x00
    ensures Dispatch(readValue, eventValue) == KnobLeft <==> readValue in {0x50, 0x60, 0x90} && eventValue == 0x00
    ensures Dispatch(readValue, eventValue) == KnobRight <==> readValue in {0x51, 0x61, 0x91} && eventValue == 0x00
    ensures readValue !in CodeToKey ==> Dispatch(readValue, eventValue) == EveryThing
  {
  }

  /** `setBackgroundImgFile`: the K1Pro has no background screen, and the override sends nothing. */
  method SetBackgroundImgFile(d: StreamDock, filePath: string, timeoutMs: nat)
    modifies d`log
    ensures d.log == old(d.log)
  {
  }

  /** The commands `setKeyboardLightingEffects` sends: effect 0 (static) first sets speed 0. */
  function LightingEffectCommands(effect: Byte): (cs: seq<Command>)
    ensures |cs| >= 1 && cs[|cs| - 1] == KeyboardLightingEffects(effect)
    ensures effect == 0 <==> |cs| == 2
    ensures |cs| == 2 ==> cs[0] == KeyboardLightingSpeed(0)
  {
    (if effect == 0 then [KeyboardLightingSpeed(0)] else []) + [KeyboardLightingEffects(effect)]
  }

  /** `setKeyboardLightingEffects`. */
  method SetKeyboardLightingEffects(d: StreamDock, effect: Byte)
    modifies d`log
    ensures d.log == old(d.log) + LightingEffectCommands(effect)
  {
    if effect == 0 {
      SetKeyboardLightingSpeed(d, 0);
    }
    d.log := d.log + [KeyboardLightingEffects(effect)];
  }

  /** `setKeyboardLightingSpeed`. */
  method SetKeyboardLightingSpeed(d: StreamDock, speed: Byte)
    modifies d`log
    ensures d.log == old(d.log) + [KeyboardLightingSpeed(speed)]
  {
    d.log := d.log + [KeyboardLightingSpeed(speed)];
  }

  /** `setKeyboardBacklightBrightness`. */
  method SetKeyboardBacklightBrightness(d: StreamDock, brightness: Byte)
    modifies d`log
    ensures d.log == old(d.log) + [KeyboardBacklightBrightness(brightness)]
  {
    d.log := d.log + [KeyboardBacklightBrightness(brightness)];
  }

  /** `setKeyboardRgbBacklight`. */
  method SetKeyboardRgbBacklight(d: StreamDock, red: Byte, green: Byte, blue: Byte)
    modifies d`log
    ensures d.log == old(d.log) + [KeyboardRgbBacklight(red, green, blue)]
  {
    d.log := d.log + [KeyboardRgbBacklight(red, green, blue)];
  }

  /** `keyboardOsModeSwitch`. */
  method KeyboardOsModeSwitch(d: StreamDock, osMode: Byte)
    modifies d`log
    ensures d.log == old(d.log) + [Command.KeyboardOsModeSwitch(osMode)]
  {
    d.log := d.log + [Command.KeyboardOsModeSwitch(osMode)];
  }
}
