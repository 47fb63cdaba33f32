/**
 * StreamDockN3V25 (C++): six keys, three buttons and three knobs, and the
 * constructor's switch to the V25 or V3 feature set chosen by a substring
 * of the firmware version.
 */
module CppN3V25 {
  import opened Common
  import opened CppTypes
  import opened CppStreamDock

  /** Each entry of the table below (logical key -> reported byte); 0 where there is none. */
  function KeyCode(k: Byte): Byte
  {
    match k
    case 1 => 0x01 case 2 => 0x02 case 3 => 0x03 case 4 => 0x04 case 5 => 0x05 case 6 => 0x06
    case 7 => 0x25 case 8 => 0x30 case 9 => 0x31
    case 10 => 0x33 case 11 => 0x34 case 12 => 0x35
    case 13 => 0x90 case 14 => 0x60 case 15 => 0x50
    case 16 => 0x91 case 17 => 0x61 case 18 => 0x51
    case _ => 0
  }

  /** `_readValueMap`: keys 1..6, buttons 7..9, knob presses 10..12, left turns 13..15, right turns 16..18. */
  const ReadValueMap: ReadValueMap := map k: Byte | KeyCode(k) != 0 :: KeyCode(k)

  /** Each entry of the table below (reported byte -> logical key); 0 where there is none. */
  function CodeKey(c: Byte): Byte
  {
    match c
    case 0x01 => 1 case 0x02 => 2 case 0x03 => 3 case 0x04 => 4 case 0x05 => 5 case 0x06 => 6
    case 0x25 => 7 case 0x30 => 8 case 0x31 => 9
    case 0x33 => 10 case 0x34 => 11 case 0x35 => 12
    case 0x90 => 13 case 0x60 => 14 case 0x50 => 15
    case 0x91 => 16 case 0x61 => 17 case 0x51 => 18
    case _ => 0
  }

  /** Reported byte -> logical key. */
  const CodeToKey: ReadValueMap := map c: Byte | CodeKey(c) != 0 :: CodeKey(c)

  function Info(vendorId: nat, productId: nat, serial: string): DeviceInfo
  {
    DefaultInfo().(originType := SDN3, vendorId := vendorId, productId := productId,
                   serialNumber := serial, width := 320, height := 240, keyWidth := 64, keyHeight := 64,
                   minKey := 1, maxKey := 6, keyRotateAngle := 90, bgRotateAngle := 90)
  }

  /** The features the constructor sets before the firmware switch. */
  const Feature: FeatureOption := DefaultFeature().(isDualDevice := true)

  /** `dispatchEvent` (the N3V2 class has the same one). */
  function Dispatch(readValue: Byte, eventValue: Byte): RegisterEvent
  {
    if 0x01 <= readValue <= 0x06 && eventValue == 0x00 then KeyRelease
    else if 0x01 <= readValue <= 0x06 && eventValue == 0x01 then KeyPress
    else if 0x25 <= readValue <= 0x31 && eventValue == 0x00 then KeyRelease
    else if 0x25 <= readValue <= 0x31 && eventValue == 0x01 then KeyPress
    else if 0x33 <= readValue <= 0x35 && eventValue == 0x00 then KnobPress
    else if (readValue == 0x90 || readValue == 0x60 || readValue == 0x50) && eventValue == 0x00 then KnobLeft
    else if (readValue == 0x91 || readValue == 0x61 || readValue == 0x51) && eventValue == 0x00 then KnobRight
    else EveryThing
  }

  lemma ForwardAt(k: Byte)
    requires k in ReadValueMap
    ensures ReadValueMap[k] in CodeToKey && CodeToKey[ReadValueMap[k]] == k
  {
  }

  lemma BackwardAt(c: Byte)
    requires c in CodeToKey
    ensures CodeToKey[c] in ReadValueMap && ReadValueMap[CodeToKey[c]] == c
  {
  }

  /** The eighteen codes are pairwise distinct. */
  lemma {:induction false} ReadValueMapDistinct()
    ensures IsInverse(ReadValueMap, CodeToKey)
    ensures DistinctCodes(ReadValueMap)
    ensures forall k: Byte :: k in ReadValueMap <==> 1 <= k <= 18
  {
    forall k | k in ReadValueMap ensures ReadValueMap[k] in CodeToKey && CodeToKey[ReadValueMap[k]] == k {
      ForwardAt(k);
    }
    forall c | c in CodeToKey ensures CodeToKey[c] in ReadValueMap && ReadValueMap[CodeToKey[c]] == c {
      BackwardAt(c);
    }
    InverseDistinct(ReadValueMap, CodeToKey);
  }

  /**
   * Keys and the three buttons press on event 1 and release on event 0;
   * knob presses come on event 0 and there is no knob release.
   */
  lemma DispatchMapped(k: Byte)
    requires k in ReadValueMap
    ensures 1 <= k <= 9 ==> Dispatch(ReadValueMap[k], 0x01) == KeyPress && Dispatch(ReadValueMap[k], 0x00) == KeyRelease
    ensures 10 <= k <= 12 ==> Dispatch(ReadValueMap[k], 0x00) == KnobPress && Dispatch(ReadValueMap[k], 0x01) == EveryThing
    ensures 13 <= k <= 15 ==> Dispatch(ReadValueMap[k], 0x00) == KnobLeft
    ensures 16 <= k <= 18 ==> Dispatch(ReadValueMap[k], 0x00) == KnobRight
    ensures forall e: Byte :: Dispatch(ReadValueMap[k], e) != KnobRelease
  {
    ReadValueMapDistinct();
  }

  /**
   * The button band 0x25..0x31 also covers ten codes, 0x26..0x2F, that no key reports;
   * they dispatch key events but the read loop drops them first.
   */
  lemma ButtonBandGaps(readValue: Byte)
    requires 0x26 <= readValue <= 0x2F
    ensures Dispatch(readValue, 0x00) == KeyRelease && Dispatch(readValue, 0x01) == KeyPress
    ensures readValue !in CodeToKey
  {
  }

  /** `std::string::find(t) != npos`: `t` occurs in `s` at the front or later. */
  function Contains(s: string, t: string): (r: bool)
    decreases |s|
  {
    if t <= s then true
    else if |s| == 0 then false
    else Contains(s[1..], t)
  }

  /** `t` occurs in `s` starting at index `i`. */
  predicate OccursAt(s: string, t: string, i: int)
  {
    0 <= i <= |s| - |t| && s[i..i + |t|] == t
  }

  /** `Contains` finds an occurrence exactly when there is one. */
  lemma {:induction false} ContainsOccurrence(s: string, t: string)
    ensures Contains(s, t) <==> exists i :: OccursAt(s, t, i)
    decreases |s|
  {
    if t <= s {
      assert OccursAt(s, t, 0);
    } else if |s| == 0 {
    } else {
      ContainsOccurrence(s[1..], t);
      if Contains(s[1..], t) {
        var i :| OccursAt(s[1..], t, i);
        assert s[i + 1..i + 1 + |t|] == s[1..][i..i + |t|];
        assert OccursAt(s, t, i + 1);
      }
      if exists i :: OccursAt(s, t, i) {
        var i :| OccursAt(s, t, i);
        assert i != 0;
        assert s[1..][i - 1..i - 1 + |t|] == s[i..i + |t|];
        assert OccursAt(s[1..], t, i - 1);
      }
    }
  }

  /** The two firmware generations this class recognises. */
  datatype FirmwareMode = V25Mode | V3Mode | KeepMode

  /** "V25.N3" is looked for first, then "V3.N3". */
  function ModeOf(firmwareVersion: string): (m: FirmwareMode)
    ensures m == V25Mode <==> Contains(firmwareVersion, "V25.N3")
    ensures m == V3Mode <==> !Contains(firmwareVersion, "V25.N3") && Contains(firmwareVersion, "V3.N3")
  {
    if Contains(firmwareVersion, "V25.N3") then V25Mode
    else if Contains(firmwareVersion, "V3.N3") then V3Mode
    else KeepMode
  }

  /** The features after the switch: V25 is single-image with no GIF; V3 is dual with no GIF and no LEDs. */
  function ApplyMode(f: FeatureOption, m: FirmwareMode): (g: FeatureOption)
    ensures m == V25Mode ==> !g.isDualDevice && !g.supportBackGroundGif && g.hasRGBLed == f.hasRGBLed
    ensures m == V3Mode ==> g.isDualDevice && !g.supportBackGroundGif && !g.hasRGBLed
    ensures m == KeepMode ==> g == f
    ensures g.(isDualDevice := f.isDualDevice, supportBackGroundGif := f.supportBackGroundGif, hasRGBLed := f.hasRGBLed) == f
  {
    match m
    case V25Mode => f.(isDualDevice := false, supportBackGroundGif := false)
    case V3Mode => f.(isDualDevice := true, supportBackGroundGif := false, hasRGBLed := false)
    case KeepMode => f
  }

  /** `changeFirmwareVersionMode`: decided by the version the device reports. */
  method ChangeFirmwareVersionMode(d: StreamDock)
    modifies d`feature
    ensures d.feature == ApplyMode(old(d.feature), ModeOf(d.FirmwareVersion()))
  {
    var version := d.FirmwareVersion();
    if Contains(version, "V25.N3") {
      d.feature := d.feature.(isDualDevice := false, supportBackGroundGif := false);
    } else if Contains(version, "V3.N3") {
      d.feature := d.feature.(isDualDevice := true, supportBackGroundGif := false, hasRGBLed := false);
    }
  }

  /** Applying the switch twice is the same as once. */
  lemma ApplyModeIdempotent(f: FeatureOption, m: FirmwareMode)
    ensures ApplyMode(ApplyMode(f, m), m) == ApplyMode(f, m)
  {
  }

  /**
   * A V25 device is left single-image: key numbers are never refused as
   * out of range, and the background goes out as a bitmap without the JPEG
   * check.
   */
  lemma V25IsSingleImage(d: StreamDock, key: int, stream: seq<Byte>, timeoutMs: nat)
    requires d.feature == ApplyMode(Feature, V25Mode)
    ensures !d.OutOfRange(key)
    ensures d.canWrite ==> d.BackgroundCommands(stream, timeoutMs) == [BackgroundBitmap(stream, timeoutMs)]
  {
  }

  /** A firmware string naming V25 selects V25 mode, whatever else it names. */
  lemma V25Example()
    ensures ModeOf("V25.N3.01") == V25Mode
  {
    assert "V25.N3" <= "V25.N3.01";
  }
}
