/**
 * StreamDockN4Pro (C++): device description, read-value table, event
 * dispatch and the touch-bar coordinate decoder registered as a raw read
 * callback.
 */
module CppN4Pro {
  import opened Common
  import opened CppTypes

  /** Each entry of the table below (logical key -> reported byte); 0 where there is none. */
  function KeyCode(k: Byte): Byte
  {
    match k
    case 1 => 0x40 case 2 => 0x41 case 3 => 0x42 case 4 => 0x43
    case 6 => 0x06 case 7 => 0x07 case 8 => 0x08 case 9 => 0x09 case 10 => 0x0A
    case 11 => 0x01 case 12 => 0x02 case 13 => 0x03 case 14 => 0x04 case 15 => 0x05
    case 16 => 0xA0 case 17 => 0xA1 case 18 => 0x50 case 19 => 0x51 case 20 => 0x90 case 21 => 0x91 case 22 => 0x70 case 23 => 0x71
    case 24 => 0x37 case 25 => 0x35 case 26 => 0x33 case 27 => 0x36
    case 28 => 0x38 case 29 => 0x39
    case _ => 0
  }

  /** `_readValueMap`: second-screen keys 1..4, keys 6..15, knob turns 16..23, knob presses 24..27, swipes 28..29. */
  const ReadValueMap: ReadValueMap := map k: Byte | KeyCode(k) != 0 :: KeyCode(k)

  /** Each entry of the table below (reported byte -> logical key); 0 where there is none. */
  function CodeKey(c: Byte): Byte
  {
    match c
    case 0x40 => 1 case 0x41 => 2 case 0x42 => 3 case 0x43 => 4
    case 0x06 => 6 case 0x07 => 7 case 0x08 => 8 case 0x09 => 9 case 0x0A => 10
    case 0x01 => 11 case 0x02 => 12 case 0x03 => 13 case 0x04 => 14 case 0x05 => 15
    case 0xA0 => 16 case 0xA1 => 17 case 0x50 => 18 case 0x51 => 19 case 0x90 => 20 case 0x91 => 21 case 0x70 => 22 case 0x71 => 23
    case 0x37 => 24 case 0x35 => 25 case 0x33 => 26 case 0x36 => 27
    case 0x38 => 28 case 0x39 => 29
    case _ => 0
  }

  /** Reported byte -> logical key: the table read backwards. */
  const CodeToKey: ReadValueMap := map c: Byte | CodeKey(c) != 0 :: CodeKey(c)

  /** The constructor's `_info` assignments. */
  function Info(vendorId: nat, productId: nat, serial: string): DeviceInfo
  {
    DefaultInfo().(originType := SDN4Pro, vendorId := vendorId, productId := productId,
                   serialNumber := serial, width := 800, height := 480,
                   keyWidth := 112, keyHeight := 112, minKey := 6, maxKey := 15,
                   keyRotateAngle := 180, bgRotateAngle := 180, keyEncodeType := JPG)
  }

  /** The constructor's `_feature` assignments. */
  const Feature: FeatureOption := DefaultFeature().(
    isDualDevice := true, hasSecondScreen := true, supportBackGroundGif := true,
    hasRGBLed := true, supportConfig := true, ledCounts := 4,
    min2rdScreenKey := 1, max2rdScreenKey := 4,
    secondScreenWidth := 176, secondScreenHeight := 112)

  /** `dispatchEvent`. */
  function Dispatch(readValue: Byte, eventValue: Byte): RegisterEvent
  {
    if 0x01 <= readValue <= 0x0A && eventValue == 0x00 then KeyRelease
    else if 0x01 <= readValue <= 0x0A && eventValue == 0x01 then KeyPress
    else if 0x40 <= readValue <= 0x43 && eventValue == 0x00 then KeyRelease
    else if (readValue == 0xA0 || readValue == 0x50 || readValue == 0x90 || readValue == 0x70) && eventValue == 0x00 then KnobLeft
    else if (readValue == 0xA1 || readValue == 0x51 || readValue == 0x91 || readValue == 0x71) && eventValue == 0x00 then KnobRight
    else if (readValue == 0x37 || readValue == 0x35 || readValue == 0x33 || readValue == 0x36) && eventValue == 0x00 then KnobPress
    else if readValue == 0x38 && eventValue == 0x00 then SwipeLeft
    else if readValue == 0x39 && eventValue == 0x00 then SwipeRight
    else EveryThing
  }

  /** The reverse table inverts the read-value table, so its codes are pairwise distinct. */
  lemma {:induction false} ReadValueMapDistinct()
    ensures IsInverse(ReadValueMap, CodeToKey)
    ensures DistinctCodes(ReadValueMap)
  {
    forall k | k in ReadValueMap ensures ReadValueMap[k] in CodeToKey && CodeToKey[ReadValueMap[k]] == k {
      ForwardAt(k);
    }
    forall c | c in CodeToKey ensures CodeToKey[c] in ReadValueMap && ReadValueMap[CodeToKey[c]] == c {
      BackwardAt(c);
    }
    InverseDistinct(ReadValueMap, CodeToKey);
  }

  lemma ForwardAt(k: Byte)
    requires k in ReadValueMap
    ensures ReadValueMap[k] in CodeToKey && CodeToKey[ReadValueMap[k]] == k
  {
  }

  lemma BackwardAt(c: Byte)
    requires c in CodeToKey
    ensures CodeToKey[c] in ReadValueMap && ReadValueMap[CodeToKey[c]] == c
  {
  }

  /** Main keys are 6..15, second-screen keys 1..4; together with the knob and swipe entries they make up the table. */
  lemma KeyRanges(vendorId: nat, productId: nat, serial: string, k: Byte)
    ensures Info(vendorId, productId, serial).minKey == 6 && Info(vendorId, productId, serial).maxKey == 15
    ensures Feature.min2rdScreenKey == 1 && Feature.max2rdScreenKey == 4
    ensures k in ReadValueMap <==> 1 <= k <= 4 || 6 <= k <= 29
  {
  }

  /** Codes 0x01..0x0A: release on event 0, press on event 1, nothing else. */
  lemma DispatchKeys(readValue: Byte, eventValue: Byte)
    requires 0x01 <= readValue <= 0x0A
    ensures Dispatch(readValue, eventValue) == KeyPress <==> eventValue == 0x01
    ensures Dispatch(readValue, eventValue) == KeyRelease <==> eventValue == 0x00
    ensures eventValue > 0x01 ==> Dispatch(readValue, eventValue) == EveryThing
  {
  }

  /** Second-screen codes 0x40..0x43 only ever report a release. */
  lemma DispatchSecondScreen(readValue: Byte, eventValue: Byte)
    requires 0x40 <= readValue <= 0x43
    ensures Dispatch(readValue, eventValue) == (if eventValue == 0x00 then KeyRelease else EveryThing)
  {
  }

  /** Knob turns, knob presses and swipes: which codes give which event, always on event 0. */
  lemma DispatchKnobsAndSwipes(readValue: Byte, eventValue: Byte)
    ensures Dispatch(readValue, eventValue) == KnobLeft <==> readValue in {0xA0, 0x50, 0x90, 0x70} && eventValue == 0
    ensures Dispatch(readValue, eventValue) == KnobRight <==> readValue in {0xA1, 0x51, 0x91, 0x71} && eventValue == 0
    ensures Dispatch(readValue, eventValue) == KnobPress <==> readValue in {0x37, 0x35, 0x33, 0x36} && eventValue == 0
    ensures Dispatch(readValue, eventValue) == SwipeLeft <==> readValue == 0x38 && eventValue == 0
    ensures Dispatch(readValue, eventValue) == SwipeRight <==> readValue == 0x39 && eventValue == 0
    ensures Dispatch(readValue, eventValue) !in {KnobRelease, ToggleUp, ToggleDown}
  {
  }

  /** Every mapped code dispatches a real event on event 0, and every dispatched code is mapped. */
  lemma DispatchMatchesTable(readValue: Byte, eventValue: Byte)
    ensures readValue in CodeToKey ==> Dispatch(readValue, 0x00) != EveryThing
    ensures Dispatch(readValue, eventValue) != EveryThing ==> readValue in CodeToKey
  {
  }

  /** The touch-bar point `(x, y)`, both big-endian 16-bit. */
  datatype Point = Point(x: nat, y: nat)

  /**
   * The raw read callback installed by `registerTouchBarCallback`: a
   * point only behind an "ACK" header at bytes 0..2 and "ARX" at 4..6.
   * The read loop hands raw callbacks reports of at least 64 bytes.
   */
  function TouchBarPoint(response: seq<Byte>): (p: Option<Point>)
    requires |response| >= 14
    ensures p.Some? <==> response[0..3] == [0x41, 0x43, 0x4B] && response[4..7] == [0x41, 0x52, 0x58]
    ensures p.Some? ==> p.value.x < 0x1_0000 && p.value.y < 0x1_0000
  {
    if response[0] == 0x41 && response[1] == 0x43 && response[2] == 0x4B
       && response[4] == 0x41 && response[5] == 0x52 && response[6] == 0x58
    then Some(Point(response[10] as int * 256 + response[11], response[12] as int * 256 + response[13]))
    else None
  }

  /** A touch report carrying `p` in bytes 10..13, header included. */
  function TouchReport(p: Point, filler: seq<Byte>): (r: seq<Byte>)
    requires p.x < 0x1_0000 && p.y < 0x1_0000
    ensures |r| == 14 + |filler|
  {
    [0x41, 0x43, 0x4B, 0, 0x41, 0x52, 0x58, 0, 0, 0,
     p.x / 256, p.x % 256, p.y / 256, p.y % 256] + filler
  }

  /** Decoding a touch report gives back the point that was put in it. */
  lemma TouchBarRoundTrip(p: Point, filler: seq<Byte>)
    requires p.x < 0x1_0000 && p.y < 0x1_0000
    ensures TouchBarPoint(TouchReport(p, filler)) == Some(p)
  {
    var r := TouchReport(p, filler);
    assert r[0..3] == [0x41, 0x43, 0x4B] && r[4..7] == [0x41, 0x52, 0x58];
  }
}
