/**
 * StreamDockN4Pro (Python): the logical-to-hardware key table used to place
 * images, its inverse used to decode reports, the input decoder for keys,
 * second-screen keys, four knobs and swipes, and the image setters.
 */
module PyN4Pro {
  import opened Common
  import opened InputTypes
  import opened PyDevice

  const KeyCount := 15

  /** `_IMAGE_KEY_MAP`: logical key -> hardware key. */
  const ImageKeyMap: map<int, int> := map[
    1 := 11, 2 := 12, 3 := 13, 4 := 14, 5 := 15,
    6 := 6, 7 := 7, 8 := 8, 9 := 9, 10 := 10,
    11 := 1, 12 := 2, 13 := 3, 14 := 4, 15 := 5]

  /** `_HW_TO_LOGICAL_KEY`, the dictionary comprehension that swaps the pairs above. */
  const HwToLogicalKey: map<int, ButtonKey> := map[
    11 := 1, 12 := 2, 13 := 3, 14 := 4, 15 := 5,
    6 := 6, 7 := 7, 8 := 8, 9 := 9, 10 := 10,
    1 := 11, 2 := 12, 3 := 13, 4 := 14, 5 := 15]

  /** `get_image_key`: ValueError for a key outside the table. */
  function GetImageKey(key: int): (r: Result<int>)
    ensures r.Ok? <==> 1 <= key <= KeyCount
    ensures r.Ok? ==> r.value == RowSwap(key) && 1 <= r.value <= KeyCount
  {
    if key in ImageKeyMap then Ok(ImageKeyMap[key]) else Err("unsupported key")
  }

  /** The image table is the row swap on 1..15 and holds nothing else. */
  lemma ImageKeyMapIsRowSwap()
    ensures forall k :: k in ImageKeyMap <==> 1 <= k <= KeyCount
    ensures forall k | k in ImageKeyMap :: ImageKeyMap[k] == RowSwap(k)
  {
  }

  /** The reverse table is the row swap too. */
  lemma HwToLogicalIsRowSwap()
    ensures forall h :: h in HwToLogicalKey <==> 1 <= h <= KeyCount
    ensures forall h | h in HwToLogicalKey :: HwToLogicalKey[h] as int == RowSwap(h)
  {
  }

  /** The reverse table holds exactly the swapped pairs of the image table. */
  lemma {:induction false} HwToLogicalIsInverse()
    ensures HwToLogicalKey.Keys == ImageKeyMap.Values
    ensures forall k | k in ImageKeyMap :: HwToLogicalKey[ImageKeyMap[k]] as int == k
    ensures forall h | h in HwToLogicalKey :: HwToLogicalKey[h] as int in ImageKeyMap && ImageKeyMap[HwToLogicalKey[h] as int] == h
  {
    ImageKeyMapIsRowSwap();
    HwToLogicalIsRowSwap();
    forall h | h in HwToLogicalKey ensures h in ImageKeyMap.Values {
      assert ImageKeyMap[RowSwap(h)] == h;
    }
  }

  const SecondaryKeyMap: map<int, ButtonKey> := map[0x40 := 11, 0x41 := 12, 0x42 := 13, 0x43 := 14]

  const KnobRotateMap: map<int, (KnobId, Direction)> := map[
    0xA0 := (Knob1, Left), 0xA1 := (Knob1, Right),
    0x50 := (Knob2, Left), 0x51 := (Knob2, Right),
    0x90 := (Knob3, Left), 0x91 := (Knob3, Right),
    0x70 := (Knob4, Left), 0x71 := (Knob4, Right)]

  const KnobPressMap: map<int, KnobId> := map[0x37 := Knob1, 0x35 := Knob2, 0x33 := Knob3, 0x36 := Knob4]

  /** The codes each decoding table knows. */
  lemma SecondaryDomain()
    ensures forall c :: c in SecondaryKeyMap <==> 0x40 <= c <= 0x43
  {
  }

  lemma KnobRotateDomain()
    ensures forall c :: c in KnobRotateMap <==> c in {0xA0, 0xA1, 0x50, 0x51, 0x90, 0x91, 0x70, 0x71}
  {
  }

  /** In the rotation table the even code of each knob turns left and the odd one right. */
  lemma KnobRotateDirections()
    ensures forall c | c in KnobRotateMap :: KnobRotateMap[c].1 == if c % 2 == 0 then Left else Right
  {
  }

  lemma KnobPressDomain()
    ensures forall c :: c in KnobPressMap <==> c in {0x37, 0x35, 0x33, 0x36}
  {
  }

  /** `decode_input_event`: the tables are consulted in this order; the first hit wins. */
  function DecodeInputEvent(code: int, state: int): (e: InputEvent)
    ensures WellFormed(e)
  {
    var s := NormalizeState(state);
    if code in HwToLogicalKey then ButtonEvent(HwToLogicalKey[code], s)
    else if code in SecondaryKeyMap then ButtonEvent(SecondaryKeyMap[code], s)
    else if code in KnobRotateMap then KnobRotateEvent(KnobRotateMap[code].0, KnobRotateMap[code].1)
    else if code in KnobPressMap then KnobPressEvent(KnobPressMap[code], s)
    else if code == 0x38 then SwipeEvent(Left)
    else if code == 0x39 then SwipeEvent(Right)
    else UnknownEvent()
  }

  /** Decoding the hardware code of a key gives that key back, pressed iff the state byte is 0x01. */
  lemma DecodeInvertsImageKey(key: int, state: int)
    requires 1 <= key <= KeyCount
    ensures GetImageKey(key).Ok?
    ensures DecodeInputEvent(GetImageKey(key).value, state) == ButtonEvent(key, if state == 0x01 then 1 else 0)
  {
    HwToLogicalIsInverse();
  }

  /** A report decodes to BUTTON exactly for codes 1..15 and the second-screen codes 0x40..0x43. */
  lemma DecodeButtonIff(code: int, state: int)
    ensures DecodeInputEvent(code, state).eventType == Button <==> 1 <= code <= 15 || 0x40 <= code <= 0x43
    ensures 0x40 <= code <= 0x43 ==> DecodeInputEvent(code, state) == ButtonEvent(code - 0x40 + 11, NormalizeState(state))
  {
    HwToLogicalIsRowSwap();
    SecondaryDomain();
  }

  /** Rotation ignores the state byte; the even code turns left, the odd one right. */
  lemma DecodeRotation(code: int, state1: int, state2: int)
    requires code in {0xA0, 0xA1, 0x50, 0x51, 0x90, 0x91, 0x70, 0x71}
    ensures DecodeInputEvent(code, state1) == DecodeInputEvent(code, state2)
    ensures DecodeInputEvent(code, state1).eventType == KnobRotate
    ensures DecodeInputEvent(code, state1).direction == Some(if code % 2 == 0 then Left else Right)
  {
    HwToLogicalIsRowSwap();
    SecondaryDomain();
    KnobRotateDomain();
    KnobRotateDirections();
  }

  /** The event kind of every code: knob presses, swipes, and UNKNOWN for everything unlisted. */
  lemma DecodeKinds(code: int, state: int)
    ensures DecodeInputEvent(code, state).eventType == KnobPress <==> code in {0x37, 0x35, 0x33, 0x36}
    ensures DecodeInputEvent(code, state).eventType == Swipe <==> code == 0x38 || code == 0x39
    ensures DecodeInputEvent(code, state).eventType == KnobRotate <==> code in KnobRotateMap
    ensures DecodeInputEvent(code, state).eventType == Unknown <==>
      !(1 <= code <= 15 || 0x40 <= code <= 0x43 || code in KnobRotateMap || code in KnobPressMap || code == 0x38 || code == 0x39)
  {
    HwToLogicalIsRowSwap();
    SecondaryDomain();
    KnobRotateDomain();
    KnobPressDomain();
  }

  /** Hardware code 0x01 and second-screen code 0x40 both decode to KEY_11. */
  lemma SecondScreenCodeAliasesKey11(state: int)
    ensures DecodeInputEvent(0x01, state) == DecodeInputEvent(0x40, state) == ButtonEvent(11, NormalizeState(state))
  {
  }

  /**
   * `set_seondscreen_image`: keys 11..14 only, the hardware key looked up
   * before the file is checked, written in the second-screen layout; a
   * file that fails to open, convert or save raises, which is caught and
   * gives -1.
   */
  function SetSecondScreenImage(key: int, pathExists: bool, imageOpens: bool): (a: KeyImageAction)
    ensures a.Write? <==> 11 <= key <= 14 && pathExists && imageOpens
    ensures a.Write? ==> a == Write(SetKeyImgDualDevice, SecondScreenFormat, key - 10)
  {
    if !(11 <= key <= 14) then Reject
    else
      var hw := GetImageKey(key);
      if hw.Err? then Reject
      else if !pathExists then Reject
      else if !imageOpens then Reject
      else Write(SetKeyImgDualDevice, SecondScreenFormat, hw.value)
  }

  /**
   * `set_key_image`: -1 for keys outside 1..15 or a missing file; keys 11..14
   * are handed to the second-screen setter; the rest are written in the key
   * layout under their hardware key once the file opens, converts and
   * saves (an exception on the way is caught and gives -1).
   */
  function SetKeyImage(key: int, pathExists: bool, imageOpens: bool): (a: KeyImageAction)
    ensures a.Write? <==> 1 <= key <= KeyCount && pathExists && imageOpens
    ensures a.Write? ==> a.call == SetKeyImgDualDevice && Ok(a.hwKey) == GetImageKey(key)
    ensures a.Write? ==> (a.format == SecondScreenFormat <==> 11 <= key <= 14)
    ensures a.Write? ==> a.format in {KeyFormat, SecondScreenFormat}
  {
    if !(1 <= key <= KeyCount) then Reject
    else if !pathExists then Reject
    else if 11 <= key <= 14 then SetSecondScreenImage(key, pathExists, imageOpens)
    else
      var hw := GetImageKey(key);
      if hw.Err? then Reject
      else if !imageOpens then Reject
      else Write(SetKeyImgDualDevice, KeyFormat, hw.value)
  }

  /** The setter's return value is -1 exactly when it rejects, given a transport status other than -1. */
  lemma SetKeyImageResult(key: int, pathExists: bool, imageOpens: bool, status: int)
    requires status != -1
    ensures ReturnValue(SetKeyImage(key, pathExists, imageOpens), status) == -1 <==>
      !(1 <= key <= KeyCount && pathExists && imageOpens)
    ensures 1 <= key <= KeyCount && pathExists && imageOpens ==>
      ReturnValue(SetKeyImage(key, pathExists, imageOpens), status) == status
  {
  }
}
