/**
 * StreamDockN3 (Python): six screen keys, three buttons below the screen
 * and three knobs. The screen keys keep their numbers; the three buttons
 * have hardware codes 0x25, 0x30, 0x31 and no image slot.
 */
module PyN3 {
  import opened Common
  import opened InputTypes
  import opened PyDevice

  const KeyCount := 18

  /** `_IMAGE_KEY_MAP`: logical key -> hardware key. */
  const ImageKeyMap: map<int, int> := map[
    1 := 1, 2 := 2, 3 := 3, 4 := 4, 5 := 5, 6 := 6, 7 := 0x25, 8 := 0x30, 9 := 0x31]

  /** `_HW_TO_LOGICAL_KEY`, the swapped pairs of the image table. */
  const HwToLogicalKey: map<int, ButtonKey> := map[
    1 := 1, 2 := 2, 3 := 3, 4 := 4, 5 := 5, 6 := 6, 0x25 := 7, 0x30 := 8, 0x31 := 9]

  /** `get_image_key`: keys 1..9 only, although the device declares 18. */
  function GetImageKey(key: int): (r: Result<int>)
    ensures r.Ok? <==> 1 <= key <= 9
    ensures r.Ok? && key <= 6 ==> r.value == key
    ensures r.Ok? && key > 6 ==> r.value in {0x25, 0x30, 0x31}
  {
    if key in ImageKeyMap then Ok(ImageKeyMap[key]) else Err("unsupported key")
  }

  /** The reverse table holds exactly the swapped pairs of the image table. */
  lemma HwToLogicalIsInverse()
    ensures HwToLogicalKey.Keys == ImageKeyMap.Values
    ensures forall k | k in ImageKeyMap :: ImageKeyMap[k] in HwToLogicalKey && HwToLogicalKey[ImageKeyMap[k]] as int == k
  {
    assert forall h :: h in HwToLogicalKey ==> ImageKeyMap[HwToLogicalKey[h] as int] == h;
  }

  const KnobRotateMap: map<int, (KnobId, Direction)> := map[
    0x90 := (Knob1, Left), 0x91 := (Knob1, Right),
    0x60 := (Knob2, Left), 0x61 := (Knob2, Right),
    0x50 := (Knob3, Left), 0x51 := (Knob3, Right)]

  const KnobPressMap: map<int, KnobId> := map[0x33 := Knob1, 0x34 := Knob2, 0x35 := Knob3]

  /** `decode_input_event`: keys, then rotations, then knob presses, else UNKNOWN. */
  function DecodeInputEvent(code: int, state: int): (e: InputEvent)
    ensures WellFormed(e)
  {
    var s := NormalizeState(state);
    if code in HwToLogicalKey then ButtonEvent(HwToLogicalKey[code], s)
    else if code in KnobRotateMap then KnobRotateEvent(KnobRotateMap[code].0, KnobRotateMap[code].1)
    else if code in KnobPressMap then KnobPressEvent(KnobPressMap[code], s)
    else UnknownEvent()
  }

  /** Decoding the hardware code of a key gives that key back with the normalised state. */
  lemma DecodeInvertsImageKey(key: int, state: int)
    requires 1 <= key <= 9
    ensures GetImageKey(key).Ok?
    ensures DecodeInputEvent(GetImageKey(key).value, state) == ButtonEvent(key, NormalizeState(state))
  {
    HwToLogicalIsInverse();
  }

  /** The kind of event each code yields; every code outside the three tables is UNKNOWN. */
  lemma DecodeKinds(code: int, state: int)
    ensures DecodeInputEvent(code, state).eventType == Button <==> 1 <= code <= 6 || code in {0x25, 0x30, 0x31}
    ensures DecodeInputEvent(code, state).eventType == KnobRotate <==> code in {0x90, 0x91, 0x60, 0x61, 0x50, 0x51}
    ensures DecodeInputEvent(code, state).eventType == KnobPress <==> code in {0x33, 0x34, 0x35}
    ensures DecodeInputEvent(code, state).eventType == Unknown <==>
      !(code in HwToLogicalKey || code in KnobRotateMap || code in KnobPressMap)
  {
  }

  /**
   * A rotate code gives a rotation of its knob in its direction whatever the
   * state byte; a press code gives a press of its knob with the normalised state.
   */
  lemma DecodeKnobEvents(code: int, state: int)
    ensures code in KnobRotateMap ==>
      DecodeInputEvent(code, state) == KnobRotateEvent(KnobRotateMap[code].0, KnobRotateMap[code].1)
    ensures code in KnobPressMap ==>
      DecodeInputEvent(code, state) == KnobPressEvent(KnobPressMap[code], NormalizeState(state))
  {
  }

  /** The knob and direction of each code: 0x90/0x91 turn knob 1, 0x60/0x61 knob 2, 0x50/0x51 knob 3; 0x33..0x35 press knobs 1..3. */
  lemma KnobCodes(state: int)
    ensures DecodeInputEvent(0x90, state) == KnobRotateEvent(Knob1, Left)
    ensures DecodeInputEvent(0x91, state) == KnobRotateEvent(Knob1, Right)
    ensures DecodeInputEvent(0x60, state) == KnobRotateEvent(Knob2, Left)
    ensures DecodeInputEvent(0x61, state) == KnobRotateEvent(Knob2, Right)
    ensures DecodeInputEvent(0x50, state) == KnobRotateEvent(Knob3, Left)
    ensures DecodeInputEvent(0x51, state) == KnobRotateEvent(Knob3, Right)
    ensures DecodeInputEvent(0x33, state) == KnobPressEvent(Knob1, NormalizeState(state))
    ensures DecodeInputEvent(0x34, state) == KnobPressEvent(Knob2, NormalizeState(state))
    ensures DecodeInputEvent(0x35, state) == KnobPressEvent(Knob3, NormalizeState(state))
  {
    DecodeKnobEvents(0x90, state);
    DecodeKnobEvents(0x91, state);
    DecodeKnobEvents(0x60, state);
    DecodeKnobEvents(0x61, state);
    DecodeKnobEvents(0x50, state);
    DecodeKnobEvents(0x51, state);
    DecodeKnobEvents(0x33, state);
    DecodeKnobEvents(0x34, state);
    DecodeKnobEvents(0x35, state);
  }

  /**
   * `set_key_image`: keys 1..18 pass the range check, but keys 10..18 raise
   * in `get_image_key` and the three buttons' hardware codes fall outside
   * 1..9, so only the six screen keys are ever written. A file that fails
   * to open, convert or save raises, which is caught and gives -1.
   */
  function SetKeyImage(key: int, pathExists: bool, imageOpens: bool): (a: KeyImageAction)
    ensures a.Write? <==> 1 <= key <= 6 && pathExists && imageOpens
    ensures a.Write? ==> a == Write(SetKeyImgDualDevice, KeyFormat, key)
  {
    if !(1 <= key <= KeyCount) then Reject
    else if !pathExists then Reject
    else
      var hw := GetImageKey(key);
      if hw.Err? then Reject
      else if !(1 <= hw.value <= 9) then Reject
      else if !imageOpens then Reject
      else Write(SetKeyImgDualDevice, KeyFormat, hw.value)
  }

  /** Buttons 7..9 and keys 10..18 are accepted by the range check yet never written. */
  lemma ButtonsAndHighKeysNeverWrite(key: int, pathExists: bool, imageOpens: bool)
    requires 7 <= key <= KeyCount
    ensures SetKeyImage(key, pathExists, imageOpens) == Reject
  {
  }

  /** The setter's return value is -1 exactly when it rejects, given a transport status other than -1. */
  lemma SetKeyImageResult(key: int, pathExists: bool, imageOpens: bool, status: int)
    requires status != -1
    ensures ReturnValue(SetKeyImage(key, pathExists, imageOpens), status) == -1 <==>
      !(1 <= key <= 6 && pathExists && imageOpens)
    ensures 1 <= key <= 6 && pathExists && imageOpens ==>
      ReturnValue(SetKeyImage(key, pathExists, imageOpens), status) == status
  {
  }
}
