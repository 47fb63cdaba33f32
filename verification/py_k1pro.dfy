/**
 * K1Pro (Python): six keys and three knobs. Key images are placed through
 * a fixed permutation of the six hardware slots; reports are decoded
 * through its inverse. The keyboard lighting setters forward to the
 * transport, and effect 0 (static light) first sets the speed to 0.
 */
module PyK1Pro {
  import opened Common
  import opened InputTypes
  import opened PyDevice

  const KeyCount := 6

  /** `_IMAGE_KEY_MAP`: logical key -> hardware key. */
  const ImageKeyMap: map<int, int> := map[1 := 0x05, 2 := 0x03, 3 := 0x01, 4 := 0x06, 5 := 0x04, 6 := 0x02]

  /** `_HW_TO_LOGICAL_KEY`, the swapped pairs of the image table. */
  const HwToLogicalKey: map<int, ButtonKey> := map[0x05 := 1, 0x03 := 2, 0x01 := 3, 0x06 := 4, 0x04 := 5, 0x02 := 6]

  /** The layout of the table: keys 1..3 take the odd slots 5, 3, 1 and keys 4..6 the even slots 6, 4, 2. */
  function SlotOf(k: int): int
  {
    if k <= 3 then 7 - 2 * k else 14 - 2 * k
  }

  /** The inverse layout: an odd slot belongs to the first three keys, an even one to the last three. */
  function KeyOfSlot(h: int): int
  {
    if h % 2 == 1 then (7 - h) / 2 else (14 - h) / 2
  }

  /** `get_image_key`: ValueError outside KEY_1..KEY_6. */
  function GetImageKey(key: int): (r: Result<int>)
    ensures r.Ok? <==> 1 <= key <= KeyCount
    ensures r.Ok? ==> r.value == SlotOf(key) && 1 <= r.value <= KeyCount
  {
    if key in ImageKeyMap then Ok(ImageKeyMap[key]) else Err("unsupported key")
  }

  /** The slot layout is a bijection of 1..6 onto itself. */
  lemma SlotLayoutIsBijection()
    ensures forall k | 1 <= k <= KeyCount :: 1 <= SlotOf(k) <= KeyCount && KeyOfSlot(SlotOf(k)) == k
    ensures forall h | 1 <= h <= KeyCount :: 1 <= KeyOfSlot(h) <= KeyCount && SlotOf(KeyOfSlot(h)) == h
  {
  }

  /** The reverse table is the inverse layout on 1..6. */
  lemma HwToLogicalIsKeyOfSlot()
    ensures forall h :: h in HwToLogicalKey <==> 1 <= h <= KeyCount
    ensures forall h | h in HwToLogicalKey :: HwToLogicalKey[h] as int == KeyOfSlot(h)
  {
  }

  /** The reverse table holds exactly the swapped pairs of the image table. */
  lemma {:induction false} HwToLogicalIsInverse()
    ensures HwToLogicalKey.Keys == ImageKeyMap.Values
    ensures forall k | k in ImageKeyMap :: HwToLogicalKey[ImageKeyMap[k]] as int == k
  {
    HwToLogicalIsKeyOfSlot();
    SlotLayoutIsBijection();
    forall h | h in HwToLogicalKey ensures h in ImageKeyMap.Values {
      assert GetImageKey(KeyOfSlot(h)).value == h;
    }
    forall k | k in ImageKeyMap ensures ImageKeyMap[k] in HwToLogicalKey && HwToLogicalKey[ImageKeyMap[k]] as int == k {
      assert GetImageKey(k).value == SlotOf(k);
    }
  }

  const KnobPressMap: map<int, KnobId> := map[0x25 := Knob1, 0x30 := Knob2, 0x31 := Knob3]

  const KnobRotateMap: map<int, (KnobId, Direction)> := map[
    0x50 := (Knob1, Left), 0x51 := (Knob1, Right),
    0x60 := (Knob2, Left), 0x61 := (Knob2, Right),
    0x90 := (Knob3, Left), 0x91 := (Knob3, Right)]

  /** `decode_input_event`: keys, then knob presses, then rotations, else UNKNOWN. */
  function DecodeInputEvent(code: int, state: int): (e: InputEvent)
    ensures WellFormed(e)
  {
    var s := NormalizeState(state);
    if code in HwToLogicalKey then ButtonEvent(HwToLogicalKey[code], s)
    else if code in KnobPressMap then KnobPressEvent(KnobPressMap[code], s)
    else if code in KnobRotateMap then KnobRotateEvent(KnobRotateMap[code].0, KnobRotateMap[code].1)
    else UnknownEvent()
  }

  /** Decoding the slot of a key gives that key back, pressed iff the state byte is 0x01. */
  lemma DecodeInvertsImageKey(key: int, state: int)
    requires 1 <= key <= KeyCount
    ensures GetImageKey(key).Ok?
    ensures DecodeInputEvent(GetImageKey(key).value, state) == ButtonEvent(key, NormalizeState(state))
  {
    HwToLogicalIsInverse();
  }

  /** The kind of event each code yields; every code outside the three tables is UNKNOWN. */
  lemma DecodeKinds(code: int, state: int)
    ensures DecodeInputEvent(code, state).eventType == Button <==> 1 <= code <= 6
    ensures DecodeInputEvent(code, state).eventType == KnobPress <==> code in {0x25, 0x30, 0x31}
    ensures DecodeInputEvent(code, state).eventType == KnobRotate <==> code in {0x50, 0x51, 0x60, 0x61, 0x90, 0x91}
    ensures DecodeInputEvent(code, state).eventType == Unknown <==>
      !(1 <= code <= 6 || code in KnobPressMap || code in KnobRotateMap)
  {
  }

  /** Knob presses carry the normalised state; rotations ignore it and turn right on the odd code. */
  lemma DecodeKnobs(code: int, state: int)
    ensures code in KnobPressMap ==> DecodeInputEvent(code, state).state == NormalizeState(state)
    ensures code in KnobRotateMap ==>
      DecodeInputEvent(code, state) == DecodeInputEvent(code, 0) &&
      DecodeInputEvent(code, state).direction == Some(if code % 2 == 1 then Right else Left)
  {
  }

  /** `set_touchscreen_image`: background images are not supported; nothing is sent and 0 is returned. */
  function SetTouchscreenImage(pathExists: bool): (r: int)
    ensures r == 0
  {
    0
  }

  /**
   * `set_key_image`: keys 1..6 with an existing file that opens, converts
   * and saves are written in the key layout under their slot; an exception
   * on the way is caught and gives -1.
   */
  function SetKeyImage(key: int, pathExists: bool, imageOpens: bool): (a: KeyImageAction)
    ensures a.Write? <==> 1 <= key <= KeyCount && pathExists && imageOpens
    ensures a.Write? ==> a == Write(SetKeyImgDualDevice, KeyFormat, SlotOf(key))
  {
    if !(1 <= key <= KeyCount) then Reject
    else if !pathExists then Reject
    else
      var hw := GetImageKey(key);
      if hw.Err? then Reject
      else if !imageOpens then Reject
      else Write(SetKeyImgDualDevice, KeyFormat, hw.value)
  }

  /** The setter's return value is -1 exactly when it rejects, given a transport status other than -1. */
  lemma SetKeyImageResult(key: int, pathExists: bool, imageOpens: bool, status: int)
    requires status != -1
    ensures ReturnValue(SetKeyImage(key, pathExists, imageOpens), status) == -1 <==>
      !(1 <= key <= KeyCount && pathExists && imageOpens)
    ensures 1 <= key <= KeyCount && pathExists && imageOpens ==>
      ReturnValue(SetKeyImage(key, pathExists, imageOpens), status) == status
  {
  }

  /** The lighting calls forwarded to the transport. */
  datatype LightingCall = SetLightingSpeed(speed: int) | SetLightingEffect(effect: int)

  /** `set_keyboard_lighting_effects`: the calls in the order they reach the transport. */
  function SetKeyboardLightingEffects(effect: int): (calls: seq<LightingCall>)
    ensures |calls| >= 1 && calls[|calls| - 1] == SetLightingEffect(effect)
    ensures effect == 0 <==> |calls| == 2
    ensures effect != 0 ==> |calls| == 1
    ensures effect == 0 ==> calls[0] == SetLightingSpeed(0)
  {
    (if effect == 0 then [SetLightingSpeed(0)] else []) + [SetLightingEffect(effect)]
  }
}
