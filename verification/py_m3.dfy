/**
 * StreamDockM3 (Python): fifteen keys laid out with the row swap and a
 * decoder that knows only keys.
 */
module PyM3 {
  import opened Common
  import opened InputTypes
  import opened PyDevice

  const KeyCount := 15

  /** `_IMAGE_KEY_MAP`: logical key -> hardware key. */
  const ImageKeyMap: map<int, int> := map[
    1 := 11, 2 := 12, 3 := 13, 4 := 14, 5 := 15,
    6 := 6, 7 := 7, 8 := 8, 9 := 9, 10 := 10,
    11 := 1, 12 := 2, 13 := 3, 14 := 4, 15 := 5]

  /** `_HW_TO_LOGICAL_KEY`, the swapped pairs of the image table. */
  const HwToLogicalKey: map<int, ButtonKey> := map[
    11 := 1, 12 := 2, 13 := 3, 14 := 4, 15 := 5,
    6 := 6, 7 := 7, 8 := 8, 9 := 9, 10 := 10,
    1 := 11, 2 := 12, 3 := 13, 4 := 14, 5 := 15]

  /** `get_image_key`: ValueError outside the table. */
  function GetImageKey(key: int): (r: Result<int>)
    ensures r.Ok? <==> 1 <= key <= KeyCount
    ensures r.Ok? ==> r.value == RowSwap(key)
  {
    if key in ImageKeyMap then Ok(ImageKeyMap[key]) else Err("unsupported key")
  }

  /** The reverse table is the row swap on 1..15. */
  lemma HwToLogicalIsRowSwap()
    ensures forall h :: h in HwToLogicalKey <==> 1 <= h <= KeyCount
    ensures forall h | h in HwToLogicalKey :: HwToLogicalKey[h] as int == RowSwap(h)
  {
  }

  /** `decode_input_event`: BUTTON through the reverse table, UNKNOWN otherwise. */
  function DecodeInputEvent(code: int, state: int): (e: InputEvent)
    ensures WellFormed(e)
    ensures e.eventType in {Button, Unknown}
  {
    if code in HwToLogicalKey then ButtonEvent(HwToLogicalKey[code], NormalizeState(state))
    else UnknownEvent()
  }

  /** Decoding the hardware key of a logical key gives it back; only codes 1..15 are buttons. */
  lemma {:induction false} DecodeInvertsImageKey(key: int, code: int, state: int)
    requires 1 <= key <= KeyCount
    ensures GetImageKey(key).Ok?
    ensures DecodeInputEvent(GetImageKey(key).value, state) == ButtonEvent(key, NormalizeState(state))
    ensures DecodeInputEvent(code, state).eventType == Button <==> 1 <= code <= KeyCount
  {
    HwToLogicalIsRowSwap();
    RowSwapInvolution(key);
  }

  /**
   * `set_key_image`: keys 1..15 with an existing file that opens, converts
   * and saves go to `setKeyImgDualDevice` under their hardware key; an
   * exception on the way is caught and gives -1.
   */
  function SetKeyImage(key: int, pathExists: bool, imageOpens: bool): (a: KeyImageAction)
    ensures a.Write? <==> 1 <= key <= KeyCount && pathExists && imageOpens
    ensures a.Write? ==> a == Write(SetKeyImgDualDevice, KeyFormat, RowSwap(key))
  {
    if !(1 <= key <= KeyCount) then Reject
    else if !pathExists then Reject
    else
      var hw := GetImageKey(key);
      if hw.Err? then Reject
      else if !imageOpens then Reject
      else Write(SetKeyImgDualDevice, KeyFormat, hw.value)
  }

  /** The setter's return value is -1 exactly when it rejects, given a transport status other than -1. */
  lemma SetKeyImageResult(key: int, pathExists: bool, imageOpens: bool, status: int)
    requires status != -1
    ensures ReturnValue(SetKeyImage(key, pathExists, imageOpens), status) == -1 <==>
      !(1 <= key <= KeyCount && pathExists && imageOpens)
    ensures 1 <= key <= KeyCount && pathExists && imageOpens ==>
      ReturnValue(SetKeyImage(key, pathExists, imageOpens), status) == status
  {
  }
}
