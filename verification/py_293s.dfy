/**
 * StreamDock293s (Python): fifteen main keys and a three-key second
 * screen. The image table turns the 5x3 logical grid into the hardware's
 * numbering; the second-screen keys 16..18 keep their numbers. The
 * background is sent as raw BGR bytes walked column by column.
 */
module Py293s {
  import opened Common
  import opened InputTypes
  import opened PyDevice
  import opened PyBgr

  const KeyCount := 18

  /** `_IMAGE_KEY_MAP`: logical key -> hardware key. */
  const ImageKeyMap: map<int, int> := map[
    1 := 13, 2 := 10, 3 := 7, 4 := 4, 5 := 1,
    6 := 14, 7 := 11, 8 := 8, 9 := 5, 10 := 2,
    11 := 15, 12 := 12, 13 := 9, 14 := 6, 15 := 3,
    16 := 16, 17 := 17, 18 := 18]

  /** `_HW_TO_LOGICAL_KEY`, the swapped pairs of the image table. */
  const HwToLogicalKey: map<int, ButtonKey> := map[
    13 := 1, 10 := 2, 7 := 3, 4 := 4, 1 := 5,
    14 := 6, 11 := 7, 8 := 8, 5 := 9, 2 := 10,
    15 := 11, 12 := 12, 9 := 13, 6 := 14, 3 := 15,
    16 := 16, 17 := 17, 18 := 18]

  /**
   * The layout of the table: logical key k of the main screen sits in row
   * (k-1)/5 and column (k-1)%5; the hardware numbers the same key
   * 13 + row - 3 * column. The second screen is numbered alike on both sides.
   */
  function HardwareSlot(k: int): int
  {
    if 1 <= k <= 15 then 13 + (k - 1) / 5 - 3 * ((k - 1) % 5) else k
  }

  /** The inverse layout: hardware slot h is row (h-1)%3, column 4 - (h-1)/3. */
  function LogicalKeyOfSlot(h: int): int
  {
    if 1 <= h <= 15 then 5 * ((h - 1) % 3) + (4 - (h - 1) / 3) + 1 else h
  }

  /** `get_image_key`: ValueError outside KEY_1..KEY_18. */
  function GetImageKey(key: int): (r: Result<int>)
    ensures r.Ok? <==> 1 <= key <= KeyCount
    ensures r.Ok? ==> r.value == HardwareSlot(key) && 1 <= r.value <= KeyCount
    ensures r.Ok? ==> (r.value >= 16 <==> key >= 16)
  {
    if key in ImageKeyMap then Ok(ImageKeyMap[key]) else Err("unsupported key")
  }

  /** The reverse table is the inverse layout on 1..18. */
  lemma HwToLogicalIsLayoutInverse()
    ensures forall h :: h in HwToLogicalKey <==> 1 <= h <= KeyCount
    ensures forall h | h in HwToLogicalKey :: HwToLogicalKey[h] as int == LogicalKeyOfSlot(h)
  {
  }

  /** Following a key to its slot and back through the reverse table gives the key. */
  lemma ImageKeyRoundTrip()
    ensures forall k | k in ImageKeyMap :: ImageKeyMap[k] in HwToLogicalKey && HwToLogicalKey[ImageKeyMap[k]] as int == k
  {
  }

  /** The reverse table undoes the image table, and the two layouts are inverse bijections of 1..18. */
  lemma {:induction false} HwToLogicalIsInverse()
    ensures HwToLogicalKey.Keys == ImageKeyMap.Values
    ensures forall k | 1 <= k <= KeyCount :: LogicalKeyOfSlot(HardwareSlot(k)) == k
  {
    ImageKeyRoundTrip();
    HwToLogicalIsLayoutInverse();
    forall h | h in HwToLogicalKey ensures h in ImageKeyMap.Values {
      assert ImageKeyMap[HwToLogicalKey[h] as int] == h;
    }
    forall k | 1 <= k <= KeyCount ensures LogicalKeyOfSlot(HardwareSlot(k)) == k {
      assert GetImageKey(k).value == ImageKeyMap[k];
    }
  }

  /** `decode_input_event`: BUTTON through the reverse table, UNKNOWN otherwise. */
  function DecodeInputEvent(code: int, state: int): (e: InputEvent)
    ensures WellFormed(e)
    ensures e.eventType in {Button, Unknown}
  {
    if code in HwToLogicalKey then ButtonEvent(HwToLogicalKey[code], NormalizeState(state))
    else UnknownEvent()
  }

  /** Decoding the hardware key of a logical key gives it back; only codes 1..18 are buttons. */
  lemma {:induction false} DecodeInvertsImageKey(key: int, code: int, state: int)
    requires 1 <= key <= KeyCount
    ensures GetImageKey(key).Ok?
    ensures DecodeInputEvent(GetImageKey(key).value, state) == ButtonEvent(key, NormalizeState(state))
    ensures DecodeInputEvent(code, state).eventType == Button <==> 1 <= code <= KeyCount
  {
    ImageKeyRoundTrip();
    HwToLogicalIsLayoutInverse();
  }

  /**
   * `set_key_image`: keys 1..18 with an existing file that opens, converts
   * and saves go to `setKeyImg` under their hardware key; hardware keys
   * 1..15 in the key layout, 16..18 in the second-screen layout. An
   * exception on the way is caught and gives -1.
   */
  function SetKeyImage(key: int, pathExists: bool, imageOpens: bool): (a: KeyImageAction)
    ensures a.Write? <==> 1 <= key <= KeyCount && pathExists && imageOpens
    ensures a.Write? ==> a.call == SetKeyImg && a.hwKey == HardwareSlot(key)
    ensures a.Write? ==> (a.format == SecondScreenFormat <==> key >= 16) && a.format != TouchscreenFormat
  {
    if !(1 <= key <= KeyCount) then Reject
    else if !pathExists then Reject
    else
      var hw := GetImageKey(key);
      if hw.Err? then Reject
      else if !imageOpens then Reject
      else if 1 <= hw.value <= 15 then Write(SetKeyImg, KeyFormat, hw.value)
      else Write(SetKeyImg, SecondScreenFormat, hw.value)
  }

  /** The setter's return value is -1 exactly when it rejects, given a transport status other than -1. */
  lemma SetKeyImageResult(key: int, pathExists: bool, imageOpens: bool, status: int)
    requires status != -1
    ensures ReturnValue(SetKeyImage(key, pathExists, imageOpens), status) == -1 <==>
      !(1 <= key <= KeyCount && pathExists && imageOpens)
    ensures 1 <= key <= KeyCount && pathExists && imageOpens ==>
      ReturnValue(SetKeyImage(key, pathExists, imageOpens), status) == status
  {
  }

  /** The background bytes: columns left to right, each column top to bottom. */
  method PackTouchscreenBgr(img: seq<seq<Pixel>>, width: nat, height: nat) returns (data: seq<Byte>)
    requires IsImage(img, width, height)
    ensures data == Flat(img, width, height, ColumnMajor, width * height)
  {
    data := [];
    assert Flat(img, width, height, ColumnMajor, 0) == [];
    hide Flat, PixelAt, Bgr, LineStart;
    var x := 0;
    LineStartFacts(0, height, width);
    while x < width
      invariant 0 <= x <= width
      invariant LineStart(x, height) <= width * height
      invariant data == Flat(img, width, height, ColumnMajor, LineStart(x, height))
    {
      LineStartFacts(x, height, width);
      var y := 0;
      while y < height
        invariant 0 <= y <= height
        invariant data == Flat(img, width, height, ColumnMajor, LineStart(x, height) + y)
      {
        ColumnMajorStep(img, width, height, x, y);
        data := data + Bgr(img[y][x]);
        y := y + 1;
      }
      x := x + 1;
    }
    LineStartFacts(width, height, width);
  }

  /**
   * `set_touchscreen_image`: there is no file check and no handler, so a
   * missing file or one that fails to open or convert raises out of the
   * method; otherwise `img` is the converted picture, and its packed bytes
   * and their length, width * height * 3, go to `setBackgroundImg`.
   */
  method SetTouchscreenImage(imageOpens: bool, img: seq<seq<Pixel>>, width: nat, height: nat) returns (a: BackgroundAction)
    requires IsImage(img, width, height)
    ensures a.RaiseBackground? <==> !imageOpens
    ensures !a.RejectBackground?
    ensures a.SetBackgroundImg? ==>
      a.data == Flat(img, width, height, ColumnMajor, width * height) && a.size == width * height * 3 == |a.data|
  {
    if !imageOpens {
      return RaiseBackground;
    }
    var data := PackTouchscreenBgr(img, width, height);
    FlatLength(img, width, height, ColumnMajor, width * height);
    a := SetBackgroundImg(data, width * height * 3);
  }

  /** Pixel (x, y) of the background sits at byte 3 * (x * height + y), blue first. */
  lemma TouchscreenPixelSlot(img: seq<seq<Pixel>>, width: nat, height: nat, x: nat, y: nat)
    requires IsImage(img, width, height) && x < width && y < height
    ensures x * height + y < width * height
    ensures |Flat(img, width, height, ColumnMajor, width * height)| == 3 * (width * height)
    ensures Flat(img, width, height, ColumnMajor, width * height)[3 * (x * height + y) .. 3 * (x * height + y) + 3] == Bgr(img[y][x])
  {
    ColumnMajorOffset(img, width, height, x, y);
    FlatSlot(img, width, height, ColumnMajor, width * height, x * height + y);
  }
}
