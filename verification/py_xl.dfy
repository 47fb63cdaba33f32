/**
 * StreamDockXL (Python): 32 keys in four rows of eight. `KEY_MAPPING`
 * reverses the order of the rows, and `key()` applies it to the keys of
 * the device and leaves every other number alone.
 */
module PyXL {
  import opened PyDevice

  const KeyCount := 32

  /** Each entry of `KEY_MAPPING`; 0 outside 1..32. */
  function MappingEntry(k: int): int
  {
    match k
    case 1 => 25 case 2 => 26 case 3 => 27 case 4 => 28 case 5 => 29 case 6 => 30 case 7 => 31 case 8 => 32
    case 9 => 17 case 10 => 18 case 11 => 19 case 12 => 20 case 13 => 21 case 14 => 22 case 15 => 23 case 16 => 24
    case 17 => 9 case 18 => 10 case 19 => 11 case 20 => 12 case 21 => 13 case 22 => 14 case 23 => 15 case 24 => 16
    case 25 => 1 case 26 => 2 case 27 => 3 case 28 => 4 case 29 => 5 case 30 => 6 case 31 => 7 case 32 => 8
    case _ => 0
  }

  /** Module-level `KEY_MAPPING`. */
  const KeyMapping: map<int, int> := map k: int | 1 <= k <= KeyCount :: MappingEntry(k)

  /** The layout of the mapping: key k in row (k-1)/8, column (k-1)%8 moves to row 3 - (k-1)/8. */
  function RowReversed(k: int): int
    requires 1 <= k <= KeyCount
  {
    (3 - (k - 1) / 8) * 8 + (k - 1) % 8 + 1
  }

  /** The mapping is the row reversal of 1..32 and holds nothing else. */
  lemma KeyMappingIsRowReversal()
    ensures forall k :: k in KeyMapping <==> 1 <= k <= KeyCount
    ensures forall k | k in KeyMapping :: KeyMapping[k] == RowReversed(k)
  {
  }

  /** `key(k)`: mapped inside 1..32, unchanged outside. */
  function Key(k: int): (r: int)
    ensures 1 <= k <= KeyCount ==> 1 <= r <= KeyCount
    ensures !(1 <= k <= KeyCount) ==> r == k
  {
    if 1 <= k <= KeyCount then KeyMapping[k] else k
  }

  /** Only the rows move: the column of a key is kept and its row is mirrored. */
  lemma {:induction false} KeyKeepsColumn(k: int)
    requires 1 <= k <= KeyCount
    ensures (Key(k) - 1) % 8 == (k - 1) % 8
    ensures (Key(k) - 1) / 8 == 3 - (k - 1) / 8
  {
    KeyMappingIsRowReversal();
    var r, c := (k - 1) / 8, (k - 1) % 8;
    assert Key(k) - 1 == (3 - r) * 8 + c;
  }

  /** `key` is its own inverse on every integer, hence a bijection of 1..32. */
  lemma {:induction false} KeyIsInvolution(k: int)
    ensures Key(Key(k)) == k
  {
    if 1 <= k <= KeyCount {
      KeyKeepsColumn(k);
      KeyKeepsColumn(Key(k));
      KeyMappingIsRowReversal();
      assert k - 1 == ((k - 1) / 8) * 8 + (k - 1) % 8;
      assert Key(Key(k)) - 1 == ((Key(Key(k)) - 1) / 8) * 8 + (Key(Key(k)) - 1) % 8;
    }
  }

  /**
   * `set_key_image`: the range check is on the key as given; a key in
   * 1..32 whose image opens is written under its mapped number.
   */
  function SetKeyImage(key: int, imageOpens: bool): (a: KeyImageAction)
    ensures a.Write? <==> 1 <= key <= KeyCount && imageOpens
    ensures a.Write? ==> a == Write(SetKeyImgDualDevice, KeyFormat, Key(key))
  {
    var mapped := Key(key);
    if !(1 <= key <= KeyCount) then Reject
    else if !imageOpens then Reject
    else Write(SetKeyImgDualDevice, KeyFormat, mapped)
  }

  /** The setter's return value is -1 exactly when it rejects, given a transport status other than -1. */
  lemma SetKeyImageResult(key: int, imageOpens: bool, status: int)
    requires status != -1
    ensures ReturnValue(SetKeyImage(key, imageOpens), status) == -1 <==> !(1 <= key <= KeyCount && imageOpens)
    ensures 1 <= key <= KeyCount && imageOpens ==> ReturnValue(SetKeyImage(key, imageOpens), status) == status
  {
  }
}
