/**
 * StreamDockXL (C++): thirty-two keys in four rows of eight, counted from
 * the bottom row while the device reports them from the top, and two
 * toggle switches.
 */
module CppXL {
  import opened Common
  import opened CppTypes
  import opened CppStreamDock

  /** The entries of `_readValueMap`: keys 1..32 row by row from the bottom, toggles 33..36; 0 for no entry. */
  function KeyCode(k: Byte): Byte
  {
    match k
    case 1 => 0x19 case 2 => 0x1A case 3 => 0x1B case 4 => 0x1C case 5 => 0x1D case 6 => 0x1E case 7 => 0x1F case 8 => 0x20
    case 9 => 0x11 case 10 => 0x12 case 11 => 0x13 case 12 => 0x14 case 13 => 0x15 case 14 => 0x16 case 15 => 0x17 case 16 => 0x18
    case 17 => 0x09 case 18 => 0x0A case 19 => 0x0B case 20 => 0x0C case 21 => 0x0D case 22 => 0x0E case 23 => 0x0F case 24 => 0x10
    case 25 => 0x01 case 26 => 0x02 case 27 => 0x03 case 28 => 0x04 case 29 => 0x05 case 30 => 0x06 case 31 => 0x07 case 32 => 0x08
    case 33 => 0x21 case 34 => 0x23 case 35 => 0x24 case 36 => 0x26
    case _ => 0
  }

  /** `_readValueMap`. */
  const ReadValueMap: ReadValueMap := map k: Byte | 1 <= k <= 36 :: KeyCode(k)

  /** Reported byte -> logical key, entry by entry; 0 for no entry. */
  function CodeKey(c: Byte): Byte
  {
    match c
    case 0x19 => 1 case 0x1A => 2 case 0x1B => 3 case 0x1C => 4 case 0x1D => 5 case 0x1E => 6 case 0x1F => 7 case 0x20 => 8
    case 0x11 => 9 case 0x12 => 10 case 0x13 => 11 case 0x14 => 12 case 0x15 => 13 case 0x16 => 14 case 0x17 => 15 case 0x18 => 16
    case 0x09 => 17 case 0x0A => 18 case 0x0B => 19 case 0x0C => 20 case 0x0D => 21 case 0x0E => 22 case 0x0F => 23 case 0x10 => 24
    case 0x01 => 25 case 0x02 => 26 case 0x03 => 27 case 0x04 => 28 case 0x05 => 29 case 0x06 => 30 case 0x07 => 31 case 0x08 => 32
    case 0x21 => 33 case 0x23 => 34 case 0x24 => 35 case 0x26 => 36
    case _ => 0
  }

  /** Reported byte -> logical key. */
  const CodeToKey: ReadValueMap := map c: Byte | CodeKey(c) != 0 :: CodeKey(c)

  function Info(vendorId: nat, productId: nat, serial: string): DeviceInfo
  {
    DefaultInfo().(originType := SDXL, vendorId := vendorId, productId := productId,
                   serialNumber := serial, width := 1024, height := 600, keyWidth := 80, keyHeight := 80,
                   minKey := 1, maxKey := 32, keyRotateAngle := 180, bgRotateAngle := 180, keyEncodeType := JPG)
  }

  const Feature: FeatureOption := DefaultFeature().(isDualDevice := true, supportBackGroundGif := true,
                                                     supportConfig := true, hasRGBLed := true, ledCounts := 6)

  /** `dispatchEvent`. */
  function Dispatch(readValue: Byte, eventValue: Byte): RegisterEvent
  {
    if 0x01 <= readValue <= 0x20 && eventValue == 0x00 then KeyRelease
    else if 0x01 <= readValue <= 0x20 && eventValue == 0x01 then KeyPress
    else if (readValue == 0x21 || readValue == 0x24) && eventValue == 0x00 then ToggleUp
    else if (readValue == 0x23 || readValue == 0x26) && eventValue == 0x00 then ToggleDown
    else EveryThing
  }

  lemma ForwardAt(k: Byte)
    requires k in ReadValueMap
    ensures ReadValueMap[k] in CodeToKey && CodeToKey[ReadValueMap[k]] == k
  {
  }

  lemma BackwardAt(c: Byte)
    requires c in CodeToKey
    ensures CodeToKey[c] in ReadValueMap && ReadValueMap[CodeToKey[c]] == c
  {
  }

  /** The thirty-six codes are pairwise distinct. */
  lemma {:induction false} ReadValueMapDistinct()
    ensures IsInverse(ReadValueMap, CodeToKey)
    ensures DistinctCodes(ReadValueMap)
  {
    forall k | k in ReadValueMap ensures ReadValueMap[k] in CodeToKey && CodeToKey[ReadValueMap[k]] == k {
      ForwardAt(k);
    }
    forall c | c in CodeToKey ensures CodeToKey[c] in ReadValueMap && ReadValueMap[CodeToKey[c]] == c {
      BackwardAt(c);
    }
    InverseDistinct(ReadValueMap, CodeToKey);
  }

  /**
   * Key `k` sits in row `(k-1)/8` from the bottom and column `(k-1)%8`;
   * the device numbers the same position from the top row, so the code is
   * the key with the row index mirrored.
   */
  lemma RowsMirrored(k: Byte)
    requires 1 <= k <= 32
    ensures ReadValueMap[k] == (3 - (k - 1) / 8) * 8 + (k - 1) % 8 + 1
  {
    if k <= 8 {
      BottomRows(k);
      assert (k - 1) / 8 == 0;
    } else if k <= 16 {
      BottomRows(k);
      assert (k - 1) / 8 == 1;
    } else if k <= 24 {
      TopRows(k);
      assert (k - 1) / 8 == 2;
    } else {
      TopRows(k);
      assert (k - 1) / 8 == 3;
    }
  }

  /** The two bottom rows report the two top rows' codes. */
  lemma BottomRows(k: Byte)
    requires 1 <= k <= 16
    ensures k <= 8 ==> ReadValueMap[k] == k + 24
    ensures 9 <= k ==> ReadValueMap[k] == k + 8
  {
  }

  /** The two top rows report the two bottom rows' codes. */
  lemma TopRows(k: Byte)
    requires 17 <= k <= 32
    ensures k <= 24 ==> ReadValueMap[k] == k - 8
    ensures 25 <= k ==> ReadValueMap[k] == k - 24
  {
  }

  /** Mirroring the rows twice gives the key back, so the key and its code determine each other. */
  lemma MirrorInvolution(k: int)
    requires 1 <= k <= 32
    ensures var c := (3 - (k - 1) / 8) * 8 + (k - 1) % 8 + 1;
            1 <= c <= 32 && (3 - (c - 1) / 8) * 8 + (c - 1) % 8 + 1 == k
  {
  }

  /** Every key code dispatches press and release; the toggles only fire on event 0. */
  lemma DispatchMapped(k: Byte)
    requires k in ReadValueMap
    ensures 1 <= k <= 32 ==> Dispatch(ReadValueMap[k], 0x01) == KeyPress && Dispatch(ReadValueMap[k], 0x00) == KeyRelease
    ensures k == 33 || k == 35 ==> Dispatch(ReadValueMap[k], 0x00) == ToggleUp
    ensures k == 34 || k == 36 ==> Dispatch(ReadValueMap[k], 0x00) == ToggleDown
    ensures k >= 33 ==> Dispatch(ReadValueMap[k], 0x01) == EveryThing
  {
  }

  /** Unmapped codes reach nothing but `EveryThing`. */
  lemma DispatchUnmapped(readValue: Byte, eventValue: Byte)
    requires readValue !in CodeToKey
    ensures Dispatch(readValue, eventValue) == EveryThing
  {
  }
}
