/**
 * StreamDock293V3 (C++): fifteen keys in three rows of five, counted from
 * the bottom row while the device reports them from the top, and nothing
 * else.
 */
module Cpp293V3 {
  import opened Common
  import opened CppTypes
  import opened CppStreamDock

  /** Each entry of the table below (logical key -> reported byte); 0 where there is none. */
  function KeyCode(k: Byte): Byte
  {
    match k
    case 1 => 0x0B case 2 => 0x0C case 3 => 0x0D case 4 => 0x0E case 5 => 0x0F
    case 6 => 0x06 case 7 => 0x07 case 8 => 0x08 case 9 => 0x09 case 10 => 0x0A
    case 11 => 0x01 case 12 => 0x02 case 13 => 0x03 case 14 => 0x04 case 15 => 0x05
    case _ => 0
  }

  /** `_readValueMap`: keys 1..15 row by row from the bottom. */
  const ReadValueMap: ReadValueMap := map k: Byte | KeyCode(k) != 0 :: KeyCode(k)

  /** Each entry of the table below (reported byte -> logical key); 0 where there is none. */
  function CodeKey(c: Byte): Byte
  {
    match c
    case 0x0B => 1 case 0x0C => 2 case 0x0D => 3 case 0x0E => 4 case 0x0F => 5
    case 0x06 => 6 case 0x07 => 7 case 0x08 => 8 case 0x09 => 9 case 0x0A => 10
    case 0x01 => 11 case 0x02 => 12 case 0x03 => 13 case 0x04 => 14 case 0x05 => 15
    case _ => 0
  }

  /** Reported byte -> logical key. */
  const CodeToKey: ReadValueMap := map c: Byte | CodeKey(c) != 0 :: CodeKey(c)

  function Info(vendorId: nat, productId: nat, serial: string): DeviceInfo
  {
    DefaultInfo().(originType := SD293, vendorId := vendorId, productId := productId,
                   serialNumber := serial, width := 800, height := 480, keyWidth := 112, keyHeight := 112,
                   minKey := 1, maxKey := 15, keyRotateAngle := 180, bgRotateAngle := 180)
  }

  const Feature: FeatureOption := DefaultFeature().(isDualDevice := true)

  /** `dispatchEvent`: codes 0x01..0x0F release on event 0 and press on event 1. */
  function Dispatch(readValue: Byte, eventValue: Byte): RegisterEvent
  {
    if 0x01 <= readValue <= 0x0F && eventValue == 0x00 then KeyRelease
    else if 0x01 <= readValue <= 0x0F && eventValue == 0x01 then KeyPress
    else EveryThing
  }

  lemma ForwardAt(k: Byte)
    requires k in ReadValueMap
    ensures ReadValueMap[k] in CodeToKey && CodeToKey[ReadValueMap[k]] == k
  {
  }

  lemma BackwardAt(c: Byte)
    requires c in CodeToKey
    ensures CodeToKey[c] in ReadValueMap && ReadValueMap[CodeToKey[c]] == c
  {
  }

  /** The fifteen codes are pairwise distinct and are exactly 0x01..0x0F. */
  lemma {:induction false} ReadValueMapDistinct()
    ensures IsInverse(ReadValueMap, CodeToKey)
    ensures DistinctCodes(ReadValueMap)
    ensures forall c: Byte :: c in CodeToKey <==> 0x01 <= c <= 0x0F
  {
    forall k | k in ReadValueMap ensures ReadValueMap[k] in CodeToKey && CodeToKey[ReadValueMap[k]] == k {
      ForwardAt(k);
    }
    forall c | c in CodeToKey ensures CodeToKey[c] in ReadValueMap && ReadValueMap[CodeToKey[c]] == c {
      BackwardAt(c);
    }
    InverseDistinct(ReadValueMap, CodeToKey);
  }

  /**
   * Key `k` sits in row `(k-1)/5` from the bottom and column `(k-1)%5`;
   * the device numbers the same position from the top row.
   */
  lemma RowsMirrored(k: Byte)
    requires 1 <= k <= 15
    ensures ReadValueMap[k] == (2 - (k - 1) / 5) * 5 + (k - 1) % 5 + 1
  {
    assert k == 1 || k == 2 || k == 3 || k == 4 || k == 5 || k == 6 || k == 7 || k == 8 ||
           k == 9 || k == 10 || k == 11 || k == 12 || k == 13 || k == 14 || k == 15;
  }

  /** A code dispatches a key event exactly when some key reports it; everything else is `EveryThing`. */
  lemma DispatchMatchesTable(readValue: Byte, eventValue: Byte)
    ensures Dispatch(readValue, eventValue) == KeyPress <==> readValue in CodeToKey && eventValue == 0x01
    ensures Dispatch(readValue, eventValue) == KeyRelease <==> readValue in CodeToKey && eventValue == 0x00
    ensures Dispatch(readValue, eventValue) == EveryThing <==> readValue !in CodeToKey || eventValue > 0x01
  {
    ReadValueMapDistinct();
  }
}
