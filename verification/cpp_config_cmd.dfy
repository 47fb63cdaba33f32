/**
 * `buildConfigCommand` (C++): the configuration vector a device takes, one
 * byte per configuration item, every item at its default unless a change
 * names it. The enumeration of items is reduced to its size (the
 * `ConfigTraits` count) and an item to its position.
 */
module CppConfigCmd {
  import opened Common

  /** `ConfigState`. */
  datatype ConfigState = Default | On | Off | Follow

  /** The byte each state is sent as. */
  function StateByte(s: ConfigState): (b: Byte)
    ensures s == Default || s == On <==> b == 0x11
    ensures s == Off <==> b == 0xFF
    ensures s == Follow <==> b == 0x1F
  {
    match s
    case Default => 0x11
    case On => 0x11
    case Off => 0xFF
    case Follow => 0x1F
  }

  /** Switching an item on sends the same byte as leaving it at its default. */
  lemma OnIsDefault()
    ensures StateByte(On) == StateByte(Default)
  {
  }

  /** The item counts the device enumerations declare. */
  const N4ProConfigCount: nat := 6
  const M3ConfigCount: nat := 6
  const XLConfigCount: nat := 1

  /** The state the last change naming `item` asks for, if any change names it. */
  function LastChange(changes: seq<(nat, ConfigState)>, item: nat): (r: Option<ConfigState>)
    ensures r.None? <==> forall k | 0 <= k < |changes| :: changes[k].0 != item
    ensures r.Some? ==> exists k | 0 <= k < |changes| :: changes[k] == (item, r.value) &&
                          forall k' | k < k' < |changes| :: changes[k'].0 != item
    decreases |changes|
  {
    if |changes| == 0 then None
    else if changes[|changes| - 1].0 == item then Some(changes[|changes| - 1].1)
    else LastChange(changes[..|changes| - 1], item)
  }

  /** The byte an item ends up with: its last change, or the default. */
  function ItemByte(changes: seq<(nat, ConfigState)>, item: nat): Byte
  {
    match LastChange(changes, item)
    case None => StateByte(Default)
    case Some(s) => StateByte(s)
  }

  /**
   * `buildConfigCommand(item, state)`: `count` bytes, the chosen item at
   * its state and every other at the default. The item must be one of the
   * enumeration's items.
   */
  method BuildConfigCommand(count: nat, item: nat, state: ConfigState) returns (configs: seq<Byte>)
    requires item < count
    ensures |configs| == count
    ensures configs[item] == StateByte(state)
    ensures forall i | 0 <= i < count && i != item :: configs[i] == StateByte(Default)
  {
    configs := seq(count, _ => StateByte(Default));
    configs := configs[item := StateByte(state)];
  }

  /**
   * `buildConfigCommand(changes)`: `count` bytes; a change past the end is
   * ignored, and where several changes name one item the last one wins.
   */
  method BuildConfigCommandBatch(count: nat, changes: seq<(nat, ConfigState)>) returns (configs: seq<Byte>)
    ensures |configs| == count
    ensures forall i | 0 <= i < count :: configs[i] == ItemByte(changes, i)
  {
    configs := seq(count, _ => StateByte(Default));
    var j := 0;
    while j < |changes|
      invariant 0 <= j <= |changes|
      invariant |configs| == count
      invariant forall i | 0 <= i < count :: configs[i] == ItemByte(changes[..j], i)
    {
      var (index, state) := changes[j];
      assert changes[..j + 1][..j] == changes[..j];
      if index < |configs| {
        configs := configs[index := StateByte(state)];
      }
      j := j + 1;
    }
    assert changes[..j] == changes;
  }

  /** Changes that name no item of the vector make no difference. */
  lemma {:induction false} OutOfRangeIgnored(changes: seq<(nat, ConfigState)>, extra: seq<(nat, ConfigState)>, count: nat, i: nat)
    requires i < count
    requires forall k | 0 <= k < |extra| :: extra[k].0 >= count
    ensures ItemByte(changes + extra, i) == ItemByte(changes, i)
    decreases |extra|
  {
    if |extra| > 0 {
      var init := extra[..|extra| - 1];
      assert (changes + extra)[..|changes + extra| - 1] == changes + init;
      assert (changes + extra)[|changes + extra| - 1] == extra[|extra| - 1];
      OutOfRangeIgnored(changes, init, count, i);
    } else {
      assert changes + extra == changes;
    }
  }

  /** The single form is the batch form with one change. */
  lemma SingleIsBatch(count: nat, item: nat, state: ConfigState, i: nat)
    requires item < count && i < count
    ensures ItemByte([(item, state)], i) == if i == item then StateByte(state) else StateByte(Default)
  {
    assert [(item, state)][..0] == [];
  }
}
