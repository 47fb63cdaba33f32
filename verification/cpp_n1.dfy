/**
 * StreamDockN1 (C++): fifteen keys, two top buttons and one knob; the
 * mode switch; and the background setters, which only pass through when
 * the firmware number after the last dot is at least 13.
 */
module CppN1 {
  import opened Common
  import opened CppTypes
  import opened CppStreamDock
  import PyN1

  /** Each entry of the table below (logical key -> reported byte); 0 where there is none. */
  function KeyCode(k: Byte): Byte
  {
    match k
    case 1 => 0x01 case 2 => 0x02 case 3 => 0x03 case 4 => 0x04 case 5 => 0x05
    case 6 => 0x06 case 7 => 0x07 case 8 => 0x08 case 9 => 0x09 case 10 => 0x0A
    case 11 => 0x0B case 12 => 0x0C case 13 => 0x0D case 14 => 0x0E case 15 => 0x0F
    case 16 => 0x1E case 17 => 0x1F case 18 => 0x23 case 19 => 0x32 case 20 => 0x33
    case _ => 0
  }

  /** `_readValueMap`: keys 1..15 report themselves, top buttons 16..17, knob press 18, turns 19..20. */
  const ReadValueMap: ReadValueMap := map k: Byte | KeyCode(k) != 0 :: KeyCode(k)

  /** Each entry of the table below (reported byte -> logical key); 0 where there is none. */
  function CodeKey(c: Byte): Byte
  {
    match c
    case 0x01 => 1 case 0x02 => 2 case 0x03 => 3 case 0x04 => 4 case 0x05 => 5
    case 0x06 => 6 case 0x07 => 7 case 0x08 => 8 case 0x09 => 9 case 0x0A => 10
    case 0x0B => 11 case 0x0C => 12 case 0x0D => 13 case 0x0E => 14 case 0x0F => 15
    case 0x1E => 16 case 0x1F => 17 case 0x23 => 18 case 0x32 => 19 case 0x33 => 20
    case _ => 0
  }

  /** Reported byte -> logical key. */
  const CodeToKey: ReadValueMap := map c: Byte | CodeKey(c) != 0 :: CodeKey(c)

  function Info(vendorId: nat, productId: nat, serial: string): DeviceInfo
  {
    DefaultInfo().(originType := SDN1, vendorId := vendorId, productId := productId,
                   serialNumber := serial, keyWidth := 96, keyHeight := 96, minKey := 1, maxKey := 15,
                   width := 480, height := 854, keyRotateAngle := 0, bgRotateAngle := 0)
  }

  const Feature: FeatureOption := DefaultFeature().(isDualDevice := true, hasSecondScreen := true,
                                                     min2rdScreenKey := 16, max2rdScreenKey := 18,
                                                     secondScreenWidth := 64, secondScreenHeight := 64)

  /** `dispatchEvent`. */
  function Dispatch(readValue: Byte, eventValue: Byte): RegisterEvent
  {
    if 0x01 <= readValue <= 0x0F && eventValue == 0x00 then KeyRelease
    else if 0x01 <= readValue <= 0x0F && eventValue == 0x01 then KeyPress
    else if (readValue == 0x1E || readValue == 0x1F) && eventValue == 0x00 then KeyRelease
    else if (readValue == 0x1E || readValue == 0x1F) && eventValue == 0x01 then KeyPress
    else if readValue == 0x23 && eventValue == 0x00 then KnobRelease
    else if readValue == 0x23 && eventValue == 0x01 then KnobPress
    else if readValue == 0x32 && eventValue == 0x00 then KnobLeft
    else if readValue == 0x33 && eventValue == 0x00 then KnobRight
    else EveryThing
  }

  lemma ForwardAt(k: Byte)
    requires k in ReadValueMap
    ensures ReadValueMap[k] in CodeToKey && CodeToKey[ReadValueMap[k]] == k
  {
  }

  lemma BackwardAt(c: Byte)
    requires c in CodeToKey
    ensures CodeToKey[c] in ReadValueMap && ReadValueMap[CodeToKey[c]] == c
  {
  }

  /** The twenty codes are pairwise distinct. */
  lemma {:induction false} ReadValueMapDistinct()
    ensures IsInverse(ReadValueMap, CodeToKey)
    ensures DistinctCodes(ReadValueMap)
    ensures forall k: Byte :: k in ReadValueMap <==> 1 <= k <= 20
  {
    forall k | k in ReadValueMap ensures ReadValueMap[k] in CodeToKey && CodeToKey[ReadValueMap[k]] == k {
      ForwardAt(k);
    }
    forall c | c in CodeToKey ensures CodeToKey[c] in ReadValueMap && ReadValueMap[CodeToKey[c]] == c {
      BackwardAt(c);
    }
    InverseDistinct(ReadValueMap, CodeToKey);
  }

  /** Every mapped code dispatches a real event on one of events 0 and 1, and no mapped code is left to `EveryThing` on both. */
  lemma DispatchMapped(k: Byte)
    requires k in ReadValueMap
    ensures Dispatch(ReadValueMap[k], 0x00) != EveryThing || Dispatch(ReadValueMap[k], 0x01) != EveryThing
    ensures 1 <= k <= 17 ==> Dispatch(ReadValueMap[k], 0x01) == KeyPress && Dispatch(ReadValueMap[k], 0x00) == KeyRelease
    ensures k == 18 ==> Dispatch(ReadValueMap[k], 0x01) == KnobPress && Dispatch(ReadValueMap[k], 0x00) == KnobRelease
    ensures k == 19 ==> Dispatch(ReadValueMap[k], 0x00) == KnobLeft
    ensures k == 20 ==> Dispatch(ReadValueMap[k], 0x00) == KnobRight
  {
    assert ReadValueMap[k] == KeyCode(k);
  }

  /** Unmapped codes reach nothing but `EveryThing`. */
  lemma DispatchUnmapped(readValue: Byte, eventValue: Byte)
    requires readValue !in CodeToKey
    ensures Dispatch(readValue, eventValue) == EveryThing
  {
  }

  /** `N1MODE`. */
  datatype N1Mode = KeyboardMode | CalculatorMode | SoftwareMode

  function ModeByte(mode: N1Mode): (b: Byte)
    ensures b <= 2
    ensures mode == KeyboardMode <==> b == 0
    ensures mode == SoftwareMode <==> b == 2
  {
    match mode
    case KeyboardMode => 0
    case CalculatorMode => 1
    case SoftwareMode => 2
  }

  /** `changeMode`: the enumerator's value as one byte; the transport always exists here. */
  method ChangeMode(d: StreamDock, mode: N1Mode)
    modifies d`log
    ensures d.log == old(d.log) + [Command.ChangeMode(ModeByte(mode))]
  {
    d.log := d.log + [Command.ChangeMode(ModeByte(mode))];
  }

  /** The largest value of a C++ `int`. */
  const IntMax: int := 2147483647

  /**
   * What `extract_last_number` returns or throws: -1 without a dot or
   * without digits after the last one, the number when it fits an `int`,
   * and `std::out_of_range` from `std::stoi` otherwise.
   */
  function LastNumber(code: string): (r: Result<int>)
    ensures PyN1.LastNumber(code).None? ==> r == Ok(-1)
    ensures r.Ok? && r.value >= 0 ==> PyN1.LastNumber(code) == Some(r.value as nat)
    ensures r.Err? <==> PyN1.LastNumber(code).Some? && PyN1.LastNumber(code).value > IntMax
  {
    match PyN1.LastNumber(code)
    case None => Ok(-1)
    case Some(n) => if n > IntMax then Err("out_of_range") else Ok(n)
  }

  /** `extract_last_number`: the same scan as the Python helper, then `std::stoi`. */
  method ExtractLastNumber(code: string) returns (r: Result<int>)
    ensures r == LastNumber(code)
  {
    var digits := PyN1.ExtractLastNumber(code);
    if digits.None? {
      return Ok(-1);
    }
    if digits.value > IntMax {
      return Err("out_of_range");
    }
    return Ok(digits.value);
  }

  function Pow10(n: nat): (p: nat)
    ensures p >= 1
  {
    if n == 0 then 1 else 10 * Pow10(n - 1)
  }

  /** A digit string is worth at least its leading digit times the place value of that digit. */
  lemma {:induction false} DecimalValueLowerBound(digits: string)
    requires |digits| >= 1 && forall j | 0 <= j < |digits| :: PyN1.IsDigit(digits[j])
    ensures PyN1.DecimalValue(digits) >= (digits[0] as int - '0' as int) * Pow10(|digits| - 1)
  {
    if |digits| > 1 {
      var init := digits[..|digits| - 1];
      var lead := digits[0] as int - '0' as int;
      assert init[0] == digits[0];
      DecimalValueLowerBound(init);
      assert PyN1.IsDigit(digits[|digits| - 1]);
      assert PyN1.DecimalValue(digits) >= 10 * PyN1.DecimalValue(init);
      assert 10 * (lead * Pow10(|init| - 1)) == lead * Pow10(|digits| - 1);
    }
  }

  /** A digit string of eleven or more digits without a leading zero is worth more than an `int` holds. */
  lemma LongDigitsOverflow(digits: string)
    requires |digits| >= 11 && digits[0] != '0'
    requires forall j | 0 <= j < |digits| :: PyN1.IsDigit(digits[j])
    ensures PyN1.DecimalValue(digits) > IntMax
  {
    assert PyN1.IsDigit(digits[0]);
    DecimalValueLowerBound(digits);
    Pow10Grows(|digits| - 1);
    AtLeastOnce(digits[0] as int - '0' as int, Pow10(|digits| - 1));
  }

  /** A last number of eleven or more digits without a leading zero makes `std::stoi` throw. */
  lemma LongNumberThrows(code: string)
    requires PyN1.RFind(code, '.') >= 0
    requires var digits := PyN1.DigitPrefix(code[PyN1.RFind(code, '.') + 1..]);
             |digits| >= 11 && digits[0] != '0'
    ensures LastNumber(code).Err?
  {
    var digits := PyN1.DigitPrefix(code[PyN1.RFind(code, '.') + 1..]);
    LongDigitsOverflow(digits);
    assert PyN1.LastNumber(code) == Some(PyN1.DecimalValue(digits));
  }

  lemma AtLeastOnce(lead: int, place: nat)
    requires lead >= 1
    ensures lead * place >= place
  {
  }

  lemma {:induction false} Pow10Grows(n: nat)
    requires n >= 10
    ensures Pow10(n) > IntMax
  {
    if n > 10 {
      Pow10Grows(n - 1);
    }
  }

  /** Whether the N1 override passes a background through, or throws. */
  function BackgroundAllowed(firmwareVersion: string): (r: Result<bool>)
    ensures r == Ok(true) <==> PyN1.LastNumber(firmwareVersion).Some? && 13 <= PyN1.LastNumber(firmwareVersion).value <= IntMax
    ensures r.Err? <==> LastNumber(firmwareVersion).Err?
  {
    match LastNumber(firmwareVersion)
    case Ok(n) => Ok(n >= 13)
    case Err(e) => Err(e)
  }

  /** A device whose stored version was never filled in (it is filled in only by the enumerator) never gets a background. */
  lemma EmptyFirmwareBlocks()
    ensures BackgroundAllowed("") == Ok(false)
  {
  }

  /** `setBackgroundImgStream`: the base behaviour when the stored version is 13 or later; nothing otherwise. */
  method SetBackgroundImgStream(d: StreamDock, stream: seq<Byte>, timeoutMs: nat) returns (r: Result<bool>)
    modifies d`log
    ensures r == BackgroundAllowed(d.info.firmwareVersion)
    ensures d.log == old(d.log) + if r == Ok(true) then d.BackgroundCommands(stream, timeoutMs) else []
  {
    var n := ExtractLastNumber(d.info.firmwareVersion);
    if n.Err? {
      return Err(n.error);
    }
    if n.value >= 13 {
      d.SetBackgroundImgStream(stream, timeoutMs);
    }
    return Ok(n.value >= 13);
  }
}
