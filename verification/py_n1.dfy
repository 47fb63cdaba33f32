/**
 * StreamDockN1 (Python): the firmware number read from the serial string,
 * the background gate it controls, and the key-image routing of the
 * fifteen keys and the three-key second screen.
 */
module PyN1 {
  import opened Common
  import opened PyDevice

  /** A decimal digit; `str.isdigit` restricted to ASCII. */
  predicate IsDigit(c: char)
  {
    '0' <= c <= '9'
  }

  /** `str.rfind(c)`: the last index holding `c`, or -1. */
  function RFind(s: string, c: char): (r: int)
    ensures -1 <= r < |s|
    ensures r == -1 <==> c !in s
    ensures r >= 0 ==> s[r] == c && forall j | r < j < |s| :: s[j] != c
  {
    if |s| == 0 then -1
    else if s[|s| - 1] == c then |s| - 1
    else RFind(s[..|s| - 1], c)
  }

  /** The longest run of digits at the start of `s`. */
  function DigitPrefix(s: string): (p: string)
    ensures p <= s
    ensures forall j | 0 <= j < |p| :: IsDigit(p[j])
    ensures |p| < |s| ==> !IsDigit(s[|p|])
  {
    if |s| == 0 || !IsDigit(s[0]) then [] else [s[0]] + DigitPrefix(s[1..])
  }

  /** `int(digits)` for a non-empty string of decimal digits. */
  function DecimalValue(digits: string): nat
    requires forall j | 0 <= j < |digits| :: IsDigit(digits[j])
  {
    if |digits| == 0 then 0
    else
      assert IsDigit(digits[|digits| - 1]);
      10 * DecimalValue(digits[..|digits| - 1]) + (digits[|digits| - 1] as int - '0' as int)
  }

  /** What `extract_last_number` returns: the number spelled by the digits right after the last dot. */
  function LastNumber(code: string): Option<nat>
  {
    var dot := RFind(code, '.');
    if dot == -1 then None
    else
      var digits := DigitPrefix(code[dot + 1..]);
      if |digits| == 0 then None else Some(DecimalValue(digits))
  }

  /** `extract_last_number`: collects the digits after the last dot up to the first non-digit. */
  method ExtractLastNumber(code: string) returns (r: Option<nat>)
    ensures r == LastNumber(code)
  {
    var lastDot := RFind(code, '.');
    if lastDot == -1 {
      return None;
    }
    var numStr := "";
    var i := lastDot + 1;
    while i < |code|
      invariant lastDot + 1 <= i <= |code|
      invariant numStr == code[lastDot + 1..i]
      invariant forall j | 0 <= j < |numStr| :: IsDigit(numStr[j])
    {
      if IsDigit(code[i]) {
        numStr := numStr + [code[i]];
      } else {
        break;
      }
      i := i + 1;
    }
    assert code[lastDot + 1..] == numStr + code[i..];
    DigitPrefixStopsAtNonDigit(numStr, code[i..]);
    if |numStr| > 0 {
      return Some(DecimalValue(numStr));
    }
    return None;
  }

  /** No dot, or no digit right after the last dot, gives None; otherwise a number. */
  lemma LastNumberNone(code: string)
    ensures LastNumber(code).None? <==>
      '.' !in code || RFind(code, '.') + 1 == |code| || !IsDigit(code[RFind(code, '.') + 1])
  {
  }

  /** The value does not depend on what follows the digits. */
  lemma {:induction false} DigitPrefixStopsAtNonDigit(digits: string, rest: string)
    requires forall j | 0 <= j < |digits| :: IsDigit(digits[j])
    requires |rest| == 0 || !IsDigit(rest[0])
    ensures DigitPrefix(digits + rest) == digits
  {
    if |digits| > 0 {
      assert (digits + rest)[1..] == digits[1..] + rest;
      DigitPrefixStopsAtNonDigit(digits[1..], rest);
    }
  }

  lemma ThirteenSpelled()
    ensures DecimalValue("013") == 13
  {
    assert "013"[..2] == "01" && "01"[..1] == "0" && "0"[..0] == "";
  }

  /** The serial format of the firmware, "N3.02.013", gives 13. */
  lemma SerialExample()
    ensures LastNumber("N3.02.013") == Some(13)
  {
    var code := "N3.02.013";
    assert code[5] == '.' && code[6] == '0' && code[7] == '1' && code[8] == '3' && |code| == 9;
    assert RFind(code, '.') == 5;
    assert code[6..] == "013" + "";
    DigitPrefixStopsAtNonDigit("013", "");
    ThirteenSpelled();
  }

  /** A suffix after the digits, as in "N3.02.013V2", does not change the number. */
  lemma SerialWithSuffixExample()
    ensures LastNumber("N3.02.013V2") == Some(13)
  {
    var code := "N3.02.013V2";
    assert code[5] == '.' && code[6] == '0' && code[7] == '1' && code[8] == '3' && code[9] == 'V' && code[10] == '2' && |code| == 11;
    assert RFind(code, '.') == 5;
    assert code[6..] == "013" + "V2";
    DigitPrefixStopsAtNonDigit("013", "V2");
    ThirteenSpelled();
  }

  /** The outcome of `set_touchscreen_image`. */
  datatype BackgroundOutcome =
    | Rejected                     // returns -1
    | SendBackgroundDualDevice     // returns the transport status
    | NoReturn                     // falls off the end: returns None

  /**
   * `set_touchscreen_image`: -1 when the serial carries no number; for
   * firmware 13 and later the file check and the write; earlier firmware
   * gets no write and no return value. A file that fails to open, convert
   * or save raises inside the handler and gives -1.
   */
  function SetTouchscreenImage(serial: string, pathExists: bool, imageOpens: bool): (o: BackgroundOutcome)
    ensures o == SendBackgroundDualDevice <==>
      LastNumber(serial).Some? && LastNumber(serial).value >= 13 && pathExists && imageOpens
    ensures o == Rejected <==>
      LastNumber(serial).None? || (LastNumber(serial).value >= 13 && !(pathExists && imageOpens))
    ensures o == NoReturn <==> LastNumber(serial).Some? && LastNumber(serial).value < 13
  {
    var version := LastNumber(serial);
    if version.None? then Rejected
    else if version.value >= 13 then
      if !pathExists then Rejected
      else if !imageOpens then Rejected
      else SendBackgroundDualDevice
    else NoReturn
  }

  /**
   * `set_key_image`: the file is checked before the range; keys 1..15 use
   * the key layout and 16..18 the second-screen layout, written under the
   * key's own number, once the file opens, converts and saves (an
   * exception on the way is caught and gives -1).
   */
  function SetKeyImage(key: int, pathExists: bool, imageOpens: bool): (a: KeyImageAction)
    ensures a.Write? <==> pathExists && 1 <= key <= 18 && imageOpens
    ensures a.Write? ==> a.call == SetKeyImgDualDevice && a.hwKey == key
    ensures a.Write? ==> (a.format == SecondScreenFormat <==> key >= 16) && a.format != TouchscreenFormat
  {
    if !pathExists then Reject
    else if !(1 <= key <= 18) then Reject
    else if !imageOpens then Reject
    else if 1 <= key <= 15 then Write(SetKeyImgDualDevice, KeyFormat, key)
    else Write(SetKeyImgDualDevice, SecondScreenFormat, key)
  }

  /** The setter's return value is -1 exactly when it rejects, given a transport status other than -1. */
  lemma SetKeyImageResult(key: int, pathExists: bool, imageOpens: bool, status: int)
    requires status != -1
    ensures ReturnValue(SetKeyImage(key, pathExists, imageOpens), status) == -1 <==>
      !(pathExists && 1 <= key <= 18 && imageOpens)
    ensures pathExists && 1 <= key <= 18 && imageOpens ==>
      ReturnValue(SetKeyImage(key, pathExists, imageOpens), status) == status
  {
  }
}
