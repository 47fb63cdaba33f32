/**
 * `StreamDockN4` of the older C++ SDK: the N4 numbers its keys 1..10 and
 * its second-screen keys 11..14 for the caller, and `transform` turns
 * those into the device's own indices before anything is sent. Image
 * loading and conversion (FreeImage, temporary files) are left out: an
 * image either loads or it does not, and the transport's answer is a
 * parameter. The SDK base class holding the key ranges is not part of
 * this model; its range checks are read as inclusive.
 */
module CppSdkN4 {
  import opened Common

  /** `transform`: 1..5 and 11..15 trade places, 6..10 stay, anything else is -1. */
  function Transform(x: int): (r: int)
    ensures 1 <= x <= 5 ==> r == x + 10
    ensures 6 <= x <= 10 ==> r == x
    ensures 11 <= x <= 15 ==> r == x - 10
    ensures !(1 <= x <= 15) ==> r == -1
  {
    if 1 <= x <= 5 then x + 10
    else if 6 <= x <= 10 then x
    else if 11 <= x <= 15 then x - 10
    else -1
  }

  /** `transform` undoes itself on 1..15 and maps 1..15 onto itself. */
  lemma TransformInvolution(x: int)
    requires 1 <= x <= 15
    ensures 1 <= Transform(x) <= 15
    ensures Transform(Transform(x)) == x
  {
  }

  /** Which image conversion a key's picture goes through. */
  datatype Screen = MainScreen | SecondScreen

  /** A call made on the transport. */
  datatype TransportCall =
    | KeyImage(screen: Screen, index: int)
    | KeyImageData(screen: Screen, index: int)
    | KeyClear(index: int)

  class StreamDockN4 {
    /** `setKeyFormat`, `setKeyFormat_secondScreen`, `setBgiFormat`, `setRotate`, `setKeyRange`, `setKeySecondScreenRange`. */
    const keyWidth: nat
    const keyHeight: nat
    const secondWidth: nat
    const secondHeight: nat
    const bgWidth: nat
    const bgHeight: nat
    const keyRotate: int
    const bgRotate: int
    const keyStart: int
    const keyEnd: int
    const secondStart: int
    const secondEnd: int
    /** The calls handed to the transport. */
    var log: seq<TransportCall>

    constructor()
      ensures keyWidth == 112 && keyHeight == 112 && secondWidth == 176 && secondHeight == 112
      ensures bgWidth == 800 && bgHeight == 480 && keyRotate == 180 && bgRotate == 180
      ensures keyStart == 1 && keyEnd == 10 && secondStart == 11 && secondEnd == 14
      ensures log == []
    {
      keyWidth, keyHeight := 112, 112;
      secondWidth, secondHeight := 176, 112;
      bgWidth, bgHeight := 800, 480;
      keyRotate, bgRotate := 180, 180;
      keyStart, keyEnd := 1, 10;
      secondStart, secondEnd := 11, 14;
      log := [];
    }

    /** `isKeyNormal`. */
    predicate IsKeyNormal(key: int)
    {
      keyStart <= key <= keyEnd
    }

    /** `isKeySecondScreen`. */
    predicate IsKeySecondScreen(key: int)
    {
      secondStart <= key <= secondEnd
    }

    /** The screen a key's picture is converted for: the second screen first, then the main keys, none for any other key. */
    function ScreenOf(key: int): (s: Option<Screen>)
      ensures s == Some(SecondScreen) <==> IsKeySecondScreen(key)
      ensures s == Some(MainScreen) <==> !IsKeySecondScreen(key) && IsKeyNormal(key)
    {
      if IsKeySecondScreen(key) then Some(SecondScreen)
      else if IsKeyNormal(key) then Some(MainScreen)
      else None
    }

    /**
     * `setKeyImg`: 0 when the image does not load or the key is in neither
     * range; otherwise the picture goes out under the transformed index and
     * the transport's answer comes back.
     */
    method SetKeyImg(loads: bool, key: int, transportResult: int) returns (r: int)
      modifies this`log
      ensures r == if loads && ScreenOf(key).Some? then transportResult else 0
      ensures log == old(log) + if loads && ScreenOf(key).Some? then [KeyImage(ScreenOf(key).value, Transform(key))] else []
    {
      if !loads {
        return 0;
      }
      var screen: Screen;
      if IsKeySecondScreen(key) {
        screen := SecondScreen;
      } else if IsKeyNormal(key) {
        screen := MainScreen;
      } else {
        return 0;
      }
      log := log + [KeyImage(screen, Transform(key))];
      r := transportResult;
    }

    /**
     * `setKeyImgData`: the raw image is checked first (pixels present,
     * both dimensions and the pitch positive), then routed like `setKeyImg`.
     */
    method SetKeyImgData(hasData: bool, key: int, pitch: int, width: nat, height: nat, transportResult: int) returns (r: int)
      modifies this`log
      ensures r == if hasData && width > 0 && height > 0 && pitch > 0 && ScreenOf(key).Some? then transportResult else 0
      ensures log == old(log) +
                if hasData && width > 0 && height > 0 && pitch > 0 && ScreenOf(key).Some?
                then [KeyImageData(ScreenOf(key).value, Transform(key))] else []
    {
      if !hasData || width == 0 || height == 0 || pitch <= 0 {
        return 0;
      }
      var screen: Screen;
      if IsKeySecondScreen(key) {
        screen := SecondScreen;
      } else if IsKeyNormal(key) {
        screen := MainScreen;
      } else {
        return 0;
      }
      log := log + [KeyImageData(screen, Transform(key))];
      r := transportResult;
    }

    /** `clearIcon`: the transformed index is cleared, with no range check, so an index outside 1..15 sends -1. */
    method ClearIcon(index: int, transportResult: int) returns (r: int)
      modifies this`log
      ensures r == transportResult
      ensures log == old(log) + [KeyClear(Transform(index))]
    {
      var key := Transform(index);
      log := log + [KeyClear(key)];
      r := transportResult;
    }
  }

  /**
   * With the N4's ranges, a picture for a main key lands on device index
   * 6..15 and one for a second-screen key on 1..4, and distinct keys land
   * on distinct indices.
   */
  lemma RoutedIndices(d: StreamDockN4, key: int, other: int)
    requires d.keyStart == 1 && d.keyEnd == 10 && d.secondStart == 11 && d.secondEnd == 14
    ensures d.ScreenOf(key) == Some(MainScreen) ==> 6 <= Transform(key) <= 15
    ensures d.ScreenOf(key) == Some(SecondScreen) ==> 1 <= Transform(key) <= 4
    ensures d.ScreenOf(key).Some? && d.ScreenOf(other).Some? && key != other ==> Transform(key) != Transform(other)
  {
  }
}
