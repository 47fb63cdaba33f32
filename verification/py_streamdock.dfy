/**
 * The Python `StreamDock` base class: the single key-callback slot, the
 * reader-thread flag, the order of the shutdown steps, one iteration of
 * the reader loop, key clearing and the LED setters. The transport is
 * represented by the calls made to it, recorded in order.
 */
module PyStreamDock {
  import opened Common
  import opened InputTypes
  import PyN4Pro
  import PyK1Pro
  import PyN3
  import Py293s
  import Py293
  import PyM3

  /** The models whose classes supply a decoder and an image-key table. */
  datatype Model = N4Pro | K1Pro | N3 | StreamDock293s | StreamDock293 | M3

  /** `FeatrueOption.deviceType`; only the K1Pro value changes the reader. */
  datatype DeviceType = DockUniversal | K1ProType

  /** The class attribute `KEY_COUNT`. */
  function KeyCount(m: Model): nat
  {
    match m
    case N4Pro => 15
    case K1Pro => 6
    case N3 => 18
    case StreamDock293s => 18
    case StreamDock293 => 15
    case M3 => 15
  }

  /** The model's `decode_input_event`. */
  function DecodeInputEvent(m: Model, code: int, state: int): (e: InputEvent)
    ensures WellFormed(e)
  {
    match m
    case N4Pro => PyN4Pro.DecodeInputEvent(code, state)
    case K1Pro => PyK1Pro.DecodeInputEvent(code, state)
    case N3 => PyN3.DecodeInputEvent(code, state)
    case StreamDock293s => Py293s.DecodeInputEvent(code, state)
    case StreamDock293 => Py293.DecodeInputEvent(code, state)
    case M3 => PyM3.DecodeInputEvent(code, state)
  }

  /** The model's `get_image_key`. */
  function GetImageKey(m: Model, key: int): Result<int>
  {
    match m
    case N4Pro => PyN4Pro.GetImageKey(key)
    case K1Pro => PyK1Pro.GetImageKey(key)
    case N3 => PyN3.GetImageKey(key)
    case StreamDock293s => Py293s.GetImageKey(key)
    case StreamDock293 => Py293.GetImageKey(key)
    case M3 => PyM3.GetImageKey(key)
  }

  /** A registered callable; only its identity matters here. */
  datatype Callback = Callback(id: nat)

  /** The effects the device has on the outside, in the order they happen. */
  datatype Effect =
    | TransportOpen
    | JoinReader
    | StartReader
    | Disconnected
    | TransportClose
    | KeyClear(hwKey: int)
    | SetLedBrightness(percent: int)
    | SetLedColor(ledCount: int, r: int, g: int, b: int)
    | ResetLedColor
    | Invoke(callback: Callback, event: InputEvent)

  /**
   * The event one report decodes to, or None when the reader does nothing
   * with it: no report, fewer than 10 bytes, a write acknowledgement
   * (byte 9 is 0xFF), or a report too short for the bytes the decoder
   * reads (the IndexError is caught and reported).
   */
  function ReportEvent(m: Model, deviceType: DeviceType, report: Option<seq<Byte>>): (r: Option<InputEvent>)
  {
    if report.None? || |report.value| < 10 then None
    else
      var arr := report.value;
      if arr[9] == 0xFF then None
      else if deviceType != K1ProType then
        if |arr| < 11 then None else Some(DecodeInputEvent(m, arr[9], arr[10]))
      else
        if |arr| < 12 then None else Some(DecodeInputEvent(m, arr[10], arr[11]))
  }

  /** The result of `clearIcon`. */
  datatype ClearOutcome = OutOfRange | Cleared | Raised

  class StreamDock {
    const model: Model
    var deviceType: DeviceType
    var hasRgbLed: bool
    var ledCounts: int
    var keyCallback: Option<Callback>
    var runReadThread: bool
    /** Whether a reader thread exists and is still running. */
    var readerAlive: bool
    /** The calls made to the transport and to the callback, oldest first. */
    var effects: seq<Effect>

    /** `__init__`: no callback, reader stopped, default feature options. */
    constructor(model: Model)
      ensures this.model == model && deviceType == DockUniversal
      ensures !hasRgbLed && ledCounts == 0
      ensures keyCallback.None? && !runReadThread && !readerAlive && effects == []
    {
      this.model := model;
      deviceType := DockUniversal;
      hasRgbLed := false;
      ledCounts := 0;
      keyCallback := None;
      runReadThread := false;
      readerAlive := false;
      effects := [];
    }

    /** The feature options `set_device` configures (the K1Pro marks its device type; the XL turns on six LEDs). */
    method SetFeatures(deviceType: DeviceType, hasRgbLed: bool, ledCounts: int)
      modifies this
      ensures this.deviceType == deviceType && this.hasRgbLed == hasRgbLed && this.ledCounts == ledCounts
      ensures keyCallback == old(keyCallback) && runReadThread == old(runReadThread)
      ensures readerAlive == old(readerAlive) && effects == old(effects)
    {
      this.deviceType := deviceType;
      this.hasRgbLed := hasRgbLed;
      this.ledCounts := ledCounts;
    }

    /** `set_key_callback`: the one slot is overwritten; the last caller wins. */
    method SetKeyCallback(callback: Option<Callback>)
      modifies this
      ensures keyCallback == callback
      ensures runReadThread == old(runReadThread) && readerAlive == old(readerAlive) && effects == old(effects)
      ensures deviceType == old(deviceType) && hasRgbLed == old(hasRgbLed) && ledCounts == old(ledCounts)
    {
      keyCallback := callback;
    }

    /**
     * `open`: the transport is opened, then `_setup_reader` stops and joins
     * any old reader and starts a new one. The reader is started whatever
     * the transport reported; that report is returned. The source joins
     * whenever a reader was ever started, even one a successful `close`
     * already joined; joining a finished thread does nothing, so only a
     * reader still alive is recorded as joined here.
     */
    method Open(transportOpened: bool) returns (res: bool)
      modifies this
      ensures res == transportOpened
      ensures runReadThread && readerAlive
      ensures effects == old(effects) + [TransportOpen] + (if old(readerAlive) then [JoinReader] else []) + [StartReader]
      ensures keyCallback == old(keyCallback) && deviceType == old(deviceType)
      ensures hasRgbLed == old(hasRgbLed) && ledCounts == old(ledCounts)
    {
      effects := effects + [TransportOpen];
      if readerAlive {
        runReadThread := false;
        effects := effects + [JoinReader];
        readerAlive := false;
      }
      runReadThread := true;
      effects := effects + [StartReader];
      readerAlive := true;
      res := transportOpened;
    }

    /**
     * `close`: clear the run flag, join a live reader (bounded wait, which
     * `readerExits` says succeeded), send the disconnect, close the
     * transport, and clear the callback. A failing disconnect or transport
     * close is reported and swallowed, so the later steps still happen.
     */
    method Close(readerExits: bool, disconnectFails: bool, transportCloseFails: bool)
      modifies this
      ensures !runReadThread && keyCallback.None?
      ensures readerAlive == (old(readerAlive) && !readerExits)
      ensures effects == old(effects) + (if old(readerAlive) then [JoinReader] else []) + [Disconnected, TransportClose]
      ensures deviceType == old(deviceType) && hasRgbLed == old(hasRgbLed) && ledCounts == old(ledCounts)
    {
      runReadThread := false;
      if readerAlive {
        effects := effects + [JoinReader];
        readerAlive := !readerExits;
      }
      effects := effects + [Disconnected];
      effects := effects + [TransportClose];
      keyCallback := None;
    }

    /**
     * One pass of the `_read` loop: when the flag is set, read a report,
     * decode it, snapshot the callback and call it with the event. Errors
     * from decoding or from the callback are reported and the loop goes on.
     */
    method ReadStep(report: Option<seq<Byte>>, callbackFails: bool)
      modifies this
      ensures var ev := ReportEvent(model, deviceType, report);
        effects == old(effects) +
          (if old(runReadThread) && ev.Some? && old(keyCallback).Some? then [Invoke(old(keyCallback).value, ev.value)] else [])
      ensures keyCallback == old(keyCallback) && runReadThread == old(runReadThread) && readerAlive == old(readerAlive)
      ensures deviceType == old(deviceType) && hasRgbLed == old(hasRgbLed) && ledCounts == old(ledCounts)
    {
      if !runReadThread {
        return;
      }
      var event := ReportEvent(model, deviceType, report);
      if event.Some? {
        var callback := keyCallback;
        if callback.Some? {
          effects := effects + [Invoke(callback.value, event.value)];
        }
      }
    }

    /**
     * `clearIcon`: -1 outside 1..KEY_COUNT without touching the transport;
     * otherwise the hardware key is cleared, unless the image-key lookup
     * raises, which leaves `clearIcon` with the error.
     */
    method ClearIcon(index: int) returns (r: ClearOutcome)
      modifies this
      ensures r == OutOfRange <==> !(1 <= index <= KeyCount(model))
      ensures r == Cleared <==> 1 <= index <= KeyCount(model) && GetImageKey(model, index).Ok?
      ensures r == Cleared ==> effects == old(effects) + [KeyClear(GetImageKey(model, index).value)]
      ensures r != Cleared ==> effects == old(effects)
      ensures keyCallback == old(keyCallback) && runReadThread == old(runReadThread) && readerAlive == old(readerAlive)
      ensures deviceType == old(deviceType) && hasRgbLed == old(hasRgbLed) && ledCounts == old(ledCounts)
    {
      if !(1 <= index <= KeyCount(model)) {
        return OutOfRange;
      }
      var hw := GetImageKey(model, index);
      if hw.Err? {
        return Raised;
      }
      effects := effects + [KeyClear(hw.value)];
      r := Cleared;
    }

    /** `set_led_brightness`: forwarded only when the device has RGB LEDs. */
    method SetLedBrightnessIfSupported(percent: int)
      modifies this
      ensures effects == old(effects) + (if hasRgbLed then [SetLedBrightness(percent)] else [])
      ensures keyCallback == old(keyCallback) && runReadThread == old(runReadThread) && readerAlive == old(readerAlive)
      ensures deviceType == old(deviceType) && hasRgbLed == old(hasRgbLed) && ledCounts == old(ledCounts)
    {
      if hasRgbLed {
        effects := effects + [SetLedBrightness(percent)];
      }
    }

    /** `set_led_color`: forwarded with the device's LED count only when it has RGB LEDs. */
    method SetLedColorIfSupported(r: int, g: int, b: int)
      modifies this
      ensures effects == old(effects) + (if hasRgbLed then [SetLedColor(ledCounts, r, g, b)] else [])
      ensures keyCallback == old(keyCallback) && runReadThread == old(runReadThread) && readerAlive == old(readerAlive)
      ensures deviceType == old(deviceType) && hasRgbLed == old(hasRgbLed) && ledCounts == old(ledCounts)
    {
      if hasRgbLed {
        effects := effects + [SetLedColor(ledCounts, r, g, b)];
      }
    }

    /** `reset_led_effect`: forwarded only when the device has RGB LEDs. */
    method ResetLedEffectIfSupported()
      modifies this
      ensures effects == old(effects) + (if hasRgbLed then [ResetLedColor] else [])
      ensures keyCallback == old(keyCallback) && runReadThread == old(runReadThread) && readerAlive == old(readerAlive)
      ensures deviceType == old(deviceType) && hasRgbLed == old(hasRgbLed) && ledCounts == old(ledCounts)
    {
      if hasRgbLed {
        effects := effects + [ResetLedColor];
      }
    }
  }

  /** Reports shorter than 10 bytes and write acknowledgements never reach the decoder. */
  lemma ShortAndAckReportsIgnored(m: Model, t: DeviceType, arr: seq<Byte>)
    requires |arr| < 10 || arr[9] == 0xFF
    ensures ReportEvent(m, t, Some(arr)).None?
  {
  }

  /** Bytes 9 and 10 are decoded, or 10 and 11 once the device type is K1Pro. */
  lemma ReportOffsets(m: Model, t: DeviceType, arr: seq<Byte>)
    requires |arr| >= 12 && arr[9] != 0xFF
    ensures t == DockUniversal ==> ReportEvent(m, t, Some(arr)) == Some(DecodeInputEvent(m, arr[9], arr[10]))
    ensures t == K1ProType ==> ReportEvent(m, t, Some(arr)) == Some(DecodeInputEvent(m, arr[10], arr[11]))
  {
  }

  /** Every event that reaches a callback passes the `InputEvent` checks. */
  lemma DeliveredEventsAreWellFormed(m: Model, t: DeviceType, report: Option<seq<Byte>>)
    ensures ReportEvent(m, t, report).Some? ==> WellFormed(ReportEvent(m, t, report).value)
  {
  }

  /**
   * The callback lifecycle: of two callbacks set in turn only the second
   * receives events, and after close no event reaches any callback.
   */
  method CallbackLifecycle(d: StreamDock, c1: Callback, c2: Callback, arr: seq<Byte>)
    requires d.deviceType == DockUniversal
    requires |arr| >= 11 && arr[9] != 0xFF
    modifies d
    ensures d.keyCallback.None? && !d.runReadThread
  {
    d.SetKeyCallback(Some(c1));
    d.SetKeyCallback(Some(c2));
    assert d.keyCallback == Some(c2);
    var _ := d.Open(true);
    var before := d.effects;
    d.ReadStep(Some(arr), false);
    assert d.effects == before + [Invoke(c2, DecodeInputEvent(d.model, arr[9], arr[10]))];
    d.Close(true, false, false);
    before := d.effects;
    d.ReadStep(Some(arr), false);
    assert d.effects == before;
  }
}
