/**
 * `GifController` (C++): a table of animations, one per key and one for
 * the background under index 0, and the worker pass that advances every
 * animation by the time elapsed and sends the frames that changed. The
 * worker thread, its condition variable, its sleeps and the clock are not
 * modelled: one pass of the worker loop is `Tick`, given the microseconds
 * elapsed since the last pass and the order in which the table is walked.
 * A GIF file arrives already decoded, as the frames and delays
 * `readGifWithDelays` returns (`CppGifFrames` composes them).
 */
module CppGifController {
  import opened Common
  import opened CppTypes
  import opened CppStreamDock
  import CppGifFrames

  /** `GifStreamStatus`: the encoded frames, each frame's delay in milliseconds, the frame on show and the microseconds gathered towards its delay. */
  datatype GifStreamStatus = GifStreamStatus(
    gifFrames: seq<seq<Byte>>, frameDelays: seq<U16>, currentFrame: nat, accumulatedTime: nat)

  type I16 = x: int | -0x8000 <= x < 0x8000

  /** Storing an `int16_t` in a `uint16_t`: a negative value wraps to 2^16 above it. */
  function ToU16(x: I16): (r: U16)
    ensures x >= 0 ==> r == x
    ensures x < 0 ==> r == x + 0x1_0000
  {
    x % 0x1_0000
  }

  /** Passing a `uint16_t` where an `int16_t` is expected: values from 2^15 up wrap to negatives. */
  function ToI16(x: U16): (r: I16)
    ensures x < 0x8000 ==> r == x
    ensures x >= 0x8000 ==> r == x - 0x1_0000
  {
    if x < 0x8000 then x else x - 0x1_0000
  }

  /** The two conversions undo each other, so a placement passed through the byte overload arrives unchanged. */
  lemma PlacementRoundTrip(x: U16, y: I16)
    ensures ToU16(ToI16(x)) == x
    ensures ToI16(ToU16(y)) == y
  {
  }

  /** A new entry: the first frame on show and nothing accumulated. */
  function Start(frames: seq<seq<Byte>>, delays: seq<U16>): (e: GifStreamStatus)
    ensures e.gifFrames == frames && e.frameDelays == delays
    ensures e.currentFrame == 0 && e.accumulatedTime == 0
  {
    GifStreamStatus(frames, delays, 0, 0)
  }

  /** An entry built from decoded frames: one delay per frame, in the frames' order, starting at the first. */
  predicate FromDecoded(e: GifStreamStatus, decoded: seq<CppGifFrames.GifFrameData>)
  {
    |e.gifFrames| == |decoded| && |e.frameDelays| == |decoded| &&
    (forall i | 0 <= i < |decoded| :: e.gifFrames[i] == decoded[i].encodedData && e.frameDelays[i] == decoded[i].delayMs) &&
    e.currentFrame == 0 && e.accumulatedTime == 0
  }

  /** The loop in `setKeyGifFile` and `setBackgroundGifFile` that splits decoded frames into frames and delays. */
  method SplitDecoded(decoded: seq<CppGifFrames.GifFrameData>) returns (e: GifStreamStatus)
    ensures FromDecoded(e, decoded)
  {
    var frames: seq<seq<Byte>> := [];
    var delays: seq<U16> := [];
    var i := 0;
    while i < |decoded|
      invariant 0 <= i <= |decoded|
      invariant |frames| == i && |delays| == i
      invariant forall j | 0 <= j < i :: frames[j] == decoded[j].encodedData && delays[j] == decoded[j].delayMs
    {
      frames := frames + [decoded[i].encodedData];
      delays := delays + [decoded[i].delayMs];
      i := i + 1;
    }
    e := Start(frames, delays);
  }

  /** The worker skips an entry with no frames or no delays. */
  predicate Idle(e: GifStreamStatus)
  {
    |e.gifFrames| == 0 || |e.frameDelays| == 0
  }

  /** The frame on show is one of the frames. */
  predicate InFrame(e: GifStreamStatus)
  {
    |e.gifFrames| > 0 ==> e.currentFrame < |e.gifFrames|
  }

  /** The step of a busy entry whose current frame has a delay. */
  function Step(e: GifStreamStatus, elapsedUs: nat): (GifStreamStatus, bool)
    requires |e.gifFrames| > 0 && e.currentFrame < |e.frameDelays|
  {
    var acc := e.accumulatedTime + elapsedUs;
    var delay := (e.frameDelays[e.currentFrame] as int) * 1000;
    if acc >= delay then (e.(currentFrame := (e.currentFrame + 1) % |e.gifFrames|, accumulatedTime := acc - delay), true)
    else (e.(accumulatedTime := acc), false)
  }

  /**
   * One entry in one worker pass, as written: the delay of the current
   * frame is read with no bounds check, so a frame past the last delay is
   * a read out of bounds (an error here).
   */
  function AdvanceAsWritten(e: GifStreamStatus, elapsedUs: nat): (r: Result<(GifStreamStatus, bool)>)
    ensures r.Err? <==> !Idle(e) && e.currentFrame >= |e.frameDelays|
  {
    if Idle(e) then Ok((e, false))
    else if e.currentFrame >= |e.frameDelays| then Err("frameDelays read past its end")
    else Ok(Step(e, elapsedUs))
  }

  /**
   * One entry in one worker pass, corrected: an entry whose current frame
   * has no delay is skipped like an idle one. A busy entry gathers the
   * elapsed time; once it reaches the frame's delay it moves to the next
   * frame (wrapping to the first) and keeps the remainder.
   */
  function Advance(e: GifStreamStatus, elapsedUs: nat): (r: (GifStreamStatus, bool))
    ensures r.0.gifFrames == e.gifFrames && r.0.frameDelays == e.frameDelays
    ensures r.1 ==> |e.gifFrames| > 0 && r.0.currentFrame == (e.currentFrame + 1) % |e.gifFrames|
    ensures !r.1 ==> r.0.currentFrame == e.currentFrame
    ensures InFrame(e) ==> InFrame(r.0)
    ensures Idle(e) || e.currentFrame >= |e.frameDelays| ==> r == (e, false)
    ensures !Idle(e) && e.currentFrame < |e.frameDelays| ==>
              (r.1 <==> e.accumulatedTime + elapsedUs >= (e.frameDelays[e.currentFrame] as int) * 1000) &&
              r.0.accumulatedTime + (if r.1 then (e.frameDelays[e.currentFrame] as int) * 1000 else 0) == e.accumulatedTime + elapsedUs
  {
    if Idle(e) || e.currentFrame >= |e.frameDelays| then (e, false) else Step(e, elapsedUs)
  }

  /** Wherever the unchecked read stays in bounds, the code as written and the corrected step agree. */
  lemma AdvanceAgrees(e: GifStreamStatus, elapsedUs: nat)
    requires AdvanceAsWritten(e, elapsedUs).Ok?
    ensures AdvanceAsWritten(e, elapsedUs) == Ok(Advance(e, elapsedUs))
  {
  }

  /** An entry through a run of worker passes, as written: the first read out of bounds ends the run. */
  function RunAsWritten(e: GifStreamStatus, ticks: seq<nat>): Result<GifStreamStatus>
    decreases |ticks|
  {
    if |ticks| == 0 then Ok(e)
    else match AdvanceAsWritten(e, ticks[0])
      case Err(msg) => Err(msg)
      case Ok(step) => RunAsWritten(step.0, ticks[1..])
  }

  /** An entry through a run of worker passes, corrected. */
  function Run(e: GifStreamStatus, ticks: seq<nat>): (r: GifStreamStatus)
    ensures r.gifFrames == e.gifFrames && r.frameDelays == e.frameDelays
    ensures InFrame(e) ==> InFrame(r)
    decreases |ticks|
  {
    if |ticks| == 0 then e else Run(Advance(e, ticks[0]).0, ticks[1..])
  }

  /**
   * An entry with at least one delay per frame that starts on a frame
   * (every entry the file setters build) never reads past its delays, and
   * there the code as written runs as the corrected one.
   */
  lemma {:induction false} CoveredNeverOverruns(e: GifStreamStatus, ticks: seq<nat>)
    requires |e.frameDelays| >= |e.gifFrames| && InFrame(e)
    ensures RunAsWritten(e, ticks) == Ok(Run(e, ticks))
    decreases |ticks|
  {
    if |ticks| > 0 {
      AdvanceAgrees(e, ticks[0]);
      CoveredNeverOverruns(Advance(e, ticks[0]).0, ticks[1..]);
    }
  }

  /**
   * Two frames with a single delay, as the stream setters accept them:
   * the first pass moves to the second frame, and the next pass reads its
   * delay past the end. The corrected step holds that entry still.
   */
  lemma ShortDelaysOverrun()
    ensures RunAsWritten(Start([[0xFF], [0xD8]], [0]), [0, 0]).Err?
    ensures Run(Start([[0xFF], [0xD8]], [0]), [0, 0]) == GifStreamStatus([[0xFF], [0xD8]], [0], 1, 0)
  {
    var e := Start([[0xFF], [0xD8]], [0]);
    var e1 := GifStreamStatus([[0xFF], [0xD8]], [0], 1, 0);
    assert AdvanceAsWritten(e, 0) == Ok((e1, true));
    assert [0, 0][1..] == [0];
    assert AdvanceAsWritten(e1, 0).Err?;
    assert Advance(e1, 0) == (e1, false);
    assert [0][1..] == [];
  }

  /** The loop body of phase one for one entry: the time gathered, then at most one move to the next frame. */
  method AdvanceEntry(entry: GifStreamStatus, elapsedUs: nat) returns (gif: GifStreamStatus, moved: bool)
    ensures (gif, moved) == Advance(entry, elapsedUs)
  {
    gif, moved := entry, false;
    if |gif.gifFrames| > 0 && |gif.frameDelays| > 0 && gif.currentFrame < |gif.frameDelays| {
      gif := gif.(accumulatedTime := gif.accumulatedTime + elapsedUs);
      var currentFrameDelay := (gif.frameDelays[gif.currentFrame] as int) * 1000;
      if gif.accumulatedTime >= currentFrameDelay {
        gif := gif.(currentFrame := (gif.currentFrame + 1) % |gif.gifFrames|);
        gif := gif.(accumulatedTime := gif.accumulatedTime - currentFrameDelay);
        moved := true;
      }
    }
  }

  /** `order` walks the table: each index once, and only indices in the table. */
  predicate Enumerates(order: seq<Byte>, m: map<Byte, GifStreamStatus>)
  {
    (forall k | k in order :: k in m) && (forall k | k in m :: k in order) &&
    (forall i, j | 0 <= i < j < |order| :: order[i] != order[j])
  }

  /** Every (index, frame) pair names an entry of `m` and one of its frames. */
  predicate UpdatesInRange(m: map<Byte, GifStreamStatus>, updates: seq<(Byte, nat)>)
  {
    forall u | u in updates :: u.0 in m && u.1 < |m[u.0].gifFrames|
  }

  /**
   * Phase one of a worker pass: the entries walked in `order`, each
   * advanced, and the (index, new frame) pairs of those that moved, in
   * walking order. Frames never change, so every pair names a frame.
   */
  function AdvanceAll(m: map<Byte, GifStreamStatus>, order: seq<Byte>, elapsedUs: nat): (r: (map<Byte, GifStreamStatus>, seq<(Byte, nat)>))
    ensures r.0.Keys == m.Keys
    ensures forall k | k in m :: r.0[k].gifFrames == m[k].gifFrames
    ensures UpdatesInRange(r.0, r.1)
    decreases |order|
  {
    if |order| == 0 then (m, [])
    else
      var prev := AdvanceAll(m, order[..|order| - 1], elapsedUs);
      var k := order[|order| - 1];
      if k !in prev.0 then prev
      else
        var step := Advance(prev.0[k], elapsedUs);
        (prev.0[k := step.0], prev.1 + if step.1 then [(k, step.0.currentFrame)] else [])
  }

  /** Walking one more index is one more step of phase one. */
  lemma AdvanceAllStep(m: map<Byte, GifStreamStatus>, order: seq<Byte>, i: nat, elapsedUs: nat)
    requires i < |order|
    ensures AdvanceAll(m, order[..i + 1], elapsedUs) ==
              var prev := AdvanceAll(m, order[..i], elapsedUs);
              if order[i] !in prev.0 then prev
              else
                var step := Advance(prev.0[order[i]], elapsedUs);
                (prev.0[order[i] := step.0], prev.1 + if step.1 then [(order[i], step.0.currentFrame)] else [])
  {
    assert order[..i + 1][..i] == order[..i];
  }

  /**
   * In one pass every walked entry advances exactly once, from where it
   * stood, and every other entry stays as it was.
   */
  lemma {:induction false} AdvanceAllTable(m: map<Byte, GifStreamStatus>, order: seq<Byte>, elapsedUs: nat)
    requires forall i, j | 0 <= i < j < |order| :: order[i] != order[j]
    ensures forall k | k in m :: AdvanceAll(m, order, elapsedUs).0[k] == if k in order then Advance(m[k], elapsedUs).0 else m[k]
    decreases |order|
  {
    if |order| > 0 {
      var init := order[..|order| - 1];
      var last := order[|order| - 1];
      AdvanceAllTable(m, init, elapsedUs);
      assert last !in init by {
        forall i | 0 <= i < |init| ensures init[i] != last {
          assert init[i] == order[i];
        }
      }
      forall k | k in m
        ensures AdvanceAll(m, order, elapsedUs).0[k] == if k in order then Advance(m[k], elapsedUs).0 else m[k]
      {
        assert k in order <==> k in init || k == last by {
          assert order == init + [last];
        }
      }
    }
  }

  /** No index is walked twice. */
  predicate NoRepeats(order: seq<Byte>)
  {
    forall i, j | 0 <= i < j < |order| :: order[i] != order[j]
  }

  /** In an order without repeats the last index is not among the earlier ones. */
  lemma LastNotEarlier(order: seq<Byte>)
    requires |order| > 0 && NoRepeats(order)
    ensures order == order[..|order| - 1] + [order[|order| - 1]]
    ensures order[|order| - 1] !in order[..|order| - 1]
    ensures NoRepeats(order[..|order| - 1])
  {
    var init := order[..|order| - 1];
    forall i | 0 <= i < |init| ensures init[i] != order[|order| - 1] {
      assert init[i] == order[i];
    }
  }

  /**
   * The pairs phase one hands to phase two each name a walked entry that
   * moved, with its new frame.
   */
  lemma {:induction false} AdvanceAllSound(m: map<Byte, GifStreamStatus>, order: seq<Byte>, elapsedUs: nat)
    requires NoRepeats(order)
    ensures forall u | u in AdvanceAll(m, order, elapsedUs).1 ::
              u.0 in order && u.0 in m && Advance(m[u.0], elapsedUs).1 && u.1 == Advance(m[u.0], elapsedUs).0.currentFrame
    decreases |order|
  {
    if |order| > 0 {
      var init := order[..|order| - 1];
      var last := order[|order| - 1];
      LastNotEarlier(order);
      AdvanceAllSound(m, init, elapsedUs);
      AdvanceAllTable(m, init, elapsedUs);
      var prev := AdvanceAll(m, init, elapsedUs);
      var r := AdvanceAll(m, order, elapsedUs);
      forall u | u in r.1
        ensures u.0 in order && u.0 in m && Advance(m[u.0], elapsedUs).1 && u.1 == Advance(m[u.0], elapsedUs).0.currentFrame
      {
        if u !in prev.1 {
          assert u == (last, Advance(m[last], elapsedUs).0.currentFrame);
        }
      }
    }
  }

  /** Every walked entry that moves has its pair in the list phase two receives. */
  lemma {:induction false} AdvanceAllComplete(m: map<Byte, GifStreamStatus>, order: seq<Byte>, elapsedUs: nat)
    requires NoRepeats(order)
    ensures forall k | k in order && k in m && Advance(m[k], elapsedUs).1 ::
              (k, Advance(m[k], elapsedUs).0.currentFrame) in AdvanceAll(m, order, elapsedUs).1
    decreases |order|
  {
    if |order| > 0 {
      var init := order[..|order| - 1];
      var last := order[|order| - 1];
      LastNotEarlier(order);
      AdvanceAllComplete(m, init, elapsedUs);
      AdvanceAllTable(m, init, elapsedUs);
      var prev := AdvanceAll(m, init, elapsedUs);
      if last in m {
        assert prev.0[last] == m[last];
      }
    }
  }

  /** No index appears twice in the list phase two receives. */
  lemma {:induction false} AdvanceAllDistinct(m: map<Byte, GifStreamStatus>, order: seq<Byte>, elapsedUs: nat)
    requires NoRepeats(order)
    ensures forall i, j | 0 <= i < j < |AdvanceAll(m, order, elapsedUs).1| ::
              AdvanceAll(m, order, elapsedUs).1[i].0 != AdvanceAll(m, order, elapsedUs).1[j].0
    decreases |order|
  {
    if |order| > 0 {
      var init := order[..|order| - 1];
      var last := order[|order| - 1];
      LastNotEarlier(order);
      AdvanceAllDistinct(m, init, elapsedUs);
      AdvanceAllSound(m, init, elapsedUs);
      var prev := AdvanceAll(m, init, elapsedUs);
      forall u | u in prev.1 ensures u.0 != last {
      }
    }
  }

  /** The placement check in front of a background frame: the animation fits inside the background. */
  predicate BackgroundFits(d: StreamDock, x: U16, y: U16)
    reads d`bgHelper, d`bgGifHelper
  {
    x + d.BackgroundGifHelper().width <= d.BgImgHelper().width &&
    y + d.BackgroundGifHelper().height <= d.BgImgHelper().height
  }

  /** What `setBackgroundGifFileFrame` sends: a JPEG frame, to a writable dual device that supports background animations. */
  function BackgroundFrameCommands(d: StreamDock, stream: seq<Byte>, width: nat, height: nat, x: U16, y: U16): (cs: seq<Command>)
    reads d`feature, d`canWrite
    ensures cs != [] <==> d.CanTransportWrite() && d.feature.isDualDevice && d.feature.supportBackGroundGif && IsJpegData(stream)
    ensures cs != [] ==> cs == [BackgroundFrameStream(stream, width, height, x, y)]
  {
    if !d.CanTransportWrite() then []
    else if d.feature.isDualDevice && d.feature.supportBackGroundGif then
      if !IsJpegData(stream) then [] else [BackgroundFrameStream(stream, width, height, x, y)]
    else []
  }

  /**
   * What phase two sends for one (index, frame) pair: a key image for a
   * key, a background frame for index 0 when it fits, nothing for an
   * entry that is gone or has no frames.
   */
  function FrameCommand(d: StreamDock, m: map<Byte, GifStreamStatus>, u: (Byte, nat), x: U16, y: U16): (cs: seq<Command>)
    reads d`info, d`feature, d`kyHelper, d`canWrite, d`bgHelper, d`bgGifHelper
    requires d.kyHelper.Some?
    requires u.0 in m && |m[u.0].gifFrames| > 0 ==> u.1 < |m[u.0].gifFrames|
    ensures |cs| <= 1
    ensures cs != [] ==> d.CanTransportWrite() && u.0 in m && u.1 < |m[u.0].gifFrames|
    ensures u.0 != 0 && cs != [] ==> cs == [KeyImageStream(m[u.0].gifFrames[u.1], u.0)] && !d.OutOfRange(u.0)
    ensures u.0 == 0 && cs != [] ==>
              BackgroundFits(d, x, y) && d.feature.supportBackGroundGif &&
              cs == [BackgroundFrameStream(m[0].gifFrames[u.1], d.BackgroundGifHelper().width, d.BackgroundGifHelper().height, x, y)]
  {
    if u.0 !in m || |m[u.0].gifFrames| == 0 then []
    else
      var frame := m[u.0].gifFrames[u.1];
      if u.0 != 0 then
        if d.KeyImageAccepted(frame, u.0) then [KeyImageStream(frame, u.0)] else []
      else if BackgroundFits(d, x, y) then
        BackgroundFrameCommands(d, frame, d.BackgroundGifHelper().width, d.BackgroundGifHelper().height, x, y)
      else []
  }

  /** Phase two's commands for a run of pairs, in order. */
  function FrameCommands(d: StreamDock, m: map<Byte, GifStreamStatus>, updates: seq<(Byte, nat)>, x: U16, y: U16): (cs: seq<Command>)
    reads d`info, d`feature, d`kyHelper, d`canWrite, d`bgHelper, d`bgGifHelper
    requires d.kyHelper.Some?
    requires UpdatesInRange(m, updates)
    ensures |cs| <= |updates|
    ensures cs != [] ==> d.CanTransportWrite()
    decreases |updates|
  {
    if |updates| == 0 then []
    else FrameCommands(d, m, updates[..|updates| - 1], x, y) + FrameCommand(d, m, updates[|updates| - 1], x, y)
  }

  lemma FrameCommandsNone(d: StreamDock, m: map<Byte, GifStreamStatus>, updates: seq<(Byte, nat)>, x: U16, y: U16)
    requires d.kyHelper.Some?
    ensures FrameCommands(d, m, updates[..0], x, y) == []
  {
  }

  /** One more update sent: its command follows the ones before it. */
  lemma FrameCommandsStep(d: StreamDock, m: map<Byte, GifStreamStatus>, updates: seq<(Byte, nat)>, j: nat, x: U16, y: U16)
    requires d.kyHelper.Some?
    requires UpdatesInRange(m, updates) && j < |updates|
    ensures UpdatesInRange(m, updates[..j]) && UpdatesInRange(m, updates[..j + 1])
    ensures updates[j].0 in m && updates[j].1 < |m[updates[j].0].gifFrames|
    ensures FrameCommands(d, m, updates[..j + 1], x, y) ==
            FrameCommands(d, m, updates[..j], x, y) + FrameCommand(d, m, updates[j], x, y)
  {
    assert updates[..j + 1][..j] == updates[..j];
    assert updates[j] in updates;
  }

  /**
   * Index 0 is the background's slot whatever put it there: a frame for
   * index 0 is never sent as a key image, even when it came from
   * `setKeyGifStream` with key 0.
   */
  lemma IndexZeroIsBackground(d: StreamDock, m: map<Byte, GifStreamStatus>, frame: nat, x: U16, y: U16, c: Command)
    requires d.kyHelper.Some?
    requires 0 in m && |m[0].gifFrames| > 0 ==> frame < |m[0].gifFrames|
    requires c in FrameCommand(d, m, (0, frame), x, y)
    ensures c.BackgroundFrameStream? && BackgroundFits(d, x, y)
  {
  }

  class GifController {
    /** `_instance`. */
    const dock: StreamDock
    /** `_gifMap`: index 0 is the background, other indices are keys. */
    var gifMap: map<Byte, GifStreamStatus>
    /** `_background_place_x`, `_background_place_y`. */
    var backgroundX: U16
    var backgroundY: U16
    /** `_gifLoopEnabled`. */
    var loopEnabled: bool
    /** `_running`. */
    var running: bool
    /** Whether the worker thread is still in its loop. */
    var workerAlive: bool

    /**
     * The constructor starts the worker: it stays in its loop only on a
     * writable dual device, though `_running` is set either way.
     */
    constructor(dock: StreamDock)
      ensures this.dock == dock && gifMap == map[] && backgroundX == 0 && backgroundY == 0
      ensures !loopEnabled && running
      ensures workerAlive == (dock.CanTransportWrite() && dock.feature.isDualDevice)
    {
      this.dock := dock;
      gifMap := map[];
      backgroundX := 0;
      backgroundY := 0;
      loopEnabled := false;
      running := true;
      workerAlive := dock.CanTransportWrite() && dock.feature.isDualDevice;
    }

    /** The guard the key setters share: a writable dual device. */
    predicate KeyGifAllowed()
      reads this, dock`canWrite, dock`feature
    {
      dock.CanTransportWrite() && dock.feature.isDualDevice
    }

    /** The guard the background setters share: a key GIF is allowed and the device supports background animations. */
    predicate BackgroundGifAllowed()
      reads this, dock`canWrite, dock`feature
    {
      KeyGifAllowed() && dock.feature.supportBackGroundGif
    }

    /**
     * `setKeyGifFile`: a key out of range or a device that refuses key
     * GIFs leaves the table as it was; otherwise the key's entry is
     * replaced by the decoded frames, one delay per frame.
     */
    method SetKeyGifFile(decoded: seq<CppGifFrames.GifFrameData>, key: Byte)
      modifies this`gifMap
      ensures !(!dock.OutOfRange(key) && KeyGifAllowed()) ==> gifMap == old(gifMap)
      ensures !dock.OutOfRange(key) && KeyGifAllowed() ==>
                gifMap.Keys == old(gifMap).Keys + {key} && FromDecoded(gifMap[key], decoded) &&
                forall k | k in old(gifMap) && k != key :: gifMap[k] == old(gifMap)[k]
    {
      if dock.OutOfRange(key) {
        return;
      }
      if !KeyGifAllowed() {
        return;
      }
      var e := SplitDecoded(decoded);
      gifMap := gifMap[key := e];
    }

    /** `setKeyGifStream` (both overloads): no range check, and the delays are taken as given. */
    method SetKeyGifStream(frames: seq<seq<Byte>>, delays: seq<U16>, key: Byte)
      modifies this`gifMap
      ensures gifMap == if KeyGifAllowed() then old(gifMap)[key := Start(frames, delays)] else old(gifMap)
    {
      if KeyGifAllowed() {
        gifMap := gifMap[key := Start(frames, delays)];
      }
    }

    /** `setBackgroundGifFile`: the decoded frames go to index 0, and the placement is stored, `x` wrapped to 16 unsigned bits. */
    method SetBackgroundGifFile(decoded: seq<CppGifFrames.GifFrameData>, x: I16, y: U16)
      modifies this`gifMap, this`backgroundX, this`backgroundY
      ensures !BackgroundGifAllowed() ==> gifMap == old(gifMap) && backgroundX == old(backgroundX) && backgroundY == old(backgroundY)
      ensures BackgroundGifAllowed() ==>
                gifMap.Keys == old(gifMap).Keys + {0} && FromDecoded(gifMap[0], decoded) &&
                (forall k | k in old(gifMap) && k != 0 :: gifMap[k] == old(gifMap)[k]) &&
                backgroundX == ToU16(x) && backgroundY == y
    {
      if !BackgroundGifAllowed() {
        return;
      }
      var e := SplitDecoded(decoded);
      backgroundX := ToU16(x);
      backgroundY := y;
      gifMap := gifMap[0 := e];
    }

    /** `setBackgroundGifStream` with a signed `x`: the frames and delays as given go to index 0. */
    method SetBackgroundGifStream(frames: seq<seq<Byte>>, delays: seq<U16>, x: I16, y: U16)
      modifies this`gifMap, this`backgroundX, this`backgroundY
      ensures !BackgroundGifAllowed() ==> gifMap == old(gifMap) && backgroundX == old(backgroundX) && backgroundY == old(backgroundY)
      ensures BackgroundGifAllowed() ==>
                gifMap == old(gifMap)[0 := Start(frames, delays)] && backgroundX == ToU16(x) && backgroundY == y
    {
      if BackgroundGifAllowed() {
        backgroundX := ToU16(x);
        backgroundY := y;
        gifMap := gifMap[0 := Start(frames, delays)];
      }
    }

    /** `setBackgroundGifStream` with byte frames and an unsigned `x`: forwarded through the signed overload, and `x` comes out as given. */
    method SetBackgroundGifStreamBytes(frames: seq<seq<Byte>>, delays: seq<U16>, x: U16, y: U16)
      modifies this`gifMap, this`backgroundX, this`backgroundY
      ensures !BackgroundGifAllowed() ==> gifMap == old(gifMap) && backgroundX == old(backgroundX) && backgroundY == old(backgroundY)
      ensures BackgroundGifAllowed() ==>
                gifMap == old(gifMap)[0 := Start(frames, delays)] && backgroundX == x && backgroundY == y
    {
      if BackgroundGifAllowed() {
        PlacementRoundTrip(x, 0);
        SetBackgroundGifStream(frames, delays, ToI16(x), y);
      }
    }

    /** `setBackgroundGifFileFrame`. */
    method SetBackgroundGifFileFrame(stream: seq<Byte>, width: nat, height: nat, x: U16, y: U16)
      modifies dock`log
      ensures dock.log == old(dock.log) + BackgroundFrameCommands(dock, stream, width, height, x, y)
    {
      if !dock.CanTransportWrite() {
        return;
      }
      if dock.feature.isDualDevice && dock.feature.supportBackGroundGif {
        if !IsJpegData(stream) {
          return;
        }
        dock.log := dock.log + [BackgroundFrameStream(stream, width, height, x, y)];
      }
    }

    /**
     * `clearBackgroundGifStream`: one clear command for the position; the
     * animation stays in the table, so the worker keeps sending it.
     */
    method ClearBackgroundGifStream(position: Byte)
      modifies dock`log
      ensures dock.log == old(dock.log) + if BackgroundGifAllowed() then [ClearBackgroundFrameStream(position)] else []
      ensures gifMap == old(gifMap)
    {
      if BackgroundGifAllowed() {
        dock.log := dock.log + [ClearBackgroundFrameStream(position)];
      }
    }

    /** `clearKeyGif`: the key's animation is dropped, every other entry stays. */
    method ClearKeyGif(key: Byte)
      modifies this`gifMap
      ensures gifMap == if KeyGifAllowed() then old(gifMap) - {key} else old(gifMap)
    {
      if KeyGifAllowed() {
        gifMap := gifMap - {key};
      }
    }

    /** `clearBackgroundyGif`: the background animation is dropped, every key's stays. */
    method ClearBackgroundGif()
      modifies this`gifMap
      ensures gifMap == if KeyGifAllowed() then old(gifMap) - {0} else old(gifMap)
    {
      if KeyGifAllowed() && 0 in gifMap {
        gifMap := gifMap - {0};
      }
    }

    /** `startGifLoop`: enabled only on a writable dual device. */
    method StartGifLoop()
      modifies this`loopEnabled
      ensures loopEnabled == (KeyGifAllowed() || old(loopEnabled))
    {
      if KeyGifAllowed() {
        loopEnabled := true;
      }
    }

    /** `stopGifLoop`: disabled only on a writable dual device. */
    method StopGifLoop()
      modifies this`loopEnabled
      ensures loopEnabled == (!KeyGifAllowed() && old(loopEnabled))
    {
      if KeyGifAllowed() {
        loopEnabled := false;
      }
    }

    /** `gifWorkLoopStatus`. */
    function GifWorkLoopStatus(): bool
      reads this`loopEnabled
    {
      loopEnabled
    }

    /** `stopWorkerThread`: the worker is told to stop and joined. */
    method StopWorkerThread()
      modifies this`running, this`workerAlive
      ensures !running && !workerAlive
    {
      running := false;
      workerAlive := false;
    }

    /** The worker is blocked: dead, or waiting for the loop to be enabled while it should run. */
    predicate Waiting()
      reads this
    {
      !workerAlive || (running && !loopEnabled)
    }

    /**
     * One pass of `gifWorkLoop`. A blocked worker does nothing. Otherwise
     * a transport that can no longer write stops the worker, and so does
     * a stop request; with an empty table the pass only waits. Otherwise
     * phase one advances the entries and phase two sends the changed
     * frames, then one refresh if any frame was sent for.
     */
    method Tick(elapsedUs: nat, order: seq<Byte>)
      requires dock.kyHelper.Some?
      requires Enumerates(order, gifMap)
      modifies this`gifMap, this`running, this`workerAlive, dock`log
      ensures old(Waiting()) ==>
                gifMap == old(gifMap) && running == old(running) && workerAlive == old(workerAlive) && dock.log == old(dock.log)
      ensures !old(Waiting()) ==> running == (old(running) && dock.CanTransportWrite()) && workerAlive == running
      ensures !old(Waiting()) && (!running || old(gifMap) == map[]) ==> gifMap == old(gifMap) && dock.log == old(dock.log)
      ensures !old(Waiting()) && running && old(gifMap) != map[] ==>
                gifMap == AdvanceAll(old(gifMap), order, elapsedUs).0 &&
                dock.log == old(dock.log) +
                  FrameCommands(dock, gifMap, AdvanceAll(old(gifMap), order, elapsedUs).1, backgroundX, backgroundY) +
                  (if AdvanceAll(old(gifMap), order, elapsedUs).1 != [] then [RefreshScreen] else [])
    {
      hide AdvanceAll, FrameCommands, FrameCommand;
      if Waiting() {
        return;
      }
      if !dock.CanTransportWrite() {
        running := false;
      }
      if !running {
        workerAlive := false;
        return;
      }
      if gifMap == map[] {
        return;
      }
      var updates := AdvanceEntries(elapsedUs, order);
      if updates != [] {
        SendFrames(updates);
        dock.Refresh();
      }
    }

    /** Phase one of a worker pass: every entry advanced, and the frames that moved, in walking order. */
    method AdvanceEntries(elapsedUs: nat, order: seq<Byte>) returns (updates: seq<(Byte, nat)>)
      modifies this`gifMap
      ensures (gifMap, updates) == AdvanceAll(old(gifMap), order, elapsedUs)
    {
      ghost var m0 := gifMap;
      updates := [];
      var i := 0;
      assert AdvanceAll(m0, order[..0], elapsedUs) == (m0, []);
      hide *;
      while i < |order|
        invariant 0 <= i <= |order|
        invariant (gifMap, updates) == AdvanceAll(m0, order[..i], elapsedUs)
      {
        var index := order[i];
        AdvanceAllStep(m0, order, i, elapsedUs);
        if index in gifMap {
          var gif, moved := AdvanceEntry(gifMap[index], elapsedUs);
          gifMap := gifMap[index := gif];
          if moved {
            updates := updates + [(index, gif.currentFrame)];
          } else {
            assert updates == updates + [];
          }
        }
        i := i + 1;
      }
      assert order[..i] == order;
    }

    /** Phase two for one (index, frame) pair. */
    method SendFrame(u: (Byte, nat))
      requires dock.kyHelper.Some?
      requires u.0 in gifMap && |gifMap[u.0].gifFrames| > 0 ==> u.1 < |gifMap[u.0].gifFrames|
      modifies dock`log
      ensures dock.log == old(dock.log) + FrameCommand(dock, gifMap, u, backgroundX, backgroundY)
    {
      var (index, frameIndex) := u;
      if index in gifMap && |gifMap[index].gifFrames| > 0 {
        var frames := gifMap[index].gifFrames;
        if index != 0 {
          dock.SetKeyImgFileStream(frames[frameIndex], index);
        } else if backgroundX + dock.BackgroundGifHelper().width <= dock.BgImgHelper().width &&
                  backgroundY + dock.BackgroundGifHelper().height <= dock.BgImgHelper().height {
          SetBackgroundGifFileFrame(frames[frameIndex], dock.BackgroundGifHelper().width, dock.BackgroundGifHelper().height,
                                    backgroundX, backgroundY);
        }
      }
    }

    /** Phase two of a worker pass: the frames that moved, sent in order. */
    method SendFrames(updates: seq<(Byte, nat)>)
      requires dock.kyHelper.Some?
      requires UpdatesInRange(gifMap, updates)
      modifies dock`log
      ensures dock.log == old(dock.log) + FrameCommands(dock, gifMap, updates, backgroundX, backgroundY)
    {
      hide FrameCommands, FrameCommand;
      var j := 0;
      FrameCommandsNone(dock, gifMap, updates, backgroundX, backgroundY);
      while j < |updates|
        invariant 0 <= j <= |updates|
        invariant dock.log == old(dock.log) + FrameCommands(dock, gifMap, updates[..j], backgroundX, backgroundY)
      {
        FrameCommandsStep(dock, gifMap, updates, j, backgroundX, backgroundY);
        SendFrame(updates[j]);
        assert dock.log == old(dock.log) + (FrameCommands(dock, gifMap, updates[..j], backgroundX, backgroundY) +
                                           FrameCommand(dock, gifMap, updates[j], backgroundX, backgroundY));
        j := j + 1;
      }
      assert updates[..j] == updates;
    }
  }
}
