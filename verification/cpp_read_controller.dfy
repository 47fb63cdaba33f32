/**
 * `ReadController` (C++): the callback tables, the raw read, and the
 * worker loop that checks each input report's header, finds the logical
 * key for the reported byte, dispatches the event and runs the callbacks.
 * Callbacks are identified by a number; running one is recorded in
 * `fired`. The transport's answers are passed in, one per read.
 */
module CppReadController {
  import opened Common
  import opened CppTypes
  import opened CppStreamDock
  import CppDevices
  import CppN3V25

  /** `CallbackStructure` and `RawReadCallbackStructure`: a possibly null callback and its async flag. */
  datatype CallbackStructure = CallbackStructure(callback: Option<nat>, async: bool)

  const NoCallback: CallbackStructure := CallbackStructure(None, false)

  /** One callback run: a key-event callback, or the raw callback with the report it was given. */
  datatype Invocation =
    | KeyCallback(id: nat, async: bool)
    | RawCallback(id: nat, async: bool, data: seq<Byte>)

  /** What the transport's `read` leaves behind: the length it reports and the 2048-byte buffer. */
  datatype TransportRead = TransportRead(length: int, buffer: seq<Byte>)

  /** The logical value meaning "no key reports this byte". */
  const NotFound: Byte := 0xFF

  /** Reports shorter than this are dropped. */
  const MinReportLength: nat := 64

  function Zeros(n: nat): (z: seq<Byte>)
    ensures |z| == n && forall i | 0 <= i < n :: z[i] == 0
  {
    if n == 0 then [] else Zeros(n - 1) + [0]
  }

  /** `std::vector::resize`: truncate, or pad with zero bytes. */
  function Resize(buffer: seq<Byte>, n: nat): (r: seq<Byte>)
    ensures |r| == n
    ensures forall i | 0 <= i < n :: r[i] == if i < |buffer| then buffer[i] else 0
  {
    if n <= |buffer| then buffer[..n] else buffer + Zeros(n - |buffer|)
  }

  /** What `read` returns: the buffer cut to a positive length, nothing otherwise. */
  function Response(t: TransportRead): (r: seq<Byte>)
    ensures t.length <= 0 ==> r == []
    ensures t.length > 0 ==> |r| == t.length && (t.length <= |t.buffer| ==> r == t.buffer[..t.length])
  {
    if t.length > 0 then Resize(t.buffer, t.length) else []
  }

  /** The acknowledgement header: "ACK" then "OK", shifted by one byte on the K1Pro, whose reports start with 0x04. */
  predicate HeaderMatches(response: seq<Byte>, isK1Pro: bool)
    requires |response| >= MinReportLength
  {
    if isK1Pro then
      response[0] == 0x04 && response[1] == 0x41 && response[2] == 0x43 && response[3] == 0x4B &&
      response[6] == 0x4F && response[7] == 0x4B
    else
      response[0] == 0x41 && response[1] == 0x43 && response[2] == 0x4B &&
      response[5] == 0x4F && response[6] == 0x4B
  }

  /** The two header layouts cannot both hold: the K1Pro one starts with 0x04, the other with 'A'. */
  lemma HeadersExclusive(response: seq<Byte>)
    requires |response| >= MinReportLength
    ensures !(HeaderMatches(response, true) && HeaderMatches(response, false))
  {
  }

  /** `order` lists every key of `m` exactly once: an iteration order of the unordered map. */
  predicate Enumerates(order: seq<Byte>, m: ReadValueMap)
  {
    (forall k | k in m :: k in order) && (forall k | k in order :: k in m) &&
    (forall i, j | 0 <= i < j < |order| :: order[i] != order[j])
  }

  /** The reverse lookup: the first key in iteration order whose code is `readValue`, or `NotFound`. */
  function FirstMatch(m: ReadValueMap, order: seq<Byte>, readValue: Byte): (r: Byte)
    ensures r != NotFound ==> r in order && r in m && m[r] == readValue
    ensures (forall j | 0 <= j < |order| :: !(order[j] in m && m[order[j]] == readValue)) ==> r == NotFound
    ensures r == NotFound && NotFound !in order ==> forall j | 0 <= j < |order| :: !(order[j] in m && m[order[j]] == readValue)
  {
    if |order| == 0 then NotFound
    else if order[0] in m && m[order[0]] == readValue then order[0]
    else FirstMatch(m, order[1..], readValue)
  }

  /**
   * With distinct codes and no key equal to the sentinel, the lookup finds
   * the one key reporting the byte, whatever the iteration order; it
   * finds nothing exactly when no key reports it.
   */
  lemma FirstMatchUnique(m: ReadValueMap, order: seq<Byte>, readValue: Byte)
    requires Enumerates(order, m) && DistinctCodes(m) && NotFound !in m
    ensures FirstMatch(m, order, readValue) == NotFound <==> forall k | k in m :: m[k] != readValue
    ensures FirstMatch(m, order, readValue) != NotFound ==>
      forall k | k in m && m[k] == readValue :: k == FirstMatch(m, order, readValue)
  {
    var r := FirstMatch(m, order, readValue);
    if r == NotFound {
      forall k | k in m ensures m[k] != readValue {
        var j :| 0 <= j < |order| && order[j] == k;
      }
    } else {
      var k := r;
      assert k in m && m[k] == readValue;
    }
  }

  /** Two iteration orders give the same key when the codes are distinct. */
  lemma FirstMatchOrderIndependent(m: ReadValueMap, o1: seq<Byte>, o2: seq<Byte>, readValue: Byte)
    requires Enumerates(o1, m) && Enumerates(o2, m) && DistinctCodes(m) && NotFound !in m
    ensures FirstMatch(m, o1, readValue) == FirstMatch(m, o2, readValue)
  {
    FirstMatchUnique(m, o1, readValue);
    FirstMatchUnique(m, o2, readValue);
  }

  /** `readLoop`'s scan of `_readValueMap`, in the map's iteration order. */
  method ReverseLookup(m: ReadValueMap, order: seq<Byte>, readValue: Byte) returns (realValue: Byte)
    ensures realValue == FirstMatch(m, order, readValue)
  {
    realValue := NotFound;
    var i := 0;
    while i < |order|
      invariant 0 <= i <= |order|
      invariant FirstMatch(m, order, readValue) == FirstMatch(m, order[i..], readValue)
    {
      assert order[i..][1..] == order[i + 1..];
      if order[i] in m && m[order[i]] == readValue {
        realValue := order[i];
        return;
      }
      i := i + 1;
    }
  }


  /** `_readCallbackMap`: (logical key, event) to callback. */
  type CallbackMap = map<(Byte, RegisterEvent), CallbackStructure>

  /** What the callbacks for a report depend on: the two callback tables and the device's table, class and layout. */
  datatype Snapshot = Snapshot(callbacks: CallbackMap, raw: CallbackStructure, isK1Pro: bool,
                               readValueMap: ReadValueMap, cls: DeviceClass)

  /** The callback registered for a key and event, if there is a non-null one. */
  function Registered(callbacks: CallbackMap, realValue: Byte, event: RegisterEvent): (r: seq<Invocation>)
    ensures |r| <= 1
    ensures |r| == 1 <==> (realValue, event) in callbacks && callbacks[(realValue, event)].callback.Some?
  {
    var key := (realValue, event);
    if key in callbacks && callbacks[key].callback.Some? then
      [KeyCallback(callbacks[key].callback.value, callbacks[key].async)]
    else []
  }

  /** The callbacks `readLoop` runs for one key event as written: the exact match, then the `EveryThing` one. */
  function KeyInvocationsAsWritten(callbacks: CallbackMap, realValue: Byte, event: RegisterEvent): (r: seq<Invocation>)
  {
    Registered(callbacks, realValue, event) + Registered(callbacks, realValue, EveryThing)
  }

  /** The same, with the second lookup skipped when the event is `EveryThing` itself. */
  function KeyInvocations(callbacks: CallbackMap, realValue: Byte, event: RegisterEvent): (r: seq<Invocation>)
    ensures event == EveryThing ==> r == Registered(callbacks, realValue, EveryThing)
    ensures event != EveryThing ==> r == Registered(callbacks, realValue, event) + Registered(callbacks, realValue, EveryThing)
    ensures |r| == 2 ==> event != EveryThing
  {
    Registered(callbacks, realValue, event) + if event == EveryThing then [] else Registered(callbacks, realValue, EveryThing)
  }

  /** The raw callback, when one is set, gets every report of at least 64 bytes. */
  function RawInvocations(raw: CallbackStructure, response: seq<Byte>): (r: seq<Invocation>)
    ensures r == [] <==> raw.callback.None?
    ensures r != [] ==> r == [RawCallback(raw.callback.value, raw.async, response)]
  {
    if raw.callback.Some? then [RawCallback(raw.callback.value, raw.async, response)] else []
  }

  /** Everything one report sets off: the raw callback, then the key callbacks when the header and the key are recognised. */
  function ReportInvocations(s: Snapshot, response: seq<Byte>, order: seq<Byte>): (r: seq<Invocation>)
    ensures |response| < MinReportLength ==> r == []
    ensures |response| >= MinReportLength && !HeaderMatches(response, s.isK1Pro) ==> r == RawInvocations(s.raw, response)
  {
    if |response| < MinReportLength then []
    else if !HeaderMatches(response, s.isK1Pro) then RawInvocations(s.raw, response)
    else
      var readValue := if s.isK1Pro then response[10] else response[9];
      var eventValue := if s.isK1Pro then response[11] else response[10];
      var realValue := FirstMatch(s.readValueMap, order, readValue);
      if realValue == NotFound then RawInvocations(s.raw, response)
      else RawInvocations(s.raw, response) + KeyInvocations(s.callbacks, realValue, CppDevices.DispatchOf(s.cls, readValue, eventValue))
  }

  lemma ConcatAssociative(a: seq<Invocation>, b: seq<Invocation>, c: seq<Invocation>)
    ensures (a + b) + c == a + (b + c)
  {
  }

  lemma ConcatEmpty(a: seq<Invocation>)
    ensures a + [] == a
  {
  }

  /** The callbacks a run of reports sets off, report after report. */
  function AllReports(s: Snapshot, responses: seq<seq<Byte>>, order: seq<Byte>): (r: seq<Invocation>)
    ensures |responses| == 0 ==> r == []
    decreases |responses|
  {
    if |responses| == 0 then []
    else AllReports(s, responses[..|responses| - 1], order) + ReportInvocations(s, responses[|responses| - 1], order)
  }

  lemma AllReportsAppend(s: Snapshot, responses: seq<seq<Byte>>, response: seq<Byte>, order: seq<Byte>)
    ensures AllReports(s, responses + [response], order) == AllReports(s, responses, order) + ReportInvocations(s, response, order)
  {
    assert (responses + [response])[..|responses|] == responses;
  }

  /**
   * What the loop does with a run of transport reads while it is
   * running: the responses it handed on for processing, how many reads it
   * took, and whether it is still running. Before each read it stops if
   * the transport cannot write; a read reporting -1 stops it too.
   */
  function LoopRun(canWrite: bool, results: seq<TransportRead>): (out: (seq<seq<Byte>>, nat, bool))
    ensures out.1 <= |results|
    decreases |results|
  {
    if |results| == 0 then ([], 0, true)
    else if !canWrite then ([], 0, false)
    else if results[0].length == -1 then ([], 1, false)
    else
      var rest := LoopRun(canWrite, results[1..]);
      ([Response(results[0])] + rest.0, rest.1 + 1, rest.2)
  }

  /** The outcome of a run whose first `taken` reads already handed on `done`. */
  function Resume(done: seq<seq<Byte>>, taken: nat, out: (seq<seq<Byte>>, nat, bool)): (seq<seq<Byte>>, nat, bool)
  {
    (done + out.0, taken + out.1, out.2)
  }

  /** Taking read `i` while the transport can write: a -1 stops the run, anything else hands its response on. */
  lemma LoopRunAt(canWrite: bool, results: seq<TransportRead>, i: nat, done: seq<seq<Byte>>)
    requires i < |results| && canWrite
    ensures results[i].length == -1 ==> Resume(done, i, LoopRun(canWrite, results[i..])) == (done, i + 1, false)
    ensures results[i].length != -1 ==>
      Resume(done, i, LoopRun(canWrite, results[i..])) ==
      Resume(done + [Response(results[i])], i + 1, LoopRun(canWrite, results[i + 1..]))
  {
    assert results[i..][1..] == results[i + 1..];
    if results[i].length == -1 {
      assert done + [] == done;
    } else {
      var rest := LoopRun(canWrite, results[i + 1..]);
      assert done + ([Response(results[i])] + rest.0) == (done + [Response(results[i])]) + rest.0;
    }
  }

  /**
   * The loop keeps running exactly when the transport can write (or
   * nothing was read) and no read reported -1; otherwise it took every
   * read up to and including the first -1, or none if the transport
   * could not write. Every read before the stop is handed on.
   */
  lemma {:induction false} LoopRunStops(canWrite: bool, results: seq<TransportRead>)
    ensures var out := LoopRun(canWrite, results);
            out.2 <==> (canWrite || |results| == 0) && forall j | 0 <= j < |results| :: results[j].length != -1
    ensures var out := LoopRun(canWrite, results);
            out.2 ==> out.1 == |results|
    ensures var out := LoopRun(canWrite, results);
            !out.2 && canWrite ==> 1 <= out.1 && results[out.1 - 1].length == -1 &&
                                   forall j | 0 <= j < out.1 - 1 :: results[j].length != -1
    ensures var out := LoopRun(canWrite, results);
            canWrite ==> |out.0| == (if out.2 then out.1 else out.1 - 1) &&
                         forall j | 0 <= j < |out.0| :: out.0[j] == Response(results[j])
    ensures !canWrite && |results| > 0 ==> LoopRun(canWrite, results) == ([], 0, false)
    decreases |results|
  {
    if |results| > 0 && canWrite && results[0].length != -1 {
      LoopRunStops(canWrite, results[1..]);
      assert forall j | 1 <= j < |results| :: results[1..][j - 1] == results[j];
    }
  }

  /** `std::thread::join` on the worker: joining from the worker itself throws `resource_deadlock_would_occur`. */
  function JoinWorker(callerIsWorker: bool): (r: Result<bool>)
    ensures r.Err? <==> callerIsWorker
  {
    if callerIsWorker then Err("resource_deadlock_would_occur") else Ok(true)
  }

  /** What `read` returns as written: a disconnect seen on the worker thread ends in the join's exception. */
  function ReadAsWritten(t: TransportRead, onWorkerThread: bool): (r: Result<seq<Byte>>)
    ensures t.length != -1 ==> r == Ok(Response(t))
    ensures t.length == -1 ==> (r.Err? <==> onWorkerThread)
  {
    if t.length == -1 then
      (var joined := JoinWorker(onWorkerThread); if joined.Err? then Err(joined.error) else Ok([]))
    else Ok(Response(t))
  }

  class ReadController {
    /** `_instance`: the device this controller reads for. */
    const dock: StreamDock
    var callbackMap: CallbackMap
    var rawCallback: CallbackStructure
    /** `_running`: the worker is meant to keep going. */
    var running: bool
    /** `_readLoopEnabled`: the worker may read. */
    var readLoopEnabled: bool
    /** Callbacks run so far, oldest first. */
    var fired: seq<Invocation>

    /** The constructor starts the worker, which waits until the loop is enabled. */
    constructor(dock: StreamDock)
      ensures this.dock == dock && running && !readLoopEnabled
      ensures callbackMap == map[] && rawCallback == NoCallback && fired == []
    {
      this.dock := dock;
      callbackMap := map[];
      rawCallback := NoCallback;
      running := true;
      readLoopEnabled := false;
      fired := [];
    }

    /** The state the loop's callbacks depend on. */
    function View(): Snapshot
      reads this`callbackMap, this`rawCallback, dock`info
    {
      Snapshot(callbackMap, rawCallback, dock.info.originType == K1ProOrigin, dock.readValueMap, dock.cls)
    }

    /** `registerReadCallback`: a later registration for the same key and event replaces the earlier one. */
    method RegisterReadCallback(realValue: Byte, callback: Option<nat>, event: RegisterEvent, async: bool)
      modifies this`callbackMap
      ensures callbackMap == old(callbackMap)[(realValue, event) := CallbackStructure(callback, async)]
    {
      callbackMap := callbackMap[(realValue, event) := CallbackStructure(callback, async)];
    }

    /** `unregisterReadCallback`. */
    method UnregisterReadCallback(realValue: Byte, event: RegisterEvent)
      modifies this`callbackMap
      ensures callbackMap == old(callbackMap) - {(realValue, event)}
    {
      callbackMap := callbackMap - {(realValue, event)};
    }

    /** `registerRawReadCallback`. */
    method RegisterRawReadCallback(callback: Option<nat>, async: bool)
      modifies this`rawCallback
      ensures rawCallback == CallbackStructure(callback, async)
    {
      rawCallback := CallbackStructure(callback, async);
    }

    /** `unregisterRawReadCallback`. */
    method UnregisterRawReadCallback()
      modifies this`rawCallback
      ensures rawCallback == NoCallback
    {
      rawCallback := NoCallback;
    }

    /** `startReadLoop`. */
    method StartReadLoop()
      modifies this`readLoopEnabled
      ensures readLoopEnabled
    {
      readLoopEnabled := true;
    }

    /** `stopReadLoop`. */
    method StopReadLoop()
      modifies this`readLoopEnabled
      ensures !readLoopEnabled
    {
      readLoopEnabled := false;
    }

    /** The body of `readLoop` after a non-empty read: drop short reports, run the raw callback, check, look up, dispatch. */
    method Process(response: seq<Byte>, order: seq<Byte>)
      modifies this`fired
      ensures fired == old(fired) + ReportInvocations(View(), response, order)
    {
      hide CppDevices.DispatchOf;
      if |response| < MinReportLength {
        return;
      }
      if rawCallback.callback.Some? {
        fired := fired + [RawCallback(rawCallback.callback.value, rawCallback.async, response)];
      }
      var isK1Pro := dock.info.originType == K1ProOrigin;
      var flag := HeaderMatches(response, isK1Pro);
      if !flag {
        return;
      }
      var readValueOffset := if isK1Pro then 10 else 9;
      var eventValueOffset := if isK1Pro then 11 else 10;
      var readValue := response[readValueOffset];
      var realValue := ReverseLookup(dock.readValueMap, order, readValue);
      if realValue == NotFound {
        return;
      }
      var readEventValue := response[eventValueOffset];
      var triggeredEvent := CppDevices.DispatchOf(dock.cls, readValue, readEventValue);
      RunKeyCallbacks(realValue, triggeredEvent);
    }

    /** The exact-match callback, then the `EveryThing` one unless that was the exact match. */
    method RunKeyCallbacks(realValue: Byte, triggeredEvent: RegisterEvent)
      modifies this`fired
      ensures fired == old(fired) + KeyInvocations(callbackMap, realValue, triggeredEvent)
    {
      var exact := (realValue, triggeredEvent);
      if exact in callbackMap && callbackMap[exact].callback.Some? {
        fired := fired + [KeyCallback(callbackMap[exact].callback.value, callbackMap[exact].async)];
      }
      var any := (realValue, EveryThing);
      if triggeredEvent != EveryThing && any in callbackMap && callbackMap[any].callback.Some? {
        fired := fired + [KeyCallback(callbackMap[any].callback.value, callbackMap[any].async)];
      }
    }

    /**
     * `read` as written, called with `onWorkerThread` when the worker's
     * own loop calls it. A length of -1 (the device went away) stops the
     * worker, which ends by joining it.
     */
    method Read(t: TransportRead, onWorkerThread: bool) returns (r: Result<seq<Byte>>)
      modifies this`running
      ensures r == ReadAsWritten(t, onWorkerThread)
      ensures running == (old(running) && t.length != -1)
    {
      if t.length > 0 {
        return Ok(Resize(t.buffer, t.length));
      } else if t.length == -1 {
        running := false;
        var joined := JoinWorker(onWorkerThread);
        if joined.Err? {
          return Err(joined.error);
        }
        return Ok([]);
      }
      return Ok([]);
    }

    /** The worker's read with the stop done in place: clear `running` and let the loop condition end the worker. */
    method ReadOnWorker(t: TransportRead) returns (response: seq<Byte>)
      modifies this`running
      ensures response == Response(t)
      ensures running == (old(running) && t.length != -1)
    {
      if t.length > 0 {
        return Resize(t.buffer, t.length);
      } else if t.length == -1 {
        running := false;
      }
      return [];
    }

    /**
     * One pass of the loop body after the transport check: read, and
     * process what came back, extending the run of handed-on responses.
     */
    method Iteration(t: TransportRead, order: seq<Byte>, ghost base: seq<Invocation>, ghost done: seq<seq<Byte>>)
      requires fired == base + AllReports(View(), done, order)
      modifies this`running, this`fired
      ensures running == (old(running) && t.length != -1)
      ensures t.length == -1 ==> fired == old(fired)
      ensures t.length != -1 ==> fired == base + AllReports(View(), done + [Response(t)], order)
    {
      var response := ReadOnWorker(t);
      AllReportsAppend(View(), done, response, order);
      ghost var earlier := AllReports(View(), done, order);
      ghost var report := ReportInvocations(View(), response, order);
      if |response| == 0 {
        ConcatEmpty(earlier);
        return;
      }
      Process(response, order);
      ConcatAssociative(base, earlier, report);
    }

    /**
     * `readLoop`, once the loop is enabled, fed a finite run of transport
     * reads: it returns how many reads it took.
     */
    method RunLoop(results: seq<TransportRead>, order: seq<Byte>) returns (consumed: nat)
      requires readLoopEnabled
      modifies this`running, this`fired
      ensures old(running) ==> fired == old(fired) + AllReports(View(), LoopRun(dock.canWrite, results).0, order) &&
                               consumed == LoopRun(dock.canWrite, results).1 &&
                               running == LoopRun(dock.canWrite, results).2
      ensures !old(running) ==> consumed == 0 && fired == old(fired) && !running
    {
      consumed := 0;
      if !running {
        return;
      }
      ghost var v := View();
      ghost var total := LoopRun(dock.canWrite, results);
      ghost var base := fired;
      ghost var done: seq<seq<Byte>> := [];
      assert results[consumed..] == results;
      assert done + total.0 == total.0;
      while consumed < |results|
        invariant 0 <= consumed <= |results|
        invariant running && View() == v
        invariant fired == base + AllReports(v, done, order)
        invariant total == Resume(done, consumed, LoopRun(dock.canWrite, results[consumed..]))
        decreases |results| - consumed
      {
        if !dock.canWrite {
          assert LoopRun(dock.canWrite, results[consumed..]) == ([], 0, false);
          assert done + [] == done;
          running := false;
          return;
        }
        LoopRunAt(dock.canWrite, results, consumed, done);
        if results[consumed].length == -1 {
          Iteration(results[consumed], order, base, done);
          consumed := consumed + 1;
          return;
        }
        Iteration(results[consumed], order, base, done);
        done := done + [Response(results[consumed])];
        consumed := consumed + 1;
      }
      assert results[consumed..] == [];
      assert done + [] == done;
    }
  }

  /**
   * As written, a report whose event the device does not classify runs a
   * key's `EveryThing` callback twice: once as the exact match and once as
   * the catch-all.
   */
  lemma EveryThingRunsTwice(callbacks: CallbackMap, realValue: Byte, id: nat, async: bool)
    requires (realValue, EveryThing) in callbacks && callbacks[(realValue, EveryThing)] == CallbackStructure(Some(id), async)
    ensures KeyInvocationsAsWritten(callbacks, realValue, EveryThing) == [KeyCallback(id, async), KeyCallback(id, async)]
    ensures KeyInvocations(callbacks, realValue, EveryThing) == [KeyCallback(id, async)]
  {
  }

  /** The corrected lookup runs each registered callback at most once per report, and differs only for `EveryThing`. */
  lemma EachCallbackOnce(callbacks: CallbackMap, realValue: Byte, event: RegisterEvent)
    ensures |KeyInvocations(callbacks, realValue, event)| <= 2
    ensures event == EveryThing ==> |KeyInvocations(callbacks, realValue, event)| <= 1
    ensures event != EveryThing ==> KeyInvocations(callbacks, realValue, event) == KeyInvocationsAsWritten(callbacks, realValue, event)
  {
  }

  /**
   * The concrete case: on an N3V25, knob 1 (logical key 10, code 0x33)
   * pressed down sends event 1, which the N3 dispatch leaves as
   * `EveryThing`; the lookup finds key 10 in any iteration order.
   */
  lemma N3KnobPressUnclassified(order: seq<Byte>)
    requires Enumerates(order, CppN3V25.ReadValueMap)
    ensures FirstMatch(CppN3V25.ReadValueMap, order, 0x33) == 10
    ensures CppDevices.DispatchOf(N3V25Class, 0x33, 0x01) == EveryThing
  {
    CppN3V25.ReadValueMapDistinct();
    assert CppN3V25.ReadValueMap[10] == 0x33;
    FirstMatchUnique(CppN3V25.ReadValueMap, order, 0x33);
  }

  /**
   * As written, the disconnect the loop's own read reports is fatal: the
   * join throws on the worker thread, and nothing catches it there.
   */
  lemma DisconnectOnWorkerThrows(t: TransportRead)
    requires t.length == -1
    ensures ReadAsWritten(t, true) == Err("resource_deadlock_would_occur")
    ensures ReadAsWritten(t, false) == Ok([])
  {
  }

  /** With the stop done in place, a disconnect ends the loop after that one read, with nothing handed on. */
  lemma DisconnectStopsLoop(results: seq<TransportRead>)
    requires |results| >= 1 && results[0].length == -1
    ensures LoopRun(true, results) == ([], 1, false)
  {
  }
}
