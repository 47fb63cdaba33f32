/**
 * The Python transport wrapper `LibUSBHIDAPI`: the native handle and the
 * open flag, the calls that need a handle, the firmware-version string,
 * reads, and the interface-0 filter of device enumeration. Native calls
 * are represented by their results, passed in as parameters.
 */
module LibUsbTransport {
  import opened Common

  /** The `hid_device_info` fields the filter and the device list use. */
  datatype HidDeviceInfo = HidDeviceInfo(path: string, vendorId: int, productId: int, interfaceNumber: int)

  class LibUsbHidApi {
    /** `_handle`: the native transport handle, None when there is none. */
    var handle: Option<nat>
    var isOpen: bool
    var inputReportSize: int
    var outputReportSize: int
    var featureReportSize: int
    /** The handles passed to `transport_destroy`, oldest first. */
    var destroyed: seq<nat>

    /** `__init__`: no handle, not open, report sizes 0. */
    constructor()
      ensures handle.None? && !isOpen && destroyed == []
      ensures inputReportSize == 0 && outputReportSize == 0 && featureReportSize == 0
    {
      handle := None;
      isOpen := false;
      inputReportSize := 0;
      outputReportSize := 0;
      featureReportSize := 0;
      destroyed := [];
    }

    /**
     * `open`: refused while open or while a handle exists; otherwise the
     * handle is created, and only a successful create stores it and marks
     * the transport open.
     */
    method Open(createSucceeds: bool, newHandle: nat) returns (ok: bool)
      modifies this
      ensures old(isOpen) || old(handle).Some? ==> !ok && handle == old(handle) && isOpen == old(isOpen)
      ensures ok <==> !old(isOpen) && old(handle).None? && createSucceeds
      ensures ok ==> handle == Some(newHandle) && isOpen
      ensures !ok ==> handle == old(handle) && isOpen == old(isOpen)
      ensures destroyed == old(destroyed)
      ensures inputReportSize == old(inputReportSize) && outputReportSize == old(outputReportSize)
      ensures featureReportSize == old(featureReportSize)
    {
      if isOpen || handle.Some? {
        return false;
      }
      if !createSucceeds {
        return false;
      }
      handle := Some(newHandle);
      isOpen := true;
      ok := true;
    }

    /**
     * `close` as written: nothing to do when closed and without a handle;
     * with a handle, the handle is destroyed and both fields are reset.
     * When the flag is set but the handle is gone, nothing changes.
     */
    method Close()
      modifies this
      ensures old(handle).Some? ==> handle.None? && !isOpen && destroyed == old(destroyed) + [old(handle).value]
      ensures old(handle).None? ==> handle.None? && isOpen == old(isOpen) && destroyed == old(destroyed)
      ensures inputReportSize == old(inputReportSize) && outputReportSize == old(outputReportSize)
      ensures featureReportSize == old(featureReportSize)
    {
      if !isOpen && handle.None? {
        return;
      }
      if handle.Some? {
        destroyed := destroyed + [handle.value];
        handle := None;
        isOpen := false;
      }
    }

    /** `close` with the open flag cleared on every path, so the transport can be opened again. */
    method CloseResettingFlag()
      modifies this
      ensures handle.None? && !isOpen
      ensures destroyed == old(destroyed) + (if old(handle).Some? then [old(handle).value] else [])
      ensures inputReportSize == old(inputReportSize) && outputReportSize == old(outputReportSize)
      ensures featureReportSize == old(featureReportSize)
    {
      if handle.Some? {
        destroyed := destroyed + [handle.value];
      }
      handle := None;
      isOpen := false;
    }

    /** `__del__`, which `__exit__` calls: destroys the handle but leaves the open flag as it was. */
    method Exit()
      modifies this
      ensures handle.None? && isOpen == old(isOpen)
      ensures destroyed == old(destroyed) + (if old(handle).Some? then [old(handle).value] else [])
      ensures inputReportSize == old(inputReportSize) && outputReportSize == old(outputReportSize)
      ensures featureReportSize == old(featureReportSize)
    {
      if handle.Some? {
        destroyed := destroyed + [handle.value];
        handle := None;
      }
    }

    /** `set_report_size`: ignored without a handle; otherwise the three sizes are stored. */
    method SetReportSize(input: int, output: int, feature: int)
      modifies this
      ensures old(handle).None? ==>
        (inputReportSize == old(inputReportSize) && outputReportSize == old(outputReportSize) &&
         featureReportSize == old(featureReportSize))
      ensures old(handle).Some? ==> inputReportSize == input && outputReportSize == output && featureReportSize == feature
      ensures handle == old(handle) && isOpen == old(isOpen) && destroyed == old(destroyed)
    {
      if handle.None? {
        return;
      }
      inputReportSize := input;
      outputReportSize := output;
      featureReportSize := feature;
    }

    /** `can_write`: False without a handle or when the native query fails. */
    function CanWrite(queryStatus: int, writable: bool): (r: bool)
      reads this
      ensures r <==> handle.Some? && queryStatus == 0 && writable
    {
      if handle.None? then false
      else if queryStatus != 0 then false
      else writable
    }

    /**
     * `read_(size)`: None without a handle, on a native error or when no
     * byte arrived; otherwise the first `length` bytes of the buffer
     * (Python slicing stops at the buffer's end).
     */
    function ReadReport(buffer: seq<Byte>, status: int, length: int): (r: Option<seq<Byte>>)
      reads this
      ensures r.Some? <==> handle.Some? && status == 0 && length > 0
      ensures r.Some? ==> r.value == buffer[..if length < |buffer| then length else |buffer|]
    {
      if handle.None? then None
      else if status == 0 && length > 0 then Some(buffer[..if length < |buffer| then length else |buffer|])
      else None
    }

    /** `get_firmware_version`: "" without a handle or on a native error, else the first non-empty segment. */
    method GetFirmwareVersion(status: int, raw: seq<Byte>) returns (version: seq<Byte>)
      ensures handle.None? || status != 0 ==> version == []
      ensures handle.Some? && status == 0 ==> version == FirstSegment(raw)
    {
      if handle.None? {
        return [];
      }
      if status != 0 {
        return [];
      }
      var parts := SplitAtNul(raw);
      FirstSegmentOfSplit(raw);
      version := [];
      var i := 0;
      while i < |parts|
        invariant 0 <= i <= |parts|
        invariant FirstNonEmpty(parts[i..]) == FirstNonEmpty(parts)
      {
        if parts[i] != [] {
          version := parts[i];
          break;
        }
        assert parts[i..][1..] == parts[i + 1..];
        i := i + 1;
      }
    }
  }

  /** The first non-empty piece, or empty when there is none. */
  function FirstNonEmpty(parts: seq<seq<Byte>>): seq<Byte>
  {
    if |parts| == 0 then [] else if parts[0] != [] then parts[0] else FirstNonEmpty(parts[1..])
  }

  /** `bytes.split(b"\x00")`: the pieces between NUL bytes, empty pieces included. */
  function SplitAtNul(s: seq<Byte>): (parts: seq<seq<Byte>>)
    ensures |parts| >= 1
    decreases |s|
  {
    if 0 !in s then [s]
    else
      var i := FirstNul(s);
      [s[..i]] + SplitAtNul(s[i + 1..])
  }

  /** The index of the first NUL byte. */
  function FirstNul(s: seq<Byte>): (i: nat)
    requires 0 in s
    ensures i < |s| && s[i] == 0 && 0 !in s[..i]
  {
    if s[0] == 0 then 0 else
      assert 0 in s[1..] by { var k :| 0 <= k < |s| && s[k] == 0; assert s[1..][k - 1] == 0; }
      var j := FirstNul(s[1..]);
      assert s[..j + 1] == [s[0]] + s[1..][..j];
      1 + j
  }

  /** The bytes up to the first NUL, or all of them. */
  function UntilNul(s: seq<Byte>): (p: seq<Byte>)
    ensures p <= s && 0 !in p
    ensures |p| < |s| ==> s[|p|] == 0
  {
    if |s| == 0 || s[0] == 0 then [] else [s[0]] + UntilNul(s[1..])
  }

  /** The first maximal run of non-NUL bytes, or empty when every byte is NUL. */
  function FirstSegment(s: seq<Byte>): (p: seq<Byte>)
    ensures 0 !in p
  {
    if |s| == 0 then [] else if s[0] == 0 then FirstSegment(s[1..]) else UntilNul(s)
  }

  lemma {:induction false} UntilNulIsFirstPiece(s: seq<Byte>)
    requires 0 in s
    ensures UntilNul(s) == s[..FirstNul(s)]
  {
    if s[0] != 0 {
      assert 0 in s[1..] by { var k :| 0 <= k < |s| && s[k] == 0; assert s[1..][k - 1] == 0; }
      UntilNulIsFirstPiece(s[1..]);
    }
  }

  lemma {:induction false} UntilNulWithoutNul(s: seq<Byte>)
    requires 0 !in s
    ensures UntilNul(s) == s
  {
    if |s| > 0 {
      UntilNulWithoutNul(s[1..]);
    }
  }

  /** The first non-empty piece of the split is the first segment, and both are empty together. */
  lemma {:induction false} FirstSegmentOfSplit(s: seq<Byte>)
    ensures FirstNonEmpty(SplitAtNul(s)) == FirstSegment(s)
    decreases |s|
  {
    var parts := SplitAtNul(s);
    if 0 !in s {
      UntilNulWithoutNul(s);
      if |s| > 0 {
        assert s[0] != 0;
      }
    } else {
      var k := FirstNul(s);
      var rest := s[k + 1..];
      assert parts == [s[..k]] + SplitAtNul(rest);
      assert parts[1..] == SplitAtNul(rest);
      if k == 0 {
        assert s[1..] == rest;
        FirstSegmentOfSplit(rest);
      } else {
        assert s[0] != 0;
        UntilNulIsFirstPiece(s);
        assert parts[0] == s[..k] == FirstSegment(s) != [];
      }
    }
  }

  /** The interface-0 entries of an enumeration, in enumeration order. */
  function InterfaceZero(infos: seq<HidDeviceInfo>): (r: seq<HidDeviceInfo>)
    ensures |r| <= |infos|
    ensures forall d | d in r :: d in infos && d.interfaceNumber == 0
    ensures forall d | d in infos && d.interfaceNumber == 0 :: d in r
  {
    if |infos| == 0 then []
    else
      var rest := InterfaceZero(infos[1..]);
      if infos[0].interfaceNumber == 0 then [infos[0]] + rest else rest
  }

  /** `enumerate_devices`: walks the native list and keeps the interface-0 entries. */
  method EnumerateDevices(infos: seq<HidDeviceInfo>) returns (deviceList: seq<HidDeviceInfo>)
    ensures deviceList == InterfaceZero(infos)
  {
    deviceList := [];
    var i := 0;
    while i < |infos|
      invariant 0 <= i <= |infos|
      invariant deviceList + InterfaceZero(infos[i..]) == InterfaceZero(infos)
    {
      assert infos[i..][1..] == infos[i + 1..];
      if infos[i].interfaceNumber == 0 {
        deviceList := deviceList + [infos[i]];
      }
      i := i + 1;
    }
  }

  /**
   * After `__exit__` on an open transport, `close` leaves the open flag
   * set, and every later `open` is refused.
   */
  method ExitThenCloseBlocksReopen(t: LibUsbHidApi, h1: nat, h2: nat)
    requires t.handle.None? && !t.isOpen
    modifies t
    ensures t.isOpen && t.handle.None?
  {
    var ok := t.Open(true, h1);
    assert ok;
    t.Exit();
    t.Close();
    assert t.isOpen;
    ok := t.Open(true, h2);
    assert !ok;
  }

  /** With the flag cleared on close, the same sequence can open the transport again. */
  method ExitThenCloseAllowsReopen(t: LibUsbHidApi, h1: nat, h2: nat)
    requires t.handle.None? && !t.isOpen
    modifies t
    ensures t.isOpen && t.handle == Some(h2)
  {
    var ok := t.Open(true, h1);
    t.Exit();
    t.CloseResettingFlag();
    ok := t.Open(true, h2);
    assert ok;
  }
}
