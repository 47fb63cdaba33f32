/**
 * `DeviceEnumerator` (C++): the list of HID devices found by the last
 * enumeration, an index from HID path to device, a multimap from the
 * combined vendor/product key to devices, and the per-device handle that
 * `send_to_path` opens on demand.
 */
module CppDeviceEnumerator {
  import opened Common
  import opened CppTypes

  /** The value of `(uint32_t(vid) << 16) | pid`: the key of the vendor/product multimap. */
  function VidPidKey(vid: U16, pid: U16): nat
  {
    vid * 0x1_0000 + pid
  }

  /** Shifting a 16-bit value into the high half and or-ing in another is the sum `high * 2^16 + low`. */
  lemma KeyBitLayout(vid: bv16, pid: bv16)
    ensures (((vid as bv32) << 16) | (pid as bv32)) as int == VidPidKey(vid as int, pid as int)
  {
  }

  /** The key splits back into the vendor id (high half) and the product id (low half). */
  lemma VidPidKeySplit(vid: U16, pid: U16)
    ensures VidPidKey(vid, pid) < 0x1_0000_0000
    ensures VidPidKey(vid, pid) / 0x1_0000 == vid && VidPidKey(vid, pid) % 0x1_0000 == pid
  {
  }

  /** Two pairs share a key only when they are the same pair. */
  lemma VidPidKeyInjective(vid: U16, pid: U16, vid': U16, pid': U16)
    requires VidPidKey(vid, pid) == VidPidKey(vid', pid')
    ensures vid == vid' && pid == pid'
  {
    VidPidKeySplit(vid, pid);
    VidPidKeySplit(vid', pid');
  }

  function Key(d: HidDeviceInfo): nat
  {
    VidPidKey(d.vendorId, d.productId)
  }

  function Lookup(m: map<nat, seq<nat>>, key: nat): seq<nat>
  {
    if key in m then m[key] else []
  }

  /** `_pathMap` after listing `devs`: a later device with the same path replaces the earlier one. */
  function PathIndex(devs: seq<HidDeviceInfo>): map<string, nat>
    decreases |devs|
  {
    if |devs| == 0 then map[]
    else PathIndex(devs[..|devs| - 1])[devs[|devs| - 1].path := |devs| - 1]
  }

  /** `_vidpidMap` after listing `devs`: every device is kept under its key, in listing order. */
  function KeyIndex(devs: seq<HidDeviceInfo>): map<nat, seq<nat>>
    decreases |devs|
  {
    if |devs| == 0 then map[]
    else
      var prev := KeyIndex(devs[..|devs| - 1]);
      var k := Key(devs[|devs| - 1]);
      prev[k := Lookup(prev, k) + [|devs| - 1]]
  }

  /** The devices listed under `key`, in listing order: the reference for `find_by_vidpid`. */
  function Filter(devs: seq<HidDeviceInfo>, key: nat): seq<HidDeviceInfo>
    decreases |devs|
  {
    if |devs| == 0 then []
    else Filter(devs[..|devs| - 1], key) + (if Key(devs[|devs| - 1]) == key then [devs[|devs| - 1]] else [])
  }

  predicate IndicesBelow(idx: seq<nat>, n: nat)
  {
    forall j | 0 <= j < |idx| :: idx[j] < n
  }

  /** The devices at the given indices, in that order. */
  function Gather(devs: seq<HidDeviceInfo>, idx: seq<nat>): seq<HidDeviceInfo>
    requires IndicesBelow(idx, |devs|)
    decreases |idx|
  {
    if |idx| == 0 then [] else Gather(devs, idx[..|idx| - 1]) + [devs[idx[|idx| - 1]]]
  }

  /** Every listed path is in the path index, and nothing else. */
  lemma {:induction false} PathIndexKeys(devs: seq<HidDeviceInfo>)
    ensures PathIndex(devs).Keys == set i | 0 <= i < |devs| :: devs[i].path
    decreases |devs|
  {
    if |devs| > 0 {
      var prefix := devs[..|devs| - 1];
      var last := |devs| - 1;
      PathIndexKeys(prefix);
      forall i | 0 <= i < |devs| ensures devs[i].path in PathIndex(devs) {
        if i < last {
          assert prefix[i].path == devs[i].path;
        }
      }
      forall p | p in PathIndex(devs) ensures exists i | 0 <= i < |devs| :: devs[i].path == p {
        if p != devs[last].path {
          var i :| 0 <= i < |prefix| && prefix[i].path == p;
          assert devs[i].path == p;
        }
      }
    }
  }

  /** Each path names the last device listed under it. */
  lemma {:induction false} PathIndexLast(devs: seq<HidDeviceInfo>)
    ensures forall p | p in PathIndex(devs) ::
              PathIndex(devs)[p] < |devs| && devs[PathIndex(devs)[p]].path == p &&
              forall j | PathIndex(devs)[p] < j < |devs| :: devs[j].path != p
    decreases |devs|
  {
    if |devs| > 0 {
      var prefix := devs[..|devs| - 1];
      var last := |devs| - 1;
      PathIndexLast(prefix);
      forall p | p in PathIndex(devs)
        ensures PathIndex(devs)[p] < |devs| && devs[PathIndex(devs)[p]].path == p &&
                forall j | PathIndex(devs)[p] < j < |devs| :: devs[j].path != p
      {
        if p != devs[last].path {
          var k := PathIndex(prefix)[p];
          assert PathIndex(devs)[p] == k;
          assert devs[k] == prefix[k];
          forall j | k < j < |devs| ensures devs[j].path != p {
            if j < last {
              assert devs[j] == prefix[j];
            }
          }
        }
      }
    }
  }

  /** Listing one more device adds its index under its own key and nowhere else. */
  lemma KeyIndexStep(devs: seq<HidDeviceInfo>, key: nat)
    requires |devs| > 0
    ensures Lookup(KeyIndex(devs), key) ==
              Lookup(KeyIndex(devs[..|devs| - 1]), key) + (if Key(devs[|devs| - 1]) == key then [|devs| - 1] else [])
  {
  }

  /** The multimap keeps, under each key, exactly the indices of the devices with that key, in order. */
  lemma {:induction false} KeyIndexFilter(devs: seq<HidDeviceInfo>, key: nat)
    ensures IndicesBelow(Lookup(KeyIndex(devs), key), |devs|)
    ensures Gather(devs, Lookup(KeyIndex(devs), key)) == Filter(devs, key)
    decreases |devs|
  {
    if |devs| > 0 {
      var n := |devs| - 1;
      var prefix := devs[..n];
      var last := devs[n];
      var idx := Lookup(KeyIndex(prefix), key);
      KeyIndexStep(devs, key);
      assert Filter(devs, key) == Filter(prefix, key) + (if Key(last) == key then [last] else []);
      hide KeyIndex, Filter;
      KeyIndexFilter(prefix, key);
      GatherPrefix(prefix, devs, idx);
      if Key(last) == key {
        var idx' := idx + [n];
        assert idx'[..|idx'| - 1] == idx;
        assert Gather(devs, idx') == Gather(devs, idx) + [last];
      } else {
        assert idx + [] == idx;
      }
    }
  }

  /** Gathering from a longer list that starts with `prefix` gives the same devices. */
  lemma {:induction false} GatherPrefix(prefix: seq<HidDeviceInfo>, devs: seq<HidDeviceInfo>, idx: seq<nat>)
    requires prefix <= devs && IndicesBelow(idx, |prefix|)
    ensures IndicesBelow(idx, |devs|) && Gather(devs, idx) == Gather(prefix, idx)
    decreases |idx|
  {
    if |idx| > 0 {
      GatherPrefix(prefix, devs, idx[..|idx| - 1]);
    }
  }

  /** `find_by_vidpid` reports exactly the devices with that vendor and product id. */
  lemma {:induction false} FilterExact(devs: seq<HidDeviceInfo>, vid: U16, pid: U16)
    ensures forall d :: d in Filter(devs, VidPidKey(vid, pid)) <==> d in devs && d.vendorId == vid && d.productId == pid
    decreases |devs|
  {
    if |devs| > 0 {
      var prefix := devs[..|devs| - 1];
      var last := devs[|devs| - 1];
      FilterExact(prefix, vid, pid);
      assert devs == prefix + [last];
      if Key(last) == VidPidKey(vid, pid) {
        VidPidKeyInjective(last.vendorId, last.productId, vid, pid);
      }
    }
  }

  /** The state of a device's `_dev_ptr`: open, or closed by `hid_close` but still stored. */
  datatype Handle = Live | Dangling

  /** What `send_to_path` returns, the handles it leaves, and whether it reached `hid_write`. */
  datatype SendOutcome = SendOutcome(result: Result<bool>, handles: map<string, Handle>, written: bool)

  /**
   * `send_to_path` for a path the index may or may not know, given whether
   * `hid_open_path` succeeds and what `hid_write` returns. Writing through
   * a handle `hid_close` has freed is reported as an error.
   */
  function Send(handles: map<string, Handle>, known: bool, path: string, data: seq<Byte>,
                openOk: bool, writeResult: int): (o: SendOutcome)
    ensures !known || |data| == 0 ==> o == SendOutcome(Ok(false), handles, false)
    ensures o.result == Ok(true) ==> known && |data| > 0 && writeResult >= 0 && o.written
    ensures o.written ==> path in o.handles && o.handles[path] == Live
    ensures path !in handles && !openOk ==> !o.written && o.handles == handles
    ensures o.result.Err? <==> known && |data| > 0 && path in handles && handles[path] == Dangling
    ensures known && |data| > 0 && (path in handles ==> handles[path] == Live) && (path in handles || openOk) ==>
      o == SendOutcome(Ok(writeResult >= 0), handles[path := Live], true)
  {
    if !known || |data| == 0 then SendOutcome(Ok(false), handles, false)
    else if path !in handles && !openOk then SendOutcome(Ok(false), handles, false)
    else if path in handles && handles[path] == Dangling then SendOutcome(Err("hid_write on a closed handle"), handles, false)
    else SendOutcome(Ok(writeResult >= 0), handles[path := Live], true)
  }

  /** `open_device` on a known path: the stored handle is whatever `hid_open_path` returned. */
  function Open(handles: map<string, Handle>, path: string, openOk: bool): (h: map<string, Handle>)
    ensures openOk <==> path in h
    ensures openOk ==> h[path] == Live
    ensures forall p | p != path :: (p in h <==> p in handles) && (p in h ==> h[p] == handles[p])
  {
    if openOk then handles[path := Live] else handles - {path}
  }

  /**
   * `close_device` as written: `hid_close` frees the handle but it
   * stays stored; closing it a second time frees it twice.
   */
  function CloseAsWritten(handles: map<string, Handle>, path: string): (r: Result<map<string, Handle>>)
    ensures r.Err? <==> path in handles && handles[path] == Dangling
    ensures r.Ok? && path in handles ==> path in r.value && r.value[path] == Dangling
  {
    if path !in handles then Ok(handles)
    else if handles[path] == Dangling then Err("hid_close on a closed handle")
    else Ok(handles[path := Dangling])
  }

  /** `close_device` corrected: the handle is closed and no longer stored. */
  function Close(handles: map<string, Handle>, path: string): (h: map<string, Handle>)
    ensures path !in h
    ensures forall p | p != path :: (p in h <==> p in handles) && (p in h ==> h[p] == handles[p])
  {
    handles - {path}
  }

  predicate NoDangling(handles: map<string, Handle>)
  {
    forall p | p in handles :: handles[p] == Live
  }

  /** Opening, closing and writing never leave a freed handle behind when closing clears the stored handle. */
  lemma NoDanglingPreserved(handles: map<string, Handle>, path: string, known: bool, data: seq<Byte>,
                            openOk: bool, writeResult: int)
    requires NoDangling(handles)
    ensures NoDangling(Open(handles, path, openOk))
    ensures NoDangling(Close(handles, path))
    ensures NoDangling(Send(handles, known, path, data, openOk, writeResult).handles)
    ensures Send(handles, known, path, data, openOk, writeResult).result.Ok?
  {
  }

  /** Open, close as written, then send: the write goes to the freed handle. */
  lemma CloseThenSendAsWritten(handles: map<string, Handle>, path: string, data: seq<Byte>, openOk: bool, writeResult: int)
    requires |data| > 0
    ensures CloseAsWritten(Open(handles, path, true), path).Ok?
    ensures Send(CloseAsWritten(Open(handles, path, true), path).value, true, path, data, openOk, writeResult).result.Err?
  {
  }

  /** Open, close with the stored handle cleared, then send: `send_to_path` opens the device again and writes. */
  lemma CloseThenSendReopens(handles: map<string, Handle>, path: string, data: seq<Byte>, writeResult: int)
    requires |data| > 0
    ensures Send(Close(Open(handles, path, true), path), true, path, data, true, writeResult)
            == SendOutcome(Ok(writeResult >= 0), Close(handles, path)[path := Live], true)
  {
  }

  class DeviceEnumerator {
    /** `_deviceList`: the devices of the last enumeration, in the order `hid_enumerate` gave them. */
    var deviceList: seq<HidDeviceInfo>
    /** `_pathMap`: path to index in `deviceList`. */
    var pathMap: map<string, nat>
    /** `_vidpidMap`: combined key to indices in `deviceList`. */
    var vidpidMap: map<nat, seq<nat>>
    /** The non-null `_dev_ptr` of the device each path names. */
    var handles: map<string, Handle>
    /** Every `hid_write` call, with the path and the bytes. */
    var writes: seq<(string, seq<Byte>)>

    /** Both indexes describe the device list; handles exist only for indexed paths. */
    predicate Valid()
      reads this
    {
      pathMap == PathIndex(deviceList) && vidpidMap == KeyIndex(deviceList) && handles.Keys <= pathMap.Keys
    }

    constructor()
      ensures Valid() && deviceList == [] && handles == map[] && writes == []
    {
      deviceList, pathMap, vidpidMap := [], map[], map[];
      handles, writes := map[], [];
    }

    /**
     * `enumerate`: clears the list and both indexes and refills them from
     * `found`, the list `hid_enumerate` returns. The fresh device records
     * carry no handle.
     */
    method Enumerate(found: seq<HidDeviceInfo>)
      modifies this`deviceList, this`pathMap, this`vidpidMap, this`handles
      ensures Valid()
      ensures deviceList == found && handles == map[]
    {
      deviceList, pathMap, vidpidMap := [], map[], map[];
      handles := map[];
      var i := 0;
      while i < |found|
        invariant 0 <= i <= |found|
        invariant deviceList == found[..i] && handles == map[]
        invariant pathMap == PathIndex(found[..i]) && vidpidMap == KeyIndex(found[..i])
      {
        var dev := found[i];
        assert found[..i + 1][..i] == found[..i];
        deviceList := deviceList + [dev];
        pathMap := pathMap[dev.path := i];
        var key := VidPidKey(dev.vendorId, dev.productId);
        vidpidMap := vidpidMap[key := Lookup(vidpidMap, key) + [i]];
        i := i + 1;
      }
      assert found[..i] == found;
    }

    /** `find_by_path`: the last device listed under `path`, or null. */
    function FindByPath(path: string): (r: Option<HidDeviceInfo>)
      reads this
      requires Valid()
      ensures r.None? <==> forall i | 0 <= i < |deviceList| :: deviceList[i].path != path
      ensures r.Some? ==> exists i | 0 <= i < |deviceList| :: deviceList[i] == r.value &&
                            r.value.path == path && forall j | i < j < |deviceList| :: deviceList[j].path != path
    {
      PathIndexKeys(deviceList);
      PathIndexLast(deviceList);
      if path in pathMap then Some(deviceList[pathMap[path]]) else None
    }

    /** `find_by_vidpid`: every device with that vendor and product id, in listing order. */
    method FindByVidPid(vid: U16, pid: U16) returns (results: seq<HidDeviceInfo>)
      requires Valid()
      ensures results == Filter(deviceList, VidPidKey(vid, pid))
      ensures forall d :: d in results <==> d in deviceList && d.vendorId == vid && d.productId == pid
    {
      var key := VidPidKey(vid, pid);
      KeyIndexFilter(deviceList, key);
      FilterExact(deviceList, vid, pid);
      var idx := Lookup(vidpidMap, key);
      results := [];
      var i := 0;
      while i < |idx|
        invariant 0 <= i <= |idx|
        invariant results == Gather(deviceList, idx[..i])
      {
        assert idx[..i + 1][..i] == idx[..i];
        results := results + [deviceList[idx[i]]];
        i := i + 1;
      }
      assert idx[..i] == idx;
    }

    /** `open_device`: dereferences the device `find_by_path` returns, so an unknown path is a null dereference. */
    method OpenDevice(path: string, openOk: bool) returns (r: Result<bool>)
      requires Valid()
      modifies this`handles
      ensures Valid()
      ensures path !in pathMap ==> r.Err? && handles == old(handles)
      ensures path in pathMap ==> r == Ok(openOk) && handles == Open(old(handles), path, openOk)
    {
      if path !in pathMap {
        return Err("null dereference");
      }
      handles := Open(handles, path, openOk);
      return Ok(openOk);
    }

    /** `close_device`, with the stored handle cleared after `hid_close`. */
    method CloseDevice(path: string) returns (r: Result<()>)
      requires Valid()
      modifies this`handles
      ensures Valid()
      ensures path !in pathMap ==> r.Err? && handles == old(handles)
      ensures path in pathMap ==> r == Ok(()) && handles == Close(old(handles), path)
    {
      if path !in pathMap {
        return Err("null dereference");
      }
      handles := Close(handles, path);
      return Ok(());
    }

    /**
     * `send_to_path`: nothing for an unknown path or empty data; opens the
     * device when it has no handle, and fails when that open fails;
     * otherwise succeeds when `hid_write` returns a non-negative count.
     */
    method SendToPath(path: string, data: seq<Byte>, openOk: bool, writeResult: int) returns (r: Result<bool>)
      requires Valid()
      modifies this`handles, this`writes
      ensures Valid()
      ensures var o := Send(old(handles), path in pathMap, path, data, openOk, writeResult);
              r == o.result && handles == o.handles &&
              writes == old(writes) + (if o.written then [(path, data)] else [])
    {
      if path !in pathMap || |data| == 0 {
        return Ok(false);
      }
      if path !in handles {
        var openResult := OpenDevice(path, openOk);
        if !openOk {
          return Ok(false);
        }
      }
      if handles[path] == Dangling {
        return Err("hid_write on a closed handle");
      }
      writes := writes + [(path, data)];
      return Ok(writeResult >= 0);
    }
  }
}
