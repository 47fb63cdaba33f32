/**
 * `DeviceManager` (C++): the table from HID path to device object, filled
 * by `enumerator` from the devices the enumerator lists and the factory
 * can build, and the macOS listener's polling pass, which diffs the
 * accepted paths against the previous pass.
 */
module CppDeviceManager {
  import opened Common
  import opened CppTypes
  import opened CppStreamDock
  import CppDevices
  import CppFactory
  import CppDeviceEnumerator

  type Table = map<(U16, U16), DeviceClass>

  /** The filter both `enumerator` and the listener apply: a registered pair on the vendor usage. */
  predicate Accepted(dev: HidDeviceInfo, table: Table)
  {
    (dev.vendorId, dev.productId) in table && IsStreamDockHidDeviceUsage(dev)
  }

  /** The paths of the accepted devices in `devs`. */
  function AcceptedPaths(devs: seq<HidDeviceInfo>, table: Table): set<string>
  {
    set i | 0 <= i < |devs| && Accepted(devs[i], table) :: devs[i].path
  }

  /**
   * What `enumerator` adds to a table already holding `known`: for each
   * accepted path it does not hold, the first device listed under it.
   */
  function Adopted(known: set<string>, devs: seq<HidDeviceInfo>, table: Table): map<string, HidDeviceInfo>
    decreases |devs|
  {
    if |devs| == 0 then map[]
    else
      var prev := Adopted(known, devs[..|devs| - 1], table);
      var d := devs[|devs| - 1];
      if Accepted(d, table) && d.path !in known && d.path !in prev then prev[d.path := d] else prev
  }

  /** One more listed device adds its path to the accepted ones when it passes the filter. */
  lemma AcceptedPathsSnoc(devs: seq<HidDeviceInfo>, d: HidDeviceInfo, table: Table)
    ensures AcceptedPaths(devs + [d], table) == AcceptedPaths(devs, table) + (if Accepted(d, table) then {d.path} else {})
  {
    var ext := devs + [d];
    forall p | p in AcceptedPaths(ext, table)
      ensures p in AcceptedPaths(devs, table) + (if Accepted(d, table) then {d.path} else {})
    {
      var i :| 0 <= i < |ext| && Accepted(ext[i], table) && ext[i].path == p;
      if i < |devs| {
        assert ext[i] == devs[i];
      }
    }
    forall p | p in AcceptedPaths(devs, table) ensures p in AcceptedPaths(ext, table) {
      var i :| 0 <= i < |devs| && Accepted(devs[i], table) && devs[i].path == p;
      assert ext[i] == devs[i];
    }
    if Accepted(d, table) {
      assert ext[|devs|] == d;
    }
  }

  /** One more listed device is adopted when it passes the filter and its path is new. */
  lemma AdoptedSnoc(known: set<string>, done: seq<HidDeviceInfo>, d: HidDeviceInfo, table: Table)
    ensures Adopted(known, done + [d], table) ==
            if Accepted(d, table) && d.path !in known && d.path !in Adopted(known, done, table)
            then Adopted(known, done, table)[d.path := d] else Adopted(known, done, table)
  {
    assert (done + [d])[..|done|] == done;
  }

  /** `enumerator` adds exactly the accepted paths it did not hold, each under its own path and accepted. */
  lemma {:induction false} AdoptedKeys(known: set<string>, devs: seq<HidDeviceInfo>, table: Table)
    ensures Adopted(known, devs, table).Keys == AcceptedPaths(devs, table) - known
    ensures forall p | p in Adopted(known, devs, table) ::
              Adopted(known, devs, table)[p].path == p && Accepted(Adopted(known, devs, table)[p], table)
    decreases |devs|
  {
    if |devs| > 0 {
      var prefix := devs[..|devs| - 1];
      var d := devs[|devs| - 1];
      AdoptedKeys(known, prefix, table);
      assert devs == prefix + [d];
      AcceptedPathsSnoc(prefix, d, table);
    }
  }

  /** Of several accepted devices listed under one path, `enumerator` keeps the first. */
  lemma {:induction false} AdoptedFirst(known: set<string>, devs: seq<HidDeviceInfo>, table: Table)
    ensures forall p | p in Adopted(known, devs, table) ::
              exists i | 0 <= i < |devs| :: devs[i] == Adopted(known, devs, table)[p] &&
                forall j | 0 <= j < i :: !(Accepted(devs[j], table) && devs[j].path == p)
    decreases |devs|
  {
    if |devs| > 0 {
      var prefix := devs[..|devs| - 1];
      var last := |devs| - 1;
      var d := devs[last];
      var prev := Adopted(known, prefix, table);
      AdoptedFirst(known, prefix, table);
      AdoptedKeys(known, prefix, table);
      forall p | p in Adopted(known, devs, table)
        ensures exists i | 0 <= i < |devs| :: devs[i] == Adopted(known, devs, table)[p] &&
                  forall j | 0 <= j < i :: !(Accepted(devs[j], table) && devs[j].path == p)
      {
        if p in prev {
          var i :| 0 <= i < |prefix| && prefix[i] == prev[p] &&
                   forall j | 0 <= j < i :: !(Accepted(prefix[j], table) && prefix[j].path == p);
          assert devs[i] == prefix[i];
          forall j | 0 <= j < i ensures !(Accepted(devs[j], table) && devs[j].path == p) {
            assert devs[j] == prefix[j];
          }
        } else {
          assert p == d.path && Adopted(known, devs, table)[p] == d;
          forall j | 0 <= j < last ensures !(Accepted(devs[j], table) && devs[j].path == p) {
            assert devs[j] == prefix[j];
          }
        }
      }
    }
  }

  /** Running `enumerator` again over the same devices adds nothing. */
  lemma EnumeratorIdempotent(known: set<string>, devs: seq<HidDeviceInfo>, table: Table)
    ensures Adopted(known + Adopted(known, devs, table).Keys, devs, table) == map[]
  {
    AdoptedKeys(known, devs, table);
    AdoptedKeys(known + Adopted(known, devs, table).Keys, devs, table);
  }

  /**
   * The state `enumerator` leaves an adopted device in: an object of the
   * class the factory registered for its pair (built as `create` states),
   * carrying the device's identity, untouched by any command, with the
   * firmware version written back into its description.
   */
  predicate Built(d: StreamDock, dev: HidDeviceInfo, table: Table, canWrite: bool, firmware: string)
    reads d
    requires (dev.vendorId, dev.productId) in table
  {
    d.cls == table[(dev.vendorId, dev.productId)] && d.deviceFirmware == firmware && d.canWrite == canWrite &&
    d.info.vendorId == dev.vendorId && d.info.productId == dev.productId && d.info.serialNumber == dev.serialNumber &&
    d.info.firmwareVersion == firmware && d.log == []
  }

  /** The paths the device table holds after one listener pass. */
  function CycleKeys(held: set<string>, current: set<string>, found: seq<HidDeviceInfo>,
                     foundAgain: seq<HidDeviceInfo>, table: Table): set<string>
  {
    var accepted := AcceptedPaths(found, table);
    var kept := held - (current - accepted);
    if accepted - current == {} then kept else kept + Adopted(kept, foundAgain, table).Keys
  }

  /**
   * When the table and the listener agree at the start of a pass and both
   * enumerations of the pass see the same devices, they agree at its end:
   * the table holds exactly the accepted paths, added ones included.
   */
  lemma ListenerInSync(held: set<string>, found: seq<HidDeviceInfo>, table: Table)
    ensures CycleKeys(held, held, found, found, table) == AcceptedPaths(found, table)
  {
    var accepted := AcceptedPaths(found, table);
    var kept := held - (held - accepted);
    assert kept == held * accepted;
    AdoptedKeys(kept, found, table);
    if accepted - held == {} {
      forall x | x in accepted ensures x in held {
        assert x !in accepted - held;
      }
    }
  }

  /** A path the devices no longer show leaves the table in the same pass, whatever else happens. */
  lemma RemovedLeave(held: set<string>, current: set<string>, found: seq<HidDeviceInfo>,
                     foundAgain: seq<HidDeviceInfo>, table: Table, p: string)
    requires p in current && p !in AcceptedPaths(found, table) && p !in AcceptedPaths(foundAgain, table)
    ensures p !in CycleKeys(held, current, found, foundAgain, table)
  {
    var accepted := AcceptedPaths(found, table);
    AdoptedKeys(held - (current - accepted), foundAgain, table);
  }

  class DeviceManager {
    /** `streamdocks_`: HID path to device object. */
    var streamdocks: map<string, StreamDock>
    const factory: CppFactory.StreamDockFactory
    const enumerator: CppDeviceEnumerator.DeviceEnumerator
    /** `isListening_`. */
    var listening: bool
    /** The listener's `currentDevicePaths`. */
    var currentPaths: set<string>

    constructor(factory: CppFactory.StreamDockFactory, enumerator: CppDeviceEnumerator.DeviceEnumerator)
      ensures this.factory == factory && this.enumerator == enumerator
      ensures streamdocks == map[] && !listening && currentPaths == {}
    {
      this.factory := factory;
      this.enumerator := enumerator;
      streamdocks := map[];
      listening := false;
      currentPaths := {};
    }

    /**
     * `enumerator`: re-enumerates, then for each accepted device whose path
     * the table does not hold, builds the device, writes its firmware
     * version into its description and stores it under its path. Devices
     * already held are left as they are. `canWrite` and `firmware` stand
     * for the transport's answers for each path.
     */
    method Enumerator(found: seq<HidDeviceInfo>, canWrite: string -> bool, firmware: string -> string)
      modifies this`streamdocks, enumerator`deviceList, enumerator`pathMap, enumerator`vidpidMap, enumerator`handles
      ensures enumerator.Valid() && enumerator.deviceList == found
      ensures streamdocks.Keys == old(streamdocks).Keys + Adopted(old(streamdocks).Keys, found, factory.deviceMap).Keys
      ensures forall p | p in old(streamdocks) :: streamdocks[p] == old(streamdocks)[p]
      ensures forall p | p in Adopted(old(streamdocks).Keys, found, factory.deviceMap) ::
                var dev := Adopted(old(streamdocks).Keys, found, factory.deviceMap)[p];
                (dev.vendorId, dev.productId) in factory.deviceMap &&
                fresh(streamdocks[p]) && Built(streamdocks[p], dev, factory.deviceMap, canWrite(p), firmware(p))
    {
      enumerator.Enumerate(found);
      ghost var known := streamdocks.Keys;
      var devices := enumerator.deviceList;
      var i := 0;
      assert Adopted(known, devices[..0], factory.deviceMap) == map[];
      hide Adopted, Built;
      while i < |devices|
        modifies this`streamdocks
        invariant 0 <= i <= |devices|
        invariant streamdocks.Keys == known + Adopted(known, devices[..i], factory.deviceMap).Keys
        invariant forall p | p in old(streamdocks) :: streamdocks[p] == old(streamdocks)[p]
        invariant forall p | p in Adopted(known, devices[..i], factory.deviceMap) ::
                    var dev := Adopted(known, devices[..i], factory.deviceMap)[p];
                    (dev.vendorId, dev.productId) in factory.deviceMap &&
                    fresh(streamdocks[p]) && Built(streamdocks[p], dev, factory.deviceMap, canWrite(p), firmware(p))
      {
        assert devices[..i + 1] == devices[..i] + [devices[i]];
        AdoptedSnoc(known, devices[..i], devices[i], factory.deviceMap);
        AdoptDevice(devices[i], canWrite(devices[i].path), firmware(devices[i].path), known, devices[..i]);
        i := i + 1;
      }
      assert devices[..i] == found;
    }

    /**
     * One pass of `enumerator`'s loop: an accepted device whose path the
     * table does not hold is built, given its firmware version and stored.
     */
    method AdoptDevice(device: HidDeviceInfo, canWrite: bool, firmware: string,
                       ghost known: set<string>, ghost done: seq<HidDeviceInfo>)
      requires streamdocks.Keys == known + Adopted(known, done, factory.deviceMap).Keys
      modifies this`streamdocks
      ensures streamdocks.Keys == known + Adopted(known, done + [device], factory.deviceMap).Keys
      ensures forall p | p in old(streamdocks) :: streamdocks[p] == old(streamdocks)[p]
      ensures Accepted(device, factory.deviceMap) && device.path !in old(streamdocks) ==>
                device.path in streamdocks && fresh(streamdocks[device.path]) &&
                Built(streamdocks[device.path], device, factory.deviceMap, canWrite, firmware)
    {
      AdoptedSnoc(known, done, device, factory.deviceMap);
      if factory.Exist(device.vendorId, device.productId) && IsStreamDockHidDeviceUsage(device) {
        if device.path !in streamdocks {
          var dock := BuildDock(device, canWrite, firmware);
          if dock != null {
            streamdocks := streamdocks[device.path := dock];
          }
        }
      }
    }

    /** `create`, then the firmware version read back into the new device's description. */
    method BuildDock(device: HidDeviceInfo, canWrite: bool, firmware: string) returns (dock: StreamDock?)
      ensures dock == null <==> (device.vendorId, device.productId) !in factory.deviceMap
      ensures dock != null ==> fresh(dock) && Built(dock, device, factory.deviceMap, canWrite, firmware)
    {
      dock := factory.Create(device.vendorId, device.productId, device, canWrite, firmware);
      if dock != null {
        CppDevices.InfoWellFormed(dock.cls, device.vendorId, device.productId, device.serialNumber);
        dock.info := dock.info.(firmwareVersion := dock.FirmwareVersion());
      }
    }

    /** `listen`, before its thread's first pass: the listener starts from the paths the table holds. */
    method Listen()
      modifies this`listening, this`currentPaths
      ensures listening && currentPaths == streamdocks.Keys
    {
      listening := true;
      currentPaths := streamdocks.Keys;
    }

    /** `stopListen`: the flag the listener's loop tests. */
    method StopListen()
      modifies this`listening
      ensures !listening
    {
      listening := false;
    }

    /**
     * One pass of the macOS listener. `found` is what the pass's own
     * enumeration lists and `foundAgain` what `enumerator` lists when it
     * is called for added paths. Paths no longer accepted are dropped from
     * the table; if any path is new, `enumerator` runs and every new path
     * it now holds is handed to the callback once (when there is one); the
     * accepted paths become the listener's current ones.
     */
    method PollCycle(found: seq<HidDeviceInfo>, foundAgain: seq<HidDeviceInfo>, hasCallback: bool,
                     canWrite: string -> bool, firmware: string -> string) returns (connected: seq<string>)
      modifies this`streamdocks, this`currentPaths
      modifies enumerator`deviceList, enumerator`pathMap, enumerator`vidpidMap, enumerator`handles
      ensures currentPaths == AcceptedPaths(found, factory.deviceMap)
      ensures streamdocks.Keys == CycleKeys(old(streamdocks).Keys, old(currentPaths), found, foundAgain, factory.deviceMap)
      ensures forall p | p in old(streamdocks) && (p in currentPaths || p !in old(currentPaths)) ::
                p in streamdocks && streamdocks[p] == old(streamdocks)[p]
      ensures forall i, j | 0 <= i < j < |connected| :: connected[i] != connected[j]
      ensures forall p :: p in connected <==> hasCallback && p in currentPaths && p !in old(currentPaths) && p in streamdocks
      ensures enumerator.Valid()
      ensures enumerator.deviceList == (if AcceptedPaths(found, factory.deviceMap) - old(currentPaths) != {} then foundAgain else found)
      ensures AcceptedPaths(found, factory.deviceMap) - old(currentPaths) != {} ==>
                var kept := old(streamdocks).Keys - (old(currentPaths) - AcceptedPaths(found, factory.deviceMap));
                forall p | p in Adopted(kept, foundAgain, factory.deviceMap) ::
                  var dev := Adopted(kept, foundAgain, factory.deviceMap)[p];
                  (dev.vendorId, dev.productId) in factory.deviceMap &&
                  fresh(streamdocks[p]) && Built(streamdocks[p], dev, factory.deviceMap, canWrite(p), firmware(p))
    {
      enumerator.Enumerate(found);
      var newPaths := ScanAccepted(enumerator.deviceList);
      var added := newPaths - currentPaths;
      var removed := currentPaths - newPaths;
      streamdocks := streamdocks - removed;
      assert streamdocks.Keys == old(streamdocks).Keys - removed;
      connected := [];
      if added != {} {
        Enumerator(foundAgain, canWrite, firmware);
        connected := Announce(added, hasCallback);
      } else {
        forall p | p in newPaths ensures p in currentPaths {
          assert p !in added;
        }
      }
      currentPaths := newPaths;
    }

    /** The listener's scan: the paths of the accepted devices. */
    method ScanAccepted(devices: seq<HidDeviceInfo>) returns (paths: set<string>)
      ensures paths == AcceptedPaths(devices, factory.deviceMap)
    {
      paths := {};
      var i := 0;
      while i < |devices|
        invariant 0 <= i <= |devices|
        invariant paths == AcceptedPaths(devices[..i], factory.deviceMap)
      {
        AcceptedPathsSnoc(devices[..i], devices[i], factory.deviceMap);
        assert devices[..i + 1] == devices[..i] + [devices[i]];
        if factory.Exist(devices[i].vendorId, devices[i].productId) && IsStreamDockHidDeviceUsage(devices[i]) {
          paths := paths + {devices[i].path};
        }
        i := i + 1;
      }
      assert devices[..i] == devices;
    }

    /** The callback round: each added path the table now holds is handed on once, in some order. */
    method Announce(added: set<string>, hasCallback: bool) returns (connected: seq<string>)
      ensures forall i, j | 0 <= i < j < |connected| :: connected[i] != connected[j]
      ensures forall p :: p in connected <==> hasCallback && p in added && p in streamdocks
    {
      connected := [];
      var rest := added;
      while rest != {}
        invariant rest <= added
        invariant forall i, j | 0 <= i < j < |connected| :: connected[i] != connected[j]
        invariant forall p :: p in connected <==> hasCallback && p in added && p !in rest && p in streamdocks
        decreases |rest|
      {
        var p :| p in rest;
        if hasCallback && p in streamdocks {
          connected := connected + [p];
        }
        rest := rest - {p};
      }
    }
  }
}
