/**
 * `StreamDockFactory` (C++): the table from (vendor id, product id) to the
 * device class whose creator builds it, filled by the classes' static
 * registrations, and the lookup that builds a device.
 */
module CppFactory {
  import opened Common
  import opened CppTypes
  import opened CppStreamDock
  import CppDevices

  /** The table after registering `regs` in order on top of `m`: each registration overwrites its pair. */
  function RegisterAll(m: map<(U16, U16), DeviceClass>, regs: seq<CppDevices.Registration>): map<(U16, U16), DeviceClass>
    decreases |regs|
  {
    if |regs| == 0 then m
    else RegisterAll(m[CppDevices.KeyOf(regs[0]) := regs[0].cls], regs[1..])
  }

  /** The pairs a run of registrations names. */
  function PairsOf(regs: seq<CppDevices.Registration>): set<(U16, U16)>
  {
    set i | 0 <= i < |regs| :: CppDevices.KeyOf(regs[i])
  }

  /** Registering one more is one more overwrite: the last registration for a pair wins. */
  lemma {:induction false} RegisterAllSnoc(m: map<(U16, U16), DeviceClass>, regs: seq<CppDevices.Registration>, r: CppDevices.Registration)
    ensures RegisterAll(m, regs + [r]) == RegisterAll(m, regs)[CppDevices.KeyOf(r) := r.cls]
    decreases |regs|
  {
    if |regs| == 0 {
      assert regs + [r] == [r];
      assert [r][1..] == [];
    } else {
      assert (regs + [r])[1..] == regs[1..] + [r];
      RegisterAllSnoc(m[CppDevices.KeyOf(regs[0]) := regs[0].cls], regs[1..], r);
    }
  }

  /**
   * The table holds exactly the earlier pairs and the registered ones; a
   * registered pair maps to its class when no two registrations share a
   * pair, and a pair nobody registered keeps its earlier class.
   */
  lemma {:induction false} RegisterAllContents(m: map<(U16, U16), DeviceClass>, regs: seq<CppDevices.Registration>)
    requires CppDevices.PairsDistinct(regs)
    ensures RegisterAll(m, regs).Keys == m.Keys + PairsOf(regs)
    ensures forall i | 0 <= i < |regs| :: RegisterAll(m, regs)[CppDevices.KeyOf(regs[i])] == regs[i].cls
    ensures forall k | k in m && k !in PairsOf(regs) :: RegisterAll(m, regs)[k] == m[k]
    decreases |regs|
  {
    if |regs| > 0 {
      var m' := m[CppDevices.KeyOf(regs[0]) := regs[0].cls];
      var rest := regs[1..];
      assert CppDevices.PairsDistinct(rest) by {
        forall i, j | 0 <= i < |rest| && 0 <= j < |rest| && i != j
          ensures CppDevices.KeyOf(rest[i]) != CppDevices.KeyOf(rest[j])
        {
          assert rest[i] == regs[i + 1] && rest[j] == regs[j + 1];
        }
      }
      RegisterAllContents(m', rest);
      assert PairsOf(regs) == {CppDevices.KeyOf(regs[0])} + PairsOf(rest) by {
        forall k | k in PairsOf(regs) ensures k in {CppDevices.KeyOf(regs[0])} + PairsOf(rest) {
          var i :| 0 <= i < |regs| && CppDevices.KeyOf(regs[i]) == k;
          if i > 0 {
            assert rest[i - 1] == regs[i];
          }
        }
        forall k | k in PairsOf(rest) ensures k in PairsOf(regs) {
          var i :| 0 <= i < |rest| && CppDevices.KeyOf(rest[i]) == k;
          assert rest[i] == regs[i + 1];
        }
      }
      assert CppDevices.KeyOf(regs[0]) !in PairsOf(rest) by {
        forall i | 0 <= i < |rest| ensures CppDevices.KeyOf(rest[i]) != CppDevices.KeyOf(regs[0]) {
          assert rest[i] == regs[i + 1];
        }
      }
      forall i | 0 <= i < |regs| ensures RegisterAll(m, regs)[CppDevices.KeyOf(regs[i])] == regs[i].cls {
        if i > 0 {
          assert rest[i - 1] == regs[i];
        }
      }
    }
  }

  class StreamDockFactory {
    /** `deviceMap`: (vendor id, product id) to the class its creator builds. */
    var deviceMap: map<(U16, U16), DeviceClass>

    constructor()
      ensures deviceMap == map[]
    {
      deviceMap := map[];
    }

    /** `registerDevice`: a later registration for the same pair replaces the earlier one. */
    method RegisterDevice(vid: U16, pid: U16, cls: DeviceClass)
      modifies this`deviceMap
      ensures deviceMap == old(deviceMap)[(vid, pid) := cls]
    {
      deviceMap := deviceMap[(vid, pid) := cls];
    }

    /** `exist`. */
    predicate Exist(vid: U16, pid: U16)
      reads this`deviceMap
    {
      (vid, pid) in deviceMap
    }

    /**
     * `create`: null for a pair nobody registered, otherwise the device its
     * creator builds, constructed, initialised and given its image helpers.
     */
    method Create(vid: U16, pid: U16, device: HidDeviceInfo, canWrite: bool, firmware: string) returns (d: StreamDock?)
      ensures d == null <==> !Exist(vid, pid)
      ensures d != null ==> fresh(d) && d.cls == deviceMap[(vid, pid)] &&
                            d.readValueMap == CppDevices.ReadValueMapOf(d.cls) && d.deviceFirmware == firmware &&
                            d.info == CppDevices.InfoOf(d.cls, device.vendorId, device.productId, device.serialNumber) &&
                            d.feature == CppDevices.ConstructedFeature(d.cls, firmware) &&
                            d.canWrite == canWrite && d.log == []
    {
      if (vid, pid) in deviceMap {
        d := CppDevices.Construct(deviceMap[(vid, pid)], device, canWrite, firmware);
      } else {
        d := null;
      }
    }

    /** The classes' static registrations, run one after the other. */
    method RegisterDevices(regs: seq<CppDevices.Registration>)
      modifies this`deviceMap
      ensures deviceMap == RegisterAll(old(deviceMap), regs)
    {
      var i := 0;
      while i < |regs|
        invariant 0 <= i <= |regs|
        invariant deviceMap == RegisterAll(old(deviceMap), regs[..i])
      {
        RegisterAllSnoc(old(deviceMap), regs[..i], regs[i]);
        assert regs[..i + 1] == regs[..i] + [regs[i]];
        RegisterDevice(regs[i].vid, regs[i].pid, regs[i].cls);
        i := i + 1;
      }
      assert regs[..i] == regs;
    }
  }

  /**
   * After the static registrations every registered pair exists and names
   * its own class, and nothing else exists.
   */
  lemma FactoryTable(regs: seq<CppDevices.Registration>)
    requires regs == CppDevices.Registrations
    ensures RegisterAll(map[], regs).Keys == PairsOf(regs)
    ensures forall i | 0 <= i < |regs| :: RegisterAll(map[], regs)[CppDevices.KeyOf(regs[i])] == regs[i].cls
  {
    CppDevices.RegistrationsDistinct();
    hide CppDevices.Registrations;
    RegisterAllContents(map[], regs);
  }

  /**
   * When no two registrations share a pair, the order in which they run
   * (the order the translation units are initialised in) does not change
   * the table.
   */
  lemma RegistrationOrderIrrelevant(m: map<(U16, U16), DeviceClass>, o1: seq<CppDevices.Registration>, o2: seq<CppDevices.Registration>)
    requires CppDevices.PairsDistinct(o1) && CppDevices.PairsDistinct(o2)
    requires forall r :: r in o1 <==> r in o2
    ensures RegisterAll(m, o1) == RegisterAll(m, o2)
  {
    RegisterAllContents(m, o1);
    RegisterAllContents(m, o2);
    assert PairsOf(o1) == PairsOf(o2) by {
      forall k | k in PairsOf(o1) ensures k in PairsOf(o2) {
        var i :| 0 <= i < |o1| && CppDevices.KeyOf(o1[i]) == k;
        assert o1[i] in o2;
        var j :| 0 <= j < |o2| && o2[j] == o1[i];
      }
      forall k | k in PairsOf(o2) ensures k in PairsOf(o1) {
        var j :| 0 <= j < |o2| && CppDevices.KeyOf(o2[j]) == k;
        assert o2[j] in o1;
        var i :| 0 <= i < |o1| && o1[i] == o2[j];
      }
    }
    forall k | k in RegisterAll(m, o1) ensures RegisterAll(m, o1)[k] == RegisterAll(m, o2)[k] {
      if k in PairsOf(o1) {
        var i :| 0 <= i < |o1| && CppDevices.KeyOf(o1[i]) == k;
        assert o1[i] in o2;
        var j :| 0 <= j < |o2| && o2[j] == o1[i];
      }
    }
  }
}
