/**
 When a bundle reconciliation succeeds, and where it stops when it does not. As acceptance
 does not depend on the port, each loop stops at the first port it has to touch, or at none.
 */
module BundleFailures {
  import opened Options
  import opened VlanPort
  import opened VlanTable
  import opened VlanBundle
  import opened PortVlans
  import opened BundlePorts
  import opened BundleFlushes

  // ------------------------------------------------------------------ single ports

  /** Taking a port out of its bundle: the bundle is destroyed iff it had no other port, and else keeps the rest. */
  lemma EmptiedBundleGoes(n: Net, id: HwId)
    requires Linked(n) && id in n.owner
    ensures n.owner[id] in n.bundles
    ensures var (n', b) := (BundleRemove(n, id).n, n.owner[id]);
            && n'.owner == n.owner - {id}
            && (b in n'.bundles <==> exists x :: x in n.bundles[b].ports && x != id)
            && (b in n'.bundles ==>
                  && n'.bundles[b].settings == n.bundles[b].settings && n'.bundles[b].lag == n.bundles[b].lag
                  && forall x :: x in n'.bundles[b].ports <==> x in n.bundles[b].ports && x != id)
            && (forall c :: c in n.bundles && c != b ==> c in n'.bundles && n'.bundles[c] == n.bundles[c])
  {
    BundleRemoveLinked(n, id);
    OwnerHasBundle(n, id);
    var b := n.owner[id];
    NoDupPorts(n, b);
    WithoutElems(n.bundles[b].ports, id);
    hide Linked, DetachVlans, Without, ShadowInv;
    var ports := PortDel(n, id).n.bundles[b].ports;
    if ports != [] {
      assert ports[0] in ports;
    }
  }

  /** Every call of adding a port succeeds, its status included. */
  predicate CanAttach(t: Table, s: Settings)
    requires GoodSettings(s)
  {
    CheckedCallsAccepted(t, s) && (s.mode.NativeTagged? && s.trunks.None? ==> Accepts(t, s.vlan))
  }

  lemma PortAddOkIff(n: Net, b: BundleId, id: HwId)
    requires Linked(n) && b in n.bundles && (id in n.owner ==> n.owner[id] != b) && GoodSettings(n.bundles[b].settings)
    ensures PortAdd(n, b, id).ok <==> CanAttach(n.t, n.bundles[b].settings)
  {
    hide Linked, ShadowInv, AttachVlans, Vacated, GoodSettings;
    VacatedLinked(n, id);
    var n0 := Vacated(n, id);
    AttachOkIff(n0.t, id, n.bundles[b].settings);
    assert forall v: Vid :: Accepts(n0.t, v) <==> Accepts(n.t, v);
  }

  lemma SameCanAttach(t: Table, t': Table, s: Settings)
    requires GoodSettings(s) && t'.hw.Keys == t.hw.Keys && t'.strict == t.strict
    ensures CanAttach(t', s) <==> CanAttach(t, s)
  {
    assert forall v: Vid :: Accepts(t', v) <==> Accepts(t, v);
  }

  // ------------------------------------------------------------------ the loops

  predicate Arrives(ports: seq<HwId>, slaves: seq<HwId>) {
    exists id :: id in slaves && id !in ports
  }

  lemma {:induction false} AddNewOkIff(n: Net, b: BundleId, slaves: seq<HwId>)
    requires Linked(n) && b in n.bundles && GoodSettings(n.bundles[b].settings)
    ensures AddNew(n, b, slaves).ok <==> (Arrives(n.bundles[b].ports, slaves) ==> CanAttach(n.t, n.bundles[b].settings))
  {
    hide Linked, ShadowInv, PortAdd, GoodSettings, CanAttach;
    if slaves != [] {
      var k := |slaves| - 1;
      AddNewOkIff(n, b, slaves[..k]);
      AddNewFrame(n, b, slaves[..k]);
      var r := AddNew(n, b, slaves[..k]);
      assert forall id :: id in slaves <==> id in slaves[..k] || id == slaves[k];
      OwnerOfMember(r.n, b, slaves[k]);
      if r.ok && slaves[k] !in r.n.bundles[b].ports {
        PortAddOkIff(r.n, b, slaves[k]);
        SameCanAttach(n.t, r.n.t, n.bundles[b].settings);
      }
    }
  }

  /**
   A reconciliation reports success iff the switch accepts every VLAN of the old settings, if a
   port departs; every VLAN of both phases of the reconfiguration, if a port stays; and every
   VLAN of the new settings, if a port arrives, but for a native-tagged one whose status a
   trunk call overwrites.
   */
  lemma ReconciliationOkIff(n: Net, b: BundleId, slaves: seq<HwId>, s: Settings)
    requires Linked(n) && b in n.bundles && GoodSettings(s)
    ensures PortsReconfigure(n, b, slaves, s).ok
            <==> GetsThrough(n, b, slaves, s) && (Arrives(n.bundles[b].ports, slaves) ==> CanAttach(n.t, s))
  {
    hide Linked, ShadowInv, DelDeparted, VlanReconfigure, AddNew, Declared, Flushes, GoodSettings, CanLeave, CanJoin,
         CanAttach;
    SettingsAreGood(n, b);
    var bundle := n.bundles[b];
    NoDupPorts(n, b);
    DelDepartedOkIff(n, b, bundle.ports, slaves);
    DelDepartedFrame(n, b, bundle.ports, slaves);
    var gone := DelDeparted(n, bundle.ports, slaves);
    if gone.ok {
      StayingPorts(n, b, slaves);
      ReconfigureVlansLinked(gone.n, b, s);
      ReconfigureStayers(n.t, gone.n.t, gone.n.bundles[b].ports, bundle.settings, s);
      var kept := ReconfigureVlans(gone.n, b, s);
      if kept.ok {
        AddNewOkIff(kept.n, b, slaves);
        SameCanAttach(n.t, kept.n.t, s);
        assert Arrives(kept.n.bundles[b].ports, slaves) <==> Arrives(bundle.ports, slaves);
      }
    }
  }

  /** A failed first loop has removed the first port that departs, and touched nothing else. */
  lemma {:induction false} DepartureStops(n: Net, b: BundleId, ports: seq<HwId>, slaves: seq<HwId>) returns (k: nat)
    requires Linked(n) && b in n.bundles && NoDup(ports) && (forall id :: id in ports ==> id in n.bundles[b].ports)
    requires !DelDeparted(n, ports, slaves).ok
    ensures k < |ports| && ports[k] !in slaves && ports[k] in n.owner && forall j :: 0 <= j < k ==> ports[j] in slaves
    ensures DelDeparted(n, ports, slaves) == PortDel(n, ports[k])
  {
    SettingsAreGood(n, b);
    hide Linked, PortDel, Declared, GoodSettings;
    var m := |ports| - 1;
    DelDepartedOkIff(n, b, ports, slaves);
    DelDepartedOkIff(n, b, ports[..m], slaves);
    if DelDeparted(n, ports[..m], slaves).ok {
      k := m;
      assert !Departs(ports[..m], slaves);
      NoneDeparts(n, ports[..m], slaves);
      OwnerOfMember(n, b, ports[m]);
      forall j | 0 <= j < m ensures ports[j] in slaves {
        assert ports[..m][j] in ports[..m];
      }
    } else {
      k := DepartureStops(n, b, ports[..m], slaves);
      forall j | 0 <= j < k ensures ports[j] in slaves {
        assert ports[..m][j] in slaves;
      }
    }
  }

  lemma {:induction false} NoneDeparts(n: Net, ports: seq<HwId>, slaves: seq<HwId>)
    requires Linked(n) && !Departs(ports, slaves)
    ensures DelDeparted(n, ports, slaves) == NetResult(n, true)
  {
    hide Linked, PortDel;
    if ports != [] {
      var m := |ports| - 1;
      assert ports[m] in ports;
      NoneDeparts(n, ports[..m], slaves);
    }
  }

  /** A failed last loop has added the first slave that was missing, and touched nothing else. */
  lemma {:induction false} ArrivalStops(n: Net, b: BundleId, slaves: seq<HwId>) returns (k: nat)
    requires Linked(n) && b in n.bundles && !AddNew(n, b, slaves).ok
    ensures k < |slaves| && slaves[k] !in n.bundles[b].ports && forall j :: 0 <= j < k ==> slaves[j] in n.bundles[b].ports
    ensures slaves[k] in n.owner ==> n.owner[slaves[k]] != b
    ensures AddNew(n, b, slaves) == PortAdd(n, b, slaves[k])
  {
    SettingsAreGood(n, b);
    hide Linked, PortAdd, CanAttach, GoodSettings;
    var m := |slaves| - 1;
    AddNewOkIff(n, b, slaves);
    AddNewOkIff(n, b, slaves[..m]);
    if AddNew(n, b, slaves[..m]).ok {
      k := m;
      assert !Arrives(n.bundles[b].ports, slaves[..m]);
      assert forall id :: id in slaves[..m] ==> id in n.bundles[b].ports;
      NothingNew(n, b, slaves[..m]);
      OwnerOfMember(n, b, slaves[m]);
      forall j | 0 <= j < m ensures slaves[j] in n.bundles[b].ports {
        assert slaves[..m][j] in slaves[..m];
      }
    } else {
      k := ArrivalStops(n, b, slaves[..m]);
      forall j | 0 <= j < k ensures slaves[j] in n.bundles[b].ports {
        assert slaves[..m][j] in n.bundles[b].ports;
      }
    }
  }

  /** A refused reconfiguration changes nothing but VLANs and attributes: the bundle keeps its old settings, and nothing is flushed. */
  lemma RefusedKeepsSettings(n: Net, b: BundleId, s: Settings)
    requires Linked(n) && b in n.bundles && GoodSettings(s) && !ReconfigureVlans(n, b, s).ok
    ensures GoodSettings(n.bundles[b].settings)
    ensures !(CanLeave(n.t, n.bundles[b].settings, s) && CanJoin(n.t, n.bundles[b].settings, s))
    ensures var n' := ReconfigureVlans(n, b, s).n;
            n'.bundles == n.bundles && n'.owner == n.owner && n'.flushes == n.flushes
  {
    hide Linked, VlanReconfigure, CanLeave, CanJoin, Flushes;
    SettingsAreGood(n, b);
    VlanReconfigureOkIff(n.t, n.bundles[b].ports, n.bundles[b].settings, s);
  }
}
