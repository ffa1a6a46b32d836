/**
 The imperative bundle code of the ofproto provider: bitmap algebra, the loops over a
 bundle's ports with their early exits, and the two reconciliation loops, proved against
 the functions of VlanBundle and BundlePorts.
 */
module BundleManager {
  import opened Options
  import opened VlanPort
  import opened VlanTable
  import opened VlanBundle
  import opened PortVlans
  import opened BundlePorts
  import opened VlanManager

  lemma {:induction false} LeavePortsFailed(t: Table, ports: seq<HwId>, was: Settings, s: Settings, k: nat)
    requires WellFormed(was) && k <= |ports| && !LeavePorts(t, ports[..k], was, s).ok
    ensures LeavePorts(t, ports, was, s) == LeavePorts(t, ports[..k], was, s)
  {
    if k < |ports| {
      var n := |ports| - 1;
      assert ports[..n][..k] == ports[..k];
      LeavePortsFailed(t, ports[..n], was, s, k);
    } else {
      assert ports[..k] == ports;
    }
  }

  lemma {:induction false} JoinPortsFailed(t: Table, ports: seq<HwId>, was: Settings, s: Settings, k: nat)
    requires WellFormed(s) && k <= |ports| && !JoinPorts(t, ports[..k], was, s).ok
    ensures JoinPorts(t, ports, was, s) == JoinPorts(t, ports[..k], was, s)
  {
    if k < |ports| {
      var n := |ports| - 1;
      assert ports[..n][..k] == ports[..k];
      JoinPortsFailed(t, ports[..n], was, s, k);
    } else {
      assert ports[..k] == ports;
    }
  }

  lemma {:induction false} DelDepartedFailed(n: Net, ports: seq<HwId>, slaves: seq<HwId>, k: nat)
    requires Linked(n) && k <= |ports| && !DelDeparted(n, ports[..k], slaves).ok
    ensures DelDeparted(n, ports, slaves) == DelDeparted(n, ports[..k], slaves)
  {
    hide Linked;
    if k < |ports| {
      assert ports[..|ports| - 1][..k] == ports[..k];
      DelDepartedFailed(n, ports[..|ports| - 1], slaves, k);
    } else {
      assert ports[..k] == ports;
    }
  }

  lemma {:induction false} AddNewFailed(n: Net, b: BundleId, slaves: seq<HwId>, k: nat)
    requires Linked(n) && b in n.bundles && k <= |slaves| && !AddNew(n, b, slaves[..k]).ok
    ensures AddNew(n, b, slaves) == AddNew(n, b, slaves[..k])
  {
    hide Linked;
    if k < |slaves| {
      assert slaves[..|slaves| - 1][..k] == slaves[..k];
      AddNewFailed(n, b, slaves[..|slaves| - 1], k);
    } else {
      assert slaves[..k] == slaves;
    }
  }

  class Bundles {
    const vlans: Vlans
    var bundles: map<BundleId, Bundle>
    var owner: map<HwId, BundleId>
    var flushes: seq<Flush>

    ghost predicate Valid()
      reads this, vlans, vlans.allVlanMember
    {
      vlans.Valid() && Linked(N())
    }

    ghost function N(): Net
      requires vlans.Valid()
      reads this, vlans, vlans.allVlanMember
    {
      Net(vlans.T(), bundles, owner, flushes)
    }

    constructor (strict: bool)
      ensures Valid() && fresh(vlans) && fresh(vlans.allVlanMember) && Reconciled(N()) && ShadowInv(N().t)
    {
      vlans := new Vlans(strict);
      bundles, owner, flushes := map[], map[], [];
    }

    // ---------------------------------------------------------------- VLANs of the ports

    /** One port of the removal loops of __vlan_reconfigure. */
    method LeavePort(id: HwId, was: Settings, s: Settings, removed: Bitmap) returns (ok: bool)
      requires vlans.Valid() && WellFormed(was) && removed == RemovedTrunks(was, s)
      modifies vlans, vlans.allVlanMember
      ensures vlans.Valid() && Result(vlans.T(), ok) == LeaveOne(old(vlans.T()), id, was, s)
    {
      hide RemovedTrunks, VlanTable.AccessPortDel, VlanTable.NativeTaggedVlanSet, VlanTable.TrunksPortDel;
      ok := true;
      match was.mode
      case Access =>
        if Changed(was, s) {
          ok := vlans.AccessPortDel(was.vlan, id);
        }
      case Trunk =>
        ok := vlans.TrunksPortDel(removed, id);
      case NativeUntagged =>
        if Changed(was, s) {
          ok := vlans.AccessPortDel(was.vlan, id);
        }
        if ok {
          ok := vlans.TrunksPortDel(removed, id);
        }
      case NativeTagged =>
        if Changed(was, s) {
          ok := vlans.NativeTaggedVlanSet(was.vlan, id, false);
        }
        if ok {
          ok := vlans.TrunksPortDel(removed, id);
        }
    }

    /** One port of the addition loops. */
    method JoinPort(id: HwId, was: Settings, s: Settings, added: Bitmap) returns (ok: bool)
      requires vlans.Valid() && WellFormed(s) && added == AddedTrunks(was, s)
      modifies vlans, vlans.allVlanMember
      ensures vlans.Valid() && Result(vlans.T(), ok) == JoinOne(old(vlans.T()), id, was, s)
    {
      hide AddedTrunks, VlanTable.AccessPortAdd, VlanTable.NativeTaggedVlanSet, VlanTable.TrunksPortAdd;
      ok := true;
      match s.mode
      case Access =>
        if Changed(was, s) {
          ok := vlans.AccessPortAdd(s.vlan, id);
        }
      case Trunk =>
        ok := vlans.TrunksPortAdd(added, id);
      case NativeUntagged =>
        if Changed(was, s) {
          ok := vlans.AccessPortAdd(s.vlan, id);
        }
        if ok {
          ok := vlans.TrunksPortAdd(added, id);
        }
      case NativeTagged =>
        if Changed(was, s) {
          ok := vlans.NativeTaggedVlanSet(s.vlan, id, true);
          if ok {
            var a := vlans.GetPortAttrs(id);
            vlans.SetPortAttrs(id, a.(pvidUntag := false));
          }
        }
        if ok {
          ok := vlans.TrunksPortAdd(added, id);
        }
    }

    method LeaveAll(ports: seq<HwId>, was: Settings, s: Settings, removed: Bitmap) returns (ok: bool)
      requires vlans.Valid() && WellFormed(was) && removed == RemovedTrunks(was, s)
      modifies vlans, vlans.allVlanMember
      ensures vlans.Valid() && Result(vlans.T(), ok) == LeavePorts(old(vlans.T()), ports, was, s)
    {
      hide LeaveOne, RemovedTrunks;
      ok := true;
      for i := 0 to |ports|
        invariant vlans.Valid() && ok
        invariant Result(vlans.T(), true) == LeavePorts(old(vlans.T()), ports[..i], was, s)
      {
        assert ports[..i + 1][..i] == ports[..i];
        ok := LeavePort(ports[i], was, s, removed);
        if !ok {
          LeavePortsFailed(old(vlans.T()), ports, was, s, i + 1);
          return;
        }
      }
      assert ports[..|ports|] == ports;
    }

    method JoinAll(ports: seq<HwId>, was: Settings, s: Settings, added: Bitmap) returns (ok: bool)
      requires vlans.Valid() && WellFormed(s) && added == AddedTrunks(was, s)
      modifies vlans, vlans.allVlanMember
      ensures vlans.Valid() && Result(vlans.T(), ok) == JoinPorts(old(vlans.T()), ports, was, s)
    {
      hide JoinOne, AddedTrunks;
      ok := true;
      for i := 0 to |ports|
        invariant vlans.Valid() && ok
        invariant Result(vlans.T(), true) == JoinPorts(old(vlans.T()), ports[..i], was, s)
      {
        assert ports[..i + 1][..i] == ports[..i];
        ok := JoinPort(ports[i], was, s, added);
        if !ok {
          JoinPortsFailed(old(vlans.T()), ports, was, s, i + 1);
          return;
        }
      }
      assert ports[..|ports|] == ports;
    }

    /** The bitmap part of __vlan_reconfigure, on mutable bitmaps. */
    method TrunkBitmaps(was: Settings, s: Settings) returns (added: Bitmap, removed: Bitmap)
      requires WellFormed(was) && WellFormed(s)
      ensures added == AddedTrunks(was, s) && removed == RemovedTrunks(was, s)
    {
      var common: Bitmap;
      added, common, removed := {}, {}, {};
      if s.trunks.Some? {
        added := added + s.trunks.value;
      }
      if was.trunks.Some? {
        removed := removed + was.trunks.value;
      }
      common := common + added;
      common := common * removed;
      removed := Not(removed);
      removed := removed + common;
      removed := Not(removed);
      added := Not(added);
      added := added + common;
      added := Not(added);
      if was.mode.NativeUntagged? || was.mode.NativeTagged? {
        removed := removed - {was.vlan};
        if s.trunks.Some? && was.vlan in s.trunks.value {
          added := added + {was.vlan};
        }
      }
      if s.mode.NativeUntagged? || s.mode.NativeTagged? {
        added := added - {s.vlan};
      }
    }

    /** __vlan_reconfigure */
    method VlanReconfigureBundle(b: BundleId, s: Settings) returns (ok: bool)
      requires Valid() && b in bundles && GoodSettings(s)
      modifies this`bundles, this`flushes, vlans, vlans.allVlanMember
      ensures Valid() && NetResult(N(), ok) == ReconfigureVlans(old(N()), b, s)
    {
      hide LeavePorts, JoinPorts, AddedTrunks, RemovedTrunks, Linked;
      ghost var n := N();
      var bundle := bundles[b];
      SettingsAreGood(n, b);
      ReconfigureVlansLinked(n, b, s);
      var added, removed := TrunkBitmaps(bundle.settings, s);
      ok := LeaveAll(bundle.ports, bundle.settings, s, removed);
      if ok {
        ok := JoinAll(bundle.ports, bundle.settings, s, added);
      }
      if ok {
        var news: seq<Flush> := [];
        if Changed(bundle.settings, s) {
          if bundle.lag.Some? {
            news := [ByTrunk(bundle.lag.value)];
          } else {
            news := FlushEach(bundle.ports);
          }
        } else if removed != {} {
          news := FlushEach(bundle.ports);
        }
        flushes := flushes + news;
        bundles := bundles[b := bundle.(settings := s)];
      }
    }

    /** The flush loop over the ports. */
    method FlushEach(ports: seq<HwId>) returns (news: seq<Flush>)
      ensures news == seq(|ports|, i requires 0 <= i < |ports| => ByPort(ports[i]))
    {
      news := [];
      for i := 0 to |ports|
        invariant |news| == i && forall j :: 0 <= j < i ==> news[j] == ByPort(ports[j])
      {
        news := news + [ByPort(ports[i])];
      }
    }

    // ---------------------------------------------------------------- ports of the bundles

    /** __ofbundle_port_del */
    method DelPort(id: HwId) returns (ok: bool)
      requires Valid() && id in owner
      modifies this`bundles, this`owner, vlans, vlans.allVlanMember
      ensures Valid() && NetResult(N(), ok) == PortDel(old(N()), id)
    {
      hide Linked, VlanTable.AccessPortDel, VlanTable.TrunksPortDel;
      ghost var n := N();
      PortDelLinked(n, id);
      OwnerExists(n, id);
      var b := owner[id];
      var bundle := bundles[b];
      ok := true;
      if bundle.settings.vlan != -1 {
        ok := vlans.AccessPortDel(bundle.settings.vlan, id);
      }
      if ok && bundle.settings.trunks.Some? {
        ok := vlans.TrunksPortDel(bundle.settings.trunks.value, id);
      }
      bundles := bundles[b := bundle.(ports := Without(bundle.ports, id))];
      owner := owner - {id};
    }

    /** __bundle_remove */
    method RemoveFromBundle(id: HwId)
      requires Valid() && id in owner
      modifies this`bundles, this`owner, vlans, vlans.allVlanMember
      ensures Valid() && N() == BundleRemove(old(N()), id).n
    {
      hide Linked, PortDel;
      ghost var n := N();
      BundleRemoveLinked(n, id);
      OwnerExists(n, id);
      var b := owner[id];
      PortDelFacts(n, id);
      var ok := DelPort(id);
      if bundles[b].ports == [] {
        bundles := bundles - {b};
      }
    }

    /** The VLAN calls of __ofbundle_port_add; `exits` when a failure skips the rest of it. */
    method AttachPortVlans(id: HwId, s: Settings) returns (ok: bool, exits: bool)
      requires vlans.Valid() && GoodSettings(s)
      modifies vlans, vlans.allVlanMember
      ensures vlans.Valid() && Result(vlans.T(), ok) == AttachVlans(old(vlans.T()), id, s)
      ensures exits <==> !ok && !(s.mode.NativeTagged? && s.trunks.None?)
    {
      hide VlanTable.AccessPortAdd, VlanTable.NativeTaggedVlanSet, VlanTable.TrunksPortAdd;
      ok := true;
      exits := false;
      if s.vlan != -1 {
        if s.mode.NativeTagged? {
          ok := vlans.NativeTaggedVlanSet(s.vlan, id, true);
          var a := vlans.GetPortAttrs(id);
          vlans.SetPortAttrs(id, a.(pvidUntag := false));
        } else {
          ok := vlans.AccessPortAdd(s.vlan, id);
          if !ok {
            exits := true;
            return;
          }
          var a := vlans.GetPortAttrs(id);
          vlans.SetPortAttrs(id, a.(pvidUntag := true));
        }
      }
      if s.trunks.Some? {
        ok := vlans.TrunksPortAdd(s.trunks.value, id);
        exits := !ok;
      }
    }

    /** __ofbundle_port_add */
    method AddPort(b: BundleId, id: HwId) returns (ok: bool)
      requires Valid() && b in bundles && (id in owner ==> owner[id] != b)
      modifies this, vlans, vlans.allVlanMember
      ensures Valid() && NetResult(N(), ok) == PortAdd(old(N()), b, id)
    {
      hide Linked, BundleRemove, AttachVlans;
      ghost var n := N();
      PortAddLinked(n, b, id);
      VacatedLinked(n, id);
      if id in owner {
        RemoveFromBundle(id);
      }
      assert N() == Vacated(n, id);
      SettingsAreGood(N(), b);
      var bundle := bundles[b];
      owner := owner[id := b];
      bundles := bundles[b := bundle.(ports := bundle.ports + [id])];
      var exits;
      ok, exits := AttachPortVlans(id, bundle.settings);
      if !exits && bundle.lag.Some? {
        flushes := flushes + [ByPort(id)];
      }
    }

    /** __ofbundle_ports_reconfigure: the first loop. */
    method RemoveDeparted(b: BundleId, slaves: seq<HwId>) returns (ok: bool)
      requires Valid() && b in bundles
      modifies this`bundles, this`owner, vlans, vlans.allVlanMember
      ensures Valid() && NetResult(N(), ok) == DelDeparted(old(N()), old(bundles)[b].ports, slaves)
    {
      hide Linked, PortDel;
      ghost var n := N();
      var ports := bundles[b].ports;
      ok := true;
      for i := 0 to |ports|
        invariant Valid() && ok
        invariant NetResult(N(), true) == DelDeparted(n, ports[..i], slaves)
      {
        assert ports[..i + 1][..i] == ports[..i];
        if ports[i] !in slaves && ports[i] in owner {
          ok := DelPort(ports[i]);
          if !ok {
            DelDepartedFailed(n, ports, slaves, i + 1);
            return;
          }
        }
      }
      assert ports[..|ports|] == ports;
    }

    /** The second loop. */
    method AddSlaves(b: BundleId, slaves: seq<HwId>) returns (ok: bool)
      requires Valid() && b in bundles
      modifies this, vlans, vlans.allVlanMember
      ensures Valid() && b in bundles && NetResult(N(), ok) == AddNew(old(N()), b, slaves)
    {
      hide Linked, PortAdd;
      ghost var n := N();
      ok := true;
      for i := 0 to |slaves|
        invariant Valid() && b in bundles && ok
        invariant NetResult(N(), true) == AddNew(n, b, slaves[..i])
      {
        assert slaves[..i + 1][..i] == slaves[..i];
        OwnerOfMember(N(), b, slaves[i]);
        if slaves[i] !in bundles[b].ports {
          PortAddLinked(N(), b, slaves[i]);
          ok := AddPort(b, slaves[i]);
          if !ok {
            AddNewFailed(n, b, slaves, i + 1);
            return;
          }
        }
      }
      assert slaves[..|slaves|] == slaves;
    }

    /** __ofbundle_ports_reconfigure */
    method ReconfigurePorts(b: BundleId, slaves: seq<HwId>, s: Settings) returns (ok: bool)
      requires Valid() && b in bundles && GoodSettings(s)
      modifies this, vlans, vlans.allVlanMember
      ensures Valid() && b in bundles && NetResult(N(), ok) == PortsReconfigure(old(N()), b, slaves, s)
      ensures old(ShadowInv(N().t)) ==> ShadowInv(N().t)
    {
      hide Linked, DelDeparted, ReconfigureVlans, AddNew, ShadowInv;
      ghost var n := N();
      ReconfigureKeepsLinks(n, b, slaves, s);
      DelDepartedFrame(n, b, bundles[b].ports, slaves);
      ok := RemoveDeparted(b, slaves);
      if ok {
        ReconfigureVlansLinked(N(), b, s);
        ok := VlanReconfigureBundle(b, s);
        if ok {
          ok := AddSlaves(b, slaves);
        }
      }
    }
  }

  lemma OwnerExists(n: Net, id: HwId)
    requires Linked(n) && id in n.owner
    ensures n.owner[id] in n.bundles && GoodSettings(n.bundles[n.owner[id]].settings)
  {
  }

  lemma PortDelFacts(n: Net, id: HwId)
    requires Linked(n) && id in n.owner
    ensures n.owner[id] in PortDel(n, id).n.bundles
  {
  }
}
