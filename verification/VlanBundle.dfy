/**
 Reconfiguring the ports of a bundle: the two phases of __vlan_reconfigure over all ports,
 with early exit on the first failing call, exactly when they get through, and which lost
 VLANs the flushes at the end cover.
 */
module VlanBundle {
  import opened Options
  import opened VlanPort
  import opened VlanTable

  // ------------------------------------------------------------------ one port, several calls

  /** The removal phase for one port: each call only if the one before succeeded. */
  function LeaveOne(t: Table, id: HwId, was: Settings, s: Settings): Result
    requires WellFormed(was)
  {
    var removed := RemovedTrunks(was, s);
    var r := if !Changed(was, s) || was.mode.Trunk? then Result(t, true)
             else if was.mode.NativeTagged? then NativeTaggedVlanSet(t, was.vlan, id, false)
             else AccessPortDel(t, was.vlan, id);
    if r.ok && !was.mode.Access? then TrunksPortDel(r.t, removed, id) else r
  }

  /** The native or access call of the addition phase. */
  function JoinVlan(t: Table, id: HwId, was: Settings, s: Settings): Result
    requires WellFormed(s)
  {
    if !Changed(was, s) || s.mode.Trunk? then Result(t, true)
    else if s.mode.NativeTagged? then
      var r := NativeTaggedVlanSet(t, s.vlan, id, true);
      if r.ok then Result(SetAttrs(r.t, id, AttrsOf(r.t, id).(pvidUntag := false)), true) else r
    else AccessPortAdd(t, s.vlan, id)
  }

  function JoinOne(t: Table, id: HwId, was: Settings, s: Settings): Result
    requires WellFormed(s)
  {
    var r := JoinVlan(t, id, was, s);
    if r.ok && !s.mode.Access? then TrunksPortAdd(r.t, AddedTrunks(was, s), id) else r
  }

  lemma SetUntagDid(t: Table, id: HwId, untag: bool)
    ensures Did(t, Result(SetAttrs(t, id, AttrsOf(t, id).(pvidUntag := untag)), true), id,
                WithUntag(PortOf(t, id), untag))
    ensures Keeps(t, Result(SetAttrs(t, id, AttrsOf(t, id).(pvidUntag := untag)), true))
  {
    SetAttrsPort(t, id, AttrsOf(t, id).(pvidUntag := untag));
    AttrsKeep(t, id, AttrsOf(t, id).(pvidUntag := untag));
  }

  lemma LeaveOnePort(t: Table, id: HwId, was: Settings, s: Settings)
    requires WellFormed(was)
    ensures var r := LeaveOne(t, id, was, s);
            Keeps(t, r) && (!t.strict ==> r.ok) && (r.ok ==> Did(t, r, id, Leave(PortOf(t, id), was, s)))
  {
    hide RemovedTrunks, PortOf, ShadowInv, AccessPortDel, NativeTaggedVlanSet, TrunksPortDel, AccessDel, NativeTaggedSet, TrunksDel;
    if HasVlan(was) {
      AccessPort(t, was.vlan, id);
      NativeTaggedPort(t, was.vlan, id, false);
    }
    var r := if !Changed(was, s) || was.mode.Trunk? then Result(t, true)
             else if was.mode.NativeTagged? then NativeTaggedVlanSet(t, was.vlan, id, false)
             else AccessPortDel(t, was.vlan, id);
    TrunksPort(r.t, RemovedTrunks(was, s), id, false);
  }

  lemma JoinVlanPort(t: Table, id: HwId, was: Settings, s: Settings)
    requires WellFormed(s)
    ensures var r := JoinVlan(t, id, was, s);
            var p := PortOf(t, id);
            && Keeps(t, r) && (!t.strict ==> r.ok)
            && (r.ok ==> Did(t, r, id,
                  if !Changed(was, s) || s.mode.Trunk? then p
                  else if s.mode.NativeTagged? then WithUntag(NativeTaggedSet(p, s.vlan, true), false)
                  else AccessAdd(p, s.vlan)))
  {
    hide PortOf, ShadowInv, AccessPortAdd, NativeTaggedVlanSet, AccessAdd, NativeTaggedSet;
    if HasVlan(s) {
      AccessPort(t, s.vlan, id);
      NativeTaggedPort(t, s.vlan, id, true);
      SetUntagDid(NativeTaggedVlanSet(t, s.vlan, id, true).t, id, false);
    }
  }

  lemma JoinOnePort(t: Table, id: HwId, was: Settings, s: Settings)
    requires WellFormed(s)
    ensures var r := JoinOne(t, id, was, s);
            Keeps(t, r) && (!t.strict ==> r.ok) && (r.ok ==> Did(t, r, id, Join(PortOf(t, id), was, s)))
  {
    hide AddedTrunks, PortOf, ShadowInv, JoinVlan, TrunksPortAdd, AccessAdd, NativeTaggedSet, TrunksAdd;
    JoinVlanPort(t, id, was, s);
    TrunksPort(JoinVlan(t, id, was, s).t, AddedTrunks(was, s), id, true);
  }

  // ------------------------------------------------------------------ all ports of a bundle

  function LeavePorts(t: Table, ports: seq<HwId>, was: Settings, s: Settings): Result
    requires WellFormed(was)
  {
    if ports == [] then Result(t, true)
    else
      var n := |ports| - 1;
      var r := LeavePorts(t, ports[..n], was, s);
      if r.ok then LeaveOne(r.t, ports[n], was, s) else r
  }

  function JoinPorts(t: Table, ports: seq<HwId>, was: Settings, s: Settings): Result
    requires WellFormed(s)
  {
    if ports == [] then Result(t, true)
    else
      var n := |ports| - 1;
      var r := JoinPorts(t, ports[..n], was, s);
      if r.ok then JoinOne(r.t, ports[n], was, s) else r
  }

  /** __vlan_reconfigure, apart from flushing. */
  function VlanReconfigure(t: Table, ports: seq<HwId>, was: Settings, s: Settings): Result
    requires WellFormed(was) && WellFormed(s)
  {
    var r := LeavePorts(t, ports, was, s);
    if r.ok then JoinPorts(r.t, ports, was, s) else r
  }

  lemma {:induction false} LeavePortsPort(t: Table, ports: seq<HwId>, was: Settings, s: Settings, id: HwId)
    requires WellFormed(was) && NoDup(ports)
    ensures var r := LeavePorts(t, ports, was, s);
            && Keeps(t, r) && (!t.strict ==> r.ok)
            && (r.ok ==> PortOf(r.t, id) == if id in ports then Leave(PortOf(t, id), was, s) else PortOf(t, id))
  {
    hide Leave, PortOf, ShadowInv, LeaveOne;
    if ports != [] {
      var n := |ports| - 1;
      var r := LeavePorts(t, ports[..n], was, s);
      LeavePortsPort(t, ports[..n], was, s, id);
      LeaveOnePort(r.t, ports[n], was, s);
      assert id in ports <==> id in ports[..n] || id == ports[n];
      assert ports[n] !in ports[..n];
    }
  }

  lemma {:induction false} JoinPortsPort(t: Table, ports: seq<HwId>, was: Settings, s: Settings, id: HwId)
    requires WellFormed(s) && NoDup(ports)
    ensures var r := JoinPorts(t, ports, was, s);
            && Keeps(t, r) && (!t.strict ==> r.ok)
            && (r.ok ==> PortOf(r.t, id) == if id in ports then Join(PortOf(t, id), was, s) else PortOf(t, id))
  {
    hide Join, PortOf, ShadowInv, JoinOne;
    if ports != [] {
      var n := |ports| - 1;
      var r := JoinPorts(t, ports[..n], was, s);
      JoinPortsPort(t, ports[..n], was, s, id);
      JoinOnePort(r.t, ports[n], was, s);
      assert id in ports <==> id in ports[..n] || id == ports[n];
      assert ports[n] !in ports[..n];
    }
  }

  // ------------------------------------------------------------------ when a reconfiguration gets through

  /** Every call of the removal phase is accepted. */
  predicate CanLeave(t: Table, was: Settings, s: Settings)
    requires WellFormed(was)
  {
    && (Changed(was, s) && HasVlan(was) ==> Accepts(t, was.vlan))
    && (!was.mode.Access? ==> forall v :: v in RemovedTrunks(was, s) ==> Accepts(t, v))
  }

  /** Every call of the addition phase is accepted. */
  predicate CanJoin(t: Table, was: Settings, s: Settings)
    requires WellFormed(s)
  {
    && (Changed(was, s) && HasVlan(s) ==> Accepts(t, s.vlan))
    && (!s.mode.Access? ==> forall v :: v in AddedTrunks(was, s) ==> Accepts(t, v))
  }

  lemma SameAccepts(t: Table, t': Table, was: Settings, s: Settings)
    requires WellFormed(was) && WellFormed(s) && t'.hw.Keys == t.hw.Keys && t'.strict == t.strict
    ensures CanLeave(t', was, s) <==> CanLeave(t, was, s)
    ensures CanJoin(t', was, s) <==> CanJoin(t, was, s)
  {
    hide RemovedTrunks, AddedTrunks;
    assert forall v: Vid :: Accepts(t', v) <==> Accepts(t, v);
  }

  lemma LeaveOneOkIff(t: Table, id: HwId, was: Settings, s: Settings)
    requires WellFormed(was)
    ensures LeaveOne(t, id, was, s).ok <==> CanLeave(t, was, s)
  {
    hide RemovedTrunks, PortOf, ShadowInv, AccessPortDel, NativeTaggedVlanSet, TrunksPortDel, AccessDel, NativeTaggedSet, TrunksDel;
    if HasVlan(was) {
      AccessPort(t, was.vlan, id);
      NativeTaggedPort(t, was.vlan, id, false);
    }
    var r := if !Changed(was, s) || was.mode.Trunk? then Result(t, true)
             else if was.mode.NativeTagged? then NativeTaggedVlanSet(t, was.vlan, id, false)
             else AccessPortDel(t, was.vlan, id);
    TrunksPort(r.t, RemovedTrunks(was, s), id, false);
    assert forall v: Vid :: Accepts(r.t, v) <==> Accepts(t, v);
  }

  lemma JoinOneOkIff(t: Table, id: HwId, was: Settings, s: Settings)
    requires WellFormed(s)
    ensures JoinOne(t, id, was, s).ok <==> CanJoin(t, was, s)
  {
    hide AddedTrunks, PortOf, ShadowInv, AccessPortAdd, NativeTaggedVlanSet, TrunksPortAdd, AccessAdd, NativeTaggedSet, TrunksAdd;
    JoinVlanPort(t, id, was, s);
    if HasVlan(s) {
      AccessPort(t, s.vlan, id);
      NativeTaggedPort(t, s.vlan, id, true);
    }
    var r := JoinVlan(t, id, was, s);
    TrunksPort(r.t, AddedTrunks(was, s), id, true);
    assert forall v: Vid :: Accepts(r.t, v) <==> Accepts(t, v);
  }

  lemma {:induction false} LeavePortsOkIff(t: Table, ports: seq<HwId>, was: Settings, s: Settings)
    requires WellFormed(was)
    ensures LeavePorts(t, ports, was, s).ok <==> ports == [] || CanLeave(t, was, s)
  {
    hide PortOf, ShadowInv, LeaveOne, RemovedTrunks;
    if ports != [] {
      var n := |ports| - 1;
      LeavePortsOkIff(t, ports[..n], was, s);
      LeavePortsKeep(t, ports[..n], was, s);
      var r := LeavePorts(t, ports[..n], was, s);
      LeaveOneOkIff(r.t, ports[n], was, s);
      assert forall v: Vid :: Accepts(r.t, v) <==> Accepts(t, v);
    }
  }

  lemma {:induction false} LeavePortsKeep(t: Table, ports: seq<HwId>, was: Settings, s: Settings)
    requires WellFormed(was)
    ensures Keeps(t, LeavePorts(t, ports, was, s))
  {
    hide PortOf, ShadowInv, LeaveOne;
    if ports != [] {
      var n := |ports| - 1;
      LeavePortsKeep(t, ports[..n], was, s);
      LeaveOnePort(LeavePorts(t, ports[..n], was, s).t, ports[n], was, s);
    }
  }

  lemma {:induction false} JoinPortsOkIff(t: Table, ports: seq<HwId>, was: Settings, s: Settings)
    requires WellFormed(s)
    ensures JoinPorts(t, ports, was, s).ok <==> ports == [] || CanJoin(t, was, s)
  {
    hide PortOf, ShadowInv, JoinOne, AddedTrunks;
    if ports != [] {
      var n := |ports| - 1;
      JoinPortsOkIff(t, ports[..n], was, s);
      JoinPortsKeep(t, ports[..n], was, s);
      var r := JoinPorts(t, ports[..n], was, s);
      JoinOneOkIff(r.t, ports[n], was, s);
      assert forall v: Vid :: Accepts(r.t, v) <==> Accepts(t, v);
    }
  }

  lemma {:induction false} JoinPortsKeep(t: Table, ports: seq<HwId>, was: Settings, s: Settings)
    requires WellFormed(s)
    ensures Keeps(t, JoinPorts(t, ports, was, s))
  {
    hide PortOf, ShadowInv, JoinOne;
    if ports != [] {
      var n := |ports| - 1;
      JoinPortsKeep(t, ports[..n], was, s);
      JoinOnePort(JoinPorts(t, ports[..n], was, s).t, ports[n], was, s);
    }
  }

  /** A reconfiguration succeeds iff there is no port, or the switch accepts every VLAN of both phases. */
  lemma VlanReconfigureOkIff(t: Table, ports: seq<HwId>, was: Settings, s: Settings)
    requires WellFormed(was) && WellFormed(s)
    ensures VlanReconfigure(t, ports, was, s).ok <==> ports == [] || (CanLeave(t, was, s) && CanJoin(t, was, s))
  {
    hide LeavePorts, JoinPorts, CanLeave, CanJoin, ShadowInv;
    LeavePortsOkIff(t, ports, was, s);
    LeavePortsKeep(t, ports, was, s);
    var r := LeavePorts(t, ports, was, s);
    JoinPortsOkIff(r.t, ports, was, s);
    SameAccepts(t, r.t, was, s);
  }

  /**
   A reconfiguration that reports success takes every port of the bundle from the old
   declared VLANs to the new ones and touches no other port; success or not, the shadow
   keeps agreeing with the hardware.
   */
  lemma VlanReconfigurePort(t: Table, ports: seq<HwId>, was: Settings, s: Settings, id: HwId)
    requires WellFormed(was) && WellFormed(s) && NoDup(ports)
    ensures var r := VlanReconfigure(t, ports, was, s);
            && Keeps(t, r) && (!t.strict ==> r.ok)
            && (r.ok && id in ports && Matches(PortOf(t, id), was) ==> Matches(PortOf(r.t, id), s))
            && (r.ok && id in ports && PortOf(t, id).vlans == Declared(was) ==> PortOf(r.t, id).vlans == Declared(s))
            && (r.ok && id in ports ==> PortOf(r.t, id) == Reconfigure(PortOf(t, id), was, s))
            && (r.ok && id !in ports ==> PortOf(r.t, id) == PortOf(t, id))
  {
    hide PortOf, ShadowInv, LeavePorts, JoinPorts, Matches, Declared, Leave, Join;
    LeavePortsPort(t, ports, was, s, id);
    JoinPortsPort(LeavePorts(t, ports, was, s).t, ports, was, s, id);
    if PortOf(t, id).vlans == Declared(was) {
      ReconfigureDeclares(PortOf(t, id), was, s);
    }
    if Matches(PortOf(t, id), was) {
      ReconfigureMatches(PortOf(t, id), was, s);
    }
  }

  /**
   On every port of the bundle the PVID and its untagging follow the settings, exactly unless
   a trunk was lost under an unchanged native VLAN.
   */
  lemma BundlePvidIff(t: Table, ports: seq<HwId>, was: Settings, s: Settings, id: HwId)
    requires WellFormed(was) && WellFormed(s) && NoDup(ports) && id in ports
    requires VlanReconfigure(t, ports, was, s).ok
    requires PvidMatches(PortOf(t, id), was)
    ensures PortOf(VlanReconfigure(t, ports, was, s).t, id).attrs.pvid == DeclaredPvid(s)
            <==> !(OnlyTrunksLost(was, s) && IsNative(s) && s.vlan != DEFAULT_PVID)
    ensures (PortOf(VlanReconfigure(t, ports, was, s).t, id).attrs.pvidUntag <==> !s.mode.NativeTagged?)
            <==> !(OnlyTrunksLost(was, s) && s.mode.NativeTagged?)
  {
    hide PortOf, VlanReconfigure, Reconfigure, OnlyTrunksLost;
    VlanReconfigurePort(t, ports, was, s, id);
    PvidIff(PortOf(t, id), was, s);
    PvidUntagIff(PortOf(t, id), was, s);
  }

  // ------------------------------------------------------------------ flushing

  datatype Flush = ByPort(id: HwId) | ByTrunk(lag: nat)

  /** The FDB flushes at the end of __vlan_reconfigure. */
  function Flushes(was: Settings, s: Settings, lag: Option<nat>, ports: seq<HwId>): seq<Flush> {
    if Changed(was, s) && lag.Some? then [ByTrunk(lag.value)]
    else if Changed(was, s) || RemovedTrunks(was, s) != {} then seq(|ports|, i requires 0 <= i < |ports| => ByPort(ports[i]))
    else []
  }

  /** What __vlan_reconfigure has flushed when it returns: every failure jumps past the flushing. */
  function Flushed(t: Table, ports: seq<HwId>, was: Settings, s: Settings, lag: Option<nat>): seq<Flush>
    requires WellFormed(was) && WellFormed(s)
  {
    if VlanReconfigure(t, ports, was, s).ok then Flushes(was, s, lag, ports) else []
  }

  /**
   The flushes reach the addresses learnt on the port. Those of a LAG are learnt under the
   handle of the LAG, so flushing a member port does not reach them.
   */
  predicate Covers(flushes: seq<Flush>, id: HwId, lag: Option<nat>) {
    if lag.Some? then ByTrunk(lag.value) in flushes else ByPort(id) in flushes
  }

  /**
   When a reconfiguration, successful or not, has taken a VLAN from a port of the bundle, the
   addresses learnt there are flushed iff every call was accepted and, for a LAG, it was not
   only trunks that were lost.
   */
  lemma LossFlushedIff(t: Table, ports: seq<HwId>, was: Settings, s: Settings, lag: Option<nat>, id: HwId, v: Vid)
    requires WellFormed(was) && WellFormed(s) && NoDup(ports) && id in ports
    requires PortOf(t, id).vlans == Declared(was)
    requires v in PortOf(t, id).vlans && v !in PortOf(VlanReconfigure(t, ports, was, s).t, id).vlans
    ensures Covers(Flushed(t, ports, was, s, lag), id, lag)
            <==> CanLeave(t, was, s) && CanJoin(t, was, s) && (lag.Some? ==> Changed(was, s))
  {
    hide PortOf, VlanReconfigure, Declared, RemovedTrunks, CanLeave, CanJoin;
    VlanReconfigureOkIff(t, ports, was, s);
    if VlanReconfigure(t, ports, was, s).ok {
      VlanReconfigurePort(t, ports, was, s, id);
      LostVlanIsFlushed(was, s, v);
      CoversIff(was, s, lag, ports, id);
    }
  }

  /** What the flushes of a reconfiguration that got through reach. */
  lemma CoversIff(was: Settings, s: Settings, lag: Option<nat>, ports: seq<HwId>, id: HwId)
    ensures Covers(Flushes(was, s, lag, ports), id, lag)
            <==> if lag.Some? then Changed(was, s)
                 else id in ports && (Changed(was, s) || RemovedTrunks(was, s) != {})
  {
    hide RemovedTrunks;
    var flushes := Flushes(was, s, lag, ports);
    if id in ports {
      var i :| 0 <= i < |ports| && ports[i] == id;
      assert |flushes| == |ports| && lag.None? ==> flushes[i] == ByPort(id);
    }
  }
}
