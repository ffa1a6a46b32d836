/**
 What a reconfiguration leaves behind when the switch refuses a VLAN. Whether a call is
 accepted does not depend on the port, so the first port of the bundle is the one at which a
 phase stops.
 */
module VlanRefusals {
  import opened Options
  import opened VlanPort
  import opened VlanTable
  import opened VlanBundle

  // ------------------------------------------------------------------ one port

  /** The VLANs of a port after the removal phase, whether or not it got through. */
  lemma LeaveOneAt(t: Table, id: HwId, was: Settings, s: Settings, v: Vid)
    requires WellFormed(was)
    ensures var blocked := Changed(was, s) && HasVlan(was) && !Accepts(t, was.vlan);
            Lookup(PortOf(LeaveOne(t, id, was, s).t, id).vlans, v)
            == if blocked then Lookup(PortOf(t, id).vlans, v)
               else if Changed(was, s) && HasVlan(was) && v == was.vlan then None
               else if !was.mode.Access? && v in RemovedTrunks(was, s)
                       && (forall u :: u in RemovedTrunks(was, s) && u <= v ==> Accepts(t, u)) then None
               else Lookup(PortOf(t, id).vlans, v)
  {
    hide RemovedTrunks, PortOf, ShadowInv, AccessPortDel, NativeTaggedVlanSet, TrunksPortDel;
    var blocked := Changed(was, s) && HasVlan(was) && !Accepts(t, was.vlan);
    if HasVlan(was) {
      AccessPort(t, was.vlan, id);
      NativeTaggedPort(t, was.vlan, id, false);
      if blocked {
        RefusedCall(t, was.vlan, id, false);
      }
    }
    if !blocked {
      var r := if !Changed(was, s) || was.mode.Trunk? then Result(t, true)
               else if was.mode.NativeTagged? then NativeTaggedVlanSet(t, was.vlan, id, false)
               else AccessPortDel(t, was.vlan, id);
      assert forall u: Vid :: Accepts(r.t, u) <==> Accepts(t, u);
      TrunksReach(r.t, RemovedTrunks(was, s), id, false, v);
      NotAlsoNative(was, s);
    }
  }

  lemma NotAlsoNative(was: Settings, s: Settings)
    requires WellFormed(was)
    ensures !was.mode.Access? && HasVlan(was) ==> was.vlan !in RemovedTrunks(was, s)
  {
  }

  /** The VLANs of a port after the addition phase, whether or not it got through. */
  lemma JoinOneAt(t: Table, id: HwId, was: Settings, s: Settings, v: Vid)
    requires WellFormed(was) && WellFormed(s)
    ensures var blocked := Changed(was, s) && HasVlan(s) && !Accepts(t, s.vlan);
            Lookup(PortOf(JoinOne(t, id, was, s).t, id).vlans, v)
            == if blocked then Lookup(PortOf(t, id).vlans, v)
               else if Changed(was, s) && HasVlan(s) && v == s.vlan
               then Some(if s.mode.NativeTagged? then Tagged else Untagged)
               else if !s.mode.Access? && v in AddedTrunks(was, s)
                       && (forall u :: u in AddedTrunks(was, s) && u <= v ==> Accepts(t, u)) then Some(Tagged)
               else Lookup(PortOf(t, id).vlans, v)
  {
    hide AddedTrunks, PortOf, ShadowInv, AccessPortAdd, NativeTaggedVlanSet, TrunksPortAdd, JoinVlan;
    JoinVlanPort(t, id, was, s);
    JoinVlanRefused(t, id, was, s);
    var r := JoinVlan(t, id, was, s);
    if r.ok {
      assert forall u: Vid :: Accepts(r.t, u) <==> Accepts(t, u);
      TrunksReach(r.t, AddedTrunks(was, s), id, true, v);
      NativeIsNotAdded(was, s);
    }
  }

  lemma NativeIsNotAdded(was: Settings, s: Settings)
    requires WellFormed(was) && WellFormed(s)
    ensures IsNative(s) ==> s.vlan !in AddedTrunks(was, s)
  {
  }

  lemma JoinVlanRefused(t: Table, id: HwId, was: Settings, s: Settings)
    requires WellFormed(s)
    ensures JoinVlan(t, id, was, s).ok <==> !(Changed(was, s) && HasVlan(s) && !Accepts(t, s.vlan))
    ensures !JoinVlan(t, id, was, s).ok ==> JoinVlan(t, id, was, s).t == t
  {
    hide PortOf, ShadowInv, AccessPortAdd, NativeTaggedVlanSet;
    if HasVlan(s) {
      AccessPort(t, s.vlan, id);
      NativeTaggedPort(t, s.vlan, id, true);
      if !Accepts(t, s.vlan) {
        RefusedCall(t, s.vlan, id, true);
      }
    }
  }

  // ------------------------------------------------------------------ all ports of a bundle

  /** A refused removal phase is over with the first port. */
  lemma {:induction false} LeavePortsStop(t: Table, ports: seq<HwId>, was: Settings, s: Settings)
    requires WellFormed(was) && !CanLeave(t, was, s) && ports != []
    ensures LeavePorts(t, ports, was, s) == LeaveOne(t, ports[0], was, s) && !LeaveOne(t, ports[0], was, s).ok
  {
    hide PortOf, ShadowInv, LeaveOne, CanLeave;
    LeaveOneOkIff(t, ports[0], was, s);
    var n := |ports| - 1;
    if n > 0 {
      LeavePortsStop(t, ports[..n], was, s);
    } else {
      assert LeavePorts(t, ports[..0], was, s) == Result(t, true);
    }
  }

  lemma {:induction false} JoinPortsStop(t: Table, ports: seq<HwId>, was: Settings, s: Settings)
    requires WellFormed(s) && !CanJoin(t, was, s) && ports != []
    ensures JoinPorts(t, ports, was, s) == JoinOne(t, ports[0], was, s) && !JoinOne(t, ports[0], was, s).ok
  {
    hide PortOf, ShadowInv, JoinOne, CanJoin;
    JoinOneOkIff(t, ports[0], was, s);
    var n := |ports| - 1;
    if n > 0 {
      JoinPortsStop(t, ports[..n], was, s);
    } else {
      assert JoinPorts(t, ports[..0], was, s) == Result(t, true);
    }
  }

  lemma LeaveOneElsewhere(t: Table, id: HwId, was: Settings, s: Settings)
    requires WellFormed(was)
    ensures Confined(t, LeaveOne(t, id, was, s), id)
  {
    hide Confined, Keeps, RemovedTrunks, AccessPortDel, NativeTaggedVlanSet, TrunksPortDel;
    NothingConfined(t, id);
    if HasVlan(was) {
      AccessPort(t, was.vlan, id);
      AccessConfined(t, was.vlan, id);
      NativeTaggedPort(t, was.vlan, id, false);
      NativeTaggedConfined(t, was.vlan, id, false);
    }
    var r := if !Changed(was, s) || was.mode.Trunk? then Result(t, true)
             else if was.mode.NativeTagged? then NativeTaggedVlanSet(t, was.vlan, id, false)
             else AccessPortDel(t, was.vlan, id);
    if r.ok && !was.mode.Access? {
      TrunksConfined(r.t, RemovedTrunks(was, s), id, false);
      ConfinedThen(t, r, TrunksPortDel(r.t, RemovedTrunks(was, s), id), id);
    }
  }

  lemma JoinOneElsewhere(t: Table, id: HwId, was: Settings, s: Settings)
    requires WellFormed(s)
    ensures Confined(t, JoinOne(t, id, was, s), id)
  {
    hide PortOf, ShadowInv, AddedTrunks, JoinVlan, TrunksPortAdd;
    JoinVlanPort(t, id, was, s);
    JoinVlanRefused(t, id, was, s);
    var r := JoinVlan(t, id, was, s);
    JoinVlanConfined(t, id, was, s);
    if r.ok && !s.mode.Access? {
      TrunksConfined(r.t, AddedTrunks(was, s), id, true);
      ConfinedThen(t, r, TrunksPortAdd(r.t, AddedTrunks(was, s), id), id);
    }
  }

  lemma JoinVlanConfined(t: Table, id: HwId, was: Settings, s: Settings)
    requires WellFormed(s)
    ensures Confined(t, JoinVlan(t, id, was, s), id)
  {
    hide Confined, Keeps, AccessPortAdd, NativeTaggedVlanSet;
    NothingConfined(t, id);
    if HasVlan(s) {
      AccessConfined(t, s.vlan, id);
      NativeTaggedPort(t, s.vlan, id, true);
      NativeTaggedConfined(t, s.vlan, id, true);
      var q := NativeTaggedVlanSet(t, s.vlan, id, true);
      var a := AttrsOf(q.t, id).(pvidUntag := false);
      AttrsConfined(q.t, id, a);
      ConfinedThen(t, q, Result(SetAttrs(q.t, id, a), true), id);
    }
  }

  /**
   Where a refused reconfiguration leaves the ports. Refused while removing, only the first
   port may have changed, as LeaveOneAt says. Refused while adding, every port of the bundle
   has lost its old VLANs and only the first may have got new ones, as JoinOneAt says. No
   other port changes.
   */
  lemma RefusedReconfiguration(t: Table, ports: seq<HwId>, was: Settings, s: Settings, id: HwId)
    requires WellFormed(was) && WellFormed(s) && NoDup(ports) && !VlanReconfigure(t, ports, was, s).ok
    ensures ports != [] && !(CanLeave(t, was, s) && CanJoin(t, was, s))
    ensures var r := VlanReconfigure(t, ports, was, s);
            if !CanLeave(t, was, s) then
              && r == LeaveOne(t, ports[0], was, s)
              && (id != ports[0] ==> PortOf(r.t, id) == PortOf(t, id))
            else
              var left := LeavePorts(t, ports, was, s).t;
              && r == JoinOne(left, ports[0], was, s)
              && PortOf(left, id) == (if id in ports then Leave(PortOf(t, id), was, s) else PortOf(t, id))
              && (id != ports[0] ==> PortOf(r.t, id) == PortOf(left, id))
  {
    hide PortOf, ShadowInv, LeavePorts, JoinPorts, LeaveOne, JoinOne, CanLeave, CanJoin, Leave;
    VlanReconfigureOkIff(t, ports, was, s);
    LeavePortsOkIff(t, ports, was, s);
    if !CanLeave(t, was, s) {
      LeavePortsStop(t, ports, was, s);
      LeaveOneElsewhere(t, ports[0], was, s);
    } else {
      var left := LeavePorts(t, ports, was, s).t;
      LeavePortsPort(t, ports, was, s, id);
      SameAccepts(t, left, was, s);
      JoinPortsStop(left, ports, was, s);
      JoinOneElsewhere(left, ports[0], was, s);
    }
  }
}
