/**
 Which flushes a bundle reconciliation issues, and which of the addresses learnt on its ports
 they reach: a port that loses a VLAN should have them flushed.
 */
module BundleFlushes {
  import opened Options
  import opened VlanPort
  import opened VlanTable
  import opened VlanBundle
  import opened PortVlans
  import opened BundlePorts

  /** The flushes issued on the way from one net to another. */
  function Issued(n: Net, n': Net): seq<Flush> {
    if |n.flushes| <= |n'.flushes| then n'.flushes[|n.flushes|..] else []
  }

  /**
   A reconciliation gets as far as the flushing iff the switch accepts every VLAN of the old
   settings, if a port departs, and every VLAN of both phases of the reconfiguration, if a
   port stays.
   */
  predicate GetsThrough(n: Net, b: BundleId, slaves: seq<HwId>, s: Settings)
    requires Linked(n) && b in n.bundles && GoodSettings(s)
  {
    SettingsAreGood(n, b);
    var bundle := n.bundles[b];
    && (Departs(bundle.ports, slaves) ==> forall v :: v in Declared(bundle.settings) ==> Accepts(n.t, v))
    && (Stays(bundle.ports, slaves) ==> CanLeave(n.t, bundle.settings, s) && CanJoin(n.t, bundle.settings, s))
  }

  predicate Departs(ports: seq<HwId>, slaves: seq<HwId>) {
    exists id :: id in ports && id !in slaves
  }

  predicate Stays(ports: seq<HwId>, slaves: seq<HwId>) {
    exists id :: id in ports && id in slaves
  }

  lemma {:induction false} DelDepartedOkIff(n: Net, b: BundleId, ports: seq<HwId>, slaves: seq<HwId>)
    requires Linked(n) && b in n.bundles && NoDup(ports) && forall id :: id in ports ==> id in n.bundles[b].ports
    requires GoodSettings(n.bundles[b].settings)
    ensures DelDeparted(n, ports, slaves).ok
            <==> (Departs(ports, slaves) ==> forall v :: v in Declared(n.bundles[b].settings) ==> Accepts(n.t, v))
    ensures DelDeparted(n, ports, slaves).n.flushes == n.flushes
  {
    hide Linked, ShadowInv, DetachVlans, Declared, GoodSettings;
    if ports != [] {
      var k := |ports| - 1;
      DelDepartedOkIff(n, b, ports[..k], slaves);
      DelDepartedFrame(n, b, ports[..k], slaves);
      var r := DelDeparted(n, ports[..k], slaves);
      assert forall id :: id in ports <==> id in ports[..k] || id == ports[k];
      assert ports[k] !in ports[..k];
      OwnerOfMember(n, b, ports[k]);
      assert forall v: Vid :: Accepts(r.n.t, v) <==> Accepts(n.t, v);
      if r.ok && ports[k] !in slaves {
        DetachOkIff(r.n.t, ports[k], n.bundles[b].settings);
      }
    }
  }

  lemma PortDelElsewhere(n: Net, id: HwId, x: HwId)
    requires Linked(n) && id in n.owner && x != id
    ensures Linked(PortDel(n, id).n) && SamePort(n, PortDel(n, id).n, x)
  {
    hide PortOf, Declared, DetachVlans, Without, ShadowInv, GoodSettings, NoDup, Accepts;
    PortDelLinked(n, id);
    SettingsAreGood(n, n.owner[id]);
    DetachConfined(n.t, id, n.bundles[n.owner[id]].settings);
  }

  lemma {:induction false} DelDepartedElsewhere(n: Net, ports: seq<HwId>, slaves: seq<HwId>, x: HwId)
    requires Linked(n) && x in slaves
    ensures SamePort(n, DelDeparted(n, ports, slaves).n, x)
  {
    hide Linked, PortOf, PortDel, Declared;
    if ports != [] {
      var k := |ports| - 1;
      DelDepartedElsewhere(n, ports[..k], slaves, x);
      var r := DelDeparted(n, ports[..k], slaves);
      if r.ok && ports[k] !in slaves && ports[k] in r.n.owner {
        PortDelElsewhere(r.n, ports[k], x);
      }
    }
  }

  lemma PortAddFlushes(n: Net, b: BundleId, id: HwId)
    requires Linked(n) && b in n.bundles && (id in n.owner ==> n.owner[id] != b)
    requires GoodSettings(n.bundles[b].settings)
    ensures var r := PortAdd(n, b, id);
            && r.n.flushes == n.flushes + (if n.bundles[b].lag.Some? && CheckedCallsAccepted(n.t, n.bundles[b].settings)
                                           then [ByPort(id)] else [])
            && b in r.n.bundles && r.n.bundles[b].lag == n.bundles[b].lag
  {
    hide Linked, ShadowInv, AttachVlans, DetachVlans, GoodSettings;
    VacatedLinked(n, id);
    var n0 := Vacated(n, id);
    AttachOkIff(n0.t, id, n.bundles[b].settings);
    assert forall v: Vid :: Accepts(n0.t, v) <==> Accepts(n.t, v);
  }

  /** Adding ports flushes only ports, and only for a LAG. */
  lemma {:induction false} AddNewFlushes(n: Net, b: BundleId, slaves: seq<HwId>) returns (more: seq<Flush>)
    requires Linked(n) && b in n.bundles
    ensures AddNew(n, b, slaves).n.flushes == n.flushes + more
    ensures AddNew(n, b, slaves).n.bundles[b].lag == n.bundles[b].lag
    ensures forall f :: f in more ==> f.ByPort? && n.bundles[b].lag.Some?
  {
    hide Linked, PortAdd;
    more := [];
    if slaves != [] {
      var k := |slaves| - 1;
      more := AddNewFlushes(n, b, slaves[..k]);
      var r := AddNew(n, b, slaves[..k]);
      OwnerOfMember(r.n, b, slaves[k]);
      if r.ok && slaves[k] !in r.n.bundles[b].ports {
        SettingsAreGood(r.n, b);
        PortAddFlushes(r.n, b, slaves[k]);
        more := more + PortAdd(r.n, b, slaves[k]).n.flushes[|r.n.flushes|..];
      }
    }
  }

  lemma CoversMore(flushes: seq<Flush>, more: seq<Flush>, id: HwId, lag: Option<nat>)
    requires forall f :: f in more ==> f.ByPort? && lag.Some?
    ensures Covers(flushes + more, id, lag) <==> Covers(flushes, id, lag)
  {
    assert forall f :: f in flushes + more <==> f in flushes || f in more;
  }

  /** What a reconciliation has flushed when it ends, however it ends, as far as the bundle's own addresses go. */
  lemma ReconciliationFlushes(n: Net, b: BundleId, slaves: seq<HwId>, s: Settings, id: HwId)
    requires Linked(n) && b in n.bundles && GoodSettings(s)
    ensures GoodSettings(n.bundles[b].settings)
    ensures var bundle := n.bundles[b];
            Covers(Issued(n, PortsReconfigure(n, b, slaves, s).n), id, bundle.lag)
            <==> GetsThrough(n, b, slaves, s)
                 && if bundle.lag.Some? then Changed(bundle.settings, s)
                    else id in bundle.ports && id in slaves
                         && (Changed(bundle.settings, s) || RemovedTrunks(bundle.settings, s) != {})
  {
    hide Linked, ShadowInv, DelDeparted, VlanReconfigure, AddNew, Declared, Flushes, RemovedTrunks, GoodSettings, CanLeave, CanJoin;
    SettingsAreGood(n, b);
    var bundle := n.bundles[b];
    NoDupPorts(n, b);
    DelDepartedOkIff(n, b, bundle.ports, slaves);
    DelDepartedFrame(n, b, bundle.ports, slaves);
    var gone := DelDeparted(n, bundle.ports, slaves);
    if gone.ok {
      StayingPorts(n, b, slaves);
      ReconfigureVlansLinked(gone.n, b, s);
      ReconfigureStayers(n.t, gone.n.t, gone.n.bundles[b].ports, bundle.settings, s);
      var kept := ReconfigureVlans(gone.n, b, s);
      if kept.ok {
        CoversIff(bundle.settings, s, bundle.lag, gone.n.bundles[b].ports, id);
        var more := AddNewFlushes(kept.n, b, slaves);
        var flushes := Flushes(bundle.settings, s, bundle.lag, gone.n.bundles[b].ports);
        CoversMore(flushes, more, id, bundle.lag);
        assert n.flushes + flushes + more == n.flushes + (flushes + more);
      }
    }
  }

  lemma ReconfigureStayers(t: Table, t': Table, ports: seq<HwId>, was: Settings, s: Settings)
    requires GoodSettings(was) && GoodSettings(s) && t'.hw.Keys == t.hw.Keys && t'.strict == t.strict
    ensures VlanReconfigure(t', ports, was, s).ok <==> (ports != [] ==> CanLeave(t, was, s) && CanJoin(t, was, s))
  {
    VlanReconfigureOkIff(t', ports, was, s);
    SameAccepts(t, t', was, s);
  }

  lemma NoDupPorts(n: Net, b: BundleId)
    requires Linked(n) && b in n.bundles
    ensures NoDup(n.bundles[b].ports)
  {
  }

  /** After the departures the bundle lists the ports that stay. */
  lemma StayingPorts(n: Net, b: BundleId, slaves: seq<HwId>)
    requires Linked(n) && b in n.bundles && DelDeparted(n, n.bundles[b].ports, slaves).ok
    ensures var gone := DelDeparted(n, n.bundles[b].ports, slaves).n;
            && b in gone.bundles
            && (forall id :: id in gone.bundles[b].ports <==> id in n.bundles[b].ports && id in slaves)
            && (gone.bundles[b].ports != [] <==> Stays(n.bundles[b].ports, slaves))
  {
    hide Linked, ShadowInv, DelDeparted;
    DelDepartedFrame(n, b, n.bundles[b].ports, slaves);
    var gone := DelDeparted(n, n.bundles[b].ports, slaves).n;
    forall id ensures id in gone.bundles[b].ports <==> id in n.bundles[b].ports && id in slaves {
      OwnerOfMember(n, b, id);
      OwnerOfMember(gone, b, id);
    }
    if gone.bundles[b].ports != [] {
      assert gone.bundles[b].ports[0] in gone.bundles[b].ports;
    }
  }

  /** Where a port that stays ends up when the reconciliation gets through. */
  lemma StayerDeclared(n: Net, b: BundleId, slaves: seq<HwId>, s: Settings, id: HwId)
    requires Linked(n) && b in n.bundles && GoodSettings(s) && id in n.bundles[b].ports && id in slaves
    requires GetsThrough(n, b, slaves, s) && GoodSettings(n.bundles[b].settings)
    requires PortOf(n.t, id).vlans == Declared(n.bundles[b].settings)
    ensures PortOf(PortsReconfigure(n, b, slaves, s).n.t, id).vlans == Declared(s)
  {
    hide Linked, ShadowInv, PortOf, DelDeparted, VlanReconfigure, AddNew, Declared, Flushes, RemovedTrunks, CanLeave,
         CanJoin;
    var bundle := n.bundles[b];
    NoDupPorts(n, b);
    DelDepartedOkIff(n, b, bundle.ports, slaves);
    DelDepartedFrame(n, b, bundle.ports, slaves);
    DelDepartedElsewhere(n, bundle.ports, slaves, id);
    var gone := DelDeparted(n, bundle.ports, slaves).n;
    StayingPorts(n, b, slaves);
    NoDupPorts(gone, b);
    ReconfigureVlansLinked(gone, b, s);
    ReconfigureStayers(n.t, gone.t, gone.bundles[b].ports, bundle.settings, s);
    VlanReconfigurePort(gone.t, gone.bundles[b].ports, bundle.settings, s, id);
    AddNewElsewhere(ReconfigureVlans(gone, b, s).n, b, slaves, id);
  }

  /**
   When a reconciliation, successful or not, has taken a VLAN from a port of the bundle, the
   addresses learnt there are flushed iff it got through the reconfiguration and, for a LAG,
   mode or VLAN changed; for any other bundle, the port stays. A port that departs is itself
   never flushed.
   */
  lemma LossCoveredIff(n: Net, b: BundleId, slaves: seq<HwId>, s: Settings, id: HwId, v: Vid)
    requires Linked(n) && b in n.bundles && GoodSettings(s) && id in n.bundles[b].ports
    requires GoodSettings(n.bundles[b].settings) && PortOf(n.t, id).vlans == Declared(n.bundles[b].settings)
    requires v in PortOf(n.t, id).vlans && v !in PortOf(PortsReconfigure(n, b, slaves, s).n.t, id).vlans
    ensures Covers(Issued(n, PortsReconfigure(n, b, slaves, s).n), id, n.bundles[b].lag)
            <==> GetsThrough(n, b, slaves, s)
                 && if n.bundles[b].lag.Some? then Changed(n.bundles[b].settings, s) else id in slaves
  {
    hide Linked, PortOf, PortsReconfigure, Declared, RemovedTrunks, GetsThrough, Covers, GoodSettings;
    ReconciliationFlushes(n, b, slaves, s, id);
    if GetsThrough(n, b, slaves, s) && id in slaves {
      StayerDeclared(n, b, slaves, s, id);
      LostIsFlushed(n.bundles[b].settings, s, v);
    }
  }

  lemma LostIsFlushed(was: Settings, s: Settings, v: Vid)
    requires GoodSettings(was) && GoodSettings(s) && v in Declared(was) && v !in Declared(s)
    ensures Changed(was, s) || RemovedTrunks(was, s) != {}
  {
    hide Declared, RemovedTrunks;
    LostVlanIsFlushed(was, s, v);
  }

  /**
   The addresses learnt on a port stolen from another bundle are flushed iff they were learnt
   on the port itself, the new bundle is a LAG, and the calls that end the addition when they
   fail were accepted.
   */
  lemma StolenCoveredIff(n: Net, b: BundleId, id: HwId)
    requires Linked(n) && b in n.bundles && id in n.owner && n.owner[id] != b
    ensures GoodSettings(n.bundles[b].settings) && n.owner[id] in n.bundles
    ensures Covers(Issued(n, PortAdd(n, b, id).n), id, n.bundles[n.owner[id]].lag)
            <==> n.bundles[n.owner[id]].lag.None? && n.bundles[b].lag.Some?
                 && CheckedCallsAccepted(n.t, n.bundles[b].settings)
  {
    hide Linked, PortAdd, CheckedCallsAccepted;
    SettingsAreGood(n, b);
    OwnerHasBundle(n, id);
    PortAddFlushes(n, b, id);
  }

  /** Port 1 in bundle 0 with one VLAN or more, on a switch that refuses VLANs it does not have. */
  function OneBundle(s: Settings, members: map<Vid, MemberMap>, lag: Option<nat>): Net {
    Net(Table(members, members, map[], true), map[0 := Bundle(s, [1], lag)], map[1 := 0], [])
  }

  lemma OneBundleReconciled(s: Settings, members: map<Vid, MemberMap>, lag: Option<nat>)
    requires GoodSettings(s) && VlansOf(members, 1) == Declared(s)
    requires forall v :: v in members ==> members[v].Keys == {1}
    ensures Reconciled(OneBundle(s, members, lag)) && ShadowInv(OneBundle(s, members, lag).t)
  {
    hide Declared;
    var n := OneBundle(s, members, lag);
    assert Linked(n);
    forall id ensures PortOf(n.t, id).vlans == Expected(n, id) {
    }
  }

  const FIVE := Settings(Access, 5, None)
  const SEVEN := Settings(Access, 7, None)
  const IN_FIVE: map<Vid, MemberMap> := map[5 := map[1 := Untagged]]

  lemma FiveReconciled()
    ensures Reconciled(OneBundle(FIVE, IN_FIVE, None)) && ShadowInv(OneBundle(FIVE, IN_FIVE, None).t)
  {
    assert VlansOf(IN_FIVE, 1) == map[5 := Untagged] == Declared(FIVE);
    OneBundleReconciled(FIVE, IN_FIVE, None);
  }

  lemma FiveLost()
    ensures var r := VlanReconfigure(OneBundle(FIVE, IN_FIVE, None).t, [1], FIVE, SEVEN);
            !r.ok && 5 !in PortOf(r.t, 1).vlans
  {
    hide PortOf, AccessPortDel;
    var t := OneBundle(FIVE, IN_FIVE, None).t;
    LeavePortsOkIff(t, [1], FIVE, SEVEN);
    LeavePortsPort(t, [1], FIVE, SEVEN, 1);
    LeavePortsKeep(t, [1], FIVE, SEVEN);
    var r := LeavePorts(t, [1], FIVE, SEVEN);
    assert r.ok;
    assert JoinOne(r.t, 1, FIVE, SEVEN) == Result(r.t, false);
    assert [1][..0] == [];
    assert JoinPorts(r.t, [1][..0], FIVE, SEVEN) == Result(r.t, true);
    assert JoinPorts(r.t, [1], FIVE, SEVEN) == Result(r.t, false);
  }

  /** A reconfiguration that fails after its removal phase: VLAN 5 is off the port and nothing is flushed. */
  lemma FailureIsNotFlushed()
    ensures Reconciled(OneBundle(FIVE, IN_FIVE, None)) && ShadowInv(OneBundle(FIVE, IN_FIVE, None).t)
    ensures var n := OneBundle(FIVE, IN_FIVE, None);
            var r := PortsReconfigure(n, 0, [1], SEVEN);
            !r.ok && 5 in PortOf(n.t, 1).vlans && 5 !in PortOf(r.n.t, 1).vlans && r.n.flushes == []
  {
    FiveReconciled();
    FiveLost();
    hide VlanReconfigure, PortOf;
    var n := OneBundle(FIVE, IN_FIVE, None);
    assert [1][..0] == [];
    assert DelDeparted(n, [1][..0], [1]) == NetResult(n, true);
    assert DelDeparted(n, [1], [1]) == NetResult(n, true);
    assert PortOf(n.t, 1).vlans == Expected(n, 1);
  }

  /** A port departs, every call is accepted, and what was learnt on it in VLAN 5 is not flushed. */
  lemma DepartureIsNotFlushed()
    ensures Reconciled(OneBundle(FIVE, IN_FIVE, None)) && ShadowInv(OneBundle(FIVE, IN_FIVE, None).t)
    ensures var n := OneBundle(FIVE, IN_FIVE, None);
            var r := PortsReconfigure(n, 0, [], FIVE);
            r.ok && PortOf(n.t, 1).vlans == map[5 := Untagged] && PortOf(r.n.t, 1).vlans == map[] && r.n.flushes == []
  {
    FiveReconciled();
    var n := OneBundle(FIVE, IN_FIVE, None);
    hide Reconciled, Linked, ShadowInv, PortOf, DelDeparted, VlanReconfigure, AddNew;
    ReconciledIsLinked(n);
    DelDepartedOkIff(n, 0, [1], []);
    DelDepartedFrame(n, 0, [1], []);
    DelDepartedReconciled(n, [1], []);
    var gone := DelDeparted(n, [1], []).n;
    StayingPorts(n, 0, []);
    OwnerOfMember(n, 0, 1);
    NothingToReconfigure(gone, 0);
    NothingNew(gone, 0, []);
    ReconciledAt(gone, 1);
    ReconciledAt(n, 1);
  }

  const FIVE_AND_SIX := Settings(Trunk, -1, Some({5, 6}))
  const SIX := Settings(Trunk, -1, Some({6}))
  const IN_BOTH: map<Vid, MemberMap> := map[5 := map[1 := Tagged], 6 := map[1 := Tagged]]

  /** A LAG loses a trunk: its member port is flushed, but not the LAG, under which addresses are learnt. */
  lemma LagTrunkIsNotFlushed()
    ensures Reconciled(OneBundle(FIVE_AND_SIX, IN_BOTH, Some(3))) && ShadowInv(OneBundle(FIVE_AND_SIX, IN_BOTH, Some(3)).t)
    ensures var n := OneBundle(FIVE_AND_SIX, IN_BOTH, Some(3));
            var r := PortsReconfigure(n, 0, [1], SIX);
            && r.ok && 5 in PortOf(n.t, 1).vlans && 5 !in PortOf(r.n.t, 1).vlans
            && !Covers(Issued(n, r.n), 1, Some(3))
  {
    assert VlansOf(IN_BOTH, 1) == Declared(FIVE_AND_SIX);
    OneBundleReconciled(FIVE_AND_SIX, IN_BOTH, Some(3));
    var n := OneBundle(FIVE_AND_SIX, IN_BOTH, Some(3));
    assert 5 in Declared(FIVE_AND_SIX) && 5 !in Declared(SIX);
    RemovedTrunksMeaning(FIVE_AND_SIX, SIX);
    AddedTrunksMeaning(FIVE_AND_SIX, SIX);
    hide Reconciled, Linked, ShadowInv, PortOf, PortsReconfigure, RemovedTrunks, AddedTrunks, Declared;
    ReconciledIsLinked(n);
    ReconciledAt(n, 1);
    assert !Departs([1], [1]);
    assert GetsThrough(n, 0, [1], SIX);
    StayerDeclared(n, 0, [1], SIX, 1);
    ReconciliationFlushes(n, 0, [1], SIX, 1);
    NoNewSlaves(n, 0, [1], SIX);
  }

  /** When every slave is in the bundle already, a reconciliation that gets through succeeds. */
  lemma NoNewSlaves(n: Net, b: BundleId, slaves: seq<HwId>, s: Settings)
    requires Linked(n) && b in n.bundles && GoodSettings(s) && GetsThrough(n, b, slaves, s)
    requires forall id :: id in slaves ==> id in n.bundles[b].ports
    ensures PortsReconfigure(n, b, slaves, s).ok
  {
    hide Linked, ShadowInv, PortOf, DelDeparted, VlanReconfigure, AddNew, Declared, Flushes, RemovedTrunks, GoodSettings,
         CanLeave, CanJoin;
    SettingsAreGood(n, b);
    var bundle := n.bundles[b];
    NoDupPorts(n, b);
    DelDepartedOkIff(n, b, bundle.ports, slaves);
    DelDepartedFrame(n, b, bundle.ports, slaves);
    var gone := DelDeparted(n, bundle.ports, slaves).n;
    StayingPorts(n, b, slaves);
    ReconfigureVlansLinked(gone, b, s);
    ReconfigureStayers(n.t, gone.t, gone.bundles[b].ports, bundle.settings, s);
    var kept := ReconfigureVlans(gone, b, s).n;
    NothingNew(kept, b, slaves);
  }

  lemma {:induction false} NothingNew(n: Net, b: BundleId, slaves: seq<HwId>)
    requires Linked(n) && b in n.bundles && forall id :: id in slaves ==> id in n.bundles[b].ports
    ensures AddNew(n, b, slaves) == NetResult(n, true)
  {
    hide Linked, PortAdd;
    if slaves != [] {
      NothingNew(n, b, slaves[..|slaves| - 1]);
      assert slaves[|slaves| - 1] in slaves;
    }
  }
}
