/**
 Which ports belong to which bundle, and the reconciliation of a bundle's ports with a new
 slave list: departed ports leave, the VLANs of the rest are reconfigured, new ports join,
 taken from another bundle if need be. Over any sequence of reconciliations that report
 success, every port has exactly the VLANs its bundle declares.
 */
module BundlePorts {
  import opened Options
  import opened VlanPort
  import opened VlanTable
  import opened VlanBundle
  import opened PortVlans

  type BundleId = nat

  datatype Bundle = Bundle(settings: Settings, ports: seq<HwId>, lag: Option<nat>)

  datatype Net = Net(
    t: Table,
    bundles: map<BundleId, Bundle>,
    owner: map<HwId, BundleId>,  // port->bundle
    flushes: seq<Flush>)

  datatype NetResult = NetResult(n: Net, ok: bool)

  /** Ports and bundles name each other. */
  ghost predicate Linked(n: Net) {
    && (forall id :: id in n.owner ==> n.owner[id] in n.bundles && id in n.bundles[n.owner[id]].ports)
    && (forall b, id :: b in n.bundles && id in n.bundles[b].ports ==> id in n.owner && n.owner[id] == b)
    && (forall b :: b in n.bundles ==> NoDup(n.bundles[b].ports) && GoodSettings(n.bundles[b].settings))
  }

  /** What a port's VLANs should be: its bundle's, or none. */
  ghost function Expected(n: Net, id: HwId): map<Vid, Tag>
    requires Linked(n)
  {
    if id in n.owner then Declared(n.bundles[n.owner[id]].settings) else map[]
  }

  /** Every port has exactly the VLANs of its bundle, and a free port has none. */
  ghost predicate Reconciled(n: Net) {
    Linked(n) && forall id :: PortOf(n.t, id).vlans == Expected(n, id)
  }

  // ------------------------------------------------------------------ removing a port

  /** __ofbundle_port_del: the port leaves the list even when a VLAN call failed. */
  function PortDel(n: Net, id: HwId): NetResult
    requires Linked(n) && id in n.owner
  {
    var b := n.owner[id];
    var r := DetachVlans(n.t, id, n.bundles[b].settings);
    NetResult(n.(t := r.t,
                 bundles := n.bundles[b := n.bundles[b].(ports := Without(n.bundles[b].ports, id))],
                 owner := n.owner - {id}),
              r.ok)
  }

  /** __bundle_remove: a bundle that loses its last port is destroyed. */
  function BundleRemove(n: Net, id: HwId): NetResult
    requires Linked(n) && id in n.owner
  {
    var b := n.owner[id];
    var r := PortDel(n, id);
    NetResult(if r.n.bundles[b].ports == [] then r.n.(bundles := r.n.bundles - {b}) else r.n, r.ok)
  }

  /** The VLANs of a port that left cleanly are none, and everybody else's are as before. */
  ghost predicate Freed(n: Net, n': Net, id: HwId) {
    && n'.owner == n.owner - {id}
    && PortOf(n'.t, id).vlans == map[]
    && (forall other :: other != id ==> PortOf(n'.t, other) == PortOf(n.t, other))
    && (forall other :: other in n'.owner ==>
          n'.owner[other] in n'.bundles && n'.owner[other] in n.bundles
          && n'.bundles[n'.owner[other]].settings == n.bundles[n'.owner[other]].settings)
  }

  lemma PortDelLinked(n: Net, id: HwId)
    requires Linked(n) && id in n.owner
    ensures var r := PortDel(n, id);
            Linked(r.n) && Keeps(n.t, Result(r.n.t, r.ok)) && (!n.t.strict ==> r.ok)
  {
    hide ShadowInv, Declared, DetachVlans, PortOf;
    var b := n.owner[id];
    DetachPort(n.t, id, n.bundles[b].settings);
    WithoutElems(n.bundles[b].ports, id);
  }

  lemma PortDelFrees(n: Net, id: HwId)
    requires Reconciled(n) && id in n.owner && PortDel(n, id).ok
    ensures Freed(n, PortDel(n, id).n, id)
  {
    hide ShadowInv, Declared, DetachVlans, PortOf, ExitBundle;
    var s := n.bundles[n.owner[id]].settings;
    DetachPort(n.t, id, s);
    ExitBundleLeavesNothing(PortOf(n.t, id), s);
    assert PortOf(n.t, id).vlans == Declared(s);
    assert ExitBundle(PortOf(n.t, id), s).vlans == map[];
  }

  lemma FreedReconciled(n: Net, n': Net, id: HwId)
    requires Reconciled(n) && id in n.owner && Linked(n') && Freed(n, n', id)
    ensures Reconciled(n')
  {
    hide PortOf, Declared;
    forall other ensures PortOf(n'.t, other).vlans == Expected(n', other) {
      assert PortOf(n.t, other).vlans == Expected(n, other);
    }
  }

  lemma BundleRemoveLinked(n: Net, id: HwId)
    requires Linked(n) && id in n.owner
    ensures var r := BundleRemove(n, id);
            && Linked(r.n) && Keeps(n.t, Result(r.n.t, r.ok)) && (!n.t.strict ==> r.ok)
            && r.n.owner == n.owner - {id}
            && (forall b :: b in n.bundles && b != n.owner[id] ==> b in r.n.bundles && r.n.bundles[b] == n.bundles[b])
  {
    hide ShadowInv, Linked, PortDel, Keeps;
    PortDelLinked(n, id);
    PortDelFrame(n, id);
    OwnerHasBundle(n, id);
    if PortDel(n, id).n.bundles[n.owner[id]].ports == [] {
      WithoutEmptyBundle(PortDel(n, id).n, n.owner[id]);
    }
    KeepsTable(n.t, Result(PortDel(n, id).n.t, PortDel(n, id).ok), BundleRemove(n, id).n.t);
  }

  lemma KeepsTable(t: Table, r: Result, t': Table)
    requires Keeps(t, r) && t' == r.t
    ensures Keeps(t, Result(t', r.ok))
  {
  }

  lemma OwnerHasBundle(n: Net, id: HwId)
    requires Linked(n) && id in n.owner
    ensures n.owner[id] in n.bundles
  {
  }

  lemma PortDelFrame(n: Net, id: HwId)
    requires Linked(n) && id in n.owner
    ensures var m := PortDel(n, id).n;
            && m.owner == n.owner - {id} && m.bundles.Keys == n.bundles.Keys
            && (forall b :: b in n.bundles && b != n.owner[id] ==> m.bundles[b] == n.bundles[b])
  {
    hide DetachVlans, Without;
  }

  lemma WithoutEmptyBundle(m: Net, b: BundleId)
    requires Linked(m) && b in m.bundles && m.bundles[b].ports == []
    ensures Linked(m.(bundles := m.bundles - {b}))
  {
    hide GoodSettings, NoDup;
  }

  // ------------------------------------------------------------------ adding a port

  /** The port is on the bundle's list, and the bundle is its owner. */
  function Joined(n: Net, t: Table, b: BundleId, id: HwId): Net
    requires b in n.bundles
  {
    n.(t := t,
       bundles := n.bundles[b := n.bundles[b].(ports := n.bundles[b].ports + [id])],
       owner := n.owner[id := b])
  }

  lemma JoinedLinked(n: Net, t: Table, b: BundleId, id: HwId)
    requires Linked(n) && b in n.bundles && id !in n.owner
    ensures Linked(Joined(n, t, b, id))
  {
    hide GoodSettings;
    var n' := Joined(n, t, b, id);
    forall b', x | b' in n'.bundles && x in n'.bundles[b'].ports
      ensures x in n'.owner && n'.owner[x] == b'
    {
      assert x in n.bundles[b'].ports || (b' == b && x == id);
    }
    forall x | x in n'.owner ensures n'.owner[x] in n'.bundles && x in n'.bundles[n'.owner[x]].ports {
      if x == id {
        assert n'.bundles[b].ports[|n.bundles[b].ports|] == id;
      } else {
        var ports := n.bundles[n.owner[x]].ports;
        var i :| 0 <= i < |ports| && ports[i] == x;
        assert n'.bundles[n.owner[x]].ports[i] == x;
      }
    }
    assert id !in n.bundles[b].ports;
  }

  /** The net once the port is free: taken from the bundle it was in, if any. */
  function Vacated(n: Net, id: HwId): Net
    requires Linked(n)
  {
    if id in n.owner then BundleRemove(n, id).n else n
  }

  lemma VacatedLinked(n: Net, id: HwId)
    requires Linked(n)
    ensures var n0 := Vacated(n, id);
            && Linked(n0) && Keeps(n.t, Result(n0.t, true)) && n0.owner == n.owner - {id}
            && (forall b :: b in n.bundles && (id in n.owner ==> b != n.owner[id]) ==>
                  b in n0.bundles && n0.bundles[b] == n.bundles[b])
  {
    hide ShadowInv, BundleRemove;
    if id in n.owner {
      BundleRemoveLinked(n, id);
    }
  }

  lemma FlushesLinked(n: Net, flushes: seq<Flush>)
    requires Linked(n)
    ensures Linked(n.(flushes := flushes))
  {
    hide GoodSettings, NoDup;
  }

  /** __ofbundle_port_add, for a system-type port. */
  function PortAdd(n: Net, b: BundleId, id: HwId): NetResult
    requires Linked(n) && b in n.bundles && (id in n.owner ==> n.owner[id] != b)
  {
    VacatedLinked(n, id);
    var n0 := Vacated(n, id);
    var bundle := n0.bundles[b];
    var r := AttachVlans(n0.t, id, bundle.settings);
    var joined := Joined(n0, r.t, b, id);
    // a failed access or trunk call skips the LAG code, a failed native call alone does not
    var reachesLag := r.ok || (bundle.settings.mode.NativeTagged? && bundle.settings.trunks.None?);
    NetResult(if bundle.lag.Some? && reachesLag then joined.(flushes := joined.flushes + [ByPort(id)]) else joined,
              r.ok)
  }

  lemma PortAddLinked(n: Net, b: BundleId, id: HwId)
    requires Linked(n) && b in n.bundles && (id in n.owner ==> n.owner[id] != b)
    ensures var r := PortAdd(n, b, id);
            && Linked(r.n) && Keeps(n.t, Result(r.n.t, r.ok)) && (!n.t.strict ==> r.ok)
            && b in r.n.bundles && r.n.bundles[b] == n.bundles[b].(ports := n.bundles[b].ports + [id])
            && r.n.owner == n.owner[id := b]
  {
    hide ShadowInv, AttachVlans, Vacated, Linked;
    VacatedLinked(n, id);
    var n0 := Vacated(n, id);
    SettingsAreGood(n0, b);
    AttachPort(n0.t, id, n0.bundles[b].settings);
    var r := AttachVlans(n0.t, id, n0.bundles[b].settings);
    var joined := Joined(n0, r.t, b, id);
    JoinedLinked(n0, r.t, b, id);
    FlushesLinked(joined, joined.flushes + [ByPort(id)]);
    assert (n.owner - {id})[id := b] == n.owner[id := b];
  }

  lemma SettingsAreGood(n: Net, b: BundleId)
    requires Linked(n) && b in n.bundles
    ensures GoodSettings(n.bundles[b].settings)
  {
  }

  /** What taking the port from the bundle it is in, if any, leaves on it. */
  function LeftOn(n: Net, id: HwId): map<Vid, Tag>
    requires Linked(n)
  {
    if id in n.owner then LeftBehind(n.t, n.bundles[n.owner[id]].settings) else map[]
  }

  lemma VacatedLeaves(n: Net, id: HwId)
    requires Reconciled(n)
    ensures Linked(Vacated(n, id)) && PortOf(Vacated(n, id).t, id).vlans == LeftOn(n, id)
  {
    hide PortOf, Declared, LeftBehind, DetachVlans;
    VacatedLinked(n, id);
    assert PortOf(n.t, id).vlans == Expected(n, id);
    if id in n.owner {
      DetachLeaves(n.t, id, n.bundles[n.owner[id]].settings);
    }
  }

  /** Taking a port out of its bundle succeeds, and leaves every port right, iff no VLAN of the bundle is refused. */
  lemma BundleRemoveIff(n: Net, id: HwId)
    requires Reconciled(n) && id in n.owner
    ensures BundleRemove(n, id).ok <==> CleanlyTaken(n, id)
    ensures Reconciled(BundleRemove(n, id).n) <==> CleanlyTaken(n, id)
  {
    hide PortOf, Declared, DetachVlans, LeftOn, Without;
    DetachOkIff(n.t, id, n.bundles[n.owner[id]].settings);
    VacatedLinked(n, id);
    VacatedLeaves(n, id);
    VacatedElsewhere(n, id);
    LeftOnIff(n, id);
    var n' := BundleRemove(n, id).n;
    assert Expected(n', id) == map[];
    forall other | other != id ensures PortOf(n'.t, other).vlans == Expected(n', other) {
      assert SamePort(n, n', other) && PortOf(n.t, other).vlans == Expected(n, other);
    }
  }

  /** Every port but one has the same VLANs, owner and settings as before. */
  ghost predicate SameElsewhere(n: Net, n': Net, id: HwId)
    requires Linked(n) && Linked(n')
  {
    forall other :: other != id ==> SamePort(n, n', other)
  }

  ghost predicate SamePort(n: Net, n': Net, other: HwId)
    requires Linked(n) && Linked(n')
  {
    && PortOf(n'.t, other) == PortOf(n.t, other)
    && Expected(n', other) == Expected(n, other)
    && (other in n'.owner <==> other in n.owner)
    && (other in n.owner ==>
          && n'.owner[other] == n.owner[other]
          && n'.bundles[n'.owner[other]].settings == n.bundles[n.owner[other]].settings)
  }

  lemma VacatedElsewhere(n: Net, id: HwId)
    requires Linked(n)
    ensures Linked(Vacated(n, id)) && SameElsewhere(n, Vacated(n, id), id)
  {
    hide PortOf, Declared, DetachVlans, Without, ShadowInv, GoodSettings, NoDup, Accepts;
    VacatedLinked(n, id);
    if id in n.owner {
      SettingsAreGood(n, n.owner[id]);
      DetachConfined(n.t, id, n.bundles[n.owner[id]].settings);
    }
  }

  /** Whatever the outcome, adding a port changes nothing about the others. */
  lemma PortAddElsewhere(n: Net, b: BundleId, id: HwId)
    requires Linked(n) && b in n.bundles && (id in n.owner ==> n.owner[id] != b)
    ensures Linked(PortAdd(n, b, id).n) && SameElsewhere(n, PortAdd(n, b, id).n, id)
  {
    hide PortOf, Declared, AttachVlans, Vacated, Linked, LeftBehind;
    PortAddLinked(n, b, id);
    VacatedLinked(n, id);
    VacatedElsewhere(n, id);
    var n0 := Vacated(n, id);
    SettingsAreGood(n0, b);
    AttachConfined(n0.t, id, n0.bundles[b].settings);
    var n' := PortAdd(n, b, id).n;
    forall other | other != id ensures SamePort(n, n', other) {
      assert SamePort(n, n0, other);
      if other in n0.owner {
        OwnerHasBundle(n0, other);
      }
    }
  }

  /**
   Adding a port that reports success keeps every port at its bundle's VLANs iff what was
   left on the port fits the settings of the bundle it joined.
   */
  lemma PortAddReconciledIff(n: Net, b: BundleId, id: HwId)
    requires Reconciled(n) && b in n.bundles && (id in n.owner ==> n.owner[id] != b)
    requires GoodSettings(n.bundles[b].settings) && PortAdd(n, b, id).ok
    ensures Reconciled(PortAdd(n, b, id).n) <==> Fits(n.t, LeftOn(n, id), n.bundles[b].settings)
  {
    hide ShadowInv, AttachVlans, Vacated, Linked, Declared, PortOf, LeftOn, Fits;
    PortAddLinked(n, b, id);
    PortAddElsewhere(n, b, id);
    VacatedLinked(n, id);
    VacatedLeaves(n, id);
    var n0 := Vacated(n, id);
    var s := n.bundles[b].settings;
    AttachDeclaresIff(n0.t, id, s);
    FitsKept(n.t, n0.t, LeftOn(n, id), s);
    var n' := PortAdd(n, b, id).n;
    assert Expected(n', id) == Declared(s);
    forall other | other != id ensures PortOf(n'.t, other).vlans == Expected(n', other) {
      assert SamePort(n, n', other) && PortOf(n.t, other).vlans == Expected(n, other);
    }
  }

  lemma FitsKept(t: Table, t': Table, left: map<Vid, Tag>, s: Settings)
    requires GoodSettings(s) && t'.hw.Keys == t.hw.Keys && t'.strict == t.strict
    ensures Fits(t', left, s) <==> Fits(t, left, s)
    ensures LeftBehind(t', s) == LeftBehind(t, s)
  {
    assert forall v: Vid :: Accepts(t', v) <==> Accepts(t, v);
    forall v ensures RefusedUpTo(t', TrunksOf(s), v) <==> RefusedUpTo(t, TrunksOf(s), v) {
      RefusedUpToKept(t, t', TrunksOf(s), v);
    }
  }

  // ------------------------------------------------------------------ the whole reconciliation

  /** First loop: the listed ports that are not among the slaves leave, until a call fails. */
  function DelDeparted(n: Net, ports: seq<HwId>, slaves: seq<HwId>): (r: NetResult)
    requires Linked(n)
    ensures Linked(r.n)
  {
    if ports == [] then NetResult(n, true)
    else
      var k := |ports| - 1;
      var r := DelDeparted(n, ports[..k], slaves);
      if !r.ok || ports[k] in slaves || ports[k] !in r.n.owner then r
      else
        PortDelLinked(r.n, ports[k]);
        PortDel(r.n, ports[k])
  }

  /** Then the VLANs of the ports that stay. */
  function ReconfigureVlans(n: Net, b: BundleId, s: Settings): NetResult
    requires Linked(n) && b in n.bundles && GoodSettings(s)
  {
    var bundle := n.bundles[b];
    var r := VlanReconfigure(n.t, bundle.ports, bundle.settings, s);
    if r.ok then
      NetResult(n.(t := r.t,
                   bundles := n.bundles[b := bundle.(settings := s)],
                   flushes := n.flushes + Flushes(bundle.settings, s, bundle.lag, bundle.ports)), true)
    else NetResult(n.(t := r.t), false)
  }

  /** Last loop: slaves that are not in the bundle yet join it, until a call fails. */
  function AddNew(n: Net, b: BundleId, slaves: seq<HwId>): (r: NetResult)
    requires Linked(n) && b in n.bundles
    ensures Linked(r.n) && b in r.n.bundles
  {
    if slaves == [] then NetResult(n, true)
    else
      var k := |slaves| - 1;
      var r := AddNew(n, b, slaves[..k]);
      if !r.ok || slaves[k] in r.n.bundles[b].ports then r
      else
        PortAddLinked(r.n, b, slaves[k]);
        PortAdd(r.n, b, slaves[k])
  }

  /** __ofbundle_ports_reconfigure */
  function PortsReconfigure(n: Net, b: BundleId, slaves: seq<HwId>, s: Settings): NetResult
    requires Linked(n) && b in n.bundles && GoodSettings(s)
  {
    DelDepartedFrame(n, b, n.bundles[b].ports, slaves);
    var r := DelDeparted(n, n.bundles[b].ports, slaves);
    if !r.ok then r
    else
      ReconfigureVlansLinked(r.n, b, s);
      var r' := ReconfigureVlans(r.n, b, s);
      if r'.ok then AddNew(r'.n, b, slaves) else r'
  }

  /** Removing departed ports touches only membership, and only of the listed ones. */
  lemma {:induction false} DelDepartedFrame(n: Net, b: BundleId, ports: seq<HwId>, slaves: seq<HwId>)
    requires Linked(n) && b in n.bundles
    ensures var r := DelDeparted(n, ports, slaves);
            && b in r.n.bundles && r.n.bundles[b].settings == n.bundles[b].settings
            && r.n.bundles[b].lag == n.bundles[b].lag
            && Keeps(n.t, Result(r.n.t, r.ok)) && (!n.t.strict ==> r.ok)
            && (forall id :: id in r.n.owner ==> id in n.owner && r.n.owner[id] == n.owner[id])
            && (r.ok ==> forall id :: id in r.n.owner <==> id in n.owner && (id in ports ==> id in slaves))
            && (forall c :: c in n.bundles ==> c in r.n.bundles && r.n.bundles[c].settings == n.bundles[c].settings)
  {
    hide Linked, ShadowInv, DetachVlans;
    if ports != [] {
      var k := |ports| - 1;
      DelDepartedFrame(n, b, ports[..k], slaves);
      var r := DelDeparted(n, ports[..k], slaves);
      assert forall id :: id in ports <==> id in ports[..k] || id == ports[k];
      if r.ok && ports[k] !in slaves && ports[k] in r.n.owner {
        PortDelLinked(r.n, ports[k]);
      }
    }
  }

  lemma ReconciledIsLinked(n: Net)
    requires Reconciled(n)
    ensures Linked(n)
  {
  }

  lemma {:induction false} DelDepartedReconciled(n: Net, ports: seq<HwId>, slaves: seq<HwId>)
    requires Reconciled(n) && DelDeparted(n, ports, slaves).ok
    ensures Reconciled(DelDeparted(n, ports, slaves).n)
  {
    hide Reconciled, PortDel;
    ReconciledIsLinked(n);
    if ports != [] {
      var k := |ports| - 1;
      DelDepartedReconciled(n, ports[..k], slaves);
      var r := DelDeparted(n, ports[..k], slaves);
      if ports[k] !in slaves && ports[k] in r.n.owner {
        PortDelLinked(r.n, ports[k]);
        PortDelFrees(r.n, ports[k]);
        FreedReconciled(r.n, PortDel(r.n, ports[k]).n, ports[k]);
      }
    }
  }

  lemma ReconfigureVlansLinked(n: Net, b: BundleId, s: Settings)
    requires Linked(n) && b in n.bundles && GoodSettings(s)
    ensures var r := ReconfigureVlans(n, b, s);
            && Linked(r.n) && Keeps(n.t, Result(r.n.t, r.ok)) && (!n.t.strict ==> r.ok)
            && r.n.owner == n.owner && b in r.n.bundles && r.n.bundles[b].ports == n.bundles[b].ports
            && (r.ok ==> r.n.bundles[b].settings == s)
  {
    hide ShadowInv, VlanReconfigure, Flushes, PortOf;
    VlanReconfigurePort(n.t, n.bundles[b].ports, n.bundles[b].settings, s, 0);
  }

  lemma ReconfigureVlansReconciled(n: Net, b: BundleId, s: Settings)
    requires Reconciled(n) && b in n.bundles && GoodSettings(s) && ReconfigureVlans(n, b, s).ok
    ensures Reconciled(ReconfigureVlans(n, b, s).n)
  {
    hide ShadowInv, VlanReconfigure, Flushes, PortOf, Declared;
    ReconfigureVlansLinked(n, b, s);
    var n' := ReconfigureVlans(n, b, s).n;
    forall id ensures PortOf(n'.t, id).vlans == Expected(n', id) {
      VlanReconfigurePort(n.t, n.bundles[b].ports, n.bundles[b].settings, s, id);
      assert PortOf(n.t, id).vlans == Expected(n, id);
    }
  }

  lemma {:induction false} AddNewFrame(n: Net, b: BundleId, slaves: seq<HwId>)
    requires Linked(n) && b in n.bundles
    ensures var r := AddNew(n, b, slaves);
            && r.n.bundles[b].settings == n.bundles[b].settings
            && Keeps(n.t, Result(r.n.t, r.ok)) && (!n.t.strict ==> r.ok)
            && (forall id :: id in r.n.bundles[b].ports ==> id in n.bundles[b].ports || id in slaves)
            && (forall id :: id in n.bundles[b].ports ==> id in r.n.bundles[b].ports)
            && (r.ok ==> forall id :: id in slaves ==> id in r.n.bundles[b].ports)
            && (forall id :: id in r.n.owner && id !in slaves ==> id in n.owner && n.owner[id] == r.n.owner[id])
            && (forall id :: id in n.owner && id !in slaves ==> id in r.n.owner)
  {
    hide Linked, ShadowInv, PortAdd;
    if slaves != [] {
      var k := |slaves| - 1;
      AddNewFrame(n, b, slaves[..k]);
      var r := AddNew(n, b, slaves[..k]);
      assert forall id :: id in slaves <==> id in slaves[..k] || id == slaves[k];
      OwnerOfMember(r.n, b, slaves[k]);
      if r.ok && slaves[k] !in r.n.bundles[b].ports {
        PortAddLinked(r.n, b, slaves[k]);
        var ports := r.n.bundles[b].ports;
        assert forall id :: id in ports + [slaves[k]] <==> id in ports || id == slaves[k];
      }
    }
  }

  lemma OwnerOfMember(n: Net, b: BundleId, id: HwId)
    requires Linked(n) && b in n.bundles
    ensures id in n.bundles[b].ports <==> id in n.owner && n.owner[id] == b
  {
  }

  /** A slave that does not own its place in the bundle yet has nothing on it that does not fit. */
  predicate JoinFits(n: Net, b: BundleId, id: HwId, s: Settings)
    requires Linked(n) && GoodSettings(s)
  {
    !(id in n.owner && n.owner[id] == b) ==> Fits(n.t, LeftOn(n, id), s)
  }

  predicate JoinsFit(n: Net, b: BundleId, slaves: seq<HwId>, s: Settings)
    requires Linked(n) && GoodSettings(s)
  {
    forall id :: id in slaves ==> JoinFits(n, b, id, s)
  }

  lemma {:induction false} AddNewElsewhere(n: Net, b: BundleId, slaves: seq<HwId>, x: HwId)
    requires Linked(n) && b in n.bundles && (x !in slaves || x in n.bundles[b].ports)
    ensures Linked(AddNew(n, b, slaves).n) && SamePort(n, AddNew(n, b, slaves).n, x)
  {
    hide Linked, PortOf, PortAdd, Declared, Keeps;
    if slaves != [] {
      var k := |slaves| - 1;
      AddNewElsewhere(n, b, slaves[..k], x);
      AddNewFrame(n, b, slaves[..k]);
      var r := AddNew(n, b, slaves[..k]);
      OwnerOfMember(r.n, b, slaves[k]);
      if r.ok && slaves[k] !in r.n.bundles[b].ports {
        PortAddElsewhere(r.n, b, slaves[k]);
        assert SamePort(r.n, PortAdd(r.n, b, slaves[k]).n, x);
      }
    }
  }

  lemma SamePortFits(n: Net, n': Net, b: BundleId, id: HwId, s: Settings)
    requires Linked(n) && Linked(n') && GoodSettings(s) && n'.t.hw.Keys == n.t.hw.Keys && n'.t.strict == n.t.strict
    requires id in n'.owner <==> id in n.owner
    requires id in n.owner ==> n'.owner[id] == n.owner[id]
    requires id in n.owner && n.owner[id] != b ==>
               n.owner[id] in n.bundles && n.owner[id] in n'.bundles
               && n'.bundles[n.owner[id]].settings == n.bundles[n.owner[id]].settings
    ensures JoinFits(n', b, id, s) <==> JoinFits(n, b, id, s)
  {
    hide Fits, LeftBehind, Linked;
    FitsKept(n.t, n'.t, LeftOn(n, id), s);
    if id in n.owner {
      OwnerHasBundle(n, id);
      SettingsAreGood(n, n.owner[id]);
      FitsKept(n.t, n'.t, map[], n.bundles[n.owner[id]].settings);
    }
  }

  /** A port that is wrong stays wrong while other ports are added. */
  lemma WrongStays(n: Net, n': Net, id: HwId)
    requires Linked(n) && Linked(n') && SameElsewhere(n, n', id)
    requires !Reconciled(n) && PortOf(n.t, id).vlans == Expected(n, id)
    ensures !Reconciled(n')
  {
    hide PortOf, Linked, Expected;
    var x :| PortOf(n.t, x).vlans != Expected(n, x);
    assert SamePort(n, n', x);
  }

  /** A port that other additions left alone joins: the net ends reconciled iff it was and the port fits. */
  lemma JoinReconciledIff(n: Net, r: Net, b: BundleId, id: HwId, s: Settings)
    requires Reconciled(n) && Linked(n) && Linked(r) && SamePort(n, r, id)
    requires r.t.hw.Keys == n.t.hw.Keys && r.t.strict == n.t.strict && GoodSettings(s)
    requires b in n.bundles && b in r.bundles && r.bundles[b].settings == s
    requires (id in r.owner ==> r.owner[id] != b) && PortAdd(r, b, id).ok
    ensures Reconciled(PortAdd(r, b, id).n) <==> Reconciled(r) && JoinFits(n, b, id, s)
  {
    hide Reconciled, PortOf, PortAdd, JoinFits, LeftOn, Fits, Linked, Expected, SameElsewhere;
    if id in n.owner {
      OwnerHasBundle(n, id);
      OwnerHasBundle(r, id);
    }
    SamePortFits(n, r, b, id, s);
    PortAddElsewhere(r, b, id);
    if Reconciled(r) {
      PortAddReconciledIff(r, b, id);
      JoinFitsOther(r, b, id, s);
    } else {
      ReconciledAt(n, id);
      WrongStays(r, PortAdd(r, b, id).n, id);
    }
  }

  /** One turn of the last loop. */
  lemma {:induction false} AddNewTurn(n: Net, b: BundleId, front: seq<HwId>, id: HwId, r: Net)
    requires Reconciled(n) && b in n.bundles && AddNew(n, b, front + [id]).ok
    requires AddNew(n, b, front) == NetResult(r, true) && Linked(r) && b in r.bundles
    requires id !in r.bundles[b].ports && id !in front && GoodSettings(n.bundles[b].settings)
    ensures Reconciled(AddNew(n, b, front + [id]).n)
            <==> Reconciled(r) && JoinFits(n, b, id, n.bundles[b].settings)
  {
    hide Reconciled, PortOf, PortAdd, AddNew, JoinFits, Linked, Expected, SamePort;
    ReconciledIsLinked(n);
    AddNewLast(n, b, front, id, r);
    AddNewFrame(n, b, front);
    AddNewElsewhere(n, b, front, id);
    JoinReconciledIff(n, r, b, id, n.bundles[b].settings);
  }

  lemma {:induction false} AddNewLast(n: Net, b: BundleId, front: seq<HwId>, id: HwId, r: Net)
    requires Linked(n) && b in n.bundles && Linked(r) && b in r.bundles && id !in r.bundles[b].ports
    requires AddNew(n, b, front) == NetResult(r, true)
    ensures (id in r.owner ==> r.owner[id] != b) && AddNew(n, b, front + [id]) == PortAdd(r, b, id)
  {
    hide Linked, PortAdd;
    OwnerOfMember(r, b, id);
    assert (front + [id])[..|front|] == front;
  }

  lemma ReconciledAt(n: Net, id: HwId)
    requires Reconciled(n)
    ensures PortOf(n.t, id).vlans == Expected(n, id)
  {
  }

  lemma JoinFitsOther(n: Net, b: BundleId, id: HwId, s: Settings)
    requires Linked(n) && GoodSettings(s) && (id in n.owner ==> n.owner[id] != b)
    ensures JoinFits(n, b, id, s) <==> Fits(n.t, LeftOn(n, id), s)
  {
  }

  lemma {:induction false} AddNewReconciledIff(n: Net, b: BundleId, slaves: seq<HwId>)
    requires Reconciled(n) && b in n.bundles && AddNew(n, b, slaves).ok && GoodSettings(n.bundles[b].settings)
    ensures Reconciled(AddNew(n, b, slaves).n) <==> JoinsFit(n, b, slaves, n.bundles[b].settings)
  {
    hide Reconciled, ShadowInv, PortAdd, Linked, Fits;
    ReconciledIsLinked(n);
    if slaves != [] {
      var k, s := |slaves| - 1, n.bundles[b].settings;
      AddNewReconciledIff(n, b, slaves[..k]);
      AddNewFrame(n, b, slaves[..k]);
      var r := AddNew(n, b, slaves[..k]);
      assert forall id :: id in slaves <==> id in slaves[..k] || id == slaves[k];
      OwnerOfMember(n, b, slaves[k]);
      if slaves[k] in r.n.bundles[b].ports {
        assert slaves[k] in n.bundles[b].ports || slaves[k] in slaves[..k];
      } else {
        assert slaves == slaves[..k] + [slaves[k]];
        AddNewTurn(n, b, slaves[..k], slaves[k], r.n);
      }
    }
  }

  /** Whatever fails on the way, ports and bundles stay linked and the shadow stays right. */
  lemma ReconfigureKeepsLinks(n: Net, b: BundleId, slaves: seq<HwId>, s: Settings)
    requires Linked(n) && b in n.bundles && GoodSettings(s)
    ensures var r := PortsReconfigure(n, b, slaves, s);
            && Linked(r.n) && b in r.n.bundles && (ShadowInv(n.t) ==> ShadowInv(r.n.t))
            && (!n.t.strict ==> r.ok)
  {
    hide Linked, ShadowInv, DelDeparted, ReconfigureVlans, AddNew;
    DelDepartedFrame(n, b, n.bundles[b].ports, slaves);
    var r := DelDeparted(n, n.bundles[b].ports, slaves);
    if r.ok {
      ReconfigureVlansLinked(r.n, b, s);
      var r' := ReconfigureVlans(r.n, b, s);
      if r'.ok {
        AddNewFrame(r'.n, b, slaves);
      }
    }
  }

  /** Membership after a successful reconciliation: the bundle's ports are exactly the slaves. */
  lemma SlavesAreMembers(n: Net, b: BundleId, slaves: seq<HwId>, s: Settings, id: HwId)
    requires Linked(n) && b in n.bundles && GoodSettings(s)
    requires PortsReconfigure(n, b, slaves, s).ok
    ensures var n' := PortsReconfigure(n, b, slaves, s).n;
            && Linked(n') && b in n'.bundles && n'.bundles[b].settings == s
            && (id in n'.bundles[b].ports <==> id in slaves)
            && (id in n.bundles[b].ports && id !in slaves ==> id !in n'.owner)
  {
    hide Linked, ShadowInv, DelDeparted, ReconfigureVlans, AddNew;
    var ports := n.bundles[b].ports;
    DelDepartedFrame(n, b, ports, slaves);
    var gone := DelDeparted(n, ports, slaves).n;
    ReconfigureVlansLinked(gone, b, s);
    var kept := ReconfigureVlans(gone, b, s).n;
    AddNewFrame(kept, b, slaves);
    OwnerOfMember(n, b, id);
    OwnerOfMember(gone, b, id);
  }

  /**
   Bundle reconciliation. From a net where every port has its bundle's declared VLANs, a
   reconciliation that reports success reaches such a net again iff whatever taking its new
   slaves from other bundles leaves on them fits the new settings; and then the slaves have
   the declared VLANs and no VLAN is left on a departed port.
   */
  lemma ReconciliationIff(n: Net, b: BundleId, slaves: seq<HwId>, s: Settings)
    requires Reconciled(n) && b in n.bundles && GoodSettings(s)
    requires PortsReconfigure(n, b, slaves, s).ok
    ensures var n' := PortsReconfigure(n, b, slaves, s).n;
            && b in n'.bundles && (forall id :: id in n'.bundles[b].ports <==> id in slaves)
            && (Reconciled(n') <==> JoinsFit(n, b, slaves, s))
            && (Reconciled(n') ==>
                  && (forall id :: id in slaves ==> PortOf(n'.t, id).vlans == Declared(s))
                  && (forall id :: id in n.bundles[b].ports && id !in slaves ==> PortOf(n'.t, id).vlans == map[]))
  {
    hide Reconciled, PortsReconfigure, PortOf, Declared, JoinsFit;
    ReconciledIsLinked(n);
    StagesReconciled(n, b, slaves, s);
    var n' := PortsReconfigure(n, b, slaves, s).n;
    if Reconciled(n') {
      MembersDeclared(n, b, slaves, s);
    }
    SlavesAreMembers(n, b, slaves, s, 0);
    forall id ensures b in n'.bundles && (id in n'.bundles[b].ports <==> id in slaves) {
      SlavesAreMembers(n, b, slaves, s, id);
    }
  }

  /**
   In the caller's terms, for settings the switch accepts: the new net is right iff the
   switch accepts every VLAN declared by the bundles that slaves are taken from, and nobody
   joins a native-untagged bundle whose native VLAN is among its trunks.
   */
  lemma CleanStealsIff(n: Net, b: BundleId, slaves: seq<HwId>, s: Settings)
    requires Reconciled(n) && b in n.bundles && GoodSettings(s)
    requires PortsReconfigure(n, b, slaves, s).ok && forall v :: v in Declared(s) ==> Accepts(n.t, v)
    ensures Reconciled(PortsReconfigure(n, b, slaves, s).n)
            <==> forall id :: id in slaves && !(id in n.owner && n.owner[id] == b) ==>
                   && !(s.mode.NativeUntagged? && s.vlan in TrunksOf(s))
                   && CleanlyTaken(n, id)
  {
    hide Reconciled, PortsReconfigure, PortOf, Declared, Fits, LeftOn;
    ReconciledIsLinked(n);
    ReconciliationIff(n, b, slaves, s);
    forall id ensures Fits(n.t, LeftOn(n, id), s)
                      <==> !(s.mode.NativeUntagged? && s.vlan in TrunksOf(s)) && CleanlyTaken(n, id)
    {
      LeftOnIff(n, id);
      FitsWhenAccepted(n.t, LeftOn(n, id), s);
    }
  }

  /** Every VLAN of the bundle the port is in, if any, is accepted. */
  predicate CleanlyTaken(n: Net, id: HwId)
    requires Linked(n)
  {
    id in n.owner ==> forall v :: v in Declared(n.bundles[n.owner[id]].settings) ==> Accepts(n.t, v)
  }

  lemma LeftOnIff(n: Net, id: HwId)
    requires Linked(n)
    ensures LeftOn(n, id) == map[] <==> CleanlyTaken(n, id)
    ensures LeftOn(n, id) != map[] ==> exists v :: v in LeftOn(n, id) && !Accepts(n.t, v)
  {
    hide LeftBehind, Declared;
    if id in n.owner {
      NothingLeftIff(n.t, n.bundles[n.owner[id]].settings);
      LeftIsRefused(n.t, n.bundles[n.owner[id]].settings);
    }
  }

  /** On a switch that refuses nothing every reported success is right, the tag clash apart. */
  lemma LenientReconciliation(n: Net, b: BundleId, slaves: seq<HwId>, s: Settings)
    requires Reconciled(n) && b in n.bundles && GoodSettings(s) && !n.t.strict
    requires !(s.mode.NativeUntagged? && s.vlan in TrunksOf(s))
    ensures PortsReconfigure(n, b, slaves, s).ok && Reconciled(PortsReconfigure(n, b, slaves, s).n)
  {
    hide Reconciled, PortsReconfigure, PortOf, Declared;
    ReconciledIsLinked(n);
    ReconfigureKeepsLinks(n, b, slaves, s);
    CleanStealsIff(n, b, slaves, s);
  }

  /** Port 1 is in a bundle of VLAN 5, which a switch that refuses missing VLANs no longer has. */
  function StaleNet(): Net {
    Net(Table(map[7 := map[]], map[5 := map[1 := Untagged]], map[], true),
        map[0 := Bundle(Settings(Access, 5, None), [1], None), 1 := Bundle(Settings(Access, 7, None), [], None)],
        map[1 := 0], [])
  }

  lemma StaleNetReconciled()
    ensures Reconciled(StaleNet()) && ShadowInv(StaleNet().t)
  {
    var n := StaleNet();
    assert Linked(n);
    forall id ensures PortOf(n.t, id).vlans == Expected(n, id) {
    }
  }

  lemma StaleNetTaken()
    requires Reconciled(StaleNet())
    ensures LeftOn(StaleNet(), 1) == map[5 := Untagged]
  {
  }

  lemma StaleNetJoins()
    requires Reconciled(StaleNet()) && LeftOn(StaleNet(), 1) == map[5 := Untagged]
    ensures var r := PortAdd(StaleNet(), 1, 1);
            r.ok && !Reconciled(r.n) && PortOf(r.n.t, 1).vlans == map[5 := Untagged, 7 := Untagged]
  {
    hide Reconciled, Linked, PortOf, AttachVlans, Vacated, LeftOn;
    var n, seven := StaleNet(), Settings(Access, 7, None);
    ReconciledIsLinked(n);
    VacatedLinked(n, 1);
    VacatedLeaves(n, 1);
    var n0 := Vacated(n, 1);
    AccessAccepted(n0.t, 7, 1);
    AttachedVlans(n0.t, 1, seven);
    assert 5 !in Declared(seven);
    PortAddReconciledIff(n, 1, 1);
  }

  /**
   The dirty steal: taking port 1 from its bundle fails, the failure is not looked at, and
   the reconciliation reports success with the port recorded in the old VLAN and in the new.
   */
  lemma DirtyStealIsNotReported()
    ensures Reconciled(StaleNet()) && ShadowInv(StaleNet().t)
    ensures var r := PortsReconfigure(StaleNet(), 1, [1], Settings(Access, 7, None));
            r.ok && !Reconciled(r.n) && PortOf(r.n.t, 1).vlans == map[5 := Untagged, 7 := Untagged]
  {
    StaleNetReconciled();
    StaleNetTaken();
    StaleNetJoins();
    StaleSteps();
    hide Reconciled, PortsReconfigure, PortOf, PortAdd;
  }

  /** With the shadow right, every port has in hardware its bundle's VLANs as far as they exist there. */
  lemma HardwareReconciled(n: Net, id: HwId)
    requires Reconciled(n) && ShadowInv(n.t)
    ensures HwVlansOf(n.t, id) == Existing(n.t, Expected(n, id))
  {
    hide PortOf;
    HardwareIsRecorded(n.t, id);
    ReconciledAt(n, id);
  }

  lemma StolenPvid()
    requires Reconciled(StaleNet()) && LeftOn(StaleNet(), 1) == map[5 := Untagged]
    ensures var r := PortAdd(StaleNet(), 1, 1); AttrsOf(r.n.t, 1).pvid == 7 && r.n.t.hw.Keys == {7}
  {
    hide Reconciled, Linked, AttachVlans, Vacated, LeftOn;
    var n, seven := StaleNet(), Settings(Access, 7, None);
    ReconciledIsLinked(n);
    PortAddLinked(n, 1, 1);
    VacatedLinked(n, 1);
    var n0 := Vacated(n, 1);
    AccessAccepted(n0.t, 7, 1);
    AttachPvidIff(n0.t, 1, seven);
  }

  lemma StaleMembers()
    requires Reconciled(StaleNet()) && PortOf(PortAdd(StaleNet(), 1, 1).n.t, 1).vlans == map[5 := Untagged, 7 := Untagged]
    ensures IsOrder(PortAdd(StaleNet(), 1, 1).n.t, 5, [1])
  {
    var n := StaleNet();
    hide Reconciled, Linked, PortOf, PortAdd;
    ReconciledIsLinked(n);
    PortAddElsewhere(n, 1, 1);
    var t := PortAdd(n, 1, 1).n.t;
    forall id ensures id in Members(t.shadow, 5) <==> id == 1 {
      MemberIff(t, 5, id);
      MemberIff(n.t, 5, id);
      assert id != 1 ==> SamePort(n, PortAdd(n, 1, 1).n, id);
    }
  }

  lemma CreatedAgain(t: Table)
    requires ShadowInv(t) && IsOrder(t, 5, [1]) && PortOf(t, 1).vlans == map[5 := Untagged, 7 := Untagged]
    requires t.hw.Keys == {7}
    ensures HwVlansOf(t, 1) == map[7 := Untagged]
    ensures var t' := Apply(t, Create(5, [1]));
            HwVlansOf(t', 1) == map[5 := Untagged, 7 := Untagged] && AttrsOf(t', 1).pvid == 5
  {
    hide ShadowInv, PortOf, Apply;
    HardwareIsRecorded(t, 1);
    MemberIff(t, 5, 1);
    CreateSetsPvid(t, 5, [1], 1);
    CreateJoinsRecorded(t, 5, [1], 1);
  }

  /**
   What becomes of the dirty steal. The old VLAN does not exist in hardware, so it is only
   recorded; when it is created again the replay puts the port into it, and the PVID that the
   port got from its new bundle is overridden by the old one.
   */
  lemma StaleVlanReturns()
    ensures var t := PortsReconfigure(StaleNet(), 1, [1], Settings(Access, 7, None)).n.t;
            && HwVlansOf(t, 1) == map[7 := Untagged] && AttrsOf(t, 1).pvid == 7
            && IsOrder(t, 5, [1])
            && var t' := Apply(t, Create(5, [1]));
               HwVlansOf(t', 1) == map[5 := Untagged, 7 := Untagged] && AttrsOf(t', 1).pvid == 5
  {
    DirtyStealIsNotReported();
    StaleNetTaken();
    StaleSteps();
    StolenPvid();
    hide Reconciled, Linked, ShadowInv, PortOf, PortsReconfigure, PortAdd, Apply, IsOrder, HwVlansOf;
    StaleMembers();
    ReconciledIsLinked(StaleNet());
    PortAddLinked(StaleNet(), 1, 1);
    CreatedAgain(PortAdd(StaleNet(), 1, 1).n.t);
  }

  /** With nothing to remove or reconfigure, the reconciliation of the stale net is the addition of port 1. */
  lemma StaleSteps()
    requires Reconciled(StaleNet())
    ensures PortsReconfigure(StaleNet(), 1, [1], Settings(Access, 7, None)) == PortAdd(StaleNet(), 1, 1)
  {
    var n := StaleNet();
    NothingToReconfigure(n, 1);
    hide Reconciled, Linked, PortOf, PortAdd, ReconfigureVlans;
    assert AddNew(n, 1, []) == NetResult(n, true);
    assert [] + [1] == [1];
    AddNewLast(n, 1, [], 1, n);
  }

  lemma NothingToReconfigure(n: Net, b: BundleId)
    requires Linked(n) && b in n.bundles && n.bundles[b].ports == [] && n.bundles[b].settings.trunks == None
    ensures GoodSettings(n.bundles[b].settings)
            && ReconfigureVlans(n, b, n.bundles[b].settings) == NetResult(n, true)
  {
    var bundle := n.bundles[b];
    SettingsAreGood(n, b);
    RemovedTrunksMeaning(bundle.settings, bundle.settings);
    assert Flushes(bundle.settings, bundle.settings, bundle.lag, []) == [];
    assert n.bundles[b := bundle.(settings := bundle.settings)] == n.bundles;
    assert n.flushes + [] == n.flushes;
  }

  lemma AccessAccepted(t: Table, vid: Vid, id: HwId)
    requires Accepts(t, vid)
    ensures AttachVlans(t, id, Settings(Access, vid, None)).ok
  {
    hide PortOf, AccessPortAdd;
    AccessPort(t, vid, id);
  }

  lemma StagesReconciled(n: Net, b: BundleId, slaves: seq<HwId>, s: Settings)
    requires Reconciled(n) && b in n.bundles && GoodSettings(s)
    requires PortsReconfigure(n, b, slaves, s).ok
    ensures Reconciled(PortsReconfigure(n, b, slaves, s).n) <==> JoinsFit(n, b, slaves, s)
  {
    hide Reconciled, ShadowInv, DelDeparted, ReconfigureVlans, AddNew, JoinFits;
    ReconciledIsLinked(n);
    var ports := n.bundles[b].ports;
    DelDepartedFrame(n, b, ports, slaves);
    DelDepartedReconciled(n, ports, slaves);
    var gone := DelDeparted(n, ports, slaves).n;
    ReconfigureVlansLinked(gone, b, s);
    ReconfigureVlansReconciled(gone, b, s);
    var kept := ReconfigureVlans(gone, b, s).n;
    AddNewReconciledIff(kept, b, slaves);
    forall id | id in slaves ensures JoinFits(kept, b, id, s) <==> JoinFits(n, b, id, s) {
      ReconfigureVlansOthers(gone, b, s);
      if id in n.owner {
        OwnerHasBundle(n, id);
      }
      SamePortFits(n, kept, b, id, s);
    }
  }

  lemma ReconfigureVlansOthers(n: Net, b: BundleId, s: Settings)
    requires Linked(n) && b in n.bundles && GoodSettings(s)
    ensures forall c :: c in n.bundles && c != b ==>
              c in ReconfigureVlans(n, b, s).n.bundles && ReconfigureVlans(n, b, s).n.bundles[c] == n.bundles[c]
  {
    hide VlanReconfigure, Flushes;
  }

  lemma MembersDeclared(n: Net, b: BundleId, slaves: seq<HwId>, s: Settings)
    requires Linked(n) && b in n.bundles && GoodSettings(s)
    requires PortsReconfigure(n, b, slaves, s).ok && Reconciled(PortsReconfigure(n, b, slaves, s).n)
    ensures var n' := PortsReconfigure(n, b, slaves, s).n;
            && b in n'.bundles
            && (forall id :: id in n'.bundles[b].ports <==> id in slaves)
            && (forall id :: id in slaves ==> PortOf(n'.t, id).vlans == Declared(s))
            && (forall id :: id in n.bundles[b].ports && id !in slaves ==> PortOf(n'.t, id).vlans == map[])
  {
    hide PortsReconfigure, PortOf, Declared;
    SlavesAreMembers(n, b, slaves, s, 0);
    var n' := PortsReconfigure(n, b, slaves, s).n;
    forall id ensures (id in n'.bundles[b].ports <==> id in slaves)
                      && (id in slaves ==> PortOf(n'.t, id).vlans == Declared(s))
                      && (id in n.bundles[b].ports && id !in slaves ==> PortOf(n'.t, id).vlans == map[])
    {
      SlavesAreMembers(n, b, slaves, s, id);
      assert PortOf(n'.t, id).vlans == Expected(n', id);
    }
  }
}
