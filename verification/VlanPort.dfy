/**
 What VLAN calls do to one port, and reconfiguring a port from any VLAN mode to any other.
 The code works incrementally, with bitmap algebra on the trunks that came and went; the
 result must be the one the new settings declare.
 */
module VlanPort {
  import opened Options

  const VLAN_BITMAP_SIZE := 4096
  const DEFAULT_PVID := 1

  type Vid = v: nat | v < VLAN_BITMAP_SIZE

  datatype Tag = Untagged | Tagged

  /** PORT_VLAN_ACCESS, PORT_VLAN_TRUNK, PORT_VLAN_NATIVE_UNTAGGED, PORT_VLAN_NATIVE_TAGGED */
  datatype VlanMode = Access | Trunk | NativeUntagged | NativeTagged

  /** A VLAN bitmap, as the set of its one bits. */
  type Bitmap = set<Vid>

  /** The VLAN part of bundle settings; no trunk bitmap is None. */
  datatype Settings = Settings(mode: VlanMode, vlan: int, trunks: Option<Bitmap>)

  /** The port attributes the VLAN code writes. */
  datatype Attrs = Attrs(
    pvid: Vid,
    pvidUntag: bool,
    ingressFilter: bool,
    dropUntagged: bool,
    dropTagged: bool)

  /** A port: its VLANs with their tagging, and its attributes. */
  datatype Port = Port(vlans: map<Vid, Tag>, attrs: Attrs)

  function WithPvid(p: Port, pvid: Vid): Port {
    p.(attrs := p.attrs.(pvid := pvid))
  }

  function WithUntag(p: Port, pvidUntag: bool): Port {
    p.(attrs := p.attrs.(pvidUntag := pvidUntag))
  }

  function TrunksOf(s: Settings): Bitmap {
    if s.trunks.Some? then s.trunks.value else {}
  }

  predicate IsNative(s: Settings) {
    s.mode.NativeUntagged? || s.mode.NativeTagged?
  }

  predicate HasVlan(s: Settings) {
    !s.mode.Trunk?
  }

  /** Access and native modes name a VLAN, and access ports trunk nothing. */
  predicate WellFormed(s: Settings) {
    && (HasVlan(s) ==> 0 <= s.vlan < VLAN_BITMAP_SIZE)
    && (s.mode.Access? ==> TrunksOf(s) == {})
  }

  // ------------------------------------------------------------------ calls on one port

  /** __vlan_port_set */
  function SetVlan(p: Port, vid: Vid, tag: Tag, add: bool): Port {
    if add then WithPvid(p.(vlans := p.vlans[vid := tag]), if tag.Untagged? then vid else p.attrs.pvid)
    else WithPvid(p.(vlans := p.vlans - {vid}), DEFAULT_PVID)
  }

  function Filters(p: Port, ingress: bool, untagged: bool, tagged: bool): Port {
    p.(attrs := p.attrs.(ingressFilter := ingress, dropUntagged := untagged, dropTagged := tagged))
  }

  /** __vlan_access_port_add */
  function AccessAdd(p: Port, vid: Vid): Port {
    Filters(SetVlan(p, vid, Untagged, true), true, false, true)
  }

  /** __vlan_access_port_del */
  function AccessDel(p: Port, vid: Vid): Port {
    Filters(WithUntag(SetVlan(p, vid, Untagged, false), true), false, false, false)
  }

  /** __vlan_trunks_port_add */
  function TrunksAdd(p: Port, trunks: Bitmap): Port {
    Filters(p.(vlans := p.vlans + map v | v in trunks :: Tagged), true, false, false)
  }

  /** __vlan_trunks_port_del: any VLAN removed resets the PVID and its untagging. */
  function TrunksDel(p: Port, trunks: Bitmap): Port {
    var p' := p.(vlans := p.vlans - trunks);
    Filters(if trunks == {} then p' else WithUntag(WithPvid(p', DEFAULT_PVID), true), false, false, false)
  }

  /** __native_tagged_vlan_set */
  function NativeTaggedSet(p: Port, vid: Vid, add: bool): Port {
    if add then WithPvid(TrunksAdd(p, {vid}), vid) else WithPvid(TrunksDel(p, {vid}), DEFAULT_PVID)
  }

  // ------------------------------------------------------------------ the bitmap algebra

  predicate InRange(v: int) {
    0 <= v < VLAN_BITMAP_SIZE
  }

  function All(): Bitmap {
    set v: Vid | InRange(v)
  }

  function Not(b: Bitmap): Bitmap {
    All() - b
  }

  /** The removed_trunks bitmap, step by step as the code computes it. */
  function RemovedTrunks(was: Settings, s: Settings): Bitmap {
    var common := TrunksOf(s) * TrunksOf(was);
    var removed := Not(Not(TrunksOf(was)) + common);
    if IsNative(was) && 0 <= was.vlan < VLAN_BITMAP_SIZE then removed - {was.vlan} else removed
  }

  /** The added_trunks bitmap. */
  function AddedTrunks(was: Settings, s: Settings): Bitmap {
    var common := TrunksOf(s) * TrunksOf(was);
    var added := Not(Not(TrunksOf(s)) + common);
    var withNative :=
      if IsNative(was) && 0 <= was.vlan < VLAN_BITMAP_SIZE && was.vlan in TrunksOf(s)
      then added + {was.vlan} else added;
    if IsNative(s) && 0 <= s.vlan < VLAN_BITMAP_SIZE then withNative - {s.vlan} else withNative
  }

  lemma RemovedTrunksMeaning(was: Settings, s: Settings)
    requires WellFormed(was)
    ensures RemovedTrunks(was, s)
            == (TrunksOf(was) - TrunksOf(s)) - (if IsNative(was) then {was.vlan as Vid} else {})
  {
  }

  lemma AddedTrunksMeaning(was: Settings, s: Settings)
    requires WellFormed(was) && WellFormed(s)
    ensures AddedTrunks(was, s)
            == ((TrunksOf(s) - TrunksOf(was))
                + (if IsNative(was) && was.vlan in TrunksOf(s) then {was.vlan as Vid} else {}))
               - (if IsNative(s) then {s.vlan as Vid} else {})
  {
  }

  // ------------------------------------------------------------------ reconfiguration

  predicate Changed(was: Settings, s: Settings) {
    was.vlan != s.vlan || was.mode != s.mode
  }

  /** The removal phase of __vlan_reconfigure for one port. */
  function Leave(p: Port, was: Settings, s: Settings): Port
    requires WellFormed(was)
  {
    var removed := RemovedTrunks(was, s);
    match was.mode
    case Access => if Changed(was, s) then AccessDel(p, was.vlan) else p
    case Trunk => TrunksDel(p, removed)
    case NativeUntagged =>
      TrunksDel(if Changed(was, s) then AccessDel(p, was.vlan) else p, removed)
    case NativeTagged =>
      TrunksDel(if Changed(was, s) then NativeTaggedSet(p, was.vlan, false) else p, removed)
  }

  /** The addition phase. */
  function Join(p: Port, was: Settings, s: Settings): Port
    requires WellFormed(s)
  {
    var added := AddedTrunks(was, s);
    match s.mode
    case Access => if Changed(was, s) then AccessAdd(p, s.vlan) else p
    case Trunk => TrunksAdd(p, added)
    case NativeUntagged =>
      TrunksAdd(if Changed(was, s) then AccessAdd(p, s.vlan) else p, added)
    case NativeTagged =>
      TrunksAdd(if Changed(was, s) then WithUntag(NativeTaggedSet(p, s.vlan, true), false) else p, added)
  }

  function Reconfigure(p: Port, was: Settings, s: Settings): Port
    requires WellFormed(was) && WellFormed(s)
  {
    Join(Leave(p, was, s), was, s)
  }

  // ------------------------------------------------------------------ what settings declare

  /** The VLANs a port has under the settings: native takes precedence over a trunk of the same VLAN. */
  function Declared(s: Settings): map<Vid, Tag>
    requires WellFormed(s)
  {
    var trunks := map v | v in TrunksOf(s) :: Tagged;
    match s.mode
    case Access => map[s.vlan as Vid := Untagged]
    case Trunk => trunks
    case NativeUntagged => trunks[s.vlan as Vid := Untagged]
    case NativeTagged => trunks[s.vlan as Vid := Tagged]
  }

  function DeclaredPvid(s: Settings): Vid
    requires WellFormed(s)
  {
    if HasVlan(s) then s.vlan else DEFAULT_PVID
  }

  /** The PVID, and whether it is untagged, are what the settings say. */
  predicate PvidMatches(p: Port, s: Settings)
    requires WellFormed(s)
  {
    p.attrs.pvid == DeclaredPvid(s) && (p.attrs.pvidUntag <==> !s.mode.NativeTagged?)
  }

  predicate FiltersMatch(p: Port, s: Settings) {
    p.attrs.ingressFilter && !p.attrs.dropUntagged && (p.attrs.dropTagged <==> s.mode.Access?)
  }

  predicate Matches(p: Port, s: Settings)
    requires WellFormed(s)
  {
    p.vlans == Declared(s) && FiltersMatch(p, s)
  }

  lemma DeclaredAt(s: Settings, v: Vid)
    requires WellFormed(s)
    ensures Lookup(Declared(s), v)
            == if HasVlan(s) && v == s.vlan then Some(if s.mode.NativeTagged? then Tagged else Untagged)
               else if v in TrunksOf(s) then Some(Tagged) else None
  {
  }

  /** What the removal phase leaves of one VLAN of a port that matched the old settings. */
  lemma LeaveAt(p: Port, was: Settings, s: Settings, v: Vid)
    requires WellFormed(was) && p.vlans == Declared(was)
    ensures Lookup(Leave(p, was, s).vlans, v)
            == if HasVlan(was) && v == was.vlan then (if Changed(was, s) then None else Lookup(p.vlans, v))
               else if v in TrunksOf(was) && (v in TrunksOf(s) || was.mode.Access?) then Some(Tagged)
               else None
  {
    RemovedTrunksMeaning(was, s);
    DeclaredAt(was, v);
  }

  lemma JoinAt(p: Port, was: Settings, s: Settings, v: Vid)
    requires WellFormed(was) && WellFormed(s)
    ensures Lookup(Join(p, was, s).vlans, v)
            == if HasVlan(s) && v == s.vlan && Changed(was, s)
               then Some(if s.mode.NativeTagged? then Tagged else Untagged)
               else if !s.mode.Access? && v in AddedTrunks(was, s) then Some(Tagged)
               else Lookup(p.vlans, v)
  {
    AddedTrunksMeaning(was, s);
  }

  /**
   Incremental reconfiguration equals the declarative one: for all sixteen pairs of modes,
   any VLANs and any trunk bitmaps, a port with the old declared VLANs ends with the new.
   */
  lemma ReconfigureDeclares(p: Port, was: Settings, s: Settings)
    requires WellFormed(was) && WellFormed(s) && p.vlans == Declared(was)
    ensures Reconfigure(p, was, s).vlans == Declared(s)
  {
    var left := Leave(p, was, s);
    forall v ensures Lookup(Reconfigure(p, was, s).vlans, v) == Lookup(Declared(s), v) {
      LeaveAt(p, was, s, v);
      JoinAt(left, was, s, v);
      AddedTrunksMeaning(was, s);
      DeclaredAt(was, v);
      DeclaredAt(s, v);
    }
    SameLookups(Reconfigure(p, was, s).vlans, Declared(s));
  }

  /** And so do its ingress and acceptance filters. */
  lemma ReconfigureMatches(p: Port, was: Settings, s: Settings)
    requires WellFormed(was) && WellFormed(s) && Matches(p, was)
    ensures Matches(Reconfigure(p, was, s), s)
  {
    ReconfigureDeclares(p, was, s);
  }

  /** A trunk went away while mode and VLAN stayed. */
  predicate OnlyTrunksLost(was: Settings, s: Settings) {
    !Changed(was, s) && RemovedTrunks(was, s) != {}
  }

  /**
   The PVID follows the settings exactly when it does not have to survive the loss of a
   trunk: with mode and native VLAN unchanged, removing any trunk resets it to the default.
   */
  lemma PvidIff(p: Port, was: Settings, s: Settings)
    requires WellFormed(was) && WellFormed(s)
    requires p.attrs.pvid == DeclaredPvid(was)
    ensures Reconfigure(p, was, s).attrs.pvid == DeclaredPvid(s)
            <==> !(OnlyTrunksLost(was, s) && IsNative(s) && s.vlan != DEFAULT_PVID)
  {
    RemovedTrunksMeaning(was, s);
  }

  /** Likewise the untagging of the PVID, which only native-tagged mode turns off. */
  lemma PvidUntagIff(p: Port, was: Settings, s: Settings)
    requires WellFormed(was) && WellFormed(s)
    requires p.attrs.pvidUntag <==> !was.mode.NativeTagged?
    ensures (Reconfigure(p, was, s).attrs.pvidUntag <==> !s.mode.NativeTagged?)
            <==> !(OnlyTrunksLost(was, s) && s.mode.NativeTagged?)
  {
    RemovedTrunksMeaning(was, s);
  }

  /** A port loses a VLAN only when the code flushes: mode or VLAN changed, or a trunk was removed. */
  lemma LostVlanIsFlushed(was: Settings, s: Settings, v: Vid)
    requires WellFormed(was) && WellFormed(s)
    requires v in Declared(was) && v !in Declared(s)
    ensures Changed(was, s) || RemovedTrunks(was, s) != {}
  {
    RemovedTrunksMeaning(was, s);
    DeclaredAt(was, v);
    DeclaredAt(s, v);
    assert !Changed(was, s) ==> v in RemovedTrunks(was, s);
  }

  // ------------------------------------------------------------------ joining and leaving a bundle

  /** The VLAN part of __ofbundle_port_add; a VLAN of -1 is none. */
  function EnterBundle(p: Port, s: Settings): Port
    requires s.vlan != -1 ==> 0 <= s.vlan < VLAN_BITMAP_SIZE
  {
    var p' := if s.vlan == -1 then p
              else if s.mode.NativeTagged? then WithUntag(NativeTaggedSet(p, s.vlan, true), false)
              else WithUntag(AccessAdd(p, s.vlan), true);
    if s.trunks.Some? then TrunksAdd(p', s.trunks.value) else p'
  }

  /** The VLAN part of __ofbundle_port_del. */
  function ExitBundle(p: Port, s: Settings): Port
    requires s.vlan != -1 ==> 0 <= s.vlan < VLAN_BITMAP_SIZE
  {
    var p' := if s.vlan == -1 then p else AccessDel(p, s.vlan);
    if s.trunks.Some? then TrunksDel(p', s.trunks.value) else p'
  }

  /** In trunk mode the VLAN is -1; in the other modes it is not. */
  predicate VlanGiven(s: Settings) {
    s.vlan == -1 <==> s.mode.Trunk?
  }

  /**
   A port without VLANs that enters a bundle gets exactly the declared VLANs, except that a
   native-untagged VLAN that is also a trunk ends up tagged.
   */
  lemma EnterBundleIff(p: Port, s: Settings)
    requires WellFormed(s) && VlanGiven(s) && p.vlans == map[]
    ensures EnterBundle(p, s).vlans == Declared(s)
            <==> !(s.mode.NativeUntagged? && s.vlan in TrunksOf(s))
  {
    var got := EnterBundle(p, s).vlans;
    forall v ensures Lookup(got, v) == if s.mode.NativeUntagged? && v == s.vlan && v in TrunksOf(s) then Some(Tagged)
                                   else Lookup(Declared(s), v)
    {
      DeclaredAt(s, v);
    }
    if s.mode.NativeUntagged? && s.vlan in TrunksOf(s) {
      DeclaredAt(s, s.vlan);
    } else {
      SameLookups(got, Declared(s));
    }
  }

  /** A port that leaves its bundle keeps no VLAN of the bundle, and gets the default PVID back. */
  lemma ExitBundleLeavesNothing(p: Port, s: Settings)
    requires WellFormed(s) && VlanGiven(s)
    ensures forall v :: v in ExitBundle(p, s).vlans <==> v in p.vlans && v !in Declared(s)
    ensures p.attrs.pvid == DeclaredPvid(s) ==> ExitBundle(p, s).attrs.pvid == DEFAULT_PVID
  {
    forall v ensures v in ExitBundle(p, s).vlans <==> v in p.vlans && v !in Declared(s) {
      DeclaredAt(s, v);
    }
  }

  /**
   What leaving resets: the filters, if the settings name a VLAN or have a trunk bitmap; PVID
   and untagging, if they name a VLAN or have a trunk. Nothing else changes.
   */
  lemma ExitBundleResets(p: Port, s: Settings)
    requires WellFormed(s) && VlanGiven(s)
    ensures var a := ExitBundle(p, s).attrs;
            && (if HasVlan(s) || s.trunks.Some? then !a.ingressFilter && !a.dropUntagged && !a.dropTagged
                else a == p.attrs)
            && (if HasVlan(s) || TrunksOf(s) != {} then a.pvid == DEFAULT_PVID && a.pvidUntag
                else a.pvid == p.attrs.pvid && a.pvidUntag == p.attrs.pvidUntag)
  {
  }

  /** A port that enters a bundle gets its PVID, unless it enters a trunk with another than the default. */
  lemma EnterBundlePvidIff(p: Port, s: Settings)
    requires WellFormed(s) && VlanGiven(s)
    ensures EnterBundle(p, s).attrs.pvid == DeclaredPvid(s) <==> HasVlan(s) || p.attrs.pvid == DEFAULT_PVID
    ensures (EnterBundle(p, s).attrs.pvidUntag <==> !s.mode.NativeTagged?) <==> HasVlan(s) || p.attrs.pvidUntag
  {
    var p' := if s.vlan == -1 then p
              else if s.mode.NativeTagged? then WithUntag(NativeTaggedSet(p, s.vlan, true), false)
              else WithUntag(AccessAdd(p, s.vlan), true);
    assert s.trunks.Some? ==> TrunksAdd(p', s.trunks.value).attrs.pvid == p'.attrs.pvid;
  }

  /**
   The filters of a port that enters a bundle are those of its mode, unless an access bundle
   has a trunk bitmap or a native-untagged bundle has none; without a bitmap a trunk port keeps
   the filters it had.
   */
  lemma EnterBundleFiltersIff(p: Port, s: Settings)
    requires WellFormed(s) && VlanGiven(s)
    ensures FiltersMatch(EnterBundle(p, s), s) <==> FiltersSet(p, s)
  {
    assert s.mode.NativeTagged? ==> FiltersMatch(NativeTaggedSet(p, s.vlan, true), s);
  }

  predicate FiltersSet(p: Port, s: Settings) {
    match s.mode
    case Access => s.trunks.None?
    case NativeUntagged => s.trunks.Some?
    case NativeTagged => true
    case Trunk => s.trunks.Some? || FiltersMatch(p, s)
  }
}
