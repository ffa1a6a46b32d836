/**
 VLAN membership in the hardware, and the shadow of it that the plugin keeps so that a VLAN
 that is removed and created again gets its members back. Calls can fail: on a VLAN that
 does not exist the hardware may refuse (strict), or accept without effect.
 */
module VlanTable {
  import opened Options
  import opened VlanPort

  type HwId = nat
  type MemberMap = map<HwId, Tag>

  datatype Table = Table(
    hw: map<Vid, MemberMap>,      // VLANs existing in hardware, with their members
    shadow: map<Vid, MemberMap>,  // all_vlan_member
    attrs: map<HwId, Attrs>,      // port attributes
    strict: bool)                 // the hardware refuses ports on a missing VLAN

  /** A table and the status of the call that made it: true is 0. */
  datatype Result = Result(t: Table, ok: bool)

  const INITIAL_ATTRS := Attrs(DEFAULT_PVID, true, false, false, false)

  const NO_MEMBERS: MemberMap := map[]

  function Members(shadow: map<Vid, MemberMap>, vid: Vid): MemberMap {
    if vid in shadow then shadow[vid] else NO_MEMBERS
  }

  function AttrsOf(t: Table, id: HwId): Attrs {
    if id in t.attrs then t.attrs[id] else INITIAL_ATTRS
  }

  function PortOf(t: Table, id: HwId): Port {
    Port(VlansOf(t.shadow, id), AttrsOf(t, id))
  }

  /** The hardware members of every existing VLAN are the recorded ones. */
  ghost predicate ShadowInv(t: Table) {
    forall vid :: vid in t.hw ==> t.hw[vid] == Members(t.shadow, vid)
  }

  /** The VLANs a port has in hardware; PortOf says which ones are recorded. */
  function HwVlansOf(t: Table, id: HwId): map<Vid, Tag> {
    VlansOf(t.hw, id)
  }

  /** The part of a port's VLANs that exist in hardware. */
  function Existing(t: Table, vlans: map<Vid, Tag>): map<Vid, Tag> {
    map v | v in vlans && v in t.hw :: vlans[v]
  }

  lemma MemberIff(t: Table, vid: Vid, id: HwId)
    ensures Lookup(Members(t.shadow, vid), id) == Lookup(PortOf(t, id).vlans, vid)
  {
  }

  /** With the shadow right, a port has in hardware its recorded VLANs as far as they exist there. */
  lemma HardwareIsRecorded(t: Table, id: HwId)
    requires ShadowInv(t)
    ensures HwVlansOf(t, id) == Existing(t, PortOf(t, id).vlans)
  {
  }

  predicate Accepts(t: Table, vid: Vid) {
    !t.strict || vid in t.hw
  }

  // ------------------------------------------------------------------ one port, one VLAN

  function Updated(m: MemberMap, id: HwId, tag: Tag, add: bool): MemberMap {
    if add then m[id := tag] else m - {id}
  }

  function SetAttrs(t: Table, id: HwId, a: Attrs): Table {
    t.(attrs := t.attrs[id := a])
  }

  /** __vlan_port_set */
  function PortSet(t: Table, vid: Vid, id: HwId, tag: Tag, add: bool): Result {
    if !Accepts(t, vid) then Result(t, false)
    else
      var t' := t.(hw := if vid in t.hw then t.hw[vid := Updated(t.hw[vid], id, tag, add)] else t.hw,
                   shadow := t.shadow[vid := Updated(Members(t.shadow, vid), id, tag, add)]);
      if add && tag.Tagged? then Result(t', true)
      else Result(SetAttrs(t', id, AttrsOf(t', id).(pvid := if add then vid else DEFAULT_PVID)), true)
  }

  function VlansOf(shadow: map<Vid, MemberMap>, id: HwId): map<Vid, Tag> {
    map v | v in shadow && id in shadow[v] :: shadow[v][id]
  }

  lemma VlansOfUpdated(shadow: map<Vid, MemberMap>, vid: Vid, id: HwId, tag: Tag, add: bool)
    ensures VlansOf(shadow[vid := Updated(Members(shadow, vid), id, tag, add)], id)
            == if add then VlansOf(shadow, id)[vid := tag] else VlansOf(shadow, id) - {vid}
    ensures forall other :: other != id ==>
              VlansOf(shadow[vid := Updated(Members(shadow, vid), id, tag, add)], other) == VlansOf(shadow, other)
  {
  }

  lemma PortSetPort(t: Table, vid: Vid, id: HwId, tag: Tag, add: bool)
    requires PortSet(t, vid, id, tag, add).ok
    ensures PortOf(PortSet(t, vid, id, tag, add).t, id) == SetVlan(PortOf(t, id), vid, tag, add)
    ensures forall other :: other != id ==>
              PortOf(PortSet(t, vid, id, tag, add).t, other) == PortOf(t, other)
  {
    hide VlansOf, Updated;
    VlansOfUpdated(t.shadow, vid, id, tag, add);
  }

  lemma PortSetInv(t: Table, vid: Vid, id: HwId, tag: Tag, add: bool)
    ensures var r := PortSet(t, vid, id, tag, add);
            && (r.ok <==> Accepts(t, vid))
            && r.t.hw.Keys == t.hw.Keys && r.t.strict == t.strict
            && (ShadowInv(t) ==> ShadowInv(r.t))
  {
  }

  // ------------------------------------------------------------------ trunks

  /** __trunks_port_set, up to VLAN n: stops at the first failure. */
  function TrunkSet(t: Table, trunks: Bitmap, id: HwId, add: bool, n: nat): Result
    requires n <= VLAN_BITMAP_SIZE
  {
    if n == 0 then Result(t, true)
    else
      var r := TrunkSet(t, trunks, id, add, n - 1);
      if !r.ok || n - 1 !in trunks then r
      else
        var r' := PortSet(r.t, n - 1, id, Tagged, add);
        if !r'.ok || add then r'
        else Result(SetAttrs(r'.t, id, AttrsOf(r'.t, id).(pvid := DEFAULT_PVID, pvidUntag := true)), true)
  }

  function Below(trunks: Bitmap, n: nat): Bitmap {
    set v | v in trunks && v < n
  }

  /** What the loop has done to the port after the VLANs of `done`. */
  function TrunkPort(p: Port, done: Bitmap, add: bool): Port {
    if add then p.(vlans := p.vlans + map v | v in done :: Tagged)
    else
      var p' := p.(vlans := p.vlans - done);
      if done == {} then p' else WithUntag(WithPvid(p', DEFAULT_PVID), true)
  }

  lemma SetAttrsPort(t: Table, id: HwId, a: Attrs)
    ensures PortOf(SetAttrs(t, id, a), id) == PortOf(t, id).(attrs := a)
    ensures forall other :: other != id ==> PortOf(SetAttrs(t, id, a), other) == PortOf(t, other)
  {
  }

  lemma TrunkPortStep(p: Port, done: Bitmap, v: Vid, add: bool)
    requires v !in done
    ensures TrunkPort(p, done + {v}, add)
            == var p' := SetVlan(TrunkPort(p, done, add), v, Tagged, add);
               if add then p' else WithUntag(WithPvid(p', DEFAULT_PVID), true)
  {
    if add {
      assert p.vlans + (map u | u in done + {v} :: Tagged)
             == (p.vlans + map u | u in done :: Tagged)[v := Tagged];
    } else {
      assert p.vlans - (done + {v}) == (p.vlans - done) - {v};
    }
  }

  lemma {:induction false} TrunkSetPort(t: Table, trunks: Bitmap, id: HwId, add: bool, n: nat)
    requires n <= VLAN_BITMAP_SIZE && TrunkSet(t, trunks, id, add, n).ok
    ensures var t' := TrunkSet(t, trunks, id, add, n).t;
            && PortOf(t', id) == TrunkPort(PortOf(t, id), Below(trunks, n), add)
            && forall other :: other != id ==> PortOf(t', other) == PortOf(t, other)
  {
    if n == 0 {
      assert Below(trunks, 0) == {};
      assert TrunkPort(PortOf(t, id), {}, add).vlans == PortOf(t, id).vlans;
    } else {
      TrunkSetPort(t, trunks, id, add, n - 1);
      if n - 1 in trunks {
        var r := TrunkSet(t, trunks, id, add, n - 1);
        var r' := PortSet(r.t, n - 1, id, Tagged, add);
        assert Below(trunks, n) == Below(trunks, n - 1) + {n - 1};
        TrunkPortStep(PortOf(t, id), Below(trunks, n - 1), n - 1, add);
        PortSetPort(r.t, n - 1, id, Tagged, add);
        SetAttrsPort(r'.t, id, AttrsOf(r'.t, id).(pvid := DEFAULT_PVID, pvidUntag := true));
      } else {
        assert Below(trunks, n) == Below(trunks, n - 1);
      }
    }
  }

  lemma {:induction false} TrunkSetInv(t: Table, trunks: Bitmap, id: HwId, add: bool, n: nat)
    requires n <= VLAN_BITMAP_SIZE
    ensures var r := TrunkSet(t, trunks, id, add, n);
            && r.t.hw.Keys == t.hw.Keys && r.t.strict == t.strict
            && (ShadowInv(t) ==> ShadowInv(r.t))
  {
    hide PortSet, ShadowInv;
    if n > 0 {
      TrunkSetInv(t, trunks, id, add, n - 1);
      var r := TrunkSet(t, trunks, id, add, n - 1);
      if n - 1 in trunks {
        PortSetInv(r.t, n - 1, id, Tagged, add);
        var t' := PortSet(r.t, n - 1, id, Tagged, add).t;
        AttrsKeep(t', id, AttrsOf(t', id).(pvid := DEFAULT_PVID, pvidUntag := true));
      }
    }
  }

  lemma AttrsKeep(t: Table, id: HwId, a: Attrs)
    ensures ShadowInv(SetAttrs(t, id, a)) <==> ShadowInv(t)
  {
  }

  /** The loop succeeds exactly when the hardware accepts every trunk. */
  lemma {:induction false} TrunkSetOk(t: Table, trunks: Bitmap, id: HwId, add: bool, n: nat)
    requires n <= VLAN_BITMAP_SIZE
    ensures TrunkSet(t, trunks, id, add, n).ok <==> forall v :: v in trunks && v < n ==> Accepts(t, v)
  {
    if n > 0 {
      TrunkSetOk(t, trunks, id, add, n - 1);
      TrunkSetInv(t, trunks, id, add, n - 1);
      var r := TrunkSet(t, trunks, id, add, n - 1);
      assert n - 1 in r.t.hw <==> n - 1 in t.hw;
      assert Accepts(r.t, n - 1) <==> Accepts(t, n - 1);
    }
  }

  // ------------------------------------------------------------------ the calls of the VLAN class

  function WithFilters(t: Table, id: HwId, ingress: bool, untagged: bool, tagged: bool): Table {
    SetAttrs(t, id, AttrsOf(t, id).(ingressFilter := ingress, dropUntagged := untagged, dropTagged := tagged))
  }

  function AccessPortAdd(t: Table, vid: Vid, id: HwId): Result {
    var r := PortSet(t, vid, id, Untagged, true);
    if r.ok then Result(WithFilters(r.t, id, true, false, true), true) else r
  }

  function AccessPortDel(t: Table, vid: Vid, id: HwId): Result {
    var r := PortSet(t, vid, id, Untagged, false);
    if !r.ok then r
    else
      var t' := SetAttrs(r.t, id, AttrsOf(r.t, id).(pvid := DEFAULT_PVID, pvidUntag := true));
      Result(WithFilters(t', id, false, false, false), true)
  }

  function TrunksPortAdd(t: Table, trunks: Bitmap, id: HwId): Result {
    var r := TrunkSet(t, trunks, id, true, VLAN_BITMAP_SIZE);
    if r.ok then Result(WithFilters(r.t, id, true, false, false), true) else r
  }

  function TrunksPortDel(t: Table, trunks: Bitmap, id: HwId): Result {
    var r := TrunkSet(t, trunks, id, false, VLAN_BITMAP_SIZE);
    if r.ok then Result(WithFilters(r.t, id, false, false, false), true) else r
  }

  function NativeTaggedVlanSet(t: Table, vid: Vid, id: HwId, add: bool): Result {
    var r := if add then TrunksPortAdd(t, {vid}, id) else TrunksPortDel(t, {vid}, id);
    if r.ok then Result(SetAttrs(r.t, id, AttrsOf(r.t, id).(pvid := if add then vid else DEFAULT_PVID)), true)
    else r
  }

  /** A call succeeded, did `p'` to its port, and nothing to the others. */
  ghost predicate Did(t: Table, r: Result, id: HwId, p': Port) {
    && r.ok
    && PortOf(r.t, id) == p'
    && (forall other :: other != id ==> PortOf(r.t, other) == PortOf(t, other))
  }

  /** A call keeps the shadow and the set of VLANs, whether or not it succeeds. */
  ghost predicate Keeps(t: Table, r: Result) {
    && r.t.hw.Keys == t.hw.Keys && r.t.strict == t.strict
    && (ShadowInv(t) ==> ShadowInv(r.t))
  }

  lemma BelowAll(trunks: Bitmap)
    ensures Below(trunks, VLAN_BITMAP_SIZE) == trunks
  {
  }

  lemma AccessPort(t: Table, vid: Vid, id: HwId)
    ensures var r := AccessPortAdd(t, vid, id);
            Keeps(t, r) && (r.ok <==> Accepts(t, vid)) && (r.ok ==> Did(t, r, id, AccessAdd(PortOf(t, id), vid)))
    ensures var r := AccessPortDel(t, vid, id);
            Keeps(t, r) && (r.ok <==> Accepts(t, vid)) && (r.ok ==> Did(t, r, id, AccessDel(PortOf(t, id), vid)))
  {
    PortSetInv(t, vid, id, Untagged, true);
    PortSetInv(t, vid, id, Untagged, false);
    if Accepts(t, vid) {
      PortSetPort(t, vid, id, Untagged, true);
      PortSetPort(t, vid, id, Untagged, false);
    }
  }

  lemma TrunksPort(t: Table, trunks: Bitmap, id: HwId, add: bool)
    ensures var r := if add then TrunksPortAdd(t, trunks, id) else TrunksPortDel(t, trunks, id);
            var p' := if add then TrunksAdd(PortOf(t, id), trunks) else TrunksDel(PortOf(t, id), trunks);
            && Keeps(t, r) && (r.ok <==> forall v :: v in trunks ==> Accepts(t, v))
            && (r.ok ==> Did(t, r, id, p'))
  {
    BelowAll(trunks);
    TrunkSetOk(t, trunks, id, add, VLAN_BITMAP_SIZE);
    TrunkSetInv(t, trunks, id, add, VLAN_BITMAP_SIZE);
    var r := TrunkSet(t, trunks, id, add, VLAN_BITMAP_SIZE);
    if r.ok {
      TrunkSetPort(t, trunks, id, add, VLAN_BITMAP_SIZE);
      SetAttrsPort(r.t, id, AttrsOf(r.t, id).(ingressFilter := add, dropUntagged := false, dropTagged := false));
    }
  }

  lemma NativeTaggedPort(t: Table, vid: Vid, id: HwId, add: bool)
    ensures var r := NativeTaggedVlanSet(t, vid, id, add);
            && Keeps(t, r) && (r.ok <==> Accepts(t, vid))
            && (r.ok ==> Did(t, r, id, NativeTaggedSet(PortOf(t, id), vid, add)))
  {
    TrunksPort(t, {vid}, id, add);
    var r := if add then TrunksPortAdd(t, {vid}, id) else TrunksPortDel(t, {vid}, id);
    SetAttrsPort(r.t, id, AttrsOf(r.t, id).(pvid := if add then vid else DEFAULT_PVID));
  }

  // ------------------------------------------------------------------ what even a failing call leaves alone

  /** Whatever its outcome, the call left the other ports alone, and on its own port every refused VLAN. */
  ghost predicate Confined(t: Table, r: Result, id: HwId) {
    && (forall other :: other != id ==> PortOf(r.t, other) == PortOf(t, other))
    && (forall v: Vid :: !Accepts(t, v) ==> Lookup(PortOf(r.t, id).vlans, v) == Lookup(PortOf(t, id).vlans, v))
  }

  lemma ConfinedThen(t: Table, r: Result, r': Result, id: HwId)
    requires Keeps(t, r) && Confined(t, r, id) && Confined(r.t, r', id)
    ensures Confined(t, r', id)
  {
    hide PortOf, ShadowInv;
    assert forall v: Vid :: Accepts(r.t, v) <==> Accepts(t, v);
  }

  lemma AttrsConfined(t: Table, id: HwId, a: Attrs)
    ensures Confined(t, Result(SetAttrs(t, id, a), true), id) && Keeps(t, Result(SetAttrs(t, id, a), true))
  {
    SetAttrsPort(t, id, a);
    AttrsKeep(t, id, a);
  }

  lemma PortSetConfined(t: Table, vid: Vid, id: HwId, tag: Tag, add: bool)
    ensures Confined(t, PortSet(t, vid, id, tag, add), id) && Keeps(t, PortSet(t, vid, id, tag, add))
  {
    PortSetInv(t, vid, id, tag, add);
    hide PortOf, ShadowInv;
    if PortSet(t, vid, id, tag, add).ok {
      PortSetPort(t, vid, id, tag, add);
    }
  }

  lemma {:induction false} TrunkSetConfined(t: Table, trunks: Bitmap, id: HwId, add: bool, n: nat)
    requires n <= VLAN_BITMAP_SIZE
    ensures Confined(t, TrunkSet(t, trunks, id, add, n), id)
  {
    hide Confined, PortSet, Keeps;
    if n == 0 {
      NothingConfined(t, id);
    } else {
      TrunkSetConfined(t, trunks, id, add, n - 1);
      TrunkSetKeeps(t, trunks, id, add, n - 1);
      var r := TrunkSet(t, trunks, id, add, n - 1);
      if r.ok && n - 1 in trunks {
        var r' := PortSet(r.t, n - 1, id, Tagged, add);
        PortSetConfined(r.t, n - 1, id, Tagged, add);
        AttrsConfined(r'.t, id, AttrsOf(r'.t, id).(pvid := DEFAULT_PVID, pvidUntag := true));
        ConfinedThen(r.t, r', Result(SetAttrs(r'.t, id, AttrsOf(r'.t, id).(pvid := DEFAULT_PVID, pvidUntag := true)), true), id);
        ConfinedThen(t, r, TrunkSet(t, trunks, id, add, n), id);
      }
    }
  }

  lemma NothingConfined(t: Table, id: HwId)
    ensures Confined(t, Result(t, true), id) && Keeps(t, Result(t, true))
  {
  }

  lemma TrunkSetKeeps(t: Table, trunks: Bitmap, id: HwId, add: bool, n: nat)
    requires n <= VLAN_BITMAP_SIZE
    ensures Keeps(t, TrunkSet(t, trunks, id, add, n))
  {
    TrunkSetInv(t, trunks, id, add, n);
  }

  lemma AccessConfined(t: Table, vid: Vid, id: HwId)
    ensures Confined(t, AccessPortAdd(t, vid, id), id) && Confined(t, AccessPortDel(t, vid, id), id)
  {
    hide Confined, PortSet, Keeps;
    var added := PortSet(t, vid, id, Untagged, true);
    PortSetConfined(t, vid, id, Untagged, true);
    AttrsConfined(added.t, id, AttrsOf(added.t, id).(ingressFilter := true, dropUntagged := false, dropTagged := true));
    ConfinedThen(t, added, Result(WithFilters(added.t, id, true, false, true), true), id);
    var gone := PortSet(t, vid, id, Untagged, false);
    PortSetConfined(t, vid, id, Untagged, false);
    var t' := SetAttrs(gone.t, id, AttrsOf(gone.t, id).(pvid := DEFAULT_PVID, pvidUntag := true));
    AttrsConfined(gone.t, id, AttrsOf(gone.t, id).(pvid := DEFAULT_PVID, pvidUntag := true));
    AttrsConfined(t', id, AttrsOf(t', id).(ingressFilter := false, dropUntagged := false, dropTagged := false));
    ConfinedThen(gone.t, Result(t', true), Result(WithFilters(t', id, false, false, false), true), id);
    ConfinedThen(t, gone, Result(WithFilters(t', id, false, false, false), true), id);
  }

  lemma TrunksConfined(t: Table, trunks: Bitmap, id: HwId, add: bool)
    ensures Confined(t, if add then TrunksPortAdd(t, trunks, id) else TrunksPortDel(t, trunks, id), id)
  {
    hide Confined, TrunkSet, Keeps;
    var r := TrunkSet(t, trunks, id, add, VLAN_BITMAP_SIZE);
    TrunkSetConfined(t, trunks, id, add, VLAN_BITMAP_SIZE);
    TrunkSetKeeps(t, trunks, id, add, VLAN_BITMAP_SIZE);
    AttrsConfined(r.t, id, AttrsOf(r.t, id).(ingressFilter := add, dropUntagged := false, dropTagged := false));
    ConfinedThen(t, r, Result(WithFilters(r.t, id, add, false, false), true), id);
  }

  lemma NativeTaggedConfined(t: Table, vid: Vid, id: HwId, add: bool)
    ensures Confined(t, NativeTaggedVlanSet(t, vid, id, add), id)
  {
    hide Confined, TrunksPortAdd, TrunksPortDel, Keeps;
    var r := if add then TrunksPortAdd(t, {vid}, id) else TrunksPortDel(t, {vid}, id);
    TrunksPort(t, {vid}, id, add);
    TrunksConfined(t, {vid}, id, add);
    var a := AttrsOf(r.t, id).(pvid := if add then vid else DEFAULT_PVID);
    AttrsConfined(r.t, id, a);
    ConfinedThen(t, r, Result(SetAttrs(r.t, id, a), true), id);
  }

  lemma RefusedSet(t: Table, vid: Vid, id: HwId, tag: Tag, add: bool)
    requires !PortSet(t, vid, id, tag, add).ok
    ensures PortSet(t, vid, id, tag, add).t == t
  {
  }

  /** A trunk loop does its work on the trunks before the first that is refused, and on no others. */
  lemma {:induction false} TrunkSetReaches(t: Table, trunks: Bitmap, id: HwId, add: bool, n: nat, v: Vid)
    requires n <= VLAN_BITMAP_SIZE
    ensures Lookup(PortOf(TrunkSet(t, trunks, id, add, n).t, id).vlans, v)
            == if v in trunks && v < n && (forall u :: u in trunks && u <= v ==> Accepts(t, u))
               then (if add then Some(Tagged) else None)
               else Lookup(PortOf(t, id).vlans, v)
  {
    hide PortOf, ShadowInv, PortSet, SetAttrs;
    if n > 0 {
      TrunkSetReaches(t, trunks, id, add, n - 1, v);
      TrunkSetOk(t, trunks, id, add, n - 1);
      TrunkSetInv(t, trunks, id, add, n - 1);
      var r := TrunkSet(t, trunks, id, add, n - 1);
      if r.ok && n - 1 in trunks {
        var r' := PortSet(r.t, n - 1, id, Tagged, add);
        PortSetInv(r.t, n - 1, id, Tagged, add);
        assert Accepts(r.t, n - 1) <==> Accepts(t, n - 1);
        if !r'.ok {
          RefusedSet(r.t, n - 1, id, Tagged, add);
        } else {
          PortSetPort(r.t, n - 1, id, Tagged, add);
          SetAttrsPort(r'.t, id, AttrsOf(r'.t, id).(pvid := DEFAULT_PVID, pvidUntag := true));
        }
      }
    }
  }

  /** A trunk call on a port, whole or cut short. */
  lemma TrunksReach(t: Table, trunks: Bitmap, id: HwId, add: bool, v: Vid)
    ensures var r := if add then TrunksPortAdd(t, trunks, id) else TrunksPortDel(t, trunks, id);
            Lookup(PortOf(r.t, id).vlans, v)
            == if v in trunks && (forall u :: u in trunks && u <= v ==> Accepts(t, u))
               then (if add then Some(Tagged) else None)
               else Lookup(PortOf(t, id).vlans, v)
  {
    hide PortOf, TrunkSet;
    TrunkSetReaches(t, trunks, id, add, VLAN_BITMAP_SIZE, v);
    var r := TrunkSet(t, trunks, id, add, VLAN_BITMAP_SIZE);
    SetAttrsPort(r.t, id, AttrsOf(r.t, id).(ingressFilter := add, dropUntagged := false, dropTagged := false));
  }

  /** A refused call on one VLAN does nothing. */
  lemma RefusedCall(t: Table, vid: Vid, id: HwId, add: bool)
    requires !Accepts(t, vid)
    ensures AccessPortAdd(t, vid, id) == AccessPortDel(t, vid, id) == NativeTaggedVlanSet(t, vid, id, add) == Result(t, false)
  {
    hide PortOf;
    NativeTaggedPort(t, vid, id, add);
    FailsFlat(t, vid, id, add, VLAN_BITMAP_SIZE);
  }

  lemma {:induction false} FailsFlat(t: Table, vid: Vid, id: HwId, add: bool, n: nat)
    requires !Accepts(t, vid) && n <= VLAN_BITMAP_SIZE
    ensures TrunkSet(t, {vid}, id, add, n).t == t
  {
    if n > 0 {
      FailsFlat(t, vid, id, add, n - 1);
    }
  }

  // ------------------------------------------------------------------ creating and removing VLANs

  /** Replays the recorded members of a VLAN in the order the hash table gives them. */
  function Replay(t: Table, vid: Vid, order: seq<HwId>): Table {
    if order == [] then t
    else
      var n := |order| - 1;
      var t' := Replay(t, vid, order[..n]);
      if order[n] in Members(t'.shadow, vid)
      then PortSet(t', vid, order[n], Members(t'.shadow, vid)[order[n]], true).t
      else t'
  }

  /** An iteration order of the recorded members: every one of them once, in some order. */
  predicate IsOrder(t: Table, vid: Vid, order: seq<HwId>) {
    NoDup(order) && (set id | id in order) == Members(t.shadow, vid).Keys
  }

  function CreateIfMissing(t: Table, vid: Vid): Table {
    if vid in t.hw then t else t.(hw := t.hw[vid := NO_MEMBERS])
  }

  datatype VlanOp =
    | Create(vid: Vid, order: seq<HwId>)      // __vlan_set, adding
    | IntfCreate(vid: Vid, order: seq<HwId>)  // ops_sai_vlan_intf_update, adding
    | Remove(vid: Vid)                        // __vlan_set, removing
    | SetMember(vid: Vid, id: HwId, tag: Tag, add: bool)

  function Apply(t: Table, op: VlanOp): Table {
    match op
    case Create(vid, order) => Replay(CreateIfMissing(t, vid), vid, order)
    case IntfCreate(vid, order) =>
      if vid in t.hw then t else Replay(CreateIfMissing(t, vid), vid, order)
    case Remove(vid) => t.(hw := t.hw - {vid})
    case SetMember(vid, id, tag, add) => PortSet(t, vid, id, tag, add).t
  }

  predicate Enabled(t: Table, op: VlanOp) {
    (op.Create? || op.IntfCreate?) ==> IsOrder(t, op.vid, op.order)
  }

  /** A VLAN's hardware members agree with the record on the members replayed so far. */
  ghost predicate Replayed(t: Table, vid: Vid, done: set<HwId>) {
    && vid in t.hw
    && (forall id :: id in t.hw[vid] ==> Lookup(t.hw[vid], id) == Lookup(Members(t.shadow, vid), id))
    && (forall id :: id in done ==> Lookup(t.hw[vid], id) == Lookup(Members(t.shadow, vid), id))
  }

  lemma ReplayOne(t: Table, vid: Vid, id: HwId)
    requires vid in t.hw && id in Members(t.shadow, vid)
    ensures var t' := PortSet(t, vid, id, Members(t.shadow, vid)[id], true).t;
            && t'.shadow == t.shadow
            && t'.hw == t.hw[vid := Updated(t.hw[vid], id, Members(t.shadow, vid)[id], true)]
  {
    var m: MemberMap := Members(t.shadow, vid);
    assert Updated(m, id, m[id], true) == m;
    assert t.shadow[vid := m] == t.shadow;
  }

  /** What replaying a VLAN's members does to a port's attributes: untagged members get it as their PVID. */
  function AfterReplay(a: Attrs, recorded: Option<Tag>, vid: Vid): Attrs {
    if recorded == Some(Untagged) then a.(pvid := vid) else a
  }

  lemma {:induction false} ReplayAttrs(t: Table, vid: Vid, order: seq<HwId>, id: HwId)
    requires Accepts(t, vid)
    ensures var t' := Replay(t, vid, order);
            && t'.shadow == t.shadow && Accepts(t', vid)
            && AttrsOf(t', id) == if id in order then AfterReplay(AttrsOf(t, id), Lookup(Members(t.shadow, vid), id), vid)
                                  else AttrsOf(t, id)
  {
    if order != [] {
      var n := |order| - 1;
      ReplayAttrs(t, vid, order[..n], id);
      assert id in order <==> id in order[..n] || id == order[n];
      var t' := Replay(t, vid, order[..n]);
      if order[n] in Members(t'.shadow, vid) {
        ReplayOneAttrs(t', vid, order[n], id);
      }
    }
  }

  lemma ReplayOneAttrs(t: Table, vid: Vid, member: HwId, id: HwId)
    requires Accepts(t, vid) && member in Members(t.shadow, vid)
    ensures var t' := PortSet(t, vid, member, Members(t.shadow, vid)[member], true).t;
            && t'.shadow == t.shadow && Accepts(t', vid)
            && AttrsOf(t', id) == if id == member then AfterReplay(AttrsOf(t, id), Lookup(Members(t.shadow, vid), id), vid)
                                  else AttrsOf(t, id)
  {
    var m: MemberMap := Members(t.shadow, vid);
    assert Updated(m, member, m[member], true) == m;
    assert t.shadow[vid := m] == t.shadow;
  }

  lemma {:induction false} ReplaySteps(t: Table, vid: Vid, order: seq<HwId>)
    requires Replayed(t, vid, {})
    requires forall v :: v in t.hw && v != vid ==> t.hw[v] == Members(t.shadow, v)
    ensures var t' := Replay(t, vid, order);
            && t'.shadow == t.shadow && t'.strict == t.strict && t'.hw.Keys == t.hw.Keys
            && Replayed(t', vid, set id | id in order)
            && (forall v :: v in t.hw && v != vid ==> t'.hw[v] == t.hw[v])
  {
    if order != [] {
      var n := |order| - 1;
      ReplaySteps(t, vid, order[..n]);
      var t' := Replay(t, vid, order[..n]);
      assert order == order[..n] + [order[n]];
      if order[n] in Members(t'.shadow, vid) {
        ReplayOne(t', vid, order[n]);
      }
    }
  }

  /**
   Creating a VLAN makes it the PVID of every recorded untagged member, whatever PVID that
   port has been given since, and changes no other attribute.
   */
  lemma CreateSetsPvid(t: Table, vid: Vid, order: seq<HwId>, id: HwId)
    requires IsOrder(t, vid, order)
    ensures AttrsOf(Apply(t, Create(vid, order)), id) == AfterReplay(AttrsOf(t, id), Lookup(Members(t.shadow, vid), id), vid)
  {
    ReplayAttrs(CreateIfMissing(t, vid), vid, order, id);
    assert id in (set x | x in order) <==> id in Members(t.shadow, vid);
  }

  /** Creating a VLAN gives it exactly its recorded members, and changes no record. */
  lemma CreateRestores(t: Table, vid: Vid, order: seq<HwId>)
    requires ShadowInv(t) && IsOrder(t, vid, order)
    ensures var t' := Apply(t, Create(vid, order));
            && t'.shadow == t.shadow && t'.hw.Keys == t.hw.Keys + {vid}
            && t'.hw[vid] == Members(t.shadow, vid)
            && ShadowInv(t')
            && forall id :: AttrsOf(t', id) == AfterReplay(AttrsOf(t, id), Lookup(Members(t.shadow, vid), id), vid)
  {
    forall id ensures AttrsOf(Apply(t, Create(vid, order)), id)
                      == AfterReplay(AttrsOf(t, id), Lookup(Members(t.shadow, vid), id), vid)
    {
      CreateSetsPvid(t, vid, order, id);
    }
    var t0 := CreateIfMissing(t, vid);
    ReplaySteps(t0, vid, order);
    var t' := Replay(t0, vid, order);
    var m, rec := t'.hw[vid], Members(t.shadow, vid);
    hide ShadowInv, Replay;
    forall id ensures Lookup(m, id) == Lookup(rec, id) {
      assert id in rec <==> id in order;
    }
    SameLookups(m, rec);
  }

  /** A port recorded as a member of the VLAN is put into it in hardware, and no port into any other. */
  lemma CreateJoinsRecorded(t: Table, vid: Vid, order: seq<HwId>, id: HwId)
    requires ShadowInv(t) && IsOrder(t, vid, order)
    ensures var recorded := PortOf(t, id).vlans;
            HwVlansOf(Apply(t, Create(vid, order)), id)
            == if vid in recorded then HwVlansOf(t, id)[vid := recorded[vid]] else HwVlansOf(t, id)
  {
    hide Apply, ShadowInv;
    CreateRestores(t, vid, order);
    var t' := Apply(t, Create(vid, order));
    HardwareIsRecorded(t, id);
    HardwareIsRecorded(t', id);
    assert PortOf(t', id).vlans == PortOf(t, id).vlans;
  }

  /**
   Removing a VLAN and creating it again, in whatever order the replay runs, gives back
   hardware and record; untagged members end with the VLAN as their PVID, all other
   attributes are as before.
   */
  lemma RemoveThenCreate(t: Table, vid: Vid, order: seq<HwId>)
    requires ShadowInv(t) && vid in t.hw && IsOrder(t, vid, order)
    ensures var t' := Apply(Apply(t, Remove(vid)), Create(vid, order));
            && t'.hw == t.hw && t'.shadow == t.shadow
            && forall id :: AttrsOf(t', id) == AfterReplay(AttrsOf(t, id), Lookup(PortOf(t, id).vlans, vid), vid)
  {
    hide Replay;
    var removed := Apply(t, Remove(vid));
    CreateRestores(removed, vid, order);
    var t' := Apply(removed, Create(vid, order));
    assert t'.hw.Keys == t.hw.Keys;
    forall v | v in t.hw ensures t'.hw[v] == t.hw[v] {
      assert t'.hw[v] == Members(t.shadow, v);
    }
    forall id ensures AttrsOf(t', id) == AfterReplay(AttrsOf(t, id), Lookup(PortOf(t, id).vlans, vid), vid) {
      CreateSetsPvid(removed, vid, order, id);
    }
  }

  lemma ApplyInv(t: Table, op: VlanOp)
    requires ShadowInv(t) && Enabled(t, op)
    ensures ShadowInv(Apply(t, op))
  {
    match op
    case Create(vid, order) => CreateRestores(t, vid, order);
    case IntfCreate(vid, order) => CreateRestores(t, vid, order);
    case Remove(vid) =>
    case SetMember(vid, id, tag, add) => PortSetInv(t, vid, id, tag, add);
  }

  /** The shadow is right after every sequence of VLAN and member operations. */
  lemma {:induction false} ShadowOverRuns(states: seq<Table>, ops: seq<VlanOp>, n: nat)
    requires |states| == |ops| + 1 && n < |states|
    requires states[0].hw == map[]
    requires forall i :: 0 <= i < |ops| ==> Enabled(states[i], ops[i]) && states[i + 1] == Apply(states[i], ops[i])
    ensures ShadowInv(states[n])
  {
    if n > 0 {
      ShadowOverRuns(states, ops, n - 1);
      ApplyInv(states[n - 1], ops[n - 1]);
    }
  }
}
