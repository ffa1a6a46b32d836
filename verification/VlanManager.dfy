/**
 The imperative VLAN code: the array of per-VLAN member lists, the loops over bitmaps and
 members, and the hardware calls, proved against the functions of VlanTable.
 */
module VlanManager {
  import opened Options
  import opened VlanPort
  import opened VlanTable

  /** struct hvlan_mb_entry */
  datatype MbEntry = MbEntry(hwId: HwId, tagMode: Tag)

  predicate Unique(es: seq<MbEntry>) {
    forall i, j :: 0 <= i < j < |es| ==> es[i].hwId != es[j].hwId
  }

  /** The member map a list of entries stands for. */
  function MapOf(es: seq<MbEntry>): MemberMap {
    if es == [] then NO_MEMBERS
    else MapOf(es[..|es| - 1])[es[|es| - 1].hwId := es[|es| - 1].tagMode]
  }

  predicate Holds(es: seq<MbEntry>, id: HwId) {
    exists i :: 0 <= i < |es| && es[i].hwId == id
  }

  lemma {:induction false} MapOfKeys(es: seq<MbEntry>, id: HwId)
    ensures id in MapOf(es) <==> Holds(es, id)
  {
    if es != [] {
      var n := |es| - 1;
      MapOfKeys(es[..n], id);
      if Holds(es, id) {
        var i :| 0 <= i < |es| && es[i].hwId == id;
        assert i < n ==> es[..n][i].hwId == id;
      }
      if Holds(es[..n], id) {
        var i :| 0 <= i < n && es[..n][i].hwId == id;
        assert es[i].hwId == id;
      }
    }
  }

  lemma {:induction false} MapOfAt(es: seq<MbEntry>, i: nat)
    requires Unique(es) && i < |es|
    ensures es[i].hwId in MapOf(es) && MapOf(es)[es[i].hwId] == es[i].tagMode
  {
    var n := |es| - 1;
    if i < n {
      MapOfAt(es[..n], i);
    }
  }

  lemma MapOfSet(es: seq<MbEntry>, i: nat, tag: Tag)
    requires Unique(es) && i < |es|
    ensures Unique(es[i := es[i].(tagMode := tag)])
    ensures MapOf(es[i := es[i].(tagMode := tag)]) == Updated(MapOf(es), es[i].hwId, tag, true)
  {
    var es' := es[i := es[i].(tagMode := tag)];
    forall id ensures Lookup(MapOf(es'), id) == Lookup(Updated(MapOf(es), es[i].hwId, tag, true), id) {
      SameHolders(es, es', id);
      MapOfKeys(es, id);
      MapOfKeys(es', id);
      if Holds(es', id) {
        var j :| 0 <= j < |es'| && es'[j].hwId == id;
        MapOfAt(es', j);
        MapOfAt(es, j);
      }
    }
    SameLookups(MapOf(es'), Updated(MapOf(es), es[i].hwId, tag, true));
  }

  lemma SameHolders(es: seq<MbEntry>, es': seq<MbEntry>, id: HwId)
    requires |es'| == |es| && forall i :: 0 <= i < |es| ==> es'[i].hwId == es[i].hwId
    ensures Holds(es', id) <==> Holds(es, id)
  {
    if Holds(es, id) {
      var i :| 0 <= i < |es| && es[i].hwId == id;
      assert es'[i].hwId == id;
    }
    if Holds(es', id) {
      var i :| 0 <= i < |es| && es'[i].hwId == id;
      assert es[i].hwId == id;
    }
  }

  lemma HoldsRemove(es: seq<MbEntry>, i: nat, id: HwId)
    requires Unique(es) && i < |es|
    ensures Unique(es[..i] + es[i + 1..])
    ensures Holds(es[..i] + es[i + 1..], id) <==> Holds(es, id) && id != es[i].hwId
  {
    var es' := es[..i] + es[i + 1..];
    if Holds(es', id) {
      var j :| 0 <= j < |es'| && es'[j].hwId == id;
      assert es[if j < i then j else j + 1].hwId == id;
    }
    if Holds(es, id) && id != es[i].hwId {
      var j :| 0 <= j < |es| && es[j].hwId == id;
      assert es'[if j < i then j else j - 1].hwId == id;
    }
  }

  lemma MapOfRemove(es: seq<MbEntry>, i: nat)
    requires Unique(es) && i < |es|
    ensures Unique(es[..i] + es[i + 1..])
    ensures forall tag :: MapOf(es[..i] + es[i + 1..]) == Updated(MapOf(es), es[i].hwId, tag, false)
  {
    hide MapOf;
    var es' := es[..i] + es[i + 1..];
    HoldsRemove(es, i, es[i].hwId);
    forall id ensures Lookup(MapOf(es'), id) == Lookup(MapOf(es) - {es[i].hwId}, id) {
      HoldsRemove(es, i, id);
      MapOfKeys(es, id);
      MapOfKeys(es', id);
      if Holds(es', id) {
        var j :| 0 <= j < |es'| && es'[j].hwId == id;
        MapOfAt(es', j);
        MapOfAt(es, if j < i then j else j + 1);
      }
    }
    SameLookups(MapOf(es'), MapOf(es) - {es[i].hwId});
  }

  lemma NotHeld(es: seq<MbEntry>, id: HwId, tag: Tag)
    requires !Holds(es, id)
    ensures Updated(MapOf(es), id, tag, false) == MapOf(es)
  {
    MapOfKeys(es, id);
  }

  /** The VLAN part of the plugin's state, with the SAI VLAN and port objects. */
  class Vlans {
    const allVlanMember: array<seq<MbEntry>>
    var hw: map<Vid, MemberMap>
    var attrs: map<HwId, Attrs>
    const strict: bool

    /** One array cell per VLAN, one entry per port in each. */
    ghost predicate Valid()
      reads allVlanMember
    {
      && allVlanMember.Length == VLAN_BITMAP_SIZE
      && forall v :: 0 <= v < VLAN_BITMAP_SIZE ==> Unique(allVlanMember[v])
    }

    ghost function Shadow(): (s: map<Vid, MemberMap>)
      requires Valid()
      reads allVlanMember
      ensures forall v: Vid :: v in s
    {
      map v: Vid | InRange(v) :: MapOf(allVlanMember[v])
    }

    ghost function T(): Table
      requires Valid()
      reads this, allVlanMember
    {
      Table(hw, Shadow(), attrs, strict)
    }

    /** __vlan_init */
    constructor (strict: bool)
      ensures Valid() && fresh(allVlanMember) && this.strict == strict
      ensures hw == map[] && ShadowInv(T())
      ensures forall id :: PortOf(T(), id).vlans == map[]
    {
      allVlanMember := new seq<MbEntry>[VLAN_BITMAP_SIZE](_ => []);
      hw, attrs := map[], map[];
      this.strict := strict;
    }

    /** The attribute setters of the port class: they always succeed. */
    method SetPortAttrs(id: HwId, a: Attrs)
      requires Valid()
      modifies this`attrs
      ensures Valid() && T() == SetAttrs(old(T()), id, a)
    {
      attrs := attrs[id := a];
    }

    method GetPortAttrs(id: HwId) returns (a: Attrs)
      requires Valid()
      ensures a == AttrsOf(T(), id)
    {
      a := if id in attrs then attrs[id] else INITIAL_ATTRS;
    }

    /** __vlan_mb_entry_hmap_find_create: the position of the port's entry, or none. */
    method FindCreate(vid: Vid, id: HwId, isCreate: bool) returns (pos: Option<nat>)
      requires Valid()
      modifies allVlanMember
      ensures Valid() && forall v :: 0 <= v < VLAN_BITMAP_SIZE && v != vid ==> allVlanMember[v] == old(allVlanMember[v])
      ensures pos.Some? ==> pos.value < |allVlanMember[vid]| && allVlanMember[vid][pos.value].hwId == id
      ensures pos.None? ==> !isCreate && !Holds(allVlanMember[vid], id)
      ensures allVlanMember[vid] == old(allVlanMember[vid])
              || (isCreate && !Holds(old(allVlanMember[vid]), id)
                  && allVlanMember[vid] == old(allVlanMember[vid]) + [MbEntry(id, Untagged)])
    {
      var es := allVlanMember[vid];
      for i := 0 to |es|
        invariant forall j :: 0 <= j < i ==> es[j].hwId != id
        invariant allVlanMember[..] == old(allVlanMember[..])
      {
        if es[i].hwId == id {
          return Some(i);
        }
      }
      if !isCreate {
        return None;
      }
      allVlanMember[vid] := es + [MbEntry(id, Untagged)];
      pos := Some(|es|);
    }

    /** The shadow update of __vlan_port_set. */
    method RecordMember(vid: Vid, id: HwId, tag: Tag, add: bool)
      requires Valid()
      modifies allVlanMember
      ensures Valid()
      ensures Shadow() == old(Shadow())[vid := Updated(old(Shadow())[vid], id, tag, add)]
    {
      hide MapOf, Updated;
      ghost var es := allVlanMember[vid];
      var pos := FindCreate(vid, id, add);
      if add {
        var es' := allVlanMember[vid];
        allVlanMember[vid] := es'[pos.value := es'[pos.value].(tagMode := tag)];
        MapOfSet(es', pos.value, tag);
        AppendThenSet(es, es', id, tag);
      } else if pos.Some? {
        var es' := allVlanMember[vid];
        allVlanMember[vid] := es'[..pos.value] + es'[pos.value + 1..];
        MapOfRemove(es', pos.value);
      } else {
        NotHeld(es, id, tag);
      }
    }

    /** add_ports_to_vlan and remove_ports_from_vlan for one port. */
    method HwMember(vid: Vid, id: HwId, tag: Tag, add: bool) returns (ok: bool)
      requires Valid()
      modifies this`hw
      ensures Valid() && (ok <==> Accepts(old(T()), vid))
      ensures hw == if vid in old(hw) then old(hw)[vid := Updated(old(hw)[vid], id, tag, add)] else old(hw)
    {
      ok := vid in hw || !strict;
      if vid in hw {
        hw := hw[vid := Updated(hw[vid], id, tag, add)];
      }
    }

    /** __vlan_port_set */
    method VlanPortSet(vid: Vid, id: HwId, mode: Tag, add: bool) returns (ok: bool)
      requires Valid()
      modifies this`hw, this`attrs, allVlanMember
      ensures Valid() && Result(T(), ok) == PortSet(old(T()), vid, id, mode, add)
    {
      hide MapOf, Updated, Shadow;
      ok := HwMember(vid, id, mode, add);
      if !ok {
        return;
      }
      RecordMember(vid, id, mode, add);
      if add && mode != Untagged {
        return;
      }
      var a := GetPortAttrs(id);
      SetPortAttrs(id, a.(pvid := if add then vid else DEFAULT_PVID));
    }

    /** __trunks_port_set */
    method TrunksPortSet(trunks: Bitmap, id: HwId, add: bool) returns (ok: bool)
      requires Valid()
      modifies this`hw, this`attrs, allVlanMember
      ensures Valid() && Result(T(), ok) == TrunkSet(old(T()), trunks, id, add, VLAN_BITMAP_SIZE)
    {
      hide PortSet, Shadow;
      ok := true;
      for vid := 0 to VLAN_BITMAP_SIZE
        invariant Valid() && Result(T(), ok) == TrunkSet(old(T()), trunks, id, add, vid)
        invariant ok
      {
        if vid in trunks {
          ok := VlanPortSet(vid, id, Tagged, add);
          if ok && !add {
            var a := GetPortAttrs(id);
            SetPortAttrs(id, a.(pvid := DEFAULT_PVID, pvidUntag := true));
          }
          if !ok {
            FailedTrunks(old(T()), trunks, id, add, vid + 1, VLAN_BITMAP_SIZE);
            return;
          }
        }
      }
    }

    method SetFilters(id: HwId, ingress: bool, untagged: bool, tagged: bool)
      requires Valid()
      modifies this`attrs
      ensures Valid() && T() == WithFilters(old(T()), id, ingress, untagged, tagged)
    {
      var a := GetPortAttrs(id);
      SetPortAttrs(id, a.(ingressFilter := ingress, dropUntagged := untagged, dropTagged := tagged));
    }

    /** __vlan_access_port_add */
    method AccessPortAdd(vid: Vid, id: HwId) returns (ok: bool)
      requires Valid()
      modifies this`hw, this`attrs, allVlanMember
      ensures Valid() && Result(T(), ok) == VlanTable.AccessPortAdd(old(T()), vid, id)
    {
      hide PortSet, Shadow;
      ok := VlanPortSet(vid, id, Untagged, true);
      if ok {
        SetFilters(id, true, false, true);
      }
    }

    /** __vlan_access_port_del */
    method AccessPortDel(vid: Vid, id: HwId) returns (ok: bool)
      requires Valid()
      modifies this`hw, this`attrs, allVlanMember
      ensures Valid() && Result(T(), ok) == VlanTable.AccessPortDel(old(T()), vid, id)
    {
      hide PortSet, Shadow;
      ok := VlanPortSet(vid, id, Untagged, false);
      if ok {
        var a := GetPortAttrs(id);
        SetPortAttrs(id, a.(pvid := DEFAULT_PVID, pvidUntag := true));
        SetFilters(id, false, false, false);
      }
    }

    /** __vlan_trunks_port_add */
    method TrunksPortAdd(trunks: Bitmap, id: HwId) returns (ok: bool)
      requires Valid()
      modifies this`hw, this`attrs, allVlanMember
      ensures Valid() && Result(T(), ok) == VlanTable.TrunksPortAdd(old(T()), trunks, id)
    {
      hide TrunkSet, Shadow;
      ok := TrunksPortSet(trunks, id, true);
      if ok {
        SetFilters(id, true, false, false);
      }
    }

    /** __vlan_trunks_port_del */
    method TrunksPortDel(trunks: Bitmap, id: HwId) returns (ok: bool)
      requires Valid()
      modifies this`hw, this`attrs, allVlanMember
      ensures Valid() && Result(T(), ok) == VlanTable.TrunksPortDel(old(T()), trunks, id)
    {
      hide TrunkSet, Shadow;
      ok := TrunksPortSet(trunks, id, false);
      if ok {
        SetFilters(id, false, false, false);
      }
    }

    /** __native_tagged_vlan_set */
    method NativeTaggedVlanSet(vid: Vid, id: HwId, add: bool) returns (ok: bool)
      requires Valid()
      modifies this`hw, this`attrs, allVlanMember
      ensures Valid() && Result(T(), ok) == VlanTable.NativeTaggedVlanSet(old(T()), vid, id, add)
    {
      hide TrunkSet, Shadow;
      if add {
        ok := TrunksPortAdd({vid}, id);
      } else {
        ok := TrunksPortDel({vid}, id);
      }
      if ok {
        var a := GetPortAttrs(id);
        SetPortAttrs(id, a.(pvid := if add then vid else DEFAULT_PVID));
      }
    }

    /** The replay loop of a VLAN just created: every recorded member is set again. */
    method ReplayMembers(vid: Vid) returns (ghost order: seq<HwId>)
      requires Valid() && Replayed(T(), vid, {})
      requires forall v :: v in hw && v != vid ==> hw[v] == Members(T().shadow, v)
      modifies this`hw, this`attrs, allVlanMember
      ensures Valid() && IsOrder(old(T()), vid, order) && T() == Replay(old(T()), vid, order)
    {
      hide PortSet, MapOf;
      ghost var t := T();
      var es := allVlanMember[vid];
      assert Members(t.shadow, vid) == MapOf(es);
      order := seq(|es|, i requires 0 <= i < |es| => es[i].hwId);
      for i := 0 to |es|
        invariant Valid() && T() == Replay(t, vid, order[..i])
      {
        ReplaySteps(t, vid, order[..i]);
        MapOfAt(es, i);
        assert order[..i + 1][..i] == order[..i];
        var ok := VlanPortSet(vid, es[i].hwId, es[i].tagMode, true);
      }
      assert order[..|es|] == order;
      OrderOfEntries(es, order);
    }

    /** __vlan_set */
    method VlanSet(vid: Vid, add: bool) returns (ok: bool, ghost order: seq<HwId>)
      requires Valid() && ShadowInv(T())
      modifies this`hw, this`attrs, allVlanMember
      ensures Valid() && ShadowInv(T())
      ensures add ==> IsOrder(old(T()), vid, order) && T() == Apply(old(T()), Create(vid, order))
      ensures !add ==> T() == Apply(old(T()), Remove(vid)) && (ok <==> vid in old(hw))
    {
      hide MapOf, Replay;
      order := [];
      ghost var t := T();
      if add {
        if vid !in hw {
          hw := hw[vid := NO_MEMBERS];
        }
        assert T() == CreateIfMissing(t, vid);
        order := ReplayMembers(vid);
        ok := true;
        CreateRestores(t, vid, order);
      } else {
        ok := vid in hw;
        hw := hw - {vid};
      }
    }

    /** ops_sai_vlan_intf_update, which only ever creates. */
    method VlanIntfUpdate(vid: Vid, add: bool) returns (ghost order: seq<HwId>)
      requires Valid() && ShadowInv(T())
      modifies this`hw, this`attrs, allVlanMember
      ensures Valid() && ShadowInv(T())
      ensures !add ==> T() == old(T())
      ensures add ==> (vid !in old(hw) ==> IsOrder(old(T()), vid, order))
                      && T() == Apply(old(T()), IntfCreate(vid, order))
    {
      hide MapOf, Replay;
      order := [];
      ghost var t := T();
      if add {
        if vid in hw {
          return;
        }
        hw := hw[vid := NO_MEMBERS];
        assert T() == CreateIfMissing(t, vid);
        order := ReplayMembers(vid);
        CreateRestores(t, vid, order);
      }
    }
  }

  lemma OrderOfEntries(es: seq<MbEntry>, order: seq<HwId>)
    requires |order| == |es| && forall i :: 0 <= i < |es| ==> order[i] == es[i].hwId
    ensures (set id | id in order) == MapOf(es).Keys
  {
    forall id ensures id in order <==> id in MapOf(es) {
      MapOfKeys(es, id);
      if id in order {
        var i :| 0 <= i < |order| && order[i] == id;
        assert es[i].hwId == id;
      }
      if Holds(es, id) {
        var i :| 0 <= i < |es| && es[i].hwId == id;
        assert order[i] == id;
      }
    }
  }

  lemma {:induction false} FailedTrunks(t: Table, trunks: Bitmap, id: HwId, add: bool, m: nat, n: nat)
    requires m <= n <= VLAN_BITMAP_SIZE && !TrunkSet(t, trunks, id, add, m).ok
    ensures TrunkSet(t, trunks, id, add, n) == TrunkSet(t, trunks, id, add, m)
    decreases n
  {
    if m < n {
      FailedTrunks(t, trunks, id, add, m, n - 1);
    }
  }

  lemma AppendThenSet(es: seq<MbEntry>, es': seq<MbEntry>, id: HwId, tag: Tag)
    requires es' == es || es' == es + [MbEntry(id, Untagged)]
    ensures Updated(MapOf(es'), id, tag, true) == Updated(MapOf(es), id, tag, true)
  {
    if es' != es {
      assert es'[..|es|] == es;
    }
  }
}
