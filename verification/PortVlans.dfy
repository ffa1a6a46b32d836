/**
 The VLAN calls a port gets when it leaves a bundle or joins one: what they do when the
 switch accepts them, what a refused removal leaves behind, and when a reported success is
 a genuine one.
 */
module PortVlans {
  import opened Options
  import opened VlanPort
  import opened VlanTable
  import opened VlanBundle

  predicate GoodSettings(s: Settings) {
    WellFormed(s) && VlanGiven(s)
  }

  // ------------------------------------------------------------------ leaving and joining

  function DetachVlans(t: Table, id: HwId, s: Settings): Result
    requires GoodSettings(s)
  {
    var r := if s.vlan != -1 then AccessPortDel(t, s.vlan, id) else Result(t, true);
    if r.ok && s.trunks.Some? then TrunksPortDel(r.t, s.trunks.value, id) else r
  }

  /** The access or native part of attaching. */
  function AttachVlan(t: Table, id: HwId, s: Settings): Result
    requires GoodSettings(s)
  {
    if s.vlan == -1 then Result(t, true)
    else if s.mode.NativeTagged? then
      // the status of the native call is not looked at before the untag setting
      var q := NativeTaggedVlanSet(t, s.vlan, id, true);
      Result(SetAttrs(q.t, id, AttrsOf(q.t, id).(pvidUntag := false)), q.ok)
    else
      var q := AccessPortAdd(t, s.vlan, id);
      if q.ok then Result(SetAttrs(q.t, id, AttrsOf(q.t, id).(pvidUntag := true)), true) else q
  }

  function AttachVlans(t: Table, id: HwId, s: Settings): Result
    requires GoodSettings(s)
  {
    var r := AttachVlan(t, id, s);
    if s.trunks.Some? && (r.ok || s.mode.NativeTagged?) then TrunksPortAdd(r.t, s.trunks.value, id) else r
  }

  lemma DetachPort(t: Table, id: HwId, s: Settings)
    requires GoodSettings(s)
    ensures var r := DetachVlans(t, id, s);
            Keeps(t, r) && (!t.strict ==> r.ok) && (r.ok ==> Did(t, r, id, ExitBundle(PortOf(t, id), s)))
  {
    hide PortOf, ShadowInv, AccessPortDel, TrunksPortDel, AccessDel, TrunksDel;
    if s.vlan != -1 {
      AccessPort(t, s.vlan, id);
    }
    if s.trunks.Some? {
      var r := if s.vlan != -1 then AccessPortDel(t, s.vlan, id) else Result(t, true);
      TrunksPort(r.t, s.trunks.value, id, false);
    }
  }

  /** Attaching reports success although a native-tagged VLAN was refused; with it accepted it is exact. */
  lemma AttachPort(t: Table, id: HwId, s: Settings)
    requires GoodSettings(s)
    ensures var r := AttachVlans(t, id, s);
            && Keeps(t, r) && (!t.strict ==> r.ok)
            && (r.ok && (s.mode.NativeTagged? ==> Accepts(t, s.vlan)) ==> Did(t, r, id, EnterBundle(PortOf(t, id), s)))
  {
    hide PortOf, ShadowInv, AccessPortAdd, NativeTaggedVlanSet, TrunksPortAdd, AccessAdd, NativeTaggedSet, TrunksAdd;
    if s.vlan != -1 {
      AccessPort(t, s.vlan, id);
      NativeTaggedPort(t, s.vlan, id, true);
      SetUntagDid(NativeTaggedVlanSet(t, s.vlan, id, true).t, id, false);
      SetUntagDid(AccessPortAdd(t, s.vlan, id).t, id, true);
    }
    var r := AttachVlan(t, id, s);
    if s.trunks.Some? {
      TrunksPort(r.t, s.trunks.value, id, true);
    }
  }

  // ------------------------------------------------------------------ what happens whatever the status

  lemma DetachConfined(t: Table, id: HwId, s: Settings)
    requires GoodSettings(s)
    ensures Confined(t, DetachVlans(t, id, s), id)
  {
    hide Confined, Keeps, AccessPortDel, TrunksPortDel;
    NothingConfined(t, id);
    if s.vlan != -1 {
      AccessPort(t, s.vlan, id);
      AccessConfined(t, s.vlan, id);
    }
    var r := if s.vlan != -1 then AccessPortDel(t, s.vlan, id) else Result(t, true);
    if r.ok && s.trunks.Some? {
      TrunksConfined(r.t, s.trunks.value, id, false);
      ConfinedThen(t, r, TrunksPortDel(r.t, s.trunks.value, id), id);
    }
  }

  lemma AttachVlanConfined(t: Table, id: HwId, s: Settings)
    requires GoodSettings(s)
    ensures Confined(t, AttachVlan(t, id, s), id) && Keeps(t, AttachVlan(t, id, s))
  {
    hide Confined, Keeps, AccessPortAdd, NativeTaggedVlanSet;
    NothingConfined(t, id);
    if s.vlan != -1 {
      var q := if s.mode.NativeTagged? then NativeTaggedVlanSet(t, s.vlan, id, true) else AccessPortAdd(t, s.vlan, id);
      AccessPort(t, s.vlan, id);
      AccessConfined(t, s.vlan, id);
      NativeTaggedPort(t, s.vlan, id, true);
      NativeTaggedConfined(t, s.vlan, id, true);
      var a := AttrsOf(q.t, id).(pvidUntag := !s.mode.NativeTagged?);
      AttrsConfined(q.t, id, a);
      SameStatus(t, q, Result(SetAttrs(q.t, id, a), q.ok), id);
    }
  }

  /** Neither predicate looks at the status. */
  lemma SameStatus(t: Table, q: Result, r: Result, id: HwId)
    requires Keeps(t, q) && Confined(t, q, id)
    requires Keeps(q.t, Result(r.t, true)) && Confined(q.t, Result(r.t, true), id)
    ensures Keeps(t, r) && Confined(t, r, id)
  {
    ConfinedThen(t, q, Result(r.t, true), id);
  }

  lemma AttachConfined(t: Table, id: HwId, s: Settings)
    requires GoodSettings(s)
    ensures Confined(t, AttachVlans(t, id, s), id)
  {
    hide Confined, Keeps, AttachVlan, TrunksPortAdd;
    AttachVlanConfined(t, id, s);
    var r := AttachVlan(t, id, s);
    if s.trunks.Some? && (r.ok || s.mode.NativeTagged?) {
      TrunksConfined(r.t, s.trunks.value, id, true);
      ConfinedThen(t, r, TrunksPortAdd(r.t, s.trunks.value, id), id);
    }
  }

  // ------------------------------------------------------------------ a refused removal

  /** Detaching succeeds iff the switch accepts every VLAN the settings declare. */
  lemma DetachOkIff(t: Table, id: HwId, s: Settings)
    requires GoodSettings(s)
    ensures DetachVlans(t, id, s).ok <==> forall v :: v in Declared(s) ==> Accepts(t, v)
  {
    hide PortOf, ShadowInv, AccessPortDel, TrunksPortDel, AccessDel, TrunksDel;
    if s.vlan != -1 {
      AccessPort(t, s.vlan, id);
    }
    var r := if s.vlan != -1 then AccessPortDel(t, s.vlan, id) else Result(t, true);
    TrunksPort(r.t, TrunksOf(s), id, false);
    assert forall v: Vid :: Accepts(r.t, v) <==> Accepts(t, v);
    forall v ensures v in Declared(s) <==> (s.vlan != -1 && v == s.vlan) || v in TrunksOf(s) {
      DeclaredAt(s, v);
    }
  }

  /**
   The VLANs a removal leaves on a port that had the declared ones: all of them when the
   native or access VLAN is refused, else the trunks from the first refused one on.
   */
  function LeftBehind(t: Table, s: Settings): map<Vid, Tag>
    requires GoodSettings(s)
  {
    if s.vlan != -1 && !Accepts(t, s.vlan) then Declared(s)
    else map v | v in TrunksOf(s) && v != s.vlan && RefusedUpTo(t, TrunksOf(s), v) :: Tagged
  }

  predicate RefusedUpTo(t: Table, trunks: Bitmap, v: Vid) {
    exists u :: u in trunks && u <= v && !Accepts(t, u)
  }

  lemma DetachLeaves(t: Table, id: HwId, s: Settings)
    requires GoodSettings(s) && PortOf(t, id).vlans == Declared(s)
    ensures PortOf(DetachVlans(t, id, s).t, id).vlans == LeftBehind(t, s)
  {
    hide PortOf, ShadowInv, Declared, LeftBehind;
    forall v ensures Lookup(PortOf(DetachVlans(t, id, s).t, id).vlans, v) == Lookup(LeftBehind(t, s), v) {
      DetachLeavesAt(t, id, s, v);
    }
    SameLookups(PortOf(DetachVlans(t, id, s).t, id).vlans, LeftBehind(t, s));
  }

  lemma DetachLeavesAt(t: Table, id: HwId, s: Settings, v: Vid)
    requires GoodSettings(s) && PortOf(t, id).vlans == Declared(s)
    ensures Lookup(PortOf(DetachVlans(t, id, s).t, id).vlans, v) == Lookup(LeftBehind(t, s), v)
  {
    hide PortOf, ShadowInv, AccessPortDel, TrunksPortDel, Declared, RefusedUpTo;
    DeclaredAt(s, v);
    if s.vlan != -1 {
      AccessPort(t, s.vlan, id);
      if !Accepts(t, s.vlan) {
        RefusedCall(t, s.vlan, id, false);
      }
    }
    if s.vlan == -1 || Accepts(t, s.vlan) {
      var r := if s.vlan != -1 then AccessPortDel(t, s.vlan, id) else Result(t, true);
      assert forall u: Vid :: Accepts(r.t, u) <==> Accepts(t, u);
      TrunksLeave(r.t, TrunksOf(s), id, v);
      RefusedUpToKept(t, r.t, TrunksOf(s), v);
    }
  }

  lemma RefusedUpToKept(t: Table, t': Table, trunks: Bitmap, v: Vid)
    requires forall u: Vid :: Accepts(t', u) <==> Accepts(t, u)
    ensures RefusedUpTo(t', trunks, v) <==> RefusedUpTo(t, trunks, v)
  {
  }

  lemma TrunksLeave(t: Table, trunks: Bitmap, id: HwId, v: Vid)
    ensures Lookup(PortOf(TrunksPortDel(t, trunks, id).t, id).vlans, v)
            == if v in trunks && !RefusedUpTo(t, trunks, v) then None else Lookup(PortOf(t, id).vlans, v)
  {
    hide PortOf, TrunksPortDel;
    TrunksReach(t, trunks, id, false, v);
  }

  /** Nothing is left behind iff nothing the settings declare is refused. */
  lemma NothingLeftIff(t: Table, s: Settings)
    requires GoodSettings(s)
    ensures LeftBehind(t, s) == map[] <==> forall v :: v in Declared(s) ==> Accepts(t, v)
  {
    forall v ensures v in Declared(s) <==> (s.vlan != -1 && v == s.vlan) || v in TrunksOf(s) {
      DeclaredAt(s, v);
    }
    hide Declared;
    if v :| v in Declared(s) && !Accepts(t, v) {
      assert s.vlan != -1 && !Accepts(t, s.vlan) ==> s.vlan as Vid in LeftBehind(t, s);
      assert RefusedUpTo(t, TrunksOf(s), v) || v == s.vlan;
      assert v in LeftBehind(t, s);
    }
  }

  lemma LeftIsRefused(t: Table, s: Settings)
    requires GoodSettings(s)
    ensures LeftBehind(t, s) != map[] ==> exists v :: v in LeftBehind(t, s) && !Accepts(t, v)
  {
    if s.vlan != -1 && !Accepts(t, s.vlan) {
      DeclaredAt(s, s.vlan);
    } else if LeftBehind(t, s) != map[] {
      var v :| v in LeftBehind(t, s);
      var u :| u in TrunksOf(s) && u <= v && !Accepts(t, u);
      assert RefusedUpTo(t, TrunksOf(s), u);
      assert u in LeftBehind(t, s);
    }
  }

  // ------------------------------------------------------------------ a reported success

  /** The VLANs a port that had `left` has once attaching it reported success. */
  function Attached(t: Table, left: map<Vid, Tag>, s: Settings): map<Vid, Tag>
    requires GoodSettings(s)
  {
    AttachedVlan(t, left, s) + map v | v in TrunksOf(s) :: Tagged
  }

  /** The part of it that does not come from the trunks. */
  function AttachedVlan(t: Table, left: map<Vid, Tag>, s: Settings): map<Vid, Tag>
    requires GoodSettings(s)
  {
    if s.vlan == -1 || (s.mode.NativeTagged? && !Accepts(t, s.vlan)) then left
    else left[s.vlan as Vid := if s.mode.NativeTagged? then Tagged else Untagged]
  }

  lemma AttachVlanVlans(t: Table, id: HwId, s: Settings)
    requires GoodSettings(s)
    ensures var r := AttachVlan(t, id, s);
            && Keeps(t, r) && (r.ok <==> (s.vlan != -1 ==> Accepts(t, s.vlan)))
            && (r.ok || s.mode.NativeTagged? ==> PortOf(r.t, id).vlans == AttachedVlan(t, PortOf(t, id).vlans, s))
  {
    hide PortOf, ShadowInv, AccessPortAdd, NativeTaggedVlanSet;
    if s.vlan != -1 {
      AccessPort(t, s.vlan, id);
      NativeTaggedPort(t, s.vlan, id, true);
      SetUntagDid(NativeTaggedVlanSet(t, s.vlan, id, true).t, id, false);
      SetUntagDid(AccessPortAdd(t, s.vlan, id).t, id, true);
      if !Accepts(t, s.vlan) {
        RefusedCall(t, s.vlan, id, true);
      } else if s.mode.NativeTagged? {
        NativeTaggedVlans(PortOf(t, id), s.vlan);
      }
    }
  }

  lemma NativeTaggedVlans(p: Port, vid: Vid)
    ensures NativeTaggedSet(p, vid, true).vlans == p.vlans[vid := Tagged]
  {
  }

  lemma AttachedVlans(t: Table, id: HwId, s: Settings)
    requires GoodSettings(s) && AttachVlans(t, id, s).ok
    ensures PortOf(AttachVlans(t, id, s).t, id).vlans == Attached(t, PortOf(t, id).vlans, s)
    ensures s.vlan != -1 && !s.mode.NativeTagged? ==> Accepts(t, s.vlan)
    ensures forall v :: v in TrunksOf(s) ==> Accepts(t, v)
  {
    hide PortOf, ShadowInv, AttachVlan, AttachedVlan, TrunksPortAdd;
    AttachVlanVlans(t, id, s);
    var r := AttachVlan(t, id, s);
    TrunksPort(r.t, TrunksOf(s), id, true);
    assert forall v: Vid :: Accepts(r.t, v) <==> Accepts(t, v);
  }

  /**
   The VLANs of a port after attaching, whether it succeeded, failed or only said so: nothing
   changes when an access or native-untagged VLAN is refused; else the VLAN is there if it is
   accepted, and the trunks before the first refused one.
   */
  lemma AttachLeavesAt(t: Table, id: HwId, s: Settings, v: Vid)
    requires GoodSettings(s)
    ensures var blocked := s.vlan != -1 && !Accepts(t, s.vlan) && (!s.mode.NativeTagged? || s.trunks.None?);
            Lookup(PortOf(AttachVlans(t, id, s).t, id).vlans, v)
            == if blocked then Lookup(PortOf(t, id).vlans, v)
               else if v in TrunksOf(s) && !RefusedUpTo(t, TrunksOf(s), v) then Some(Tagged)
               else Lookup(AttachedVlan(t, PortOf(t, id).vlans, s), v)
  {
    hide PortOf, ShadowInv, AttachVlan, AttachedVlan, TrunksPortAdd;
    AttachVlanVlans(t, id, s);
    RefusedVlanLeaves(t, id, s);
    var r := AttachVlan(t, id, s);
    assert forall u: Vid :: Accepts(r.t, u) <==> Accepts(t, u);
    TrunksReach(r.t, TrunksOf(s), id, true, v);
    RefusedUpToKept(t, r.t, TrunksOf(s), v);
  }

  lemma RefusedVlanLeaves(t: Table, id: HwId, s: Settings)
    requires GoodSettings(s)
    ensures s.vlan != -1 && !Accepts(t, s.vlan) ==> PortOf(AttachVlan(t, id, s).t, id).vlans == PortOf(t, id).vlans
  {
    if s.vlan != -1 && !Accepts(t, s.vlan) {
      RefusedCall(t, s.vlan, id, true);
      SetUntagDid(t, id, false);
    }
    hide PortOf;
  }

  /** The calls of attaching whose failure is looked at: all but the native-tagged one. */
  predicate CheckedCallsAccepted(t: Table, s: Settings)
    requires GoodSettings(s)
  {
    && (s.vlan != -1 && !s.mode.NativeTagged? ==> Accepts(t, s.vlan))
    && (forall v :: v in TrunksOf(s) ==> Accepts(t, v))
  }

  /** Attaching succeeds iff those are accepted, and the native-tagged call too when no trunk call overwrites its status. */
  lemma AttachOkIff(t: Table, id: HwId, s: Settings)
    requires GoodSettings(s)
    ensures AttachVlans(t, id, s).ok
            <==> CheckedCallsAccepted(t, s) && (s.mode.NativeTagged? && s.trunks.None? ==> Accepts(t, s.vlan))
  {
    hide PortOf, ShadowInv, AttachVlan, AttachedVlan, TrunksPortAdd;
    AttachVlanVlans(t, id, s);
    var r := AttachVlan(t, id, s);
    TrunksPort(r.t, TrunksOf(s), id, true);
    assert forall v: Vid :: Accepts(r.t, v) <==> Accepts(t, v);
  }

  /**
   A success that attaching reports is genuine, in that the port entered the bundle, iff the
   native VLAN was not refused, or the port had it already.
   */
  lemma AttachGenuineIff(t: Table, id: HwId, s: Settings)
    requires GoodSettings(s) && AttachVlans(t, id, s).ok
    ensures PortOf(AttachVlans(t, id, s).t, id).vlans == EnterBundle(PortOf(t, id), s).vlans
            <==> (s.mode.NativeTagged? ==> Accepts(t, s.vlan) || Lookup(PortOf(t, id).vlans, s.vlan) == Some(Tagged))
  {
    hide PortOf, AttachVlans, Attached, EnterBundle;
    AttachedVlans(t, id, s);
    AttachedIsEntered(t, PortOf(t, id), s);
  }

  lemma EnteredAt(p: Port, s: Settings, v: Vid)
    requires GoodSettings(s)
    ensures Lookup(EnterBundle(p, s).vlans, v) == if v in TrunksOf(s) then Some(Tagged)
                                                  else if s.vlan != -1 && v == s.vlan
                                                  then Some(if s.mode.NativeTagged? then Tagged else Untagged)
                                                  else Lookup(p.vlans, v)
  {
  }

  lemma AttachedIsEntered(t: Table, p: Port, s: Settings)
    requires GoodSettings(s)
    ensures Attached(t, p.vlans, s) == EnterBundle(p, s).vlans
            <==> (s.mode.NativeTagged? && s.vlan !in TrunksOf(s) ==>
                    Accepts(t, s.vlan) || Lookup(p.vlans, s.vlan) == Some(Tagged))
  {
    hide EnterBundle;
    var got := EnterBundle(p, s).vlans;
    if s.mode.NativeTagged? && !Accepts(t, s.vlan) && s.vlan !in TrunksOf(s) && Lookup(p.vlans, s.vlan) != Some(Tagged) {
      EnteredAt(p, s, s.vlan);
      assert Lookup(Attached(t, p.vlans, s), s.vlan) == Lookup(p.vlans, s.vlan);
    } else {
      forall v ensures Lookup(Attached(t, p.vlans, s), v) == Lookup(got, v) {
        EnteredAt(p, s, v);
      }
      SameLookups(Attached(t, p.vlans, s), got);
    }
  }

  /** After a reported success the PVID is the declared one iff there is a VLAN to set it, not refused, or it was before. */
  lemma AttachPvidIff(t: Table, id: HwId, s: Settings)
    requires GoodSettings(s) && AttachVlans(t, id, s).ok
    ensures PortOf(AttachVlans(t, id, s).t, id).attrs.pvid == DeclaredPvid(s)
            <==> (HasVlan(s) && Accepts(t, s.vlan)) || PortOf(t, id).attrs.pvid == DeclaredPvid(s)
  {
    hide PortOf, ShadowInv, AttachVlan, TrunksPortAdd, EnterBundle;
    AttachPort(t, id, s);
    EnterBundlePvidIff(PortOf(t, id), s);
    AttachedVlans(t, id, s);
    if s.mode.NativeTagged? && !Accepts(t, s.vlan) {
      RefusedNativeAttrs(t, id, s);
      var r := AttachVlan(t, id, s);
      TrunksPort(r.t, TrunksOf(s), id, true);
    }
  }

  /** After a reported success the filters are those of the mode iff the trunk bitmap is there or not as the mode needs it. */
  lemma AttachFiltersIff(t: Table, id: HwId, s: Settings)
    requires GoodSettings(s) && AttachVlans(t, id, s).ok
    ensures FiltersMatch(PortOf(AttachVlans(t, id, s).t, id), s) <==> FiltersSet(PortOf(t, id), s)
  {
    hide PortOf, ShadowInv, AttachVlan, TrunksPortAdd, EnterBundle;
    AttachPort(t, id, s);
    EnterBundleFiltersIff(PortOf(t, id), s);
    if s.mode.NativeTagged? && !Accepts(t, s.vlan) {
      AttachVlanVlans(t, id, s);
      TrunksPort(AttachVlan(t, id, s).t, TrunksOf(s), id, true);
    }
  }

  lemma RefusedNativeAttrs(t: Table, id: HwId, s: Settings)
    requires GoodSettings(s) && s.mode.NativeTagged? && !Accepts(t, s.vlan)
    ensures PortOf(AttachVlan(t, id, s).t, id) == WithUntag(PortOf(t, id), false)
  {
    hide PortOf, NativeTaggedVlanSet;
    RefusedCall(t, s.vlan, id, true);
    SetUntagDid(t, id, false);
  }

  /**
   What was left on a port before it joins is compatible with the settings: nothing else
   than they declare, the native VLAN if it will be refused, and no native VLAN that the
   trunks tag again.
   */
  predicate Fits(t: Table, left: map<Vid, Tag>, s: Settings)
    requires GoodSettings(s)
  {
    && left.Keys <= Declared(s).Keys
    && (s.mode.NativeTagged? && !Accepts(t, s.vlan) ==> Lookup(left, s.vlan) == Some(Tagged))
    && !(s.mode.NativeUntagged? && s.vlan in TrunksOf(s))
  }

  /** After a reported success the port has the declared VLANs iff what it had before fits. */
  lemma AttachDeclaresIff(t: Table, id: HwId, s: Settings)
    requires GoodSettings(s) && AttachVlans(t, id, s).ok
    ensures PortOf(AttachVlans(t, id, s).t, id).vlans == Declared(s) <==> Fits(t, PortOf(t, id).vlans, s)
  {
    hide PortOf, AttachVlans;
    AttachedVlans(t, id, s);
    AttachedDeclaresIff(t, PortOf(t, id).vlans, s);
  }

  lemma AttachedDeclaresIff(t: Table, left: map<Vid, Tag>, s: Settings)
    requires GoodSettings(s) && (forall v :: v in TrunksOf(s) ==> Accepts(t, v))
    ensures Attached(t, left, s) == Declared(s) <==> Fits(t, left, s)
  {
    forall v ensures Lookup(Declared(s), v)
                     == if HasVlan(s) && v == s.vlan then Some(if s.mode.NativeTagged? then Tagged else Untagged)
                        else if v in TrunksOf(s) then Some(Tagged) else None
    {
      DeclaredAt(s, v);
    }
    hide Declared;
    if Fits(t, left, s) {
      forall v ensures Lookup(Attached(t, left, s), v) == Lookup(Declared(s), v) {
        assert v in left ==> v in Declared(s);
      }
      SameLookups(Attached(t, left, s), Declared(s));
    } else if v :| v in left && v !in Declared(s) {
      assert v in Attached(t, left, s);
    } else {
      assert Lookup(Attached(t, left, s), s.vlan) != Lookup(Declared(s), s.vlan);
    }
  }

  /** Unless a native VLAN is refused, only a port with nothing left on it fits, and only without the clash. */
  lemma FitsWhenAccepted(t: Table, left: map<Vid, Tag>, s: Settings)
    requires GoodSettings(s) && (forall v :: v in Declared(s) ==> Accepts(t, v))
    requires left != map[] ==> exists v :: v in left && !Accepts(t, v)
    ensures Fits(t, left, s) <==> left == map[] && !(s.mode.NativeUntagged? && s.vlan in TrunksOf(s))
  {
    if s.mode.NativeTagged? {
      DeclaredAt(s, s.vlan);
    }
  }

  /** The false success: the native VLAN is refused, the empty trunk list is not, and 0 is returned. */
  lemma RefusedNativeIsNotReported(t: Table, id: HwId)
    requires t == Table(map[], map[], map[], true)
    ensures var s := Settings(NativeTagged, 5, Some({}));
            && GoodSettings(s) && AttachVlans(t, id, s).ok
            && PortOf(AttachVlans(t, id, s).t, id).vlans != EnterBundle(PortOf(t, id), s).vlans
            && PortOf(AttachVlans(t, id, s).t, id).vlans != Declared(s)
  {
    hide PortOf, NativeTaggedVlanSet, TrunksPortAdd, EnterBundle, Attached;
    var s := Settings(NativeTagged, 5, Some({}));
    NativeTaggedPort(t, 5, id, true);
    var q := NativeTaggedVlanSet(t, 5, id, true);
    TrunksPort(SetAttrs(q.t, id, AttrsOf(q.t, id).(pvidUntag := false)), {}, id, true);
    EmptyTable(t, id);
    AttachGenuineIff(t, id, s);
    AttachDeclaresIff(t, id, s);
  }

  lemma EmptyTable(t: Table, id: HwId)
    requires t.shadow == map[]
    ensures PortOf(t, id).vlans == map[]
  {
  }
}
