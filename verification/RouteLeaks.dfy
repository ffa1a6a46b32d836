/**
 What the code leaks and exactly when: references to next hops, and ECMP groups in hardware.
 */
module RouteLeaks {
  import opened Options
  import opened RouteState
  import opened RouteProofs
  import opened RouteTheorems

  // ------------------------------------------------------------------ exact reference counts

  /** Every count is exact but for one reference to spare on each of `ids`. */
  ghost predicate ExactBut(s: State, ids: set<Id>) {
    forall id :: id in s.nhs ==> s.nhs[id].ref == Refs(s, id) + (if id in ids then 1 else 0)
  }

  lemma AcquiredExact(s: State, mid: State, ids: set<Id>)
    requires RefInv(s) && CreatesExact(s) && Acquired(s, mid, ids)
    ensures ExactBut(mid, ids)
  {
    hide TableInv, Holders;
    assert forall id :: Refs(mid, id) == Refs(s, id);
  }

  lemma SpentExact(mid: State, s': State, p: Prefix, ids: set<Id>)
    requires ExactBut(mid, ids) && p in s'.routes
    requires s'.routes == mid.routes[p := s'.routes[p]] && s'.nhs == mid.nhs
    requires s'.outstanding == mid.outstanding
    requires s'.routes[p].nexthops == (if p in mid.routes then mid.routes[p].nexthops else {}) + ids
    requires p in mid.routes ==> ids !! mid.routes[p].nexthops
    ensures CreatesExact(s')
  {
    hide Refs;
    RefsWithRecord(mid, s', p, s'.routes[p]);
  }

  lemma ShrunkExact(s: State, mid: State, p: Prefix, ids: set<Id>)
    requires CreatesExact(s) && p in s.routes && ids <= s.routes[p].nexthops
    requires mid.nhs == s.nhs && mid.outstanding == s.outstanding && p in mid.routes
    requires mid.routes == s.routes[p := mid.routes[p]]
    requires mid.routes[p].nexthops == s.routes[p].nexthops - ids
    ensures ExactBut(mid, ids)
  {
    hide Refs;
    RefsWithRecord(s, mid, p, mid.routes[p]);
  }

  lemma DroppedExact(s: State, mid: State, p: Prefix)
    requires CreatesExact(s) && p in s.routes
    requires mid.routes == s.routes - {p} && mid.nhs == s.nhs && mid.outstanding == s.outstanding
    ensures ExactBut(mid, s.routes[p].nexthops)
  {
    hide Refs;
    RefsWithoutRecord(s, mid, p);
  }

  lemma ReleasedExact(mid: State, s': State, ids: set<Id>)
    requires ExactBut(mid, ids) && Released(mid, s', ids)
    ensures CreatesExact(s')
  {
    hide TableInv, Holders;
    assert forall id :: Refs(s', id) == Refs(mid, id);
  }

  lemma RewrittenExact(s: State, s': State, p: Prefix)
    requires CreatesExact(s) && p in s'.routes && s'.nhs == s.nhs && s'.outstanding == s.outstanding
    requires s'.routes == s.routes[p := s'.routes[p]]
    requires s'.routes[p].nexthops == if p in s.routes then s.routes[p].nexthops else {}
    ensures CreatesExact(s')
  {
    hide Refs;
    RefsWithRecord(s, s', p, s'.routes[p]);
  }

  lemma RemoteAddExact(s: State, s': State, p: Prefix, hops: seq<Id>)
    requires Inv(s) && CreatesExact(s) && Tidy(s, RemoteAdd(p, hops)) && RemoteAddStep(s, s', p, hops)
    ensures CreatesExact(s')
  {
    hide TableInv, OidInv, RefInv, CreatesExact, NeighborInv, OwnGroup, TargetOk, Acquired, Installed, Grown;
    var ids := Elems(hops);
    if |hops| < SAI_NEXT_HOP_MAX {
      assert p in s.routes ==> PrefixOk(s, p);
      if p !in s.routes || (s.routes[p].nNexthops == 0 && s.routes[p].referCnt > 0) {
        var referCnt := if p in s.routes then s.routes[p].referCnt else 0;
        var mid :| Acquired(s, mid, ids) && Installed(mid, s', p, ids, referCnt);
        AcquiredFrame(s, mid, ids);
        AcquiredExact(s, mid, ids);
        InstalledExact(mid, s', p, ids, referCnt);
      } else if s.routes[p].nNexthops > 0 && ids !! s.routes[p].nexthops {
        var mid :| Acquired(s, mid, ids) && Grown(mid, s', p, ids);
        AcquiredFrame(s, mid, ids);
        AcquiredExact(s, mid, ids);
        GrownExact(mid, s', p, ids);
      } else {
        assert s.routes[p].nexthops + ids == s.routes[p].nexthops;
        RewrittenExact(s, s', p);
      }
    }
  }

  lemma InstalledExact(mid: State, s': State, p: Prefix, ids: set<Id>, referCnt: nat)
    requires ExactBut(mid, ids) && Installed(mid, s', p, ids, referCnt)
    requires p in mid.routes ==> mid.routes[p].nexthops == {}
    ensures CreatesExact(s')
  {
    hide ExactBut, CreatesExact, Handles;
    var before := if p in mid.routes then mid.routes[p].nexthops else {};
    assert before + ids == ids;
    SpentExact(mid, s', p, ids);
  }

  lemma GrownExact(mid: State, s': State, p: Prefix, ids: set<Id>)
    requires ExactBut(mid, ids) && Grown(mid, s', p, ids) && ids !! mid.routes[p].nexthops
    ensures CreatesExact(s')
  {
    hide ExactBut, CreatesExact, Handles;
    SpentExact(mid, s', p, ids);
  }

  lemma EarlyReturnLeaks(s: State, s': State, p: Prefix, ids: set<Id>)
    requires Inv(s) && CreatesExact(s) && EarlyReturn(s, p, ids)
    requires s' == s.(routes := s.routes - {p}, hwRoutes := s.hwRoutes - {p})
    ensures !CreatesExact(s')
  {
    hide TableInv, OidInv, NeighborInv, OwnGroup, TargetOk, Handles;
    assert PrefixOk(s, p);
    var id :| id in s.routes[p].nexthops;
    HeldIsReferenced(s, p, id);
    RefsWithoutRecord(s, s', p);
    assert Refs(s', id) == Refs(s, id) - 1;
    assert id in s'.nhs;
  }

  /** While counts are exact nothing is spare, so a tidy withdrawal names only the route's own next hops. */
  lemma NothingSpare(s: State, p: Prefix, ids: set<Id>)
    requires CreatesExact(s) && p in s.routes && OnlySpare(s, p, ids) && s.routes[p].nexthops <= s.nhs.Keys
    ensures ids * s.nhs.Keys == ids * s.routes[p].nexthops
  {
  }

  lemma RemoteNhRemoveExact(s: State, s': State, p: Prefix, hops: seq<Id>)
    requires Inv(s) && CreatesExact(s) && Tidy(s, RemoteNhRemove(p, hops))
    requires RemoteNhRemoveStep(s, s', p, hops)
    ensures CreatesExact(s') <==> !(p in s.routes && EarlyReturn(s, p, Elems(hops)))
  {
    hide TableInv, OidInv, RefInv, NeighborInv, OwnGroup, TargetOk, CreatesExact, Shrunk, Released, OnlySpare, RecordOk;
    var ids := Elems(hops);
    if p in s.routes {
      if EarlyReturn(s, p, ids) {
        EarlyReturnLeaks(s, s', p, ids);
      } else {
        var mid :| Shrunk(s, mid, p, ids) && Released(mid, s', ids);
        assert PrefixOk(s, p);
        HeldAreInTable(s, p);
        var held := ids * s.routes[p].nexthops;
        ShrunkHeld(s, mid, p, ids);
        ShrunkOids(s, mid, p, held);
        ShrunkExact(s, mid, p, held);
        NothingSpare(s, p, ids);
        ReleasedKnown(mid, s', ids);
        ReleasedExact(mid, s', held);
      }
    }
  }

  lemma RouteRemoveExact(s: State, s': State, p: Prefix)
    requires CreatesExact(s) && RouteInv(s) && RouteRemoveStep(s, s', p)
    ensures CreatesExact(s')
  {
    hide CreatesExact, Released, TargetOk;
    if p in s.routes {
      var r := s.routes[p];
      assert PrefixOk(s, p);
      if r.referCnt > 0 && (r.nNexthops > 0 || r.referCnt > 1) {
        RewrittenExact(s, s', p);
      } else if r.referCnt > 0 {
        DroppedExact(s, s', p);
        NoneToSpare(s', r.nexthops);
      } else if r.nNexthops > 0 {
        var mid := WithoutRoute(s, p);
        DroppedExact(s, mid, p);
        ReleasedExact(mid, s', r.nexthops);
      }
    }
  }

  lemma NoneToSpare(s: State, ids: set<Id>)
    requires ExactBut(s, ids) && ids == {}
    ensures CreatesExact(s)
  {
  }

  lemma NeighborExact(s: State, s': State, id: Id, rif: Rif)
    requires RefInv(s) && NeighborInv(s) && CreatesExact(s)
    ensures NeighborCreateStep(s, s', id, rif) ==> CreatesExact(s')
    ensures NeighborRemoveStep(s, s', id, rif) ==> CreatesExact(s')
  {
    hide TableInv, Holders, RefInv, Released, Acquired;
    if NeighborCreateStep(s, s', id, rif) {
      var mid :| Acquired(s, mid, {id}) && s' == WithNeighbor(mid, id, rif);
      AcquiredExact(s, mid, {id});
      assert forall i :: Refs(s', i) == Refs(mid, i) + (if i == id then 1 else 0);
    }
    if NeighborRemoveStep(s, s', id, rif) && rif in NeighborRifs(s, id) {
      var mid := WithoutNeighbor(s, id, rif);
      assert forall i :: Refs(mid, i) == Refs(s, i) - (if i == id then 1 else 0);
      ReleasedExact(mid, s', {id});
    }
  }

  /** Creates and undoings stay in balance exactly when the early return is not taken. */
  lemma CreatesExactIff(s: State, s': State, op: Op)
    requires Inv(s) && CreatesExact(s) && Legal(s, op) && Tidy(s, op) && Step(s, s', op)
    ensures CreatesExact(s') <==> !(op.RemoteNhRemove? && EarlyReturn(s, op.p, Elems(op.hops)))
  {
    hide TableInv, OidInv, RefInv, RouteInv, NeighborInv, CreatesExact, Legal, Tidy;
    match op
    case RemoteAdd(p, hops) => RemoteAddExact(s, s', p, hops);
    case RemoteNhRemove(p, hops) => RemoteNhRemoveExact(s, s', p, hops);
    case RouteRemove(p) => RouteRemoveExact(s, s', p);
    case LocalAdd(p, rif) => RewrittenExact(s, s', p);
    case NeighborCreate(id, rif) => NeighborExact(s, s', id, rif);
    case NeighborRemove(id, rif) => NeighborExact(s, s', id, rif);
  }

  // ------------------------------------------------------------------ no reference leaks

  /** Every outstanding create has its hardware neighbor. */
  ghost predicate NoRepeats(s: State) {
    forall id :: Outstanding(s, id) == |NeighborRifs(s, id)|
  }

  lemma RefExactIff(s: State)
    requires Inv(s)
    ensures RefExact(s) <==> CreatesExact(s) && NoRepeats(s)
  {
    hide TableInv, OidInv, RouteInv, Holders;
    if RefExact(s) {
      forall id ensures Outstanding(s, id) == |NeighborRifs(s, id)| {
        assert Refs(s, id) > 0 ==> id in s.nhs;
      }
    }
  }

  /**
   What leaks a reference: withdrawing the last next hops of a prefix without interface
   references, and creating a neighbor that the hardware already has on that interface.
   */
  predicate LeaksRefs(s: State, op: Op) {
    match op
    case RemoteNhRemove(p, hops) => EarlyReturn(s, p, Elems(hops))
    case NeighborCreate(id, rif) => rif in NeighborRifs(s, id)
    case _ => false
  }

  lemma NoRepeatsIff(s: State, s': State, op: Op)
    requires NoRepeats(s) && Step(s, s', op)
    ensures NoRepeats(s') <==> !(op.NeighborCreate? && op.rif in NeighborRifs(s, op.id))
  {
    match op
    case RemoteAdd(p, hops) => RemoteNeighbors(s, s', op); SameNeighbors(s, s');
    case RemoteNhRemove(p, hops) => RemoteNeighbors(s, s', op); SameNeighbors(s, s');
    case RouteRemove(p) => RemoteNeighbors(s, s', op); SameNeighbors(s, s');
    case LocalAdd(p, rif) => RemoteNeighbors(s, s', op); SameNeighbors(s, s');
    case NeighborCreate(id, rif) => CreatedNeighbors(s, s', id, rif);
    case NeighborRemove(id, rif) => RemovedNeighbors(s, s', id, rif);
  }

  lemma SameNeighbors(s: State, s': State)
    requires s'.hwNeighbors == s.hwNeighbors && s'.outstanding == s.outstanding
    ensures NoRepeats(s') <==> NoRepeats(s)
  {
    assert forall id :: Outstanding(s', id) == Outstanding(s, id) && NeighborRifs(s', id) == NeighborRifs(s, id);
  }

  lemma RemoteNeighbors(s: State, s': State, op: Op)
    requires Step(s, s', op) && !op.NeighborCreate? && !op.NeighborRemove?
    ensures s'.hwNeighbors == s.hwNeighbors && s'.outstanding == s.outstanding
  {
    hide RemoteAddStep, TableInv, Handles, Shrunk;
    match op
    case RemoteAdd(p, hops) => AddedNeighbors(s, s', p, hops);
    case RemoteNhRemove(p, hops) =>
      if p in s.routes && !EarlyReturn(s, p, Elems(hops)) {
        var mid :| Shrunk(s, mid, p, Elems(hops)) && Released(mid, s', Elems(hops));
        ShrunkNeighbors(s, mid, p, Elems(hops));
      }
    case _ =>
  }

  lemma AddedNeighbors(s: State, s': State, p: Prefix, hops: seq<Id>)
    requires RemoteAddStep(s, s', p, hops)
    ensures s'.hwNeighbors == s.hwNeighbors && s'.outstanding == s.outstanding
  {
    hide Acquired, Installed, Grown;
    var ids := Elems(hops);
    if mid, referCnt :| Acquired(s, mid, ids) && Installed(mid, s', p, ids, referCnt) {
      AcquiredFrame(s, mid, ids);
      InstalledFrame(mid, s', p, ids, referCnt);
    } else if mid :| Acquired(s, mid, ids) && Grown(mid, s', p, ids) {
      AcquiredFrame(s, mid, ids);
      GrownNeighbors(mid, s', p, ids);
    }
  }

  lemma GrownNeighbors(mid: State, s': State, p: Prefix, ids: set<Id>)
    requires Grown(mid, s', p, ids)
    ensures s'.hwNeighbors == mid.hwNeighbors && s'.outstanding == mid.outstanding
  {
    hide Handles;
  }

  lemma ShrunkNeighbors(s: State, mid: State, p: Prefix, ids: set<Id>)
    requires p in s.routes && |ids * s.routes[p].nexthops| <= s.routes[p].nNexthops && Shrunk(s, mid, p, ids)
    ensures mid.hwNeighbors == s.hwNeighbors && mid.outstanding == s.outstanding
  {
    hide Handles;
  }

  lemma CreatedNeighbors(s: State, s': State, id: Id, rif: Rif)
    requires NoRepeats(s) && NeighborCreateStep(s, s', id, rif)
    ensures NoRepeats(s') <==> rif !in NeighborRifs(s, id)
  {
    hide TableInv, Acquired, NoRepeats;
    var mid :| Acquired(s, mid, {id}) && s' == WithNeighbor(mid, id, rif);
    AcquiredFrame(s, mid, {id});
    OneMoreNeighbor(s, s', id, rif);
  }

  lemma OneMoreNeighbor(s: State, s': State, id: Id, rif: Rif)
    requires NoRepeats(s) && s'.outstanding == s.outstanding[id := Outstanding(s, id) + 1]
    requires s'.hwNeighbors == s.hwNeighbors[id := NeighborRifs(s, id) + {rif}]
    ensures NoRepeats(s') <==> rif !in NeighborRifs(s, id)
  {
    assert Outstanding(s', id) == Outstanding(s, id) + 1 && NeighborRifs(s', id) == NeighborRifs(s, id) + {rif};
    forall other | other != id
      ensures Outstanding(s', other) == Outstanding(s, other) && NeighborRifs(s', other) == NeighborRifs(s, other)
    {
    }
    if rif in NeighborRifs(s, id) {
      assert NeighborRifs(s, id) + {rif} == NeighborRifs(s, id);
    }
  }

  lemma RemovedNeighbors(s: State, s': State, id: Id, rif: Rif)
    requires NoRepeats(s) && NeighborRemoveStep(s, s', id, rif)
    ensures NoRepeats(s')
  {
    hide TableInv;
    if rif in NeighborRifs(s, id) {
      assert NeighborRifs(s', id) == NeighborRifs(s, id) - {rif};
      forall other | other != id
        ensures Outstanding(s', other) == Outstanding(s, other) && NeighborRifs(s', other) == NeighborRifs(s, other)
      {
      }
    }
  }

  /**
   Reference counts stay exact, against the routes and hardware neighbors that use each next
   hop, exactly when no early return is taken and no neighbor is created twice.
   */
  lemma ExactIffNoLeak(s: State, s': State, op: Op)
    requires Inv(s) && RefExact(s) && Legal(s, op) && Tidy(s, op) && Step(s, s', op)
    ensures RefExact(s') <==> !LeaksRefs(s, op)
  {
    hide Inv, RefExact, CreatesExact, NoRepeats, Legal, Tidy, Step;
    StepInv(s, s', op);
    RefExactIff(s);
    RefExactIff(s');
    CreatesExactIff(s, s', op);
    NoRepeatsIff(s, s', op);
  }

  // ------------------------------------------------------------------ no group leaks

  /** Withdrawing every next hop of an ECMP route in one call forgets its group. */
  predicate LeaksGroup(s: State, op: Op) {
    match op
    case RemoteNhRemove(p, hops) =>
      p in s.routes && s.routes[p].nexthops <= Elems(hops) && IsEcmp(s.routes[p])
    case _ => false
  }

  predicate OwnsGroup(r: Route, g: Handle) {
    IsEcmp(r) && r.nhEcmp == g
  }

  lemma GroupsAfter(s: State, s': State, p: Prefix)
    requires GroupExact(s)
    requires forall q :: q in s.routes && q != p ==> q in s'.routes && s'.routes[q] == s.routes[q]
    requires forall g :: g in s'.hwGroups ==>
               || (p in s'.routes && OwnsGroup(s'.routes[p], g))
               || (g in s.hwGroups && !(p in s.routes && OwnsGroup(s.routes[p], g)))
    ensures GroupExact(s')
  {
    forall g | g in s'.hwGroups
      ensures exists q :: q in s'.routes && IsEcmp(s'.routes[q]) && s'.routes[q].nhEcmp == g
    {
      if p in s'.routes && OwnsGroup(s'.routes[p], g) {
      } else {
        var q :| q in s.routes && IsEcmp(s.routes[q]) && s.routes[q].nhEcmp == g;
        assert q != p && s'.routes[q] == s.routes[q];
      }
    }
  }

  lemma GroupLeaks(s: State, s': State, p: Prefix, g: Handle)
    requires RouteInv(s) && p in s.routes && OwnsGroup(s.routes[p], g)
    requires g in s'.hwGroups && (p in s'.routes ==> !IsEcmp(s'.routes[p]))
    requires forall q :: q in s'.routes && q != p ==> q in s.routes && s'.routes[q] == s.routes[q]
    ensures !GroupExact(s')
  {
    hide PrefixOk;
    assert OwnGroup(s.routes, p);
  }

  lemma InstalledGroups(mid: State, s': State, p: Prefix, ids: set<Id>, referCnt: nat)
    requires GroupExact(mid) && Installed(mid, s', p, ids, referCnt)
    requires 0 < |ids| < UINT8_RANGE && (p in mid.routes ==> mid.routes[p].nexthops == {})
    ensures GroupExact(s')
  {
    hide GroupExact, Handles;
    GroupsAfter(mid, s', p);
  }

  lemma GrownGroups(mid: State, s': State, p: Prefix, ids: set<Id>)
    requires GroupExact(mid) && Grown(mid, s', p, ids) && ids !! mid.routes[p].nexthops && ids != {}
    requires RecordOk(mid, mid.routes[p]) && mid.routes[p].nexthops != {}
    requires |mid.routes[p].nexthops + ids| < UINT8_RANGE
    ensures GroupExact(s')
  {
    hide GroupExact, Handles;
    assert ids - mid.routes[p].nexthops == ids;
    assert |mid.routes[p].nexthops + ids| == |mid.routes[p].nexthops| + |ids|;
    GroupsAfter(mid, s', p);
  }

  lemma AcquiredGroups(s: State, mid: State, ids: set<Id>)
    requires GroupExact(s) && RefInv(s) && RouteInv(s) && Acquired(s, mid, ids)
    ensures GroupExact(mid) && mid.routes == s.routes
    ensures forall p :: p in s.routes ==> PrefixOk(s, p) && PrefixOk(mid, p)
  {
    hide PrefixOk, Untouched, RefInv, GroupExact, TableInv;
    SameGroups(s, mid);
    AcquiredRoutes(s, mid, ids);
    forall p | p in s.routes ensures PrefixOk(mid, p) {
      assert Untouched(s, mid, p) && PrefixOk(s, p);
      UntouchedOk(s, mid, p);
    }
  }

  lemma NothingNewGroups(s: State, s': State, p: Prefix, ids: set<Id>)
    requires GroupExact(s) && p in s.routes && RecordOk(s, s.routes[p])
    requires ids <= s.routes[p].nexthops && ids != {} && |s.routes[p].nexthops + ids| < UINT8_RANGE
    requires s' == s.(routes := s.routes[p := Settle(WithHops(s.routes[p], ids))])
    ensures GroupExact(s')
  {
    hide GroupExact, Handles;
    assert ids - s.routes[p].nexthops == {};
    assert s.routes[p].nexthops + ids == s.routes[p].nexthops;
    GroupsAfter(s, s', p);
  }

  lemma RemoteAddGroups(s: State, s': State, p: Prefix, hops: seq<Id>)
    requires RefInv(s) && RouteInv(s) && GroupExact(s)
    requires Legal(s, RemoteAdd(p, hops)) && Tidy(s, RemoteAdd(p, hops))
    requires RemoteAddStep(s, s', p, hops)
    ensures GroupExact(s')
  {
    hide RefInv, RouteInv, GroupExact, TargetOk, Acquired, Installed, Grown;
    var ids := Elems(hops);
    if |hops| < SAI_NEXT_HOP_MAX {
      assert hops[0] in ids;
      DistinctSize(hops);
      PrefixesOk(s);
      if p !in s.routes || (s.routes[p].nNexthops == 0 && s.routes[p].referCnt > 0) {
        var referCnt := if p in s.routes then s.routes[p].referCnt else 0;
        var mid :| Acquired(s, mid, ids) && Installed(mid, s', p, ids, referCnt);
        AcquiredGroups(s, mid, ids);
        InstalledGroups(mid, s', p, ids, referCnt);
      } else if s.routes[p].nNexthops > 0 && ids !! s.routes[p].nexthops {
        var mid :| Acquired(s, mid, ids) && Grown(mid, s', p, ids);
        AcquiredGroups(s, mid, ids);
        GrownGroups(mid, s', p, ids);
      } else {
        NothingNewGroups(s, s', p, ids);
      }
    }
  }

  lemma ShrunkGroupOwners(s: State, mid: State, p: Prefix, ids: set<Id>)
    requires RouteInv(s) && GroupExact(s) && p in s.routes && ids <= s.routes[p].nexthops
    requires !EarlyReturn(s, p, ids) && |ids * s.routes[p].nexthops| <= s.routes[p].nNexthops
    requires Shrunk(s, mid, p, ids)
    ensures GroupExact(mid) <==> !(s.routes[p].nexthops <= ids && IsEcmp(s.routes[p]))
  {
    hide RouteInv, GroupExact, OwnGroup, TargetOk, Handles;
    PrefixesOk(s);
    assert PrefixOk(s, p);
    ShrunkCount(s, p, ids);
    if s.routes[p].nexthops <= ids && IsEcmp(s.routes[p]) {
      assert s.routes[p].nexthops - ids == {};
      GroupLeaks(s, mid, p, s.routes[p].nhEcmp);
    } else {
      assert s.routes[p].nexthops - ids == {} ==> s.routes[p].nexthops <= ids;
      GroupsAfter(s, mid, p);
    }
  }

  lemma RemoteNhRemoveGroups(s: State, s': State, p: Prefix, hops: seq<Id>)
    requires Inv(s) && GroupExact(s) && RemoteNhRemoveStep(s, s', p, hops)
    ensures GroupExact(s') <==> !LeaksGroup(s, RemoteNhRemove(p, hops))
  {
    hide TableInv, OidInv, RefInv, NeighborInv, GroupExact, OwnGroup, TargetOk, Shrunk;
    var ids := Elems(hops);
    if p in s.routes {
      assert PrefixOk(s, p);
      if EarlyReturn(s, p, ids) {
        if IsEcmp(s.routes[p]) {
          GroupLeaks(s, s', p, s.routes[p].nhEcmp);
        } else {
          GroupsAfter(s, s', p);
        }
      } else {
        var mid :| Shrunk(s, mid, p, ids) && Released(mid, s', ids);
        var held := ids * s.routes[p].nexthops;
        HeldAreInTable(s, p);
        ShrunkHeld(s, mid, p, ids);
        ShrunkGroupOwners(s, mid, p, held);
        SameGroups(mid, s');
      }
    }
  }

  lemma SameGroups(s: State, s': State)
    requires s'.routes == s.routes && s'.hwGroups == s.hwGroups
    ensures GroupExact(s') <==> GroupExact(s)
  {
  }

  lemma RouteRemoveGroups(s: State, s': State, p: Prefix)
    requires RouteInv(s) && GroupExact(s) && RouteRemoveStep(s, s', p)
    ensures GroupExact(s')
  {
    hide RouteInv, GroupExact, OwnGroup, TargetOk, TableInv;
    if p in s.routes {
      PrefixesOk(s);
      assert PrefixOk(s, p);
      GroupsAfter(s, s', p);
    }
  }

  lemma LocalAddGroups(s: State, s': State, p: Prefix, rif: Rif)
    requires RouteInv(s) && GroupExact(s) && LocalAddStep(s, s', p, rif)
    ensures GroupExact(s')
  {
    hide RouteInv, GroupExact, OwnGroup, TargetOk;
    if p in s.routes {
      PrefixesOk(s);
      assert PrefixOk(s, p);
    }
    GroupsAfter(s, s', p);
  }

  /** The hardware holds no group beyond the routes' own, exactly when none was forgotten. */
  lemma GroupsIffNoLeak(s: State, s': State, op: Op)
    requires Inv(s) && GroupExact(s) && Legal(s, op) && Tidy(s, op) && Step(s, s', op)
    ensures GroupExact(s') <==> !LeaksGroup(s, op)
  {
    hide TableInv, OidInv, RefInv, RouteInv, NeighborInv, GroupExact, Legal, Tidy, Acquired, Released;
    match op
    case RemoteAdd(p, hops) => RemoteAddGroups(s, s', p, hops);
    case RemoteNhRemove(p, hops) => RemoteNhRemoveGroups(s, s', p, hops);
    case RouteRemove(p) => RouteRemoveGroups(s, s', p);
    case LocalAdd(p, rif) => LocalAddGroups(s, s', p, rif);
    case NeighborCreate(id, rif) => NeighborGroups(s, s', id, rif);
    case NeighborRemove(id, rif) => NeighborGroups(s, s', id, rif);
  }

  lemma NeighborGroups(s: State, s': State, id: Id, rif: Rif)
    requires NeighborCreateStep(s, s', id, rif) || NeighborRemoveStep(s, s', id, rif)
    ensures GroupExact(s') <==> GroupExact(s)
  {
    hide GroupExact, TableInv;
    SameGroups(s, s');
  }

  // ------------------------------------------------------------------ runs

  /** On runs that never take the early return nor create a neighbor twice, every count is exact. */
  lemma {:induction false} ExactCounts(states: seq<State>, ops: seq<Op>, n: nat)
    requires IsRun(states, ops) && n < |states|
    requires forall i :: 0 <= i < n ==> !LeaksRefs(states[i], ops[i])
    ensures RefExact(states[n])
  {
    hide Inv, RefExact, Legal, Tidy, Step, LeaksRefs, Init;
    if n == 0 {
      InitInv();
    } else {
      ExactCounts(states, ops, n - 1);
      RunInv(states, ops, n - 1);
      ExactIffNoLeak(states[n - 1], states[n], ops[n - 1]);
    }
  }

  /** On runs that never withdraw a whole ECMP set at once, every group is some route's. */
  lemma {:induction false} ExactGroups(states: seq<State>, ops: seq<Op>, n: nat)
    requires IsRun(states, ops) && n < |states|
    requires forall i :: 0 <= i < n ==> !LeaksGroup(states[i], ops[i])
    ensures GroupExact(states[n])
  {
    hide Inv, GroupExact, Legal, Tidy, Step, LeaksGroup, Init;
    if n == 0 {
      InitInv();
    } else {
      ExactGroups(states, ops, n - 1);
      RunInv(states, ops, n - 1);
      GroupsIffNoLeak(states[n - 1], states[n], ops[n - 1]);
    }
  }
}
