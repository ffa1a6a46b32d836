/**
 What every operation on routes, next hops and neighbors keeps, and exactly where the code
 falls short: overlapping additions break coherence, the early return of a withdrawal leaks
 references, and withdrawing a whole ECMP set at once leaks its group.
 */
module RouteProofs {
  import opened Options
  import opened RouteState

  // ------------------------------------------------------------------ counting holders

  lemma HoldersSet(routes: map<Prefix, Route>, p: Prefix, r: Route, id: Id)
    ensures |Holders(routes[p := r], id)|
            == |Holders(routes, id) - {p}| + (if id in r.nexthops then 1 else 0)
  {
    var before, after := Holders(routes, id), Holders(routes[p := r], id);
    assert after == (before - {p}) + (if id in r.nexthops then {p} else {});
  }

  lemma HoldersDrop(routes: map<Prefix, Route>, p: Prefix, id: Id)
    ensures |Holders(routes - {p}, id)| == |Holders(routes, id) - {p}|
  {
    assert Holders(routes - {p}, id) == Holders(routes, id) - {p};
  }

  lemma HoldersWithout(routes: map<Prefix, Route>, p: Prefix, id: Id)
    ensures |Holders(routes, id) - {p}|
            == |Holders(routes, id)| - (if p in routes && id in routes[p].nexthops then 1 else 0)
  {
    var h := Holders(routes, id);
    if p !in h {
      assert h - {p} == h;
    }
  }

  /** How giving prefix p the record r changes the references of every next hop. */
  lemma RefsWithRecord(s: State, s': State, p: Prefix, r: Route)
    requires s'.routes == s.routes[p := r] && s'.outstanding == s.outstanding
    ensures forall id :: Refs(s', id) == Refs(s, id) + (if id in r.nexthops then 1 else 0)
                         - (if p in s.routes && id in s.routes[p].nexthops then 1 else 0)
  {
    forall id ensures Refs(s', id) == Refs(s, id) + (if id in r.nexthops then 1 else 0)
                         - (if p in s.routes && id in s.routes[p].nexthops then 1 else 0)
    {
      HoldersSet(s.routes, p, r, id);
      HoldersWithout(s.routes, p, id);
    }
  }

  lemma RefsWithoutRecord(s: State, s': State, p: Prefix)
    requires s'.routes == s.routes - {p} && s'.outstanding == s.outstanding
    ensures forall id :: Refs(s', id) == Refs(s, id)
                         - (if p in s.routes && id in s.routes[p].nexthops then 1 else 0)
  {
    forall id ensures Refs(s', id) == Refs(s, id)
                         - (if p in s.routes && id in s.routes[p].nexthops then 1 else 0)
    {
      HoldersDrop(s.routes, p, id);
      HoldersWithout(s.routes, p, id);
    }
  }

  lemma HeldIsReferenced(s: State, p: Prefix, id: Id)
    requires p in s.routes && id in s.routes[p].nexthops
    ensures Refs(s, id) > 0
  {
    assert p in Holders(s.routes, id);
  }

  lemma HandlesFrame(nhs: map<Id, NhEntry>, nhs': map<Id, NhEntry>, ids: set<Id>)
    requires forall id :: id in ids ==> id in nhs && id in nhs' && nhs'[id].handle == nhs[id].handle
    ensures Handles(nhs, ids) == Handles(nhs', ids)
  {
  }

  /** Distinct next hops have distinct handles, so removing members removes just those. */
  lemma HandlesMinus(s: State, ids: set<Id>, gone: set<Id>)
    requires TableInv(s.nhs, s.hwNhs) && ids <= s.nhs.Keys && gone <= s.nhs.Keys
    ensures Handles(s.nhs, ids) - Handles(s.nhs, gone) == Handles(s.nhs, ids - gone)
  {
    forall h | h in Handles(s.nhs, ids - gone) ensures h !in Handles(s.nhs, gone) {
      var id :| id in ids - gone && s.nhs[id].handle == h;
      assert s.hwNhs[h] == id;
    }
  }

  // ------------------------------------------------------------------ frames

  /** Prefix q keeps its record, its hardware entry, its handles and its group. */
  ghost predicate Untouched(s: State, s': State, q: Prefix) {
    && q in s.routes && q in s.hwRoutes && q in s'.routes && q in s'.hwRoutes
    && s'.routes[q] == s.routes[q] && s'.hwRoutes[q] == s.hwRoutes[q]
    && (forall id :: id in s.routes[q].nexthops ==>
          id in s.nhs && id in s'.nhs && s'.nhs[id].handle == s.nhs[id].handle)
    && (IsEcmp(s.routes[q]) && s.routes[q].nhEcmp in s.hwGroups ==>
          s.routes[q].nhEcmp in s'.hwGroups
          && s'.hwGroups[s.routes[q].nhEcmp] == s.hwGroups[s.routes[q].nhEcmp])
  }

  lemma UntouchedOk(s: State, s': State, q: Prefix)
    requires Untouched(s, s', q) && PrefixOk(s, q)
    ensures PrefixOk(s', q)
  {
    HandlesFrame(s.nhs, s'.nhs, s.routes[q].nexthops);
  }

  /** Only prefix p changed, and its new record is fine: the route invariant holds again. */
  lemma RouteInvAt(s: State, s': State, p: Prefix)
    requires RouteInv(s)
    requires s'.routes.Keys == s.routes.Keys + {p} && s'.hwRoutes.Keys == s.hwRoutes.Keys + {p}
    requires forall q :: q in s.routes && q != p ==> Untouched(s, s', q)
    requires PrefixOk(s', p) && OwnGroup(s'.routes, p)
    ensures RouteInv(s')
  {
    forall q | q in s'.routes && q != p ensures PrefixOk(s', q) && OwnGroup(s'.routes, q) {
      assert PrefixOk(s, q) && OwnGroup(s.routes, q);
      UntouchedOk(s, s', q);
    }
  }

  lemma RouteInvWithout(s: State, s': State, p: Prefix)
    requires RouteInv(s)
    requires s'.routes.Keys == s.routes.Keys - {p} && s'.hwRoutes.Keys == s.hwRoutes.Keys - {p}
    requires forall q :: q in s.routes && q != p ==> Untouched(s, s', q)
    ensures RouteInv(s')
  {
    forall q | q in s'.routes ensures PrefixOk(s', q) && OwnGroup(s'.routes, q) {
      assert PrefixOk(s, q) && OwnGroup(s.routes, q);
      UntouchedOk(s, s', q);
    }
  }

  lemma PrefixesOk(s: State)
    requires RouteInv(s)
    ensures forall p :: p in s.routes ==> PrefixOk(s, p)
  {
  }

  lemma HeldAreInTable(s: State, q: Prefix)
    requires RefInv(s) && q in s.routes
    ensures s.routes[q].nexthops <= s.nhs.Keys
  {
    forall id | id in s.routes[q].nexthops ensures id in s.nhs {
      HeldIsReferenced(s, q, id);
    }
  }

  // ------------------------------------------------------------------ taking references

  /** One reference to spare on each of `ids`. */
  ghost predicate SpareRefs(s: State, ids: set<Id>) {
    && ids <= s.nhs.Keys
    && (forall id :: Refs(s, id) > 0 ==> id in s.nhs)
    && (forall id :: id in s.nhs ==> s.nhs[id].ref >= Refs(s, id) + (if id in ids then 1 else 0))
  }

  /** Only the next-hop table and its hardware counterpart changed, and handles stayed. */
  ghost predicate SameRoutes(s: State, mid: State) {
    && mid == s.(nhs := mid.nhs, hwNhs := mid.hwNhs, nextOid := mid.nextOid)
    && s.nextOid <= mid.nextOid
    && forall q :: q in s.routes ==> Untouched(s, mid, q)
  }

  lemma AcquiredRefs(s: State, mid: State, ids: set<Id>)
    requires RefInv(s) && Acquired(s, mid, ids)
    ensures SpareRefs(mid, ids)
  {
    assert forall id :: Refs(mid, id) == Refs(s, id);
  }

  lemma AcquiredOids(s: State, mid: State, ids: set<Id>)
    requires TableInv(s.nhs, s.hwNhs) && OidInv(s) && Acquired(s, mid, ids)
    ensures OidInv(mid)
  {
    forall h | h in mid.hwNhs ensures h < mid.nextOid && h !in mid.hwGroups {
      var id := mid.hwNhs[h];
      if id in s.nhs {
        assert s.nhs[id].handle in s.hwNhs;
      }
    }
  }

  lemma AcquiredRoutes(s: State, mid: State, ids: set<Id>)
    requires RefInv(s) && RouteInv(s) && Acquired(s, mid, ids)
    ensures SameRoutes(s, mid)
  {
    forall q | q in s.routes ensures Untouched(s, mid, q) {
      HeldAreInTable(s, q);
      assert PrefixOk(s, q);
    }
  }

  /** Prefix p now also holds `ids`, for which a reference was spare. */
  lemma SpentRefs(mid: State, s': State, p: Prefix, ids: set<Id>)
    requires SpareRefs(mid, ids) && p in s'.routes
    requires s'.routes == mid.routes[p := s'.routes[p]] && s'.nhs == mid.nhs
    requires s'.outstanding == mid.outstanding
    requires s'.routes[p].nexthops == (if p in mid.routes then mid.routes[p].nexthops else {}) + ids
    ensures RefInv(s')
  {
    RefsWithRecord(mid, s', p, s'.routes[p]);
    forall id ensures Refs(s', id) > 0 ==> id in s'.nhs {
      assert Refs(mid, id) > 0 ==> id in mid.nhs;
    }
    forall id | id in s'.nhs ensures s'.nhs[id].ref >= Refs(s', id) {
      assert mid.nhs[id].ref >= Refs(mid, id) + (if id in ids then 1 else 0);
    }
  }

  /** A group issued just now is nobody else's. */
  lemma FreshGroup(s: State, routes': map<Prefix, Route>, p: Prefix)
    requires RouteInv(s) && OidInv(s) && p in routes' && routes' == s.routes[p := routes'[p]]
    requires IsEcmp(routes'[p]) ==> routes'[p].nhEcmp >= s.nextOid
    ensures OwnGroup(routes', p)
  {
    forall q | q in routes' && q != p && IsEcmp(routes'[q]) ensures routes'[q].nhEcmp < s.nextOid {
      assert PrefixOk(s, q);
    }
  }

  /** Nobody but p used p's group before, so nobody else does after. */
  lemma KeptGroup(s: State, routes': map<Prefix, Route>, p: Prefix)
    requires RouteInv(s) && p in s.routes && p in routes' && routes' == s.routes[p := routes'[p]]
    requires IsEcmp(routes'[p]) ==> IsEcmp(s.routes[p]) && routes'[p].nhEcmp == s.routes[p].nhEcmp
    ensures OwnGroup(routes', p)
  {
    assert OwnGroup(s.routes, p);
  }

  /** Every group but p's own is still there, with the same members. */
  ghost predicate OtherGroupsKept(s: State, s': State, p: Prefix) {
    forall g :: g in s.hwGroups && !(p in s.routes && IsEcmp(s.routes[p]) && g == s.routes[p].nhEcmp) ==>
      g in s'.hwGroups && s'.hwGroups[g] == s.hwGroups[g]
  }

  lemma OthersUntouched(s: State, mid: State, s': State, p: Prefix, q: Prefix)
    requires RouteInv(s) && q in s.routes && q != p && Untouched(s, mid, q)
    requires s'.nhs == mid.nhs && OtherGroupsKept(s, s', p)
    requires q in s'.routes && s'.routes[q] == s.routes[q]
    requires q in s'.hwRoutes && s'.hwRoutes[q] == s.hwRoutes[q]
    ensures Untouched(s, s', q)
  {
    assert OwnGroup(s.routes, q);
  }

  /** The route invariant after a change at p that went through a table change first. */
  lemma RouteInvThrough(s: State, mid: State, s': State, p: Prefix)
    requires RouteInv(s) && SameRoutes(s, mid)
    requires p in s'.routes && s'.routes == s.routes[p := s'.routes[p]]
    requires p in s'.hwRoutes && s'.hwRoutes == s.hwRoutes[p := s'.hwRoutes[p]]
    requires s'.nhs == mid.nhs && OtherGroupsKept(s, s', p)
    requires PrefixOk(s', p) && OwnGroup(s'.routes, p)
    ensures RouteInv(s')
  {
    forall q | q in s.routes && q != p ensures Untouched(s, s', q) {
      OthersUntouched(s, mid, s', p, q);
    }
    RouteInvAt(s, s', p);
  }

  lemma InstalledRecord(mid: State, s': State, p: Prefix, ids: set<Id>, referCnt: nat)
    requires Installed(mid, s', p, ids, referCnt)
    requires 0 < |ids| < UINT8_RANGE
    ensures PrefixOk(s', p)
  {
    if |ids| == 1 {
      OnlyIsAll(ids);
    }
  }

  lemma InstalledRoutes(s: State, mid: State, s': State, p: Prefix, ids: set<Id>, referCnt: nat)
    requires RouteInv(s) && OidInv(s) && SameRoutes(s, mid)
    requires Installed(mid, s', p, ids, referCnt)
    requires 0 < |ids| < UINT8_RANGE
    requires p in s.routes ==> s.routes[p].nexthops == {}
    ensures RouteInv(s')
  {
    InstalledRecord(mid, s', p, ids, referCnt);
    FreshGroup(s, s'.routes, p);
    assert OtherGroupsKept(s, s', p);
    RouteInvThrough(s, mid, s', p);
  }

  lemma RefsAfter(s: State, mid: State, s': State, p: Prefix, ids: set<Id>)
    requires RefInv(s) && Acquired(s, mid, ids) && p in s'.routes
    requires s'.routes == s.routes[p := s'.routes[p]] && s'.nhs == mid.nhs
    requires s'.outstanding == s.outstanding
    requires s'.routes[p].nexthops == (if p in s.routes then s.routes[p].nexthops else {}) + ids
    ensures RefInv(s')
  {
    hide RefInv, TableInv, SpareRefs, Holders;
    AcquiredRefs(s, mid, ids);
    SpentRefs(mid, s', p, ids);
  }

  lemma OidsAfter(s: State, mid: State, s': State, ids: set<Id>)
    requires TableInv(s.nhs, s.hwNhs) && OidInv(s) && Acquired(s, mid, ids)
    requires s'.hwNhs == mid.hwNhs && s'.nextOid >= mid.nextOid
    requires forall g :: g in s'.hwGroups ==> g in s.hwGroups || mid.nextOid <= g < s'.nextOid
    ensures OidInv(s')
  {
    hide TableInv;
    AcquiredOids(s, mid, ids);
  }

  lemma NeighborsKept(s: State, s': State)
    requires NeighborInv(s)
    requires s'.hwNeighbors == s.hwNeighbors && s'.outstanding == s.outstanding
    ensures NeighborInv(s')
  {
    assert forall id :: Outstanding(s', id) == Outstanding(s, id);
  }

  /** What a change of routes over an enlarged table leaves to check besides the routes. */
  lemma TablesAfter(s: State, mid: State, s': State, p: Prefix, ids: set<Id>)
    requires Inv(s) && Acquired(s, mid, ids) && p in s'.routes
    requires s'.routes == s.routes[p := s'.routes[p]]
    requires s'.nhs == mid.nhs && s'.hwNhs == mid.hwNhs && s'.nextOid >= mid.nextOid
    requires s'.hwNeighbors == s.hwNeighbors && s'.outstanding == s.outstanding
    requires forall g :: g in s'.hwGroups ==> g in s.hwGroups || mid.nextOid <= g < s'.nextOid
    requires s'.routes[p].nexthops == (if p in s.routes then s.routes[p].nexthops else {}) + ids
    ensures TableInv(s'.nhs, s'.hwNhs) && OidInv(s') && RefInv(s') && NeighborInv(s')
  {
    hide TableInv, OidInv, RefInv, NeighborInv, RouteInv;
    RefsAfter(s, mid, s', p, ids);
    OidsAfter(s, mid, s', ids);
    NeighborsKept(s, s');
  }

  lemma AcquiredFrame(s: State, mid: State, ids: set<Id>)
    requires Acquired(s, mid, ids)
    ensures mid == s.(nhs := mid.nhs, hwNhs := mid.hwNhs, nextOid := mid.nextOid)
    ensures s.nextOid <= mid.nextOid
    ensures mid.nhs.Keys == s.nhs.Keys + ids
  {
  }

  lemma InstalledGroupFrame(mid: State, s': State, p: Prefix, ids: set<Id>, referCnt: nat)
    requires InstalledGroup(mid, s', p, ids, referCnt)
    ensures p in s'.routes && s'.routes == mid.routes[p := s'.routes[p]] && s'.routes[p].nexthops == ids
    ensures s' == mid.(routes := s'.routes, hwGroups := s'.hwGroups, hwRoutes := s'.hwRoutes, nextOid := s'.nextOid)
    ensures s'.nextOid >= mid.nextOid
    ensures forall g :: g in s'.hwGroups ==> g in mid.hwGroups || mid.nextOid <= g < s'.nextOid
  {
    hide Handles;
  }

  lemma InstalledFrame(mid: State, s': State, p: Prefix, ids: set<Id>, referCnt: nat)
    requires Installed(mid, s', p, ids, referCnt)
    ensures p in s'.routes && s'.routes == mid.routes[p := s'.routes[p]] && s'.routes[p].nexthops == ids
    ensures s' == mid.(routes := s'.routes, hwGroups := s'.hwGroups, hwRoutes := s'.hwRoutes, nextOid := s'.nextOid)
    ensures s'.nextOid >= mid.nextOid
    ensures forall g :: g in s'.hwGroups ==> g in mid.hwGroups || mid.nextOid <= g < s'.nextOid
  {
    hide InstalledGroup;
    if |ids| != 1 {
      InstalledGroupFrame(mid, s', p, ids, referCnt);
    }
  }

  lemma InstalledTables(s: State, mid: State, s': State, p: Prefix, ids: set<Id>, referCnt: nat)
    requires Inv(s) && Acquired(s, mid, ids)
    requires Installed(mid, s', p, ids, referCnt)
    requires p in s.routes ==> s.routes[p].nexthops == {}
    ensures TableInv(s'.nhs, s'.hwNhs) && OidInv(s') && RefInv(s') && NeighborInv(s')
  {
    hide Inv, TableInv, OidInv, RefInv, NeighborInv, Installed, Acquired;
    AcquiredFrame(s, mid, ids);
    InstalledFrame(mid, s', p, ids, referCnt);
    var before := if p in s.routes then s.routes[p].nexthops else {};
    assert before + ids == ids;
    TablesAfter(s, mid, s', p, ids);
  }

  lemma InstalledInv(s: State, mid: State, s': State, p: Prefix, ids: set<Id>, referCnt: nat)
    requires Inv(s) && Acquired(s, mid, ids)
    requires Installed(mid, s', p, ids, referCnt)
    requires 0 < |ids| < UINT8_RANGE
    requires p in s.routes ==> s.routes[p].nexthops == {}
    ensures Inv(s')
  {
    hide TableInv, OidInv, RefInv, NeighborInv, RouteInv, Acquired, Installed;
    AcquiredRoutes(s, mid, ids);
    InstalledRoutes(s, mid, s', p, ids, referCnt);
    InstalledTables(s, mid, s', p, ids, referCnt);
  }

  lemma HandlesUnion(nhs: map<Id, NhEntry>, a: set<Id>, b: set<Id>)
    ensures Handles(nhs, a + b) == Handles(nhs, a) + Handles(nhs, b)
  {
  }

  lemma GrownRecord(mid: State, s': State, p: Prefix, ids: set<Id>)
    requires p in mid.routes && ids != {} && ids !! mid.routes[p].nexthops
    requires mid.routes[p].nexthops != {} && PrefixOk(mid, p)
    requires |mid.routes[p].nexthops + ids| < UINT8_RANGE
    requires Grown(mid, s', p, ids)
    ensures PrefixOk(s', p)
  {
    hide Handles;
    var hops := mid.routes[p].nexthops;
    assert ids - hops == ids;
    assert |hops + ids| == |hops| + |ids|;
    HandlesUnion(mid.nhs, hops, ids);
  }

  lemma GrownFrame(mid: State, s': State, p: Prefix, ids: set<Id>)
    requires Grown(mid, s', p, ids) && p in mid.hwRoutes
    ensures p in s'.routes && s'.routes == mid.routes[p := s'.routes[p]]
    ensures p in s'.hwRoutes && s'.hwRoutes == mid.hwRoutes[p := s'.hwRoutes[p]]
    ensures s'.nhs == mid.nhs
  {
    hide Handles;
  }

  lemma GrownRoutes(s: State, mid: State, s': State, p: Prefix, ids: set<Id>)
    requires RouteInv(s) && OidInv(s) && SameRoutes(s, mid)
    requires p in s.routes && s.routes[p].nexthops != {} && ids != {} && ids !! s.routes[p].nexthops
    requires |s.routes[p].nexthops + ids| < UINT8_RANGE
    requires Grown(mid, s', p, ids)
    ensures RouteInv(s')
  {
    hide Grown, TargetOk, Handles, OwnGroup, OtherGroupsKept, OidInv;
    assert PrefixOk(s, p) && Untouched(s, mid, p);
    UntouchedOk(s, mid, p);
    GrownRecord(mid, s', p, ids);
    GrownFrame(mid, s', p, ids);
    GrownOwnGroup(s, mid, s', p, ids);
    RouteInvThrough(s, mid, s', p);
  }

  lemma GrownOwnGroup(s: State, mid: State, s': State, p: Prefix, ids: set<Id>)
    requires RouteInv(s) && OidInv(s) && p in s.routes && s.routes[p].nexthops != {}
    requires mid.routes == s.routes && mid.hwGroups == s.hwGroups && s.nextOid <= mid.nextOid
    requires |s.routes[p].nexthops + ids| < UINT8_RANGE && Grown(mid, s', p, ids)
    ensures OwnGroup(s'.routes, p) && OtherGroupsKept(s, s', p)
  {
    hide OwnGroup, Handles;
    assert PrefixOk(s, p);
    if s.routes[p].rstate.Ecmp? {
      KeptGroup(s, s'.routes, p);
    } else {
      FreshGroup(s, s'.routes, p);
    }
  }

  lemma GrownInv(s: State, mid: State, s': State, p: Prefix, ids: set<Id>)
    requires Inv(s) && Acquired(s, mid, ids)
    requires p in s.routes && s.routes[p].nexthops != {} && ids != {} && ids !! s.routes[p].nexthops
    requires |s.routes[p].nexthops + ids| < UINT8_RANGE
    requires Grown(mid, s', p, ids)
    ensures Inv(s')
  {
    hide TableInv, OidInv, RefInv, NeighborInv, RouteInv, Handles;
    AcquiredRoutes(s, mid, ids);
    GrownRoutes(s, mid, s', p, ids);
    TablesAfter(s, mid, s', p, ids);
  }

  lemma SameAsItself(s: State)
    requires RefInv(s) && RouteInv(s)
    ensures SameRoutes(s, s)
  {
    forall q | q in s.routes ensures Untouched(s, s, q) {
      HeldAreInTable(s, q);
      assert PrefixOk(s, q);
    }
  }

  lemma RefsKept(s: State, s': State, p: Prefix)
    requires RefInv(s) && p in s.routes && p in s'.routes && s'.nhs == s.nhs
    requires s'.routes == s.routes[p := s'.routes[p]] && s'.outstanding == s.outstanding
    requires s'.routes[p].nexthops == s.routes[p].nexthops
    ensures RefInv(s')
  {
    hide Refs;
    RefsWithRecord(s, s', p, s'.routes[p]);
  }

  lemma RoutesRewritten(s: State, s': State, p: Prefix)
    requires RefInv(s) && RouteInv(s) && p in s.routes && p in s'.routes
    requires s' == s.(routes := s.routes[p := s'.routes[p]])
    requires SameHops(s.routes[p], s'.routes[p])
    ensures RouteInv(s')
  {
    assert PrefixOk(s, p);
    SameAsItself(s);
    KeptGroup(s, s'.routes, p);
    RouteInvThrough(s, s, s', p);
  }

  /** The records differ at most in fields that say nothing about next hops. */
  predicate SameHops(r: Route, r': Route) {
    && r'.nexthops == r.nexthops && r'.nNexthops == r.nNexthops
    && (r.nexthops != {} || r'.referCnt > 0)
    && (r.nexthops != {} ==> r'.rstate == r.rstate)
    && (IsEcmp(r) ==> r'.nhEcmp == r.nhEcmp)
  }

  /** Rewriting fields of a record other than its next hops and its ECMP state. */
  lemma RecordRewritten(s: State, s': State, p: Prefix)
    requires Inv(s) && p in s.routes && p in s'.routes
    requires s' == s.(routes := s.routes[p := s'.routes[p]])
    requires SameHops(s.routes[p], s'.routes[p])
    ensures Inv(s')
  {
    hide TableInv, RefInv, RouteInv, NeighborInv;
    RefsKept(s, s', p);
    NeighborsKept(s, s');
    RoutesRewritten(s, s', p);
  }

  /** Adding only next hops the route already has changes nothing that matters. */
  lemma NothingNew(s: State, s': State, p: Prefix, ids: set<Id>)
    requires Inv(s) && p in s.routes && ids <= s.routes[p].nexthops && ids != {}
    requires |s.routes[p].nexthops| < UINT8_RANGE
    requires s' == s.(routes := s.routes[p := Settle(WithHops(s.routes[p], ids))])
    ensures Inv(s')
  {
    hide TableInv, OidInv, RefInv, NeighborInv, OwnGroup, TargetOk;
    var r := s.routes[p];
    assert PrefixOk(s, p);
    assert ids - r.nexthops == {};
    assert r.nexthops + ids == r.nexthops;
    RecordRewritten(s, s', p);
  }

  lemma RemoteAddInv(s: State, s': State, p: Prefix, hops: seq<Id>)
    requires Inv(s) && Legal(s, RemoteAdd(p, hops)) && Tidy(s, RemoteAdd(p, hops))
    requires RemoteAddStep(s, s', p, hops)
    ensures Inv(s')
  {
    hide TableInv, OidInv, RefInv, NeighborInv, Installed, OwnGroup, TargetOk;
    var ids := Elems(hops);
    if |hops| < SAI_NEXT_HOP_MAX {
      assert hops[0] in ids;
      DistinctSize(hops);
      assert p in s.routes ==> PrefixOk(s, p);
      if p !in s.routes || (s.routes[p].nNexthops == 0 && s.routes[p].referCnt > 0) {
        var referCnt := if p in s.routes then s.routes[p].referCnt else 0;
        var mid :| Acquired(s, mid, ids) && Installed(mid, s', p, ids, referCnt);
        InstalledInv(s, mid, s', p, ids, referCnt);
      } else if ids !! s.routes[p].nexthops {
        var mid :| Acquired(s, mid, ids) && Grown(mid, s', p, ids);
        GrownInv(s, mid, s', p, ids);
      } else {
        assert s.routes[p].nexthops + ids == s.routes[p].nexthops;
        NothingNew(s, s', p, ids);
      }
    }
  }

  // ------------------------------------------------------------------ dropping references

  lemma ReleasedRefs(mid: State, s': State, ids: set<Id>)
    requires SpareRefs(mid, ids) && Released(mid, s', ids)
    ensures RefInv(s')
  {
    hide TableInv, Holders;
    assert forall id :: Refs(s', id) == Refs(mid, id);
  }

  lemma ReleasedOids(mid: State, s': State, ids: set<Id>)
    requires TableInv(mid.nhs, mid.hwNhs) && OidInv(mid) && Released(mid, s', ids)
    ensures OidInv(s')
  {
    forall h | h in s'.hwNhs ensures h in mid.hwNhs {
      assert mid.nhs[s'.hwNhs[h]].handle == h;
    }
  }

  /** A next hop that some route still holds survives the release, with its handle. */
  lemma ReleasedRoutes(mid: State, s': State, ids: set<Id>)
    requires SpareRefs(mid, ids) && RouteInv(mid) && Released(mid, s', ids)
    ensures RouteInv(s')
  {
    hide TableInv, Holders;
    forall q | q in s'.routes ensures PrefixOk(s', q) && OwnGroup(s'.routes, q) {
      assert PrefixOk(mid, q) && OwnGroup(mid.routes, q);
      forall id | id in mid.routes[q].nexthops
        ensures id in mid.nhs && id in s'.nhs && s'.nhs[id].handle == mid.nhs[id].handle
      {
        HeldIsReferenced(mid, q, id);
      }
      UntouchedOk(mid, s', q);
    }
  }

  lemma ReleasedInv(mid: State, s': State, ids: set<Id>)
    requires TableInv(mid.nhs, mid.hwNhs) && OidInv(mid) && NeighborInv(mid)
    requires SpareRefs(mid, ids) && RouteInv(mid) && Released(mid, s', ids)
    ensures Inv(s')
  {
    hide TableInv, OidInv, RefInv, RouteInv, NeighborInv, SpareRefs;
    ReleasedRefs(mid, s', ids);
    ReleasedOids(mid, s', ids);
    ReleasedRoutes(mid, s', ids);
    NeighborsKept(mid, s');
  }

  lemma ShrunkCount(s: State, p: Prefix, ids: set<Id>)
    requires p in s.routes && RecordOk(s, s.routes[p]) && ids <= s.routes[p].nexthops
    ensures ids * s.routes[p].nexthops == ids
    ensures |ids| <= s.routes[p].nNexthops
    ensures |s.routes[p].nexthops - ids| == s.routes[p].nNexthops - |ids|
  {
    var hops := s.routes[p].nexthops;
    assert ids * hops == ids && (hops - ids) + ids == hops;
  }

  lemma ShrunkRecord(s: State, mid: State, p: Prefix, ids: set<Id>)
    requires TableInv(s.nhs, s.hwNhs) && p in s.routes && PrefixOk(s, p)
    requires ids <= s.routes[p].nexthops <= s.nhs.Keys && !EarlyReturn(s, p, ids)
    requires |ids * s.routes[p].nexthops| <= s.routes[p].nNexthops && Shrunk(s, mid, p, ids)
    ensures PrefixOk(mid, p)
  {
    var hops := s.routes[p].nexthops;
    ShrunkCount(s, p, ids);
    HandlesMinus(s, hops, ids);
    if |hops - ids| == 1 {
      OnlyIsAll(hops - ids);
    }
  }

  lemma ShrunkGroups(s: State, mid: State, p: Prefix, ids: set<Id>)
    requires RouteInv(s) && p in s.routes && PrefixOk(s, p)
    requires ids <= s.routes[p].nexthops && !EarlyReturn(s, p, ids)
    requires |ids * s.routes[p].nexthops| <= s.routes[p].nNexthops && Shrunk(s, mid, p, ids)
    ensures OtherGroupsKept(s, mid, p) && OwnGroup(mid.routes, p)
  {
    hide TargetOk, Handles, OwnGroup, RouteInv;
    ShrunkCount(s, p, ids);
    KeptGroup(s, mid.routes, p);
  }

  lemma ShrunkRoutes(s: State, mid: State, p: Prefix, ids: set<Id>)
    requires TableInv(s.nhs, s.hwNhs) && RefInv(s) && RouteInv(s)
    requires p in s.routes && ids <= s.routes[p].nexthops && !EarlyReturn(s, p, ids)
    requires |ids * s.routes[p].nexthops| <= s.routes[p].nNexthops && Shrunk(s, mid, p, ids)
    ensures RouteInv(mid)
  {
    hide TableInv, RefInv, PrefixOk, Handles, OwnGroup, OtherGroupsKept;
    assert PrefixOk(s, p);
    HeldAreInTable(s, p);
    ShrunkRecord(s, mid, p, ids);
    ShrunkGroups(s, mid, p, ids);
    SameAsItself(s);
    RouteInvThrough(s, s, mid, p);
  }

  lemma ShrunkOids(s: State, mid: State, p: Prefix, ids: set<Id>)
    requires OidInv(s) && p in s.routes
    requires |ids * s.routes[p].nexthops| <= s.routes[p].nNexthops && Shrunk(s, mid, p, ids)
    ensures OidInv(mid) && mid.nhs == s.nhs && mid.hwNhs == s.hwNhs
    ensures mid.outstanding == s.outstanding && mid.hwNeighbors == s.hwNeighbors
    ensures p in mid.routes && mid.routes == s.routes[p := mid.routes[p]]
    ensures mid.routes[p].nexthops == s.routes[p].nexthops - ids
  {
  }

  lemma WithoutHeld(r: Route, ids: set<Id>)
    requires |ids * r.nexthops| <= r.nNexthops
    ensures var held := ids * r.nexthops; |held * r.nexthops| <= r.nNexthops && WithoutHops(r, held) == WithoutHops(r, ids)
  {
    var held := ids * r.nexthops;
    assert held * r.nexthops == held && r.nexthops - held == r.nexthops - ids;
  }

  /** Withdrawing next hops the route does not have does not touch its record or its hardware. */
  lemma ShrunkHeld(s: State, mid: State, p: Prefix, ids: set<Id>)
    requires TableInv(s.nhs, s.hwNhs) && p in s.routes && PrefixOk(s, p) && s.routes[p].nexthops <= s.nhs.Keys
    requires |ids * s.routes[p].nexthops| <= s.routes[p].nNexthops && Shrunk(s, mid, p, ids)
    requires !EarlyReturn(s, p, ids)
    ensures var held := ids * s.routes[p].nexthops;
            && |held * s.routes[p].nexthops| <= s.routes[p].nNexthops && Shrunk(s, mid, p, held)
            && !EarlyReturn(s, p, held)
  {
    hide TableInv, Handles, TargetOk;
    var r := s.routes[p];
    WithoutHeld(r, ids);
    HandlesHeld(s, r.nexthops, ids);
    ShrunkCount(s, p, ids * r.nexthops);
    WithdrawnGroup(s, p, ids);
    hide WithoutHops;
  }

  /** While next hops remain the group is the one of the record's next hops. */
  lemma WithdrawnGroup(s: State, p: Prefix, ids: set<Id>)
    requires p in s.routes && RecordOk(s, s.routes[p]) && |ids * s.routes[p].nexthops| <= s.routes[p].nNexthops
    ensures var r := s.routes[p];
            WithoutHops(r, ids).nNexthops > 1 ==> s.hwGroups[r.nhEcmp] == Handles(s.nhs, r.nexthops)
  {
  }

  lemma HandlesHeld(s: State, hops: set<Id>, ids: set<Id>)
    requires TableInv(s.nhs, s.hwNhs) && hops <= s.nhs.Keys
    ensures Handles(s.nhs, hops) - Handles(s.nhs, ids * hops) == Handles(s.nhs, hops) - Handles(s.nhs, ids)
  {
    forall h | h in Handles(s.nhs, hops) && h in Handles(s.nhs, ids) ensures h in Handles(s.nhs, ids * hops) {
      var id :| id in hops && s.nhs[id].handle == h;
      var other :| other in ids && other in s.nhs && s.nhs[other].handle == h;
      assert s.hwNhs[h] == id == other;
    }
  }

  /** Releasing a next hop that is not in the table does nothing. */
  lemma ReleasedKnown(mid: State, s': State, ids: set<Id>)
    requires Released(mid, s', ids)
    ensures Released(mid, s', ids * mid.nhs.Keys)
  {
  }

  /** After the record shrank there is a reference to spare on everything the release loop will release. */
  lemma WithdrawnSpare(s: State, mid: State, p: Prefix, ids: set<Id>)
    requires RefInv(s) && p in s.routes && OnlySpare(s, p, ids)
    requires mid.nhs == s.nhs && mid.outstanding == s.outstanding && p in mid.routes
    requires mid.routes == s.routes[p := mid.routes[p]]
    requires mid.routes[p].nexthops == s.routes[p].nexthops - ids
    ensures SpareRefs(mid, ids * s.nhs.Keys)
  {
    hide Refs;
    HeldAreInTable(s, p);
    RefsWithRecord(s, mid, p, mid.routes[p]);
  }

  lemma RemoteNhRemoveInv(s: State, s': State, p: Prefix, hops: seq<Id>)
    requires Inv(s) && Legal(s, RemoteNhRemove(p, hops)) && Tidy(s, RemoteNhRemove(p, hops))
    requires RemoteNhRemoveStep(s, s', p, hops)
    ensures Inv(s')
  {
    hide TableInv, OidInv, RefInv, NeighborInv, Released, Shrunk, OwnGroup, TargetOk, OnlySpare;
    var ids := Elems(hops);
    if p in s.routes {
      if EarlyReturn(s, p, ids) {
        RecordDropped(s, s', p);
      } else {
        var mid :| Shrunk(s, mid, p, ids) && Released(mid, s', ids);
        assert PrefixOk(s, p);
        HeldAreInTable(s, p);
        WithdrawnInv(s, mid, s', p, ids);
      }
    }
  }

  lemma WithdrawnInv(s: State, mid: State, s': State, p: Prefix, ids: set<Id>)
    requires Inv(s) && p in s.routes && PrefixOk(s, p) && s.routes[p].nexthops <= s.nhs.Keys
    requires !EarlyReturn(s, p, ids) && OnlySpare(s, p, ids)
    requires |ids * s.routes[p].nexthops| <= s.routes[p].nNexthops && Shrunk(s, mid, p, ids)
    requires Released(mid, s', ids)
    ensures Inv(s')
  {
    hide TableInv, OidInv, RefInv, RouteInv, NeighborInv, Released, Shrunk, PrefixOk, OnlySpare, EarlyReturn;
    var held := ids * s.routes[p].nexthops;
    ShrunkHeld(s, mid, p, ids);
    ShrunkOids(s, mid, p, held);
    ShrunkRoutes(s, mid, p, held);
    assert s.routes[p].nexthops - held == s.routes[p].nexthops - ids;
    WithdrawnSpare(s, mid, p, ids);
    NeighborsKept(s, mid);
    ReleasedKnown(mid, s', ids);
    ReleasedInv(mid, s', ids * s.nhs.Keys);
  }

  /** Releasing a reference that somebody else counts on leaves them with a next hop counted too little, or gone. */
  lemma ForeignRelease(s: State, mid: State, s': State, p: Prefix, ids: set<Id>, id: Id)
    requires Inv(s) && p in s.routes && id in ids && id !in s.routes[p].nexthops && id in s.nhs
    requires s.nhs[id].ref <= Refs(s, id)
    requires |ids * s.routes[p].nexthops| <= s.routes[p].nNexthops && Shrunk(s, mid, p, ids)
    requires Released(mid, s', ids)
    ensures !RefInv(s')
  {
    hide OidInv, RouteInv, NeighborInv, Shrunk, Holders;
    assert OidInv(s);
    ShrunkOids(s, mid, p, ids);
    RefsWithRecord(s, mid, p, mid.routes[p]);
    assert Refs(s', id) == Refs(mid, id) == Refs(s, id);
    assert s.nhs[id].ref > 0;
  }

  lemma RoutesWithout(s: State, s': State, p: Prefix)
    requires RefInv(s) && RouteInv(s) && p in s.routes
    requires s'.routes == s.routes - {p} && s'.hwRoutes == s.hwRoutes - {p} && s'.nhs == s.nhs
    requires OtherGroupsKept(s, s', p)
    ensures RouteInv(s')
  {
    SameAsItself(s);
    forall q | q in s.routes && q != p ensures Untouched(s, s', q) {
      OthersUntouched(s, s, s', p, q);
    }
    RouteInvWithout(s, s', p);
  }

  lemma RefsDropped(s: State, s': State, p: Prefix)
    requires RefInv(s) && p in s.routes
    requires s'.routes == s.routes - {p} && s'.nhs == s.nhs && s'.outstanding == s.outstanding
    ensures SpareRefs(s', s.routes[p].nexthops) && RefInv(s')
  {
    hide Refs;
    HeldAreInTable(s, p);
    RefsWithoutRecord(s, s', p);
  }

  /** Dropping a record without dropping its references leaks them, but nothing dangles. */
  lemma RecordDropped(s: State, s': State, p: Prefix)
    requires Inv(s) && p in s.routes
    requires s' == s.(routes := s.routes - {p}, hwRoutes := s.hwRoutes - {p})
    ensures Inv(s')
  {
    hide TableInv, RefInv, RouteInv, NeighborInv;
    RoutesWithout(s, s', p);
    RefsDropped(s, s', p);
    NeighborsKept(s, s');
  }

  function WithoutRoute(s: State, p: Prefix): State
    requires p in s.routes
  {
    s.(routes := s.routes - {p},
       hwRoutes := s.hwRoutes - {p},
       hwGroups := if s.routes[p].rstate.Ecmp? then s.hwGroups - {s.routes[p].nhEcmp} else s.hwGroups)
  }

  lemma RouteDropped(s: State, s': State, p: Prefix)
    requires Inv(s) && p in s.routes && s.routes[p].nNexthops > 0 && s.routes[p].referCnt == 0
    requires RouteRemoveStep(s, s', p)
    ensures Inv(s')
  {
    hide TableInv, RefInv, NeighborInv, Released, TargetOk, OwnGroup, Handles;
    var mid := WithoutRoute(s, p);
    assert PrefixOk(s, p);
    assert OtherGroupsKept(s, mid, p);
    RoutesWithout(s, mid, p);
    RefsDropped(s, mid, p);
    NeighborsKept(s, mid);
    ReleasedInv(mid, s', s.routes[p].nexthops);
  }

  lemma RouteRemoveInv(s: State, s': State, p: Prefix)
    requires Inv(s) && RouteRemoveStep(s, s', p)
    ensures Inv(s')
  {
    hide TableInv, RefInv, NeighborInv, OidInv, Released, TargetOk, OwnGroup, Handles;
    if p in s.routes {
      var r := s.routes[p];
      assert PrefixOk(s, p);
      if r.referCnt > 0 && (r.nNexthops > 0 || r.referCnt > 1) {
        RecordRewritten(s, s', p);
      } else if r.referCnt > 0 {
        RecordDropped(s, s', p);
      } else if r.nNexthops > 0 {
        RouteDropped(s, s', p);
      }
    }
  }

  lemma LocalAddInv(s: State, s': State, p: Prefix, rif: Rif)
    requires Inv(s) && Legal(s, LocalAdd(p, rif)) && LocalAddStep(s, s', p, rif)
    ensures Inv(s')
  {
    hide TableInv, RefInv, NeighborInv;
    if p in s.routes {
      assert PrefixOk(s, p);
      RecordRewritten(s, s', p);
    } else {
      NeighborsKept(s, s');
      LocalRefs(s, s', p);
      SameAsItself(s);
      FreshGroup(s, s'.routes, p);
      RouteInvThrough(s, s, s', p);
    }
  }

  lemma LocalRefs(s: State, s': State, p: Prefix)
    requires RefInv(s) && p !in s.routes && p in s'.routes && s'.routes[p].nexthops == {}
    requires s'.routes == s.routes[p := s'.routes[p]]
    requires s'.nhs == s.nhs && s'.outstanding == s.outstanding
    ensures RefInv(s')
  {
    hide Refs;
    RefsWithRecord(s, s', p, s'.routes[p]);
  }

  /** Routes do not care about neighbors, only about handles. */
  lemma RoutesOver(s: State, s': State)
    requires RouteInv(s) && s'.routes == s.routes && s'.hwRoutes == s.hwRoutes
    requires forall q :: q in s.routes ==> Untouched(s, s', q)
    ensures RouteInv(s')
  {
    hide PrefixOk, OwnGroup, Untouched;
    forall q | q in s'.routes ensures PrefixOk(s', q) && OwnGroup(s'.routes, q) {
      assert PrefixOk(s, q) && OwnGroup(s.routes, q);
      UntouchedOk(s, s', q);
    }
  }

  lemma NeighborCreateRoutes(s: State, mid: State, id: Id, rif: Rif)
    requires RefInv(s) && RouteInv(s) && Acquired(s, mid, {id})
    ensures RouteInv(WithNeighbor(mid, id, rif))
  {
    hide RefInv, RouteInv;
    AcquiredRoutes(s, mid, {id});
    assert forall q :: q in s.routes ==> Untouched(s, WithNeighbor(mid, id, rif), q) by {
      assert forall q :: q in s.routes ==> Untouched(s, mid, q);
    }
    RoutesOver(s, WithNeighbor(mid, id, rif));
  }

  lemma NeighborCreateRefs(s: State, mid: State, id: Id, rif: Rif)
    requires NeighborInv(s) && SpareRefs(mid, {id})
    requires mid.hwNeighbors == s.hwNeighbors && mid.outstanding == s.outstanding
    ensures RefInv(WithNeighbor(mid, id, rif)) && NeighborInv(WithNeighbor(mid, id, rif))
  {
    hide Holders;
    var s' := WithNeighbor(mid, id, rif);
    assert forall i :: Refs(s', i) == Refs(mid, i) + (if i == id then 1 else 0);
  }

  lemma NeighborCreateInv(s: State, s': State, id: Id, rif: Rif)
    requires Inv(s) && NeighborCreateStep(s, s', id, rif)
    ensures Inv(s')
  {
    hide TableInv, RouteInv, RefInv, NeighborInv, SpareRefs;
    var mid :| Acquired(s, mid, {id}) && s' == WithNeighbor(mid, id, rif);
    AcquiredRefs(s, mid, {id});
    AcquiredOids(s, mid, {id});
    NeighborCreateRoutes(s, mid, id, rif);
    NeighborCreateRefs(s, mid, id, rif);
  }

  lemma NeighborRemoveInv(s: State, s': State, id: Id, rif: Rif)
    requires Inv(s) && NeighborRemoveStep(s, s', id, rif)
    ensures Inv(s')
  {
    hide TableInv, OwnGroup, PrefixOk, Holders, Released;
    if rif in NeighborRifs(s, id) {
      var mid := WithoutNeighbor(s, id, rif);
      assert Outstanding(s, id) > 0;
      assert Refs(s, id) > 0;
      assert forall i :: Refs(mid, i) == Refs(s, i) - (if i == id then 1 else 0);
      SameAsItself(s);
      assert forall q :: q in s.routes && Untouched(s, s, q) ==> Untouched(s, mid, q);
      RoutesOver(s, mid);
      ReleasedInv(mid, s', {id});
    }
  }
}
