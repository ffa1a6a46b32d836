/**
 Which interface a prefix without next hops forwards to. The code remembers only how many
 interface references a record has; when a withdrawal takes the last next hop of an overlaid
 route it restores the default interface instead of the one the route was added with.
 */
module RouteOrigins {
  import opened Options
  import opened RouteState
  import opened RouteProofs
  import opened RouteTheorems

  /** The interface of the local addition that gave the record its first reference. */
  function Origin(states: seq<State>, ops: seq<Op>, n: nat, p: Prefix): Option<Rif>
    requires |states| == |ops| + 1 && n < |states|
  {
    if n == 0 || p !in states[n].routes || states[n].routes[p].referCnt == 0 then None
    else
      var before := Origin(states, ops, n - 1, p);
      if before.None? && ops[n - 1].LocalAdd? && ops[n - 1].p == p then Some(ops[n - 1].rif) else before
  }

  /** The operation is a withdrawal that leaves the record without next hops. */
  predicate Empties(op: Op, s': State, p: Prefix) {
    op.RemoteNhRemove? && op.p == p && p in s'.routes && s'.routes[p].nexthops == {}
  }

  /** Some withdrawal has left the present record without next hops. */
  predicate Emptied(states: seq<State>, ops: seq<Op>, n: nat, p: Prefix)
    requires |states| == |ops| + 1 && n < |states|
  {
    && n > 0 && p in states[n].routes
    && (Emptied(states, ops, n - 1, p) || Empties(ops[n - 1], states[n], p))
  }

  lemma InstalledRefer(mid: State, s': State, p: Prefix, ids: set<Id>, referCnt: nat)
    requires Installed(mid, s', p, ids, referCnt)
    ensures p in s'.routes && s'.routes[p].referCnt == referCnt
    ensures |ids| < UINT8_RANGE ==> s'.routes[p].nexthops == ids && s'.routes[p].nNexthops == |ids|
  {
    hide Handles;
  }

  lemma GrownRefer(mid: State, s': State, p: Prefix, ids: set<Id>)
    requires Grown(mid, s', p, ids)
    ensures p in s'.routes && s'.routes == mid.routes[p := s'.routes[p]]
    ensures s'.routes[p].referCnt == mid.routes[p].referCnt && ids <= s'.routes[p].nexthops
    ensures s'.routes[p].nexthops == WithHops(mid.routes[p], ids).nexthops
    ensures s'.routes[p].nNexthops == WithHops(mid.routes[p], ids).nNexthops && s'.hwNeighbors == mid.hwNeighbors
    ensures s'.hwRoutes == mid.hwRoutes || (p in s'.hwRoutes && s'.hwRoutes == mid.hwRoutes[p := s'.hwRoutes[p]])
  {
    hide Handles;
  }

  lemma ShrunkRefer(s: State, mid: State, p: Prefix, ids: set<Id>)
    requires p in s.routes && |ids * s.routes[p].nexthops| <= s.routes[p].nNexthops && Shrunk(s, mid, p, ids)
    requires s.routes[p].nNexthops == |s.routes[p].nexthops|
    ensures p in mid.routes && mid.routes == s.routes[p := mid.routes[p]]
    ensures mid.routes[p].referCnt == s.routes[p].referCnt && mid.routes[p].nexthops == s.routes[p].nexthops - ids
    ensures mid.hwRoutes == s.hwRoutes || (p in mid.hwRoutes && mid.hwRoutes == s.hwRoutes[p := mid.hwRoutes[p]])
    ensures mid.routes[p].nexthops == {} ==> p in mid.hwRoutes && mid.hwRoutes[p] == ToInterface(DEFAULT_RIF)
  {
    hide Handles, Only, WithoutHops;
    WithoutCounts(s.routes[p], ids);
  }

  lemma WithoutCounts(r: Route, ids: set<Id>)
    requires |ids * r.nexthops| <= r.nNexthops == |r.nexthops|
    ensures var r' := WithoutHops(r, ids);
            r'.nexthops == r.nexthops - ids && r'.nNexthops == |r'.nexthops| && r'.referCnt == r.referCnt
  {
    assert r.nexthops == (ids * r.nexthops) + (r.nexthops - ids);
  }

  /** What a step does to prefix p, as far as interfaces and their references go. */
  ghost predicate Origins(s: State, s': State, op: Op, p: Prefix) {
    p in s'.routes ==>
      && (s'.routes[p].referCnt > 0 ==>
            (p in s.routes && s.routes[p].referCnt > 0) || (op.LocalAdd? && op.p == p))
      && (s'.routes[p].nexthops == {} ==>
            p in s'.hwRoutes &&
            if p !in s.routes then op.LocalAdd? && op.p == p && s'.hwRoutes[p] == ToInterface(op.rif)
            else if Empties(op, s', p) then s'.hwRoutes[p] == ToInterface(DEFAULT_RIF)
            else s.routes[p].nexthops == {} && p in s.hwRoutes && s'.hwRoutes[p] == s.hwRoutes[p])
  }

  lemma InstalledOrigins(s: State, mid: State, s': State, q: Prefix, hops: seq<Id>, p: Prefix)
    requires hops != [] && |Elems(hops)| < UINT8_RANGE
    requires mid.routes == s.routes && mid.hwRoutes == s.hwRoutes && (forall r :: r in s.routes ==> r in s.hwRoutes)
    requires Installed(mid, s', q, Elems(hops), if q in s.routes then s.routes[q].referCnt else 0)
    ensures Origins(s, s', RemoteAdd(q, hops), p)
  {
    hide Installed;
    var ids, referCnt := Elems(hops), if q in s.routes then s.routes[q].referCnt else 0;
    assert hops[0] in ids;
    InstalledFrame(mid, s', q, ids, referCnt);
    InstalledRefer(mid, s', q, ids, referCnt);
    InstalledTarget(mid, s', q, ids, referCnt);
  }

  lemma GrownOrigins(s: State, mid: State, s': State, q: Prefix, hops: seq<Id>, p: Prefix)
    requires hops != [] && q in s.routes
    requires mid.routes == s.routes && mid.hwRoutes == s.hwRoutes && (forall r :: r in s.routes ==> r in s.hwRoutes)
    requires Grown(mid, s', q, Elems(hops))
    ensures Origins(s, s', RemoteAdd(q, hops), p)
  {
    hide Grown;
    assert hops[0] in Elems(hops);
    GrownRefer(mid, s', q, Elems(hops));
  }

  lemma OverlapOrigins(s: State, s': State, q: Prefix, hops: seq<Id>, p: Prefix)
    requires hops != [] && q in s.routes && (forall r :: r in s.routes ==> r in s.hwRoutes)
    requires s' == s.(routes := s.routes[q := Settle(WithHops(s.routes[q], Elems(hops)))])
    ensures Origins(s, s', RemoteAdd(q, hops), p)
  {
    assert hops[0] in Elems(hops);
  }

  lemma RemoteAddOrigins(s: State, s': State, q: Prefix, hops: seq<Id>, p: Prefix)
    requires RouteInv(s) && Legal(s, RemoteAdd(q, hops)) && RemoteAddStep(s, s', q, hops)
    ensures Origins(s, s', RemoteAdd(q, hops), p)
  {
    hide PrefixOk, OwnGroup, Installed, Grown, Origins, TableInv;
    var ids := Elems(hops);
    assert forall r :: r in s.routes ==> r in s.hwRoutes;
    DistinctSize(hops);
    if |hops| >= SAI_NEXT_HOP_MAX {
      UnchangedOrigins(s, RemoteAdd(q, hops), p);
    } else if q !in s.routes || (s.routes[q].nNexthops == 0 && s.routes[q].referCnt > 0) {
      var mid :| Acquired(s, mid, ids) && Installed(mid, s', q, ids, if q in s.routes then s.routes[q].referCnt else 0);
      AcquiredFrame(s, mid, ids);
      InstalledOrigins(s, mid, s', q, hops, p);
    } else if s.routes[q].nNexthops > 0 && ids !! s.routes[q].nexthops {
      var mid :| Acquired(s, mid, ids) && Grown(mid, s', q, ids);
      AcquiredFrame(s, mid, ids);
      GrownOrigins(s, mid, s', q, hops, p);
    } else {
      OverlapOrigins(s, s', q, hops, p);
    }
  }

  lemma UnchangedOrigins(s: State, op: Op, p: Prefix)
    requires (forall r :: r in s.routes ==> r in s.hwRoutes) && !op.RemoteNhRemove?
    ensures Origins(s, s, op, p)
  {
  }

  lemma InstalledTarget(mid: State, s': State, p: Prefix, ids: set<Id>, referCnt: nat)
    requires Installed(mid, s', p, ids, referCnt)
    ensures p in s'.hwRoutes && s'.hwRoutes == mid.hwRoutes[p := s'.hwRoutes[p]]
  {
    hide Handles;
  }

  lemma RemoteNhRemoveOrigins(s: State, s': State, q: Prefix, hops: seq<Id>, p: Prefix)
    requires RouteInv(s) && RemoteNhRemoveStep(s, s', q, hops)
    ensures Origins(s, s', RemoteNhRemove(q, hops), p)
  {
    hide RouteInv, Shrunk, TargetOk, OwnGroup, TableInv;
    var ids := Elems(hops);
    PrefixesOk(s);
    if q in s.routes && !EarlyReturn(s, q, ids) {
      var mid :| Shrunk(s, mid, q, ids) && Released(mid, s', ids);
      ShrunkRefer(s, mid, q, ids);
    }
  }

  lemma RouteRemoveOrigins(s: State, s': State, q: Prefix, p: Prefix)
    requires RouteRemoveStep(s, s', q) && (forall r :: r in s.routes ==> r in s.hwRoutes)
    ensures Origins(s, s', RouteRemove(q), p)
  {
    hide Released;
    if q in s.routes && s.routes[q].referCnt == 0 && s.routes[q].nNexthops > 0 {
      var mid := WithoutRoute(s, q);
      ReleasedShape(mid, s', s.routes[q].nexthops);
    }
  }

  lemma ReleasedShape(mid: State, s': State, ids: set<Id>)
    requires Released(mid, s', ids)
    ensures s'.routes == mid.routes && s'.hwRoutes == mid.hwRoutes && s'.hwNeighbors == mid.hwNeighbors
  {
  }

  lemma LocalAddOrigins(s: State, s': State, q: Prefix, rif: Rif, p: Prefix)
    requires LocalAddStep(s, s', q, rif) && (forall r :: r in s.routes ==> r in s.hwRoutes)
    ensures Origins(s, s', LocalAdd(q, rif), p)
  {
  }

  lemma NeighborOrigins(s: State, s': State, op: Op, p: Prefix)
    requires (op.NeighborCreate? && NeighborCreateStep(s, s', op.id, op.rif))
             || (op.NeighborRemove? && NeighborRemoveStep(s, s', op.id, op.rif))
    requires forall r :: r in s.routes ==> r in s.hwRoutes
    ensures Origins(s, s', op, p)
  {
    hide TableInv;
  }

  lemma StepOrigins(s: State, s': State, op: Op, p: Prefix)
    requires Inv(s) && Legal(s, op) && Step(s, s', op)
    ensures Origins(s, s', op, p)
  {
    hide TableInv, OidInv, RefInv, NeighborInv, PrefixOk, OwnGroup, Origins, RemoteAddStep, RemoteNhRemoveStep,
      RouteRemoveStep, LocalAddStep, NeighborCreateStep, NeighborRemoveStep;
    assert forall r :: r in s.routes ==> r in s.hwRoutes;
    match op
    case RemoteAdd(q, hops) => RemoteAddOrigins(s, s', q, hops, p);
    case RemoteNhRemove(q, hops) => RemoteNhRemoveOrigins(s, s', q, hops, p);
    case RouteRemove(q) => RouteRemoveOrigins(s, s', q, p);
    case LocalAdd(q, rif) => LocalAddOrigins(s, s', q, rif, p);
    case NeighborCreate(id, rif) => NeighborOrigins(s, s', op, p);
    case NeighborRemove(id, rif) => NeighborOrigins(s, s', op, p);
  }

  /** A prefix without next hops goes to the interface of its origin, or once emptied to the default one. */
  lemma {:induction false} InterfaceOf(states: seq<State>, ops: seq<Op>, n: nat, p: Prefix)
    requires IsRun(states, ops) && n < |states| && p in states[n].routes
    ensures states[n].routes[p].referCnt > 0 <==> Origin(states, ops, n, p).Some?
    ensures states[n].routes[p].nexthops == {} ==>
              && Origin(states, ops, n, p).Some? && p in states[n].hwRoutes
              && states[n].hwRoutes[p] == ToInterface(if Emptied(states, ops, n, p) then DEFAULT_RIF
                                                      else Origin(states, ops, n, p).value)
  {
    hide Inv, Legal, Tidy, Step, Empties;
    RunInv(states, ops, n);
    BareIsReferred(states[n], p);
    if n > 0 {
      RunInv(states, ops, n - 1);
      StepOrigins(states[n - 1], states[n], ops[n - 1], p);
      if p in states[n - 1].routes {
        InterfaceOf(states, ops, n - 1, p);
        BareIsReferred(states[n - 1], p);
      }
      EmptiesIsWithdrawal(ops[n - 1], states[n], p);
    }
  }

  lemma EmptiesIsWithdrawal(op: Op, s': State, p: Prefix)
    ensures Empties(op, s', p) ==> !op.LocalAdd?
  {
  }

  lemma BareIsReferred(s: State, p: Prefix)
    requires Inv(s) && p in s.routes
    ensures s.routes[p].nexthops == {} ==> s.routes[p].referCnt > 0
  {
    assert PrefixOk(s, p);
  }

  /**
   An interface route forwards to the interface it was added with iff no withdrawal has ever
   left its record without next hops, or that interface is the default one.
   */
  lemma InterfaceIff(states: seq<State>, ops: seq<Op>, n: nat, p: Prefix)
    requires IsRun(states, ops) && n < |states|
    requires p in states[n].routes && states[n].routes[p].nexthops == {}
    ensures Origin(states, ops, n, p).Some? && p in states[n].hwRoutes
    ensures states[n].hwRoutes[p] == ToInterface(Origin(states, ops, n, p).value)
            <==> !Emptied(states, ops, n, p) || Origin(states, ops, n, p) == Some(DEFAULT_RIF)
  {
    InterfaceOf(states, ops, n, p);
  }
}
