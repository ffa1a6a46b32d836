/**
 What callers asked for, and that they get it: the route table and the hardware neighbors as
 functions of the calls alone, and the next hops the hardware forwards each prefix to.
 */
module RouteRequests {
  import opened Options
  import opened RouteState
  import opened RouteProofs
  import opened RouteTheorems
  import opened RouteOrigins

  /** What has been asked for a prefix: next hops, and interface references. */
  datatype Demand = Demand(hops: set<Id>, refs: nat)

  datatype Requested = Requested(routes: map<Prefix, Demand>, neighbors: set<(Id, Rif)>)

  const NO_DEMAND := Demand({}, 0)

  function DemandOf(w: map<Prefix, Demand>, p: Prefix): Demand {
    if p in w then w[p] else NO_DEMAND
  }

  /** A prefix for which nothing is asked any more is gone. */
  function Asking(w: map<Prefix, Demand>, p: Prefix, d: Demand): map<Prefix, Demand> {
    if d == NO_DEMAND then w - {p} else w[p := d]
  }

  /** The meaning of a call, without records, counts, references or hardware. */
  function Serve(q: Requested, op: Op): Requested {
    match op
    case RemoteAdd(p, hops) =>
      if |hops| >= SAI_NEXT_HOP_MAX then q
      else var d := DemandOf(q.routes, p); q.(routes := Asking(q.routes, p, d.(hops := d.hops + Elems(hops))))
    case RemoteNhRemove(p, hops) =>
      var d := DemandOf(q.routes, p); q.(routes := Asking(q.routes, p, d.(hops := d.hops - Elems(hops))))
    case RouteRemove(p) =>
      var d := DemandOf(q.routes, p);
      q.(routes := Asking(q.routes, p, if d.refs > 0 then d.(refs := d.refs - 1) else NO_DEMAND))
    case LocalAdd(p, _) =>
      var d := DemandOf(q.routes, p); q.(routes := Asking(q.routes, p, d.(refs := d.refs + 1)))
    case NeighborCreate(id, rif) => q.(neighbors := q.neighbors + {(id, rif)})
    case NeighborRemove(id, rif) => q.(neighbors := q.neighbors - {(id, rif)})
  }

  function ServeAll(ops: seq<Op>): Requested {
    if ops == [] then Requested(map[], {}) else Serve(ServeAll(ops[..|ops| - 1]), ops[|ops| - 1])
  }

  // ------------------------------------------------------------------ the tables as an answer

  function Routes(s: State): map<Prefix, Demand> {
    map p | p in s.routes :: Demand(s.routes[p].nexthops, s.routes[p].referCnt)
  }

  function Neighbors(s: State): set<(Id, Rif)> {
    set id, rif | id in s.hwNeighbors && rif in s.hwNeighbors[id] :: (id, rif)
  }

  function Answer(s: State): Requested {
    Requested(Routes(s), Neighbors(s))
  }

  /** Every record counts its next hops, and has some or an interface reference. */
  ghost predicate Counted(s: State) {
    forall p :: p in s.routes ==>
      s.routes[p].nNexthops == |s.routes[p].nexthops| && (s.routes[p].nexthops != {} || s.routes[p].referCnt > 0)
  }

  /** Only the record of p changed, to what serves d, and only p's hardware route. */
  ghost predicate Changes(s: State, s': State, p: Prefix, d: Demand) {
    && (forall q :: q != p ==> Lookup(s'.routes, q) == Lookup(s.routes, q) && Lookup(s'.hwRoutes, q) == Lookup(s.hwRoutes, q))
    && (p in s'.routes <==> d != NO_DEMAND)
    && (p in s'.routes ==>
          var r := s'.routes[p]; r.nexthops == d.hops && r.referCnt == d.refs && r.nNexthops == |r.nexthops|)
    && s'.hwNeighbors == s.hwNeighbors
  }

  lemma ChangesServe(s: State, s': State, p: Prefix, d: Demand)
    requires Counted(s) && Changes(s, s', p, d)
    ensures Counted(s') && Answer(s') == Answer(s).(routes := Asking(Routes(s), p, d))
  {
    forall q ensures Lookup(Routes(s'), q) == Lookup(Asking(Routes(s), p, d), q) {
      if q != p {
        assert Lookup(s'.routes, q) == Lookup(s.routes, q);
      }
    }
    SameLookups(Routes(s'), Asking(Routes(s), p, d));
    forall q | q in s'.routes
      ensures s'.routes[q].nNexthops == |s'.routes[q].nexthops| && (s'.routes[q].nexthops != {} || s'.routes[q].referCnt > 0)
    {
      if q != p {
        assert Lookup(s'.routes, q) == Lookup(s.routes, q);
      }
    }
  }

  // ------------------------------------------------------------------ the operations

  /** A step that only wrote p's record, which it kept, and possibly p's hardware route. */
  lemma Writes(s: State, s': State, p: Prefix, d: Demand)
    requires p in s'.routes && s'.routes == s.routes[p := s'.routes[p]] && s'.hwNeighbors == s.hwNeighbors
    requires s'.hwRoutes == s.hwRoutes || (p in s'.hwRoutes && s'.hwRoutes == s.hwRoutes[p := s'.hwRoutes[p]])
    requires s'.routes[p].nexthops == d.hops && s'.routes[p].referCnt == d.refs && s'.routes[p].nNexthops == |d.hops|
    requires d != NO_DEMAND
    ensures Changes(s, s', p, d)
  {
  }

  lemma InstalledServes(s: State, mid: State, s': State, p: Prefix, ids: set<Id>, refs: nat)
    requires 0 < |ids| < UINT8_RANGE && Installed(mid, s', p, ids, refs)
    requires mid.routes == s.routes && mid.hwRoutes == s.hwRoutes && mid.hwNeighbors == s.hwNeighbors
    ensures Changes(s, s', p, Demand(ids, refs))
  {
    hide Installed, Changes;
    InstalledFrame(mid, s', p, ids, refs);
    InstalledRefer(mid, s', p, ids, refs);
    InstalledTarget(mid, s', p, ids, refs);
    Writes(s, s', p, Demand(ids, refs));
  }

  lemma GrownServes(s: State, mid: State, s': State, p: Prefix, ids: set<Id>)
    requires p in s.routes && s.routes[p].nNexthops == |s.routes[p].nexthops|
    requires ids != {} && |s.routes[p].nexthops + ids| < UINT8_RANGE && Grown(mid, s', p, ids)
    requires mid.routes == s.routes && mid.hwRoutes == s.hwRoutes && mid.hwNeighbors == s.hwNeighbors
    ensures Changes(s, s', p, Demand(s.routes[p].nexthops + ids, s.routes[p].referCnt))
  {
    hide Grown, Changes, WithHops;
    HopsAdded(s.routes[p], ids);
    GrownRefer(mid, s', p, ids);
    Writes(s, s', p, Demand(s.routes[p].nexthops + ids, s.routes[p].referCnt));
  }

  lemma OverlapServes(s: State, s': State, p: Prefix, ids: set<Id>)
    requires p in s.routes && s.routes[p].nNexthops == |s.routes[p].nexthops|
    requires ids != {} && |s.routes[p].nexthops + ids| < UINT8_RANGE
    requires s' == s.(routes := s.routes[p := Settle(WithHops(s.routes[p], ids))])
    ensures Changes(s, s', p, Demand(s.routes[p].nexthops + ids, s.routes[p].referCnt))
  {
    hide Changes, WithHops, Settle;
    HopsAdded(s.routes[p], ids);
    SettleKeeps(WithHops(s.routes[p], ids));
    Writes(s, s', p, Demand(s.routes[p].nexthops + ids, s.routes[p].referCnt));
  }

  /** The addition in terms of the next hops and references that the prefix had. */
  lemma AddedTo(s: State, s': State, p: Prefix, ids: set<Id>, d: Demand)
    requires d == (if p in s.routes then Demand(s.routes[p].nexthops, s.routes[p].referCnt) else NO_DEMAND)
    requires p in s.routes ==> s.routes[p].nNexthops == |s.routes[p].nexthops| && d != NO_DEMAND
    requires 0 < |ids| && |d.hops + ids| < UINT8_RANGE
    requires if p !in s.routes || (s.routes[p].nNexthops == 0 && s.routes[p].referCnt > 0) then
               exists mid :: Acquired(s, mid, ids) && Installed(mid, s', p, ids, d.refs)
             else if s.routes[p].nNexthops > 0 && ids !! s.routes[p].nexthops then
               exists mid :: Acquired(s, mid, ids) && Grown(mid, s', p, ids)
             else s' == s.(routes := s.routes[p := Settle(WithHops(s.routes[p], ids))])
    ensures Changes(s, s', p, d.(hops := d.hops + ids))
  {
    hide Installed, Grown, Settle, WithHops, Acquired, Changes;
    if p !in s.routes || (s.routes[p].nNexthops == 0 && s.routes[p].referCnt > 0) {
      var mid :| Acquired(s, mid, ids) && Installed(mid, s', p, ids, d.refs);
      AcquiredFrame(s, mid, ids);
      assert d.hops + ids == ids;
      InstalledServes(s, mid, s', p, ids, d.refs);
    } else if s.routes[p].nNexthops > 0 && ids !! s.routes[p].nexthops {
      var mid :| Acquired(s, mid, ids) && Grown(mid, s', p, ids);
      AcquiredFrame(s, mid, ids);
      GrownServes(s, mid, s', p, ids);
    } else {
      OverlapServes(s, s', p, ids);
    }
  }

  lemma CountedAt(s: State, p: Prefix)
    requires Counted(s)
    ensures p in s.routes ==> s.routes[p].nNexthops == |s.routes[p].nexthops| && DemandOf(Routes(s), p) != NO_DEMAND
    ensures DemandOf(Routes(s), p) == if p in s.routes then Demand(s.routes[p].nexthops, s.routes[p].referCnt) else NO_DEMAND
  {
  }

  lemma RemoteAddServes(s: State, s': State, p: Prefix, hops: seq<Id>)
    requires Counted(s) && Legal(s, RemoteAdd(p, hops)) && RemoteAddStep(s, s', p, hops) && |hops| < SAI_NEXT_HOP_MAX
    ensures var d := DemandOf(Routes(s), p); Changes(s, s', p, d.(hops := d.hops + Elems(hops)))
  {
    hide Installed, Grown, Settle, WithHops, Acquired, Changes, Counted, Routes, DemandOf, Elems, NoDup;
    CountedAt(s, p);
    DistinctSize(hops);
    assert {} + Elems(hops) == Elems(hops);
    AddedTo(s, s', p, Elems(hops), DemandOf(Routes(s), p));
  }

  lemma HopsAdded(r: Route, ids: set<Id>)
    requires r.nNexthops == |r.nexthops| && |r.nexthops + ids| < UINT8_RANGE
    ensures var r' := WithHops(r, ids);
            r'.nexthops == r.nexthops + ids && r'.nNexthops == |r'.nexthops| && r'.referCnt == r.referCnt
  {
    assert r.nexthops + ids == r.nexthops + (ids - r.nexthops);
  }

  lemma SettleKeeps(r: Route)
    ensures Settle(r) == r.(rstate := Settle(r).rstate, nhEcmp := Settle(r).nhEcmp)
  {
  }

  lemma RemoteNhRemoveServes(s: State, s': State, p: Prefix, hops: seq<Id>)
    requires Counted(s) && RemoteNhRemoveStep(s, s', p, hops) && p in s.routes
    ensures var d := DemandOf(Routes(s), p); Changes(s, s', p, d.(hops := d.hops - Elems(hops)))
  {
    hide Shrunk, TableInv;
    var ids := Elems(hops);
    if !EarlyReturn(s, p, ids) {
      var mid :| Shrunk(s, mid, p, ids) && Released(mid, s', ids);
      hide Changes, Counted, EarlyReturn;
      StillAsked(s, p, ids);
      ShrunkRefer(s, mid, p, ids);
      ShrunkKept(s, mid, p, ids);
      ReleasedShape(mid, s', ids);
      Writes(s, s', p, Demand(s.routes[p].nexthops - ids, s.routes[p].referCnt));
    }
  }

  lemma StillAsked(s: State, p: Prefix, ids: set<Id>)
    requires Counted(s) && p in s.routes && !EarlyReturn(s, p, ids)
    ensures Demand(s.routes[p].nexthops - ids, s.routes[p].referCnt) != NO_DEMAND
    ensures s.routes[p].nNexthops == |s.routes[p].nexthops|
  {
    assert s.routes[p].nexthops <= (s.routes[p].nexthops - ids) + ids;
  }

  lemma ShrunkKept(s: State, mid: State, p: Prefix, ids: set<Id>)
    requires p in s.routes && |ids * s.routes[p].nexthops| <= s.routes[p].nNexthops && Shrunk(s, mid, p, ids)
    requires s.routes[p].nNexthops == |s.routes[p].nexthops|
    ensures mid.hwNeighbors == s.hwNeighbors && p in mid.routes && mid.routes[p].nNexthops == |mid.routes[p].nexthops|
  {
    hide Handles, Only, WithoutHops;
    WithoutCounts(s.routes[p], ids);
  }

  /** A step that dropped p's record and its hardware route. */
  lemma Drops(s: State, s': State, p: Prefix)
    requires s'.routes == s.routes - {p} && s'.hwRoutes == s.hwRoutes - {p} && s'.hwNeighbors == s.hwNeighbors
    ensures Changes(s, s', p, NO_DEMAND)
  {
  }

  lemma RouteRemoveServes(s: State, s': State, p: Prefix)
    requires Counted(s) && RouteRemoveStep(s, s', p) && p in s.routes
    ensures var d := DemandOf(Routes(s), p);
            Changes(s, s', p, if d.refs > 0 then d.(refs := d.refs - 1) else NO_DEMAND)
  {
    CountedAt(s, p);
    hide Released, Changes, Counted, Routes, DemandOf;
    var r := s.routes[p];
    if r.referCnt > 0 && (r.nNexthops > 0 || r.referCnt > 1) {
      Writes(s, s', p, Demand(r.nexthops, r.referCnt - 1));
    } else {
      if r.referCnt == 0 {
        ReleasedShape(WithoutRoute(s, p), s', r.nexthops);
      }
      Drops(s, s', p);
    }
  }

  lemma LocalAddServes(s: State, s': State, p: Prefix, rif: Rif)
    requires Counted(s) && Legal(s, LocalAdd(p, rif)) && LocalAddStep(s, s', p, rif)
    ensures var d := DemandOf(Routes(s), p); Changes(s, s', p, d.(refs := d.refs + 1))
  {
  }

  lemma NeighborServes(s: State, s': State, op: Op)
    requires op.NeighborCreate? || op.NeighborRemove?
    requires Step(s, s', op)
    ensures s'.routes == s.routes && s'.hwRoutes == s.hwRoutes
    ensures Neighbors(s') == if op.NeighborCreate? then Neighbors(s) + {(op.id, op.rif)} else Neighbors(s) - {(op.id, op.rif)}
  {
    hide TableInv;
  }

  /**
   Every legal call, tidy or not, does to the route table and the neighbors what was asked,
   and touches no other record and no other prefix in hardware.
   */
  lemma StepServes(s: State, s': State, op: Op)
    requires Counted(s) && Legal(s, op) && Step(s, s', op)
    ensures Counted(s') && Answer(s') == Serve(Answer(s), op)
    ensures forall q: Prefix :: !(!op.NeighborCreate? && !op.NeighborRemove? && op.p == q) ==>
              Lookup(s'.routes, q) == Lookup(s.routes, q) && Lookup(s'.hwRoutes, q) == Lookup(s.hwRoutes, q)
  {
    hide Counted, RemoteAddStep, RemoteNhRemoveStep, RouteRemoveStep, LocalAddStep, NeighborCreateStep, NeighborRemoveStep, Legal;
    match op
    case RemoteAdd(p, hops) =>
      if |hops| < SAI_NEXT_HOP_MAX {
        RemoteAddServes(s, s', p, hops);
        var d := DemandOf(Routes(s), p);
        ChangesServe(s, s', p, d.(hops := d.hops + Elems(hops)));
      } else {
        Refused(s, s', p, hops);
      }
    case RemoteNhRemove(p, hops) =>
      if p in s.routes {
        RemoteNhRemoveServes(s, s', p, hops);
        var d := DemandOf(Routes(s), p);
        ChangesServe(s, s', p, d.(hops := d.hops - Elems(hops)));
      } else {
        NothingThere(s, s', op);
      }
    case RouteRemove(p) =>
      if p in s.routes {
        RouteRemoveServes(s, s', p);
        var d := DemandOf(Routes(s), p);
        ChangesServe(s, s', p, if d.refs > 0 then d.(refs := d.refs - 1) else NO_DEMAND);
      } else {
        NothingThere(s, s', op);
      }
    case LocalAdd(p, rif) =>
      LocalAddServes(s, s', p, rif);
      var d := DemandOf(Routes(s), p);
      ChangesServe(s, s', p, d.(refs := d.refs + 1));
    case NeighborCreate(id, rif) => NeighborServes(s, s', op); SameCounts(s, s');
    case NeighborRemove(id, rif) => NeighborServes(s, s', op); SameCounts(s, s');
  }

  lemma SameCounts(s: State, s': State)
    requires Counted(s) && s'.routes == s.routes
    ensures Counted(s') && Routes(s') == Routes(s)
  {
  }

  lemma Refused(s: State, s': State, p: Prefix, hops: seq<Id>)
    requires RemoteAddStep(s, s', p, hops) && |hops| >= SAI_NEXT_HOP_MAX
    ensures s' == s
  {
  }

  lemma NothingThere(s: State, s': State, op: Op)
    requires (op.RemoteNhRemove? || op.RouteRemove?) && op.p !in s.routes && Step(s, s', op)
    ensures s' == s && Serve(Answer(s), op) == Answer(s)
  {
    assert op.RemoteNhRemove? ==> {} - Elems(op.hops) == {};
    assert Routes(s) - {op.p} == Routes(s);
  }

  // ------------------------------------------------------------------ runs

  /** The route table and the neighbors are a function of the calls, on every trace, tidy or not. */
  lemma {:induction false} TableIsRequested(states: seq<State>, ops: seq<Op>, n: nat)
    requires IsTrace(states, ops) && n < |states|
    ensures Counted(states[n]) && Answer(states[n]) == ServeAll(ops[..n])
  {
    hide Legal, Step, Counted, Answer, Serve;
    if n == 0 {
      InitServes();
    } else {
      TableIsRequested(states, ops, n - 1);
      StepServes(states[n - 1], states[n], ops[n - 1]);
      assert ops[..n][..n - 1] == ops[..n - 1];
    }
  }

  lemma InitServes()
    ensures Counted(Init()) && Answer(Init()) == Requested(map[], {})
  {
  }

  /** The next hops that the hardware forwards a prefix to, read off the hardware alone. */
  function HwHops(s: State, p: Prefix): set<Id> {
    if p !in s.hwRoutes || s.hwRoutes[p].ToInterface? then {}
    else
      var oid := s.hwRoutes[p].oid;
      if oid in s.hwNhs then {s.hwNhs[oid]}
      else if oid in s.hwGroups then set h | h in s.hwGroups[oid] && h in s.hwNhs :: s.hwNhs[h]
      else {}
  }

  lemma HopsOfHandles(s: State, ids: set<Id>)
    requires TableInv(s.nhs, s.hwNhs) && ids <= s.nhs.Keys
    ensures (set h | h in Handles(s.nhs, ids) && h in s.hwNhs :: s.hwNhs[h]) == ids
  {
    forall id | id in ids
      ensures id in (set h | h in Handles(s.nhs, ids) && h in s.hwNhs :: s.hwNhs[h])
    {
      assert s.nhs[id].handle in Handles(s.nhs, ids);
    }
  }

  lemma ForwardsToRecord(s: State, p: Prefix)
    requires Inv(s) && p in s.routes
    ensures p in s.hwRoutes && HwHops(s, p) == s.routes[p].nexthops
    ensures s.hwRoutes[p].ToInterface? <==> s.routes[p].nexthops == {}
  {
    hide RefInv, NeighborInv, OwnGroup;
    assert PrefixOk(s, p);
    HeldAreInTable(s, p);
    var r := s.routes[p];
    if r.nexthops != {} {
      if r.rstate.Ecmp? {
        HopsOfHandles(s, r.nexthops);
      } else {
        var id :| id in r.nexthops;
        SmallIsOne(r.nexthops, id);
      }
    }
  }

  lemma SmallIsOne<T>(ids: set<T>, id: T)
    requires id in ids && |ids| <= 1
    ensures ids == {id}
  {
    assert ids == (ids - {id}) + {id};
  }

  /**
   End to end, on every run of tidy calls: the prefixes in hardware are exactly those for
   which something has been asked and not taken back, and each forwards to exactly the next
   hops asked for it, or to an interface when there are none.
   */
  lemma HardwareIsRequested(states: seq<State>, ops: seq<Op>, n: nat, p: Prefix)
    requires IsRun(states, ops) && n < |states|
    ensures var (s, w) := (states[n], ServeAll(ops[..n]).routes);
            && (p in s.hwRoutes <==> p in w)
            && (p in w ==> HwHops(s, p) == w[p].hops && (s.hwRoutes[p].ToInterface? <==> w[p].hops == {}))
  {
    hide HwHops, Step, Legal, Tidy, Init;
    RunInv(states, ops, n);
    TableIsRequested(states, ops, n);
    var s := states[n];
    assert Routes(s) == ServeAll(ops[..n]).routes;
    if p in s.routes {
      ForwardsToRecord(s, p);
    }
    hide Inv;
    SamePrefixes(s);
  }

  lemma SamePrefixes(s: State)
    requires Inv(s)
    ensures s.hwRoutes.Keys == s.routes.Keys == Routes(s).Keys
  {
  }
}
