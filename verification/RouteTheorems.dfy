/**
 The main results on routes, next hops and neighbors: which operations keep the tables and
 the hardware coherent, and what holds in every state of every run.
 */
module RouteTheorems {
  import opened Options
  import opened RouteState
  import opened RouteProofs

  // ------------------------------------------------------------------ coherence

  lemma StepInv(s: State, s': State, op: Op)
    requires Inv(s) && Legal(s, op) && Tidy(s, op) && Step(s, s', op)
    ensures Inv(s')
  {
    hide Inv, Legal, Tidy;
    match op
    case RemoteAdd(p, hops) => RemoteAddInv(s, s', p, hops);
    case RemoteNhRemove(p, hops) => RemoteNhRemoveInv(s, s', p, hops);
    case RouteRemove(p) => RouteRemoveInv(s, s', p);
    case LocalAdd(p, rif) => LocalAddInv(s, s', p, rif);
    case NeighborCreate(id, rif) => NeighborCreateInv(s, s', id, rif);
    case NeighborRemove(id, rif) => NeighborRemoveInv(s, s', id, rif);
  }

  /** The record gains next hops that its target in hardware does not have. */
  lemma OverlapMisprograms(s: State, s': State, p: Prefix, ids: set<Id>, held: Id, added: Id)
    requires TableInv(s.nhs, s.hwNhs) && OidInv(s) && PrefixOk(s, p) && |s.routes[p].nexthops + ids| < UINT8_RANGE
    requires held in ids && held in s.routes[p].nexthops && added in ids && added !in s.routes[p].nexthops
    requires held in s.nhs && added in s.nhs
    requires s' == s.(routes := s.routes[p := Settle(WithHops(s.routes[p], ids))])
    ensures !PrefixOk(s', p)
  {
    hide TableInv, OidInv, Handles;
    var r, r' := s.routes[p], s'.routes[p];
    MoreThanOne(r'.nexthops, held, added);
    if IsEcmp(r) {
      HandleIsNew(s, r.nexthops, added);
      HandleIsIn(s, r'.nexthops, added);
    } else {
      assert s.hwRoutes[p] == ToNextHop(s.nhs[held].handle);
      NotAGroup(s, held);
    }
  }

  lemma NotAGroup(s: State, id: Id)
    requires TableInv(s.nhs, s.hwNhs) && OidInv(s) && id in s.nhs
    ensures s.nhs[id].handle !in s.hwGroups
  {
  }

  lemma HandleIsIn(s: State, ids: set<Id>, id: Id)
    requires id in s.nhs && id in ids
    ensures s.nhs[id].handle in Handles(s.nhs, ids)
  {
  }

  /** A list that overlaps the route's next hops without being contained in them breaks it. */
  lemma OverlapBreaks(s: State, s': State, p: Prefix, ids: set<Id>, held: Id, added: Id)
    requires Inv(s) && p in s.routes && |s.routes[p].nexthops + ids| < UINT8_RANGE
    requires held in ids && held in s.routes[p].nexthops && added in ids && added !in s.routes[p].nexthops
    requires s' == s.(routes := s.routes[p := Settle(WithHops(s.routes[p], ids))])
    ensures !Inv(s')
  {
    hide NeighborInv, OwnGroup, TableInv, OidInv, PrefixOk;
    HeldIsReferenced(s', p, added);
    HeldIsReferenced(s, p, held);
    if added in s.nhs {
      OverlapMisprograms(s, s', p, ids, held, added);
    }
  }

  lemma HandleIsNew(s: State, ids: set<Id>, id: Id)
    requires TableInv(s.nhs, s.hwNhs) && id in s.nhs && id !in ids
    ensures s.nhs[id].handle !in Handles(s.nhs, ids)
  {
    forall other | other in ids && other in s.nhs ensures s.nhs[other].handle != s.nhs[id].handle {
      assert s.hwNhs[s.nhs[other].handle] == other;
    }
  }

  lemma MoreThanOne<T>(ids: set<T>, a: T, b: T)
    requires a in ids && b in ids && a != b
    ensures |ids| > 1
  {
    assert ids == (ids - {a}) + {a};
    assert b in ids - {a};
  }

  /**
   Coherence is kept exactly by tidy operations: an addition whose next hops partly overlap
   the route's leaves the record and the hardware disagreeing, and a withdrawal of a next hop
   that only others use takes it from under them.
   */
  lemma CoherentIffTidy(s: State, s': State, op: Op)
    requires Inv(s) && Legal(s, op) && Step(s, s', op)
    ensures Inv(s') <==> Tidy(s, op)
  {
    hide Inv;
    if Tidy(s, op) {
      StepInv(s, s', op);
    } else if op.RemoteNhRemove? {
      var p, ids := op.p, Elems(op.hops);
      var mid :| Shrunk(s, mid, p, ids) && Released(mid, s', ids);
      var id :| id in ids && id !in s.routes[p].nexthops && id in s.nhs && s.nhs[id].ref <= Refs(s, id);
      ForeignRelease(s, mid, s', p, ids, id);
      RefsOf(s');
    } else {
      var p, ids := op.p, Elems(op.hops);
      var held :| held in ids && held in s.routes[p].nexthops;
      var added :| added in ids && added !in s.routes[p].nexthops;
      NotEmptyCounts(s, p, held);
      OverlapBreaks(s, s', p, ids, held, added);
    }
  }

  lemma RefsOf(s: State)
    ensures Inv(s) ==> RefInv(s)
  {
  }

  lemma NotEmptyCounts(s: State, p: Prefix, id: Id)
    requires Inv(s) && p in s.routes && id in s.routes[p].nexthops
    ensures s.routes[p].nNexthops > 0
  {
    assert PrefixOk(s, p);
  }

  // ------------------------------------------------------------------ no next hop dangles

  /** The hardware next hops an operation removes belong to nobody in the state it leaves. */
  lemma RemovedNextHopIsUnused(s: State, s': State, op: Op, h: Handle)
    requires Inv(s) && Legal(s, op) && Tidy(s, op) && Step(s, s', op)
    requires h in s.hwNhs && h !in s'.hwNhs
    ensures Refs(s', s.hwNhs[h]) == 0
    ensures forall p :: p in s'.routes ==> s.hwNhs[h] !in s'.routes[p].nexthops
  {
    hide RouteInv, NeighborInv, Legal, Tidy, Holders;
    StepInv(s, s', op);
    var id := s.hwNhs[h];
    if id in s'.nhs {
      StableHandle(s, s', op, id);
    }
    forall p | p in s'.routes ensures id !in s'.routes[p].nexthops {
      if id in s'.routes[p].nexthops {
        HeldIsReferenced(s', p, id);
      }
    }
  }

  /** A next hop that stays in the table keeps its hardware handle. */
  lemma StableHandle(s: State, s': State, op: Op, id: Id)
    requires Step(s, s', op) && id in s.nhs && id in s'.nhs
    ensures s'.nhs[id].handle == s.nhs[id].handle
  {
    hide TableInv, Handles, Installed, Grown, Shrunk;
    match op
    case RemoteAdd(p, hops) =>
      var ids := Elems(hops);
      if mid, referCnt :| Acquired(s, mid, ids) && Installed(mid, s', p, ids, referCnt) {
        InstalledTable(mid, s', p, ids, referCnt);
      } else if mid :| Acquired(s, mid, ids) && Grown(mid, s', p, ids) {
        GrownTable(mid, s', p, ids);
      }
    case RemoteNhRemove(p, hops) =>
      if p in s.routes && !EarlyReturn(s, p, Elems(hops)) {
        var mid :| Shrunk(s, mid, p, Elems(hops)) && Released(mid, s', Elems(hops));
        ShrunkTable(s, mid, p, Elems(hops));
      }
    case _ =>
  }

  lemma InstalledTable(mid: State, s': State, p: Prefix, ids: set<Id>, referCnt: nat)
    requires Installed(mid, s', p, ids, referCnt)
    ensures s'.nhs == mid.nhs
  {
  }

  lemma GrownTable(mid: State, s': State, p: Prefix, ids: set<Id>)
    requires Grown(mid, s', p, ids)
    ensures s'.nhs == mid.nhs
  {
  }

  lemma ShrunkTable(s: State, mid: State, p: Prefix, ids: set<Id>)
    requires p in s.routes && |ids * s.routes[p].nexthops| <= s.routes[p].nNexthops
    requires Shrunk(s, mid, p, ids)
    ensures mid.nhs == s.nhs
  {
  }

  // ------------------------------------------------------------------ runs

  /** Before any call: empty tables and empty hardware. */
  function Init(): State {
    State(map[], map[], map[], map[], map[], map[], map[], 1)
  }

  /** States reached one after the other by legal operations. */
  ghost predicate IsTrace(states: seq<State>, ops: seq<Op>) {
    && |states| == |ops| + 1 && states[0] == Init()
    && forall i :: 0 <= i < |ops| ==> Legal(states[i], ops[i]) && Step(states[i], states[i + 1], ops[i])
  }

  /** A trace of tidy operations. */
  ghost predicate IsRun(states: seq<State>, ops: seq<Op>) {
    IsTrace(states, ops) && forall i :: 0 <= i < |ops| ==> Tidy(states[i], ops[i])
  }

  lemma InitInv()
    ensures Inv(Init()) && CreatesExact(Init()) && RefExact(Init()) && GroupExact(Init())
  {
    assert forall id :: Holders(Init().routes, id) == {};
  }

  lemma {:induction false} RunInv(states: seq<State>, ops: seq<Op>, n: nat)
    requires IsRun(states, ops) && n < |states|
    ensures Inv(states[n])
  {
    hide Inv, Legal, Tidy, Step, Init;
    if n == 0 {
      InitInv();
    } else {
      RunInv(states, ops, n - 1);
      StepInv(states[n - 1], states[n], ops[n - 1]);
    }
  }

  /**
   Hardware refines the route table, in every state of every run: the hardware prefixes are
   exactly the records, and each goes to an interface when it has no next hop, to its next
   hop's handle when it has one, and to its own group of exactly its next hops' handles
   when it has more, however interface routes were overlaid and restored.
   */
  lemma HardwareRefinesRoutes(states: seq<State>, ops: seq<Op>, n: nat, p: Prefix)
    requires IsRun(states, ops) && n < |states|
    ensures var s := states[n];
            && (p in s.hwRoutes <==> p in s.routes)
            && (p in s.routes ==>
                  var r := s.routes[p];
                  && r.nNexthops == |r.nexthops|
                  && (r.nNexthops > 0 || r.referCnt > 0)
                  && r.nexthops <= s.nhs.Keys
                  && (|r.nexthops| == 0 ==> s.hwRoutes[p].ToInterface?)
                  && (|r.nexthops| == 1 ==> s.hwRoutes[p].ToNextHop? && Handles(s.nhs, r.nexthops) == {s.hwRoutes[p].oid})
                  && (|r.nexthops| > 1 ==>
                        s.hwRoutes[p] == ToNextHop(r.nhEcmp) && r.nhEcmp in s.hwGroups
                        && s.hwGroups[r.nhEcmp] == Handles(s.nhs, r.nexthops)))
  {
    RunInv(states, ops, n);
    var s := states[n];
    if p in s.routes {
      assert PrefixOk(s, p);
      HeldAreInTable(s, p);
      if |s.routes[p].nexthops| == 1 {
        OnlyIsAll(s.routes[p].nexthops);
        var id := Only(s.routes[p].nexthops);
        assert Handles(s.nhs, {id}) == {s.nhs[id].handle};
      }
    }
  }

  /** No dangling next hop, in every state of every run mixing routes and neighbors. */
  lemma NoDanglingNextHop(states: seq<State>, ops: seq<Op>, n: nat, id: Id)
    requires IsRun(states, ops) && n < |states|
    ensures var s := states[n];
            && (Refs(s, id) > 0 ==> id in s.nhs)
            && (id in s.nhs ==>
                  && s.nhs[id].ref >= Refs(s, id)
                  && s.nhs[id].handle in s.hwNhs && s.hwNhs[s.nhs[id].handle] == id)
  {
    RunInv(states, ops, n);
  }
}
