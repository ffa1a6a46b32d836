/**
 One run from power-up for each way in which routes, next hops and neighbors go wrong.
 */
module RouteExamples {
  import opened Options
  import opened RouteState
  import opened RouteProofs
  import opened RouteTheorems
  import opened RouteLeaks
  import opened RouteOrigins

  // ------------------------------------------------------------------ putting runs together

  ghost predicate Goes(s: State, s': State, op: Op) {
    Legal(s, op) && Step(s, s', op)
  }

  lemma TraceOfTwo(s1: State, s2: State, op1: Op, op2: Op)
    requires Goes(Init(), s1, op1) && Goes(s1, s2, op2)
    ensures IsTrace([Init(), s1, s2], [op1, op2])
    ensures Tidy(Init(), op1) && Tidy(s1, op2) ==> IsRun([Init(), s1, s2], [op1, op2])
  {
    hide Init, Step, Legal, Tidy;
    var states, ops := [Init(), s1, s2], [op1, op2];
    forall i | 0 <= i < 2 ensures Legal(states[i], ops[i]) && Step(states[i], states[i + 1], ops[i]) {
      assert i == 0 || i == 1;
    }
  }

  lemma TraceOfThree(s1: State, s2: State, s3: State, op1: Op, op2: Op, op3: Op)
    requires Goes(Init(), s1, op1) && Goes(s1, s2, op2) && Goes(s2, s3, op3)
    ensures IsTrace([Init(), s1, s2, s3], [op1, op2, op3])
    ensures Tidy(Init(), op1) && Tidy(s1, op2) && Tidy(s2, op3) ==> IsRun([Init(), s1, s2, s3], [op1, op2, op3])
  {
    hide Init, Step, Legal, Tidy;
    var states, ops := [Init(), s1, s2, s3], [op1, op2, op3];
    forall i | 0 <= i < 3 ensures Legal(states[i], ops[i]) && Step(states[i], states[i + 1], ops[i]) {
      assert i == 0 || i == 1 || i == 2;
    }
  }

  lemma OneOf(id: Id)
    ensures Elems([id]) == {id} && Only({id}) == id && NoDup([id])
  {
    assert [id][0] == id;
    OnlyIsAll({id});
  }

  lemma Pair()
    ensures Elems(["a", "b"]) == {"a", "b"} && NoDup(["a", "b"]) && |{"a", "b"}| == 2
  {
  }

  // ------------------------------------------------------------------ where the runs start

  /** After adding next hop "a" to prefix p. */
  function One(p: Prefix): State {
    State(map["a" := NhEntry(1, 1)], map[p := Route({"a"}, 1, 0, NonEcmp, 0)], map[],
          map[1 := "a"], map[], map[p := ToNextHop(1)], map[], 2)
  }

  lemma OneAcquired(mid: State)
    requires mid == Init().(nhs := map["a" := NhEntry(1, 1)], hwNhs := map[1 := "a"], nextOid := 2)
    ensures Acquired(Init(), mid, {"a"})
  {
  }

  lemma OneStep(p: Prefix)
    ensures Goes(Init(), One(p), RemoteAdd(p, ["a"])) && Tidy(Init(), RemoteAdd(p, ["a"])) && Inv(One(p))
  {
    hide Inv, Acquired, Elems, NoDup;
    OneOf("a");
    var mid := Init().(nhs := map["a" := NhEntry(1, 1)], hwNhs := map[1 := "a"], nextOid := 2);
    OneAcquired(mid);
    assert Installed(mid, One(p), p, {"a"}, 0);
    InitInv();
    StepInv(Init(), One(p), RemoteAdd(p, ["a"]));
  }

  /** After adding "a" and "b" at once. */
  function Two(p: Prefix): State {
    State(map["a" := NhEntry(1, 1), "b" := NhEntry(1, 2)], map[p := Route({"a", "b"}, 2, 0, Ecmp, 3)], map[],
          map[1 := "a", 2 := "b"], map[3 := {1, 2}], map[p := ToNextHop(3)], map[], 4)
  }

  lemma TwoAcquired(mid: State)
    requires mid == Init().(nhs := map["a" := NhEntry(1, 1), "b" := NhEntry(1, 2)], hwNhs := map[1 := "a", 2 := "b"],
                            nextOid := 3)
    ensures Acquired(Init(), mid, {"a", "b"}) && Handles(mid.nhs, {"a", "b"}) == {1, 2}
  {
  }

  lemma TwoStep(p: Prefix)
    ensures Goes(Init(), Two(p), RemoteAdd(p, ["a", "b"])) && Tidy(Init(), RemoteAdd(p, ["a", "b"]))
  {
    hide Acquired, Handles, Elems, NoDup;
    Pair();
    var mid := Init().(nhs := map["a" := NhEntry(1, 1), "b" := NhEntry(1, 2)], hwNhs := map[1 := "a", 2 := "b"], nextOid := 3);
    TwoAcquired(mid);
    assert InstalledGroup(mid, Two(p), p, {"a", "b"}, 0);
  }

  // ------------------------------------------------------------------ an overlapping addition

  function Overlapped(p: Prefix): State {
    One(p).(routes := map[p := Route({"a", "b"}, 2, 0, Ecmp, 0)])
  }

  lemma OverlapStep(p: Prefix)
    ensures Goes(One(p), Overlapped(p), RemoteAdd(p, ["a", "b"])) && !Tidy(One(p), RemoteAdd(p, ["a", "b"]))
  {
    hide Elems, NoDup, Acquired, Grown;
    Pair();
    assert {"a"} + {"a", "b"} == {"a", "b"} && {"a", "b"} - {"a"} == {"b"};
    assert One(p).routes[p := Route({"a", "b"}, 2, 0, Ecmp, 0)] == Overlapped(p).routes;
    assert "a" in {"a", "b"} && "b" !in {"a"};
  }

  /** "a", then "a" and "b": the record has two next hops, the hardware only the first, and "b" is unknown. */
  lemma OverlapRun(p: Prefix) returns (states: seq<State>, ops: seq<Op>)
    ensures ops == [RemoteAdd(p, ["a"]), RemoteAdd(p, ["a", "b"])] && IsTrace(states, ops)
    ensures var s := states[2];
            && !Inv(s) && p in s.routes && s.routes[p].nexthops == {"a", "b"} && s.routes[p].rstate.Ecmp?
            && p in s.hwRoutes && s.hwRoutes[p] == ToNextHop(1) && "b" !in s.nhs && s.hwGroups == map[]
  {
    hide Inv, Step, Legal, Tidy, IsTrace;
    ops := [RemoteAdd(p, ["a"]), RemoteAdd(p, ["a", "b"])];
    states := [Init(), One(p), Overlapped(p)];
    OneStep(p);
    OverlapStep(p);
    TraceOfTwo(One(p), Overlapped(p), ops[0], ops[1]);
    CoherentIffTidy(One(p), Overlapped(p), ops[1]);
  }

  // ------------------------------------------------------------------ leaks

  lemma WithdrawnEarly(s: State, p: Prefix, hops: seq<Id>)
    requires NoDup(hops) && EarlyReturn(s, p, Elems(hops))
    ensures Goes(s, s.(routes := s.routes - {p}, hwRoutes := s.hwRoutes - {p}), RemoteNhRemove(p, hops))
    ensures Tidy(s, RemoteNhRemove(p, hops))
  {
  }

  /** "a" is added and withdrawn: the early return leaves its next hop counted and used by nobody. */
  lemma EarlyReturnRun(p: Prefix) returns (states: seq<State>, ops: seq<Op>)
    ensures ops == [RemoteAdd(p, ["a"]), RemoteNhRemove(p, ["a"])] && IsRun(states, ops)
    ensures var s := states[2];
            && s.routes == map[] && s.hwNeighbors == map[]
            && s.nhs == map["a" := NhEntry(1, 1)] && s.hwNhs == map[1 := "a"] && !RefExact(s)
  {
    hide Inv, Step, Legal, Tidy, IsRun, NoDup, Elems;
    ops := [RemoteAdd(p, ["a"]), RemoteNhRemove(p, ["a"])];
    OneStep(p);
    OneOf("a");
    var s := One(p);
    WithdrawnEarly(s, p, ["a"]);
    var s' := s.(routes := s.routes - {p}, hwRoutes := s.hwRoutes - {p});
    states := [Init(), s, s'];
    TraceOfTwo(s, s', ops[0], ops[1]);
    assert s.routes - {p} == map[] && Holders(map[], "a") == {};
    assert "a" in s'.nhs;
  }

  /** "a" and "b" are added and withdrawn together: their group stays in hardware. */
  lemma GroupRun(p: Prefix) returns (states: seq<State>, ops: seq<Op>)
    ensures ops == [RemoteAdd(p, ["a", "b"]), RemoteNhRemove(p, ["a", "b"])] && IsRun(states, ops)
    ensures var s := states[2]; s.routes == map[] && s.hwGroups == map[3 := {1, 2}] && !GroupExact(s)
  {
    hide Inv, Step, Legal, Tidy, IsRun, NoDup, Elems;
    ops := [RemoteAdd(p, ["a", "b"]), RemoteNhRemove(p, ["a", "b"])];
    TwoStep(p);
    Pair();
    var s := Two(p);
    WithdrawnEarly(s, p, ["a", "b"]);
    var s' := s.(routes := s.routes - {p}, hwRoutes := s.hwRoutes - {p});
    states := [Init(), s, s'];
    TraceOfTwo(s, s', ops[0], ops[1]);
    assert s.routes - {p} == map[] && 3 in s'.hwGroups;
  }

  /** A neighbor with its next hop counted `ref` times, after so many creates not undone. */
  function Neighbor(ref: nat, rifs: set<Rif>): State {
    State(map["a" := NhEntry(ref, 1)], map[], map["a" := ref], map[1 := "a"], map[], map[], map["a" := rifs], 2)
  }

  lemma CreatedOnce(rif: Rif)
    ensures Step(Init(), Neighbor(1, {rif}), NeighborCreate("a", rif))
  {
    var mid := Init().(nhs := map["a" := NhEntry(1, 1)], hwNhs := map[1 := "a"], nextOid := 2);
    assert Acquired(Init(), mid, {"a"});
    assert {} + {rif} == {rif};
    assert WithNeighbor(mid, "a", rif) == Neighbor(1, {rif});
  }

  lemma CreatedAgain(rif: Rif)
    ensures Step(Neighbor(1, {rif}), Neighbor(2, {rif}), NeighborCreate("a", rif))
  {
    var s := Neighbor(1, {rif});
    var mid := s.(nhs := map["a" := NhEntry(2, 1)]);
    assert Acquired(s, mid, {"a"});
    assert {rif} + {rif} == {rif};
    assert WithNeighbor(mid, "a", rif) == Neighbor(2, {rif});
  }

  lemma RemovedOnce(rif: Rif)
    ensures Step(Neighbor(2, {rif}), Neighbor(1, {}), NeighborRemove("a", rif))
    ensures Step(Neighbor(1, {}), Neighbor(1, {}), NeighborRemove("a", rif))
  {
    var s := Neighbor(2, {rif});
    assert {rif} - {rif} == {};
    assert Released(WithoutNeighbor(s, "a", rif), Neighbor(1, {}), {"a"});
  }

  /** A neighbor created twice and removed once: its next hop stays counted, and no further removal does anything. */
  lemma RepeatedNeighborRun(rif: Rif) returns (states: seq<State>, ops: seq<Op>)
    ensures ops == [NeighborCreate("a", rif), NeighborCreate("a", rif), NeighborRemove("a", rif)] && IsRun(states, ops)
    ensures var s := states[3];
            && s.routes == map[] && NeighborRifs(s, "a") == {} && !RefExact(s)
            && s.nhs == map["a" := NhEntry(1, 1)] && s.hwNhs == map[1 := "a"]
            && Step(s, s, NeighborRemove("a", rif))
  {
    hide Step, IsRun;
    ops := [NeighborCreate("a", rif), NeighborCreate("a", rif), NeighborRemove("a", rif)];
    states := [Init(), Neighbor(1, {rif}), Neighbor(2, {rif}), Neighbor(1, {})];
    CreatedOnce(rif);
    CreatedAgain(rif);
    RemovedOnce(rif);
    TraceOfThree(Neighbor(1, {rif}), Neighbor(2, {rif}), Neighbor(1, {}), ops[0], ops[1], ops[2]);
    assert Holders(map[], "a") == {} && "a" in Neighbor(1, {}).nhs;
  }

  // ------------------------------------------------------------------ withdrawing another route's next hop

  /** Route p has "a", route q has "b". */
  function Both(p: Prefix, q: Prefix): State {
    State(map["a" := NhEntry(1, 1), "b" := NhEntry(1, 2)],
          map[p := Route({"a"}, 1, 0, NonEcmp, 0), q := Route({"b"}, 1, 0, NonEcmp, 0)], map[],
          map[1 := "a", 2 := "b"], map[], map[p := ToNextHop(1), q := ToNextHop(2)], map[], 3)
  }

  lemma BothAcquired(p: Prefix, mid: State)
    requires mid == One(p).(nhs := map["a" := NhEntry(1, 1), "b" := NhEntry(1, 2)], hwNhs := map[1 := "a", 2 := "b"],
                            nextOid := 3)
    ensures Acquired(One(p), mid, {"b"})
  {
  }

  lemma BothStep(p: Prefix, q: Prefix)
    requires p != q
    ensures Goes(One(p), Both(p, q), RemoteAdd(q, ["b"])) && Tidy(One(p), RemoteAdd(q, ["b"]))
  {
    hide Acquired, Elems, NoDup;
    OneOf("b");
    var s := One(p);
    var mid := s.(nhs := Both(p, q).nhs, hwNhs := map[1 := "a", 2 := "b"], nextOid := 3);
    BothAcquired(p, mid);
    assert Installed(mid, Both(p, q), q, {"b"}, 0);
  }

  /** What withdrawing "b" from p leaves: q still forwards to a next hop that is gone. */
  function Orphaned(p: Prefix, q: Prefix): State {
    Both(p, q).(nhs := map["a" := NhEntry(1, 1)], hwNhs := map[1 := "a"])
  }

  lemma BothShrunk(p: Prefix, q: Prefix)
    requires p != q
    ensures var s := Both(p, q); |{"b"} * s.routes[p].nexthops| <= s.routes[p].nNexthops && Shrunk(s, s, p, {"b"})
  {
    OneOf("a");
    var s := Both(p, q);
    assert {"b"} * {"a"} == {} && {"a"} - {"b"} == {"a"};
    assert WithoutHops(s.routes[p], {"b"}) == s.routes[p];
    assert s.routes[p := s.routes[p]] == s.routes && s.hwRoutes[p := s.hwRoutes[p]] == s.hwRoutes;
  }

  lemma OrphanStep(p: Prefix, q: Prefix)
    requires p != q
    ensures Goes(Both(p, q), Orphaned(p, q), RemoteNhRemove(p, ["b"]))
  {
    hide Shrunk;
    OneOf("b");
    BothShrunk(p, q);
    assert "a" !in {"b"};
    assert Released(Both(p, q), Orphaned(p, q), {"b"});
  }

  /** Route p withdraws "b", which only route q has: q's next hop is gone from table and hardware. */
  lemma ForeignWithdrawalRun(p: Prefix, q: Prefix) returns (states: seq<State>, ops: seq<Op>)
    requires p != q
    ensures ops == [RemoteAdd(p, ["a"]), RemoteAdd(q, ["b"]), RemoteNhRemove(p, ["b"])] && IsTrace(states, ops)
    ensures var s := states[3];
            && !Inv(s) && q in s.routes && s.routes[q].nexthops == {"b"} && q in s.hwRoutes
            && s.hwRoutes[q] == ToNextHop(2) && "b" !in s.nhs && 2 !in s.hwNhs
  {
    hide Step, Legal, Tidy, IsTrace, Inv;
    ops := [RemoteAdd(p, ["a"]), RemoteAdd(q, ["b"]), RemoteNhRemove(p, ["b"])];
    states := [Init(), One(p), Both(p, q), Orphaned(p, q)];
    OneStep(p);
    BothStep(p, q);
    OrphanStep(p, q);
    TraceOfThree(One(p), Both(p, q), Orphaned(p, q), ops[0], ops[1], ops[2]);
    HeldIsReferenced(Orphaned(p, q), q, "b");
    RefsOf(Orphaned(p, q));
  }

  // ------------------------------------------------------------------ the restored interface

  /** An interface route, before and after an overlay. */
  function Local(p: Prefix, rif: Rif, nextOid: Handle): State {
    State(map[], map[p := Route({}, 0, 1, NonEcmp, 0)], map[], map[], map[], map[p := ToInterface(rif)], map[], nextOid)
  }

  function Overlaid(p: Prefix): State {
    One(p).(routes := map[p := Route({"a"}, 1, 1, NonEcmp, 0)])
  }

  lemma LocalStep(p: Prefix, rif: Rif)
    ensures Goes(Init(), Local(p, rif, 1), LocalAdd(p, rif)) && Tidy(Init(), LocalAdd(p, rif))
  {
  }

  lemma OverlayStep(p: Prefix, rif: Rif)
    ensures Goes(Local(p, rif, 1), Overlaid(p), RemoteAdd(p, ["a"])) && Tidy(Local(p, rif, 1), RemoteAdd(p, ["a"]))
  {
    hide Elems, NoDup;
    OneOf("a");
    var s := Local(p, rif, 1);
    var mid := s.(nhs := map["a" := NhEntry(1, 1)], hwNhs := map[1 := "a"], nextOid := 2);
    assert Acquired(s, mid, {"a"});
    assert mid.routes[p := Route({"a"}, 1, 1, NonEcmp, 0)] == Overlaid(p).routes;
    assert mid.hwRoutes[p := ToNextHop(1)] == Overlaid(p).hwRoutes;
    assert Installed(mid, Overlaid(p), p, {"a"}, 1);
    assert {} + {"a"} == {"a"};
  }

  lemma OverlayShrunk(p: Prefix, mid: State)
    requires mid == Local(p, DEFAULT_RIF, 2).(nhs := map["a" := NhEntry(1, 1)], hwNhs := map[1 := "a"])
    ensures var s := Overlaid(p);
            |{"a"} * s.routes[p].nexthops| <= s.routes[p].nNexthops && Shrunk(s, mid, p, {"a"})
  {
    var s := Overlaid(p);
    assert {"a"} * {"a"} == {"a"} && {"a"} - {"a"} == {};
    assert s.routes[p := Route({}, 0, 1, NonEcmp, 0)] == mid.routes;
    assert s.hwRoutes[p := ToInterface(DEFAULT_RIF)] == mid.hwRoutes;
  }

  lemma RestoreStep(p: Prefix)
    ensures Goes(Overlaid(p), Local(p, DEFAULT_RIF, 2), RemoteNhRemove(p, ["a"]))
    ensures Tidy(Overlaid(p), RemoteNhRemove(p, ["a"]))
  {
    hide Shrunk;
    OneOf("a");
    var mid := Local(p, DEFAULT_RIF, 2).(nhs := map["a" := NhEntry(1, 1)], hwNhs := map[1 := "a"]);
    OverlayShrunk(p, mid);
    assert Released(mid, Local(p, DEFAULT_RIF, 2), {"a"});
  }

  /** An interface route is overlaid and the overlay withdrawn: it goes to the default interface. */
  lemma RestoredInterfaceRun(p: Prefix, rif: Rif) returns (states: seq<State>, ops: seq<Op>)
    ensures ops == [LocalAdd(p, rif), RemoteAdd(p, ["a"]), RemoteNhRemove(p, ["a"])] && IsRun(states, ops)
    ensures p in states[1].hwRoutes && states[1].hwRoutes[p] == ToInterface(rif)
    ensures p in states[3].routes && p in states[3].hwRoutes && states[3].hwRoutes[p] == ToInterface(DEFAULT_RIF)
    ensures Origin(states, ops, 3, p) == Some(rif) && Emptied(states, ops, 3, p)
  {
    hide Step, Legal, Tidy, IsRun;
    ops := [LocalAdd(p, rif), RemoteAdd(p, ["a"]), RemoteNhRemove(p, ["a"])];
    states := [Init(), Local(p, rif, 1), Overlaid(p), Local(p, DEFAULT_RIF, 2)];
    LocalStep(p, rif);
    OverlayStep(p, rif);
    RestoreStep(p);
    TraceOfThree(Local(p, rif, 1), Overlaid(p), Local(p, DEFAULT_RIF, 2), ops[0], ops[1], ops[2]);
    assert Origin(states, ops, 1, p) == Some(rif);
    assert Origin(states, ops, 2, p) == Some(rif);
  }
}
