/**
 The imperative route and neighbor code over its global tables and the SAI objects it
 creates and removes. Every public method is proved to take one of the steps of RouteState.
 */
module RouteTables {
  import opened Options
  import opened RouteState
  import opened RouteProofs
  import opened RouteTheorems

  /** The SAI next-hop, group, route and neighbor objects; calls succeed with fresh handles. */
  class Sai {
    var nextHops: map<Handle, Id>
    var groups: map<Handle, set<Handle>>
    var routes: map<Prefix, Target>
    var neighbors: map<Id, set<Rif>>
    var nextOid: Handle

    constructor ()
      ensures nextHops == map[] && groups == map[] && routes == map[] && neighbors == map[] && nextOid == 1
    {
      nextHops, groups, routes, neighbors, nextOid := map[], map[], map[], map[], 1;
    }

    method CreateNextHop(id: Id) returns (nhid: Handle)
      modifies this`nextHops, this`nextOid
      ensures nhid == old(nextOid) && nextOid == nhid + 1
      ensures nextHops == old(nextHops)[nhid := id]
    {
      nhid := nextOid;
      nextOid := nextOid + 1;
      nextHops := nextHops[nhid := id];
    }

    method RemoveNextHop(nhid: Handle)
      modifies this`nextHops
      ensures nextHops == old(nextHops) - {nhid}
    {
      nextHops := nextHops - {nhid};
    }

    method CreateGroup(members: set<Handle>) returns (gid: Handle)
      modifies this`groups, this`nextOid
      ensures gid == old(nextOid) && nextOid == gid + 1
      ensures groups == old(groups)[gid := members]
    {
      gid := nextOid;
      nextOid := nextOid + 1;
      groups := groups[gid := members];
    }

    method RemoveGroup(gid: Handle)
      modifies this`groups
      ensures groups == old(groups) - {gid}
    {
      groups := groups - {gid};
    }

    method AddNextHopToGroup(gid: Handle, nhid: Handle)
      modifies this`groups
      ensures groups == if gid in old(groups) then old(groups)[gid := old(groups)[gid] + {nhid}] else old(groups)
    {
      if gid in groups {
        groups := groups[gid := groups[gid] + {nhid}];
      }
    }

    method RemoveNextHopFromGroup(gid: Handle, nhid: Handle)
      modifies this`groups
      ensures groups == if gid in old(groups) then old(groups)[gid := old(groups)[gid] - {nhid}] else old(groups)
    {
      if gid in groups {
        groups := groups[gid := groups[gid] - {nhid}];
      }
    }

    /** create_route and set_route_attribute: either way the prefix forwards to the target. */
    method SetRoute(p: Prefix, target: Target)
      modifies this`routes
      ensures routes == old(routes)[p := target]
    {
      routes := routes[p := target];
    }

    method RemoveRoute(p: Prefix)
      modifies this`routes
      ensures routes == old(routes) - {p}
    {
      routes := routes - {p};
    }

    method CreateNeighbor(id: Id, rif: Rif)
      modifies this`neighbors
      ensures neighbors == old(neighbors)[id := (if id in old(neighbors) then old(neighbors)[id] else {}) + {rif}]
    {
      neighbors := neighbors[id := (if id in neighbors then neighbors[id] else {}) + {rif}];
    }

    /** Fails on a neighbor that is not there. */
    method RemoveNeighbor(id: Id, rif: Rif) returns (ok: bool)
      modifies this`neighbors
      ensures ok <==> id in old(neighbors) && rif in old(neighbors)[id]
      ensures neighbors == if ok then old(neighbors)[id := old(neighbors)[id] - {rif}] else old(neighbors)
    {
      ok := id in neighbors && rif in neighbors[id];
      if ok {
        neighbors := neighbors[id := neighbors[id] - {rif}];
      }
    }
  }

  lemma AcquiredAlso(s: State, mid: State, s': State, ids: set<Id>, id: Id)
    requires Acquired(s, mid, ids) && Acquired(mid, s', {id}) && id !in ids
    ensures Acquired(s, s', ids + {id})
  {
  }

  /** The later of two writes to a key is the one that stays. */
  lemma LastWrite<K, V>(m: map<K, V>, k: K, v: V, v': V)
    ensures m[k := v][k := v'] == m[k := v']
  {
  }

  lemma AcquiredKeys(s: State, s': State, ids: set<Id>)
    requires Acquired(s, s', ids)
    ensures ids <= s'.nhs.Keys
  {
  }

  lemma MakeInstalledGroup(s: State, s': State, p: Prefix, r: Route)
    requires 1 < r.nNexthops == |r.nexthops| < UINT8_RANGE
    requires s'.routes == s.routes[p := r.(nhEcmp := s.nextOid)][p := Settle(r.(nhEcmp := s.nextOid))]
    requires s'.hwGroups == s.hwGroups[s.nextOid := Handles(s.nhs, r.nexthops)]
    requires s'.hwRoutes == s.hwRoutes[p := ToNextHop(s.nextOid)]
    requires s' == s.(routes := s'.routes, hwGroups := s'.hwGroups, hwRoutes := s'.hwRoutes, nextOid := s.nextOid + 1)
    ensures InstalledGroup(s, s', p, r.nexthops, r.referCnt)
  {
    LastWrite(s.routes, p, r.(nhEcmp := s.nextOid), s'.routes[p]);
  }

  lemma ReleasedElsewhere(s: State, s': State, ids: set<Id>, routes: map<Prefix, Route>)
    requires Released(s, s', ids)
    ensures Released(s.(routes := routes), s'.(routes := routes), ids)
  {
  }

  /** What an installation writes into the record hides what was there. */
  lemma InstalledElsewhere(s: State, mid: State, s': State, p: Prefix, rec: Route, ids: set<Id>, referCnt: nat)
    requires Acquired(s.(routes := s.routes[p := rec]), mid, ids) && Installed(mid, s', p, ids, referCnt)
    ensures Acquired(s, mid.(routes := s.routes), ids)
    ensures Installed(mid.(routes := s.routes), s', p, ids, referCnt)
  {
    hide TableInv, Handles;
    LastWrite(s.routes, p, rec, s'.routes[p]);
    assert s.(routes := s.routes[p := rec]).(routes := s.routes) == s;
    AcquiredElsewhere(s.(routes := s.routes[p := rec]), mid, ids, s.routes);
  }

  /** Taking references has nothing to do with what the records say. */
  lemma AcquiredElsewhere(s: State, s': State, ids: set<Id>, routes: map<Prefix, Route>)
    requires Acquired(s, s', ids)
    ensures Acquired(s.(routes := routes), s'.(routes := routes), ids)
  {
  }

  lemma ReleasedAlso(s: State, mid: State, s': State, ids: set<Id>, id: Id)
    requires Released(s, mid, ids) && Released(mid, s', {id}) && id !in ids
    ensures Released(s, s', ids + {id})
  {
  }

  lemma ElemsStep(hops: seq<Id>, i: nat)
    requires i < |hops|
    ensures Elems(hops[..i + 1]) == Elems(hops[..i]) + {hops[i]}
    ensures hops[i] in Elems(hops)
    ensures NoDup(hops) ==> hops[i] !in Elems(hops[..i])
  {
    assert hops[..i + 1] == hops[..i] + [hops[i]];
  }

  lemma HandlesStep(nhs: map<Id, NhEntry>, hops: seq<Id>, i: nat)
    requires i < |hops|
    ensures Handles(nhs, Elems(hops[..i + 1]))
            == Handles(nhs, Elems(hops[..i])) + (if hops[i] in nhs then {nhs[hops[i]].handle} else {})
  {
    ElemsStep(hops, i);
  }

  lemma NoHops(r: Route)
    ensures r.nNexthops < UINT8_RANGE ==> WithHops(r, Elems([])) == r
    ensures |Elems([]) * r.nexthops| == 0 && WithoutHops(r, Elems([])) == r
  {
    assert Elems([]) == {} && {} - r.nexthops == {} && {} * r.nexthops == {};
    assert r.nexthops + {} == r.nexthops && r.nexthops - {} == r.nexthops;
  }

  lemma WithHopsStep(r: Route, ids: set<Id>, id: Id)
    ensures WithHops(r, ids + {id})
            == var w := WithHops(r, ids);
               if id in w.nexthops then w
               else w.(nexthops := w.nexthops + {id}, nNexthops := (w.nNexthops + 1) % UINT8_RANGE)
    ensures id in WithHops(r, ids).nexthops <==> id in r.nexthops || id in ids
    ensures (ids + {id}) !! r.nexthops <==> ids !! r.nexthops && id !in r.nexthops
  {
    HopsStep(r.nexthops, ids, id);
    WrapStep(r.nNexthops, |ids - r.nexthops|);
  }

  lemma HopsStep(held: set<Id>, ids: set<Id>, id: Id)
    ensures held + (ids + {id}) == if id in held + ids then held + ids else (held + ids) + {id}
    ensures |(ids + {id}) - held| == if id in held + ids then |ids - held| else |ids - held| + 1
    ensures (ids + {id}) !! held <==> ids !! held && id !in held
  {
    if id in held + ids {
      assert (ids + {id}) - held == ids - held;
    } else {
      assert (ids + {id}) - held == (ids - held) + {id};
    }
  }

  lemma WrapStep(n: nat, k: nat)
    ensures (n + (k + 1)) % UINT8_RANGE == ((n + k) % UINT8_RANGE + 1) % UINT8_RANGE
  {
  }

  lemma WithoutHopsStep(r: Route, ids: set<Id>, id: Id)
    requires |r.nexthops| == r.nNexthops && |ids * r.nexthops| <= r.nNexthops
    ensures |(ids + {id}) * r.nexthops| <= r.nNexthops
    ensures id in WithoutHops(r, ids).nexthops ==> WithoutHops(r, ids).nNexthops > 0
    ensures WithoutHops(r, ids + {id})
            == var w := WithoutHops(r, ids);
               if id in w.nexthops
               then w.(nexthops := w.nexthops - {id}, nNexthops := w.nNexthops - 1)
               else w
  {
    assert r.nexthops == ((ids + {id}) * r.nexthops) + (r.nexthops - (ids + {id}));
    if id in r.nexthops - ids {
      assert (ids + {id}) * r.nexthops == (ids * r.nexthops) + {id};
      assert r.nexthops - (ids + {id}) == (r.nexthops - ids) - {id};
    } else {
      assert (ids + {id}) * r.nexthops == ids * r.nexthops;
      assert r.nexthops - (ids + {id}) == r.nexthops - ids;
    }
  }

  /** Below the uint8_t range, the count after an addition is the number of next hops. */
  lemma AddingFits(r: Route, ids: set<Id>)
    requires r.nNexthops == |r.nexthops| && |r.nexthops + ids| < UINT8_RANGE
    ensures r.nNexthops < UINT8_RANGE && WithHops(r, ids).nNexthops == |WithHops(r, ids).nexthops|
  {
    assert r.nexthops + ids == r.nexthops + (ids - r.nexthops);
  }

  /** A list that passed the check of its length and one more next hop fit the array of a group. */
  lemma OneMoreFits(held: set<Id>, hops: seq<Id>)
    requires |held| == 1 && NoDup(hops) && |hops| < SAI_NEXT_HOP_MAX
    ensures |held + Elems(hops)| <= SAI_NEXT_HOP_MAX
  {
    DistinctSize(hops);
    assert |held + Elems(hops)| == |held| + |Elems(hops)| - |held * Elems(hops)|;
  }

  /** The objects of a list handed to the switch. */
  function ListOf(handles: seq<Handle>): set<Handle> {
    set h | h in handles
  }

  lemma ListOfMore(handles: seq<Handle>, h: Handle)
    ensures ListOf(handles + [h]) == ListOf(handles) + {h}
  {
  }

  /** Shrunk, component by component, over a record r that is not settled yet. */
  lemma ToShrunk(s: State, s': State, p: Prefix, ids: set<Id>, r: Route)
    requires p in s.routes && |ids * s.routes[p].nexthops| <= s.routes[p].nNexthops
    requires r == WithoutHops(s.routes[p], ids)
    requires s' == s.(routes := s.routes[p := r], hwGroups := s'.hwGroups, hwRoutes := s'.hwRoutes)
    requires r.nNexthops == 1 ==>
               && |r.nexthops| == 1 && Only(r.nexthops) in s.nhs
               && s'.hwRoutes == s.hwRoutes[p := ToNextHop(s.nhs[Only(r.nexthops)].handle)]
               && s'.hwGroups == if r.rstate.Ecmp? then s.hwGroups - {r.nhEcmp} else s.hwGroups
    requires r.nNexthops > 1 ==>
               && r.nhEcmp in s.hwGroups && s'.hwRoutes == s.hwRoutes
               && s'.hwGroups == s.hwGroups[r.nhEcmp := s.hwGroups[r.nhEcmp] - Handles(s.nhs, ids)]
    requires r.nNexthops == 0 ==>
               s'.hwRoutes == s.hwRoutes[p := ToInterface(DEFAULT_RIF)] && s'.hwGroups == s.hwGroups
    ensures Shrunk(s, s'.(routes := s'.routes[p := Settle(r)]), p, ids)
  {
    hide Handles;
    LastWrite(s.routes, p, r, Settle(r));
  }

  /** The record a withdrawal leaves. */
  lemma WithdrawnRecord(s: State, p: Prefix, ids: set<Id>)
    requires Inv(s) && p in s.routes
    ensures |s.routes[p].nexthops| == s.routes[p].nNexthops && |ids * s.routes[p].nexthops| <= s.routes[p].nNexthops
    ensures var r := WithoutHops(s.routes[p], ids);
            && r.nexthops <= s.nhs.Keys && r.nNexthops == |r.nexthops|
            && (r.nNexthops > 1 ==> r.nhEcmp in s.hwGroups)
            && (EarlyReturn(s, p, ids) <==> r.nNexthops == 0 && r.referCnt == 0)
  {
    hide TableInv, OidInv, RefInv, NeighborInv, OwnGroup, TargetOk, Handles;
    assert PrefixOk(s, p);
    HeldAreInTable(s, p);
    var held := ids * s.routes[p].nexthops;
    ShrunkCount(s, p, held);
    assert s.routes[p].nexthops - ids == s.routes[p].nexthops - held;
  }

  /** A list of SAI_NEXT_HOP_MAX or more next hops is refused. */
  lemma RefusedAdd(s: State, p: Prefix, hops: seq<Id>)
    requires |hops| >= SAI_NEXT_HOP_MAX
    ensures RemoteAddStep(s, s, p, hops)
  {
  }

  class Tables {
    const sai: Sai
    var allNexthop: map<Id, NhEntry>
    var allRoute: map<Prefix, Route>
    ghost var outstanding: map<Id, nat>

    ghost function S(): State
      reads this, sai
    {
      State(allNexthop, allRoute, outstanding,
            sai.nextHops, sai.groups, sai.routes, sai.neighbors, sai.nextOid)
    }

    constructor ()
      ensures fresh(sai) && S() == RouteTheorems.Init()
    {
      sai := new Sai();
      allNexthop, allRoute, outstanding := map[], map[], map[];
    }

    // ---------------------------------------------------------------- the next-hop table

    /** nexthop_hmap_add, through ops_sai_route_add_nexthop or ops_sai_neighbor_add_nexthop. */
    method NexthopAdd(id: Id, handle: Handle)
      modifies this`allNexthop
      ensures allNexthop == old(allNexthop)[id :=
                if id in old(allNexthop) then old(allNexthop)[id].(ref := old(allNexthop)[id].ref + 1)
                else NhEntry(1, handle)]
    {
      if id in allNexthop {
        var entry := allNexthop[id];
        allNexthop := allNexthop[id := entry.(ref := entry.ref + 1)];
      } else {
        allNexthop := allNexthop[id := NhEntry(1, handle)];
      }
    }

    /** Finds or creates the hardware next hop, and takes a reference on it. */
    method AcquireHop(id: Id) returns (handle: Handle)
      requires TableInv(allNexthop, sai.nextHops) && OidInv(S())
      modifies this`allNexthop, sai`nextHops, sai`nextOid
      ensures Acquired(old(S()), S(), {id}) && OidInv(S())
      ensures handle == allNexthop[id].handle
    {
      if id in allNexthop {
        handle := allNexthop[id].handle;
      } else {
        handle := sai.CreateNextHop(id);
      }
      NexthopAdd(id, handle);
    }

    method AcquireAll(ids: set<Id>)
      requires TableInv(allNexthop, sai.nextHops) && OidInv(S())
      modifies this`allNexthop, sai`nextHops, sai`nextOid
      ensures Acquired(old(S()), S(), ids) && OidInv(S())
    {
      var todo, done := ids, {};
      while todo != {}
        invariant done + todo == ids && done !! todo
        invariant Acquired(old(S()), S(), done) && OidInv(S())
        decreases todo
      {
        ghost var mid := S();
        var id :| id in todo;
        var handle := AcquireHop(id);
        AcquiredAlso(old(S()), mid, S(), done, id);
        todo, done := todo - {id}, done + {id};
      }
      assert done == ids;
    }

    /** ops_sai_route_delete_nexthop or ops_sai_neighbor_delete_nexthop, then remove_next_hop on zero. */
    method ReleaseHop(id: Id)
      requires TableInv(allNexthop, sai.nextHops)
      modifies this`allNexthop, sai`nextHops
      ensures Released(old(S()), S(), {id})
    {
      if id in allNexthop {
        var entry := allNexthop[id];
        if entry.ref > 1 {
          allNexthop := allNexthop[id := entry.(ref := entry.ref - 1)];
        } else {
          allNexthop := allNexthop - {id};
          sai.RemoveNextHop(entry.handle);
        }
      }
    }

    method ReleaseAll(ids: set<Id>)
      requires TableInv(allNexthop, sai.nextHops)
      modifies this`allNexthop, sai`nextHops
      ensures Released(old(S()), S(), ids)
    {
      var todo, done := ids, {};
      while todo != {}
        invariant done + todo == ids && done !! todo
        invariant Released(old(S()), S(), done)
        decreases todo
      {
        ghost var mid := S();
        var id :| id in todo;
        ReleaseHop(id);
        ReleasedAlso(old(S()), mid, S(), done, id);
        todo, done := todo - {id}, done + {id};
      }
      assert done == ids;
    }

    /** The release loop over a caller's list. */
    method ReleaseList(hops: seq<Id>)
      requires TableInv(allNexthop, sai.nextHops) && NoDup(hops)
      modifies this`allNexthop, sai`nextHops
      ensures Released(old(S()), S(), Elems(hops))
    {
      for index := 0 to |hops|
        invariant Released(old(S()), S(), Elems(hops[..index]))
      {
        ghost var mid := S();
        ElemsStep(hops, index);
        ReleaseHop(hops[index]);
        ReleasedAlso(old(S()), mid, S(), Elems(hops[..index]), hops[index]);
      }
      assert hops[..|hops|] == hops;
    }

    // ---------------------------------------------------------------- groups

    /** ops_sai_routing_nh_group_add: the next hops' handles are gathered in an array of fixed size. */
    method GroupAdd(ids: set<Id>) returns (gid: Handle)
      requires ids <= allNexthop.Keys && |ids| <= SAI_NEXT_HOP_MAX
      modifies sai`groups, sai`nextOid
      ensures gid == old(sai.nextOid) && sai.nextOid == gid + 1
      ensures sai.groups == old(sai.groups)[gid := Handles(allNexthop, ids)]
    {
      var nhObj := new Handle[SAI_NEXT_HOP_MAX](_ => 0);
      var todo, i := ids, 0;
      ghost var done := {};
      while todo != {}
        invariant done + todo == ids && done !! todo && i == |done|
        invariant i + |todo| <= nhObj.Length
        invariant ListOf(nhObj[..i]) == Handles(allNexthop, done)
        modifies nhObj
        decreases todo
      {
        var id :| id in todo;
        nhObj[i] := allNexthop[id].handle;
        assert nhObj[..i + 1] == nhObj[..i] + [allNexthop[id].handle];
        ListOfMore(nhObj[..i], allNexthop[id].handle);
        todo, i := todo - {id}, i + 1;
        done := done + {id};
      }
      assert done == ids;
      gid := sai.CreateGroup(ListOf(nhObj[..i]));
    }

    /** The loop of ops_sai_routing_nhg_add_member over the added next hops. */
    method GroupAddMembers(gid: Handle, hops: seq<Id>)
      requires gid in sai.groups && Elems(hops) <= allNexthop.Keys
      modifies sai`groups
      ensures sai.groups == old(sai.groups)[gid := old(sai.groups)[gid] + Handles(allNexthop, Elems(hops))]
    {
      ghost var members := sai.groups[gid];
      for index := 0 to |hops|
        invariant members == old(sai.groups[gid]) + Handles(allNexthop, Elems(hops[..index]))
        invariant sai.groups == old(sai.groups)[gid := members]
      {
        ElemsStep(hops, index);
        HandlesStep(allNexthop, hops, index);
        sai.AddNextHopToGroup(gid, allNexthop[hops[index]].handle);
        members := members + {allNexthop[hops[index]].handle};
      }
      assert hops[..|hops|] == hops;
    }

    /** The loop of ops_sai_routing_nhg_del_member, which skips unknown next hops. */
    method GroupDelMembers(gid: Handle, hops: seq<Id>)
      requires gid in sai.groups
      modifies sai`groups
      ensures sai.groups == old(sai.groups)[gid := old(sai.groups)[gid] - Handles(allNexthop, Elems(hops))]
    {
      ghost var members := sai.groups[gid];
      for index := 0 to |hops|
        invariant members == old(sai.groups[gid]) - Handles(allNexthop, Elems(hops[..index]))
        invariant sai.groups == old(sai.groups)[gid := members]
      {
        HandlesStep(allNexthop, hops, index);
        if hops[index] in allNexthop {
          sai.RemoveNextHopFromGroup(gid, allNexthop[hops[index]].handle);
          members := members - {allNexthop[hops[index]].handle};
        }
      }
      assert hops[..|hops|] == hops;
    }

    // ---------------------------------------------------------------- records

    /** ops_sai_route_update, adding: true when some next hop was there already. */
    method RecordAdd(p: Prefix, hops: seq<Id>) returns (ret: bool)
      requires p in allRoute && allRoute[p].nNexthops < UINT8_RANGE
      modifies this`allRoute
      ensures allRoute == old(allRoute)[p := WithHops(old(allRoute)[p], Elems(hops))]
      ensures NoDup(hops) ==> (ret <==> !(Elems(hops) !! old(allRoute)[p].nexthops))
    {
      hide WithHops;
      ret := false;
      ghost var r := allRoute[p];
      NoHops(r);
      for i := 0 to |hops|
        invariant allRoute == old(allRoute)[p := WithHops(r, Elems(hops[..i]))]
        invariant NoDup(hops) ==> (ret <==> !(Elems(hops[..i]) !! r.nexthops))
      {
        ElemsStep(hops, i);
        WithHopsStep(r, Elems(hops[..i]), hops[i]);
        var route := allRoute[p];
        if hops[i] in route.nexthops {
          ret := true;
        } else {
          allRoute := allRoute[p := route.(nexthops := route.nexthops + {hops[i]},
                                           nNexthops := (route.nNexthops + 1) % UINT8_RANGE)];
        }
      }
      assert hops[..|hops|] == hops;
    }

    /** ops_sai_route_update, deleting. */
    method RecordDelete(p: Prefix, hops: seq<Id>)
      requires p in allRoute && |allRoute[p].nexthops| == allRoute[p].nNexthops
      modifies this`allRoute
      ensures |Elems(hops) * old(allRoute)[p].nexthops| <= old(allRoute)[p].nNexthops
      ensures allRoute == old(allRoute)[p := WithoutHops(old(allRoute)[p], Elems(hops))]
    {
      ghost var r := allRoute[p];
      NoHops(r);
      for i := 0 to |hops|
        invariant |Elems(hops[..i]) * r.nexthops| <= r.nNexthops
        invariant allRoute == old(allRoute)[p := WithoutHops(r, Elems(hops[..i]))]
      {
        ElemsStep(hops, i);
        WithoutHopsStep(r, Elems(hops[..i]), hops[i]);
        var route := allRoute[p];
        if hops[i] in route.nexthops {
          allRoute := allRoute[p := route.(nexthops := route.nexthops - {hops[i]},
                                           nNexthops := route.nNexthops - 1)];
        }
      }
      assert hops[..|hops|] == hops;
    }

    /** The code at the exit label. */
    method SettleRecord(p: Prefix)
      requires p in allRoute
      modifies this`allRoute
      ensures allRoute == old(allRoute)[p := Settle(old(allRoute)[p])]
    {
      var r := allRoute[p];
      if r.nNexthops > 1 {
        allRoute := allRoute[p := r.(rstate := Ecmp)];
      } else {
        allRoute := allRoute[p := r.(rstate := NonEcmp, nhEcmp := 0)];
      }
    }

    // ---------------------------------------------------------------- the remote action

    /** The only next hop of a prefix becomes its hardware target. */
    method InstallOne(p: Prefix, id: Id) returns (ghost mid: State)
      requires TableInv(allNexthop, sai.nextHops) && OidInv(S())
      requires p in allRoute && allRoute[p].nexthops == {id} && allRoute[p].nNexthops == 1
      modifies this`allNexthop, this`allRoute, sai`nextHops, sai`routes, sai`nextOid
      ensures Acquired(old(S()), mid, {id}) && Installed(mid, S(), p, {id}, old(allRoute)[p].referCnt)
    {
      hide TableInv, OidInv;
      OnlyIsAll({id});
      var target := AcquireHop(id);
      mid := S();
      sai.SetRoute(p, ToNextHop(target));
      SettleRecord(p);
    }

    /** Several next hops of a prefix become the members of a new group, its hardware target. */
    method InstallGroup(p: Prefix) returns (ghost mid: State)
      requires TableInv(allNexthop, sai.nextHops) && OidInv(S())
      requires p in allRoute && 1 < allRoute[p].nNexthops == |allRoute[p].nexthops| <= SAI_NEXT_HOP_MAX
      modifies this`allNexthop, this`allRoute, sai`nextHops, sai`groups, sai`routes, sai`nextOid
      ensures Acquired(old(S()), mid, old(allRoute)[p].nexthops)
      ensures InstalledGroup(mid, S(), p, old(allRoute)[p].nexthops, old(allRoute)[p].referCnt)
    {
      hide TableInv, OidInv, Handles, Acquired, InstalledGroup, Settle;
      var r := allRoute[p];
      AcquireAll(r.nexthops);
      AcquiredKeys(old(S()), S(), r.nexthops);
      mid := S();
      var target := GroupAdd(r.nexthops);
      allRoute := allRoute[p := r.(nhEcmp := target)];
      sai.SetRoute(p, ToNextHop(target));
      SettleRecord(p);
      MakeInstalledGroup(mid, S(), p, r);
    }

    /** First next hops of a new record, or of a record that only had interface references. */
    method InstallHops(p: Prefix, hops: seq<Id>) returns (ghost mid: State)
      requires TableInv(allNexthop, sai.nextHops) && OidInv(S())
      requires hops != [] && NoDup(hops)
      requires p in allRoute && allRoute[p].nexthops == Elems(hops)
      requires allRoute[p].nNexthops == |hops| < SAI_NEXT_HOP_MAX
      modifies this`allNexthop, this`allRoute, sai`nextHops, sai`groups, sai`routes, sai`nextOid
      ensures Acquired(old(S()), mid, Elems(hops))
      ensures Installed(mid, S(), p, Elems(hops), old(allRoute)[p].referCnt)
    {
      hide TableInv, OidInv, Acquired, InstalledGroup;
      DistinctSize(hops);
      if 1 == allRoute[p].nNexthops {
        assert Elems(hops) == {hops[0]};
        mid := InstallOne(p, hops[0]);
      } else {
        mid := InstallGroup(p);
      }
    }

    /** More next hops for a record that has some, none of them the record's already. */
    method GrowHops(p: Prefix, hops: seq<Id>, ghost s: State) returns (ghost mid: State)
      requires TableInv(allNexthop, sai.nextHops) && OidInv(S())
      requires s.routes.Keys >= {p} && allRoute == s.routes[p := WithHops(s.routes[p], Elems(hops))]
      requires S() == s.(routes := allRoute)
      requires s.routes[p].nexthops <= allNexthop.Keys
      requires IsEcmp(s.routes[p]) ==> s.routes[p].nhEcmp in sai.groups
      requires s.routes[p].nexthops != {} && NoDup(hops) && |hops| < SAI_NEXT_HOP_MAX
      requires !s.routes[p].rstate.Ecmp? ==> |s.routes[p].nexthops| == 1
      modifies this`allNexthop, this`allRoute, sai`nextHops, sai`groups, sai`routes, sai`nextOid
      ensures Acquired(s, mid, Elems(hops)) && Grown(mid, S(), p, Elems(hops))
    {
      hide TableInv, OidInv, Handles, Acquired;
      AcquireAll(Elems(hops));
      AcquiredFrame(old(S()), S(), Elems(hops));
      AcquiredElsewhere(old(S()), S(), Elems(hops), s.routes);
      mid := S().(routes := s.routes);
      var r := allRoute[p];
      if !r.rstate.Ecmp? {
        OneMoreFits(s.routes[p].nexthops, hops);
        var target := GroupAdd(r.nexthops);
        sai.SetRoute(p, ToNextHop(target));
        allRoute := allRoute[p := r.(nhEcmp := target)];
      } else {
        GroupAddMembers(r.nhEcmp, hops);
      }
      ghost var grown := allRoute;
      SettleRecord(p);
      LastWrite(s.routes, p, WithHops(s.routes[p], Elems(hops)), grown[p]);
      LastWrite(s.routes, p, grown[p], allRoute[p]);
    }

    /** ops_sai_route_add: a new record with the given next hops; rstate and nh_ecmp are whatever malloc gave. */
    method RouteAdd(p: Prefix, hops: seq<Id>)
      requires p !in allRoute && NoDup(hops) && |hops| < UINT8_RANGE
      modifies this`allRoute
      ensures p in allRoute && allRoute == old(allRoute)[p := allRoute[p]]
      ensures allRoute[p].nexthops == Elems(hops) && allRoute[p].nNexthops == |hops|
      ensures allRoute[p].referCnt == 0
    {
      var rstate: RouteKind := *;
      var nhEcmp: Handle := *;
      var r := Route({}, 0, 0, rstate, nhEcmp);
      for i := 0 to |hops|
        invariant r == Route(Elems(hops[..i]), i, 0, rstate, nhEcmp)
        invariant allRoute == old(allRoute)
      {
        ElemsStep(hops, i);
        r := r.(nexthops := r.nexthops + {hops[i]}, nNexthops := (r.nNexthops + 1) % UINT8_RANGE);
      }
      assert hops[..|hops|] == hops;
      allRoute := allRoute[p := r];
    }

    /** The remote action's branch for a prefix without a record. */
    method AddToNothing(p: Prefix, hops: seq<Id>)
      requires Inv(S()) && p !in allRoute
      requires hops != [] && NoDup(hops) && |hops| < SAI_NEXT_HOP_MAX
      modifies this`allNexthop, this`allRoute, sai`nextHops, sai`groups, sai`routes, sai`nextOid
      ensures RemoteAddStep(old(S()), S(), p, hops)
    {
      hide TableInv, RefInv, NeighborInv, RouteInv, Acquired, Installed;
      ghost var s := S();
      RouteAdd(p, hops);
      ghost var rec := allRoute[p];
      ghost var mid := InstallHops(p, hops);
      InstalledElsewhere(s, mid, S(), p, rec, Elems(hops), 0);
    }

    /** The branch for a record that only has interface references. */
    method AddToLocal(p: Prefix, hops: seq<Id>)
      requires Inv(S()) && p in allRoute && allRoute[p].nNexthops == 0
      requires hops != [] && NoDup(hops) && |hops| < SAI_NEXT_HOP_MAX
      modifies this`allNexthop, this`allRoute, sai`nextHops, sai`groups, sai`routes, sai`nextOid
      ensures RemoteAddStep(old(S()), S(), p, hops)
    {
      hide TableInv, RefInv, NeighborInv, OwnGroup, TargetOk, Acquired, Installed;
      ghost var s := S();
      ghost var ids := Elems(hops);
      assert PrefixOk(s, p);
      DistinctSize(hops);
      var rc := RecordAdd(p, hops);
      assert {} + ids == ids && ids - {} == ids;
      ghost var rec := allRoute[p];
      ghost var mid := InstallHops(p, hops);
      InstalledElsewhere(s, mid, S(), p, rec, ids, rec.referCnt);
    }

    /** The branch for a record that has next hops. */
    method AddToRemote(p: Prefix, hops: seq<Id>)
      requires Inv(S()) && p in allRoute && allRoute[p].nNexthops > 0
      requires hops != [] && NoDup(hops) && |hops| < SAI_NEXT_HOP_MAX
      requires |allRoute[p].nexthops + Elems(hops)| < UINT8_RANGE
      modifies this`allNexthop, this`allRoute, sai`nextHops, sai`groups, sai`routes, sai`nextOid
      ensures RemoteAddStep(old(S()), S(), p, hops)
    {
      hide TableInv, RefInv, NeighborInv, OwnGroup, TargetOk, Acquired, Grown, WithHops;
      ghost var s := S();
      ghost var ids := Elems(hops);
      assert PrefixOk(s, p);
      HeldAreInTable(s, p);
      AddingFits(s.routes[p], ids);
      var rc := RecordAdd(p, hops);
      ghost var rec := allRoute[p];
      if rc {
        SettleRecord(p);
        LastWrite(s.routes, p, rec, allRoute[p]);
      } else {
        ghost var mid := GrowHops(p, hops, s);
      }
    }

    /** __route_remote_add */
    method RemoteAdd(p: Prefix, hops: seq<Id>)
      requires Inv(S()) && Legal(S(), RouteState.RemoteAdd(p, hops))
      modifies this`allNexthop, this`allRoute, sai`nextHops, sai`groups, sai`routes, sai`nextOid
      ensures Step(old(S()), S(), RouteState.RemoteAdd(p, hops))
      ensures Inv(S()) <==> Tidy(old(S()), RouteState.RemoteAdd(p, hops))
    {
      hide Inv, RemoteAddStep, Tidy;
      ghost var s := S();
      if SAI_NEXT_HOP_MAX <= |hops| {
        RefusedAdd(s, p, hops);
      } else if p !in allRoute {
        AddToNothing(p, hops);
      } else if allRoute[p].nNexthops == 0 {
        AddToLocal(p, hops);
      } else {
        AddToRemote(p, hops);
      }
      CoherentIffTidy(s, S(), RouteState.RemoteAdd(p, hops));
    }

    /** One next hop is left: it becomes the target, and a group the route had is deleted. */
    method RetargetToOnly(p: Prefix)
      requires p in allRoute && |allRoute[p].nexthops| == 1 && allRoute[p].nexthops <= allNexthop.Keys
      modifies sai`groups, sai`routes
      ensures Only(allRoute[p].nexthops) in allNexthop
      ensures sai.routes == old(sai.routes)[p := ToNextHop(allNexthop[Only(allRoute[p].nexthops)].handle)]
      ensures sai.groups == if allRoute[p].rstate.Ecmp? then old(sai.groups) - {allRoute[p].nhEcmp} else old(sai.groups)
    {
      var r := allRoute[p];
      OnlyIsAll(r.nexthops);
      var id :| id in r.nexthops;
      sai.SetRoute(p, ToNextHop(allNexthop[id].handle));
      if r.rstate.Ecmp? {
        sai.RemoveGroup(r.nhEcmp);
      }
    }

    /** The record and hardware side of a withdrawal, up to the release loop. */
    method Withdraw(p: Prefix, hops: seq<Id>) returns (early: bool)
      requires Inv(S()) && p in allRoute
      modifies this`allRoute, sai`groups, sai`routes
      ensures early <==> EarlyReturn(old(S()), p, Elems(hops))
      ensures early ==> S() == old(S()).(routes := old(allRoute) - {p}, hwRoutes := old(sai.routes) - {p})
      ensures |Elems(hops) * old(allRoute)[p].nexthops| <= old(allRoute)[p].nNexthops
      ensures !early ==> p in allRoute
                         && Shrunk(old(S()), S().(routes := allRoute[p := Settle(allRoute[p])]), p, Elems(hops))
    {
      hide Inv, Handles, Settle, Shrunk, WithoutHops, EarlyReturn;
      ghost var s := S();
      WithdrawnRecord(s, p, Elems(hops));
      RecordDelete(p, hops);
      var r := allRoute[p];
      early := r.nNexthops == 0 && r.referCnt == 0;
      if early {
        sai.RemoveRoute(p);
        allRoute := allRoute - {p};
      } else {
        WithdrawTarget(p, hops);
        ToShrunk(s, S(), p, Elems(hops), r);
      }
    }

    /** What a withdrawal does to the hardware when the record stays. */
    method WithdrawTarget(p: Prefix, hops: seq<Id>)
      requires p in allRoute && allRoute[p].nexthops <= allNexthop.Keys
      requires allRoute[p].nNexthops == |allRoute[p].nexthops|
      requires allRoute[p].nNexthops > 1 ==> allRoute[p].nhEcmp in sai.groups
      modifies sai`groups, sai`routes
      ensures var r := allRoute[p];
              if r.nNexthops == 1 then
                && Only(r.nexthops) in allNexthop
                && sai.routes == old(sai.routes)[p := ToNextHop(allNexthop[Only(r.nexthops)].handle)]
                && sai.groups == if r.rstate.Ecmp? then old(sai.groups) - {r.nhEcmp} else old(sai.groups)
              else if r.nNexthops > 1 then
                && sai.routes == old(sai.routes)
                && sai.groups == old(sai.groups)[r.nhEcmp := old(sai.groups)[r.nhEcmp] - Handles(allNexthop, Elems(hops))]
              else
                && sai.routes == old(sai.routes)[p := ToInterface(DEFAULT_RIF)]
                && sai.groups == old(sai.groups)
    {
      hide Handles;
      var r := allRoute[p];
      if 1 == r.nNexthops {
        RetargetToOnly(p);
      } else if 1 < r.nNexthops {
        GroupDelMembers(r.nhEcmp, hops);
      } else {
        sai.RemoveRoute(p);
        sai.SetRoute(p, ToInterface(DEFAULT_RIF));
        assert sai.routes == old(sai.routes)[p := ToInterface(DEFAULT_RIF)];
      }
    }

    /** __route_remote_nh_remove with a list of next hops. */
    method RemoteNhRemove(p: Prefix, hops: seq<Id>)
      requires Inv(S()) && Legal(S(), RouteState.RemoteNhRemove(p, hops))
      modifies this`allNexthop, this`allRoute, sai`nextHops, sai`groups, sai`routes
      ensures Step(old(S()), S(), RouteState.RemoteNhRemove(p, hops))
      ensures Inv(S()) <==> Tidy(old(S()), RouteState.RemoteNhRemove(p, hops))
    {
      hide TableInv, OidInv, RefInv, NeighborInv, RouteInv, Shrunk, Released, Settle, Tidy;
      ghost var s := S();
      if p in allRoute {
        var early := Withdraw(p, hops);
        if !early {
          ghost var mid := S();
          ShrunkTable(s, mid.(routes := allRoute[p := Settle(allRoute[p])]), p, Elems(hops));
          ReleaseList(hops);
          ghost var released := S();
          SettleRecord(p);
          ReleasedElsewhere(mid, released, Elems(hops), allRoute);
        }
      }
      CoherentIffTidy(s, S(), RouteState.RemoteNhRemove(p, hops));
    }

    /** The remote action's deletion of a record with all its next hops. */
    method DeleteRemote(p: Prefix)
      requires Inv(S()) && p in allRoute && allRoute[p].referCnt == 0 && allRoute[p].nNexthops > 0
      modifies this`allNexthop, this`allRoute, sai`nextHops, sai`groups, sai`routes
      ensures RouteRemoveStep(old(S()), S(), p)
    {
      hide TableInv, RefInv, NeighborInv, RouteInv, Released;
      var r := allRoute[p];
      ghost var s := S();
      sai.RemoveRoute(p);
      if r.rstate.Ecmp? {
        sai.RemoveGroup(r.nhEcmp);
      }
      ghost var before := S();
      ReleaseAll(r.nexthops);
      ghost var released := S();
      allRoute := allRoute - {p};
      ReleasedElsewhere(before, released, r.nexthops, allRoute);
    }

    /** __route_remove */
    method RouteRemove(p: Prefix)
      requires Inv(S())
      modifies this`allNexthop, this`allRoute, sai`nextHops, sai`groups, sai`routes
      ensures Step(old(S()), S(), RouteState.RouteRemove(p)) && Inv(S())
    {
      hide TableInv, OidInv, RefInv, NeighborInv, RouteInv, Released;
      ghost var s := S();
      if p in allRoute {
        var r := allRoute[p];
        if r.referCnt > 0 {
          if r.nNexthops > 0 {
            allRoute := allRoute[p := r.(referCnt := r.referCnt - 1)];
          } else if r.referCnt > 1 {
            allRoute := allRoute[p := r.(referCnt := r.referCnt - 1)];
          } else {
            sai.RemoveRoute(p);
            allRoute := allRoute - {p};
          }
        } else if r.nNexthops > 0 {
          DeleteRemote(p);
        }
      }
      StepInv(s, S(), RouteState.RouteRemove(p));
    }

    /** __route_local_add */
    method LocalAdd(p: Prefix, rif: Rif)
      requires Inv(S()) && Legal(S(), RouteState.LocalAdd(p, rif))
      modifies this`allRoute, sai`routes
      ensures Step(old(S()), S(), RouteState.LocalAdd(p, rif)) && Inv(S())
    {
      hide TableInv, OidInv, RefInv, NeighborInv, RouteInv;
      ghost var s := S();
      if p in allRoute {
        var r := allRoute[p];
        allRoute := allRoute[p := r.(referCnt := (r.referCnt + 1) % UINT8_RANGE)];
      } else {
        RouteAdd(p, []);
        ghost var added := allRoute;
        var r := allRoute[p];
        allRoute := allRoute[p := r.(referCnt := 1)];
        LastWrite(s.routes, p, r, allRoute[p]);
        sai.SetRoute(p, ToInterface(rif));
      }
      StepInv(s, S(), RouteState.LocalAdd(p, rif));
    }

    /** __neighbor_create */
    method NeighborCreate(id: Id, rif: Rif)
      requires Inv(S())
      modifies this`allNexthop, this`outstanding, sai`nextHops, sai`neighbors, sai`nextOid
      ensures Step(old(S()), S(), RouteState.NeighborCreate(id, rif)) && Inv(S())
    {
      hide TableInv, RefInv, NeighborInv, RouteInv, Acquired;
      ghost var s := S();
      var handle := AcquireHop(id);
      ghost var mid := S();
      sai.CreateNeighbor(id, rif);
      outstanding := outstanding[id := Outstanding(mid, id) + 1];
      assert S() == WithNeighbor(mid, id, rif);
      StepInv(s, S(), RouteState.NeighborCreate(id, rif));
    }

    /** __neighbor_remove */
    method NeighborRemove(id: Id, rif: Rif)
      requires Inv(S())
      modifies this`allNexthop, this`outstanding, sai`nextHops, sai`neighbors
      ensures Step(old(S()), S(), RouteState.NeighborRemove(id, rif)) && Inv(S())
    {
      hide TableInv, RefInv, NeighborInv, RouteInv, Released;
      ghost var s := S();
      var ok := sai.RemoveNeighbor(id, rif);
      if ok {
        outstanding := outstanding[id := if Outstanding(s, id) > 0 then Outstanding(s, id) - 1 else 0];
        assert S() == WithoutNeighbor(s, id, rif);
        ReleaseHop(id);
      }
      StepInv(s, S(), RouteState.NeighborRemove(id, rif));
    }
  }
}
