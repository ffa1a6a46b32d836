/**
 Routes, next hops and neighbors as one state machine over the plugin's tables and the
 hardware objects behind them. Each operation is a relation between the state before and
 after, exact up to the handles the hardware chooses for new objects; the methods of
 RouteTables are proved to implement these relations.
 */
module RouteState {
  import opened Options

  type Id = string      // next hop: its IP address as text
  type Prefix = string
  type Handle = nat     // SAI object id
  type Rif = nat        // router interface

  const SAI_NEXT_HOP_MAX := 32
  const UINT8_RANGE := 256

  /** SAI_OBJECT_TYPE_SET(SAI_OBJECT_TYPE_ROUTER_INTERFACE, 1): used when no interface is given. */
  const DEFAULT_RIF: Rif := 1

  /** struct nh_entry */
  datatype NhEntry = NhEntry(ref: nat, handle: Handle)

  datatype RouteKind = NonEcmp | Ecmp

  /** sai_ops_route_t */
  datatype Route = Route(
    nexthops: set<Id>,
    nNexthops: nat,    // uint8_t
    referCnt: nat,     // uint8_t: interface references
    rstate: RouteKind,
    nhEcmp: Handle)

  /** What a hardware route forwards to. */
  datatype Target = ToInterface(rif: Rif) | ToNextHop(oid: Handle)

  datatype State = State(
    nhs: map<Id, NhEntry>,           // all_nexthop
    routes: map<Prefix, Route>,      // all_route
    outstanding: map<Id, nat>,       // neighbor creates not yet undone, by address
    hwNhs: map<Handle, Id>,          // hardware next hops
    hwGroups: map<Handle, set<Handle>>,
    hwRoutes: map<Prefix, Target>,
    hwNeighbors: map<Id, set<Rif>>,
    nextOid: Handle)                 // every handle ever issued is below this one

  function Elems(hops: seq<Id>): set<Id> {
    set h | h in hops
  }

  lemma {:induction false} DistinctSize(hops: seq<Id>)
    requires NoDup(hops)
    ensures |Elems(hops)| == |hops|
  {
    if hops != [] {
      var n := |hops| - 1;
      DistinctSize(hops[..n]);
      assert hops == hops[..n] + [hops[n]];
      assert Elems(hops) == Elems(hops[..n]) + {hops[n]};
    }
  }

  // ------------------------------------------------------------------ who holds a next hop

  function Holders(routes: map<Prefix, Route>, id: Id): set<Prefix> {
    set p | p in routes && id in routes[p].nexthops
  }

  function Outstanding(s: State, id: Id): nat {
    if id in s.outstanding then s.outstanding[id] else 0
  }

  /** The routes holding a next hop plus the neighbor creates still outstanding for it. */
  function Refs(s: State, id: Id): nat {
    |Holders(s.routes, id)| + Outstanding(s, id)
  }

  function Handles(nhs: map<Id, NhEntry>, ids: set<Id>): set<Handle> {
    set id | id in ids && id in nhs :: nhs[id].handle
  }

  // ------------------------------------------------------------------ invariants

  /** The next-hop table and the hardware next hops are in one-to-one correspondence. */
  ghost predicate TableInv(nhs: map<Id, NhEntry>, hwNhs: map<Handle, Id>) {
    && (forall id :: id in nhs ==> nhs[id].ref > 0 && nhs[id].handle in hwNhs && hwNhs[nhs[id].handle] == id)
    && (forall h :: h in hwNhs ==> hwNhs[h] in nhs && nhs[hwNhs[h]].handle == h)
  }

  ghost predicate OidInv(s: State) {
    && (forall h :: h in s.hwNhs ==> h < s.nextOid && h !in s.hwGroups)
    && (forall g :: g in s.hwGroups ==> g < s.nextOid)
  }

  /** No next hop that a route or a neighbor uses is missing, and none is under-counted. */
  ghost predicate RefInv(s: State) {
    && (forall id :: Refs(s, id) > 0 ==> id in s.nhs)
    && (forall id :: id in s.nhs ==> s.nhs[id].ref >= Refs(s, id))
  }

  /** Every count is the number of creates not undone: routes holding it plus outstanding neighbor creates. */
  ghost predicate CreatesExact(s: State) {
    forall id :: id in s.nhs ==> s.nhs[id].ref == Refs(s, id)
  }

  /** No reference is leaked: every count is the number of routes and hardware neighbors that use the next hop. */
  ghost predicate RefExact(s: State) {
    forall id :: id in s.nhs ==> s.nhs[id].ref == |Holders(s.routes, id)| + |NeighborRifs(s, id)|
  }

  function NeighborRifs(s: State, id: Id): set<Rif> {
    if id in s.hwNeighbors then s.hwNeighbors[id] else {}
  }

  /** What the hardware must forward a prefix to, given its record. */
  ghost predicate TargetOk(s: State, p: Prefix)
    requires p in s.routes && p in s.hwRoutes
  {
    var r := s.routes[p];
    if r.nexthops == {} then s.hwRoutes[p].ToInterface?
    else if r.rstate.Ecmp? then s.hwRoutes[p] == ToNextHop(r.nhEcmp)
    else forall id :: id in r.nexthops ==> id in s.nhs && s.hwRoutes[p] == ToNextHop(s.nhs[id].handle)
  }

  /** A record with next hops is ECMP iff it has several, and then its group is coherent. */
  ghost predicate RecordOk(s: State, r: Route) {
    && r.nNexthops == |r.nexthops|
    && (r.nexthops != {} || r.referCnt > 0)
    && (r.nexthops != {} ==> (r.rstate.Ecmp? <==> |r.nexthops| > 1))
    && (r.nexthops != {} && r.rstate.Ecmp? ==>
          r.nhEcmp in s.hwGroups && s.hwGroups[r.nhEcmp] == Handles(s.nhs, r.nexthops))
  }

  predicate IsEcmp(r: Route) {
    r.nexthops != {} && r.rstate.Ecmp?
  }

  ghost predicate PrefixOk(s: State, p: Prefix) {
    p in s.routes && p in s.hwRoutes && RecordOk(s, s.routes[p]) && TargetOk(s, p)
  }

  /** Prefix p's group, if it has one, is no other prefix's group. */
  ghost predicate OwnGroup(routes: map<Prefix, Route>, p: Prefix)
    requires p in routes
  {
    IsEcmp(routes[p]) ==>
      forall q :: q in routes && q != p && IsEcmp(routes[q]) ==> routes[q].nhEcmp != routes[p].nhEcmp
  }

  /** The hardware prefixes are exactly the records, and every record is realised. */
  ghost predicate RouteInv(s: State) {
    && s.hwRoutes.Keys == s.routes.Keys
    && (forall p :: p in s.routes ==> PrefixOk(s, p))
    && (forall p :: p in s.routes ==> OwnGroup(s.routes, p))
  }

  /** Every live hardware neighbor is backed by an outstanding create. */
  ghost predicate NeighborInv(s: State) {
    forall id :: id in s.hwNeighbors ==> |s.hwNeighbors[id]| <= Outstanding(s, id)
  }

  ghost predicate Inv(s: State) {
    TableInv(s.nhs, s.hwNhs) && OidInv(s) && RefInv(s) && RouteInv(s) && NeighborInv(s)
  }

  /** Every hardware group belongs to an ECMP record. */
  ghost predicate GroupExact(s: State) {
    forall g :: g in s.hwGroups ==> exists p :: p in s.routes && IsEcmp(s.routes[p]) && s.routes[p].nhEcmp == g
  }

  // ------------------------------------------------------------------ taking and dropping references

  /** One reference more on each of `ids`, creating the hardware next hops that were missing. */
  ghost predicate Acquired(s: State, s': State, ids: set<Id>) {
    && s'.nhs.Keys == s.nhs.Keys + ids
    && (forall id :: id in s.nhs ==>
          s'.nhs[id] == NhEntry(s.nhs[id].ref + (if id in ids then 1 else 0), s.nhs[id].handle))
    && (forall id :: id in ids && id !in s.nhs ==>
          s'.nhs[id].ref == 1 && s.nextOid <= s'.nhs[id].handle < s'.nextOid)
    && TableInv(s'.nhs, s'.hwNhs)
    && s.nextOid <= s'.nextOid
    && s' == s.(nhs := s'.nhs, hwNhs := s'.hwNhs, nextOid := s'.nextOid)
  }

  /** One reference less on each of `ids`; the last one removes the hardware next hop. */
  ghost predicate Released(s: State, s': State, ids: set<Id>) {
    && (forall id :: id in s'.nhs <==> id in s.nhs && !(id in ids && s.nhs[id].ref <= 1))
    && (forall id :: id in s'.nhs ==>
          s'.nhs[id].handle == s.nhs[id].handle
          && s'.nhs[id].ref == if id in ids then s.nhs[id].ref - 1 else s.nhs[id].ref)
    && TableInv(s'.nhs, s'.hwNhs)
    && s' == s.(nhs := s'.nhs, hwNhs := s'.hwNhs)
  }

  // ------------------------------------------------------------------ the operations

  datatype Op =
    | RemoteAdd(p: Prefix, hops: seq<Id>)
    | RemoteNhRemove(p: Prefix, hops: seq<Id>)
    | RouteRemove(p: Prefix)
    | LocalAdd(p: Prefix, rif: Rif)
    | NeighborCreate(id: Id, rif: Rif)
    | NeighborRemove(id: Id, rif: Rif)

  ghost function Only(ids: set<Id>): Id
    requires |ids| == 1
  {
    var id :| id in ids;
    id
  }

  lemma OnlyIsAll(ids: set<Id>)
    requires |ids| == 1
    ensures ids == {Only(ids)}
  {
    var id := Only(ids);
    assert |ids - {id}| == 0;
  }

  /** The `exit` label of the remote action: the ECMP state follows the next-hop count. */
  function Settle(r: Route): Route {
    if r.nNexthops > 1 then r.(rstate := Ecmp) else r.(rstate := NonEcmp, nhEcmp := 0)
  }

  function WithHops(r: Route, ids: set<Id>): Route {
    r.(nexthops := r.nexthops + ids, nNexthops := (r.nNexthops + |ids - r.nexthops|) % UINT8_RANGE)
  }

  function WithoutHops(r: Route, ids: set<Id>): Route
    requires |ids * r.nexthops| <= r.nNexthops
  {
    r.(nexthops := r.nexthops - ids, nNexthops := r.nNexthops - |ids * r.nexthops|)
  }

  /** Several next hops of a prefix: a new group with their handles, which becomes its target. */
  ghost predicate InstalledGroup(s: State, s': State, p: Prefix, ids: set<Id>, referCnt: nat) {
    var g := s.nextOid;
    s' == s.(routes := s.routes[p := Settle(Route(ids, |ids| % UINT8_RANGE, referCnt, NonEcmp, g))],
             hwGroups := s.hwGroups[g := Handles(s.nhs, ids)],
             hwRoutes := s.hwRoutes[p := ToNextHop(g)],
             nextOid := g + 1)
  }

  /** First next hops of a prefix: a single next hop directly, several through a new group. */
  ghost predicate Installed(s: State, s': State, p: Prefix, ids: set<Id>, referCnt: nat) {
    if |ids| == 1 then
      && Only(ids) in s.nhs
      && s' == s.(routes := s.routes[p := Route(ids, 1, referCnt, NonEcmp, 0)],
                  hwRoutes := s.hwRoutes[p := ToNextHop(s.nhs[Only(ids)].handle)])
    else InstalledGroup(s, s', p, ids, referCnt)
  }

  /** More next hops on a prefix that has some: a new group, or new members of the old one. */
  ghost predicate Grown(s: State, s': State, p: Prefix, ids: set<Id>) {
    p in s.routes &&
    var r := s.routes[p];
    var r' := WithHops(r, ids);
    if !r.rstate.Ecmp? then
      var g := s.nextOid;
      s' == s.(routes := s.routes[p := Settle(r'.(nhEcmp := g))],
               hwGroups := s.hwGroups[g := Handles(s.nhs, r'.nexthops)],
               hwRoutes := s.hwRoutes[p := ToNextHop(g)],
               nextOid := g + 1)
    else
      && r.nhEcmp in s.hwGroups
      && s' == s.(routes := s.routes[p := Settle(r')],
                  hwGroups := s.hwGroups[r.nhEcmp := s.hwGroups[r.nhEcmp] + Handles(s.nhs, ids)])
  }

  ghost predicate RemoteAddStep(s: State, s': State, p: Prefix, hops: seq<Id>) {
    var ids := Elems(hops);
    if |hops| >= SAI_NEXT_HOP_MAX then s' == s
    else if p !in s.routes || (s.routes[p].nNexthops == 0 && s.routes[p].referCnt > 0) then
      var referCnt := if p in s.routes then s.routes[p].referCnt else 0;
      exists mid :: Acquired(s, mid, ids) && Installed(mid, s', p, ids, referCnt)
    else if s.routes[p].nNexthops > 0 && ids !! s.routes[p].nexthops then
      exists mid :: Acquired(s, mid, ids) && Grown(mid, s', p, ids)
    else
      // an overlap ends the update early: only the record changes
      s' == s.(routes := s.routes[p := Settle(WithHops(s.routes[p], ids))])
  }

  /** The record and hardware side of withdrawing `ids`, before their references are dropped. */
  ghost predicate Shrunk(s: State, s': State, p: Prefix, ids: set<Id>)
    requires p in s.routes && |ids * s.routes[p].nexthops| <= s.routes[p].nNexthops
  {
    var r := s.routes[p];
    var r' := WithoutHops(r, ids);
    if r'.nNexthops == 1 then
      && |r'.nexthops| == 1 && Only(r'.nexthops) in s.nhs
      && s' == s.(routes := s.routes[p := Settle(r')],
                  hwRoutes := s.hwRoutes[p := ToNextHop(s.nhs[Only(r'.nexthops)].handle)],
                  hwGroups := if r.rstate.Ecmp? then s.hwGroups - {r.nhEcmp} else s.hwGroups)
    else if r'.nNexthops > 1 then
      && r.nhEcmp in s.hwGroups
      && s' == s.(routes := s.routes[p := Settle(r')],
                  hwGroups := s.hwGroups[r.nhEcmp := s.hwGroups[r.nhEcmp] - Handles(s.nhs, ids)])
    else
      s' == s.(routes := s.routes[p := Settle(r')],
               hwRoutes := s.hwRoutes[p := ToInterface(DEFAULT_RIF)])
  }

  /** Withdrawing the last next hops of a prefix no interface refers to: the early return. */
  predicate EarlyReturn(s: State, p: Prefix, ids: set<Id>) {
    p in s.routes && s.routes[p].nexthops <= ids && s.routes[p].referCnt == 0
  }

  ghost predicate RemoteNhRemoveStep(s: State, s': State, p: Prefix, hops: seq<Id>) {
    var ids := Elems(hops);
    if p !in s.routes then s' == s
    else if EarlyReturn(s, p, ids) then
      s' == s.(routes := s.routes - {p}, hwRoutes := s.hwRoutes - {p})
    else
      && |ids * s.routes[p].nexthops| <= s.routes[p].nNexthops
      && exists mid :: Shrunk(s, mid, p, ids) && Released(mid, s', ids)
  }

  ghost predicate RouteRemoveStep(s: State, s': State, p: Prefix) {
    if p !in s.routes then s' == s
    else
      var r := s.routes[p];
      if r.referCnt > 0 && (r.nNexthops > 0 || r.referCnt > 1) then
        s' == s.(routes := s.routes[p := r.(referCnt := r.referCnt - 1)])
      else if r.referCnt > 0 then
        s' == s.(routes := s.routes - {p}, hwRoutes := s.hwRoutes - {p})
      else if r.nNexthops > 0 then
        Released(s.(routes := s.routes - {p},
                    hwRoutes := s.hwRoutes - {p},
                    hwGroups := if r.rstate.Ecmp? then s.hwGroups - {r.nhEcmp} else s.hwGroups),
                 s', r.nexthops)
      else s' == s
  }

  /** A new local record leaves rstate and nh_ecmp uninitialised. */
  ghost predicate LocalAddStep(s: State, s': State, p: Prefix, rif: Rif) {
    if p in s.routes then
      var r := s.routes[p];
      s' == s.(routes := s.routes[p := r.(referCnt := (r.referCnt + 1) % UINT8_RANGE)])
    else
      && p in s'.routes
      && s'.routes[p] == Route({}, 0, 1, s'.routes[p].rstate, s'.routes[p].nhEcmp)
      && s' == s.(routes := s.routes[p := s'.routes[p]], hwRoutes := s.hwRoutes[p := ToInterface(rif)])
  }

  ghost predicate NeighborCreateStep(s: State, s': State, id: Id, rif: Rif) {
    exists mid :: Acquired(s, mid, {id}) && s' == WithNeighbor(mid, id, rif)
  }

  function WithNeighbor(s: State, id: Id, rif: Rif): State {
    s.(outstanding := s.outstanding[id := Outstanding(s, id) + 1],
       hwNeighbors := s.hwNeighbors[id := NeighborRifs(s, id) + {rif}])
  }

  function WithoutNeighbor(s: State, id: Id, rif: Rif): State {
    s.(outstanding := s.outstanding[id := if Outstanding(s, id) > 0 then Outstanding(s, id) - 1 else 0],
       hwNeighbors := s.hwNeighbors[id := NeighborRifs(s, id) - {rif}])
  }

  /** Removing a hardware neighbor that is not there fails and leaves everything alone. */
  ghost predicate NeighborRemoveStep(s: State, s': State, id: Id, rif: Rif) {
    if rif !in NeighborRifs(s, id) then s' == s
    else Released(WithoutNeighbor(s, id, rif), s', {id})
  }

  ghost predicate Step(s: State, s': State, op: Op) {
    match op
    case RemoteAdd(p, hops) => RemoteAddStep(s, s', p, hops)
    case RemoteNhRemove(p, hops) => RemoteNhRemoveStep(s, s', p, hops)
    case RouteRemove(p) => RouteRemoveStep(s, s', p)
    case LocalAdd(p, rif) => LocalAddStep(s, s', p, rif)
    case NeighborCreate(id, rif) => NeighborCreateStep(s, s', id, rif)
    case NeighborRemove(id, rif) => NeighborRemoveStep(s, s', id, rif)
  }

  /** What callers owe: distinct next hops, some to add, and counts within uint8_t. */
  predicate Legal(s: State, op: Op) {
    match op
    case RemoteAdd(p, hops) =>
      && hops != [] && NoDup(hops)
      && (p in s.routes ==> |s.routes[p].nexthops + Elems(hops)| < UINT8_RANGE)
    case RemoteNhRemove(_, hops) => NoDup(hops)
    case LocalAdd(p, _) => p in s.routes ==> s.routes[p].referCnt + 1 < UINT8_RANGE
    case _ => true
  }

  /** Each listed next hop is the route's own, or unknown, or counted more often than it is used. */
  predicate OnlySpare(s: State, p: Prefix, ids: set<Id>)
    requires p in s.routes
  {
    forall id :: id in ids && id !in s.routes[p].nexthops && id in s.nhs ==> s.nhs[id].ref > Refs(s, id)
  }

  /**
   Added next hops are all new to the route, or none is (or the list is refused anyway); and
   a withdrawal that gets to its release loop releases nobody else's references.
   */
  predicate Tidy(s: State, op: Op) {
    match op
    case RemoteAdd(p, hops) =>
      || p !in s.routes || |hops| >= SAI_NEXT_HOP_MAX
      || Elems(hops) !! s.routes[p].nexthops || Elems(hops) <= s.routes[p].nexthops
    case RemoteNhRemove(p, hops) =>
      p !in s.routes || EarlyReturn(s, p, Elems(hops)) || OnlySpare(s, p, Elems(hops))
    case _ => true
  }
}
