/**
 Mirrors and the bundles they watch. A mirror keeps one list of bundles per direction,
 threaded through nodes inside the bundles; a bundle remembers its owner per direction. A
 node that is on no list links to itself. Mirrors and bundles are live while they are in
 the maps; a pointer outside the maps is dangling.
 */
module MirrorState {
  import opened Options

  type BundlePtr = nat
  type MirrorPtr = nat
  type OfprotoId = nat
  type Aux = nat

  datatype Side = Ingress | Egress

  /** ingress_owner and ingress_node, or egress_owner and egress_node. */
  datatype Link = Link(owner: Option<MirrorPtr>, selfLinked: bool)

  const UNLINKED := Link(None, true)

  datatype Bundle = Bundle(ofproto: OfprotoId, aux: Aux, ingress: Link, egress: Link, cacheConfig: bool)

  datatype Mirror = Mirror(ofproto: OfprotoId, aux: Aux, out: BundlePtr,
                           ingressSrcs: seq<BundlePtr>, egressSrcs: seq<BundlePtr>)

  datatype State = State(bundles: map<BundlePtr, Bundle>, mirrors: map<MirrorPtr, Mirror>, next: nat)

  function LinkOf(b: Bundle, side: Side): Link {
    if side.Ingress? then b.ingress else b.egress
  }

  function WithLink(b: Bundle, side: Side, l: Link): Bundle {
    if side.Ingress? then b.(ingress := l) else b.(egress := l)
  }

  function Srcs(m: Mirror, side: Side): seq<BundlePtr> {
    if side.Ingress? then m.ingressSrcs else m.egressSrcs
  }

  function WithSrcs(m: Mirror, side: Side, srcs: seq<BundlePtr>): Mirror {
    if side.Ingress? then m.(ingressSrcs := srcs) else m.(egressSrcs := srcs)
  }

  // ------------------------------------------------------------------ the ownership invariant

  /** A bundle is owned by the mirror on whose list it is, and self-linked when it is on none. */
  ghost predicate BundleOk(s: State, b: BundlePtr, side: Side)
    requires b in s.bundles
  {
    var l := LinkOf(s.bundles[b], side);
    && (l.selfLinked <==> l.owner.None?)
    && (l.owner.Some? ==> l.owner.value in s.mirrors && b in Srcs(s.mirrors[l.owner.value], side))
  }

  ghost predicate MirrorOk(s: State, m: MirrorPtr, side: Side)
    requires m in s.mirrors
  {
    && NoDup(Srcs(s.mirrors[m], side))
    && (forall b :: b in Srcs(s.mirrors[m], side) ==>
          b in s.bundles && LinkOf(s.bundles[b], side).owner == Some(m))
  }

  ghost predicate KeysOk(s: State) {
    && (forall b, c | b in s.bundles && c in s.bundles ::
          s.bundles[b].ofproto == s.bundles[c].ofproto && s.bundles[b].aux == s.bundles[c].aux ==> b == c)
    && (forall m, n | m in s.mirrors && n in s.mirrors ::
          s.mirrors[m].ofproto == s.mirrors[n].ofproto && s.mirrors[m].aux == s.mirrors[n].aux ==> m == n)
    && (forall b :: b in s.bundles ==> b < s.next)
    && (forall m :: m in s.mirrors ==> m < s.next)
  }

  ghost predicate OutsLive(s: State) {
    forall m :: m in s.mirrors ==> s.mirrors[m].out in s.bundles
  }

  /**
   A bundle is on a mirror's list in a direction iff that mirror owns it in that direction,
   and no owner, list node or output refers to anything destroyed.
   */
  ghost predicate Inv(s: State) {
    && KeysOk(s) && OutsLive(s)
    && (forall b, side :: b in s.bundles ==> BundleOk(s, b, side))
    && (forall m, side :: m in s.mirrors ==> MirrorOk(s, m, side))
  }

  // ------------------------------------------------------------------ destroying mirrors

  function Unlink(l: Link, gone: set<MirrorPtr>): Link {
    if l.owner.Some? && l.owner.value in gone then UNLINKED else l
  }

  /** Every bundle that one of the mirrors in `gone` owned is free in that direction. */
  function Unlinked(bundles: map<BundlePtr, Bundle>, gone: set<MirrorPtr>): map<BundlePtr, Bundle> {
    map b | b in bundles ::
      bundles[b].(ingress := Unlink(bundles[b].ingress, gone), egress := Unlink(bundles[b].egress, gone))
  }

  /** __ofmirror_destroy(mirror, 1) on each of them. */
  function DestroyMirrors(s: State, gone: set<MirrorPtr>): State {
    s.(bundles := Unlinked(s.bundles, gone), mirrors := s.mirrors - gone)
  }

  /** __ofmirror_destroy(mirror, 0): the mirror stays, with empty lists. */
  function ClearMirror(s: State, m: MirrorPtr): State
    requires m in s.mirrors
  {
    s.(bundles := Unlinked(s.bundles, {m}),
       mirrors := s.mirrors[m := s.mirrors[m].(ingressSrcs := [], egressSrcs := [])])
  }

  // ------------------------------------------------------------------ sources

  /** One turn of a source loop: link a free bundle, accept one's own, refuse another's. */
  function AddSource(s: State, m: MirrorPtr, b: BundlePtr, side: Side): (State, bool)
    requires m in s.mirrors && b in s.bundles
  {
    var l := LinkOf(s.bundles[b], side);
    if l.selfLinked then
      (s.(bundles := s.bundles[b := WithLink(s.bundles[b], side, Link(Some(m), false))],
          mirrors := s.mirrors[m := WithSrcs(s.mirrors[m], side, Srcs(s.mirrors[m], side) + [b])]),
       true)
    else (s, l.owner == Some(m))
  }

  /** A source loop; false is the EBUSY return. */
  function AddSources(s: State, m: MirrorPtr, srcs: seq<BundlePtr>, side: Side): (r: (State, bool))
    requires m in s.mirrors && forall b :: b in srcs ==> b in s.bundles
    ensures r.0.bundles.Keys == s.bundles.Keys && r.0.mirrors.Keys == s.mirrors.Keys
  {
    if srcs == [] then (s, true)
    else
      var n := |srcs| - 1;
      var r := AddSources(s, m, srcs[..n], side);
      if r.1 then AddSource(r.0, m, srcs[n], side) else r
  }

  // ------------------------------------------------------------------ mirror set

  /** The settings with their bundles already looked up. */
  datatype Settings = Settings(out: BundlePtr, srcs: seq<BundlePtr>, dsts: seq<BundlePtr>)

  predicate Resolved(s: State, ms: Settings) {
    && ms.out in s.bundles
    && (forall b :: b in ms.srcs ==> b in s.bundles)
    && (forall b :: b in ms.dsts ==> b in s.bundles)
  }

  predicate IsMirror(s: State, m: MirrorPtr, ofproto: OfprotoId, aux: Aux) {
    m in s.mirrors && s.mirrors[m].ofproto == ofproto && s.mirrors[m].aux == aux
  }

  function CreateMirror(s: State, ofproto: OfprotoId, aux: Aux, out: BundlePtr): State {
    s.(mirrors := s.mirrors[s.next := Mirror(ofproto, aux, out, [], [])], next := s.next + 1)
  }

  /** The mirror the settings apply to, before its sources: new, cleared, or replaced. */
  function Prepared(s: State, found: Option<MirrorPtr>, ofproto: OfprotoId, aux: Aux, out: BundlePtr): (State, MirrorPtr)
    requires found.Some? ==> found.value in s.mirrors
  {
    if found.None? then (CreateMirror(s, ofproto, aux, out), s.next)
    else if s.mirrors[found.value].out != out then
      (CreateMirror(DestroyMirrors(s, {found.value}), ofproto, aux, out), s.next)
    else (ClearMirror(s, found.value), found.value)
  }

  lemma PreparedKeys(s: State, found: Option<MirrorPtr>, ofproto: OfprotoId, aux: Aux, out: BundlePtr)
    requires found.Some? ==> found.value in s.mirrors
    ensures var r := Prepared(s, found, ofproto, aux, out);
            r.1 in r.0.mirrors && r.0.bundles.Keys == s.bundles.Keys
  {
  }

  /** __mirror_set with settings; false is EBUSY. */
  function SetMirror(s: State, found: Option<MirrorPtr>, ofproto: OfprotoId, aux: Aux, ms: Settings): (State, bool)
    requires (found.Some? ==> found.value in s.mirrors) && Resolved(s, ms)
  {
    PreparedKeys(s, found, ofproto, aux, ms.out);
    var p := Prepared(s, found, ofproto, aux, ms.out);
    var r := AddSources(p.0, p.1, ms.srcs, Ingress);
    if r.1 then AddSources(r.0, p.1, ms.dsts, Egress) else r
  }

  // ------------------------------------------------------------------ bundles

  /** __ofbundle_create */
  function CreateBundle(s: State, ofproto: OfprotoId, aux: Aux, cacheConfig: bool): State {
    s.(bundles := s.bundles[s.next := Bundle(ofproto, aux, UNLINKED, UNLINKED, cacheConfig)], next := s.next + 1)
  }

  /** The bundle leaves the lists it is on. */
  function LeaveLists(s: State, b: BundlePtr, side: Side): State
    requires b in s.bundles
  {
    var l := LinkOf(s.bundles[b], side);
    if l.owner.None? then s
    else s.(bundles := s.bundles[b := WithLink(s.bundles[b], side, UNLINKED)],
            mirrors := map m | m in s.mirrors ::
              if m == l.owner.value then WithSrcs(s.mirrors[m], side, Without(Srcs(s.mirrors[m], side), b))
              else s.mirrors[m])
  }

  /** The mirrors whose output bundle has the given aux, in any bridge. */
  function MirrorsTo(s: State, aux: Aux): set<MirrorPtr> {
    set m | m in s.mirrors && s.mirrors[m].out in s.bundles && s.bundles[s.mirrors[m].out].aux == aux
  }

  function Freed(s: State, b: BundlePtr, configOnly: bool): State {
    if configOnly then s else s.(bundles := s.bundles - {b})
  }

  /** The mirror part of __ofbundle_destroy. */
  function DestroyBundle(s: State, b: BundlePtr, configOnly: bool): State
    requires b in s.bundles
  {
    if s.bundles[b].cacheConfig then Freed(s, b, configOnly)
    else
      var left := LeaveLists(LeaveLists(s, b, Ingress), b, Egress);
      Freed(DestroyMirrors(left, MirrorsTo(left, s.bundles[b].aux)), b, configOnly)
  }

  // ------------------------------------------------------------------ caching a bundle's configuration

  function WithCache(s: State, b: BundlePtr, cached: bool): State
    requires b in s.bundles
  {
    s.(bundles := s.bundles[b := s.bundles[b].(cacheConfig := cached)])
  }

  lemma DestroyConfigKeys(s: State, b: BundlePtr)
    requires b in s.bundles
    ensures DestroyBundle(s, b, true).bundles.Keys == s.bundles.Keys
  {
  }

  /** ofproto_sai_bundle_disable: the configuration goes, the bundle stays and caches what comes. */
  function DisableBundle(s: State, b: BundlePtr): State
    requires b in s.bundles
  {
    DestroyConfigKeys(s, b);
    WithCache(DestroyBundle(s, b, true), b, true)
  }

  /** ofproto_sai_bundle_enable, as far as mirrors go. */
  function EnableBundle(s: State, b: BundlePtr): State
    requires b in s.bundles
  {
    WithCache(s, b, false)
  }
}
