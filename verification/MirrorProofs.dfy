/**
 What every operation on mirrors and bundles keeps, when setting a mirror is refused, and
 the one way in which a reference can dangle.
 */
module MirrorProofs {
  import opened Options
  import opened MirrorState

  lemma DestroyMirrorsInv(s: State, gone: set<MirrorPtr>)
    requires Inv(s)
    ensures Inv(DestroyMirrors(s, gone))
  {
    var s' := DestroyMirrors(s, gone);
    forall b, side | b in s'.bundles ensures BundleOk(s', b, side) {
      assert BundleOk(s, b, side);
    }
    forall m, side | m in s'.mirrors ensures MirrorOk(s', m, side) {
      assert MirrorOk(s, m, side);
    }
  }

  lemma ClearMirrorInv(s: State, m: MirrorPtr)
    requires Inv(s) && m in s.mirrors
    ensures Inv(ClearMirror(s, m))
  {
    var s' := ClearMirror(s, m);
    forall b, side | b in s'.bundles ensures BundleOk(s', b, side) {
      assert BundleOk(s, b, side);
    }
    forall n, side | n in s'.mirrors ensures MirrorOk(s', n, side) {
      assert MirrorOk(s, n, side);
    }
  }

  lemma AddSourceInv(s: State, m: MirrorPtr, b: BundlePtr, side: Side)
    requires Inv(s) && m in s.mirrors && b in s.bundles
    ensures Inv(AddSource(s, m, b, side).0)
  {
    var s' := AddSource(s, m, b, side).0;
    assert BundleOk(s, b, side) && MirrorOk(s, m, side);
    forall c, t | c in s'.bundles ensures BundleOk(s', c, t) {
      assert BundleOk(s, c, t);
    }
    forall n, t | n in s'.mirrors ensures MirrorOk(s', n, t) {
      assert MirrorOk(s, n, t);
    }
  }

  lemma {:induction false} AddSourcesInv(s: State, m: MirrorPtr, srcs: seq<BundlePtr>, side: Side)
    requires Inv(s) && m in s.mirrors && forall b :: b in srcs ==> b in s.bundles
    ensures Inv(AddSources(s, m, srcs, side).0)
  {
    hide Inv, AddSource;
    if srcs != [] {
      var n := |srcs| - 1;
      AddSourcesInv(s, m, srcs[..n], side);
      var r := AddSources(s, m, srcs[..n], side);
      AddSourceInv(r.0, m, srcs[n], side);
    }
  }

  lemma CreateMirrorInv(s: State, ofproto: OfprotoId, aux: Aux, out: BundlePtr)
    requires Inv(s) && out in s.bundles
    requires forall m :: !IsMirror(s, m, ofproto, aux)
    ensures Inv(CreateMirror(s, ofproto, aux, out))
  {
    var s' := CreateMirror(s, ofproto, aux, out);
    forall b, side | b in s'.bundles ensures BundleOk(s', b, side) {
      assert BundleOk(s, b, side);
    }
    forall m, side | m in s'.mirrors ensures MirrorOk(s', m, side) {
      assert m in s.mirrors ==> MirrorOk(s, m, side);
    }
    assert forall m :: m in s.mirrors ==> !IsMirror(s, m, ofproto, aux);
  }

  /** `found` is what looking a mirror up by bridge and aux gives. */
  ghost predicate Found(s: State, found: Option<MirrorPtr>, ofproto: OfprotoId, aux: Aux) {
    forall m: MirrorPtr :: IsMirror(s, m, ofproto, aux) <==> found == Some(m)
  }

  lemma PreparedInv(s: State, found: Option<MirrorPtr>, ofproto: OfprotoId, aux: Aux, out: BundlePtr)
    requires Inv(s) && Found(s, found, ofproto, aux) && out in s.bundles
    ensures found.Some? ==> found.value in s.mirrors
    ensures Inv(Prepared(s, found, ofproto, aux, out).0)
  {
    hide Inv, DestroyMirrors, ClearMirror;
    if found.Some? {
      var m := found.value;
      assert IsMirror(s, m, ofproto, aux);
      DestroyMirrorsInv(s, {m});
      ClearMirrorInv(s, m);
      var d := DestroyMirrors(s, {m});
      DestroyMirrorsFrame(s, {m});
      assert forall n :: !IsMirror(d, n, ofproto, aux) by {
        assert forall n :: IsMirror(d, n, ofproto, aux) ==> IsMirror(s, n, ofproto, aux) && n != m;
      }
      CreateMirrorInv(d, ofproto, aux, out);
    } else {
      CreateMirrorInv(s, ofproto, aux, out);
    }
  }

  lemma DestroyMirrorsFrame(s: State, gone: set<MirrorPtr>)
    ensures var d := DestroyMirrors(s, gone);
            d.mirrors == s.mirrors - gone && d.bundles.Keys == s.bundles.Keys && d.next == s.next
  {
  }

  lemma SetMirrorInv(s: State, found: Option<MirrorPtr>, ofproto: OfprotoId, aux: Aux, ms: Settings)
    requires Inv(s) && Found(s, found, ofproto, aux) && Resolved(s, ms)
    ensures found.Some? ==> found.value in s.mirrors
    ensures Inv(SetMirror(s, found, ofproto, aux, ms).0)
  {
    hide Inv, Prepared, AddSources;
    PreparedInv(s, found, ofproto, aux, ms.out);
    PreparedKeys(s, found, ofproto, aux, ms.out);
    var p := Prepared(s, found, ofproto, aux, ms.out);
    AddSourcesInv(p.0, p.1, ms.srcs, Ingress);
    var r := AddSources(p.0, p.1, ms.srcs, Ingress);
    AddSourcesInv(r.0, p.1, ms.dsts, Egress);
  }

  // ------------------------------------------------------------------ destroying bundles

  lemma LeaveListsBundles(s: State, b: BundlePtr, side: Side)
    requires Inv(s) && b in s.bundles
    ensures var s' := LeaveLists(s, b, side);
            forall c, t :: c in s'.bundles ==> BundleOk(s', c, t)
  {
    hide Without, NoDup, KeysOk, OutsLive;
    var s' := LeaveLists(s, b, side);
    var l := LinkOf(s.bundles[b], side);
    assert BundleOk(s, b, side);
    if l.owner.Some? {
      assert MirrorOk(s, l.owner.value, side);
      WithoutElems(Srcs(s.mirrors[l.owner.value], side), b);
    }
    forall c, t | c in s'.bundles ensures BundleOk(s', c, t) {
      assert BundleOk(s, c, t);
    }
  }

  lemma LeaveListsMirrors(s: State, b: BundlePtr, side: Side)
    requires Inv(s) && b in s.bundles
    ensures var s' := LeaveLists(s, b, side);
            forall m, t :: m in s'.mirrors ==> MirrorOk(s', m, t)
  {
    hide Without, NoDup, KeysOk, OutsLive;
    var s' := LeaveLists(s, b, side);
    var l := LinkOf(s.bundles[b], side);
    assert BundleOk(s, b, side);
    if l.owner.Some? {
      assert MirrorOk(s, l.owner.value, side);
      WithoutElems(Srcs(s.mirrors[l.owner.value], side), b);
    }
    forall m, t | m in s'.mirrors ensures MirrorOk(s', m, t) {
      assert MirrorOk(s, m, t);
    }
  }

  lemma LeaveListsInv(s: State, b: BundlePtr, side: Side)
    requires Inv(s) && b in s.bundles
    ensures Inv(LeaveLists(s, b, side))
    ensures LinkOf(LeaveLists(s, b, side).bundles[b], side).owner.None?
  {
    hide Without, BundleOk, MirrorOk;
    LeaveListsBundles(s, b, side);
    LeaveListsMirrors(s, b, side);
  }

  lemma LeaveListsFrame(s: State, b: BundlePtr, side: Side)
    requires b in s.bundles
    ensures var s' := LeaveLists(s, b, side);
            && s'.bundles.Keys == s.bundles.Keys && s'.mirrors.Keys == s.mirrors.Keys
            && s'.bundles[b].aux == s.bundles[b].aux
            && (forall t :: t != side ==> LinkOf(s'.bundles[b], t) == LinkOf(s.bundles[b], t))
  {
  }

  /** Nothing refers to the bundle: no mirror lists it, owns it or sends to it. */
  ghost predicate Unreferenced(s: State, b: BundlePtr)
    requires b in s.bundles
  {
    && (forall side :: LinkOf(s.bundles[b], side).owner.None?)
    && (forall m :: m in s.mirrors ==> s.mirrors[m].out != b)
  }

  lemma FreeInv(s: State, b: BundlePtr)
    requires Inv(s) && b in s.bundles && Unreferenced(s, b)
    ensures Inv(Freed(s, b, false))
  {
    var s' := Freed(s, b, false);
    forall c, side | c in s'.bundles ensures BundleOk(s', c, side) {
      assert BundleOk(s, c, side);
    }
    forall m, side | m in s'.mirrors ensures MirrorOk(s', m, side) {
      assert MirrorOk(s, m, side);
    }
  }

  /** Freeing a bundle that something refers to leaves that reference dangling. */
  lemma FreeDangles(s: State, b: BundlePtr)
    requires Inv(s) && b in s.bundles && !Unreferenced(s, b)
    ensures !Inv(Freed(s, b, false))
  {
    var s' := Freed(s, b, false);
    if m :| m in s.mirrors && s.mirrors[m].out == b {
      assert m in s'.mirrors && s'.mirrors[m].out !in s'.bundles;
    } else {
      var side :| LinkOf(s.bundles[b], side).owner.Some?;
      assert BundleOk(s, b, side);
      var m := LinkOf(s.bundles[b], side).owner.value;
      assert b in Srcs(s'.mirrors[m], side);
      assert !MirrorOk(s', m, side);
    }
  }

  lemma LeftInv(s: State, b: BundlePtr)
    requires Inv(s) && b in s.bundles
    ensures var left := LeaveLists(LeaveLists(s, b, Ingress), b, Egress);
            var done := DestroyMirrors(left, MirrorsTo(left, s.bundles[b].aux));
            Inv(done) && b in done.bundles && Unreferenced(done, b)
  {
    hide Inv, LeaveLists, DestroyMirrors;
    LeaveListsInv(s, b, Ingress);
    LeaveListsFrame(s, b, Ingress);
    var s1 := LeaveLists(s, b, Ingress);
    LeaveListsInv(s1, b, Egress);
    LeaveListsFrame(s1, b, Egress);
    var left := LeaveLists(s1, b, Egress);
    var gone := MirrorsTo(left, s.bundles[b].aux);
    DestroyMirrorsInv(left, gone);
    assert forall side :: LinkOf(left.bundles[b], side).owner.None? by {
      assert LinkOf(left.bundles[b], Ingress).owner.None? && LinkOf(left.bundles[b], Egress).owner.None?;
    }
    DestroyedUnreferenced(left, b, gone);
  }

  lemma DestroyedUnreferenced(left: State, b: BundlePtr, gone: set<MirrorPtr>)
    requires b in left.bundles && gone == MirrorsTo(left, left.bundles[b].aux)
    requires forall side :: LinkOf(left.bundles[b], side).owner.None?
    ensures var done := DestroyMirrors(left, gone); b in done.bundles && Unreferenced(done, b)
  {
    var done := DestroyMirrors(left, gone);
    forall side ensures LinkOf(done.bundles[b], side).owner.None? {
      assert LinkOf(left.bundles[b], side).owner.None?;
      assert LinkOf(done.bundles[b], side) == Unlink(LinkOf(left.bundles[b], side), gone);
    }
  }

  /**
   Destroying a bundle keeps every reference live, exactly unless its configuration is only
   cached, the bundle is freed, and some mirror still watches it or sends to it.
   */
  lemma DestroyBundleIff(s: State, b: BundlePtr, configOnly: bool)
    requires Inv(s) && b in s.bundles
    ensures Inv(DestroyBundle(s, b, configOnly))
            <==> !(s.bundles[b].cacheConfig && !configOnly && !Unreferenced(s, b))
  {
    hide Inv, LeaveLists, DestroyMirrors;
    LeftInv(s, b);
    LeaveListsFrame(s, b, Ingress);
    var left := LeaveLists(LeaveLists(s, b, Ingress), b, Egress);
    var done := DestroyMirrors(left, MirrorsTo(left, s.bundles[b].aux));
    FreeInv(done, b);
    if Unreferenced(s, b) {
      FreeInv(s, b);
    } else {
      FreeDangles(s, b);
    }
  }

  lemma CreateBundleInv(s: State, ofproto: OfprotoId, aux: Aux, cacheConfig: bool)
    requires Inv(s)
    requires forall b :: b in s.bundles ==> !(s.bundles[b].ofproto == ofproto && s.bundles[b].aux == aux)
    ensures Inv(CreateBundle(s, ofproto, aux, cacheConfig))
  {
    var s' := CreateBundle(s, ofproto, aux, cacheConfig);
    forall c, side | c in s'.bundles ensures BundleOk(s', c, side) {
      assert c in s.bundles ==> BundleOk(s, c, side);
    }
    forall m, side | m in s'.mirrors ensures MirrorOk(s', m, side) {
      assert MirrorOk(s, m, side);
    }
  }

  lemma WithCacheInv(s: State, b: BundlePtr, cached: bool)
    requires b in s.bundles
    ensures Inv(WithCache(s, b, cached)) <==> Inv(s)
  {
    var s' := WithCache(s, b, cached);
    if Inv(s) {
      CachedInv(s, s', b);
    }
    if Inv(s') {
      assert s'.bundles[b := s.bundles[b]] == s.bundles;
      CachedInv(s', s, b);
    }
  }

  lemma CachedInv(s: State, s': State, b: BundlePtr)
    requires Inv(s) && b in s.bundles && b in s'.bundles
    requires s' == s.(bundles := s.bundles[b := s.bundles[b].(cacheConfig := s'.bundles[b].cacheConfig)])
    ensures Inv(s')
  {
    hide NoDup;
    forall c, side | c in s'.bundles ensures BundleOk(s', c, side) {
      assert BundleOk(s, c, side);
    }
    forall m, side | m in s'.mirrors ensures MirrorOk(s', m, side) {
      assert MirrorOk(s, m, side);
    }
  }

  // ------------------------------------------------------------------ what a set achieves

  /** Everything but the source lists. */
  predicate SameHead(m: Mirror, m': Mirror) {
    m'.out == m.out && m'.ofproto == m.ofproto && m'.aux == m.aux
  }

  /** The mirror is the one for bridge and aux, with the output and sources of the settings. */
  ghost predicate Realises(s: State, m: MirrorPtr, ofproto: OfprotoId, aux: Aux, ms: Settings) {
    && IsMirror(s, m, ofproto, aux)
    && s.mirrors[m].out == ms.out
    && (forall b :: b in Srcs(s.mirrors[m], Ingress) <==> b in ms.srcs)
    && (forall b :: b in Srcs(s.mirrors[m], Egress) <==> b in ms.dsts)
  }

  /** A source loop succeeds exactly when every source is free or already the mirror's own. */
  lemma {:induction false} AddSourcesMeaning(s: State, m: MirrorPtr, srcs: seq<BundlePtr>, side: Side)
    requires Inv(s) && m in s.mirrors && forall b :: b in srcs ==> b in s.bundles
    ensures var r := AddSources(s, m, srcs, side);
            && (r.1 <==> forall b :: b in srcs ==>
                  LinkOf(s.bundles[b], side).owner == None || LinkOf(s.bundles[b], side).owner == Some(m))
            && (r.1 ==> forall b :: b in s.bundles ==>
                  LinkOf(r.0.bundles[b], side).owner == if b in srcs then Some(m) else LinkOf(s.bundles[b], side).owner)
            && (forall b, t :: b in s.bundles && t != side ==> LinkOf(r.0.bundles[b], t) == LinkOf(s.bundles[b], t))
            && (forall n :: n in s.mirrors ==> SameHead(s.mirrors[n], r.0.mirrors[n]))
  {
    hide Inv;
    if srcs != [] {
      var n := |srcs| - 1;
      AddSourcesMeaning(s, m, srcs[..n], side);
      AddSourcesInv(s, m, srcs[..n], side);
      var r := AddSources(s, m, srcs[..n], side);
      assert forall b :: b in srcs <==> b in srcs[..n] || b == srcs[n];
      SelfLinkedIffFree(r.0, srcs[n], side);
    }
  }

  lemma SelfLinkedIffFree(s: State, b: BundlePtr, side: Side)
    requires Inv(s) && b in s.bundles
    ensures LinkOf(s.bundles[b], side).selfLinked <==> LinkOf(s.bundles[b], side).owner.None?
  {
    assert BundleOk(s, b, side);
  }

  /** Free, or owned by the mirror being set. */
  predicate Available(s: State, found: Option<MirrorPtr>, b: BundlePtr, side: Side)
    requires b in s.bundles
  {
    LinkOf(s.bundles[b], side).owner == None || LinkOf(s.bundles[b], side).owner == found
  }

  lemma PreparedMeaning(s: State, found: Option<MirrorPtr>, ofproto: OfprotoId, aux: Aux, out: BundlePtr)
    requires Inv(s) && Found(s, found, ofproto, aux) && out in s.bundles
    requires found.Some? ==> found.value in s.mirrors
    ensures var (p, m) := Prepared(s, found, ofproto, aux, out);
            && m in p.mirrors && IsMirror(p, m, ofproto, aux) && p.mirrors[m].out == out
            && p.bundles.Keys == s.bundles.Keys
            && (forall b, side :: b in s.bundles ==>
                  LinkOf(p.bundles[b], side).owner
                  == if LinkOf(s.bundles[b], side).owner == found then None else LinkOf(s.bundles[b], side).owner)
            && (forall b, side :: b in s.bundles ==> LinkOf(p.bundles[b], side).owner != Some(m))
  {
    hide KeysOk, OutsLive, MirrorOk;
    var (p, m) := Prepared(s, found, ofproto, aux, out);
    assert found.Some? ==> IsMirror(s, found.value, ofproto, aux);
    forall b, side | b in s.bundles ensures LinkOf(p.bundles[b], side).owner != Some(m) {
      assert BundleOk(s, b, side);
      if m == s.next && s.next in s.mirrors {
        NextIsFresh(s);
      }
    }
  }

  lemma NextIsFresh(s: State)
    requires Inv(s)
    ensures s.next !in s.mirrors && s.next !in s.bundles
  {
  }

  /**
   Setting a mirror succeeds exactly when every source is available in its direction, and
   then the mirror sends to the requested output and owns exactly the requested sources.
   */
  lemma SetMirrorMeaning(s: State, found: Option<MirrorPtr>, ofproto: OfprotoId, aux: Aux, ms: Settings)
    requires Inv(s) && Found(s, found, ofproto, aux) && Resolved(s, ms)
    ensures found.Some? ==> found.value in s.mirrors
    ensures var r := SetMirror(s, found, ofproto, aux, ms);
            && (r.1 <==> (forall b :: b in ms.srcs ==> Available(s, found, b, Ingress))
                         && (forall b :: b in ms.dsts ==> Available(s, found, b, Egress)))
            && (r.1 ==> exists m :: Realises(r.0, m, ofproto, aux, ms))
  {
    hide Inv, Prepared, AddSources;
    PreparedInv(s, found, ofproto, aux, ms.out);
    PreparedMeaning(s, found, ofproto, aux, ms.out);
    var (p, m) := Prepared(s, found, ofproto, aux, ms.out);
    AddSourcesMeaning(p, m, ms.srcs, Ingress);
    AddSourcesInv(p, m, ms.srcs, Ingress);
    var r := AddSources(p, m, ms.srcs, Ingress);
    if r.1 {
      AddSourcesMeaning(r.0, m, ms.dsts, Egress);
      AddSourcesInv(r.0, m, ms.dsts, Egress);
      var r' := AddSources(r.0, m, ms.dsts, Egress);
      if r'.1 {
        forall b ensures b in Srcs(r'.0.mirrors[m], Ingress) <==> b in ms.srcs {
          ListedIffOwned(r'.0, m, b, Ingress);
        }
        forall b ensures b in Srcs(r'.0.mirrors[m], Egress) <==> b in ms.dsts {
          ListedIffOwned(r'.0, m, b, Egress);
        }
        assert Realises(r'.0, m, ofproto, aux, ms);
      }
    }
  }

  /** A bundle is on a mirror's list in a direction iff the mirror owns it there. */
  lemma ListedIffOwned(s: State, m: MirrorPtr, b: BundlePtr, side: Side)
    requires Inv(s) && m in s.mirrors
    ensures b in Srcs(s.mirrors[m], side) <==> b in s.bundles && LinkOf(s.bundles[b], side).owner == Some(m)
  {
    assert MirrorOk(s, m, side);
    assert b in s.bundles ==> BundleOk(s, b, side);
  }

  // ------------------------------------------------------------------ runs

  datatype Op =
    | MirrorSet(found: Option<MirrorPtr>, ofproto: OfprotoId, aux: Aux, ms: Settings)
    | MirrorDestroy(found: Option<MirrorPtr>, ofproto: OfprotoId, aux: Aux)
    | BundleCreate(ofproto: OfprotoId, aux: Aux, cacheConfig: bool)
    | BundleDestroy(b: BundlePtr, configOnly: bool)
    | BundleDisable(b: BundlePtr)
    | BundleEnable(b: BundlePtr)

  ghost predicate Legal(s: State, op: Op) {
    match op
    case MirrorSet(found, ofproto, aux, ms) => Found(s, found, ofproto, aux) && Resolved(s, ms)
    case MirrorDestroy(found, ofproto, aux) => Found(s, found, ofproto, aux)
    case BundleCreate(ofproto, aux, _) =>
      forall b :: b in s.bundles ==> !(s.bundles[b].ofproto == ofproto && s.bundles[b].aux == aux)
    case BundleDestroy(b, configOnly) =>
      b in s.bundles && (s.bundles[b].cacheConfig ==> configOnly || Unreferenced(s, b))
    case BundleDisable(b) => b in s.bundles
    case BundleEnable(b) => b in s.bundles
  }

  function Apply(s: State, op: Op): State {
    match op
    case MirrorSet(found, ofproto, aux, ms) =>
      if (found.Some? ==> found.value in s.mirrors) && Resolved(s, ms)
      then SetMirror(s, found, ofproto, aux, ms).0 else s
    case MirrorDestroy(found, _, _) => if found.Some? then DestroyMirrors(s, {found.value}) else s
    case BundleCreate(ofproto, aux, cacheConfig) => CreateBundle(s, ofproto, aux, cacheConfig)
    case BundleDestroy(b, configOnly) => if b in s.bundles then DestroyBundle(s, b, configOnly) else s
    case BundleDisable(b) => if b in s.bundles then DisableBundle(s, b) else s
    case BundleEnable(b) => if b in s.bundles then EnableBundle(s, b) else s
  }

  lemma ApplyInv(s: State, op: Op)
    requires Inv(s) && Legal(s, op)
    ensures Inv(Apply(s, op))
  {
    hide Inv, SetMirror, DestroyMirrors, DestroyBundle, WithCache;
    match op
    case MirrorSet(found, ofproto, aux, ms) => SetMirrorInv(s, found, ofproto, aux, ms);
    case MirrorDestroy(found, _, _) =>
      if found.Some? {
        DestroyMirrorsInv(s, {found.value});
      }
    case BundleCreate(ofproto, aux, cacheConfig) => CreateBundleInv(s, ofproto, aux, cacheConfig);
    case BundleDestroy(b, configOnly) => DestroyBundleIff(s, b, configOnly);
    case BundleDisable(b) =>
      DestroyBundleIff(s, b, true);
      DestroyConfigKeys(s, b);
      WithCacheInv(DestroyBundle(s, b, true), b, true);
    case BundleEnable(b) => WithCacheInv(s, b, false);
  }

  /** Ownership holds in every state of every run, refused settings included. */
  lemma {:induction false} OwnershipOverRuns(states: seq<State>, ops: seq<Op>, n: nat)
    requires |states| == |ops| + 1 && n < |states| && states[0] == State(map[], map[], 0)
    requires forall i :: 0 <= i < |ops| ==> Legal(states[i], ops[i]) && states[i + 1] == Apply(states[i], ops[i])
    ensures Inv(states[n])
  {
    hide Legal, Apply;
    if n > 0 {
      OwnershipOverRuns(states, ops, n - 1);
      ApplyInv(states[n - 1], ops[n - 1]);
    }
  }

  // ------------------------------------------------------------------ the dangling reference, concretely

  /** After a bundle was created, disabled and made the output of a mirror. */
  function CachedOutput(): State {
    State(map[0 := Bundle(0, 1, UNLINKED, UNLINKED, true)], map[1 := Mirror(0, 9, 0, [], [])], 2)
  }

  lemma CachedOutputReached()
    ensures var s1 := CreateBundle(State(map[], map[], 0), 0, 1, false);
            && 0 in s1.bundles && Resolved(DisableBundle(s1, 0), Settings(0, [], []))
            && SetMirror(DisableBundle(s1, 0), None, 0, 9, Settings(0, [], [])) == (CachedOutput(), true)
  {
    var s1 := CreateBundle(State(map[], map[], 0), 0, 1, false);
    var off := WithCache(s1, 0, true);
    assert Unlinked(s1.bundles, {}) == s1.bundles && MirrorsTo(s1, 1) == {};
    assert s1.mirrors - {} == s1.mirrors;
    assert DisableBundle(s1, 0) == off;
    assert off.bundles == map[0 := Bundle(0, 1, UNLINKED, UNLINKED, true)];
    assert AddSources(CachedOutput(), 1, [], Ingress) == (CachedOutput(), true);
    assert AddSources(CachedOutput(), 1, [], Egress) == (CachedOutput(), true);
  }

  /** Create, disable, mirror to it, destroy: every step but the last keeps ownership, and then the output dangles. */
  lemma CachedDestroyRun() returns (states: seq<State>, ops: seq<Op>)
    ensures ops == [BundleCreate(0, 1, false), BundleDisable(0), MirrorSet(None, 0, 9, Settings(0, [], [])),
                    BundleDestroy(0, false)]
    ensures |states| == 5 && states[0] == State(map[], map[], 0)
    ensures forall i :: 0 <= i < 4 ==> states[i + 1] == Apply(states[i], ops[i]) && (i < 3 ==> Legal(states[i], ops[i]))
    ensures !Inv(states[4]) && states[4].bundles == map[] && 1 in states[4].mirrors && states[4].mirrors[1].out == 0
  {
    hide SetMirror, Inv, DisableBundle;
    var s0 := State(map[], map[], 0);
    var s1 := CreateBundle(s0, 0, 1, false);
    CachedOutputReached();
    ops := [BundleCreate(0, 1, false), BundleDisable(0), MirrorSet(None, 0, 9, Settings(0, [], [])), BundleDestroy(0, false)];
    states := [s0, s1, DisableBundle(s1, 0), CachedOutput(), Freed(CachedOutput(), 0, false)];
    assert forall m: MirrorPtr :: !IsMirror(DisableBundle(s1, 0), m, 0, 9) by {
      DisabledHasNoMirrors();
    }
    assert CachedOutput().bundles - {0} == map[];
    assert 1 in states[4].mirrors;
    OutDangles(states[4]);
  }

  lemma DisabledHasNoMirrors()
    ensures var s1 := CreateBundle(State(map[], map[], 0), 0, 1, false);
            0 in s1.bundles && DisableBundle(s1, 0).mirrors == map[]
  {
  }

  lemma OutDangles(s: State)
    requires s.bundles == map[] && s.mirrors != map[]
    ensures !Inv(s)
  {
    var m :| m in s.mirrors;
    assert s.mirrors[m].out !in s.bundles;
  }
}
