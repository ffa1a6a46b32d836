/**
 What destroying a bundle or a mirror, and setting a mirror, do to the others: which mirrors
 survive, what they lose, and which bundles change owner.
 */
module MirrorEffects {
  import opened Options
  import opened MirrorState
  import opened MirrorProofs

  /** The mirror, but for one bundle that is no longer among its sources. */
  ghost predicate SameBut(m: Mirror, m': Mirror, b: BundlePtr) {
    SameHead(m, m') && forall side, c :: c in Srcs(m', side) <==> c in Srcs(m, side) && c != b
  }

  lemma LeaveListsEffect(s: State, b: BundlePtr, side: Side)
    requires Inv(s) && b in s.bundles
    ensures var s' := LeaveLists(s, b, side);
            && s'.mirrors.Keys == s.mirrors.Keys && s'.bundles.Keys == s.bundles.Keys
            && (forall m :: m in s.mirrors ==>
                  && SameHead(s.mirrors[m], s'.mirrors[m])
                  && (forall c :: c in Srcs(s'.mirrors[m], side) <==> c in Srcs(s.mirrors[m], side) && c != b)
                  && (forall t :: t != side ==> Srcs(s'.mirrors[m], t) == Srcs(s.mirrors[m], t)))
            && (forall c :: c in s.bundles && c != b ==> s'.bundles[c] == s.bundles[c])
            && s'.bundles[b] == WithLink(s.bundles[b], side, UNLINKED)
  {
    hide Without, NoDup, KeysOk, OutsLive;
    var l := LinkOf(s.bundles[b], side);
    var s' := LeaveLists(s, b, side);
    assert BundleOk(s, b, side);
    forall m, c | m in s.mirrors ensures c in Srcs(s'.mirrors[m], side) <==> c in Srcs(s.mirrors[m], side) && c != b {
      assert MirrorOk(s, m, side);
      WithoutElems(Srcs(s.mirrors[m], side), b);
    }
    if l.owner.None? {
      assert l == UNLINKED;
    }
  }

  /** Off both its lists, the bundle is free, and nobody else notices. */
  lemma LeftEffect(s: State, b: BundlePtr)
    requires Inv(s) && b in s.bundles
    ensures b in LeaveLists(s, b, Ingress).bundles
    ensures var left := LeaveLists(LeaveLists(s, b, Ingress), b, Egress);
            && left.mirrors.Keys == s.mirrors.Keys && left.bundles.Keys == s.bundles.Keys
            && (forall m :: m in s.mirrors ==> SameBut(s.mirrors[m], left.mirrors[m], b))
            && (forall c :: c in s.bundles && c != b ==> left.bundles[c] == s.bundles[c])
            && left.bundles[b] == s.bundles[b].(ingress := UNLINKED, egress := UNLINKED)
  {
    hide Inv, LeaveLists;
    LeaveListsEffect(s, b, Ingress);
    LeaveListsInv(s, b, Ingress);
    var s1 := LeaveLists(s, b, Ingress);
    LeaveListsEffect(s1, b, Egress);
    var left := LeaveLists(s1, b, Egress);
    forall m, side, c | m in s.mirrors
      ensures c in Srcs(left.mirrors[m], side) <==> c in Srcs(s.mirrors[m], side) && c != b
    {
      assert side == Ingress || side == Egress;
    }
  }

  lemma DestroyMirrorsEffect(s: State, gone: set<MirrorPtr>)
    ensures var s' := DestroyMirrors(s, gone);
            && s'.mirrors == s.mirrors - gone && s'.bundles.Keys == s.bundles.Keys && s'.next == s.next
            && forall c :: c in s.bundles ==>
                 s'.bundles[c] == s.bundles[c].(ingress := Unlink(s.bundles[c].ingress, gone),
                                                egress := Unlink(s.bundles[c].egress, gone))
  {
  }

  /** Whether a mirror outlives the destruction of bundle b: its output bundle has another aux. */
  predicate Survives(s: State, m: MirrorPtr, b: BundlePtr)
    requires b in s.bundles
  {
    m in s.mirrors && s.mirrors[m].out in s.bundles && s.bundles[s.mirrors[m].out].aux != s.bundles[b].aux
  }

  /** The link of a bundle whose owner may have been destroyed. */
  function LinkAfter(s: State, l: Link, b: BundlePtr): Link
    requires b in s.bundles
  {
    if l.owner.Some? && !Survives(s, l.owner.value, b) then UNLINKED else l
  }

  /** s' is what is left of s without bundle b and the mirrors that send to its aux. */
  ghost predicate Rid(s: State, s': State, b: BundlePtr, configOnly: bool)
    requires b in s.bundles
  {
    && (forall m :: m in s'.mirrors <==> Survives(s, m, b))
    && (forall m :: m in s'.mirrors ==> SameBut(s.mirrors[m], s'.mirrors[m], b))
    && (forall c :: c in s'.bundles <==> c in s.bundles && (c != b || configOnly))
    && (forall c :: c in s'.bundles && c != b ==>
          s'.bundles[c] == s.bundles[c].(ingress := LinkAfter(s, s.bundles[c].ingress, b),
                                         egress := LinkAfter(s, s.bundles[c].egress, b)))
    && (configOnly ==> s'.bundles[b] == s.bundles[b].(ingress := UNLINKED, egress := UNLINKED))
  }

  /**
   Destroying a bundle whose configuration is not cached: a mirror goes iff it sends to a
   bundle with the same aux. The others keep bridge, aux and output and lose just this bundle
   from their sources; every other bundle keeps its owner in each direction iff that mirror
   stays. The bundle itself is free, and there only when just its configuration was to go.
   */
  lemma DestroyBundleEffect(s: State, b: BundlePtr, configOnly: bool)
    requires Inv(s) && b in s.bundles && !s.bundles[b].cacheConfig
    ensures Rid(s, DestroyBundle(s, b, configOnly), b, configOnly)
  {
    LeftEffect(s, b);
    OwnersLive(s);
    hide Inv, LeaveLists, DestroyMirrors, SameBut, MirrorsTo, Survives, Rid;
    var left := LeaveLists(LeaveLists(s, b, Ingress), b, Egress);
    SweptMirrors(s, left, b);
    SurvivorsLive(s, b);
    RidOf(s, left, MirrorsTo(left, s.bundles[b].aux), b, configOnly);
  }

  lemma RidOf(s: State, left: State, gone: set<MirrorPtr>, b: BundlePtr, configOnly: bool)
    requires b in s.bundles && left.bundles.Keys == s.bundles.Keys && left.mirrors.Keys == s.mirrors.Keys
    requires forall m :: m in s.mirrors ==> SameBut(s.mirrors[m], left.mirrors[m], b) && (m in gone <==> !Survives(s, m, b))
    requires forall m :: Survives(s, m, b) ==> m in s.mirrors
    requires forall c :: c in s.bundles && c != b ==> left.bundles[c] == s.bundles[c]
    requires left.bundles[b] == s.bundles[b].(ingress := UNLINKED, egress := UNLINKED)
    requires forall c :: c in s.bundles ==>
               && (s.bundles[c].ingress.owner.Some? ==> s.bundles[c].ingress.owner.value in s.mirrors)
               && (s.bundles[c].egress.owner.Some? ==> s.bundles[c].egress.owner.value in s.mirrors)
    ensures Rid(s, Freed(DestroyMirrors(left, gone), b, configOnly), b, configOnly)
  {
    hide SameBut, Survives, DestroyMirrors;
    DestroyMirrorsEffect(left, gone);
  }

  /** Off the lists, the mirrors to sweep are those that do not survive. */
  lemma SweptMirrors(s: State, left: State, b: BundlePtr)
    requires Inv(s) && b in s.bundles && b in left.bundles && left.bundles.Keys == s.bundles.Keys
    requires left.mirrors.Keys == s.mirrors.Keys
    requires forall m :: m in s.mirrors ==> SameBut(s.mirrors[m], left.mirrors[m], b)
    requires forall c :: c in s.bundles && c != b ==> left.bundles[c] == s.bundles[c]
    requires left.bundles[b] == s.bundles[b].(ingress := UNLINKED, egress := UNLINKED)
    ensures forall m :: m in s.mirrors ==> (m in MirrorsTo(left, s.bundles[b].aux) <==> !Survives(s, m, b))
  {
    OutputsLive(s);
    hide Inv;
    forall m | m in s.mirrors ensures m in MirrorsTo(left, s.bundles[b].aux) <==> !Survives(s, m, b) {
      assert SameBut(s.mirrors[m], left.mirrors[m], b);
      assert left.bundles[s.mirrors[m].out].aux == s.bundles[s.mirrors[m].out].aux;
    }
  }

  lemma SurvivorsLive(s: State, b: BundlePtr)
    requires b in s.bundles
    ensures forall m :: Survives(s, m, b) ==> m in s.mirrors
  {
  }

  lemma OutputsLive(s: State)
    requires Inv(s)
    ensures forall m :: m in s.mirrors ==> s.mirrors[m].out in s.bundles
  {
  }

  lemma OwnersLive(s: State)
    requires Inv(s)
    ensures forall c :: c in s.bundles ==>
              && (s.bundles[c].ingress.owner.Some? ==> s.bundles[c].ingress.owner.value in s.mirrors)
              && (s.bundles[c].egress.owner.Some? ==> s.bundles[c].egress.owner.value in s.mirrors)
  {
    forall c | c in s.bundles
      ensures s.bundles[c].ingress.owner.Some? ==> s.bundles[c].ingress.owner.value in s.mirrors
      ensures s.bundles[c].egress.owner.Some? ==> s.bundles[c].egress.owner.value in s.mirrors
    {
      assert BundleOk(s, c, Ingress) && BundleOk(s, c, Egress);
    }
  }

  /** With a cached configuration nothing happens but that the bundle may be freed. */
  lemma DestroyCachedEffect(s: State, b: BundlePtr, configOnly: bool)
    requires b in s.bundles && s.bundles[b].cacheConfig
    ensures var s' := DestroyBundle(s, b, configOnly);
            s'.mirrors == s.mirrors && s'.bundles == if configOnly then s.bundles else s.bundles - {b}
  {
  }

  /** A disabled bundle watches nothing, is watched by nobody and remembers that it caches; enabling only forgets that. */
  lemma DisableThenEnable(s: State, b: BundlePtr)
    requires Inv(s) && b in s.bundles
    ensures var off := DisableBundle(s, b);
            && b in off.bundles && off.bundles[b].cacheConfig
            && (!s.bundles[b].cacheConfig ==> Unreferenced(off, b))
            && var on := EnableBundle(off, b);
               b in on.bundles && !on.bundles[b].cacheConfig && on.mirrors == off.mirrors
               && on.bundles[b := off.bundles[b]] == off.bundles
  {
    hide Inv, DestroyBundle;
    DestroyConfigKeys(s, b);
    var done := DestroyBundle(s, b, true);
    if !s.bundles[b].cacheConfig {
      DestroyBundleEffect(s, b, true);
      assert forall m :: m in done.mirrors ==> done.mirrors[m].out != b;
      var off := DisableBundle(s, b);
      forall side ensures LinkOf(off.bundles[b], side).owner.None? {
        assert side == Ingress || side == Egress;
      }
    }
  }

  // ------------------------------------------------------------------ mirrors

  /** Destroying a mirror, if there is one with bridge and aux, frees just its sources; other mirrors stay as they are. */
  lemma DestroyMirrorEffect(s: State, found: Option<MirrorPtr>, ofproto: OfprotoId, aux: Aux)
    requires Inv(s) && Found(s, found, ofproto, aux)
    ensures var s' := Apply(s, MirrorDestroy(found, ofproto, aux));
            && (forall m :: !IsMirror(s', m, ofproto, aux))
            && (forall m :: m in s.mirrors && !IsMirror(s, m, ofproto, aux) ==> m in s'.mirrors && s'.mirrors[m] == s.mirrors[m])
            && s'.mirrors.Keys <= s.mirrors.Keys && s'.bundles.Keys == s.bundles.Keys
            && forall b, side :: b in s.bundles ==>
                 LinkOf(s'.bundles[b], side)
                 == if found.Some? && b in Srcs(s.mirrors[found.value], side) then UNLINKED else LinkOf(s.bundles[b], side)
  {
    if found.Some? {
      assert IsMirror(s, found.value, ofproto, aux);
      DestroyMirrorsEffect(s, {found.value});
      forall b, side | b in s.bundles
        ensures b in Srcs(s.mirrors[found.value], side) <==> LinkOf(s.bundles[b], side).owner == found
      {
        ListedIffOwned(s, found.value, b, side);
      }
    }
    hide Inv, DestroyMirrors;
  }

  lemma {:induction false} AddSourcesOthers(s: State, m: MirrorPtr, srcs: seq<BundlePtr>, side: Side, n: MirrorPtr)
    requires m in s.mirrors && n in s.mirrors && n != m && forall b :: b in srcs ==> b in s.bundles
    ensures AddSources(s, m, srcs, side).0.mirrors[n] == s.mirrors[n]
  {
    if srcs != [] {
      AddSourcesOthers(s, m, srcs[..|srcs| - 1], side, n);
    }
  }

  /** A source loop only adds to the end of the mirror's list. */
  lemma {:induction false} AddSourcesAppends(s: State, m: MirrorPtr, srcs: seq<BundlePtr>, side: Side)
    requires m in s.mirrors && forall b :: b in srcs ==> b in s.bundles
    ensures Srcs(s.mirrors[m], side) <= Srcs(AddSources(s, m, srcs, side).0.mirrors[m], side)
  {
    if srcs != [] {
      AddSourcesAppends(s, m, srcs[..|srcs| - 1], side);
    }
  }

  /** A refused source loop has done what it does for the sources before the first that is not available. */
  lemma {:induction false} AddSourcesStops(s: State, m: MirrorPtr, srcs: seq<BundlePtr>, side: Side) returns (k: nat)
    requires Inv(s) && m in s.mirrors && (forall b :: b in srcs ==> b in s.bundles) && !AddSources(s, m, srcs, side).1
    ensures k < |srcs| && forall b :: b in srcs[..k] ==> b in s.bundles
    ensures AddSources(s, m, srcs, side).0 == AddSources(s, m, srcs[..k], side).0 && AddSources(s, m, srcs[..k], side).1
    ensures LinkOf(s.bundles[srcs[k]], side).owner.Some? && LinkOf(s.bundles[srcs[k]], side).owner != Some(m)
  {
    hide Inv;
    var n := |srcs| - 1;
    if AddSources(s, m, srcs[..n], side).1 {
      k := n;
      AddSourcesMeaning(s, m, srcs[..n], side);
      AddSourcesInv(s, m, srcs[..n], side);
      SelfLinkedIffFree(AddSources(s, m, srcs[..n], side).0, srcs[n], side);
    } else {
      k := AddSourcesStops(s, m, srcs[..n], side);
      assert srcs[..n][..k] == srcs[..k];
    }
  }

  /** Setting a mirror, refused or not, leaves every other mirror as it is. */
  lemma SetMirrorOthers(s: State, found: Option<MirrorPtr>, ofproto: OfprotoId, aux: Aux, ms: Settings, n: MirrorPtr)
    requires Inv(s) && Found(s, found, ofproto, aux) && Resolved(s, ms)
    requires n in s.mirrors && !IsMirror(s, n, ofproto, aux)
    ensures found.Some? ==> found.value in s.mirrors
    ensures var s' := SetMirror(s, found, ofproto, aux, ms).0; n in s'.mirrors && s'.mirrors[n] == s.mirrors[n]
  {
    if found.Some? {
      assert IsMirror(s, found.value, ofproto, aux);
    }
    NextIsFresh(s);
    PreparedKeys(s, found, ofproto, aux, ms.out);
    var p := Prepared(s, found, ofproto, aux, ms.out);
    assert n in p.0.mirrors && p.0.mirrors[n] == s.mirrors[n] && n != p.1;
    hide Inv, Prepared, AddSource;
    AddSourcesOthers(p.0, p.1, ms.srcs, Ingress, n);
    var r := AddSources(p.0, p.1, ms.srcs, Ingress);
    if r.1 {
      AddSourcesOthers(r.0, p.1, ms.dsts, Egress, n);
    }
  }
}
