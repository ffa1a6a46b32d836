/**
 The imperative mirror code: the source loops with their early EBUSY return, the loops that
 take bundles off a mirror's lists, and the sweep over all mirrors when a bundle goes.
 */
module MirrorManager {
  import opened Options
  import opened MirrorState
  import opened MirrorProofs

  /** The bundles of a prefix of a list, freed in one direction. */
  function FreeListed(bundles: map<BundlePtr, Bundle>, listed: seq<BundlePtr>, side: Side): map<BundlePtr, Bundle> {
    map b | b in bundles :: if b in listed then WithLink(bundles[b], side, UNLINKED) else bundles[b]
  }

  lemma FreeListedStep(bundles: map<BundlePtr, Bundle>, listed: seq<BundlePtr>, i: nat, side: Side)
    requires i < |listed| && listed[i] in bundles
    ensures var before := FreeListed(bundles, listed[..i], side);
            FreeListed(bundles, listed[..i + 1], side)
            == before[listed[i] := WithLink(before[listed[i]], side, UNLINKED)]
  {
    assert forall b :: b in listed[..i + 1] <==> b in listed[..i] || b == listed[i];
  }

  lemma FreeListedKeys(bundles: map<BundlePtr, Bundle>, listed: seq<BundlePtr>, side: Side)
    ensures FreeListed(bundles, listed, side).Keys == bundles.Keys
  {
  }

  /** Freeing both lists of a mirror is freeing everything it owns. */
  lemma FreeBothLists(s: State, m: MirrorPtr)
    requires Inv(s) && m in s.mirrors
    ensures FreeListed(FreeListed(s.bundles, s.mirrors[m].ingressSrcs, Ingress), s.mirrors[m].egressSrcs, Egress)
            == Unlinked(s.bundles, {m})
  {
    forall b | b in s.bundles
      ensures FreeListed(FreeListed(s.bundles, s.mirrors[m].ingressSrcs, Ingress), s.mirrors[m].egressSrcs, Egress)[b]
              == Unlinked(s.bundles, {m})[b]
    {
      ListedIffOwned(s, m, b, Ingress);
      ListedIffOwned(s, m, b, Egress);
    }
  }

  lemma DestroyMoreMirrors(s: State, gone: set<MirrorPtr>, m: MirrorPtr)
    ensures DestroyMirrors(DestroyMirrors(s, gone), {m}) == DestroyMirrors(s, gone + {m})
  {
    assert (s.mirrors - gone) - {m} == s.mirrors - (gone + {m});
  }

  lemma DestroyNoMirrors(s: State)
    ensures DestroyMirrors(s, {}) == s
  {
  }

  lemma {:induction false} AddSourcesBusy(s: State, m: MirrorPtr, srcs: seq<BundlePtr>, side: Side, k: nat)
    requires m in s.mirrors && k <= |srcs| && forall b :: b in srcs ==> b in s.bundles
    requires !AddSources(s, m, srcs[..k], side).1
    ensures AddSources(s, m, srcs, side) == AddSources(s, m, srcs[..k], side)
  {
    if k < |srcs| {
      assert srcs[..|srcs| - 1][..k] == srcs[..k];
      AddSourcesBusy(s, m, srcs[..|srcs| - 1], side, k);
    } else {
      assert srcs[..k] == srcs;
    }
  }

  class Mirrors {
    var bundles: map<BundlePtr, Bundle>
    var mirrors: map<MirrorPtr, Mirror>
    var next: nat

    ghost function S(): State
      reads this
    {
      State(bundles, mirrors, next)
    }

    constructor ()
      ensures S() == State(map[], map[], 0) && Inv(S())
    {
      bundles, mirrors, next := map[], map[], 0;
    }

    /** The loop of __ofmirror_destroy over one of the mirror's lists. */
    method FreeSources(m: MirrorPtr, side: Side)
      requires m in mirrors && forall b :: b in Srcs(mirrors[m], side) ==> b in bundles
      modifies this
      ensures bundles == FreeListed(old(bundles), Srcs(old(mirrors)[m], side), side)
      ensures mirrors == old(mirrors)[m := WithSrcs(old(mirrors)[m], side, [])] && next == old(next)
    {
      var listed := Srcs(mirrors[m], side);
      for i := 0 to |listed|
        invariant bundles == FreeListed(old(bundles), listed[..i], side)
        invariant mirrors == old(mirrors) && next == old(next)
      {
        FreeListedStep(old(bundles), listed, i, side);
        bundles := bundles[listed[i] := WithLink(bundles[listed[i]], side, UNLINKED)];
      }
      assert listed[..|listed|] == listed;
      mirrors := mirrors[m := WithSrcs(mirrors[m], side, [])];
    }

    /** __ofmirror_destroy */
    method OfmirrorDestroy(m: MirrorPtr, all: bool)
      requires Inv(S()) && m in mirrors
      modifies this
      ensures Inv(S())
      ensures S() == if all then DestroyMirrors(old(S()), {m}) else ClearMirror(old(S()), m)
    {
      hide Inv, FreeListed, Unlinked;
      ghost var s := S();
      SourcesLive(s, m);
      DestroyMirrorsInv(s, {m});
      ClearMirrorInv(s, m);
      FreeBothLists(s, m);
      FreeSources(m, Ingress);
      FreeListedKeys(s.bundles, s.mirrors[m].ingressSrcs, Ingress);
      assert mirrors[m] == s.mirrors[m].(ingressSrcs := []);
      assert forall b :: b in Srcs(mirrors[m], Egress) ==> b in Srcs(s.mirrors[m], Egress);
      FreeSources(m, Egress);
      assert mirrors == s.mirrors[m := s.mirrors[m].(ingressSrcs := [], egressSrcs := [])];
      if all {
        mirrors := mirrors - {m};
        assert mirrors == s.mirrors - {m};
      }
    }

    /** __ofmirror_lookup */
    method OfmirrorLookup(ofproto: OfprotoId, aux: Aux) returns (found: Option<MirrorPtr>)
      requires Inv(S())
      ensures Found(S(), found, ofproto, aux)
    {
      var todo := mirrors.Keys;
      while todo != {}
        invariant todo <= mirrors.Keys
        invariant forall m :: m in mirrors && m !in todo ==> !IsMirror(S(), m, ofproto, aux)
        decreases todo
      {
        var m :| m in todo;
        if mirrors[m].ofproto == ofproto && mirrors[m].aux == aux {
          return Some(m);
        }
        todo := todo - {m};
      }
      found := None;
    }

    /** __ofmirror_create */
    method OfmirrorCreate(ofproto: OfprotoId, aux: Aux, out: BundlePtr) returns (m: MirrorPtr)
      modifies this
      ensures m == old(next) && S() == CreateMirror(old(S()), ofproto, aux, out)
    {
      m := next;
      mirrors := mirrors[m := Mirror(ofproto, aux, out, [], [])];
      next := next + 1;
    }

    /** A source loop of __mirror_set; false is EBUSY. */
    method TakeSources(m: MirrorPtr, srcs: seq<BundlePtr>, side: Side) returns (ok: bool)
      requires m in mirrors && forall b :: b in srcs ==> b in bundles
      modifies this
      ensures (S(), ok) == AddSources(old(S()), m, srcs, side)
    {
      ghost var s := S();
      ok := true;
      for i := 0 to |srcs|
        invariant ok && (S(), true) == AddSources(s, m, srcs[..i], side)
      {
        assert srcs[..i + 1][..i] == srcs[..i];
        var b := srcs[i];
        assert b in srcs;
        var l := LinkOf(bundles[b], side);
        if l.selfLinked {
          bundles := bundles[b := WithLink(bundles[b], side, Link(Some(m), false))];
          mirrors := mirrors[m := WithSrcs(mirrors[m], side, Srcs(mirrors[m], side) + [b])];
        } else if l.owner != Some(m) {
          ok := false;
          AddSourcesBusy(s, m, srcs, side, i + 1);
          return;
        }
      }
      assert srcs[..|srcs|] == srcs;
    }

    /** __mirror_set; without settings it destroys the mirror. */
    method MirrorSet(ofproto: OfprotoId, aux: Aux, settings: Option<Settings>) returns (ok: bool, ghost found: Option<MirrorPtr>)
      requires Inv(S()) && (settings.Some? ==> Resolved(S(), settings.value))
      modifies this
      ensures Inv(S()) && Found(old(S()), found, ofproto, aux)
      ensures settings.None? ==> ok && S() == Apply(old(S()), MirrorDestroy(found, ofproto, aux))
      ensures settings.Some? ==> (found.Some? ==> found.value in old(mirrors))
                                 && (S(), ok) == SetMirror(old(S()), found, ofproto, aux, settings.value)
    {
      hide Inv, AddSources, DestroyMirrors, ClearMirror, CreateMirror;
      ghost var s := S();
      var looked := OfmirrorLookup(ofproto, aux);
      found := looked;
      if looked.Some? {
        assert IsMirror(s, looked.value, ofproto, aux);
      }
      ok := true;
      if settings.None? {
        if looked.Some? {
          OfmirrorDestroy(looked.value, true);
        }
        return;
      }
      var ms := settings.value;
      SetMirrorInv(s, found, ofproto, aux, ms);
      PreparedKeys(s, found, ofproto, aux, ms.out);
      var m;
      if looked.None? {
        m := OfmirrorCreate(ofproto, aux, ms.out);
      } else if mirrors[looked.value].out != ms.out {
        OfmirrorDestroy(looked.value, true);
        DestroyMirrorsFrame(s, {looked.value});
        m := OfmirrorCreate(ofproto, aux, ms.out);
      } else {
        m := looked.value;
        OfmirrorDestroy(m, false);
      }
      ok := TakeSources(m, ms.srcs, Ingress);
      if ok {
        ok := TakeSources(m, ms.dsts, Egress);
      }
    }

    /** A bundle's own node comes off the list it is on. */
    method LeaveList(b: BundlePtr, side: Side)
      requires b in bundles
      requires LinkOf(bundles[b], side).owner.Some? ==> LinkOf(bundles[b], side).owner.value in mirrors
      modifies this
      ensures S() == LeaveLists(old(S()), b, side)
    {
      var l := LinkOf(bundles[b], side);
      if l.owner.Some? {
        var m := l.owner.value;
        bundles := bundles[b := WithLink(bundles[b], side, UNLINKED)];
        mirrors := mirrors[m := WithSrcs(mirrors[m], side, Without(Srcs(mirrors[m], side), b))];
        assert mirrors == LeaveLists(old(S()), b, side).mirrors;
      }
    }

    /** The mirror part of __ofbundle_destroy. */
    method BundleDestroy(b: BundlePtr, configOnly: bool)
      requires Inv(S()) && b in bundles
      modifies this
      ensures S() == DestroyBundle(old(S()), b, configOnly)
      ensures Inv(S()) <==> !(old(bundles)[b].cacheConfig && !configOnly && !Unreferenced(old(S()), b))
    {
      hide Inv, LeaveLists, DestroyMirrors;
      ghost var s := S();
      DestroyBundleIff(s, b, configOnly);
      if !bundles[b].cacheConfig {
        var aux := bundles[b].aux;
        OwnerLive(s, b, Ingress);
        LeaveListsInv(s, b, Ingress);
        LeaveListsFrame(s, b, Ingress);
        LeaveList(b, Ingress);
        OwnerLive(S(), b, Egress);
        LeaveListsInv(S(), b, Egress);
        LeaveListsFrame(S(), b, Egress);
        LeaveList(b, Egress);
        SweepMirrors(aux);
      }
      if !configOnly {
        bundles := bundles - {b};
      }
    }

    /** ofproto_sai_bundle_disable, for the bundle the name was found to mean. */
    method BundleDisable(b: BundlePtr)
      requires Inv(S()) && b in bundles
      modifies this
      ensures S() == DisableBundle(old(S()), b) && Inv(S())
    {
      hide Inv, DestroyBundle;
      ApplyInv(S(), MirrorProofs.BundleDisable(b));
      DestroyConfigKeys(S(), b);
      BundleDestroy(b, true);
      bundles := bundles[b := bundles[b].(cacheConfig := true)];
    }

    /** The cache flag of ofproto_sai_bundle_enable. */
    method BundleEnable(b: BundlePtr)
      requires Inv(S()) && b in bundles
      modifies this
      ensures S() == EnableBundle(old(S()), b) && Inv(S())
    {
      hide Inv;
      ApplyInv(S(), MirrorProofs.BundleEnable(b));
      bundles := bundles[b := bundles[b].(cacheConfig := false)];
    }

    /** The loop over every bridge's mirrors that destroys those sending to bundles with this aux. */
    method SweepMirrors(aux: Aux)
      requires Inv(S())
      modifies this
      ensures Inv(S()) && S() == DestroyMirrors(old(S()), MirrorsTo(old(S()), aux))
    {
      hide Inv, DestroyMirrors;
      ghost var s := S();
      var todo := mirrors.Keys;
      ghost var gone: set<MirrorPtr> := {};
      DestroyNoMirrors(s);
      while todo != {}
        invariant todo <= s.mirrors.Keys && gone !! todo
        invariant forall m :: m in s.mirrors && m !in todo ==> (m in gone <==> m in MirrorsTo(s, aux))
        invariant gone <= MirrorsTo(s, aux)
        invariant Inv(S()) && S() == DestroyMirrors(s, gone)
        decreases todo
      {
        DestroyMirrorsFrame(s, gone);
        DestroyedAux(s, gone);
        var m :| m in todo;
        OutLive(S(), m);
        if bundles[mirrors[m].out].aux == aux {
          OfmirrorDestroy(m, true);
          DestroyMoreMirrors(s, gone, m);
          gone := gone + {m};
        }
        todo := todo - {m};
      }
      assert gone == MirrorsTo(s, aux);
    }
  }

  lemma SourcesLive(s: State, m: MirrorPtr)
    requires Inv(s) && m in s.mirrors
    ensures forall side, b :: b in Srcs(s.mirrors[m], side) ==> b in s.bundles
  {
    forall side, b | b in Srcs(s.mirrors[m], side) ensures b in s.bundles {
      assert MirrorOk(s, m, side);
    }
  }

  lemma OwnerLive(s: State, b: BundlePtr, side: Side)
    requires Inv(s) && b in s.bundles
    ensures var l := LinkOf(s.bundles[b], side); l.owner.Some? ==> l.owner.value in s.mirrors
  {
    assert BundleOk(s, b, side);
  }

  lemma OutLive(s: State, m: MirrorPtr)
    requires Inv(s)
    ensures m in s.mirrors ==> s.mirrors[m].out in s.bundles
  {
  }

  lemma DestroyedAux(s: State, gone: set<MirrorPtr>)
    ensures forall b :: b in s.bundles ==>
              b in DestroyMirrors(s, gone).bundles && DestroyMirrors(s, gone).bundles[b].aux == s.bundles[b].aux
  {
  }
}
