/** The inverse index: on resolved acyclic hierarchies `x` is a descendant of `a` exactly when `a`
    stands in the chain of `x`, cache hits included. Everything is proved for one pair at a time. */
module Descendants {
  import opened Declarations
  import opened Aliases
  import opened Graphs
  import opened Links
  import opened Hierarchy
  import opened Linearization
  import opened PlainChains
  import opened Steps
  import opened Correctness
  import opened Completeness

  predicate Tracked(g: Graph, a: DeclId, x: DeclId) {
    a in g.ns && x in g.ns[a].descendants
  }

  /** `x` has a finished chain with `a` in it. */
  predicate Inherits(g: Graph, a: DeclId, x: DeclId) {
    x in g.ns && g.ns[x].ancestors.Finished() && Known(a) in g.ns[x].ancestors.ids
  }

  predicate HasFinished(g: Graph, x: DeclId) {
    x in g.ns && g.ns[x].ancestors.Finished()
  }

  predicate NewlyInherits(g: Graph, h: Graph, a: DeclId, x: DeclId) {
    Inherits(h, a, x) && !HasFinished(g, x)
  }

  predicate Covered(g: Graph, a: DeclId, x: DeclId) {
    Inherits(g, a, x) ==> Tracked(g, a, x)
  }

  lemma NewlyCompose(g: Graph, h: Graph, k: Graph, a: DeclId, x: DeclId)
    requires FinishedKept(g, h) && FinishedKept(h, k)
    ensures NewlyInherits(g, k, a, x) <==> NewlyInherits(g, h, a, x) || NewlyInherits(h, k, a, x)
  {
    assert HasFinished(g, x) ==> HasFinished(h, x);
    assert HasFinished(h, x) ==> h.ns[x].ancestors == k.ns[x].ancestors;
  }

  lemma SameChainsNewly(g: Graph, h: Graph, a: DeclId, x: DeclId)
    requires SameChains(g, h)
    ensures HasFinished(g, x) <==> HasFinished(h, x)
    ensures Inherits(g, a, x) <==> Inherits(h, a, x)
  {
  }

  lemma {:induction false} LinearizeTracks(src: Source, g: Graph, ctx: Context, d: DeclId, n: nat, a: DeclId, x: DeclId)
    requires Ready(src, g) && d in g.ns
    requires Grounded(src, d, n) && Unmarked(src, g, d, n) && Calm(src, ctx, d)
    requires Covered(g, a, x)
    ensures var r := Linearize(src, g, ctx, d);
      && (Tracked(r.g, a, x) <==>
           Tracked(g, a, x) || (Known(a) in r.ancestors.ids && x in ctx.descendants) || NewlyInherits(g, r.g, a, x))
      && Covered(r.g, a, x)
    decreases Work(src, g, ctx, Reach(src, d)), 0
  {
    hide Usable, Intact, Work, Reach, Settled, Existing, Children, SeenAbove, NamesResolved;
    NotSeen(src, ctx, d, n);
    if g.ns[d].ancestors.Finished() {
      CacheHitTracks(src, g, ctx, d, a, x);
    } else {
      LinearizeSucceeds(src, g, ctx, d, n);
      var g1, p, g2, m := FreshCall(src, g, ctx, d);
      UnmarkedKept(src, g, g1, d, n);
      SameChainsNewly(g, g1, a, x);
      ParentTracks(src, g1, ctx, d, n, a, x);
      ParentSucceeds(src, g1, ctx, d, n);
      UnmarkedKept(src, g1, p.g, d, n);
      UnmarkedKept(src, p.g, g2, d, n);
      SameChainsNewly(p.g, g2, a, x);
      CreatesTracks(p.g, g2, a, x);
      ModulesReady(src, g2, ctx, d, n);
      var has := MixinsTrack(src, g2, p.ctx, MixinList(src, d), p.ids, [], [], n - 1, a, x);
      MixinsSucceed(src, g2, p.ctx, MixinList(src, d), p.ids, [], [], n - 1);
      ExitTracks(g, ctx, d, g1, p, g2, m, a, x, has);
    }
  }

  lemma CacheHitTracks(src: Source, g: Graph, ctx: Context, d: DeclId, a: DeclId, x: DeclId)
    requires Ready(src, g) && d in g.ns && g.ns[d].ancestors.Finished() && Covered(g, a, x)
    ensures var h := Propagate(g, ctx.descendants + {d}, g.ns[d].ancestors.ids);
      && (Tracked(h, a, x) <==> Tracked(g, a, x) || (Known(a) in g.ns[d].ancestors.ids && x in ctx.descendants))
      && !NewlyInherits(g, h, a, x) && Covered(h, a, x)
  {
    NamespaceParts(src, g, d);
    hide Usable, Intact;
    var ids := g.ns[d].ancestors.ids;
    if Known(a) in ids {
      var i :| 0 <= i < |ids| && ids[i] == Known(a);
      assert a in g.ns;
    }
  }

  lemma CreatesTracks(g: Graph, h: Graph, a: DeclId, x: DeclId)
    requires OnlyCreates(g, h)
    ensures Tracked(h, a, x) <==> Tracked(g, a, x)
  {
  }

  lemma ExitTracks(g: Graph, ctx: Context, d: DeclId, g1: Graph, p: ParentOutcome, g2: Graph, m: MixinOutcome,
                   a: DeclId, x: DeclId, has: bool)
    requires d in g.ns && !g.ns[d].ancestors.Finished() && g1 == AddDescendants(g, d, ctx.descendants + {d})
    requires d in m.g.ns && !m.g.ns[d].ancestors.Finished()
    requires SameChains(p.g, g2) && FinishedKept(g1, p.g) && FinishedKept(g2, m.g)
    requires Tracked(p.g, a, x) <==> Tracked(g1, a, x) || (Known(a) in p.ids && x in ctx.descendants + {d})
                                     || NewlyInherits(g1, p.g, a, x)
    requires Tracked(g2, a, x) <==> Tracked(p.g, a, x)
    requires Tracked(m.g, a, x) <==> Tracked(g2, a, x) || (has && x in ctx.descendants + {d})
                                     || NewlyInherits(g2, m.g, a, x)
    requires Known(a) in m.prepends || Known(a) in m.includes || Known(a) in p.ids <==> Known(a) in p.ids || has
    requires Covered(m.g, a, x)
    ensures var ids := Assemble(d, m.prepends, m.includes, p.ids);
      forall result: Ancestors | result.Complete? && result.ids == ids ::
      var h := SetAncestors(m.g, d, result);
      && (Tracked(h, a, x) <==>
           Tracked(g, a, x) || (Known(a) in ids && x in ctx.descendants) || NewlyInherits(g, h, a, x))
      && Covered(h, a, x)
  {
    var ids := Assemble(d, m.prepends, m.includes, p.ids);
    assert Known(a) in ids <==> a == d || Known(a) in p.ids || has;
    SameChainsNewly(p.g, g2, a, x);
    NewlyAlong(g, d, ctx.descendants + {d}, p.g, g2, m.g, a, x);
    hide Assemble;
    forall result: Ancestors | result.Complete? && result.ids == ids
      ensures var h := SetAncestors(m.g, d, result);
        && (Tracked(h, a, x) <==>
             Tracked(g, a, x) || (Known(a) in ids && x in ctx.descendants) || NewlyInherits(g, h, a, x))
        && Covered(h, a, x)
    {
      var h := SetAncestors(m.g, d, result);
      assert Tracked(h, a, x) <==> Tracked(m.g, a, x);
      if x == d {
        assert Inherits(h, a, d) <==> Known(a) in ids;
        assert !Inherits(m.g, a, d);
      } else {
        assert Inherits(h, a, x) <==> Inherits(m.g, a, x);
      }
    }
  }

  lemma NewlyAlong(g: Graph, d: DeclId, descendants: set<DeclId>, p: Graph, g2: Graph, h: Graph, a: DeclId, x: DeclId)
    requires d in g.ns && FinishedKept(AddDescendants(g, d, descendants), p) && SameChains(p, g2) && FinishedKept(g2, h)
    ensures NewlyInherits(g, h, a, x) <==>
      NewlyInherits(AddDescendants(g, d, descendants), p, a, x) || NewlyInherits(g2, h, a, x)
  {
    var g1 := AddDescendants(g, d, descendants);
    assert HasFinished(g1, x) <==> HasFinished(g, x);
    SameChainsNewly(p, g2, a, x);
    assert HasFinished(g1, x) ==> HasFinished(p, x);
    assert HasFinished(g2, x) ==> g2.ns[x].ancestors == h.ns[x].ancestors && HasFinished(h, x);
  }

  lemma {:induction false} ParentTracks(src: Source, g: Graph, ctx: Context, d: DeclId, n: nat, a: DeclId, x: DeclId)
    requires Ready(src, g) && d in g.ns
    requires Grounded(src, d, n) && Unmarked(src, g, d, n) && Calm(src, ctx, d)
    requires Covered(g, a, x)
    ensures var p := LinearizeParent(src, g, Entered(ctx, d), d);
      && (Tracked(p.g, a, x) <==>
           Tracked(g, a, x) || (Known(a) in p.ids && x in ctx.descendants + {d}) || NewlyInherits(g, p.g, a, x))
      && Covered(p.g, a, x)
    decreases Work(src, g, Entered(ctx, d), Reach(src, d)), 2
  {
    hide Usable, Intact, Work, Reach, Settled, SeenAbove, ParentOf, ParentMissing, NamesResolved;
    if ParentOf(src, d).None? {
      NoParentCall(src, g, Entered(ctx, d), d);
    } else {
      ParentReady(src, g, ctx, d, n);
      var g1, ctx1, parent, r := ParentCall(src, g, Entered(ctx, d), d);
      hide Children;
      UnmarkedKept(src, g, g1, parent, n - 1);
      SameChainsNewly(g, g1, a, x);
      CreatesTracks(g, g1, a, x);
      LinearizeTracks(src, g1, ctx1, parent, n - 1, a, x);
    }
  }

  /** `has` says whether `a` stands in the chain of some mixin. */
  lemma {:induction false} MixinsTrack(src: Source, g: Graph, ctx: Context, mixins: seq<Mixin>, parents: seq<Ancestor>,
                                       prepends: seq<Ancestor>, includes: seq<Ancestor>, n: nat, a: DeclId, x: DeclId)
      returns (has: bool)
    requires Ready(src, g) && Existing(g, prepends) && Existing(g, includes)
    requires ModulesGrounded(src, mixins, n) && ModulesUnmarked(src, g, mixins, n)
    requires forall y | y in mixins :: Target(src, y.name).Some?
    requires Clean(ctx) && ctx.descendants == ctx.seen && forall e | e in Modules(src, mixins) :: SeenAbove(src, ctx, e)
    requires Covered(g, a, x)
    ensures var m := LinearizeMixins(src, g, ctx, mixins, parents, prepends, includes);
      && (Tracked(m.g, a, x) <==>
           Tracked(g, a, x) || (has && x in ctx.descendants) || NewlyInherits(g, m.g, a, x))
      && Covered(m.g, a, x)
      && (Known(a) in m.prepends || Known(a) in m.includes || Known(a) in parents <==>
           Known(a) in prepends || Known(a) in includes || Known(a) in parents || has)
    decreases Work(src, g, ctx, ReferenceLevel(src)), 1, |mixins|
  {
    hide Usable, Intact, Work, Reach, Settled, Existing, SeenAbove, NoneCompleted;
    if mixins == [] {
      has := false;
    } else {
      TailModules(src, mixins);
      ModulesUnmarkedKept(src, g, g, mixins, n);
      if ModuleOf(src, mixins[0]).None? {
        var ctx1, prepends1, includes1 := SkippedMixin(src, g, ctx, mixins, parents, prepends, includes);
        has := MixinsTrack(src, g, ctx1, mixins[1..], parents, prepends1, includes1, n, a, x);
      } else {
        var mod, r, ctx1, prepends1, includes1 := MixinCall(src, g, ctx, mixins, parents, prepends, includes);
        LinearizeTracks(src, g, ctx, mod, n, a, x);
        LinearizeSucceeds(src, g, ctx, mod, n);
        ModulesUnmarkedKept(src, g, r.g, mixins[1..], n);
        var rest := MixinsTrack(src, r.g, ctx1, mixins[1..], parents, prepends1, includes1, n, a, x);
        has := rest || Known(a) in r.ancestors.ids;
        AddContents(prepends, includes, parents, r.ancestors.ids, Known(a));
        NewlyCompose(g, r.g, LinearizeMixins(src, g, ctx, mixins, parents, prepends, includes).g, a, x);
      }
    }
  }

  /** Deduplication drops only what the chain has elsewhere. */
  lemma AddContents(prepends: seq<Ancestor>, includes: seq<Ancestor>, parents: seq<Ancestor>, ids: seq<Ancestor>, a: Ancestor)
    ensures a in AddPrepend(prepends, ids) <==> a in prepends || a in ids
    ensures a in AddInclude(prepends, includes, parents, ids) || a in prepends || a in parents <==>
      a in ids || a in includes || a in prepends || a in parents
  {
    WithoutContents(prepends, ids);
    WithoutContents(ids, prepends + includes + parents);
  }

  /** The inverse index mirrors the finished chains. */
  ghost predicate Mirrored(g: Graph) {
    forall a, x :: Tracked(g, a, x) <==> Inherits(g, a, x)
  }

  lemma AncestorsOfMirrors(src: Source, g: Graph, d: DeclId, n: nat)
    requires Ready(src, g) && d in g.ns && Mirrored(g)
    requires Grounded(src, d, n) && Unmarked(src, g, d, n)
    ensures Mirrored(AncestorsOf(src, g, d).g)
  {
    hide Usable, Intact, Linearize, Grounded, Unmarked;
    var r := AncestorsOf(src, g, d);
    assert Keeps(src, g, FRESH, r.g, r.ctx);
    forall a, x ensures Tracked(r.g, a, x) <==> Inherits(r.g, a, x) {
      LinearizeTracks(src, g, FRESH, d, n, a, x);
      assert HasFinished(g, x) ==> g.ns[x].ancestors == r.g.ns[x].ancestors;
    }
  }
}
