/** Which chains count as complete: the complete ones are closed under the edges of the hierarchy and
    acyclic on every graph, and a call that starts afresh succeeds exactly on resolved acyclic
    hierarchies in which no chain has been marked as cyclic before. */
module Completeness {
  import opened Declarations
  import opened Aliases
  import opened Graphs
  import opened Links
  import opened Hierarchy
  import opened Linearization
  import opened PlainChains
  import opened OpenChains
  import opened Steps
  import opened Correctness

  /** A declaration that may stand in a set of complete ones. */
  ghost predicate Anchor(src: Source, g: Graph, d: DeclId) {
    WellFounded(src, d) && NamesResolved(src, d) && forall e | e in Children(src, d) :: HasComplete(g, e)
  }

  /** The complete declarations: resolved, acyclic, and closed under superclass and mixin edges. */
  ghost predicate Anchored(src: Source, g: Graph) {
    forall d | HasComplete(g, d) :: Anchor(src, g, d)
  }

  ghost predicate CompleteKept(g: Graph, h: Graph) {
    forall d | HasComplete(g, d) :: HasComplete(h, d)
  }

  lemma FinishedComplete(g: Graph, h: Graph)
    requires FinishedKept(g, h)
    ensures CompleteKept(g, h)
  {
  }

  lemma KeptAlong(g: Graph, h: Graph, k: Graph)
    requires SameChains(g, h) && FinishedKept(h, k)
    ensures CompleteKept(g, k)
  {
  }

  /** The anchors of `g` stay anchors when no complete chain is lost. */
  lemma AnchorsKept(src: Source, g: Graph, h: Graph, d: DeclId)
    requires Anchored(src, g) && CompleteKept(g, h)
    requires forall x | HasComplete(h, x) :: HasComplete(g, x) || (x == d && Anchor(src, h, x))
    ensures Anchored(src, h)
  {
    forall x | HasComplete(h, x) ensures Anchor(src, h, x) {
      if HasComplete(g, x) { assert Anchor(src, g, x); }
    }
  }

  lemma SameChainsAnchored(src: Source, g: Graph, h: Graph)
    requires SameChains(g, h) && Anchored(src, g)
    ensures Anchored(src, h)
  {
    AnchorsKept(src, g, h, BASIC_OBJECT);
  }

  lemma {:induction false} CommonBound(src: Source, ids: set<DeclId>) returns (n: nat)
    requires forall d | d in ids :: WellFounded(src, d)
    ensures forall d | d in ids :: Grounded(src, d, n)
  {
    if ids == {} {
      n := 0;
    } else {
      var d :| d in ids;
      var m := CommonBound(src, ids - {d});
      var k: nat :| Grounded(src, d, k);
      n := if m > k then m else k;
      forall x | x in ids ensures Grounded(src, x, n) {
        GroundedMore(src, x, if x == d then k else m, n);
      }
    }
  }

  lemma ChildrenAnchor(src: Source, g: Graph, d: DeclId)
    requires Anchored(src, g) && NamesResolved(src, d)
    requires forall e | e in Children(src, d) :: HasComplete(g, e)
    ensures Anchor(src, g, d)
  {
    hide NamesResolved, Children;
    forall e | e in Children(src, d) ensures WellFounded(src, e) { assert Anchor(src, g, e); }
    var n := CommonBound(src, Children(src, d));
    assert Grounded(src, d, n + 1);
  }

  lemma {:induction false} LinearizeAnchored(src: Source, g: Graph, ctx: Context, d: DeclId)
    requires Ready(src, g) && d in g.ns && Anchored(src, g)
    ensures var r := Linearize(src, g, ctx, d);
      Anchored(src, r.g) && (r.ancestors.Complete? ==> HasComplete(r.g, d))
    decreases Work(src, g, ctx, Reach(src, d)), 0
  {
    hide Usable, Intact, Work, Reach, Settled, Existing, Children, Anchored, NamesResolved, CompleteKept;
    if g.ns[d].ancestors.Finished() {
      SameChainsAnchored(src, g, Propagate(g, ctx.descendants + {d}, g.ns[d].ancestors.ids));
    } else if d in ctx.seen {
      UncompleteAnchored(src, g, d, Estimate(src, d));
    } else {
      var g1, p, g2, m := FreshCall(src, g, ctx, d);
      SameChainsAnchored(src, g, g1);
      ParentAnchored(src, g1, Entered(ctx, d), d);
      SameChainsAnchored(src, p.g, g2);
      MixinsAnchored(src, g2, p.ctx, MixinList(src, d), p.ids, [], []);
      var ids := Assemble(d, m.prepends, m.includes, p.ids);
      if Tagged(m.ctx, ids).Complete? {
        KeptAlong(p.g, g2, m.g);
        CollectChildren(src, d, p.g, m.g);
        ChildrenAnchor(src, m.g, d);
        CompletedAnchored(src, m.g, d, Tagged(m.ctx, ids));
      } else {
        UncompleteAnchored(src, m.g, d, Tagged(m.ctx, ids));
      }
    }
  }

  lemma UncompleteAnchored(src: Source, g: Graph, d: DeclId, ancestors: Ancestors)
    requires Anchored(src, g) && d in g.ns && !g.ns[d].ancestors.Complete? && !ancestors.Complete?
    ensures Anchored(src, SetAncestors(g, d, ancestors))
  {
    AnchorsKept(src, g, SetAncestors(g, d, ancestors), d);
  }

  lemma CompletedAnchored(src: Source, g: Graph, d: DeclId, ancestors: Ancestors)
    requires Anchored(src, g) && d in g.ns && Anchor(src, g, d) && ancestors.Complete?
    ensures Anchored(src, SetAncestors(g, d, ancestors))
  {
    var h := SetAncestors(g, d, ancestors);
    assert CompleteKept(g, h);
    assert Anchor(src, h, d);
    AnchorsKept(src, g, h, d);
  }

  /** After a run without flags, everything the chain of `d` is built from is complete. */
  lemma CollectChildren(src: Source, d: DeclId, g: Graph, h: Graph)
    requires CompleteKept(g, h) && !ParentMissing(src, d)
    requires ParentOf(src, d).Some? ==> HasComplete(g, ParentOf(src, d).value)
    requires forall x | x in MixinList(src, d) :: Target(src, x.name).Some?
    requires forall e | e in Modules(src, MixinList(src, d)) :: HasComplete(h, e)
    ensures NamesResolved(src, d) && forall e | e in Children(src, d) :: HasComplete(h, e)
  {
  }

  predicate Clean(ctx: Context) { !ctx.cyclic && !ctx.partial }

  lemma {:induction false} ParentAnchored(src: Source, g: Graph, ctx: Context, d: DeclId)
    requires Ready(src, g) && d in g.ns && Anchored(src, g)
    ensures var p := LinearizeParent(src, g, ctx, d);
      && Anchored(src, p.g)
      && (Clean(p.ctx) ==>
        && !ParentMissing(src, d)
        && (ParentOf(src, d).Some? ==> HasComplete(p.g, ParentOf(src, d).value)))
    decreases Work(src, g, ctx, Reach(src, d)), 2
  {
    hide Usable, Intact, Work, Reach, Settled, Anchored, ParentOf, ParentMissing;
    if ParentOf(src, d).None? {
      NoParentCall(src, g, ctx, d);
    } else {
      var g1, ctx1, parent, r := ParentCall(src, g, ctx, d);
      SameChainsAnchored(src, g, g1);
      LinearizeAnchored(src, g1, ctx1, parent);
    }
  }

  lemma {:induction false} MixinsAnchored(src: Source, g: Graph, ctx: Context, mixins: seq<Mixin>,
                                          parents: seq<Ancestor>, prepends: seq<Ancestor>, includes: seq<Ancestor>)
    requires Ready(src, g) && Existing(g, prepends) && Existing(g, includes) && Anchored(src, g)
    ensures var m := LinearizeMixins(src, g, ctx, mixins, parents, prepends, includes);
      && Anchored(src, m.g)
      && (Clean(m.ctx) ==>
        && Clean(ctx)
        && (forall x | x in mixins :: Target(src, x.name).Some?)
        && (forall e | e in Modules(src, mixins) :: HasComplete(m.g, e)))
    decreases Work(src, g, ctx, ReferenceLevel(src)), 1, |mixins|
  {
    hide Usable, Intact, Work, Reach, Settled, Anchored, Existing, FinishedKept, NoneCompleted;
    if mixins != [] {
      TailModules(src, mixins);
      assert mixins == [mixins[0]] + mixins[1..];
      var m := LinearizeMixins(src, g, ctx, mixins, parents, prepends, includes);
      if ModuleOf(src, mixins[0]).None? {
        var ctx1, prepends1, includes1 := SkippedMixin(src, g, ctx, mixins, parents, prepends, includes);
        MixinsAnchored(src, g, ctx1, mixins[1..], parents, prepends1, includes1);
      } else {
        var mod, r, ctx1, prepends1, includes1 := MixinCall(src, g, ctx, mixins, parents, prepends, includes);
        LinearizeAnchored(src, g, ctx, mod);
        MixinsAnchored(src, r.g, ctx1, mixins[1..], parents, prepends1, includes1);
        FinishedComplete(r.g, m.g);
      }
    }
  }

  // ---- when a fresh call succeeds ----

  /** No declaration within depth `n` below `d` has been marked as cyclic. */
  ghost predicate Unmarked(src: Source, g: Graph, d: DeclId, n: nat)
    decreases n
  {
    && (d in g.ns ==> !g.ns[d].ancestors.Cyclic?)
    && (n > 0 ==> forall e | e in Children(src, d) :: Unmarked(src, g, e, n - 1))
  }

  ghost predicate NoNewMarks(g: Graph, h: Graph) {
    forall d | d in h.ns && h.ns[d].ancestors.Cyclic? :: d in g.ns && g.ns[d].ancestors.Cyclic?
  }

  lemma {:induction false} UnmarkedKept(src: Source, g: Graph, h: Graph, d: DeclId, n: nat)
    requires Unmarked(src, g, d, n) && NoNewMarks(g, h)
    ensures Unmarked(src, h, d, n)
    decreases n
  {
    if n > 0 {
      forall e | e in Children(src, d) ensures Unmarked(src, h, e, n - 1) {
        UnmarkedKept(src, g, h, e, n - 1);
      }
    }
  }

  ghost predicate ModulesUnmarked(src: Source, g: Graph, mixins: seq<Mixin>, n: nat) {
    forall e | e in Modules(src, mixins) :: Unmarked(src, g, e, n)
  }

  lemma ModulesUnmarkedKept(src: Source, g: Graph, h: Graph, mixins: seq<Mixin>, n: nat)
    requires ModulesUnmarked(src, g, mixins, n) && NoNewMarks(g, h)
    ensures ModulesUnmarked(src, h, mixins, n)
  {
    forall e | e in Modules(src, mixins) ensures Unmarked(src, h, e, n) { UnmarkedKept(src, g, h, e, n); }
  }

  /** The context of a traversal that has not met any trouble. */
  ghost predicate Calm(src: Source, ctx: Context, d: DeclId) {
    Clean(ctx) && ctx.descendants == ctx.seen && SeenAbove(src, ctx, d)
  }

  lemma NotSeen(src: Source, ctx: Context, d: DeclId, n: nat)
    requires Grounded(src, d, n) && SeenAbove(src, ctx, d)
    ensures d !in ctx.seen
  {
    GroundedIsAcyclic(src, d, n);
    if d in ctx.seen { NotAboveItself(src, d, n); }
  }

  lemma {:induction false} LinearizeSucceeds(src: Source, g: Graph, ctx: Context, d: DeclId, n: nat)
    requires Ready(src, g) && d in g.ns
    requires Grounded(src, d, n) && Unmarked(src, g, d, n) && Calm(src, ctx, d)
    ensures var r := Linearize(src, g, ctx, d);
      r.ancestors.Complete? && r.ctx == ctx && NoNewMarks(g, r.g)
    decreases Work(src, g, ctx, Reach(src, d)), 0
  {
    hide Usable, Intact, Work, Reach, Settled, Existing, Children, SeenAbove, NamesResolved;
    NotSeen(src, ctx, d, n);
    if !g.ns[d].ancestors.Finished() {
      var g1, p, g2, m := FreshCall(src, g, ctx, d);
      UnmarkedKept(src, g, g1, d, n);
      ParentSucceeds(src, g1, ctx, d, n);
      UnmarkedKept(src, g1, p.g, d, n);
      UnmarkedKept(src, p.g, g2, d, n);
      ModulesReady(src, g2, ctx, d, n);
      MixinsSucceed(src, g2, p.ctx, MixinList(src, d), p.ids, [], [], n - 1);
    }
  }

  lemma ModulesReady(src: Source, g: Graph, ctx: Context, d: DeclId, n: nat)
    requires Grounded(src, d, n) && Unmarked(src, g, d, n) && SeenAbove(src, ctx, d)
    ensures n > 0 && ModulesGrounded(src, MixinList(src, d), n - 1)
    ensures ModulesUnmarked(src, g, MixinList(src, d), n - 1)
    ensures forall x | x in MixinList(src, d) :: Target(src, x.name).Some?
    ensures forall e | e in Modules(src, MixinList(src, d)) :: SeenAbove(src, Entered(ctx, d), e)
  {
    ChildrenGrounded(src, d, n);
    assert Modules(src, MixinList(src, d)) <= Children(src, d);
    ModulesBelow(src, ctx, Entered(ctx, d), d);
  }

  lemma ParentReady(src: Source, g: Graph, ctx: Context, d: DeclId, n: nat)
    requires Grounded(src, d, n) && Unmarked(src, g, d, n) && SeenAbove(src, ctx, d) && ParentOf(src, d).Some?
    ensures n > 0 && !ParentMissing(src, d)
    ensures var parent := ParentOf(src, d).value;
      Grounded(src, parent, n - 1) && Unmarked(src, g, parent, n - 1) && SeenAbove(src, Entered(ctx, d), parent)
  {
    ChildrenGrounded(src, d, n);
    assert ParentOf(src, d).value in Children(src, d);
    SeenAboveChild(src, ctx, d, ParentOf(src, d).value);
  }

  lemma {:induction false} ParentSucceeds(src: Source, g: Graph, ctx: Context, d: DeclId, n: nat)
    requires Ready(src, g) && d in g.ns
    requires Grounded(src, d, n) && Unmarked(src, g, d, n) && Calm(src, ctx, d)
    ensures var p := LinearizeParent(src, g, Entered(ctx, d), d);
      p.ctx == Entered(ctx, d) && NoNewMarks(g, p.g)
    decreases Work(src, g, Entered(ctx, d), Reach(src, d)), 2
  {
    hide Usable, Intact, Work, Reach, Settled, SeenAbove, ParentOf, ParentMissing, NamesResolved;
    if ParentOf(src, d).None? {
      NoParentCall(src, g, Entered(ctx, d), d);
    } else {
      ParentReady(src, g, ctx, d, n);
      var g1, ctx1, parent, r := ParentCall(src, g, Entered(ctx, d), d);
      hide Children;
      UnmarkedKept(src, g, g1, parent, n - 1);
      LinearizeSucceeds(src, g1, ctx1, parent, n - 1);
    }
  }

  lemma {:induction false} MixinsSucceed(src: Source, g: Graph, ctx: Context, mixins: seq<Mixin>, parents: seq<Ancestor>,
                                         prepends: seq<Ancestor>, includes: seq<Ancestor>, n: nat)
    requires Ready(src, g) && Existing(g, prepends) && Existing(g, includes)
    requires ModulesGrounded(src, mixins, n) && ModulesUnmarked(src, g, mixins, n)
    requires forall x | x in mixins :: Target(src, x.name).Some?
    requires Clean(ctx) && ctx.descendants == ctx.seen && forall e | e in Modules(src, mixins) :: SeenAbove(src, ctx, e)
    ensures var m := LinearizeMixins(src, g, ctx, mixins, parents, prepends, includes);
      m.ctx == ctx && NoNewMarks(g, m.g)
    decreases Work(src, g, ctx, ReferenceLevel(src)), 1, |mixins|
  {
    hide Usable, Intact, Work, Reach, Settled, Existing, SeenAbove, FinishedKept, NoneCompleted;
    if mixins != [] {
      TailModules(src, mixins);
      ModulesUnmarkedKept(src, g, g, mixins, n);
      if ModuleOf(src, mixins[0]).None? {
        var ctx1, prepends1, includes1 := SkippedMixin(src, g, ctx, mixins, parents, prepends, includes);
        MixinsSucceed(src, g, ctx1, mixins[1..], parents, prepends1, includes1, n);
      } else {
        var mod, r, ctx1, prepends1, includes1 := MixinCall(src, g, ctx, mixins, parents, prepends, includes);
        LinearizeSucceeds(src, g, ctx, mod, n);
        ModulesUnmarkedKept(src, g, r.g, mixins[1..], n);
        MixinsSucceed(src, r.g, ctx1, mixins[1..], parents, prepends1, includes1, n);
      }
    }
  }

  /** A mark stays, and so nothing above it is complete. */
  lemma {:induction false} CompleteUnmarked(src: Source, g: Graph, h: Graph, d: DeclId, n: nat)
    requires Anchored(src, h) && FinishedKept(g, h) && HasComplete(h, d)
    ensures Unmarked(src, g, d, n)
    decreases n
  {
    if n > 0 {
      assert Anchor(src, h, d);
      forall e | e in Children(src, d) ensures Unmarked(src, g, e, n - 1) { CompleteUnmarked(src, g, h, e, n - 1); }
    }
  }

  ghost predicate CanSucceed(src: Source, g: Graph, d: DeclId) {
    exists n: nat :: Grounded(src, d, n) && Unmarked(src, g, d, n)
  }

  /** The exact outcome of a call that starts afresh, on any graph: its chain counts as complete if and
      only if the hierarchy below is resolved and acyclic and holds no declaration marked as cyclic by an
      earlier call; wherever there is no cycle below, the result lists exactly the open chain. */
  lemma FreshCallOutcome(src: Source, g: Graph, d: DeclId)
    requires Ready(src, g) && d in g.ns && Anchored(src, g) && Correct(src, g)
    ensures var r := AncestorsOf(src, g, d);
      && (r.ancestors.Complete? <==> CanSucceed(src, g, d))
      && RightIds(src, d, r.ancestors.ids)
      && (r.ancestors.Complete? ==> HasComplete(r.g, d))
      && Anchored(src, r.g) && Correct(src, r.g) && FinishedKept(g, r.g)
  {
    hide Usable, Intact, Anchored, Correct, Linearize, RightIds, FinishedKept;
    var r := AncestorsOf(src, g, d);
    assert Keeps(src, g, FRESH, r.g, r.ctx);
    LinearizeCorrect(src, g, FRESH, d);
    LinearizeAnchored(src, g, FRESH, d);
    if CanSucceed(src, g, d) {
      var n: nat :| Grounded(src, d, n) && Unmarked(src, g, d, n);
      LinearizeSucceeds(src, g, FRESH, d, n);
    }
    if r.ancestors.Complete? {
      CompleteAnchor(src, r.g, d);
      var n: nat :| Grounded(src, d, n);
      CompleteUnmarked(src, g, r.g, d, n);
    }
  }

  lemma CompleteAnchor(src: Source, g: Graph, d: DeclId)
    requires Anchored(src, g) && HasComplete(g, d)
    ensures Anchor(src, g, d)
  {
  }
}
