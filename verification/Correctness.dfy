/** Whatever the graph looks like, cyclic or not: a declaration below which there is no cycle gets exactly its open chain,
    and once all names below it are resolved, its plain chain. */
module Correctness {
  import opened Declarations
  import opened Aliases
  import opened Graphs
  import opened Links
  import opened Hierarchy
  import opened Linearization
  import opened PlainChains
  import opened OpenChains
  import opened Steps

  // ---- every chain is right where there is a right chain ----

  ghost predicate RightIds(src: Source, d: DeclId, ids: seq<Ancestor>) {
    forall n: nat :: Acyclic(src, d, n) ==> ids == OpenChain(src, d, n)
  }

  /** Every finished chain is the open one, if there is one. */
  ghost predicate Correct(src: Source, g: Graph) {
    forall d | d in g.ns && g.ns[d].ancestors.Finished() :: RightIds(src, d, g.ns[d].ancestors.ids)
  }

  /** `d` lies strictly below `s`: whatever bounds the paths under `s` leaves less for `d`. */
  ghost predicate StrictlyAbove(src: Source, s: DeclId, d: DeclId) {
    forall n: nat :: Acyclic(src, s, n) ==> n > 0 && Acyclic(src, d, n - 1)
  }

  ghost predicate SeenAbove(src: Source, ctx: Context, d: DeclId) {
    forall s | s in ctx.seen :: StrictlyAbove(src, s, d)
  }

  lemma {:induction false} NotAboveItself(src: Source, d: DeclId, n: nat)
    requires StrictlyAbove(src, d, d)
    ensures !Acyclic(src, d, n)
  {
    if Acyclic(src, d, n) { NotAboveItself(src, d, n - 1); }
  }

  lemma SeenAboveChild(src: Source, ctx: Context, d: DeclId, e: DeclId)
    requires SeenAbove(src, ctx, d) && e in Children(src, d)
    ensures SeenAbove(src, Entered(ctx, d), e)
  {
    forall s | s in Entered(ctx, d).seen ensures StrictlyAbove(src, s, e) {
      forall n: nat | Acyclic(src, s, n) ensures n > 0 && Acyclic(src, e, n - 1) {
        if s == d {
          ChildrenAcyclic(src, d, n);
        } else {
          assert StrictlyAbove(src, s, d);
          ChildrenAcyclic(src, d, n - 1);
          AcyclicMore(src, e, n - 2, n - 1);
        }
      }
    }
  }

  lemma SameChainsCorrect(src: Source, g: Graph, h: Graph)
    requires SameChains(g, h) && Correct(src, g)
    ensures Correct(src, h)
  {
    forall d | d in h.ns && h.ns[d].ancestors.Finished() ensures RightIds(src, d, h.ns[d].ancestors.ids) {
      assert d in g.ns && g.ns[d].ancestors == h.ns[d].ancestors;
    }
  }

  lemma SetAncestorsCorrect(src: Source, g: Graph, d: DeclId, ancestors: Ancestors)
    requires Correct(src, g) && d in g.ns && RightIds(src, d, ancestors.ids)
    ensures Correct(src, SetAncestors(g, d, ancestors))
  {
    var h := SetAncestors(g, d, ancestors);
    forall x | x in h.ns && h.ns[x].ancestors.Finished() ensures RightIds(src, x, h.ns[x].ancestors.ids) {
      if x != d { assert x in g.ns && g.ns[x].ancestors == h.ns[x].ancestors; }
    }
  }

  lemma {:induction false} LinearizeCorrect(src: Source, g: Graph, ctx: Context, d: DeclId)
    requires Ready(src, g) && d in g.ns
    requires Correct(src, g) && SeenAbove(src, ctx, d)
    ensures var r := Linearize(src, g, ctx, d); Correct(src, r.g) && RightIds(src, d, r.ancestors.ids)
    decreases Work(src, g, ctx, Reach(src, d)), 0
  {
    hide Usable, Intact, Work, Reach, Settled, Existing, Children, Estimate, SeenAbove, Correct, RightIds;
    if g.ns[d].ancestors.Finished() {
      SameChainsCorrect(src, g, Propagate(g, ctx.descendants + {d}, g.ns[d].ancestors.ids));
      CachedRight(src, g, d);
    } else if d in ctx.seen {
      MetAgainRight(src, g, ctx, d);
    } else {
      var g1, p, g2, m := FreshCall(src, g, ctx, d);
      SameChainsCorrect(src, g, g1);
      ParentCorrect(src, g1, ctx, d);
      SameChainsCorrect(src, p.g, g2);
      ModulesBelow(src, ctx, p.ctx, d);
      MixinsCorrect(src, g2, p.ctx, MixinList(src, d), p.ids, [], []);
      var ids := Assemble(d, m.prepends, m.includes, p.ids);
      AssembledRight(src, d, p.ids, m);
      TaggedIds(m.ctx, ids);
      SetAncestorsCorrect(src, m.g, d, Tagged(m.ctx, ids));
    }
  }

  lemma TaggedIds(ctx: Context, ids: seq<Ancestor>)
    ensures Tagged(ctx, ids).ids == ids
  {
  }

  lemma CachedRight(src: Source, g: Graph, d: DeclId)
    requires Correct(src, g) && d in g.ns && g.ns[d].ancestors.Finished()
    ensures RightIds(src, d, g.ns[d].ancestors.ids)
  {
  }

  lemma MetAgainRight(src: Source, g: Graph, ctx: Context, d: DeclId)
    requires Correct(src, g) && SeenAbove(src, ctx, d) && d in g.ns && d in ctx.seen
    ensures Correct(src, SetAncestors(g, d, Estimate(src, d))) && RightIds(src, d, Estimate(src, d).ids)
  {
    forall n: nat ensures !Acyclic(src, d, n) { NotAboveItself(src, d, n); }
    SetAncestorsCorrect(src, g, d, Estimate(src, d));
  }

  /** Where all names are resolved the right chain is the plain one. */
  lemma RightIsPlain(src: Source, d: DeclId, ids: seq<Ancestor>, n: nat)
    requires RightIds(src, d, ids) && Grounded(src, d, n)
    ensures ids == Plain(src, d, n)
  {
    OpenIsPlain(src, d, n);
  }

  ghost predicate RightParents(src: Source, d: DeclId, ids: seq<Ancestor>) {
    forall n: nat :: Acyclic(src, d, n) ==> (ChildrenAcyclic(src, d, n); ids == OpenParents(src, d, n))
  }

  ghost predicate RightMixins(src: Source, mixins: seq<Mixin>, parents: seq<Ancestor>, prepends: seq<Ancestor>,
                              includes: seq<Ancestor>, m: MixinOutcome) {
    forall n: nat :: ModulesAcyclic(src, mixins, n) ==>
      (m.prepends, m.includes) == OpenMixins(src, mixins, parents, prepends, includes, n)
  }

  lemma AssembledRight(src: Source, d: DeclId, parents: seq<Ancestor>, m: MixinOutcome)
    requires RightParents(src, d, parents) && RightMixins(src, MixinList(src, d), parents, [], [], m)
    ensures RightIds(src, d, Assemble(d, m.prepends, m.includes, parents))
  {
    forall n: nat | Acyclic(src, d, n) ensures Assemble(d, m.prepends, m.includes, parents) == OpenChain(src, d, n) {
      ChildrenAcyclic(src, d, n);
      assert ModulesAcyclic(src, MixinList(src, d), n - 1);
    }
  }

  lemma RightMixinsStep(src: Source, mixins: seq<Mixin>, parents: seq<Ancestor>, prepends: seq<Ancestor>,
                        includes: seq<Ancestor>, prepends1: seq<Ancestor>, includes1: seq<Ancestor>,
                        ids: seq<Ancestor>, m: MixinOutcome)
    requires mixins != [] && RightMixins(src, mixins[1..], parents, prepends1, includes1, m)
    requires ModuleOf(src, mixins[0]).None? && Target(src, mixins[0].name).Some? ==>
      prepends1 == prepends && includes1 == includes
    requires Target(src, mixins[0].name).None? ==>
      && prepends1 == (if mixins[0].Prepend? then [Missing(mixins[0].name)] else []) + prepends
      && includes1 == (if mixins[0].Prepend? then [] else [Missing(mixins[0].name)]) + includes
    requires ModuleOf(src, mixins[0]).Some? ==>
      && RightIds(src, ModuleOf(src, mixins[0]).value, ids)
      && prepends1 == (if mixins[0].Prepend? then AddPrepend(prepends, ids) else prepends)
      && includes1 == (if mixins[0].Prepend? then includes else AddInclude(prepends, includes, parents, ids))
    ensures RightMixins(src, mixins, parents, prepends, includes, m)
  {
    hide AddPrepend, AddInclude, ResolveToNamespace, Target;
    forall n: nat | ModulesAcyclic(src, mixins, n)
      ensures (m.prepends, m.includes) == OpenMixins(src, mixins, parents, prepends, includes, n)
    {
      TailModules(src, mixins);
      assert ModulesAcyclic(src, mixins[1..], n);
      assert [] + prepends == prepends && [] + includes == includes;
    }
  }

  lemma ModulesBelow(src: Source, ctx: Context, ctx': Context, d: DeclId)
    requires SeenAbove(src, ctx, d) && ctx'.seen <= Entered(ctx, d).seen
    ensures forall e | e in Modules(src, MixinList(src, d)) :: SeenAbove(src, ctx', e)
  {
    forall e | e in Modules(src, MixinList(src, d)) ensures SeenAbove(src, ctx', e) {
      SeenAboveChild(src, ctx, d, e);
    }
  }

  lemma {:induction false} ParentCorrect(src: Source, g: Graph, ctx: Context, d: DeclId)
    requires Ready(src, g) && d in g.ns
    requires Correct(src, g) && SeenAbove(src, ctx, d)
    ensures var p := LinearizeParent(src, g, Entered(ctx, d), d); Correct(src, p.g) && RightParents(src, d, p.ids)
    decreases Work(src, g, Entered(ctx, d), Reach(src, d)), 2
  {
    hide Usable, Intact, Work, Reach, Settled, Correct, Existing;
    if ParentOf(src, d).None? {
      NoParentCall(src, g, Entered(ctx, d), d);
    } else {
      var g1, ctx1, parent, r := ParentCall(src, g, Entered(ctx, d), d);
      SameChainsCorrect(src, g, g1);
      SeenAboveChild(src, ctx, d, parent);
      LinearizeCorrect(src, g1, ctx1, parent);
    }
  }

  lemma {:induction false} MixinsCorrect(src: Source, g: Graph, ctx: Context, mixins: seq<Mixin>,
                                         parents: seq<Ancestor>, prepends: seq<Ancestor>, includes: seq<Ancestor>)
    requires Ready(src, g) && Existing(g, prepends) && Existing(g, includes)
    requires Correct(src, g) && forall e | e in Modules(src, mixins) :: SeenAbove(src, ctx, e)
    ensures var m := LinearizeMixins(src, g, ctx, mixins, parents, prepends, includes);
      Correct(src, m.g) && RightMixins(src, mixins, parents, prepends, includes, m)
    decreases Work(src, g, ctx, ReferenceLevel(src)), 1, |mixins|
  {
    hide Usable, Intact, Work, Reach, Settled, Correct, Existing, RightMixins, RightIds, SeenAbove;
    if mixins == [] {
      RightNoMixins(src, parents, prepends, includes, LinearizeMixins(src, g, ctx, mixins, parents, prepends, includes));
    } else {
      var m := LinearizeMixins(src, g, ctx, mixins, parents, prepends, includes);
      TailModules(src, mixins);
      if ModuleOf(src, mixins[0]).None? {
        var ctx1, prepends1, includes1 := SkippedMixin(src, g, ctx, mixins, parents, prepends, includes);
        SeenAboveKept(src, mixins, ctx, ctx1);
        MixinsCorrect(src, g, ctx1, mixins[1..], parents, prepends1, includes1);
        RightMixinsStep(src, mixins, parents, prepends, includes, prepends1, includes1, [], m);
      } else {
        var mod, r, ctx1, prepends1, includes1 := MixinCall(src, g, ctx, mixins, parents, prepends, includes);
        LinearizeCorrect(src, g, ctx, mod);
        SeenAboveKept(src, mixins, ctx, ctx1);
        MixinsCorrect(src, r.g, ctx1, mixins[1..], parents, prepends1, includes1);
        RightMixinsStep(src, mixins, parents, prepends, includes, prepends1, includes1, r.ancestors.ids, m);
      }
    }
  }

  lemma RightNoMixins(src: Source, parents: seq<Ancestor>, prepends: seq<Ancestor>, includes: seq<Ancestor>, m: MixinOutcome)
    requires m.prepends == prepends && m.includes == includes
    ensures RightMixins(src, [], parents, prepends, includes, m)
  {
  }

  lemma SeenAboveKept(src: Source, mixins: seq<Mixin>, ctx: Context, ctx': Context)
    requires mixins != [] && ctx'.seen <= ctx.seen
    requires forall e | e in Modules(src, mixins) :: SeenAbove(src, ctx, e)
    ensures forall e | e in Modules(src, mixins[1..]) :: SeenAbove(src, ctx', e)
  {
    TailModules(src, mixins);
  }
}
