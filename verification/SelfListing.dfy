/** Every finished chain lists the declaration it belongs to, whatever was stored along the way. */
module SelfListing {
  import opened Declarations
  import opened Graphs
  import opened Links
  import opened Hierarchy
  import opened Linearization
  import opened PlainChains
  import opened Steps
  import opened Runs

  /** Finished chains list their own declaration; estimates stored for declarations that are still being
      linearized need not. */
  ghost predicate ListsItself(g: Graph, stack: set<DeclId>) {
    forall d | d in g.ns && d !in stack && g.ns[d].ancestors.Finished() :: Known(d) in g.ns[d].ancestors.ids
  }

  lemma SameChainsList(g: Graph, h: Graph, stack: set<DeclId>)
    requires SameChains(g, h) && ListsItself(g, stack)
    ensures ListsItself(h, stack)
  {
  }

  lemma EstimateLists(g: Graph, d: DeclId, ancestors: Ancestors, stack: set<DeclId>)
    requires ListsItself(g, stack) && d in g.ns && d in stack
    ensures ListsItself(SetAncestors(g, d, ancestors), stack)
  {
  }

  lemma StoredLists(g: Graph, d: DeclId, ancestors: Ancestors, stack: set<DeclId>)
    requires ListsItself(g, stack + {d}) && d in g.ns && Known(d) in ancestors.ids
    ensures ListsItself(SetAncestors(g, d, ancestors), stack)
  {
  }

  lemma StackMore(g: Graph, stack: set<DeclId>, d: DeclId)
    requires ListsItself(g, stack)
    ensures ListsItself(g, stack + {d})
  {
  }

  lemma {:induction false} LinearizeLists(src: Source, g: Graph, ctx: Context, d: DeclId, stack: set<DeclId>)
    requires Ready(src, g) && d in g.ns && ListsItself(g, stack) && ctx.seen <= stack
    ensures var r := Linearize(src, g, ctx, d);
      ListsItself(r.g, stack) && r.ctx.seen <= stack
    decreases Work(src, g, ctx, Reach(src, d)), 0
  {
    hide Usable, Intact, Work, Reach, Settled, Existing, ListsItself, FinishedKept, NoneCompleted;
    if g.ns[d].ancestors.Finished() {
      SameChainsList(g, Propagate(g, ctx.descendants + {d}, g.ns[d].ancestors.ids), stack);
    } else if d in ctx.seen {
      EstimateLists(g, d, Estimate(src, d), stack);
    } else {
      var g1, p, g2, m := FreshCall(src, g, ctx, d);
      SameChainsList(g, g1, stack);
      StackMore(g1, stack, d);
      ParentLists(src, g1, Entered(ctx, d), d, stack + {d});
      SameChainsList(p.g, g2, stack + {d});
      MixinsList(src, g2, p.ctx, MixinList(src, d), p.ids, [], [], stack + {d});
      StoredLists(m.g, d, Tagged(m.ctx, Assemble(d, m.prepends, m.includes, p.ids)), stack);
    }
  }

  lemma {:induction false} ParentLists(src: Source, g: Graph, ctx: Context, d: DeclId, stack: set<DeclId>)
    requires Ready(src, g) && d in g.ns && ListsItself(g, stack) && ctx.seen <= stack
    ensures var p := LinearizeParent(src, g, ctx, d);
      ListsItself(p.g, stack) && p.ctx.seen <= stack
    decreases Work(src, g, ctx, Reach(src, d)), 2
  {
    hide Usable, Intact, Work, Reach, Settled, ListsItself, ParentOf, ParentMissing;
    if ParentOf(src, d).None? {
      NoParentCall(src, g, ctx, d);
    } else {
      var g1, ctx1, parent, r := ParentCall(src, g, ctx, d);
      SameChainsList(g, g1, stack);
      LinearizeLists(src, g1, ctx1, parent, stack);
    }
  }

  lemma {:induction false} MixinsList(src: Source, g: Graph, ctx: Context, mixins: seq<Mixin>, parents: seq<Ancestor>,
                                      prepends: seq<Ancestor>, includes: seq<Ancestor>, stack: set<DeclId>)
    requires Ready(src, g) && Existing(g, prepends) && Existing(g, includes)
    requires ListsItself(g, stack) && ctx.seen <= stack
    ensures var m := LinearizeMixins(src, g, ctx, mixins, parents, prepends, includes);
      ListsItself(m.g, stack) && m.ctx.seen <= stack
    decreases Work(src, g, ctx, ReferenceLevel(src)), 1, |mixins|
  {
    hide Usable, Intact, Work, Reach, Settled, ListsItself, Existing, FinishedKept, NoneCompleted;
    if mixins != [] {
      if ModuleOf(src, mixins[0]).None? {
        var ctx1, prepends1, includes1 := SkippedMixin(src, g, ctx, mixins, parents, prepends, includes);
        MixinsList(src, g, ctx1, mixins[1..], parents, prepends1, includes1, stack);
      } else {
        var mod, r, ctx1, prepends1, includes1 := MixinCall(src, g, ctx, mixins, parents, prepends, includes);
        LinearizeLists(src, g, ctx, mod, stack);
        MixinsList(src, r.g, ctx1, mixins[1..], parents, prepends1, includes1, stack);
      }
    }
  }

  /** In every run on every graph, finished chains list their own declaration. */
  lemma {:induction false} RunLists(src: Source, g: Graph, ds: seq<DeclId>)
    requires Ready(src, g) && (forall d | d in ds :: d in g.ns) && ListsItself(g, {})
    ensures ListsItself(Run(src, g, ds), {})
    decreases |ds|
  {
    hide Usable, Intact, ListsItself, Linearize;
    if ds != [] {
      LinearizeLists(src, g, FRESH, ds[0], {});
      RunLists(src, AncestorsOf(src, g, ds[0]).g, ds[1..]);
    }
  }
}
