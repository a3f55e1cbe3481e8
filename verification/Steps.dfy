/** The nested calls of one call, named once for all the inductions over the traversal. */
module Steps {
  import opened Declarations
  import opened Aliases
  import opened Graphs
  import opened Links
  import opened Hierarchy
  import opened Linearization
  import opened PlainChains
  import opened OpenChains

  /** `h` has the chains of `g`, and new namespaces have none yet. */
  ghost predicate SameChains(g: Graph, h: Graph) {
    && g.ns.Keys <= h.ns.Keys
    && (forall d | d in g.ns :: h.ns[d].ancestors == g.ns[d].ancestors)
    && (forall d | d in h.ns && d !in g.ns :: h.ns[d].ancestors == Partial([]))
  }

  predicate IsFresh(g: Graph, ctx: Context, d: DeclId)
    requires d in g.ns
  {
    !g.ns[d].ancestors.Finished() && d !in ctx.seen
  }

  /** The result of a call put together from its parts. */
  lemma FreshResult(src: Source, g: Graph, ctx: Context, d: DeclId, g1: Graph, p: ParentOutcome, g2: Graph, m: MixinOutcome)
    requires Usable(src, g) && d in g.ns && IsFresh(g, ctx, d)
    requires g1 == AddDescendants(g, d, Entered(ctx, d).descendants) && Usable(src, g1)
    requires p == LinearizeParent(src, g1, Entered(ctx, d), d) && d in p.g.ns
    requires g2 == ForExtends(src, p.g, d) && Usable(src, g2) && Existing(g2, [])
    requires m == LinearizeMixins(src, g2, p.ctx, MixinsNow(src, p.g, d), p.ids, [], []) && d in m.g.ns
    ensures var ids := Assemble(d, m.prepends, m.includes, p.ids);
      Linearize(src, g, ctx, d) == Outcome(SetAncestors(m.g, d, Tagged(m.ctx, ids)), Finalize(m.ctx, d), Tagged(m.ctx, ids))
  {
    hide Usable, Existing, Reach, Work, Weight, HasExtends, MixinsNow, Estimate, Keeps, Moves, Settled, ForExtends, Tagged,
      Assemble, LinearizeParent, LinearizeMixins, Intact, Top;
  }

  /** What a call does that has nothing to linearize. */
  lemma SettledCases(src: Source, g: Graph, ctx: Context, d: DeclId)
    requires Usable(src, g) && d in g.ns
    ensures g.ns[d].ancestors.Finished() ==>
      var chain, ctx1 := g.ns[d].ancestors, ctx.(descendants := ctx.descendants + {d});
      && Existing(g, chain.ids)
      && Linearize(src, g, ctx, d) == Outcome(Propagate(g, ctx1.descendants, chain.ids), Finalize(ctx1, d), chain)
    ensures !g.ns[d].ancestors.Finished() && d in ctx.seen ==>
      Linearize(src, g, ctx, d) ==
        Outcome(SetAncestors(g, d, Estimate(src, d)), Finalize(ctx.(descendants := ctx.descendants + {d}), d), Estimate(src, d))
    ensures !g.ns[d].ancestors.Finished() && d !in ctx.seen ==>
      Work(src, g, Entered(ctx, d), Reach(src, d)) < Work(src, g, ctx, Reach(src, d))
  {
    hide Valid, OrdinarySuperclasses, Existing, Reach, Work, Weight, HasExtends, MixinsNow, Estimate, FinishedKept,
      NoneCompleted, Moves, Keeps, Lost, Intact, Top;
    NamespaceParts(src, g, d);
    if !g.ns[d].ancestors.Finished() && d !in ctx.seen {
      WorkSpent(src, g, ctx, g, Entered(ctx, d), d);
    }
  }

  /** A declaration that is met again while it is being linearized: a class stands for `Object` alone, anything else for
      nothing, and that is stored as a cyclic chain until its own call comes back. */
  lemma MetAgain(src: Source, g: Graph, ctx: Context, d: DeclId)
    requires Usable(src, g) && d in g.ns && !g.ns[d].ancestors.Finished() && d in ctx.seen
    ensures var r := Linearize(src, g, ctx, d);
      && r.ancestors == Cyclic(if KindOf(src, d) == Class then [Known(OBJECT)] else [])
      && r.g == g.(ns := g.ns[d := g.ns[d].(ancestors := r.ancestors)])
      && d !in r.ctx.seen && r.ctx.seen == ctx.seen - {d}
  {
    hide Usable, Linearize;
    SettledCases(src, g, ctx, d);
  }

  /** The parts of a call that linearizes `d`, on any graph. */
  lemma {:induction false} CallParts(src: Source, g: Graph, ctx: Context, d: DeclId)
      returns (g1: Graph, p: ParentOutcome, g2: Graph, m: MixinOutcome)
    requires Usable(src, g) && d in g.ns && !g.ns[d].ancestors.Finished() && d !in ctx.seen
    ensures g1 == AddDescendants(g, d, Entered(ctx, d).descendants) && Usable(src, g1) && d in g1.ns
    ensures Weight(Lost(g1), Top(src, d)) == Weight(Lost(g), Top(src, d))
    ensures Work(src, g1, Entered(ctx, d), Reach(src, d)) == Work(src, g, Entered(ctx, d), Reach(src, d))
    ensures p == LinearizeParent(src, g1, Entered(ctx, d), d) && d in p.g.ns && g2 == ForExtends(src, p.g, d)
    ensures Usable(src, g2) && Existing(g2, [])
    ensures Weight(Lost(g2), ReferenceTop(src)) <= Weight(Lost(g), Top(src, d))
    ensures Weight(Lost(g2), ReferenceTop(src)) < Weight(Lost(g), Top(src, d)) ||
      Work(src, g2, p.ctx, ReferenceLevel(src)) <= Work(src, g, Entered(ctx, d), Reach(src, d))
    ensures m == LinearizeMixins(src, g2, p.ctx, MixinsNow(src, p.g, d), p.ids, [], []) && d in m.g.ns
    ensures var ids := Assemble(d, m.prepends, m.includes, p.ids);
      Linearize(src, g, ctx, d) == Outcome(SetAncestors(m.g, d, Tagged(m.ctx, ids)), Finalize(m.ctx, d), Tagged(m.ctx, ids))
  {
    hide *;
    Entering(src, g, ctx, d);
    WorkOfEntered(src, g, ctx, d);
    g1 := AddDescendants(g, d, Entered(ctx, d).descendants);
    p := LinearizeParent(src, g1, Entered(ctx, d), d);
    InTheMiddle(src, g, ctx, d, p.g, p.ctx);
    MiddleWork(src, g1, Entered(ctx, d), p.g, p.ctx, d);
    g2 := ForExtends(src, p.g, d);
    m := LinearizeMixins(src, g2, p.ctx, MixinsNow(src, p.g, d), p.ids, [], []);
    MovesParts(src, ReferenceTop(src), g2, p.ctx, m.g, m.ctx);
    Middle(src, p.g, d);
    FreshResult(src, g, ctx, d, g1, p, g2, m) by { Fresh(g, ctx, d); }
  }

  lemma Fresh(g: Graph, ctx: Context, d: DeclId)
    requires d in g.ns && !g.ns[d].ancestors.Finished() && d !in ctx.seen
    ensures IsFresh(g, ctx, d)
  {
  }

  lemma Middle(src: Source, g: Graph, d: DeclId)
    requires d in g.ns
    ensures d in ForExtends(src, g, d).ns
  {
    hide HasExtends;
  }

  lemma MiddleWork(src: Source, g: Graph, ctx: Context, h: Graph, ctx': Context, d: DeclId)
    requires Usable(src, g) && d in h.ns && Moves(src, Top(src, d), g, ctx, h, ctx')
    ensures var g2 := ForExtends(src, h, d);
      Weight(Lost(g2), ReferenceTop(src)) < Weight(Lost(g), Top(src, d)) ||
      Work(src, g2, ctx', ReferenceLevel(src)) <= Work(src, g, ctx, Reach(src, d))
  {
    hide *;
    MovesParts(src, Top(src, d), g, ctx, h, ctx');
    ForExtendsAsks(src, h, d, Top(src, d)) by { Positive(src, d); }
    var g2 := ForExtends(src, h, d);
    AskingMoves(src, Top(src, d), h, ctx', g2);
    MovesMore(src, Top(src, d), g, ctx, h, ctx', g2, ctx');
    MovesParts(src, Top(src, d), g, ctx, g2, ctx');
    Tops(src, d);
    MeasureShrinks(src, g, ctx, g2, ctx', Reach(src, d), Top(src, d), ReferenceLevel(src), ReferenceTop(src));
  }

  lemma Positive(src: Source, d: DeclId)
    ensures Top(src, d) > 0
  {
  }

  /** Adding descendants leaves the work to do as it is. */
  lemma WorkOfEntered(src: Source, g: Graph, ctx: Context, d: DeclId)
    requires d in g.ns
    ensures Work(src, AddDescendants(g, d, Entered(ctx, d).descendants), Entered(ctx, d), Reach(src, d))
         == Work(src, g, Entered(ctx, d), Reach(src, d))
  {
    assert FinishedIds(AddDescendants(g, d, Entered(ctx, d).descendants)) == FinishedIds(g);
  }

  /** What `r` is to be once the parent of the singleton class `d` has been chosen. */
  ghost predicate SingletonStart(src: Source, g: Graph, ctx: Context, d: DeclId, r: Outcome)
    requires Usable(src, g) && d in g.ns && d.SingletonOf?
  {
    d.attached in g.ns &&
    var (g1, parent, partial) := SingletonParent(src, g, d.attached);
    && Usable(src, g1) && parent in g1.ns
    && r == Linearize(src, g1, ctx.(partial := ctx.partial || partial), parent)
  }

  lemma SingletonStarts(src: Source, g: Graph, ctx: Context, d: DeclId)
    requires Usable(src, g) && d in g.ns && d.SingletonOf?
    ensures d.attached in g.ns
    ensures var (g1, parent, partial) := SingletonParent(src, g, d.attached);
      var ctx1 := ctx.(partial := ctx.partial || partial);
      && Usable(src, g1) && parent in g1.ns
      && Weight(Lost(g1), Top(src, parent)) <= Weight(Lost(g), Top(src, d))
      && (Weight(Lost(g1), Top(src, parent)) < Weight(Lost(g), Top(src, d)) ||
          Work(src, g1, ctx1, Reach(src, parent)) <= Work(src, g, ctx, Reach(src, d)))
  {
    hide Valid, OrdinarySuperclasses, Work, Weight, Lost, SingletonParent, Moves, Asked, Top, Reach, Declared, WellFormedSource;
    SingletonParentReady(src, g, ctx, d);
    var (g1, parent, partial) := SingletonParent(src, g, d.attached);
    assert ctx.(partial := ctx.partial || partial) == if partial then ctx.(partial := true) else ctx;
  }

  /** The cases of `LinearizeParent`. */
  lemma ParentCases(src: Source, g: Graph, ctx: Context, d: DeclId)
    requires Usable(src, g) && d in g.ns
    ensures d != BASIC_OBJECT && d.SingletonOf? ==> forall r: Outcome | SingletonStart(src, g, ctx, d, r) ::
      LinearizeParent(src, g, ctx, d) == ParentOutcome(r.g, Absorb(r.ctx, r.ancestors), r.ancestors.ids)
    ensures d != BASIC_OBJECT && !d.SingletonOf? && KindOf(src, d) == Class ==>
      && ParentClass(src, DefinitionsOf(src, d)).0 in g.ns && ParentClass(src, DefinitionsOf(src, d)).0.Named?
      && Weight(Lost(g), ReferenceTop(src)) <= Weight(Lost(g), Top(src, d))
      && Work(src, g, ctx, ReferenceLevel(src)) <= Work(src, g, ctx, Reach(src, d))
      && var r := LinearizeParentClass(src, g, ctx, DefinitionsOf(src, d));
         LinearizeParent(src, g, ctx, d) == ParentOutcome(r.g, Absorb(r.ctx, r.ancestors), r.ancestors.ids)
    ensures d == BASIC_OBJECT || (!d.SingletonOf? && KindOf(src, d) != Class) ==>
      LinearizeParent(src, g, ctx, d) == ParentOutcome(g, ctx, [])
  {
    hide Valid, OrdinarySuperclasses, Work, Weight, Lost, Existing, ParentClass, SingletonParent, SingletonParentId, Asked,
      OnlyCreates, Settled, FinishedKept, NoneCompleted, Moves, Keeps, Intact, Top, ReferenceTop, Reach, ReferenceLevel;
    if !d.SingletonOf? { ClassParentReady(src, g, ctx, d); }
    if d != BASIC_OBJECT && d.SingletonOf? {
      forall r: Outcome | SingletonStart(src, g, ctx, d, r)
        ensures LinearizeParent(src, g, ctx, d) == ParentOutcome(r.g, Absorb(r.ctx, r.ancestors), r.ancestors.ids)
      {
        var (g1, parent, partial) := SingletonParent(src, g, d.attached);
        assert ctx.(partial := ctx.partial || partial) == if partial then ctx.(partial := true) else ctx;
      }
    }
  }

  /** No more is left to be done for mixins than before. */
  ghost predicate NotMore(src: Source, g: Graph, ctx: Context, h: Graph, ctx': Context) {
    && Weight(Lost(h), ReferenceTop(src)) <= Weight(Lost(g), ReferenceTop(src))
    && (Weight(Lost(h), ReferenceTop(src)) < Weight(Lost(g), ReferenceTop(src)) ||
        Work(src, h, ctx', ReferenceLevel(src)) <= Work(src, g, ctx, ReferenceLevel(src)))
  }

  // ---- the same where nothing can be overwritten ----

  /** Asking for singleton classes on a graph with nothing to overwrite. */
  lemma CreatesChains(g: Graph, h: Graph)
    requires OnlyCreates(g, h)
    ensures SameChains(g, h)
  {
  }

  lemma MixinsAreAll(src: Source, g: Graph, d: DeclId)
    requires Intact(g)
    ensures MixinsNow(src, g, d) == MixinList(src, d)
  {
    hide MixinsOf, OnlyExtends, WithoutExtends;
  }

  lemma EntryReady(src: Source, g: Graph, ctx: Context, d: DeclId)
    requires Ready(src, g) && d in g.ns && IsFresh(g, ctx, d)
    ensures var g1 := AddDescendants(g, d, Entered(ctx, d).descendants);
      && Ready(src, g1) && d in g1.ns && SameChains(g, g1)
      && d !in Settled(g, ctx) && Settled(g, ctx) + {d} <= Settled(g1, Entered(ctx, d))
      && Work(src, g1, Entered(ctx, d), Reach(src, d)) < Work(src, g, ctx, Reach(src, d))
      && Declared(src, d)
  {
    hide OrdinarySuperclasses, Work;
    NamespaceParts(src, g, d);
    EntryKeeps(src, g, ctx, d);
    hide Valid, Lost;
  }

  /** The parts of a call that neither hits a cache nor meets a declaration again. */
  lemma {:induction false} FreshCall(src: Source, g: Graph, ctx: Context, d: DeclId)
      returns (g1: Graph, p: ParentOutcome, g2: Graph, m: MixinOutcome)
    requires Ready(src, g) && d in g.ns && IsFresh(g, ctx, d)
    ensures g1 == AddDescendants(g, d, Entered(ctx, d).descendants)
    ensures Ready(src, g1) && d in g1.ns && SameChains(g, g1)
    ensures Work(src, g1, Entered(ctx, d), Reach(src, d)) < Work(src, g, ctx, Reach(src, d))
    ensures p == LinearizeParent(src, g1, Entered(ctx, d), d)
    ensures Keeps(src, g1, Entered(ctx, d), p.g, p.ctx)
    ensures d in p.g.ns && g2 == ForExtends(src, p.g, d)
    ensures Keeps(src, g1, Entered(ctx, d), g2, p.ctx)
    ensures Ready(src, g2) && OnlyCreates(p.g, g2) && SameChains(p.g, g2) && Existing(g2, [])
    ensures Work(src, g2, p.ctx, ReferenceLevel(src)) < Work(src, g, ctx, Reach(src, d))
    ensures m == LinearizeMixins(src, g2, p.ctx, MixinList(src, d), p.ids, [], [])
    ensures Keeps(src, g2, p.ctx, m.g, m.ctx) && d in m.g.ns
    ensures !m.g.ns[d].ancestors.Complete?
    ensures var ids := Assemble(d, m.prepends, m.includes, p.ids);
      Linearize(src, g, ctx, d) == Outcome(SetAncestors(m.g, d, Tagged(m.ctx, ids)), Finalize(m.ctx, d), Tagged(m.ctx, ids))
  {
    EntryReady(src, g, ctx, d);
    g1 := AddDescendants(g, d, Entered(ctx, d).descendants);
    hide Usable, Intact, Existing, Reach, Work, Weight, HasExtends, MixinList, MixinsNow, FinishedKept, Linearize,
      LinearizeParent, LinearizeMixins, NoneCompleted, Settled, Moves, SameChains, OnlyCreates, ForExtends, AddDescendants,
      Declared, ReferenceLevel, Top;
    p := LinearizeParent(src, g1, Entered(ctx, d), d);
    ForExtendsKeeps(src, p.g, p.ctx, d);
    g2 := ForExtends(src, p.g, d);
    CreatesChains(p.g, g2);
    KeepsMore(src, g1, Entered(ctx, d), p.g, p.ctx, g2, p.ctx);
    SettledMore(g, ctx, d, g1, Entered(ctx, d), g2, p.ctx);
    BodyWork(src, g, ctx, g2, p.ctx, d);
    ExistingNothing(g2);
    MixinsAreAll(src, p.g, d);
    m := LinearizeMixins(src, g2, p.ctx, MixinList(src, d), p.ids, [], []);
    KeepsMore(src, g1, Entered(ctx, d), g2, p.ctx, m.g, m.ctx);
    FreshResult(src, g, ctx, d, g1, p, g2, m);
    StaysIncomplete(g, ctx, d, m.g, m.ctx, src);
  }

  lemma SettledMore(g: Graph, ctx: Context, d: DeclId, g1: Graph, ctx1: Context, h: Graph, ctx': Context)
    requires Settled(g, ctx) + {d} <= Settled(g1, ctx1) <= Settled(h, ctx')
    ensures Settled(g, ctx) + {d} <= Settled(h, ctx')
  {
  }

  /** A declaration that has been entered is not completed by what comes before its own result. */
  lemma StaysIncomplete(g: Graph, ctx: Context, d: DeclId, h: Graph, ctx': Context, src: Source)
    requires d in g.ns && IsFresh(g, ctx, d) && d in h.ns
    requires Keeps(src, AddDescendants(g, d, Entered(ctx, d).descendants), Entered(ctx, d), h, ctx')
    ensures !h.ns[d].ancestors.Complete?
  {
    hide Usable, Intact;
    var g1 := AddDescendants(g, d, Entered(ctx, d).descendants);
    assert d in Settled(g1, Entered(ctx, d)) && !HasComplete(g1, d);
  }

  /** Where the parent chain of `d` comes from: a call for `parent` on a graph that at most has more
      singleton classes, in a context that at most has the partial flag set. */
  lemma {:induction false} ParentCall(src: Source, g: Graph, ctx: Context, d: DeclId)
      returns (g1: Graph, ctx1: Context, parent: DeclId, r: Outcome)
    requires Ready(src, g) && d in g.ns && ParentOf(src, d).Some?
    ensures parent == ParentOf(src, d).value && parent in g1.ns
    ensures Ready(src, g1) && OnlyCreates(g, g1) && SameChains(g, g1)
    ensures ctx1 == ctx || ctx1 == ctx.(partial := true)
    ensures ctx1 == ctx || ParentMissing(src, d)
    ensures Work(src, g1, ctx1, Reach(src, parent)) <= Work(src, g, ctx, Reach(src, d))
    ensures r == Linearize(src, g1, ctx1, parent)
    ensures var p := LinearizeParent(src, g, ctx, d);
      && p.g == r.g
      && p.ids == MissingParent(src, d) + r.ancestors.ids
      && (!ParentMissing(src, d) ==> MissingParent(src, d) == [] && p.ctx == Absorb(r.ctx, r.ancestors))
      && (ParentMissing(src, d) ==> p.ctx.partial)
      && p.ctx.seen == r.ctx.seen && p.ctx.descendants == r.ctx.descendants
      && (r.ancestors.Cyclic? && !ParentMissing(src, d) ==> p.ctx.cyclic)
      && (r.ctx.cyclic ==> p.ctx.cyclic)
  {
    hide Valid, OrdinarySuperclasses, Work, Weight, Existing, ParentClass, SingletonParent, SingletonParentId, FinishedKept,
      FinishedIds, NoneCompleted, Moves, Asked, OnlyCreates, SameChains, Intact, Settled, Lost, Lighter, Reach,
      ReferenceLevel, Top;
    if d.SingletonOf? {
      SingletonParentReady(src, g, ctx, d);
      SingletonParentIs(src, g, d.attached);
      var (g2, sp, partial) := SingletonParent(src, g, d.attached);
      g1, parent := g2, sp;
      ctx1 := if partial then ctx.(partial := true) else ctx;
      CreatesChains(g, g1);
      NoWeights(g, Top(src, d));
    } else {
      ClassParentReady(src, g, ctx, d);
      g1, ctx1, parent := g, ctx, ParentClass(src, DefinitionsOf(src, d)).0;
      NothingCreated(g);
      NamedReach(src, parent);
    }
    r := Linearize(src, g1, ctx1, parent);
  }

  lemma NoWeights(g: Graph, top: nat)
    requires Intact(g)
    ensures Weight(Lost(g), top) == 0
  {
    NoWeight(top);
  }

  lemma NothingCreated(g: Graph)
    ensures OnlyCreates(g, g) && SameChains(g, g)
  {
  }

  lemma NoParentCall(src: Source, g: Graph, ctx: Context, d: DeclId)
    requires Ready(src, g) && d in g.ns && ParentOf(src, d).None?
    ensures LinearizeParent(src, g, ctx, d) == ParentOutcome(g, ctx, []) && !ParentMissing(src, d)
  {
  }

  /** The first mixin of a run, when its name leads to a namespace, on any graph. */
  lemma {:induction false} MixinTurn(src: Source, g: Graph, ctx: Context, mixins: seq<Mixin>, parents: seq<Ancestor>,
                  prepends: seq<Ancestor>, includes: seq<Ancestor>)
      returns (mod: DeclId, r: Outcome, ctx1: Context, prepends1: seq<Ancestor>, includes1: seq<Ancestor>)
    requires Usable(src, g) && Existing(g, prepends) && Existing(g, includes)
    requires mixins != [] && ModuleOf(src, mixins[0]).Some?
    ensures mod == ModuleOf(src, mixins[0]).value && mod in g.ns && Reach(src, mod) <= ReferenceLevel(src)
    ensures Weight(Lost(g), Top(src, mod)) <= Weight(Lost(g), ReferenceTop(src))
    ensures Work(src, g, ctx, Reach(src, mod)) <= Work(src, g, ctx, ReferenceLevel(src))
    ensures r == Linearize(src, g, ctx, mod)
    ensures Usable(src, r.g) && Existing(r.g, prepends1) && Existing(r.g, includes1)
    ensures NotMore(src, g, ctx, r.g, ctx1)
    ensures LinearizeMixins(src, g, ctx, mixins, parents, prepends, includes)
         == LinearizeMixins(src, r.g, ctx1, mixins[1..], parents, prepends1, includes1)
  {
    hide Usable, Intact, Work, Weight, ResolveToNamespace, AddPrepend, AddInclude, FinishedKept, FinishedIds, Moves,
      Settled, NoneCompleted, Existing, Linearize, Lost, ReferenceTop, Top, Reach, ReferenceLevel, Keeps;
    MixinReady(src, g, ctx, mixins[0].name);
    mod := ModuleOf(src, mixins[0]).value;
    r := Linearize(src, g, ctx, mod);
    ctx1 := Absorb(r.ctx, r.ancestors);
    MixinDone(src, g, ctx, mod, r);
    MixinsExist(g, r.g, prepends, includes, parents, r.ancestors.ids);
    prepends1 := if mixins[0].Prepend? then AddPrepend(prepends, r.ancestors.ids) else prepends;
    includes1 := if mixins[0].Prepend? then includes else AddInclude(prepends, includes, parents, r.ancestors.ids);
  }

  /** The first mixin of a run, when its name leads to a namespace. */
  lemma {:induction false} MixinCall(src: Source, g: Graph, ctx: Context, mixins: seq<Mixin>, parents: seq<Ancestor>,
                  prepends: seq<Ancestor>, includes: seq<Ancestor>)
      returns (mod: DeclId, r: Outcome, ctx1: Context, prepends1: seq<Ancestor>, includes1: seq<Ancestor>)
    requires Ready(src, g) && Existing(g, prepends) && Existing(g, includes)
    requires mixins != [] && ModuleOf(src, mixins[0]).Some?
    ensures mod == ModuleOf(src, mixins[0]).value && mod in g.ns
    ensures Work(src, g, ctx, Reach(src, mod)) <= Work(src, g, ctx, ReferenceLevel(src))
    ensures r == Linearize(src, g, ctx, mod) && ctx1 == Absorb(r.ctx, r.ancestors)
    ensures Ready(src, r.g) && Existing(r.g, prepends1) && Existing(r.g, includes1)
    ensures Keeps(src, g, ctx, r.g, ctx1)
    ensures prepends1 == if mixins[0].Prepend? then AddPrepend(prepends, r.ancestors.ids) else prepends
    ensures includes1 == if mixins[0].Prepend? then includes else AddInclude(prepends, includes, parents, r.ancestors.ids)
    ensures Work(src, r.g, ctx1, ReferenceLevel(src)) <= Work(src, g, ctx, ReferenceLevel(src))
    ensures LinearizeMixins(src, g, ctx, mixins, parents, prepends, includes)
         == LinearizeMixins(src, r.g, ctx1, mixins[1..], parents, prepends1, includes1)
  {
    hide Usable, Intact, Work, Weight, ResolveToNamespace, AddPrepend, AddInclude, FinishedKept, FinishedIds, Moves,
      Settled, NoneCompleted, Existing, Linearize, Lost, ReferenceTop, Top, Reach, ReferenceLevel;
    MixinReady(src, g, ctx, mixins[0].name);
    mod := ModuleOf(src, mixins[0]).value;
    r := Linearize(src, g, ctx, mod);
    ctx1 := Absorb(r.ctx, r.ancestors);
    MixinDone(src, g, ctx, mod, r);
    MovesKeep(src, ReferenceTop(src), g, ctx, r.g, ctx1);
    NoWeights(g, ReferenceTop(src));
    MixinsExist(g, r.g, prepends, includes, parents, r.ancestors.ids);
    prepends1 := if mixins[0].Prepend? then AddPrepend(prepends, r.ancestors.ids) else prepends;
    includes1 := if mixins[0].Prepend? then includes else AddInclude(prepends, includes, parents, r.ancestors.ids);
  }

  /** The first mixin of a run, when its name leads nowhere (yet). */
  lemma {:induction false} SkippedMixin(src: Source, g: Graph, ctx: Context, mixins: seq<Mixin>, parents: seq<Ancestor>,
                     prepends: seq<Ancestor>, includes: seq<Ancestor>)
      returns (ctx1: Context, prepends1: seq<Ancestor>, includes1: seq<Ancestor>)
    requires Usable(src, g) && Existing(g, prepends) && Existing(g, includes)
    requires mixins != [] && ModuleOf(src, mixins[0]).None?
    ensures Existing(g, prepends1) && Existing(g, includes1)
    ensures Target(src, mixins[0].name).Some? ==> ctx1 == ctx && prepends1 == prepends && includes1 == includes
    ensures Target(src, mixins[0].name).None? ==>
      && ctx1 == ctx.(partial := true)
      && prepends1 == (if mixins[0].Prepend? then [Missing(mixins[0].name)] else []) + prepends
      && includes1 == (if mixins[0].Prepend? then [] else [Missing(mixins[0].name)]) + includes
    ensures Work(src, g, ctx1, ReferenceLevel(src)) <= Work(src, g, ctx, ReferenceLevel(src))
    ensures LinearizeMixins(src, g, ctx, mixins, parents, prepends, includes)
         == LinearizeMixins(src, g, ctx1, mixins[1..], parents, prepends1, includes1)
  {
    hide Usable, Intact, Work, Weight, ResolveToNamespace, AddPrepend, AddInclude, FinishedKept, Moves, Keeps, Lost;
    var missing := [Missing(mixins[0].name)];
    ctx1, prepends1, includes1 := ctx, prepends, includes;
    if Target(src, mixins[0].name).None? {
      ctx1 := ctx.(partial := true);
      if mixins[0].Prepend? { prepends1 := missing + prepends; } else { includes1 := missing + includes; }
    }
    WorkShrinks(src, g, ctx, g, ctx1, ReferenceLevel(src), ReferenceLevel(src));
  }
}
