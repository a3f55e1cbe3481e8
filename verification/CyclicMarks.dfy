/** The cyclic flag is shared by the whole traversal: a declaration without any cycle below it can be
    marked as cyclic for good, because another one met before it was. */
module CyclicMarks {
  import opened Declarations
  import opened Aliases
  import opened Graphs
  import opened Links
  import opened Hierarchy
  import opened Linearization
  import opened PlainChains
  import opened Steps

  /** A module that includes itself and then an empty module. */
  const LOOP := Named(4)
  const INNOCENT := Named(5)

  const SELF_INCLUDE := Include(0)
  const INNOCENT_INCLUDE := Include(1)

  const SRC := Source(
    map[0 := Class, 1 := Class, 2 := Class, 3 := Class, 4 := Module, 5 := Module],
    map[LOOP := [ModuleDef([SELF_INCLUDE, INNOCENT_INCLUDE])]],
    map[0 := Resolved(LOOP), 1 := Resolved(INNOCENT)],
    {}, map[])

  function Untouched(): Graph {
    Graph(map k | 0 <= k < 6 :: Named(k) := EMPTY_NAMESPACE, [], [])
  }

  lemma UntouchedNamespaces()
    ensures NamedExist(SRC, Untouched()) && LOOP in Untouched().ns && INNOCENT in Untouched().ns
  {
    forall d | d in Untouched().ns ensures Declared(SRC, d) && IsNamespace(SRC, d) { }
  }

  lemma UntouchedLinks()
    ensures WellFormedSource(SRC) && SingletonsLinked(SRC, Untouched()) && Intact(Untouched())
    ensures ReferencesExist(SRC, Untouched()) && ChainsExist(Untouched())
  {
  }

  lemma NoSuperclasses()
    ensures OrdinarySuperclasses(SRC)
  {
  }

  lemma UntouchedReady()
    ensures Ready(SRC, Untouched()) && LOOP in Untouched().ns && INNOCENT in Untouched().ns
  {
    UntouchedNamespaces();
    UntouchedLinks();
    NoSuperclasses();
    hide Intact, NamedExist, WellFormedSource, SingletonsLinked, ReferencesExist, ChainsExist, OrdinarySuperclasses, Untouched;
  }

  lemma Facts()
    ensures ParentOf(SRC, LOOP).None? && ParentOf(SRC, INNOCENT).None?
    ensures MixinList(SRC, LOOP) == [SELF_INCLUDE, INNOCENT_INCLUDE] && MixinList(SRC, INNOCENT) == []
    ensures ModuleOf(SRC, SELF_INCLUDE) == Some(LOOP) && ModuleOf(SRC, INNOCENT_INCLUDE) == Some(INNOCENT)
  {
    var def := ModuleDef([SELF_INCLUDE, INNOCENT_INCLUDE]);
    assert MixinsOf([def]) == [SELF_INCLUDE, INNOCENT_INCLUDE] by { assert MixinsOf([]) == []; }
    assert WithoutExtends([INNOCENT_INCLUDE]) == [INNOCENT_INCLUDE];
  }

  lemma InnocentGrounded()
    ensures Grounded(SRC, INNOCENT, 1)
  {
    Facts();
    assert Children(SRC, INNOCENT) == {};
  }

  /** A traversal that has met a cycle marks every declaration it still has to linearize. */
  lemma FlagMarks(src: Source, g: Graph, ctx: Context, d: DeclId)
    requires Ready(src, g) && d in g.ns && IsFresh(g, ctx, d) && ctx.cyclic
    ensures var r := Linearize(src, g, ctx, d);
      r.ancestors.Cyclic? && d in r.g.ns && r.g.ns[d].ancestors == r.ancestors && r.ctx.cyclic
  {
    hide Usable, Intact, Work, MixinList, Valid, SameChains,
      OnlyCreates, Existing, Settled, FinishedKept, NoneCompleted, Linearize;
    var g1, p, g2, m := FreshCall(src, g, ctx, d);
  }

  lemma EmptyChain(src: Source, g: Graph, ctx: Context, d: DeclId)
    requires Ready(src, g) && d in g.ns && IsFresh(g, ctx, d) && ParentOf(src, d).None? && MixinList(src, d) == []
    ensures Linearize(src, g, ctx, d).ancestors.ids == [Known(d)]
  {
    hide Usable, Intact, Keeps, Work, ParentOf, MixinList, Valid, SameChains, OnlyCreates, Existing;
    var g1, p, g2, m := FreshCall(src, g, ctx, d);
    NoParentCall(src, g1, Entered(ctx, d), d);
    assert m == MixinOutcome(g2, p.ctx, [], []);
    assert Assemble(d, [], [], []) == [Known(d)];
  }

  /** Meeting a declaration again raises the flag. */
  lemma MetAgain(src: Source, g: Graph, ctx: Context, d: DeclId)
    requires Ready(src, g) && d in g.ns && !g.ns[d].ancestors.Finished() && d in ctx.seen
    ensures var r := Linearize(src, g, ctx, d);
      && r.g == SetAncestors(g, d, Estimate(src, d))
      && Absorb(r.ctx, r.ancestors).cyclic && Absorb(r.ctx, r.ancestors).seen == ctx.seen - {d}
  {
    hide Keeps, Usable, Intact, Valid, Work;
  }

  /** `INNOCENT` has no superclass, no mixins and so no cycle; linearizing `LOOP` first leaves it marked. */
  lemma InnocentMarked()
    ensures Ready(SRC, Untouched()) && LOOP in Untouched().ns
    ensures Grounded(SRC, INNOCENT, 1)
    ensures var g := AncestorsOf(SRC, Untouched(), LOOP).g;
      INNOCENT in g.ns && g.ns[INNOCENT].ancestors == Cyclic([Known(INNOCENT)])
  {
    UntouchedReady();
    InnocentGrounded();
    Facts();
    hide Usable, Intact, Keeps, Work, ParentOf, MixinList, Valid, OnlyCreates, Existing, ModuleOf, Linearize, LinearizeMixins,
      LinearizeParent, Grounded;
    var g := Untouched();
    var g1, p, g2, m := FreshCall(SRC, g, FRESH, LOOP);
    NoParentCall(SRC, g1, Entered(FRESH, LOOP), LOOP);
    var mixins := [SELF_INCLUDE, INNOCENT_INCLUDE];
    var mod, r, ctx1, prepends1, includes1 := MixinCall(SRC, g2, p.ctx, mixins, p.ids, [], []);
    MetAgain(SRC, g2, p.ctx, LOOP);
    assert mixins[1..] == [INNOCENT_INCLUDE];
    var mod2, r2, ctx2, prepends2, includes2 := MixinCall(SRC, r.g, ctx1, [INNOCENT_INCLUDE], p.ids, prepends1, includes1);
    FlagMarks(SRC, r.g, ctx1, INNOCENT);
    EmptyChain(SRC, r.g, ctx1, INNOCENT);
    LastMixin(SRC, r2.g, ctx2, p.ids, prepends2, includes2);
  }

  lemma LastMixin(src: Source, g: Graph, ctx: Context, parents: seq<Ancestor>, prepends: seq<Ancestor>, includes: seq<Ancestor>)
    requires Ready(src, g) && Existing(g, prepends) && Existing(g, includes)
    ensures [INNOCENT_INCLUDE][1..] == []
    ensures LinearizeMixins(src, g, ctx, [], parents, prepends, includes) == MixinOutcome(g, ctx, prepends, includes)
  {
  }
}
