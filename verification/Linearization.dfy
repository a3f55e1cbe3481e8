/** Ancestor linearization as a function from state to state: cached chains, the context shared by
    the whole traversal, estimated chains for cycles, and singleton classes created on the way. */
module Linearization {
  import opened Declarations
  import opened Aliases
  import opened Graphs
  import opened Links
  import opened Hierarchy

  datatype Context = Context(descendants: set<DeclId>, seen: set<DeclId>, cyclic: bool, partial: bool)

  const FRESH := Context({}, {}, false, false)

  datatype Outcome = Outcome(g: Graph, ctx: Context, ancestors: Ancestors)
  datatype ParentOutcome = ParentOutcome(g: Graph, ctx: Context, ids: seq<Ancestor>)
  datatype MixinOutcome = MixinOutcome(g: Graph, ctx: Context, prepends: seq<Ancestor>, includes: seq<Ancestor>)

  function Finalize(ctx: Context, d: DeclId): Context {
    ctx.(descendants := ctx.descendants - {d}, seen := ctx.seen - {d})
  }

  /** Remembers for the rest of the traversal that a nested chain was cyclic or partial. */
  function Absorb(ctx: Context, ancestors: Ancestors): Context {
    match ancestors
    case Complete(_) => ctx
    case Cyclic(_) => ctx.(cyclic := true)
    case Partial(_) => ctx.(partial := true)
  }

  /** Stands in for the chain of a declaration that is met again while it is being linearized. */
  function Estimate(src: Source, d: DeclId): Ancestors {
    Cyclic(if KindOf(src, d) == Class then [Known(OBJECT)] else [])
  }

  function Tagged(ctx: Context, ids: seq<Ancestor>): Ancestors {
    if ctx.cyclic then Cyclic(ids) else if ctx.partial then Partial(ids) else Complete(ids)
  }

  // ---- adding one mixin to what has been collected ----

  function Without(ids: seq<Ancestor>, excluded: seq<Ancestor>): seq<Ancestor> {
    if ids == [] then []
    else (if ids[0] in excluded then [] else [ids[0]]) + Without(ids[1..], excluded)
  }

  function AddPrepend(prepends: seq<Ancestor>, ids: seq<Ancestor>): seq<Ancestor> {
    if exists id | id in ids :: id !in prepends then ids + Without(prepends, ids) else prepends
  }

  function AddInclude(prepends: seq<Ancestor>, includes: seq<Ancestor>, parents: seq<Ancestor>,
                      ids: seq<Ancestor>): seq<Ancestor> {
    Without(ids, prepends + includes + parents) + includes
  }

  lemma WithoutContents(ids: seq<Ancestor>, excluded: seq<Ancestor>)
    ensures forall a :: a in Without(ids, excluded) <==> a in ids && a !in excluded
  {
  }

  // ---- what makes the recursion end ----

  ghost function FinishedIds(g: Graph): set<DeclId> {
    set d | d in g.ns && g.ns[d].ancestors.Finished()
  }

  /** The declarations a nested call returns from at once. */
  ghost function Settled(g: Graph, ctx: Context): set<DeclId> {
    ctx.seen + FinishedIds(g)
  }

  ghost function Work(src: Source, g: Graph, ctx: Context, level: nat): nat {
    |Universe(src, level) - Settled(g, ctx)|
  }

  /** The singleton nesting that linearizing `d` can reach. */
  ghost function Reach(src: Source, d: DeclId): nat {
    if Level(d) > ReferenceLevel(src) then Level(d) else ReferenceLevel(src)
  }

  ghost predicate Usable(src: Source, g: Graph) {
    Valid(src, g) && OrdinarySuperclasses(src)
  }

  /** Besides, no singleton class is there to be overwritten. */
  ghost predicate Ready(src: Source, g: Graph) {
    Usable(src, g) && Intact(g)
  }

  /** What every call keeps on such a graph: the graph stays valid and only grows, nothing settled is unsettled,
      finished chains stay as they are, and the context only loses declarations and gains flags. */
  ghost predicate Keeps(src: Source, g: Graph, ctx: Context, h: Graph, ctx': Context) {
    && Ready(src, h)
    && g.ns.Keys <= h.ns.Keys
    && Settled(g, ctx) <= Settled(h, ctx')
    && FinishedKept(g, h)
    && NoneCompleted(g, ctx, h)
    && ContextKept(ctx, ctx')
  }

  /** The same, with nothing overwritten on the way. */
  ghost predicate Steady(g: Graph, ctx: Context, h: Graph, ctx': Context) {
    && SameLoss(g, h)
    && Settled(g, ctx) <= Settled(h, ctx')
    && FinishedKept(g, h)
    && NoneCompleted(g, ctx, h)
  }

  /** What every call keeps on any graph: if it unsettles anything, it has overwritten a singleton class below
      `top`, and there are fewer left. */
  ghost predicate Moves(src: Source, top: nat, g: Graph, ctx: Context, h: Graph, ctx': Context) {
    && Usable(src, h)
    && g.ns.Keys <= h.ns.Keys
    && ContextKept(ctx, ctx')
    && (Steady(g, ctx, h, ctx') || Lighter(g, h, top))
  }

  /** Above the levels at which linearizing `d` asks for singleton classes. */
  ghost function Top(src: Source, d: DeclId): (top: nat)
    ensures top > 0
  {
    if Reach(src, d) == 0 then 1 else Reach(src, d)
  }

  ghost function ReferenceTop(src: Source): (top: nat)
    ensures top > 0
  {
    if ReferenceLevel(src) == 0 then 1 else ReferenceLevel(src)
  }

  /** A declaration that is settled without being complete does not become complete. */
  ghost predicate NoneCompleted(g: Graph, ctx: Context, h: Graph) {
    forall d | d in Settled(g, ctx) && HasComplete(h, d) :: HasComplete(g, d)
  }

  ghost predicate FinishedKept(g: Graph, h: Graph) {
    forall d | d in g.ns && g.ns[d].ancestors.Finished() ::
      d in h.ns && h.ns[d].ancestors == g.ns[d].ancestors
  }

  ghost predicate ContextKept(ctx: Context, ctx': Context) {
    && ctx'.seen <= ctx.seen
    && ctx'.descendants <= ctx.descendants
    && (ctx.cyclic ==> ctx'.cyclic)
    && (ctx.partial ==> ctx'.partial)
  }

  lemma KeepsMore(src: Source, g: Graph, ctx: Context, h: Graph, ctx': Context, k: Graph, ctx'': Context)
    requires Keeps(src, g, ctx, h, ctx') && Keeps(src, h, ctx', k, ctx'')
    ensures Keeps(src, g, ctx, k, ctx'')
  {
    hide Ready, Settled;
  }

  lemma SteadyMore(g: Graph, ctx: Context, h: Graph, ctx': Context, k: Graph, ctx'': Context)
    requires g.ns.Keys <= h.ns.Keys && Steady(g, ctx, h, ctx') && Steady(h, ctx', k, ctx'')
    ensures Steady(g, ctx, k, ctx'')
  {
    hide Settled, Lost;
  }

  lemma MovesMore(src: Source, top: nat, g: Graph, ctx: Context, h: Graph, ctx': Context, k: Graph, ctx'': Context)
    requires Moves(src, top, g, ctx, h, ctx') && Moves(src, top, h, ctx', k, ctx'')
    ensures Moves(src, top, g, ctx, k, ctx'')
  {
    if Steady(g, ctx, h, ctx') && Steady(h, ctx', k, ctx'') {
      SteadyMore(g, ctx, h, ctx', k, ctx'');
      hide Usable, Steady, Lighter;
    } else {
      SteadyLoss(g, ctx, h, ctx');
      SteadyLoss(h, ctx', k, ctx'');
      hide Usable, Steady, Lighter, SameLoss;
      EitherLighter(g, h, k, top);
    }
  }

  lemma EitherLighter(g: Graph, h: Graph, k: Graph, top: nat)
    requires (SameLoss(g, h) && Lighter(h, k, top)) || (Lighter(g, h, top) && SameLoss(h, k))
          || (Lighter(g, h, top) && Lighter(h, k, top))
    ensures Lighter(g, k, top)
  {
    hide Weight, Lost;
  }

  lemma SteadyLoss(g: Graph, ctx: Context, h: Graph, ctx': Context)
    ensures Steady(g, ctx, h, ctx') ==> SameLoss(g, h)
  {
    hide SameLoss, Settled, FinishedKept, NoneCompleted;
  }

  lemma MovesHigher(src: Source, low: nat, top: nat, g: Graph, ctx: Context, h: Graph, ctx': Context)
    requires Moves(src, low, g, ctx, h, ctx') && low <= top
    ensures Moves(src, top, g, ctx, h, ctx')
  {
    hide Usable, Steady, Weight;
  }

  /** With nothing to overwrite every call keeps everything. */
  lemma MovesKeep(src: Source, top: nat, g: Graph, ctx: Context, h: Graph, ctx': Context)
    requires Moves(src, top, g, ctx, h, ctx')
    ensures Intact(g) ==> Keeps(src, g, ctx, h, ctx')
  {
    if Intact(g) {
      SteadyLoss(g, ctx, h, ctx');
      IntactStays(g, h, top);
      assert !Lighter(g, h, top) by { NotLighter(g, h, top); }
    }
    hide Usable, Settled, FinishedKept, NoneCompleted, SameLoss, Intact, Lighter;
  }

  lemma NotLighter(g: Graph, h: Graph, top: nat)
    requires Intact(g)
    ensures !Lighter(g, h, top)
  {
    NoWeight(top);
    hide Weight;
  }

  lemma NoneCompletedBySet(g: Graph, ctx: Context, h: Graph, d: DeclId, result: Ancestors)
    requires NoneCompleted(g, ctx, h) && d in h.ns && (d !in Settled(g, ctx) || !result.Complete?)
    ensures NoneCompleted(g, ctx, SetAncestors(h, d, result))
  {
    hide Settled;
    var k := SetAncestors(h, d, result);
    forall x | x in Settled(g, ctx) && HasComplete(k, x) ensures HasComplete(g, x) {
      assert x != d;
      assert HasComplete(h, x);
    }
  }

  lemma ExistingMore(g: Graph, h: Graph, ids: seq<Ancestor>)
    requires Existing(g, ids) && g.ns.Keys <= h.ns.Keys
    ensures Existing(h, ids)
  {
  }

  lemma WorkShrinks(src: Source, g: Graph, ctx: Context, h: Graph, ctx': Context, level: nat, level': nat)
    requires level' <= level && Settled(g, ctx) <= Settled(h, ctx')
    ensures Work(src, h, ctx', level') <= Work(src, g, ctx, level)
  {
    hide Settled;
    forall d | d in Universe(src, level') ensures d in Universe(src, level) {
      InUniverse(src, d, level');
      InUniverse(src, d, level);
    }
    Subset(Universe(src, level') - Settled(h, ctx'), Universe(src, level) - Settled(g, ctx));
  }

  /** What is left to be done does not grow: first what can still be overwritten counts, then what is unsettled. */
  lemma MeasureShrinks(src: Source, g: Graph, ctx: Context, h: Graph, ctx': Context, level: nat, top: nat, level': nat, top': nat)
    requires level' <= level && top' <= top
    requires (SameLoss(g, h) && Settled(g, ctx) <= Settled(h, ctx')) || Lighter(g, h, top)
    ensures Weight(Lost(h), top') <= Weight(Lost(g), top)
    ensures Weight(Lost(h), top') < Weight(Lost(g), top) || Work(src, h, ctx', level') <= Work(src, g, ctx, level)
  {
    WeightGrows(Lost(h), top', top);
    if SameLoss(g, h) && Settled(g, ctx) <= Settled(h, ctx') { WorkShrinks(src, g, ctx, h, ctx', level, level'); }
    hide Work, Weight, Settled, Lost;
  }

  lemma WorkSpent(src: Source, g: Graph, ctx: Context, h: Graph, ctx': Context, d: DeclId)
    requires Declared(src, d) && d !in Settled(g, ctx)
    requires Settled(g, ctx) + {d} <= Settled(h, ctx')
    ensures Work(src, h, ctx', Reach(src, d)) < Work(src, g, ctx, Reach(src, d))
  {
    hide Settled;
    InUniverse(src, d, Reach(src, d));
    var before := Universe(src, Reach(src, d)) - Settled(g, ctx);
    var after := Universe(src, Reach(src, d)) - Settled(h, ctx');
    assert d in before;
    Subset(after, before - {d});
  }

  // ---- the four places where a call changes the graph itself ----

  lemma MovesBy(src: Source, top: nat, g: Graph, ctx: Context, h: Graph, ctx': Context)
    requires Usable(src, h) && g.ns.Keys <= h.ns.Keys && ContextKept(ctx, ctx')
    requires Lost(h) == Lost(g) && h.reset == g.reset
    requires Settled(g, ctx) <= Settled(h, ctx') && FinishedKept(g, h) && NoneCompleted(g, ctx, h)
    ensures Moves(src, top, g, ctx, h, ctx')
  {
    hide Usable, Lost, Settled, FinishedKept, NoneCompleted, Lighter;
  }

  lemma CacheHitMoves(src: Source, top: nat, g: Graph, ctx: Context, d: DeclId)
    requires Usable(src, g) && d in g.ns && g.ns[d].ancestors.Finished()
    ensures var h := Propagate(g, ctx.descendants + {d}, g.ns[d].ancestors.ids);
      && Moves(src, top, g, ctx, h, Finalize(ctx.(descendants := ctx.descendants + {d}), d))
      && Existing(h, g.ns[d].ancestors.ids)
  {
    var ids := g.ns[d].ancestors.ids;
    var h := Propagate(g, ctx.descendants + {d}, ids);
    var ctx' := Finalize(ctx.(descendants := ctx.descendants + {d}), d);
    PropagateValid(src, g, ctx.descendants + {d}, ids);
    NamespaceParts(src, g, d);
    assert h.ns.Keys == g.ns.Keys;
    assert forall x | x in g.ns :: h.ns[x].ancestors == g.ns[x].ancestors;
    ExistingMore(g, h, ids);
    hide Existing, Valid, OrdinarySuperclasses, Lost;
    SameAncestorsKeeps(g, ctx, d, h, ctx');
    hide Settled, FinishedKept, NoneCompleted, Propagate;
    MovesBy(src, top, g, ctx, h, ctx');
  }

  lemma SameAncestorsKeeps(g: Graph, ctx: Context, d: DeclId, h: Graph, ctx': Context)
    requires d in FinishedIds(g) && ctx.seen - {d} <= ctx'.seen
    requires h.ns.Keys == g.ns.Keys && forall x | x in g.ns :: h.ns[x].ancestors == g.ns[x].ancestors
    ensures Settled(g, ctx) <= Settled(h, ctx') && FinishedKept(g, h) && NoneCompleted(g, ctx, h)
  {
    assert FinishedIds(h) == FinishedIds(g);
  }

  lemma EstimateMoves(src: Source, top: nat, g: Graph, ctx: Context, d: DeclId)
    requires Usable(src, g) && d in g.ns && !g.ns[d].ancestors.Finished()
    ensures var h := SetAncestors(g, d, Estimate(src, d));
      && Moves(src, top, g, ctx, h, Finalize(ctx.(descendants := ctx.descendants + {d}), d))
      && Existing(h, Estimate(src, d).ids)
  {
    NamespaceParts(src, g, d);
    var h := SetAncestors(g, d, Estimate(src, d));
    var ctx1 := Finalize(ctx.(descendants := ctx.descendants + {d}), d);
    assert Existing(g, Estimate(src, d).ids);
    SetAncestorsValid(src, g, d, Estimate(src, d));
    hide Valid, OrdinarySuperclasses, Lost;
    ExistingMore(g, h, Estimate(src, d).ids);
    SettledAfterSet(g, ctx, d, Estimate(src, d), ctx1);
    FinishedAfterSet(g, g, d, Estimate(src, d));
    NoneCompletedBySet(g, ctx, g, d, Estimate(src, d));
    hide Settled, FinishedKept, NoneCompleted, Existing;
    MovesBy(src, top, g, ctx, h, ctx1);
  }

  lemma SettledAfterSet(g: Graph, ctx: Context, d: DeclId, result: Ancestors, ctx': Context)
    requires d in g.ns && ctx.seen - {d} <= ctx'.seen
    ensures Settled(g, ctx) - {d} <= Settled(SetAncestors(g, d, result), ctx')
    ensures result.Finished() ==> Settled(g, ctx) <= Settled(SetAncestors(g, d, result), ctx')
  {
  }

  lemma FinishedAfterSet(f: Graph, g: Graph, d: DeclId, result: Ancestors)
    requires FinishedKept(f, g) && d in g.ns && d !in FinishedIds(f)
    ensures FinishedKept(f, SetAncestors(g, d, result))
  {
  }

  /** The context inside a fresh call for `d`. */
  function Entered(ctx: Context, d: DeclId): Context {
    ctx.(descendants := ctx.descendants + {d}, seen := ctx.seen + {d})
  }

  lemma EntryKeeps(src: Source, g: Graph, ctx: Context, d: DeclId)
    requires Usable(src, g) && d in g.ns && d !in Settled(g, ctx)
    ensures var h := AddDescendants(g, d, Entered(ctx, d).descendants);
      && Usable(src, h) && h.ns.Keys == g.ns.Keys && SameLoss(g, h)
      && Settled(g, ctx) + {d} <= Settled(h, Entered(ctx, d))
      && Work(src, h, Entered(ctx, d), Reach(src, d)) < Work(src, g, ctx, Reach(src, d))
  {
    hide OrdinarySuperclasses, Work;
    NamespaceParts(src, g, d);
    AddDescendantsValid(src, g, d, Entered(ctx, d).descendants);
    hide Valid, Lost;
    WorkSpent(src, g, ctx, AddDescendants(g, d, Entered(ctx, d).descendants), Entered(ctx, d), d);
  }

  function ForExtends(src: Source, g: Graph, d: DeclId): Graph
    requires d in g.ns
  {
    if HasExtends(src, d) && !d.SingletonOf? then GetOrCreateSingleton(g, d).0 else g
  }

  /** Asking for singleton classes is all that these steps do. */
  lemma AskingMoves(src: Source, top: nat, g: Graph, ctx: Context, h: Graph)
    requires Usable(src, h) && Asked(g, h, top)
    ensures Moves(src, top, g, ctx, h, ctx)
  {
    hide Usable, Lost, Weight;
    if OnlyCreates(g, h) && SameLoss(g, h) { CreatingIsSteady(g, ctx, h); }
  }

  /** New namespaces without chains disturb nothing. */
  lemma CreatingIsSteady(g: Graph, ctx: Context, h: Graph)
    requires OnlyCreates(g, h) && SameLoss(g, h)
    ensures Steady(g, ctx, h, ctx)
  {
    hide Lost;
    assert FinishedIds(g) <= FinishedIds(h);
  }

  lemma ForExtendsAsks(src: Source, g: Graph, d: DeclId, top: nat)
    requires Usable(src, g) && d in g.ns && top > 0
    ensures Usable(src, ForExtends(src, g, d)) && Asked(g, ForExtends(src, g, d), top)
  {
    hide HasExtends, Asked, OrdinarySuperclasses;
    AskedNothing(g, top);
    if !d.SingletonOf? { AskedFor(src, g, d, top); }
    hide Valid, GetOrCreateSingleton;
  }

  lemma ForExtendsKeeps(src: Source, g: Graph, ctx: Context, d: DeclId)
    requires Ready(src, g) && d in g.ns
    ensures Keeps(src, g, ctx, ForExtends(src, g, d), ctx) && OnlyCreates(g, ForExtends(src, g, d))
  {
    hide Usable, Keeps, Asked, OnlyCreates, Intact, ForExtends;
    ForExtendsAsks(src, g, d, 1);
    AskedIntact(g, ForExtends(src, g, d), 1);
    AskingMoves(src, 1, g, ctx, ForExtends(src, g, d));
    MovesKeep(src, 1, g, ctx, ForExtends(src, g, d), ctx);
  }

  function Assemble(d: DeclId, prepends: seq<Ancestor>, includes: seq<Ancestor>, parents: seq<Ancestor>): seq<Ancestor> {
    prepends + [Known(d)] + includes + parents
  }

  lemma AssembleExists(g: Graph, d: DeclId, prepends: seq<Ancestor>, includes: seq<Ancestor>, parents: seq<Ancestor>)
    requires d in g.ns && Existing(g, prepends) && Existing(g, includes) && Existing(g, parents)
    ensures Existing(g, Assemble(d, prepends, includes, parents))
  {
  }

  lemma ExitMoves(src: Source, top: nat, g: Graph, ctx: Context, h: Graph, ctx': Context, d: DeclId, result: Ancestors)
    requires d in g.ns && d !in Settled(g, ctx)
    requires Lost(AddDescendants(g, d, Entered(ctx, d).descendants)) == Lost(g)
    requires Moves(src, top, AddDescendants(g, d, Entered(ctx, d).descendants), Entered(ctx, d), h, ctx')
    requires Existing(h, result.ids)
    ensures Moves(src, top, g, ctx, SetAncestors(h, d, result), Finalize(ctx', d))
    ensures Existing(SetAncestors(h, d, result), result.ids)
  {
    var g1, k := AddDescendants(g, d, Entered(ctx, d).descendants), SetAncestors(h, d, result);
    ExitParts(src, g, ctx, h, ctx', d, result, top);
    hide *;
    if Steady(g1, Entered(ctx, d), h, ctx') {
      SteadyParts(g1, Entered(ctx, d), h, ctx');
      ExitFinishedKept(g, Entered(ctx, d).descendants, h, d, result);
      ExitSettled(g, ctx, h, ctx', d, result);
      ExitNoneCompleted(g, ctx, h, d, result);
      MovesBy(src, top, g, ctx, k, Finalize(ctx', d));
    } else {
      LighterBetween(g, g1, h, k, top);
      MovesLighter(src, top, g, ctx, k, Finalize(ctx', d));
    }
  }

  lemma ExitParts(src: Source, g: Graph, ctx: Context, h: Graph, ctx': Context, d: DeclId, result: Ancestors, top: nat)
    requires d in g.ns && Existing(h, result.ids)
    requires Moves(src, top, AddDescendants(g, d, Entered(ctx, d).descendants), Entered(ctx, d), h, ctx')
    ensures var g1 := AddDescendants(g, d, Entered(ctx, d).descendants);
      && d in h.ns && g1.reset == g.reset && g.ns.Keys <= h.ns.Keys
      && (Steady(g1, Entered(ctx, d), h, ctx') || Lighter(g1, h, top))
    ensures var k := SetAncestors(h, d, result);
      && Usable(src, k) && g.ns.Keys <= k.ns.Keys && k.reset == h.reset && Lost(k) == Lost(h)
      && ContextKept(ctx, Finalize(ctx', d)) && Existing(k, result.ids)
  {
    var g1 := AddDescendants(g, d, Entered(ctx, d).descendants);
    assert g1.ns.Keys == g.ns.Keys && g1.reset == g.reset;
    EntryParts(ctx, ctx', d);
    hide *;
    MovesParts(src, top, g1, Entered(ctx, d), h, ctx');
    MovesEither(src, top, g1, Entered(ctx, d), h, ctx');
    ResultStored(src, h, d, result);
  }

  lemma MovesEither(src: Source, top: nat, g: Graph, ctx: Context, h: Graph, ctx': Context)
    requires Moves(src, top, g, ctx, h, ctx')
    ensures Steady(g, ctx, h, ctx') || Lighter(g, h, top)
  {
    hide Usable, ContextKept, Steady, Lighter;
  }

  lemma EntryParts(ctx: Context, ctx': Context, d: DeclId)
    ensures ContextKept(Entered(ctx, d), ctx') ==> ContextKept(ctx, Finalize(ctx', d))
  {
  }

  lemma ResultStored(src: Source, h: Graph, d: DeclId, result: Ancestors)
    requires Usable(src, h) && d in h.ns && Existing(h, result.ids)
    ensures var k := SetAncestors(h, d, result);
      Usable(src, k) && k.ns.Keys == h.ns.Keys && k.reset == h.reset && Lost(k) == Lost(h) && Existing(k, result.ids)
  {
    SetAncestorsValid(src, h, d, result);
    var k := SetAncestors(h, d, result);
    assert k.ns.Keys == h.ns.Keys;
    ExistingMore(h, k, result.ids);
    hide Valid, OrdinarySuperclasses, Lost, Existing;
  }

  lemma SteadyParts(g: Graph, ctx: Context, h: Graph, ctx': Context)
    requires Steady(g, ctx, h, ctx')
    ensures Lost(h) == Lost(g) && h.reset == g.reset
    ensures Settled(g, ctx) <= Settled(h, ctx') && FinishedKept(g, h) && NoneCompleted(g, ctx, h)
  {
    hide Lost, Settled, FinishedKept, NoneCompleted;
  }

  lemma MovesLighter(src: Source, top: nat, g: Graph, ctx: Context, h: Graph, ctx': Context)
    requires Usable(src, h) && g.ns.Keys <= h.ns.Keys && ContextKept(ctx, ctx') && Lighter(g, h, top)
    ensures Moves(src, top, g, ctx, h, ctx')
  {
    hide Usable, ContextKept, Lighter, Steady;
  }

  lemma LighterBetween(g: Graph, g1: Graph, h: Graph, k: Graph, top: nat)
    requires Lost(g1) == Lost(g) && Lost(k) == Lost(h) && Lighter(g1, h, top)
    ensures Lighter(g, k, top)
  {
    hide Lost, Weight;
  }

  lemma ExitNoneCompleted(g: Graph, ctx: Context, h: Graph, d: DeclId, result: Ancestors)
    requires d in g.ns && d in h.ns && d !in Settled(g, ctx)
    requires NoneCompleted(AddDescendants(g, d, Entered(ctx, d).descendants), Entered(ctx, d), h)
    ensures NoneCompleted(g, ctx, SetAncestors(h, d, result))
  {
    var g1 := AddDescendants(g, d, Entered(ctx, d).descendants);
    assert FinishedIds(g1) == FinishedIds(g);
    forall x | x in Settled(g, ctx) && HasComplete(h, x) ensures HasComplete(g, x) {
      assert x in Settled(g1, Entered(ctx, d));
      assert HasComplete(g1, x);
    }
    NoneCompletedBySet(g, ctx, h, d, result);
  }

  lemma ExitSettled(g: Graph, ctx: Context, h: Graph, ctx': Context, d: DeclId, result: Ancestors)
    requires d in g.ns && d in h.ns && d !in Settled(g, ctx)
    requires Settled(AddDescendants(g, d, Entered(ctx, d).descendants), Entered(ctx, d)) <= Settled(h, ctx')
    ensures Settled(g, ctx) <= Settled(SetAncestors(h, d, result), Finalize(ctx', d))
  {
    var g1 := AddDescendants(g, d, Entered(ctx, d).descendants);
    assert FinishedIds(g1) == FinishedIds(g);
    hide FinishedIds;
    SettledAfterSet(h, ctx', d, result, Finalize(ctx', d));
  }

  lemma ExitFinishedKept(g: Graph, descendants: set<DeclId>, h: Graph, d: DeclId, result: Ancestors)
    requires d in g.ns && d in h.ns && d !in FinishedIds(g)
    requires FinishedKept(AddDescendants(g, d, descendants), h)
    ensures FinishedKept(g, SetAncestors(h, d, result))
  {
    FinishedAfterAdd(g, d, descendants, h);
    FinishedAfterSet(g, h, d, result);
  }

  lemma FinishedAfterAdd(g: Graph, d: DeclId, descendants: set<DeclId>, h: Graph)
    requires d in g.ns && FinishedKept(AddDescendants(g, d, descendants), h)
    ensures FinishedKept(g, h)
  {
    var g1 := AddDescendants(g, d, descendants);
    forall x | x in g.ns && g.ns[x].ancestors.Finished()
      ensures x in h.ns && h.ns[x].ancestors == g.ns[x].ancestors
    {
      assert x in g1.ns && g1.ns[x].ancestors == g.ns[x].ancestors;
    }
  }

  // ---- the traversal ----

  /** `linearize_ancestors` */
  ghost function Linearize(src: Source, g: Graph, ctx: Context, d: DeclId): (r: Outcome)
    requires Usable(src, g) && d in g.ns
    ensures Moves(src, Top(src, d), g, ctx, r.g, r.ctx) && Existing(r.g, r.ancestors.ids)
    ensures Ready(src, g) ==> Keeps(src, g, ctx, r.g, r.ctx)
    decreases Weight(Lost(g), Top(src, d)), Work(src, g, ctx, Reach(src, d)), 0
  {
    hide *;
    var ctx1 := ctx.(descendants := ctx.descendants + {d});
    if g.ns[d].ancestors.Finished() then
      CacheHitMoves(src, Top(src, d), g, ctx, d);
      var cached := g.ns[d].ancestors;
      ReadyKeeps(src, Top(src, d), g, ctx, Propagate(g, ctx1.descendants, cached.ids), Finalize(ctx1, d));
      Outcome(Propagate(g, ctx1.descendants, cached.ids), Finalize(ctx1, d), cached)
    else if d in ctx1.seen then
      EstimateMoves(src, Top(src, d), g, ctx, d);
      ReadyKeeps(src, Top(src, d), g, ctx, SetAncestors(g, d, Estimate(src, d)), Finalize(ctx1, d));
      Outcome(SetAncestors(g, d, Estimate(src, d)), Finalize(ctx1, d), Estimate(src, d))
    else
      Entering(src, g, ctx, d);
      var g1 := AddDescendants(g, d, Entered(ctx, d).descendants);
      var p := LinearizeParent(src, g1, Entered(ctx, d), d);
      InTheMiddle(src, g, ctx, d, p.g, p.ctx);
      var g2 := ForExtends(src, p.g, d);
      var m := LinearizeMixins(src, g2, p.ctx, MixinsNow(src, p.g, d), p.ids, [], []);
      Leaving(src, g, ctx, d, p, g2, m);
      var ids := Assemble(d, m.prepends, m.includes, p.ids);
      ReadyKeeps(src, Top(src, d), g, ctx, SetAncestors(m.g, d, Tagged(m.ctx, ids)), Finalize(m.ctx, d));
      Outcome(SetAncestors(m.g, d, Tagged(m.ctx, ids)), Finalize(m.ctx, d), Tagged(m.ctx, ids))
  }

  lemma ReadyKeeps(src: Source, top: nat, g: Graph, ctx: Context, h: Graph, ctx': Context)
    requires Moves(src, top, g, ctx, h, ctx')
    ensures Ready(src, g) ==> Keeps(src, g, ctx, h, ctx')
  {
    MovesKeep(src, top, g, ctx, h, ctx');
    hide Moves, Keeps, Usable, Intact;
  }

  lemma Entering(src: Source, g: Graph, ctx: Context, d: DeclId)
    requires Usable(src, g) && d in g.ns && !g.ns[d].ancestors.Finished() && d !in ctx.seen
    ensures var g1 := AddDescendants(g, d, Entered(ctx, d).descendants);
      && Usable(src, g1) && d in g1.ns && SameLoss(g, g1)
      && Weight(Lost(g1), Top(src, d)) == Weight(Lost(g), Top(src, d))
      && Work(src, g1, Entered(ctx, d), Reach(src, d)) < Work(src, g, ctx, Reach(src, d))
  {
    assert d !in Settled(g, ctx);
    EntryKeeps(src, g, ctx, d);
    hide Usable, Work, Reach, Lost, Weight, Top, Settled;
  }

  /** Between the parent and the mixins. */
  lemma InTheMiddle(src: Source, g: Graph, ctx: Context, d: DeclId, h: Graph, ctx': Context)
    requires Usable(src, g) && d in g.ns && !g.ns[d].ancestors.Finished() && d !in ctx.seen
    requires Moves(src, Top(src, d), AddDescendants(g, d, Entered(ctx, d).descendants), Entered(ctx, d), h, ctx')
    ensures d in h.ns
    ensures var g2 := ForExtends(src, h, d);
      && Usable(src, g2) && Existing(g2, []) && h.ns.Keys <= g2.ns.Keys
      && Moves(src, Top(src, d), AddDescendants(g, d, Entered(ctx, d).descendants), Entered(ctx, d), g2, ctx')
      && Weight(Lost(g2), ReferenceTop(src)) <= Weight(Lost(g), Top(src, d))
      && (Weight(Lost(g2), ReferenceTop(src)) < Weight(Lost(g), Top(src, d)) ||
          Work(src, g2, ctx', ReferenceLevel(src)) < Work(src, g, ctx, Reach(src, d)))
  {
    Entering(src, g, ctx, d);
    var g1 := AddDescendants(g, d, Entered(ctx, d).descendants);
    MovesParts(src, Top(src, d), g1, Entered(ctx, d), h, ctx');
    ForExtendsAsks(src, h, d, Top(src, d));
    var g2 := ForExtends(src, h, d);
    ExistingNothing(g2);
    AskingMoves(src, Top(src, d), h, ctx', g2);
    MovesParts(src, Top(src, d), h, ctx', g2, ctx');
    MovesMore(src, Top(src, d), g1, Entered(ctx, d), h, ctx', g2, ctx');
    MovesParts(src, Top(src, d), g1, Entered(ctx, d), g2, ctx');
    Tops(src, d);
    MeasureShrinks(src, g1, Entered(ctx, d), g2, ctx', Reach(src, d), Top(src, d), ReferenceLevel(src), ReferenceTop(src));
    hide *;
  }

  lemma Tops(src: Source, d: DeclId)
    ensures ReferenceLevel(src) <= Reach(src, d) && ReferenceTop(src) <= Top(src, d) && Level(d) <= Top(src, d)
    ensures Reach(src, d) <= Top(src, d)
  {
    hide ReferenceLevel;
  }

  lemma MovesParts(src: Source, top: nat, g: Graph, ctx: Context, h: Graph, ctx': Context)
    requires Moves(src, top, g, ctx, h, ctx')
    ensures Usable(src, h) && g.ns.Keys <= h.ns.Keys && ContextKept(ctx, ctx')
    ensures (SameLoss(g, h) && Settled(g, ctx) <= Settled(h, ctx')) || Lighter(g, h, top)
  {
    hide Usable, SameLoss, Settled, Lighter, FinishedKept, NoneCompleted, ContextKept;
  }

  lemma Leaving(src: Source, g: Graph, ctx: Context, d: DeclId, p: ParentOutcome, g2: Graph, m: MixinOutcome)
    requires Usable(src, g) && d in g.ns && !g.ns[d].ancestors.Finished() && d !in ctx.seen
    requires Moves(src, Top(src, d), AddDescendants(g, d, Entered(ctx, d).descendants), Entered(ctx, d), g2, p.ctx)
    requires Existing(p.g, p.ids) && p.g.ns.Keys <= g2.ns.Keys
    requires Moves(src, ReferenceTop(src), g2, p.ctx, m.g, m.ctx) && Existing(m.g, m.prepends) && Existing(m.g, m.includes)
    ensures d in m.g.ns
    ensures var result := Tagged(m.ctx, Assemble(d, m.prepends, m.includes, p.ids));
      && Moves(src, Top(src, d), g, ctx, SetAncestors(m.g, d, result), Finalize(m.ctx, d))
      && Existing(SetAncestors(m.g, d, result), result.ids)
  {
    var g1 := AddDescendants(g, d, Entered(ctx, d).descendants);
    var ids := Assemble(d, m.prepends, m.includes, p.ids);
    assert d !in Settled(g, ctx) && d in g1.ns && Tagged(m.ctx, ids).ids == ids;
    Entering(src, g, ctx, d);
    LossIs(g, g1);
    Tops(src, d);
    hide *;
    MovesHigher(src, ReferenceTop(src), Top(src, d), g2, p.ctx, m.g, m.ctx);
    MovesMore(src, Top(src, d), g1, Entered(ctx, d), g2, p.ctx, m.g, m.ctx);
    MovesParts(src, Top(src, d), g1, Entered(ctx, d), m.g, m.ctx);
    MovesParts(src, Top(src, d), g2, p.ctx, m.g, m.ctx);
    ExistingMore(p.g, m.g, p.ids);
    AssembleExists(m.g, d, m.prepends, m.includes, p.ids);
    ExitMoves(src, Top(src, d), g, ctx, m.g, m.ctx, d, Tagged(m.ctx, ids));
  }

  lemma LossIs(g: Graph, h: Graph)
    requires SameLoss(g, h)
    ensures Lost(h) == Lost(g)
  {
    hide Lost;
  }

  lemma ExistingNothing(g: Graph)
    ensures Existing(g, [])
  {
  }

  lemma BodyWork(src: Source, g: Graph, ctx: Context, h: Graph, ctx': Context, d: DeclId)
    requires Declared(src, d) && d !in Settled(g, ctx)
    requires Settled(g, ctx) + {d} <= Settled(h, ctx')
    ensures Work(src, h, ctx', ReferenceLevel(src)) < Work(src, g, ctx, Reach(src, d))
  {
    hide Settled, Work;
    WorkSpent(src, g, ctx, h, ctx', d);
    WorkShrinks(src, h, ctx', h, ctx', Reach(src, d), ReferenceLevel(src));
  }

  /** `linearize_parent_ancestors`; a declaration without parents gets the empty chain. */
  ghost function LinearizeParent(src: Source, g: Graph, ctx: Context, d: DeclId): (r: ParentOutcome)
    requires Usable(src, g) && d in g.ns
    ensures Moves(src, Top(src, d), g, ctx, r.g, r.ctx) && Existing(r.g, r.ids)
    ensures Ready(src, g) ==> Keeps(src, g, ctx, r.g, r.ctx)
    decreases Weight(Lost(g), Top(src, d)), Work(src, g, ctx, Reach(src, d)), 2
  {
    hide *;
    NothingMoves(src, Top(src, d), g, ctx);
    ReadyKeeps(src, Top(src, d), g, ctx, g, ctx);
    if d == BASIC_OBJECT then ParentOutcome(g, ctx, [])
    else if d.SingletonOf? then
      SingletonParentReady(src, g, ctx, d);
      var (g1, parent, partial) := SingletonParent(src, g, d.attached);
      var ctx1 := if partial then ctx.(partial := true) else ctx;
      var r := Linearize(src, g1, ctx1, parent);
      ParentMoves(src, d, g, ctx, g1, ctx1, parent, r);
      ParentOutcome(r.g, Absorb(r.ctx, r.ancestors), r.ancestors.ids)
    else if KindOf(src, d) == Class then
      ClassParentReady(src, g, ctx, d);
      var r := LinearizeParentClass(src, g, ctx, DefinitionsOf(src, d));
      AbsorbMoves(src, ReferenceTop(src), g, ctx, r);
      MovesHigher(src, ReferenceTop(src), Top(src, d), g, ctx, r.g, Absorb(r.ctx, r.ancestors));
      ReadyKeeps(src, Top(src, d), g, ctx, r.g, Absorb(r.ctx, r.ancestors));
      ParentOutcome(r.g, Absorb(r.ctx, r.ancestors), r.ancestors.ids)
    else ParentOutcome(g, ctx, [])
  }

  lemma NothingMoves(src: Source, top: nat, g: Graph, ctx: Context)
    requires Usable(src, g)
    ensures Moves(src, top, g, ctx, g, ctx) && Existing(g, [])
  {
    hide Usable, Lost, Settled;
  }

  lemma FlagMoves(src: Source, top: nat, g: Graph, ctx: Context, h: Graph, ctx': Context, ctx'': Context)
    requires Moves(src, top, g, ctx, h, ctx')
    requires ctx'' == ctx' || ctx'' == ctx'.(partial := true) || ctx'' == ctx'.(cyclic := true)
    ensures Moves(src, top, g, ctx, h, ctx'')
  {
    SameSettled(h, ctx', ctx'');
    hide Usable, SameLoss, Settled, Lighter, FinishedKept, NoneCompleted;
  }

  lemma SameSettled(g: Graph, ctx: Context, ctx': Context)
    requires ctx.seen == ctx'.seen
    ensures Settled(g, ctx) == Settled(g, ctx')
  {
  }

  lemma AbsorbMoves(src: Source, top: nat, g: Graph, ctx: Context, r: Outcome)
    requires Moves(src, top, g, ctx, r.g, r.ctx)
    ensures Moves(src, top, g, ctx, r.g, Absorb(r.ctx, r.ancestors))
  {
    hide Moves;
    FlagMoves(src, top, g, ctx, r.g, r.ctx, Absorb(r.ctx, r.ancestors));
  }

  lemma ClassParentReady(src: Source, g: Graph, ctx: Context, d: DeclId)
    requires Usable(src, g) && d in g.ns
    ensures ParentClass(src, DefinitionsOf(src, d)).0 in g.ns && ParentClass(src, DefinitionsOf(src, d)).0.Named?
    ensures Weight(Lost(g), ReferenceTop(src)) <= Weight(Lost(g), Top(src, d)) && ReferenceTop(src) <= Top(src, d)
    ensures Work(src, g, ctx, ReferenceLevel(src)) <= Work(src, g, ctx, Reach(src, d))
  {
    hide Valid, OrdinarySuperclasses, ParentClass, Work, Weight, Lost, Settled;
    ParentClassExists(src, g, d);
    Tops(src, d);
    WeightGrows(Lost(g), ReferenceTop(src), Top(src, d));
    WorkShrinks(src, g, ctx, g, ctx, Reach(src, d), ReferenceLevel(src));
  }

  lemma SingletonParentReady(src: Source, g: Graph, ctx: Context, d: DeclId)
    requires Usable(src, g) && d in g.ns && d.SingletonOf?
    ensures d.attached in g.ns && Valid(src, g) && OrdinarySuperclasses(src) && WellFormedSource(src) && Declared(src, d.attached)
    ensures var (g1, parent, partial) := SingletonParent(src, g, d.attached);
      var ctx1 := if partial then ctx.(partial := true) else ctx;
      && Usable(src, g1) && parent in g1.ns && Asked(g, g1, Top(src, d)) && Reach(src, parent) <= Reach(src, d)
      && Moves(src, Top(src, d), g, ctx, g1, ctx1)
      && Weight(Lost(g1), Top(src, parent)) <= Weight(Lost(g), Top(src, d))
      && (Weight(Lost(g1), Top(src, parent)) < Weight(Lost(g), Top(src, d)) ||
          Work(src, g1, ctx1, Reach(src, parent)) <= Work(src, g, ctx, Reach(src, d)))
  {
    hide Valid, OrdinarySuperclasses, SingletonParent, Asked, Work, Weight, Lost, Moves, Lighter, SameLoss, Settled, Declared,
      WellFormedSource;
    NamespaceParts(src, g, d);
    NamespaceParts(src, g, d.attached);
    var (g1, parent, partial) := SingletonParent(src, g, d.attached);
    var ctx1 := if partial then ctx.(partial := true) else ctx;
    Tops(src, d);
    ReachBelow(src, d, parent);
    AskedHigher(g, g1, Level(d.attached) + 1, Top(src, d));
    AskingMoves(src, Top(src, d), g, ctx, g1);
    FlagMoves(src, Top(src, d), g, ctx, g1, ctx, ctx1);
    MovesParts(src, Top(src, d), g, ctx, g1, ctx1);
    MeasureShrinks(src, g, ctx, g1, ctx1, Reach(src, d), Top(src, d), Reach(src, parent), Top(src, parent));
  }

  lemma ReachBelow(src: Source, d: DeclId, parent: DeclId)
    requires Level(parent) <= Level(d)
    ensures Reach(src, parent) <= Reach(src, d) && Top(src, parent) <= Top(src, d)
  {
    hide ReferenceLevel;
  }

  lemma AskedHigher(g: Graph, h: Graph, low: nat, top: nat)
    requires Asked(g, h, low) && low <= top
    ensures Asked(g, h, top)
  {
    hide OnlyCreates, SameLoss, Weight;
  }

  lemma ParentMoves(src: Source, d: DeclId, g: Graph, ctx: Context, g1: Graph, ctx1: Context, parent: DeclId, r: Outcome)
    requires Moves(src, Top(src, d), g, ctx, g1, ctx1) && Moves(src, Top(src, parent), g1, ctx1, r.g, r.ctx)
    requires Reach(src, parent) <= Reach(src, d)
    ensures Moves(src, Top(src, d), g, ctx, r.g, Absorb(r.ctx, r.ancestors))
    ensures Ready(src, g) ==> Keeps(src, g, ctx, r.g, Absorb(r.ctx, r.ancestors))
  {
    assert Top(src, parent) <= Top(src, d);
    hide *;
    MovesHigher(src, Top(src, parent), Top(src, d), g1, ctx1, r.g, r.ctx);
    MovesMore(src, Top(src, d), g, ctx, g1, ctx1, r.g, r.ctx);
    AbsorbMoves(src, Top(src, d), g, ctx, r);
    ReadyKeeps(src, Top(src, d), g, ctx, r.g, Absorb(r.ctx, r.ancestors));
  }

  /** `linearize_parent_class` */
  ghost function LinearizeParentClass(src: Source, g: Graph, ctx: Context, defs: seq<Definition>): (r: Outcome)
    requires Usable(src, g)
    requires ParentClass(src, defs).0 in g.ns && ParentClass(src, defs).0.Named?
    ensures Moves(src, ReferenceTop(src), g, ctx, r.g, r.ctx) && Existing(r.g, r.ancestors.ids)
    ensures Ready(src, g) ==> Keeps(src, g, ctx, r.g, r.ctx)
    decreases Weight(Lost(g), ReferenceTop(src)), Work(src, g, ctx, ReferenceLevel(src)), 1
  {
    hide *;
    var (parent, unresolved) := ParentClass(src, defs);
    NamedReach(src, parent);
    var r := Linearize(src, g, ctx, parent);
    match unresolved
    case None => r
    case Some(name) =>
      MissingFirst(src, g, ctx, r, name);
      Outcome(r.g, r.ctx.(partial := true), Partial([Missing(name)] + r.ancestors.ids))
  }

  lemma NamedReach(src: Source, d: DeclId)
    requires d.Named?
    ensures Reach(src, d) == ReferenceLevel(src) && Top(src, d) == ReferenceTop(src)
  {
  }

  lemma MissingFirst(src: Source, g: Graph, ctx: Context, r: Outcome, name: NameId)
    requires Moves(src, ReferenceTop(src), g, ctx, r.g, r.ctx) && Existing(r.g, r.ancestors.ids)
    ensures Moves(src, ReferenceTop(src), g, ctx, r.g, r.ctx.(partial := true))
    ensures Existing(r.g, [Missing(name)] + r.ancestors.ids)
    ensures Ready(src, g) ==> Keeps(src, g, ctx, r.g, r.ctx.(partial := true))
  {
    hide Moves, Ready, Keeps, ReferenceTop;
    FlagMoves(src, ReferenceTop(src), g, ctx, r.g, r.ctx, r.ctx.(partial := true));
    ReadyKeeps(src, ReferenceTop(src), g, ctx, r.g, r.ctx.(partial := true));
  }

  /** `linearize_mixins`, from the point where `prepends` and `includes` have been collected. */
  ghost function LinearizeMixins(src: Source, g: Graph, ctx: Context, mixins: seq<Mixin>, parents: seq<Ancestor>,
                                 prepends: seq<Ancestor>, includes: seq<Ancestor>): (r: MixinOutcome)
    requires Usable(src, g)
    requires Existing(g, prepends) && Existing(g, includes)
    ensures Moves(src, ReferenceTop(src), g, ctx, r.g, r.ctx)
    ensures Existing(r.g, r.prepends) && Existing(r.g, r.includes)
    ensures Ready(src, g) ==> Keeps(src, g, ctx, r.g, r.ctx)
    decreases Weight(Lost(g), ReferenceTop(src)), Work(src, g, ctx, ReferenceLevel(src)), 1, |mixins|
  {
    hide *;
    NothingMoves(src, ReferenceTop(src), g, ctx);
    ReadyKeeps(src, ReferenceTop(src), g, ctx, g, ctx);
    if mixins == [] then MixinOutcome(g, ctx, prepends, includes)
    else
      match Target(src, mixins[0].name)
      case None =>
        var missing := [Missing(mixins[0].name)];
        MissingMixin(src, g, ctx, mixins[0].name, prepends, includes);
        var r := if mixins[0].Prepend?
          then LinearizeMixins(src, g, ctx.(partial := true), mixins[1..], parents, missing + prepends, includes)
          else LinearizeMixins(src, g, ctx.(partial := true), mixins[1..], parents, prepends, missing + includes);
        MovesMore(src, ReferenceTop(src), g, ctx, g, ctx.(partial := true), r.g, r.ctx);
        ReadyKeeps(src, ReferenceTop(src), g, ctx, r.g, r.ctx);
        r
      case Some(target) =>
        match ResolveToNamespace(src, target)
        case None => LinearizeMixins(src, g, ctx, mixins[1..], parents, prepends, includes)
        case Some(mod) =>
          MixinReady(src, g, ctx, mixins[0].name);
          var r := Linearize(src, g, ctx, mod);
          var ctx1 := Absorb(r.ctx, r.ancestors);
          MixinDone(src, g, ctx, mod, r);
          MixinsExist(g, r.g, prepends, includes, parents, r.ancestors.ids);
          var q := if mixins[0].Prepend?
            then LinearizeMixins(src, r.g, ctx1, mixins[1..], parents, AddPrepend(prepends, r.ancestors.ids), includes)
            else LinearizeMixins(src, r.g, ctx1, mixins[1..], parents, prepends,
                                 AddInclude(prepends, includes, parents, r.ancestors.ids));
          MovesMore(src, ReferenceTop(src), g, ctx, r.g, ctx1, q.g, q.ctx);
          ReadyKeeps(src, ReferenceTop(src), g, ctx, q.g, q.ctx);
          q
  }

  lemma MissingMixin(src: Source, g: Graph, ctx: Context, name: NameId, prepends: seq<Ancestor>, includes: seq<Ancestor>)
    requires Usable(src, g) && Existing(g, prepends) && Existing(g, includes)
    ensures Existing(g, [Missing(name)] + prepends) && Existing(g, [Missing(name)] + includes)
    ensures Moves(src, ReferenceTop(src), g, ctx, g, ctx.(partial := true))
    ensures Work(src, g, ctx.(partial := true), ReferenceLevel(src)) <= Work(src, g, ctx, ReferenceLevel(src))
  {
    NothingMoves(src, ReferenceTop(src), g, ctx);
    FlagMoves(src, ReferenceTop(src), g, ctx, g, ctx, ctx.(partial := true));
    SameSettled(g, ctx, ctx.(partial := true));
    hide Usable, Moves, Settled, Universe;
  }

  lemma MixinReady(src: Source, g: Graph, ctx: Context, name: NameId)
    requires Usable(src, g) && Target(src, name).Some?
    ensures var m := ResolveToNamespace(src, Target(src, name).value);
      m.Some? ==>
        && m.value in g.ns && Reach(src, m.value) <= ReferenceLevel(src)
        && Top(src, m.value) <= ReferenceTop(src)
        && Weight(Lost(g), Top(src, m.value)) <= Weight(Lost(g), ReferenceTop(src))
        && Work(src, g, ctx, Reach(src, m.value)) <= Work(src, g, ctx, ReferenceLevel(src))
  {
    hide Valid, OrdinarySuperclasses, ResolveToNamespace, Weight, Work, Settled;
    ResolvedNamespaceExists(src, g, name);
    var m := ResolveToNamespace(src, Target(src, name).value);
    if m.Some? {
      WeightGrows(Lost(g), Top(src, m.value), ReferenceTop(src));
      WorkShrinks(src, g, ctx, g, ctx, ReferenceLevel(src), Reach(src, m.value));
    }
  }

  lemma MixinDone(src: Source, g: Graph, ctx: Context, mod: DeclId, r: Outcome)
    requires Top(src, mod) <= ReferenceTop(src) && Moves(src, Top(src, mod), g, ctx, r.g, r.ctx)
    ensures Usable(src, r.g) && g.ns.Keys <= r.g.ns.Keys
    ensures Moves(src, ReferenceTop(src), g, ctx, r.g, Absorb(r.ctx, r.ancestors))
    ensures Weight(Lost(r.g), ReferenceTop(src)) <= Weight(Lost(g), ReferenceTop(src))
    ensures Weight(Lost(r.g), ReferenceTop(src)) < Weight(Lost(g), ReferenceTop(src)) ||
      Work(src, r.g, Absorb(r.ctx, r.ancestors), ReferenceLevel(src)) <= Work(src, g, ctx, ReferenceLevel(src))
  {
    hide *;
    MovesHigher(src, Top(src, mod), ReferenceTop(src), g, ctx, r.g, r.ctx);
    AbsorbMoves(src, ReferenceTop(src), g, ctx, r);
    MovesParts(src, ReferenceTop(src), g, ctx, r.g, Absorb(r.ctx, r.ancestors));
    MeasureShrinks(src, g, ctx, r.g, Absorb(r.ctx, r.ancestors), ReferenceLevel(src), ReferenceTop(src),
                   ReferenceLevel(src), ReferenceTop(src));
  }

  lemma MixinsExist(f: Graph, g: Graph, prepends: seq<Ancestor>, includes: seq<Ancestor>, parents: seq<Ancestor>,
                    ids: seq<Ancestor>)
    requires Existing(f, prepends) && Existing(f, includes) && Existing(g, ids) && f.ns.Keys <= g.ns.Keys
    ensures Existing(g, prepends) && Existing(g, includes)
    ensures Existing(g, AddPrepend(prepends, ids))
    ensures Existing(g, AddInclude(prepends, includes, parents, ids))
  {
    WithoutContents(prepends, ids);
    WithoutContents(ids, prepends + includes + parents);
    forall s: seq<Ancestor> | s in {AddPrepend(prepends, ids), AddInclude(prepends, includes, parents, ids)}
      ensures Existing(g, s)
    {
      forall i | 0 <= i < |s| ensures s[i].Known? ==> s[i].id in g.ns {
        assert s[i] in s;
        assert s[i] in prepends || s[i] in includes || s[i] in ids;
      }
    }
  }

  /** `ancestors_of` */
  ghost function AncestorsOf(src: Source, g: Graph, d: DeclId): (r: Outcome)
    requires Usable(src, g) && d in g.ns
    ensures Moves(src, Top(src, d), g, FRESH, r.g, r.ctx)
    ensures Ready(src, g) ==> Keeps(src, g, FRESH, r.g, r.ctx)
  {
    Linearize(src, g, FRESH, d)
  }
}
