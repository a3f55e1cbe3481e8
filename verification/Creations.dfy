/** Singleton classes made on the fly: each is queued for linearization, and none lies deeper than the traversal
    started. Those that are not overwritten ones are new. */
module Creations {
  import opened Declarations
  import opened Aliases
  import opened Graphs
  import opened Links
  import opened Hierarchy
  import opened Linearization
  import opened PlainChains
  import opened Steps

  ghost predicate AllNew(g: Graph, ids: seq<DeclId>) {
    && (forall d | d in ids :: d !in g.ns)
    && (forall i, j | 0 <= i < j < |ids| :: ids[i] != ids[j])
  }

  /** `h` has the namespaces of `g` and those in `ids`, which are queued in that order and at most at singleton nesting
      `level`. Unless some singleton class has been overwritten, they are new and distinct. */
  ghost predicate Creates(g: Graph, h: Graph, ids: seq<DeclId>, level: nat) {
    && h.queue == g.queue + ids && g.reset <= h.reset
    && (forall d :: d in h.ns <==> d in g.ns || d in ids)
    && (forall d | d in ids :: Level(d) <= level)
    && (h.reset == g.reset ==> AllNew(g, ids))
  }

  lemma CreatesNothing(g: Graph, h: Graph, level: nat)
    requires h.queue == g.queue && h.ns.Keys == g.ns.Keys && h.reset == g.reset
    ensures Creates(g, h, [], level)
  {
  }

  lemma CreatesThen(g: Graph, h: Graph, k: Graph, a: seq<DeclId>, b: seq<DeclId>, level: nat)
    requires Creates(g, h, a, level) && Creates(h, k, b, level)
    ensures Creates(g, k, a + b, level)
  {
    if k.reset == g.reset {
      assert h.reset == g.reset && k.reset == h.reset;
      BothNew(g, h, a, b);
    }
    hide AllNew;
  }

  lemma BothNew(g: Graph, h: Graph, a: seq<DeclId>, b: seq<DeclId>)
    requires AllNew(g, a) && AllNew(h, b) && forall d :: d in h.ns <==> d in g.ns || d in a
    ensures AllNew(g, a + b)
  {
    forall i, j | 0 <= i < j < |a + b| ensures (a + b)[i] != (a + b)[j] {
      if i < |a| <= j { assert a[i] in a && b[j - |a|] in b; }
    }
  }

  lemma CreatesDeeper(g: Graph, h: Graph, ids: seq<DeclId>, level: nat, more: nat)
    requires Creates(g, h, ids, level) && level <= more
    ensures Creates(g, h, ids, more)
  {
    hide AllNew;
  }

  lemma SingletonCreates(src: Source, g: Graph, d: DeclId, level: nat) returns (ids: seq<DeclId>)
    requires Valid(src, g) && d in g.ns && Level(d) < level
    ensures Creates(g, GetOrCreateSingleton(g, d).0, ids, level)
  {
    hide Valid, Creates;
    var h := GetOrCreateSingleton(g, d).0;
    if g.ns[d].singleton.Some? {
      ids := [];
      CreatesNothing(g, h, level);
    } else {
      ids := [SingletonOf(d, None)];
      MadeOne(g, d, level);
    }
  }

  lemma MadeOne(g: Graph, d: DeclId, level: nat)
    requires d in g.ns && Level(d) < level && g.ns[d].singleton.None?
    ensures Creates(g, GetOrCreateSingleton(g, d).0, [SingletonOf(d, None)], level)
  {
  }

  lemma {:induction false} SingletonParentCreates(src: Source, g: Graph, attached: DeclId) returns (ids: seq<DeclId>)
    requires Valid(src, g) && OrdinarySuperclasses(src) && attached in g.ns
    ensures Creates(g, SingletonParent(src, g, attached).0, ids, Level(attached) + 1)
    decreases attached
  {
    hide Valid, OrdinarySuperclasses, ParentClass, Creates, GetOrCreateSingleton, Asked;
    NamespaceParts(src, g, attached);
    ids := [];
    if attached == BASIC_OBJECT {
      CreatesNothing(g, g, Level(attached) + 1);
    } else if attached.SingletonOf? {
      var more := SingletonParentCreates(src, g, attached.attached);
      var (g1, inner, partial) := SingletonParent(src, g, attached.attached);
      CreatesDeeper(g, g1, more, Level(attached.attached) + 1, Level(attached) + 1);
      var last := SingletonCreates(src, g1, inner, Level(attached) + 1);
      CreatesThen(g, g1, GetOrCreateSingleton(g1, inner).0, more, last, Level(attached) + 1);
      ids := more + last;
    } else if KindOf(src, attached) == Class {
      ParentClassExists(src, g, attached);
      ids := SingletonCreates(src, g, ParentClass(src, DefinitionsOf(src, attached)).0, Level(attached) + 1);
    } else {
      CreatesNothing(g, g, Level(attached) + 1);
    }
  }

  lemma ExtendsCreates(src: Source, g: Graph, d: DeclId, level: nat) returns (ids: seq<DeclId>)
    requires Usable(src, g) && d in g.ns && level > 0
    ensures Creates(g, ForExtends(src, g, d), ids, level)
  {
    hide Creates, GetOrCreateSingleton, HasExtends, Valid, OrdinarySuperclasses;
    if HasExtends(src, d) && !d.SingletonOf? {
      ids := SingletonCreates(src, g, d, level);
    } else {
      ids := [];
      CreatesNothing(g, g, level);
    }
  }

  lemma CreatesAll(g: Graph, g1: Graph, g2: Graph, g3: Graph, g4: Graph, h: Graph, a: seq<DeclId>, b: seq<DeclId>,
                   c: seq<DeclId>, level: nat) returns (ids: seq<DeclId>)
    requires Creates(g, g1, [], level) && Creates(g1, g2, a, level) && Creates(g2, g3, b, level)
    requires Creates(g3, g4, c, level) && Creates(g4, h, [], level)
    ensures Creates(g, h, ids, level)
  {
    hide Creates;
    CreatesThen(g, g1, g2, [], a, level);
    CreatesThen(g, g2, g3, [] + a, b, level);
    CreatesThen(g, g3, g4, [] + a + b, c, level);
    CreatesThen(g, g4, h, [] + a + b + c, [], level);
    ids := [] + a + b + c + [];
  }

  lemma ChangesCreateNothing(g: Graph, d: DeclId, descendants: set<DeclId>, ancestors: Ancestors, level: nat)
    requires d in g.ns
    ensures Creates(g, AddDescendants(g, d, descendants), [], level) && Creates(g, SetAncestors(g, d, ancestors), [], level)
  {
    CreatesNothing(g, AddDescendants(g, d, descendants), level);
    CreatesNothing(g, SetAncestors(g, d, ancestors), level);
    hide Creates;
  }

  lemma PropagatingCreatesNothing(g: Graph, descendants: set<DeclId>, chain: seq<Ancestor>, level: nat)
    ensures Creates(g, Propagate(g, descendants, chain), [], level)
  {
    assert Propagate(g, descendants, chain).ns.Keys == g.ns.Keys;
    CreatesNothing(g, Propagate(g, descendants, chain), level);
  }

  /** Whatever happens in a traversal, it creates nothing deeper than `level`. */
  lemma {:induction false} LinearizeCreates(src: Source, g: Graph, ctx: Context, d: DeclId, level: nat)
      returns (ids: seq<DeclId>)
    requires Usable(src, g) && d in g.ns && level > 0 && Reach(src, d) <= level
    ensures Creates(g, Linearize(src, g, ctx, d).g, ids, level)
    decreases Weight(Lost(g), Top(src, d)), Work(src, g, ctx, Reach(src, d)), 0
  {
    hide *;
    SettledCases(src, g, ctx, d);
    if g.ns[d].ancestors.Finished() {
      ids := [];
      PropagatingCreatesNothing(g, ctx.descendants + {d}, g.ns[d].ancestors.ids, level);
    } else if d in ctx.seen {
      ids := [];
      ChangesCreateNothing(g, d, {}, Estimate(src, d), level);
    } else {
      var g1, p, g2, m := CallParts(src, g, ctx, d);
      ChangesCreateNothing(g, d, Entered(ctx, d).descendants, Partial([]), level);
      ParentUsable(src, g1, Entered(ctx, d), d);
      var a := ParentCreates(src, g1, Entered(ctx, d), d, level);
      var b := ExtendsCreates(src, p.g, d, level);
      Tops(src, d);
      var c := MixinsCreate(src, g2, p.ctx, MixinsNow(src, p.g, d), p.ids, [], [], level);
      var result := Tagged(m.ctx, Assemble(d, m.prepends, m.includes, p.ids));
      ChangesCreateNothing(m.g, d, {}, result, level);
      ids := CreatesAll(g, g1, p.g, g2, m.g, SetAncestors(m.g, d, result), a, b, c, level);
    }
  }

  lemma ParentUsable(src: Source, g: Graph, ctx: Context, d: DeclId)
    requires Usable(src, g) && d in g.ns
    ensures Usable(src, LinearizeParent(src, g, ctx, d).g)
  {
    hide LinearizeParent;
    var p := LinearizeParent(src, g, ctx, d);
    MovesParts(src, Top(src, d), g, ctx, p.g, p.ctx);
  }

  lemma {:induction false} ParentCreates(src: Source, g: Graph, ctx: Context, d: DeclId, level: nat)
      returns (ids: seq<DeclId>)
    requires Usable(src, g) && d in g.ns && level > 0 && Reach(src, d) <= level
    ensures Creates(g, LinearizeParent(src, g, ctx, d).g, ids, level)
    decreases Weight(Lost(g), Top(src, d)), Work(src, g, ctx, Reach(src, d)), 2
  {
    hide *;
    ParentCases(src, g, ctx, d);
    if d != BASIC_OBJECT && d.SingletonOf? {
      SingletonStarts(src, g, ctx, d);
      UsableParts(src, g);
      var (g1, parent, partial) := SingletonParent(src, g, d.attached);
      var ctx1 := ctx.(partial := ctx.partial || partial);
      ChoiceReach(src, g, d);
      var a := SingletonParentCreates(src, g, d.attached);
      CreatesDeeper(g, g1, a, Level(d.attached) + 1, level);
      var b := LinearizeCreates(src, g1, ctx1, parent, level);
      CreatesThen(g, g1, Linearize(src, g1, ctx1, parent).g, a, b, level);
      StartIs(src, g, ctx, d);
      ids := a + b;
    } else if d != BASIC_OBJECT && KindOf(src, d) == Class {
      var parent := ParentClass(src, DefinitionsOf(src, d)).0;
      NamedReach(src, parent);
      Tops(src, d);
      ids := LinearizeCreates(src, g, ctx, parent, level);
      SuperclassIs(src, g, ctx, DefinitionsOf(src, d));
    } else {
      ids := [];
      CreatesNothing(g, g, level);
    }
  }

  lemma UsableParts(src: Source, g: Graph)
    requires Usable(src, g)
    ensures Valid(src, g) && OrdinarySuperclasses(src)
  {
  }

  lemma ChoiceReach(src: Source, g: Graph, d: DeclId)
    requires Usable(src, g) && d in g.ns && d.SingletonOf? && d.attached in g.ns
    ensures Valid(src, g) && OrdinarySuperclasses(src)
    ensures Reach(src, SingletonParent(src, g, d.attached).1) <= Reach(src, d) && Level(d.attached) + 1 <= Reach(src, d)
  {
    hide Valid, OrdinarySuperclasses, SingletonParent, Asked, ReferenceLevel;
  }

  lemma StartIs(src: Source, g: Graph, ctx: Context, d: DeclId)
    requires Usable(src, g) && d in g.ns && d.SingletonOf? && d.attached in g.ns && Valid(src, g) && OrdinarySuperclasses(src)
    requires var (g1, parent, partial) := SingletonParent(src, g, d.attached); Usable(src, g1) && parent in g1.ns
    ensures var (g1, parent, partial) := SingletonParent(src, g, d.attached);
      SingletonStart(src, g, ctx, d, Linearize(src, g1, ctx.(partial := ctx.partial || partial), parent))
  {
    hide Usable, SingletonParent, Linearize;
  }

  lemma SuperclassIs(src: Source, g: Graph, ctx: Context, defs: seq<Definition>)
    requires Usable(src, g) && ParentClass(src, defs).0 in g.ns && ParentClass(src, defs).0.Named?
    ensures LinearizeParentClass(src, g, ctx, defs).g == Linearize(src, g, ctx, ParentClass(src, defs).0).g
  {
    hide Usable, Linearize, ParentClass, Moves, Keeps;
  }

  lemma {:induction false} MixinsCreate(src: Source, g: Graph, ctx: Context, mixins: seq<Mixin>, parents: seq<Ancestor>,
                                        prepends: seq<Ancestor>, includes: seq<Ancestor>, level: nat)
      returns (ids: seq<DeclId>)
    requires Usable(src, g) && Existing(g, prepends) && Existing(g, includes)
    requires level > 0 && ReferenceLevel(src) <= level
    ensures Creates(g, LinearizeMixins(src, g, ctx, mixins, parents, prepends, includes).g, ids, level)
    decreases Weight(Lost(g), ReferenceTop(src)), Work(src, g, ctx, ReferenceLevel(src)), 1, |mixins|
  {
    hide Usable, Intact, Work, Weight, Lost, Reach, Settled, Creates, Existing, FinishedKept, NoneCompleted, ReferenceLevel,
      Moves, Keeps, Top, ReferenceTop, ModuleOf, Linearize;
    if mixins == [] {
      ids := [];
      CreatesNothing(g, g, level);
    } else if ModuleOf(src, mixins[0]).None? {
      var ctx1, prepends1, includes1 := SkippedMixin(src, g, ctx, mixins, parents, prepends, includes);
      ids := MixinsCreate(src, g, ctx1, mixins[1..], parents, prepends1, includes1, level);
    } else {
      var mod, r, ctx1, prepends1, includes1 := MixinTurn(src, g, ctx, mixins, parents, prepends, includes);
      var a := LinearizeCreates(src, g, ctx, mod, level);
      var b := MixinsCreate(src, r.g, ctx1, mixins[1..], parents, prepends1, includes1, level);
      CreatesThen(g, r.g, LinearizeMixins(src, g, ctx, mixins, parents, prepends, includes).g, a, b, level);
      ids := a + b;
    }
  }

  // ---- the declarations there can be ----

  /** All declarations that can exist at `level`, the deepest that any traversal starts from. */
  ghost predicate WithinLevel(g: Graph, level: nat) {
    forall d | d in g.ns :: Level(d) <= level
  }

  lemma FinishedInUniverse(src: Source, g: Graph, level: nat)
    requires Usable(src, g) && WithinLevel(g, level)
    ensures FinishedIds(g) <= Universe(src, level)
  {
    hide Valid, OrdinarySuperclasses, Universe;
    forall x | x in FinishedIds(g) ensures x in Universe(src, level) {
      NamespaceParts(src, g, x);
      InUniverse(src, x, level);
    }
  }

  lemma TopLevelStored(src: Source, g: Graph, d: DeclId)
    requires Usable(src, g) && d in g.ns
    ensures var r := AncestorsOf(src, g, d);
      d in r.g.ns && r.g.ns[d].ancestors == r.ancestors
  {
    hide Usable, Keeps, Moves, Work, Weight, Existing, Linearize, Lost, Intact, Propagate;
    SettledCases(src, g, FRESH, d);
    if g.ns[d].ancestors.Finished() {
      PropagatedChain(g, {d}, g.ns[d].ancestors.ids, d);
      assert FRESH.descendants + {d} == {d};
    } else {
      var g1, p, g2, m := CallParts(src, g, FRESH, d);
    }
  }

  lemma PropagatedChain(g: Graph, descendants: set<DeclId>, chain: seq<Ancestor>, d: DeclId)
    requires d in g.ns
    ensures d in Propagate(g, descendants, chain).ns && Propagate(g, descendants, chain).ns[d].ancestors == g.ns[d].ancestors
  {
  }
}
