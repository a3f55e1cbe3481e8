/** The edges of the hierarchy, read off the frozen definitions: superclass, singleton parent and
    mixins of a declaration. */
module Hierarchy {
  import opened Declarations
  import opened Aliases
  import opened Graphs
  import opened Links

  // ---- superclasses ----

  /** The resolved superclasses of a run of definitions, in order. */
  function ExplicitParents(src: Source, defs: seq<Definition>): seq<DeclId> {
    if defs == [] then []
    else
      var rest := ExplicitParents(src, defs[1..]);
      if defs[0].ClassDef? && defs[0].superclass.Some? && Target(src, defs[0].superclass.value).Some? then
        var parent := ResolveToNamespace(src, Target(src, defs[0].superclass.value).value);
        if parent.Some? then [parent.value] + rest else rest
      else rest
  }

  /** The last superclass name of a run of definitions that is not resolved yet. */
  function UnresolvedParent(src: Source, defs: seq<Definition>): Option<NameId> {
    if defs == [] then None
    else
      var rest := UnresolvedParent(src, defs[1..]);
      if rest.Some? then rest
      else if defs[0].ClassDef? && defs[0].superclass.Some? && Target(src, defs[0].superclass.value).None? then
        defs[0].superclass
      else None
  }

  function ParentClass(src: Source, defs: seq<Definition>): (DeclId, Option<NameId>) {
    var parents := ExplicitParents(src, defs);
    (if parents == [] then OBJECT else parents[0], UnresolvedParent(src, defs))
  }

  /** No class has a singleton class as its superclass: superclasses are written as constant paths. */
  ghost predicate OrdinarySuperclasses(src: Source) {
    forall d | d in src.definitions ::
      forall i | 0 <= i < |src.definitions[d]| :: OrdinarySuperclass(src, src.definitions[d][i])
  }

  ghost predicate OrdinarySuperclass(src: Source, def: Definition) {
    def.ClassDef? && def.superclass.Some? && Target(src, def.superclass.value).Some? ==>
      var p := ResolveToNamespace(src, Target(src, def.superclass.value).value);
      p.Some? ==> p.value.Named?
  }

  lemma ParentClassExists(src: Source, g: Graph, d: DeclId)
    requires Valid(src, g) && OrdinarySuperclasses(src)
    ensures ParentClass(src, DefinitionsOf(src, d)).0 in g.ns
    ensures ParentClass(src, DefinitionsOf(src, d)).0.Named?
  {
    ExplicitParentsExist(src, g, DefinitionsOf(src, d));
  }

  lemma {:induction false} ExplicitParentsExist(src: Source, g: Graph, defs: seq<Definition>)
    requires Valid(src, g)
    requires forall i | 0 <= i < |defs| :: OrdinarySuperclass(src, defs[i])
    ensures forall i | 0 <= i < |ExplicitParents(src, defs)| ::
      var p := ExplicitParents(src, defs)[i]; p in g.ns && p.Named?
  {
    if defs != [] {
      ExplicitParentsExist(src, g, defs[1..]);
      if defs[0].ClassDef? && defs[0].superclass.Some? && Target(src, defs[0].superclass.value).Some? {
        assert OrdinarySuperclass(src, defs[0]);
        ResolvedNamespaceExists(src, g, defs[0].superclass.value);
      }
    }
  }

  lemma ResolvedNamespaceExists(src: Source, g: Graph, name: NameId)
    requires Valid(src, g) && Target(src, name).Some?
    ensures ResolveToNamespace(src, Target(src, name).value).Some? ==>
      ResolveToNamespace(src, Target(src, name).value).value in g.ns
    ensures ResolveToNamespace(src, Target(src, name).value).Some? ==>
      Level(ResolveToNamespace(src, Target(src, name).value).value) <= ReferenceLevel(src)
  {
    var t := Target(src, name).value;
    assert t in References(src);
    FirstNamespaceIn(src, AliasChains(src, t));
    WalkStaysIn(src, [t], {});
  }

  ghost function References(src: Source): set<DeclId> {
    set n | n in src.names && src.names[n].Resolved? :: src.names[n].declaration
  }

  lemma FirstNamespaceIn(src: Source, ids: seq<DeclId>)
    ensures FirstNamespace(src, ids).Some? ==>
      var d := FirstNamespace(src, ids).value; d in ids && Declared(src, d) && IsNamespace(src, d)
  {
  }

  lemma {:induction false} WalkStaysIn(src: Source, queue: seq<DeclId>, seen: set<DeclId>)
    requires forall d | d in queue :: d in References(src)
    ensures forall d | d in Walk(src, queue, seen) :: d in References(src)
    decreases |AliasIds(src) - seen|, |queue|
  {
    if queue == [] {
    } else if queue[0] in seen {
      WalkStaysIn(src, queue[1..], seen);
    } else {
      SeenShrinks(src, seen, queue[0]);
      if IsEnd(src, queue[0]) {
        WalkStaysIn(src, queue[1..], seen + {queue[0]});
      } else {
        TargetsAreReferences(src, DefinitionsOf(src, queue[0]), []);
        WalkStaysIn(src, queue[1..] + AliasTargets(src, queue[0]), seen + {queue[0]});
      }
    }
  }

  lemma TargetsAreReferences(src: Source, defs: seq<Definition>, found: seq<DeclId>)
    requires forall d | d in found :: d in References(src)
    ensures forall d | d in TargetsFrom(src, defs, found) :: d in References(src)
  {
  }

  // ---- singleton nesting ----

  ghost function MaxLevel(ids: set<DeclId>): (m: nat)
    ensures forall d | d in ids :: Level(d) <= m
  {
    if ids == {} then 0
    else
      var d :| d in ids;
      var rest := MaxLevel(ids - {d});
      if Level(d) > rest then Level(d) else rest
  }

  lemma {:induction false} MaxLevelLeast(ids: set<DeclId>, m: nat)
    requires forall d | d in ids :: Level(d) <= m
    ensures MaxLevel(ids) <= m
    decreases ids
  {
    if ids != {} {
      var d :| d in ids && MaxLevel(ids) == (if Level(d) > MaxLevel(ids - {d}) then Level(d) else MaxLevel(ids - {d}));
      MaxLevelLeast(ids - {d}, m);
    }
  }

  /** How deep the singleton classes go that names refer to. */
  ghost function ReferenceLevel(src: Source): nat {
    MaxLevel(References(src))
  }

  /** What the name of a singleton class can end with, besides the segment made for it. */
  function Tags(src: Source): set<Option<nat>> {
    {None} + set l | l in src.labels :: Some(l)
  }

  /** All declarations that can ever exist at singleton nesting `level` or below. */
  ghost function Universe(src: Source, level: nat): set<DeclId> {
    var named := set k | k in src.kinds :: Named(k);
    if level == 0 then named
    else named + set d, t | d in Universe(src, level - 1) && t in Tags(src) :: SingletonOf(d, t)
  }

  lemma {:induction false} InUniverse(src: Source, d: DeclId, level: nat)
    ensures d in Universe(src, level) <==> Declared(src, d) && Level(d) <= level
  {
    match d
    case Named(_) =>
    case SingletonOf(a, t) =>
      assert t in Tags(src) <==> (t.Some? ==> t.value in src.labels);
      hide Tags;
      if level > 0 { InUniverse(src, a, level - 1); }
  }

  // ---- singleton parents ----

  /** Which declaration a singleton class attached to `attached` inherits from, and whether that
      choice stands in for a superclass name that is not resolved yet. */
  function SingletonParentId(src: Source, attached: DeclId): (DeclId, bool) {
    if attached == BASIC_OBJECT then (CLASS, false)
    else if attached.SingletonOf? then
      var (inner, partial) := SingletonParentId(src, attached.attached);
      (SingletonClassOf(src, inner), partial)
    else
      match KindOf(src, attached)
      case Module => (MODULE, false)
      case Class =>
        var (parent, unresolved) := ParentClass(src, DefinitionsOf(src, attached));
        (SingletonClassOf(src, parent), unresolved.Some?)
      case _ => (CLASS, false)
  }

  /** What a choice of a singleton parent comes to. */
  ghost predicate Chosen(src: Source, g: Graph, attached: DeclId, h: Graph, parent: DeclId) {
    && Valid(src, h) && parent in h.ns && Level(parent) <= Level(attached) + 1
    && Asked(g, h, Level(attached) + 1)
  }

  /** The same choice as the resolver makes it: singleton classes are asked for on the way. */
  function SingletonParent(src: Source, g: Graph, attached: DeclId): (r: (Graph, DeclId, bool))
    requires Valid(src, g) && OrdinarySuperclasses(src) && attached in g.ns
    ensures Chosen(src, g, attached, r.0, r.1)
  {
    hide *;
    NamespaceParts(src, g, attached);
    BuiltInChosen(src, g, attached);
    if attached == BASIC_OBJECT then (g, CLASS, false)
    else if attached.SingletonOf? then
      var (g1, inner, partial) := SingletonParent(src, g, attached.attached);
      WrappedChosen(src, g, attached, g1, inner);
      var (g2, s) := GetOrCreateSingleton(g1, inner);
      (g2, s, partial)
    else
      match KindOf(src, attached)
      case Module => (g, MODULE, false)
      case Class =>
        var (parent, unresolved) := ParentClass(src, DefinitionsOf(src, attached));
        SuperclassChosen(src, g, attached);
        var (g1, s) := GetOrCreateSingleton(g, parent);
        (g1, s, unresolved.Some?)
      case _ => (g, CLASS, false)
  }

  lemma BuiltInChosen(src: Source, g: Graph, attached: DeclId)
    requires Valid(src, g)
    ensures Chosen(src, g, attached, g, CLASS) && Chosen(src, g, attached, g, MODULE)
  {
    AskedNothing(g, Level(attached) + 1);
    hide Asked, SingletonsLinked, ReferencesExist, ChainsExist;
    assert IsNamespace(src, CLASS) && IsNamespace(src, MODULE);
  }

  lemma WrappedChosen(src: Source, g: Graph, attached: DeclId, g1: Graph, inner: DeclId)
    requires attached.SingletonOf? && Chosen(src, g, attached.attached, g1, inner)
    ensures inner in g1.ns
    ensures var (g2, s) := GetOrCreateSingleton(g1, inner); Chosen(src, g, attached, g2, s)
  {
    AskedFor(src, g1, inner, Level(attached) + 1);
    var g2 := GetOrCreateSingleton(g1, inner).0;
    AskedThen(g, g1, g2, Level(attached.attached) + 1, Level(attached) + 1);
    hide Asked, Valid, GetOrCreateSingleton;
  }

  lemma SuperclassChosen(src: Source, g: Graph, attached: DeclId)
    requires Valid(src, g) && OrdinarySuperclasses(src)
    ensures var parent := ParentClass(src, DefinitionsOf(src, attached)).0;
      parent in g.ns && var (g1, s) := GetOrCreateSingleton(g, parent); Chosen(src, g, attached, g1, s)
  {
    ParentClassExists(src, g, attached);
    AskedFor(src, g, ParentClass(src, DefinitionsOf(src, attached)).0, Level(attached) + 1);
    hide Asked, Valid, GetOrCreateSingleton, ParentClass;
  }

  lemma AskedFor(src: Source, g: Graph, d: DeclId, top: nat)
    requires Valid(src, g) && d in g.ns && Level(d) < top
    ensures var (h, s) := GetOrCreateSingleton(g, d);
      Valid(src, h) && s in h.ns && Level(s) <= top && Level(s) == Level(d) + 1 && Asked(g, h, top)
  {
    GetOrCreateSingletonValid(src, g, d);
    AskedOne(src, g, d, top);
    hide Valid, GetOrCreateSingleton, Asked;
  }

  lemma {:induction false} SingletonParentPartial(src: Source, g: Graph, attached: DeclId)
    requires Valid(src, g) && OrdinarySuperclasses(src) && attached in g.ns
    ensures SingletonParent(src, g, attached).2 == SingletonParentId(src, attached).1
    decreases attached
  {
    hide Valid, OrdinarySuperclasses, ParentClass;
    NamespaceParts(src, g, attached);
    if attached != BASIC_OBJECT && attached.SingletonOf? { SingletonParentPartial(src, g, attached.attached); }
  }

  /** With nothing to overwrite the choice does not depend on the graph. */
  lemma {:induction false} SingletonParentIs(src: Source, g: Graph, attached: DeclId)
    requires Valid(src, g) && OrdinarySuperclasses(src) && attached in g.ns && Intact(g)
    ensures var (h, parent, partial) := SingletonParent(src, g, attached);
      && (parent, partial) == SingletonParentId(src, attached)
      && OnlyCreates(g, h) && Intact(h)
    decreases attached
  {
    hide Valid, OrdinarySuperclasses, ParentClass, SingletonParentId;
    NamespaceParts(src, g, attached);
    var (h, parent, partial) := SingletonParent(src, g, attached);
    AskedIntact(g, h, Level(attached) + 1);
    SingletonParentIdIs(src, attached);
    if attached == BASIC_OBJECT {
    } else if attached.SingletonOf? {
      var (g1, inner, _) := SingletonParent(src, g, attached.attached);
      SingletonParentIs(src, g, attached.attached);
      GetOrCreateSingletonValid(src, g1, inner);
    } else if KindOf(src, attached) == Class {
      ParentClassExists(src, g, attached);
      GetOrCreateSingletonValid(src, g, ParentClass(src, DefinitionsOf(src, attached)).0);
    }
  }

  lemma SingletonParentIdIs(src: Source, attached: DeclId)
    ensures SingletonParentId(src, attached) ==
      if attached == BASIC_OBJECT then (CLASS, false)
      else if attached.SingletonOf? then
        (SingletonClassOf(src, SingletonParentId(src, attached.attached).0), SingletonParentId(src, attached.attached).1)
      else if KindOf(src, attached) == Module then (MODULE, false)
      else if KindOf(src, attached) == Class then
        (SingletonClassOf(src, ParentClass(src, DefinitionsOf(src, attached)).0),
       ParentClass(src, DefinitionsOf(src, attached)).1.Some?)
      else (CLASS, false)
  {
    hide ParentClass;
  }

  lemma AskedIntact(g: Graph, h: Graph, top: nat)
    requires Intact(g) && Asked(g, h, top)
    ensures OnlyCreates(g, h) && Intact(h)
  {
    hide Weight, Lost;
    IntactStays(g, h, top);
    NoWeight(top);
  }

  lemma NamespaceParts(src: Source, g: Graph, d: DeclId)
    requires Valid(src, g) && d in g.ns
    ensures WellFormedSource(src) && Declared(src, d) && IsNamespace(src, d)
    ensures BASIC_OBJECT in g.ns && OBJECT in g.ns && MODULE in g.ns && CLASS in g.ns
    ensures d.SingletonOf? ==> d.attached in g.ns
    ensures Existing(g, g.ns[d].ancestors.ids)
  {
    assert IsNamespace(src, BASIC_OBJECT) && IsNamespace(src, OBJECT) && IsNamespace(src, MODULE) && IsNamespace(src, CLASS);
  }

  lemma {:induction false} SingletonParentLevel(src: Source, attached: DeclId)
    requires WellFormedSource(src) && OrdinarySuperclasses(src) && Declared(src, attached)
    ensures Level(SingletonParentId(src, attached).0) <= Level(attached) + 1
  {
    match attached
    case Named(_) =>
      ParentsNamed(src, DefinitionsOf(src, attached));
    case SingletonOf(a, _) => if attached != BASIC_OBJECT { SingletonParentLevel(src, a); }
  }

  lemma {:induction false} ParentsNamed(src: Source, defs: seq<Definition>)
    requires forall i | 0 <= i < |defs| :: OrdinarySuperclass(src, defs[i])
    ensures forall i | 0 <= i < |ExplicitParents(src, defs)| :: ExplicitParents(src, defs)[i].Named?
  {
    if defs != [] {
      ParentsNamed(src, defs[1..]);
      assert OrdinarySuperclass(src, defs[0]);
    }
  }

  // ---- mixins ----

  function DefinitionMixins(def: Definition): seq<Mixin> {
    match def
    case ClassDef(_, mixins) => mixins
    case SingletonClassDef(mixins) => mixins
    case ModuleDef(mixins) => mixins
    case _ => []
  }

  /** The mixins of a run of definitions, in order. */
  function MixinsOf(defs: seq<Definition>): seq<Mixin> {
    if defs == [] then [] else DefinitionMixins(defs[0]) + MixinsOf(defs[1..])
  }

  function OnlyExtends(mixins: seq<Mixin>): seq<Mixin> {
    if mixins == [] then []
    else (if mixins[0].Extend? then [mixins[0]] else []) + OnlyExtends(mixins[1..])
  }

  function WithoutExtends(mixins: seq<Mixin>): seq<Mixin> {
    if mixins == [] then []
    else (if mixins[0].Extend? then [] else [mixins[0]]) + WithoutExtends(mixins[1..])
  }

  function HasExtends(src: Source, d: DeclId): bool {
    OnlyExtends(MixinsOf(DefinitionsOf(src, d))) != []
  }

  /** The mixins that shape the chain of `d`. For a singleton class, what the attached object
      extends comes first. */
  function MixinList(src: Source, d: DeclId): seq<Mixin> {
    var own := WithoutExtends(MixinsOf(DefinitionsOf(src, d)));
    match d
    case Named(_) => own
    case SingletonOf(a, _) => OnlyExtends(MixinsOf(DefinitionsOf(src, a))) + own
  }

  /** The same with what is left of the definitions. */
  function MixinsNow(src: Source, g: Graph, d: DeclId): seq<Mixin> {
    var own := WithoutExtends(MixinsOf(DefinitionsNow(src, g, d)));
    match d
    case Named(_) => own
    case SingletonOf(a, _) => OnlyExtends(MixinsOf(DefinitionsNow(src, g, a))) + own
  }
}
