/** Two runs from the built-in declarations on: one in which an object gets two singleton classes, and one in which
    a placeholder loses its singleton class. */
module SingletonRuns {
  import opened Declarations
  import opened Names
  import opened NameDepths
  import opened Aliases
  import opened Graphs
  import opened Links
  import opened Hierarchy
  import opened Linearization
  import opened PlainChains
  import opened Steps
  import opened Lookups
  import opened Programs
  import opened Creations
  import opened LiveLookups
  import Stored = ConstantLookups
  import opened NameResolutions
  import opened DefinitionUnits
  import opened ResolutionLoops
  import opened Handlings

  // ---- steps of a run ----

  /** One unit of the first pass. */
  lemma OneUnit(p: Program, q: Pass<Store>) returns (r: Pass<Store>)
    requires WellFormed(p) && PassFits(HandlingOf(p), q) && q.left != []
    ensures RunPass(HandlingOf(p), r) == RunPass(HandlingOf(p), q) && PassFits(HandlingOf(p), r)
    ensures r.left == q.left[1..] && r.state == Follow(p, q.left[0], q.state).state
  {
    HandlingIsLegal(p);
    hide WellFormed, Legal, PassFits, Follow;
    AdvanceFits(HandlingOf(p), q);
    r := Advance(HandlingOf(p), q);
  }

  lemma StateAfter(p: Program, id: nat, s: Store)
    requires WellFormed(p) && AtRest(p, s) && id in p.tasks && p.tasks[id].ConstantTask?
    ensures p.tasks[id].name in p.names && WellFormedTask(p, p.tasks[id])
    ensures Follow(p, DefinitionUnit(id), s).state ==
        Cleared(HandleConstant(p, s, p.tasks[id].name, p.tasks[id].definition).store)
    ensures AtRest(p, Follow(p, DefinitionUnit(id), s).state)
  {
    assert WellFormedTask(p, p.tasks[id]);
    HandleConstantCloses(p, s, p.tasks[id].name, p.tasks[id].definition);
    ClosedAtRest(p, s, HandleConstant(p, s, p.tasks[id].name, p.tasks[id].definition));
    hide Coherent, HandleConstant, Rooted;
  }

  lemma NamespaceIsPrimary(p: Program, s: Store, d: DeclId, again: Option<DeclId>)
    requires Coherent(p, s) && d in s.g.ns
    ensures PrimaryEnd(s.src, d, again) == Found(d, again)
  {
    NamespaceParts(s.src, s.g, d);
    hide Coherent;
    assert IsEnd(s.src, d);
    assert [d][1..] == [];
    assert Walk(s.src, [d], {}) == [d] + Walk(s.src, [], {d});
  }

  /** A name that is resolved already is what its scope stands for. */
  lemma KnownScope(p: Program, s: Store, n: NameId, scope: NameId, singleton: bool)
    requires WellFormed(p) && Coherent(p, s) && n in p.names && ScopeId(p.names[n].parentScope) == Some(scope)
    requires Target(s.src, scope).Some?
    ensures NameOwner(p, s, n, singleton) == (s, PrimaryEnd(s.src, Target(s.src, scope).value, None))
  {
    ScopesRooted(p, n);
    hide Coherent, WellFormed, PrimaryEnd, Rooted;
  }

  /** A singleton class is written out for an object that is known. */
  lemma WrittenOut(p: Program, s: Store, n: NameId, def: Definition, owner: DeclId) returns (t: Store)
    requires WellFormed(p) && Coherent(p, s) && n in p.names && def.SingletonClassDef? && owner in s.g.ns
    requires NameOwner(p, s, n, true) == (s, Found(owner, None))
    ensures t == HandleConstant(p, s, n, def).store
    ensures SingletonOf(owner, WrittenTag(p, owner, p.names[n].str)) in t.g.ns && s.g.ns.Keys <= t.g.ns.Keys
    ensures t.src.kinds == s.src.kinds && NamesKept(s.src, t.src)
    ensures forall d | d != SingletonOf(owner, WrittenTag(p, owner, p.names[n].str)) ::
      DefinitionsOf(t.src, d) == DefinitionsOf(s.src, d)
    ensures t.g.ns == LinkTo(s, owner, WrittenTag(p, owner, p.names[n].str)).g.ns
  {
    OwnerIsReady(p, s, owner);
    var tag := WrittenTag(p, owner, p.names[n].str);
    var u := AddDefinition(LinkTo(s, owner, tag), SingletonOf(owner, tag), def);
    LinkedAlone(s, owner, tag, def);
    hide Coherent, WellFormed, NameOwner, AllPromotable, LinkTo, AddDefinition, WrittenTag, DefinitionsOf, NamesKept;
    DeclareSingletonParts(p, s, owner, n, p.names[n].str, def, None);
    Recorded(u, n, SingletonOf(owner, tag));
    hide DeclareSingleton, RecordName;
    t := HandleConstant(p, s, n, def).store;
    NamesKeptThen(s.src, u.src, t.src);
    SameDefinitions(u.src, t.src);
  }

  lemma SameDefinitions(src: Source, src': Source)
    ensures src'.definitions == src.definitions ==> forall d :: DefinitionsOf(src', d) == DefinitionsOf(src, d)
  {
  }

  lemma NamesKeptThen(a: Source, b: Source, c: Source)
    requires b.names == a.names && NamesKept(b, c)
    ensures NamesKept(a, c)
  {
  }

  lemma LinkedAlone(s: Store, owner: DeclId, tag: Option<StringId>, def: Definition)
    requires owner in s.g.ns
    ensures var c := SingletonOf(owner, tag);
      var u := AddDefinition(LinkTo(s, owner, tag), c, def);
      && c in u.g.ns && s.g.ns.Keys <= u.g.ns.Keys && u.src.kinds == s.src.kinds && u.src.names == s.src.names
      && u.g.ns == LinkTo(s, owner, tag).g.ns
      && forall d | d != c :: DefinitionsOf(u.src, d) == DefinitionsOf(s.src, d)
  {
  }

  lemma Recorded(s: Store, n: NameId, d: DeclId)
    ensures var t := RecordName(s, n, d);
      && NamesKept(s.src, t.src) && Target(t.src, n).Some? && (forall m | m != n :: Target(t.src, m) == Target(s.src, m))
      && t.g == s.g && t.members == s.members && t.src == s.src.(names := t.src.names)
  {
  }

  lemma OwnerIsReady(p: Program, s: Store, owner: DeclId)
    requires Coherent(p, s) && owner in s.g.ns
    ensures OwnerReady(s, owner) == s
  {
    NamespaceParts(s.src, s.g, owner);
    hide Coherent, AllPromotable;
  }

  /** What declaring a new constant at the top level comes to. */
  ghost predicate NewConstant(p: Program, s: Store, t: Store, n: NameId, def: Definition)
    requires n in p.names
  {
    var k, kind := p.key(OBJECT, p.names[n].str), KindFor(def);
    && t.src.kinds == s.src.kinds[k := kind]
    && (forall m :: Target(t.src, m) == if m == n then Some(Named(k)) else Target(s.src, m))
    && (forall d :: DefinitionsOf(t.src, d) == if d == Named(k) then DefinitionsOf(s.src, d) + [def] else DefinitionsOf(s.src, d))
    && t.g.ns == if kind in {Class, Module, Todo} then s.g.ns[Named(k) := EMPTY_NAMESPACE] else s.g.ns
  }

  lemma DeclaredAnew(p: Program, s: Store, n: NameId, def: Definition)
    requires WellFormed(p) && Coherent(p, s) && n in p.names && !def.SingletonClassDef?
    requires p.names[n].parentScope.NoScope? && p.names[n].nesting.None?
    requires p.key(OBJECT, p.names[n].str) !in s.src.kinds && Target(s.src, n).None?
    ensures NewConstant(p, s, Cleared(HandleConstant(p, s, n, def).store), n, def)
  {
    TopLevelHandled(p, s, n, def);
    hide WellFormed, Coherent, HandleConstant, NewConstant;
    var k := p.key(OBJECT, p.names[n].str);
    DeclareConstantParts(p, s, OBJECT, n, p.names[n].str, def, None);
    var t := AddDefinition(Declare(s, k, KindFor(def)), Named(k), def);
    var u := if OBJECT in s.g.ns then AddMember(t, OBJECT, p.names[n].str, Named(k)) else t;
    assert Redeclare(s, k, KindFor(def)) == Declare(s, k, KindFor(def));
    hide DeclareConstant;
    PutTogether(p, s, n, def, u, RecordName(u, n, Named(k)));
  }

  lemma PutTogether(p: Program, s: Store, n: NameId, def: Definition, u: Store, v: Store)
    requires n in p.names && Target(s.src, n).None?
    requires var k := p.key(OBJECT, p.names[n].str);
      var t := AddDefinition(Declare(s, k, KindFor(def)), Named(k), def);
      (u == t || u == AddMember(t, OBJECT, p.names[n].str, Named(k))) && v == RecordName(u, n, Named(k))
    ensures NewConstant(p, s, Cleared(v), n, def)
  {
    Recorded(u, n, Named(p.key(OBJECT, p.names[n].str)));
    NameRecorded(u, n, Named(p.key(OBJECT, p.names[n].str)));
    hide RecordName;
  }

  // ---- two singleton classes of one object ----

  /** `class Foo; end; ALIAS = Foo; class << Foo; end; class << ALIAS; end` */
  const TWICE := Program(
    map[0 := Name(10, NoScope, None), 1 := Name(11, NoScope, None), 2 := Name(12, Attached(0), None),
        3 := Name(13, Attached(1), None)],
    2,
    map[0 := ConstantTask(0, ClassDef(None, [])), 1 := ConstantTask(1, ConstantAliasDef(0)),
        2 := ConstantTask(2, SingletonClassDef([])), 3 := ConstantTask(3, SingletonClassDef([]))],
    map[],
    (d, str) => str,
    (d, str) => str,
    k => k,
    str => str + 2)

  const TWICE_QUEUE := [DefinitionUnit(0), DefinitionUnit(1), DefinitionUnit(2), DefinitionUnit(3)]

  const FOO := Named(10)
  const ALIAS := Named(11)

  lemma TwiceWellFormed()
    ensures WellFormed(TWICE)
  {
    assert Rooted(TWICE.names, 0, 1) && Rooted(TWICE.names, 1, 1);
    assert forall n | n in TWICE.names :: Rooted(TWICE.names, n, 2);
  }

  /** What matters of that program. */
  ghost predicate Twice(p: Program) {
    && WellFormed(p)
    && {0, 1, 2, 3} <= p.names.Keys && {0, 1, 2, 3} <= p.tasks.Keys
    && p.names[0] == Name(10, NoScope, None) && p.names[1] == Name(11, NoScope, None)
    && p.names[2] == Name(12, Attached(0), None) && p.names[3] == Name(13, Attached(1), None)
    && p.tasks[0] == ConstantTask(0, ClassDef(None, [])) && p.tasks[1] == ConstantTask(1, ConstantAliasDef(0))
    && p.tasks[2] == ConstantTask(2, SingletonClassDef([])) && p.tasks[3] == ConstantTask(3, SingletonClassDef([]))
    && p.key(OBJECT, 10) == 10 && p.key(OBJECT, 11) == 11
    && WrittenTag(p, FOO, 12) == None && WrittenTag(p, FOO, 13) == Some(13)
  }

  lemma TwiceIsTwice()
    ensures Twice(TWICE)
  {
    TwiceWellFormed();
    hide WellFormed;
  }

  lemma TwiceParts(p: Program)
    requires Twice(p)
    ensures WellFormed(p) && {0, 1, 2, 3} <= p.names.Keys && {0, 1, 2, 3} <= p.tasks.Keys
    ensures p.names[0] == Name(10, NoScope, None) && p.names[1] == Name(11, NoScope, None)
    ensures p.names[2] == Name(12, Attached(0), None) && p.names[3] == Name(13, Attached(1), None)
    ensures p.tasks[0] == ConstantTask(0, ClassDef(None, [])) && p.tasks[1] == ConstantTask(1, ConstantAliasDef(0))
    ensures p.tasks[2] == ConstantTask(2, SingletonClassDef([])) && p.tasks[3] == ConstantTask(3, SingletonClassDef([]))
    ensures p.key(OBJECT, 10) == 10 && p.key(OBJECT, 11) == 11
    ensures WrittenTag(p, FOO, 12) == None && WrittenTag(p, FOO, 13) == Some(13)
  {
    hide WellFormed, WrittenTag;
  }

  lemma FooDeclared(p: Program) returns (s: Store)
    requires Twice(p)
    ensures s == Follow(p, DefinitionUnit(0), BuiltIn()).state && AtRest(p, s)
    ensures FOO in s.g.ns && 11 !in s.src.kinds && Target(s.src, 0) == Some(FOO)
    ensures Target(s.src, 1).None? && DefinitionsOf(s.src, ALIAS) == []
  {
    BuiltInParts();
    TwiceParts(p);
    BuiltInAtRest(p);
    hide WellFormed, AtRest, Twice, Follow, HandleConstant, Target, DefinitionsOf, WrittenTag, Cleared, BuiltIn;
    s := Follow(p, DefinitionUnit(0), BuiltIn()).state;
    StateAfter(p, 0, BuiltIn());
    ConstantAdded(p, BuiltIn(), s, 0, ClassDef(None, []), 1, ALIAS);
  }

  lemma BuiltInParts()
    ensures forall k | k > 3 :: k !in BuiltIn().src.kinds
    ensures forall n: NameId :: Target(BuiltIn().src, n).None?
    ensures forall d: DeclId :: DefinitionsOf(BuiltIn().src, d) == []
  {
  }

  /** The same in parts, for another name `m` and another declaration `e`. */
  lemma ConstantAdded(p: Program, s: Store, t: Store, n: NameId, def: Definition, m: NameId, e: DeclId)
    requires WellFormed(p) && AtRest(p, s) && n in p.names && !def.SingletonClassDef?
    requires p.names[n].parentScope.NoScope? && p.names[n].nesting.None?
    requires p.key(OBJECT, p.names[n].str) !in s.src.kinds && Target(s.src, n).None?
    requires t == Cleared(HandleConstant(p, s, n, def).store)
    ensures t.src.kinds == s.src.kinds[p.key(OBJECT, p.names[n].str) := KindFor(def)]
    ensures Target(t.src, n) == Some(Named(p.key(OBJECT, p.names[n].str)))
    ensures m != n ==> Target(t.src, m) == Target(s.src, m)
    ensures DefinitionsOf(t.src, Named(p.key(OBJECT, p.names[n].str))) ==
      DefinitionsOf(s.src, Named(p.key(OBJECT, p.names[n].str))) + [def]
    ensures e != Named(p.key(OBJECT, p.names[n].str)) ==> DefinitionsOf(t.src, e) == DefinitionsOf(s.src, e)
    ensures s.g.ns.Keys <= t.g.ns.Keys
    ensures KindFor(def) in {Class, Module} ==> Named(p.key(OBJECT, p.names[n].str)) in t.g.ns
  {
    DeclaredAnew(p, s, n, def);
    hide WellFormed, Coherent, HandleConstant, Target, DefinitionsOf, Cleared;
  }

  lemma AliasDeclared(p: Program, s: Store) returns (t: Store)
    requires Twice(p) && AtRest(p, s) && FOO in s.g.ns && 11 !in s.src.kinds && Target(s.src, 0) == Some(FOO)
    requires Target(s.src, 1).None? && DefinitionsOf(s.src, ALIAS) == []
    ensures t == Follow(p, DefinitionUnit(1), s).state && AtRest(p, t)
    ensures FOO in t.g.ns && IsAlias(t.src, ALIAS) && Target(t.src, 0) == Some(FOO)
    ensures Target(t.src, 1) == Some(ALIAS) && DefinitionsOf(t.src, ALIAS) == [ConstantAliasDef(0)]
  {
    assert ALIAS == Named(11);
    hide *;
    TwiceParts(p);
    t := Follow(p, DefinitionUnit(1), s).state;
    StateAfter(p, 1, s);
    NotSingleton(ConstantAliasDef(0));
    ConstantAdded(p, s, t, 1, ConstantAliasDef(0), 0, FOO);
    AliasByKind(t.src, 11, 0);
  }

  lemma NotSingleton(def: Definition)
    requires def.ConstantAliasDef?
    ensures KindFor(def) == ConstantAlias && !def.SingletonClassDef?
  {
  }

  lemma AliasByKind(src: Source, k: nat, n: NameId)
    requires k in src.kinds && src.kinds[k] == ConstantAlias
    ensures IsAlias(src, Named(k))
  {
  }

  lemma AliasLeadsToFoo(p: Program, s: Store)
    requires Coherent(p, s) && FOO in s.g.ns && IsAlias(s.src, ALIAS) && Target(s.src, 0) == Some(FOO)
    requires DefinitionsOf(s.src, ALIAS) == [ConstantAliasDef(0)]
    ensures PrimaryEnd(s.src, ALIAS, None) == Found(FOO, None)
  {
    NamespaceParts(s.src, s.g, FOO);
    OneTarget(s.src, 0, FOO);
    hide Coherent, TargetsFrom;
    OneAlias(s.src, ALIAS, FOO);
  }

  lemma OneTarget(src: Source, n: NameId, d: DeclId)
    requires Target(src, n) == Some(d)
    ensures TargetsFrom(src, [ConstantAliasDef(n)], []) == [d]
  {
    assert [ConstantAliasDef(n)][1..] == [];
    assert TargetsFrom(src, [], [d]) == [d];
  }

  lemma OneAlias(src: Source, d: DeclId, target: DeclId)
    requires IsAlias(src, d) && AliasTargets(src, d) == [target] && target != d && !IsAlias(src, target)
    ensures PrimaryEnd(src, d, None) == Found(target, None)
  {
    assert IsEnd(src, target) && !IsEnd(src, d);
    assert [d][1..] + [target] == [target] && [target][1..] == [];
    assert Walk(src, [d], {}) == Walk(src, [target], {} + {d});
    assert Walk(src, [target], {} + {d}) == [target] + Walk(src, [], {} + {d} + {target});
  }

  lemma TargetsStay(src: Source, src': Source, n: NameId)
    requires NamesKept(src, src') && Target(src, n).Some?
    ensures Target(src', n) == Target(src, n)
  {
    hide Target;
  }

  lemma FooWrittenOut(p: Program, s: Store) returns (t: Store)
    requires Twice(p) && AtRest(p, s) && FOO in s.g.ns && IsAlias(s.src, ALIAS) && Target(s.src, 0) == Some(FOO)
    requires Target(s.src, 1) == Some(ALIAS) && DefinitionsOf(s.src, ALIAS) == [ConstantAliasDef(0)]
    ensures t == Follow(p, DefinitionUnit(2), s).state && AtRest(p, t)
    ensures FOO in t.g.ns && IsAlias(t.src, ALIAS) && Target(t.src, 0) == Some(FOO)
    ensures Target(t.src, 1) == Some(ALIAS) && DefinitionsOf(t.src, ALIAS) == [ConstantAliasDef(0)]
    ensures SingletonOf(FOO, None) in t.g.ns
  {
    TwiceParts(p);
    hide WellFormed, Twice, Coherent, Follow, HandleConstant, NameOwner, PrimaryEnd, WrittenTag, Target, DefinitionsOf;
    StateAfter(p, 2, s);
    t := Follow(p, DefinitionUnit(2), s).state;
    KnownScope(p, s, 2, 0, true);
    NamespaceIsPrimary(p, s, FOO, None);
    var u := WrittenOut(p, s, 2, SingletonClassDef([]), FOO);
    TargetsStay(s.src, u.src, 0);
    TargetsStay(s.src, u.src, 1);
  }

  lemma AliasWrittenOut(p: Program, s: Store) returns (t: Store)
    requires Twice(p) && AtRest(p, s) && FOO in s.g.ns && IsAlias(s.src, ALIAS) && Target(s.src, 0) == Some(FOO)
    requires Target(s.src, 1) == Some(ALIAS) && DefinitionsOf(s.src, ALIAS) == [ConstantAliasDef(0)]
    requires SingletonOf(FOO, None) in s.g.ns
    ensures t == Follow(p, DefinitionUnit(3), s).state && AtRest(p, t)
    ensures SingletonOf(FOO, None) in t.g.ns && SingletonOf(FOO, Some(13)) in t.g.ns
    ensures t.g.ns[FOO].singleton == Some(SingletonOf(FOO, Some(13)))
  {
    TwiceParts(p);
    hide WellFormed, Twice, Coherent, Follow, HandleConstant, NameOwner, PrimaryEnd, WrittenTag, Target, DefinitionsOf,
      IsAlias;
    StateAfter(p, 3, s);
    t := Follow(p, DefinitionUnit(3), s).state;
    AliasLeadsToFoo(p, s);
    KnownScope(p, s, 3, 1, true);
    var _ := WrittenOut(p, s, 3, SingletonClassDef([]), FOO);
  }

  /** What stays once it is there. */
  lemma NamespacesStay(p: Program, ids: set<DeclId>)
    requires WellFormed(p)
    ensures Legal(HandlingOf(p)) && Kept(HandlingOf(p), (log: seq<nat>, t: Store) => ids <= t.g.ns.Keys)
  {
    HandlingIsLegal(p);
    hide WellFormed, AtRest, Follow, Legal, KnownUnit, FinishedIds, UniverseIn, LossLeft;
    forall u, t | HandlingOf(p).holds(t) && HandlingOf(p).known(u) && ids <= t.g.ns.Keys
      ensures ids <= Follow(p, u, t).state.g.ns.Keys
    {
      HandleGrows(p, u, t);
      KeysGrow(p, t, Follow(p, u, t).state);
    }
  }

  lemma KeysGrow(p: Program, s: Store, t: Store)
    requires Grows(p, s, t)
    ensures s.g.ns.Keys <= t.g.ns.Keys
  {
    hide Coherent;
  }

  ghost predicate Runs(p: Program, queue: seq<Unit>) {
    WellFormed(p) && AtRest(p, BuiltIn()) && forall u | u in queue :: KnownUnit(p, u)
  }

  lemma TwiceRuns(p: Program)
    requires Twice(p)
    ensures Runs(p, TWICE_QUEUE)
  {
    TwiceParts(p);
    BuiltInAtRest(p);
    hide WellFormed, AtRest, WrittenTag;
  }

  /** After the run `Foo` has two singleton classes, the one made for itself and the one named after the alias. */
  lemma TwoSingletonClasses(p: Program)
    requires Twice(p)
    ensures Runs(p, TWICE_QUEUE)
    ensures var (left, t, log) := Resolve(p, TWICE_QUEUE, BuiltIn());
      {SingletonOf(FOO, None), SingletonOf(FOO, Some(13))} <= t.g.ns.Keys
  {
    hide *;
    TwiceRuns(p);
    var q := BothWrittenOut(p);
    BothStay(p, TWICE_QUEUE, {SingletonOf(FOO, None), SingletonOf(FOO, Some(13))}, q);
  }

  lemma BothStay(p: Program, queue: seq<Unit>, ids: set<DeclId>, q: Pass<Store>)
    requires Runs(p, queue)
    requires RunPass(HandlingOf(p), Pass(queue, [], BuiltIn(), [], false)) == RunPass(HandlingOf(p), q)
    requires PassFits(HandlingOf(p), q) && ids <= q.state.g.ns.Keys
    ensures var (left, t, log) := Resolve(p, queue, BuiltIn()); ids <= t.g.ns.Keys
  {
    NamespacesStay(p, ids);
    var fact := (log: seq<nat>, t: Store) => ids <= t.g.ns.Keys;
    hide *;
    RunFrom(p, queue, fact, q);
  }

  lemma BothWrittenOut(p: Program) returns (q: Pass<Store>)
    requires Twice(p)
    ensures RunPass(HandlingOf(p), Pass(TWICE_QUEUE, [], BuiltIn(), [], false)) == RunPass(HandlingOf(p), q)
    ensures PassFits(HandlingOf(p), q)
    ensures {SingletonOf(FOO, None), SingletonOf(FOO, Some(13))} <= q.state.g.ns.Keys
  {
    TwiceParts(p);
    assert forall u | u in TWICE_QUEUE :: KnownUnit(p, u);
    hide *;
    q := FourUnits(p, TWICE_QUEUE);
    var s1 := FooDeclared(p);
    var s2 := AliasDeclared(p, s1);
    var s3 := FooWrittenOut(p, s2);
    var s4 := AliasWrittenOut(p, s3);
    Both(SingletonOf(FOO, None), SingletonOf(FOO, Some(13)), q.state.g.ns.Keys);
  }

  lemma Both(a: DeclId, b: DeclId, ids: set<DeclId>)
    requires a in ids && b in ids
    ensures {a, b} <= ids
  {
  }

  lemma RunFrom(p: Program, queue: seq<Unit>, fact: (seq<nat>, Store) -> bool, q: Pass<Store>)
    requires WellFormed(p) && (forall u | u in queue :: KnownUnit(p, u)) && Legal(HandlingOf(p)) && Kept(HandlingOf(p), fact)
    requires RunPass(HandlingOf(p), Pass(queue, [], BuiltIn(), [], false)) == RunPass(HandlingOf(p), q)
    requires PassFits(HandlingOf(p), q) && fact(q.recorded, q.state) && AtRest(p, BuiltIn())
    ensures var (left, t, log) := Resolve(p, queue, BuiltIn()); fact(log, t)
  {
    hide WellFormed, Legal, Kept, PassFits, RunPass, AtRest, KnownUnit, Converge;
    ConvergeKeepsFrom(HandlingOf(p), fact, queue, BuiltIn(), [], q);
  }

  /** The first four units of a run. */
  lemma FourUnits(p: Program, queue: seq<Unit>) returns (q: Pass<Store>)
    requires WellFormed(p) && |queue| == 4 && forall u | u in queue :: KnownUnit(p, u)
    ensures RunPass(HandlingOf(p), Pass(queue, [], BuiltIn(), [], false)) == RunPass(HandlingOf(p), q)
    ensures PassFits(HandlingOf(p), q) && q.left == []
    ensures var s1 := Follow(p, queue[0], BuiltIn()).state;
      var s2 := Follow(p, queue[1], s1).state;
      var s3 := Follow(p, queue[2], s2).state;
      q.state == Follow(p, queue[3], s3).state
  {
    var q0 := Pass(queue, [], BuiltIn(), [], false);
    FirstFits(p, queue);
    hide *;
    var q1 := OneUnit(p, q0);
    var q2 := OneUnit(p, q1);
    var q3 := OneUnit(p, q2);
    q := OneUnit(p, q3);
  }

  lemma FirstFits(p: Program, queue: seq<Unit>)
    requires forall u | u in queue :: KnownUnit(p, u)
    ensures PassFits(HandlingOf(p), Pass(queue, [], BuiltIn(), [], false))
  {
    BuiltInAtRest(p);
    assert queue + [] == queue;
    hide AtRest, KnownUnit;
  }

  // ---- a placeholder that loses its singleton class ----

  const A := Named(10)

  /** `class Object; end; class A::B; end; class << A; end; class Object; class A; end; end` */
  const PLACEHOLDER := Program(
    map[0 := Name(10, NoScope, None), 1 := Name(11, Scope(0), None), 2 := Name(12, Attached(0), None),
        3 := Name(13, NoScope, None), 4 := Name(10, NoScope, Some(3))],
    2,
    map[0 := ConstantTask(3, ClassDef(None, [])), 1 := ConstantTask(1, ClassDef(None, [])),
        2 := ConstantTask(2, SingletonClassDef([])), 3 := ConstantTask(4, ClassDef(None, []))],
    map[],
    (d, str) => if str == 13 then 1 else str,
    (d, str) => str,
    k => k,
    str => str + 2)

  ghost predicate Placeholder(p: Program) {
    && WellFormed(p)
    && {0, 1, 2, 3, 4} <= p.names.Keys && {0, 1, 2, 3} <= p.tasks.Keys
    && p.names[0] == Name(10, NoScope, None) && p.names[1] == Name(11, Scope(0), None)
    && p.names[2] == Name(12, Attached(0), None) && p.names[3] == Name(13, NoScope, None)
    && p.names[4] == Name(10, NoScope, Some(3))
    && p.tasks[0] == ConstantTask(3, ClassDef(None, [])) && p.tasks[1] == ConstantTask(1, ClassDef(None, []))
    && p.tasks[2] == ConstantTask(2, SingletonClassDef([])) && p.tasks[3] == ConstantTask(4, ClassDef(None, []))
    && p.key(OBJECT, 13) == 1 && p.key(OBJECT, 10) == 10 && p.key(A, 11) == 11 && WrittenTag(p, A, 12) == None
  }

  lemma PlaceholderIsOne()
    ensures Placeholder(PLACEHOLDER)
  {
    PlaceholderWellFormed();
    hide WellFormed;
  }

  lemma PlaceholderWellFormed()
    ensures WellFormed(PLACEHOLDER)
  {
    assert Rooted(PLACEHOLDER.names, 0, 1) && Rooted(PLACEHOLDER.names, 3, 1);
    assert forall n | n in PLACEHOLDER.names :: Rooted(PLACEHOLDER.names, n, 2);
  }

  /** The queue is in the order in which definitions are resolved: by the depths of their names. */
  lemma PlaceholderDepths()
    ensures Rooted(PLACEHOLDER.names, 3, 2) && Rooted(PLACEHOLDER.names, 1, 2) && Rooted(PLACEHOLDER.names, 2, 2)
    ensures Rooted(PLACEHOLDER.names, 4, 2)
    ensures Depth(PLACEHOLDER.names, 3, 2) == 1 && Depth(PLACEHOLDER.names, 1, 2) == 2
    ensures Depth(PLACEHOLDER.names, 2, 2) == 2 && Depth(PLACEHOLDER.names, 4, 2) == 2
  {
    assert Rooted(PLACEHOLDER.names, 0, 1) && Rooted(PLACEHOLDER.names, 3, 1);
    assert Depth(PLACEHOLDER.names, 0, 1) == 1 && Depth(PLACEHOLDER.names, 3, 1) == 1;
  }

  lemma PlaceholderParts(p: Program)
    requires Placeholder(p)
    ensures WellFormed(p) && {0, 1, 2, 3, 4} <= p.names.Keys && {0, 1, 2, 3} <= p.tasks.Keys
    ensures p.names[0] == Name(10, NoScope, None) && p.names[1] == Name(11, Scope(0), None)
    ensures p.names[2] == Name(12, Attached(0), None) && p.names[3] == Name(13, NoScope, None)
    ensures p.names[4] == Name(10, NoScope, Some(3))
    ensures p.tasks[0] == ConstantTask(3, ClassDef(None, [])) && p.tasks[1] == ConstantTask(1, ClassDef(None, []))
    ensures p.tasks[2] == ConstantTask(2, SingletonClassDef([])) && p.tasks[3] == ConstantTask(4, ClassDef(None, []))
    ensures p.key(OBJECT, 13) == 1 && p.key(OBJECT, 10) == 10 && p.key(A, 11) == 11 && WrittenTag(p, A, 12) == None
  {
    hide WellFormed, WrittenTag;
  }

  /** As long as `Object` is defined without superclass, it is its own superclass, so its chain is cyclic. */
  lemma ObjectIsCircular(src: Source, g: Graph)
    requires Ready(src, g) && OBJECT in g.ns && DefinitionsOf(src, OBJECT) == [ClassDef(None, [])]
    requires !g.ns[OBJECT].ancestors.Finished()
    ensures var r := AncestorsOf(src, g, OBJECT); r.ancestors.Cyclic? && Known(OBJECT) in r.ancestors.ids
  {
    ObjectParent(src, g);
    hide Usable, Intact, Work, Weight, Lost, Moves, Linearize, LinearizeParent, LinearizeMixins, MixinList, ParentOf,
      ParentMissing, Existing, Settled, FinishedKept, NoneCompleted, Reach, ReferenceLevel, DefinitionsOf;
    var g1, p, g2, m := FreshCall(src, g, FRESH, OBJECT);
    var h, ctx, parent, r := ParentCall(src, g1, Entered(FRESH, OBJECT), OBJECT);
    SettledCases(src, h, ctx, OBJECT);
    ListsItself(m.prepends, m.includes, p.ids);
  }

  lemma ListsItself(prepends: seq<Ancestor>, includes: seq<Ancestor>, parents: seq<Ancestor>)
    ensures Known(OBJECT) in Assemble(OBJECT, prepends, includes, parents)
  {
    assert Known(OBJECT) in [Known(OBJECT)];
  }

  lemma ObjectParent(src: Source, g: Graph)
    requires Usable(src, g) && DefinitionsOf(src, OBJECT) == [ClassDef(None, [])]
    ensures ParentOf(src, OBJECT) == Some(OBJECT) && !ParentMissing(src, OBJECT)
  {
    assert KindOf(src, OBJECT) == Class by { assert WellFormedSource(src); }
    var defs := [ClassDef(None, [])];
    assert defs[1..] == [];
    assert ExplicitParents(src, []) == [] && UnresolvedParent(src, []) == None;
    assert ExplicitParents(src, defs) == [] && UnresolvedParent(src, defs) == None;
  }

  /** No namespace but `owner` has a member called `str`, and there it is `found`. */
  ghost predicate OnlyMember(s: Store, str: StringId, owner: DeclId, found: Option<DeclId>) {
    forall d :: MemberAt(s.members, Known(d), str) == if d == owner then found else None
  }

  /** A search along a finished chain that lists the owner finds just that. */
  lemma OnlyMemberFound(w: Stored.World, s: Store, d: DeclId, chain: Ancestors, str: StringId, owner: DeclId,
                        found: Option<DeclId>)
    requires w.members == s.members && OnlyMember(s, str, owner, found) && chain.Finished() && Known(owner) in chain.ids
    ensures Stored.SearchChain(w, d, chain, str) == match found { case None => NotFound(None) case Some(id) => Found(id, None) }
  {
    FirstMemberIsFirst(w.members, chain.ids, str);
    var i :| 0 <= i < |chain.ids| && chain.ids[i] == Known(owner);
    assert MemberAt(w.members, chain.ids[i], str) == found;
    hide FirstMember, MemberAt;
  }

  /** A name without scope and nesting is looked up in `Object`. */
  lemma BareName(p: Program, s: Store, n: NameId)
    requires Coherent(p, s) && n in p.names && Rooted(p.names, n, p.height) && Target(s.src, n).None?
    requires p.names[n].parentScope.NoScope? && p.names[n].nesting.None? && OBJECT in s.g.ns
    ensures var (t, r) := SearchAncestors(p, s, OBJECT, p.names[n].str); ResolveConstant(p, s, n) == Remembered(n, t, r)
  {
    ScopesAreKnown(s.src, []);
    hide Coherent, SearchAncestors, Remembered, Looked;
    assert Nesting(p.names, n, p.height) == [];
    assert Scopes(s.src, []) == [];
  }

  lemma HandleOwned(p: Program, s: Store, n: NameId, def: Definition, t: Store, owner: DeclId)
    requires WellFormed(p) && Coherent(p, s) && n in p.names
    requires NameOwner(p, s, n, def.SingletonClassDef?) == (t, Found(owner, None))
    ensures HandleConstant(p, s, n, def) == DeclareIn(p, t, owner, n, def, None)
  {
    hide Coherent, WellFormed, NameOwner, DeclareIn, CreateTodo;
  }

  // the steps of the run

  ghost predicate ObjectKnown(p: Program, s: Store) {
    && AtRest(p, s) && Lost(s.g) == {}
    && DefinitionsOf(s.src, OBJECT) == [ClassDef(None, [])] && OBJECT in s.g.ns && !s.g.ns[OBJECT].ancestors.Finished()
    && 10 !in s.src.kinds && 11 !in s.src.kinds && OnlyMember(s, 10, OBJECT, None)
    && Target(s.src, 0).None? && Target(s.src, 1).None? && Target(s.src, 3) == Some(OBJECT)
  }

  lemma ObjectDefined(p: Program) returns (s: Store)
    requires Placeholder(p)
    ensures s == Follow(p, DefinitionUnit(0), BuiltIn()).state && ObjectKnown(p, s)
  {
    PlaceholderParts(p);
    BuiltInAtRest(p);
    hide WellFormed, Coherent, Placeholder, Follow, HandleConstant, WrittenTag, Lost;
    s := Follow(p, DefinitionUnit(0), BuiltIn()).state;
    StateAfter(p, 0, BuiltIn());
    TopLevelHandled(p, BuiltIn(), 3, ClassDef(None, []));
    DeclareConstantParts(p, BuiltIn(), OBJECT, 3, 13, ClassDef(None, []), None);
    hide DeclareConstant;
    ObjectRecorded(p, s);
  }

  lemma ObjectRecorded(p: Program, s: Store)
    requires AtRest(p, s)
    requires s == Cleared(RecordName(AddMember(AddDefinition(Redeclare(BuiltIn(), 1, Class), OBJECT, ClassDef(None, [])),
                                               OBJECT, 13, OBJECT), 3, OBJECT))
    ensures ObjectKnown(p, s)
  {
    hide AtRest;
    assert Redeclare(BuiltIn(), 1, Class) == BuiltIn();
    assert s.g.ns == BuiltIn().g.ns;
  }

  ghost predicate PlaceholderKnown(p: Program, s: Store) {
    && AtRest(p, s)
    && 10 in s.src.kinds && s.src.kinds[10] == Todo && A in s.g.ns && OnlyMember(s, 10, OBJECT, Some(A))
    && OBJECT in FinishedIds(s.g) && Known(OBJECT) in s.g.ns[OBJECT].ancestors.ids
    && Target(s.src, 0).None? && Target(s.src, 3) == Some(OBJECT)
  }

  /** `A` is looked up in `Object` and not found. */
  lemma ScopeUnknown(p: Program, s: Store) returns (t: Store)
    requires Placeholder(p) && ObjectKnown(p, s)
    ensures 0 in p.names && Rooted(p.names, 0, p.height) && ResolveConstant(p, s, 0) == (t, NotFound(None))
    ensures Coherent(p, t) && t.src.kinds == s.src.kinds && t.src.names == s.src.names && t.members == s.members
    ensures OBJECT in FinishedIds(t.g) && Known(OBJECT) in t.g.ns[OBJECT].ancestors.ids
  {
    PlaceholderParts(p);
    ObjectParts(p, s);
    hide *;
    ScopesRooted(p, 0);
    CoherentReady(p, s);
    ObjectIsCircular(s.src, s.g);
    LinearizingIsQuiet(p, s, OBJECT);
    t := Linearized(s, OBJECT);
    NothingToLose(p, s, t);
    ChainStored(s, OBJECT);
    QuietIsCoherent(p, s, t);
    BareName(p, s, 0);
    SearchIs(p, s, OBJECT, 10);
    SameMembers(s, t, 10, OBJECT, None);
    IsFinished(AncestorsOf(s.src, s.g, OBJECT).ancestors);
    OnlyMemberFound(Snapshot(p, t), t, OBJECT, AncestorsOf(s.src, s.g, OBJECT).ancestors, 10, OBJECT, None) by {
      SnapshotMembers(p, t);
    }
    NothingRemembered(0, t, NotFound(None));
  }

  lemma ObjectParts(p: Program, s: Store)
    requires ObjectKnown(p, s)
    ensures Coherent(p, s) && Lost(s.g) == {} && OBJECT in s.g.ns && !s.g.ns[OBJECT].ancestors.Finished()
    ensures DefinitionsOf(s.src, OBJECT) == [ClassDef(None, [])] && OnlyMember(s, 10, OBJECT, None) && Target(s.src, 0).None?
  {
    hide Coherent, Lost, DefinitionsOf, Target, OnlyMember;
  }

  lemma IsFinished(chain: Ancestors)
    ensures chain.Cyclic? ==> chain.Finished()
  {
  }

  lemma SnapshotMembers(p: Program, s: Store)
    ensures Snapshot(p, s).members == s.members
  {
  }

  lemma NothingRemembered(n: NameId, s: Store, r: Resolution)
    ensures !r.Found? ==> Remembered(n, s, r) == (s, r)
  {
  }

  lemma SearchIs(p: Program, s: Store, d: DeclId, str: StringId)
    requires Coherent(p, s) && d in s.g.ns && Usable(s.src, s.g)
    ensures SearchAncestors(p, s, d, str) ==
      (Linearized(s, d), Stored.SearchChain(Snapshot(p, Linearized(s, d)), d, AncestorsOf(s.src, s.g, d).ancestors, str))
  {
    hide Coherent, Usable, Linearized, AncestorsOf, Stored.SearchChain, Looked;
  }

  lemma SameMembers(s: Store, t: Store, str: StringId, owner: DeclId, found: Option<DeclId>)
    requires OnlyMember(s, str, owner, found) && t.members == s.members
    ensures OnlyMember(t, str, owner, found)
  {
  }

  /** Where nothing can be lost, a quiet step is a calm one. */
  lemma NothingToLose(p: Program, s: Store, t: Store)
    requires Quiet(p, s, t) && Lost(s.g) == {}
    ensures Calm(s, t) && t.src.kinds == s.src.kinds && t.members == s.members
  {
    NoWeight(LevelBound(s.g));
    assert LossLeft(s.g) == 0;
    hide LossLeft, Coherent, LevelBound, Made, FinishedKept, Weight, Lost, NamesKept;
  }

  lemma ChainStored(s: Store, d: DeclId)
    requires Usable(s.src, s.g) && d in s.g.ns
    ensures d in Linearized(s, d).g.ns && Linearized(s, d).g.ns[d].ancestors == AncestorsOf(s.src, s.g, d).ancestors
    ensures d in FinishedIds(Linearized(s, d).g) <==> AncestorsOf(s.src, s.g, d).ancestors.Finished()
  {
    TopLevelStored(s.src, s.g, d);
    FlushParts(s.(g := AncestorsOf(s.src, s.g, d).g));
    hide AncestorsOf, Usable, Flush, Lost;
  }

  /** So a placeholder is made for it, and `B` is declared in there. */
  lemma PlaceholderMade(p: Program, s: Store) returns (t: Store)
    requires Placeholder(p) && ObjectKnown(p, s)
    ensures t == Follow(p, DefinitionUnit(1), s).state && PlaceholderKnown(p, t)
  {
    PlaceholderParts(p);
    var u := ScopeUnknown(p, s);
    UnknownTargets(s, u);
    hide WellFormed, Coherent, Placeholder, Rooted, Follow, HandleConstant, ResolveConstant, WrittenTag, Lost, FinishedIds,
      OnlyMember, Target, DefinitionsOf, Cleared, CreateTodo, DeclareIn, PlaceTodo;
    t := Follow(p, DefinitionUnit(1), s).state;
    StateAfter(p, 1, s);
    UnknownOwner(p, s, u);
    BareTodo(p, u);
    var (v, todo) := PlaceTodo(p, u, OBJECT, 10);
    TodoMade(p, u, v);
    DeclaredInTodo(p, v, DeclareIn(p, v, A, 1, ClassDef(None, []), None).store, t);
  }

  lemma UnknownTargets(s: Store, t: Store)
    requires t.src.names == s.src.names
    ensures forall n :: Target(t.src, n) == Target(s.src, n)
  {
  }

  lemma UnknownOwner(p: Program, s: Store, u: Store)
    requires Placeholder(p) && Coherent(p, s) && 0 in p.names && Rooted(p.names, 0, p.height)
    requires ResolveConstant(p, s, 0) == (u, NotFound(None)) && Coherent(p, u)
    ensures WellFormed(p) && 1 in p.names && Rooted(p.names, 1, p.height) && ScopeId(p.names[1].parentScope).Some?
    ensures var (v, todo) := CreateTodo(p, u, 1, p.height);
      HandleConstant(p, s, 1, ClassDef(None, [])) == DeclareIn(p, v, todo, 1, ClassDef(None, []), None)
  {
    ScopesRooted(p, 0);
    ScopesRooted(p, 1);
    hide Coherent, WellFormed, Rooted, ResolveConstant, CreateTodo, DeclareIn, WrittenTag;
    assert NameOwner(p, s, 1, false) == (u, NotFound(None));
  }

  /** The scope of `A::B` has no scope of its own, so its placeholder belongs to `Object`. */
  lemma BareTodo(p: Program, s: Store)
    requires Placeholder(p) && WellFormed(p) && Coherent(p, s) && 1 in p.names && Rooted(p.names, 1, p.height)
    requires ScopeId(p.names[1].parentScope).Some?
    ensures CreateTodo(p, s, 1, p.height) == PlaceTodo(p, s, OBJECT, 10)
  {
    PlaceholderParts(p);
    ObjectIsReady(p, s);
    NamespaceIsPrimary(p, s, OBJECT, None);
    hide Coherent, WellFormed, Rooted, PrimaryEnd, PlaceTodo, Placeholder, WrittenTag;
  }

  ghost predicate TodoKnown(s: Store) {
    && 10 in s.src.kinds && s.src.kinds[10] == Todo && 11 !in s.src.kinds && A in s.g.ns
    && OnlyMember(s, 10, OBJECT, Some(A))
    && OBJECT in FinishedIds(s.g) && Known(OBJECT) in s.g.ns[OBJECT].ancestors.ids
    && Target(s.src, 0).None? && Target(s.src, 3) == Some(OBJECT)
  }

  lemma TodoMade(p: Program, s: Store, t: Store)
    requires Placeholder(p) && Coherent(p, s) && 10 !in s.src.kinds && 11 !in s.src.kinds && OnlyMember(s, 10, OBJECT, None)
    requires OBJECT in FinishedIds(s.g) && Known(OBJECT) in s.g.ns[OBJECT].ancestors.ids
    requires Target(s.src, 0).None? && Target(s.src, 3) == Some(OBJECT)
    requires t == PlaceTodo(p, s, OBJECT, 10).0
    ensures TodoKnown(t) && PlaceTodo(p, s, OBJECT, 10).1 == A && Coherent(p, t)
  {
    PlaceholderParts(p);
    GrowsSame(p, s);
    NothingNew(s);
    TodoPlaced(p, s, s, OBJECT, 10);
    assert Placed(p, s, t, A);
    GrowsCoherent(p, s, t);
    ObjectNamespace(p, s);
    hide WellFormed, Coherent, Placeholder, WrittenTag, Placed, Grows, TodoKnown, OnlyMember, Target, FinishedIds;
    assert t == AddMember(Declare(s, 10, Todo), OBJECT, 10, A);
    TodoAdded(s, t);
  }

  lemma TodoAdded(s: Store, t: Store)
    requires 11 !in s.src.kinds && OnlyMember(s, 10, OBJECT, None)
    requires OBJECT in FinishedIds(s.g) && Known(OBJECT) in s.g.ns[OBJECT].ancestors.ids
    requires Target(s.src, 0).None? && Target(s.src, 3) == Some(OBJECT)
    requires t == AddMember(Declare(s, 10, Todo), OBJECT, 10, A)
    ensures TodoKnown(t)
  {
    forall d ensures MemberAt(t.members, Known(d), 10) == if d == OBJECT then Some(A) else None {
      assert MemberAt(s.members, Known(d), 10) == None;
    }
    assert t.src.names == s.src.names;
  }

  lemma NothingNew(s: Store)
    ensures NewAreNamespaces(s, s)
  {
  }

  lemma ObjectNamespace(p: Program, s: Store)
    requires Coherent(p, s)
    ensures IsNamespace(Declare(s, 10, Todo).src, OBJECT)
  {
    CoherentParts(p, s);
  }

  lemma DeclaredInTodo(p: Program, s: Store, t: Store, u: Store)
    requires Placeholder(p) && Coherent(p, s) && TodoKnown(s) && 1 in p.names && AtRest(p, u)
    requires t == DeclareIn(p, s, A, 1, ClassDef(None, []), None).store && u == Cleared(t)
    ensures PlaceholderKnown(p, u)
  {
    PlaceholderParts(p);
    assert 11 !in s.src.kinds && A in s.g.ns;
    hide WellFormed, Coherent, Placeholder, WrittenTag, TodoKnown, OnlyMember, PlaceholderKnown, AddDefinition, AddMember;
    OwnerIsReady(p, s, A);
    DeclareInIs(p, s, A, 1, ClassDef(None, []), None);
    DeclareConstantParts(p, s, A, 1, 11, ClassDef(None, []), None);
    assert Redeclare(s, 11, Class) == Declare(s, 11, Class);
    hide DeclareIn, DeclareConstant, Redeclare;
    BAdded(p, s, u);
  }

  lemma BAdded(p: Program, s: Store, u: Store)
    requires TodoKnown(s) && AtRest(p, u)
    requires u == Cleared(RecordName(
      AddMember(AddDefinition(Declare(s, 11, Class), Named(11), ClassDef(None, [])), A, 11, Named(11)), 1, Named(11)))
    ensures PlaceholderKnown(p, u)
  {
    var t := AddDefinition(Declare(s, 11, Class), Named(11), ClassDef(None, []));
    var v := AddMember(t, A, 11, Named(11));
    assert OnlyMember(t, 10, OBJECT, Some(A)) by { SameMembers(s, t, 10, OBJECT, Some(A)); }
    MemberElsewhere(t, A, 11, Named(11), 10, OBJECT, Some(A));
    SameMembers(v, u, 10, OBJECT, Some(A)) by { Recorded(v, 1, Named(11)); }
    Recorded(v, 1, Named(11));
    hide AtRest, RecordName, OnlyMember, AddMember;
    AddedGraph(t, v, A, 11, Named(11));
  }

  lemma AddedGraph(s: Store, t: Store, owner: DeclId, str: StringId, d: DeclId)
    requires t == AddMember(s, owner, str, d)
    ensures t.g == s.g && t.src == s.src
  {
  }

  lemma MemberElsewhere(s: Store, d: DeclId, str: StringId, e: DeclId, other: StringId, owner: DeclId, found: Option<DeclId>)
    requires OnlyMember(s, other, owner, found) && str != other
    ensures OnlyMember(AddMember(s, d, str, e), other, owner, found)
  {
    assert MemberAt(s.members, Known(d), other) == if d == owner then found else None;
    forall x ensures MemberAt(AddMember(s, d, str, e).members, Known(x), other) == if x == owner then found else None {
      assert MemberAt(s.members, Known(x), other) == if x == owner then found else None;
    }
  }

  ghost predicate ClassKnown(p: Program, s: Store) {
    && AtRest(p, s)
    && 10 in s.src.kinds && s.src.kinds[10] == Todo && A in s.g.ns && SingletonOf(A, None) in s.g.ns
    && OBJECT in s.g.ns && Target(s.src, 3) == Some(OBJECT)
  }

  /** `class << A` finds the placeholder and gives it a singleton class. */
  lemma ClassWrittenOut(p: Program, s: Store) returns (t: Store)
    requires Placeholder(p) && PlaceholderKnown(p, s)
    ensures t == Follow(p, DefinitionUnit(2), s).state && ClassKnown(p, t)
  {
    PlaceholderParts(p);
    var u := ScopeFound(p, s);
    hide WellFormed, Coherent, Placeholder, Rooted, Follow, HandleConstant, ResolveConstant, WrittenTag, Lost, FinishedIds,
      OnlyMember, Target, Cleared, DeclareIn, NameOwner;
    t := Follow(p, DefinitionUnit(2), s).state;
    StateAfter(p, 2, s);
    FoundOwner(p, s, u);
    HandleOwned(p, s, 2, SingletonClassDef([]), u, A);
    OwnerIsReady(p, u, A);
    DeclareInIs(p, u, A, 2, SingletonClassDef([]), None);
    DeclareSingletonParts(p, u, A, 2, 12, SingletonClassDef([]), None);
    ClassAdded(p, u, DeclareSingleton(p, u, A, 2, 12, SingletonClassDef([]), None).store, t);
  }

  /** `A` is looked up in `Object` and found. */
  lemma ScopeFound(p: Program, s: Store) returns (t: Store)
    requires Placeholder(p) && PlaceholderKnown(p, s)
    ensures 0 in p.names && Rooted(p.names, 0, p.height) && ResolveConstant(p, s, 0) == (t, Found(A, None))
    ensures Coherent(p, t) && t.src.kinds == s.src.kinds && s.g.ns.Keys <= t.g.ns.Keys
    ensures Target(t.src, 3) == Target(s.src, 3)
  {
    PlaceholderParts(p);
    hide WellFormed, Coherent, Placeholder, Rooted, SearchAncestors, ResolveConstant, AncestorsOf, Linearized, FinishedIds,
      LossLeft, Calm, Quiet, Lost, Target, DefinitionsOf, OnlyMember, Usable, Intact, WrittenTag, RecordName;
    ScopesRooted(p, 0);
    CoherentReady(p, s);
    FinishedExists(s, OBJECT);
    LinearizingIsQuiet(p, s, OBJECT);
    var u := Linearized(s, OBJECT);
    QuietIsCoherent(p, s, u);
    QuietKeys(p, s, u);
    CalmMembers(s, u);
    BareName(p, s, 0);
    SearchIs(p, s, OBJECT, 10);
    SameMembers(s, u, 10, OBJECT, Some(A));
    OnlyMemberFound(Snapshot(p, u), u, OBJECT, AncestorsOf(s.src, s.g, OBJECT).ancestors, 10, OBJECT, Some(A));
    t := RecordName(u, 0, A);
    Recorded(u, 0, A);
    ResolveConstantSettles(p, s, 0);
    SettledCoherent(p, s, 0);
  }

  lemma FinishedExists(s: Store, d: DeclId)
    requires d in FinishedIds(s.g)
    ensures d in s.g.ns && s.g.ns[d].ancestors.Finished()
  {
  }

  lemma SettledCoherent(p: Program, s: Store, n: NameId)
    requires Coherent(p, s) && n in p.names && Rooted(p.names, n, p.height)
    requires var (t, r) := ResolveConstant(p, s, n); Resolves(p, s, n, t, r)
    ensures Coherent(p, ResolveConstant(p, s, n).0)
  {
    hide Coherent, ResolveConstant, Looked;
  }

  lemma FoundOwner(p: Program, s: Store, u: Store)
    requires Placeholder(p) && Coherent(p, s) && 0 in p.names && Rooted(p.names, 0, p.height)
    requires ResolveConstant(p, s, 0) == (u, Found(A, None)) && Coherent(p, u) && A in u.g.ns
    ensures WellFormed(p) && 2 in p.names && NameOwner(p, s, 2, true) == (u, Found(A, None))
  {
    PlaceholderParts(p);
    ScopesRooted(p, 2);
    NamespaceIsPrimary(p, u, A, None);
    hide Coherent, WellFormed, Rooted, ResolveConstant, PrimaryEnd, WrittenTag, Placeholder;
  }

  lemma ClassAdded(p: Program, s: Store, t: Store, u: Store)
    requires 10 in s.src.kinds && s.src.kinds[10] == Todo && A in s.g.ns && OBJECT in s.g.ns && Target(s.src, 3) == Some(OBJECT)
    requires t == RecordName(
        AddDefinition(LinkTo(s, A, None), SingletonOf(A, None), SingletonClassDef([])), 2, SingletonOf(A, None))
    requires u == Cleared(t) && AtRest(p, u)
    ensures ClassKnown(p, u)
  {
    var v := AddDefinition(LinkTo(s, A, None), SingletonOf(A, None), SingletonClassDef([]));
    Recorded(v, 2, SingletonOf(A, None));
    hide AtRest, RecordName;
  }

  /** `class A` in `Object` takes the place of the placeholder, and its singleton class is lost. */
  lemma SingletonLost(p: Program, s: Store) returns (t: Store)
    requires Placeholder(p) && ClassKnown(p, s)
    ensures t == Follow(p, DefinitionUnit(3), s).state && A in Lost(t.g)
  {
    PlaceholderParts(p);
    hide WellFormed, Coherent, Placeholder, Rooted, Follow, HandleConstant, WrittenTag, Lost, Target, Cleared, DeclareIn,
      NameOwner;
    t := Follow(p, DefinitionUnit(3), s).state;
    StateAfter(p, 3, s);
    NestedOwner(p, s);
    HandleOwned(p, s, 4, ClassDef(None, []), s, OBJECT);
    ObjectIsReady(p, s);
    DeclareInIs(p, s, OBJECT, 4, ClassDef(None, []), None);
    DeclareConstantParts(p, s, OBJECT, 4, 10, ClassDef(None, []), None);
    assert Promotes(s, 10, Class);
    PromotionLoses(s, 10, Class);
    assert Redeclare(s, 10, Class) == Declare(s, 10, Class);
    hide DeclareConstant, Redeclare, Declare;
    LostInCleared(DeclareConstant(p, s, OBJECT, 4, 10, ClassDef(None, []), None).store, Declare(s, 10, Class));
  }

  lemma LostInCleared(s: Store, t: Store)
    requires s.g == t.g
    ensures Lost(Cleared(s).g) == Lost(t.g)
  {
  }

  lemma NestedOwner(p: Program, s: Store)
    requires Placeholder(p) && ClassKnown(p, s)
    ensures WellFormed(p) && 4 in p.names && NameOwner(p, s, 4, false) == (s, Found(OBJECT, None))
  {
    PlaceholderParts(p);
    NamespaceIsPrimary(p, s, OBJECT, None);
    hide Coherent, WellFormed, PrimaryEnd, WrittenTag, Placeholder, Target, Rooted;
  }

  const PLACEHOLDER_QUEUE := [DefinitionUnit(0), DefinitionUnit(1), DefinitionUnit(2), DefinitionUnit(3)]

  lemma PlaceholderRuns(p: Program)
    requires Placeholder(p)
    ensures Runs(p, PLACEHOLDER_QUEUE)
  {
    PlaceholderParts(p);
    BuiltInAtRest(p);
    hide WellFormed, AtRest, WrittenTag;
  }

  /** The first pass of the run comes through a state in which `A` is a class without link to its singleton class, which
      exists: the next one to ask for it will overwrite it. */
  lemma PlaceholderLosesSingleton(p: Program) returns (q: Pass<Store>)
    requires Placeholder(p)
    ensures Runs(p, PLACEHOLDER_QUEUE)
    ensures RunPass(HandlingOf(p), Pass(PLACEHOLDER_QUEUE, [], BuiltIn(), [], false)) == RunPass(HandlingOf(p), q)
    ensures PassFits(HandlingOf(p), q) && q.left == [] && A in Lost(q.state.g)
  {
    PlaceholderParts(p);
    PlaceholderRuns(p);
    assert forall u | u in PLACEHOLDER_QUEUE :: KnownUnit(p, u);
    hide *;
    q := FourUnits(p, PLACEHOLDER_QUEUE);
    var s1 := ObjectDefined(p);
    var s2 := PlaceholderMade(p, s1);
    var s3 := ClassWrittenOut(p, s2);
    var s4 := SingletonLost(p, s3);
  }

  /** What asking for a lost singleton class does: whatever chain it had is gone. */
  lemma LostIsOverwritten(s: Store, d: DeclId)
    requires d in Lost(s.g)
    ensures var (t, c) := SingletonOfNamespace(s, d);
      && c == Some(SingletonOf(d, None)) && t.g.ns[c.value] == EMPTY_NAMESPACE && d !in Lost(t.g)
      && DefinitionsOf(t.src, c.value) == []
  {
  }
}
