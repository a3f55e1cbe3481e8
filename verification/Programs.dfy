/** What the resolver works on: the definitions and references of a program, and the declarations made of
    them so far. */
module Programs {
  import opened Declarations
  import opened Names
  import opened NameDepths
  import opened Aliases
  import opened Graphs
  import opened Links
  import opened Hierarchy
  import opened Linearization
  import opened Lookups

  /** A definition that takes part in the loop: of a constant, or of a method with a `self` receiver inside the
      definition of `receiver`. */
  datatype Task =
    | ConstantTask(name: NameId, definition: Definition)
    | SelfMethodTask(receiver: NameId, str: StringId)

  /** Declaration ids are hashes of qualified names: `key` and `methodKey` are those of a constant or a method `str`
      in `owner`, `segment` is the last segment of the name of a constant, and `wrap` puts angle brackets around a
      segment. */
  datatype Program = Program(
    names: map<NameId, Name>,
    height: nat,
    tasks: map<nat, Task>,
    references: map<nat, NameId>,
    key: (DeclId, StringId) -> nat,
    methodKey: (DeclId, StringId) -> nat,
    segment: nat -> StringId,
    wrap: StringId -> StringId)

  datatype Store = Store(src: Source, g: Graph, members: Members)

  /** The last segment of the name of a declaration. */
  function Segment(p: Program, d: DeclId): StringId {
    match d
    case Named(k) => p.segment(k)
    case SingletonOf(_, Some(str)) => str
    case SingletonOf(a, None) => p.wrap(Segment(p, a))
  }

  /** How the singleton class of `owner` is tagged if it is written out as `str`. It has the name of the one made on
      the fly if that is its segment; `Object` is no prefix when a declaration is written out. */
  function WrittenTag(p: Program, owner: DeclId, str: StringId): Option<StringId> {
    if owner != OBJECT && str == p.wrap(Segment(p, owner)) then None else Some(str)
  }

  /** The k-th singleton class made on the fly. */
  function OnTheFly(k: nat, d: DeclId): DeclId {
    if k == 0 then d else SingletonOf(OnTheFly(k - 1, d), None)
  }

  function Wrapped(p: Program, k: nat, str: StringId): StringId {
    if k == 0 then str else p.wrap(Wrapped(p, k - 1, str))
  }

  lemma {:induction false} SegmentOfSingletons(p: Program, k: nat, d: DeclId)
    ensures Segment(p, OnTheFly(k, d)) == Wrapped(p, k, Segment(p, d))
    decreases k
  {
    if k > 0 { SegmentOfSingletons(p, k - 1, d); }
  }

  /** Over any number of singleton classes made on the fly, the one written out as `str` is the next of these exactly if
      that is the name of the innermost object in as many brackets, and never for `Object` itself. */
  lemma TagExactly(p: Program, k: nat, d: DeclId, str: StringId)
    requires d.Named? || d.tag.Some?
    ensures WrittenTag(p, OnTheFly(k, d), str) == None <==>
      OnTheFly(k, d) != OBJECT && str == Wrapped(p, k + 1, if d.Named? then p.segment(d.key) else d.tag.value)
    ensures WrittenTag(p, OnTheFly(k, d), str) in {None, Some(str)}
  {
    SegmentOfSingletons(p, k, d);
  }

  predicate Plain(p: Program, n: NameId) {
    n in p.names ==> !p.names[n].parentScope.Attached?
  }

  /** Superclasses and alias targets are written as constant paths. */
  predicate PlainDefinition(p: Program, def: Definition) {
    && (def.ClassDef? && def.superclass.Some? ==> Plain(p, def.superclass.value))
    && (def.ConstantAliasDef? ==> Plain(p, def.target))
  }

  function KindFor(def: Definition): Kind {
    match def
    case ClassDef(_, _) => Class
    case SingletonClassDef(_) => SingletonClass
    case ModuleDef(_) => Module
    case ConstantDef(_) => Constant
    case ConstantAliasDef(_) => ConstantAlias
    case OtherDef => OtherKind
  }

  /** What indexing guarantees: names are built from names, and singleton classes are those with an attached name. */
  ghost predicate WellFormed(p: Program) {
    && (forall n | n in p.names :: Rooted(p.names, n, p.height))
    && (forall id | id in p.references :: p.references[id] in p.names)
    && (forall id | id in p.tasks :: WellFormedTask(p, p.tasks[id]))
  }

  predicate WellFormedTask(p: Program, task: Task) {
    match task
    case ConstantTask(name, def) =>
      && name in p.names && PlainDefinition(p, def)
      && (def.SingletonClassDef? <==> p.names[name].parentScope.Attached?)
    case SelfMethodTask(receiver, _) => receiver in p.names
  }

  // ---- what every step keeps ----

  ghost predicate MembersNamed(src: Source, members: Members) {
    forall d, n | d in members && n in members[d] :: members[d][n].Named? && Declared(src, members[d][n])
  }

  ghost predicate NamesPlain(p: Program, src: Source) {
    forall n | n in src.names && src.names[n].Resolved? ::
      n in p.names && (Plain(p, n) ==> src.names[n].declaration.Named?)
  }

  ghost predicate DefinitionsPlain(p: Program, src: Source) {
    forall d | d in src.definitions :: forall i | 0 <= i < |src.definitions[d]| :: PlainDefinition(p, src.definitions[d][i])
  }

  /** What is queued exists. */
  ghost predicate QueueExists(g: Graph) {
    forall d | d in g.queue :: d in g.ns
  }

  ghost predicate Coherent(p: Program, s: Store) {
    && Valid(s.src, s.g)
    && QueueExists(s.g) && s.g.reset == []
    && MembersNamed(s.src, s.members)
    && NamesPlain(p, s.src)
    && DefinitionsPlain(p, s.src)
  }

  /** Superclasses are ordinary because constant paths only lead to constants. */
  lemma PlainMeansOrdinary(p: Program, src: Source)
    requires NamesPlain(p, src) && DefinitionsPlain(p, src)
    ensures OrdinarySuperclasses(src)
  {
    forall d, i | d in src.definitions && 0 <= i < |src.definitions[d]| ensures OrdinarySuperclass(src, src.definitions[d][i]) {
      var def := src.definitions[d][i];
      assert PlainDefinition(p, def);
      if def.ClassDef? && def.superclass.Some? && Target(src, def.superclass.value).Some? {
        PlainNamespace(p, src, def.superclass.value);
      }
    }
  }

  lemma PlainNamespace(p: Program, src: Source, n: NameId)
    requires NamesPlain(p, src) && DefinitionsPlain(p, src) && Plain(p, n) && Target(src, n).Some?
    ensures var m := ResolveToNamespace(src, Target(src, n).value);
      Target(src, n).value.Named? && (m.Some? ==> m.value.Named?)
  {
    var t := Target(src, n).value;
    assert t.Named?;
    WalkNamed(p, src, [t], {});
    FirstNamespaceIn(src, AliasChains(src, t));
  }

  lemma {:induction false} WalkNamed(p: Program, src: Source, queue: seq<DeclId>, seen: set<DeclId>)
    requires NamesPlain(p, src) && DefinitionsPlain(p, src)
    requires forall d | d in queue :: d.Named?
    ensures forall d | d in Walk(src, queue, seen) :: d.Named?
    decreases |AliasIds(src) - seen|, |queue|
  {
    hide NamesPlain, DefinitionsPlain, AliasIds, AliasTargets;
    if queue != [] && queue[0] !in seen { SeenShrinks(src, seen, queue[0]); }
    if queue == [] {
    } else if queue[0] in seen {
      WalkNamed(p, src, queue[1..], seen);
    } else if IsEnd(src, queue[0]) {
      WalkNamed(p, src, queue[1..], seen + {queue[0]});
    } else {
      TargetsNamed(p, src, queue[0]);
      WalkNamed(p, src, queue[1..] + AliasTargets(src, queue[0]), seen + {queue[0]});
    }
  }

  lemma TargetsNamed(p: Program, src: Source, d: DeclId)
    requires NamesPlain(p, src) && DefinitionsPlain(p, src)
    ensures forall x | x in AliasTargets(src, d) :: x.Named?
  {
    TargetsFromNamed(p, src, DefinitionsOf(src, d), []);
  }

  lemma {:induction false} TargetsFromNamed(p: Program, src: Source, defs: seq<Definition>, found: seq<DeclId>)
    requires NamesPlain(p, src) && forall i | 0 <= i < |defs| :: PlainDefinition(p, defs[i])
    requires forall x | x in found :: x.Named?
    ensures forall x | x in TargetsFrom(src, defs, found) :: x.Named?
    decreases |defs|
  {
    if defs != [] {
      assert PlainDefinition(p, defs[0]);
      if defs[0].ConstantAliasDef? && Target(src, defs[0].target).Some? {
        var t := Target(src, defs[0].target).value;
        assert t.Named?;
        TargetsFromNamed(p, src, defs[1..], if t in found then found else found + [t]);
      } else {
        TargetsFromNamed(p, src, defs[1..], found);
      }
    }
  }

  lemma CoherentReady(p: Program, s: Store)
    requires Coherent(p, s)
    ensures Usable(s.src, s.g)
    ensures Lost(s.g) == {} ==> Ready(s.src, s.g)
  {
    PlainMeansOrdinary(p, s.src);
  }

  // ---- the changes a step is made of ----

  /** `record_resolved_name`: a name that is resolved stays as it is. */
  function RecordName(s: Store, n: NameId, d: DeclId): Store {
    if Target(s.src, n).Some? then s else s.(src := s.src.(names := s.src.names[n := Resolved(d)]))
  }

  /** `add_member` */
  function AddMember(s: Store, owner: DeclId, str: StringId, d: DeclId): Store {
    s.(members := s.members[owner := (if owner in s.members then s.members[owner] else map[])[str := d]])
  }

  /** `add_definition` */
  function AddDefinition(s: Store, d: DeclId, def: Definition): Store {
    s.(src := s.src.(definitions := s.src.definitions[d := DefinitionsOf(s.src, d) + [def]]))
  }

  /** A declaration of the given kind, new or in place of another one; as a namespace it has no chain, no
      descendants and no link to a singleton class. */
  function Declare(s: Store, k: nat, kind: Kind): Store {
    var ns := if kind in {Class, Module, Todo} then s.g.ns[Named(k) := EMPTY_NAMESPACE] else s.g.ns;
    s.(src := s.src.(kinds := s.src.kinds[k := kind], written := s.src.written - {Named(k)}), g := s.g.(ns := ns))
  }

  /** What replacing a declaration needs: a constant or a placeholder becomes a class or a module. */
  predicate Replaceable(s: Store, k: nat, kind: Kind) {
    k in s.src.kinds ==> s.src.kinds[k] in {Constant, Todo} && kind in {Class, Module}
  }

  /** What had been defined in the singleton classes that were overwritten is gone. */
  function Flush(s: Store): Store {
    var kept := s.src.(
      definitions := map d | d in s.src.definitions && d !in s.g.reset :: s.src.definitions[d],
      written := map d | d in s.src.written && d !in s.g.reset :: s.src.written[d]);
    Store(kept, s.g.(reset := []), map d | d in s.members && d !in s.g.reset :: s.members[d])
  }

  /** What a traversal still reads of the definitions is what is left when it is over. */
  lemma ReadsWhatIsLeft(s: Store, d: DeclId)
    ensures MixinsNow(s.src, s.g, d) == MixinList(Flush(s).src, d)
    ensures LabelNow(s.src, s.g, d) == LabelOf(Flush(s).src, d)
  {
    assert forall x :: DefinitionsNow(s.src, s.g, x) == DefinitionsOf(Flush(s).src, x);
  }

  lemma FlushNothing(s: Store)
    ensures s.g.reset == [] ==> Flush(s) == s
  {
    if s.g.reset == [] {
      var t := Flush(s);
      assert t.src.definitions == s.src.definitions && t.src.written == s.src.written && t.members == s.members;
    }
  }

  lemma FlushParts(s: Store)
    ensures var t := Flush(s);
      && t.src.kinds == s.src.kinds && t.src.labels == s.src.labels && t.src.names == s.src.names
      && t.g.ns == s.g.ns && t.g.queue == s.g.queue && t.g.reset == [] && Lost(t.g) == Lost(s.g)
  {
  }

  lemma FlushValid(s: Store)
    requires Valid(s.src, s.g)
    ensures Valid(Flush(s).src, Flush(s).g)
  {
    FlushSource(s);
    FlushLinks(s);
    FlushParts(s);
    SameChainsExist(s.g, Flush(s).g);
    hide WellFormedSource, NamedExist, SingletonsLinked, ReferencesExist, ChainsExist, Flush, Lost;
  }

  lemma FlushSource(s: Store)
    requires WellFormedSource(s.src) && NamedExist(s.src, s.g) && ReferencesExist(s.src, s.g)
    ensures WellFormedSource(Flush(s).src) && NamedExist(Flush(s).src, Flush(s).g) && ReferencesExist(Flush(s).src, Flush(s).g)
  {
    DeclaredAlike(s.src, Flush(s).src);
  }

  lemma FlushLinks(s: Store)
    requires SingletonsLinked(s.src, s.g)
    ensures SingletonsLinked(Flush(s).src, Flush(s).g)
  {
    var t := Flush(s);
    forall d | d in t.g.ns ensures LinkFits(t.src, t.g, d) {
      assert LinkFits(s.src, s.g, d);
      assert LabelNow(t.src, t.g, d) == LabelNow(s.src, s.g, d);
    }
  }

  /** After a traversal. */
  lemma TraversedCoherent(p: Program, s: Store, h: Graph)
    requires Coherent(p, s) && Usable(s.src, h) && QueueExists(h)
    ensures Coherent(p, Flush(s.(g := h)))
  {
    var t := s.(g := h);
    FlushValid(t);
    FlushParts(t);
    DeclaredAlike(s.src, Flush(t).src);
    hide Valid, OrdinarySuperclasses;
    var u := Flush(t);
    assert MembersNamed(u.src, u.members) by { hide NamesPlain, DefinitionsPlain; }
    assert NamesPlain(p, u.src) && DefinitionsPlain(p, u.src) by { hide MembersNamed; }
  }

  lemma RecordNameValid(s: Store, n: NameId, d: DeclId)
    requires Valid(s.src, s.g) && Declared(s.src, d) && (d.SingletonOf? ==> d in s.g.ns)
    ensures Valid(RecordName(s, n, d).src, s.g)
  {
    NameRecordedSource(s, n, d);
    SameKindsExist(s.src, RecordName(s, n, d).src, s.g);
    SameWritten(s.src, RecordName(s, n, d).src, s.g);
    hide WellFormedSource, NamedExist, SingletonsLinked, ReferencesExist, ChainsExist, RecordName;
  }

  lemma SameWritten(src: Source, src': Source, g: Graph)
    requires SingletonsLinked(src, g) && src'.written == src.written
    ensures SingletonsLinked(src', g)
  {
    forall d | d in g.ns ensures LinkFits(src', g, d) { assert LinkFits(src, g, d); }
    hide LinkFits;
  }

  lemma NameRecordedSource(s: Store, n: NameId, d: DeclId)
    requires WellFormedSource(s.src) && ReferencesExist(s.src, s.g)
    requires Declared(s.src, d) && (d.SingletonOf? ==> d in s.g.ns)
    ensures var t := RecordName(s, n, d);
      WellFormedSource(t.src) && ReferencesExist(t.src, s.g) && t.src.kinds == s.src.kinds && t.src.labels == s.src.labels
  {
    var t := RecordName(s, n, d);
    DeclaredAlike(s.src, t.src);
  }

  lemma SameKindsExist(src: Source, src': Source, g: Graph)
    requires NamedExist(src, g) && src'.kinds == src.kinds && src'.labels == src.labels
    ensures NamedExist(src', g)
  {
    DeclaredAlike(src, src');
  }

  lemma RecordNameCoherent(p: Program, s: Store, n: NameId, d: DeclId)
    requires Coherent(p, s) && n in p.names && Declared(s.src, d)
    requires if d.Named? then true else !Plain(p, n) && d in s.g.ns
    ensures Coherent(p, RecordName(s, n, d))
  {
    RecordNameValid(s, n, d);
    RecordedParts(p, s, n, d);
    hide Valid, MembersNamed, NamesPlain, DefinitionsPlain;
  }

  lemma RecordedParts(p: Program, s: Store, n: NameId, d: DeclId)
    requires MembersNamed(s.src, s.members) && NamesPlain(p, s.src) && DefinitionsPlain(p, s.src)
    requires n in p.names && (d.Named? || !Plain(p, n))
    ensures var t := RecordName(s, n, d);
      MembersNamed(t.src, t.members) && NamesPlain(p, t.src) && DefinitionsPlain(p, t.src)
  {
    var t := RecordName(s, n, d);
    DeclaredAlike(s.src, t.src);
    hide PlainDefinition, Plain, Declared;
  }

  lemma AddMemberCoherent(p: Program, s: Store, owner: DeclId, str: StringId, d: DeclId)
    requires Coherent(p, s) && d.Named? && Declared(s.src, d)
    ensures Coherent(p, AddMember(s, owner, str, d))
  {
  }

  lemma DefinitionsDoNotMatter(src: Source, src': Source, g: Graph)
    requires Valid(src, g) && src'.(definitions := src.definitions) == src
    ensures Valid(src', g)
  {
    SameKindsExist(src, src', g);
    assert SingletonsLinked(src', g) by { SameWritten(src, src', g); }
    hide SingletonsLinked, ChainsExist, NamedExist;
    DeclaredAlike(src, src');
  }

  lemma AddDefinitionCoherent(p: Program, s: Store, d: DeclId, def: Definition)
    requires Coherent(p, s) && PlainDefinition(p, def)
    ensures Coherent(p, AddDefinition(s, d, def))
  {
    var t := AddDefinition(s, d, def);
    DefinitionsDoNotMatter(s.src, t.src, s.g);
    hide Valid, PlainDefinition;
    assert MembersNamed(t.src, t.members) by { hide NamesPlain, DefinitionsPlain; }
    assert NamesPlain(p, t.src) by { hide MembersNamed, DefinitionsPlain; }
    hide MembersNamed, NamesPlain;
    forall x, i | x in t.src.definitions && 0 <= i < |t.src.definitions[x]| ensures PlainDefinition(p, t.src.definitions[x][i]) {
      if x == d && i < |DefinitionsOf(s.src, d)| { assert d in s.src.definitions; }
    }
  }

  lemma DeclareValid(s: Store, k: nat, kind: Kind)
    requires Valid(s.src, s.g) && kind != SingletonClass && Replaceable(s, k, kind) && s.g.reset == []
    ensures Valid(Declare(s, k, kind).src, Declare(s, k, kind).g)
  {
    DeclaredSource(s, k, kind);
    DeclaredNamespaces(s, k, kind);
    if Named(k) in s.g.ns { assert Declared(s.src, Named(k)); }
    DeclaredLinks(s, k, kind);
    DeclaredChains(s, k, kind);
    hide WellFormedSource, NamedExist, SingletonsLinked, ReferencesExist, ChainsExist, Declare, Replaceable;
  }

  lemma DeclaredSource(s: Store, k: nat, kind: Kind)
    requires WellFormedSource(s.src) && ReferencesExist(s.src, s.g) && kind != SingletonClass && Replaceable(s, k, kind)
    ensures WellFormedSource(Declare(s, k, kind).src) && ReferencesExist(Declare(s, k, kind).src, Declare(s, k, kind).g)
  {
    var t := Declare(s, k, kind);
    assert s.g.ns.Keys <= t.g.ns.Keys;
    DeclaredMore(s.src, t.src);
  }

  lemma DeclaredChains(s: Store, k: nat, kind: Kind)
    requires ChainsExist(s.g)
    ensures ChainsExist(Declare(s, k, kind).g)
  {
    var t := Declare(s, k, kind);
    forall d | d in t.g.ns ensures Existing(t.g, t.g.ns[d].ancestors.ids) {
      if d in s.g.ns { assert Existing(s.g, s.g.ns[d].ancestors.ids); }
    }
  }

  lemma DeclaredNamespaces(s: Store, k: nat, kind: Kind)
    requires Valid(s.src, s.g) && kind != SingletonClass && Replaceable(s, k, kind)
    ensures NamedExist(Declare(s, k, kind).src, Declare(s, k, kind).g)
  {
    var t := Declare(s, k, kind);
    DeclaredMore(s.src, t.src);
    forall d | d in t.g.ns ensures Declared(t.src, d) && IsNamespace(t.src, d) {
      if d in s.g.ns { assert Declared(s.src, d) && IsNamespace(s.src, d); }
    }
  }

  lemma DeclaredLinks(s: Store, k: nat, kind: Kind)
    requires SingletonsLinked(s.src, s.g) && s.g.reset == []
    requires Named(k) in s.g.ns ==> kind in {Class, Module, Todo}
    ensures SingletonsLinked(Declare(s, k, kind).src, Declare(s, k, kind).g)
  {
    var t := Declare(s, k, kind);
    forall d | d in t.g.ns ensures LinkFits(t.src, t.g, d) {
      if d != Named(k) { assert LinkFits(s.src, s.g, d); }
    }
    hide LinkFits;
  }

  lemma DeclareCoherent(p: Program, s: Store, k: nat, kind: Kind)
    requires Coherent(p, s) && kind != SingletonClass && Replaceable(s, k, kind)
    ensures Coherent(p, Declare(s, k, kind)) && Declared(Declare(s, k, kind).src, Named(k))
  {
    DeclareValid(s, k, kind);
    DeclaredMore(s.src, Declare(s, k, kind).src);
    hide Valid;
    var t := Declare(s, k, kind);
    assert t.src.definitions == s.src.definitions && t.src.names == s.src.names;
  }

  /** Asking for a singleton class. */
  lemma SingletonCoherent(p: Program, s: Store, d: DeclId)
    requires Coherent(p, s) && d in s.g.ns
    ensures var (g, c) := GetOrCreateSingleton(s.g, d);
      && Coherent(p, Flush(s.(g := g))) && c == SingletonClassOf(s.src, d) && c in g.ns
      && Declared(s.src, c) && s.g.ns.Keys <= g.ns.Keys
  {
    GetOrCreateSingletonValid(s.src, s.g, d);
    PlainMeansOrdinary(p, s.src);
    CreatedQueue(s.g, d);
    TraversedCoherent(p, s, GetOrCreateSingleton(s.g, d).0);
    hide Valid, GetOrCreateSingleton;
  }

  lemma CreatedQueue(g: Graph, d: DeclId)
    requires QueueExists(g) && d in g.ns
    ensures QueueExists(GetOrCreateSingleton(g, d).0)
  {
  }

  lemma CoherentQueue(p: Program, s: Store)
    requires Coherent(p, s)
    ensures QueueExists(s.g) && forall d | d in s.g.queue :: d in s.g.ns
  {
  }

  lemma QueueCoherent(p: Program, s: Store, queue: seq<DeclId>)
    requires Coherent(p, s) && forall d | d in queue :: d in s.g.ns
    ensures Coherent(p, s.(g := s.g.(queue := queue)))
  {
    var h := s.g.(queue := queue);
    assert ChainsExist(h) by { SameChainsExist(s.g, h); }
    assert SingletonsLinked(s.src, h) by { SameLinksLinked(s.src, s.g, h); }
    hide SingletonsLinked, ChainsExist, WellFormedSource, MembersNamed, NamesPlain, DefinitionsPlain;
  }

  lemma SameChainsExist(g: Graph, h: Graph)
    requires ChainsExist(g) && h.ns == g.ns
    ensures ChainsExist(h)
  {
    forall d | d in h.ns ensures Existing(h, h.ns[d].ancestors.ids) { assert Existing(g, g.ns[d].ancestors.ids); }
  }
}
