/** Definition units: where a definition belongs, the placeholders made for owners that are unknown, and the
    declaration it adds to. */
module DefinitionUnits {
  import opened Declarations
  import opened Names
  import opened NameDepths
  import opened Aliases
  import opened Graphs
  import opened Links
  import opened Hierarchy
  import opened Linearization
  import opened Lookups
  import Stored = ConstantLookups
  import opened Programs
  import opened LiveLookups
  import opened NameResolutions

  // ---- the namespace behind a declaration ----

  /** `resolve_to_primary_namespace`: the first end, which may still be a constant. */
  function PrimaryEnd(src: Source, d: DeclId, again: Option<DeclId>): Resolution {
    var ids := AliasChains(src, d);
    if ids == [] || IsAlias(src, ids[0]) then Retry(None) else Found(ids[0], again)
  }

  lemma {:induction false} WalkExists(p: Program, s: Store, queue: seq<DeclId>, seen: set<DeclId>)
    requires Coherent(p, s) && forall d | d in queue :: Exists(s, d)
    ensures forall d | d in Walk(s.src, queue, seen) :: Exists(s, d)
    decreases |AliasIds(s.src) - seen|, |queue|
  {
    hide Coherent, AliasIds, AliasTargets, Exists;
    if queue != [] && queue[0] !in seen { SeenShrinks(s.src, seen, queue[0]); }
    if queue == [] {
    } else if queue[0] in seen {
      WalkExists(p, s, queue[1..], seen);
    } else if IsEnd(s.src, queue[0]) {
      WalkExists(p, s, queue[1..], seen + {queue[0]});
    } else {
      TargetsExist(p, s, queue[0]);
      WalkExists(p, s, queue[1..] + AliasTargets(s.src, queue[0]), seen + {queue[0]});
    }
  }

  lemma TargetsExist(p: Program, s: Store, d: DeclId)
    requires Coherent(p, s)
    ensures forall x | x in AliasTargets(s.src, d) :: Exists(s, x)
  {
    TargetsAreReferences(s.src, DefinitionsOf(s.src, d), []);
    forall x | x in AliasTargets(s.src, d) ensures Exists(s, x) {
      var n :| n in s.src.names && s.src.names[n].Resolved? && s.src.names[n].declaration == x;
      TargetExists(p, s, n);
    }
  }

  /** A singleton class is no alias, so it is its own end. */
  lemma SingletonIsPrimary(src: Source, d: DeclId, again: Option<DeclId>)
    requires d.SingletonOf?
    ensures PrimaryEnd(src, d, again) == Found(d, again)
  {
    assert IsEnd(src, d);
    assert [d][1..] == [];
    assert Walk(src, [d], {}) == [d] + Walk(src, [], {d});
  }

  lemma PrimaryExists(p: Program, s: Store, d: DeclId, again: Option<DeclId>)
    requires Coherent(p, s) && Exists(s, d)
    ensures var r := PrimaryEnd(s.src, d, again);
      if r.Found? then Exists(s, r.id) && r.again == again else r == Retry(None)
  {
    hide Coherent, Exists;
    WalkExists(p, s, [d], {});
    AliasChainsIsWalk(s.src, d);
  }

  // ---- the owner of a definition ----

  /** Finding an owner either finds one or was a quiet lookup. */
  ghost predicate Owned(p: Program, s: Store, t: Store, r: Resolution) {
    && Grows(p, s, t) && t.src.kinds.Keys == s.src.kinds.Keys
    && (if r.Found? then Exists(t, r.id) else Looked(p, s, t, r))
    && (r.again.Some? ==> r.again.value in t.g.ns)
  }

  lemma QuietlyOwned(p: Program, s: Store, t: Store, r: Resolution)
    requires Looked(p, s, t, r)
    ensures Owned(p, s, t, r)
  {
    LookedSettles(p, s, t, r);
    hide Grows, Coherent, Quiet;
  }

  lemma PrimaryOwned(p: Program, s: Store, t: Store, id: DeclId, again: Option<DeclId>)
    requires Settles(p, s, t, Found(id, again))
    ensures Owned(p, s, t, PrimaryEnd(t.src, id, again))
  {
    SettledExists(p, s, t, Found(id, again));
    PrimaryExists(p, t, id, again);
    if id.SingletonOf? { SingletonIsPrimary(t.src, id, again); }
    if PrimaryEnd(t.src, id, again).Retry? { LookedPrimary(p, s, t, Found(id, again)); }
    hide Grows, Looked, Coherent, PrimaryEnd;
  }

  lemma SettledExists(p: Program, s: Store, t: Store, r: Resolution)
    requires Settles(p, s, t, r) && r.Found?
    ensures Exists(t, r.id) && Coherent(p, t)
  {
    hide Coherent, NamesKept, Quiet;
  }

  lemma LookedPrimary(p: Program, s: Store, t: Store, r: Resolution)
    requires Settles(p, s, t, r) && r.Found? && r.id.Named?
    ensures Looked(p, s, t, Retry(None))
  {
    LookedLess(p, s, t, r, Retry(None));
    hide Looked;
  }

  lemma ScopesRooted(p: Program, n: NameId)
    requires WellFormed(p) && n in p.names
    ensures Rooted(p.names, n, p.height)
    ensures ScopeId(p.names[n].parentScope).Some? ==>
      var m := ScopeId(p.names[n].parentScope).value; m in p.names && Rooted(p.names, m, p.height)
  {
    var scope := ScopeId(p.names[n].parentScope);
    if scope.Some? { assert Rooted(p.names, scope.value, p.height - 1); }
  }

  /** `name_owner_id` */
  ghost function NameOwner(p: Program, s: Store, n: NameId, singleton: bool): (r: (Store, Resolution))
    requires WellFormed(p) && Coherent(p, s) && n in p.names
  {
    hide *;
    var name := p.names[n];
    match ScopeId(name.parentScope)
    case Some(scope) =>
      ScopesRooted(p, n);
      var (t, r) := ResolveConstant(p, s, scope);
      if r.Found? then (t, PrimaryEnd(t.src, r.id, r.again))
      else if r == Retry(None) && !singleton then (t, NotFound(None))
      else (t, r)
    case None =>
      if name.nesting.Some? && !name.parentScope.TopLevel? then
        match Target(s.src, name.nesting.value)
        case Some(d) => (s, PrimaryEnd(s.src, d, None))
        case None => (s, Retry(None))
      else (s, Found(OBJECT, None))
  }

  lemma NameOwnerOwned(p: Program, s: Store, n: NameId, singleton: bool)
    requires WellFormed(p) && Coherent(p, s) && n in p.names
    ensures var (t, r) := NameOwner(p, s, n, singleton); Owned(p, s, t, r)
  {
    hide Coherent, WellFormed, Looked, Grows, Target, Rooted, PrimaryEnd, Owned, Settles, ResolveConstant, Exists;
    ScopesRooted(p, n);
    match ScopeId(p.names[n].parentScope)
    case Some(scope) =>
      ResolveConstantSettles(p, s, scope);
      var (t, r) := ResolveConstant(p, s, scope);
      ResolvedOwner(p, s, scope, t, r);
    case None =>
      NothingAsked(p, s, Retry(None));
      QuietlyOwned(p, s, s, Retry(None));
      if p.names[n].nesting.Some? && Target(s.src, p.names[n].nesting.value).Some? {
        KnownResolves(p, s, p.names[n].nesting.value);
        KnownOwner(p, s, p.names[n].nesting.value);
      }
      ObjectOwned(p, s);
  }

  lemma ObjectOwned(p: Program, s: Store)
    requires Coherent(p, s)
    ensures Owned(p, s, s, Found(OBJECT, None))
  {
    GrowsSame(p, s);
    hide Grows, SingletonsLinked, ChainsExist, NamedExist, ReferencesExist, MembersNamed,
      NamesPlain, DefinitionsPlain, QueueExists;
  }

  lemma KnownOwner(p: Program, s: Store, n: NameId)
    requires Coherent(p, s) && Target(s.src, n).Some? && Resolves(p, s, n, s, Found(Target(s.src, n).value, None))
    ensures Owned(p, s, s, PrimaryEnd(s.src, Target(s.src, n).value, None))
  {
    hide Settles, Coherent, PrimaryEnd, Owned, Target;
    PrimaryOwned(p, s, s, Target(s.src, n).value, None);
  }

  lemma ResolvedOwner(p: Program, s: Store, scope: NameId, t: Store, r: Resolution)
    requires Resolves(p, s, scope, t, r)
    ensures r.Found? ==> Owned(p, s, t, PrimaryEnd(t.src, r.id, r.again))
    ensures !r.Found? ==> Owned(p, s, t, r) && (r == Retry(None) ==> Owned(p, s, t, NotFound(None)))
  {
    if r.Found? {
      PrimaryOwned(p, s, t, r.id, r.again);
    } else {
      assert Looked(p, s, t, r);
      QuietlyOwned(p, s, t, r);
      if r == Retry(None) {
        LookedLess(p, s, t, r, NotFound(None));
        QuietlyOwned(p, s, t, NotFound(None));
      }
    }
    hide Looked, Owned, PrimaryEnd;
  }

  // ---- placeholders ----

  /** What adding declarations comes to: one of them, and nothing taken away. */
  ghost predicate Placed(p: Program, s: Store, t: Store, d: DeclId) {
    Grows(p, s, t) && Exists(t, d) && NewAreNamespaces(s, t)
  }

  /** Whatever is declared meanwhile is a namespace. */
  ghost predicate NewAreNamespaces(s: Store, t: Store) {
    forall k | k in t.src.kinds && k !in s.src.kinds :: Named(k) in t.g.ns
  }

  /** Members are only added to namespaces. */
  function AddMemberTo(s: Store, owner: DeclId, str: StringId, d: DeclId): Store {
    if IsNamespace(s.src, owner) then AddMember(s, owner, str, d) else s
  }

  /** A placeholder for `str` in `owner`, unless there is a declaration already. */
  function PlaceTodo(p: Program, s: Store, owner: DeclId, str: StringId): (Store, DeclId) {
    var k := p.key(owner, str);
    (if k in s.src.kinds then s else AddMemberTo(Declare(s, k, Todo), owner, str, Named(k)), Named(k))
  }

  /** `create_todo_for_parent`: a chain of placeholders for scopes that are unknown. */
  ghost function CreateTodo(p: Program, s: Store, n: NameId, h: nat): (r: (Store, DeclId))
    requires WellFormed(p) && Coherent(p, s) && Rooted(p.names, n, h) && ScopeId(p.names[n].parentScope).Some?
    ensures Placed(p, s, r.0, r.1)
    decreases h
  {
    hide *;
    ScopeBelow(p, n, h);
    var parent := ScopeId(p.names[n].parentScope).value;
    var owned := (
      if ScopeId(p.names[parent].parentScope).None? then (s, OBJECT)
      else
        NameOwnerOwned(p, s, parent, false);
        var (t, r) := NameOwner(p, s, parent, false);
        OwnedParts(p, s, t, r);
        if r.Found? then (t, r.id)
        else
          var (u, d) := CreateTodo(p, t, parent, h - 1);
          PlacedParts(p, s, t, u, d);
          (u, d));
    var (t, owner) := owned;
    ObjectOwned(p, s);
    OwnedParts(p, s, s, Found(OBJECT, None));
    GrowsCoherent(p, s, t);
    PrimaryExists(p, t, owner, None);
    var primary := PrimaryEnd(t.src, owner, None);
    TodoPlaced(p, s, t, if primary.Found? then primary.id else OBJECT, p.names[parent].str);
    PlaceTodo(p, t, if primary.Found? then primary.id else OBJECT, p.names[parent].str)
  }

  lemma ScopeBelow(p: Program, n: NameId, h: nat)
    requires Rooted(p.names, n, h) && ScopeId(p.names[n].parentScope).Some?
    ensures n in p.names && h > 0
    ensures var m := ScopeId(p.names[n].parentScope).value; m in p.names && Rooted(p.names, m, h - 1)
  {
  }

  lemma OwnedParts(p: Program, s: Store, t: Store, r: Resolution)
    requires Owned(p, s, t, r)
    ensures Grows(p, s, t) && Coherent(p, t) && (r.Found? ==> Exists(t, r.id)) && t.src.kinds.Keys == s.src.kinds.Keys
  {
    hide Coherent, Looked;
  }

  lemma PlacedParts(p: Program, s: Store, t: Store, u: Store, d: DeclId)
    requires Grows(p, s, t) && t.src.kinds.Keys == s.src.kinds.Keys && Placed(p, t, u, d)
    ensures Grows(p, s, u) && Exists(u, d) && NewAreNamespaces(s, u)
  {
    GrowsThen(p, s, t, u);
    hide Grows;
  }

  lemma TodoPlaced(p: Program, s: Store, t: Store, owner: DeclId, str: StringId)
    requires Grows(p, s, t) && NewAreNamespaces(s, t)
    ensures var (u, d) := PlaceTodo(p, t, owner, str); Placed(p, s, u, d)
  {
    GrowsCoherent(p, s, t);
    var k := p.key(owner, str);
    if k !in t.src.kinds {
      DeclareCoherent(p, t, k, Todo);
      DeclareGrows(p, t, k, Todo);
      MemberAdded(p, Declare(t, k, Todo), owner, str, Named(k));
      GrowsThen(p, t, Declare(t, k, Todo), PlaceTodo(p, t, owner, str).0);
      GrowsThen(p, s, t, PlaceTodo(p, t, owner, str).0);
    }
    hide Grows, Coherent, Declare, AddMemberTo;
  }

  lemma DeclareGrows(p: Program, s: Store, k: nat, kind: Kind)
    requires Coherent(p, s) && kind != SingletonClass && Replaceable(s, k, kind)
    ensures Grows(p, s, Declare(s, k, kind)) && Declared(Declare(s, k, kind).src, Named(k))
    ensures kind in {Class, Module, Todo} ==> Named(k) in Declare(s, k, kind).g.ns
  {
    DeclareCoherent(p, s, k, kind);
    hide Coherent;
  }

  lemma MemberAdded(p: Program, s: Store, owner: DeclId, str: StringId, d: DeclId)
    requires Coherent(p, s) && d.Named? && Declared(s.src, d)
    ensures var t := AddMemberTo(s, owner, str, d); Grows(p, s, t) && t.src == s.src && t.g == s.g
  {
    AddMemberCoherent(p, s, owner, str, d);
    GrowsSame(p, s);
    hide Coherent;
  }

  // ---- the declaration ----

  /** What handling a definition comes to; `isNew` tells whether it made a namespace. */
  datatype Handled = Handled(store: Store, outcome: Resolution, isNew: bool)

  /** Whether a class or module takes the place of what is declared under `k`. */
  predicate Promotes(s: Store, k: nat, kind: Kind) {
    && kind in {Class, Module} && k in s.src.kinds
    && (s.src.kinds[k] == Todo || (s.src.kinds[k] == Constant && AllPromotable(s.src, Named(k))))
  }

  /** The declaration a definition is added to. What takes the place of a placeholder starts without link to a
      singleton class, even if the placeholder had one. */
  function Redeclare(s: Store, k: nat, kind: Kind): Store {
    if k !in s.src.kinds || Promotes(s, k, kind) then Declare(s, k, kind) else s
  }

  function DeclareConstant(p: Program, s: Store, owner: DeclId, n: NameId, str: StringId, def: Definition,
                           again: Option<DeclId>): Handled {
    var k, kind := p.key(owner, str), KindFor(def);
    var t := AddDefinition(Redeclare(s, k, kind), Named(k), def);
    var u := if owner in s.g.ns then AddMember(t, owner, str, Named(k)) else t;
    Handled(RecordName(u, n, Named(k)), Found(Named(k), again),
            kind in {Class, Module} && (k !in s.src.kinds || Promotes(s, k, kind)))
  }

  /** `owner` is linked to the singleton class with that tag, which is made if it does not exist. */
  function LinkTo(s: Store, owner: DeclId, tag: Option<StringId>): Store
    requires owner in s.g.ns
  {
    var c := SingletonOf(owner, tag);
    var ns := s.g.ns[owner := s.g.ns[owner].(singleton := Some(c))];
    var src := match tag
      case None => s.src.(written := s.src.written - {owner})
      case Some(str) => s.src.(labels := s.src.labels + {str}, written := s.src.written[owner := str]);
    s.(src := src, g := s.g.(ns := if c in ns then ns else ns[c := EMPTY_NAMESPACE]))
  }

  /** A singleton class that is written out. The link moves to it; under another name than that of the one there is,
      it is a second one. */
  function DeclareSingleton(p: Program, s: Store, owner: DeclId, n: NameId, str: StringId, def: Definition,
                            again: Option<DeclId>): Handled
    requires owner in s.g.ns
  {
    var tag := WrittenTag(p, owner, str);
    var c := SingletonOf(owner, tag);
    Handled(RecordName(AddDefinition(LinkTo(s, owner, tag), c, def), n, c), Found(c, again), c !in s.g.ns)
  }

  /** A promotable constant that something is defined in becomes a module first. */
  function OwnerReady(s: Store, owner: DeclId): Store {
    if owner.Named? && KindOf(s.src, owner) == Constant && AllPromotable(s.src, owner)
    then PromoteConstant(s, owner.key) else s
  }

  function DeclareIn(p: Program, s: Store, owner: DeclId, n: NameId, def: Definition, again: Option<DeclId>): Handled
    requires n in p.names
  {
    var t := OwnerReady(s, owner);
    if !def.SingletonClassDef? then DeclareConstant(p, t, owner, n, p.names[n].str, def, again)
    else if owner in t.g.ns then DeclareSingleton(p, t, owner, n, p.names[n].str, def, again)
    else Handled(t, NotFound(None), false)
  }

  lemma UnknownOwnerHasScope(p: Program, s: Store, n: NameId, singleton: bool)
    requires WellFormed(p) && Coherent(p, s) && n in p.names
    ensures NameOwner(p, s, n, singleton).1.NotFound? ==> ScopeId(p.names[n].parentScope).Some?
  {
    hide Coherent, WellFormed, AliasChains, ResolveConstant;
  }

  /** `handle_constant_declaration` */
  ghost function HandleConstant(p: Program, s: Store, n: NameId, def: Definition): Handled
    requires WellFormed(p) && Coherent(p, s) && n in p.names
  {
    hide *;
    NameOwnerOwned(p, s, n, def.SingletonClassDef?);
    UnknownOwnerHasScope(p, s, n, def.SingletonClassDef?);
    ScopesRooted(p, n);
    var (t, r) := NameOwner(p, s, n, def.SingletonClassDef?);
    OwnedParts(p, s, t, r);
    if r.Found? then DeclareIn(p, t, r.id, n, def, r.again)
    else if r != NotFound(None) then Handled(t, r, false)
    else if def.SingletonClassDef? then Handled(t, Retry(None), false)
    else
      var (u, todo) := CreateTodo(p, t, n, p.height);
      DeclareIn(p, u, todo, n, def, None)
  }

  /** A method with a `self` receiver belongs to the singleton class of what encloses it. */
  function HandleSelfMethod(p: Program, s: Store, receiver: NameId, str: StringId): Handled {
    match Target(s.src, receiver)
    case None => Handled(s, Retry(None), false)
    case Some(d) =>
      var (t, c) := GetOrCreateSingletonClass(s, d);
      match c
      case None => Handled(t, NotFound(None), false)
      case Some(owner) =>
        var k := p.methodKey(owner, str);
        var u := AddDefinition(if k in t.src.kinds then t else Declare(t, k, OtherKind), Named(k), OtherDef);
        Handled(AddMember(u, owner, str, Named(k)), Found(owner, None), false)
  }

  // ---- what every definition keeps ----

  /** A definition unit takes no declaration away, and unless it is used up, it was a quiet lookup. */
  ghost predicate Closed(p: Program, s: Store, h: Handled) {
    && Grows(p, s, h.store)
    && (!h.outcome.Found? && h.outcome != NotFound(None) ==> Looked(p, s, h.store, h.outcome) && !h.isNew)
    && (h.outcome.again.Some? ==> h.outcome.again.value in h.store.g.ns)
    && (h.isNew ==> h.outcome.Found? && h.outcome.id in h.store.g.ns)
  }

  lemma RedeclareGrows(p: Program, s: Store, k: nat, kind: Kind)
    requires Coherent(p, s) && kind != SingletonClass
    ensures var t := Redeclare(s, k, kind);
      && t.src.names == s.src.names && Grows(p, s, t) && Declared(t.src, Named(k))
      && (kind in {Class, Module} && (k !in s.src.kinds || Promotes(s, k, kind)) ==> Named(k) in t.g.ns)
  {
    GrowsSame(p, s);
    var t := Redeclare(s, k, kind);
    if t != s {
      assert Replaceable(s, k, kind);
      DeclareGrows(p, s, k, kind);
    } else {
      assert k in s.src.kinds || t == Declare(s, k, kind);
      if k !in s.src.kinds || Promotes(s, k, kind) {
        assert Replaceable(s, k, kind);
        DeclareGrows(p, s, k, kind);
      }
    }
    hide Grows, Coherent;
  }

  lemma DefinitionGrows(p: Program, s: Store, d: DeclId, def: Definition)
    requires Coherent(p, s) && PlainDefinition(p, def)
    ensures var t := AddDefinition(s, d, def);
      && Grows(p, s, t) && t.src.kinds == s.src.kinds && t.src.labels == s.src.labels && t.src.names == s.src.names
      && t.g == s.g
  {
    AddDefinitionCoherent(p, s, d, def);
    GrowsSame(p, s);
    hide Coherent;
  }

  lemma MemberGrows(p: Program, s: Store, owner: DeclId, str: StringId, d: DeclId)
    requires Coherent(p, s) && d.Named? && Declared(s.src, d)
    ensures var t := AddMember(s, owner, str, d); Grows(p, s, t) && t.src == s.src && t.g == s.g
  {
    AddMemberCoherent(p, s, owner, str, d);
    GrowsSame(p, s);
    hide Coherent;
  }

  lemma NameGrows(p: Program, s: Store, n: NameId, d: DeclId)
    requires Coherent(p, s) && n in p.names && Exists(s, d) && (d.SingletonOf? ==> !Plain(p, n))
    ensures var t := RecordName(s, n, d); Grows(p, s, t) && t.g == s.g && Target(t.src, n).Some?
  {
    RecordNameCoherent(p, s, n, d);
    NameRecorded(s, n, d);
    hide Coherent, RecordName;
  }

  lemma DeclareConstantCloses(p: Program, s: Store, owner: DeclId, n: NameId, str: StringId, def: Definition,
                              again: Option<DeclId>)
    requires Coherent(p, s) && n in p.names && PlainDefinition(p, def) && !def.SingletonClassDef?
    requires again.Some? ==> again.value in s.g.ns
    ensures Closed(p, s, DeclareConstant(p, s, owner, n, str, def, again))
  {
    hide *;
    var k, kind := p.key(owner, str), KindFor(def);
    NotASingleton(def);
    RedeclareGrows(p, s, k, kind);
    var t := Redeclare(s, k, kind);
    DeclareConstantParts(p, s, owner, n, str, def, again);
    GrowsCoherent(p, s, t);
    DefinitionGrows(p, t, Named(k), def);
    var u := AddDefinition(t, Named(k), def);
    DeclaredStays(t.src, u.src, Named(k));
    GrowsCoherent(p, t, u);
    var v := if owner in s.g.ns then AddMember(u, owner, str, Named(k)) else u;
    MemberGrows(p, u, owner, str, Named(k));
    GrowsSame(p, u);
    GrowsCoherent(p, u, v);
    NamedExists(v, Named(k));
    NameGrows(p, v, n, Named(k));
    GrowsThen(p, s, t, u);
    GrowsThen(p, s, u, v);
    GrowsThen(p, s, v, RecordName(v, n, Named(k)));
    GrowsCoherent(p, s, RecordName(v, n, Named(k)));
    ConstantCloses(p, s, DeclareConstant(p, s, owner, n, str, def, again));
  }

  lemma NotASingleton(def: Definition)
    ensures def.SingletonClassDef? <==> KindFor(def) == SingletonClass
  {
  }

  lemma DeclaredStays(src: Source, src': Source, d: DeclId)
    requires src'.kinds == src.kinds && src'.labels == src.labels
    ensures Declared(src', d) == Declared(src, d)
  {
    DeclaredAlike(src, src');
  }

  lemma NamedExists(s: Store, d: DeclId)
    requires d.Named? && Declared(s.src, d)
    ensures Exists(s, d)
  {
  }

  /** The steps of `DeclareConstant`. */
  lemma DeclareConstantParts(p: Program, s: Store, owner: DeclId, n: NameId, str: StringId, def: Definition,
                             again: Option<DeclId>)
    ensures var h := DeclareConstant(p, s, owner, n, str, def, again);
      var k, kind := p.key(owner, str), KindFor(def);
      var t := Redeclare(s, k, kind);
      var u := AddDefinition(t, Named(k), def);
      var v := if owner in s.g.ns then AddMember(u, owner, str, Named(k)) else u;
      && h.store == RecordName(v, n, Named(k)) && h.outcome == Found(Named(k), again)
      && h.isNew == (kind in {Class, Module} && (k !in s.src.kinds || Promotes(s, k, kind)))
      && v.g == t.g && h.store.g == t.g
  {
    hide Redeclare, Promotes;
  }

  lemma ConstantCloses(p: Program, s: Store, h: Handled)
    requires h.outcome.Found? && Grows(p, s, h.store)
    requires h.outcome.again.Some? ==> h.outcome.again.value in s.g.ns
    requires h.isNew ==> h.outcome.id in h.store.g.ns
    ensures Closed(p, s, h)
  {
    hide Coherent;
  }

  lemma DeclareSingletonCloses(p: Program, s: Store, owner: DeclId, n: NameId, str: StringId, def: Definition,
                               again: Option<DeclId>)
    requires Coherent(p, s) && n in p.names && PlainDefinition(p, def) && !Plain(p, n) && owner in s.g.ns
    requires again.Some? ==> again.value in s.g.ns
    ensures Closed(p, s, DeclareSingleton(p, s, owner, n, str, def, again))
  {
    hide *;
    var tag := WrittenTag(p, owner, str);
    var c := SingletonOf(owner, tag);
    LinkGrows(p, s, owner, tag);
    var u := LinkTo(s, owner, tag);
    GrowsCoherent(p, s, u);
    DefinitionGrows(p, u, c, def);
    var v := AddDefinition(u, c, def);
    GrowsCoherent(p, u, v);
    DeclaredStays(u.src, v.src, c);
    NameGrows(p, v, n, c) by { SingletonExists(v, c); }
    GrowsThen(p, s, u, v);
    GrowsThen(p, s, v, RecordName(v, n, c));
    DeclareSingletonParts(p, s, owner, n, str, def, again);
    ConstantCloses(p, s, DeclareSingleton(p, s, owner, n, str, def, again));
  }

  lemma SingletonExists(s: Store, c: DeclId)
    requires c in s.g.ns && Declared(s.src, c)
    ensures Exists(s, c)
  {
  }

  lemma LinkGrows(p: Program, s: Store, owner: DeclId, tag: Option<StringId>)
    requires Coherent(p, s) && owner in s.g.ns
    ensures var t := LinkTo(s, owner, tag);
      && Grows(p, s, t) && SingletonOf(owner, tag) in t.g.ns && Declared(t.src, SingletonOf(owner, tag))
      && t.src.names == s.src.names
  {
    var t := LinkTo(s, owner, tag);
    CoherentParts(p, s);
    NamespaceParts(s.src, s.g, owner);
    LinkedParts(s, owner, tag);
    LinkedSource(s, owner, tag);
    LinkedNamespaces(s, owner, tag);
    LinkedLinks(s, owner, tag);
    LinkedChains(s, owner, tag);
    LinkedMembers(p, s, owner, tag);
    hide *;
    IsValid(t.src, t.g);
    IsCoherent(p, t);
    HasGrown(p, s, t);
  }

  lemma CoherentParts(p: Program, s: Store)
    requires Coherent(p, s)
    ensures Valid(s.src, s.g) && QueueExists(s.g) && s.g.reset == []
    ensures MembersNamed(s.src, s.members) && NamesPlain(p, s.src) && DefinitionsPlain(p, s.src)
    ensures WellFormedSource(s.src) && NamedExist(s.src, s.g) && SingletonsLinked(s.src, s.g)
    ensures ReferencesExist(s.src, s.g) && ChainsExist(s.g)
  {
  }

  lemma IsCoherent(p: Program, s: Store)
    requires Valid(s.src, s.g) && QueueExists(s.g) && s.g.reset == []
    requires MembersNamed(s.src, s.members) && NamesPlain(p, s.src) && DefinitionsPlain(p, s.src)
    ensures Coherent(p, s)
  {
    hide Valid;
  }

  lemma HasGrown(p: Program, s: Store, t: Store)
    requires Coherent(p, t) && s.src.kinds.Keys <= t.src.kinds.Keys && s.src.labels <= t.src.labels
    requires s.g.ns.Keys <= t.g.ns.Keys && t.src.names == s.src.names
    ensures Grows(p, s, t)
  {
    hide Coherent;
  }

  lemma LinkedParts(s: Store, owner: DeclId, tag: Option<StringId>)
    requires owner in s.g.ns && Declared(s.src, owner) && QueueExists(s.g)
    ensures var t := LinkTo(s, owner, tag);
      && t.src.kinds == s.src.kinds && s.src.labels <= t.src.labels && t.src.names == s.src.names
      && s.g.ns.Keys <= t.g.ns.Keys && t.g.reset == s.g.reset && QueueExists(t.g)
      && SingletonOf(owner, tag) in t.g.ns && Declared(t.src, SingletonOf(owner, tag))
  {
    DeclaredMore(s.src, LinkTo(s, owner, tag).src);
  }

  lemma LinkedMembers(p: Program, s: Store, owner: DeclId, tag: Option<StringId>)
    requires owner in s.g.ns && MembersNamed(s.src, s.members) && NamesPlain(p, s.src) && DefinitionsPlain(p, s.src)
    ensures var t := LinkTo(s, owner, tag);
      MembersNamed(t.src, t.members) && NamesPlain(p, t.src) && DefinitionsPlain(p, t.src)
  {
    var t := LinkTo(s, owner, tag);
    DeclaredMore(s.src, t.src);
    assert t.src.definitions == s.src.definitions && t.src.names == s.src.names && t.members == s.members;
    hide Declared, PlainDefinition, Plain;
  }

  lemma LinkedSource(s: Store, owner: DeclId, tag: Option<StringId>)
    requires WellFormedSource(s.src) && ReferencesExist(s.src, s.g) && owner in s.g.ns
    ensures WellFormedSource(LinkTo(s, owner, tag).src) && ReferencesExist(LinkTo(s, owner, tag).src, LinkTo(s, owner, tag).g)
  {
    var t := LinkTo(s, owner, tag);
    DeclaredMore(s.src, t.src);
    hide Declared;
  }

  lemma LinkedNamespaces(s: Store, owner: DeclId, tag: Option<StringId>)
    requires NamedExist(s.src, s.g) && owner in s.g.ns
    ensures NamedExist(LinkTo(s, owner, tag).src, LinkTo(s, owner, tag).g)
  {
    var t := LinkTo(s, owner, tag);
    DeclaredMore(s.src, t.src);
    forall d | d in t.g.ns ensures Declared(t.src, d) && IsNamespace(t.src, d) {
      if d in s.g.ns { assert Declared(s.src, d) && IsNamespace(s.src, d); }
      assert Declared(s.src, owner);
    }
  }

  lemma LinkedLinks(s: Store, owner: DeclId, tag: Option<StringId>)
    requires SingletonsLinked(s.src, s.g) && s.g.reset == [] && owner in s.g.ns
    ensures SingletonsLinked(LinkTo(s, owner, tag).src, LinkTo(s, owner, tag).g)
  {
    var t := LinkTo(s, owner, tag);
    forall d | d in t.g.ns ensures LinkFits(t.src, t.g, d) {
      if d in s.g.ns { assert LinkFits(s.src, s.g, d); }
    }
    hide LinkFits;
  }

  lemma LinkedChains(s: Store, owner: DeclId, tag: Option<StringId>)
    requires ChainsExist(s.g) && owner in s.g.ns
    ensures ChainsExist(LinkTo(s, owner, tag).g)
  {
    var t := LinkTo(s, owner, tag);
    forall d | d in t.g.ns ensures Existing(t.g, t.g.ns[d].ancestors.ids) {
      if d in s.g.ns { assert Existing(s.g, s.g.ns[d].ancestors.ids); }
    }
  }

  /** The steps of `DeclareSingleton`. */
  lemma DeclareSingletonParts(p: Program, s: Store, owner: DeclId, n: NameId, str: StringId, def: Definition,
                              again: Option<DeclId>)
    requires owner in s.g.ns
    ensures var h := DeclareSingleton(p, s, owner, n, str, def, again);
      var tag := WrittenTag(p, owner, str);
      && h.store == RecordName(AddDefinition(LinkTo(s, owner, tag), SingletonOf(owner, tag), def), n, SingletonOf(owner, tag))
      && h.outcome == Found(SingletonOf(owner, tag), again)
      && h.store.g == LinkTo(s, owner, tag).g
  {
    hide LinkTo, WrittenTag;
  }

  /** Whatever the owner, the definition is placed there and nothing is taken away. */
  lemma DeclareInCloses(p: Program, s: Store, owner: DeclId, n: NameId, def: Definition, again: Option<DeclId>)
    requires WellFormed(p) && Coherent(p, s) && n in p.names && WellFormedTask(p, ConstantTask(n, def))
    requires again.Some? ==> again.value in s.g.ns
    ensures Closed(p, s, DeclareIn(p, s, owner, n, def, again))
  {
    hide *;
    OwnerReadyGrows(p, s, owner);
    var t := OwnerReady(s, owner);
    GrowsCoherent(p, s, t);
    TaskParts(p, n, def);
    if !def.SingletonClassDef? {
      DeclareConstantCloses(p, t, owner, n, p.names[n].str, def, again);
    } else if owner in t.g.ns {
      DeclareSingletonCloses(p, t, owner, n, p.names[n].str, def, again);
    }
    DeclareInIs(p, s, owner, n, def, again);
    ClosedAfter(p, s, t, DeclareIn(p, s, owner, n, def, again));
  }

  lemma DeclareInIs(p: Program, s: Store, owner: DeclId, n: NameId, def: Definition, again: Option<DeclId>)
    requires n in p.names
    ensures DeclareIn(p, s, owner, n, def, again) ==
      var t := OwnerReady(s, owner);
      if !def.SingletonClassDef? then DeclareConstant(p, t, owner, n, p.names[n].str, def, again)
      else if owner in t.g.ns then DeclareSingleton(p, t, owner, n, p.names[n].str, def, again)
      else Handled(t, NotFound(None), false)
    ensures var r := DeclareIn(p, s, owner, n, def, again).outcome; r.Found? || r == NotFound(None)
  {
    hide OwnerReady, GetOrCreateSingleton, RecordName, AddDefinition, Redeclare;
  }

  lemma TaskParts(p: Program, n: NameId, def: Definition)
    requires WellFormedTask(p, ConstantTask(n, def))
    ensures n in p.names && PlainDefinition(p, def) && (def.SingletonClassDef? <==> !Plain(p, n))
  {
  }

  lemma OwnerReadyGrows(p: Program, s: Store, owner: DeclId)
    requires Coherent(p, s)
    ensures Grows(p, s, OwnerReady(s, owner))
  {
    GrowsSame(p, s);
    if owner.Named? && KindOf(s.src, owner) == Constant { PromotionGrows(p, s, owner.key); }
    hide Grows, Coherent, PromoteConstant;
  }

  /** What `t` only adds to `s` does not undo what comes after. */
  lemma ClosedAfter(p: Program, s: Store, t: Store, h: Handled)
    requires Coherent(p, t) && Grows(p, s, t)
    requires h.outcome.Found? || h.outcome == NotFound(None)
    requires Closed(p, t, h) || h == Handled(t, NotFound(None), false)
    ensures Closed(p, s, h)
  {
    GrowsSame(p, t);
    GrowsThen(p, s, t, h.store);
    hide Coherent, Grows;
  }

  lemma HandleConstantCloses(p: Program, s: Store, n: NameId, def: Definition)
    requires WellFormed(p) && Coherent(p, s) && WellFormedTask(p, ConstantTask(n, def)) && n in p.names
    ensures Closed(p, s, HandleConstant(p, s, n, def))
  {
    hide WellFormed, Coherent, WellFormedTask, NameOwner, DeclareIn, Closed, Owned, Rooted, Looked;
    NameOwnerOwned(p, s, n, def.SingletonClassDef?);
    UnknownOwnerHasScope(p, s, n, def.SingletonClassDef?);
    ScopesRooted(p, n);
    var (t, r) := NameOwner(p, s, n, def.SingletonClassDef?);
    OwnedParts(p, s, t, r);
    if r.Found? {
      OwnedAgain(p, s, t, r);
      DeclareInCloses(p, t, r.id, n, def, r.again);
      DeclareInIs(p, t, r.id, n, def, r.again);
      ClosedAfter(p, s, t, DeclareIn(p, t, r.id, n, def, r.again));
    } else {
      OwnedAgain(p, s, t, r);
      LookedLess(p, s, t, r, Retry(None));
      QuietCloses(p, s, t, r);
      QuietCloses(p, s, t, Retry(None));
      if r == NotFound(None) && !def.SingletonClassDef? {
        var (u, todo) := CreateTodo(p, t, n, p.height);
        PlacedParts(p, s, t, u, todo);
        GrowsCoherent(p, s, u);
        DeclareInCloses(p, u, todo, n, def, None);
        DeclareInIs(p, u, todo, n, def, None);
        ClosedAfter(p, s, u, DeclareIn(p, u, todo, n, def, None));
      }
    }
  }

  lemma OwnedAgain(p: Program, s: Store, t: Store, r: Resolution)
    requires Owned(p, s, t, r)
    ensures r.again.Some? ==> r.again.value in t.g.ns
    ensures !r.Found? ==> Looked(p, s, t, r)
  {
    hide Grows, Looked;
  }

  lemma QuietCloses(p: Program, s: Store, t: Store, r: Resolution)
    requires Looked(p, s, t, r) && !r.Found?
    ensures Closed(p, s, Handled(t, r, false))
  {
    LookedSettles(p, s, t, r);
    hide Looked, Grows;
  }

  lemma HandleSelfMethodCloses(p: Program, s: Store, receiver: NameId, str: StringId)
    requires Coherent(p, s)
    ensures Closed(p, s, HandleSelfMethod(p, s, receiver, str))
  {
    hide Coherent, Grows, Closed, Looked, Target, GetOrCreateSingletonClass, Declare, AddDefinition, AddMember, SingletonMade;
    NothingAsked(p, s, Retry(None));
    QuietCloses(p, s, s, Retry(None));
    if Target(s.src, receiver).Some? {
      var d := Target(s.src, receiver).value;
      GetOrCreateMade(p, s, d);
      var (t, c) := GetOrCreateSingletonClass(s, d);
      MadeGrows(p, s, t, c);
      if c.None? {
        UsedCloses(p, s, Handled(t, NotFound(None), false));
      } else {
        var k := p.methodKey(c.value, str);
        MethodPlaced(p, s, t, k, c.value, str);
        UsedCloses(p, s, HandleSelfMethod(p, s, receiver, str));
      }
    }
  }

  lemma MadeGrows(p: Program, s: Store, t: Store, c: Option<DeclId>)
    requires SingletonMade(p, s, t, c)
    ensures Grows(p, s, t) && Coherent(p, t)
  {
    hide Coherent;
  }

  lemma UsedCloses(p: Program, s: Store, h: Handled)
    requires Grows(p, s, h.store) && (h.outcome.Found? || h.outcome == NotFound(None))
    requires h.outcome.again == None && !h.isNew
    ensures Closed(p, s, h)
  {
    hide Coherent, Grows;
  }

  lemma MethodPlaced(p: Program, s: Store, t: Store, k: nat, owner: DeclId, str: StringId)
    requires Grows(p, s, t) && Coherent(p, t)
    ensures var u := AddDefinition(if k in t.src.kinds then t else Declare(t, k, OtherKind), Named(k), OtherDef);
      var v := AddMember(u, owner, str, Named(k));
      Grows(p, s, v)
  {
    hide *;
    var t1 := if k in t.src.kinds then t else Declare(t, k, OtherKind);
    MethodDeclared(p, t, k);
    GrowsCoherent(p, t, t1);
    DefinitionGrows(p, t1, Named(k), OtherDef) by { OtherIsPlain(p); }
    var u := AddDefinition(t1, Named(k), OtherDef);
    DeclaredStays(t1.src, u.src, Named(k));
    GrowsCoherent(p, t1, u);
    MemberGrows(p, u, owner, str, Named(k));
    var v := AddMember(u, owner, str, Named(k));
    GrowsThen(p, s, t, t1);
    GrowsThen(p, s, t1, u);
    GrowsThen(p, s, u, v);
  }

  lemma OtherIsPlain(p: Program)
    ensures PlainDefinition(p, OtherDef)
  {
  }

  lemma MethodDeclared(p: Program, t: Store, k: nat)
    requires Coherent(p, t)
    ensures var t1 := if k in t.src.kinds then t else Declare(t, k, OtherKind);
      Grows(p, t, t1) && Declared(t1.src, Named(k))
  {
    GrowsSame(p, t);
    if k !in t.src.kinds {
      assert Replaceable(t, k, OtherKind);
      DeclareGrows(p, t, k, OtherKind);
    }
    hide Coherent, Grows;
  }

  // ---- what is declared is found ----

  /** The definition is on the declaration, and the owner has the declaration as its member. */
  lemma DeclaredIsMember(p: Program, s: Store, owner: DeclId, n: NameId, str: StringId, def: Definition, again: Option<DeclId>)
    requires owner in s.g.ns
    ensures var h := DeclareConstant(p, s, owner, n, str, def, again);
      && h.outcome.Found? && def in DefinitionsOf(h.store.src, h.outcome.id)
      && MemberAt(h.store.members, Known(owner), str) == Some(h.outcome.id)
      && (Target(s.src, n).None? ==> Target(h.store.src, n) == Some(h.outcome.id))
  {
    var k, kind := p.key(owner, str), KindFor(def);
    var t := Redeclare(s, k, kind);
    assert t.src.names == s.src.names && t.members == s.members;
    var u := AddDefinition(t, Named(k), def);
    assert DefinitionsOf(u.src, Named(k))[|DefinitionsOf(t.src, Named(k))|] == def;
    hide Redeclare, Promotes;
  }

  /** A constant that has been declared in a namespace is what every lookup from inside that namespace finds, whatever
      the outer scopes are. */
  lemma DeclaredIsFound(p: Program, s: Store, owner: DeclId, n: NameId, str: StringId, def: Definition, again: Option<DeclId>,
                        outer: seq<NameRef>)
    requires Coherent(p, s) && n in p.names && PlainDefinition(p, def) && !def.SingletonClassDef? && owner in s.g.ns
    requires again.Some? ==> again.value in s.g.ns
    ensures var h := DeclareConstant(p, s, owner, n, str, def, again);
      Stored.RunResolution(Snapshot(p, h.store), [Resolved(owner)] + outer, str) == Found(h.outcome.id, None)
  {
    hide Coherent, DeclareConstant, Closed, Stored.SearchInnermost, Stored.WithObject, Stored.SearchAncestors;
    DeclareConstantCloses(p, s, owner, n, str, def, again);
    DeclaredIsMember(p, s, owner, n, str, def, again);
    var h := DeclareConstant(p, s, owner, n, str, def, again);
    ClosedKeeps(p, s, h, owner);
    NamespaceIsItself(p, h.store, owner);
    var w := Snapshot(p, h.store);
    assert Stored.ScopeMember(w, owner, str) == Some(h.outcome.id);
    assert ([Resolved(owner)] + outer)[0] == Resolved(owner);
  }

  lemma ClosedKeeps(p: Program, s: Store, h: Handled, d: DeclId)
    requires Closed(p, s, h) && d in s.g.ns
    ensures Coherent(p, h.store) && d in h.store.g.ns
  {
    GrowsCoherent(p, s, h.store);
    hide Grows, Coherent, Looked;
  }

  lemma NamespaceIsItself(p: Program, s: Store, d: DeclId)
    requires Coherent(p, s) && d in s.g.ns
    ensures ResolveToNamespace(s.src, d) == Some(d)
  {
    NamespaceParts(s.src, s.g, d);
    hide Coherent;
  }

  // ---- names that stand for namespaces ----

  /** Whether a task can declare `k` as something that is no namespace. */
  ghost predicate Claims(p: Program, task: Task, k: nat) {
    match task
    case ConstantTask(n, def) =>
      n in p.names && KindFor(def) !in {Class, Module, SingletonClass} && exists owner :: p.key(owner, p.names[n].str) == k
    case SelfMethodTask(_, str) => exists owner :: p.methodKey(owner, str) == k
  }

  lemma DeclareConstantAdds(p: Program, s: Store, owner: DeclId, n: NameId, def: Definition, again: Option<DeclId>, k: nat)
    requires n in p.names && !def.SingletonClassDef? && !Claims(p, ConstantTask(n, def), k)
    ensures var t := DeclareConstant(p, s, owner, n, p.names[n].str, def, again).store;
      k in t.src.kinds && k !in s.src.kinds ==> Named(k) in t.g.ns
  {
    var key, kind := p.key(owner, p.names[n].str), KindFor(def);
    DeclareConstantParts(p, s, owner, n, p.names[n].str, def, again);
    RecordKinds(s, n, Named(key));
    hide DeclareConstant, Promotes, RecordName;
    var u := AddDefinition(Redeclare(s, key, kind), Named(key), def);
    RecordKinds(u, n, Named(key));
    RecordKinds(AddMember(u, owner, p.names[n].str, Named(key)), n, Named(key));
  }

  lemma RecordKinds(s: Store, n: NameId, d: DeclId)
    ensures RecordName(s, n, d).src.kinds == s.src.kinds && RecordName(s, n, d).g == s.g
  {
  }

  lemma DeclareInAdds(p: Program, s: Store, owner: DeclId, n: NameId, def: Definition, again: Option<DeclId>, k: nat)
    requires n in p.names && Coherent(p, s) && !Claims(p, ConstantTask(n, def), k)
    ensures var t := DeclareIn(p, s, owner, n, def, again).store; k in t.src.kinds && k !in s.src.kinds ==> Named(k) in t.g.ns
  {
    DeclareInIs(p, s, owner, n, def, again);
    OwnerReadyKinds(p, s, owner);
    var t := OwnerReady(s, owner);
    hide Coherent, Claims, OwnerReady, DeclareIn, DeclareConstant, DeclareSingleton;
    if !def.SingletonClassDef? {
      DeclareConstantAdds(p, t, owner, n, def, again, k);
    } else if owner in t.g.ns {
      DeclareSingletonKinds(p, t, owner, n, p.names[n].str, def, again);
    }
  }

  lemma OwnerReadyKinds(p: Program, s: Store, owner: DeclId)
    requires Coherent(p, s)
    ensures OwnerReady(s, owner).src.kinds.Keys == s.src.kinds.Keys
  {
    if owner.Named? && KindOf(s.src, owner) == Constant { PromotionGrows(p, s, owner.key); }
    hide Coherent, Grows, PromoteConstant;
  }

  lemma DeclareSingletonKinds(p: Program, s: Store, owner: DeclId, n: NameId, str: StringId, def: Definition,
                              again: Option<DeclId>)
    requires owner in s.g.ns
    ensures DeclareSingleton(p, s, owner, n, str, def, again).store.src.kinds == s.src.kinds
  {
    DeclareSingletonParts(p, s, owner, n, str, def, again);
    var c := SingletonOf(owner, WrittenTag(p, owner, str));
    hide DeclareSingleton, RecordName, WrittenTag;
    RecordKinds(AddDefinition(LinkTo(s, owner, WrittenTag(p, owner, str)), c, def), n, c);
  }

  lemma HandleConstantAdds(p: Program, s: Store, n: NameId, def: Definition, k: nat)
    requires WellFormed(p) && Coherent(p, s) && n in p.names && WellFormedTask(p, ConstantTask(n, def))
    requires !Claims(p, ConstantTask(n, def), k)
    ensures var t := HandleConstant(p, s, n, def).store; k in t.src.kinds && k !in s.src.kinds ==> Named(k) in t.g.ns
  {
    hide WellFormed, WellFormedTask, Coherent, NameOwner, DeclareIn, Owned, Rooted, Looked, Claims, Grows;
    NameOwnerOwned(p, s, n, def.SingletonClassDef?);
    UnknownOwnerHasScope(p, s, n, def.SingletonClassDef?);
    ScopesRooted(p, n);
    var (t, r) := NameOwner(p, s, n, def.SingletonClassDef?);
    OwnedParts(p, s, t, r);
    if r.Found? {
      DeclareInAdds(p, t, r.id, n, def, r.again, k);
    } else if r == NotFound(None) && !def.SingletonClassDef? {
      var (u, todo) := CreateTodo(p, t, n, p.height);
      PlacedParts(p, s, t, u, todo);
      GrowsCoherent(p, s, u);
      DeclareInAdds(p, u, todo, n, def, None, k);
      StillNamespace(p, u, todo, n, def, k);
    }
  }

  lemma StillNamespace(p: Program, s: Store, owner: DeclId, n: NameId, def: Definition, k: nat)
    requires WellFormed(p) && n in p.names && Coherent(p, s) && WellFormedTask(p, ConstantTask(n, def))
    ensures Named(k) in s.g.ns ==> Named(k) in DeclareIn(p, s, owner, n, def, None).store.g.ns
  {
    hide *;
    DeclareInCloses(p, s, owner, n, def, None);
    if Named(k) in s.g.ns { ClosedKeeps(p, s, DeclareIn(p, s, owner, n, def, None), Named(k)); }
  }

  lemma HandleSelfMethodAdds(p: Program, s: Store, receiver: NameId, str: StringId, k: nat)
    requires Coherent(p, s) && !Claims(p, SelfMethodTask(receiver, str), k)
    ensures var t := HandleSelfMethod(p, s, receiver, str).store; k in t.src.kinds && k !in s.src.kinds ==> Named(k) in t.g.ns
  {
    hide Coherent, GetOrCreateSingletonClass, Grows;
    if Target(s.src, receiver).Some? { GetOrCreateMade(p, s, Target(s.src, receiver).value); }
  }

  /** A class or module that is defined is a namespace afterwards exactly if nothing else stands under its name that
      cannot be promoted. */
  lemma DefinedIsNamespace(p: Program, s: Store, owner: DeclId, n: NameId, str: StringId, def: Definition, again: Option<DeclId>)
    requires Coherent(p, s) && KindFor(def) in {Class, Module}
    ensures var k := p.key(owner, str);
      Named(k) in DeclareConstant(p, s, owner, n, str, def, again).store.g.ns <==>
        k !in s.src.kinds || IsNamespace(s.src, Named(k)) || (s.src.kinds[k] == Constant && AllPromotable(s.src, Named(k)))
  {
    var k := p.key(owner, str);
    DeclareConstantParts(p, s, owner, n, str, def, again);
    NamespaceExactly(p, s, k);
    hide DeclareConstant, Coherent, AllPromotable, RecordName;
  }

  lemma NamespaceExactly(p: Program, s: Store, k: nat)
    requires Coherent(p, s)
    ensures Named(k) in s.g.ns <==> k in s.src.kinds && IsNamespace(s.src, Named(k))
  {
    hide SingletonsLinked, ChainsExist, ReferencesExist, MembersNamed, NamesPlain, DefinitionsPlain, QueueExists;
    if Named(k) in s.g.ns { assert Declared(s.src, Named(k)); }
  }

  // ---- singleton classes that are lost, and second ones ----

  /** Promoting a declaration loses its singleton class exactly if one with the name made on the fly exists: it is no
      longer linked, and will be overwritten when it is asked for. Nothing else is lost. */
  lemma PromotionLoses(s: Store, k: nat, kind: Kind)
    requires Promotes(s, k, kind)
    ensures Lost(Declare(s, k, kind).g) ==
      Lost(s.g) + if SingletonOf(Named(k), None) in s.g.ns then {Named(k)} else {}
  {
  }

  /** An object has no other singleton class than the one it is linked to. */
  ghost predicate OneClass(g: Graph, owner: DeclId) {
    forall c | c in g.ns && c.SingletonOf? && c.attached == owner :: owner in g.ns && g.ns[owner].singleton == Some(c)
  }

  /** Writing out a singleton class makes a second one exactly if the object has one under another name already. */
  lemma SecondClassExactly(s: Store, owner: DeclId, tag: Option<StringId>)
    requires owner in s.g.ns && OneClass(s.g, owner)
    requires s.g.ns[owner].singleton.Some? ==>
      s.g.ns[owner].singleton.value in s.g.ns && s.g.ns[owner].singleton.value.SingletonOf?
      && s.g.ns[owner].singleton.value.attached == owner
    ensures OneClass(LinkTo(s, owner, tag).g, owner) <==> s.g.ns[owner].singleton in {None, Some(SingletonOf(owner, tag))}
  {
    var t := LinkTo(s, owner, tag);
    if s.g.ns[owner].singleton.Some? && s.g.ns[owner].singleton.value != SingletonOf(owner, tag) {
      assert s.g.ns[owner].singleton.value in t.g.ns;
    }
  }

  /** The link is the only thing that moves: no chain, descendant or definition is touched, and no less is linked. */
  lemma LinkingLosesNothing(s: Store, owner: DeclId, tag: Option<StringId>)
    requires owner in s.g.ns && SingletonsLinked(s.src, s.g)
    ensures Lost(LinkTo(s, owner, tag).g) == Lost(s.g) - {owner}
    ensures OnlyCreates(s.g, LinkTo(s, owner, tag).g) && LinkTo(s, owner, tag).src.definitions == s.src.definitions
  {
    var t := LinkTo(s, owner, tag);
    var c := SingletonOf(owner, tag);
    forall d ensures d in Lost(t.g) <==> d in Lost(s.g) - {owner} {
      if d == c && c !in s.g.ns { assert SingletonOf(c, None) !in s.g.ns; }
      assert SingletonOf(d, None) == c ==> d == owner;
    }
  }
}
