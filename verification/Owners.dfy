/** Where a definition goes: the namespace that owns it for every way its name can be written, and the placeholders that
    stand in for scopes nobody has defined. */
module Owners {
  import opened Declarations
  import opened Names
  import opened NameDepths
  import opened Aliases
  import opened Graphs
  import opened Links
  import opened Hierarchy
  import opened Linearization
  import opened Lookups
  import opened Programs
  import opened LiveLookups
  import opened NameResolutions
  import opened DefinitionUnits
  import opened FoundConstants

  // ---- what declaring in an owner means ----

  /** The members of all other namespaces, and all other members of the owner, are as before. */
  ghost predicate OnlyMember(before: Members, after: Members, owner: DeclId, str: StringId) {
    forall e: DeclId, x: StringId | e != owner || x != str :: MemberAt(after, Known(e), x) == MemberAt(before, Known(e), x)
  }

  /** The definition has been added to the declaration `str` of `owner`, which is the member `str` of `owner` and what the
      name stands for. */
  ghost predicate DeclaredIn(p: Program, s: Store, h: Handled, owner: DeclId, n: NameId, def: Definition)
    requires n in p.names
  {
    var str := p.names[n].str;
    var id := Named(p.key(owner, str));
    && h.outcome.Found? && h.outcome.id == id
    && MemberAt(h.store.members, Known(owner), str) == Some(id)
    && OnlyMember(s.members, h.store.members, owner, str)
    && DefinitionsOf(h.store.src, id) == DefinitionsOf(s.src, id) + [def]
    && (forall d: DeclId | d != id :: DefinitionsOf(h.store.src, d) == DefinitionsOf(s.src, d))
    && (Target(s.src, n).None? ==> Target(h.store.src, n) == Some(id))
  }

  lemma DeclaringIn(p: Program, s: Store, owner: DeclId, n: NameId, def: Definition, again: Option<DeclId>)
    requires Coherent(p, s) && n in p.names && owner in s.g.ns && !def.SingletonClassDef?
    ensures var h := DeclareIn(p, s, owner, n, def, again); DeclaredIn(p, s, h, owner, n, def) && h.outcome.again == again
  {
    NoAlias(p, s, owner);
    hide *;
    DeclareInIs(p, s, owner, n, def, again);
    NothingToPromote(s, owner);
    var str := p.names[n].str;
    var id := Named(p.key(owner, str));
    DeclareConstantParts(p, s, owner, n, str, def, again);
    var t := Redeclare(s, p.key(owner, str), KindFor(def));
    RedeclareKeeps(s, p.key(owner, str), KindFor(def));
    var u := AddDefinition(t, id, def);
    DefinitionAdded(t, id, def);
    var v := AddMember(u, owner, str, id);
    MemberIsAdded(u, owner, str, id);
    NameRecorded(v, n, id);
    IsDeclared(p, s, DeclareIn(p, s, owner, n, def, again), owner, n, def);
  }

  lemma IsDeclared(p: Program, s: Store, h: Handled, owner: DeclId, n: NameId, def: Definition)
    requires n in p.names
    requires var str, id := p.names[n].str, Named(p.key(owner, p.names[n].str));
      && h.outcome.Found? && h.outcome.id == id
      && MemberAt(h.store.members, Known(owner), str) == Some(id)
      && OnlyMember(s.members, h.store.members, owner, str)
      && DefinitionsOf(h.store.src, id) == DefinitionsOf(s.src, id) + [def]
      && (forall d: DeclId | d != id :: DefinitionsOf(h.store.src, d) == DefinitionsOf(s.src, d))
      && (Target(s.src, n).None? ==> Target(h.store.src, n) == Some(id))
    ensures DeclaredIn(p, s, h, owner, n, def)
  {
  }

  lemma NothingToPromote(s: Store, owner: DeclId)
    requires IsNamespace(s.src, owner)
    ensures OwnerReady(s, owner) == s
  {
  }

  lemma RedeclareKeeps(s: Store, k: nat, kind: Kind)
    ensures var t := Redeclare(s, k, kind);
      && t.members == s.members
      && (forall d :: DefinitionsOf(t.src, d) == DefinitionsOf(s.src, d)) && forall n :: Target(t.src, n) == Target(s.src, n)
  {
    hide Promotes;
  }

  lemma DefinitionAdded(s: Store, id: DeclId, def: Definition)
    ensures var t := AddDefinition(s, id, def);
      && t.members == s.members
      && DefinitionsOf(t.src, id) == DefinitionsOf(s.src, id) + [def]
      && (forall d: DeclId | d != id :: DefinitionsOf(t.src, d) == DefinitionsOf(s.src, d))
      && forall n :: Target(t.src, n) == Target(s.src, n)
  {
  }

  lemma MemberIsAdded(s: Store, owner: DeclId, str: StringId, id: DeclId)
    ensures var t := AddMember(s, owner, str, id);
      && t.src == s.src && t.g == s.g
      && MemberAt(t.members, Known(owner), str) == Some(id) && OnlyMember(s.members, t.members, owner, str)
  {
  }

  /** The first end, where it is no unresolved alias. */
  lemma PrimaryIs(src: Source, target: DeclId, d: DeclId, again: Option<DeclId>)
    requires AliasChains(src, target) != [] && AliasChains(src, target)[0] == d && !IsAlias(src, d)
    ensures PrimaryEnd(src, target, again) == Found(d, again)
  {
    hide AliasChains;
  }

  // ---- the cases of `HandleConstant` ----

  lemma WithOwner(p: Program, s: Store, n: NameId, def: Definition)
    requires WellFormed(p) && Coherent(p, s) && n in p.names
    ensures var (t, r) := NameOwner(p, s, n, def.SingletonClassDef?);
      && Coherent(p, t)
      && (r.Found? ==> HandleConstant(p, s, n, def) == DeclareIn(p, t, r.id, n, def, r.again))
      && (!r.Found? && (r != NotFound(None)) ==> HandleConstant(p, s, n, def) == Handled(t, r, false))
      && (r == NotFound(None) && def.SingletonClassDef? ==> HandleConstant(p, s, n, def) == Handled(t, Retry(None), false))
  {
    hide WellFormed, Coherent, NameOwner, DeclareIn, Owned, Rooted, Looked, Grows;
    NameOwnerOwned(p, s, n, def.SingletonClassDef?);
    OwnedParts(p, s, NameOwner(p, s, n, def.SingletonClassDef?).0, NameOwner(p, s, n, def.SingletonClassDef?).1);
  }

  lemma WithoutOwner(p: Program, s: Store, n: NameId, def: Definition)
    requires WellFormed(p) && Coherent(p, s) && n in p.names && !def.SingletonClassDef?
    requires NameOwner(p, s, n, false).1 == NotFound(None)
    ensures ScopeId(p.names[n].parentScope).Some? && Rooted(p.names, n, p.height)
    ensures var t := NameOwner(p, s, n, false).0;
      && Coherent(p, t)
      && var (u, todo) := CreateTodo(p, t, n, p.height);
         Coherent(p, u) && HandleConstant(p, s, n, def) == DeclareIn(p, u, todo, n, def, None)
  {
    hide WellFormed, Coherent, NameOwner, DeclareIn, Owned, Rooted, Looked, Grows, CreateTodo;
    NameOwnerOwned(p, s, n, false);
    UnknownOwnerHasScope(p, s, n, false);
    ScopesRooted(p, n);
    var (t, r) := NameOwner(p, s, n, false);
    OwnedParts(p, s, t, r);
    var (u, todo) := CreateTodo(p, t, n, p.height);
    PlacedParts(p, s, t, u, todo);
    GrowsCoherent(p, s, u);
  }

  // ---- names without scope ----

  lemma NestedOwner(p: Program, s: Store, n: NameId, singleton: bool)
    requires WellFormed(p) && Coherent(p, s) && n in p.names && p.names[n].parentScope == NoScope && p.names[n].nesting.Some?
    ensures NameOwner(p, s, n, singleton) ==
      match Target(s.src, p.names[n].nesting.value)
      case Some(d) => (s, PrimaryEnd(s.src, d, None))
      case None => (s, Retry(None))
  {
    hide WellFormed, Coherent, PrimaryEnd, Target;
  }

  /** A name without scope belongs to what encloses it: the namespace the nesting has been resolved to, or the first end if
      that is an alias. */
  lemma NestedDefinition(p: Program, s: Store, n: NameId, def: Definition, m: NameId, target: DeclId, d: DeclId)
    requires WellFormed(p) && Coherent(p, s) && n in p.names && !def.SingletonClassDef?
    requires p.names[n].parentScope == NoScope && p.names[n].nesting == Some(m) && Target(s.src, m) == Some(target)
    requires AliasChains(s.src, target) != [] && AliasChains(s.src, target)[0] == d && d in s.g.ns
    ensures var h := HandleConstant(p, s, n, def); DeclaredIn(p, s, h, d, n, def) && h.outcome.again == None
  {
    hide *;
    NoAlias(p, s, d);
    NestedOwner(p, s, n, false);
    PrimaryIs(s.src, target, d, None);
    NoSingleton(def);
    WithOwner(p, s, n, def);
    DeclaringIn(p, s, d, n, def, None);
  }

  lemma NoSingleton(def: Definition)
    ensures !def.SingletonClassDef? ==> def.SingletonClassDef? == false
  {
  }

  /** In particular what stands directly inside a namespace belongs to it. */
  lemma DirectlyNested(p: Program, s: Store, n: NameId, def: Definition, m: NameId, d: DeclId)
    requires WellFormed(p) && Coherent(p, s) && n in p.names && !def.SingletonClassDef?
    requires p.names[n].parentScope == NoScope && p.names[n].nesting == Some(m)
    requires Target(s.src, m) == Some(d) && d in s.g.ns
    ensures DeclaredIn(p, s, HandleConstant(p, s, n, def), d, n, def)
  {
    hide *;
    NoAlias(p, s, d);
    OwnEnd(s.src, d);
    NestedDefinition(p, s, n, def, m, d, d);
  }

  /** While the nesting is not resolved, or only to an unresolved alias, the definition waits and nothing changes. */
  lemma UnresolvedNestingWaits(p: Program, s: Store, n: NameId, def: Definition, m: NameId)
    requires WellFormed(p) && Coherent(p, s) && n in p.names
    requires p.names[n].parentScope == NoScope && p.names[n].nesting == Some(m)
    requires Target(s.src, m).Some? ==>
      var ids := AliasChains(s.src, Target(s.src, m).value); ids != [] && IsAlias(s.src, ids[0])
    ensures HandleConstant(p, s, n, def) == Handled(s, Retry(None), false)
  {
    NestedOwner(p, s, n, def.SingletonClassDef?);
    hide WellFormed, Coherent, NameOwner, HandleConstant, AliasChains, Target;
    WithOwner(p, s, n, def);
  }

  /** Only what is written at the top level, or with leading colons, belongs to `Object`. */
  lemma TopLevelDefinition(p: Program, s: Store, n: NameId, def: Definition)
    requires WellFormed(p) && Coherent(p, s) && n in p.names && !def.SingletonClassDef?
    requires p.names[n].parentScope == TopLevel || (p.names[n].parentScope == NoScope && p.names[n].nesting == None)
    ensures DeclaredIn(p, s, HandleConstant(p, s, n, def), OBJECT, n, def)
  {
    NothingAsked(p, s, Retry(None));
    ObjectExists(p, s, s, Retry(None));
    hide WellFormed, Coherent, HandleConstant, DeclareIn, DeclaredIn, PrimaryEnd, Target;
    WithOwner(p, s, n, def);
    assert NameOwner(p, s, n, false) == (s, Found(OBJECT, None));
    DeclaringIn(p, s, OBJECT, n, def, None);
  }

  // ---- names with a scope ----

  lemma ScopedOwner(p: Program, s: Store, n: NameId, scope: NameId, singleton: bool)
    requires WellFormed(p) && Coherent(p, s) && n in p.names && ScopeId(p.names[n].parentScope) == Some(scope)
    ensures scope in p.names && Rooted(p.names, scope, p.height)
    ensures var (t, r) := ResolveConstant(p, s, scope);
      NameOwner(p, s, n, singleton) ==
        (t, if r.Found? then PrimaryEnd(t.src, r.id, r.again) else if r == Retry(None) && !singleton then NotFound(None) else r)
  {
    ScopesRooted(p, n);
    hide WellFormed, Coherent, PrimaryEnd, Rooted, ResolveConstant;
  }

  /** `A::B` belongs to what `A` is or is found to be, or to the first end if that is an alias. */
  lemma ScopedDefinition(p: Program, s: Store, n: NameId, def: Definition, scope: NameId, d: DeclId)
    requires WellFormed(p) && Coherent(p, s) && n in p.names && !def.SingletonClassDef?
    requires p.names[n].parentScope == Scope(scope) && scope in p.names && Rooted(p.names, scope, p.height)
    requires var (t, r) := ResolveConstant(p, s, scope);
      r.Found? && AliasChains(t.src, r.id) != [] && AliasChains(t.src, r.id)[0] == d && d in t.g.ns
    ensures var (t, r) := ResolveConstant(p, s, scope);
      var h := HandleConstant(p, s, n, def);
      DeclaredIn(p, t, h, d, n, def) && h.outcome.again == r.again
  {
    hide *;
    NoSingleton(def);
    ScopeOf(p, n, scope);
    ScopedOwner(p, s, n, scope, false);
    var (t, r) := ResolveConstant(p, s, scope);
    WithOwner(p, s, n, def);
    NoAlias(p, t, d);
    PrimaryIs(t.src, r.id, d, r.again);
    DeclaringIn(p, t, d, n, def, r.again);
  }

  lemma ScopeOf(p: Program, n: NameId, scope: NameId)
    requires n in p.names && p.names[n].parentScope in {Scope(scope), Attached(scope)}
    ensures ScopeId(p.names[n].parentScope) == Some(scope)
  {
  }

  /** In particular, with `A` resolved to a namespace. */
  lemma QualifiedDefinition(p: Program, s: Store, n: NameId, def: Definition, scope: NameId, d: DeclId)
    requires WellFormed(p) && Coherent(p, s) && n in p.names && !def.SingletonClassDef?
    requires p.names[n].parentScope == Scope(scope) && Target(s.src, scope) == Some(d) && d in s.g.ns
    ensures DeclaredIn(p, s, HandleConstant(p, s, n, def), d, n, def)
  {
    hide *;
    ScopeOf(p, n, scope);
    ScopedOwner(p, s, n, scope, false);
    KnownNameIs(p, s, scope);
    NoAlias(p, s, d);
    OwnEnd(s.src, d);
    ScopedDefinition(p, s, n, def, scope, d);
  }

  /** A singleton class that is written out belongs to what its attached name is, and this is linked to it. */
  lemma SingletonDefinition(p: Program, s: Store, n: NameId, def: Definition, attached: NameId, d: DeclId)
    requires WellFormed(p) && Coherent(p, s) && n in p.names && def.SingletonClassDef?
    requires p.names[n].parentScope == Attached(attached) && Target(s.src, attached) == Some(d) && d in s.g.ns
    ensures var h := HandleConstant(p, s, n, def);
      var c := SingletonOf(d, WrittenTag(p, d, p.names[n].str));
      && h.outcome == Found(c, None) && c in h.store.g.ns && h.isNew == (c !in s.g.ns)
      && d in h.store.g.ns && h.store.g.ns[d].singleton == Some(c)
      && DefinitionsOf(h.store.src, c) == DefinitionsOf(s.src, c) + [def] && h.store.members == s.members
  {
    hide *;
    ScopeOf(p, n, attached);
    ScopedOwner(p, s, n, attached, true);
    KnownNameIs(p, s, attached);
    NoAlias(p, s, d);
    OwnEnd(s.src, d);
    PrimaryIs(s.src, d, d, None);
    WithOwner(p, s, n, def);
    LinkedDefinition(p, s, d, n, def);
  }

  lemma LinkedDefinition(p: Program, s: Store, d: DeclId, n: NameId, def: Definition)
    requires Coherent(p, s) && n in p.names && d in s.g.ns && def.SingletonClassDef?
    ensures var h := DeclareIn(p, s, d, n, def, None);
      var c := SingletonOf(d, WrittenTag(p, d, p.names[n].str));
      && h.outcome == Found(c, None) && c in h.store.g.ns && h.isNew == (c !in s.g.ns)
      && d in h.store.g.ns && h.store.g.ns[d].singleton == Some(c)
      && DefinitionsOf(h.store.src, c) == DefinitionsOf(s.src, c) + [def] && h.store.members == s.members
  {
    NoAlias(p, s, d);
    hide Coherent, WrittenTag;
  }

  // ---- placeholders ----

  /** `ms` are the scopes in front of `n`, from the nearest on, up to `end` if that is one. */
  ghost predicate ScopePath(names: map<NameId, Name>, n: NameId, ms: seq<NameId>, end: Option<NameId>)
    decreases |ms|
  {
    n in names &&
    if ms == [] then ScopeId(names[n].parentScope) == end
    else ScopeId(names[n].parentScope) == Some(ms[0]) && ScopePath(names, ms[0], ms[1..], end)
  }

  /** What the first scope of a path belongs to: a namespace that is known, or `Object` if no scope stands before it. */
  ghost predicate PathBase(s: Store, end: Option<NameId>, base: DeclId) {
    match end
    case None => base == OBJECT
    case Some(m) => Target(s.src, m) == Some(base) && base in s.g.ns
  }

  /** The placeholder for a path of scopes belongs to the placeholder for the rest of it, the first to `base`. */
  function PathOwner(p: Program, base: DeclId, ms: seq<NameId>): DeclId
    requires ms != [] && forall m | m in ms :: m in p.names
    decreases |ms|, 0
  {
    if |ms| == 1 then base else PathId(p, base, ms[1..])
  }

  function PathId(p: Program, base: DeclId, ms: seq<NameId>): DeclId
    requires ms != [] && forall m | m in ms :: m in p.names
    decreases |ms|, 1
  {
    Named(p.key(PathOwner(p, base, ms), p.names[ms[0]].str))
  }

  lemma {:induction false} PathNames(names: map<NameId, Name>, n: NameId, ms: seq<NameId>, end: Option<NameId>)
    requires ScopePath(names, n, ms, end)
    ensures forall m | m in ms :: m in names
    decreases |ms|
  {
    if ms != [] {
      PathNames(names, ms[0], ms[1..], end);
      assert ms == [ms[0]] + ms[1..];
    }
  }

  /** If anything is declared under the name of a placeholder on the path already, it is a namespace; different scopes
      have different names. */
  ghost predicate PathFree(p: Program, base: DeclId, s: Store, ms: seq<NameId>)
    requires forall m | m in ms :: m in p.names
  {
    && (forall i | 0 <= i < |ms| :: PathId(p, base, ms[i..]).key in s.src.kinds ==> IsNamespace(s.src, PathId(p, base, ms[i..])))
    && (forall i, j | 0 <= i < j < |ms| :: PathId(p, base, ms[i..]) != PathId(p, base, ms[j..]))
  }

  ghost predicate OnPath(p: Program, base: DeclId, ms: seq<NameId>, k: nat)
    requires forall m | m in ms :: m in p.names
  {
    exists i :: 0 <= i < |ms| && PathId(p, base, ms[i..]) == Named(k)
  }

  /** The declaration for a path is a namespace; if it is new, it is a placeholder, and a member of its owner. */
  ghost predicate PathPlaced(p: Program, base: DeclId, s: Store, u: Store, ms: seq<NameId>)
    requires ms != [] && forall m | m in ms :: m in p.names
  {
    var id := PathId(p, base, ms);
    && id.key in u.src.kinds && IsNamespace(u.src, id)
    && (id.key !in s.src.kinds ==>
          && u.src.kinds[id.key] == Todo && id in u.g.ns
          && MemberAt(u.members, Known(PathOwner(p, base, ms)), p.names[ms[0]].str) == Some(id))
  }

  ghost predicate KindsKept(s: Store, u: Store) {
    forall k | k in s.src.kinds :: k in u.src.kinds && u.src.kinds[k] == s.src.kinds[k]
  }

  /** One placeholder. */
  lemma OnePlaced(p: Program, t: Store, owner: DeclId, str: StringId)
    requires IsNamespace(t.src, owner)
    ensures var (u, d) := PlaceTodo(p, t, owner, str);
      && d == Named(p.key(owner, str)) && KindsKept(t, u) && u.src.kinds.Keys == t.src.kinds.Keys + {d.key}
      && (d.key in t.src.kinds ==> u == t)
      && (d.key !in t.src.kinds ==>
            && u.src.kinds[d.key] == Todo && d in u.g.ns && MemberAt(u.members, Known(owner), str) == Some(d)
            && OnlyMember(t.members, u.members, owner, str))
      && forall e | e in t.g.ns :: e in u.g.ns
  {
    var k := p.key(owner, str);
    if k !in t.src.kinds {
      var v := Declare(t, k, Todo);
      assert IsNamespace(v.src, owner);
      MemberIsAdded(v, owner, str, Named(k));
    }
  }

  /** What has been placed stays when the next one is. */
  lemma StaysPlaced(p: Program, base: DeclId, s: Store, t: Store, ms: seq<NameId>, owner: DeclId, str: StringId)
    requires ms != [] && forall m | m in ms :: m in p.names
    requires PathPlaced(p, base, s, t, ms) && IsNamespace(t.src, owner)
    ensures PathPlaced(p, base, s, PlaceTodo(p, t, owner, str).0, ms)
  {
    OnePlaced(p, t, owner, str);
    hide PlaceTodo;
    var id := PathId(p, base, ms);
    if PathOwner(p, base, ms) == owner && p.names[ms[0]].str == str { assert id == Named(p.key(owner, str)); }
  }

  /** The outcome of `CreateTodo` for a path of scopes none of which is known. */
  ghost predicate PathStands(p: Program, base: DeclId, s: Store, u: Store, d: DeclId, ms: seq<NameId>)
    requires ms != [] && forall m | m in ms :: m in p.names
  {
    && d == PathId(p, base, ms) && KindsKept(s, u)
    && (forall i | 0 <= i < |ms| :: PathPlaced(p, base, s, u, ms[i..]))
    && (forall k | k in u.src.kinds :: k in s.src.kinds || OnPath(p, base, ms, k))
  }

  /** No scope on the path is resolved, and the first cannot be found. */
  ghost predicate PathUnknown(p: Program, s: Store, ms: seq<NameId>)
    requires Coherent(p, s)
  {
    |ms| > 1 ==>
      && (forall i | 0 <= i < |ms| :: Target(s.src, ms[i]).None?)
      && ms[|ms| - 1] in p.names && Rooted(p.names, ms[|ms| - 1], p.height)
      && !ResolveConstant(p, s, ms[|ms| - 1]).1.Found?
  }

  /** The owner of a scope on the path is not found. */
  lemma PathOwnerUnknown(p: Program, base: DeclId, s: Store, n: NameId, ms: seq<NameId>, end: Option<NameId>)
    requires WellFormed(p) && Coherent(p, s) && ScopePath(p.names, n, ms, end) && |ms| > 1 && PathUnknown(p, s, ms)
    requires PathBase(s, end, base)
    ensures ms[0] in p.names
    ensures var (t, r) := NameOwner(p, s, ms[0], false);
      !r.Found? && Coherent(p, t) && t.src.kinds == s.src.kinds && PathUnknown(p, t, ms[1..]) && PathBase(t, end, base)
  {
    var parent, scope := ms[0], ms[1];
    assert ScopePath(p.names, parent, ms[1..], end);
    hide *;
    ScopedNext(p, s, parent, scope, ms[1..], end);
    ScopedOwner(p, s, parent, scope, false);
    NextUnknown(p, s, ms, end, scope);
    NameOwnerOwned(p, s, parent, false);
    var (t, r) := NameOwner(p, s, parent, false);
    OwnedParts(p, s, t, r);
    OwnedAgain(p, s, t, r);
    LookedKinds(p, s, t, r);
    BaseStays(p, base, s, t, r, end);
    RestUnknown(p, s, t, ms);
  }

  lemma ScopedNext(p: Program, s: Store, n: NameId, scope: NameId, ms: seq<NameId>, end: Option<NameId>)
    requires ScopePath(p.names, n, ms, end) && ms != [] && ms[0] == scope
    ensures n in p.names && ScopeId(p.names[n].parentScope) == Some(scope)
  {
  }

  /** The nearest scope is not found: it waits for the next one, or it is the first. */
  lemma NextUnknown(p: Program, s: Store, ms: seq<NameId>, end: Option<NameId>, scope: NameId)
    requires Coherent(p, s) && |ms| > 1 && ScopePath(p.names, ms[0], ms[1..], end) && PathUnknown(p, s, ms)
    requires scope == ms[1] && scope in p.names && Rooted(p.names, scope, p.height)
    ensures var (t, r) := ResolveConstant(p, s, scope); !r.Found? && (|ms| > 2 ==> t == s)
  {
    if |ms| > 2 {
      assert ScopePath(p.names, ms[1], ms[1..][1..], end);
      ScopedNext(p, s, ms[1], ms[2], ms[1..][1..], end);
      hide Coherent, Rooted, Target, ResolveConstant, ScopePath;
      ScopeWaits(p, s, scope, ms[2]);
    }
  }

  lemma RestUnknown(p: Program, s: Store, t: Store, ms: seq<NameId>)
    requires Coherent(p, s) && Coherent(p, t) && |ms| > 1 && PathUnknown(p, s, ms) && (|ms| > 2 ==> t == s)
    ensures PathUnknown(p, t, ms[1..])
  {
    hide Coherent, Rooted, Target, ResolveConstant;
  }

  lemma LookedKinds(p: Program, s: Store, t: Store, r: Resolution)
    requires Looked(p, s, t, r)
    ensures t.src.kinds == s.src.kinds
  {
    SameDeclared(p, s, t);
    hide Coherent, Quiet;
  }

  lemma BaseStays(p: Program, base: DeclId, s: Store, t: Store, r: Resolution, end: Option<NameId>)
    requires PathBase(s, end, base) && Looked(p, s, t, r)
    ensures PathBase(t, end, base)
  {
    QuietKeys(p, s, t);
    hide Coherent, Calm, LossLeft, LevelBound, Target;
  }

  /** A name behind a scope that is not resolved waits. */
  lemma ScopeWaits(p: Program, s: Store, n: NameId, scope: NameId)
    requires Coherent(p, s) && n in p.names && Rooted(p.names, n, p.height) && Target(s.src, n).None?
    requires ScopeId(p.names[n].parentScope) == Some(scope) && Target(s.src, scope).None?
    ensures ResolveConstant(p, s, n) == (s, Retry(None))
  {
    if p.names[n].parentScope == Scope(scope) { UnknownScopeWaits(p, s, n, scope); }
    hide Coherent, Rooted, Target;
  }

  /** Scopes nobody has defined get placeholders, each in the one before, and the first in the namespace that is known in
      front of it or, without one, in `Object`. */
  lemma {:induction false} PlaceholderPath(p: Program, base: DeclId, s: Store, n: NameId, h: nat, ms: seq<NameId>,
                                           end: Option<NameId>)
    requires WellFormed(p) && Coherent(p, s) && Rooted(p.names, n, h) && ScopePath(p.names, n, ms, end) && ms != []
    requires (forall m | m in ms :: m in p.names) && PathFree(p, base, s, ms) && PathUnknown(p, s, ms)
    requires PathBase(s, end, base)
    ensures var (u, d) := CreateTodo(p, s, n, h); PathStands(p, base, s, u, d, ms)
    decreases |ms|
  {
    hide WellFormed, Coherent, Rooted, NameOwner, Owned, PathUnknown, CreateTodo, PlaceTodo;
    ScopeBelow(p, n, h);
    var parent := ms[0];
    if |ms| > 1 {
      PathOwnerUnknown(p, base, s, n, ms, end);
      var t := NameOwner(p, s, parent, false).0;
      assert ms[1..] != [] && forall m | m in ms[1..] :: m in ms;
      RestFree(p, base, s, t, ms);
      PlaceholderPath(p, base, t, parent, h - 1, ms[1..], end);
      var (v, d) := CreateTodo(p, t, parent, h - 1);
      CreatedByOwner(p, s, n, h, ms, t, end);
      PlacedLast(p, base, s, t, v, d, ms);
    } else {
      CreatedInBase(p, base, s, n, h, ms, end);
      PlacedFirst(p, base, s, ms);
    }
  }

  lemma RestFree(p: Program, base: DeclId, s: Store, t: Store, ms: seq<NameId>)
    requires |ms| > 1 && (forall m | m in ms :: m in p.names) && PathFree(p, base, s, ms) && t.src.kinds == s.src.kinds
    ensures (forall m | m in ms[1..] :: m in p.names) && PathFree(p, base, t, ms[1..])
  {
    assert forall i | 0 <= i < |ms[1..]| :: ms[1..][i..] == ms[i + 1..];
    hide PathId;
  }

  lemma BaseIsNamespace(p: Program, base: DeclId, s: Store, end: Option<NameId>)
    requires Coherent(p, s) && PathBase(s, end, base)
    ensures base in s.g.ns && IsNamespace(s.src, base) && PrimaryEnd(s.src, base, None) == Found(base, None)
  {
    NothingAsked(p, s, Retry(None));
    ObjectExists(p, s, s, Retry(None));
    NoAlias(p, s, base);
    OwnEnd(s.src, base);
    PrimaryIs(s.src, base, base, None);
    hide Coherent, PrimaryEnd, Looked, IsAlias;
  }

  lemma KnownScopeOwns(p: Program, base: DeclId, s: Store, n: NameId, end: Option<NameId>)
    requires WellFormed(p) && Coherent(p, s) && n in p.names && ScopeId(p.names[n].parentScope) == end && end.Some?
    requires PathBase(s, end, base)
    ensures NameOwner(p, s, n, false) == (s, Found(base, None))
  {
    BaseIsNamespace(p, base, s, end);
    hide WellFormed, Coherent, NameOwner, PrimaryEnd, Rooted, ResolveConstant, IsNamespace;
    ScopedOwner(p, s, n, end.value, false);
    KnownNameIs(p, s, end.value);
  }

  lemma CreatedInBase(p: Program, base: DeclId, s: Store, n: NameId, h: nat, ms: seq<NameId>, end: Option<NameId>)
    requires WellFormed(p) && Coherent(p, s) && Rooted(p.names, n, h) && ScopePath(p.names, n, ms, end) && |ms| == 1
    requires PathBase(s, end, base)
    ensures ms[0] in p.names && IsNamespace(s.src, base)
    ensures CreateTodo(p, s, n, h) == PlaceTodo(p, s, base, p.names[ms[0]].str)
  {
    assert ScopePath(p.names, ms[0], ms[1..], end) && ms[1..] == [];
    BaseIsNamespace(p, base, s, end);
    if end.Some? { KnownScopeOwns(p, base, s, ms[0], end); }
    assert ScopeId(p.names[n].parentScope).value == ms[0];
    hide WellFormed, Coherent, Rooted, PlaceTodo,
      PrimaryEnd, Looked, ScopePath, Grows, Owned, Exists, NewAreNamespaces, NameOwner,
      IsNamespace, Target;
    var primary := PrimaryEnd(s.src, base, None);
    var placed := PlaceTodo(p, s, if primary.Found? then primary.id else OBJECT, p.names[ms[0]].str);
    assert CreateTodo(p, s, n, h) == placed;
  }

  lemma CreatedByOwner(p: Program, s: Store, n: NameId, h: nat, ms: seq<NameId>, t: Store, end: Option<NameId>)
    requires WellFormed(p) && Coherent(p, s) && Rooted(p.names, n, h) && ScopePath(p.names, n, ms, end) && |ms| > 1
    requires ms[0] in p.names && t == NameOwner(p, s, ms[0], false).0 && !NameOwner(p, s, ms[0], false).1.Found?
    requires h > 0 && Rooted(p.names, ms[0], h - 1) && Coherent(p, t)
    requires ScopeId(p.names[ms[0]].parentScope).Some?
    ensures var (v, d) := CreateTodo(p, t, ms[0], h - 1);
      var primary := PrimaryEnd(v.src, d, None);
      CreateTodo(p, s, n, h) == PlaceTodo(p, v, if primary.Found? then primary.id else OBJECT, p.names[ms[0]].str)
  {
    assert ScopeId(p.names[n].parentScope).value == ms[0];
    hide WellFormed, Coherent, Rooted, PlaceTodo, PrimaryEnd, NameOwner, ScopePath, Grows, Owned, Exists, NewAreNamespaces;
    var (v, d) := CreateTodo(p, t, ms[0], h - 1);
    var primary := PrimaryEnd(v.src, d, None);
    var placed := PlaceTodo(p, v, if primary.Found? then primary.id else OBJECT, p.names[ms[0]].str);
    assert CreateTodo(p, s, n, h) == placed;
  }

  lemma PlacedFirst(p: Program, base: DeclId, s: Store, ms: seq<NameId>)
    requires |ms| == 1 && ms[0] in p.names && IsNamespace(s.src, base) && PathFree(p, base, s, ms)
    ensures var (u, d) := PlaceTodo(p, s, base, p.names[ms[0]].str); PathStands(p, base, s, u, d, ms)
  {
    OnePlaced(p, s, base, p.names[ms[0]].str);
    var (u, d) := PlaceTodo(p, s, base, p.names[ms[0]].str);
    hide PlaceTodo;
    assert ms[0..] == ms && d == PathId(p, base, ms);
    assert PathPlaced(p, base, s, u, ms);
    forall k | k in u.src.kinds && k !in s.src.kinds ensures OnPath(p, base, ms, k) {
      assert PathId(p, base, ms[0..]) == Named(k);
    }
  }

  /** What the rest of the path has added is on the path, and not what is still to be placed. */
  lemma NewOnPath(p: Program, base: DeclId, s: Store, v: Store, ms: seq<NameId>)
    requires |ms| > 1 && (forall m | m in ms :: m in p.names) &&
      (forall m | m in ms[1..] :: m in p.names) && PathFree(p, base, s, ms)
    requires forall k | k in v.src.kinds :: k in s.src.kinds || OnPath(p, base, ms[1..], k)
    ensures forall k | k in v.src.kinds && k !in s.src.kinds :: OnPath(p, base, ms, k) && Named(k) != PathId(p, base, ms)
  {
    hide PathId;
    forall k | k in v.src.kinds && k !in s.src.kinds ensures OnPath(p, base, ms, k) && Named(k) != PathId(p, base, ms) {
      var i :| 0 <= i < |ms[1..]| && PathId(p, base, ms[1..][i..]) == Named(k);
      assert ms[1..][i..] == ms[i + 1..] && ms[0..] == ms;
      assert PathId(p, base, ms[0..]) != PathId(p, base, ms[i + 1..]);
    }
  }

  lemma PlacedLast(p: Program, base: DeclId, s: Store, t: Store, v: Store, d: DeclId, ms: seq<NameId>)
    requires |ms| > 1 && (forall m | m in ms :: m in p.names) && PathFree(p, base, s, ms) && t.src.kinds == s.src.kinds
    requires (forall m | m in ms[1..] :: m in p.names) && PathStands(p, base, t, v, d, ms[1..])
    ensures var primary := PrimaryEnd(v.src, d, None);
      var (u, e) := PlaceTodo(p, v, if primary.Found? then primary.id else OBJECT, p.names[ms[0]].str);
      PathStands(p, base, s, u, e, ms)
  {
    assert ms[1..][0..] == ms[1..];
    assert PathPlaced(p, base, t, v, ms[1..]);
    assert !IsAlias(v.src, d);
    OwnEnd(v.src, d);
    PrimaryIs(v.src, d, d, None);
    hide PrimaryEnd, IsAlias;
    NextPlaced(p, base, s, t, v, d, ms);
  }

  lemma NextPlaced(p: Program, base: DeclId, s: Store, t: Store, v: Store, d: DeclId, ms: seq<NameId>)
    requires |ms| > 1 && (forall m | m in ms :: m in p.names) && PathFree(p, base, s, ms) && t.src.kinds == s.src.kinds
    requires (forall m | m in ms[1..] :: m in p.names) && PathStands(p, base, t, v, d, ms[1..])
    ensures var (u, e) := PlaceTodo(p, v, d, p.names[ms[0]].str); PathStands(p, base, s, u, e, ms)
  {
    var str := p.names[ms[0]].str;
    assert ms[1..][0..] == ms[1..] && ms[0..] == ms;
    assert PathPlaced(p, base, t, v, ms[1..]);
    assert IsNamespace(v.src, d);
    OnePlaced(p, v, d, str);
    var (u, e) := PlaceTodo(p, v, d, str);
    hide PlaceTodo;
    NewOnPath(p, base, s, v, ms);
    assert e == PathId(p, base, ms);
    assert e.key in v.src.kinds ==> e.key in s.src.kinds && IsNamespace(s.src, e);
    hide PathId;
    assert PathPlaced(p, base, s, u, ms);
    RestPlaced(p, base, s, t, v, d, ms);
  }

  lemma RestPlaced(p: Program, base: DeclId, s: Store, t: Store, v: Store, d: DeclId, ms: seq<NameId>)
    requires |ms| > 1 && (forall m | m in ms :: m in p.names) && t.src.kinds == s.src.kinds && IsNamespace(v.src, d)
    requires (forall m | m in ms[1..] :: m in p.names) && PathStands(p, base, t, v, d, ms[1..])
    ensures forall i | 0 < i < |ms| :: PathPlaced(p, base, s, PlaceTodo(p, v, d, p.names[ms[0]].str).0, ms[i..])
  {
    hide PlaceTodo, PathId, IsNamespace, KindsKept;
    forall i | 0 < i < |ms| ensures PathPlaced(p, base, s, PlaceTodo(p, v, d, p.names[ms[0]].str).0, ms[i..]) {
      assert ms[1..][i - 1..] == ms[i..];
      assert PathPlaced(p, base, t, v, ms[i..]);
      StaysPlaced(p, base, t, v, ms[i..], d, p.names[ms[0]].str);
    }
  }

  /** A definition behind such a path belongs to the placeholder of its nearest scope. */
  lemma UnknownScopeDefinition(p: Program, base: DeclId, s: Store, n: NameId, def: Definition, ms: seq<NameId>,
                               end: Option<NameId>)
    requires WellFormed(p) && Coherent(p, s) && !def.SingletonClassDef?
    requires n in p.names && ScopePath(p.names, n, ms, end) && ms != [] && (forall m | m in ms :: m in p.names)
    requires NameOwner(p, s, n, false).1 == NotFound(None)
    requires Coherent(p, NameOwner(p, s, n, false).0)
    requires var t := NameOwner(p, s, n, false).0; PathFree(p, base, t, ms) && PathUnknown(p, t, ms) && PathBase(t, end, base)
    ensures Rooted(p.names, n, p.height) && ScopeId(p.names[n].parentScope).Some?
    ensures var t := NameOwner(p, s, n, false).0;
      var (u, d) := CreateTodo(p, t, n, p.height);
      PathStands(p, base, t, u, d, ms) && DeclaredIn(p, u, HandleConstant(p, s, n, def), PathId(p, base, ms), n, def)
  {
    hide *;
    WithoutOwner(p, s, n, def);
    var t := NameOwner(p, s, n, false).0;
    PlaceholderPath(p, base, t, n, p.height, ms, end);
    var (u, d) := CreateTodo(p, t, n, p.height);
    PathExists(p, base, t, u, d, ms);
    DeclaringIn(p, u, d, n, def, None);
  }

  lemma PathExists(p: Program, base: DeclId, t: Store, u: Store, d: DeclId, ms: seq<NameId>)
    requires ms != [] && (forall m | m in ms :: m in p.names) && PathStands(p, base, t, u, d, ms) && Coherent(p, u)
    ensures d in u.g.ns && d == PathId(p, base, ms)
  {
    assert ms[0..] == ms;
    assert PathPlaced(p, base, t, u, ms);
    hide MembersNamed, NamesPlain, DefinitionsPlain, SingletonsLinked, ChainsExist, ReferencesExist, QueueExists;
  }

  // ---- constants that turn out to be modules ----

  /** A constant that can be promoted becomes a module, queued for linearization, when something is defined in it. */
  lemma DeclaringInConstant(p: Program, s: Store, owner: DeclId, n: NameId, def: Definition, again: Option<DeclId>)
    requires Coherent(p, s) && n in p.names && !def.SingletonClassDef?
    requires owner.Named? && KindOf(s.src, owner) == Constant && AllPromotable(s.src, owner)
    requires p.key(owner, p.names[n].str) != owner.key
    ensures var h := DeclareIn(p, s, owner, n, def, again);
      && DeclaredIn(p, s, h, owner, n, def) && h.outcome.again == again
      && owner in h.store.g.ns && KindOf(h.store.src, owner) == Module && owner in h.store.g.queue
  {
    hide *;
    PromotionGrows(p, s, owner.key);
    var t := PromoteConstant(s, owner.key);
    PromotedConstant(s, owner.key);
    GrowsCoherent(p, s, t);
    NoAlias(p, t, owner);
    DeclareInIs(p, s, owner, n, def, again);
    DeclareInIs(p, t, owner, n, def, again);
    Promoting(s, owner);
    NothingToPromote(t, owner);
    DeclaringIn(p, t, owner, n, def, again);
    SameSourceParts(p, s, t, DeclareIn(p, t, owner, n, def, again), owner, n, def);
    DeclareConstantParts(p, t, owner, n, p.names[n].str, def, again);
    OwnerStays(p, t, owner, n, def, again);
  }

  lemma Promoting(s: Store, owner: DeclId)
    requires owner.Named? && KindOf(s.src, owner) == Constant && AllPromotable(s.src, owner)
    ensures OwnerReady(s, owner) == PromoteConstant(s, owner.key)
  {
  }

  lemma PromotedConstant(s: Store, k: nat)
    ensures var t := PromoteConstant(s, k);
      && Named(k) in t.g.ns && Named(k) in t.g.queue && KindOf(t.src, Named(k)) == Module
      && t.members == s.members && t.src.definitions == s.src.definitions && t.src.names == s.src.names
  {
    assert PromoteConstant(s, k).g.queue[|s.g.queue|] == Named(k);
  }

  lemma SameSourceParts(p: Program, s: Store, t: Store, h: Handled, owner: DeclId, n: NameId, def: Definition)
    requires n in p.names && DeclaredIn(p, t, h, owner, n, def)
    requires t.members == s.members && t.src.definitions == s.src.definitions && t.src.names == s.src.names
    ensures DeclaredIn(p, s, h, owner, n, def)
  {
    hide OnlyMember;
  }

  lemma OwnerStays(p: Program, t: Store, owner: DeclId, n: NameId, def: Definition, again: Option<DeclId>)
    requires n in p.names && owner.Named? && p.key(owner, p.names[n].str) != owner.key
    requires owner in t.g.ns && owner in t.g.queue && KindOf(t.src, owner) == Module
    ensures var h := DeclareConstant(p, t, owner, n, p.names[n].str, def, again);
      owner in h.store.g.ns && owner in h.store.g.queue && KindOf(h.store.src, owner) == Module
  {
    hide Promotes, AllPromotable;
  }

  // ---- methods with a `self` receiver ----

  /** They are members of the singleton class the enclosing namespace is linked to afterwards. */
  lemma SelfMethodIs(p: Program, s: Store, receiver: NameId, str: StringId, d: DeclId)
    requires Coherent(p, s) && Target(s.src, receiver) == Some(d) && d in s.g.ns
    ensures var h := HandleSelfMethod(p, s, receiver, str);
      && h.outcome.Found? && h.outcome.again == None
      && var c := h.outcome.id;
         && c == (if s.g.ns[d].singleton.Some? then s.g.ns[d].singleton.value else SingletonOf(d, None))
         && d in h.store.g.ns && h.store.g.ns[d].singleton == Some(c) && c in h.store.g.ns
         && MemberAt(h.store.members, Known(c), str) == Some(Named(p.methodKey(c, str)))
         && p.methodKey(c, str) in h.store.src.kinds
         && OtherDef in DefinitionsOf(h.store.src, Named(p.methodKey(c, str)))
  {
    LinkedClass(p, s, d);
    hide Coherent, GetOrCreateSingletonClass, Target;
    var (t, c) := GetOrCreateSingletonClass(s, d);
    MethodStored(t, p.methodKey(c.value, str), c.value, str);
  }

  lemma MethodStored(t: Store, k: nat, owner: DeclId, str: StringId)
    ensures var u := AddDefinition(if k in t.src.kinds then t else Declare(t, k, OtherKind), Named(k), OtherDef);
      var v := AddMember(u, owner, str, Named(k));
      && v.g == t.g && k in v.src.kinds && MemberAt(v.members, Known(owner), str) == Some(Named(k))
      && OtherDef in DefinitionsOf(v.src, Named(k))
  {
    var t1 := if k in t.src.kinds then t else Declare(t, k, OtherKind);
    DefinitionAdded(t1, Named(k), OtherDef);
    var u := AddDefinition(t1, Named(k), OtherDef);
    assert DefinitionsOf(u.src, Named(k))[|DefinitionsOf(t1.src, Named(k))|] == OtherDef;
  }

  // ---- the kind of a declaration ----

  predicate KindFits(def: Definition, kind: Kind) {
    && (kind == Class <==> def.ClassDef?) && (kind == Module <==> def.ModuleDef?)
    && (kind == Constant <==> def.ConstantDef?) && (kind == ConstantAlias <==> def.ConstantAliasDef?)
  }

  /** A new declaration has the kind of its definition, and so has one that takes the place of a placeholder or of a
      constant that can be promoted; any other declaration keeps the kind it has. A namespace that is new or takes the place
      of something starts without chain, descendants and link, and no other namespace is touched. */
  lemma DeclaredKind(p: Program, s: Store, owner: DeclId, n: NameId, str: StringId, def: Definition, again: Option<DeclId>)
    requires !def.SingletonClassDef?
    ensures var k := p.key(owner, str);
      var h := DeclareConstant(p, s, owner, n, str, def, again);
      var replaced := k in s.src.kinds && (def.ClassDef? || def.ModuleDef?) &&
        (s.src.kinds[k] == Todo || (s.src.kinds[k] == Constant && AllPromotable(s.src, Named(k))));
      && k in h.store.src.kinds
      && (if k !in s.src.kinds || replaced then KindFits(def, h.store.src.kinds[k]) else h.store.src.kinds == s.src.kinds)
      && (forall x | x in s.src.kinds && x != k :: x in h.store.src.kinds && h.store.src.kinds[x] == s.src.kinds[x])
      && (h.isNew <==> (def.ClassDef? || def.ModuleDef?) && (k !in s.src.kinds || replaced))
      && (h.isNew ==> Named(k) in h.store.g.ns && h.store.g.ns[Named(k)] == Namespace(Partial([]), {}, None))
      && (forall d | d in s.g.ns && d != Named(k) :: d in h.store.g.ns && h.store.g.ns[d] == s.g.ns[d])
  {
    var k := p.key(owner, str);
    DeclareConstantParts(p, s, owner, n, str, def, again);
    hide DeclareConstant, AllPromotable, RecordName;
    var u := AddDefinition(Redeclare(s, k, KindFor(def)), Named(k), def);
    var v := if owner in s.g.ns then AddMember(u, owner, str, Named(k)) else u;
    RecordKinds(v, n, Named(k));
  }
}
