/** The resolver as it runs over a program: names, declarations and members change in place, chains are linearized
    on the way, and units go through the queue until a pass makes no progress. Every method is tied to the function
    that specifies it. */
module Resolutions {
  import opened Declarations
  import opened Names
  import opened NameDepths
  import opened Aliases
  import opened AliasWalks
  import opened Graphs
  import opened Links
  import opened Hierarchy
  import opened Linearization
  import opened Lookups
  import Stored = ConstantLookups
  import opened Programs
  import opened LiveLookups
  import opened NameResolutions
  import opened DefinitionUnits
  import opened ResolutionLoops
  import opened Handlings
  import opened Resolvers

  class ResolutionRun {
    const p: Program
    var src: Source
    var ns: map<DeclId, Namespace>
    var members: Members
    var created: seq<DeclId>
    var unitQueue: seq<Unit>
    var madeProgress: bool
    var recorded: seq<nat>
    var pendingWork: seq<Unit>

    constructor (p: Program, s: Store, units: seq<Unit>)
      requires s.g.reset == []
      ensures this.p == p && State() == s && unitQueue == units && recorded == [] && pendingWork == []
    {
      this.p, src, ns, members, created := p, s.src, s.g.ns, s.members, s.g.queue;
      unitQueue, madeProgress, recorded, pendingWork := units, false, [], [];
    }

    function State(): Store
      reads this
    {
      Store(src, Graph(ns, created, []), members)
    }

    // ---- lookup ----

    /** What singleton classes were defined with goes when they are overwritten. */
    method Forget(overwritten: seq<DeclId>)
      modifies this`src, this`members
      ensures State() == Flush(old(State()).(g := Graph(old(ns), old(created), overwritten)))
    {
      src := src.(
        definitions := map d | d in src.definitions && d !in overwritten :: src.definitions[d],
        written := map d | d in src.written && d !in overwritten :: src.written[d]);
      members := map d | d in members && d !in overwritten :: members[d];
    }

    /** `ancestors_of` */
    method Ancestors(d: DeclId) returns (chain: Graphs.Ancestors)
      requires Usable(src, State().g) && d in ns
      modifies this`src, this`ns, this`members, this`created
      ensures State() == Linearized(old(State()), d)
      ensures chain == AncestorsOf(old(src), old(State()).g, d).ancestors
    {
      hide Usable, AncestorsOf, Flush;
      var resolver := new Resolver(src, Graph(ns, created, []));
      chain := resolver.Ancestors(d);
      ns, created := resolver.ns, resolver.unitQueue;
      Forget(resolver.overwritten);
    }

    /** `search_ancestors` */
    method SearchAncestors(d: DeclId, str: StringId) returns (r: Resolution)
      requires Coherent(p, State()) && d in ns
      modifies this`src, this`ns, this`members, this`created
      ensures (State(), r) == LiveLookups.SearchAncestors(p, old(State()), d, str)
    {
      hide Coherent, Usable, AncestorsOf, Stored.SearchChain, Linearized;
      CoherentReady(p, State());
      var chain := Ancestors(d);
      r := Stored.SearchChainLoop(Snapshot(p, State()), d, chain, str);
    }

    /** The inherited part of `run_resolution`. */
    method SearchInnermost(scope: NameRef, str: StringId) returns (r: Resolution, d: Option<DeclId>)
      requires Coherent(p, State()) && (scope.Resolved? ==> scope.declaration in References(src))
      modifies this`src, this`ns, this`members, this`created
      ensures (State(), r, d) == LiveLookups.SearchInnermost(p, old(State()), scope, str)
    {
      hide Coherent, References, LiveLookups.SearchAncestors, AliasChains, IsAlias, Stored.FirstScope;
      if scope.Unresolved? { return Retry(None), None; }
      var ids := ResolveAliasChains(src, scope.declaration);
      FirstScopeIn(src, ids);
      d := Stored.FindScope(src, ids);
      if d.None? { return NotFound(None), None; }
      if IsAlias(src, d.value) { return Retry(None), None; }
      EndExists(p, State(), scope.declaration, d.value);
      r := SearchAncestors(d.value, str);
    }

    /** `run_resolution` */
    method RunResolution(scopes: seq<NameRef>, str: StringId) returns (r: Resolution)
      requires Coherent(p, State()) && ScopesKnown(src, scopes)
      modifies this`src, this`ns, this`members, this`created
      ensures (State(), r) == LiveLookups.RunResolution(p, old(State()), scopes, str)
    {
      hide Coherent, References, LiveLookups.SearchAncestors, LiveLookups.SearchInnermost, Stored.SearchLexical, Looked;
      ghost var s := State();
      NothingAsked(p, s, Retry(None));
      ObjectExists(p, s, s, Retry(None));
      if scopes == [] {
        r := SearchAncestors(OBJECT, str);
        return;
      }
      r := Stored.SearchLexicalScopes(Snapshot(p, State()), scopes, str);
      if !r.NotFound? { return; }
      var scope;
      r, scope := SearchInnermost(scopes[0], str);
      if r.Found? { return; }
      var isModule := scope.Some? && KindOf(src, scope.value) in {Module, Todo};
      if isModule || r.again.Some? {
        ObjectExists(p, s, State(), r);
        var fallback := SearchAncestors(OBJECT, str);
        if fallback.Found? { r := Found(fallback.id, r.again); }
      }
    }

    /** The loop over the targets of a scope. */
    method SearchTargets(target: DeclId, str: StringId) returns (r: Resolution)
      requires Coherent(p, State()) && target in References(src)
      requires NamespacesExist(State(), AliasChains(src, target)) && Looked(p, State(), State(), NotFound(None))
      modifies this`src, this`ns, this`members, this`created
      ensures (State(), r) ==
        NameResolutions.SearchTargets(p, old(State()), old(State()), AliasChains(old(src), target), str, None, false)
    {
      hide Coherent, References, LiveLookups.SearchAncestors, AliasChains, Looked, NamespacesExist, IsAlias, IsNamespace;
      ghost var start := State();
      var ids := ResolveAliasChains(src, target);
      var missing, searched := None, false;
      for i := 0 to |ids|
        invariant Coherent(p, State()) && NamespacesExist(State(), ids[i..]) && Looked(p, start, State(), NotFound(missing))
        invariant NameResolutions.SearchTargets(p, start, State(), ids[i..], str, missing, searched)
               == NameResolutions.SearchTargets(p, start, start, ids, str, None, false)
      {
        assert ids[i..][1..] == ids[i + 1..];
        NamespacesExistRest(State(), ids[i..]);
        if IsAlias(src, ids[i]) { return Retry(None); }
        if IsNamespace(src, ids[i]) {
          ghost var s := State();
          var found := SearchAncestors(ids[i], str);
          SearchedOne(p, start, s, missing, State(), found, ids[i + 1..]);
          if found.Found? { return found; }
          searched := true;
          if missing.None? { missing := found.again; }
        }
      }
      r := if !searched then NotFound(None) else if missing.None? then Retry(None) else NotFound(missing);
    }

    // ---- names ----

    /** `record_resolved_name` */
    method Record(n: NameId, d: DeclId)
      modifies this`src
      ensures State() == RecordName(old(State()), n, d)
    {
      if Target(src, n).None? { src := src.(names := src.names[n := Resolved(d)]); }
    }

    /** `get_or_create_singleton_class` */
    method GetOrCreateSingletonClass(d: DeclId) returns (c: Option<DeclId>)
      modifies this`src, this`ns, this`members, this`created
      ensures (State(), c) == NameResolutions.GetOrCreateSingletonClass(old(State()), d)
    {
      if IsAlias(src, d) {
        var m := ResolveToNamespace(src, d);
        if m.None? { return None; }
        c := SingletonClassOf(m.value);
        return;
      }
      if d.Named? && KindOf(src, d) == Constant {
        if !AllPromotable(src, d) { return None; }
        Promote(d.key);
      }
      c := SingletonClassOf(d);
    }

    method SingletonClassOf(d: DeclId) returns (c: Option<DeclId>)
      modifies this`src, this`ns, this`members, this`created
      ensures (State(), c) == SingletonOfNamespace(old(State()), d)
    {
      if d !in ns { return None; }
      FlushNothing(State());
      if ns[d].singleton.Some? { return ns[d].singleton; }
      var made := SingletonOf(d, None);
      var overwritten := if made in ns then [made] else [];
      assert [] + [made] == [made];
      ns := ns[d := ns[d].(singleton := Some(made))];
      ns := ns[made := EMPTY_NAMESPACE];
      created := created + [made];
      Forget(overwritten);
      c := Some(made);
    }

    /** `promote_constant_to_namespace` */
    method Promote(k: nat)
      modifies this`src, this`ns, this`members, this`created
      ensures State() == PromoteConstant(old(State()), k)
    {
      src := src.(kinds := src.kinds[k := Module], written := src.written - {Named(k)});
      ns := ns[Named(k) := EMPTY_NAMESPACE];
      created := created + [Named(k)];
    }

    /** The case of `resolve_constant_internal` for a name attached to an object. */
    method ResolveAttached(n: NameId, attached: NameId) returns (r: Resolution)
      modifies this`src, this`ns, this`members, this`created
      ensures (State(), r) == NameResolutions.ResolveAttached(old(State()), n, attached)
    {
      hide AliasChains, IsAlias, FirstNamespace, NameResolutions.GetOrCreateSingletonClass, RecordName;
      match Target(src, attached)
      case None => r := Retry(None);
      case Some(target) =>
        var d := target;
        if IsAlias(src, target) {
          var ids := ResolveAliasChains(src, target);
          if exists id | id in ids :: IsAlias(src, id) { return Retry(None); }
          var m := FirstNamespace(src, ids);
          if m.None? { return NotFound(None); }
          d := m.value;
        }
        var c := GetOrCreateSingletonClass(d);
        if c.None? {
          SameStore(old(State()), d);
          return NotFound(None);
        }
        Record(n, c.value);
        r := Found(c.value, c);
    }

    /** `resolve_constant_internal` */
    method ResolveConstant(n: NameId) returns (r: Resolution)
      requires Coherent(p, State()) && n in p.names && Rooted(p.names, n, p.height)
      modifies this`src, this`ns, this`members, this`created
      ensures (State(), r) == NameResolutions.ResolveConstant(p, old(State()), n)
    {
      hide Coherent, Looked, Rooted, Target, Nesting, Scopes, LiveLookups.SearchAncestors, LiveLookups.RunResolution,
        NameResolutions.SearchTargets, NameResolutions.ResolveAttached, RecordName, AliasChains, References, NamespacesExist;
      ghost var s := State();
      NothingAsked(p, s, Retry(None));
      NothingAsked(p, s, NotFound(None));
      var known := Target(src, n);
      if known.Some? { return Found(known.value, None); }
      var name := p.names[n];
      match name.parentScope
      case Attached(attached) =>
        r := ResolveAttached(n, attached);
      case TopLevel =>
        ObjectExists(p, s, s, Retry(None));
        r := SearchAncestors(OBJECT, name.str);
        if r.Found? { Record(n, r.id); }
      case NoScope =>
        var nesting := Nesting(p.names, n, p.height);
        ScopesAreKnown(src, nesting);
        r := RunResolution(Scopes(src, nesting), name.str);
        if r.Found? { Record(n, r.id); }
      case Scope(scope) =>
        var target := Target(src, scope);
        if target.None? { return Retry(None); }
        TargetIsReference(src, scope);
        TargetEndsExist(p, s, target.value);
        r := SearchTargets(target.value, name.str);
        if r.Found? { Record(n, r.id); }
    }

    // ---- definitions ----

    /** `resolve_to_primary_namespace` */
    method PrimaryNamespace(d: DeclId, again: Option<DeclId>) returns (r: Resolution)
      ensures r == PrimaryEnd(src, d, again)
    {
      var ids := ResolveAliasChains(src, d);
      r := if ids == [] || IsAlias(src, ids[0]) then Retry(None) else Found(ids[0], again);
    }

    /** `name_owner_id` */
    method NameOwnerId(n: NameId, singleton: bool) returns (r: Resolution)
      requires WellFormed(p) && Coherent(p, State()) && n in p.names
      modifies this`src, this`ns, this`members, this`created
      ensures (State(), r) == NameOwner(p, old(State()), n, singleton)
    {
      hide Coherent, WellFormed, Rooted, NameResolutions.ResolveConstant, PrimaryEnd, Target;
      ScopesRooted(p, n);
      var name := p.names[n];
      match ScopeId(name.parentScope)
      case Some(scope) =>
        r := ResolveConstant(scope);
        if r.Found? {
          r := PrimaryNamespace(r.id, r.again);
        } else if r == Retry(None) && !singleton {
          r := NotFound(None);
        }
      case None =>
        if name.nesting.Some? && !name.parentScope.TopLevel? {
          match Target(src, name.nesting.value) {
            case Some(d) => r := PrimaryNamespace(d, None);
            case None => r := Retry(None);
          }
        } else {
          r := Found(OBJECT, None);
        }
    }

    /** `add_member` */
    method AddMemberOf(owner: DeclId, str: StringId, d: DeclId)
      modifies this`members
      ensures State() == AddMember(old(State()), owner, str, d)
    {
      members := members[owner := (if owner in members then members[owner] else map[])[str := d]];
    }

    /** `add_definition` */
    method AddDefinitionTo(d: DeclId, def: Definition)
      modifies this`src
      ensures State() == AddDefinition(old(State()), d, def)
    {
      src := src.(definitions := src.definitions[d := DefinitionsOf(src, d) + [def]]);
    }

    method DeclareAs(k: nat, kind: Kind)
      modifies this`src, this`ns
      ensures State() == Declare(old(State()), k, kind)
    {
      src := src.(kinds := src.kinds[k := kind], written := src.written - {Named(k)});
      if kind in {Class, Module, Todo} { ns := ns[Named(k) := EMPTY_NAMESPACE]; }
    }

    /** `create_todo_for_parent` */
    method CreateTodoForParent(n: NameId, ghost h: nat) returns (d: DeclId)
      requires WellFormed(p) && Coherent(p, State()) && Rooted(p.names, n, h) && ScopeId(p.names[n].parentScope).Some?
      modifies this`src, this`ns, this`members, this`created
      ensures (State(), d) == CreateTodo(p, old(State()), n, h)
      decreases h
    {
      hide Coherent, WellFormed, Rooted, NameOwner, PrimaryEnd, PlaceTodo, Placed, Owned, Grows;
      ghost var s := State();
      ScopeBelow(p, n, h);
      var parent := ScopeId(p.names[n].parentScope).value;
      var owner := OBJECT;
      if ScopeId(p.names[parent].parentScope).Some? {
        NameOwnerOwned(p, s, parent, false);
        var r := NameOwnerId(parent, false);
        OwnedParts(p, s, State(), r);
        if r.Found? { owner := r.id; } else { owner := CreateTodoForParent(parent, h - 1); }
      }
      var primary := PrimaryNamespace(owner, None);
      d := PlaceTodoIn(if primary.Found? then primary.id else OBJECT, p.names[parent].str);
    }

    method PlaceTodoIn(owner: DeclId, str: StringId) returns (d: DeclId)
      modifies this`src, this`ns, this`members
      ensures (State(), d) == PlaceTodo(p, old(State()), owner, str)
    {
      hide Declare, AddMember;
      var k := p.key(owner, str);
      d := Named(k);
      if k !in src.kinds {
        DeclareAs(k, Todo);
        if IsNamespace(src, owner) { AddMemberOf(owner, str, d); }
      }
    }

    /** `add_declaration` for a constant: whether it made a namespace. */
    method AddDeclaration(k: nat, kind: Kind) returns (isNew: bool)
      modifies this`src, this`ns
      ensures State() == Redeclare(old(State()), k, kind)
      ensures isNew == (k !in old(src).kinds || Promotes(old(State()), k, kind))
    {
      hide Declare, AllPromotable;
      isNew := k !in src.kinds || Promotes(State(), k, kind);
      if isNew { DeclareAs(k, kind); }
    }

    /** The rest of `handle_constant_declaration`, once the owner of a constant is known. */
    method DeclareConstantIn(owner: DeclId, n: NameId, def: Definition, again: Option<DeclId>)
        returns (r: Resolution, isNew: bool)
      requires n in p.names
      modifies this`src, this`ns, this`members
      ensures Handled(State(), r, isNew) == DeclareConstant(p, old(State()), owner, n, p.names[n].str, def, again)
    {
      hide Redeclare, Promotes, RecordName, AddMember, AddDefinition;
      var isNamespace := owner in ns;
      var k := p.key(owner, p.names[n].str);
      isNew := AddDeclaration(k, KindFor(def));
      isNew := isNew && KindFor(def) in {Class, Module};
      AddDefinitionTo(Named(k), def);
      if isNamespace { AddMemberOf(owner, p.names[n].str, Named(k)); }
      Record(n, Named(k));
      r := Found(Named(k), again);
    }

    /** The same for a singleton class that is written out. */
    method DeclareSingletonOf(owner: DeclId, n: NameId, def: Definition, again: Option<DeclId>)
        returns (r: Resolution, isNew: bool)
      requires n in p.names && owner in ns
      modifies this`src, this`ns
      ensures Handled(State(), r, isNew) == DeclareSingleton(p, old(State()), owner, n, p.names[n].str, def, again)
    {
      hide RecordName, AddDefinition, WrittenTag;
      var tag := WrittenTag(p, owner, p.names[n].str);
      var c := SingletonOf(owner, tag);
      isNew := c !in ns;
      ns := ns[owner := ns[owner].(singleton := Some(c))];
      if isNew { ns := ns[c := EMPTY_NAMESPACE]; }
      match tag {
        case None => src := src.(written := src.written - {owner});
        case Some(str) => src := src.(labels := src.labels + {str}, written := src.written[owner := str]);
      }
      AddDefinitionTo(c, def);
      Record(n, c);
      r := Found(c, again);
    }

    method DeclareInOwner(owner: DeclId, n: NameId, def: Definition, again: Option<DeclId>) returns (r: Resolution, isNew: bool)
      requires n in p.names
      modifies this`src, this`ns, this`members, this`created
      ensures Handled(State(), r, isNew) == DeclareIn(p, old(State()), owner, n, def, again)
    {
      hide DeclareConstant, DeclareSingleton, AllPromotable, PromoteConstant;
      if owner.Named? && KindOf(src, owner) == Constant && AllPromotable(src, owner) { Promote(owner.key); }
      if !def.SingletonClassDef? {
        r, isNew := DeclareConstantIn(owner, n, def, again);
      } else if owner in ns {
        r, isNew := DeclareSingletonOf(owner, n, def, again);
      } else {
        r, isNew := NotFound(None), false;
      }
    }

    /** `handle_constant_declaration` */
    method HandleConstantDeclaration(n: NameId, def: Definition) returns (r: Resolution, isNew: bool)
      requires WellFormed(p) && Coherent(p, State()) && n in p.names
      modifies this`src, this`ns, this`members, this`created
      ensures Handled(State(), r, isNew) == HandleConstant(p, old(State()), n, def)
    {
      hide Coherent, WellFormed, Rooted, NameOwner, DeclareIn, Owned, Grows, CreateTodo;
      ghost var s := State();
      NameOwnerOwned(p, s, n, def.SingletonClassDef?);
      UnknownOwnerHasScope(p, s, n, def.SingletonClassDef?);
      ScopesRooted(p, n);
      isNew := false;
      r := NameOwnerId(n, def.SingletonClassDef?);
      OwnedParts(p, s, State(), r);
      if r.Found? {
        r, isNew := DeclareInOwner(r.id, n, def, r.again);
      } else if r == NotFound(None) {
        if def.SingletonClassDef? {
          r := Retry(None);
        } else {
          var todo := CreateTodoForParent(n, p.height);
          r, isNew := DeclareInOwner(todo, n, def, None);
        }
      }
    }

    /** The case of `handle_definition_unit` for methods with a `self` receiver. */
    method HandleSelfReceiver(receiver: NameId, str: StringId) returns (r: Resolution)
      modifies this`src, this`ns, this`members, this`created
      ensures Handled(State(), r, false) == HandleSelfMethod(p, old(State()), receiver, str)
    {
      hide NameResolutions.GetOrCreateSingletonClass, Declare, AddMember, AddDefinition;
      match Target(src, receiver)
      case None => r := Retry(None);
      case Some(d) =>
        var c := GetOrCreateSingletonClass(d);
        if c.None? { return NotFound(None); }
        var k := p.methodKey(c.value, str);
        if k !in src.kinds { DeclareAs(k, OtherKind); }
        AddDefinitionTo(Named(k), OtherDef);
        AddMemberOf(c.value, str, Named(k));
        r := Found(c.value, None);
    }

    // ---- units ----

    /** The declarations created while a unit is handled are queued in the order in which they came. */
    method QueueCreated()
      modifies this`unitQueue, this`created
      ensures unitQueue == old(unitQueue) + AncestorUnits(old(created)) && State() == Cleared(old(State()))
    {
      for i := 0 to |created|
        invariant created == old(created) && unitQueue == old(unitQueue) + AncestorUnits(created[..i])
      {
        unitQueue := unitQueue + [AncestorUnit(created[i])];
        assert AncestorUnits(created[..i + 1]) == AncestorUnits(created[..i]) + [AncestorUnit(created[i])];
      }
      assert created[..|created|] == created;
      created := [];
    }

    method HandleDefinitionUnit(u: Unit)
      requires WellFormed(p) && AtRest(p, State()) && u.DefinitionUnit? && KnownUnit(p, u)
      modifies this`src, this`ns, this`members, this`created, this`unitQueue, this`madeProgress
      ensures var e := Handle(p, u, old(State()));
        && State() == e.state && unitQueue == old(unitQueue) + Pushed(u, e)
        && madeProgress == (old(madeProgress) || e.outcome.Found?)
    {
      hide Coherent, WellFormed, HandleConstant, HandleSelfMethod, Cleared, AncestorUnits, Usable, Linearized, PushedBack;
      CoherentReady(p, State());
      assert WellFormedTask(p, p.tasks[u.id]) by { TaskIsWellFormed(p, u.id); }
      var r, needsLinearization := Retry(None), false;
      match p.tasks[u.id] {
        case ConstantTask(n, def) => r, needsLinearization := HandleConstantDeclaration(n, def);
        case SelfMethodTask(receiver, str) => r := HandleSelfReceiver(receiver, str);
      }
      ghost var t := State();
      QueueCreated();
      QueueOutcome(u, r, needsLinearization);
      SamePushedBack(u, Effect(State(), [], r, needsLinearization), Effect(Cleared(t), t.g.queue, r, needsLinearization));
    }

    /** What a definition unit leaves in the queue. */
    method QueueOutcome(u: Unit, r: Resolution, needsLinearization: bool)
      requires u.DefinitionUnit?
      modifies this`unitQueue, this`madeProgress
      ensures unitQueue == old(unitQueue) + PushedBack(u, Effect(State(), [], r, needsLinearization))
      ensures madeProgress == (old(madeProgress) || r.Found?)
    {
      match r {
        case Retry(None) => unitQueue := unitQueue + [u];
        case NotFound(None) =>
        case Retry(Some(d)) => unitQueue := unitQueue + [u, AncestorUnit(d)];
        case NotFound(Some(d)) => unitQueue := unitQueue + [u, AncestorUnit(d)];
        case Found(id, None) =>
          if needsLinearization { unitQueue := unitQueue + [AncestorUnit(id)]; }
          madeProgress := true;
        case Found(_, Some(d)) =>
          unitQueue := unitQueue + [AncestorUnit(d)];
          madeProgress := true;
      }
    }

    method HandleReferenceUnit(u: Unit)
      requires WellFormed(p) && AtRest(p, State()) && u.ReferenceUnit? && KnownUnit(p, u)
      modifies this`src, this`ns, this`members, this`created, this`unitQueue, this`madeProgress, this`recorded
      ensures var e := Handle(p, u, old(State()));
        && State() == e.state && unitQueue == old(unitQueue) + Pushed(u, e)
        && madeProgress == (old(madeProgress) || e.outcome.Found?)
        && recorded == Logged(old(recorded), u, e.outcome)
    {
      hide Coherent, WellFormed, Rooted, NameResolutions.ResolveConstant, Cleared, AncestorUnits, Usable, Linearized;
      CoherentReady(p, State());
      ReferenceIsName(p, u.id);
      ScopesRooted(p, p.references[u.id]);
      var r := ResolveConstant(p.references[u.id]);
      QueueCreated();
      match r {
        case Retry(None) => unitQueue := unitQueue + [u];
        case NotFound(None) => unitQueue := unitQueue + [u];
        case Retry(Some(d)) => unitQueue := unitQueue + [u, AncestorUnit(d)];
        case NotFound(Some(d)) => unitQueue := unitQueue + [u, AncestorUnit(d)];
        case Found(_, None) =>
          recorded := recorded + [u.id];
          madeProgress := true;
        case Found(_, Some(d)) =>
          recorded := recorded + [u.id];
          madeProgress := true;
          unitQueue := unitQueue + [AncestorUnit(d)];
      }
    }

    method HandleAncestorUnit(u: Unit)
      requires WellFormed(p) && AtRest(p, State()) && u.AncestorUnit?
      modifies this`src, this`ns, this`members, this`created, this`unitQueue, this`madeProgress
      ensures var e := Handle(p, u, old(State()));
        && State() == e.state && unitQueue == old(unitQueue) + Pushed(u, e)
        && madeProgress == (old(madeProgress) || e.outcome.Found?)
    {
      hide Coherent, WellFormed, AncestorsOf, Cleared, AncestorUnits, Usable, Linearized;
      CoherentReady(p, State());
      if u.declaration !in ns {
        assert AncestorUnits([]) == [] by { NothingQueued(); }
        unitQueue := unitQueue + [u];
        return;
      }
      var chain := Ancestors(u.declaration);
      QueueCreated();
      if chain.Finished() {
        madeProgress := true;
      } else {
        unitQueue := unitQueue + [u];
      }
    }

    method HandleUnit(u: Unit)
      requires WellFormed(p) && AtRest(p, State()) && KnownUnit(p, u)
      modifies this`src, this`ns, this`members, this`created, this`unitQueue,
          this`madeProgress, this`recorded
      ensures var e := Follow(p, u, old(State()));
        && State() == e.state && unitQueue == old(unitQueue) + Pushed(u, e)
        && madeProgress == (old(madeProgress) || e.outcome.Found?)
        && recorded == Logged(old(recorded), u, e.outcome)
    {
      hide Coherent, WellFormed, Handle, AncestorUnits;
      match u
      case DefinitionUnit(_) => HandleDefinitionUnit(u);
      case ReferenceUnit(_) => HandleReferenceUnit(u);
      case AncestorUnit(_) => HandleAncestorUnit(u);
    }

    /** One pass over the current length of the queue. */
    method RunQueue()
      requires WellFormed(p) && Fits(HandlingOf(p), unitQueue, State())
      modifies this`src, this`ns, this`members, this`created, this`unitQueue,
          this`madeProgress, this`recorded
      ensures var q := RunPass(HandlingOf(p), Pass(old(unitQueue), [], old(State()), old(recorded), false));
        unitQueue == q.pushed && State() == q.state && recorded == q.recorded && madeProgress == q.progress
    {
      hide Pushed, Logged, WellFormed, Legal, AtRest, KnownUnit, Follow;
      HandlingIsLegal(p);
      ghost var h := HandlingOf(p);
      madeProgress := false;
      ghost var start := Pass(unitQueue, [], State(), recorded, false);
      ghost var q := start;
      assert unitQueue + [] == unitQueue;
      for i := 0 to |unitQueue|
        invariant unitQueue == q.left + q.pushed && |q.left| == |start.left| - i
        invariant State() == q.state && recorded == q.recorded && madeProgress == q.progress
        invariant RunPass(h, q) == RunPass(h, start) && PassFits(h, q)
      {
        ghost var e := h.handle(q.left[0], q.state);
        AdvanceFits(h, q);
        assert (q.left + q.pushed)[1..] + Pushed(q.left[0], e) == q.left[1..] + (q.pushed + Pushed(q.left[0], e));
        var u := unitQueue[0];
        assert u in q.left + q.pushed;
        unitQueue := unitQueue[1..];
        HandleUnit(u);
        q := Advance(h, q);
      }
    }

    /** `resolve` always ends, and hands back what is left over. */
    method Resolve()
      requires WellFormed(p) && Fits(HandlingOf(p), unitQueue, State()) && recorded == []
      modifies this
      ensures var (left, s, log) := Handlings.Resolve(p, old(unitQueue), old(State()));
        pendingWork == old(pendingWork) + left && State() == s && recorded == log && unitQueue == []
    {
      hide WellFormed, Fits, RunPass, Heads, Open, Handlings.Resolve, HandlingOf, AtRest, KnownUnit;
      Starts(p, unitQueue, State());
      ghost var goal := Handlings.Resolve(p, unitQueue, State());
      while true
        invariant Heads(p, unitQueue, State(), recorded, goal)
        invariant pendingWork == old(pendingWork)
        decreases Open(p, unitQueue, State()).0, Open(p, unitQueue, State()).1, Open(p, unitQueue, State()).2,
          Open(p, unitQueue, State()).3
      {
        HeadsFurther(p, unitQueue, State(), recorded, goal);
        RunQueue();
        if !madeProgress || unitQueue == [] { break; }
      }
      pendingWork := pendingWork + unitQueue;
      unitQueue := [];
    }
  }

  /** What is still open: definitions and references, what can be lost, unfinished chains, and units of finished ones. */
  ghost function Open(p: Program, queue: seq<Unit>, s: Store): (nat, nat, nat, nat) {
    (ResolutionLoops.Names(queue), LossLeft(s.g), Unfinished(HandlingOf(p), s), Leftovers(queue, FinishedIds(s.g)))
  }

  /** A state of the loop that leads to `goal`. */
  ghost predicate Heads(p: Program, queue: seq<Unit>, s: Store, log: seq<nat>, goal: (seq<Unit>, Store, seq<nat>)) {
    && WellFormed(p) && Legal(HandlingOf(p)) && Fits(HandlingOf(p), queue, s)
    && Converge(HandlingOf(p), queue, s, log) == goal
  }

  lemma Starts(p: Program, queue: seq<Unit>, s: Store)
    requires WellFormed(p) && Fits(HandlingOf(p), queue, s)
    ensures AtRest(p, s) && (forall u | u in queue :: KnownUnit(p, u))
    ensures Heads(p, queue, s, [], Handlings.Resolve(p, queue, s))
  {
    HandlingIsLegal(p);
    hide WellFormed, Legal, AtRest, KnownUnit, Converge;
  }

  lemma HeadsFurther(p: Program, queue: seq<Unit>, s: Store, log: seq<nat>, goal: (seq<Unit>, Store, seq<nat>))
    requires Heads(p, queue, s, log, goal)
    ensures WellFormed(p) && Fits(HandlingOf(p), queue, s)
    ensures var q := RunPass(HandlingOf(p), Pass(queue, [], s, log, false));
      if !q.progress || q.pushed == [] then goal == (q.pushed, q.state, q.recorded)
      else
        && Heads(p, q.pushed, q.state, q.recorded, goal)
        && var (now, next) := (Open(p, queue, s), Open(p, q.pushed, q.state));
           next.0 < now.0 || (next.0 == now.0 && (next.1 < now.1 || (next.1 == now.1 &&
             (next.2 < now.2 || (next.2 == now.2 && next.3 < now.3)))))
  {
    ConvergeSteps(HandlingOf(p), queue, s, log);
    hide WellFormed, Legal, Fits, RunPass, Converge, ResolutionLoops.Names, Unfinished, Leftovers, LossLeft, FinishedIds;
  }

  lemma SamePushedBack<S>(u: Unit, e: Effect<S>, f: Effect<S>)
    requires e.outcome == f.outcome && e.needsLinearization == f.needsLinearization
    ensures PushedBack(u, e) == PushedBack(u, f)
  {
  }

  lemma TaskIsWellFormed(p: Program, id: nat)
    requires WellFormed(p) && id in p.tasks
    ensures WellFormedTask(p, p.tasks[id])
  {
  }

  lemma ReferenceIsName(p: Program, id: nat)
    requires WellFormed(p) && id in p.references
    ensures p.references[id] in p.names
  {
  }

  lemma NothingQueued()
    ensures AncestorUnits([]) == []
  {
  }

  lemma SameStore(s: Store, d: DeclId)
    ensures var (t, c) := NameResolutions.GetOrCreateSingletonClass(s, d); c.None? ==> t == s
  {
    GetOrCreateCases(s, d);
    hide IsAlias, ResolveToNamespace, AllPromotable, PromoteConstant, NameResolutions.GetOrCreateSingletonClass;
  }
}
