/** The resolver's own way to handle a unit, and what the resolution loop does with it. */
module Handlings {
  import opened Declarations
  import opened NameDepths
  import opened Aliases
  import opened Graphs
  import opened Links
  import opened Hierarchy
  import opened Linearization
  import opened Lookups
  import opened Creations
  import opened Programs
  import opened LiveLookups
  import opened NameResolutions
  import opened DefinitionUnits
  import opened FoundConstants
  import opened ResolutionLoops

  /** What was queued on the way has been taken off. */
  function Cleared(s: Store): Store {
    s.(g := s.g.(queue := []))
  }

  predicate KnownUnit(p: Program, u: Unit) {
    match u
    case DefinitionUnit(id) => id in p.tasks
    case ReferenceUnit(id) => id in p.references
    case AncestorUnit(_) => true
  }

  /** A store between two units. */
  ghost predicate AtRest(p: Program, s: Store) {
    Coherent(p, s) && s.g.queue == []
  }

  ghost function HandleTask(p: Program, s: Store, task: Task): Handled
    requires WellFormed(p) && Coherent(p, s) && WellFormedTask(p, task)
  {
    match task
    case ConstantTask(n, def) => HandleConstant(p, s, n, def)
    case SelfMethodTask(receiver, str) => HandleSelfMethod(p, s, receiver, str)
  }

  /** Handling a unit. A declaration that does not exist makes the program panic; here its unit just stays. */
  ghost function Handle(p: Program, u: Unit, s: Store): Effect<Store>
    requires WellFormed(p) && Coherent(p, s) && KnownUnit(p, u)
  {
    CoherentReady(p, s);
    match u
    case DefinitionUnit(id) =>
      var h := HandleTask(p, s, p.tasks[id]);
      Effect(Cleared(h.store), h.store.g.queue, h.outcome, h.isNew)
    case ReferenceUnit(id) =>
      ScopesRooted(p, p.references[id]);
      var (t, r) := ResolveConstant(p, s, p.references[id]);
      Effect(Cleared(t), t.g.queue, r, false)
    case AncestorUnit(d) =>
      if d !in s.g.ns then Stalled(s)
      else
        var chain, t := AncestorsOf(s.src, s.g, d).ancestors, Linearized(s, d);
        Effect(Cleared(t), t.g.queue, if chain.Finished() then Found(d, None) else Retry(None), false)
  }

  function Stalled(s: Store): Effect<Store> {
    Effect(s, [], Retry(None), false)
  }

  /** The same as a total function; outside of what holds throughout every run it does nothing. */
  ghost function Follow(p: Program, u: Unit, s: Store): Effect<Store> {
    if WellFormed(p) && Coherent(p, s) && KnownUnit(p, u) then Handle(p, u, s) else Stalled(s)
  }

  ghost function UniverseIn(s: Store): set<DeclId> {
    Universe(s.src, LevelBound(s.g))
  }

  ghost function HandlingOf(p: Program): Handling<Store> {
    Handling((u: Unit, s: Store) => Follow(p, u, s), (s: Store) => FinishedIds(s.g), (s: Store) => UniverseIn(s),
             (s: Store) => LossLeft(s.g), (s: Store) => AtRest(p, s), u => KnownUnit(p, u))
  }

  // ---- a step that is not used up ----

  lemma {:induction false} UniverseByKinds(src: Source, src': Source, level: nat)
    requires src'.kinds.Keys == src.kinds.Keys && src'.labels == src.labels
    ensures Universe(src', level) == Universe(src, level)
  {
    hide Tags;
    assert Tags(src') == Tags(src) by { SameTags(src, src'); }
    if level > 0 { UniverseByKinds(src, src', level - 1); }
  }

  lemma SameTags(src: Source, src': Source)
    requires src'.labels == src.labels
    ensures Tags(src') == Tags(src)
  {
  }

  lemma ClearedLooks(p: Program, s: Store)
    ensures var t := Cleared(s);
      FinishedIds(t.g) == FinishedIds(s.g) && UniverseIn(t) == UniverseIn(s) && LossLeft(t.g) == LossLeft(s.g)
    ensures Coherent(p, s) ==> AtRest(p, Cleared(s))
  {
    var t := Cleared(s);
    assert FinishedIds(t.g) == FinishedIds(s.g);
    assert Lost(t.g) == Lost(s.g);
    SameBoundOf(s.g, t.g);
    if Coherent(p, s) { QueueCoherent(p, s, []); }
    hide Coherent, Universe, Lost, Weight, LevelBound;
  }

  /** A quiet step pays for what it overwrites, or makes no room, lets chains finish at most, and queues nothing that
      is finished. */
  lemma QuietIsIdle(p: Program, u: Unit, s: Store, t: Store, r: Resolution, isNew: bool)
    requires s.g.queue == [] && Quiet(p, s, t)
    requires r.again.Some? ==> r.again.value !in FinishedIds(s.g) || LossLeft(t.g) < LossLeft(s.g)
    ensures Idle(HandlingOf(p), u, s, Effect(Cleared(t), t.g.queue, r, isNew))
  {
    ClearedLooks(p, t);
    QuietLoss(p, s, t);
    var e := Effect(Cleared(t), t.g.queue, r, isNew);
    hide *;
    if LossLeft(t.g) == LossLeft(s.g) {
      QuietIsCalm(p, s, t);
      SameUniverse(s, t);
      MadeUnfinished(s, t);
    }
    IsIdle(p, u, s, e);
  }

  lemma SameUniverse(s: Store, t: Store)
    requires t.src.kinds == s.src.kinds && t.src.labels == s.src.labels && LevelBound(t.g) == LevelBound(s.g)
    ensures UniverseIn(t) == UniverseIn(s)
  {
    UniverseByKinds(s.src, t.src, LevelBound(s.g));
    hide Universe, LevelBound;
  }

  lemma IsIdle(p: Program, u: Unit, s: Store, e: Effect<Store>)
    requires LossLeft(e.state.g) < LossLeft(s.g) || (
      && LossLeft(e.state.g) == LossLeft(s.g)
      && UniverseIn(e.state) == UniverseIn(s) && FinishedIds(s.g) <= FinishedIds(e.state.g)
      && (forall i | 0 <= i < |e.created| :: e.created[i] !in FinishedIds(s.g))
      && (e.outcome.again.Some? ==> e.outcome.again.value !in FinishedIds(s.g)))
    ensures Idle(HandlingOf(p), u, s, e)
  {
    hide LossLeft, UniverseIn, FinishedIds, Follow, AtRest;
  }

  lemma QuietIsCalm(p: Program, s: Store, t: Store)
    requires Quiet(p, s, t) && LossLeft(t.g) == LossLeft(s.g)
    ensures Calm(s, t) && t.src.kinds == s.src.kinds && t.src.labels == s.src.labels && LevelBound(t.g) == LevelBound(s.g)
  {
    hide Calm, Coherent, LevelBound, LossLeft, NamesKept;
  }

  lemma MadeUnfinished(s: Store, t: Store)
    requires Calm(s, t) && s.g.queue == []
    ensures forall i | 0 <= i < |t.g.queue| :: t.g.queue[i] !in FinishedIds(s.g)
  {
    assert t.g.queue[|s.g.queue|..] == t.g.queue;
    hide Lost, FinishedKept;
    forall i | 0 <= i < |t.g.queue| ensures t.g.queue[i] !in FinishedIds(s.g) { assert t.g.queue[i] in t.g.queue; }
  }

  lemma FinishedInside(p: Program, s: Store)
    requires AtRest(p, s)
    ensures FinishedIds(s.g) <= UniverseIn(s)
  {
    CoherentReady(p, s);
    FinishedInUniverse(s.src, s.g, LevelBound(s.g)) by { BoundIsBound(s.g); }
    hide Coherent, Universe;
  }

  lemma BoundIsBound(g: Graph)
    ensures WithinLevel(g, LevelBound(g))
  {
  }

  // ---- the three kinds of units ----

  lemma DefinitionIsLegal(p: Program, id: nat, s: Store)
    requires WellFormed(p) && AtRest(p, s) && id in p.tasks
    ensures LegalEffect(HandlingOf(p), DefinitionUnit(id), s, Handle(p, DefinitionUnit(id), s))
  {
    hide Coherent, Rooted, Looked, Grows, HandleConstant, HandleSelfMethod, Idle, Cleared, UniverseIn, FinishedIds, LossLeft,
      Follow, Usable;
    var task := p.tasks[id];
    match task {
      case ConstantTask(n, def) => HandleConstantCloses(p, s, n, def);
      case SelfMethodTask(receiver, str) => HandleSelfMethodCloses(p, s, receiver, str);
    }
    var h := HandleTask(p, s, task);
    ClosedAtRest(p, s, h);
    if !UsedUp(DefinitionUnit(id), h.outcome) {
      LookedQuiet(p, s, h.store, h.outcome);
      QuietIsIdle(p, DefinitionUnit(id), s, h.store, h.outcome, h.isNew);
    }
  }

  lemma ClosedAtRest(p: Program, s: Store, h: Handled)
    requires Closed(p, s, h)
    ensures AtRest(p, Cleared(h.store))
  {
    GrowsCoherent(p, s, h.store);
    ClearedLooks(p, h.store);
    hide Coherent, Grows, Looked;
  }

  lemma LookedQuiet(p: Program, s: Store, t: Store, r: Resolution)
    requires Looked(p, s, t, r)
    ensures Quiet(p, s, t)
    ensures r.again.Some? ==> r.again.value !in FinishedIds(s.g) || LossLeft(t.g) < LossLeft(s.g)
  {
    hide Quiet, FinishedIds, LossLeft;
  }

  lemma ReferenceIsLegal(p: Program, id: nat, s: Store)
    requires WellFormed(p) && AtRest(p, s) && id in p.references
    ensures LegalEffect(HandlingOf(p), ReferenceUnit(id), s, Handle(p, ReferenceUnit(id), s))
  {
    hide Coherent, Rooted, Looked, Grows, ResolveConstant, Idle, Cleared, UniverseIn, FinishedIds, LossLeft, Follow, Usable;
    var n := p.references[id];
    ScopesRooted(p, n);
    ResolveConstantSettles(p, s, n);
    var (t, r) := ResolveConstant(p, s, n);
    GrowsCoherent(p, s, t);
    ClearedLooks(p, t);
    if !r.Found? {
      LookedQuiet(p, s, t, r);
      QuietIsIdle(p, ReferenceUnit(id), s, t, r, false);
    }
  }

  lemma AncestorIsLegal(p: Program, d: DeclId, s: Store)
    requires WellFormed(p) && AtRest(p, s)
    ensures LegalEffect(HandlingOf(p), AncestorUnit(d), s, Handle(p, AncestorUnit(d), s))
  {
    hide Coherent, WellFormed, Idle, Follow, AncestorsOf, Universe, Usable, Quiet, Calm, Linearized, LossLeft;
    CoherentReady(p, s);
    if d in s.g.ns {
      LinearizingIsQuiet(p, s, d);
      var t := Linearized(s, d);
      LinearizedStores(s, d);
      QuietCoherent(p, s, t);
      ClearedLooks(p, t);
      QuietIsIdle(p, AncestorUnit(d), s, t,
                  if AncestorsOf(s.src, s.g, d).ancestors.Finished() then Found(d, None) else Retry(None), false);
    } else {
      StalledIsIdle(p, AncestorUnit(d), s);
    }
  }

  lemma LinearizedStores(s: Store, d: DeclId)
    requires Usable(s.src, s.g) && d in s.g.ns
    ensures d in FinishedIds(Linearized(s, d).g) <==> AncestorsOf(s.src, s.g, d).ancestors.Finished()
  {
    TopLevelStored(s.src, s.g, d);
    FlushParts(s.(g := AncestorsOf(s.src, s.g, d).g));
    hide AncestorsOf, Usable, Flush, Lost;
  }

  lemma QuietCoherent(p: Program, s: Store, t: Store)
    requires Quiet(p, s, t)
    ensures Coherent(p, t)
  {
  }

  lemma StalledIsIdle(p: Program, u: Unit, s: Store)
    ensures Idle(HandlingOf(p), u, s, Stalled(s))
  {
    hide LossLeft, FinishedIds, UniverseIn;
  }

  /** The resolver's handlers are legal: on every program and in every store they reach, whatever is not used up
      pays for each chain it throws away, or else makes no room for declarations, unfinishes nothing and asks for
      nothing that is finished. */
  lemma HandlingIsLegal(p: Program)
    requires WellFormed(p)
    ensures Legal(HandlingOf(p))
  {
    hide WellFormed, Coherent, LegalEffect, Handle, UniverseIn, FinishedIds, LossLeft;
    var h := HandlingOf(p);
    forall s | h.holds(s) ensures h.finished(s) <= h.universe(s) {
      FinishedInside(p, s);
    }
    forall u, s | h.holds(s) && h.known(u) ensures LegalEffect(h, u, s, h.handle(u, s)) {
      match u
      case DefinitionUnit(id) => DefinitionIsLegal(p, id, s);
      case ReferenceUnit(id) => ReferenceIsLegal(p, id, s);
      case AncestorUnit(d) => AncestorIsLegal(p, d, s);
    }
  }

  // ---- what is made is queued ----

  /** Every namespace that has come into being while a unit was handled is queued for linearization. */
  ghost predicate MadeIsQueued(u: Unit, s: Store, e: Effect<Store>) {
    forall x | x in e.state.g.ns && x !in s.g.ns :: AncestorUnit(x) in Pushed(u, e)
  }

  lemma QueueIsPushed(u: Unit, s: Store, t: Store, r: Resolution, isNew: bool)
    requires forall x | x in t.g.ns && x !in s.g.ns :: x in t.g.queue
    ensures MadeIsQueued(u, s, Effect(Cleared(t), t.g.queue, r, isNew))
  {
    var e := Effect(Cleared(t), t.g.queue, r, isNew);
    forall x | x in e.state.g.ns && x !in s.g.ns ensures AncestorUnit(x) in Pushed(u, e) { PushedExactly(u, e, AncestorUnit(x)); }
    hide Pushed;
  }

  /** An ancestor unit stores the chain it computes, and queues the singleton classes made for it. */
  lemma AncestorQueuesMade(p: Program, d: DeclId, s: Store)
    requires WellFormed(p) && AtRest(p, s) && d in s.g.ns
    ensures MadeIsQueued(AncestorUnit(d), s, Handle(p, AncestorUnit(d), s))
    ensures Usable(s.src, s.g) && Handle(p, AncestorUnit(d), s).state == Cleared(Linearized(s, d))
  {
    CoherentReady(p, s);
    LinearizedQueues(s, d);
    hide *;
    QueueIsPushed(AncestorUnit(d), s, Linearized(s, d),
                  if AncestorsOf(s.src, s.g, d).ancestors.Finished() then Found(d, None) else Retry(None), false);
    AncestorHandled(p, d, s);
  }

  lemma AncestorHandled(p: Program, d: DeclId, s: Store)
    requires WellFormed(p) && AtRest(p, s) && d in s.g.ns && Usable(s.src, s.g)
    ensures Handle(p, AncestorUnit(d), s) ==
      Effect(Cleared(Linearized(s, d)), Linearized(s, d).g.queue,
             if AncestorsOf(s.src, s.g, d).ancestors.Finished() then Found(d, None) else Retry(None), false)
  {
    hide WellFormed, Coherent, AncestorsOf, Usable, Linearized, Cleared;
  }

  lemma LinearizedQueues(s: Store, d: DeclId)
    requires Usable(s.src, s.g) && d in s.g.ns
    ensures var t := Linearized(s, d); forall x | x in t.g.ns && x !in s.g.ns :: x in t.g.queue
  {
    hide *;
    var ids := LinearizingCreates(s.src, s.g, d);
    var h := AncestorsOf(s.src, s.g, d).g;
    LinearizedIs(s, d);
    FlushParts(s.(g := h));
    CreatedQueued(s.g, h, ids, LevelBound(s.g));
  }

  lemma CreatedQueued(g: Graph, h: Graph, ids: seq<DeclId>, level: nat)
    requires Creates(g, h, ids, level)
    ensures forall x | x in h.ns && x !in g.ns :: x in h.queue
  {
  }

  lemma GetOrCreateQueues(s: Store, d: DeclId)
    ensures var t := GetOrCreateSingletonClass(s, d).0; forall x | x in t.g.ns && x !in s.g.ns :: x in t.g.queue
  {
    GetOrCreateCases(s, d);
    NamespaceQueues(s, d);
    if ResolveToNamespace(s.src, d).Some? { NamespaceQueues(s, ResolveToNamespace(s.src, d).value); }
    if d.Named? { NamespaceQueues(PromoteConstant(s, d.key), d); }
    hide GetOrCreateSingletonClass, SingletonOfNamespace, AllPromotable, ResolveToNamespace;
  }

  lemma NamespaceQueues(s: Store, d: DeclId)
    ensures var t := SingletonOfNamespace(s, d).0;
      (forall x | x in t.g.ns && x !in s.g.ns :: x in t.g.queue) && s.g.queue <= t.g.queue
  {
    if d in s.g.ns { FlushParts(s.(g := GetOrCreateSingleton(s.g, d).0)); }
    hide Flush;
  }

  /** A reference unit queues the singleton classes made for the chains it searches, or the one it stands for, as long as
      there is nothing to overwrite. */
  lemma ReferenceQueuesMade(p: Program, id: nat, s: Store)
    requires WellFormed(p) && AtRest(p, s) && id in p.references && Lost(s.g) == {}
    ensures MadeIsQueued(ReferenceUnit(id), s, Handle(p, ReferenceUnit(id), s))
  {
    hide *;
    var n := ReferenceHandled(p, id, s);
    ResolveConstantSettles(p, s, n);
    var (t, r) := ResolveConstant(p, s, n);
    if r.Found? && r.id.SingletonOf? {
      SingletonQueued(p, s, n);
    } else {
      ResolvesQuietly(p, s, n, t, r);
      NothingLeft(p, s, t);
      MadeQueued(s, t);
    }
    QueueIsPushed(ReferenceUnit(id), s, t, r, false);
  }

  lemma ReferenceHandled(p: Program, id: nat, s: Store) returns (n: NameId)
    requires WellFormed(p) && AtRest(p, s) && id in p.references
    ensures n in p.names && Rooted(p.names, n, p.height) && Coherent(p, s)
    ensures var (t, r) := ResolveConstant(p, s, n); Handle(p, ReferenceUnit(id), s) == Effect(Cleared(t), t.g.queue, r, false)
  {
    n := p.references[id];
    ScopesRooted(p, n);
    hide WellFormed, Coherent, Rooted, ResolveConstant, Cleared;
  }

  lemma ResolvesQuietly(p: Program, s: Store, n: NameId, t: Store, r: Resolution)
    requires Resolves(p, s, n, t, r) && !(r.Found? && r.id.SingletonOf?)
    ensures Quiet(p, s, t)
  {
    hide Quiet, Grows, Target;
  }

  /** A definition unit queues whatever its handler has queued, and the namespace it has made if nothing else was asked for. */
  lemma DefinitionQueuesMade(p: Program, id: nat, s: Store)
    requires WellFormed(p) && AtRest(p, s) && id in p.tasks
    ensures var h := HandleTask(p, s, p.tasks[id]);
      var e := Handle(p, DefinitionUnit(id), s);
      && e.outcome == h.outcome && e.state == h.store.(g := h.store.g.(queue := []))
      && (forall x | x in h.store.g.queue :: AncestorUnit(x) in Pushed(DefinitionUnit(id), e))
      && (h.isNew && h.outcome.Found? && h.outcome.again == None ==> AncestorUnit(h.outcome.id) in Pushed(DefinitionUnit(id), e))
  {
    assert WellFormedTask(p, p.tasks[id]);
    hide WellFormed, Coherent, HandleTask, Pushed, UsedUp;
    var h := HandleTask(p, s, p.tasks[id]);
    var e := Handle(p, DefinitionUnit(id), s);
    assert e == Effect(Cleared(h.store), h.store.g.queue, h.outcome, h.isNew);
    forall x | x in h.store.g.queue ensures AncestorUnit(x) in Pushed(DefinitionUnit(id), e) {
      PushedExactly(DefinitionUnit(id), e, AncestorUnit(x));
    }
    if h.outcome.Found? { PushedExactly(DefinitionUnit(id), e, AncestorUnit(h.outcome.id)); }
  }

  lemma MadeQueued(s: Store, t: Store)
    requires Calm(s, t)
    ensures forall x | x in t.g.ns && x !in s.g.ns :: x in t.g.queue
  {
    hide Lost, FinishedKept;
  }

  ghost predicate FoundThrough(s: Store, n: NameId, d: DeclId, t: Store, r: Resolution) {
    var (u, c) := GetOrCreateSingletonClass(s, d);
    c.Some? && t == RecordName(u, n, c.value) && r == Found(c.value, c)
  }

  lemma ThroughSingleton(s: Store, n: NameId, attached: NameId, t: Store, r: Resolution)
    requires (t, r) == ResolveAttached(s, n, attached) && r.Found?
    ensures exists d :: FoundThrough(s, n, d, t, r)
  {
    hide GetOrCreateSingletonClass, RecordName, AliasChains, FirstNamespace, IsAlias;
    var target := Target(s.src, attached).value;
    var d := if IsAlias(s.src, target) then FirstNamespace(s.src, AliasChains(s.src, target)).value else target;
    var (u, c) := GetOrCreateSingletonClass(s, d);
    assert c.Some? && t == RecordName(u, n, c.value) && r == Found(c.value, Some(c.value));
    assert c == Some(c.value);
    assert FoundThrough(s, n, d, t, r);
  }

  lemma SingletonQueued(p: Program, s: Store, n: NameId)
    requires Coherent(p, s) && n in p.names && Rooted(p.names, n, p.height)
    requires var r := ResolveConstant(p, s, n).1; r.Found? && r.id.SingletonOf?
    ensures var t := ResolveConstant(p, s, n).0; forall x | x in t.g.ns && x !in s.g.ns :: x in t.g.queue
  {
    hide Coherent, Rooted, GetOrCreateSingletonClass, SearchTargets, SearchAncestors, RunResolution, RecordName, Target;
    if Target(s.src, n).None? && p.names[n].parentScope.Attached? {
      var attached := p.names[n].parentScope.id;
      var (t, r) := ResolveAttached(s, n, attached);
      assert r == ResolveConstant(p, s, n).1 && t == ResolveConstant(p, s, n).0;
      hide ResolveAttached;
      assert exists d :: FoundThrough(s, n, d, t, r) by { hide RecordName; ThroughSingleton(s, n, attached, t, r); }
      if d :| FoundThrough(s, n, d, t, r) {
        GetOrCreateQueues(s, d);
        RecordKinds(GetOrCreateSingletonClass(s, d).0, n, GetOrCreateSingletonClass(s, d).1.value);
      }
    }
  }

  // ---- what is queued exists ----

  /** The declaration of an ancestor unit is a namespace, so that linearizing it does not panic. */
  ghost predicate UnitExists(u: Unit, s: Store) {
    u.AncestorUnit? ==> u.declaration in s.g.ns
  }

  /** Every ancestor unit that is pushed while a unit is handled names a namespace that exists. */
  lemma PushesExist(p: Program, u: Unit, s: Store)
    requires WellFormed(p) && AtRest(p, s) && KnownUnit(p, u) && UnitExists(u, s)
    ensures var e := Follow(p, u, s); forall v | v in Pushed(u, e) :: UnitExists(v, e.state)
  {
    hide WellFormed, Coherent, Handle, PushedBack;
    HandleGrows(p, u, s);
    var e := Follow(p, u, s);
    HandleAsksForExisting(p, u, s);
    GrowsCoherent(p, s, e.state);
    forall v | v in Pushed(u, e) ensures UnitExists(v, e.state) {
      if v.AncestorUnit? { PushedAre(u, e, v); }
    }
  }

  /** What can be pushed. */
  lemma PushedAre(u: Unit, e: Effect<Store>, v: Unit)
    requires v in Pushed(u, e) && v.AncestorUnit?
    ensures
      || v.declaration in e.created || v == u || e.outcome.again == Some(v.declaration)
      || (e.outcome.Found? && e.needsLinearization && v.declaration == e.outcome.id)
  {
  }

  lemma HandleAsksForExisting(p: Program, u: Unit, s: Store)
    requires WellFormed(p) && AtRest(p, s) && KnownUnit(p, u)
    ensures var e := Handle(p, u, s);
      && (forall d | d in e.created :: d in e.state.g.ns)
      && (e.outcome.again.Some? ==> e.outcome.again.value in e.state.g.ns)
      && (e.needsLinearization ==> e.outcome.Found? && e.outcome.id in e.state.g.ns)
  {
    hide Coherent, Grows, Rooted, Usable, HandleConstant, HandleSelfMethod, ResolveConstant, AncestorsOf, Looked;
    match u
    case DefinitionUnit(id) =>
      var task := p.tasks[id];
      match task {
        case ConstantTask(n, def) => HandleConstantCloses(p, s, n, def);
        case SelfMethodTask(receiver, str) => HandleSelfMethodCloses(p, s, receiver, str);
      }
      var h := HandleTask(p, s, task);
      GrowsCoherent(p, s, h.store);
      CoherentQueue(p, h.store);
    case ReferenceUnit(id) =>
      ScopesRooted(p, p.references[id]);
      ResolveConstantSettles(p, s, p.references[id]);
      var t := ResolveConstant(p, s, p.references[id]).0;
      GrowsCoherent(p, s, t);
      CoherentQueue(p, t);
    case AncestorUnit(d) =>
      CoherentReady(p, s);
      if d in s.g.ns {
        LinearizingIsQuiet(p, s, d);
        var t := Linearized(s, d);
        QuietCoherent(p, s, t);
        CoherentQueue(p, t);
      }
  }

  lemma ExistsStill(p: Program, u: Unit, s: Store, v: Unit)
    requires WellFormed(p) && AtRest(p, s) && KnownUnit(p, u) && UnitExists(v, s)
    ensures UnitExists(v, Follow(p, u, s).state)
  {
    HandleGrows(p, u, s);
    GrowsCoherent(p, s, Follow(p, u, s).state);
    hide Grows, Coherent, Follow, WellFormed;
  }

  /** A name that no task can declare as anything but a namespace. */
  ghost predicate Reserved(p: Program, k: nat) {
    forall id | id in p.tasks :: !Claims(p, p.tasks[id], k)
  }

  ghost predicate ReservedExist(p: Program, s: Store) {
    forall k | Reserved(p, k) && k in s.src.kinds :: Named(k) in s.g.ns
  }

  /** A class or module at the top level, and the ancestor unit of its declaration. */
  ghost predicate Provides(p: Program, u: Unit, v: Unit) {
    && u.DefinitionUnit? && v.AncestorUnit? && u.id in p.tasks && p.tasks[u.id].ConstantTask?
    && var n, def := p.tasks[u.id].name, p.tasks[u.id].definition;
    && n in p.names && KindFor(def) in {Class, Module}
    && (p.names[n].parentScope.TopLevel? || (p.names[n].parentScope.NoScope? && p.names[n].nesting.None?))
    && v.declaration == Named(p.key(OBJECT, p.names[n].str)) && Reserved(p, p.key(OBJECT, p.names[n].str))
  }

  lemma HandleKeepsReserved(p: Program, u: Unit, s: Store)
    requires WellFormed(p) && AtRest(p, s) && KnownUnit(p, u) && ReservedExist(p, s)
    ensures ReservedExist(p, Follow(p, u, s).state)
  {
    var t := Follow(p, u, s).state;
    HandleGrows(p, u, s);
    forall k | Reserved(p, k) && k in t.src.kinds ensures Named(k) in t.g.ns {
      if k in s.src.kinds { KeysStay(p, s, t, Named(k)); } else { HandleAdds(p, u, s, k); }
    }
    hide WellFormed, Coherent, Follow, Grows, Reserved;
  }

  lemma KeysStay(p: Program, s: Store, t: Store, d: DeclId)
    requires Grows(p, s, t) && d in s.g.ns
    ensures d in t.g.ns
  {
    hide Coherent;
  }

  lemma HandleAdds(p: Program, u: Unit, s: Store, k: nat)
    requires WellFormed(p) && AtRest(p, s) && KnownUnit(p, u) && Reserved(p, k)
    ensures var t := Follow(p, u, s).state; k in t.src.kinds && k !in s.src.kinds ==> Named(k) in t.g.ns
  {
    hide Coherent, Grows, Rooted, Usable, HandleConstant, HandleSelfMethod, ResolveConstant, AncestorsOf, Looked, Linearized,
      Quiet, Calm, Claims;
    match u
    case DefinitionUnit(id) =>
      var task := p.tasks[id];
      match task {
        case ConstantTask(n, def) => HandleConstantAdds(p, s, n, def, k);
        case SelfMethodTask(receiver, str) => HandleSelfMethodAdds(p, s, receiver, str, k);
      }
    case ReferenceUnit(id) =>
      ScopesRooted(p, p.references[id]);
      ResolveConstantSettles(p, s, p.references[id]);
    case AncestorUnit(d) =>
      CoherentReady(p, s);
      if d in s.g.ns {
        LinearizingIsQuiet(p, s, d);
        SameDeclared(p, s, Linearized(s, d));
      }
  }

  /** Such a definition finds `Object` as its owner and is used up. */
  lemma ProvidedExists(p: Program, u: Unit, s: Store, v: Unit)
    requires WellFormed(p) && AtRest(p, s) && KnownUnit(p, u) && ReservedExist(p, s) && Provides(p, u, v)
    ensures UsedUp(u, Follow(p, u, s).outcome) && UnitExists(v, Follow(p, u, s).state)
  {
    var n, def := p.tasks[u.id].name, p.tasks[u.id].definition;
    var k := p.key(OBJECT, p.names[n].str);
    TopLevelHandled(p, s, n, def);
    var h := DeclareConstant(p, s, OBJECT, n, p.names[n].str, def, None);
    if k in s.src.kinds {
      assert Named(k) in s.g.ns;
      NamespaceExactly(p, s, k);
    }
    DefinedIsNamespace(p, s, OBJECT, n, p.names[n].str, def, None);
    HandledTask(p, u, s);
    hide Coherent, WellFormed, Reserved, DeclareConstant, HandleConstant;
  }

  lemma HandledTask(p: Program, u: Unit, s: Store)
    requires WellFormed(p) && AtRest(p, s) && u.DefinitionUnit? && KnownUnit(p, u) && p.tasks[u.id].ConstantTask?
    ensures p.tasks[u.id].name in p.names
    ensures var h := HandleConstant(p, s, p.tasks[u.id].name, p.tasks[u.id].definition);
      Follow(p, u, s).outcome == h.outcome && Follow(p, u, s).state.g.ns == h.store.g.ns
  {
    hide Coherent, HandleConstant, Rooted;
    assert WellFormedTask(p, p.tasks[u.id]);
  }

  lemma TopLevelHandled(p: Program, s: Store, n: NameId, def: Definition)
    requires WellFormed(p) && Coherent(p, s) && n in p.names && !def.SingletonClassDef?
    requires p.names[n].parentScope.TopLevel? || (p.names[n].parentScope.NoScope? && p.names[n].nesting.None?)
    ensures HandleConstant(p, s, n, def) == DeclareConstant(p, s, OBJECT, n, p.names[n].str, def, None)
  {
    ObjectOwned(p, s);
    ObjectIsReady(p, s);
    hide Coherent, WellFormed, DeclareConstant, AllPromotable, Rooted, Owned;
    assert NameOwner(p, s, n, def.SingletonClassDef?) == (s, Found(OBJECT, None));
  }

  lemma ObjectIsReady(p: Program, s: Store)
    requires Coherent(p, s)
    ensures OwnerReady(s, OBJECT) == s && OBJECT in s.g.ns
  {
    hide SingletonsLinked, ChainsExist, ReferencesExist, MembersNamed, NamesPlain, DefinitionsPlain, QueueExists;
    assert IsNamespace(s.src, OBJECT);
  }

  /** If every ancestor unit in the queue exists or stands behind the top-level class or module it is the unit of, and
      that name is used for nothing else, no pass ever comes to an ancestor unit of a declaration that does not exist. */
  lemma NoPanic(p: Program, queue: seq<Unit>, s: Store)
    requires WellFormed(p) && AtRest(p, s) && (forall u | u in queue :: KnownUnit(p, u)) && ReservedExist(p, s)
    requires Guarded((u, t) => UnitExists(u, t), (u, v) => Provides(p, u, v), queue, s)
    ensures Legal(HandlingOf(p)) && Fits(HandlingOf(p), queue, s)
    ensures AlwaysMeets(HandlingOf(p), (u, t) => UnitExists(u, t), queue, s, [])
  {
    hide WellFormed, AtRest, Follow, FinishedIds, UniverseIn, LossLeft, Legal, KnownUnit, UnitExists, Pushed, Provides,
      ReservedExist, Guarded;
    HandlingIsLegal(p);
    var h := HandlingOf(p);
    var fact := (u, t) => UnitExists(u, t);
    var guards := (u, v) => Provides(p, u, v);
    var inv := t => ReservedExist(p, t);
    forall u, t | h.holds(t) && h.known(u) && inv(t) ensures inv(h.handle(u, t).state) {
      HandleKeepsReserved(p, u, t);
    }
    forall u, t, v | h.holds(t) && h.known(u) && fact(v, t) ensures fact(v, h.handle(u, t).state) {
      ExistsStill(p, u, t, v);
    }
    forall u, t, v | h.holds(t) && h.known(u) && fact(u, t) && v in Pushed(u, h.handle(u, t))
      ensures fact(v, h.handle(u, t).state) {
      PushesExist(p, u, t);
    }
    forall u, t, v | h.holds(t) && h.known(u) && inv(t) && guards(u, v) ensures fact(v, h.handle(u, t).state) {
      ProvidedExists(p, u, t, v);
    }
    AlwaysMet(h, inv, fact, guards, queue, s, []);
  }

  // ---- the whole loop ----

  /** `resolve` on the units of a program: the units handed back, the store, and the references resolved. */
  ghost function Resolve(p: Program, queue: seq<Unit>, s: Store): (seq<Unit>, Store, seq<nat>)
    requires WellFormed(p) && AtRest(p, s) && forall u | u in queue :: KnownUnit(p, u)
  {
    HandlingIsLegal(p);
    Converge(HandlingOf(p), queue, s, [])
  }

  /** What is true of the store and the references resolved since `start`. */
  ghost predicate Since(p: Program, start: Store, log: seq<nat>, t: Store) {
    && Grows(p, start, t)
    && forall id | id in log :: id in p.references && Target(t.src, p.references[id]).Some?
  }

  lemma SinceStart(p: Program, s: Store)
    requires AtRest(p, s)
    ensures Since(p, s, [], s)
  {
    GrowsSame(p, s);
    hide Coherent;
  }

  lemma SinceMore(p: Program, start: Store, log: seq<nat>, s: Store, t: Store, u: Unit, outcome: Resolution)
    requires Since(p, start, log, s) && Grows(p, s, t)
    requires ResolvesReference(u, outcome) ==> u.id in p.references && Target(t.src, p.references[u.id]).Some?
    ensures Since(p, start, Logged(log, u, outcome), t)
  {
    GrowsThen(p, start, s, t);
    forall id | id in Logged(log, u, outcome) ensures id in p.references && Target(t.src, p.references[id]).Some? {
      if id in log { NamesStay(p, s, t, p.references[id]); }
    }
    hide Grows, Target;
  }

  lemma NamesStay(p: Program, s: Store, t: Store, n: NameId)
    requires Grows(p, s, t) && Target(s.src, n).Some?
    ensures Target(t.src, n) == Target(s.src, n)
  {
    hide Coherent, Target;
  }

  /** One unit takes nothing away, and a reference that is found stands under its name. */
  lemma HandleGrows(p: Program, u: Unit, s: Store)
    requires WellFormed(p) && AtRest(p, s) && KnownUnit(p, u)
    ensures var e := Follow(p, u, s);
      && Grows(p, s, e.state)
      && (ResolvesReference(u, e.outcome) ==> Target(e.state.src, p.references[u.id]) == Some(e.outcome.id))
  {
    hide Coherent, Grows, Rooted, Usable, HandleConstant, HandleSelfMethod, ResolveConstant, AncestorsOf, Looked, Linearized,
      Quiet, Calm;
    GrowsSame(p, s);
    match u
    case DefinitionUnit(id) =>
      var task := p.tasks[id];
      match task {
        case ConstantTask(n, def) => HandleConstantCloses(p, s, n, def);
        case SelfMethodTask(receiver, str) => HandleSelfMethodCloses(p, s, receiver, str);
      }
      ClearedGrows(p, s, HandleTask(p, s, task).store);
    case ReferenceUnit(id) =>
      ScopesRooted(p, p.references[id]);
      ResolveConstantSettles(p, s, p.references[id]);
      ClearedGrows(p, s, ResolveConstant(p, s, p.references[id]).0);
    case AncestorUnit(d) =>
      CoherentReady(p, s);
      if d in s.g.ns {
        LinearizingIsQuiet(p, s, d);
        QuietGrows(p, s, Linearized(s, d));
        ClearedGrows(p, s, Linearized(s, d));
      }
  }

  lemma ClearedGrows(p: Program, s: Store, t: Store)
    requires Grows(p, s, t)
    ensures Grows(p, s, Cleared(t)) && Cleared(t).src == t.src
  {
    GrowsCoherent(p, s, t);
    ClearedLooks(p, t);
    QueueCoherent(p, t, []);
    hide Coherent;
  }

  /** Over every run: no live reference is lost or doubled, nothing declared is taken away, no resolved name ever
      changes, the graph stays valid, and every reference recorded as resolved still is at the end. */
  lemma ResolveKeeps(p: Program, queue: seq<Unit>, s: Store)
    requires WellFormed(p) && AtRest(p, s) && forall u | u in queue :: KnownUnit(p, u)
    ensures var (left, t, log) := Resolve(p, queue, s);
      && QueuedReferences(left) + multiset(log) == QueuedReferences(queue)
      && AtRest(p, t) && Since(p, s, log, t)
  {
    hide WellFormed, Coherent, Since, Follow, FinishedIds, UniverseIn, LossLeft, Legal, QueuedReferences, Converge;
    HandlingIsLegal(p);
    var h := HandlingOf(p);
    var fact := (log, t) => Since(p, s, log, t);
    forall u, t, log | h.holds(t) && h.known(u) && fact(log, t)
      ensures fact(Logged(log, u, h.handle(u, t).outcome), h.handle(u, t).state)
    {
      HandleGrows(p, u, t);
      KnownReference(p, u, h.handle(u, t).outcome);
      SinceMore(p, s, log, t, h.handle(u, t).state, u, h.handle(u, t).outcome);
    }
    SinceStart(p, s);
    ConvergeKeepsReferences(h, queue, s, []);
    ConvergeKeeps(h, fact, queue, s, []);
    var nothing: seq<nat> := [];
    assert multiset(nothing) == multiset{};
  }

  lemma KnownReference(p: Program, u: Unit, outcome: Resolution)
    requires KnownUnit(p, u)
    ensures ResolvesReference(u, outcome) ==> u.id in p.references
  {
  }

  // ---- where it starts ----

  /** The declarations that are there before anything is indexed. */
  function BuiltIn(): Store {
    Store(
      Source(map[0 := Class, 1 := Class, 2 := Class, 3 := Class], map[], map[], {}, map[]),
      Graph(map[BASIC_OBJECT := EMPTY_NAMESPACE, OBJECT := EMPTY_NAMESPACE, MODULE := EMPTY_NAMESPACE,
                CLASS := EMPTY_NAMESPACE], [], []),
      map[])
  }

  lemma BuiltInAtRest(p: Program)
    ensures AtRest(p, BuiltIn()) && Lost(BuiltIn().g) == {}
  {
    var s := BuiltIn();
    BuiltInValid();
    hide Valid;
    assert MembersNamed(s.src, s.members) && NamesPlain(p, s.src) && DefinitionsPlain(p, s.src);
  }

  lemma BuiltInValid()
    ensures Valid(BuiltIn().src, BuiltIn().g)
  {
    var s := BuiltIn();
    assert forall d: DeclId :: d in s.g.ns ==> s.g.ns[d] == EMPTY_NAMESPACE && d.Named?;
    assert WellFormedSource(s.src) && NamedExist(s.src, s.g);
    hide NamedExist, WellFormedSource;
    assert SingletonsLinked(s.src, s.g) && ChainsExist(s.g) && ReferencesExist(s.src, s.g);
  }

  /** The first queue of a program: whatever is defined and referred to, the ancestor units of the five built-in
      declarations at the end, and the definition of `Kernel` somewhere before them. The program does not come to a
      declaration that does not exist, although `Kernel` is not declared at the start. */
  lemma FirstQueue(p: Program, units: seq<Unit>, kernel: nat)
    requires WellFormed(p) && (forall u | u in units :: KnownUnit(p, u) && !u.AncestorUnit?)
    requires exists i :: 0 <= i < |units| && Provides(p, units[i], AncestorUnit(Named(kernel)))
    ensures var queue := units + AncestorUnits([BASIC_OBJECT, Named(kernel), OBJECT, MODULE, CLASS]);
      && Legal(HandlingOf(p)) && Fits(HandlingOf(p), queue, BuiltIn())
      && AlwaysMeets(HandlingOf(p), (u, t) => UnitExists(u, t), queue, BuiltIn(), [])
  {
    BuiltInAtRest(p);
    BuiltInReserved(p);
    FirstQueueGuarded(p, units, kernel);
    FirstQueueKnown(p, units, [BASIC_OBJECT, Named(kernel), OBJECT, MODULE, CLASS]);
    hide *;
    NoPanic(p, units + AncestorUnits([BASIC_OBJECT, Named(kernel), OBJECT, MODULE, CLASS]), BuiltIn());
  }

  lemma BuiltInReserved(p: Program)
    ensures ReservedExist(p, BuiltIn())
  {
    hide Reserved;
  }

  lemma FirstQueueKnown(p: Program, units: seq<Unit>, ids: seq<DeclId>)
    requires forall u | u in units :: KnownUnit(p, u)
    ensures forall u | u in units + AncestorUnits(ids) :: KnownUnit(p, u)
  {
    forall u | u in units + AncestorUnits(ids) ensures KnownUnit(p, u) {
      if u !in units { assert u in AncestorUnits(ids); }
    }
  }

  lemma FirstQueueGuarded(p: Program, units: seq<Unit>, kernel: nat)
    requires forall u | u in units :: !u.AncestorUnit?
    requires exists i :: 0 <= i < |units| && Provides(p, units[i], AncestorUnit(Named(kernel)))
    ensures var queue := units + AncestorUnits([BASIC_OBJECT, Named(kernel), OBJECT, MODULE, CLASS]);
      Guarded((u, t) => UnitExists(u, t), (u, v) => Provides(p, u, v), queue, BuiltIn())
  {
    var ids := [BASIC_OBJECT, Named(kernel), OBJECT, MODULE, CLASS];
    var queue := units + AncestorUnits(ids);
    var k :| 0 <= k < |units| && Provides(p, units[k], AncestorUnit(Named(kernel)));
    hide Provides;
    forall i | 0 <= i < |queue|
      ensures UnitExists(queue[i], BuiltIn()) || exists j :: 0 <= j < i && Provides(p, queue[j], queue[i])
    {
      if i < |units| {
        assert queue[i] in units;
      } else if queue[i] == AncestorUnit(Named(kernel)) {
        assert queue[k] == units[k];
      } else {
        assert queue[i] == AncestorUnit(ids[i - |units|]);
      }
    }
  }
}
