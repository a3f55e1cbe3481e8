/** Constant lookup as the resolver does it: every chain is linearized when it is searched, so a lookup changes
    the graph it runs on. */
module LiveLookups {
  import opened Declarations
  import opened Names
  import opened NameDepths
  import opened Aliases
  import opened Graphs
  import opened Links
  import opened Hierarchy
  import opened Linearization
  import opened Lookups
  import Stored = ConstantLookups
  import opened Steps
  import opened Creations
  import opened Programs

  // ---- what a lookup leaves behind ----

  /** The deepest singleton nesting there is, at least one. */
  ghost function LevelBound(g: Graph): nat {
    if MaxLevel(g.ns.Keys) == 0 then 1 else MaxLevel(g.ns.Keys)
  }

  ghost predicate NamesKept(src: Source, src': Source) {
    forall n: NameId | Target(src, n).Some? :: Target(src', n) == Target(src, n)
  }

  /** How much can still be lost: every singleton class that is overwritten costs some of it. */
  ghost function LossLeft(g: Graph): nat {
    Weight(Lost(g), LevelBound(g))
  }

  /** The namespaces that have come in are new and queued. */
  ghost predicate Made(g: Graph, h: Graph) {
    |g.queue| <= |h.queue| &&
    var made := h.queue[|g.queue|..];
    && h.queue == g.queue + made && AllNew(g, made)
    && (forall d :: d in h.ns <==> d in g.ns || d in made)
  }

  /** Nothing has been overwritten: definitions, members and finished chains are as before. */
  ghost predicate Calm(s: Store, t: Store) {
    && t.src.definitions == s.src.definitions && t.src.written == s.src.written && t.members == s.members
    && Lost(t.g) == Lost(s.g) && FinishedKept(s.g, t.g) && Made(s.g, t.g)
  }

  /** Declarations stay, and so do resolved names; only singleton classes come in, none deeper than there were. If
      anything else has changed, a singleton class has been overwritten, and less can be lost. */
  ghost predicate Quiet(p: Program, s: Store, t: Store) {
    && t.src.kinds == s.src.kinds && t.src.labels == s.src.labels
    && NamesKept(s.src, t.src)
    && s.g.ns.Keys <= t.g.ns.Keys && LevelBound(t.g) == LevelBound(s.g)
    && (Calm(s, t) || LossLeft(t.g) < LossLeft(s.g))
    && Coherent(p, t)
  }

  lemma SameBound(g: Graph, h: Graph, ids: seq<DeclId>)
    requires Creates(g, h, ids, LevelBound(g))
    ensures LevelBound(h) == LevelBound(g) && g.ns.Keys <= h.ns.Keys
  {
    MaxLevelLeast(g.ns.Keys, MaxLevel(h.ns.Keys));
    MaxLevelLeast(h.ns.Keys, LevelBound(g));
    MaxLevelLeast(h.ns.Keys, MaxLevel(h.ns.Keys));
  }

  lemma MadeThen(g: Graph, h: Graph, k: Graph)
    requires Made(g, h) && Made(h, k)
    ensures Made(g, k)
  {
    var a, b := h.queue[|g.queue|..], k.queue[|h.queue|..];
    BothNew(g, h, a, b);
    assert k.queue == g.queue + (a + b);
    assert k.queue[|g.queue|..] == a + b;
    hide AllNew;
  }

  lemma KeptThen(g: Graph, h: Graph, k: Graph)
    requires FinishedKept(g, h) && FinishedKept(h, k)
    ensures FinishedKept(g, k)
  {
  }

  lemma CalmThen(s: Store, t: Store, u: Store)
    requires Calm(s, t) && Calm(t, u)
    ensures Calm(s, u)
  {
    MadeThen(s.g, t.g, u.g);
    KeptThen(s.g, t.g, u.g);
    hide Lost, Made, FinishedKept;
  }

  lemma CalmLoss(s: Store, t: Store)
    requires Calm(s, t) && LevelBound(t.g) == LevelBound(s.g)
    ensures LossLeft(t.g) == LossLeft(s.g)
  {
    hide Weight, LevelBound, Lost, Made, FinishedKept;
  }

  lemma CalmFinished(s: Store, t: Store)
    requires Calm(s, t)
    ensures FinishedIds(s.g) <= FinishedIds(t.g)
  {
    hide Lost, Made;
  }

  lemma QuietThen(p: Program, s: Store, t: Store, u: Store)
    requires Quiet(p, s, t) && Quiet(p, t, u)
    ensures Quiet(p, s, u)
  {
    if Calm(s, t) { CalmLoss(s, t); }
    if Calm(t, u) { CalmLoss(t, u); }
    if Calm(s, t) && Calm(t, u) { CalmThen(s, t, u); }
    hide Calm, Coherent, LevelBound, LossLeft;
  }

  lemma QuietSame(p: Program, s: Store)
    requires Coherent(p, s)
    ensures Quiet(p, s, s) && Calm(s, s)
  {
    assert s.g.queue[|s.g.queue|..] == [];
    hide Coherent, Lost, LevelBound;
  }

  lemma RecordingIsQuiet(p: Program, s: Store, n: NameId, d: DeclId)
    requires Coherent(p, s) && n in p.names && Declared(s.src, d) && d.Named?
    ensures Quiet(p, s, RecordName(s, n, d))
  {
    RecordNameCoherent(p, s, n, d);
    QuietSame(p, s);
    NameRecorded(s, n, d);
    hide Coherent, Made, Lost, FinishedKept, NamesKept, Declared, RecordName, LevelBound, LossLeft;
  }

  lemma NameRecorded(s: Store, n: NameId, d: DeclId)
    ensures var t := RecordName(s, n, d);
      && NamesKept(s.src, t.src) && Target(t.src, n).Some?
      && (Target(s.src, n).None? ==> Target(t.src, n) == Some(d))
      && t == s.(src := s.src.(names := t.src.names))
  {
  }

  lemma ReachWithin(src: Source, g: Graph, d: DeclId)
    requires Valid(src, g) && d in g.ns
    ensures Reach(src, d) <= LevelBound(g) && Top(src, d) <= LevelBound(g)
  {
    ReferencesWithin(src, g);
    assert Level(d) <= LevelBound(g) by { hide Valid; }
    LevelPositive(g);
    hide Valid, LevelBound, ReferenceLevel;
  }

  lemma ReferencesWithin(src: Source, g: Graph)
    requires ReferencesExist(src, g)
    ensures ReferenceLevel(src) <= LevelBound(g)
  {
    forall x | x in References(src) ensures Level(x) <= LevelBound(g) {
      if x.SingletonOf? { assert x in g.ns; }
    }
    MaxLevelLeast(References(src), LevelBound(g));
  }

  /** The store once `d` has been linearized. */
  ghost function Linearized(s: Store, d: DeclId): Store
    requires Usable(s.src, s.g) && d in s.g.ns
  {
    Flush(s.(g := AncestorsOf(s.src, s.g, d).g))
  }

  /** Linearizing a declaration is quiet, and the chain it comes back with is the stored one if that is finished. */
  lemma LinearizingIsQuiet(p: Program, s: Store, d: DeclId)
    requires Coherent(p, s) && d in s.g.ns && Usable(s.src, s.g)
    ensures Quiet(p, s, Linearized(s, d))
    ensures Linearized(s, d).src.names == s.src.names
    ensures d in FinishedIds(s.g) ==>
      && AncestorsOf(s.src, s.g, d).ancestors == s.g.ns[d].ancestors
      && Calm(s, Linearized(s, d)) && Linearized(s, d).src == s.src
  {
    hide *;
    FinishedIsReturned(s.src, s.g, d);
    var ids := LinearizingCreates(s.src, s.g, d);
    var h := AncestorsOf(s.src, s.g, d).g;
    LinearizedIs(s, d);
    NoReset(p, s);
    QuietByGraph(p, s, h, ids);
    if d in FinishedIds(s.g) { CalmByGraph(s, h, ids); }
  }

  lemma LinearizedIs(s: Store, d: DeclId)
    requires Usable(s.src, s.g) && d in s.g.ns
    ensures Linearized(s, d) == Flush(s.(g := AncestorsOf(s.src, s.g, d).g))
  {
    hide Usable, Flush, AncestorsOf;
  }

  lemma NoReset(p: Program, s: Store)
    requires Coherent(p, s)
    ensures s.g.reset == []
  {
  }

  lemma LinearizingCreates(src: Source, g: Graph, d: DeclId) returns (ids: seq<DeclId>)
    requires Usable(src, g) && d in g.ns
    ensures var h := AncestorsOf(src, g, d).g;
      && Usable(src, h) && Creates(g, h, ids, LevelBound(g))
      && ((SameLoss(g, h) && FinishedKept(g, h)) || Lighter(g, h, LevelBound(g)))
  {
    ReachWithin(src, g, d);
    LevelPositive(g);
    var r := AncestorsOf(src, g, d);
    MovesParts(src, Top(src, d), g, FRESH, r.g, r.ctx);
    MovesEither(src, Top(src, d), g, FRESH, r.g, r.ctx);
    if Steady(g, FRESH, r.g, r.ctx) { SteadyParts(g, FRESH, r.g, r.ctx); }
    if Lighter(g, r.g, Top(src, d)) { LighterHigher(g, r.g, Top(src, d), LevelBound(g)); }
    IsAncestorsOf(src, g, d);
    hide *;
    ids := LinearizeCreates(src, g, FRESH, d, LevelBound(g));
    SameLossIs(g, r.g);
  }

  lemma IsAncestorsOf(src: Source, g: Graph, d: DeclId)
    requires Usable(src, g) && d in g.ns
    ensures AncestorsOf(src, g, d) == Linearize(src, g, FRESH, d)
  {
    hide Linearize;
  }

  lemma SameLossIs(g: Graph, h: Graph)
    ensures Lost(h) == Lost(g) && h.reset == g.reset ==> SameLoss(g, h)
  {
    hide Lost;
  }

  lemma LevelPositive(g: Graph)
    ensures LevelBound(g) > 0
  {
  }

  lemma CalmByGraph(s: Store, h: Graph, ids: seq<DeclId>)
    requires s.g.reset == [] && Creates(s.g, h, ids, LevelBound(s.g)) && SameLoss(s.g, h) && FinishedKept(s.g, h)
    ensures Calm(s, Flush(s.(g := h))) && Flush(s.(g := h)) == s.(g := h)
  {
    FlushNothing(s.(g := h));
    assert h.queue[|s.g.queue|..] == ids;
    hide Lost, Flush, FinishedKept, LevelBound, AllNew;
  }

  lemma QuietByGraph(p: Program, s: Store, h: Graph, ids: seq<DeclId>)
    requires Coherent(p, s) && Usable(s.src, h) && Creates(s.g, h, ids, LevelBound(s.g))
    requires (SameLoss(s.g, h) && FinishedKept(s.g, h)) || Lighter(s.g, h, LevelBound(s.g))
    ensures Quiet(p, s, Flush(s.(g := h))) && Flush(s.(g := h)).src.names == s.src.names
  {
    var t := Flush(s.(g := h));
    CreatedExist(p, s, h, ids);
    TraversedCoherent(p, s, h);
    FlushParts(s.(g := h));
    SameBound(s.g, h, ids);
    NoReset(p, s);
    SameBoundOf(h, t.g);
    if SameLoss(s.g, h) && FinishedKept(s.g, h) {
      CalmByGraph(s, h, ids);
    } else {
      LossShrinks(s.g, h, t.g);
    }
    NamesKeptSame(s.src, t.src);
    hide Coherent, Usable, Flush, Calm, LossLeft, LevelBound, Creates, SameLoss, Lighter, NamesKept, Lost, FinishedKept;
  }

  lemma NamesKeptSame(src: Source, src': Source)
    requires src'.names == src.names
    ensures NamesKept(src, src')
  {
  }

  lemma SameBoundOf(g: Graph, h: Graph)
    requires h.ns == g.ns
    ensures LevelBound(h) == LevelBound(g)
  {
  }

  lemma LossShrinks(g: Graph, h: Graph, k: Graph)
    requires Lighter(g, h, LevelBound(g)) && Lost(k) == Lost(h) && LevelBound(k) == LevelBound(g)
    ensures LossLeft(k) < LossLeft(g)
  {
    hide Lost, LevelBound, Weight;
  }

  lemma CreatedExist(p: Program, s: Store, h: Graph, ids: seq<DeclId>)
    requires Coherent(p, s) && Creates(s.g, h, ids, LevelBound(s.g))
    ensures QueueExists(h)
  {
    hide Valid, MembersNamed, NamesPlain, DefinitionsPlain, LevelBound, AllNew;
  }

  lemma FinishedIsReturned(src: Source, g: Graph, d: DeclId)
    requires Usable(src, g) && d in g.ns
    ensures d in FinishedIds(g) ==>
      && AncestorsOf(src, g, d).ancestors == g.ns[d].ancestors
      && SameLoss(g, AncestorsOf(src, g, d).g) && FinishedKept(g, AncestorsOf(src, g, d).g)
  {
    hide Usable, Work, Weight, Keeps, Moves, Existing, Lost, Intact, Linearize;
    SettledCases(src, g, FRESH, d);
    if d in FinishedIds(g) { PropagatingKeeps(g, FRESH.descendants + {d}, g.ns[d].ancestors.ids); }
    hide Propagate, SameLoss, FinishedKept;
  }

  lemma PropagatingKeeps(g: Graph, descendants: set<DeclId>, chain: seq<Ancestor>)
    ensures SameLoss(g, Propagate(g, descendants, chain)) && FinishedKept(g, Propagate(g, descendants, chain))
  {
    var h := Propagate(g, descendants, chain);
    assert h.ns.Keys == g.ns.Keys;
    assert forall d | d in g.ns :: h.ns[d].singleton == g.ns[d].singleton;
  }

  // ---- searching chains ----

  /** The store as a lookup reads it. */
  function Snapshot(p: Program, s: Store): Stored.World {
    Stored.World(s.src, s.g.ns, s.members, map n | n in p.names :: p.names[n].str)
  }

  /** What a quiet lookup answers: it finds constants, and unless something has been overwritten, it asks only for
      unfinished chains. */
  ghost predicate Honest(s: Store, t: Store, r: Resolution) {
    && (r.Found? ==> r.id.Named? && Declared(s.src, r.id))
    && (r.again.Some? ==> r.again.value in t.g.ns)
    && (r.again.Some? ==> r.again.value !in FinishedIds(s.g) || LossLeft(t.g) < LossLeft(s.g))
  }

  ghost predicate Looked(p: Program, s: Store, t: Store, r: Resolution) {
    Quiet(p, s, t) && Honest(s, t, r)
  }

  /** `search_ancestors` */
  ghost function SearchAncestors(p: Program, s: Store, d: DeclId, str: StringId): (r: (Store, Resolution))
    requires Coherent(p, s) && d in s.g.ns
    ensures Looked(p, s, r.0, r.1) && r.0.src.names == s.src.names
  {
    hide *;
    CoherentReady(p, s);
    SearchIsLooked(p, s, d, str);
    (Linearized(s, d), Stored.SearchChain(Snapshot(p, Linearized(s, d)), d, AncestorsOf(s.src, s.g, d).ancestors, str))
  }

  lemma SearchIsLooked(p: Program, s: Store, d: DeclId, str: StringId)
    requires Coherent(p, s) && d in s.g.ns && Usable(s.src, s.g)
    ensures var t := Linearized(s, d);
      && Looked(p, s, t, Stored.SearchChain(Snapshot(p, t), d, AncestorsOf(s.src, s.g, d).ancestors, str))
      && t.src.names == s.src.names
  {
    LinearizingIsQuiet(p, s, d);
    var t := Linearized(s, d);
    MembersOf(p, s, t);
    DeclaredAlike(s.src, t.src) by { SameDeclared(p, s, t); }
    hide Usable, Coherent, AncestorsOf, Quiet, Calm, Linearized, Declared, Stored.SearchChain, MembersNamed, LossLeft;
    ChainAnswers(Snapshot(p, t), d, AncestorsOf(s.src, s.g, d).ancestors, str);
    QuietKeys(p, s, t);
  }

  lemma MembersOf(p: Program, s: Store, t: Store)
    requires Quiet(p, s, t)
    ensures MembersNamed(t.src, t.members)
  {
    hide Valid, Calm, LossLeft, LevelBound, NamesKept;
  }

  lemma SameDeclared(p: Program, s: Store, t: Store)
    requires Quiet(p, s, t)
    ensures t.src.kinds == s.src.kinds && t.src.labels == s.src.labels
  {
    hide Coherent, Calm, LossLeft, LevelBound, NamesKept;
  }

  lemma QuietKeys(p: Program, s: Store, t: Store)
    requires Quiet(p, s, t)
    ensures s.g.ns.Keys <= t.g.ns.Keys
  {
    hide Coherent, Calm, LossLeft, LevelBound, NamesKept;
  }

  lemma ChainAnswers(w: Stored.World, d: DeclId, chain: Ancestors, str: StringId)
    requires MembersNamed(w.src, w.members)
    ensures var r := Stored.SearchChain(w, d, chain, str);
      && (r.Found? ==> r.id.Named? && Declared(w.src, r.id))
      && (r.again.Some? ==> r.again.value == d && !chain.Finished())
  {
    match chain
    case Partial(ids) =>
      Stored.PartialSearchNamesItself(w, d, ids, str);
      PartialFindsMembers(w, d, ids, str);
    case _ => FirstMemberIsFirst(w.members, chain.ids, str);
  }

  lemma {:induction false} PartialFindsMembers(w: Stored.World, d: DeclId, ids: seq<Ancestor>, str: StringId)
    requires MembersNamed(w.src, w.members)
    ensures var r := Stored.SearchPartial(w, d, ids, str); r.Found? ==> r.id.Named? && Declared(w.src, r.id)
    decreases |ids|
  {
    hide Declared;
    if ids != [] { PartialFindsMembers(w, d, ids[1..], str); }
  }

  /** A later search asks for nothing an earlier state had finished, if nothing has been overwritten since. */
  lemma LookedThen(p: Program, s: Store, t: Store, u: Store, r: Resolution)
    requires Quiet(p, s, t) && Looked(p, t, u, r)
    ensures Looked(p, s, u, r)
  {
    QuietThen(p, s, t, u);
    SameDeclared(p, s, t);
    DeclaredAlike(s.src, t.src);
    QuietLoss(p, s, t);
    QuietLoss(p, t, u);
    hide Quiet, LossLeft, FinishedIds, Declared;
  }

  /** Either less can be lost now, or finished chains stay finished. */
  lemma QuietLoss(p: Program, s: Store, t: Store)
    requires Quiet(p, s, t)
    ensures LossLeft(t.g) <= LossLeft(s.g)
    ensures LossLeft(t.g) < LossLeft(s.g) || (LossLeft(t.g) == LossLeft(s.g) && FinishedIds(s.g) <= FinishedIds(t.g))
  {
    if Calm(s, t) {
      CalmLoss(s, t);
      CalmFinished(s, t);
    }
    hide Calm, Coherent, LevelBound, LossLeft, FinishedIds, NamesKept;
  }

  // ---- lexical scopes ----

  /** The names of the enclosing scopes, innermost first. */
  function Nesting(names: map<NameId, Name>, n: NameId, ghost h: nat): seq<NameId>
    requires Rooted(names, n, h)
    decreases h
  {
    match names[n].nesting
    case None => []
    case Some(m) => [m] + Nesting(names, m, h - 1)
  }

  function RefOf(src: Source, n: NameId): NameRef {
    if n in src.names then src.names[n] else Unresolved
  }

  function Scopes(src: Source, nesting: seq<NameId>): seq<NameRef> {
    seq(|nesting|, i requires 0 <= i < |nesting| => RefOf(src, nesting[i]))
  }

  /** The namespaces an alias leads to exist. */
  lemma EndExists(p: Program, s: Store, target: DeclId, d: DeclId)
    requires Coherent(p, s) && target in References(s.src) && d in AliasChains(s.src, target)
    ensures Declared(s.src, d) && (IsNamespace(s.src, d) ==> d in s.g.ns) && (d.SingletonOf? ==> d in s.g.ns)
    ensures d in References(s.src)
  {
    hide SingletonsLinked, ChainsExist, MembersNamed, NamesPlain, DefinitionsPlain, AliasChains, QueueExists;
    WalkStaysIn(s.src, [target], {});
    assert d in Walk(s.src, [target], {}) by { AliasChainsIsWalk(s.src, target); }
  }

  lemma AliasChainsIsWalk(src: Source, d: DeclId)
    ensures AliasChains(src, d) == Walk(src, [d], {})
  {
  }

  /** `search_lexical_scopes` finds members. */
  lemma {:induction false} LexicalFindsMembers(w: Stored.World, scopes: seq<NameRef>, str: StringId)
    requires MembersNamed(w.src, w.members)
    ensures var r := Stored.SearchLexical(w, scopes, str);
      r.again == None && (r.Found? ==> r.id.Named? && Declared(w.src, r.id))
    decreases |scopes|
  {
    hide Declared;
    if scopes != [] { LexicalFindsMembers(w, scopes[1..], str); }
  }

  // ---- `run_resolution` ----

  /** What stays open behind an answer that changes nothing. */
  lemma NothingAsked(p: Program, s: Store, r: Resolution)
    requires Coherent(p, s) && r.again == None && (r.Found? ==> r.id.Named? && Declared(s.src, r.id))
    ensures Looked(p, s, s, r)
  {
    QuietSame(p, s);
    hide Quiet, Coherent;
  }

  ghost predicate ScopesKnown(src: Source, scopes: seq<NameRef>) {
    forall i | 0 <= i < |scopes| && scopes[i].Resolved? :: scopes[i].declaration in References(src)
  }

  lemma ScopesAreKnown(src: Source, nesting: seq<NameId>)
    ensures ScopesKnown(src, Scopes(src, nesting))
  {
  }

  lemma {:induction false} FirstScopeIn(src: Source, ids: seq<DeclId>)
    ensures Stored.FirstScope(src, ids).Some? ==>
      var d := Stored.FirstScope(src, ids).value; d in ids && (IsAlias(src, d) || IsNamespace(src, d))
    decreases |ids|
  {
    if ids != [] { FirstScopeIn(src, ids[1..]); }
  }

  /** The inherited part of a lookup, and the namespace it was made in. */
  ghost function SearchInnermost(p: Program, s: Store, scope: NameRef, str: StringId): (r: (Store, Resolution, Option<DeclId>))
    requires Coherent(p, s) && (scope.Resolved? ==> scope.declaration in References(s.src))
    ensures Looked(p, s, r.0, r.1) && r.0.src.names == s.src.names
  {
    hide *;
    if scope.Unresolved? then NothingAsked(p, s, Retry(None)); (s, Retry(None), None)
    else
      var ids := AliasChains(s.src, scope.declaration);
      FirstScopeIn(s.src, ids);
      match Stored.FirstScope(s.src, ids)
      case None => NothingAsked(p, s, NotFound(None)); (s, NotFound(None), None)
      case Some(d) =>
        if IsAlias(s.src, d) then NothingAsked(p, s, Retry(None)); (s, Retry(None), None)
        else
          EndExists(p, s, scope.declaration, d);
          var (t, r) := SearchAncestors(p, s, d, str);
          (t, r, Some(d))
  }

  /** Modules and incomplete chains fall back to `Object`. */
  ghost function WithObject(p: Program, s: Store, t: Store, inherited: Resolution, scope: Option<DeclId>, str: StringId)
      : (r: (Store, Resolution))
    requires Coherent(p, s) && Looked(p, s, t, inherited)
    ensures Looked(p, s, r.0, r.1) && r.0.src.names == t.src.names
  {
    hide *;
    var isModule := scope.Some? && KindOf(t.src, scope.value) in {Module, Todo};
    var incomplete := !inherited.Found? && inherited.again.Some?;
    if isModule || incomplete then
      ObjectExists(p, s, t, inherited);
      var (u, r) := SearchAncestors(p, t, OBJECT, str);
      ObjectLooked(p, s, t, u, inherited, r);
      if r.Found? then (u, Found(r.id, inherited.again)) else (u, inherited)
    else (t, inherited)
  }

  lemma ObjectExists(p: Program, s: Store, t: Store, r: Resolution)
    requires Looked(p, s, t, r)
    ensures Coherent(p, t) && OBJECT in t.g.ns
  {
    hide Calm, LossLeft, LevelBound, SingletonsLinked, ChainsExist, ReferencesExist, MembersNamed, NamesPlain, DefinitionsPlain;
    assert IsNamespace(t.src, OBJECT);
  }

  lemma ObjectLooked(p: Program, s: Store, t: Store, u: Store, inherited: Resolution, r: Resolution)
    requires Looked(p, s, t, inherited) && Looked(p, t, u, r)
    ensures Looked(p, s, u, inherited)
    ensures r.Found? ==> Looked(p, s, u, Found(r.id, inherited.again))
  {
    LookedThen(p, s, t, u, r);
    QuietLoss(p, t, u);
    QuietKeys(p, t, u);
    hide Quiet, LossLeft, FinishedIds, Declared;
  }

  /** `run_resolution` */
  ghost function RunResolution(p: Program, s: Store, scopes: seq<NameRef>, str: StringId): (r: (Store, Resolution))
    requires Coherent(p, s) && ScopesKnown(s.src, scopes)
    ensures Looked(p, s, r.0, r.1) && r.0.src.names == s.src.names
  {
    hide Coherent, Looked, References, WithObject, SearchAncestors, SearchInnermost;
    if scopes == [] then
      NothingAsked(p, s, Retry(None));
      ObjectExists(p, s, s, Retry(None));
      SearchAncestors(p, s, OBJECT, str)
    else
      var lexical := Stored.SearchLexical(Snapshot(p, s), scopes, str);
      LexicalIsLooked(p, s, scopes, str);
      if !lexical.NotFound? then (s, lexical)
      else
        var (t, inherited, scope) := SearchInnermost(p, s, scopes[0], str);
        if inherited.Found? then (t, inherited) else WithObject(p, s, t, inherited, scope, str)
  }

  lemma LexicalIsLooked(p: Program, s: Store, scopes: seq<NameRef>, str: StringId)
    requires Coherent(p, s)
    ensures Looked(p, s, s, Stored.SearchLexical(Snapshot(p, s), scopes, str))
  {
    LexicalFindsMembers(Snapshot(p, s), scopes, str);
    NothingAsked(p, s, Stored.SearchLexical(Snapshot(p, s), scopes, str));
  }

  // ---- lookup over finished chains ----

  /** The namespace in which the inherited part of a lookup is made. */
  function InnermostNamespace(src: Source, scope: NameRef): Option<DeclId> {
    if scope.Unresolved? then None
    else
      var d := Stored.FirstScope(src, AliasChains(src, scope.declaration));
      if d.Some? && !IsAlias(src, d.value) then d else None
  }

  lemma FinishedSearchIsStored(p: Program, s: Store, d: DeclId, str: StringId)
    requires Coherent(p, s) && d in FinishedIds(s.g)
    ensures SearchAncestors(p, s, d, str).1 == Stored.SearchAncestors(Snapshot(p, s), d, str)
    ensures Calm(s, SearchAncestors(p, s, d, str).0) && SearchAncestors(p, s, d, str).0.src == s.src
  {
    CoherentReady(p, s);
    LinearizingIsQuiet(p, s, d);
    var t := Linearized(s, d);
    CalmMembers(s, t);
    hide Coherent, Usable, AncestorsOf, FirstMember, Calm, Quiet, Linearized;
    ChainSearchReads(Snapshot(p, t), Snapshot(p, s), d, s.g.ns[d].ancestors, str);
  }

  lemma CalmMembers(s: Store, t: Store)
    requires Calm(s, t)
    ensures t.members == s.members
  {
    hide Made, FinishedKept, Lost;
  }

  lemma ObjectSearchIsStored(p: Program, s: Store, t: Store, str: StringId)
    requires Coherent(p, t) && Calm(s, t) && OBJECT in FinishedIds(s.g)
    ensures OBJECT in t.g.ns && SearchAncestors(p, t, OBJECT, str).1 == Stored.SearchAncestors(Snapshot(p, s), OBJECT, str)
  {
    hide *;
    FinishedStays(p, s, t, OBJECT, str);
    FinishedSearchIsStored(p, t, OBJECT, str);
  }

  lemma FinishedStays(p: Program, s: Store, t: Store, d: DeclId, str: StringId)
    requires Calm(s, t) && d in FinishedIds(s.g)
    ensures d in FinishedIds(t.g) && d in t.g.ns
    ensures Stored.SearchAncestors(Snapshot(p, t), d, str) == Stored.SearchAncestors(Snapshot(p, s), d, str)
  {
    hide FirstMember, Made, Lost;
    assert t.g.ns[d].ancestors == s.g.ns[d].ancestors;
    ChainSearchReads(Snapshot(p, t), Snapshot(p, s), d, s.g.ns[d].ancestors, str);
  }

  /** A finished chain is searched by members alone. */
  lemma ChainSearchReads(w: Stored.World, v: Stored.World, d: DeclId, chain: Ancestors, str: StringId)
    requires w.members == v.members && chain.Finished()
    ensures Stored.SearchChain(w, d, chain, str) == Stored.SearchChain(v, d, chain, str)
  {
    hide FirstMember;
  }

  /** Where the chains that are searched are finished, linearizing during the lookup makes no difference: the
      result is the one read off the stored chains. */
  lemma LookupReadsFinishedChains(p: Program, s: Store, scopes: seq<NameRef>, str: StringId)
    requires Coherent(p, s) && ScopesKnown(s.src, scopes) && OBJECT in FinishedIds(s.g)
    requires scopes != [] && InnermostNamespace(s.src, scopes[0]).Some? ==>
      InnermostNamespace(s.src, scopes[0]).value in FinishedIds(s.g)
    ensures RunResolution(p, s, scopes, str).1 == Stored.RunResolution(Snapshot(p, s), scopes, str)
  {
    hide Coherent, Quiet, Calm, Honest, FinishedIds, Stored.SearchLexical, Stored.SearchAncestors, SearchAncestors, AliasChains,
      References, Stored.FirstScope;
    QuietSame(p, s);
    ObjectSearchIsStored(p, s, s, str);
    if scopes != [] {
      var (t, inherited, scope) := SearchInnermost(p, s, scopes[0], str);
      QuietIsCoherent(p, s, t);
      var d := InnermostNamespace(s.src, scopes[0]);
      if d.Some? { FinishedSearchIsStored(p, s, d.value, str); }
      ObjectSearchIsStored(p, s, t, str);
    }
  }

  lemma QuietIsCoherent(p: Program, s: Store, t: Store)
    ensures Quiet(p, s, t) ==> Coherent(p, t)
  {
  }
}
