/** Resolving a name: the four ways it can be written, singleton classes asked for by name, and the namespace
    that owns a definition. */
module NameResolutions {
  import opened Declarations
  import opened Names
  import opened NameDepths
  import opened Aliases
  import opened Graphs
  import opened Links
  import opened Hierarchy
  import opened Linearization
  import opened Lookups
  import opened Programs
  import opened LiveLookups

  // ---- what a step may change when it comes to a result ----

  /** Nothing is taken away: declarations and namespaces are added, resolved names stay. */
  ghost predicate Grows(p: Program, s: Store, t: Store) {
    && Coherent(p, t)
    && s.src.kinds.Keys <= t.src.kinds.Keys && s.src.labels <= t.src.labels && s.g.ns.Keys <= t.g.ns.Keys
    && NamesKept(s.src, t.src)
  }

  /** A declaration that can be linked to. */
  predicate Exists(s: Store, d: DeclId) {
    Declared(s.src, d) && (d.SingletonOf? ==> d in s.g.ns)
  }

  /** Unless it comes to a singleton class, the step was a quiet lookup. */
  ghost predicate Settles(p: Program, s: Store, t: Store, r: Resolution) {
    && Grows(p, s, t) && t.src.kinds.Keys == s.src.kinds.Keys
    && (if r.Found? && r.id.SingletonOf? then Exists(t, r.id) else Looked(p, s, t, r))
    && (r.again.Some? ==> r.again.value in t.g.ns)
  }

  lemma QuietGrows(p: Program, s: Store, t: Store)
    requires Quiet(p, s, t)
    ensures Grows(p, s, t)
  {
    hide Calm, LossLeft, LevelBound, Coherent, NamesKept;
  }

  lemma LookedSettles(p: Program, s: Store, t: Store, r: Resolution)
    requires Looked(p, s, t, r)
    ensures Settles(p, s, t, r)
  {
    QuietGrows(p, s, t);
    hide Quiet, LossLeft, Coherent, NamesKept;
  }

  lemma GrowsThen(p: Program, s: Store, t: Store, u: Store)
    requires Grows(p, s, t) && Grows(p, t, u)
    ensures Grows(p, s, u)
  {
    hide Coherent;
  }

  lemma GrowsSame(p: Program, s: Store)
    requires Coherent(p, s)
    ensures Grows(p, s, s)
  {
    hide Coherent;
  }

  // ---- singleton classes by name ----

  /** `all_definitions_promotable` */
  predicate AllPromotable(src: Source, d: DeclId) {
    var defs := DefinitionsOf(src, d);
    forall i | 0 <= i < |defs| :: defs[i].ConstantDef? ==> defs[i].promotable
  }

  /** `promote_constant_to_namespace`, and the new module queued for linearization */
  function PromoteConstant(s: Store, k: nat): Store {
    var t := Declare(s, k, Module);
    t.(g := t.g.(queue := t.g.queue + [Named(k)]))
  }

  lemma PromotionGrows(p: Program, s: Store, k: nat)
    requires Coherent(p, s) && KindOf(s.src, Named(k)) == Constant
    ensures Grows(p, s, PromoteConstant(s, k)) && Named(k) in PromoteConstant(s, k).g.ns
    ensures PromoteConstant(s, k).src.names == s.src.names && PromoteConstant(s, k).src.kinds.Keys == s.src.kinds.Keys
  {
    ConstantIsNoNamespace(s, k, p);
    hide Coherent;
    assert Replaceable(s, k, Module);
    DeclareCoherent(p, s, k, Module);
    var t := Declare(s, k, Module);
    CoherentQueue(p, t);
    QueueCoherent(p, t, t.g.queue + [Named(k)]);
    hide Replaceable;
  }

  lemma ConstantIsNoNamespace(s: Store, k: nat, p: Program)
    requires Coherent(p, s) && KindOf(s.src, Named(k)) == Constant
    ensures Named(k) !in s.g.ns
  {
  }

  /** `get_or_create_singleton_class` without linearizing at once. Nothing comes back for a constant that cannot
      become a module and for an alias that leads to no namespace. */
  function GetOrCreateSingletonClass(s: Store, d: DeclId): (Store, Option<DeclId>) {
    if IsAlias(s.src, d) then
      match ResolveToNamespace(s.src, d)
      case None => (s, None)
      case Some(m) => SingletonOfNamespace(s, m)
    else if d.Named? && KindOf(s.src, d) == Constant then
      if AllPromotable(s.src, d) then SingletonOfNamespace(PromoteConstant(s, d.key), d) else (s, None)
    else SingletonOfNamespace(s, d)
  }

  /** Only namespaces are asked for; the program panics for anything else. */
  function SingletonOfNamespace(s: Store, d: DeclId): (Store, Option<DeclId>) {
    if d !in s.g.ns then (s, None)
    else
      var (g, c) := GetOrCreateSingleton(s.g, d);
      (Flush(s.(g := g)), Some(c))
  }

  /** What asking for a singleton class comes to. */
  ghost predicate SingletonMade(p: Program, s: Store, t: Store, c: Option<DeclId>) {
    && Grows(p, s, t) && t.src.names == s.src.names && t.src.kinds.Keys == s.src.kinds.Keys
    && (c.None? ==> t == s)
    && (c.Some? ==> c.value.SingletonOf? && c.value in t.g.ns && Declared(t.src, c.value))
  }

  lemma SingletonOfNamespaceMade(p: Program, s: Store, d: DeclId)
    requires Coherent(p, s)
    ensures var (t, c) := SingletonOfNamespace(s, d); SingletonMade(p, s, t, c)
    ensures d in s.g.ns ==> SingletonOfNamespace(s, d).1 == Some(SingletonClassOf(s.src, d))
  {
    if d in s.g.ns {
      SingletonCoherent(p, s, d);
      var (g, c) := GetOrCreateSingleton(s.g, d);
      FlushParts(s.(g := g));
      DeclaredAlike(s.src, Flush(s.(g := g)).src);
      hide Coherent, GetOrCreateSingleton, SingletonMade, Flush, Lost, Declared;
      ClassMade(p, s, Flush(s.(g := g)), c);
    } else {
      NothingMade(p, s);
    }
  }

  /** What a singleton class was defined with, its members and its own link go when it is overwritten, and nothing else. */
  lemma OverwritingForgets(s: Store, d: DeclId, x: DeclId)
    requires d in s.g.ns && s.g.ns[d].singleton.None? && SingletonOf(d, None) in s.g.ns && s.g.reset == []
    ensures var c := SingletonOf(d, None);
      var (t, made) := SingletonOfNamespace(s, d);
      && made == Some(c) && t.g.ns[d].singleton == Some(c) && t.g.ns[c] == EMPTY_NAMESPACE && t.g.queue == s.g.queue + [c]
      && (if x == c then DefinitionsOf(t.src, x) == [] && x !in t.members && x !in t.src.written
          else
            && DefinitionsOf(t.src, x) == DefinitionsOf(s.src, x) && LabelOf(t.src, x) == LabelOf(s.src, x)
            && (x in t.members <==> x in s.members) && (x in s.members ==> t.members[x] == s.members[x]))
  {
  }

  lemma ClassMade(p: Program, s: Store, t: Store, c: DeclId)
    requires Coherent(p, t) && t.src.kinds == s.src.kinds && t.src.labels == s.src.labels && t.src.names == s.src.names
    requires s.g.ns.Keys <= t.g.ns.Keys && c in t.g.ns && c.SingletonOf? && Declared(t.src, c)
    ensures SingletonMade(p, s, t, Some(c))
  {
    hide Coherent;
  }

  lemma GetOrCreateMade(p: Program, s: Store, d: DeclId)
    requires Coherent(p, s)
    ensures var (t, c) := GetOrCreateSingletonClass(s, d); SingletonMade(p, s, t, c)
  {
    hide *;
    GrowsSame(p, s);
    GetOrCreateCases(s, d);
    SingletonOfNamespaceMade(p, s, d);
    if ResolveToNamespace(s.src, d).Some? { SingletonOfNamespaceMade(p, s, ResolveToNamespace(s.src, d).value); }
    if d.Named? && KindOf(s.src, d) == Constant {
      PromotionGrows(p, s, d.key);
      var t := PromoteConstant(s, d.key);
      GrowsCoherent(p, s, t);
      SingletonOfNamespaceMade(p, t, d);
      MadeAfter(p, s, t, SingletonOfNamespace(t, d).0, SingletonOfNamespace(t, d).1);
    }
    NothingMade(p, s);
  }

  lemma GrowsCoherent(p: Program, s: Store, t: Store)
    requires Grows(p, s, t)
    ensures Coherent(p, t) && s.g.ns.Keys <= t.g.ns.Keys
  {
    hide Coherent;
  }

  lemma NothingMade(p: Program, s: Store)
    requires Coherent(p, s)
    ensures SingletonMade(p, s, s, None)
  {
    hide Coherent;
  }

  lemma MadeAfter(p: Program, s: Store, t: Store, u: Store, c: Option<DeclId>)
    requires Grows(p, s, t) && t.src.names == s.src.names && t.src.kinds.Keys == s.src.kinds.Keys &&
      SingletonMade(p, t, u, c) && c.Some?
    ensures SingletonMade(p, s, u, c)
  {
    GrowsThen(p, s, t, u);
    hide Coherent, Grows;
  }

  /** The cases of `GetOrCreateSingletonClass`. */
  lemma GetOrCreateCases(s: Store, d: DeclId)
    ensures GetOrCreateSingletonClass(s, d) ==
      if IsAlias(s.src, d) then
        (if ResolveToNamespace(s.src, d).None? then (s, None) else SingletonOfNamespace(s, ResolveToNamespace(s.src, d).value))
      else if d.Named? && KindOf(s.src, d) == Constant then
        (if AllPromotable(s.src, d) then SingletonOfNamespace(PromoteConstant(s, d.key), d) else (s, None))
      else SingletonOfNamespace(s, d)
    ensures d.Named? && KindOf(s.src, d) == Constant ==> SingletonOfNamespace(PromoteConstant(s, d.key), d).1.Some?
  {
  }

  // ---- `resolve_constant_internal` ----

  /** A result is remembered under the name. */
  function Remembered(n: NameId, s: Store, r: Resolution): (Store, Resolution) {
    (if r.Found? then RecordName(s, n, r.id) else s, r)
  }

  lemma RememberedLooked(p: Program, s: Store, n: NameId, t: Store, r: Resolution)
    requires Looked(p, s, t, r) && t.src.names == s.src.names && n in p.names && Target(s.src, n).None?
    ensures var (u, q) := Remembered(n, t, r); Looked(p, s, u, q) && (q.Found? ==> Target(u.src, n) == Some(q.id))
  {
    if r.Found? {
      var u := RecordName(t, n, r.id);
      FoundDeclared(p, s, t, r);
      RecordingIsQuiet(p, t, n, r.id);
      NameRecorded(t, n, r.id);
      QuietThen(p, s, t, u);
      hide Quiet, RecordName, FinishedIds;
    }
  }

  lemma FoundDeclared(p: Program, s: Store, t: Store, r: Resolution)
    requires Looked(p, s, t, r) && r.Found?
    ensures Coherent(p, t) && Declared(t.src, r.id) && r.id.Named?
  {
    SameDeclared(p, s, t);
    DeclaredAlike(s.src, t.src);
    hide Coherent, Calm, LossLeft, LevelBound, Declared;
  }

  lemma QuietResolves(p: Program, s: Store, n: NameId, t: Store, r: Resolution)
    requires Looked(p, s, t, r) && (r.Found? ==> Target(t.src, n) == Some(r.id))
    ensures Resolves(p, s, n, t, r)
  {
    LookedSettles(p, s, t, r);
    hide Settles, Looked;
  }

  lemma RememberedResolves(p: Program, s: Store, n: NameId, t: Store, r: Resolution)
    requires Looked(p, s, t, r) && t.src.names == s.src.names && n in p.names && Target(s.src, n).None?
    ensures var (u, q) := Remembered(n, t, r); Resolves(p, s, n, u, q)
  {
    RememberedLooked(p, s, n, t, r);
    var (u, q) := Remembered(n, t, r);
    hide Looked, Remembered;
    QuietResolves(p, s, n, u, q);
  }

  lemma KnownResolves(p: Program, s: Store, n: NameId)
    requires Coherent(p, s) && Target(s.src, n).Some?
    ensures Resolves(p, s, n, s, Found(Target(s.src, n).value, None))
  {
    GrowsSame(p, s);
    TargetExists(p, s, n);
    if Target(s.src, n).value.Named? { NothingAsked(p, s, Found(Target(s.src, n).value, None)); }
    hide Grows, Coherent, Looked, Target;
  }

  lemma TargetExists(p: Program, s: Store, n: NameId)
    requires Coherent(p, s) && Target(s.src, n).Some?
    ensures Exists(s, Target(s.src, n).value)
  {
  }

  lemma AttachedResolves(p: Program, s: Store, n: NameId, attached: NameId)
    requires Coherent(p, s) && n in p.names && Target(s.src, n).None? && p.names[n].parentScope == Attached(attached)
    ensures var (t, r) := ResolveAttached(s, n, attached); Resolves(p, s, n, t, r)
  {
    hide *;
    NothingAsked(p, s, Retry(None));
    NothingAsked(p, s, NotFound(None));
    QuietResolves(p, s, n, s, Retry(None));
    QuietResolves(p, s, n, s, NotFound(None));
    if Target(s.src, attached).Some? {
      var target := Target(s.src, attached).value;
      forall d: DeclId ensures var (t, c) := GetOrCreateSingletonClass(s, d);
        c.Some? ==> Resolves(p, s, n, RecordName(t, n, c.value), Found(c.value, Some(c.value)))
      {
        GetOrCreateMade(p, s, d);
        var (t, c) := GetOrCreateSingletonClass(s, d);
        if c.Some? { MadeResolves(p, s, n, t, c.value, attached); }
      }
    }
    AttachedCases(s, n, attached);
  }

  lemma MadeResolves(p: Program, s: Store, n: NameId, t: Store, c: DeclId, attached: NameId)
    requires SingletonMade(p, s, t, Some(c)) && Target(s.src, n).None?
    requires n in p.names && p.names[n].parentScope == Attached(attached)
    ensures Resolves(p, s, n, RecordName(t, n, c), Found(c, Some(c)))
  {
    GrowsCoherent(p, s, t);
    RecordNameCoherent(p, t, n, c);
    NameRecorded(t, n, c);
    hide Coherent, RecordName;
  }

  /** What the cases of `ResolveAttached` come to. */
  lemma AttachedCases(s: Store, n: NameId, attached: NameId)
    ensures var r := ResolveAttached(s, n, attached);
      r in {(s, Retry(None)), (s, NotFound(None))} ||
      exists d :: GetOrCreateSingletonClass(s, d).1.Some? && Target(s.src, attached).Some? &&
        var (t, c) := GetOrCreateSingletonClass(s, d); r == (RecordName(t, n, c.value), Found(c.value, Some(c.value)))
  {
    hide GetOrCreateSingletonClass, RecordName, AliasChains, IsAlias, FirstNamespace;
  }

  lemma LookedLess(p: Program, s: Store, t: Store, r: Resolution, q: Resolution)
    requires Looked(p, s, t, r) && !q.Found? && (q.again == None || q.again == r.again)
    ensures Looked(p, s, t, q)
  {
    hide Quiet;
  }

  ghost predicate NamespacesExist(s: Store, ids: seq<DeclId>) {
    forall d | d in ids && IsNamespace(s.src, d) :: d in s.g.ns
  }

  /** One more target has been searched. */
  lemma SearchedOne(p: Program, start: Store, s: Store, missing: Option<DeclId>, t: Store, r: Resolution, ids: seq<DeclId>)
    requires Looked(p, start, s, NotFound(missing)) && Looked(p, s, t, r) && NamespacesExist(s, ids)
    ensures Looked(p, start, t, r) && Looked(p, start, t, NotFound(missing)) && NamespacesExist(t, ids) && Coherent(p, t)
    ensures !r.Found? ==> Looked(p, start, t, NotFound(r.again))
  {
    ObjectLooked(p, start, s, t, NotFound(missing), r);
    LookedThen(p, start, s, t, r);
    SameDeclared(p, s, t);
    DeclaredAlike(s.src, t.src);
    hide Calm, NamesKept, Coherent, LossLeft, LevelBound, Declared;
  }

  /** The targets of a scope are searched in order, up to the first that has the member; `missing` is the first
      chain that was unfinished. */
  ghost function SearchTargets(p: Program, start: Store, s: Store, ids: seq<DeclId>, str: StringId, missing: Option<DeclId>,
                               searched: bool): (r: (Store, Resolution))
    requires Coherent(p, s) && NamespacesExist(s, ids) && Looked(p, start, s, NotFound(missing))
    ensures Looked(p, start, r.0, r.1) && r.0.src.names == s.src.names
    decreases |ids|
  {
    hide *;
    LookedLess(p, start, s, NotFound(missing), NotFound(None));
    LookedLess(p, start, s, NotFound(missing), Retry(None));
    if ids == [] then
      (s, if !searched then NotFound(None) else if missing.None? then Retry(None) else NotFound(missing))
    else if IsAlias(s.src, ids[0]) then (s, Retry(None))
    else
      NamespacesExistRest(s, ids);
      if IsNamespace(s.src, ids[0]) then
        var (t, r) := SearchAncestors(p, s, ids[0], str);
        SearchedOne(p, start, s, missing, t, r, ids[1..]);
        if r.Found? then (t, r)
        else SearchTargets(p, start, t, ids[1..], str, if missing.Some? then missing else r.again, true)
      else SearchTargets(p, start, s, ids[1..], str, missing, searched)
  }

  lemma NamespacesExistRest(s: Store, ids: seq<DeclId>)
    requires NamespacesExist(s, ids) && ids != []
    ensures NamespacesExist(s, ids[1..]) && (IsNamespace(s.src, ids[0]) ==> ids[0] in s.g.ns)
  {
  }

  lemma TargetEndsExist(p: Program, s: Store, target: DeclId)
    requires Coherent(p, s) && target in References(s.src)
    ensures NamespacesExist(s, AliasChains(s.src, target))
  {
    forall d | d in AliasChains(s.src, target) && IsNamespace(s.src, d) ensures d in s.g.ns {
      EndExists(p, s, target, d);
    }
  }

  lemma TargetIsReference(src: Source, n: NameId)
    ensures Target(src, n).Some? ==> Target(src, n).value in References(src)
  {
  }

  /** A name attached to an object stands for the singleton class of it. */
  function ResolveAttached(s: Store, n: NameId, attached: NameId): (Store, Resolution) {
    match Target(s.src, attached)
    case None => (s, Retry(None))
    case Some(target) =>
      var ids := AliasChains(s.src, target);
      if IsAlias(s.src, target) && exists id | id in ids :: IsAlias(s.src, id) then (s, Retry(None))
      else if IsAlias(s.src, target) && FirstNamespace(s.src, ids).None? then (s, NotFound(None))
      else
        var (t, c) := GetOrCreateSingletonClass(s, if IsAlias(s.src, target) then FirstNamespace(s.src, ids).value else target);
        match c
        case None => (s, NotFound(None))
        case Some(id) => (RecordName(t, n, id), Found(id, Some(id)))
  }

  /** `resolve_constant_internal` */
  ghost function ResolveConstant(p: Program, s: Store, n: NameId): (r: (Store, Resolution))
    requires Coherent(p, s) && n in p.names && Rooted(p.names, n, p.height)
  {
    hide *;
    if Target(s.src, n).Some? then (s, Found(Target(s.src, n).value, None))
    else
      var name := p.names[n];
      match name.parentScope
      case TopLevel =>
        NothingAsked(p, s, Retry(None));
        ObjectExists(p, s, s, Retry(None));
        var (t, r) := SearchAncestors(p, s, OBJECT, name.str);
        Remembered(n, t, r)
      case Attached(attached) => ResolveAttached(s, n, attached)
      case NoScope =>
        var nesting := Nesting(p.names, n, p.height);
        ScopesAreKnown(s.src, nesting);
        var (t, r) := RunResolution(p, s, Scopes(s.src, nesting), name.str);
        Remembered(n, t, r)
      case Scope(scope) =>
        match Target(s.src, scope)
        case None => (s, Retry(None))
        case Some(target) =>
          TargetIsReference(s.src, scope);
          TargetEndsExist(p, s, target);
          NothingAsked(p, s, NotFound(None));
          var (t, r) := SearchTargets(p, s, s, AliasChains(s.src, target), name.str, None, false);
          Remembered(n, t, r)
  }

  /** The end of a lookup: a resolution that stands under the name. */
  ghost predicate Resolves(p: Program, s: Store, n: NameId, t: Store, r: Resolution) {
    && Settles(p, s, t, r)
    && (r.Found? ==> Target(t.src, n) == Some(r.id))
  }

  /** A name resolves for good or the lookup was quiet: whatever is not found leaves declarations, members and
      finished chains as they were and asks only for a chain that is not finished. */
  lemma ResolveConstantSettles(p: Program, s: Store, n: NameId)
    requires Coherent(p, s) && n in p.names && Rooted(p.names, n, p.height)
    ensures var (t, r) := ResolveConstant(p, s, n); Resolves(p, s, n, t, r)
  {
    hide Coherent, Resolves, Looked, Rooted, Target, Nesting, Scopes, SearchAncestors, RunResolution, SearchTargets,
      ResolveAttached, Remembered, AliasChains, References, NamespacesExist;
    if Target(s.src, n).Some? {
      KnownResolves(p, s, n);
    } else {
      NothingAsked(p, s, Retry(None));
      NothingAsked(p, s, NotFound(None));
      match p.names[n].parentScope
      case TopLevel =>
        ObjectExists(p, s, s, Retry(None));
        var (t, r) := SearchAncestors(p, s, OBJECT, p.names[n].str);
        RememberedResolves(p, s, n, t, r);
      case Attached(attached) => AttachedResolves(p, s, n, attached);
      case NoScope =>
        var nesting := Nesting(p.names, n, p.height);
        ScopesAreKnown(s.src, nesting);
        var (t, r) := RunResolution(p, s, Scopes(s.src, nesting), p.names[n].str);
        RememberedResolves(p, s, n, t, r);
      case Scope(scope) =>
        match Target(s.src, scope)
        case None => QuietResolves(p, s, n, s, Retry(None));
        case Some(target) =>
          TargetIsReference(s.src, scope);
          TargetEndsExist(p, s, target);
          var (t, r) := SearchTargets(p, s, s, AliasChains(s.src, target), p.names[n].str, None, false);
          RememberedResolves(p, s, n, t, r);
    }
  }
}
