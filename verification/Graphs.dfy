/** The mutable part of the graph that linearization reads and writes: every namespace with its
    stored chain, its descendants and its singleton class, the queue of ancestor units, and the singleton
    classes that have been overwritten. */
module Graphs {
  import opened Declarations
  import opened Aliases

  /** An entry of a chain: a declaration, or a name that is still unresolved. */
  datatype Ancestor = Known(id: DeclId) | Missing(name: NameId)

  datatype Ancestors =
    | Complete(ids: seq<Ancestor>)
    | Cyclic(ids: seq<Ancestor>)
    | Partial(ids: seq<Ancestor>)
  {
    /** A chain that is never computed again: the code's `has_complete_ancestors`. */
    predicate Finished() { Complete? || Cyclic? }
  }

  datatype Namespace = Namespace(
    ancestors: Ancestors,
    descendants: set<DeclId>,
    singleton: Option<DeclId>
  )

  const EMPTY_NAMESPACE := Namespace(Partial([]), {}, None)

  /** A singleton class is overwritten when it is asked for and exists, but is not linked; `reset` lists those it has
      happened to since the traversal began. What it was defined with is gone then. */
  datatype Graph = Graph(ns: map<DeclId, Namespace>, queue: seq<DeclId>, reset: seq<DeclId>)

  function DefinitionsNow(src: Source, g: Graph, d: DeclId): seq<Definition> {
    if d in g.reset then [] else DefinitionsOf(src, d)
  }

  function LabelNow(src: Source, g: Graph, d: DeclId): Option<nat> {
    if d in g.reset then None else LabelOf(src, d)
  }

  predicate HasComplete(g: Graph, d: DeclId) {
    d in g.ns && g.ns[d].ancestors.Complete?
  }

  ghost predicate Existing(g: Graph, ids: seq<Ancestor>) {
    forall i | 0 <= i < |ids| :: ids[i].Known? ==> ids[i].id in g.ns
  }

  ghost predicate NamedExist(src: Source, g: Graph) {
    && (forall k | k in src.kinds :: IsNamespace(src, Named(k)) ==> Named(k) in g.ns)
    && (forall d | d in g.ns :: Declared(src, d) && IsNamespace(src, d))
  }

  /** Links lead to a singleton class of the declaration that exists; a singleton class need not be linked. */
  ghost predicate SingletonsLinked(src: Source, g: Graph) {
    && (forall d | d in g.ns :: LinkFits(src, g, d))
    && (forall d | d in g.ns :: d.SingletonOf? ==> d.attached in g.ns)
    && (forall d | d in src.written :: d in g.ns)
  }

  ghost predicate LinkFits(src: Source, g: Graph, d: DeclId)
    requires d in g.ns
  {
    match g.ns[d].singleton
    case None => LabelNow(src, g, d).None?
    case Some(s) => s == SingletonOf(d, LabelNow(src, g, d)) && s in g.ns
  }

  ghost predicate ReferencesExist(src: Source, g: Graph) {
    forall n | n in src.names ::
      src.names[n].Resolved? && src.names[n].declaration.SingletonOf? ==> src.names[n].declaration in g.ns
  }

  ghost predicate ChainsExist(g: Graph) {
    forall d | d in g.ns :: Existing(g, g.ns[d].ancestors.ids)
  }

  ghost predicate Valid(src: Source, g: Graph) {
    && WellFormedSource(src)
    && NamedExist(src, g)
    && SingletonsLinked(src, g)
    && ReferencesExist(src, g)
    && ChainsExist(g)
  }

  function SetAncestors(g: Graph, d: DeclId, ancestors: Ancestors): Graph
    requires d in g.ns
  {
    g.(ns := g.ns[d := g.ns[d].(ancestors := ancestors)])
  }

  function AddDescendants(g: Graph, d: DeclId, descendants: set<DeclId>): Graph
    requires d in g.ns
  {
    g.(ns := g.ns[d := g.ns[d].(descendants := g.ns[d].descendants + descendants)])
  }

  /** Adds `descendants` to every declaration listed in `chain`. */
  function Propagate(g: Graph, descendants: set<DeclId>, chain: seq<Ancestor>): Graph {
    g.(ns := map d | d in g.ns ::
      if Known(d) in chain then g.ns[d].(descendants := g.ns[d].descendants + descendants) else g.ns[d])
  }

  /** The singleton class `d` is linked to. Without link it is made, linked and queued for linearization; if there is
      one of that name, it is overwritten. */
  function GetOrCreateSingleton(g: Graph, d: DeclId): (r: (Graph, DeclId))
    requires d in g.ns
  {
    match g.ns[d].singleton
    case Some(s) => (g, s)
    case None =>
      var s := SingletonOf(d, None);
      (Graph(g.ns[d := g.ns[d].(singleton := Some(s))][s := EMPTY_NAMESPACE], g.queue + [s],
             if s in g.ns then g.reset + [s] else g.reset), s)
  }

  /** The declarations whose singleton class would be overwritten. */
  ghost function Lost(g: Graph): set<DeclId> {
    set d | d in g.ns && g.ns[d].singleton.None? && SingletonOf(d, None) in g.ns
  }

  /** No singleton class has been or will be overwritten. */
  ghost predicate Intact(g: Graph) {
    Lost(g) == {} && g.reset == []
  }

  /** The namespaces are those of `g` with the same links. */
  ghost predicate SameLinks(g: Graph, h: Graph) {
    && h.ns.Keys == g.ns.Keys && h.reset == g.reset
    && (forall d | d in g.ns :: h.ns[d].singleton == g.ns[d].singleton)
  }

  lemma SameLinksValid(src: Source, g: Graph, h: Graph)
    requires Valid(src, g) && SameLinks(g, h) && ChainsExist(h)
    ensures Valid(src, h) && Lost(h) == Lost(g)
  {
    SameLinksLinked(src, g, h);
    SameNamespaces(src, g, h);
    SameLost(g, h);
    hide *;
    IsValid(src, h) by { FromValid(src, g); }
  }

  lemma FromValid(src: Source, g: Graph)
    requires Valid(src, g)
    ensures WellFormedSource(src) && ChainsExist(g)
  {
  }

  lemma IsValid(src: Source, g: Graph)
    requires WellFormedSource(src) && NamedExist(src, g) && SingletonsLinked(src, g) && ReferencesExist(src, g) && ChainsExist(g)
    ensures Valid(src, g)
  {
  }

  lemma SameLinksLinked(src: Source, g: Graph, h: Graph)
    requires SingletonsLinked(src, g) && SameLinks(g, h)
    ensures SingletonsLinked(src, h)
  {
    forall d | d in h.ns ensures LinkFits(src, h, d) { assert LinkFits(src, g, d); }
    hide LinkFits;
  }

  lemma SameNamespaces(src: Source, g: Graph, h: Graph)
    requires NamedExist(src, g) && ReferencesExist(src, g) && h.ns.Keys == g.ns.Keys
    ensures NamedExist(src, h) && ReferencesExist(src, h)
  {
  }

  lemma SameLost(g: Graph, h: Graph)
    requires SameLinks(g, h)
    ensures Lost(h) == Lost(g)
  {
  }

  lemma SameKeysExist(g: Graph, h: Graph, ids: seq<Ancestor>)
    requires h.ns.Keys == g.ns.Keys && Existing(g, ids)
    ensures Existing(h, ids)
  {
  }

  lemma SetAncestorsValid(src: Source, g: Graph, d: DeclId, ancestors: Ancestors)
    requires Valid(src, g) && d in g.ns && Existing(g, ancestors.ids)
    ensures Valid(src, SetAncestors(g, d, ancestors)) && Lost(SetAncestors(g, d, ancestors)) == Lost(g)
  {
    FromValid(src, g);
    hide *;
    ChangedLinks(g, d, ancestors, {});
    StoredExist(g, d, ancestors);
    SameLinksValid(src, g, SetAncestors(g, d, ancestors));
  }

  lemma ChangedLinks(g: Graph, d: DeclId, ancestors: Ancestors, descendants: set<DeclId>)
    requires d in g.ns
    ensures SameLinks(g, SetAncestors(g, d, ancestors)) && SameLinks(g, AddDescendants(g, d, descendants))
    ensures var h := AddDescendants(g, d, descendants); forall x | x in g.ns :: h.ns[x].ancestors == g.ns[x].ancestors
  {
  }

  lemma StoredExist(g: Graph, d: DeclId, ancestors: Ancestors)
    requires ChainsExist(g) && d in g.ns && Existing(g, ancestors.ids)
    ensures ChainsExist(SetAncestors(g, d, ancestors))
  {
    var h := SetAncestors(g, d, ancestors);
    assert h.ns.Keys == g.ns.Keys;
    forall x | x in h.ns ensures Existing(h, h.ns[x].ancestors.ids) {
      assert h.ns[x].ancestors == if x == d then ancestors else g.ns[x].ancestors;
      SameKeysExist(g, h, h.ns[x].ancestors.ids);
    }
  }

  lemma AddDescendantsValid(src: Source, g: Graph, d: DeclId, descendants: set<DeclId>)
    requires Valid(src, g) && d in g.ns
    ensures Valid(src, AddDescendants(g, d, descendants)) && Lost(AddDescendants(g, d, descendants)) == Lost(g)
  {
    FromValid(src, g);
    hide *;
    ChangedLinks(g, d, Partial([]), descendants);
    AddedExist(g, d, descendants);
    SameLinksValid(src, g, AddDescendants(g, d, descendants));
  }

  lemma AddedExist(g: Graph, d: DeclId, descendants: set<DeclId>)
    requires ChainsExist(g) && d in g.ns
    ensures ChainsExist(AddDescendants(g, d, descendants))
  {
    ChangedLinks(g, d, Partial([]), descendants);
    var h := AddDescendants(g, d, descendants);
    assert h.ns.Keys == g.ns.Keys;
    SameChainsKept(g, h);
  }

  lemma PropagateValid(src: Source, g: Graph, descendants: set<DeclId>, chain: seq<Ancestor>)
    requires Valid(src, g)
    ensures Valid(src, Propagate(g, descendants, chain)) && Lost(Propagate(g, descendants, chain)) == Lost(g)
  {
    var h := Propagate(g, descendants, chain);
    FromValid(src, g);
    hide *;
    Propagated(g, descendants, chain);
    PropagatedExist(g, descendants, chain);
    SameLinksValid(src, g, h);
  }

  lemma Propagated(g: Graph, descendants: set<DeclId>, chain: seq<Ancestor>)
    ensures var h := Propagate(g, descendants, chain);
      SameLinks(g, h) && forall x | x in g.ns :: h.ns[x].ancestors == g.ns[x].ancestors
  {
    assert Propagate(g, descendants, chain).ns.Keys == g.ns.Keys;
  }

  lemma PropagatedExist(g: Graph, descendants: set<DeclId>, chain: seq<Ancestor>)
    requires ChainsExist(g)
    ensures ChainsExist(Propagate(g, descendants, chain))
  {
    Propagated(g, descendants, chain);
    var h := Propagate(g, descendants, chain);
    assert h.ns.Keys == g.ns.Keys;
    SameChainsKept(g, h);
  }

  lemma SameChainsKept(g: Graph, h: Graph)
    requires ChainsExist(g) && h.ns.Keys == g.ns.Keys && forall x | x in g.ns :: h.ns[x].ancestors == g.ns[x].ancestors
    ensures ChainsExist(h)
  {
    forall x | x in h.ns ensures Existing(h, h.ns[x].ancestors.ids) { SameKeysExist(g, h, h.ns[x].ancestors.ids); }
  }

  lemma GetOrCreateSingletonValid(src: Source, g: Graph, d: DeclId)
    requires Valid(src, g) && d in g.ns
    ensures var (h, s) := GetOrCreateSingleton(g, d);
      && Valid(src, h) && s in h.ns && s.SingletonOf? && s.attached == d && Declared(src, s)
      && g.ns.Keys <= h.ns.Keys <= g.ns.Keys + {s}
    ensures d !in g.reset ==> GetOrCreateSingleton(g, d).1 == SingletonClassOf(src, d)
  {
    LinkLeads(src, g, d);
    if g.ns[d].singleton.None? {
      CreatedNamespaces(src, g, d);
      CreatedLinks(src, g, d);
      CreatedChains(g, d);
      var h := GetOrCreateSingleton(g, d).0;
      hide *;
      IsValid(src, h);
    }
  }

  lemma LinkLeads(src: Source, g: Graph, d: DeclId)
    requires Valid(src, g) && d in g.ns
    ensures WellFormedSource(src) && NamedExist(src, g) && SingletonsLinked(src, g) && ReferencesExist(src, g) && ChainsExist(g)
    ensures var (h, s) := GetOrCreateSingleton(g, d);
      && s in h.ns && s.SingletonOf? && s.attached == d && Declared(src, s)
      && g.ns.Keys <= h.ns.Keys <= g.ns.Keys + {s}
      && (d !in g.reset ==> s == SingletonClassOf(src, d))
  {
    assert LinkFits(src, g, d);
    hide WellFormedSource, ReferencesExist, ChainsExist;
  }

  lemma CreatedNamespaces(src: Source, g: Graph, d: DeclId)
    requires NamedExist(src, g) && ReferencesExist(src, g) && d in g.ns && g.ns[d].singleton.None?
    ensures NamedExist(src, GetOrCreateSingleton(g, d).0) && ReferencesExist(src, GetOrCreateSingleton(g, d).0)
  {
    var (h, s) := GetOrCreateSingleton(g, d);
    assert h.ns.Keys == g.ns.Keys + {s};
    assert Declared(src, d);
  }

  lemma CreatedChains(g: Graph, d: DeclId)
    requires ChainsExist(g) && d in g.ns && g.ns[d].singleton.None?
    ensures ChainsExist(GetOrCreateSingleton(g, d).0)
  {
    var h := GetOrCreateSingleton(g, d).0;
    forall x | x in h.ns ensures Existing(h, h.ns[x].ancestors.ids) {
      if x in g.ns { assert Existing(g, g.ns[x].ancestors.ids); }
    }
  }

  lemma CreatedLinks(src: Source, g: Graph, d: DeclId)
    requires SingletonsLinked(src, g) && d in g.ns && g.ns[d].singleton.None?
    ensures SingletonsLinked(src, GetOrCreateSingleton(g, d).0)
  {
    var (h, s) := GetOrCreateSingleton(g, d);
    assert LinkFits(src, g, d);
    forall x | x in h.ns ensures LinkFits(src, h, x) && (x.SingletonOf? ==> x.attached in h.ns) {
      assert x in g.reset ==> x in h.reset;
      if x in g.ns { assert LinkFits(src, g, x); }
    }
  }
}
