/** The graph of one file while it is indexed: reference counts, and for every name who depends on it. */
module LocalGraphs {
  import opened Declarations
  import opened Names

  datatype NameDependent = Definition(id: nat) | Reference(id: nat) | ChildName(id: NameId) | NestedName(id: NameId)

  datatype Counted<T> = Counted(value: T, refs: nat)

  datatype Contents = Contents(
    definitions: map<nat, Option<NameId>>,
    strings: map<nat, Counted<string>>,
    names: map<NameId, Counted<Name>>,
    references: map<nat, NameId>,
    dependents: map<NameId, seq<NameDependent>>)

  const EMPTY := Contents(map[], map[], map[], map[], map[])

  /** The things a file adds. */
  datatype Add =
    | AddDefinition(id: nat, named: Option<NameId>)
    | InternString(text: string)
    | AddName(name: Name)
    | AddReference(id: nat, to: NameId)

  /** Ids are hashes; no two strings and no two names share one. */
  datatype Ids = Ids(ofString: string -> nat, ofName: Name -> NameId)

  ghost predicate Injective(ids: Ids) {
    && (forall s, t | ids.ofString(s) == ids.ofString(t) :: s == t)
    && (forall a, b | ids.ofName(a) == ids.ofName(b) :: a == b)
  }

  function DependentsOf(c: Contents, n: NameId): seq<NameDependent> {
    if n in c.dependents then c.dependents[n] else []
  }

  function Depend(c: Contents, n: Option<NameId>, x: NameDependent): Contents {
    match n
    case None => c
    case Some(id) => c.(dependents := c.dependents[id := DependentsOf(c, id) + [x]])
  }

  function CountOne<T>(m: map<nat, Counted<T>>, id: nat, value: T): map<nat, Counted<T>> {
    m[id := if id in m then m[id].(refs := m[id].refs + 1) else Counted(value, 1)]
  }

  function Apply(ids: Ids, c: Contents, add: Add): Contents {
    match add
    case AddDefinition(id, named) =>
      Depend(c, named, Definition(id)).(definitions := c.definitions[id := named])
    case InternString(text) =>
      c.(strings := CountOne(c.strings, ids.ofString(text), text))
    case AddName(name) =>
      var id := ids.ofName(name);
      var c1 :=
        if id in c.names then c
        else Depend(Depend(c, ScopeId(name.parentScope), ChildName(id)), name.nesting, NestedName(id));
      c1.(names := CountOne(c.names, id, name))
    case AddReference(id, to) =>
      Depend(c, Some(to), Reference(id)).(references := c.references[id := to])
  }

  function Build(ids: Ids, adds: seq<Add>): Contents {
    if adds == [] then EMPTY else Apply(ids, Build(ids, adds[..|adds| - 1]), adds[|adds| - 1])
  }

  // ---- reference counts ----

  function CountOf<T>(m: map<nat, Counted<T>>, id: nat): nat {
    if id in m then m[id].refs else 0
  }

  function Times(adds: seq<Add>, add: Add): nat {
    if adds == [] then 0 else Times(adds[..|adds| - 1], add) + if adds[|adds| - 1] == add then 1 else 0
  }

  ghost predicate Kept<T>(m: map<nat, Counted<T>>, idOf: T -> nat) {
    forall i | i in m :: m[i].refs > 0 && i == idOf(m[i].value)
  }

  lemma {:induction false} EntriesKept(ids: Ids, adds: seq<Add>)
    ensures Kept(Build(ids, adds).strings, ids.ofString) && Kept(Build(ids, adds).names, ids.ofName)
    decreases |adds|
  {
    if adds != [] { EntriesKept(ids, adds[..|adds| - 1]); }
  }

  lemma DependKeepsEntries(c: Contents, n: Option<NameId>, x: NameDependent)
    ensures Depend(c, n, x) == c.(dependents := Depend(c, n, x).dependents)
  {
  }

  /** Every string counts the times it was interned; one that never was is not stored. */
  lemma {:induction false} StringRefCounts(ids: Ids, adds: seq<Add>, text: string)
    requires Injective(ids)
    ensures CountOf(Build(ids, adds).strings, ids.ofString(text)) == Times(adds, InternString(text))
    ensures Times(adds, InternString(text)) > 0 ==> Build(ids, adds).strings[ids.ofString(text)].value == text
    decreases |adds|
  {
    if adds != [] {
      StringRefCounts(ids, adds[..|adds| - 1], text);
      EntriesKept(ids, adds);
      hide Depend;
    }
  }

  /** Every name counts the times it was added; one that never was is not stored. */
  lemma {:induction false} NameRefCounts(ids: Ids, adds: seq<Add>, name: Name)
    requires Injective(ids)
    ensures CountOf(Build(ids, adds).names, ids.ofName(name)) == Times(adds, AddName(name))
    ensures Times(adds, AddName(name)) > 0 ==> Build(ids, adds).names[ids.ofName(name)].value == name
    decreases |adds|
  {
    if adds != [] {
      NameRefCounts(ids, adds[..|adds| - 1], name);
      EntriesKept(ids, adds);
    }
  }

  // ---- the inverse index ----

  /** How many stored edges of one kind lead from an item to `n`. */
  function Edges(c: Contents, n: NameId, x: NameDependent): nat {
    match x
    case Definition(d) => if d in c.definitions && c.definitions[d] == Some(n) then 1 else 0
    case Reference(r) => if r in c.references && c.references[r] == n then 1 else 0
    case ChildName(m) => if m in c.names && ScopeId(c.names[m].value.parentScope) == Some(n) then 1 else 0
    case NestedName(m) => if m in c.names && c.names[m].value.nesting == Some(n) then 1 else 0
  }

  function Occurrences(xs: seq<NameDependent>, x: NameDependent): nat {
    multiset(xs)[x]
  }

  /** `name_dependents` is the inverse of the stored edges: one entry for each. */
  ghost predicate Inverse(c: Contents) {
    forall n: NameId, x: NameDependent :: Occurrences(DependentsOf(c, n), x) == Edges(c, n, x)
  }

  /** Adding anew what is stored already would list it twice. */
  predicate Fresh(c: Contents, add: Add) {
    match add
    case AddDefinition(id, _) => id in c.definitions ==> c.definitions[id].None?
    case AddReference(id, _) => id !in c.references
    case _ => true
  }

  lemma DependOccurrences(c: Contents, n: Option<NameId>, y: NameDependent, m: NameId, x: NameDependent)
    ensures Occurrences(DependentsOf(Depend(c, n, y), m), x)
         == Occurrences(DependentsOf(c, m), x) + if n == Some(m) && x == y then 1 else 0
  {
    if n == Some(m) {
      assert multiset(DependentsOf(c, m) + [y]) == multiset(DependentsOf(c, m)) + multiset{y};
    }
  }

  lemma DefinitionOccurrences(ids: Ids, c: Contents, id: nat, named: Option<NameId>, n: NameId, x: NameDependent)
    requires Fresh(c, AddDefinition(id, named)) && Occurrences(DependentsOf(c, n), x) == Edges(c, n, x)
    ensures var d := Apply(ids, c, AddDefinition(id, named)); Occurrences(DependentsOf(d, n), x) == Edges(d, n, x)
  {
    DependOccurrences(c, named, Definition(id), n, x);
    DependKeepsEntries(c, named, Definition(id));
    hide Depend, Occurrences;
  }

  lemma ReferenceOccurrences(ids: Ids, c: Contents, id: nat, to: NameId, n: NameId, x: NameDependent)
    requires Fresh(c, AddReference(id, to)) && Occurrences(DependentsOf(c, n), x) == Edges(c, n, x)
    ensures var d := Apply(ids, c, AddReference(id, to)); Occurrences(DependentsOf(d, n), x) == Edges(d, n, x)
  {
    DependOccurrences(c, Some(to), Reference(id), n, x);
    DependKeepsEntries(c, Some(to), Reference(id));
    hide Depend, Occurrences;
  }

  lemma NewNameOccurrences(ids: Ids, c: Contents, name: Name, n: NameId, x: NameDependent)
    requires ids.ofName(name) !in c.names && Occurrences(DependentsOf(c, n), x) == Edges(c, n, x)
    ensures var d := Apply(ids, c, AddName(name)); Occurrences(DependentsOf(d, n), x) == Edges(d, n, x)
  {
    var id := ids.ofName(name);
    var scope := ScopeId(name.parentScope);
    var c1 := Depend(c, scope, ChildName(id));
    DependOccurrences(c, scope, ChildName(id), n, x);
    DependKeepsEntries(c, scope, ChildName(id));
    DependOccurrences(c1, name.nesting, NestedName(id), n, x);
    DependKeepsEntries(c1, name.nesting, NestedName(id));
    hide Depend, Occurrences, ScopeId;
  }

  lemma KnownNameOccurrences(ids: Ids, c: Contents, name: Name, n: NameId, x: NameDependent)
    requires ids.ofName(name) in c.names && Occurrences(DependentsOf(c, n), x) == Edges(c, n, x)
    ensures var d := Apply(ids, c, AddName(name)); Occurrences(DependentsOf(d, n), x) == Edges(d, n, x)
  {
    hide Depend, Occurrences;
  }

  lemma AddOccurrences(ids: Ids, c: Contents, add: Add, n: NameId, x: NameDependent)
    requires Fresh(c, add) && Occurrences(DependentsOf(c, n), x) == Edges(c, n, x)
    ensures Occurrences(DependentsOf(Apply(ids, c, add), n), x) == Edges(Apply(ids, c, add), n, x)
  {
    match add
    case AddDefinition(id, named) => DefinitionOccurrences(ids, c, id, named, n, x);
    case AddReference(id, to) => ReferenceOccurrences(ids, c, id, to, n, x);
    case InternString(_) =>
    case AddName(name) =>
      if ids.ofName(name) in c.names { KnownNameOccurrences(ids, c, name, n, x); }
      else { NewNameOccurrences(ids, c, name, n, x); }
  }

  ghost predicate AllFresh(ids: Ids, adds: seq<Add>) {
    adds != [] ==> AllFresh(ids, adds[..|adds| - 1]) && Fresh(Build(ids, adds[..|adds| - 1]), adds[|adds| - 1])
  }

  /** After any sequence of adds with distinct ids the index is the exact inverse of the stored edges. */
  lemma {:induction false} DependentsAreInverse(ids: Ids, adds: seq<Add>)
    requires AllFresh(ids, adds)
    ensures Inverse(Build(ids, adds))
    decreases |adds|
  {
    if adds != [] {
      var front, last := adds[..|adds| - 1], adds[|adds| - 1];
      DependentsAreInverse(ids, front);
      hide Apply, Edges, Occurrences, Fresh;
      forall n: NameId, x: NameDependent
        ensures Occurrences(DependentsOf(Build(ids, adds), n), x) == Edges(Build(ids, adds), n, x)
      {
        AddOccurrences(ids, Build(ids, front), last, n, x);
      }
    }
  }

  /** Some entry is listed more often than the item has edges. */
  ghost predicate Overfull(c: Contents) {
    exists n: NameId, x: NameDependent :: Occurrences(DependentsOf(c, n), x) > Edges(c, n, x)
  }

  lemma StaleAddOverfills(ids: Ids, c: Contents, add: Add)
    requires Inverse(c) && !Fresh(c, add)
    ensures Overfull(Apply(ids, c, add))
  {
    var d := Apply(ids, c, add);
    match add
    case AddDefinition(id, named) =>
      var was := c.definitions[id].value;
      DependOccurrences(c, named, Definition(id), was, Definition(id));
      assert Occurrences(DependentsOf(c, was), Definition(id)) == Edges(c, was, Definition(id));
      assert Occurrences(DependentsOf(d, was), Definition(id)) > Edges(d, was, Definition(id));
    case AddReference(id, to) =>
      var was := c.references[id];
      DependOccurrences(c, Some(to), Reference(id), was, Reference(id));
      assert Occurrences(DependentsOf(c, was), Reference(id)) == Edges(c, was, Reference(id));
      assert Occurrences(DependentsOf(d, was), Reference(id)) > Edges(d, was, Reference(id));
  }

  lemma EdgesGrowWithEntries(ids: Ids, c: Contents, add: Add, n: NameId, x: NameDependent)
    ensures var d := Apply(ids, c, add);
      && Occurrences(DependentsOf(c, n), x) <= Occurrences(DependentsOf(d, n), x)
      && (Edges(d, n, x) > Edges(c, n, x) ==>
            Occurrences(DependentsOf(d, n), x) > Occurrences(DependentsOf(c, n), x))
  {
    match add
    case AddDefinition(id, named) =>
      DependOccurrences(c, named, Definition(id), n, x);
      DependKeepsEntries(c, named, Definition(id));
    case AddReference(id, to) =>
      DependOccurrences(c, Some(to), Reference(id), n, x);
      DependKeepsEntries(c, Some(to), Reference(id));
    case InternString(_) =>
    case AddName(name) => NameEdgesGrow(ids, c, name, n, x);
  }

  lemma NameEdgesGrow(ids: Ids, c: Contents, name: Name, n: NameId, x: NameDependent)
    ensures var d := Apply(ids, c, AddName(name));
      && Occurrences(DependentsOf(c, n), x) <= Occurrences(DependentsOf(d, n), x)
      && (Edges(d, n, x) > Edges(c, n, x) ==>
            Occurrences(DependentsOf(d, n), x) > Occurrences(DependentsOf(c, n), x))
  {
    var id := ids.ofName(name);
    var scope := ScopeId(name.parentScope);
    var c1 := Depend(c, scope, ChildName(id));
    if id !in c.names {
      DependOccurrences(c, scope, ChildName(id), n, x);
      DependKeepsEntries(c, scope, ChildName(id));
      DependOccurrences(c1, name.nesting, NestedName(id), n, x);
      DependKeepsEntries(c1, name.nesting, NestedName(id));
    }
    hide Depend, Occurrences, ScopeId;
  }

  lemma OverfullStays(ids: Ids, c: Contents, add: Add)
    requires Overfull(c)
    ensures Overfull(Apply(ids, c, add))
  {
    var n: NameId, x: NameDependent :| Occurrences(DependentsOf(c, n), x) > Edges(c, n, x);
    EdgesGrowWithEntries(ids, c, add, n, x);
    assert Edges(Apply(ids, c, add), n, x) <= 1;
    hide Apply, Occurrences, Edges;
  }

  lemma {:induction false} RepeatsOverfill(ids: Ids, adds: seq<Add>)
    requires !AllFresh(ids, adds)
    ensures Overfull(Build(ids, adds))
    decreases |adds|
  {
    var front, last := adds[..|adds| - 1], adds[|adds| - 1];
    if AllFresh(ids, front) {
      DependentsAreInverse(ids, front);
      StaleAddOverfills(ids, Build(ids, front), last);
    } else {
      RepeatsOverfill(ids, front);
      OverfullStays(ids, Build(ids, front), last);
    }
  }

  /** The index is the inverse of the stored edges exactly if no add repeats an id that is taken; what one
      repetition spoils no later add repairs. */
  lemma InverseExactlyWhenFresh(ids: Ids, adds: seq<Add>)
    ensures Inverse(Build(ids, adds)) <==> AllFresh(ids, adds)
  {
    if AllFresh(ids, adds) {
      DependentsAreInverse(ids, adds);
    } else {
      RepeatsOverfill(ids, adds);
      var n: NameId, x: NameDependent :|
        Occurrences(DependentsOf(Build(ids, adds), n), x) > Edges(Build(ids, adds), n, x);
    }
  }

  // ---- the object ----

  class LocalGraph {
    const ids: Ids
    var definitions: map<nat, Option<NameId>>
    var strings: map<nat, Counted<string>>
    var names: map<NameId, Counted<Name>>
    var references: map<nat, NameId>
    var nameDependents: map<NameId, seq<NameDependent>>

    function Stored(): Contents
      reads this
    {
      Contents(definitions, strings, names, references, nameDependents)
    }

    constructor (ids: Ids)
      ensures this.ids == ids && Stored() == Build(ids, [])
    {
      this.ids := ids;
      definitions, strings, names, references, nameDependents := map[], map[], map[], map[], map[];
    }

    method PushDependent(n: NameId, x: NameDependent)
      modifies this`nameDependents
      ensures nameDependents == old(Depend(Stored(), Some(n), x)).dependents
    {
      if n !in nameDependents { nameDependents := nameDependents[n := []]; }
      nameDependents := nameDependents[n := nameDependents[n] + [x]];
    }

    method InternString(text: string) returns (id: nat)
      modifies this
      ensures id == ids.ofString(text) && Stored() == Apply(ids, old(Stored()), Add.InternString(text))
    {
      id := ids.ofString(text);
      if id in strings {
        strings := strings[id := strings[id].(refs := strings[id].refs + 1)];
      } else {
        strings := strings[id := Counted(text, 1)];
      }
    }

    method AddName(name: Name) returns (id: NameId)
      modifies this
      ensures id == ids.ofName(name) && Stored() == Apply(ids, old(Stored()), Add.AddName(name))
    {
      id := ids.ofName(name);
      if id in names {
        names := names[id := names[id].(refs := names[id].refs + 1)];
      } else {
        var scope := ScopeId(name.parentScope);
        if scope.Some? { PushDependent(scope.value, ChildName(id)); }
        if name.nesting.Some? { PushDependent(name.nesting.value, NestedName(id)); }
        names := names[id := Counted(name, 1)];
      }
    }

    method AddDefinition(id: nat, named: Option<NameId>)
      modifies this
      ensures Stored() == Apply(ids, old(Stored()), Add.AddDefinition(id, named))
    {
      if named.Some? { PushDependent(named.value, Definition(id)); }
      definitions := definitions[id := named];
    }

    method AddConstantReference(id: nat, to: NameId)
      modifies this
      ensures Stored() == Apply(ids, old(Stored()), AddReference(id, to))
    {
      PushDependent(to, Reference(id));
      references := references[id := to];
    }
  }
}
