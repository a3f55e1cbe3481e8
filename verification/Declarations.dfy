/** The frozen part of the graph: which declarations exist under which kind, the definitions
    that make them up, and what every constant name has been resolved to. */
module Declarations {

  datatype Option<+T> = None | Some(value: T)

  type NameId = nat

  /** Declaration ids are hashes of fully qualified names. Hashing is taken to be injective. The name of a singleton
      class is that of its attached object and a last segment: the one made on the fly has the segment that goes
      with the attached object, one that is written out can have another, its label. */
  datatype DeclId = Named(key: nat) | SingletonOf(attached: DeclId, tag: Option<nat>)

  const BASIC_OBJECT := Named(0)
  const OBJECT := Named(1)
  const MODULE := Named(2)
  const CLASS := Named(3)

  datatype Kind = Class | Module | SingletonClass | Todo | Constant | ConstantAlias | OtherKind

  datatype Mixin = Prepend(name: NameId) | Include(name: NameId) | Extend(name: NameId)

  datatype Definition =
    | ClassDef(superclass: Option<NameId>, mixins: seq<Mixin>)
    | SingletonClassDef(mixins: seq<Mixin>)
    | ModuleDef(mixins: seq<Mixin>)
    | ConstantDef(promotable: bool)
    | ConstantAliasDef(target: NameId)
    | OtherDef

  datatype NameRef = Unresolved | Resolved(declaration: DeclId)

  /** `labels` are those of all singleton classes written out so far, `written` tells which declarations are linked
      to such a one. */
  datatype Source = Source(
    kinds: map<nat, Kind>,
    definitions: map<DeclId, seq<Definition>>,
    names: map<NameId, NameRef>,
    labels: set<nat>,
    written: map<DeclId, nat>
  )

  function Level(d: DeclId): nat {
    match d
    case Named(_) => 0
    case SingletonOf(a, _) => Level(a) + 1
  }

  function LabelOf(src: Source, d: DeclId): Option<nat> {
    if d in src.written then Some(src.written[d]) else None
  }

  /** The singleton class `d` is linked to, or the one that will be made for it. */
  function SingletonClassOf(src: Source, d: DeclId): DeclId {
    SingletonOf(d, LabelOf(src, d))
  }

  /** The k-th singleton class of `d`. */
  function Singleton(src: Source, k: nat, d: DeclId): DeclId {
    if k == 0 then d else SingletonClassOf(src, Singleton(src, k - 1, d))
  }

  function DefinitionsOf(src: Source, d: DeclId): seq<Definition> {
    if d in src.definitions then src.definitions[d] else []
  }

  predicate Declared(src: Source, d: DeclId) {
    match d
    case Named(k) => k in src.kinds
    case SingletonOf(a, tag) => Declared(src, a) && (tag.Some? ==> tag.value in src.labels)
  }

  lemma {:induction false} DeclaredInMore(src: Source, src': Source, d: DeclId)
    requires src.kinds.Keys <= src'.kinds.Keys && src.labels <= src'.labels && Declared(src, d)
    ensures Declared(src', d)
  {
    if d.SingletonOf? { DeclaredInMore(src, src', d.attached); }
  }

  lemma DeclaredMore(src: Source, src': Source)
    requires src.kinds.Keys <= src'.kinds.Keys && src.labels <= src'.labels
    ensures forall d | Declared(src, d) :: Declared(src', d)
  {
    forall d | Declared(src, d) ensures Declared(src', d) { DeclaredInMore(src, src', d); }
  }

  lemma DeclaredAlike(src: Source, src': Source)
    requires src.kinds == src'.kinds && src.labels == src'.labels
    ensures forall d: DeclId :: Declared(src, d) == Declared(src', d) && IsNamespace(src, d) == IsNamespace(src', d)
  {
    DeclaredMore(src, src');
    DeclaredMore(src', src);
    hide Declared;
  }

  function KindOf(src: Source, d: DeclId): Kind {
    match d
    case Named(k) => if k in src.kinds then src.kinds[k] else OtherKind
    case SingletonOf(_, _) => SingletonClass
  }

  predicate IsNamespace(src: Source, d: DeclId) {
    KindOf(src, d) in {Class, Module, SingletonClass, Todo}
  }

  /** What a name has been resolved to. */
  function Target(src: Source, name: NameId): Option<DeclId> {
    if name in src.names && src.names[name].Resolved? then Some(src.names[name].declaration) else None
  }

  /** Built-in classes exist, and names lead to declarations. */
  ghost predicate WellFormedSource(src: Source) {
    && (forall k | k in {0, 1, 2, 3} :: k in src.kinds && src.kinds[k] == Class)
    && (forall k | k in src.kinds :: src.kinds[k] != SingletonClass)
    && (forall n | n in src.names :: src.names[n].Resolved? ==> Declared(src, src.names[n].declaration))
    && (forall d | d in src.written :: src.written[d] in src.labels)
  }
}
