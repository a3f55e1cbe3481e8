/** What a chain should be: the recursion without caches, contexts or estimates, on every
    declaration below which all names are resolved and no cycle exists. */
module PlainChains {
  import opened Declarations
  import opened Aliases
  import opened Graphs
  import opened Links
  import opened Hierarchy
  import opened Linearization

  /** The declaration whose chain closes the chain of `d`. */
  function ParentOf(src: Source, d: DeclId): Option<DeclId> {
    if d == BASIC_OBJECT then None
    else if d.SingletonOf? then Some(SingletonParentId(src, d.attached).0)
    else if KindOf(src, d) == Class then Some(ParentClass(src, DefinitionsOf(src, d)).0)
    else None
  }

  predicate ParentMissing(src: Source, d: DeclId) {
    if d == BASIC_OBJECT then false
    else if d.SingletonOf? then SingletonParentId(src, d.attached).1
    else KindOf(src, d) == Class && ParentClass(src, DefinitionsOf(src, d)).1.Some?
  }

  function ModuleOf(src: Source, m: Mixin): Option<DeclId> {
    match Target(src, m.name)
    case None => None
    case Some(t) => ResolveToNamespace(src, t)
  }

  function Modules(src: Source, mixins: seq<Mixin>): set<DeclId> {
    set m | m in mixins && ModuleOf(src, m).Some? :: ModuleOf(src, m).value
  }

  /** The declarations whose chains the chain of `d` is built from. */
  function Children(src: Source, d: DeclId): set<DeclId> {
    (if ParentOf(src, d).Some? then {ParentOf(src, d).value} else {}) + Modules(src, MixinList(src, d))
  }

  predicate NamesResolved(src: Source, d: DeclId) {
    !ParentMissing(src, d) && forall m | m in MixinList(src, d) :: Target(src, m.name).Some?
  }

  /** Below `d` every name is resolved and no path is longer than `n` declarations; that some `n`
      exists says that the hierarchy under `d` is resolved and acyclic. */
  ghost predicate Grounded(src: Source, d: DeclId, n: nat)
    decreases n
  {
    n > 0 && NamesResolved(src, d) && forall e | e in Children(src, d) :: Grounded(src, e, n - 1)
  }

  ghost predicate WellFounded(src: Source, d: DeclId) {
    exists n: nat :: Grounded(src, d, n)
  }

  ghost predicate ModulesGrounded(src: Source, mixins: seq<Mixin>, n: nat) {
    forall e | e in Modules(src, mixins) :: Grounded(src, e, n)
  }

  lemma ChildrenGrounded(src: Source, d: DeclId, n: nat)
    requires Grounded(src, d, n)
    ensures n > 0 && NamesResolved(src, d)
    ensures forall e | e in Children(src, d) :: Grounded(src, e, n - 1)
    ensures ParentOf(src, d).Some? ==> Grounded(src, ParentOf(src, d).value, n - 1)
    ensures ModulesGrounded(src, MixinList(src, d), n - 1)
  {
    if ParentOf(src, d).Some? { assert ParentOf(src, d).value in Children(src, d); }
    assert Modules(src, MixinList(src, d)) <= Children(src, d);
  }

  ghost function Plain(src: Source, d: DeclId, n: nat): seq<Ancestor>
    requires Grounded(src, d, n)
    decreases n, 0, 0
  {
    ChildrenGrounded(src, d, n);
    var parents := PlainParents(src, d, n);
    var (prepends, includes) := PlainMixins(src, MixinList(src, d), parents, [], [], n - 1);
    Assemble(d, prepends, includes, parents)
  }

  ghost function PlainParents(src: Source, d: DeclId, n: nat): seq<Ancestor>
    requires n > 0 && (ParentOf(src, d).Some? ==> Grounded(src, ParentOf(src, d).value, n - 1))
    decreases n - 1, 1, 0
  {
    if ParentOf(src, d).Some? then Plain(src, ParentOf(src, d).value, n - 1) else []
  }

  ghost function PlainMixins(src: Source, mixins: seq<Mixin>, parents: seq<Ancestor>, prepends: seq<Ancestor>,
                             includes: seq<Ancestor>, n: nat): (seq<Ancestor>, seq<Ancestor>)
    requires ModulesGrounded(src, mixins, n)
    decreases n, 1, |mixins|
  {
    if mixins == [] then (prepends, includes)
    else
      TailModules(src, mixins);
      match ModuleOf(src, mixins[0])
      case None => PlainMixins(src, mixins[1..], parents, prepends, includes, n)
      case Some(mod) =>
        if mixins[0].Prepend? then
          PlainMixins(src, mixins[1..], parents, AddPrepend(prepends, Plain(src, mod, n)), includes, n)
        else
          PlainMixins(src, mixins[1..], parents, prepends,
                      AddInclude(prepends, includes, parents, Plain(src, mod, n)), n)
  }

  lemma TailModules(src: Source, mixins: seq<Mixin>)
    requires mixins != []
    ensures Modules(src, mixins[1..]) <= Modules(src, mixins)
    ensures ModuleOf(src, mixins[0]).Some? ==> ModuleOf(src, mixins[0]).value in Modules(src, mixins)
    ensures Modules(src, mixins) == Modules(src, mixins[1..]) +
      (if ModuleOf(src, mixins[0]).Some? then {ModuleOf(src, mixins[0]).value} else {})
  {
    assert mixins == [mixins[0]] + mixins[1..];
  }

  // ---- the depth bound does not matter ----

  lemma {:induction false} GroundedMore(src: Source, d: DeclId, n: nat, m: nat)
    requires Grounded(src, d, n) && n <= m
    ensures Grounded(src, d, m)
    decreases n
  {
    forall e | e in Children(src, d) ensures Grounded(src, e, m - 1) {
      GroundedMore(src, e, n - 1, m - 1);
    }
  }

  lemma {:induction false} PlainUnique(src: Source, d: DeclId, n: nat, m: nat)
    requires Grounded(src, d, n) && Grounded(src, d, m)
    ensures Plain(src, d, n) == Plain(src, d, m)
    decreases n, 0, 0
  {
    ChildrenGrounded(src, d, n);
    ChildrenGrounded(src, d, m);
    if ParentOf(src, d).Some? { PlainUnique(src, ParentOf(src, d).value, n - 1, m - 1); }
    var parents := PlainParents(src, d, n);
    PlainMixinsUnique(src, MixinList(src, d), parents, [], [], n - 1, m - 1);
  }

  lemma {:induction false} PlainMixinsUnique(src: Source, mixins: seq<Mixin>, parents: seq<Ancestor>,
                                             prepends: seq<Ancestor>, includes: seq<Ancestor>, n: nat, m: nat)
    requires ModulesGrounded(src, mixins, n) && ModulesGrounded(src, mixins, m)
    ensures PlainMixins(src, mixins, parents, prepends, includes, n)
         == PlainMixins(src, mixins, parents, prepends, includes, m)
    decreases n, 1, |mixins|
  {
    if mixins != [] {
      TailModules(src, mixins);
      match ModuleOf(src, mixins[0])
      case None => PlainMixinsUnique(src, mixins[1..], parents, prepends, includes, n, m);
      case Some(mod) =>
        PlainUnique(src, mod, n, m);
        if mixins[0].Prepend? {
          PlainMixinsUnique(src, mixins[1..], parents, AddPrepend(prepends, Plain(src, mod, n)), includes, n, m);
        } else {
          PlainMixinsUnique(src, mixins[1..], parents, prepends,
                            AddInclude(prepends, includes, parents, Plain(src, mod, n)), n, m);
        }
    }
  }
}
