/** What a chain should be while some names are still unresolved: the recursion without caches, contexts or estimates, on
    every declaration below which no cycle exists. */
module OpenChains {
  import opened Declarations
  import opened Aliases
  import opened Graphs
  import opened Links
  import opened Hierarchy
  import opened Linearization
  import opened PlainChains

  /** No path below `d` along resolved names is longer than `n` declarations. */
  ghost predicate Acyclic(src: Source, d: DeclId, n: nat)
    decreases n
  {
    n > 0 && forall e | e in Children(src, d) :: Acyclic(src, e, n - 1)
  }

  ghost predicate ModulesAcyclic(src: Source, mixins: seq<Mixin>, n: nat) {
    forall e | e in Modules(src, mixins) :: Acyclic(src, e, n)
  }

  /** The superclass of a class that is not resolved: it stands in front of the chain that is taken for it. */
  function MissingParent(src: Source, d: DeclId): seq<Ancestor> {
    if d != BASIC_OBJECT && d.Named? && KindOf(src, d) == Class && ParentClass(src, DefinitionsOf(src, d)).1.Some?
    then [Missing(ParentClass(src, DefinitionsOf(src, d)).1.value)] else []
  }

  lemma ChildrenAcyclic(src: Source, d: DeclId, n: nat)
    requires Acyclic(src, d, n)
    ensures n > 0 && forall e | e in Children(src, d) :: Acyclic(src, e, n - 1)
    ensures ParentOf(src, d).Some? ==> Acyclic(src, ParentOf(src, d).value, n - 1)
    ensures ModulesAcyclic(src, MixinList(src, d), n - 1)
  {
    if ParentOf(src, d).Some? { assert ParentOf(src, d).value in Children(src, d); }
    assert Modules(src, MixinList(src, d)) <= Children(src, d);
  }

  lemma {:induction false} AcyclicMore(src: Source, d: DeclId, n: nat, m: nat)
    requires Acyclic(src, d, n) && n <= m
    ensures Acyclic(src, d, m)
    decreases n
  {
    forall e | e in Children(src, d) ensures Acyclic(src, e, m - 1) { AcyclicMore(src, e, n - 1, m - 1); }
  }

  ghost function OpenChain(src: Source, d: DeclId, n: nat): seq<Ancestor>
    requires Acyclic(src, d, n)
    decreases n, 0, 0
  {
    ChildrenAcyclic(src, d, n);
    var parents := OpenParents(src, d, n);
    var (prepends, includes) := OpenMixins(src, MixinList(src, d), parents, [], [], n - 1);
    Assemble(d, prepends, includes, parents)
  }

  ghost function OpenParents(src: Source, d: DeclId, n: nat): seq<Ancestor>
    requires n > 0 && (ParentOf(src, d).Some? ==> Acyclic(src, ParentOf(src, d).value, n - 1))
    decreases n - 1, 1, 0
  {
    MissingParent(src, d) + if ParentOf(src, d).Some? then OpenChain(src, ParentOf(src, d).value, n - 1) else []
  }

  /** A name that is not resolved stands where the chain of its module will: in front of what has been collected so far. */
  ghost function OpenMixins(src: Source, mixins: seq<Mixin>, parents: seq<Ancestor>, prepends: seq<Ancestor>,
                            includes: seq<Ancestor>, n: nat): (seq<Ancestor>, seq<Ancestor>)
    requires ModulesAcyclic(src, mixins, n)
    decreases n, 1, |mixins|
  {
    if mixins == [] then (prepends, includes)
    else
      TailModules(src, mixins);
      var m := mixins[0];
      if Target(src, m.name).None? then
        if m.Prepend? then OpenMixins(src, mixins[1..], parents, [Missing(m.name)] + prepends, includes, n)
        else OpenMixins(src, mixins[1..], parents, prepends, [Missing(m.name)] + includes, n)
      else
        match ModuleOf(src, m)
        case None => OpenMixins(src, mixins[1..], parents, prepends, includes, n)
        case Some(mod) =>
          if m.Prepend? then
            OpenMixins(src, mixins[1..], parents, AddPrepend(prepends, OpenChain(src, mod, n)), includes, n)
          else
            OpenMixins(src, mixins[1..], parents, prepends, AddInclude(prepends, includes, parents, OpenChain(src, mod, n)), n)
  }

  // ---- where all names are resolved ----

  lemma {:induction false} GroundedIsAcyclic(src: Source, d: DeclId, n: nat)
    requires Grounded(src, d, n)
    ensures Acyclic(src, d, n)
    decreases n
  {
    ChildrenGrounded(src, d, n);
    forall e | e in Children(src, d) ensures Acyclic(src, e, n - 1) { GroundedIsAcyclic(src, e, n - 1); }
  }

  /** Once everything is resolved this is the plain chain. */
  lemma {:induction false} OpenIsPlain(src: Source, d: DeclId, n: nat)
    requires Grounded(src, d, n)
    ensures Acyclic(src, d, n) && OpenChain(src, d, n) == Plain(src, d, n)
    decreases n, 0, 0
  {
    GroundedIsAcyclic(src, d, n);
    ChildrenGrounded(src, d, n);
    ChildrenAcyclic(src, d, n);
    NoMissingParent(src, d);
    if ParentOf(src, d).Some? { OpenIsPlain(src, ParentOf(src, d).value, n - 1); }
    var parents := PlainParents(src, d, n);
    assert OpenParents(src, d, n) == parents;
    OpenMixinsPlain(src, MixinList(src, d), parents, [], [], n - 1);
  }

  lemma NoMissingParent(src: Source, d: DeclId)
    requires NamesResolved(src, d)
    ensures MissingParent(src, d) == []
  {
    hide MixinList, ParentClass;
  }

  lemma {:induction false} OpenMixinsPlain(src: Source, mixins: seq<Mixin>, parents: seq<Ancestor>, prepends: seq<Ancestor>,
                                           includes: seq<Ancestor>, n: nat)
    requires ModulesGrounded(src, mixins, n) && forall m | m in mixins :: Target(src, m.name).Some?
    ensures ModulesAcyclic(src, mixins, n)
    ensures OpenMixins(src, mixins, parents, prepends, includes, n) == PlainMixins(src, mixins, parents, prepends, includes, n)
    decreases n, 1, |mixins|
  {
    forall e | e in Modules(src, mixins) ensures Acyclic(src, e, n) { GroundedIsAcyclic(src, e, n); }
    if mixins != [] {
      TailModules(src, mixins);
      hide AddPrepend, AddInclude, Target;
      assert Target(src, mixins[0].name).Some?;
      match ModuleOf(src, mixins[0])
      case None => OpenMixinsPlain(src, mixins[1..], parents, prepends, includes, n);
      case Some(mod) =>
        OpenIsPlain(src, mod, n);
        var ids := Plain(src, mod, n);
        if mixins[0].Prepend? {
          OpenMixinsPlain(src, mixins[1..], parents, AddPrepend(prepends, ids), includes, n);
        } else {
          OpenMixinsPlain(src, mixins[1..], parents, prepends, AddInclude(prepends, includes, parents, ids), n);
        }
    }
  }
}
