/** What a plain chain contains: everything reachable, the declaration itself once, and nothing twice
    unless something is prepended. */
module ChainContents {
  import opened Declarations
  import opened Aliases
  import opened Graphs
  import opened Links
  import opened Hierarchy
  import opened Linearization
  import opened PlainChains
  import opened Descendants

  /** A walk along superclass and mixin edges. */
  ghost predicate Path(src: Source, p: seq<DeclId>) {
    p != [] && forall i | 0 <= i < |p| - 1 :: p[i + 1] in Children(src, p[i])
  }

  /** `a` stands in the chain of one of the modules. */
  ghost predicate InModules(src: Source, mixins: seq<Mixin>, n: nat, a: Ancestor) {
    exists e :: e in Modules(src, mixins) && Grounded(src, e, n) && a in Plain(src, e, n)
  }

  lemma {:induction false} PlainMixinsContents(src: Source, mixins: seq<Mixin>, parents: seq<Ancestor>,
                                               prepends: seq<Ancestor>, includes: seq<Ancestor>, n: nat, a: Ancestor)
    requires ModulesGrounded(src, mixins, n)
    ensures var (pre, inc) := PlainMixins(src, mixins, parents, prepends, includes, n);
      (a in pre || a in inc || a in parents <==>
        a in prepends || a in includes || a in parents || InModules(src, mixins, n, a))
    decreases |mixins|
  {
    if mixins != [] {
      TailModules(src, mixins);
      hide AddPrepend, AddInclude;
      match ModuleOf(src, mixins[0])
      case None =>
        PlainMixinsContents(src, mixins[1..], parents, prepends, includes, n, a);
      case Some(mod) =>
        var ids := Plain(src, mod, n);
        AddContents(prepends, includes, parents, ids, a);
        if mixins[0].Prepend? {
          PlainMixinsContents(src, mixins[1..], parents, AddPrepend(prepends, ids), includes, n, a);
        } else {
          PlainMixinsContents(src, mixins[1..], parents, prepends, AddInclude(prepends, includes, parents, ids), n, a);
        }
    }
  }

  /** One step: a chain holds the declaration itself and what the chains of its children hold. */
  lemma PlainContents(src: Source, d: DeclId, n: nat, a: Ancestor)
    requires Grounded(src, d, n)
    ensures n > 0 && (forall e | e in Children(src, d) :: Grounded(src, e, n - 1))
    ensures a in Plain(src, d, n) <==> a == Known(d) || exists e :: e in Children(src, d) && a in Plain(src, e, n - 1)
  {
    ChildrenGrounded(src, d, n);
    var parents := PlainParents(src, d, n);
    PlainMixinsContents(src, MixinList(src, d), parents, [], [], n - 1, a);
    var mods := Modules(src, MixinList(src, d));
    assert a in parents <==> ParentOf(src, d).Some? && a in Plain(src, ParentOf(src, d).value, n - 1);
    assert a in Plain(src, d, n) <==> a == Known(d) || a in parents || InModules(src, MixinList(src, d), n - 1, a);
    assert Children(src, d) == mods + (if ParentOf(src, d).Some? then {ParentOf(src, d).value} else {});
    hide Plain, Children, Modules, PlainMixins, PlainParents;
    if InModules(src, MixinList(src, d), n - 1, a) {
      var e :| e in mods && Grounded(src, e, n - 1) && a in Plain(src, e, n - 1);
      assert e in Children(src, d);
    }
    if ParentOf(src, d).Some? { assert ParentOf(src, d).value in Children(src, d); }
  }

  lemma {:induction false} PathInChain(src: Source, p: seq<DeclId>, n: nat)
    requires Path(src, p) && Grounded(src, p[0], n)
    ensures Known(p[|p| - 1]) in Plain(src, p[0], n)
    decreases |p|
  {
    PlainContents(src, p[0], n, Known(p[|p| - 1]));
    if |p| > 1 {
      assert p[1] in Children(src, p[0]);
      PathInChain(src, p[1..], n - 1);
    }
  }

  lemma {:induction false} ChainHasPath(src: Source, d: DeclId, n: nat, a: Ancestor) returns (p: seq<DeclId>)
    requires Grounded(src, d, n) && a in Plain(src, d, n)
    ensures Path(src, p) && p[0] == d && a == Known(p[|p| - 1])
    decreases n
  {
    PlainContents(src, d, n, a);
    hide Plain, Children, Path;
    if a == Known(d) {
      p := [d];
      assert Path(src, p) by { PathOfOne(src, d); }
    } else {
      var e :| e in Children(src, d) && a in Plain(src, e, n - 1);
      var rest := ChainHasPath(src, e, n - 1, a);
      PathBefore(src, d, rest);
      p := [d] + rest;
    }
  }

  lemma PathOfOne(src: Source, d: DeclId)
    ensures Path(src, [d])
  {
  }

  lemma PathBefore(src: Source, d: DeclId, p: seq<DeclId>)
    requires Path(src, p) && p[0] in Children(src, d)
    ensures Path(src, [d] + p) && ([d] + p)[0] == d && ([d] + p)[|[d] + p| - 1] == p[|p| - 1]
  {
  }

  /** Deduplication never loses an ancestor: a chain lists exactly what superclass and mixin edges lead to. */
  lemma ChainIsReachable(src: Source, d: DeclId, n: nat, a: Ancestor)
    requires Grounded(src, d, n)
    ensures a in Plain(src, d, n) <==> exists p :: Path(src, p) && p[0] == d && a == Known(p[|p| - 1])
  {
    if a in Plain(src, d, n) { var p := ChainHasPath(src, d, n, a); }
    forall p | Path(src, p) && p[0] == d && a == Known(p[|p| - 1]) ensures a in Plain(src, d, n) {
      PathInChain(src, p, n);
    }
  }

  // ---- repeated mixins ----

  lemma {:induction false} PlainMixinsAppend(src: Source, mixins: seq<Mixin>, last: Mixin, parents: seq<Ancestor>,
                                             prepends: seq<Ancestor>, includes: seq<Ancestor>, n: nat)
    requires ModulesGrounded(src, mixins, n) && ModulesGrounded(src, [last], n)
    ensures ModulesGrounded(src, mixins + [last], n)
    ensures var (pre, inc) := PlainMixins(src, mixins, parents, prepends, includes, n);
      PlainMixins(src, mixins + [last], parents, prepends, includes, n) == PlainMixins(src, [last], parents, pre, inc, n)
    decreases |mixins|
  {
    assert Modules(src, mixins + [last]) == Modules(src, mixins) + Modules(src, [last]);
    if mixins == [] {
      assert mixins + [last] == [last];
    } else {
      TailModules(src, mixins);
      hide AddPrepend, AddInclude, Modules;
      assert (mixins + [last])[1..] == mixins[1..] + [last];
      match ModuleOf(src, mixins[0])
      case None => PlainMixinsAppend(src, mixins[1..], last, parents, prepends, includes, n);
      case Some(mod) =>
        var ids := Plain(src, mod, n);
        if mixins[0].Prepend? {
          PlainMixinsAppend(src, mixins[1..], last, parents, AddPrepend(prepends, ids), includes, n);
        } else {
          PlainMixinsAppend(src, mixins[1..], last, parents, prepends, AddInclude(prepends, includes, parents, ids), n);
        }
    }
  }

  ghost predicate PrependsIt(src: Source, m: Mixin, n: nat, a: Ancestor) {
    && m.Prepend? && ModuleOf(src, m).Some?
    && Grounded(src, ModuleOf(src, m).value, n) && a in Plain(src, ModuleOf(src, m).value, n)
  }

  /** What has been collected as prepended stays collected as prepended. */
  lemma {:induction false} PrependsStay(src: Source, mixins: seq<Mixin>, parents: seq<Ancestor>, prepends: seq<Ancestor>,
                                        includes: seq<Ancestor>, n: nat, a: Ancestor)
    requires ModulesGrounded(src, mixins, n)
    requires a in prepends || exists m :: m in mixins && PrependsIt(src, m, n, a)
    ensures a in PlainMixins(src, mixins, parents, prepends, includes, n).0
    decreases |mixins|
  {
    if mixins != [] {
      TailModules(src, mixins);
      assert mixins == [mixins[0]] + mixins[1..];
      hide AddPrepend, AddInclude, Modules;
      match ModuleOf(src, mixins[0])
      case None => PrependsStay(src, mixins[1..], parents, prepends, includes, n, a);
      case Some(mod) =>
        var ids := Plain(src, mod, n);
        AddContents(prepends, includes, parents, ids, a);
        if mixins[0].Prepend? {
          PrependsStay(src, mixins[1..], parents, AddPrepend(prepends, ids), includes, n, a);
        } else {
          PrependsStay(src, mixins[1..], parents, prepends, AddInclude(prepends, includes, parents, ids), n, a);
        }
    }
  }

  lemma AddNothing(prepends: seq<Ancestor>, includes: seq<Ancestor>, parents: seq<Ancestor>, ids: seq<Ancestor>)
    ensures (forall a | a in ids :: a in prepends) ==> AddPrepend(prepends, ids) == prepends
    ensures (forall a | a in ids :: a in prepends || a in includes || a in parents) ==>
      AddInclude(prepends, includes, parents, ids) == includes
  {
    if forall a | a in ids :: a in prepends || a in includes || a in parents {
      WithoutAll(ids, prepends + includes + parents);
    }
  }

  lemma {:induction false} WithoutAll(ids: seq<Ancestor>, excluded: seq<Ancestor>)
    requires forall a | a in ids :: a in excluded
    ensures Without(ids, excluded) == []
  {
    if ids != [] { WithoutAll(ids[1..], excluded); }
  }

  lemma {:induction false} WithoutLeaves(ids: seq<Ancestor>, excluded: seq<Ancestor>)
    ensures Without(ids, excluded) == [] <==> forall a | a in ids :: a in excluded
  {
    WithoutContents(ids, excluded);
    if forall a | a in ids :: a in excluded { WithoutAll(ids, excluded); }
    if Without(ids, excluded) == [] {
      forall a | a in ids ensures a in excluded { assert a !in Without(ids, excluded); }
    }
  }

  /** What one more module changes: nothing, exactly if all its entries are there already. */
  lemma AddsNothing(prepends: seq<Ancestor>, includes: seq<Ancestor>, parents: seq<Ancestor>, ids: seq<Ancestor>)
    ensures AddPrepend(prepends, ids) == prepends <==> forall a | a in ids :: a in prepends
    ensures AddInclude(prepends, includes, parents, ids) == includes <==>
      forall a | a in ids :: a in prepends || a in includes || a in parents
  {
    AddNothing(prepends, includes, parents, ids);
    WithoutLeaves(ids, prepends + includes + parents);
    var added := Without(ids, prepends + includes + parents);
    assert added + includes == includes ==> |added| == 0;
    if a :| a in ids && a !in prepends { assert a in AddPrepend(prepends, ids); }
  }

  /** All entries of the module's chain have been brought in: for a prepend among the prepended ones,
      otherwise anywhere. */
  ghost predicate BroughtIn(src: Source, mixins: seq<Mixin>, m: Mixin, mod: DeclId, parents: seq<Ancestor>, n: nat)
    requires ModulesGrounded(src, mixins, n) && Grounded(src, mod, n)
  {
    var (pre, inc) := PlainMixins(src, mixins, parents, [], [], n);
    forall a | a in Plain(src, mod, n) :: a in pre || (!m.Prepend? && (a in inc || a in parents))
  }

  lemma OneMixin(src: Source, m: Mixin, mod: DeclId, parents: seq<Ancestor>, pre: seq<Ancestor>, inc: seq<Ancestor>, n: nat)
    requires ModuleOf(src, m) == Some(mod) && Grounded(src, mod, n)
    ensures ModulesGrounded(src, [m], n)
    ensures PlainMixins(src, [m], parents, pre, inc, n) ==
      if m.Prepend? then (AddPrepend(pre, Plain(src, mod, n)), inc)
      else (pre, AddInclude(pre, inc, parents, Plain(src, mod, n)))
  {
    assert Modules(src, [m]) == {mod};
    hide AddPrepend, AddInclude;
    assert [m][1..] == [];
  }

  /** A further mixin changes nothing exactly if what it brings in has been brought in before, by whatever
      mixins. */
  lemma MixinWithoutEffect(src: Source, mixins: seq<Mixin>, m: Mixin, mod: DeclId, parents: seq<Ancestor>, n: nat)
    requires ModulesGrounded(src, mixins, n) && ModuleOf(src, m) == Some(mod) && Grounded(src, mod, n)
    ensures ModulesGrounded(src, mixins + [m], n)
    ensures PlainMixins(src, mixins + [m], parents, [], [], n) == PlainMixins(src, mixins, parents, [], [], n)
      <==> BroughtIn(src, mixins, m, mod, parents, n)
  {
    var (pre, inc) := PlainMixins(src, mixins, parents, [], [], n);
    OneMixin(src, m, mod, parents, pre, inc, n);
    PlainMixinsAppend(src, mixins, m, parents, [], [], n);
    AddsNothing(pre, inc, parents, Plain(src, mod, n));
    hide PlainMixins, Plain, AddPrepend, AddInclude, Grounded, ModulesGrounded;
  }

  /** In particular repeating a mixin that has been applied already changes nothing. */
  lemma RepeatedMixin(src: Source, mixins: seq<Mixin>, again: Mixin, mod: DeclId, parents: seq<Ancestor>, n: nat)
    requires ModulesGrounded(src, mixins, n) && again in mixins && ModuleOf(src, again) == Some(mod)
    ensures Grounded(src, mod, n) && BroughtIn(src, mixins, again, mod, parents, n)
    ensures ModulesGrounded(src, mixins + [again], n)
    ensures PlainMixins(src, mixins + [again], parents, [], [], n) == PlainMixins(src, mixins, parents, [], [], n)
  {
    assert mod in Modules(src, mixins);
    RepeatedIsBroughtIn(src, mixins, again, mod, parents, n);
    hide *;
    MixinWithoutEffect(src, mixins, again, mod, parents, n);
  }

  lemma RepeatedIsBroughtIn(src: Source, mixins: seq<Mixin>, again: Mixin, mod: DeclId, parents: seq<Ancestor>, n: nat)
    requires ModulesGrounded(src, mixins, n) && again in mixins && ModuleOf(src, again) == Some(mod)
    ensures Grounded(src, mod, n) && BroughtIn(src, mixins, again, mod, parents, n)
  {
    assert mod in Modules(src, mixins);
    var (pre, inc) := PlainMixins(src, mixins, parents, [], [], n);
    forall a | a in Plain(src, mod, n) ensures a in pre || (!again.Prepend? && (a in inc || a in parents)) {
      PlainMixinsContents(src, mixins, parents, [], [], n, a);
      if again.Prepend? { assert PrependsIt(src, again, n, a); PrependsStay(src, mixins, parents, [], [], n, a); }
    }
  }

  // ---- no duplicates ----

  ghost predicate Distinct(ids: seq<Ancestor>) {
    forall i, j | 0 <= i < j < |ids| :: ids[i] != ids[j]
  }

  lemma {:induction false} WithoutDistinct(ids: seq<Ancestor>, excluded: seq<Ancestor>)
    requires Distinct(ids)
    ensures Distinct(Without(ids, excluded))
  {
    if ids != [] {
      WithoutDistinct(ids[1..], excluded);
      WithoutContents(ids[1..], excluded);
      assert ids[0] !in ids[1..];
      ConcatDistinct([ids[0]], Without(ids[1..], excluded));
    }
  }

  lemma ConcatDistinct(a: seq<Ancestor>, b: seq<Ancestor>)
    requires Distinct(a) && Distinct(b) && forall x | x in a :: x !in b
    ensures Distinct(a + b)
  {
    forall i, j | 0 <= i < j < |a + b| ensures (a + b)[i] != (a + b)[j] {
      if i < |a| <= j { assert a[i] in a; }
    }
  }

  predicate NoPrepends(src: Source, d: DeclId) {
    forall m | m in MixinList(src, d) :: !m.Prepend?
  }

  /** Neither `d` nor anything its chain is built from, down to depth `n`, prepends a module. */
  ghost predicate NothingPrepended(src: Source, d: DeclId, n: nat)
    decreases n
  {
    NoPrepends(src, d) && (n > 0 ==> forall e | e in Children(src, d) :: NothingPrepended(src, e, n - 1))
  }

  lemma {:induction false} IncludesDistinct(src: Source, mixins: seq<Mixin>, parents: seq<Ancestor>,
      includes: seq<Ancestor>, n: nat)
    requires ModulesGrounded(src, mixins, n) && (forall m | m in mixins :: !m.Prepend?)
    requires Distinct(includes) && (forall a | a in includes :: a !in parents)
    requires forall e | e in Modules(src, mixins) :: Distinct(Plain(src, e, n))
    ensures var (pre, inc) := PlainMixins(src, mixins, parents, [], includes, n);
      pre == [] && Distinct(inc) && forall a | a in inc :: a !in parents
    decreases |mixins|
  {
    if mixins != [] {
      TailModules(src, mixins);
      assert mixins == [mixins[0]] + mixins[1..];
      match ModuleOf(src, mixins[0])
      case None => IncludesDistinct(src, mixins[1..], parents, includes, n);
      case Some(mod) =>
        var ids := Plain(src, mod, n);
        var added := Without(ids, [] + includes + parents);
        WithoutDistinct(ids, [] + includes + parents);
        WithoutContents(ids, [] + includes + parents);
        ConcatDistinct(added, includes);
        IncludesDistinct(src, mixins[1..], parents, AddInclude([], includes, parents, ids), n);
    }
  }

  /** A declaration is not in the chain of anything its own chain is built from. */
  lemma {:induction false} NotInChildren(src: Source, d: DeclId, n: nat, e: DeclId)
    requires Grounded(src, d, n) && e in Children(src, d) && Grounded(src, e, n - 1)
    ensures Known(d) !in Plain(src, e, n - 1)
    decreases n
  {
    if Known(d) in Plain(src, e, n - 1) {
      var p := ChainHasPath(src, e, n - 1, Known(d));
      PathGrounded(src, p, n - 1);
      ChildrenGrounded(src, d, n - 1);
      PlainUnique(src, e, n - 1, n - 2);
      NotInChildren(src, d, n - 1, e);
    }
  }

  lemma {:induction false} PathGrounded(src: Source, p: seq<DeclId>, n: nat)
    requires Path(src, p) && Grounded(src, p[0], n)
    ensures Grounded(src, p[|p| - 1], n)
    decreases |p|
  {
    if |p| > 1 {
      assert p[1] in Children(src, p[0]);
      ChildrenGrounded(src, p[0], n);
      GroundedMore(src, p[1], n - 1, n);
      assert Path(src, p[1..]);
      PathGrounded(src, p[1..], n);
    }
  }

  /** A chain below which nothing is prepended lists nothing twice. */
  lemma {:induction false} NoDuplicates(src: Source, d: DeclId, n: nat)
    requires NothingPrepended(src, d, n) && Grounded(src, d, n)
    ensures Distinct(Plain(src, d, n))
    decreases n
  {
    ChildrenGrounded(src, d, n);
    forall e | e in Children(src, d) ensures Distinct(Plain(src, e, n - 1)) && Known(d) !in Plain(src, e, n - 1) {
      NoDuplicates(src, e, n - 1);
      NotInChildren(src, d, n, e);
    }
    DistinctFromChildren(src, d, n);
  }

  lemma DistinctFromChildren(src: Source, d: DeclId, n: nat)
    requires NoPrepends(src, d) && Grounded(src, d, n) && n > 0
    requires forall e | e in Children(src, d) ::
      Grounded(src, e, n - 1) && Distinct(Plain(src, e, n - 1)) && Known(d) !in Plain(src, e, n - 1)
    ensures Distinct(Plain(src, d, n))
  {
    hide Distinct, Plain, PlainMixins, Assemble, Grounded, MixinList;
    var prepends, includes := ChainShape(src, d, n);
    var parents := PlainParents(src, d, n);
    ChildrenCover(src, d);
    assert Distinct(parents) by { DistinctEmpty(); }
    DistinctEmpty();
    IncludesDistinct(src, MixinList(src, d), parents, [], n - 1);
    hide PlainParents, NoPrepends;
    DistinctOne(Known(d));
    ConcatDistinct([Known(d)], includes);
    ConcatDistinct([Known(d)] + includes, parents);
    assert prepends + [Known(d)] + includes + parents == [Known(d)] + includes + parents;
  }

  lemma ChildrenCover(src: Source, d: DeclId)
    ensures Modules(src, MixinList(src, d)) <= Children(src, d)
    ensures ParentOf(src, d).Some? ==> ParentOf(src, d).value in Children(src, d)
  {
  }

  lemma DistinctEmpty() ensures Distinct([]) {}

  lemma DistinctOne(a: Ancestor) ensures Distinct([a]) {}

  /** The declaration itself stands in its chain exactly once, behind what is prepended, and the
      chain ends with the unchanged chain of the parent. */
  lemma ChainShape(src: Source, d: DeclId, n: nat) returns (prepends: seq<Ancestor>, includes: seq<Ancestor>)
    requires Grounded(src, d, n)
    ensures n > 0 && (ParentOf(src, d).Some? ==> Grounded(src, ParentOf(src, d).value, n - 1))
    ensures Plain(src, d, n) == prepends + [Known(d)] + includes + PlainParents(src, d, n)
    ensures Known(d) !in prepends && Known(d) !in includes && Known(d) !in PlainParents(src, d, n)
    ensures ModulesGrounded(src, MixinList(src, d), n - 1)
    ensures (prepends, includes) == PlainMixins(src, MixinList(src, d), PlainParents(src, d, n), [], [], n - 1)
  {
    ChildrenGrounded(src, d, n);
    forall e | e in Children(src, d) ensures Known(d) !in Plain(src, e, n - 1) { NotInChildren(src, d, n, e); }
    var parents := PlainParents(src, d, n);
    if ParentOf(src, d).Some? { assert ParentOf(src, d).value in Children(src, d); }
    assert Modules(src, MixinList(src, d)) <= Children(src, d);
    PlainMixinsContents(src, MixinList(src, d), parents, [], [], n - 1, Known(d));
    var r := PlainMixins(src, MixinList(src, d), parents, [], [], n - 1);
    prepends, includes := r.0, r.1;
  }

  // ---- chains of singleton classes ----

  lemma {:induction false} SingletonParentOfNth(src: Source, k: nat, d: DeclId)
    requires k > 0 && d.Named? && d != BASIC_OBJECT && KindOf(src, d) == Class
    ensures ParentOf(src, Singleton(src, k, d)) == Some(Singleton(src, k, ParentOf(src, d).value))
    ensures ParentMissing(src, Singleton(src, k, d)) == ParentMissing(src, d)
  {
    if k > 1 { SingletonParentOfNth(src, k - 1, d); }
  }

  lemma {:induction false} SingletonParentOfModule(src: Source, k: nat, d: DeclId)
    requires k > 0 && d.Named? && d != BASIC_OBJECT && KindOf(src, d) == Module
    ensures ParentOf(src, Singleton(src, k, d)) == Some(Singleton(src, k - 1, MODULE))
    ensures !ParentMissing(src, Singleton(src, k, d))
  {
    if k > 1 { SingletonParentOfModule(src, k - 1, d); }
  }

  /** The singleton class of a placeholder, which may turn out to be a class, inherits from `Class`. */
  lemma SingletonParentOfPlaceholder(src: Source, d: DeclId)
    requires d.Named? && KindOf(src, d) == Todo
    ensures ParentOf(src, SingletonClassOf(src, d)) == Some(CLASS) && !ParentMissing(src, SingletonClassOf(src, d))
  {
  }

  lemma {:induction false} SingletonParentOfBasicObject(src: Source, k: nat)
    requires k > 0
    ensures ParentOf(src, Singleton(src, k, BASIC_OBJECT)) == Some(Singleton(src, k - 1, CLASS))
    ensures !ParentMissing(src, Singleton(src, k, BASIC_OBJECT))
  {
    if k > 1 { SingletonParentOfBasicObject(src, k - 1); }
  }

  /** Classes, each followed by its superclass, down to `BasicObject`. */
  ghost predicate SuperclassChain(src: Source, classes: seq<DeclId>) {
    && classes != [] && classes[|classes| - 1] == BASIC_OBJECT
    && (forall i | 0 <= i < |classes| - 1 ::
         && classes[i].Named? && classes[i] != BASIC_OBJECT && KindOf(src, classes[i]) == Class
         && !ParentMissing(src, classes[i]) && ParentOf(src, classes[i]) == Some(classes[i + 1]))
  }

  function NthSingletons(src: Source, k: nat, classes: seq<DeclId>): seq<Ancestor> {
    if classes == [] then [] else [Known(Singleton(src, k, classes[0]))] + NthSingletons(src, k, classes[1..])
  }

  lemma NoMixinsChain(src: Source, d: DeclId, n: nat)
    requires n > 0 && MixinList(src, d) == [] && !ParentMissing(src, d)
    requires ParentOf(src, d).Some? && Grounded(src, ParentOf(src, d).value, n - 1)
    ensures Grounded(src, d, n)
    ensures Plain(src, d, n) == [Known(d)] + Plain(src, ParentOf(src, d).value, n - 1)
  {
    assert Modules(src, []) == {};
    assert Children(src, d) == {ParentOf(src, d).value};
    AssembledAlone(d, Plain(src, ParentOf(src, d).value, n - 1));
    hide ParentOf, ParentMissing, MixinList, Assemble;
  }

  lemma AssembledAlone(d: DeclId, parents: seq<Ancestor>)
    ensures Assemble(d, [], [], parents) == [Known(d)] + parents
  {
  }

  lemma RestOfChain(src: Source, classes: seq<DeclId>)
    requires SuperclassChain(src, classes) && |classes| > 1
    ensures SuperclassChain(src, classes[1..]) && classes[0].Named? && classes[0] != BASIC_OBJECT
    ensures KindOf(src, classes[0]) == Class && !ParentMissing(src, classes[0])
    ensures ParentOf(src, classes[0]) == Some(classes[1]) && classes[1..][0] == classes[1]
  {
    hide ParentOf, ParentMissing, KindOf;
    assert classes[1..][|classes[1..]| - 1] == BASIC_OBJECT;
  }

  /** The k-th singleton class of a class inherits from the k-th singleton classes of its superclasses
      and then from the (k-1)-th singleton class of `Class`. */
  lemma {:induction false} SingletonChainOfClass(src: Source, k: nat, classes: seq<DeclId>, n: nat)
    requires k > 0 && SuperclassChain(src, classes)
    requires forall i | 0 <= i < |classes| :: MixinList(src, Singleton(src, k, classes[i])) == []
    requires Grounded(src, Singleton(src, k - 1, CLASS), n)
    ensures Grounded(src, Singleton(src, k, classes[0]), n + |classes|)
    ensures Plain(src, Singleton(src, k, classes[0]), n + |classes|)
         == NthSingletons(src, k, classes) + Plain(src, Singleton(src, k - 1, CLASS), n)
    decreases |classes|
  {
    hide Plain, MixinList, ParentMissing, SingletonParentId;
    var d := Singleton(src, k, classes[0]);
    if |classes| == 1 {
      SingletonParentOfBasicObject(src, k);
      NoMixinsChain(src, d, n + 1);
    } else {
      assert classes[0].Named?;
      SingletonParentOfNth(src, k, classes[0]);
      RestOfChain(src, classes);
      SingletonChainOfClass(src, k, classes[1..], n);
      hide Grounded, SuperclassChain, ParentOf, Singleton;
      NoMixinsChain(src, d, n + |classes|);
      OneBefore(Known(d), NthSingletons(src, k, classes[1..]), Plain(src, Singleton(src, k - 1, CLASS), n));
    }
  }

  lemma OneBefore(a: Ancestor, b: seq<Ancestor>, c: seq<Ancestor>)
    ensures [a] + (b + c) == ([a] + b) + c
  {
  }

  /** The k-th singleton class of a module inherits from the (k-1)-th singleton class of `Module`. */
  lemma SingletonChainOfModule(src: Source, k: nat, d: DeclId, n: nat)
    requires k > 0 && d.Named? && d != BASIC_OBJECT && KindOf(src, d) == Module
    requires MixinList(src, Singleton(src, k, d)) == [] && Grounded(src, Singleton(src, k - 1, MODULE), n)
    ensures Grounded(src, Singleton(src, k, d), n + 1)
    ensures Plain(src, Singleton(src, k, d), n + 1) ==
      [Known(Singleton(src, k, d))] + Plain(src, Singleton(src, k - 1, MODULE), n)
  {
    SingletonParentOfModule(src, k, d);
    NoMixinsChain(src, Singleton(src, k, d), n + 1);
  }
}
