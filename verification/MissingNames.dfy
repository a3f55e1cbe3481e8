/** Names that are not resolved yet: which of them a chain lists, and where they stand. */
module MissingNames {
  import opened Declarations
  import opened Aliases
  import opened Graphs
  import opened Links
  import opened Hierarchy
  import opened Linearization
  import opened PlainChains
  import opened OpenChains
  import opened Descendants
  import opened ChainContents
  import opened ChainOrder
  import opened AppliedMixins

  // ---- what a chain lists ----

  /** `a` is what the mixin `m` brings in: its name while that is not resolved, the chain of its module once it is. */
  ghost predicate Brings(src: Source, m: Mixin, n: nat, a: Ancestor) {
    if Target(src, m.name).None? then a == Missing(m.name)
    else ModuleOf(src, m).Some? && Acyclic(src, ModuleOf(src, m).value, n) && a in OpenChain(src, ModuleOf(src, m).value, n)
  }

  ghost predicate BroughtBy(src: Source, mixins: seq<Mixin>, n: nat, a: Ancestor) {
    exists m :: m in mixins && Brings(src, m, n, a)
  }

  lemma BroughtLater(src: Source, mixins: seq<Mixin>, n: nat, a: Ancestor)
    requires mixins != []
    ensures BroughtBy(src, mixins, n, a) <==> Brings(src, mixins[0], n, a) || BroughtBy(src, mixins[1..], n, a)
  {
    hide Brings;
    assert mixins == [mixins[0]] + mixins[1..];
  }

  lemma {:induction false} OpenMixinsContents(src: Source, mixins: seq<Mixin>, parents: seq<Ancestor>, prepends: seq<Ancestor>,
                                              includes: seq<Ancestor>, n: nat, a: Ancestor)
    requires ModulesAcyclic(src, mixins, n)
    ensures var (pre, inc) := OpenMixins(src, mixins, parents, prepends, includes, n);
      (a in pre || a in inc || a in parents <==>
        a in prepends || a in includes || a in parents || BroughtBy(src, mixins, n, a))
    decreases |mixins|
  {
    if mixins != [] {
      TailModules(src, mixins);
      BroughtLater(src, mixins, n, a);
      hide AddPrepend, AddInclude, BroughtBy, Target, ResolveToNamespace;
      var m := mixins[0];
      if Target(src, m.name).None? {
        if m.Prepend? {
          OpenMixinsContents(src, mixins[1..], parents, [Missing(m.name)] + prepends, includes, n, a);
        } else {
          OpenMixinsContents(src, mixins[1..], parents, prepends, [Missing(m.name)] + includes, n, a);
        }
      } else if ModuleOf(src, m).None? {
        OpenMixinsContents(src, mixins[1..], parents, prepends, includes, n, a);
      } else {
        var ids := OpenChain(src, ModuleOf(src, m).value, n);
        AddContents(prepends, includes, parents, ids, a);
        if m.Prepend? {
          OpenMixinsContents(src, mixins[1..], parents, AddPrepend(prepends, ids), includes, n, a);
        } else {
          OpenMixinsContents(src, mixins[1..], parents, prepends, AddInclude(prepends, includes, parents, ids), n, a);
        }
      }
    }
  }

  /** The definitions of `d`, and for a singleton class those of its attached object, are written with a name that is not
      resolved: of a mixin, or as the last such superclass. */
  ghost predicate WrittenWith(src: Source, d: DeclId, name: NameId) {
    || MissingParent(src, d) == [Missing(name)]
    || exists w, m :: AppliesAt(src, d, w, m) && m.name == name && Target(src, name).None?
  }

  lemma MissingMixins(src: Source, d: DeclId, name: NameId)
    ensures (exists m :: m in MixinList(src, d) && m.name == name && Target(src, name).None?) <==>
      exists w, m :: AppliesAt(src, d, w, m) && m.name == name && Target(src, name).None?
  {
    hide MixinList, AppliesAt, Target;
    forall m: Mixin ensures m in MixinList(src, d) <==> exists w :: AppliesAt(src, d, w, m) { Applying(src, d, m); }
  }

  /** One step: a chain holds the declaration, the missing names it is written with, and what its children's chains hold. */
  lemma OpenContents(src: Source, d: DeclId, n: nat, a: Ancestor)
    requires Acyclic(src, d, n)
    ensures n > 0 && (forall e | e in Children(src, d) :: Acyclic(src, e, n - 1))
    ensures a in OpenChain(src, d, n) <==>
      || a == Known(d)
      || (a.Missing? && WrittenWith(src, d, a.name))
      || exists e :: e in Children(src, d) && a in OpenChain(src, e, n - 1)
  {
    ChildrenAcyclic(src, d, n);
    var parents := OpenParents(src, d, n);
    OpenMixinsContents(src, MixinList(src, d), parents, [], [], n - 1, a);
    if a.Missing? { MissingMixins(src, d, a.name); }
    assert a in OpenChain(src, d, n) <==> a == Known(d) || a in parents || BroughtBy(src, MixinList(src, d), n - 1, a);
    var parent := ParentOf(src, d);
    assert a in parents <==> a in MissingParent(src, d) || (parent.Some? && a in OpenChain(src, parent.value, n - 1));
    BroughtByChild(src, d, n - 1, a);
    assert Children(src, d) == (if parent.Some? then {parent.value} else {}) + Modules(src, MixinList(src, d));
    hide OpenChain, Children, OpenMixins, OpenParents, BroughtBy, MixinList, Modules, ParentOf, AppliesAt, Target;
    if parent.Some? { assert parent.value in Children(src, d); }
  }

  lemma BroughtByChild(src: Source, d: DeclId, n: nat, a: Ancestor)
    requires ModulesAcyclic(src, MixinList(src, d), n)
    ensures BroughtBy(src, MixinList(src, d), n, a) <==>
      || (a.Missing? && exists m :: m in MixinList(src, d) && m.name == a.name && Target(src, a.name).None?)
      || exists e :: e in Modules(src, MixinList(src, d)) && a in OpenChain(src, e, n)
  {
    hide MixinList, OpenChain, Acyclic;
    if BroughtBy(src, MixinList(src, d), n, a) {
      var m :| m in MixinList(src, d) && Brings(src, m, n, a);
      if Target(src, m.name).Some? { assert ModuleOf(src, m).value in Modules(src, MixinList(src, d)); }
    }
    if a.Missing? {
      if m :| m in MixinList(src, d) && m.name == a.name && Target(src, a.name).None? { assert Brings(src, m, n, a); }
    }
    if e :| e in Modules(src, MixinList(src, d)) && a in OpenChain(src, e, n) {
      var m :| m in MixinList(src, d) && ModuleOf(src, m) == Some(e);
      assert Brings(src, m, n, a);
    }
  }

  /** What stands at the end of a path. */
  ghost predicate AtEnd(src: Source, p: seq<DeclId>, a: Ancestor) {
    p != [] && match a
      case Known(d) => p[|p| - 1] == d
      case Missing(name) => WrittenWith(src, p[|p| - 1], name)
  }

  lemma {:induction false} PathInOpenChain(src: Source, p: seq<DeclId>, n: nat, a: Ancestor)
    requires Path(src, p) && Acyclic(src, p[0], n) && AtEnd(src, p, a)
    ensures a in OpenChain(src, p[0], n)
    decreases |p|
  {
    OpenContents(src, p[0], n, a);
    hide WrittenWith, Children, OpenChain;
    if |p| > 1 {
      assert p[1] in Children(src, p[0]);
      assert Path(src, p[1..]) && AtEnd(src, p[1..], a);
      hide AtEnd, Path;
      PathInOpenChain(src, p[1..], n - 1, a);
    }
  }

  lemma EndOfOne(src: Source, d: DeclId, a: Ancestor)
    requires a == Known(d) || (a.Missing? && WrittenWith(src, d, a.name))
    ensures AtEnd(src, [d], a)
  {
  }

  lemma EndBefore(src: Source, d: DeclId, p: seq<DeclId>, a: Ancestor)
    requires AtEnd(src, p, a)
    ensures AtEnd(src, [d] + p, a)
  {
    assert ([d] + p)[|[d] + p| - 1] == p[|p| - 1];
    hide WrittenWith;
  }

  lemma {:induction false} OpenChainHasPath(src: Source, d: DeclId, n: nat, a: Ancestor) returns (p: seq<DeclId>)
    requires Acyclic(src, d, n) && a in OpenChain(src, d, n)
    ensures p != [] && p[0] == d && Path(src, p) && AtEnd(src, p, a)
    decreases n
  {
    OpenContents(src, d, n, a);
    hide *;
    if a == Known(d) || (a.Missing? && WrittenWith(src, d, a.name)) {
      p := [d];
      PathOfOne(src, d);
      EndOfOne(src, d, a);
    } else {
      var e :| e in Children(src, d) && a in OpenChain(src, e, n - 1);
      var rest := OpenChainHasPath(src, e, n - 1, a);
      PathBefore(src, d, rest);
      EndBefore(src, d, rest, a);
      p := [d] + rest;
    }
  }

  /** A chain lists exactly the declarations that superclass and mixin edges lead to, and the names without a resolution
      that these are written with. */
  lemma OpenChainLists(src: Source, d: DeclId, n: nat, a: Ancestor)
    requires Acyclic(src, d, n)
    ensures a in OpenChain(src, d, n) <==> exists p :: Path(src, p) && p[0] == d && AtEnd(src, p, a)
  {
    hide OpenChain, AtEnd;
    if a in OpenChain(src, d, n) { var p := OpenChainHasPath(src, d, n, a); }
    forall p | Path(src, p) && p[0] == d && AtEnd(src, p, a) ensures a in OpenChain(src, d, n) { PathInOpenChain(src, p, n, a); }
  }

  // ---- where they stand ----

  lemma {:induction false} OpenMixinsAppend(src: Source, before: seq<Mixin>, after: seq<Mixin>, parents: seq<Ancestor>,
                                            prepends: seq<Ancestor>, includes: seq<Ancestor>, n: nat)
    requires ModulesAcyclic(src, before, n) && ModulesAcyclic(src, after, n)
    ensures ModulesAcyclic(src, before + after, n)
    ensures var (pre, inc) := OpenMixins(src, before, parents, prepends, includes, n);
      OpenMixins(src, before + after, parents, prepends, includes, n) == OpenMixins(src, after, parents, pre, inc, n)
    decreases |before|
  {
    assert Modules(src, before + after) == Modules(src, before) + Modules(src, after);
    if before == [] {
      assert before + after == after;
    } else {
      TailModules(src, before);
      hide AddPrepend, AddInclude, Modules, Target, ResolveToNamespace;
      assert (before + after)[1..] == before[1..] + after && (before + after)[0] == before[0];
      var m := before[0];
      if Target(src, m.name).None? {
        if m.Prepend? {
          OpenMixinsAppend(src, before[1..], after, parents, [Missing(m.name)] + prepends, includes, n);
        } else {
          OpenMixinsAppend(src, before[1..], after, parents, prepends, [Missing(m.name)] + includes, n);
        }
      } else if ModuleOf(src, m).None? {
        OpenMixinsAppend(src, before[1..], after, parents, prepends, includes, n);
      } else {
        var ids := OpenChain(src, ModuleOf(src, m).value, n);
        if m.Prepend? {
          OpenMixinsAppend(src, before[1..], after, parents, AddPrepend(prepends, ids), includes, n);
        } else {
          OpenMixinsAppend(src, before[1..], after, parents, prepends, AddInclude(prepends, includes, parents, ids), n);
        }
      }
    }
  }

  lemma {:induction false} OpenIncludesGrow(src: Source, mixins: seq<Mixin>, parents: seq<Ancestor>, prepends: seq<Ancestor>,
                                            includes: seq<Ancestor>, n: nat) returns (x: seq<Ancestor>)
    requires ModulesAcyclic(src, mixins, n)
    ensures OpenMixins(src, mixins, parents, prepends, includes, n).1 == x + includes
    decreases |mixins|
  {
    x := [];
    if mixins != [] {
      TailModules(src, mixins);
      hide AddPrepend, Modules, Without, Target, ResolveToNamespace;
      var m := mixins[0];
      if Target(src, m.name).None? {
        if m.Prepend? {
          x := OpenIncludesGrow(src, mixins[1..], parents, [Missing(m.name)] + prepends, includes, n);
        } else {
          x := OpenIncludesGrow(src, mixins[1..], parents, prepends, [Missing(m.name)] + includes, n);
          assert x + ([Missing(m.name)] + includes) == (x + [Missing(m.name)]) + includes;
          x := x + [Missing(m.name)];
        }
      } else if ModuleOf(src, m).None? {
        x := OpenIncludesGrow(src, mixins[1..], parents, prepends, includes, n);
      } else {
        var ids := OpenChain(src, ModuleOf(src, m).value, n);
        if m.Prepend? {
          x := OpenIncludesGrow(src, mixins[1..], parents, AddPrepend(prepends, ids), includes, n);
        } else {
          var novel := Without(ids, prepends + includes + parents);
          x := OpenIncludesGrow(src, mixins[1..], parents, prepends, AddInclude(prepends, includes, parents, ids), n);
          assert x + (novel + includes) == (x + novel) + includes;
          x := x + novel;
        }
      }
    }
  }

  lemma {:induction false} NothingPrependedYet(src: Source, mixins: seq<Mixin>, parents: seq<Ancestor>,
                                               includes: seq<Ancestor>, n: nat)
    requires ModulesAcyclic(src, mixins, n) && forall m | m in mixins :: !m.Prepend?
    ensures OpenMixins(src, mixins, parents, [], includes, n).0 == []
    decreases |mixins|
  {
    if mixins != [] {
      TailModules(src, mixins);
      assert mixins == [mixins[0]] + mixins[1..];
      hide AddInclude, Modules, Target, ResolveToNamespace;
      var m := mixins[0];
      if Target(src, m.name).None? {
        NothingPrependedYet(src, mixins[1..], parents, [Missing(m.name)] + includes, n);
      } else if ModuleOf(src, m).None? {
        NothingPrependedYet(src, mixins[1..], parents, includes, n);
      } else {
        var ids := OpenChain(src, ModuleOf(src, m).value, n);
        NothingPrependedYet(src, mixins[1..], parents, AddInclude([], includes, parents, ids), n);
      }
    }
  }

  /** An include that is not resolved stands behind the declaration and before all that was brought in sooner, so that
      nothing behind it is taken for what it may still bring. */
  lemma MissingComesFirst(src: Source, d: DeclId, n: nat, before: seq<Mixin>, m: Mixin, after: seq<Mixin>, b: Ancestor)
    requires Acyclic(src, d, n) && MixinList(src, d) == before + [m] + after
    requires !m.Prepend? && Target(src, m.name).None? && forall x | x in before :: !x.Prepend?
    ensures n > 0 && (ParentOf(src, d).Some? ==> Acyclic(src, ParentOf(src, d).value, n - 1))
    ensures b in OpenParents(src, d, n) || BroughtBy(src, before, n - 1, b) ==>
      var chain := OpenChain(src, d, n); Before(chain, Known(d), Missing(m.name)) && Before(chain, Missing(m.name), b)
  {
    ChildrenAcyclic(src, d, n);
    var parents := OpenParents(src, d, n);
    var (pre, inc) := OpenMixins(src, before + [m] + after, parents, [], [], n - 1);
    assert OpenChain(src, d, n) == pre + [Known(d)] + inc + parents;
    hide OpenChain, OpenParents, Before, ParentOf, MixinList, Acyclic, BroughtBy, Target;
    SplitAcyclic(src, before, m, after, n - 1);
    OpenMixinsAppend(src, before, [m] + after, parents, [], [], n - 1);
    assert before + [m] + after == before + ([m] + after);
    NothingPrependedYet(src, before, parents, [], n - 1);
    OpenMixinsContents(src, before, parents, [], [], n - 1, b);
    var earlier := OpenMixins(src, before, parents, [], [], n - 1).1;
    assert ([m] + after)[1..] == after;
    assert OpenMixins(src, [m] + after, parents, [], earlier, n - 1) ==
      OpenMixins(src, after, parents, [], [Missing(m.name)] + earlier, n - 1);
    var x := OpenIncludesGrow(src, after, parents, [], [Missing(m.name)] + earlier, n - 1);
    hide OpenMixins;
    if b in parents || BroughtBy(src, before, n - 1, b) {
      Stacked(pre, Known(d), x, [Missing(m.name)], earlier, parents, Missing(m.name), b);
    }
  }

  lemma SplitAcyclic(src: Source, before: seq<Mixin>, m: Mixin, after: seq<Mixin>, n: nat)
    requires ModulesAcyclic(src, before + [m] + after, n)
    ensures ModulesAcyclic(src, before, n) && ModulesAcyclic(src, [m] + after, n) && ModulesAcyclic(src, after, n)
  {
    hide Acyclic, ModuleOf;
    assert Modules(src, before) <= Modules(src, before + [m] + after);
    assert Modules(src, [m] + after) <= Modules(src, before + [m] + after);
    assert Modules(src, after) <= Modules(src, before + [m] + after);
  }

  /** A prepend that is not resolved stands in front of everything, if nothing is prepended after it. */
  lemma MissingPrependLeads(src: Source, d: DeclId, n: nat, before: seq<Mixin>, m: Mixin)
    requires Acyclic(src, d, n) && MixinList(src, d) == before + [m] && m.Prepend? && Target(src, m.name).None?
    ensures OpenChain(src, d, n) != [] && OpenChain(src, d, n)[0] == Missing(m.name)
  {
    ChildrenAcyclic(src, d, n);
    var parents := OpenParents(src, d, n);
    SplitAcyclic(src, before, m, [], n - 1) by { assert before + [m] + [] == before + [m]; }
    assert [m] + [] == [m] && [m][1..] == [];
    hide Acyclic, Target, MixinList;
    OpenMixinsAppend(src, before, [m], parents, [], [], n - 1);
  }

  /** The chain of a class ends in the chain that stands in for its superclass, behind the name that is missing. */
  lemma MissingSuperclassStands(src: Source, d: DeclId, n: nat, e: DeclId, unknown: Option<NameId>) returns (own: seq<Ancestor>)
    requires Acyclic(src, d, n) && d.Named? && d != BASIC_OBJECT && KindOf(src, d) == Class
    requires Superclass(src, DefinitionsOf(src, d), e) && UnknownSuperclass(src, DefinitionsOf(src, d), unknown)
    ensures n > 0 && Acyclic(src, e, n - 1)
    ensures OpenChain(src, d, n) ==
      own + (if unknown.Some? then [Missing(unknown.value)] else []) + OpenChain(src, e, n - 1)
  {
    ChildrenAcyclic(src, d, n);
    SuperclassIs(src, DefinitionsOf(src, d), e, unknown);
    assert ParentOf(src, d) == Some(e) && MissingParent(src, d) == (if unknown.Some? then [Missing(unknown.value)] else []) by {
      hide ParentClass;
    }
    hide ParentOf, MissingParent, Acyclic, Superclass, UnknownSuperclass;
    var parents := OpenParents(src, d, n);
    var (pre, inc) := OpenMixins(src, MixinList(src, d), parents, [], [], n - 1);
    own := pre + [Known(d)] + inc;
    hide OpenMixins, MixinList;
    assert OpenChain(src, d, n) == own + parents;
  }
}
