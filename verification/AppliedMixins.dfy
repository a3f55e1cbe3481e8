/** Where the mixins of a chain come from: the definitions of the declaration, place by place, and for a singleton
    class those of the attached object. And which superclass a class takes. */
module AppliedMixins {
  import opened Declarations
  import opened Aliases
  import opened Graphs
  import opened Links
  import opened Hierarchy
  import opened Linearization
  import opened PlainChains
  import opened Steps
  import opened ChainContents
  import opened ChainOrder

  // ---- places ----

  /** The `index`-th mixin of the `definition`-th definition. */
  datatype Place = Place(definition: nat, index: nat)

  predicate WrittenIn(defs: seq<Definition>, at: Place, m: Mixin) {
    && at.definition < |defs|
    && var def := defs[at.definition];
       (def.ClassDef? || def.ModuleDef? || def.SingletonClassDef?) && at.index < |def.mixins| && def.mixins[at.index] == m
  }

  predicate Earlier(a: Place, b: Place) {
    a.definition < b.definition || (a.definition == b.definition && a.index < b.index)
  }

  /** `ps` are the places before `bound` where something is extended, or where something is included or prepended, in
      order; `ms` is what is written there. */
  ghost predicate InOrder(defs: seq<Definition>, bound: Place, extending: bool, ps: seq<Place>, ms: seq<Mixin>) {
    && |ms| == |ps|
    && (forall i, j | 0 <= i < j < |ps| :: Earlier(ps[i], ps[j]))
    && (forall i | 0 <= i < |ps| :: Earlier(ps[i], bound) && WrittenIn(defs, ps[i], ms[i]) && ms[i].Extend? == extending)
    && (forall at, m | WrittenIn(defs, at, m) && Earlier(at, bound) && m.Extend? == extending :: at in ps)
  }

  function Kept(ms: seq<Mixin>, extending: bool): seq<Mixin> {
    if extending then OnlyExtends(ms) else WithoutExtends(ms)
  }

  lemma KeptFirst(m: Mixin, ms: seq<Mixin>, extending: bool)
    ensures Kept([m] + ms, extending) == (if m.Extend? == extending then [m] else []) + Kept(ms, extending)
  {
    assert ([m] + ms)[0] == m && ([m] + ms)[1..] == ms;
  }

  lemma {:induction false} KeptMore(a: seq<Mixin>, b: seq<Mixin>, extending: bool)
    ensures Kept(a + b, extending) == Kept(a, extending) + Kept(b, extending)
    decreases |a|
  {
    if a == [] {
      assert a + b == b;
    } else {
      KeptMore(a[1..], b, extending);
      KeptFirst(a[0], a[1..], extending);
      KeptFirst(a[0], a[1..] + b, extending);
      hide Kept;
      assert a == [a[0]] + a[1..] && a + b == [a[0]] + (a[1..] + b);
      var first := if a[0].Extend? == extending then [a[0]] else [];
      OneBefore(first, Kept(a[1..], extending), Kept(b, extending));
    }
  }

  lemma OneBefore(a: seq<Mixin>, b: seq<Mixin>, c: seq<Mixin>)
    ensures a + (b + c) == (a + b) + c
  {
  }

  lemma {:induction false} MixinsOfMore(defs: seq<Definition>, def: Definition)
    ensures MixinsOf(defs + [def]) == MixinsOf(defs) + DefinitionMixins(def)
  {
    hide DefinitionMixins;
    if defs == [] {
      assert [def][1..] == [];
    } else {
      MixinsOfMore(defs[1..], def);
      assert (defs + [def])[1..] == defs[1..] + [def];
    }
  }

  lemma OneKept(m: Mixin, extending: bool)
    ensures Kept([m], extending) == if m.Extend? == extending then [m] else []
  {
    KeptFirst(m, [], extending);
    assert [m] + [] == [m];
  }

  /** One more place. */
  lemma PlaceAdded(defs: seq<Definition>, at: Place, m: Mixin, extending: bool, ps: seq<Place>, ms: seq<Mixin>)
    requires InOrder(defs, at, extending, ps, ms) && WrittenIn(defs, at, m)
    ensures var more := m.Extend? == extending;
      InOrder(defs, Place(at.definition, at.index + 1), extending, ps + if more then [at] else [], ms + if more then [m] else [])
  {
  }

  /** The places in the first `j` mixins of definition `i` and in all definitions before. */
  lemma {:induction false} Places(defs: seq<Definition>, i: nat, j: nat, extending: bool) returns (ps: seq<Place>)
    requires i < |defs| && j <= |DefinitionMixins(defs[i])|
    ensures InOrder(defs, Place(i, j), extending, ps, Kept(MixinsOf(defs[..i]) + DefinitionMixins(defs[i])[..j], extending))
    decreases i, j + 1
  {
    hide *;
    var before := MixinsOf(defs[..i]);
    if j > 0 {
      var m := DefinitionMixins(defs[i])[j - 1];
      var earlier := before + DefinitionMixins(defs[i])[..j - 1];
      var qs := Places(defs, i, j - 1, extending);
      WrittenThere(defs, i, j - 1);
      PlaceAdded(defs, Place(i, j - 1), m, extending, qs, Kept(earlier, extending));
      LastOfThem(before, DefinitionMixins(defs[i]), j);
      KeptMore(earlier, [m], extending);
      OneKept(m, extending);
      ps := qs + if m.Extend? == extending then [Place(i, j - 1)] else [];
    } else {
      ps := AllPlaces(defs, i, extending);
      assert before + DefinitionMixins(defs[i])[..0] == before;
    }
  }

  lemma WrittenThere(defs: seq<Definition>, i: nat, j: nat)
    requires i < |defs| && j < |DefinitionMixins(defs[i])|
    ensures WrittenIn(defs, Place(i, j), DefinitionMixins(defs[i])[j])
  {
  }

  lemma LastOfThem(before: seq<Mixin>, ms: seq<Mixin>, j: nat)
    requires 0 < j <= |ms|
    ensures before + ms[..j] == (before + ms[..j - 1]) + [ms[j - 1]]
  {
  }

  /** The places in all definitions before `i`. */
  lemma {:induction false} AllPlaces(defs: seq<Definition>, i: nat, extending: bool) returns (ps: seq<Place>)
    requires i <= |defs|
    ensures InOrder(defs, Place(i, 0), extending, ps, Kept(MixinsOf(defs[..i]), extending))
    decreases i, 0
  {
    hide DefinitionMixins, Kept, MixinsOf;
    if i == 0 {
      ps := [];
      NoPlaces(defs, extending);
    } else {
      hide InOrder;
      var last := DefinitionMixins(defs[i - 1]);
      ps := Places(defs, i - 1, |last|, extending);
      assert defs[..i] == defs[..i - 1] + [defs[i - 1]] && last[..|last|] == last;
      MixinsOfMore(defs[..i - 1], defs[i - 1]);
      NextDefinition(defs, i - 1, extending, ps, Kept(MixinsOf(defs[..i]), extending));
    }
  }

  lemma NoPlaces(defs: seq<Definition>, extending: bool)
    ensures InOrder(defs, Place(0, 0), extending, [], Kept(MixinsOf(defs[..0]), extending))
  {
  }

  lemma NextDefinition(defs: seq<Definition>, i: nat, extending: bool, ps: seq<Place>, ms: seq<Mixin>)
    requires i < |defs| && InOrder(defs, Place(i, |DefinitionMixins(defs[i])|), extending, ps, ms)
    ensures InOrder(defs, Place(i + 1, 0), extending, ps, ms)
  {
    forall at, m | WrittenIn(defs, at, m) && Earlier(at, Place(i + 1, 0))
      ensures Earlier(at, Place(i, |DefinitionMixins(defs[i])|))
    {
    }
  }

  // ---- what is applied to a declaration ----

  /** A mixin applied to a declaration: one of its own, or one of those the attached object of a singleton class
      extends. */
  datatype Written = Extended(at: Place) | Own(at: Place)

  /** What the attached object extends is applied before what the singleton class includes or prepends itself. */
  predicate Sooner(a: Written, b: Written) {
    if a.Extended? == b.Extended? then Earlier(a.at, b.at) else a.Extended?
  }

  predicate AppliesAt(src: Source, d: DeclId, w: Written, m: Mixin) {
    match w
    case Own(at) => WrittenIn(DefinitionsOf(src, d), at, m) && !m.Extend?
    case Extended(at) => d.SingletonOf? && WrittenIn(DefinitionsOf(src, d.attached), at, m) && m.Extend?
  }

  /** `ms` is what is applied to `d` at `ws`, all of it and in order. */
  ghost predicate AppliedAt(src: Source, d: DeclId, ws: seq<Written>, ms: seq<Mixin>) {
    && |ms| == |ws|
    && (forall i, j | 0 <= i < j < |ws| :: Sooner(ws[i], ws[j]))
    && (forall i | 0 <= i < |ws| :: AppliesAt(src, d, ws[i], ms[i]))
    && (forall w, m | AppliesAt(src, d, w, m) :: w in ws)
  }

  lemma AppliedMixins(src: Source, d: DeclId) returns (ws: seq<Written>)
    ensures AppliedAt(src, d, ws, MixinList(src, d))
  {
    hide InOrder, AppliedAt, MixinsOf, OnlyExtends, WithoutExtends;
    var own := OwnPlaces(src, d, false);
    var ext: seq<Place> := [];
    if d.SingletonOf? { ext := OwnPlaces(src, d.attached, true); }
    var ownMixins := WithoutExtends(MixinsOf(DefinitionsOf(src, d)));
    var extMixins := if d.SingletonOf? then OnlyExtends(MixinsOf(DefinitionsOf(src, d.attached))) else [];
    ws := Joined(src, d, ext, extMixins, own, ownMixins);
    assert [] + ownMixins == ownMixins;
  }

  lemma OwnPlaces(src: Source, d: DeclId, extending: bool) returns (ps: seq<Place>)
    ensures var defs := DefinitionsOf(src, d); InOrder(defs, Place(|defs|, 0), extending, ps, Kept(MixinsOf(defs), extending))
  {
    hide *;
    var defs := DefinitionsOf(src, d);
    ps := AllPlaces(defs, |defs|, extending);
    assert defs[..|defs|] == defs;
  }

  lemma Joined(src: Source, d: DeclId, ext: seq<Place>, extMixins: seq<Mixin>, own: seq<Place>, ownMixins: seq<Mixin>)
      returns (ws: seq<Written>)
    requires InOrder(DefinitionsOf(src, d), Place(|DefinitionsOf(src, d)|, 0), false, own, ownMixins)
    requires if d.SingletonOf?
      then InOrder(DefinitionsOf(src, d.attached), Place(|DefinitionsOf(src, d.attached)|, 0), true, ext, extMixins)
      else ext == [] && extMixins == []
    ensures AppliedAt(src, d, ws, extMixins + ownMixins)
  {
    ws := seq(|ext|, i requires 0 <= i < |ext| => Extended(ext[i])) + seq(|own|, i requires 0 <= i < |own| => Own(own[i]));
    hide WrittenIn, DefinitionsOf;
    assert forall i | 0 <= i < |ext| :: ws[i] == Extended(ext[i]);
    assert forall i | 0 <= i < |own| :: ws[|ext| + i] == Own(own[i]);
    forall i, j | 0 <= i < j < |ws| ensures Sooner(ws[i], ws[j]) {
      if i >= |ext| { assert Earlier(own[i - |ext|], own[j - |ext|]); }
    }
    hide Earlier;
    AllJoined(src, d, ext, extMixins, own, ownMixins, ws);
  }

  lemma AllJoined(src: Source, d: DeclId, ext: seq<Place>, extMixins: seq<Mixin>, own: seq<Place>, ownMixins: seq<Mixin>,
                  ws: seq<Written>)
    requires InOrder(DefinitionsOf(src, d), Place(|DefinitionsOf(src, d)|, 0), false, own, ownMixins)
    requires if d.SingletonOf?
      then InOrder(DefinitionsOf(src, d.attached), Place(|DefinitionsOf(src, d.attached)|, 0), true, ext, extMixins)
      else ext == [] && extMixins == []
    requires |ws| == |ext| + |own|
    requires forall i | 0 <= i < |ext| :: ws[i] == Extended(ext[i])
    requires forall i | 0 <= i < |own| :: ws[|ext| + i] == Own(own[i])
    requires forall i, j | 0 <= i < j < |ws| :: Sooner(ws[i], ws[j])
    ensures AppliedAt(src, d, ws, extMixins + ownMixins)
  {
    hide Sooner;
    forall w, m | AppliesAt(src, d, w, m) ensures w in ws {
      match w
      case Own(at) =>
        var k :| 0 <= k < |own| && own[k] == at;
        assert ws[|ext| + k] == w;
      case Extended(at) =>
        var k :| 0 <= k < |ext| && ext[k] == at;
        assert ws[k] == w;
    }
    hide DefinitionsOf, WrittenIn;
    forall i | 0 <= i < |ws| ensures AppliesAt(src, d, ws[i], (extMixins + ownMixins)[i]) {
      if i < |ext| { assert ws[i] == Extended(ext[i]); } else { assert ws[|ext| + (i - |ext|)] == Own(own[i - |ext|]); }
    }
  }

  lemma {:induction false} SameOrder(ws: seq<Written>, vs: seq<Written>)
    requires forall i, j | 0 <= i < j < |ws| :: Sooner(ws[i], ws[j])
    requires forall i, j | 0 <= i < j < |vs| :: Sooner(vs[i], vs[j])
    requires forall w :: w in ws <==> w in vs
    ensures ws == vs
    decreases |ws|
  {
    assert vs != [] ==> vs[0] in vs;
    if ws != [] {
      assert ws[0] in vs;
      assert vs[0] in ws;
      assert ws[0] == vs[0];
      forall w ensures w in ws[1..] <==> w in vs[1..] {
        assert w in ws[1..] ==> w in ws && w != ws[0];
        assert w in vs[1..] ==> w in vs && w != vs[0];
        assert ws == [ws[0]] + ws[1..] && vs == [vs[0]] + vs[1..];
      }
      SameOrder(ws[1..], vs[1..]);
    }
  }

  /** There is one such order. */
  lemma AppliedOnce(src: Source, d: DeclId, ws: seq<Written>, ms: seq<Mixin>)
    requires AppliedAt(src, d, ws, ms)
    ensures ms == MixinList(src, d)
  {
    var vs := AppliedMixins(src, d);
    hide MixinList, Sooner;
    forall w ensures w in ws <==> w in vs {
      if w in ws { var i :| 0 <= i < |ws| && ws[i] == w; }
      if w in vs { var i :| 0 <= i < |vs| && vs[i] == w; }
    }
    SameOrder(ws, vs);
  }

  /** The chain is built from what is written, applied in that order on top of the chain of the parent. */
  lemma ChainIsApplied(src: Source, d: DeclId, n: nat, ws: seq<Written>, ms: seq<Mixin>)
    requires Grounded(src, d, n) && AppliedAt(src, d, ws, ms)
    ensures n > 0 && ModulesGrounded(src, ms, n - 1)
    ensures ParentOf(src, d).Some? ==> Grounded(src, ParentOf(src, d).value, n - 1)
    ensures Plain(src, d, n) == ChainWith(src, d, ms, PlainParents(src, d, n), n - 1)
  {
    AppliedOnce(src, d, ws, ms);
    hide *;
    PlainIsChainWith(src, d, n);
  }

  // ---- what a chain holds ----

  lemma Applying(src: Source, d: DeclId, m: Mixin)
    ensures m in MixinList(src, d) <==> exists w :: AppliesAt(src, d, w, m)
  {
    var ws := AppliedMixins(src, d);
    hide MixinList, Sooner, AppliesAt;
    if m in MixinList(src, d) { var i :| 0 <= i < |ws| && MixinList(src, d)[i] == m; }
    forall w | AppliesAt(src, d, w, m) ensures m in MixinList(src, d) {
      var i :| 0 <= i < |ws| && ws[i] == w;
      SameMixin(src, d, w, m, MixinList(src, d)[i]);
    }
  }

  lemma SameMixin(src: Source, d: DeclId, w: Written, m: Mixin, m': Mixin)
    requires AppliesAt(src, d, w, m) && AppliesAt(src, d, w, m')
    ensures m == m'
  {
  }

  /** `mod` is mixed in by something that is written. */
  ghost predicate MixesIn(src: Source, d: DeclId, mod: DeclId) {
    exists w, m :: AppliesAt(src, d, w, m) && ModuleOf(src, m) == Some(mod)
  }

  lemma ModulesAreWritten(src: Source, d: DeclId, mod: DeclId)
    ensures mod in Modules(src, MixinList(src, d)) <==> MixesIn(src, d, mod)
  {
    hide MixinList, AppliesAt, ModuleOf;
    forall m: Mixin ensures m in MixinList(src, d) <==> exists w :: AppliesAt(src, d, w, m) { Applying(src, d, m); }
  }

  /** A chain holds the declaration, the chain of its parent, and the chains of the modules that are included or prepended
      in any of its definitions or, for a singleton class, extended in any definition of its attached object. Nothing else
      is in it. */
  lemma ChainHolds(src: Source, d: DeclId, n: nat, a: Ancestor)
    requires Grounded(src, d, n)
    ensures n > 0 && forall mod | MixesIn(src, d, mod) :: Grounded(src, mod, n - 1)
    ensures ParentOf(src, d).Some? ==> Grounded(src, ParentOf(src, d).value, n - 1)
    ensures a in Plain(src, d, n) <==>
      || a == Known(d)
      || (ParentOf(src, d).Some? && a in Plain(src, ParentOf(src, d).value, n - 1))
      || exists mod :: MixesIn(src, d, mod) && a in Plain(src, mod, n - 1)
  {
    PlainContents(src, d, n, a);
    forall mod: DeclId ensures mod in Modules(src, MixinList(src, d)) <==> MixesIn(src, d, mod) { ModulesAreWritten(src, d, mod); }
    assert Children(src, d) ==
      (if ParentOf(src, d).Some? then {ParentOf(src, d).value} else {}) + Modules(src, MixinList(src, d));
    hide MixesIn, Plain, MixinList, Modules, ParentOf, Grounded;
    if ParentOf(src, d).Some? { assert ParentOf(src, d).value in Children(src, d); }
    forall mod | MixesIn(src, d, mod) ensures mod in Children(src, d) { }
  }

  /** Whatever is included or prepended, in whichever definition, is in the chain with all its ancestors. */
  lemma IncludedIsInChain(src: Source, d: DeclId, n: nat, i: nat, j: nat, mod: DeclId, a: Ancestor)
    requires Grounded(src, d, n) && i < |DefinitionsOf(src, d)|
    requires var def := DefinitionsOf(src, d)[i];
      && (def.ClassDef? || def.ModuleDef? || def.SingletonClassDef?)
      && j < |def.mixins| && !def.mixins[j].Extend? && ModuleOf(src, def.mixins[j]) == Some(mod)
    ensures n > 0 && Grounded(src, mod, n - 1) && Known(mod) in Plain(src, mod, n - 1)
    ensures a in Plain(src, mod, n - 1) ==> a in Plain(src, d, n)
  {
    var m := DefinitionsOf(src, d)[i].mixins[j];
    assert AppliesAt(src, d, Own(Place(i, j)), m);
    ChainHolds(src, d, n, a);
    assert MixesIn(src, d, mod);
    hide Plain, Grounded, MixesIn;
    ChainHolds(src, mod, n - 1, Known(mod));
  }

  /** Whatever an object extends is in the chain of its singleton class. */
  lemma ExtendedIsInSingletonChain(src: Source, c: DeclId, n: nat, i: nat, j: nat, mod: DeclId, a: Ancestor)
    requires c.SingletonOf? && Grounded(src, c, n) && i < |DefinitionsOf(src, c.attached)|
    requires var def := DefinitionsOf(src, c.attached)[i];
      && (def.ClassDef? || def.ModuleDef? || def.SingletonClassDef?)
      && j < |def.mixins| && def.mixins[j].Extend? && ModuleOf(src, def.mixins[j]) == Some(mod)
    ensures n > 0 && Grounded(src, mod, n - 1) && Known(mod) in Plain(src, mod, n - 1)
    ensures a in Plain(src, mod, n - 1) ==> a in Plain(src, c, n)
  {
    var m := DefinitionsOf(src, c.attached)[i].mixins[j];
    assert AppliesAt(src, c, Extended(Place(i, j)), m);
    ChainHolds(src, c, n, a);
    assert MixesIn(src, c, mod);
    hide Plain, Grounded, MixesIn;
    ChainHolds(src, mod, n - 1, Known(mod));
  }

  // ---- the order ----

  lemma {:induction false} IncludesStay(src: Source, before: seq<Mixin>, after: seq<Mixin>, parents: seq<Ancestor>,
                                        prepends: seq<Ancestor>, includes: seq<Ancestor>, n: nat) returns (x: seq<Ancestor>)
    requires ModulesGrounded(src, before, n) && ModulesGrounded(src, before + after, n)
    ensures PlainMixins(src, before + after, parents, prepends, includes, n).1
         == x + PlainMixins(src, before, parents, prepends, includes, n).1
    decreases |before| + |after|
  {
    if before == [] {
      assert before + after == after;
      x := IncludesGrow(src, after, parents, prepends, includes, n);
    } else {
      TailModules(src, before);
      TailModules(src, before + after);
      assert (before + after)[1..] == before[1..] + after && (before + after)[0] == before[0];
      hide AddPrepend, AddInclude, Modules, Plain;
      match ModuleOf(src, before[0])
      case None => x := IncludesStay(src, before[1..], after, parents, prepends, includes, n);
      case Some(mod) =>
        var ids := Plain(src, mod, n);
        if before[0].Prepend? {
          x := IncludesStay(src, before[1..], after, parents, AddPrepend(prepends, ids), includes, n);
        } else {
          x := IncludesStay(src, before[1..], after, parents, prepends, AddInclude(prepends, includes, parents, ids), n);
        }
    }
  }

  lemma {:induction false} IncludesGrow(src: Source, mixins: seq<Mixin>, parents: seq<Ancestor>, prepends: seq<Ancestor>,
                                        includes: seq<Ancestor>, n: nat) returns (x: seq<Ancestor>)
    requires ModulesGrounded(src, mixins, n)
    ensures PlainMixins(src, mixins, parents, prepends, includes, n).1 == x + includes
    decreases |mixins|
  {
    x := [];
    if mixins != [] {
      TailModules(src, mixins);
      hide AddPrepend, Modules, Plain, Without;
      match ModuleOf(src, mixins[0])
      case None => x := IncludesGrow(src, mixins[1..], parents, prepends, includes, n);
      case Some(mod) =>
        var ids := Plain(src, mod, n);
        if mixins[0].Prepend? {
          x := IncludesGrow(src, mixins[1..], parents, AddPrepend(prepends, ids), includes, n);
        } else {
          var novel := Without(ids, prepends + includes + parents);
          x := IncludesGrow(src, mixins[1..], parents, prepends, AddInclude(prepends, includes, parents, ids), n);
          assert x + (novel + includes) == (x + novel) + includes;
          x := x + novel;
        }
    }
  }

  lemma {:induction false} NothingInFront(src: Source, mixins: seq<Mixin>, parents: seq<Ancestor>, includes: seq<Ancestor>,
                                          n: nat)
    requires ModulesGrounded(src, mixins, n) && forall m | m in mixins :: !m.Prepend?
    ensures PlainMixins(src, mixins, parents, [], includes, n).0 == []
    decreases |mixins|
  {
    if mixins != [] {
      TailModules(src, mixins);
      assert mixins == [mixins[0]] + mixins[1..];
      hide AddInclude, Modules, Plain;
      match ModuleOf(src, mixins[0])
      case None => NothingInFront(src, mixins[1..], parents, includes, n);
      case Some(mod) => NothingInFront(src, mixins[1..], parents, AddInclude([], includes, parents, Plain(src, mod, n)), n);
    }
  }

  /** `a` is in the chain of the module. */
  ghost predicate Supplies(src: Source, m: Mixin, n: nat, a: Ancestor) {
    ModuleOf(src, m).Some? && Grounded(src, ModuleOf(src, m).value, n) && a in Plain(src, ModuleOf(src, m).value, n)
  }

  /** `a` is in the chain of something applied to `d` sooner than `w`. */
  ghost predicate AppliedSooner(src: Source, d: DeclId, w: Written, a: Ancestor, n: nat) {
    exists v, m :: AppliesAt(src, d, v, m) && Sooner(v, w) && Supplies(src, m, n, a)
  }

  lemma SoonerAreBefore(src: Source, d: DeclId, ws: seq<Written>, ms: seq<Mixin>, k: nat, n: nat, a: Ancestor)
    requires AppliedAt(src, d, ws, ms) && k < |ws| && ModulesGrounded(src, ms, n)
    ensures InModules(src, ms[..k], n, a) <==> AppliedSooner(src, d, ws[k], a, n)
  {
    forall m ensures m in ms[..k] <==> exists v :: AppliesAt(src, d, v, m) && Sooner(v, ws[k]) {
      AppliedBefore(src, d, ws, ms, k, m);
    }
    hide Supplies, Sooner, AppliesAt, AppliedAt, InModules;
    InModulesByMixin(src, ms[..k], n, a);
  }

  lemma InModulesByMixin(src: Source, mixins: seq<Mixin>, n: nat, a: Ancestor)
    ensures InModules(src, mixins, n, a) <==> exists m :: m in mixins && Supplies(src, m, n, a)
  {
    hide Plain, Grounded, ModuleOf;
    if m :| m in mixins && Supplies(src, m, n, a) {
      assert ModuleOf(src, m).value in Modules(src, mixins);
    }
  }

  lemma AppliedBefore(src: Source, d: DeclId, ws: seq<Written>, ms: seq<Mixin>, k: nat, m: Mixin)
    requires AppliedAt(src, d, ws, ms) && k < |ws|
    ensures m in ms[..k] <==> exists v :: AppliesAt(src, d, v, m) && Sooner(v, ws[k])
  {
    hide Sooner, AppliesAt;
    if m in ms[..k] {
      var i :| 0 <= i < k && ms[i] == m;
      assert AppliesAt(src, d, ws[i], m) && Sooner(ws[i], ws[k]);
    }
    if v :| AppliesAt(src, d, v, m) && Sooner(v, ws[k]) {
      var i :| 0 <= i < |ws| && ws[i] == v;
      SameMixin(src, d, v, m, ms[i]);
      NotSooner(ws[i], ws[k]);
      assert ms[..k][i] == m;
    }
  }

  lemma NotSooner(v: Written, w: Written)
    requires Sooner(v, w)
    ensures v != w && !Sooner(w, v)
  {
  }

  /** What an include brings in new stands behind the declaration and before everything that was brought in sooner: by an
      earlier mixin of the same definition, by an earlier definition, by an extend of the attached object, or by the
      parent. */
  lemma LaterIncludeComesFirst(src: Source, d: DeclId, n: nat, w: Written, m: Mixin, mod: DeclId, a: Ancestor, b: Ancestor)
    requires Grounded(src, d, n) && AppliesAt(src, d, w, m) && ModuleOf(src, m) == Some(mod)
    requires forall v, m' | AppliesAt(src, d, v, m') :: !m'.Prepend?
    ensures n > 0 && Grounded(src, mod, n - 1)
    ensures ParentOf(src, d).Some? ==> Grounded(src, ParentOf(src, d).value, n - 1)
    ensures var parents := PlainParents(src, d, n);
      && a in Plain(src, mod, n - 1) && a !in parents && !AppliedSooner(src, d, w, a, n - 1)
      && (b in parents || AppliedSooner(src, d, w, b, n - 1))
      ==> Before(Plain(src, d, n), Known(d), a) && Before(Plain(src, d, n), a, b)
  {
    var ws := AppliedMixins(src, d);
    var ms := MixinList(src, d);
    hide MixinList;
    ChainIsApplied(src, d, n, ws, ms);
    hide Plain, PlainMixins, PlainParents, ChainWith, Grounded, Before, AppliesAt, Sooner, ModuleOf, Modules;
    var k :| 0 <= k < |ws| && ws[k] == w;
    SameMixin(src, d, w, m, ms[k]);
    Parts(src, ms, k, n - 1);
    SoonerAreBefore(src, d, ws, ms, k, n - 1, a);
    SoonerAreBefore(src, d, ws, ms, k, n - 1, b);
    forall m' | m' in ms[..k] ensures !m'.Prepend? {
      var i :| 0 <= i < k && ms[i] == m';
      assert AppliesAt(src, d, ws[i], m');
    }
    hide AppliedSooner, AppliedAt;
    IncludedAfter(src, d, ms[..k], m, ms[k + 1..], mod, PlainParents(src, d, n), n - 1, a, b);
  }

  lemma IncludedAfter(src: Source, d: DeclId, before: seq<Mixin>, m: Mixin, after: seq<Mixin>, mod: DeclId,
                      parents: seq<Ancestor>, n: nat, a: Ancestor, b: Ancestor)
    requires ModulesGrounded(src, before, n) && ModulesGrounded(src, before + [m] + after, n)
    requires !m.Prepend? && ModuleOf(src, m) == Some(mod) && Grounded(src, mod, n)
    requires forall m' | m' in before :: !m'.Prepend?
    ensures a in Plain(src, mod, n) && a !in parents && !InModules(src, before, n, a) && (b in parents || InModules(src, before, n, b))
      ==> var chain := ChainWith(src, d, before + [m] + after, parents, n); Before(chain, Known(d), a) && Before(chain, a, b)
  {
    hide Plain, PlainMixins, Grounded, Before, ModuleOf, ModulesGrounded;
    OneMore(src, before, m, mod, parents, n);
    PlainMixinsContents(src, before, parents, [], [], n, a);
    PlainMixinsContents(src, before, parents, [], [], n, b);
    NothingInFront(src, before, parents, [], n);
    var x := IncludesStay(src, before + [m], after, parents, [], [], n);
    var inc := PlainMixins(src, before, parents, [], [], n).1;
    var novel := Without(Plain(src, mod, n), [] + inc + parents);
    WithoutContents(Plain(src, mod, n), [] + inc + parents);
    var pre := PlainMixins(src, before + [m] + after, parents, [], [], n).0;
    hide InModules, Without;
    if a in novel && (b in inc || b in parents) { Stacked(pre, Known(d), x, novel, inc, parents, a, b); }
  }

  lemma Parts(src: Source, ms: seq<Mixin>, k: nat, n: nat)
    requires k < |ms| && ModulesGrounded(src, ms, n)
    ensures ModulesGrounded(src, ms[..k], n) && ModulesGrounded(src, ms[..k] + [ms[k]], n)
    ensures ms[..k] + [ms[k]] + ms[k + 1..] == ms
    ensures ModuleOf(src, ms[k]).Some? ==> Grounded(src, ModuleOf(src, ms[k]).value, n)
  {
    hide Grounded, ModuleOf;
    assert Modules(src, ms[..k]) <= Modules(src, ms);
    assert Modules(src, ms[..k] + [ms[k]]) <= Modules(src, ms);
    assert ms[k] in ms;
    assert ModuleOf(src, ms[k]).Some? ==> ModuleOf(src, ms[k]).value in Modules(src, ms);
  }

  lemma Stacked(pre: seq<Ancestor>, self: Ancestor, x: seq<Ancestor>, novel: seq<Ancestor>, inc: seq<Ancestor>,
                parents: seq<Ancestor>, a: Ancestor, b: Ancestor)
    requires a in novel && (b in inc || b in parents)
    ensures var chain := pre + [self] + (x + (novel + inc)) + parents; Before(chain, self, a) && Before(chain, a, b)
  {
    hide Before;
    var chain := pre + [self] + (x + (novel + inc)) + parents;
    assert chain == (pre + [self]) + (x + novel + inc + parents);
    assert chain == (pre + [self] + x + novel) + (inc + parents);
    BeforeAcross(pre + [self], x + novel + inc + parents, self, a);
    BeforeAcross(pre + [self] + x + novel, inc + parents, a, b);
  }

  // ---- extends ----

  /** Linearizing what extends something makes sure that its singleton class exists and is linked. */
  lemma ExtendMakesSingleton(src: Source, g: Graph, ctx: Context, d: DeclId, at: Place, m: Mixin)
    requires Ready(src, g) && d in g.ns && IsFresh(g, ctx, d) && d.Named?
    requires WrittenIn(DefinitionsOf(src, d), at, m) && m.Extend?
    ensures var h := Linearize(src, g, ctx, d).g;
      d in h.ns && h.ns[d].singleton == Some(SingletonClassOf(src, d)) && SingletonClassOf(src, d) in h.ns
  {
    hide *;
    var g1, p, g2, mix := FreshCall(src, g, ctx, d);
    ExtendsSomething(src, d, at, m);
    MadeForExtends(src, p.g, d);
    KeepsParts(src, g1, Entered(ctx, d), g2, p.ctx);
    KeepsParts(src, g2, p.ctx, mix.g, mix.ctx);
    LinksStay(src, g2, mix.g, d);
    var ids := Assemble(d, mix.prepends, mix.includes, p.ids);
    AncestorsOnly(mix.g, d, Tagged(mix.ctx, ids));
  }

  lemma KeepsParts(src: Source, g: Graph, ctx: Context, h: Graph, ctx': Context)
    requires Keeps(src, g, ctx, h, ctx')
    ensures Ready(src, h) && g.ns.Keys <= h.ns.Keys
  {
    hide Usable, Intact;
  }

  lemma ExtendsSomething(src: Source, d: DeclId, at: Place, m: Mixin)
    requires WrittenIn(DefinitionsOf(src, d), at, m) && m.Extend?
    ensures HasExtends(src, d)
  {
    var ps := OwnPlaces(src, d, true);
    hide MixinsOf, OnlyExtends;
    assert at in ps;
  }

  lemma MadeForExtends(src: Source, g: Graph, d: DeclId)
    requires d in g.ns && HasExtends(src, d) && d.Named?
    ensures var h := ForExtends(src, g, d); d in h.ns && h.ns[d].singleton.Some?
  {
    hide HasExtends;
  }

  /** Where nothing is overwritten, a singleton class that exists stays linked. */
  lemma LinksStay(src: Source, g: Graph, h: Graph, d: DeclId)
    requires Ready(src, g) && Ready(src, h) && g.ns.Keys <= h.ns.Keys && d in g.ns && g.ns[d].singleton.Some?
    ensures d in h.ns && h.ns[d].singleton == Some(SingletonClassOf(src, d)) && SingletonClassOf(src, d) in h.ns
  {
    hide NamedExist, ChainsExist, ReferencesExist, OrdinarySuperclasses, WellFormedSource;
    assert LinkFits(src, g, d) && LinkFits(src, h, d);
    assert d !in Lost(h);
  }

  lemma AncestorsOnly(g: Graph, d: DeclId, ancestors: Ancestors)
    requires d in g.ns
    ensures var h := SetAncestors(g, d, ancestors); h.ns.Keys == g.ns.Keys && h.ns[d].singleton == g.ns[d].singleton
  {
  }

  // ---- superclasses ----

  /** Definition `i` is written with a superclass that leads to the namespace `e`. */
  predicate SuperclassAt(src: Source, defs: seq<Definition>, i: nat, e: DeclId) {
    && i < |defs| && defs[i].ClassDef? && defs[i].superclass.Some?
    && Target(src, defs[i].superclass.value).Some?
    && ResolveToNamespace(src, Target(src, defs[i].superclass.value).value) == Some(e)
  }

  /** Definition `i` is written with a superclass that is not resolved. */
  predicate UnknownSuperclassAt(src: Source, defs: seq<Definition>, i: nat, name: NameId) {
    i < |defs| && defs[i].ClassDef? && defs[i].superclass == Some(name) && Target(src, name).None?
  }

  /** The superclass of the first definition that has one, and `Object` if none has. */
  ghost predicate Superclass(src: Source, defs: seq<Definition>, e: DeclId) {
    || (exists i: nat :: SuperclassAt(src, defs, i, e) && forall j: nat, x | j < i :: !SuperclassAt(src, defs, j, x))
    || (e == OBJECT && forall j: nat, x :: !SuperclassAt(src, defs, j, x))
  }

  /** The last name that is not resolved. */
  ghost predicate UnknownSuperclass(src: Source, defs: seq<Definition>, unknown: Option<NameId>) {
    match unknown
    case None => forall i: nat, x :: !UnknownSuperclassAt(src, defs, i, x)
    case Some(name) =>
      exists i: nat :: UnknownSuperclassAt(src, defs, i, name) &&
        forall j: nat, x | i < j :: !UnknownSuperclassAt(src, defs, j, x)
  }

  lemma Shifted(src: Source, defs: seq<Definition>)
    requires defs != []
    ensures forall i: nat, e :: SuperclassAt(src, defs[1..], i, e) <==> SuperclassAt(src, defs, i + 1, e)
    ensures forall i: nat, x :: UnknownSuperclassAt(src, defs[1..], i, x) <==> UnknownSuperclassAt(src, defs, i + 1, x)
  {
    hide Target, ResolveToNamespace;
    assert forall i: nat | i < |defs| - 1 :: defs[1..][i] == defs[i + 1];
  }

  lemma {:induction false} SuperclassIsWritten(src: Source, defs: seq<Definition>)
    ensures Superclass(src, defs, ParentClass(src, defs).0) && UnknownSuperclass(src, defs, ParentClass(src, defs).1)
    decreases |defs|
  {
    if defs != [] {
      SuperclassIsWritten(src, defs[1..]);
      Shifted(src, defs);
      var e, unknown := ParentClass(src, defs[1..]).0, ParentClass(src, defs[1..]).1;
      var def := defs[0];
      if def.ClassDef? && def.superclass.Some? && Target(src, def.superclass.value).Some?
        && ResolveToNamespace(src, Target(src, def.superclass.value).value).Some? {
        assert SuperclassAt(src, defs, 0, ParentClass(src, defs).0);
      } else {
        assert ParentClass(src, defs).0 == e;
        SuperclassBehind(src, defs, e);
      }
      UnknownBehind(src, defs, unknown);
    }
  }

  lemma SuperclassBehind(src: Source, defs: seq<Definition>, e: DeclId)
    requires defs != [] && Superclass(src, defs[1..], e) && forall x :: !SuperclassAt(src, defs, 0, x)
    ensures Superclass(src, defs, e)
  {
    Shifted(src, defs);
    hide SuperclassAt;
    if i: nat :| SuperclassAt(src, defs[1..], i, e) && forall j: nat, x | j < i :: !SuperclassAt(src, defs[1..], j, x) {
      assert SuperclassAt(src, defs, i + 1, e);
      forall j: nat, x | j < i + 1 ensures !SuperclassAt(src, defs, j, x) {
        if j > 0 { assert !SuperclassAt(src, defs[1..], j - 1, x); }
      }
    } else {
      forall j: nat, x ensures !SuperclassAt(src, defs, j, x) {
        if j > 0 { assert !SuperclassAt(src, defs[1..], j - 1, x); }
      }
    }
  }

  lemma UnknownBehind(src: Source, defs: seq<Definition>, unknown: Option<NameId>)
    requires defs != [] && UnknownSuperclass(src, defs[1..], unknown) && UnresolvedParent(src, defs[1..]) == unknown
    ensures UnknownSuperclass(src, defs, UnresolvedParent(src, defs))
  {
    Shifted(src, defs);
    hide Target;
    if unknown.Some? {
      var i: nat :| UnknownSuperclassAt(src, defs[1..], i, unknown.value)
        && forall j: nat, x | i < j :: !UnknownSuperclassAt(src, defs[1..], j, x);
      assert UnknownSuperclassAt(src, defs, i + 1, unknown.value);
      forall j: nat, x | i + 1 < j ensures !UnknownSuperclassAt(src, defs, j, x) {
        assert !UnknownSuperclassAt(src, defs[1..], j - 1, x);
      }
    } else {
      forall j: nat, x | 0 < j ensures !UnknownSuperclassAt(src, defs, j, x) {
        assert !UnknownSuperclassAt(src, defs[1..], j - 1, x);
      }
      if UnresolvedParent(src, defs).Some? { assert UnknownSuperclassAt(src, defs, 0, UnresolvedParent(src, defs).value); }
    }
  }

  /** A class inherits from the superclass of its first definition with one that is resolved, else from `Object`; the name
      reported as missing is the last that is not resolved. */
  lemma SuperclassIs(src: Source, defs: seq<Definition>, e: DeclId, unknown: Option<NameId>)
    ensures ParentClass(src, defs) == (e, unknown) <==> Superclass(src, defs, e) && UnknownSuperclass(src, defs, unknown)
  {
    SuperclassIsWritten(src, defs);
    hide ParentClass;
    var (f, missing) := ParentClass(src, defs);
    if Superclass(src, defs, e) { OneSuperclass(src, defs, e, f); }
    if UnknownSuperclass(src, defs, unknown) { OneUnknown(src, defs, unknown, missing); }
  }

  lemma OneSuperclass(src: Source, defs: seq<Definition>, e: DeclId, f: DeclId)
    requires Superclass(src, defs, e) && Superclass(src, defs, f)
    ensures e == f
  {
    assert forall i: nat, j: nat | SuperclassAt(src, defs, i, e) && SuperclassAt(src, defs, j, f) :: i == j ==> e == f;
    hide SuperclassAt;
  }

  lemma OneUnknown(src: Source, defs: seq<Definition>, a: Option<NameId>, b: Option<NameId>)
    requires UnknownSuperclass(src, defs, a) && UnknownSuperclass(src, defs, b)
    ensures a == b
  {
    if a.Some? && b.Some? {
      assert forall i: nat | UnknownSuperclassAt(src, defs, i, a.value) && UnknownSuperclassAt(src, defs, i, b.value) :: a == b;
    }
    hide UnknownSuperclassAt;
  }

  /** The chain of a class ends in the chain of that superclass. */
  lemma ClassInherits(src: Source, d: DeclId, n: nat, e: DeclId) returns (own: seq<Ancestor>)
    requires Grounded(src, d, n) && d.Named? && d != BASIC_OBJECT && KindOf(src, d) == Class
    requires Superclass(src, DefinitionsOf(src, d), e)
    ensures n > 0 && Grounded(src, e, n - 1) && Plain(src, d, n) == own + Plain(src, e, n - 1)
  {
    var f := ParentClass(src, DefinitionsOf(src, d)).0;
    SuperclassIsWritten(src, DefinitionsOf(src, d));
    OneSuperclass(src, DefinitionsOf(src, d), e, f);
    PlainIsChainWith(src, d, n);
    assert ParentOf(src, d) == Some(e) by { hide ParentClass; }
    hide ParentOf, Plain, Grounded, PlainMixins, Superclass;
    var (pre, inc) := PlainMixins(src, MixinList(src, d), Plain(src, e, n - 1), [], [], n - 1);
    own := pre + [Known(d)] + inc;
    assert PlainParents(src, d, n) == Plain(src, e, n - 1);
  }
}
