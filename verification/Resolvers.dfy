/** The resolver as it runs: the graph and the traversal context are changed in place. Every method
    is tied to the function that specifies it. */
module Resolvers {
  import opened Declarations
  import opened Aliases
  import opened Graphs
  import opened Links
  import opened Hierarchy
  import opened Linearization
  import opened Steps

  class LinearizationContext {
    var descendants: set<DeclId>
    var seenIds: set<DeclId>
    var cyclic: bool
    var partial: bool

    constructor ()
      ensures Value() == FRESH
    {
      descendants, seenIds, cyclic, partial := {}, {}, false, false;
    }

    function Value(): Context
      reads this
    {
      Context(descendants, seenIds, cyclic, partial)
    }

    method Enter(d: DeclId)
      modifies this
      ensures Value() == old(Value()).(descendants := old(Value()).descendants + {d})
    {
      descendants := descendants + {d};
    }

    method Finish(d: DeclId)
      modifies this
      ensures Value() == Finalize(old(Value()), d)
    {
      descendants := descendants - {d};
      seenIds := seenIds - {d};
    }

    method Note(ancestors: Ancestors)
      modifies this
      ensures Value() == Absorb(old(Value()), ancestors)
    {
      match ancestors
      case Complete(_) =>
      case Cyclic(_) => cyclic := true;
      case Partial(_) => partial := true;
    }
  }

  /** `retain(|id| !excluded.contains(id))` */
  method Retain(ids: seq<Ancestor>, excluded: seq<Ancestor>) returns (kept: seq<Ancestor>)
    ensures kept == Without(ids, excluded)
  {
    kept := [];
    var i := 0;
    while i < |ids|
      invariant 0 <= i <= |ids|
      invariant kept + Without(ids[i..], excluded) == Without(ids, excluded)
    {
      WithoutStep(ids, i, excluded, kept);
      if ids[i] !in excluded { kept := kept + [ids[i]]; }
      i := i + 1;
    }
  }

  lemma WithoutStep(ids: seq<Ancestor>, i: nat, excluded: seq<Ancestor>, kept: seq<Ancestor>)
    requires i < |ids|
    ensures kept + Without(ids[i..], excluded) ==
      (if ids[i] in excluded then kept else kept + [ids[i]]) + Without(ids[i + 1..], excluded)
  {
    assert ids[i..][1..] == ids[i + 1..];
    var rest := Without(ids[i + 1..], excluded);
    assert Without(ids[i..], excluded) == (if ids[i] in excluded then [] else [ids[i]]) + rest;
    hide Without;
    assert kept + ([] + rest) == kept + rest;
    assert kept + ([ids[i]] + rest) == (kept + [ids[i]]) + rest;
  }

  lemma PropagateNothing(g: Graph, descendants: set<DeclId>, chain: seq<Ancestor>)
    ensures Propagate(g, descendants, []) == g
    ensures descendants == {} ==> Propagate(g, descendants, chain) == g
  {
    assert Propagate(g, descendants, []).ns == g.ns;
    if descendants == {} {
      var h := Propagate(g, descendants, chain);
      assert h.ns.Keys == g.ns.Keys;
      forall d | d in g.ns ensures h.ns[d] == g.ns[d] {
        assert g.ns[d].descendants + {} == g.ns[d].descendants;
      }
    }
  }

  lemma PropagateOne(g: Graph, descendants: set<DeclId>, chain: seq<Ancestor>, i: nat)
    requires i < |chain| && Existing(g, chain)
    ensures Propagate(g, descendants, chain[..i]).ns.Keys == g.ns.Keys
    ensures Propagate(g, descendants, chain[..i + 1]) ==
      var h := Propagate(g, descendants, chain[..i]);
      if chain[i].Known? then AddDescendants(h, chain[i].id, descendants) else h
  {
    var h := Propagate(g, descendants, chain[..i]);
    var k := Propagate(g, descendants, chain[..i + 1]);
    assert chain[..i + 1] == chain[..i] + [chain[i]];
    var k' := if chain[i].Known? then AddDescendants(h, chain[i].id, descendants) else h;
    assert k'.ns.Keys == k.ns.Keys;
    forall d | d in g.ns ensures k.ns[d] == k'.ns[d] {
      if Known(d) == chain[i] {
        assert g.ns[d].descendants + descendants + descendants == g.ns[d].descendants + descendants;
      }
    }
    assert k.ns == k'.ns;
  }

  class Resolver {
    const src: Source
    var ns: map<DeclId, Namespace>
    var unitQueue: seq<DeclId>
    var overwritten: seq<DeclId>

    constructor (src: Source, g: Graph)
      ensures this.src == src && State() == g
    {
      this.src, ns, unitQueue, overwritten := src, g.ns, g.queue, g.reset;
    }

    function State(): Graph
      reads this
    {
      Graph(ns, unitQueue, overwritten)
    }

    method AddDescendantsTo(d: DeclId, descendants: set<DeclId>)
      requires d in ns
      modifies this`ns
      ensures State() == AddDescendants(old(State()), d, descendants)
    {
      var left := descendants;
      ghost var known := ns[d].descendants;
      assert known == known + (descendants - left);
      while left != {}
        invariant left <= descendants
        invariant ns.Keys == old(ns).Keys
        invariant ns[d] == old(ns)[d].(descendants := known + (descendants - left))
        invariant forall e | e in ns && e != d :: ns[e] == old(ns)[e]
        decreases left
      {
        var x :| x in left;
        ghost var before := left;
        ns := ns[d := ns[d].(descendants := ns[d].descendants + {x})];
        left := left - {x};
        assert known + (descendants - before) + {x} == known + (descendants - left);
      }
      assert descendants - left == descendants;
    }

    /** `propagate_descendants` */
    method PropagateDescendants(descendants: set<DeclId>, chain: seq<Ancestor>)
      requires Existing(State(), chain)
      modifies this`ns
      ensures State() == Propagate(old(State()), descendants, chain)
    {
      PropagateNothing(State(), descendants, chain);
      if descendants != {} {
        var i := 0;
        while i < |chain|
          invariant 0 <= i <= |chain|
          invariant State() == Propagate(old(State()), descendants, chain[..i])
        {
          PropagateOne(old(State()), descendants, chain, i);
          if chain[i].Known? {
            AddDescendantsTo(chain[i].id, descendants);
          }
          i := i + 1;
        }
        assert chain[..i] == chain;
      }
    }

    /** `get_or_create_singleton_class` for a namespace */
    method GetOrCreateSingletonClass(d: DeclId) returns (s: DeclId)
      requires d in ns
      modifies this
      ensures (State(), s) == GetOrCreateSingleton(old(State()), d)
    {
      if ns[d].singleton.Some? { return ns[d].singleton.value; }
      s := SingletonOf(d, None);
      if s in ns { overwritten := overwritten + [s]; }
      ns := ns[d := ns[d].(singleton := Some(s))];
      ns := ns[s := EMPTY_NAMESPACE];
      unitQueue := unitQueue + [s];
    }

    /** `get_parent_class` */
    method GetParentClass(defs: seq<Definition>) returns (parent: DeclId, unresolved: Option<NameId>)
      ensures (parent, unresolved) == ParentClass(src, defs)
    {
      var explicit: seq<DeclId> := [];
      unresolved := None;
      var i := 0;
      while i < |defs|
        invariant 0 <= i <= |defs|
        invariant explicit + ExplicitParents(src, defs[i..]) == ExplicitParents(src, defs)
        invariant UnresolvedParent(src, defs) ==
          if UnresolvedParent(src, defs[i..]).Some? then UnresolvedParent(src, defs[i..]) else unresolved
      {
        assert defs[i..][1..] == defs[i + 1..];
        if defs[i].ClassDef? && defs[i].superclass.Some? {
          match Target(src, defs[i].superclass.value)
          case Some(target) =>
            var resolved := ResolveToNamespace(src, target);
            if resolved.Some? { explicit := explicit + [resolved.value]; }
          case None => unresolved := defs[i].superclass;
        }
        i := i + 1;
      }
      parent := if explicit == [] then OBJECT else explicit[0];
    }

    /** `singleton_parent_id` */
    method SingletonParentOf(attached: DeclId) returns (parent: DeclId, partial: bool)
      requires Valid(src, State()) && OrdinarySuperclasses(src) && attached in ns
      modifies this
      ensures (State(), parent, partial) == SingletonParent(src, old(State()), attached)
      decreases attached
    {
      hide Valid, OrdinarySuperclasses, ParentClass;
      NamespaceParts(src, State(), attached);
      if attached == BASIC_OBJECT { return CLASS, false; }
      if attached.SingletonOf? {
        var inner;
        inner, partial := SingletonParentOf(attached.attached);
        parent := GetOrCreateSingletonClass(inner);
        return;
      }
      match KindOf(src, attached)
      case Module => parent, partial := MODULE, false;
      case Class =>
        ParentClassExists(src, State(), attached);
        var picked, unresolved := GetParentClass(DefinitionsOf(src, attached));
        parent := GetOrCreateSingletonClass(picked);
        partial := unresolved.Some?;
      case _ => parent, partial := CLASS, false;
    }

    /** `ancestors_of` */
    method Ancestors(d: DeclId) returns (r: Graphs.Ancestors)
      requires Usable(src, State()) && d in ns
      modifies this
      ensures State() == AncestorsOf(src, old(State()), d).g
      ensures r == AncestorsOf(src, old(State()), d).ancestors
    {
      var context := new LinearizationContext();
      r := LinearizeAncestors(d, context);
    }

    /** `linearize_ancestors` */
    method LinearizeAncestors(d: DeclId, context: LinearizationContext) returns (r: Graphs.Ancestors)
      requires Usable(src, State()) && d in ns
      modifies this, context
      ensures Outcome(State(), context.Value(), r) == Linearize(src, old(State()), old(context.Value()), d)
      decreases Weight(Lost(State()), Top(src, d)), Work(src, State(), context.Value(), Reach(src, d)), 0
    {
      ghost var g, ctx := State(), context.Value();
      SettledCases(src, g, ctx, d);
      hide Usable, Reach, Work, Weight, Lost, Top, Estimate, Settled, Existing, Linearize, Propagate, SetAncestors, Finalize,
        Entered, Moves, Keeps, Intact;
      context.Enter(d);
      if ns[d].ancestors.Finished() {
        r := CachedAncestors(d, context);
      } else if d in context.seenIds {
        r := EstimatedAncestors(d, context);
      } else {
        r := LinearizeAnew(d, context, ctx);
      }
    }

    /** A cached chain still has to pass the pending descendants on. */
    method CachedAncestors(d: DeclId, context: LinearizationContext) returns (r: Graphs.Ancestors)
      requires d in ns && Existing(State(), ns[d].ancestors.ids)
      modifies this, context
      ensures r == old(ns)[d].ancestors && State() == Propagate(old(State()), old(context.descendants), r.ids)
      ensures context.Value() == Finalize(old(context.Value()), d)
    {
      r := ns[d].ancestors;
      PropagateDescendants(context.descendants, r.ids);
      context.Finish(d);
    }

    /** A declaration met again gets a chain that stands in for its own. */
    method EstimatedAncestors(d: DeclId, context: LinearizationContext) returns (r: Graphs.Ancestors)
      requires d in ns
      modifies this, context
      ensures r == Estimate(src, d) && State() == SetAncestors(old(State()), d, r)
      ensures context.Value() == Finalize(old(context.Value()), d)
    {
      r := Estimate(src, d);
      ns := ns[d := ns[d].(ancestors := r)];
      context.Finish(d);
    }

    /** The rest of `linearize_ancestors`, from the point where `d` enters the context `ctx`. */
    method LinearizeAnew(d: DeclId, context: LinearizationContext, ghost ctx: Context) returns (r: Graphs.Ancestors)
      requires Usable(src, State()) && d in ns && !ns[d].ancestors.Finished()
      requires d !in ctx.seen && context.Value() == ctx.(descendants := ctx.descendants + {d})
      modifies this, context
      ensures Outcome(State(), context.Value(), r) == Linearize(src, old(State()), ctx, d)
      decreases Weight(Lost(State()), Top(src, d)), Work(src, State(), Entered(ctx, d), Reach(src, d)), 3
    {
      ghost var g := State();
      hide Usable, Existing, Work, Weight, Lost, Top, ReferenceTop, Reach, ReferenceLevel, HasExtends, MixinsNow, Settled,
        FinishedKept, NoneCompleted, Linearize, LinearizeParent, LinearizeMixins, Moves, Keeps, Intact;
      context.seenIds := context.seenIds + {d};
      ghost var g1, p, g2, m := CallParts(src, g, ctx, d);
      AddDescendantsTo(d, context.descendants);
      var parents := LinearizeParentAncestors(d, context);
      var mixins := MixinsNow(src, State(), d);
      if HasExtends(src, d) && !d.SingletonOf? {
        var _ := GetOrCreateSingletonClass(d);
      }
      var prepends, includes := LinearizeMixinList(mixins, parents, context);
      var ids := prepends + [Known(d)] + includes + parents;
      r := if context.cyclic then Cyclic(ids) else if context.partial then Partial(ids) else Complete(ids);
      ns := ns[d := ns[d].(ancestors := r)];
      context.Finish(d);
    }

    /** `linearize_parent_ancestors` */
    method LinearizeParentAncestors(d: DeclId, context: LinearizationContext) returns (ids: seq<Ancestor>)
      requires Usable(src, State()) && d in ns
      modifies this, context
      ensures ParentOutcome(State(), context.Value(), ids) == LinearizeParent(src, old(State()), old(context.Value()), d)
      decreases Weight(Lost(State()), Top(src, d)), Work(src, State(), context.Value(), Reach(src, d)), 2
    {
      ghost var g, ctx := State(), context.Value();
      ParentCases(src, g, ctx, d);
      hide Usable, Work, Weight, Lost, Top, ReferenceTop, Existing, ParentClass, Settled, FinishedKept, NoneCompleted,
        Moves, Keeps, Intact, LinearizeParent, SingletonStart,
        LinearizeParentClass, Linearize, Reach, ReferenceLevel;
      if d == BASIC_OBJECT {
        ids := [];
      } else if d.SingletonOf? {
        var r := LinearizeSingletonParent(d, context);
        context.Note(r);
        ids := r.ids;
      } else if KindOf(src, d) == Class {
        var r := LinearizeSuperclass(DefinitionsOf(src, d), context);
        context.Note(r);
        ids := r.ids;
      } else {
        ids := [];
      }
    }

    /** The parent of a singleton class; an unresolved superclass makes the traversal partial. */
    method ChooseSingletonParent(d: DeclId, context: LinearizationContext) returns (parent: DeclId)
      requires Usable(src, State()) && d in ns && d.SingletonOf? && d.attached in ns
      modifies this, context
      ensures State() == SingletonParent(src, old(State()), d.attached).0
      ensures parent == SingletonParent(src, old(State()), d.attached).1
      ensures context.Value() ==
        old(context.Value()).(partial := old(context.partial) || SingletonParent(src, old(State()), d.attached).2)
    {
      hide Valid, OrdinarySuperclasses, SingletonParent;
      var partial;
      parent, partial := SingletonParentOf(d.attached);
      if partial { context.partial := true; }
    }

    /** The part of `linearize_parent_ancestors` for singleton classes. */
    method LinearizeSingletonParent(d: DeclId, context: LinearizationContext) returns (r: Graphs.Ancestors)
      requires Usable(src, State()) && d in ns && d.SingletonOf?
      modifies this, context
      ensures SingletonStart(src, old(State()), old(context.Value()), d, Outcome(State(), context.Value(), r))
      decreases Weight(Lost(State()), Top(src, d)), Work(src, State(), context.Value(), Reach(src, d)), 1
    {
      hide Valid, OrdinarySuperclasses, Work, Weight, Lost, Top, SingletonParent, Settled, Linearize, Reach, Moves, Keeps,
        Intact;
      SingletonStarts(src, State(), context.Value(), d);
      var parent := ChooseSingletonParent(d, context);
      r := LinearizeAncestors(parent, context);
    }

    /** `linearize_parent_class` */
    method LinearizeSuperclass(defs: seq<Definition>, context: LinearizationContext) returns (r: Graphs.Ancestors)
      requires Usable(src, State())
      requires ParentClass(src, defs).0 in ns && ParentClass(src, defs).0.Named?
      modifies this, context
      ensures Outcome(State(), context.Value(), r) == LinearizeParentClass(src, old(State()), old(context.Value()), defs)
      decreases Weight(Lost(State()), ReferenceTop(src)), Work(src, State(), context.Value(), ReferenceLevel(src)), 1
    {
      hide Valid, OrdinarySuperclasses, Work, Weight, Lost, Existing, ParentClass, Reach, ReferenceLevel, Top, ReferenceTop,
        Moves, Keeps, Intact, Linearize;
      var parent, unresolved := GetParentClass(defs);
      NamedReach(src, parent);
      r := LinearizeAncestors(parent, context);
      if unresolved.Some? {
        context.partial := true;
        r := Partial([Missing(unresolved.value)] + r.ids);
      }
    }

    /** `linearize_mixins` */
    method LinearizeMixinList(mixins: seq<Mixin>, parents: seq<Ancestor>, context: LinearizationContext)
      returns (prepends: seq<Ancestor>, includes: seq<Ancestor>)
      requires Usable(src, State()) && Existing(State(), [])
      modifies this, context
      ensures MixinOutcome(State(), context.Value(), prepends, includes)
           == LinearizeMixins(src, old(State()), old(context.Value()), mixins, parents, [], [])
      decreases Weight(Lost(State()), ReferenceTop(src)), Work(src, State(), context.Value(), ReferenceLevel(src)), 1, 1
    {
      hide Usable, Work, Weight, Lost, Existing, ResolveToNamespace, Settled, FinishedKept, NoneCompleted, Moves, Keeps,
        Intact, ReferenceTop, ReferenceLevel;
      ghost var g, ctx := State(), context.Value();
      prepends, includes := [], [];
      var i := 0;
      assert mixins[0..] == mixins;
      while i < |mixins|
        invariant 0 <= i <= |mixins|
        invariant Usable(src, State()) && Existing(State(), prepends) && Existing(State(), includes)
        invariant NotMore(src, g, ctx, State(), context.Value())
        invariant LinearizeMixins(src, State(), context.Value(), mixins[i..], parents, prepends, includes)
               == LinearizeMixins(src, g, ctx, mixins, parents, [], [])
      {
        assert mixins[i..][1..] == mixins[i + 1..] && mixins[i..][0] == mixins[i];
        prepends, includes := LinearizeMixin(mixins[i..], parents, prepends, includes, context);
        i := i + 1;
      }
    }

    /** One turn of the loop in `linearize_mixins`, for the first of the mixins that are left. */
    method LinearizeMixin(mixins: seq<Mixin>, parents: seq<Ancestor>, prepends: seq<Ancestor>, includes: seq<Ancestor>,
                          context: LinearizationContext) returns (prepends1: seq<Ancestor>, includes1: seq<Ancestor>)
      requires Usable(src, State()) && Existing(State(), prepends) && Existing(State(), includes) && mixins != []
      modifies this, context
      ensures Usable(src, State()) && Existing(State(), prepends1) && Existing(State(), includes1)
      ensures NotMore(src, old(State()), old(context.Value()), State(), context.Value())
      ensures LinearizeMixins(src, State(), context.Value(), mixins[1..], parents, prepends1, includes1)
           == LinearizeMixins(src, old(State()), old(context.Value()), mixins, parents, prepends, includes)
      decreases Weight(Lost(State()), ReferenceTop(src)), Work(src, State(), context.Value(), ReferenceLevel(src)), 1, 0
    {
      hide Usable, Work, Weight, Lost, Reach, ReferenceLevel, Top, ReferenceTop, ResolveToNamespace, Settled, FinishedKept,
        NoneCompleted, Moves, Keeps, Intact, Linearize, Existing;
      ghost var g, ctx := State(), context.Value();
      var mixin := mixins[0];
      prepends1, includes1 := prepends, includes;
      match Target(src, mixin.name)
      case Some(target) =>
        var resolved := ResolveToNamespace(src, target);
        if resolved.None? { return; }
        MixinReady(src, g, ctx, mixin.name);
        var chain := LinearizeAncestors(resolved.value, context);
        MixinDone(src, g, ctx, resolved.value, Outcome(State(), context.Value(), chain));
        context.Note(chain);
        MixinsExist(g, State(), prepends, includes, parents, chain.ids);
        if mixin.Prepend? {
          if exists id | id in chain.ids :: id !in prepends {
            var kept := Retain(prepends, chain.ids);
            prepends1 := chain.ids + kept;
          }
        } else {
          var added := Retain(chain.ids, prepends + includes + parents);
          includes1 := added + includes;
        }
      case None =>
        context.partial := true;
        MissingMixin(src, g, ctx, mixin.name, prepends, includes);
        if mixin.Prepend? {
          prepends1 := [Missing(mixin.name)] + prepends;
        } else {
          includes1 := [Missing(mixin.name)] + includes;
        }
    }
  }
}
