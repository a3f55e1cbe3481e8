/** Member lookup along ancestor chains, and following method aliases. */
module MethodAliases {
  import opened Declarations
  import opened Graphs
  import opened Lookups

  type DefId = nat

  datatype MethodDefinition = MethodAlias(oldName: StringId) | Method

  /** What the queries read: namespaces with their chains and members, the owner of every declaration,
      the definitions of every method, and where each definition was resolved to. */
  datatype Index = Index(
    chains: map<DeclId, seq<Ancestor>>,
    members: Members,
    owners: map<DeclId, DeclId>,
    methods: map<DeclId, seq<DefId>>,
    definitions: map<DefId, MethodDefinition>,
    resolved: map<DefId, DeclId>)

  /** Chains hold namespaces, members exist, method definitions exist, and the declaration of a method
      alias is owned by a namespace. */
  ghost predicate Consistent(g: Index) {
    && (forall d, i | d in g.chains && 0 <= i < |g.chains[d]| :: g.chains[d][i].Known? ==> g.chains[d][i].id in g.chains)
    && (forall d | d in g.chains :: d in g.members && d in g.owners)
    && (forall d, n | d in g.members && n in g.members[d] :: g.members[d][n] in g.owners)
    && (forall d, i | d in g.methods && 0 <= i < |g.methods[d]| :: g.methods[d][i] in g.definitions)
    && (forall f | f in g.definitions && f in g.resolved && g.resolved[f] in g.owners ::
          g.definitions[f].MethodAlias? ==> g.owners[g.resolved[f]] in g.chains)
  }

  // ---- member lookup ----

  datatype Lookup = FoundMember(id: DeclId) | DeclarationNotFound | NotNamespace | MemberNotFound

  function Find(g: Index, d: DeclId, name: StringId, onlyInherited: bool): Lookup
    requires d in g.chains
  {
    match FirstMember(g.members, if onlyInherited then AfterMain(g.chains[d], d) else g.chains[d], name)
    case Some(id) => FoundMember(id)
    case None => MemberNotFound
  }

  /** `find_member_in_ancestors` */
  method FindMemberInAncestors(g: Index, d: DeclId, name: StringId, onlyInherited: bool) returns (r: Lookup)
    requires Consistent(g)
    ensures r.DeclarationNotFound? <==> d !in g.owners
    ensures r.NotNamespace? <==> d in g.owners && d !in g.chains
    ensures d in g.owners && d in g.chains ==> r == Find(g, d, name, onlyInherited)
  {
    if d !in g.owners { return DeclarationNotFound; }
    if d !in g.chains { return NotNamespace; }
    var chain := g.chains[d];
    ghost var searched := if onlyInherited then AfterMain(chain, d) else chain;
    var foundMain := false;
    for i := 0 to |chain|
      invariant onlyInherited && !foundMain ==> AfterMain(chain[i..], d) == searched
      invariant !onlyInherited || foundMain ==> FirstMember(g.members, chain[i..], name) == FirstMember(g.members, searched, name)
    {
      assert chain[i..] == [chain[i]] + chain[i + 1..];
      if chain[i].Missing? { continue; }
      if onlyInherited && !foundMain {
        if chain[i].id == d { foundMain := true; }
        continue;
      }
      if MemberAt(g.members, chain[i], name).Some? {
        return FoundMember(MemberAt(g.members, chain[i], name).value);
      }
    }
    r := MemberNotFound;
  }

  // ---- following aliases ----

  datatype AliasError = NotAnAlias | UnresolvedOwner | Cycle | TargetNotFound | TargetNotMethod

  datatype Outcome = Reached(id: DeclId) | Failed(error: AliasError)

  /** One step: either the search ends, or a method with alias definitions only leads on to the smallest. */
  datatype Step = Ends(outcome: Outcome) | LeadsOn(target: DeclId, next: DefId)

  function Smallest(defs: seq<DefId>): (m: DefId)
    requires defs != []
    ensures m in defs && forall i | 0 <= i < |defs| :: m <= defs[i]
  {
    if |defs| == 1 then defs[0]
    else
      var rest := Smallest(defs[1..]);
      assert defs == [defs[0]] + defs[1..];
      if defs[0] < rest then defs[0] else rest
  }

  predicate OnlyAliases(g: Index, target: DeclId) {
    target in g.methods &&
    forall i | 0 <= i < |g.methods[target]| ::
      g.methods[target][i] in g.definitions && g.definitions[g.methods[target][i]].MethodAlias?
  }

  /** The declaration an alias names: the first member of that name along the chain of the alias's owner. */
  function AliasTarget(g: Index, alias: DefId): Option<DeclId>
    requires alias in g.definitions && g.definitions[alias].MethodAlias?
    requires alias in g.resolved && g.resolved[alias] in g.owners
  {
    var owner := g.owners[g.resolved[alias]];
    if owner in g.chains then FirstMember(g.members, g.chains[owner], g.definitions[alias].oldName) else None
  }

  function AliasStep(g: Index, alias: DefId): Step {
    if alias !in g.definitions || !g.definitions[alias].MethodAlias? then Ends(Failed(NotAnAlias))
    else if alias !in g.resolved || g.resolved[alias] !in g.owners then Ends(Failed(UnresolvedOwner))
    else
      match AliasTarget(g, alias)
      case None => Ends(Failed(TargetNotFound))
      case Some(target) =>
        if target !in g.methods then Ends(Failed(TargetNotMethod))
        else if !OnlyAliases(g, target) then Ends(Reached(target))
        else if g.methods[target] == [] then Ends(Failed(TargetNotFound))
        else LeadsOn(target, Smallest(g.methods[target]))
  }

  /** The alias reached after `n` steps, if the search gets that far. */
  function AfterSteps(g: Index, alias: DefId, n: nat): Option<DefId> {
    if n == 0 then Some(alias)
    else
      match AfterSteps(g, alias, n - 1)
      case None => None
      case Some(f) => if AliasStep(g, f).LeadsOn? then Some(AliasStep(g, f).next) else None
  }

  lemma {:induction false} StepsCompose(g: Index, alias: DefId, n: nat, m: nat)
    requires AfterSteps(g, alias, n).Some?
    ensures AfterSteps(g, alias, n + m) == AfterSteps(g, AfterSteps(g, alias, n).value, m)
    decreases m
  {
    if m > 0 { StepsCompose(g, alias, n, m - 1); }
  }

  /** Coming back to the same alias means that the search never ends. */
  lemma {:induction false} ReturnsForEver(g: Index, alias: DefId, period: nat, n: nat)
    requires period > 0 && AfterSteps(g, alias, period) == Some(alias)
    ensures AfterSteps(g, alias, n).Some?
    decreases n
  {
    if n < period {
      FewerSteps(g, alias, n, period);
    } else {
      ReturnsForEver(g, alias, period, n - period);
      StepsCompose(g, alias, period, n - period);
    }
  }

  lemma {:induction false} FewerSteps(g: Index, alias: DefId, n: nat, m: nat)
    requires n <= m && AfterSteps(g, alias, m).Some?
    ensures AfterSteps(g, alias, n).Some?
    decreases m
  {
    if n < m { FewerSteps(g, alias, n, m - 1); }
  }

  lemma RevisitNeverEnds(g: Index, alias: DefId, i: nat, j: nat, target: DeclId, next: DefId)
    requires i < j && AfterSteps(g, alias, i + 1) == Some(next) && AfterSteps(g, alias, j + 1) == Some(next)
    ensures forall n: nat :: AfterSteps(g, alias, n).Some?
  {
    hide AfterSteps;
    StepsCompose(g, alias, i + 1, j - i);
    forall n: nat ensures AfterSteps(g, alias, n).Some? {
      if n <= i + 1 {
        FewerSteps(g, alias, n, i + 1);
      } else {
        ReturnsForEver(g, next, j - i, n - (i + 1));
        StepsCompose(g, alias, i + 1, n - (i + 1));
      }
    }
  }

  /** The search, followed for ever, never ends. */
  ghost predicate Endless(g: Index, alias: DefId) {
    forall n: nat :: AfterSteps(g, alias, n).Some?
  }

  /** The search ends after some number of steps, with this outcome. */
  ghost predicate EndsWith(g: Index, alias: DefId, r: Outcome) {
    exists n: nat :: AfterSteps(g, alias, n).Some? && AliasStep(g, AfterSteps(g, alias, n).value) == Ends(r)
  }

  /** What has been seen are the targets of the steps made so far. */
  ghost predicate SeenSoFar(g: Index, alias: DefId, n: nat, seen: set<DeclId>) {
    forall t | t in seen :: exists i: nat ::
      i < n && AfterSteps(g, alias, i).Some? && AliasStep(g, AfterSteps(g, alias, i).value).LeadsOn?
      && AliasStep(g, AfterSteps(g, alias, i).value).target == t
  }

  lemma SeenOneMore(g: Index, alias: DefId, n: nat, seen: set<DeclId>, current: DefId)
    requires SeenSoFar(g, alias, n, seen) && AfterSteps(g, alias, n) == Some(current) && AliasStep(g, current).LeadsOn?
    ensures SeenSoFar(g, alias, n + 1, seen + {AliasStep(g, current).target})
    ensures AfterSteps(g, alias, n + 1) == Some(AliasStep(g, current).next)
  {
    hide AliasStep;
  }

  lemma SeenAgain(g: Index, alias: DefId, n: nat, seen: set<DeclId>, current: DefId)
    requires SeenSoFar(g, alias, n, seen) && AfterSteps(g, alias, n) == Some(current)
    requires current in g.definitions && g.definitions[current].MethodAlias?
    requires current in g.resolved && g.resolved[current] in g.owners
    requires AliasTarget(g, current).Some? && AliasTarget(g, current).value in seen
    ensures Endless(g, alias)
  {
    var target := AliasTarget(g, current).value;
    hide AfterSteps;
    var i: nat :| i < n && AfterSteps(g, alias, i).Some?
      && AliasStep(g, AfterSteps(g, alias, i).value).LeadsOn?
      && AliasStep(g, AfterSteps(g, alias, i).value).target == target;
    var before := AfterSteps(g, alias, i).value;
    SameTargetSameStep(g, before, current);
    hide AliasStep, AliasTarget;
    NextStep(g, alias, i, before);
    NextStep(g, alias, n, current);
    RevisitNeverEnds(g, alias, i, n, target, AliasStep(g, current).next);
  }

  lemma NextStep(g: Index, alias: DefId, n: nat, current: DefId)
    requires AfterSteps(g, alias, n) == Some(current) && AliasStep(g, current).LeadsOn?
    ensures AfterSteps(g, alias, n + 1) == Some(AliasStep(g, current).next)
  {
    hide AliasStep;
  }

  lemma SameTargetSameStep(g: Index, a: DefId, b: DefId)
    requires AliasStep(g, a).LeadsOn?
    requires b in g.definitions && g.definitions[b].MethodAlias? && b in g.resolved && g.resolved[b] in g.owners
    requires AliasTarget(g, b) == Some(AliasStep(g, a).target)
    ensures AliasStep(g, b) == AliasStep(g, a)
  {
    hide AliasTarget;
  }

  lemma StepEnds(g: Index, alias: DefId, n: nat, current: DefId, r: Outcome)
    requires AfterSteps(g, alias, n) == Some(current) && AliasStep(g, current) == Ends(r)
    ensures EndsWith(g, alias, r) && !Endless(g, alias)
  {
    hide AliasStep;
    assert AfterSteps(g, alias, n + 1).None?;
  }

  /** The inner loop of `follow_method_alias` */
  method NextAlias(g: Index, target: DeclId) returns (genuine: bool, next: Option<DefId>)
    requires Consistent(g) && target in g.methods
    ensures genuine <==> !OnlyAliases(g, target)
    ensures !genuine ==> if g.methods[target] == [] then next.None? else next == Some(Smallest(g.methods[target]))
  {
    var defs := g.methods[target];
    assert forall i | 0 <= i < |defs| :: defs[i] in g.definitions;
    hide Consistent;
    next := None;
    for i := 0 to |defs|
      invariant forall j | 0 <= j < i :: defs[j] in g.definitions && g.definitions[defs[j]].MethodAlias?
      invariant if i == 0 then next.None? else next.Some? && next.value in defs
      invariant forall j | 0 <= j < i :: next.value <= defs[j]
    {
      if !g.definitions[defs[i]].MethodAlias? { return true, None; }
      next := Some(if next.Some? && next.value < defs[i] then next.value else defs[i]);
    }
    genuine := false;
  }

  /** `follow_method_alias` always halts; it reports a cycle exactly when the steps would go on for ever, and
      any other outcome exactly when the steps end with it. */
  method FollowMethodAlias(g: Index, alias: DefId) returns (r: Outcome)
    requires Consistent(g)
    ensures r == Failed(Cycle) <==> Endless(g, alias)
    ensures r != Failed(Cycle) ==> EndsWith(g, alias, r)
  {
    var seen: set<DeclId> := {};
    var current := alias;
    ghost var n := 0;
    while true
      invariant AfterSteps(g, alias, n) == Some(current)
      invariant SeenSoFar(g, alias, n, seen)
      invariant seen <= g.methods.Keys
      decreases g.methods.Keys - seen
    {
      if current !in g.definitions || !g.definitions[current].MethodAlias? {
        StepEnds(g, alias, n, current, Failed(NotAnAlias));
        return Failed(NotAnAlias);
      }
      if current !in g.resolved || g.resolved[current] !in g.owners {
        StepEnds(g, alias, n, current, Failed(UnresolvedOwner));
        return Failed(UnresolvedOwner);
      }
      var owner := g.owners[g.resolved[current]];
      var found := FindMemberInAncestors(g, owner, g.definitions[current].oldName, false);
      if !found.FoundMember? {
        StepEnds(g, alias, n, current, Failed(TargetNotFound));
        return Failed(TargetNotFound);
      }
      var target := found.id;
      if target in seen {
        SeenAgain(g, alias, n, seen, current);
        return Failed(Cycle);
      }
      if target !in g.methods {
        StepEnds(g, alias, n, current, Failed(TargetNotMethod));
        return Failed(TargetNotMethod);
      }
      var genuine, next := NextAlias(g, target);
      if genuine {
        StepEnds(g, alias, n, current, Reached(target));
        return Reached(target);
      }
      if next.None? {
        StepEnds(g, alias, n, current, Failed(TargetNotFound));
        return Failed(TargetNotFound);
      }
      SeenOneMore(g, alias, n, seen, current);
      seen := seen + {target};
      current := next.value;
      n := n + 1;
    }
  }

  // ---- where the steps go, by the entries of the owner's chain ----

  /** An alias definition that has been resolved to a method of some owner. */
  predicate Owned(g: Index, alias: DefId) {
    && alias in g.definitions && g.definitions[alias].MethodAlias?
    && alias in g.resolved && g.resolved[alias] in g.owners
  }

  /** `alias` names `target`: along the chain of its owner, the owner itself included, this is the member of the first
      entry that has one of the old name. */
  ghost predicate Names(g: Index, alias: DefId, target: DeclId) {
    && Owned(g, alias) && g.owners[g.resolved[alias]] in g.chains
    && IsFirst(g.members, g.chains[g.owners[g.resolved[alias]]], g.definitions[alias].oldName, Some(target))
  }

  /** No entry of the chain of its owner has a member of the old name. */
  ghost predicate NamesNothing(g: Index, alias: DefId) {
    Owned(g, alias) && (g.owners[g.resolved[alias]] in g.chains ==>
      forall k | 0 <= k < |g.chains[g.owners[g.resolved[alias]]]| ::
        MemberAt(g.members, g.chains[g.owners[g.resolved[alias]]][k], g.definitions[alias].oldName).None?)
  }

  lemma TargetIs(g: Index, alias: DefId)
    requires Owned(g, alias)
    ensures AliasTarget(g, alias).None? <==> NamesNothing(g, alias)
    ensures forall t :: AliasTarget(g, alias) == Some(t) <==> Names(g, alias, t)
  {
    var owner := g.owners[g.resolved[alias]];
    if owner in g.chains {
      hide FirstMember;
      var name := g.definitions[alias].oldName;
      FirstIsOne(g.members, g.chains[owner], name, None);
      forall t: DeclId ensures AliasTarget(g, alias) == Some(t) <==> Names(g, alias, t) {
        FirstIsOne(g.members, g.chains[owner], name, Some(t));
      }
    }
  }

  /** A definition of `target` that is no alias. */
  predicate Genuine(g: Index, target: DeclId, i: nat) {
    target in g.methods && i < |g.methods[target]| && g.methods[target][i] in g.definitions
      && g.definitions[g.methods[target][i]].Method?
  }

  /** From an alias the search goes on to the smallest definition of the method it names, if these are all aliases. */
  ghost predicate Follows(g: Index, alias: DefId, next: DefId) {
    exists target :: Names(g, alias, target) && target in g.methods && (forall i: nat :: !Genuine(g, target, i)) &&
      next in g.methods[target] && forall f | f in g.methods[target] :: next <= f
  }

  /** How the search ends at an alias. */
  ghost predicate EndsAt(g: Index, alias: DefId, r: Outcome) {
    match r
    case Reached(target) => Names(g, alias, target) && exists i: nat :: Genuine(g, target, i)
    case Failed(NotAnAlias) => !(alias in g.definitions && g.definitions[alias].MethodAlias?)
    case Failed(UnresolvedOwner) => alias in g.definitions && g.definitions[alias].MethodAlias? && !Owned(g, alias)
    case Failed(TargetNotFound) =>
      NamesNothing(g, alias) || exists t :: Names(g, alias, t) && t in g.methods && g.methods[t] == []
    case Failed(TargetNotMethod) => exists t :: Names(g, alias, t) && t !in g.methods
    case Failed(Cycle) => false
  }

  lemma NoneGenuine(g: Index, target: DeclId)
    requires Consistent(g) && target in g.methods
    ensures OnlyAliases(g, target) <==> forall i: nat :: !Genuine(g, target, i)
  {
    if i :| 0 <= i < |g.methods[target]| && g.definitions[g.methods[target][i]].Method? { assert Genuine(g, target, i); }
  }

  lemma NamesOne(g: Index, alias: DefId, s: DeclId, t: DeclId)
    requires Names(g, alias, s) && Names(g, alias, t)
    ensures s == t
  {
    TargetIs(g, alias);
  }

  lemma StepIs(g: Index, alias: DefId)
    requires Consistent(g)
    ensures forall r :: AliasStep(g, alias) == Ends(r) <==> EndsAt(g, alias, r)
    ensures forall f :: AliasStep(g, alias).LeadsOn? && AliasStep(g, alias).next == f <==> Follows(g, alias, f)
  {
    if Owned(g, alias) {
      TargetIs(g, alias);
      var t := AliasTarget(g, alias);
      hide AliasTarget, Names, NamesNothing, Consistent, Genuine, OnlyAliases;
      if t.Some? && t.value in g.methods {
        NoneGenuine(g, t.value);
        if g.methods[t.value] != [] {
          var m := Smallest(g.methods[t.value]);
          assert forall f | f in g.methods[t.value] :: m <= f;
        }
      }
    }
  }

  /** A way along the aliases. */
  ghost predicate AliasPath(g: Index, path: seq<DefId>, alias: DefId) {
    path != [] && path[0] == alias && forall i | 0 <= i < |path| - 1 :: Follows(g, path[i], path[i + 1])
  }

  lemma {:induction false} StepsArePath(g: Index, alias: DefId, n: nat) returns (path: seq<DefId>)
    requires Consistent(g) && AfterSteps(g, alias, n).Some?
    ensures |path| == n + 1 && AliasPath(g, path, alias) && AfterSteps(g, alias, n) == Some(path[n])
  {
    hide AliasStep, Consistent, Follows;
    path := [alias];
    if n > 0 {
      path := StepsArePath(g, alias, n - 1);
      StepIs(g, path[n - 1]);
      path := path + [AfterSteps(g, alias, n).value];
    }
  }

  lemma {:induction false} PathIsSteps(g: Index, path: seq<DefId>, alias: DefId)
    requires Consistent(g) && AliasPath(g, path, alias)
    ensures AfterSteps(g, alias, |path| - 1) == Some(path[|path| - 1])
    decreases |path|
  {
    hide AliasStep, Consistent, Follows;
    if |path| > 1 {
      PathIsSteps(g, path[..|path| - 1], alias);
      StepIs(g, path[|path| - 2]);
    }
  }

  /** The search ends with an outcome exactly if some way along the aliases comes to one it ends at. */
  lemma OutcomeIs(g: Index, alias: DefId, r: Outcome)
    requires Consistent(g)
    ensures EndsWith(g, alias, r) <==> exists path :: AliasPath(g, path, alias) && EndsAt(g, path[|path| - 1], r)
  {
    hide AliasStep, AfterSteps, Consistent, EndsAt, Follows;
    if EndsWith(g, alias, r) {
      var n: nat :| AfterSteps(g, alias, n).Some? && AliasStep(g, AfterSteps(g, alias, n).value) == Ends(r);
      var path := StepsArePath(g, alias, n);
      StepIs(g, path[n]);
    }
    if path :| AliasPath(g, path, alias) && EndsAt(g, path[|path| - 1], r) {
      PathIsSteps(g, path, alias);
      StepIs(g, path[|path| - 1]);
      assert AliasStep(g, AfterSteps(g, alias, |path| - 1).value) == Ends(r);
    }
  }

  /** Some way goes on for `n` steps. */
  ghost predicate GoesOn(g: Index, alias: DefId, n: nat) {
    exists path :: AliasPath(g, path, alias) && |path| == n + 1
  }

  /** It never ends exactly if there are ways of every length. */
  lemma EndlessIs(g: Index, alias: DefId)
    requires Consistent(g)
    ensures Endless(g, alias) <==> forall n: nat :: GoesOn(g, alias, n)
  {
    hide AliasStep, AfterSteps, Consistent, AliasPath;
    if Endless(g, alias) {
      forall n: nat ensures GoesOn(g, alias, n) { var path := StepsArePath(g, alias, n); }
    }
    if forall n: nat :: GoesOn(g, alias, n) {
      forall n: nat ensures AfterSteps(g, alias, n).Some? {
        assert GoesOn(g, alias, n);
        var path :| AliasPath(g, path, alias) && |path| == n + 1;
        PathIsSteps(g, path, alias);
      }
    }
  }

  /** A method is reached exactly if the last alias on the way names it and it has a definition that is no alias. */
  lemma ReachedHasRealDefinition(g: Index, alias: DefId, target: DeclId)
    requires Consistent(g)
    ensures EndsWith(g, alias, Reached(target)) <==>
      (exists i: nat :: Genuine(g, target, i)) &&
      exists path :: AliasPath(g, path, alias) && Names(g, path[|path| - 1], target)
  {
    OutcomeIs(g, alias, Reached(target));
    hide EndsWith, AliasPath, Names, Genuine;
  }

  /** There is only one outcome the steps can end with. */
  lemma OneOutcome(g: Index, alias: DefId, r: Outcome, s: Outcome)
    requires EndsWith(g, alias, r) && EndsWith(g, alias, s)
    ensures r == s
  {
    var n: nat :| AfterSteps(g, alias, n).Some? && AliasStep(g, AfterSteps(g, alias, n).value) == Ends(r);
    var m: nat :| AfterSteps(g, alias, m).Some? && AliasStep(g, AfterSteps(g, alias, m).value) == Ends(s);
    hide AliasStep, AfterSteps;
    EndsOnce(g, alias, n, m, r);
    EndsOnce(g, alias, m, n, s);
  }

  lemma EndsOnce(g: Index, alias: DefId, n: nat, m: nat, r: Outcome)
    requires AfterSteps(g, alias, n).Some? && AliasStep(g, AfterSteps(g, alias, n).value) == Ends(r)
    requires AfterSteps(g, alias, m).Some?
    ensures m <= n
  {
    hide AliasStep;
    if n < m { FewerSteps(g, alias, n + 1, m); }
  }
}
