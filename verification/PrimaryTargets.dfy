/** Two ways to get from an alias to a namespace: the resolver takes the first namespace among all ends,
    nearest first, the queries follow first targets only. When they agree. */
module PrimaryTargets {
  import opened Declarations
  import opened Aliases
  import opened AliasWalks

  /** `Graph::resolve_alias` from a declaration on, `seen` having been left behind. */
  function Primary(src: Source, d: DeclId, seen: set<DeclId>): Option<DeclId>
    decreases |AliasIds(src) - seen|
  {
    if d in seen || AliasTargets(src, d) == [] then None
    else
      SeenShrinks(src, seen, d);
      var target := AliasTargets(src, d)[0];
      if IsAlias(src, target) then Primary(src, target, seen + {d}) else Some(target)
  }

  /** The loop of `resolve_alias` */
  method ResolveAlias(src: Source, d: DeclId) returns (r: Option<DeclId>)
    ensures r == Primary(src, d, {})
  {
    var seen: set<DeclId> := {};
    var current := d;
    while true
      invariant Primary(src, current, seen) == Primary(src, d, {})
      decreases |AliasIds(src) - seen|
    {
      if current in seen { return None; }
      SeenShrinks(src, seen, current);
      seen := seen + {current};
      var targets := CollectTargets(src, current);
      if targets == [] { return None; }
      if !IsAlias(src, targets[0]) { return Some(targets[0]); }
      current := targets[0];
    }
  }

  /** What a query makes of a declaration it expects to be a namespace. */
  datatype Answer = Missing | Leads(id: DeclId) | Failed

  function AsNamespace(src: Source, target: Option<DeclId>): Answer {
    if target.Some? && Declared(src, target.value) && IsNamespace(src, target.value) then Leads(target.value) else Failed
  }

  function Asked(src: Source, d: DeclId): Answer {
    if !Declared(src, d) then Missing
    else if IsNamespace(src, d) then Leads(d)
    else AsNamespace(src, Primary(src, d, {}))
  }

  /** `resolve_to_namespace` in the queries: a namespace is returned exactly if it is the declaration itself
      or where first targets lead. */
  method QueryNamespace(src: Source, d: DeclId) returns (r: Answer)
    ensures r == Asked(src, d)
    ensures r.Missing? <==> !Declared(src, d)
    ensures r.Leads? ==> Declared(src, r.id) && IsNamespace(src, r.id) && (r.id == d || Primary(src, d, {}) == Some(r.id))
  {
    if Declared(src, d) && IsNamespace(src, d) { return Leads(d); }
    if !Declared(src, d) { return Missing; }
    var target := ResolveAlias(src, d);
    r := AsNamespace(src, target);
  }

  /** First targets lead to one of the ends the resolver knows. */
  lemma {:induction false} PrimaryIsAnEnd(src: Source, d: DeclId, seen: set<DeclId>) returns (p: seq<DeclId>)
    requires Primary(src, d, seen).Some?
    ensures AliasPath(src, p) && p[0] == d && p[|p| - 1] == Primary(src, d, seen).value
    ensures !IsAlias(src, Primary(src, d, seen).value)
    decreases |AliasIds(src) - seen|
  {
    SeenShrinks(src, seen, d);
    var target := AliasTargets(src, d)[0];
    if IsAlias(src, target) {
      var rest := PrimaryIsAnEnd(src, target, seen + {d});
      ExtendPath(src, d, rest);
      p := [d] + rest;
    } else {
      p := [d, target];
    }
  }

  lemma PrimaryAmongEnds(src: Source, d: DeclId)
    ensures Primary(src, d, {}).Some? ==> Primary(src, d, {}).value in AliasChains(src, d)
  {
    if Primary(src, d, {}).Some? {
      var p := PrimaryIsAnEnd(src, d, {});
      AliasChainsAreReachableEnds(src, d, Primary(src, d, {}).value);
    }
  }

  // ---- when the two agree ----

  predicate LeadsToNamespace(src: Source, x: DeclId) {
    Declared(src, x) && IsNamespace(src, x)
  }

  /** The same answer, or none on both sides. */
  predicate Agree(src: Source, d: DeclId) {
    match ResolveToNamespace(src, d)
    case Some(x) => Asked(src, d) == Leads(x)
    case None => !Asked(src, d).Leads?
  }

  lemma {:induction false} FirstNamespaceAppend(src: Source, a: seq<DeclId>, b: seq<DeclId>)
    ensures FirstNamespace(src, a + b) ==
      if FirstNamespace(src, a).Some? then FirstNamespace(src, a) else FirstNamespace(src, b)
    decreases |a|
  {
    if a == [] {
      assert a + b == b;
    } else {
      assert (a + b)[1..] == a[1..] + b;
      FirstNamespaceAppend(src, a[1..], b);
    }
  }

  predicate FirstNamespaceAt(src: Source, ids: seq<DeclId>, i: int, x: DeclId) {
    && 0 <= i < |ids| && ids[i] == x && LeadsToNamespace(src, x)
    && forall j | 0 <= j < i :: !LeadsToNamespace(src, ids[j])
  }

  lemma {:induction false} FirstNamespaceIs(src: Source, ids: seq<DeclId>)
    ensures FirstNamespace(src, ids).None? <==> forall x | x in ids :: !LeadsToNamespace(src, x)
    ensures FirstNamespace(src, ids).Some? ==> exists i :: FirstNamespaceAt(src, ids, i, FirstNamespace(src, ids).value)
    decreases |ids|
  {
    if ids != [] {
      assert ids == [ids[0]] + ids[1..];
      if !LeadsToNamespace(src, ids[0]) {
        FirstNamespaceIs(src, ids[1..]);
        if FirstNamespace(src, ids[1..]).Some? {
          var i :| FirstNamespaceAt(src, ids[1..], i, FirstNamespace(src, ids[1..]).value);
          assert FirstNamespaceAt(src, ids, i + 1, FirstNamespace(src, ids).value);
        }
      } else {
        assert FirstNamespaceAt(src, ids, 0, FirstNamespace(src, ids).value);
      }
    }
  }

  /** No namespace stands before `x`. */
  ghost predicate NoneBefore(src: Source, ids: seq<DeclId>, x: DeclId) {
    forall i, j | 0 <= i < j < |ids| && ids[j] == x && x !in ids[..j] :: !LeadsToNamespace(src, ids[i])
  }

  lemma FirstExactlyIfNoneBefore(src: Source, ids: seq<DeclId>, x: DeclId)
    requires x in ids && LeadsToNamespace(src, x)
    ensures FirstNamespace(src, ids) == Some(x) <==> NoneBefore(src, ids, x)
  {
    FirstNamespaceIs(src, ids);
    var i :| FirstNamespaceAt(src, ids, i, FirstNamespace(src, ids).value);
    var k := FirstPlace(ids, x);
    if ids[i] == x {
      forall m, j | 0 <= m < j < |ids| && ids[j] == x && x !in ids[..j] ensures !LeadsToNamespace(src, ids[m]) {
        SeenBefore(ids, i, j);
      }
    }
  }

  lemma SeenBefore(ids: seq<DeclId>, i: nat, j: nat)
    requires i < |ids| && j < |ids|
    ensures i < j ==> ids[i] in ids[..j]
  {
    if i < j { assert ids[..j][i] == ids[i]; }
  }

  lemma {:induction false} FirstPlace(ids: seq<DeclId>, x: DeclId) returns (k: nat)
    requires x in ids
    ensures k < |ids| && ids[k] == x && x !in ids[..k]
    decreases |ids|
  {
    var front, last := ids[..|ids| - 1], ids[|ids| - 1];
    assert ids == front + [last];
    if x in front {
      k := FirstPlace(front, x);
      assert ids[..k] == front[..k];
    } else {
      k := |ids| - 1;
    }
  }

  lemma {:induction false} AtSomeDistance(src: Source, d: DeclId, p: seq<DeclId>) returns (k: nat)
    requires AliasPath(src, p) && p[0] == d
    ensures Distance(src, d, p[|p| - 1], k)
    decreases |p|
  {
    PathWithin(src, d, p);
    k := |p| - 1;
    while k > 0 && Within(src, d, p[|p| - 1], k - 1)
      invariant Within(src, d, p[|p| - 1], k)
    {
      k := k - 1;
    }
  }

  lemma {:induction false} PathWithin(src: Source, d: DeclId, p: seq<DeclId>)
    requires AliasPath(src, p) && p[0] == d
    ensures Within(src, d, p[|p| - 1], |p| - 1)
    decreases |p|
  {
    if |p| > 1 {
      var front := p[..|p| - 1];
      assert p[|p| - 2 + 1] in AliasTargets(src, p[|p| - 2]);
      assert AliasPath(src, front);
      PathWithin(src, d, front);
      assert front[|front| - 1] == p[|p| - 2];
    }
  }

  lemma {:induction false} EndsBeforeContents(src: Source, d: DeclId, k: nat, x: DeclId)
    ensures x in EndsBefore(src, d, k) <==> exists j: nat :: j < k && IsEnd(src, x) && Distance(src, d, x, j)
    decreases k
  {
    hide Distance, IsEnd, EndsAt;
    if k > 0 {
      EndsBeforeContents(src, d, k - 1, x);
      BreadthFirst(src, d, k - 1, x);
    }
  }

  /** Among the ends, `x` at distance `k` is what the resolver takes: no namespace is nearer, and none comes
      earlier in its layer. */
  ghost predicate Nearest(src: Source, d: DeclId, x: DeclId, k: nat) {
    && (forall y, j: nat | j < k && IsEnd(src, y) && Distance(src, d, y, j) :: !LeadsToNamespace(src, y))
    && NoneBefore(src, EndsAt(src, d, k), x)
  }

  lemma ResolverTakesNearest(src: Source, d: DeclId, x: DeclId, k: nat)
    requires IsEnd(src, x) && Distance(src, d, x, k) && LeadsToNamespace(src, x)
    ensures FirstNamespace(src, AliasChains(src, d)) == Some(x) <==> Nearest(src, d, x, k)
  {
    hide Distance, IsEnd, AliasChains, EndsBefore, EndsAt, LeadsToNamespace, FirstNamespace, NoneBefore;
    BreadthFirst(src, d, k, x);
    var before, at := EndsBefore(src, d, k), EndsAt(src, d, k);
    var rest := AliasChains(src, d)[|before + at|..];
    assert AliasChains(src, d) == before + at + rest;
    FirstNamespaceAppend(src, before + at, rest);
    FirstNamespaceAppend(src, before, at);
    FirstNamespaceIs(src, before);
    FirstNamespaceIs(src, at);
    FirstExactlyIfNoneBefore(src, at, x);
    forall y ensures y in before <==> exists j: nat :: j < k && IsEnd(src, y) && Distance(src, d, y, j) {
      EndsBeforeContents(src, d, k, y);
    }
    NotTwice(src, d, x, k);
  }

  /** An end is listed at its distance only. */
  lemma NotTwice(src: Source, d: DeclId, x: DeclId, k: nat)
    requires Distance(src, d, x, k)
    ensures x !in EndsBefore(src, d, k)
  {
    hide IsEnd, EndsBefore;
    EndsBeforeContents(src, d, k, x);
    if j: nat :| j < k && Distance(src, d, x, j) { WithinUpTo(src, d, x, j, k - 1); }
  }

  lemma {:induction false} WithinUpTo(src: Source, d: DeclId, x: DeclId, j: nat, k: nat)
    requires Within(src, d, x, j) && j <= k
    ensures Within(src, d, x, k)
    decreases k
  {
    if j < k {
      WithinUpTo(src, d, x, j, k - 1);
      WithinMore(src, d, x, k - 1);
    }
  }

  /** If first targets lead to a namespace, the queries agree with the resolver exactly if no namespace is
      nearer and none comes earlier in the same layer. */
  lemma AgreeExactlyIfNearest(src: Source, d: DeclId, x: DeclId) returns (k: nat)
    requires IsAlias(src, d) && Primary(src, d, {}) == Some(x) && LeadsToNamespace(src, x)
    ensures IsEnd(src, x) && Distance(src, d, x, k)
    ensures Agree(src, d) <==> Nearest(src, d, x, k)
  {
    hide FirstNamespace, AliasChains, Nearest, Distance;
    var p := PrimaryIsAnEnd(src, d, {});
    k := AtSomeDistance(src, d, p);
    NoAliasIsEnd(src, x);
    ResolverTakesNearest(src, d, x, k);
    AliasIsNoNamespace(src, d);
  }

  lemma NoAliasIsEnd(src: Source, x: DeclId)
    requires !IsAlias(src, x)
    ensures IsEnd(src, x)
  {
  }

  lemma AliasIsNoNamespace(src: Source, d: DeclId)
    requires IsAlias(src, d)
    ensures Declared(src, d) && !IsNamespace(src, d)
  {
  }

  ghost predicate CanReach(src: Source, d: DeclId, x: DeclId) {
    exists p :: AliasPath(src, p) && p[0] == d && p[|p| - 1] == x
  }

  /** If they lead to none, the two agree exactly if no end that can be reached is a namespace. */
  lemma AgreeExactlyIfNoneReachable(src: Source, d: DeclId)
    requires IsAlias(src, d) && !Asked(src, d).Leads?
    ensures Agree(src, d) <==> forall x | LeadsToNamespace(src, x) && CanReach(src, d, x) :: !IsEnd(src, x)
  {
    hide Primary, FirstNamespace, AliasChains, AliasPath, IsEnd;
    AliasIsNoNamespace(src, d);
    FirstNamespaceIs(src, AliasChains(src, d));
    forall x: DeclId ensures x in AliasChains(src, d) <==> IsEnd(src, x) && CanReach(src, d, x) {
      ReachableEnds(src, d, x);
    }
    hide CanReach, LeadsToNamespace;
  }

  lemma ReachableEnds(src: Source, d: DeclId, x: DeclId)
    ensures x in AliasChains(src, d) <==> IsEnd(src, x) && CanReach(src, d, x)
  {
    hide AliasChains, IsEnd;
    AliasChainsAreReachableEnds(src, d, x);
  }

  /** What is no alias is the same for both. */
  lemma NoAliasAgrees(src: Source, d: DeclId)
    requires !IsAlias(src, d)
    ensures Agree(src, d)
  {
  }

  /** An alias with a further alias before a module. */
  const BRANCHING := Source(
    map[0 := Class, 1 := Class, 2 := Class, 3 := Class, 4 := ConstantAlias, 5 := ConstantAlias, 6 := Module, 7 := Module],
    map[Named(4) := [ConstantAliasDef(0), ConstantAliasDef(1)], Named(5) := [ConstantAliasDef(2)]],
    map[0 := Resolved(Named(5)), 1 := Resolved(Named(6)), 2 := Resolved(Named(7))],
    {}, map[])

  lemma BranchingTargets()
    ensures AliasTargets(BRANCHING, Named(4)) == [Named(5), Named(6)] && AliasTargets(BRANCHING, Named(5)) == [Named(7)]
    ensures AliasTargets(BRANCHING, Named(6)) == [] && AliasTargets(BRANCHING, Named(7)) == []
  {
    var both := [ConstantAliasDef(0), ConstantAliasDef(1)];
    assert both[1..] == [ConstantAliasDef(1)] && both[1..][1..] == [] && [ConstantAliasDef(2)][1..] == [];
    assert [] + [Named(5)] == [Named(5)] && [Named(5)] + [Named(6)] == [Named(5), Named(6)];
    assert TargetsFrom(BRANCHING, both[1..], [Named(5)]) == [Named(5), Named(6)];
    assert [] + [Named(7)] == [Named(7)];
    assert TargetsFrom(BRANCHING, [ConstantAliasDef(2)], []) == [Named(7)];
  }

  lemma WalkPast(src: Source, c: DeclId, rest: seq<DeclId>, seen: set<DeclId>)
    requires c !in seen
    ensures IsEnd(src, c) ==> Walk(src, [c] + rest, seen) == [c] + Walk(src, rest, seen + {c})
    ensures !IsEnd(src, c) ==> Walk(src, [c] + rest, seen) == Walk(src, rest + AliasTargets(src, c), seen + {c})
  {
    WalkStep(src, c, rest, seen);
  }

  lemma BranchingEnds()
    ensures Walk(BRANCHING, [Named(6), Named(7)], {Named(4), Named(5)}) == [Named(6), Named(7)]
  {
    BranchingTargets();
    hide AliasTargets, Walk;
    WalkPast(BRANCHING, Named(6), [Named(7)], {Named(4), Named(5)});
    WalkPast(BRANCHING, Named(7), [], {Named(4), Named(5)} + {Named(6)});
    assert [Named(6)] + [Named(7)] == [Named(6), Named(7)] && [Named(7)] + [] == [Named(7)];
    EmptyWalk({Named(4), Named(5)} + {Named(6)} + {Named(7)});
  }

  lemma BranchingWalk()
    ensures AliasChains(BRANCHING, Named(4)) == [Named(6), Named(7)]
  {
    BranchingTargets();
    hide AliasTargets, Walk;
    WalkPast(BRANCHING, Named(4), [], {});
    WalkPast(BRANCHING, Named(5), [Named(6)], {Named(4)});
    assert [Named(4)] + [] == [Named(4)] && [] + [Named(5), Named(6)] == [Named(5)] + [Named(6)];
    assert [Named(6)] + [Named(7)] == [Named(6), Named(7)];
    assert {} + {Named(4)} == {Named(4)} && {Named(4)} + {Named(5)} == {Named(4), Named(5)};
    BranchingEnds();
  }

  lemma EmptyWalk(seen: set<DeclId>)
    ensures Walk(BRANCHING, [], seen) == []
  {
  }

  /** With several targets the two can differ. */
  lemma SeveralTargetsDisagree()
    ensures WellFormedSource(BRANCHING)
    ensures ResolveToNamespace(BRANCHING, Named(4)) == Some(Named(6)) && Asked(BRANCHING, Named(4)) == Leads(Named(7))
  {
    BranchingWalk();
    BranchingTargets();
    hide AliasTargets, Walk, AliasChains;
    assert Primary(BRANCHING, Named(5), {Named(4)}) == Some(Named(7));
    assert {} + {Named(4)} == {Named(4)};
    assert Primary(BRANCHING, Named(4), {}) == Some(Named(7));
  }
}
