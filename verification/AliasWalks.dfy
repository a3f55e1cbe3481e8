/** What following constant aliases returns, on any alias graph: every reachable end once, nearest
    ends first. */
module AliasWalks {
  import opened Declarations
  import opened Aliases

  ghost predicate AliasPath(src: Source, p: seq<DeclId>) {
    p != [] && forall i | 0 <= i < |p| - 1 :: p[i + 1] in AliasTargets(src, p[i])
  }

  ghost predicate Leads(src: Source, p: seq<DeclId>, queue: seq<DeclId>, seen: set<DeclId>, x: DeclId) {
    && p != [] && AliasPath(src, p) && p[0] in queue && p[|p| - 1] == x
    && forall y | y in p :: y !in seen
  }

  lemma WalkStep(src: Source, c: DeclId, rest: seq<DeclId>, seen: set<DeclId>)
    ensures Walk(src, [c] + rest, seen) ==
      if c in seen then Walk(src, rest, seen)
      else if IsEnd(src, c) then [c] + Walk(src, rest, seen + {c})
      else Walk(src, rest + AliasTargets(src, c), seen + {c})
  {
  }

  lemma {:induction false} WalkFindsPath(src: Source, queue: seq<DeclId>, seen: set<DeclId>, x: DeclId)
      returns (p: seq<DeclId>)
    requires x in Walk(src, queue, seen)
    ensures IsEnd(src, x) && Leads(src, p, queue, seen, x)
    decreases |AliasIds(src) - seen|, |queue|
  {
    hide Leads, AliasTargets, IsEnd;
    var c := queue[0];
    var rest := queue[1..];
    assert queue == [c] + rest;
    WalkStep(src, c, rest, seen);
    hide Walk;
    SeenShrinks(src, seen, c);
    if c in seen {
      p := WalkFindsPath(src, rest, seen, x);
      LeadsLater(src, p, c, rest, seen, seen, x);
    } else if !IsEnd(src, c) {
      p := WalkFindsPath(src, rest + AliasTargets(src, c), seen + {c}, x);
      p := LeadsThrough(src, p, c, rest, seen, x);
    } else if x == c {
      p := [c];
      LeadsHere(src, c, rest, seen);
    } else {
      p := WalkFindsPath(src, rest, seen + {c}, x);
      LeadsLater(src, p, c, rest, seen, seen + {c}, x);
    }
  }

  lemma LeadsHere(src: Source, c: DeclId, rest: seq<DeclId>, seen: set<DeclId>)
    requires c !in seen
    ensures Leads(src, [c], [c] + rest, seen, c)
  {
    SinglePath(src, c);
  }

  lemma LeadsLater(src: Source, p: seq<DeclId>, c: DeclId, rest: seq<DeclId>, seen: set<DeclId>, more: set<DeclId>, x: DeclId)
    requires seen <= more && Leads(src, p, rest, more, x)
    ensures Leads(src, p, [c] + rest, seen, x)
  {
  }

  lemma LeadsThrough(src: Source, p: seq<DeclId>, c: DeclId, rest: seq<DeclId>, seen: set<DeclId>, x: DeclId)
      returns (q: seq<DeclId>)
    requires c !in seen && Leads(src, p, rest + AliasTargets(src, c), seen + {c}, x)
    ensures Leads(src, q, [c] + rest, seen, x)
  {
    hide AliasPath, AliasTargets;
    q := p;
    if p[0] !in rest {
      assert p[0] in AliasTargets(src, c);
      ExtendPath(src, c, p);
      q := [c] + p;
    }
  }

  lemma SinglePath(src: Source, c: DeclId)
    ensures AliasPath(src, [c])
  {
  }

  lemma ExtendPath(src: Source, c: DeclId, p: seq<DeclId>)
    requires AliasPath(src, p) && p[0] in AliasTargets(src, c)
    ensures AliasPath(src, [c] + p)
  {
  }

  /** The last visit of `c` splits a path that passes through it. */
  lemma {:induction false} LastVisit(p: seq<DeclId>, c: DeclId) returns (i: nat)
    requires c in p
    ensures i < |p| && p[i] == c && c !in p[i + 1..]
  {
    if c in p[1..] {
      var j := LastVisit(p[1..], c);
      i := j + 1;
      assert p[i + 1..] == p[1..][j + 1..];
    } else {
      i := 0;
    }
  }

  lemma {:induction false} PathIsWalked(src: Source, queue: seq<DeclId>, seen: set<DeclId>, x: DeclId, p: seq<DeclId>)
    requires IsEnd(src, x) && Leads(src, p, queue, seen, x)
    ensures x in Walk(src, queue, seen)
    decreases |AliasIds(src) - seen|, |queue|
  {
    var c := queue[0];
    assert queue == [c] + queue[1..];
    if c in seen {
      PathIsWalked(src, queue[1..], seen, x, p);
    } else {
      SeenShrinks(src, seen, c);
      if c !in p {
        if IsEnd(src, c) {
          PathIsWalked(src, queue[1..], seen + {c}, x, p);
        } else {
          PathIsWalked(src, queue[1..] + AliasTargets(src, c), seen + {c}, x, p);
        }
      } else if x != c {
        var i := LastVisit(p, c);
        assert p[i + 1] in AliasTargets(src, p[i]);
        PathIsWalked(src, queue[1..] + AliasTargets(src, c), seen + {c}, x, p[i + 1..]);
      } else {
        assert IsEnd(src, c);
      }
    }
  }

  lemma {:induction false} WalkDistinct(src: Source, queue: seq<DeclId>, seen: set<DeclId>)
    ensures forall i | 0 <= i < |Walk(src, queue, seen)| :: Walk(src, queue, seen)[i] !in seen
    ensures forall i, j | 0 <= i < j < |Walk(src, queue, seen)| ::
      Walk(src, queue, seen)[i] != Walk(src, queue, seen)[j]
    decreases |AliasIds(src) - seen|, |queue|
  {
    if queue != [] {
      if queue[0] in seen {
        WalkDistinct(src, queue[1..], seen);
      } else {
        SeenShrinks(src, seen, queue[0]);
        if IsEnd(src, queue[0]) {
          WalkDistinct(src, queue[1..], seen + {queue[0]});
        } else {
          WalkDistinct(src, queue[1..] + AliasTargets(src, queue[0]), seen + {queue[0]});
        }
      }
    }
  }

  /** Following aliases returns exactly the reachable ends, each of them once; in particular nothing at all
      exactly when no end is reachable. */
  lemma AliasChainsAreReachableEnds(src: Source, d: DeclId, x: DeclId)
    ensures x in AliasChains(src, d) <==>
      IsEnd(src, x) && exists p :: AliasPath(src, p) && p[0] == d && p[|p| - 1] == x
    ensures forall i, j | 0 <= i < j < |AliasChains(src, d)| :: AliasChains(src, d)[i] != AliasChains(src, d)[j]
  {
    WalkDistinct(src, [d], {});
    if x in AliasChains(src, d) { var p := WalkFindsPath(src, [d], {}, x); }
    if IsEnd(src, x) {
      forall p | AliasPath(src, p) && p[0] == d && p[|p| - 1] == x ensures x in AliasChains(src, d) {
        assert Leads(src, p, [d], {}, x);
        PathIsWalked(src, [d], {}, x, p);
      }
    }
  }

  // ---- breadth-first order ----

  /** The new ends in a layer of the queue. */
  function LayerEnds(src: Source, layer: seq<DeclId>, seen: set<DeclId>): seq<DeclId> {
    if layer == [] then []
    else
      (if layer[0] !in seen && IsEnd(src, layer[0]) then [layer[0]] else []) +
      LayerEnds(src, layer[1..], seen + {layer[0]})
  }

  /** The targets of the new aliases in a layer. */
  function NextLayer(src: Source, layer: seq<DeclId>, seen: set<DeclId>): seq<DeclId> {
    if layer == [] then []
    else
      (if layer[0] in seen then [] else AliasTargets(src, layer[0])) + NextLayer(src, layer[1..], seen + {layer[0]})
  }

  function Ids(layer: seq<DeclId>): set<DeclId> {
    set d | d in layer
  }

  lemma {:induction false} WalkByLayer(src: Source, layer: seq<DeclId>, rest: seq<DeclId>, seen: set<DeclId>)
    ensures Walk(src, layer + rest, seen)
         == LayerEnds(src, layer, seen) + Walk(src, rest + NextLayer(src, layer, seen), seen + Ids(layer))
    decreases |layer|
  {
    if layer == [] {
      assert layer + rest == rest && rest + [] == rest && seen + Ids(layer) == seen;
    } else {
      var c, tail := layer[0], layer[1..];
      LayerHead(src, layer, rest, seen);
      hide Walk, Ids, LayerEnds, NextLayer, IsEnd, AliasTargets;
      if c in seen {
        WalkByLayer(src, tail, rest, seen);
      } else if IsEnd(src, c) {
        WalkByLayer(src, tail, rest, seen + {c});
        Regroup([c], LayerEnds(src, tail, seen + {c}), Walk(src, rest + NextLayer(src, layer, seen), seen + Ids(layer)));
      } else {
        var targets := AliasTargets(src, c);
        WalkByLayer(src, tail, rest + targets, seen + {c});
        Regroup(tail, rest, targets);
        Regroup(rest, targets, NextLayer(src, tail, seen + {c}));
      }
    }
  }

  lemma Regroup(a: seq<DeclId>, b: seq<DeclId>, c: seq<DeclId>)
    ensures a + (b + c) == a + b + c
  {
  }

  /** What the first element of a layer does to the walk, the ends and the next layer. */
  lemma LayerHead(src: Source, layer: seq<DeclId>, rest: seq<DeclId>, seen: set<DeclId>)
    requires layer != []
    ensures var c, tail := layer[0], layer[1..];
      && seen + {c} + Ids(tail) == seen + Ids(layer) && (c in seen ==> seen + {c} == seen)
      && Walk(src, layer + rest, seen) ==
           (if c in seen then Walk(src, tail + rest, seen)
            else if IsEnd(src, c) then [c] + Walk(src, tail + rest, seen + {c})
            else Walk(src, tail + rest + AliasTargets(src, c), seen + {c}))
      && LayerEnds(src, layer, seen) ==
           (if c !in seen && IsEnd(src, c) then [c] + LayerEnds(src, tail, seen + {c}) else LayerEnds(src, tail, seen + {c}))
      && NextLayer(src, layer, seen) ==
           (if c in seen || IsEnd(src, c) then NextLayer(src, tail, seen + {c})
            else AliasTargets(src, c) + NextLayer(src, tail, seen + {c}))
  {
    var c, tail := layer[0], layer[1..];
    assert layer == [c] + tail;
    assert layer + rest == [c] + (tail + rest);
    WalkStep(src, c, tail + rest, seen);
    hide Walk;
    assert [] + LayerEnds(src, tail, seen + {c}) == LayerEnds(src, tail, seen + {c});
    assert [] + NextLayer(src, tail, seen + {c}) == NextLayer(src, tail, seen + {c});
  }

  /** The k-th layer of the queue, and what has been seen before it. */
  function Layer(src: Source, d: DeclId, k: nat): (seq<DeclId>, set<DeclId>) {
    if k == 0 then ([d], {})
    else
      var (layer, seen) := Layer(src, d, k - 1);
      (NextLayer(src, layer, seen), seen + Ids(layer))
  }

  function EndsAt(src: Source, d: DeclId, k: nat): seq<DeclId> {
    LayerEnds(src, Layer(src, d, k).0, Layer(src, d, k).1)
  }

  function EndsBefore(src: Source, d: DeclId, k: nat): seq<DeclId> {
    if k == 0 then [] else EndsBefore(src, d, k - 1) + EndsAt(src, d, k - 1)
  }

  /** `x` is `k` aliases away from `d`, and no fewer. */
  ghost predicate Distance(src: Source, d: DeclId, x: DeclId, k: nat) {
    Within(src, d, x, k) && (k > 0 ==> !Within(src, d, x, k - 1))
  }

  ghost predicate Within(src: Source, d: DeclId, x: DeclId, k: nat)
    decreases k
  {
    x == d || (k > 0 && exists y :: Within(src, d, y, k - 1) && x in AliasTargets(src, y))
  }

  lemma {:induction false} WithinMore(src: Source, d: DeclId, x: DeclId, k: nat)
    requires Within(src, d, x, k)
    ensures Within(src, d, x, k + 1)
    decreases k
  {
    if x != d {
      var y :| Within(src, d, y, k - 1) && x in AliasTargets(src, y);
      WithinMore(src, d, y, k - 1);
    }
  }

  lemma {:induction false} NextLayerContents(src: Source, layer: seq<DeclId>, seen: set<DeclId>, x: DeclId)
    ensures x in NextLayer(src, layer, seen) <==>
      exists y :: y in layer && y !in seen && x in AliasTargets(src, y)
    decreases |layer|
  {
    if layer != [] {
      NextLayerContents(src, layer[1..], seen + {layer[0]}, x);
      assert layer == [layer[0]] + layer[1..];
    }
  }

  lemma {:induction false} LayerEndsContents(src: Source, layer: seq<DeclId>, seen: set<DeclId>, x: DeclId)
    ensures x in LayerEnds(src, layer, seen) <==> x in layer && x !in seen && IsEnd(src, x)
    decreases |layer|
  {
    if layer != [] {
      LayerEndsContents(src, layer[1..], seen + {layer[0]}, x);
      assert layer == [layer[0]] + layer[1..];
    }
  }

  /** Before layer `k` everything nearer than `k` has been seen, and the layer holds what is at distance `k`. */
  lemma {:induction false} LayerContents(src: Source, d: DeclId, k: nat)
    ensures forall x :: x in Layer(src, d, k).1 <==> k > 0 && Within(src, d, x, k - 1)
    ensures forall x | x in Layer(src, d, k).0 :: Within(src, d, x, k)
    ensures forall x | Distance(src, d, x, k) :: x in Layer(src, d, k).0
    decreases k
  {
    if k > 0 {
      LayerContents(src, d, k - 1);
      var (layer, seen) := Layer(src, d, k - 1);
      forall x ensures x in seen + Ids(layer) <==> Within(src, d, x, k - 1) {
        if x in seen { WithinMore(src, d, x, k - 2); }
        if Within(src, d, x, k - 1) && x !in seen { assert Distance(src, d, x, k - 1); }
      }
      forall x
        ensures x in NextLayer(src, layer, seen) ==> Within(src, d, x, k)
        ensures Distance(src, d, x, k) ==> x in NextLayer(src, layer, seen)
      {
        NextLayerContents(src, layer, seen, x);
        if Distance(src, d, x, k) {
          NearestPredecessor(src, d, x, k, layer, seen);
        }
      }
    }
  }

  lemma PredecessorsFarther(src: Source, d: DeclId, x: DeclId, k: nat)
    requires !Within(src, d, x, k + 1)
    ensures forall y | x in AliasTargets(src, y) :: !Within(src, d, y, k)
  {
  }

  lemma NearestPredecessor(src: Source, d: DeclId, x: DeclId, k: nat, layer: seq<DeclId>, seen: set<DeclId>)
    requires k > 0 && Distance(src, d, x, k)
    requires forall y :: y in seen <==> k > 1 && Within(src, d, y, k - 2)
    requires forall y | Distance(src, d, y, k - 1) :: y in layer
    ensures exists y :: y in layer && y !in seen && x in AliasTargets(src, y)
  {
    assert x != d;
    var y :| Within(src, d, y, k - 1) && x in AliasTargets(src, y);
    if k > 1 { PredecessorsFarther(src, d, x, k - 2); }
    assert Distance(src, d, y, k - 1);
  }

  lemma WalkOneLayer(src: Source, layer: seq<DeclId>, seen: set<DeclId>)
    ensures Walk(src, layer, seen)
         == LayerEnds(src, layer, seen) + Walk(src, NextLayer(src, layer, seen), seen + Ids(layer))
  {
    hide LayerEnds, NextLayer, Walk, Ids;
    WalkByLayer(src, layer, [], seen);
    assert layer + [] == layer && [] + NextLayer(src, layer, seen) == NextLayer(src, layer, seen);
  }

  lemma NextStep(src: Source, d: DeclId, k: nat)
    ensures Walk(src, Layer(src, d, k).0, Layer(src, d, k).1)
         == EndsAt(src, d, k) + Walk(src, Layer(src, d, k + 1).0, Layer(src, d, k + 1).1)
  {
    hide LayerEnds, NextLayer, Walk, Ids;
    WalkOneLayer(src, Layer(src, d, k).0, Layer(src, d, k).1);
  }

  lemma {:induction false} WalkFromLayer(src: Source, d: DeclId, k: nat)
    ensures AliasChains(src, d) == EndsBefore(src, d, k) + Walk(src, Layer(src, d, k).0, Layer(src, d, k).1)
    decreases k
  {
    hide Walk, Layer, EndsAt, AliasChains, EndsBefore;
    if k == 0 {
      WalkFromStart(src, d);
    } else {
      WalkFromLayer(src, d, k - 1);
      NextStep(src, d, k - 1);
      EndsBeforeMore(src, d, k - 1);
      Regroup(EndsBefore(src, d, k - 1), EndsAt(src, d, k - 1), Walk(src, Layer(src, d, k).0, Layer(src, d, k).1));
    }
  }

  lemma WalkFromStart(src: Source, d: DeclId)
    ensures AliasChains(src, d) == EndsBefore(src, d, 0) + Walk(src, Layer(src, d, 0).0, Layer(src, d, 0).1)
  {
    hide Walk;
  }

  lemma EndsBeforeMore(src: Source, d: DeclId, k: nat)
    ensures EndsBefore(src, d, k + 1) == EndsBefore(src, d, k) + EndsAt(src, d, k)
  {
  }

  /** Breadth-first order: the result lists the ends layer by layer, and the ends of layer `k` are
      exactly those at distance `k`. */
  lemma BreadthFirst(src: Source, d: DeclId, k: nat, x: DeclId)
    ensures EndsBefore(src, d, k) + EndsAt(src, d, k) <= AliasChains(src, d)
    ensures x in EndsAt(src, d, k) <==> IsEnd(src, x) && Distance(src, d, x, k)
  {
    WalkFromLayer(src, d, k + 1);
    LayerContents(src, d, k);
    LayerEndsContents(src, Layer(src, d, k).0, Layer(src, d, k).1, x);
  }

  // ---- the loops themselves ----

  /** `alias_targets` */
  method CollectTargets(src: Source, d: DeclId) returns (targets: seq<DeclId>)
    ensures targets == AliasTargets(src, d)
  {
    targets := [];
    if IsAlias(src, d) {
      var defs := DefinitionsOf(src, d);
      var i := 0;
      while i < |defs|
        invariant 0 <= i <= |defs|
        invariant TargetsFrom(src, defs[i..], targets) == TargetsFrom(src, defs, [])
      {
        assert defs[i..][1..] == defs[i + 1..];
        if defs[i].ConstantAliasDef? {
          match Target(src, defs[i].target)
          case Some(t) => if t !in targets { targets := targets + [t]; }
          case None =>
        }
        i := i + 1;
      }
    }
  }

  /** The `i`-th definition makes an alias for `x`. */
  predicate AliasedAt(src: Source, defs: seq<Definition>, i: nat, x: DeclId) {
    i < |defs| && defs[i].ConstantAliasDef? && Target(src, defs[i].target) == Some(x)
  }

  /** `found` are what the first `n` definitions make aliases for, each once, in the order they are first named. */
  ghost predicate InOrderNamed(src: Source, defs: seq<Definition>, n: nat, found: seq<DeclId>) {
    && (forall x :: x in found <==> exists i: nat :: i < n && AliasedAt(src, defs, i, x))
    && (forall k, l | 0 <= k < l < |found| :: NamedSooner(src, defs, n, found[k], found[l]))
  }

  ghost predicate NamedSooner(src: Source, defs: seq<Definition>, n: nat, x: DeclId, y: DeclId) {
    exists i: nat :: i < n && AliasedAt(src, defs, i, x) && forall j: nat | AliasedAt(src, defs, j, y) :: i < j
  }

  lemma {:induction false} TargetsInOrder(src: Source, defs: seq<Definition>, n: nat, found: seq<DeclId>)
    requires n <= |defs| && InOrderNamed(src, defs, n, found)
    ensures InOrderNamed(src, defs, |defs|, TargetsFrom(src, defs[n..], found))
    decreases |defs| - n
  {
    if n < |defs| {
      assert defs[n..][0] == defs[n] && defs[n..][1..] == defs[n + 1..];
      var more := if defs[n].ConstantAliasDef? && Target(src, defs[n].target).Some? && Target(src, defs[n].target).value !in found
        then [Target(src, defs[n].target).value] else [];
      assert found + [] == found;
      assert TargetsFrom(src, defs[n..], found) == TargetsFrom(src, defs[n + 1..], found + more);
      OneMoreNamed(src, defs, n, found, more);
      TargetsInOrder(src, defs, n + 1, found + more);
    }
  }

  lemma OneMoreNamed(src: Source, defs: seq<Definition>, n: nat, found: seq<DeclId>, more: seq<DeclId>)
    requires n < |defs| && InOrderNamed(src, defs, n, found)
    requires more == if defs[n].ConstantAliasDef? && Target(src, defs[n].target).Some? && Target(src, defs[n].target).value !in found
      then [Target(src, defs[n].target).value] else []
    ensures InOrderNamed(src, defs, n + 1, found + more)
  {
    forall x ensures x in found + more <==> exists i: nat :: i < n + 1 && AliasedAt(src, defs, i, x) {
      if AliasedAt(src, defs, n, x) && x !in found { assert more == [x]; }
      assert more != [] ==> AliasedAt(src, defs, n, more[0]);
    }
    hide Target;
    forall k, l | 0 <= k < l < |found + more| ensures NamedSooner(src, defs, n + 1, (found + more)[k], (found + more)[l]) {
      var x, y := (found + more)[k], (found + more)[l];
      if l < |found| {
        assert NamedSooner(src, defs, n, x, y);
      } else {
        assert |more| == 1 && l == |found| && x == found[k] && y == more[0];
        assert x in found;
        assert y !in found;
        var i: nat :| i < n && AliasedAt(src, defs, i, x);
        assert forall j: nat | AliasedAt(src, defs, j, y) :: j >= n;
      }
    }
  }

  /** An alias leads to what its definitions name, each target once, in the order they are first named. */
  lemma TargetsAreWritten(src: Source, d: DeclId)
    ensures IsAlias(src, d) ==> InOrderNamed(src, DefinitionsOf(src, d), |DefinitionsOf(src, d)|, AliasTargets(src, d))
    ensures !IsAlias(src, d) ==> AliasTargets(src, d) == []
  {
    TargetsInOrder(src, DefinitionsOf(src, d), 0, []);
    assert DefinitionsOf(src, d)[0..] == DefinitionsOf(src, d);
  }

  /** `resolve_alias_chains` */
  method ResolveAliasChains(src: Source, d: DeclId) returns (results: seq<DeclId>)
    ensures results == AliasChains(src, d)
  {
    results := [];
    var queue := [d];
    var seen: set<DeclId> := {};
    hide Walk, AliasIds, AliasTargets, IsEnd;
    while queue != []
      invariant results + Walk(src, queue, seen) == AliasChains(src, d)
      decreases |AliasIds(src) - seen|, |queue|
    {
      var current, rest := queue[0], queue[1..];
      WalkHead(src, queue, seen);
      SeenShrinks(src, seen, current);
      if current in seen {
        queue := rest;
      } else {
        seen := seen + {current};
        var targets := CollectTargets(src, current);
        if targets == [] {
          Regroup(results, [current], Walk(src, rest, seen));
          results := results + [current];
          queue := rest;
        } else {
          queue := rest + targets;
        }
      }
    }
    WalkNothing(src, seen);
  }

  lemma WalkHead(src: Source, queue: seq<DeclId>, seen: set<DeclId>)
    requires queue != []
    ensures IsEnd(src, queue[0]) <==> AliasTargets(src, queue[0]) == []
    ensures Walk(src, queue, seen) ==
      if queue[0] in seen then Walk(src, queue[1..], seen)
      else if IsEnd(src, queue[0]) then [queue[0]] + Walk(src, queue[1..], seen + {queue[0]})
      else Walk(src, queue[1..] + AliasTargets(src, queue[0]), seen + {queue[0]})
  {
    assert queue == [queue[0]] + queue[1..];
    WalkStep(src, queue[0], queue[1..], seen);
  }

  lemma WalkNothing(src: Source, seen: set<DeclId>)
    ensures Walk(src, [], seen) == []
  {
  }
}
