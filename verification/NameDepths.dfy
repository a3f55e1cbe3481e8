/** The depth by which names are sorted for resolution. */
module NameDepths {
  import opened Declarations
  import opened Names

  /** The names `id` is built from exist, down to a height of at most `h`. */
  ghost predicate Rooted(names: map<NameId, Name>, id: NameId, h: nat)
    decreases h
  {
    && h > 0 && id in names
    && (ScopeId(names[id].parentScope).Some? ==> Rooted(names, ScopeId(names[id].parentScope).value, h - 1))
    && (names[id].nesting.Some? ==> Rooted(names, names[id].nesting.value, h - 1))
  }

  ghost function Depth(names: map<NameId, Name>, id: NameId, h: nat): nat
    requires Rooted(names, id, h)
    decreases h
  {
    var name := names[id];
    if name.parentScope.TopLevel? then 1
    else
      var scope := ScopeId(name.parentScope);
      (if scope.Some? then Depth(names, scope.value, h - 1) else 0)
      + (if name.nesting.Some? then Depth(names, name.nesting.value, h - 1) else 0) + 1
  }

  lemma {:induction false} DepthFixed(names: map<NameId, Name>, id: NameId, h: nat, k: nat)
    requires Rooted(names, id, h) && Rooted(names, id, k)
    ensures Depth(names, id, h) == Depth(names, id, k)
    decreases h
  {
    var name := names[id];
    var scope := ScopeId(name.parentScope);
    if scope.Some? { DepthFixed(names, scope.value, h - 1, k - 1); }
    if name.nesting.Some? { DepthFixed(names, name.nesting.value, h - 1, k - 1); }
  }

  lemma {:induction false} RootedMore(names: map<NameId, Name>, id: NameId, h: nat)
    requires Rooted(names, id, h)
    ensures Rooted(names, id, h + 1)
    decreases h
  {
    var name := names[id];
    var scope := ScopeId(name.parentScope);
    if scope.Some? { RootedMore(names, scope.value, h - 1); }
    if name.nesting.Some? { RootedMore(names, name.nesting.value, h - 1); }
  }

  ghost predicate AllRooted(names: map<NameId, Name>, h: nat) {
    forall id | id in names :: Rooted(names, id, h)
  }

  ghost predicate CacheRight(names: map<NameId, Name>, cache: map<NameId, nat>, h: nat)
    requires AllRooted(names, h)
  {
    forall id | id in cache :: id in names && cache[id] == Depth(names, id, h)
  }

  /** `name_depth`: the cache may hold any right entries. */
  method NameDepth(names: map<NameId, Name>, id: NameId, cache: map<NameId, nat>, ghost h: nat, ghost k: nat)
      returns (depth: nat, cache': map<NameId, nat>)
    requires AllRooted(names, h) && CacheRight(names, cache, h) && Rooted(names, id, k)
    ensures depth == Depth(names, id, h)
    ensures CacheRight(names, cache', h) && cache'.Keys >= cache.Keys + {id}
    decreases k
  {
    if id in cache { return cache[id], cache; }
    var name := names[id];
    cache' := cache;
    if name.parentScope.TopLevel? {
      depth := 1;
    } else {
      var parentDepth, nestingDepth := 0, 0;
      var scope := ScopeId(name.parentScope);
      if scope.Some? {
        parentDepth, cache' := NameDepth(names, scope.value, cache', h, k - 1);
        DepthFixed(names, scope.value, h, h - 1);
      }
      if name.nesting.Some? {
        nestingDepth, cache' := NameDepth(names, name.nesting.value, cache', h, k - 1);
        DepthFixed(names, name.nesting.value, h, h - 1);
      }
      depth := parentDepth + nestingDepth + 1;
    }
    cache' := cache'[id := depth];
  }

  /** `compute_name_depths`: every name gets its plain recursive depth, in whatever order the map is walked. */
  method ComputeNameDepths(names: map<NameId, Name>, ghost h: nat) returns (cache: map<NameId, nat>)
    requires AllRooted(names, h)
    ensures cache.Keys == names.Keys && forall id | id in names :: cache[id] == Depth(names, id, h)
  {
    cache := map[];
    var left := names.Keys;
    while left != {}
      invariant left <= names.Keys && names.Keys - left <= cache.Keys
      invariant CacheRight(names, cache, h)
      decreases left
    {
      var id :| id in left;
      left := left - {id};
      var depth;
      depth, cache := NameDepth(names, id, cache, h, h);
    }
  }

  // ---- what the depth is good for ----

  /** `a` cannot be resolved before `b`. */
  predicate DependsOn(names: map<NameId, Name>, a: NameId, b: NameId) {
    a in names && !names[a].parentScope.TopLevel? && (ScopeId(names[a].parentScope) == Some(b) || names[a].nesting == Some(b))
  }

  lemma DeeperThanDependencies(names: map<NameId, Name>, a: NameId, b: NameId, h: nat)
    requires AllRooted(names, h) && DependsOn(names, a, b)
    ensures b in names && Depth(names, b, h) < Depth(names, a, h)
  {
    assert Rooted(names, a, h) && Rooted(names, b, h - 1);
    DepthFixed(names, b, h, h - 1);
  }

  /** The names that are looked at first are those that wait for nothing. */
  lemma DepthOneExactly(names: map<NameId, Name>, a: NameId, h: nat)
    requires Rooted(names, a, h)
    ensures Depth(names, a, h) > 0
    ensures Depth(names, a, h) == 1 <==> forall b :: !DependsOn(names, a, b)
  {
    var name := names[a];
    var scope := ScopeId(name.parentScope);
    if !name.parentScope.TopLevel? && scope.Some? {
      assert DependsOn(names, a, scope.value) && Depth(names, scope.value, h - 1) > 0;
    }
    if !name.parentScope.TopLevel? && name.nesting.Some? {
      assert DependsOn(names, a, name.nesting.value) && Depth(names, name.nesting.value, h - 1) > 0;
    }
  }

  ghost predicate DependencyChain(names: map<NameId, Name>, p: seq<NameId>) {
    forall i | 0 <= i < |p| - 1 :: DependsOn(names, p[i], p[i + 1])
  }

  lemma {:induction false} ChainDeepens(names: map<NameId, Name>, p: seq<NameId>, h: nat)
    requires AllRooted(names, h) && |p| > 1 && DependencyChain(names, p)
    ensures p[0] in names && p[|p| - 1] in names && Depth(names, p[|p| - 1], h) < Depth(names, p[0], h)
    decreases |p|
  {
    DeeperThanDependencies(names, p[0], p[1], h);
    if |p| > 2 {
      assert p[1..][|p| - 2] == p[|p| - 1];
      ChainDeepens(names, p[1..], h);
    }
  }

  /** A queue sorted by depth is in dependency order: whatever a name builds on, directly or not, stands
      before it. */
  lemma SortedByDepthIsTopological(names: map<NameId, Name>, queue: seq<NameId>, depths: map<NameId, nat>, h: nat,
                                   i: nat, j: nat, p: seq<NameId>)
    requires AllRooted(names, h) && depths.Keys == names.Keys
    requires forall id | id in names :: depths[id] == Depth(names, id, h)
    requires forall q | q in queue :: q in names
    requires forall a, b | 0 <= a < b < |queue| :: depths[queue[a]] <= depths[queue[b]]
    requires i < |queue| && j < |queue|
    requires |p| > 1 && DependencyChain(names, p) && p[0] == queue[i] && p[|p| - 1] == queue[j]
    ensures j < i
  {
    ChainDeepens(names, p, h);
  }

  function Pow2(n: nat): (p: nat)
    ensures p > 0
  {
    if n == 0 then 1 else 2 * Pow2(n - 1)
  }

  lemma {:induction false} DepthBound(names: map<NameId, Name>, id: NameId, h: nat)
    requires Rooted(names, id, h)
    ensures 1 <= Depth(names, id, h) <= Pow2(h) - 1
    decreases h
  {
    var name := names[id];
    var scope := ScopeId(name.parentScope);
    if scope.Some? { DepthBound(names, scope.value, h - 1); }
    if name.nesting.Some? { DepthBound(names, name.nesting.value, h - 1); }
  }

  lemma {:induction false} Pow2Monotone(n: nat, m: nat)
    requires n <= m
    ensures Pow2(n) <= Pow2(m)
  {
    if n < m { Pow2Monotone(n, m - 1); }
    else if n > 0 { Pow2Monotone(n - 1, m - 1); }
  }

  /** Depths fit into 32 bits for names of height up to 32. */
  lemma DepthsFit(names: map<NameId, Name>, id: NameId, h: nat)
    requires Rooted(names, id, h) && h <= 32
    ensures Depth(names, id, h) < 0x1_0000_0000
  {
    DepthBound(names, id, h);
    Pow2Monotone(h, 32);
    assert Pow2(8) == 0x100;
    assert Pow2(12) == 0x1000;
    assert Pow2(16) == 0x1_0000;
    assert Pow2(20) == 0x10_0000;
    assert Pow2(24) == 0x100_0000;
    assert Pow2(28) == 0x1000_0000;
    assert Pow2(32) == 0x1_0000_0000;
  }

  /** Names that use their predecessor both as scope and as nesting reach the bound. */
  function Doubled(k: nat): Name {
    if k == 0 then Name(0, NoScope, None) else Name(0, Scope(k - 1), Some(k - 1))
  }

  function Doubling(n: nat): map<NameId, Name> {
    map k: nat | 0 <= k < n :: k := Doubled(k)
  }

  lemma {:induction false} DoublingReachesBound(n: nat, k: nat)
    requires k < n
    ensures Rooted(Doubling(n), k, k + 1) && Depth(Doubling(n), k, k + 1) == Pow2(k + 1) - 1
    decreases k
  {
    if k > 0 { DoublingReachesBound(n, k - 1); }
  }
}
