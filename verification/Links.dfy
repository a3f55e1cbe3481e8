/** Singleton classes that exist without being linked: asking for one overwrites it, and this can happen only a
    bounded number of times. */
module Links {
  import opened Declarations
  import opened Aliases
  import opened Graphs

  ghost function LostAt(lost: set<DeclId>, level: nat): set<DeclId> {
    set d | d in lost && Level(d) == level
  }

  /** Counts the declarations below level `top` that have lost their singleton class, those further down twice as
      much for each level. */
  ghost function Weight(lost: set<DeclId>, top: nat): nat {
    if top == 0 then 0 else 2 * (Weight(lost, top - 1) + |LostAt(lost, top - 1)|)
  }

  lemma {:induction false} WeightGrows(lost: set<DeclId>, low: nat, top: nat)
    requires low <= top
    ensures Weight(lost, low) <= Weight(lost, top)
    decreases top
  {
    if low < top { WeightGrows(lost, low, top - 1); }
  }

  lemma {:induction false} NoWeight(top: nat)
    ensures Weight({}, top) == 0
  {
    assert forall l: nat :: LostAt({}, l) == {};
    if top > 0 { NoWeight(top - 1); }
  }

  /** Overwriting the singleton class of `d` gives `d` its link back, and takes that of the overwritten class away. */
  lemma ResetLost(g: Graph, d: DeclId)
    requires d in Lost(g)
    ensures var h := GetOrCreateSingleton(g, d).0;
      && d !in Lost(h) && h.reset == g.reset + [SingletonOf(d, None)]
      && (forall x | x != d && x != SingletonOf(d, None) :: x in Lost(h) <==> x in Lost(g))
  {
  }

  /** So the weight goes down, whatever lies above. */
  lemma {:induction false} ResetLightens(g: Graph, d: DeclId, top: nat)
    requires d in Lost(g) && Level(d) < top
    ensures Weight(Lost(GetOrCreateSingleton(g, d).0), top) + 2 <= Weight(Lost(g), top)
    decreases top
  {
    var h, l := GetOrCreateSingleton(g, d).0, top - 1;
    ResetLost(g, d);
    hide Lost, GetOrCreateSingleton, LostAt;
    if Level(d) == l {
      SameBelow(Lost(g), Lost(h), d, l);
      OneLess(Lost(g), Lost(h), d);
    } else {
      ResetLightens(g, d, l);
      OneMoreAbove(Lost(g), Lost(h), d, l);
    }
  }

  lemma {:induction false} SameBelow(a: set<DeclId>, b: set<DeclId>, d: DeclId, top: nat)
    requires top <= Level(d)
    requires forall x | x != d && x != SingletonOf(d, None) :: x in b <==> x in a
    ensures Weight(b, top) == Weight(a, top)
    decreases top
  {
    if top > 0 {
      SameBelow(a, b, d, top - 1);
      assert LostAt(b, top - 1) == LostAt(a, top - 1);
    }
  }

  lemma OneLess(a: set<DeclId>, b: set<DeclId>, d: DeclId)
    requires d in a && d !in b && forall x | x != d && x != SingletonOf(d, None) :: x in b <==> x in a
    ensures |LostAt(b, Level(d))| + 1 == |LostAt(a, Level(d))|
  {
    assert LostAt(b, Level(d)) == LostAt(a, Level(d)) - {d};
    assert d in LostAt(a, Level(d));
  }

  lemma OneMoreAbove(a: set<DeclId>, b: set<DeclId>, d: DeclId, level: nat)
    requires Level(d) < level && forall x | x != d && x != SingletonOf(d, None) :: x in b <==> x in a
    ensures |LostAt(b, level)| <= |LostAt(a, level)| + if level == Level(d) + 1 then 1 else 0
  {
    var s := SingletonOf(d, None);
    if level == Level(d) + 1 {
      Subset(LostAt(b, level), LostAt(a, level) + {s});
      if s in LostAt(a, level) { assert LostAt(a, level) + {s} == LostAt(a, level); }
    } else {
      assert LostAt(b, level) == LostAt(a, level);
    }
  }

  /** Making a singleton class that did not exist changes nothing here. */
  lemma MakingLosesNothing(src: Source, g: Graph, d: DeclId)
    requires SingletonsLinked(src, g) && d in g.ns && d !in Lost(g)
    ensures var h := GetOrCreateSingleton(g, d).0; Lost(h) == Lost(g) && h.reset == g.reset
  {
    var s := SingletonOf(d, None);
    var h := GetOrCreateSingleton(g, d).0;
    if g.ns[d].singleton.None? {
      assert s !in g.ns;
      assert SingletonOf(s, None) !in g.ns;
      forall x ensures x in Lost(h) <==> x in Lost(g) {
        assert x != d ==> SingletonOf(x, None) != s;
      }
    }
  }

  ghost predicate Lighter(g: Graph, h: Graph, top: nat) {
    forall t: nat | t >= top :: Weight(Lost(h), t) < Weight(Lost(g), t)
  }

  ghost predicate SameLoss(g: Graph, h: Graph) {
    Lost(h) == Lost(g) && h.reset == g.reset
  }

  /** `h` has every namespace of `g` with the same chain and descendants; what else it has is new. */
  ghost predicate OnlyCreates(g: Graph, h: Graph) {
    && g.ns.Keys <= h.ns.Keys
    && (forall d | d in g.ns :: h.ns[d].ancestors == g.ns[d].ancestors && h.ns[d].descendants == g.ns[d].descendants)
    && (forall d | d in h.ns && d !in g.ns :: h.ns[d].ancestors == Partial([]) && h.ns[d].descendants == {})
  }

  /** Singleton classes have been asked for: all were there or new, or one was overwritten. */
  ghost predicate Asked(g: Graph, h: Graph, top: nat) {
    && g.ns.Keys <= h.ns.Keys
    && ((OnlyCreates(g, h) && SameLoss(g, h)) || Lighter(g, h, top))
  }

  lemma MakingOnlyCreates(g: Graph, d: DeclId)
    requires d in g.ns && d !in Lost(g)
    ensures OnlyCreates(g, GetOrCreateSingleton(g, d).0)
  {
  }

  lemma AskedOne(src: Source, g: Graph, d: DeclId, top: nat)
    requires SingletonsLinked(src, g) && d in g.ns && Level(d) < top
    ensures Asked(g, GetOrCreateSingleton(g, d).0, top)
  {
    var h := GetOrCreateSingleton(g, d).0;
    assert g.ns.Keys <= h.ns.Keys;
    hide *;
    if d in Lost(g) {
      ResetIsLighter(g, d, top);
      IsAsked(g, h, top);
    } else {
      MakingOnlyCreates(g, d);
      MakingLosesNothing(src, g, d);
      IsAsked(g, h, top);
    }
  }

  lemma IsAsked(g: Graph, h: Graph, top: nat)
    requires g.ns.Keys <= h.ns.Keys
    requires (OnlyCreates(g, h) && Lost(h) == Lost(g) && h.reset == g.reset) || Lighter(g, h, top)
    ensures Asked(g, h, top)
  {
    hide Lost, Lighter;
  }

  lemma ResetIsLighter(g: Graph, d: DeclId, top: nat)
    requires d in Lost(g) && Level(d) < top
    ensures Lighter(g, GetOrCreateSingleton(g, d).0, top)
  {
    var h := GetOrCreateSingleton(g, d).0;
    hide Weight, Lost, GetOrCreateSingleton;
    forall t: nat | t >= top ensures Weight(Lost(h), t) < Weight(Lost(g), t) { ResetLightens(g, d, t); }
  }

  lemma LighterHigher(g: Graph, h: Graph, low: nat, top: nat)
    requires Lighter(g, h, low) && low <= top
    ensures Lighter(g, h, top)
  {
  }

  lemma AskedThen(g: Graph, h: Graph, k: Graph, low: nat, top: nat)
    requires Asked(g, h, low) && Asked(h, k, top) && low <= top
    ensures Asked(g, k, top)
  {
    if Lighter(g, h, low) { LighterHigher(g, h, low, top); }
    hide Weight, Lost;
  }

  lemma AskedNothing(g: Graph, top: nat)
    ensures Asked(g, g, top)
  {
    hide Weight, Lost;
  }

  /** A graph with nothing to lose stays so. */
  lemma IntactStays(g: Graph, h: Graph, top: nat)
    requires Intact(g) && (SameLoss(g, h) || Lighter(g, h, top))
    ensures Intact(h) && SameLoss(g, h)
  {
    NoWeight(top);
    hide Weight;
  }
}
