/** Whole runs: any number of `ancestors_of` calls, for any declarations in any order. */
module Runs {
  import opened Declarations
  import opened Aliases
  import opened Graphs
  import opened Links
  import opened Hierarchy
  import opened Linearization
  import opened PlainChains
  import opened Steps
  import opened Correctness
  import opened Completeness
  import opened Descendants
  import opened ChainContents

  ghost function Run(src: Source, g: Graph, ds: seq<DeclId>): (h: Graph)
    requires Ready(src, g) && forall d | d in ds :: d in g.ns
    ensures Ready(src, h) && g.ns.Keys <= h.ns.Keys
    decreases |ds|
  {
    if ds == [] then g else
      hide Usable, Intact;
      Run(src, AncestorsOf(src, g, ds[0]).g, ds[1..])
  }

  ghost predicate Sound(src: Source, g: Graph) {
    Anchored(src, g) && Correct(src, g)
  }

  /** On every graph and in every run, sound caches stay sound and finished chains stay as they are. */
  lemma {:induction false} RunSound(src: Source, g: Graph, ds: seq<DeclId>)
    requires Ready(src, g) && (forall d | d in ds :: d in g.ns) && Sound(src, g)
    ensures Sound(src, Run(src, g, ds)) && FinishedKept(g, Run(src, g, ds))
    decreases |ds|
  {
    hide Usable, Intact, Anchored, Correct, AncestorsOf, CanSucceed, RightIds;
    if ds != [] {
      FreshCallOutcome(src, g, ds[0]);
      RunSound(src, AncestorsOf(src, g, ds[0]).g, ds[1..]);
    }
  }

  /** What a complete chain guarantees: it is the plain one, lists declarations only, every declaration it
      lists has a complete chain too, and no walk along superclass and mixin edges comes back. */
  lemma CompleteChain(src: Source, g: Graph, d: DeclId) returns (n: nat)
    requires Sound(src, g) && HasComplete(g, d)
    ensures Grounded(src, d, n) && g.ns[d].ancestors.ids == Plain(src, d, n)
    ensures forall a | a in g.ns[d].ancestors.ids :: a.Known? && HasComplete(g, a.id)
    ensures forall p | Path(src, p) && |p| > 1 && p[0] == d :: p[|p| - 1] != d
  {
    assert Anchor(src, g, d);
    n :| Grounded(src, d, n);
    RightIsPlain(src, d, g.ns[d].ancestors.ids, n);
    hide Correct;
    forall a | a in g.ns[d].ancestors.ids ensures a.Known? && HasComplete(g, a.id) {
      var p := ChainHasPath(src, d, n, a);
      PathComplete(src, g, p);
    }
    forall p | Path(src, p) && |p| > 1 && p[0] == d ensures p[|p| - 1] != d {
      NoWayBack(src, p, n);
    }
  }

  lemma {:induction false} PathComplete(src: Source, g: Graph, p: seq<DeclId>)
    requires Anchored(src, g) && Path(src, p) && HasComplete(g, p[0])
    ensures HasComplete(g, p[|p| - 1])
    decreases |p|
  {
    if |p| > 1 {
      assert Anchor(src, g, p[0]) && p[1] in Children(src, p[0]);
      assert Path(src, p[1..]);
      PathComplete(src, g, p[1..]);
    }
  }

  lemma NoWayBack(src: Source, p: seq<DeclId>, n: nat)
    requires Path(src, p) && |p| > 1 && Grounded(src, p[0], n)
    ensures p[|p| - 1] != p[0]
  {
    assert p[1] in Children(src, p[0]) && Path(src, p[1..]);
    ChildrenGrounded(src, p[0], n);
    PathInChain(src, p[1..], n - 1);
    NotInChildren(src, p[0], n, p[1]);
  }

  // ---- resolved acyclic hierarchies ----

  ghost predicate NoMarks(g: Graph) {
    forall d | d in g.ns :: !g.ns[d].ancestors.Cyclic?
  }

  lemma {:induction false} NoMarksBelow(src: Source, g: Graph, d: DeclId, n: nat)
    requires NoMarks(g)
    ensures Unmarked(src, g, d, n)
    decreases n
  {
    if n > 0 { forall e | e in Children(src, d) ensures Unmarked(src, g, e, n - 1) { NoMarksBelow(src, g, e, n - 1); } }
  }

  lemma FreshCallSucceeds(src: Source, g: Graph, d: DeclId)
    requires Ready(src, g) && d in g.ns && Sound(src, g) && NoMarks(g) && Mirrored(g) && WellFounded(src, d)
    ensures var h := AncestorsOf(src, g, d).g;
      Sound(src, h) && NoMarks(h) && Mirrored(h) && HasComplete(h, d) && FinishedKept(g, h)
  {
    hide Usable, Intact, Anchored, Correct, Linearize, Mirrored, FinishedKept, RightIds;
    FreshCallOutcome(src, g, d);
    var n: nat :| Grounded(src, d, n);
    NoMarksBelow(src, g, d, n);
    LinearizeSucceeds(src, g, FRESH, d, n);
    AncestorsOfMirrors(src, g, d, n);
  }

  /** Over resolved acyclic hierarchies a run gives every declaration it is asked for its complete plain
      chain, whatever sound caches it starts from, and keeps the inverse index exact. */
  lemma {:induction false} RunSucceeds(src: Source, g: Graph, ds: seq<DeclId>)
    requires Ready(src, g) && (forall d | d in ds :: d in g.ns && WellFounded(src, d))
    requires Sound(src, g) && NoMarks(g) && Mirrored(g)
    ensures var h := Run(src, g, ds);
      && Sound(src, h) && NoMarks(h) && Mirrored(h) && FinishedKept(g, h)
      && (forall d | d in ds :: HasComplete(h, d))
    decreases |ds|
  {
    hide Usable, Intact, Sound, Mirrored, NoMarks, AncestorsOf, WellFounded;
    if ds != [] {
      FreshCallSucceeds(src, g, ds[0]);
      var g1 := AncestorsOf(src, g, ds[0]).g;
      RunSucceeds(src, g1, ds[1..]);
      assert ds == [ds[0]] + ds[1..];
    }
  }

  /** Neither the order of the calls nor the caches they start from show in a complete chain. */
  lemma OrderDoesNotMatter(src: Source, g: Graph, ds: seq<DeclId>, g': Graph, ds': seq<DeclId>, d: DeclId)
    requires Ready(src, g) && (forall x | x in ds :: x in g.ns) && Sound(src, g)
    requires Ready(src, g') && (forall x | x in ds' :: x in g'.ns) && Sound(src, g')
    requires HasComplete(Run(src, g, ds), d) && HasComplete(Run(src, g', ds'), d)
    ensures Run(src, g, ds).ns[d].ancestors == Run(src, g', ds').ns[d].ancestors
  {
    hide Usable, Intact, Sound, Run, FinishedKept;
    RunSound(src, g, ds);
    RunSound(src, g', ds');
    var n := CompleteChain(src, Run(src, g, ds), d);
    var m := CompleteChain(src, Run(src, g', ds'), d);
    PlainUnique(src, d, n, m);
  }

  /** A graph in which nothing has been linearized yet. */
  ghost predicate Untouched(g: Graph) {
    forall d | d in g.ns :: g.ns[d].ancestors == Partial([]) && g.ns[d].descendants == {}
  }

  lemma UntouchedSound(src: Source, g: Graph)
    requires Untouched(g)
    ensures Sound(src, g) && NoMarks(g) && Mirrored(g)
  {
  }
}
