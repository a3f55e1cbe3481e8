/** The order of a chain: what was included or prepended last comes first, and a module's own order is kept. */
module ChainOrder {
  import opened Declarations
  import opened Graphs
  import opened Links
  import opened Hierarchy
  import opened Linearization
  import opened PlainChains
  import opened ChainContents

  ghost predicate Before(chain: seq<Ancestor>, a: Ancestor, b: Ancestor) {
    exists i, j :: 0 <= i < j < |chain| && chain[i] == a && chain[j] == b
  }

  lemma BeforeAcross(left: seq<Ancestor>, right: seq<Ancestor>, a: Ancestor, b: Ancestor)
    requires a in left && b in right
    ensures Before(left + right, a, b)
  {
    var i :| 0 <= i < |left| && left[i] == a;
    var j :| 0 <= j < |right| && right[j] == b;
    assert (left + right)[i] == a && (left + right)[|left| + j] == b;
  }

  lemma BeforeWithin(left: seq<Ancestor>, mid: seq<Ancestor>, right: seq<Ancestor>, a: Ancestor, b: Ancestor)
    requires Before(mid, a, b)
    ensures Before(left + mid + right, a, b)
  {
    var i, j :| 0 <= i < j < |mid| && mid[i] == a && mid[j] == b;
    var all := left + mid + right;
    assert all[|left| + i] == a && all[|left| + j] == b;
  }

  lemma {:induction false} WithoutKeepsOrder(ids: seq<Ancestor>, excluded: seq<Ancestor>, a: Ancestor, b: Ancestor)
    requires Before(ids, a, b) && a !in excluded && b !in excluded
    ensures Before(Without(ids, excluded), a, b)
    decreases |ids|
  {
    var i, j :| 0 <= i < j < |ids| && ids[i] == a && ids[j] == b;
    var first, rest := (if ids[0] in excluded then [] else [ids[0]]), Without(ids[1..], excluded);
    if i > 0 {
      assert ids[1..][i - 1] == a && ids[1..][j - 1] == b;
      WithoutKeepsOrder(ids[1..], excluded, a, b);
      BeforeWithin(first, rest, [], a, b);
      assert first + rest + [] == Without(ids, excluded);
    } else {
      WithoutContents(ids[1..], excluded);
      assert ids[1..][j - 1] == b;
      BeforeAcross(first, rest, a, b);
    }
  }

  /** The chain of `d` when these mixins have been applied on top of its parent's chain. */
  ghost function ChainWith(src: Source, d: DeclId, mixins: seq<Mixin>, parents: seq<Ancestor>, n: nat): seq<Ancestor>
    requires ModulesGrounded(src, mixins, n)
  {
    var (prepends, includes) := PlainMixins(src, mixins, parents, [], [], n);
    Assemble(d, prepends, includes, parents)
  }

  lemma PlainIsChainWith(src: Source, d: DeclId, n: nat)
    requires Grounded(src, d, n)
    ensures n > 0 && ModulesGrounded(src, MixinList(src, d), n - 1)
    ensures ParentOf(src, d).Some? ==> Grounded(src, ParentOf(src, d).value, n - 1)
    ensures Plain(src, d, n) == ChainWith(src, d, MixinList(src, d), PlainParents(src, d, n), n - 1)
  {
    ChildrenGrounded(src, d, n);
  }

  lemma OneMore(src: Source, mixins: seq<Mixin>, last: Mixin, mod: DeclId, parents: seq<Ancestor>, n: nat)
    requires ModulesGrounded(src, mixins, n) && ModuleOf(src, last) == Some(mod) && Grounded(src, mod, n)
    ensures ModulesGrounded(src, mixins + [last], n)
    ensures var (pre, inc) := PlainMixins(src, mixins, parents, [], [], n);
      PlainMixins(src, mixins + [last], parents, [], [], n) ==
        if last.Prepend? then (AddPrepend(pre, Plain(src, mod, n)), inc)
        else (pre, AddInclude(pre, inc, parents, Plain(src, mod, n)))
  {
    var (pre, inc) := PlainMixins(src, mixins, parents, [], [], n);
    OneMixin(src, last, mod, parents, pre, inc, n);
    PlainMixinsAppend(src, mixins, last, parents, [], [], n);
  }

  lemma IncludeOrder(pre: seq<Ancestor>, self: Ancestor, novel: seq<Ancestor>, inc: seq<Ancestor>, parents: seq<Ancestor>,
                     a: Ancestor, b: Ancestor)
    requires a in novel
    ensures var chain := pre + [self] + (novel + inc) + parents;
      && Before(chain, self, a)
      && (b in inc || b in parents ==> Before(chain, a, b))
      && (Before(novel, a, b) ==> Before(chain, a, b))
  {
    hide Before;
    var chain := pre + [self] + (novel + inc) + parents;
    assert chain == (pre + [self]) + (novel + inc + parents);
    BeforeAcross(pre + [self], novel + inc + parents, self, a);
    if b in inc || b in parents {
      assert chain == (pre + [self] + novel) + (inc + parents);
      BeforeAcross(pre + [self] + novel, inc + parents, a, b);
    }
    if Before(novel, a, b) {
      assert chain == (pre + [self]) + novel + (inc + parents);
      BeforeWithin(pre + [self], novel, inc + parents, a, b);
    }
  }

  /** What the last include brings in new stands right behind the declaration: before everything included
      earlier and before the parent's chain, and in the order of the module's own chain. */
  lemma LastIncludeComesFirst(src: Source, d: DeclId, mixins: seq<Mixin>, last: Mixin, mod: DeclId,
                              parents: seq<Ancestor>, n: nat, a: Ancestor, b: Ancestor)
    requires ModulesGrounded(src, mixins, n) && ModuleOf(src, last) == Some(mod) && Grounded(src, mod, n)
    requires !last.Prepend?
    requires a in Plain(src, mod, n) && a !in ChainWith(src, d, mixins, parents, n)
    ensures ModulesGrounded(src, mixins + [last], n)
    ensures var chain := ChainWith(src, d, mixins + [last], parents, n);
      var (prepends, includes) := PlainMixins(src, mixins, parents, [], [], n);
      && Before(chain, Known(d), a)
      && (b in includes || b in parents ==> Before(chain, a, b))
      && (Before(Plain(src, mod, n), a, b) && b !in ChainWith(src, d, mixins, parents, n) ==> Before(chain, a, b))
  {
    hide Plain, PlainMixins, Without, Before, Grounded, ModulesGrounded, ModuleOf;
    OneMore(src, mixins, last, mod, parents, n);
    var (pre, inc) := PlainMixins(src, mixins, parents, [], [], n);
    var ids := Plain(src, mod, n);
    var known := pre + inc + parents;
    WithoutContents(ids, known);
    IncludeOrder(pre, Known(d), Without(ids, known), inc, parents, a, b);
    if Before(ids, a, b) && b !in known { WithoutKeepsOrder(ids, known, a, b); }
  }

  lemma PrependOrder(ids: seq<Ancestor>, kept: seq<Ancestor>, self: Ancestor, rest: seq<Ancestor>, a: Ancestor, b: Ancestor)
    requires a in ids
    ensures var chain := ids + kept + [self] + rest;
      && ids <= chain && Before(chain, a, self)
      && (b in kept ==> Before(chain, a, b) && Before(chain, b, self))
  {
    hide Before;
    var chain := ids + kept + [self] + rest;
    assert chain == ids + (kept + [self] + rest);
    BeforeAcross(ids, kept + [self] + rest, a, self);
    if b in kept {
      BeforeAcross(ids, kept + [self] + rest, a, b);
      assert chain == (ids + kept) + ([self] + rest);
      BeforeAcross(ids + kept, [self] + rest, b, self);
    }
  }

  /** A prepend that brings in anything new puts the module's whole chain in front: before everything that
      was prepended earlier and is not part of it, and before the declaration. */
  lemma LastPrependComesFirst(src: Source, d: DeclId, mixins: seq<Mixin>, last: Mixin, mod: DeclId,
                              parents: seq<Ancestor>, n: nat, novel: Ancestor, a: Ancestor, b: Ancestor)
    requires ModulesGrounded(src, mixins, n) && ModuleOf(src, last) == Some(mod) && Grounded(src, mod, n)
    requires last.Prepend?
    requires novel in Plain(src, mod, n) && novel !in PlainMixins(src, mixins, parents, [], [], n).0
    requires a in Plain(src, mod, n)
    ensures ModulesGrounded(src, mixins + [last], n)
    ensures var chain := ChainWith(src, d, mixins + [last], parents, n);
      var (prepends, includes) := PlainMixins(src, mixins, parents, [], [], n);
      && Plain(src, mod, n) <= chain
      && Before(chain, a, Known(d))
      && (b in prepends && b !in Plain(src, mod, n) ==> Before(chain, a, b) && Before(chain, b, Known(d)))
  {
    hide Plain, PlainMixins, Without, Before, Grounded, ModulesGrounded, ModuleOf;
    OneMore(src, mixins, last, mod, parents, n);
    var (pre, inc) := PlainMixins(src, mixins, parents, [], [], n);
    var ids := Plain(src, mod, n);
    WithoutContents(pre, ids);
    PrependOrder(ids, Without(pre, ids), Known(d), inc + parents, a, b);
    assert ChainWith(src, d, mixins + [last], parents, n) == ids + Without(pre, ids) + [Known(d)] + (inc + parents);
  }
}
