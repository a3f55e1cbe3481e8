/** What a name resolves to: which declaration comes out of every form of a name, told by the entries of the chains and
    scopes that are searched. */
module FoundConstants {
  import opened Declarations
  import opened Names
  import opened NameDepths
  import opened Aliases
  import opened AliasWalks
  import opened PrimaryTargets
  import opened Graphs
  import opened Links
  import opened Hierarchy
  import opened Linearization
  import opened Lookups
  import Stored = ConstantLookups
  import opened Programs
  import opened LiveLookups
  import opened NameResolutions

  // ---- the ends of aliases ----

  /** `found` is the first namespace in a list; it is nothing if there is none. */
  ghost predicate IsFirstNamespace(src: Source, ids: seq<DeclId>, found: Option<DeclId>) {
    match found
    case Some(d) => exists k: nat :: FirstNamespaceAt(src, ids, k, d)
    case None => forall d | d in ids :: !LeadsToNamespace(src, d)
  }

  lemma FirstNamespaceFound(src: Source, ids: seq<DeclId>)
    ensures IsFirstNamespace(src, ids, FirstNamespace(src, ids))
  {
    FirstNamespaceIs(src, ids);
    hide FirstNamespace, LeadsToNamespace;
    if FirstNamespace(src, ids).Some? { var i :| FirstNamespaceAt(src, ids, i, FirstNamespace(src, ids).value); }
  }

  /** A namespace stands for itself, an alias for the first namespace among its ends, anything else for nothing. */
  lemma NamespaceBehind(src: Source, d: DeclId)
    requires Declared(src, d)
    ensures IsNamespace(src, d) ==> ResolveToNamespace(src, d) == Some(d)
    ensures !IsNamespace(src, d) && !IsAlias(src, d) ==> ResolveToNamespace(src, d) == None
    ensures IsAlias(src, d) ==> IsFirstNamespace(src, AliasChains(src, d), ResolveToNamespace(src, d))
  {
    FirstNamespaceFound(src, AliasChains(src, d));
    hide AliasChains, FirstNamespace;
  }

  /** `found` is the first of the ends that is an alias without targets or a namespace. */
  ghost predicate IsFirstScope(src: Source, ids: seq<DeclId>, found: Option<DeclId>) {
    match found
    case Some(d) => exists k: nat :: k < |ids| && ids[k] == d && CanBeScope(src, d) &&
                                     forall j | 0 <= j < k :: !CanBeScope(src, ids[j])
    case None => forall k | 0 <= k < |ids| :: !CanBeScope(src, ids[k])
  }

  predicate CanBeScope(src: Source, d: DeclId) {
    IsAlias(src, d) || IsNamespace(src, d)
  }

  lemma {:induction false} FirstScopeIs(src: Source, ids: seq<DeclId>)
    ensures IsFirstScope(src, ids, Stored.FirstScope(src, ids))
    decreases |ids|
  {
    if ids != [] && !CanBeScope(src, ids[0]) {
      FirstScopeIs(src, ids[1..]);
      hide CanBeScope, IsAlias, IsNamespace;
      assert forall k | 0 <= k < |ids| - 1 :: ids[1..][k] == ids[k + 1];
      var found := Stored.FirstScope(src, ids[1..]);
      if found.Some? {
        var k: nat :| k < |ids[1..]| && ids[1..][k] == found.value && CanBeScope(src, found.value) &&
          forall j | 0 <= j < k :: !CanBeScope(src, ids[1..][j]);
        forall j | 0 <= j < k + 1 ensures !CanBeScope(src, ids[j]) {
          if j > 0 { assert !CanBeScope(src, ids[1..][j - 1]); }
        }
        assert ids[k + 1] == found.value;
      } else {
        forall k | 0 <= k < |ids| ensures !CanBeScope(src, ids[k]) {
          if k > 0 { assert !CanBeScope(src, ids[1..][k - 1]); }
        }
      }
    }
  }

  lemma OwnEnd(src: Source, d: DeclId)
    requires !IsAlias(src, d)
    ensures AliasChains(src, d) == [d]
  {
    assert IsEnd(src, d);
    assert [d][1..] == [];
    assert Walk(src, [d], {}) == [d] + Walk(src, [], {d});
  }

  lemma NoAlias(p: Program, s: Store, d: DeclId)
    requires Coherent(p, s) && d in s.g.ns
    ensures !IsAlias(s.src, d) && IsNamespace(s.src, d) && Declared(s.src, d)
  {
    NamespaceParts(s.src, s.g, d);
    hide Coherent;
  }

  // ---- one chain ----

  /** A search linearizes the declaration and answers what its chain then says. */
  lemma SearchAnswers(p: Program, s: Store, d: DeclId, str: StringId)
    requires Coherent(p, s) && d in s.g.ns
    ensures Usable(s.src, s.g)
    ensures var (t, r) := SearchAncestors(p, s, d, str);
      && t == Linearized(s, d)
      && Stored.Answer(Snapshot(p, t), d, AncestorsOf(s.src, s.g, d).ancestors, str, r)
  {
    CoherentReady(p, s);
    hide Usable, Coherent, AncestorsOf, Linearized, Stored.SearchChain, Stored.Answer;
    var (t, r) := SearchAncestors(p, s, d, str);
    Stored.ChainAnswerIs(Snapshot(p, t), d, AncestorsOf(s.src, s.g, d).ancestors, str, r);
  }

  /** What is found in a finished chain. */
  function Hit(found: Option<DeclId>, otherwise: Resolution): Resolution {
    match found
    case Some(id) => Found(id, None)
    case None => otherwise
  }

  /** The member of the first entry of the stored chain of `d` that has it, if there is one. */
  ghost predicate Inherits(s: Store, d: DeclId, str: StringId, found: Option<DeclId>) {
    d in s.g.ns && IsFirst(s.members, s.g.ns[d].ancestors.ids, str, found)
  }

  lemma FinishedAnswers(p: Program, o: Store, s: Store, d: DeclId, str: StringId) returns (found: Option<DeclId>)
    requires Coherent(p, s) && Calm(o, s) && s.src == o.src && d in FinishedIds(o.g)
    ensures d in s.g.ns && Inherits(o, d, str, found)
    ensures var (t, r) := SearchAncestors(p, s, d, str);
      t.src == o.src && Calm(o, t) && Coherent(p, t) && r == Hit(found, NotFound(None))
  {
    FinishedStays(p, o, s, d, str);
    FinishedSearchIsStored(p, s, d, str);
    var (t, r) := SearchAncestors(p, s, d, str);
    CalmThen(o, s, t);
    QuietIsCoherent(p, s, t);
    hide Coherent, Calm, SearchAncestors, Stored.SearchChain, IsFirst;
    Stored.ChainAnswerIs(Snapshot(p, o), d, o.g.ns[d].ancestors, str, r);
    found := if r.Found? then Some(r.id) else None;
  }

  // ---- the targets of a scope ----

  /** Target `i` has the member in its chain. */
  ghost predicate HitAt(s: Store, ids: seq<DeclId>, str: StringId, i: nat, id: DeclId) {
    i < |ids| && IsNamespace(s.src, ids[i]) && Inherits(s, ids[i], str, Some(id)) && NoneBefore(s, ids, str, i)
  }

  /** No target before `k` is an unresolved alias or has the member in its chain. */
  ghost predicate NoneBefore(s: Store, ids: seq<DeclId>, str: StringId, k: nat) {
    k <= |ids| && forall j | 0 <= j < k ::
      !IsAlias(s.src, ids[j]) && (IsNamespace(s.src, ids[j]) ==> Inherits(s, ids[j], str, None))
  }

  /** What the targets of a scope answer, in order. */
  ghost predicate TargetsAnswer(s: Store, ids: seq<DeclId>, str: StringId, searched: bool, r: Resolution) {
    match r
    case Found(id, again) => again == None && exists i: nat :: HitAt(s, ids, str, i, id)
    case Retry(again) => again == None &&
      ((exists i: nat :: i < |ids| && IsAlias(s.src, ids[i]) && NoneBefore(s, ids, str, i)) ||
       (NoneBefore(s, ids, str, |ids|) && (searched || exists d :: d in ids && IsNamespace(s.src, d))))
    case NotFound(again) =>
      again == None && NoneBefore(s, ids, str, |ids|) && !searched && forall d | d in ids :: !IsNamespace(s.src, d)
  }

  lemma NoneBeforeLater(s: Store, ids: seq<DeclId>, str: StringId, k: nat)
    requires ids != [] && NoneBefore(s, ids, str, 1)
    ensures NoneBefore(s, ids[1..], str, k) ==> NoneBefore(s, ids, str, k + 1)
  {
    hide Inherits, IsNamespace, IsAlias;
    if NoneBefore(s, ids[1..], str, k) {
      forall j | 0 <= j < k + 1
        ensures !IsAlias(s.src, ids[j]) && (IsNamespace(s.src, ids[j]) ==> Inherits(s, ids[j], str, None))
      {
        if j > 0 { assert ids[1..][j - 1] == ids[j]; }
      }
    }
  }

  lemma AnswersLater(s: Store, ids: seq<DeclId>, str: StringId, searched: bool, r: Resolution)
    requires ids != [] && NoneBefore(s, ids, str, 1)
    requires TargetsAnswer(s, ids[1..], str, searched || IsNamespace(s.src, ids[0]), r)
    ensures TargetsAnswer(s, ids, str, searched, r)
  {
    hide NoneBefore, Inherits, IsNamespace, IsAlias;
    assert ids == [ids[0]] + ids[1..];
    forall k: nat ensures NoneBefore(s, ids[1..], str, k) ==> NoneBefore(s, ids, str, k + 1) { NoneBeforeLater(s, ids, str, k); }
    match r
    case Found(id, _) =>
      var i: nat :| HitAt(s, ids[1..], str, i, id);
      assert HitAt(s, ids, str, i + 1, id);
    case Retry(_) =>
      if i: nat :| i < |ids[1..]| && IsAlias(s.src, ids[1..][i]) && NoneBefore(s, ids[1..], str, i) {
        assert IsAlias(s.src, ids[i + 1]) && NoneBefore(s, ids, str, i + 1);
      } else {
        assert ids[0] in ids;
      }
    case NotFound(_) =>
  }

  ghost predicate TargetsFinished(s: Store, ids: seq<DeclId>) {
    forall d | d in ids && IsNamespace(s.src, d) :: d in FinishedIds(s.g)
  }

  lemma {:induction false} SearchTargetsAnswers(p: Program, start: Store, o: Store, s: Store, ids: seq<DeclId>, str: StringId,
                                                searched: bool)
    requires Coherent(p, s) && NamespacesExist(s, ids) && Looked(p, start, s, NotFound(None))
    requires Calm(o, s) && s.src == o.src && TargetsFinished(o, ids)
    ensures var (t, r) := SearchTargets(p, start, s, ids, str, None, searched);
      t.src == o.src && TargetsAnswer(o, ids, str, searched, r)
    decreases |ids|
  {
    hide Coherent, Calm, Looked, NamespacesExist, SearchAncestors, Inherits, IsAlias, IsNamespace, FinishedIds;
    if ids != [] && IsAlias(s.src, ids[0]) {
      assert NoneBefore(o, ids, str, 0);
    } else if ids != [] {
      NamespacesExistRest(s, ids);
      assert ids == [ids[0]] + ids[1..];
      if IsNamespace(s.src, ids[0]) {
        var found := FinishedAnswers(p, o, s, ids[0], str);
        var (t, r) := SearchAncestors(p, s, ids[0], str);
        SearchedOne(p, start, s, None, t, r, ids[1..]);
        if found.Some? {
          assert HitAt(o, ids, str, 0, found.value);
        } else {
          SearchTargetsAnswers(p, start, o, t, ids[1..], str, true);
          AnswersLater(o, ids, str, searched, SearchTargets(p, start, t, ids[1..], str, None, true).1);
        }
      } else {
        SearchTargetsAnswers(p, start, o, s, ids[1..], str, searched);
        AnswersLater(o, ids, str, searched, SearchTargets(p, start, s, ids[1..], str, None, searched).1);
      }
    }
  }

  /** Once a chain has been found unfinished, the search ends with a later hit, waits for an unresolved alias, or asks for
      that chain, and for no other. */
  lemma {:induction false} FirstMissingIsAsked(p: Program, start: Store, s: Store, ids: seq<DeclId>, str: StringId,
                                               missing: Option<DeclId>)
    requires Coherent(p, s) && NamespacesExist(s, ids) && Looked(p, start, s, NotFound(missing)) && missing.Some?
    ensures var r := SearchTargets(p, start, s, ids, str, missing, true).1; r.Found? || r == Retry(None) || r == NotFound(missing)
    decreases |ids|
  {
    hide Coherent, Looked, NamespacesExist, SearchAncestors, IsAlias, IsNamespace;
    if ids != [] && !IsAlias(s.src, ids[0]) {
      NamespacesExistRest(s, ids);
      if IsNamespace(s.src, ids[0]) {
        var (t, r) := SearchAncestors(p, s, ids[0], str);
        SearchedOne(p, start, s, missing, t, r, ids[1..]);
        if !r.Found? { FirstMissingIsAsked(p, start, t, ids[1..], str, missing); }
      } else {
        FirstMissingIsAsked(p, start, s, ids[1..], str, missing);
      }
    }
  }

  // ---- the forms of a name ----

  /** The result is remembered, and it alone. */
  ghost predicate RememberedAs(s: Store, n: NameId, t: Store, r: Resolution) {
    && (r.Found? ==> Target(t.src, n) == Some(r.id))
    && (!r.Found? ==> t.src.names == s.src.names)
  }

  lemma Remembering(p: Program, s: Store, n: NameId, t: Store, r: Resolution)
    requires t.src.names == s.src.names && Target(s.src, n).None?
    ensures var (u, q) := Remembered(n, t, r); q == r && RememberedAs(s, n, u, r)
  {
    if r.Found? { NameRecorded(t, n, r.id); }
  }

  /** A name that has been resolved stays what it is. */
  lemma KnownNameIs(p: Program, s: Store, n: NameId)
    requires Coherent(p, s) && n in p.names && Rooted(p.names, n, p.height) && Target(s.src, n).Some?
    ensures ResolveConstant(p, s, n) == (s, Found(Target(s.src, n).value, None))
  {
    hide Coherent, Rooted, Target;
  }

  /** `A::B` while `A` is not resolved. */
  lemma UnknownScopeWaits(p: Program, s: Store, n: NameId, scope: NameId)
    requires Coherent(p, s) && n in p.names && Rooted(p.names, n, p.height) && Target(s.src, n).None?
    requires p.names[n].parentScope == Scope(scope) && Target(s.src, scope).None?
    ensures ResolveConstant(p, s, n) == (s, Retry(None))
  {
    hide Coherent, Rooted, Target;
  }

  /** `A::B` where `A` leads to several targets: the first of them, in breadth-first order, whose chain has the member. */
  lemma ScopedNameIs(p: Program, s: Store, n: NameId, scope: NameId, target: DeclId)
    requires Coherent(p, s) && n in p.names && Rooted(p.names, n, p.height) && Target(s.src, n).None?
    requires p.names[n].parentScope == Scope(scope) && Target(s.src, scope) == Some(target)
    requires TargetsFinished(s, AliasChains(s.src, target))
    ensures var (t, r) := ResolveConstant(p, s, n);
      TargetsAnswer(s, AliasChains(s.src, target), p.names[n].str, false, r) && RememberedAs(s, n, t, r)
  {
    hide *;
    QuietSame(p, s);
    TargetIsReference(s.src, scope);
    TargetEndsExist(p, s, target);
    NothingAsked(p, s, NotFound(None));
    SearchTargetsAnswers(p, s, s, s, AliasChains(s.src, target), p.names[n].str, false);
    var (t, r) := SearchTargets(p, s, s, AliasChains(s.src, target), p.names[n].str, None, false);
    Remembering(p, s, n, t, r);
    ScopedCase(p, s, n, scope, target);
  }

  lemma ScopedReady(p: Program, s: Store, scope: NameId, target: DeclId)
    requires Coherent(p, s) && Target(s.src, scope) == Some(target)
    ensures target in References(s.src) && NamespacesExist(s, AliasChains(s.src, target)) && Looked(p, s, s, NotFound(None))
  {
    hide *;
    TargetIsReference(s.src, scope);
    TargetEndsExist(p, s, target);
    NothingAsked(p, s, NotFound(None));
  }

  lemma ScopedCase(p: Program, s: Store, n: NameId, scope: NameId, target: DeclId)
    requires Coherent(p, s) && n in p.names && Rooted(p.names, n, p.height) && Target(s.src, n).None?
    requires p.names[n].parentScope == Scope(scope) && Target(s.src, scope) == Some(target)
    ensures NamespacesExist(s, AliasChains(s.src, target)) && Looked(p, s, s, NotFound(None))
    ensures var (t, r) := SearchTargets(p, s, s, AliasChains(s.src, target), p.names[n].str, None, false);
      ResolveConstant(p, s, n) == Remembered(n, t, r)
  {
    ScopedReady(p, s, scope, target);
    hide Coherent, Rooted, Target, Looked, NamespacesExist, AliasChains, SearchTargets, Remembered, References, SearchAncestors,
      RunResolution, ResolveAttached, Nesting, Scopes;
  }

  /** If the chain of the first target is unfinished and does not give the member, that chain is what is asked for. */
  lemma FirstTargetAsked(p: Program, s: Store, n: NameId, scope: NameId, target: DeclId, first: DeclId)
    requires Coherent(p, s) && n in p.names && Rooted(p.names, n, p.height) && Target(s.src, n).None?
    requires p.names[n].parentScope == Scope(scope) && Target(s.src, scope) == Some(target)
    requires AliasChains(s.src, target) != [] && AliasChains(s.src, target)[0] == first && first in s.g.ns
    requires var q := SearchAncestors(p, s, first, p.names[n].str).1; !q.Found? && q.again.Some?
    ensures var q, r := SearchAncestors(p, s, first, p.names[n].str).1, ResolveConstant(p, s, n).1;
      r.Found? || r == Retry(None) || r == NotFound(q.again)
  {
    hide *;
    NoAlias(p, s, first);
    ScopedCase(p, s, n, scope, target);
    var ids := AliasChains(s.src, target);
    NamespacesExistRest(s, ids);
    var (t, q) := SearchAncestors(p, s, first, p.names[n].str);
    SearchedOne(p, s, s, None, t, q, ids[1..]);
    FirstMissingIsAsked(p, s, t, ids[1..], p.names[n].str, q.again);
    SearchGoesOn(p, s, ids, p.names[n].str);
    var (u, r) := SearchTargets(p, s, s, ids, p.names[n].str, None, false);
    RememberedIs(n, u, r);
  }

  lemma RememberedIs(n: NameId, t: Store, r: Resolution)
    ensures Remembered(n, t, r).1 == r
  {
  }

  lemma SearchGoesOn(p: Program, s: Store, ids: seq<DeclId>, str: StringId)
    requires Coherent(p, s) && NamespacesExist(s, ids) && Looked(p, s, s, NotFound(None))
    requires ids != [] && ids[0] in s.g.ns && IsNamespace(s.src, ids[0]) && !IsAlias(s.src, ids[0])
    ensures var (t, q) := SearchAncestors(p, s, ids[0], str);
      && Coherent(p, t) && NamespacesExist(t, ids[1..])
      && (q.Found? ==> SearchTargets(p, s, s, ids, str, None, false) == (t, q))
      && (!q.Found? ==>
            && Looked(p, s, t, NotFound(q.again))
            && SearchTargets(p, s, s, ids, str, None, false) == SearchTargets(p, s, t, ids[1..], str, q.again, true))
  {
    var (t, q) := SearchAncestors(p, s, ids[0], str);
    NamespacesExistRest(s, ids);
    SearchedOne(p, s, s, None, t, q, ids[1..]);
    hide Coherent, Looked, NamespacesExist, SearchAncestors, IsAlias, IsNamespace;
  }

  /** `A::B` where `A` is a namespace: whatever the state of its chain, the answer is that of the chain, and without a
      member it is looked for again. */
  lemma QualifiedNameAnswers(p: Program, s: Store, n: NameId, scope: NameId, d: DeclId) returns (q: Resolution)
    requires Coherent(p, s) && n in p.names && Rooted(p.names, n, p.height) && Target(s.src, n).None?
    requires p.names[n].parentScope == Scope(scope) && Target(s.src, scope) == Some(d) && d in s.g.ns
    ensures Usable(s.src, s.g)
    ensures Stored.Answer(Snapshot(p, Linearized(s, d)), d, AncestorsOf(s.src, s.g, d).ancestors, p.names[n].str, q)
    ensures var (t, r) := ResolveConstant(p, s, n);
      && r == (if q.Found? then q else if q.again.Some? then NotFound(q.again) else Retry(None))
      && RememberedAs(s, n, t, r)
  {
    hide *;
    NoAlias(p, s, d);
    OwnEnd(s.src, d);
    ScopedCase(p, s, n, scope, d);
    SearchAnswers(p, s, d, p.names[n].str);
    var (t, r) := SearchAncestors(p, s, d, p.names[n].str);
    q := r;
    OneTarget(p, s, d, p.names[n].str);
    var (u, a) := SearchTargets(p, s, s, [d], p.names[n].str, None, false);
    Remembering(p, s, n, u, a);
  }

  lemma OneTarget(p: Program, s: Store, d: DeclId, str: StringId)
    requires Coherent(p, s) && d in s.g.ns && NamespacesExist(s, [d]) && Looked(p, s, s, NotFound(None))
    ensures var (t, q) := SearchAncestors(p, s, d, str);
      SearchTargets(p, s, s, [d], str, None, false) ==
        (t, if q.Found? then q else if q.again.Some? then NotFound(q.again) else Retry(None))
    ensures SearchTargets(p, s, s, [d], str, None, false).0.src.names == s.src.names
  {
    hide *;
    NoAlias(p, s, d);
    SearchGoesOn(p, s, [d], str);
    assert [d][1..] == [];
    var (t, q) := SearchAncestors(p, s, d, str);
    if !q.Found? { NoTargetLeft(p, s, t, str, q.again); }
    NamesOfTargets(p, s, [d], str);
  }

  lemma NamesOfTargets(p: Program, s: Store, ids: seq<DeclId>, str: StringId)
    requires Coherent(p, s) && NamespacesExist(s, ids) && Looked(p, s, s, NotFound(None))
    ensures SearchTargets(p, s, s, ids, str, None, false).0.src.names == s.src.names
  {
    hide *;
    var r := SearchTargets(p, s, s, ids, str, None, false);
  }

  lemma NoTargetLeft(p: Program, start: Store, t: Store, str: StringId, missing: Option<DeclId>)
    requires Coherent(p, t) && NamespacesExist(t, []) && Looked(p, start, t, NotFound(missing))
    ensures SearchTargets(p, start, t, [], str, missing, true) ==
      (t, if missing.None? then Retry(None) else NotFound(missing))
  {
    hide Coherent, Looked, NamespacesExist;
  }

  /** In particular, where the chain of `A` is finished, `A::B` is the member of its first entry that has one. */
  lemma QualifiedNameIs(p: Program, s: Store, n: NameId, scope: NameId, d: DeclId, found: Option<DeclId>)
    requires Coherent(p, s) && n in p.names && Rooted(p.names, n, p.height) && Target(s.src, n).None?
    requires p.names[n].parentScope == Scope(scope) && Target(s.src, scope) == Some(d) && d in FinishedIds(s.g)
    ensures var (t, r) := ResolveConstant(p, s, n);
      && (r == Hit(found, Retry(None)) <==> IsFirst(s.members, s.g.ns[d].ancestors.ids, p.names[n].str, found))
      && RememberedAs(s, n, t, r)
  {
    hide *;
    InNamespaces(s, d);
    NoAlias(p, s, d);
    OwnEnd(s.src, d);
    ScopedCase(p, s, n, scope, d);
    QuietSame(p, s);
    var first := FinishedAnswers(p, s, s, d, p.names[n].str);
    OneTarget(p, s, d, p.names[n].str);
    var (t, r) := SearchTargets(p, s, s, [d], p.names[n].str, None, false);
    Remembering(p, s, n, t, r);
    HitIs(s, d, p.names[n].str, first, found, Retry(None));
    AfterHit(first);
  }

  lemma AfterHit(first: Option<DeclId>)
    ensures var q := Hit(first, NotFound(None));
      (if q.Found? then q else if q.again.Some? then NotFound(q.again) else Retry(None)) == Hit(first, Retry(None))
  {
  }

  lemma InNamespaces(s: Store, d: DeclId)
    requires d in FinishedIds(s.g)
    ensures d in s.g.ns
  {
  }

  lemma HitIs(s: Store, d: DeclId, str: StringId, first: Option<DeclId>, found: Option<DeclId>, otherwise: Resolution)
    requires Inherits(s, d, str, first) && !otherwise.Found?
    ensures d in s.g.ns
    ensures Hit(first, otherwise) == Hit(found, otherwise) <==> IsFirst(s.members, s.g.ns[d].ancestors.ids, str, found)
  {
    var ids := s.g.ns[d].ancestors.ids;
    FirstIsOne(s.members, ids, str, first);
    FirstIsOne(s.members, ids, str, found);
    hide IsFirst;
  }

  /** `::B` is looked for in the chain of `Object`. */
  lemma TopLevelNameAnswers(p: Program, s: Store, n: NameId)
    requires Coherent(p, s) && n in p.names && Rooted(p.names, n, p.height) && Target(s.src, n).None?
    requires p.names[n].parentScope == TopLevel
    ensures OBJECT in s.g.ns && Usable(s.src, s.g)
    ensures var (t, r) := ResolveConstant(p, s, n);
      && Stored.Answer(Snapshot(p, Linearized(s, OBJECT)), OBJECT, AncestorsOf(s.src, s.g, OBJECT).ancestors, p.names[n].str, r)
      && RememberedAs(s, n, t, r)
  {
    hide *;
    NothingAsked(p, s, Retry(None));
    ObjectExists(p, s, s, Retry(None));
    SearchAnswers(p, s, OBJECT, p.names[n].str);
    var (t, r) := SearchAncestors(p, s, OBJECT, p.names[n].str);
    Remembering(p, s, n, t, r);
    TopLevelCase(p, s, n);
  }

  lemma TopLevelCase(p: Program, s: Store, n: NameId)
    requires Coherent(p, s) && n in p.names && Rooted(p.names, n, p.height) && Target(s.src, n).None?
    requires p.names[n].parentScope == TopLevel
    ensures OBJECT in s.g.ns
    ensures var (t, r) := SearchAncestors(p, s, OBJECT, p.names[n].str); ResolveConstant(p, s, n) == Remembered(n, t, r)
  {
    NothingAsked(p, s, Retry(None));
    ObjectExists(p, s, s, Retry(None));
    hide Coherent, Rooted, Target, Looked, SearchAncestors, Remembered;
  }

  lemma TopLevelNameIs(p: Program, s: Store, n: NameId, found: Option<DeclId>)
    requires Coherent(p, s) && n in p.names && Rooted(p.names, n, p.height) && Target(s.src, n).None?
    requires p.names[n].parentScope == TopLevel && OBJECT in FinishedIds(s.g)
    ensures var (t, r) := ResolveConstant(p, s, n);
      && (r == Hit(found, NotFound(None)) <==> IsFirst(s.members, s.g.ns[OBJECT].ancestors.ids, p.names[n].str, found))
      && RememberedAs(s, n, t, r)
  {
    hide *;
    InNamespaces(s, OBJECT);
    QuietSame(p, s);
    TopLevelCase(p, s, n);
    var first := FinishedAnswers(p, s, s, OBJECT, p.names[n].str);
    var (t, r) := SearchAncestors(p, s, OBJECT, p.names[n].str);
    NamesOfSearch(p, s, OBJECT, p.names[n].str);
    Remembering(p, s, n, t, r);
    HitIs(s, OBJECT, p.names[n].str, first, found, NotFound(None));
  }

  lemma NamesOfSearch(p: Program, s: Store, d: DeclId, str: StringId)
    requires Coherent(p, s) && d in s.g.ns
    ensures SearchAncestors(p, s, d, str).0.src.names == s.src.names
  {
    hide *;
    var r := SearchAncestors(p, s, d, str);
  }

  // ---- names attached to an object ----

  /** The namespace an attached name is about: the object itself or, for an alias, the first namespace it leads to, if no
      end is an unresolved alias. */
  ghost predicate AttachedTo(src: Source, target: DeclId, d: DeclId) {
    if IsAlias(src, target)
    then IsFirstNamespace(src, AliasChains(src, target), Some(d)) && forall e | e in AliasChains(src, target) :: !IsAlias(src, e)
    else d == target
  }

  /** It stands for the singleton class the object is linked to afterwards, which is the one it was linked to, if any. */
  lemma AttachedNameIs(p: Program, s: Store, n: NameId, attached: NameId, target: DeclId, d: DeclId)
    requires Coherent(p, s) && n in p.names && Rooted(p.names, n, p.height) && Target(s.src, n).None?
    requires p.names[n].parentScope == Attached(attached) && Target(s.src, attached) == Some(target)
    requires AttachedTo(s.src, target, d) && d in s.g.ns
    ensures var (t, r) := ResolveConstant(p, s, n);
      && r.Found? && r.again == Some(r.id) && RememberedAs(s, n, t, r)
      && d in t.g.ns && t.g.ns[d].singleton == Some(r.id) && r.id in t.g.ns
      && (s.g.ns[d].singleton.Some? ==> r.id == s.g.ns[d].singleton.value && t.g == s.g)
      && (s.g.ns[d].singleton.None? ==> r.id == SingletonOf(d, None))
  {
    AttachedCase(p, s, n, attached, target, d);
    LinkedClass(p, s, d);
    hide *;
    var (t, c) := GetOrCreateSingletonClass(s, d);
    NameRecorded(t, n, c.value);
  }

  lemma AttachedCase(p: Program, s: Store, n: NameId, attached: NameId, target: DeclId, d: DeclId)
    requires Coherent(p, s) && n in p.names && Rooted(p.names, n, p.height) && Target(s.src, n).None?
    requires p.names[n].parentScope == Attached(attached) && Target(s.src, attached) == Some(target)
    requires AttachedTo(s.src, target, d) && d in s.g.ns && GetOrCreateSingletonClass(s, d).1.Some?
    ensures var (t, c) := GetOrCreateSingletonClass(s, d);
      ResolveConstant(p, s, n) == (RecordName(t, n, c.value), Found(c.value, c))
  {
    hide Coherent, Rooted, RecordName, IsFirstNamespace, GetOrCreateSingletonClass;
    if IsAlias(s.src, target) { AttachedToFirst(s.src, target, d); }
    hide AliasChains, FirstNamespace;
  }

  lemma AttachedToFirst(src: Source, target: DeclId, d: DeclId)
    requires AttachedTo(src, target, d) && IsAlias(src, target)
    ensures FirstNamespace(src, AliasChains(src, target)) == Some(d)
  {
    var ids := AliasChains(src, target);
    FirstNamespaceFound(src, ids);
    hide FirstNamespace, AliasChains, LeadsToNamespace;
    assert IsFirstNamespace(src, ids, Some(d)) && IsFirstNamespace(src, ids, FirstNamespace(src, ids));
  }

  lemma LinkedClass(p: Program, s: Store, d: DeclId)
    requires Coherent(p, s) && d in s.g.ns
    ensures var (t, c) := GetOrCreateSingletonClass(s, d);
      && c.Some? && d in t.g.ns && t.g.ns[d].singleton == c && c.value in t.g.ns && t.src.names == s.src.names
      && (if s.g.ns[d].singleton.Some? then c == s.g.ns[d].singleton && t.g == s.g else c == Some(SingletonOf(d, None)))
  {
    NoAlias(p, s, d);
    GetOrCreateCases(s, d);
    GetOrCreateMade(p, s, d);
    NoReset(p, s);
    if s.g.ns[d].singleton.Some? { FlushNothing(s); } else { FlushParts(s.(g := GetOrCreateSingleton(s.g, d).0)); }
    hide Coherent, GetOrCreateSingletonClass, Flush, SingletonMade;
  }

  // ---- names without scope ----

  /** `ms` are the enclosing scopes of `n`, innermost first. */
  ghost predicate Encloses(names: map<NameId, Name>, n: NameId, ms: seq<NameId>)
    decreases |ms|
  {
    n in names &&
    if ms == [] then names[n].nesting.None?
    else names[n].nesting == Some(ms[0]) && Encloses(names, ms[0], ms[1..])
  }

  lemma {:induction false} NestingEncloses(names: map<NameId, Name>, n: NameId, h: nat)
    requires Rooted(names, n, h)
    ensures Encloses(names, n, Nesting(names, n, h))
    decreases h
  {
    if names[n].nesting.Some? { NestingEncloses(names, names[n].nesting.value, h - 1); }
  }

  lemma {:induction false} EnclosesOnce(names: map<NameId, Name>, n: NameId, ms: seq<NameId>, ks: seq<NameId>)
    requires Encloses(names, n, ms) && Encloses(names, n, ks)
    ensures ms == ks
    decreases |ms|
  {
    if ms != [] {
      EnclosesOnce(names, ms[0], ms[1..], ks[1..]);
      assert ms == [ms[0]] + ms[1..] && ks == [ks[0]] + ks[1..];
    }
  }

  /** What an answer about the innermost scope comes to: it stands if something has been found. Otherwise, within a module
      or a placeholder and where the chain is unfinished, the first entry of the chain of `Object` with the member is
      taken, and the unfinished chain is still to be seen again. */
  ghost predicate WithFallback(s: Store, d: DeclId, str: StringId, q: Resolution, r: Resolution) {
    if q.Found? || !(KindOf(s.src, d) in {Module, Todo} || q.again.Some?) then r == q
    else exists found :: Inherits(s, OBJECT, str, found) && r == if found.Some? then Found(found.value, q.again) else q
  }

  /** What an unqualified name comes to in the scopes `scopes`: the direct member of the innermost scope that has it; if
      none has, what the chain of the innermost scope answers, with the fallback to `Object`. `chain` is that chain. */
  ghost predicate SimpleAnswer(p: Program, s: Store, scopes: seq<NameRef>, d: DeclId, chain: Ancestors, str: StringId,
                               r: Resolution) {
    exists q :: Stored.LexicalAnswer(Snapshot(p, s), scopes, str, q) &&
      if !q.NotFound? then r == q
      else exists i :: Stored.Answer(Snapshot(p, s), d, chain, str, i) && WithFallback(s, d, str, i, r)
  }

  /** The namespace the innermost scope stands for: of its ends the first that is a namespace or an unresolved alias. */
  ghost predicate Innermost(src: Source, target: DeclId, d: DeclId) {
    IsFirstScope(src, AliasChains(src, target), Some(d)) && !IsAlias(src, d)
  }

  lemma InnermostIs(src: Source, target: DeclId, d: DeclId)
    requires Innermost(src, target, d)
    ensures Stored.FirstScope(src, AliasChains(src, target)) == Some(d)
  {
    var ids := AliasChains(src, target);
    FirstScopeIs(src, ids);
    hide Stored.FirstScope, AliasChains, CanBeScope;
    assert IsFirstScope(src, ids, Some(d)) && IsFirstScope(src, ids, Stored.FirstScope(src, ids));
  }

  /** The lookup in the innermost namespace. */
  lemma InnermostAnswers(p: Program, s: Store, target: DeclId, d: DeclId, str: StringId)
    requires Coherent(p, s) && target in References(s.src) && Innermost(s.src, target, d)
    ensures d in s.g.ns && Usable(s.src, s.g)
    ensures SearchInnermost(p, s, Resolved(target), str) ==
      (SearchAncestors(p, s, d, str).0, SearchAncestors(p, s, d, str).1, Some(d))
    ensures var (t, r, e) := SearchInnermost(p, s, Resolved(target), str);
      t == Linearized(s, d) && Stored.Answer(Snapshot(p, t), d, AncestorsOf(s.src, s.g, d).ancestors, str, r)
  {
    InnermostIs(s.src, target, d);
    FirstScopeIn(s.src, AliasChains(s.src, target));
    hide AliasChains, Coherent, References, Stored.FirstScope, Stored.Answer, SearchAncestors, Innermost, Linearized, AncestorsOf;
    EndExists(p, s, target, d);
    SearchAnswers(p, s, d, str);
  }

  lemma AnswerReadsMembers(w: Stored.World, v: Stored.World, d: DeclId, chain: Ancestors, str: StringId, r: Resolution)
    requires w.members == v.members && w.strings == v.strings
    ensures Stored.Answer(w, d, chain, str, r) == Stored.Answer(v, d, chain, str, r)
  {
    hide IsFirst;
    forall e: Ancestor ensures Stored.Passed(w, e, str) == Stored.Passed(v, e, str) { }
    forall e: DeclId ensures Stored.MemberOf(w, e, str) == Stored.MemberOf(v, e, str) { }
    hide Stored.Passed, Stored.MemberOf;
    forall ids: seq<Ancestor>, k: nat ensures Stored.StopsAt(w, ids, str, k) == Stored.StopsAt(v, ids, str, k) { }
  }

  /** The fallback, after a search that has overwritten nothing. */
  lemma FallbackIs(p: Program, s: Store, t: Store, d: DeclId, str: StringId, q: Resolution)
    requires Coherent(p, s) && Coherent(p, t) && Looked(p, s, t, q) && Calm(s, t) && t.src == s.src
    requires OBJECT in FinishedIds(s.g)
    ensures WithFallback(s, d, str, q, if q.Found? then q else WithObject(p, s, t, q, Some(d), str).1)
    ensures WithObject(p, s, t, q, Some(d), str).0.src.names == s.src.names
  {
    hide Coherent, Calm, Looked, SearchAncestors, FinishedIds, Inherits;
    if KindOf(s.src, d) in {Module, Todo} || (!q.Found? && q.again.Some?) {
      ObjectExists(p, s, t, q);
      var found := FinishedAnswers(p, s, t, OBJECT, str);
    }
  }

  /** Nothing has been overwritten by a lookup that could not. */
  lemma CalmLookup(p: Program, s: Store, d: DeclId)
    requires Coherent(p, s) && d in s.g.ns && (d in FinishedIds(s.g) || Lost(s.g) == {})
    ensures Usable(s.src, s.g) && Calm(s, Linearized(s, d)) && Coherent(p, Linearized(s, d)) && Linearized(s, d).src == s.src
  {
    CoherentReady(p, s);
    LinearizingIsQuiet(p, s, d);
    var t := Linearized(s, d);
    QuietIsCoherent(p, s, t);
    hide Coherent, FinishedIds, Linearized, AncestorsOf, Usable;
    if Lost(s.g) == {} {
      hide Lost;
      NothingLeft(p, s, t);
      SourceKept(p, s, t);
    }
  }

  lemma NothingLeft(p: Program, s: Store, t: Store)
    requires Quiet(p, s, t) && Lost(s.g) == {}
    ensures Calm(s, t)
  {
    hide Calm, Coherent, LevelBound, NamesKept, Lost;
    NoWeight(LevelBound(s.g));
  }

  lemma SourceKept(p: Program, s: Store, t: Store)
    requires Quiet(p, s, t) && Calm(s, t) && t.src.names == s.src.names
    ensures t.src == s.src
  {
    hide Coherent, LossLeft, LevelBound, NamesKept, Made, FinishedKept, Lost;
  }

  /** An unqualified name in nested scopes. */
  lemma NestedNameIs(p: Program, s: Store, n: NameId, ms: seq<NameId>, d: DeclId)
    requires Coherent(p, s) && n in p.names && Rooted(p.names, n, p.height) && Target(s.src, n).None?
    requires p.names[n].parentScope == NoScope && Encloses(p.names, n, ms) && ms != []
    requires Target(s.src, ms[0]).Some? && Innermost(s.src, Target(s.src, ms[0]).value, d)
    requires OBJECT in FinishedIds(s.g) && (d in FinishedIds(s.g) || Lost(s.g) == {})
    ensures d in s.g.ns && Usable(s.src, s.g)
    ensures var (t, r) := ResolveConstant(p, s, n);
      && SimpleAnswer(p, s, Scopes(s.src, ms), d, AncestorsOf(s.src, s.g, d).ancestors, p.names[n].str, r)
      && RememberedAs(s, n, t, r)
  {
    hide *;
    NestingEncloses(p.names, n, p.height);
    EnclosesOnce(p.names, n, ms, Nesting(p.names, n, p.height));
    ScopesAreKnown(s.src, ms);
    InnermostScope(s.src, ms);
    var target, str := Target(s.src, ms[0]).value, p.names[n].str;
    InnermostAnswers(p, s, target, d, str);
    CalmLookup(p, s, d);
    ScopedRun(p, s, ms, target, d, str);
    var (t, r) := RunResolution(p, s, Scopes(s.src, ms), str);
    Remembering(p, s, n, t, r);
    SimpleCase(p, s, n);
  }

  lemma InnermostScope(src: Source, ms: seq<NameId>)
    requires ms != [] && Target(src, ms[0]).Some?
    ensures Scopes(src, ms) != [] && Scopes(src, ms)[0] == Resolved(Target(src, ms[0]).value)
    ensures Target(src, ms[0]).value in References(src)
  {
  }

  lemma SimpleCase(p: Program, s: Store, n: NameId)
    requires Coherent(p, s) && n in p.names && Rooted(p.names, n, p.height) && Target(s.src, n).None?
    requires p.names[n].parentScope == NoScope
    ensures var scopes := Scopes(s.src, Nesting(p.names, n, p.height));
      && ScopesKnown(s.src, scopes)
      && var (t, r) := RunResolution(p, s, scopes, p.names[n].str); ResolveConstant(p, s, n) == Remembered(n, t, r)
  {
    ScopesAreKnown(s.src, Nesting(p.names, n, p.height));
    hide Coherent, Rooted, Target, Nesting, Scopes, ScopesKnown, RunResolution, Remembered;
  }

  lemma ScopedRun(p: Program, s: Store, ms: seq<NameId>, target: DeclId, d: DeclId, str: StringId)
    requires Coherent(p, s) && ScopesKnown(s.src, Scopes(s.src, ms)) && Scopes(s.src, ms) != []
    requires Scopes(s.src, ms)[0] == Resolved(target) && target in References(s.src) && Innermost(s.src, target, d)
    requires OBJECT in FinishedIds(s.g) && d in s.g.ns && Usable(s.src, s.g)
    requires Calm(s, Linearized(s, d)) && Coherent(p, Linearized(s, d)) && Linearized(s, d).src == s.src
    ensures var (t, r) := RunResolution(p, s, Scopes(s.src, ms), str);
      && SimpleAnswer(p, s, Scopes(s.src, ms), d, AncestorsOf(s.src, s.g, d).ancestors, str, r)
      && t.src.names == s.src.names
  {
    var scopes := Scopes(s.src, ms);
    hide *;
    var lexical := Stored.SearchLexical(Snapshot(p, s), scopes, str);
    Stored.LexicalSearchIs(Snapshot(p, s), scopes, str, lexical);
    InnermostAnswers(p, s, target, d, str);
    var (t, q, e) := SearchInnermost(p, s, Resolved(target), str);
    CalmMembers(s, t);
    SameSnapshot(p, s, t);
    AnswerReadsMembers(Snapshot(p, t), Snapshot(p, s), d, AncestorsOf(s.src, s.g, d).ancestors, str, q);
    FallbackIs(p, s, t, d, str, q);
    RunCases(p, s, scopes, str);
    IsSimple(p, s, scopes, d, AncestorsOf(s.src, s.g, d).ancestors, str, lexical, q);
  }

  lemma SameSnapshot(p: Program, s: Store, t: Store)
    requires t.members == s.members
    ensures Snapshot(p, t).members == Snapshot(p, s).members && Snapshot(p, t).strings == Snapshot(p, s).strings
  {
  }

  lemma RunCases(p: Program, s: Store, scopes: seq<NameRef>, str: StringId)
    requires Coherent(p, s) && ScopesKnown(s.src, scopes) && scopes != []
    ensures scopes[0].Resolved? ==> scopes[0].declaration in References(s.src)
    ensures var lexical := Stored.SearchLexical(Snapshot(p, s), scopes, str);
      var (t, q, e) := SearchInnermost(p, s, scopes[0], str);
      RunResolution(p, s, scopes, str) ==
        if !lexical.NotFound? then (s, lexical) else if q.Found? then (t, q) else WithObject(p, s, t, q, e, str)
  {
    hide Coherent, Looked, References, WithObject, SearchAncestors, SearchInnermost, Stored.SearchLexical;
  }

  lemma IsSimple(p: Program, s: Store, scopes: seq<NameRef>, d: DeclId, chain: Ancestors, str: StringId, lexical: Resolution,
                 q: Resolution)
    requires Stored.LexicalAnswer(Snapshot(p, s), scopes, str, lexical) && Stored.Answer(Snapshot(p, s), d, chain, str, q)
    ensures !lexical.NotFound? ==> SimpleAnswer(p, s, scopes, d, chain, str, lexical)
    ensures lexical.NotFound? ==> forall r | WithFallback(s, d, str, q, r) :: SimpleAnswer(p, s, scopes, d, chain, str, r)
  {
    hide Stored.LexicalAnswer, Stored.Answer, WithFallback;
  }

  /** Where no scope has the member itself, and the innermost leads to an unresolved alias, the name waits; where it leads
      to nothing that could have members, nothing is found. */
  lemma NoInnermost(p: Program, s: Store, n: NameId, ms: seq<NameId>, first: Option<DeclId>)
    requires Coherent(p, s) && n in p.names && Rooted(p.names, n, p.height) && Target(s.src, n).None?
    requires p.names[n].parentScope == NoScope && Encloses(p.names, n, ms) && ms != [] && Target(s.src, ms[0]).Some?
    requires Stored.LexicalAnswer(Snapshot(p, s), Scopes(s.src, ms), p.names[n].str, NotFound(None))
    requires IsFirstScope(s.src, AliasChains(s.src, Target(s.src, ms[0]).value), first)
    requires first.Some? ==> IsAlias(s.src, first.value)
    ensures ResolveConstant(p, s, n) == (s, if first.Some? then Retry(None) else NotFound(None))
  {
    hide *;
    NestingEncloses(p.names, n, p.height);
    EnclosesOnce(p.names, n, ms, Nesting(p.names, n, p.height));
    SimpleCase(p, s, n);
    ScopesAreKnown(s.src, ms);
    InnermostScope(s.src, ms);
    Stored.LexicalSearchIs(Snapshot(p, s), Scopes(s.src, ms), p.names[n].str, NotFound(None));
    RunCases(p, s, Scopes(s.src, ms), p.names[n].str);
    FirstScopeOnce(s.src, AliasChains(s.src, Target(s.src, ms[0]).value), first);
    NothingInnermost(p, s, Target(s.src, ms[0]).value, first, p.names[n].str);
    RememberedNothing(n, s, if first.Some? then Retry(None) else NotFound(None));
  }

  lemma FirstScopeOnce(src: Source, ids: seq<DeclId>, first: Option<DeclId>)
    requires IsFirstScope(src, ids, first)
    ensures Stored.FirstScope(src, ids) == first
  {
    FirstScopeIs(src, ids);
    hide Stored.FirstScope, CanBeScope;
  }

  lemma NothingInnermost(p: Program, s: Store, target: DeclId, first: Option<DeclId>, str: StringId)
    requires Coherent(p, s) && target in References(s.src) && Stored.FirstScope(s.src, AliasChains(s.src, target)) == first
    requires first.Some? ==> IsAlias(s.src, first.value)
    ensures var r := if first.Some? then Retry(None) else NotFound(None);
      && SearchInnermost(p, s, Resolved(target), str) == (s, r, None)
      && Looked(p, s, s, r) && WithObject(p, s, s, r, None, str) == (s, r)
  {
    NothingAsked(p, s, Retry(None));
    NothingAsked(p, s, NotFound(None));
    hide Coherent, References, AliasChains, Stored.FirstScope, SearchAncestors, IsAlias, Looked;
  }

  lemma RememberedNothing(n: NameId, s: Store, r: Resolution)
    requires !r.Found?
    ensures Remembered(n, s, r) == (s, r)
  {
  }

  /** The direct member of an enclosing scope is found, and an unresolved scope waited for, whatever the chains are. */
  lemma LexicalNameIs(p: Program, s: Store, n: NameId, ms: seq<NameId>, q: Resolution)
    requires Coherent(p, s) && n in p.names && Rooted(p.names, n, p.height) && Target(s.src, n).None?
    requires p.names[n].parentScope == NoScope && Encloses(p.names, n, ms) && ms != []
    requires Stored.LexicalAnswer(Snapshot(p, s), Scopes(s.src, ms), p.names[n].str, q) && !q.NotFound?
    ensures var (t, r) := ResolveConstant(p, s, n); r == q && RememberedAs(s, n, t, r) && t.g == s.g && t.members == s.members
  {
    hide *;
    NestingEncloses(p.names, n, p.height);
    EnclosesOnce(p.names, n, ms, Nesting(p.names, n, p.height));
    SimpleCase(p, s, n);
    ScopesNotEmpty(s.src, ms);
    Stored.LexicalSearchIs(Snapshot(p, s), Scopes(s.src, ms), p.names[n].str, q);
    RunCases(p, s, Scopes(s.src, ms), p.names[n].str);
    Remembering(p, s, n, s, q);
    JustRecorded(n, s, q);
  }

  lemma ScopesNotEmpty(src: Source, ms: seq<NameId>)
    ensures Scopes(src, ms) != [] <==> ms != []
  {
  }

  lemma JustRecorded(n: NameId, s: Store, q: Resolution)
    ensures Remembered(n, s, q).0.g == s.g && Remembered(n, s, q).0.members == s.members
  {
  }

  /** A name outside of all scopes is looked for in the chain of `Object`. */
  lemma UnnestedNameIs(p: Program, s: Store, n: NameId, found: Option<DeclId>)
    requires Coherent(p, s) && n in p.names && Rooted(p.names, n, p.height) && Target(s.src, n).None?
    requires p.names[n].parentScope == NoScope && p.names[n].nesting == None && OBJECT in FinishedIds(s.g)
    ensures var (t, r) := ResolveConstant(p, s, n);
      && (r == Hit(found, NotFound(None)) <==> IsFirst(s.members, s.g.ns[OBJECT].ancestors.ids, p.names[n].str, found))
      && RememberedAs(s, n, t, r)
  {
    hide *;
    InNamespaces(s, OBJECT);
    QuietSame(p, s);
    NoNesting(p, n);
    SimpleCase(p, s, n);
    ScopesNotEmpty(s.src, []);
    var first := FinishedAnswers(p, s, s, OBJECT, p.names[n].str);
    RunAtTop(p, s, p.names[n].str);
    var (t, r) := SearchAncestors(p, s, OBJECT, p.names[n].str);
    NamesOfSearch(p, s, OBJECT, p.names[n].str);
    Remembering(p, s, n, t, r);
    HitIs(s, OBJECT, p.names[n].str, first, found, NotFound(None));
  }

  lemma NoNesting(p: Program, n: NameId)
    requires n in p.names && Rooted(p.names, n, p.height) && p.names[n].nesting == None
    ensures Nesting(p.names, n, p.height) == []
  {
    hide Rooted;
  }

  lemma RunAtTop(p: Program, s: Store, str: StringId)
    requires Coherent(p, s) && ScopesKnown(s.src, []) && OBJECT in s.g.ns
    ensures RunResolution(p, s, [], str) == SearchAncestors(p, s, OBJECT, str)
  {
    hide Coherent, Looked, References, SearchAncestors;
  }
}
