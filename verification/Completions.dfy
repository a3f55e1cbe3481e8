/** Completion enumerates what lookup would find: one candidate for each name, the one a lookup of that
    name comes back with. */
module Completions {
  import opened Declarations
  import opened Aliases
  import opened Graphs
  import opened Lookups
  import opened ConstantLookups
  import Index = Descendants

  datatype Candidate = Candidate(name: StringId, id: DeclId)

  type Filter = DeclId -> bool

  /** Whether a member defined in the first declaration can be used. */
  type Visible = (DeclId, DeclId) -> bool

  /** The first namespace of `visited` with a member of that name that passes the filter. */
  function FirstHit(w: World, visited: seq<DeclId>, filter: Filter, name: StringId): Option<(DeclId, DeclId)> {
    if visited == [] then None
    else
      var last := visited[|visited| - 1];
      var earlier := FirstHit(w, visited[..|visited| - 1], filter, name);
      if earlier.Some? then earlier
      else if MemberOf(w, last, name).Some? && filter(MemberOf(w, last, name).value)
      then Some((last, MemberOf(w, last, name).value))
      else None
  }

  /** The candidates are the visible first hits, one for each name. */
  ghost predicate Listed(w: World, visited: seq<DeclId>, filter: Filter, visible: Visible, candidates: seq<Candidate>) {
    && (forall i, j | 0 <= i < j < |candidates| :: candidates[i].name != candidates[j].name)
    && (forall c | c in candidates :: VisibleHit(w, visited, filter, visible, c))
    && (forall c: Candidate | VisibleHit(w, visited, filter, visible, c) :: c in candidates)
  }

  predicate VisibleHit(w: World, visited: seq<DeclId>, filter: Filter, visible: Visible, c: Candidate) {
    var hit := FirstHit(w, visited, filter, c.name);
    hit.Some? && hit.value.1 == c.id && visible(hit.value.0, c.id)
  }

  ghost predicate SeenNames(w: World, visited: seq<DeclId>, filter: Filter, seen: set<StringId>) {
    forall n: StringId :: n in seen <==> FirstHit(w, visited, filter, n).Some?
  }

  lemma FirstHitMore(w: World, visited: seq<DeclId>, d: DeclId, filter: Filter, name: StringId)
    ensures FirstHit(w, visited + [d], filter, name) ==
      if FirstHit(w, visited, filter, name).Some? then FirstHit(w, visited, filter, name)
      else if MemberOf(w, d, name).Some? && filter(MemberOf(w, d, name).value)
      then Some((d, MemberOf(w, d, name).value))
      else None
  {
    assert (visited + [d])[..|visited|] == visited;
  }

  /** How far a namespace has been walked: the names in `left` are still to come. */
  ghost predicate Halfway(w: World, visited: seq<DeclId>, d: DeclId, filter: Filter, visible: Visible,
                          left: set<StringId>, seen: set<StringId>, candidates: seq<Candidate>) {
    && (forall i, j | 0 <= i < j < |candidates| :: candidates[i].name != candidates[j].name)
    && (forall c: Candidate :: c in candidates <==>
          if c.name in left then VisibleHit(w, visited, filter, visible, c)
          else VisibleHit(w, visited + [d], filter, visible, c))
    && (forall n: StringId :: n in seen <==>
          if n in left then FirstHit(w, visited, filter, n).Some? else FirstHit(w, visited + [d], filter, n).Some?)
  }

  /** `collect_members`: the members of one namespace come in no particular order. */
  method CollectMembers(w: World, d: DeclId, filter: Filter, visible: Visible, seen: set<StringId>,
                        candidates: seq<Candidate>, ghost visited: seq<DeclId>)
      returns (seen': set<StringId>, candidates': seq<Candidate>)
    requires Listed(w, visited, filter, visible, candidates) && SeenNames(w, visited, filter, seen)
    ensures Listed(w, visited + [d], filter, visible, candidates') && SeenNames(w, visited + [d], filter, seen')
  {
    var members := if d in w.members then w.members[d] else map[];
    seen', candidates' := seen, candidates;
    var left := members.Keys;
    forall n: StringId { FirstHitMore(w, visited, d, filter, n); }
    while left != {}
      invariant left <= members.Keys
      invariant Halfway(w, visited, d, filter, visible, left, seen', candidates')
      decreases left
    {
      var name :| name in left;
      left := left - {name};
      var id := members[name];
      if !filter(id) { continue; }
      if name in seen' { continue; }
      seen' := seen' + {name};
      if !visible(d, id) { continue; }
      candidates' := candidates' + [Candidate(name, id)];
    }
  }

  /** The declarations of a chain; unresolved entries are skipped. */
  function KnownIds(chain: seq<Ancestor>): seq<DeclId> {
    if chain == [] then []
    else
      var last := chain[|chain| - 1];
      KnownIds(chain[..|chain| - 1]) + if last.Known? then [last.id] else []
  }

  method CollectChain(w: World, chain: seq<Ancestor>, filter: Filter, visible: Visible, seen: set<StringId>,
                      candidates: seq<Candidate>, ghost visited: seq<DeclId>)
      returns (seen': set<StringId>, candidates': seq<Candidate>)
    requires Listed(w, visited, filter, visible, candidates) && SeenNames(w, visited, filter, seen)
    ensures Listed(w, visited + KnownIds(chain), filter, visible, candidates')
    ensures SeenNames(w, visited + KnownIds(chain), filter, seen')
  {
    hide Listed, SeenNames;
    seen', candidates' := seen, candidates;
    assert visited + KnownIds([]) == visited;
    assert chain[..0] == [];
    for i := 0 to |chain|
      invariant Listed(w, visited + KnownIds(chain[..i]), filter, visible, candidates')
      invariant SeenNames(w, visited + KnownIds(chain[..i]), filter, seen')
    {
      assert chain[..i + 1][..i] == chain[..i];
      assert KnownIds(chain[..i]) + [] == KnownIds(chain[..i]);
      if chain[i].Known? {
        ghost var before := visited + KnownIds(chain[..i]);
        seen', candidates' := CollectMembers(w, chain[i].id, filter, visible, seen', candidates', before);
        assert before + [chain[i].id] == visited + (KnownIds(chain[..i]) + [chain[i].id]);
      }
    }
    assert chain[..|chain|] == chain;
  }

  lemma NothingListed(w: World, filter: Filter, visible: Visible)
    ensures Listed(w, [], filter, visible, []) && SeenNames(w, [], filter, {})
  {
  }

  // ---- method calls ----

  datatype Visibility = Public | Private | ModuleFunction | Protected

  predicate IsMethod(methods: set<DeclId>, d: DeclId) {
    d in methods
  }

  /** `method_visible_at_call` */
  predicate VisibleAtCall(w: World, visibilities: map<DeclId, Visibility>, callerSelf: Option<DeclId>, receiver: DeclId,
                          definedIn: DeclId, id: DeclId) {
    if id !in visibilities then true
    else
      match visibilities[id]
      case Public => true
      case Protected =>
        callerSelf.Some? && definedIn in w.ns
        && callerSelf.value in w.ns[definedIn].descendants && receiver in w.ns[definedIn].descendants
      case _ => callerSelf == Some(receiver)
  }

  /** A protected method is offered where both the caller and the receiver inherit from the namespace it is defined in, a
      private one on the caller itself, and one without restriction everywhere. */
  lemma VisibleExactly(w: World, visibilities: map<DeclId, Visibility>, callerSelf: Option<DeclId>, receiver: DeclId,
                       definedIn: DeclId, id: DeclId)
    requires Index.Mirrored(Graph(w.ns, [], [])) && definedIn in w.ns
    ensures VisibleAtCall(w, visibilities, callerSelf, receiver, definedIn, id) <==>
      if id in visibilities && visibilities[id] == Protected then
        callerSelf.Some? && Index.Inherits(Graph(w.ns, [], []), definedIn, callerSelf.value)
        && Index.Inherits(Graph(w.ns, [], []), definedIn, receiver)
      else id in visibilities && visibilities[id] != Public ==> callerSelf == Some(receiver)
  {
    var g := Graph(w.ns, [], []);
    assert forall x :: Index.Tracked(g, definedIn, x) == Index.Inherits(g, definedIn, x);
  }

  /** `method_call_completion` once the receiver is known to be a namespace */
  method MethodCallCompletion(w: World, methods: set<DeclId>, visibilities: map<DeclId, Visibility>,
                              callerSelf: Option<DeclId>, receiver: DeclId) returns (candidates: seq<Candidate>)
    ensures Listed(w, KnownIds(ChainOf(w, receiver).ids), d => IsMethod(methods, d),
                   (d, id) => VisibleAtCall(w, visibilities, callerSelf, receiver, d, id), candidates)
  {
    var filter: Filter := d => IsMethod(methods, d);
    var visible: Visible := (d, id) => VisibleAtCall(w, visibilities, callerSelf, receiver, d, id);
    NothingListed(w, filter, visible);
    var seen, found := CollectChain(w, ChainOf(w, receiver).ids, filter, visible, {}, [], []);
    candidates := found;
    assert [] + KnownIds(ChainOf(w, receiver).ids) == KnownIds(ChainOf(w, receiver).ids);
  }

  lemma {:induction false} FirstMemberMore(members: Members, chain: seq<Ancestor>, last: Ancestor, name: StringId)
    ensures FirstMember(members, chain + [last], name) ==
      if FirstMember(members, chain, name).Some? then FirstMember(members, chain, name)
      else MemberAt(members, last, name)
    decreases |chain|
  {
    if chain == [] {
      assert chain + [last] == [last];
    } else {
      assert (chain + [last])[1..] == chain[1..] + [last];
      FirstMemberMore(members, chain[1..], last, name);
    }
  }

  /** A name that always stands for the same kind of member is found by completion where lookup finds it. */
  lemma {:induction false} HitIsFirstMember(w: World, chain: seq<Ancestor>, filter: Filter, name: StringId)
    requires forall d :: MemberOf(w, d, name).Some? ==> filter(MemberOf(w, d, name).value)
    ensures var hit := FirstHit(w, KnownIds(chain), filter, name);
      if hit.Some?
      then FirstMember(w.members, chain, name) == Some(hit.value.1)
        && Known(hit.value.0) in chain && MemberOf(w, hit.value.0, name) == Some(hit.value.1)
      else FirstMember(w.members, chain, name) == None
    decreases |chain|
  {
    if chain != [] {
      var front, last := chain[..|chain| - 1], chain[|chain| - 1];
      assert chain == front + [last];
      HitIsFirstMember(w, front, filter, name);
      FirstMemberMore(w.members, front, last, name);
      if last.Known? {
        FirstHitMore(w, KnownIds(front), last.id, filter, name);
      } else {
        assert KnownIds(chain) == KnownIds(front);
      }
    }
  }

  /** Method-call completion agrees with member lookup: every candidate is what a lookup of its name returns,
      there is at most one for each name, and a first hit that is not visible hides the name altogether. */
  lemma MethodCandidatesAreLookups(w: World, methods: set<DeclId>, visibilities: map<DeclId, Visibility>,
                                   callerSelf: Option<DeclId>, receiver: DeclId, candidates: seq<Candidate>, name: StringId)
    requires Listed(w, KnownIds(ChainOf(w, receiver).ids), d => IsMethod(methods, d),
                    (d, id) => VisibleAtCall(w, visibilities, callerSelf, receiver, d, id), candidates)
    requires forall d :: MemberOf(w, d, name).Some? ==> IsMethod(methods, MemberOf(w, d, name).value)
    ensures forall i, j | 0 <= i < j < |candidates| :: candidates[i].name != candidates[j].name
    ensures forall c | c in candidates && c.name == name ::
      FirstMember(w.members, ChainOf(w, receiver).ids, name) == Some(c.id)
    ensures FirstMember(w.members, ChainOf(w, receiver).ids, name).Some? ==>
      var id := FirstMember(w.members, ChainOf(w, receiver).ids, name).value;
      exists d :: Known(d) in ChainOf(w, receiver).ids && MemberOf(w, d, name) == Some(id)
        && if VisibleAtCall(w, visibilities, callerSelf, receiver, d, id) then Candidate(name, id) in candidates
           else forall c | c in candidates :: c.name != name
  {
    var filter: Filter := d => IsMethod(methods, d);
    var visible: Visible := (d, id) => VisibleAtCall(w, visibilities, callerSelf, receiver, d, id);
    var chain := ChainOf(w, receiver).ids;
    HitIsFirstMember(w, chain, filter, name);
    hide FirstMember, ChainOf, FirstHit, KnownIds, VisibleAtCall;
    var hit := FirstHit(w, KnownIds(chain), filter, name);
    if hit.Some? {
      var (d, id) := hit.value;
      var c := Candidate(name, id);
      assert VisibleHit(w, KnownIds(chain), filter, visible, c) <==> visible(d, id);
    }
  }

  // ---- constants ----

  predicate IsConstantKind(src: Source, d: DeclId) {
    IsNamespace(src, d) || KindOf(src, d) == Constant || KindOf(src, d) == ConstantAlias
  }

  /** The outer scopes, up to the first that is not resolved. */
  function OuterScopes(nesting: seq<NameRef>): seq<DeclId> {
    if nesting == [] || nesting[0].Unresolved? then [] else [nesting[0].declaration] + OuterScopes(nesting[1..])
  }

  function ObjectChain(w: World, innermost: DeclId): seq<Ancestor> {
    if KindOf(w.src, innermost) == Module then ChainOf(w, OBJECT).ids else []
  }

  function VisitedScopes(w: World, nesting: seq<NameRef>): seq<DeclId>
    requires nesting != [] && nesting[0].Resolved?
  {
    KnownIds(ChainOf(w, nesting[0].declaration).ids) + KnownIds(ObjectChain(w, nesting[0].declaration))
    + OuterScopes(nesting[1..])
  }

  /** The constants of `expression_completion`: the chain of the innermost scope, `Object`'s if that is a
      module, then the direct members of the outer scopes; an error if the innermost scope is unknown or not
      resolved. */
  method ConstantCompletion(w: World, nesting: seq<NameRef>) returns (candidates: Option<seq<Candidate>>)
    ensures candidates.None? <==> nesting == [] || nesting[0].Unresolved?
    ensures candidates.Some? ==>
      Listed(w, VisitedScopes(w, nesting), d => IsConstantKind(w.src, d), (_, _) => true, candidates.value)
  {
    if nesting == [] || nesting[0].Unresolved? { return None; }
    hide Listed, SeenNames, ChainOf, KnownIds, IsConstantKind;
    var filter: Filter := d => IsConstantKind(w.src, d);
    var visible: Visible := (_, _) => true;
    var innermost := nesting[0].declaration;
    var chain := ChainOf(w, innermost).ids;
    NothingListed(w, filter, visible);
    var seen, found := CollectChain(w, chain, filter, visible, {}, [], []);
    assert [] + KnownIds(chain) == KnownIds(chain);
    ghost var visited := KnownIds(chain);
    seen, found := CollectChain(w, ObjectChain(w, innermost), filter, visible, seen, found, visited);
    visited := visited + KnownIds(ObjectChain(w, innermost));
    var outer := nesting[1..];
    var i := 0;
    while i < |outer| && outer[i].Resolved?
      invariant 0 <= i <= |outer|
      invariant Listed(w, visited, filter, visible, found) && SeenNames(w, visited, filter, seen)
      invariant visited + OuterScopes(outer[i..]) == VisitedScopes(w, nesting)
    {
      assert outer[i..][1..] == outer[i + 1..];
      seen, found := CollectMembers(w, outer[i].declaration, filter, visible, seen, found, visited);
      assert visited + ([outer[i].declaration] + OuterScopes(outer[i + 1..]))
          == visited + [outer[i].declaration] + OuterScopes(outer[i + 1..]);
      visited := visited + [outer[i].declaration];
      i := i + 1;
    }
    candidates := Some(found);
    assert visited + [] == visited;
  }

  // ---- the names offered are the names that resolve ----

  lemma {:induction false} HitSomewhere(w: World, visited: seq<DeclId>, filter: Filter, name: StringId)
    requires forall d :: MemberOf(w, d, name).Some? ==> filter(MemberOf(w, d, name).value)
    ensures FirstHit(w, visited, filter, name).Some? <==> exists d :: d in visited && MemberOf(w, d, name).Some?
    decreases |visited|
  {
    if visited != [] {
      HitSomewhere(w, visited[..|visited| - 1], filter, name);
      assert visited == visited[..|visited| - 1] + [visited[|visited| - 1]];
    }
  }

  ghost predicate HasMember(w: World, ids: seq<DeclId>, name: StringId) {
    exists d :: d in ids && MemberOf(w, d, name).Some?
  }

  lemma HasMemberAppend(w: World, a: seq<DeclId>, b: seq<DeclId>, name: StringId)
    ensures HasMember(w, a + b, name) <==> HasMember(w, a, name) || HasMember(w, b, name)
  {
    if d :| d in a && MemberOf(w, d, name).Some? { assert d in a + b; }
    if d :| d in b && MemberOf(w, d, name).Some? { assert d in a + b; }
  }

  lemma HasMemberOne(w: World, d: DeclId, name: StringId)
    ensures HasMember(w, [d], name) <==> MemberOf(w, d, name).Some?
  {
    assert d in [d];
  }

  /** Scopes that are resolved are namespaces. */
  ghost predicate AliasFree(src: Source, nesting: seq<NameRef>) {
    forall i | 0 <= i < |nesting| && nesting[i].Resolved? ::
      Declared(src, nesting[i].declaration) && IsNamespace(src, nesting[i].declaration)
  }

  ghost predicate AllResolved(nesting: seq<NameRef>) {
    forall i | 0 <= i < |nesting| :: nesting[i].Resolved?
  }

  lemma {:induction false} LexicalIsMembership(w: World, nesting: seq<NameRef>, name: StringId)
    requires AliasFree(w.src, nesting)
    ensures SearchLexical(w, nesting, name).Found? <==> HasMember(w, OuterScopes(nesting), name)
    ensures SearchLexical(w, nesting, name).Found? ||
      SearchLexical(w, nesting, name) == if AllResolved(nesting) then NotFound(None) else Retry(None)
    decreases |nesting|
  {
    if nesting != [] && nesting[0].Unresolved? {
      assert !AllResolved(nesting);
    } else if nesting != [] {
      assert AllResolved(nesting) <==> AllResolved(nesting[1..]) by { assert nesting == [nesting[0]] + nesting[1..]; }
      LexicalIsMembership(w, nesting[1..], name);
      assert OuterScopes(nesting) == [nesting[0].declaration] + OuterScopes(nesting[1..]);
      assert ScopeMember(w, nesting[0].declaration, name) == MemberOf(w, nesting[0].declaration, name);
      var m := MemberOf(w, nesting[0].declaration, name);
      assert SearchLexical(w, nesting, name) == if m.Some? then Found(m.value, None) else SearchLexical(w, nesting[1..], name);
      HasMemberOne(w, nesting[0].declaration, name);
      HasMemberAppend(w, [nesting[0].declaration], OuterScopes(nesting[1..]), name);
    }
  }

  lemma NamespaceIsFirstScope(src: Source, d: DeclId)
    requires Declared(src, d) && IsNamespace(src, d)
    ensures FirstScope(src, AliasChains(src, d)) == Some(d) && !IsAlias(src, d)
  {
    assert IsEnd(src, d);
    assert [d][1..] == [];
    assert Walk(src, [d], {}) == [d] + Walk(src, [], {d});
  }

  lemma {:induction false} ChainMembership(w: World, chain: seq<Ancestor>, name: StringId)
    ensures FirstMember(w.members, chain, name).Some? <==> HasMember(w, KnownIds(chain), name)
    decreases |chain|
  {
    if chain != [] {
      var front, last := chain[..|chain| - 1], chain[|chain| - 1];
      assert chain == front + [last];
      ChainMembership(w, front, name);
      FirstMemberMore(w.members, front, last, name);
      if last.Known? {
        HasMemberOne(w, last.id, name);
        HasMemberAppend(w, KnownIds(front), [last.id], name);
      } else {
        assert KnownIds(chain) == KnownIds(front);
      }
    }
  }

  lemma FinishedSearch(w: World, d: DeclId, name: StringId)
    requires ChainOf(w, d).Finished()
    ensures SearchAncestors(w, d, name).Found? <==> HasMember(w, KnownIds(ChainOf(w, d).ids), name)
    ensures SearchAncestors(w, d, name).again == None && !SearchAncestors(w, d, name).Retry?
  {
    ChainMembership(w, ChainOf(w, d).ids, name);
  }

  /** Which names resolve inside an alias-free nesting whose innermost chain is finished. */
  lemma ResolvableNames(w: World, nesting: seq<NameRef>, name: StringId)
    requires nesting != [] && AliasFree(w.src, nesting) && AllResolved(nesting)
    requires ChainOf(w, nesting[0].declaration).Finished()
    ensures var d := nesting[0].declaration;
      RunResolution(w, nesting, name).Found? <==>
        || HasMember(w, OuterScopes(nesting), name)
        || HasMember(w, KnownIds(ChainOf(w, d).ids), name)
        || (KindOf(w.src, d) in {Module, Todo} && SearchAncestors(w, OBJECT, name).Found?)
  {
    var d := nesting[0].declaration;
    LexicalIsMembership(w, nesting, name);
    NamespaceIsFirstScope(w.src, d);
    FinishedSearch(w, d, name);
    hide SearchLexical, SearchAncestors, FirstScope, AliasChains, HasMember, OuterScopes, KnownIds, ChainOf, AliasFree;
  }

  lemma OfferedNames(w: World, nesting: seq<NameRef>, candidates: seq<Candidate>, name: StringId)
    requires nesting != [] && nesting[0].Resolved?
    requires Listed(w, VisitedScopes(w, nesting), d => IsConstantKind(w.src, d), (_, _) => true, candidates)
    requires forall d :: MemberOf(w, d, name).Some? ==> IsConstantKind(w.src, MemberOf(w, d, name).value)
    ensures (exists c :: c in candidates && c.name == name) <==> HasMember(w, VisitedScopes(w, nesting), name)
  {
    var filter: Filter := d => IsConstantKind(w.src, d);
    var visited := VisitedScopes(w, nesting);
    HitSomewhere(w, visited, filter, name);
    hide FirstHit, VisitedScopes, MemberOf;
    var hit := FirstHit(w, visited, filter, name);
    if hit.Some? { assert VisibleHit(w, visited, filter, (_, _) => true, Candidate(name, hit.value.1)); }
  }

  lemma VisitedMembership(w: World, nesting: seq<NameRef>, name: StringId)
    requires nesting != [] && nesting[0].Resolved?
    ensures var d := nesting[0].declaration;
      HasMember(w, VisitedScopes(w, nesting), name) <==>
        || HasMember(w, KnownIds(ChainOf(w, d).ids), name)
        || HasMember(w, KnownIds(ObjectChain(w, d)), name)
        || HasMember(w, OuterScopes(nesting[1..]), name)
  {
    var own, fallback := KnownIds(ChainOf(w, nesting[0].declaration).ids), KnownIds(ObjectChain(w, nesting[0].declaration));
    HasMemberAppend(w, own + fallback, OuterScopes(nesting[1..]), name);
    HasMemberAppend(w, own, fallback, name);
  }

  lemma {:induction false} KnownListed(chain: seq<Ancestor>, d: DeclId)
    ensures Known(d) in chain <==> d in KnownIds(chain)
    decreases |chain|
  {
    if chain != [] {
      KnownListed(chain[..|chain| - 1], d);
      assert chain == chain[..|chain| - 1] + [chain[|chain| - 1]];
    }
  }

  /** The constants offered are exactly the names that resolve, although the scopes are visited in another
      order; only inside a namespace that is still a placeholder the resolver alone falls back to `Object`. */
  lemma CompletionOffersWhatResolves(w: World, nesting: seq<NameRef>, candidates: seq<Candidate>, name: StringId)
    requires nesting != [] && AliasFree(w.src, nesting) && AllResolved(nesting)
    requires ChainOf(w, nesting[0].declaration).Finished() && ChainOf(w, OBJECT).Finished()
    requires Known(nesting[0].declaration) in ChainOf(w, nesting[0].declaration).ids
    requires Listed(w, VisitedScopes(w, nesting), d => IsConstantKind(w.src, d), (_, _) => true, candidates)
    requires forall d :: MemberOf(w, d, name).Some? ==> IsConstantKind(w.src, MemberOf(w, d, name).value)
    ensures var offered := exists c :: c in candidates && c.name == name;
      && (KindOf(w.src, nesting[0].declaration) != Todo ==> (offered <==> RunResolution(w, nesting, name).Found?))
      && (KindOf(w.src, nesting[0].declaration) == Todo ==>
            (offered || SearchAncestors(w, OBJECT, name).Found? <==> RunResolution(w, nesting, name).Found?))
  {
    var d := nesting[0].declaration;
    assert nesting[0].Resolved?;
    ResolvableNames(w, nesting, name);
    OfferedNames(w, nesting, candidates, name);
    VisitedMembership(w, nesting, name);
    InnermostListed(w, nesting, name);
    FinishedSearch(w, OBJECT, name);
    assert KindOf(w.src, d) != Module ==> !HasMember(w, KnownIds(ObjectChain(w, d)), name);
    hide Listed, HasMember, OuterScopes, KnownIds, ChainOf, AliasFree, RunResolution, SearchAncestors, MemberOf, VisitedScopes;
  }

  // ---- which constant is offered ----

  lemma {:induction false} FirstHitAppend(w: World, a: seq<DeclId>, b: seq<DeclId>, filter: Filter, name: StringId)
    ensures FirstHit(w, a + b, filter, name) ==
      if FirstHit(w, a, filter, name).Some? then FirstHit(w, a, filter, name) else FirstHit(w, b, filter, name)
    decreases |b|
  {
    if b == [] {
      assert a + b == a;
    } else {
      var front, last := b[..|b| - 1], b[|b| - 1];
      FirstHitAppend(w, a, front, filter, name);
      assert a + b == (a + front) + [last] && b == front + [last];
      FirstHitMore(w, a + front, last, filter, name);
      FirstHitMore(w, front, last, filter, name);
    }
  }

  /** The direct member of the first of these namespaces that has it. */
  ghost predicate FirstDirect(w: World, ids: seq<DeclId>, name: StringId, found: Option<DeclId>) {
    match found
    case None => forall k | 0 <= k < |ids| :: MemberOf(w, ids[k], name).None?
    case Some(id) => exists k :: 0 <= k < |ids| && FirstDirectAt(w, ids, name, id, k)
  }

  ghost predicate FirstDirectAt(w: World, ids: seq<DeclId>, name: StringId, id: DeclId, k: nat)
    requires k < |ids|
  {
    MemberOf(w, ids[k], name) == Some(id) && forall j | 0 <= j < k :: MemberOf(w, ids[j], name).None?
  }

  function IdOf(hit: Option<(DeclId, DeclId)>): Option<DeclId> {
    if hit.Some? then Some(hit.value.1) else None
  }

  lemma {:induction false} DirectHit(w: World, ids: seq<DeclId>, filter: Filter, name: StringId)
    requires forall d :: MemberOf(w, d, name).Some? ==> filter(MemberOf(w, d, name).value)
    ensures FirstDirect(w, ids, name, IdOf(FirstHit(w, ids, filter, name)))
    decreases |ids|
  {
    hide MemberOf;
    if ids != [] {
      var front, last := ids[..|ids| - 1], ids[|ids| - 1];
      DirectHit(w, front, filter, name);
      var earlier := IdOf(FirstHit(w, front, filter, name));
      assert forall k | 0 <= k < |front| :: front[k] == ids[k];
      if earlier.Some? {
        var k :| 0 <= k < |front| && FirstDirectAt(w, front, name, earlier.value, k);
        assert FirstDirectAt(w, ids, name, earlier.value, k);
      } else if MemberOf(w, last, name).Some? {
        assert FirstDirectAt(w, ids, name, MemberOf(w, last, name).value, |front|);
      }
    }
  }

  /** The constant offered under a name: the one inherited along the chain of the innermost scope; else, within a module,
      along that of `Object`; else the direct member of the nearest outer scope. */
  ghost predicate Offers(w: World, nesting: seq<NameRef>, name: StringId, id: DeclId)
    requires nesting != [] && nesting[0].Resolved?
  {
    var d := nesting[0].declaration;
    var chain := ChainOf(w, d).ids;
    var fallback := if KindOf(w.src, d) == Module then ChainOf(w, OBJECT).ids else [];
    || IsFirst(w.members, chain, name, Some(id))
    || (IsFirst(w.members, chain, name, None) && IsFirst(w.members, fallback, name, Some(id)))
    || (IsFirst(w.members, chain, name, None) && IsFirst(w.members, fallback, name, None)
        && FirstDirect(w, OuterScopes(nesting[1..]), name, Some(id)))
  }

  lemma OfferedIs(w: World, nesting: seq<NameRef>, candidates: seq<Candidate>, name: StringId, id: DeclId)
    requires nesting != [] && nesting[0].Resolved?
    requires Listed(w, VisitedScopes(w, nesting), d => IsConstantKind(w.src, d), (_, _) => true, candidates)
    requires forall d :: MemberOf(w, d, name).Some? ==> IsConstantKind(w.src, MemberOf(w, d, name).value)
    ensures Candidate(name, id) in candidates <==> Offers(w, nesting, name, id)
  {
    var filter: Filter := d => IsConstantKind(w.src, d);
    var chain, fallback := ChainOf(w, nesting[0].declaration).ids, ObjectChain(w, nesting[0].declaration);
    var outer := OuterScopes(nesting[1..]);
    HitIsFirstMember(w, chain, filter, name);
    HitIsFirstMember(w, fallback, filter, name);
    DirectHit(w, outer, filter, name);
    FirstHitAppend(w, KnownIds(chain) + KnownIds(fallback), outer, filter, name);
    FirstHitAppend(w, KnownIds(chain), KnownIds(fallback), filter, name);
    FirstIsOne(w.members, chain, name, None);
    FirstIsOne(w.members, chain, name, Some(id));
    FirstIsOne(w.members, fallback, name, None);
    FirstIsOne(w.members, fallback, name, Some(id));
    var hit := FirstHit(w, VisitedScopes(w, nesting), filter, name);
    assert Candidate(name, id) in candidates <==> IdOf(hit) == Some(id) by {
      hide FirstHit, VisitedScopes;
      assert VisibleHit(w, VisitedScopes(w, nesting), filter, (_, _) => true, Candidate(name, id)) <==> IdOf(hit) == Some(id);
    }
    hide FirstHit, KnownIds, ChainOf, OuterScopes, MemberOf, IsFirst, FirstMember;
    OneDirect(w, outer, name, IdOf(FirstHit(w, outer, filter, name)), Some(id));
  }

  lemma OneDirect(w: World, ids: seq<DeclId>, name: StringId, a: Option<DeclId>, b: Option<DeclId>)
    requires FirstDirect(w, ids, name, a)
    ensures FirstDirect(w, ids, name, b) <==> a == b
  {
    hide MemberOf;
    if FirstDirect(w, ids, name, b) && a.Some? && b.Some? {
      var i :| 0 <= i < |ids| && FirstDirectAt(w, ids, name, a.value, i);
      var j :| 0 <= j < |ids| && FirstDirectAt(w, ids, name, b.value, j);
      assert i == j;
    }
  }

  /** What is offered is what the name resolves to exactly if no enclosing scope has another direct member of that name:
      the resolver asks the scopes before the chain, completion after it. */
  lemma OfferedIsResolvedExactly(w: World, nesting: seq<NameRef>, candidates: seq<Candidate>, name: StringId, id: DeclId)
    requires nesting != [] && AliasFree(w.src, nesting) && AllResolved(nesting)
    requires ChainOf(w, nesting[0].declaration).Finished() && ChainOf(w, OBJECT).Finished()
    requires Known(nesting[0].declaration) in ChainOf(w, nesting[0].declaration).ids
    requires Listed(w, VisitedScopes(w, nesting), d => IsConstantKind(w.src, d), (_, _) => true, candidates)
    requires forall d :: MemberOf(w, d, name).Some? ==> IsConstantKind(w.src, MemberOf(w, d, name).value)
    requires Candidate(name, id) in candidates
    ensures RunResolution(w, nesting, name) == Found(id, None) <==>
      forall direct :: LexicalAnswer(w, nesting, name, Found(direct, None)) ==> direct == id
  {
    assert nesting[0].Resolved?;
    OfferedIs(w, nesting, candidates, name, id);
    LexicalIsMembership(w, nesting, name);
    LexicalSearchAsksNothing(w, nesting, name);
    var lexical := SearchLexical(w, nesting, name);
    forall direct ensures LexicalAnswer(w, nesting, name, Found(direct, None)) <==> lexical == Found(direct, None) {
      LexicalSearchIs(w, nesting, name, Found(direct, None));
    }
    hide LexicalAnswer;
    if lexical.Found? {
      hide SearchLexical, OuterScopes, Offers, Listed, SearchAncestors, HasMember;
      assert RunResolution(w, nesting, name) == lexical;
      assert lexical == Found(lexical.id, None);
    } else {
      NoOuterMember(w, nesting, name, id);
      InheritedIs(w, nesting, name, id);
    }
  }

  lemma NoOuterMember(w: World, nesting: seq<NameRef>, name: StringId, id: DeclId)
    requires nesting != [] && nesting[0].Resolved? && !HasMember(w, OuterScopes(nesting), name)
    ensures !FirstDirect(w, OuterScopes(nesting[1..]), name, Some(id))
  {
    var outer := OuterScopes(nesting[1..]);
    assert OuterScopes(nesting) == [nesting[0].declaration] + outer;
    HasMemberAppend(w, [nesting[0].declaration], outer, name);
    hide OuterScopes;
    if FirstDirect(w, outer, name, Some(id)) { DirectIsMember(w, outer, name, id); }
  }

  /** Where no scope has the member itself, what is offered is what is inherited. */
  lemma InheritedIs(w: World, nesting: seq<NameRef>, name: StringId, id: DeclId)
    requires nesting != [] && AliasFree(w.src, nesting) && nesting[0].Resolved? &&
      SearchLexical(w, nesting, name) == NotFound(None)
    requires ChainOf(w, nesting[0].declaration).Finished() && ChainOf(w, OBJECT).Finished()
    requires Offers(w, nesting, name, id) && !FirstDirect(w, OuterScopes(nesting[1..]), name, Some(id))
    ensures RunResolution(w, nesting, name) == Found(id, None)
  {
    var d := nesting[0].declaration;
    NamespaceIsFirstScope(w.src, d);
    hide FirstDirect, OuterScopes, SearchLexical, FirstScope, AliasChains, ChainOf, IsFirst, SearchChain, AliasFree;
    ChainAnswerIs(w, d, ChainOf(w, d), name, Found(id, None));
    ChainAnswerIs(w, d, ChainOf(w, d), name, NotFound(None));
    ChainAnswerIs(w, OBJECT, ChainOf(w, OBJECT), name, Found(id, None));
    if !IsFirst(w.members, ChainOf(w, d).ids, name, Some(id)) {
      NothingInNothing(w.members, name, id);
      assert KindOf(w.src, d) == Module;
      assert SearchAncestors(w, d, name) == NotFound(None) && SearchAncestors(w, OBJECT, name) == Found(id, None);
    }
  }

  lemma NothingInNothing(members: Members, name: StringId, id: DeclId)
    ensures !IsFirst(members, [], name, Some(id))
  {
  }

  lemma DirectIsMember(w: World, ids: seq<DeclId>, name: StringId, id: DeclId)
    requires FirstDirect(w, ids, name, Some(id))
    ensures HasMember(w, ids, name)
  {
    var k :| 0 <= k < |ids| && FirstDirectAt(w, ids, name, id, k);
    assert ids[k] in ids;
  }

  /** An outer scope that is not resolved yet stops the resolver: only direct members of the scopes inside it
      resolve, while completion offers what is inherited as well. */
  lemma UnresolvedScopeStopsLookup(w: World, nesting: seq<NameRef>, candidates: seq<Candidate>, name: StringId)
    requires nesting != [] && AliasFree(w.src, nesting) && nesting[0].Resolved? && !AllResolved(nesting)
    requires Known(nesting[0].declaration) in ChainOf(w, nesting[0].declaration).ids
    requires Listed(w, VisitedScopes(w, nesting), d => IsConstantKind(w.src, d), (_, _) => true, candidates)
    requires forall d :: MemberOf(w, d, name).Some? ==> IsConstantKind(w.src, MemberOf(w, d, name).value)
    ensures RunResolution(w, nesting, name).Found? <==> HasMember(w, OuterScopes(nesting), name)
    ensures RunResolution(w, nesting, name).Found? ==> exists c :: c in candidates && c.name == name
    ensures !RunResolution(w, nesting, name).Found? && (exists c :: c in candidates && c.name == name) ==>
      || HasMember(w, KnownIds(ChainOf(w, nesting[0].declaration).ids), name)
      || HasMember(w, KnownIds(ObjectChain(w, nesting[0].declaration)), name)
  {
    LexicalIsMembership(w, nesting, name);
    OfferedNames(w, nesting, candidates, name);
    VisitedMembership(w, nesting, name);
    InnermostListed(w, nesting, name);
    hide Listed, HasMember, OuterScopes, KnownIds, ChainOf, AliasFree, SearchAncestors, MemberOf, VisitedScopes, SearchLexical;
  }

  /** Inside a placeholder a constant of `Object` resolves and is not offered. */
  lemma PlaceholdersDisagree() returns (w: World, nesting: seq<NameRef>)
    ensures nesting != [] && AliasFree(w.src, nesting) && AllResolved(nesting) && KindOf(w.src, nesting[0].declaration) == Todo
    ensures ChainOf(w, nesting[0].declaration).Finished() && ChainOf(w, OBJECT).Finished()
    ensures Known(nesting[0].declaration) in ChainOf(w, nesting[0].declaration).ids
    ensures RunResolution(w, nesting, 0).Found? && !HasMember(w, VisitedScopes(w, nesting), 0)
  {
    var placeholder := Named(4);
    var chain := [Known(OBJECT)];
    var own := [Known(placeholder)];
    w := World(
      Source(map[0 := Class, 1 := Class, 2 := Class, 3 := Class, 4 := Todo], map[], map[], {}, map[]),
      map[OBJECT := Namespace(Complete(chain), {}, None), placeholder := Namespace(Complete(own), {}, None)],
      map[OBJECT := map[0 := BASIC_OBJECT]],
      map[]);
    nesting := [Resolved(placeholder)];
    ResolvableNames(w, nesting, 0);
    VisitedMembership(w, nesting, 0);
    ChainMembership(w, own, 0);
    FinishedSearch(w, OBJECT, 0);
    ChainMembership(w, chain, 0);
  }

  /** The direct members of the innermost scope are among those of its chain. */
  lemma InnermostListed(w: World, nesting: seq<NameRef>, name: StringId)
    requires nesting != [] && nesting[0].Resolved?
    requires Known(nesting[0].declaration) in ChainOf(w, nesting[0].declaration).ids
    ensures var own := KnownIds(ChainOf(w, nesting[0].declaration).ids);
      HasMember(w, OuterScopes(nesting), name) || HasMember(w, own, name)
      <==> HasMember(w, OuterScopes(nesting[1..]), name) || HasMember(w, own, name)
  {
    var d := nesting[0].declaration;
    KnownListed(ChainOf(w, d).ids, d);
    assert OuterScopes(nesting) == [d] + OuterScopes(nesting[1..]);
    HasMemberAppend(w, [d], OuterScopes(nesting[1..]), name);
    HasMemberOne(w, d, name);
  }
}
