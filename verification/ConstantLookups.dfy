/** Looking up an unqualified constant in what is stored: lexical scopes first, then the ancestors of the innermost
    one, then `Object` for modules. */
module ConstantLookups {
  import opened Declarations
  import opened Aliases
  import opened Graphs
  import opened Lookups

  /** `strings` gives the last segment of every name; chains are the stored ones. */
  datatype World = World(src: Source, ns: map<DeclId, Namespace>, members: Members, strings: map<NameId, StringId>)

  function ChainOf(w: World, d: DeclId): Ancestors {
    if d in w.ns then w.ns[d].ancestors else Partial([])
  }

  function MemberOf(w: World, d: DeclId, str: StringId): Option<DeclId> {
    MemberAt(w.members, Known(d), str)
  }

  /** A partial chain is searched up to the first name that may still turn out to have the member. */
  function SearchPartial(w: World, d: DeclId, ids: seq<Ancestor>, str: StringId): Resolution {
    if ids == [] then NotFound(Some(d))
    else if ids[0].Missing? then
      if ids[0].name in w.strings && w.strings[ids[0].name] == str then SearchPartial(w, d, ids[1..], str)
      else Retry(Some(d))
    else
      match MemberAt(w.members, ids[0], str)
      case Some(id) => Found(id, Some(d))
      case None => SearchPartial(w, d, ids[1..], str)
  }

  /** `search_ancestors` once the chain of `d` is known. */
  function SearchChain(w: World, d: DeclId, chain: Ancestors, str: StringId): Resolution {
    match chain
    case Partial(ids) => SearchPartial(w, d, ids, str)
    case _ =>
      match FirstMember(w.members, chain.ids, str)
      case Some(id) => Found(id, None)
      case None => NotFound(None)
  }

  function SearchAncestors(w: World, d: DeclId, str: StringId): Resolution {
    SearchChain(w, d, ChainOf(w, d), str)
  }

  /** The direct member a lexical scope contributes. */
  function ScopeMember(w: World, scope: DeclId, str: StringId): Option<DeclId> {
    match ResolveToNamespace(w.src, scope)
    case Some(d) => MemberOf(w, d, str)
    case None => None
  }

  /** `nesting` lists the enclosing scopes, innermost first. */
  function SearchLexical(w: World, nesting: seq<NameRef>, str: StringId): Resolution {
    if nesting == [] then NotFound(None)
    else if nesting[0].Unresolved? then Retry(None)
    else
      match ScopeMember(w, nesting[0].declaration, str)
      case Some(id) => Found(id, None)
      case None => SearchLexical(w, nesting[1..], str)
  }

  /** The first alias or namespace among the ends an innermost scope leads to. */
  function FirstScope(src: Source, ids: seq<DeclId>): Option<DeclId> {
    if ids == [] then None
    else if IsAlias(src, ids[0]) || IsNamespace(src, ids[0]) then Some(ids[0])
    else FirstScope(src, ids[1..])
  }

  /** The inherited part of a lookup, and the namespace it was made in. */
  function SearchInnermost(w: World, scope: NameRef, str: StringId): (Resolution, Option<DeclId>) {
    if scope.Unresolved? then (Retry(None), None)
    else
      match FirstScope(w.src, AliasChains(w.src, scope.declaration))
      case None => (NotFound(None), None)
      case Some(d) => if IsAlias(w.src, d) then (Retry(None), None) else (SearchAncestors(w, d, str), Some(d))
  }

  function WithObject(w: World, inherited: Resolution, scope: Option<DeclId>, str: StringId): Resolution {
    var isModule := scope.Some? && KindOf(w.src, scope.value) in {Module, Todo};
    var incomplete := !inherited.Found? && inherited.again.Some?;
    if (isModule || incomplete) && SearchAncestors(w, OBJECT, str).Found?
    then Found(SearchAncestors(w, OBJECT, str).id, inherited.again)
    else inherited
  }

  /** `run_resolution` for a name without parent scope */
  function RunResolution(w: World, nesting: seq<NameRef>, str: StringId): Resolution {
    if nesting == [] then SearchAncestors(w, OBJECT, str)
    else
      var lexical := SearchLexical(w, nesting, str);
      if !lexical.NotFound? then lexical
      else
        var (inherited, scope) := SearchInnermost(w, nesting[0], str);
        if inherited.Found? then inherited else WithObject(w, inherited, scope, str)
  }

  lemma {:induction false} PartialSearchNamesItself(w: World, d: DeclId, ids: seq<Ancestor>, str: StringId)
    ensures SearchPartial(w, d, ids, str).again == Some(d)
    decreases |ids|
  {
    if ids != [] { PartialSearchNamesItself(w, d, ids[1..], str); }
  }

  /** A lookup asks for a declaration to be linearized again only if its chain is still partial. */
  lemma AgainMeansPartial(w: World, nesting: seq<NameRef>, str: StringId)
    ensures var again := RunResolution(w, nesting, str).again;
      again.Some? ==> ChainOf(w, again.value).Partial?
  {
    forall d: DeclId ensures SearchAncestors(w, d, str).again.Some? ==>
      ChainOf(w, d).Partial? && SearchAncestors(w, d, str).again == Some(d)
    {
      if ChainOf(w, d).Partial? { PartialSearchNamesItself(w, d, ChainOf(w, d).ids, str); }
    }
    hide SearchPartial, SearchAncestors, ChainOf, AliasChains, FirstScope;
    LexicalSearchAsksNothing(w, nesting, str);
  }

  lemma {:induction false} LexicalSearchAsksNothing(w: World, nesting: seq<NameRef>, str: StringId)
    ensures SearchLexical(w, nesting, str).again == None
    decreases |nesting|
  {
    hide ScopeMember;
    if nesting != [] { LexicalSearchAsksNothing(w, nesting[1..], str); }
  }

  // ---- what a search answers, by the entries of the chain ----

  /** An entry that neither has the member nor may turn out to have it: an unresolved name is passed only if it is
      written like the constant itself. */
  predicate Passed(w: World, entry: Ancestor, str: StringId) {
    match entry
    case Known(d) => MemberOf(w, d, str).None?
    case Missing(name) => name in w.strings && w.strings[name] == str
  }

  /** Entry `k` is the first that is not passed. */
  predicate StopsAt(w: World, ids: seq<Ancestor>, str: StringId, k: nat) {
    k < |ids| && !Passed(w, ids[k], str) && forall j | 0 <= j < k :: Passed(w, ids[j], str)
  }

  lemma StopsLater(w: World, ids: seq<Ancestor>, str: StringId, k: nat)
    requires ids != [] && Passed(w, ids[0], str)
    ensures StopsAt(w, ids, str, k) <==> k > 0 && StopsAt(w, ids[1..], str, k - 1)
  {
    assert ids == [ids[0]] + ids[1..];
    hide Passed;
    if k > 0 && StopsAt(w, ids[1..], str, k - 1) {
      forall j | 0 <= j < k ensures Passed(w, ids[j], str) {
        if j > 0 { assert Passed(w, ids[1..][j - 1], str); }
      }
    }
    if k > 0 && StopsAt(w, ids, str, k) {
      forall j | 0 <= j < k - 1 ensures Passed(w, ids[1..][j], str) { assert Passed(w, ids[j + 1], str); }
    }
  }

  /** What an unfinished chain answers is decided by its first entry that has the member or may have it: a declaration
      that has it is found, an unresolved name stops the search. */
  ghost predicate PartialAnswer(w: World, d: DeclId, ids: seq<Ancestor>, str: StringId, r: Resolution) {
    match r
    case Found(id, again) =>
      again == Some(d) && exists k: nat :: StopsAt(w, ids, str, k) && ids[k].Known? && MemberOf(w, ids[k].id, str) == Some(id)
    case Retry(again) => again == Some(d) && exists k: nat :: StopsAt(w, ids, str, k) && ids[k].Missing?
    case NotFound(again) => again == Some(d) && forall k | 0 <= k < |ids| :: Passed(w, ids[k], str)
  }

  lemma {:induction false} PartialSearchAnswers(w: World, d: DeclId, ids: seq<Ancestor>, str: StringId)
    ensures PartialAnswer(w, d, ids, str, SearchPartial(w, d, ids, str))
    decreases |ids|
  {
    if ids != [] {
      if !Passed(w, ids[0], str) {
        assert StopsAt(w, ids, str, 0);
      } else {
        PartialSearchAnswers(w, d, ids[1..], str);
        assert SearchPartial(w, d, ids, str) == SearchPartial(w, d, ids[1..], str);
        hide SearchPartial, Passed, MemberOf;
        AnswersLater(w, d, ids, str, SearchPartial(w, d, ids[1..], str));
      }
    }
  }

  lemma AnswersLater(w: World, d: DeclId, ids: seq<Ancestor>, str: StringId, r: Resolution)
    requires ids != [] && Passed(w, ids[0], str) && PartialAnswer(w, d, ids[1..], str, r)
    ensures PartialAnswer(w, d, ids, str, r)
  {
    hide Passed, MemberOf;
    forall k: nat ensures StopsAt(w, ids[1..], str, k) ==> StopsAt(w, ids, str, k + 1) { StopsLater(w, ids, str, k + 1); }
    if !r.NotFound? {
      var k: nat :| StopsAt(w, ids[1..], str, k) && ids[1..][k].Known? == r.Found?
        && (r.Found? ==> MemberOf(w, ids[1..][k].id, str) == Some(r.id));
      assert StopsAt(w, ids, str, k + 1) && ids[k + 1] == ids[1..][k];
    }
  }

  /** There is one answer, so it holds in both directions. */
  lemma PartialSearchIs(w: World, d: DeclId, ids: seq<Ancestor>, str: StringId, r: Resolution)
    ensures SearchPartial(w, d, ids, str) == r <==> PartialAnswer(w, d, ids, str, r)
  {
    PartialSearchAnswers(w, d, ids, str);
    var q := SearchPartial(w, d, ids, str);
    hide SearchPartial, Passed, MemberOf;
    if PartialAnswer(w, d, ids, str, r) {
      assert forall j: nat, k: nat | StopsAt(w, ids, str, j) && StopsAt(w, ids, str, k) :: j == k;
    }
  }

  /** What a chain answers: an unfinished one as above, a finished one by its first entry that has the member. */
  ghost predicate Answer(w: World, d: DeclId, chain: Ancestors, str: StringId, r: Resolution) {
    if chain.Partial? then PartialAnswer(w, d, chain.ids, str, r)
    else
      match r
      case Found(id, again) => again == None && IsFirst(w.members, chain.ids, str, Some(id))
      case NotFound(again) => again == None && IsFirst(w.members, chain.ids, str, None)
      case Retry(_) => false
  }

  lemma ChainAnswerIs(w: World, d: DeclId, chain: Ancestors, str: StringId, r: Resolution)
    ensures SearchChain(w, d, chain, str) == r <==> Answer(w, d, chain, str, r)
  {
    PartialSearchIs(w, d, chain.ids, str, r);
    FirstIsOne(w.members, chain.ids, str, None);
    if r.Found? { FirstIsOne(w.members, chain.ids, str, Some(r.id)); }
    hide PartialAnswer, SearchPartial, FirstMember, IsFirst;
  }

  /** What the enclosing scopes answer, innermost first: the direct member of the first that has it, unless one before
      it is unresolved. */
  ghost predicate LexicalAnswer(w: World, nesting: seq<NameRef>, str: StringId, r: Resolution) {
    match r
    case Found(id, again) => again == None && exists k: nat :: FoundInScope(w, nesting, str, k, id)
    case Retry(again) => again == None && exists k: nat :: OpenUpTo(w, nesting, str, k) && k < |nesting| && nesting[k].Unresolved?
    case NotFound(again) => again == None && OpenUpTo(w, nesting, str, |nesting|)
  }

  /** The innermost `k` scopes are resolved and do not have the member. */
  predicate OpenUpTo(w: World, nesting: seq<NameRef>, str: StringId, k: nat) {
    k <= |nesting| && forall j | 0 <= j < k :: nesting[j].Resolved? && ScopeMember(w, nesting[j].declaration, str).None?
  }

  predicate FoundInScope(w: World, nesting: seq<NameRef>, str: StringId, k: nat, id: DeclId) {
    && k < |nesting| && OpenUpTo(w, nesting, str, k)
    && nesting[k].Resolved? && ScopeMember(w, nesting[k].declaration, str) == Some(id)
  }

  lemma {:induction false} LexicalSearchAnswers(w: World, nesting: seq<NameRef>, str: StringId)
    ensures LexicalAnswer(w, nesting, str, SearchLexical(w, nesting, str))
    decreases |nesting|
  {
    hide ScopeMember;
    if nesting != [] {
      assert OpenUpTo(w, nesting, str, 0);
      if nesting[0].Resolved? && ScopeMember(w, nesting[0].declaration, str).Some? {
        assert FoundInScope(w, nesting, str, 0, ScopeMember(w, nesting[0].declaration, str).value);
      }
      if nesting[0].Resolved? && ScopeMember(w, nesting[0].declaration, str).None? {
        LexicalSearchAnswers(w, nesting[1..], str);
        var r := SearchLexical(w, nesting[1..], str);
        assert SearchLexical(w, nesting, str) == r;
        hide SearchLexical;
        assert nesting == [nesting[0]] + nesting[1..];
        forall k: nat ensures OpenUpTo(w, nesting[1..], str, k) ==> OpenUpTo(w, nesting, str, k + 1) {
          if OpenUpTo(w, nesting[1..], str, k) {
            forall j | 0 <= j < k + 1 ensures nesting[j].Resolved? && ScopeMember(w, nesting[j].declaration, str).None? {
              if j > 0 { assert nesting[1..][j - 1].Resolved? && ScopeMember(w, nesting[1..][j - 1].declaration, str).None?; }
            }
          }
        }
        if !r.NotFound? {
          var k: nat :| if r.Found? then FoundInScope(w, nesting[1..], str, k, r.id)
            else OpenUpTo(w, nesting[1..], str, k) && k < |nesting[1..]| && nesting[1..][k].Unresolved?;
          assert nesting[k + 1] == nesting[1..][k] && OpenUpTo(w, nesting, str, k + 1);
          if r.Found? { assert FoundInScope(w, nesting, str, k + 1, r.id); }
        } else {
          assert OpenUpTo(w, nesting, str, |nesting[1..]| + 1);
        }
      }
    }
  }

  lemma LexicalSearchIs(w: World, nesting: seq<NameRef>, str: StringId, r: Resolution)
    ensures SearchLexical(w, nesting, str) == r <==> LexicalAnswer(w, nesting, str, r)
  {
    LexicalSearchAnswers(w, nesting, str);
    var q := SearchLexical(w, nesting, str);
    hide SearchLexical, ScopeMember;
    if LexicalAnswer(w, nesting, str, r) {
      assert forall j: nat, k: nat | OpenUpTo(w, nesting, str, j) && OpenUpTo(w, nesting, str, k) && j < k :: nesting[j].Resolved?;
    }
  }

  // ---- the loops ----

  /** The loops of `search_ancestors` over a chain. */
  method SearchChainLoop(w: World, d: DeclId, chain: Ancestors, str: StringId) returns (r: Resolution)
    ensures r == SearchChain(w, d, chain, str)
  {
    var ids := chain.ids;
    if chain.Partial? {
      for i := 0 to |ids|
        invariant SearchPartial(w, d, ids, str) == SearchPartial(w, d, ids[i..], str)
      {
        assert ids[i..][1..] == ids[i + 1..];
        match ids[i]
        case Missing(name) =>
          if !(name in w.strings && w.strings[name] == str) { return Retry(Some(d)); }
        case Known(a) =>
          var m := MemberOf(w, a, str);
          if m.Some? { return Found(m.value, Some(d)); }
      }
      return NotFound(Some(d));
    }
    for i := 0 to |ids|
      invariant FirstMember(w.members, ids, str) == FirstMember(w.members, ids[i..], str)
    {
      assert ids[i..][1..] == ids[i + 1..];
      var m := MemberAt(w.members, ids[i], str);
      if m.Some? { return Found(m.value, None); }
    }
    r := NotFound(None);
  }

  method SearchLexicalScopes(w: World, nesting: seq<NameRef>, str: StringId) returns (r: Resolution)
    ensures r == SearchLexical(w, nesting, str)
  {
    for i := 0 to |nesting|
      invariant SearchLexical(w, nesting, str) == SearchLexical(w, nesting[i..], str)
    {
      assert nesting[i..][1..] == nesting[i + 1..];
      if nesting[i].Unresolved? { return Retry(None); }
      var m := ScopeMember(w, nesting[i].declaration, str);
      if m.Some? { return Found(m.value, None); }
    }
    r := NotFound(None);
  }

  /** The loop over the ends an innermost scope leads to. */
  method FindScope(src: Source, ids: seq<DeclId>) returns (d: Option<DeclId>)
    ensures d == FirstScope(src, ids)
  {
    for i := 0 to |ids|
      invariant FirstScope(src, ids) == FirstScope(src, ids[i..])
    {
      assert ids[i..][1..] == ids[i + 1..];
      if IsAlias(src, ids[i]) || IsNamespace(src, ids[i]) { return Some(ids[i]); }
    }
    d := None;
  }
}
