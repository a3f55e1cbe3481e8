/** Constant aliases: `resolve_alias_chains` and `resolve_to_namespace`. */
module Aliases {
  import opened Declarations

  predicate IsAlias(src: Source, d: DeclId) {
    d.Named? && d.key in src.kinds && src.kinds[d.key] == ConstantAlias
  }

  /** The distinct resolved targets named by a run of definitions, after those in `found`. */
  function TargetsFrom(src: Source, defs: seq<Definition>, found: seq<DeclId>): seq<DeclId> {
    if defs == [] then found
    else if defs[0].ConstantAliasDef? && Target(src, defs[0].target).Some? then
      var t := Target(src, defs[0].target).value;
      TargetsFrom(src, defs[1..], if t in found then found else found + [t])
    else TargetsFrom(src, defs[1..], found)
  }

  function AliasTargets(src: Source, d: DeclId): seq<DeclId> {
    if IsAlias(src, d) then TargetsFrom(src, DefinitionsOf(src, d), []) else []
  }

  /** An end of the alias graph: a declaration that is no alias, or an alias without targets. */
  predicate IsEnd(src: Source, d: DeclId) {
    AliasTargets(src, d) == []
  }

  ghost function AliasIds(src: Source): set<DeclId> {
    set k | k in src.kinds && src.kinds[k] == ConstantAlias :: Named(k)
  }

  /** The breadth-first walk, one queue element at a time. */
  function Walk(src: Source, queue: seq<DeclId>, seen: set<DeclId>): seq<DeclId>
    decreases |AliasIds(src) - seen|, |queue|
  {
    if queue == [] then []
    else if queue[0] in seen then Walk(src, queue[1..], seen)
    else if IsEnd(src, queue[0]) then
      SeenShrinks(src, seen, queue[0]);
      [queue[0]] + Walk(src, queue[1..], seen + {queue[0]})
    else
      SeenShrinks(src, seen, queue[0]);
      Walk(src, queue[1..] + AliasTargets(src, queue[0]), seen + {queue[0]})
  }

  lemma SeenShrinks(src: Source, seen: set<DeclId>, d: DeclId)
    ensures |AliasIds(src) - (seen + {d})| <= |AliasIds(src) - seen|
    ensures !IsEnd(src, d) && d !in seen ==> |AliasIds(src) - (seen + {d})| < |AliasIds(src) - seen|
  {
    var rest := AliasIds(src) - (seen + {d});
    var all := AliasIds(src) - seen;
    Subset(rest, all);
    if !IsEnd(src, d) && d !in seen {
      assert d in all;
      assert rest == all - {d};
    }
  }

  lemma Subset<T>(a: set<T>, b: set<T>)
    requires a <= b
    ensures |a| <= |b|
  {
    assert b == a + (b - a);
  }

  function AliasChains(src: Source, d: DeclId): seq<DeclId> {
    Walk(src, [d], {})
  }

  function FirstNamespace(src: Source, ids: seq<DeclId>): Option<DeclId> {
    if ids == [] then None
    else if Declared(src, ids[0]) && IsNamespace(src, ids[0]) then Some(ids[0])
    else FirstNamespace(src, ids[1..])
  }

  function ResolveToNamespace(src: Source, d: DeclId): Option<DeclId> {
    if !Declared(src, d) then None
    else if IsNamespace(src, d) then Some(d)
    else if IsAlias(src, d) then FirstNamespace(src, AliasChains(src, d))
    else None
  }
}
