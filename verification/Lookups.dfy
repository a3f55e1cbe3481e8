/** Looking up a member along an ancestor chain. */
module Lookups {
  import opened Declarations
  import opened Graphs

  type StringId = nat

  type Members = map<DeclId, map<StringId, DeclId>>

  /** What a lookup comes back with; the optional declaration is the one whose chain has to be seen again. */
  datatype Resolution =
    | Found(id: DeclId, again: Option<DeclId>)
    | NotFound(again: Option<DeclId>)
    | Retry(again: Option<DeclId>)

  /** The member a single entry of a chain contributes. */
  function MemberAt(members: Members, entry: Ancestor, name: StringId): Option<DeclId> {
    if entry.Known? && entry.id in members && name in members[entry.id]
    then Some(members[entry.id][name]) else None
  }

  /** The first entry of a chain that has the member decides. */
  function FirstMember(members: Members, chain: seq<Ancestor>, name: StringId): Option<DeclId> {
    if chain == [] then None
    else if MemberAt(members, chain[0], name).Some? then MemberAt(members, chain[0], name)
    else FirstMember(members, chain[1..], name)
  }

  /** The part of a chain behind the namespace itself. */
  function AfterMain(chain: seq<Ancestor>, d: DeclId): seq<Ancestor> {
    if chain == [] then [] else if chain[0] == Known(d) then chain[1..] else AfterMain(chain[1..], d)
  }

  /** `found` is the member of the first entry that has one of that name; it is nothing if no entry has. */
  ghost predicate IsFirst(members: Members, chain: seq<Ancestor>, name: StringId, found: Option<DeclId>) {
    match found
    case None => forall k | 0 <= k < |chain| :: MemberAt(members, chain[k], name).None?
    case Some(id) => exists k :: 0 <= k < |chain| && IsFirstAt(members, chain, name, id, k)
  }

  ghost predicate IsFirstAt(members: Members, chain: seq<Ancestor>, name: StringId, id: DeclId, k: nat)
    requires k < |chain|
  {
    MemberAt(members, chain[k], name) == Some(id) && forall j | 0 <= j < k :: MemberAt(members, chain[j], name).None?
  }

  /** The member found is that of an entry with none before it; nothing is found exactly if no entry has it. */
  lemma {:induction false} FirstMemberIsFirst(members: Members, chain: seq<Ancestor>, name: StringId)
    ensures IsFirst(members, chain, name, FirstMember(members, chain, name))
    decreases |chain|
  {
    if chain != [] && MemberAt(members, chain[0], name).None? {
      FirstMemberIsFirst(members, chain[1..], name);
      assert chain == [chain[0]] + chain[1..];
      if FirstMember(members, chain[1..], name).Some? {
        var id := FirstMember(members, chain, name).value;
        var k :| 0 <= k < |chain[1..]| && IsFirstAt(members, chain[1..], name, id, k);
        assert IsFirstAt(members, chain, name, id, k + 1);
      }
    } else if chain != [] {
      assert IsFirstAt(members, chain, name, FirstMember(members, chain, name).value, 0);
    }
  }

  /** There is only one such member. */
  lemma FirstIsOne(members: Members, chain: seq<Ancestor>, name: StringId, found: Option<DeclId>)
    ensures IsFirst(members, chain, name, found) <==> FirstMember(members, chain, name) == found
  {
    FirstMemberIsFirst(members, chain, name);
    var first := FirstMember(members, chain, name);
    hide FirstMember;
    if IsFirst(members, chain, name, found) {
      if found.Some? && first.Some? {
        var i :| 0 <= i < |chain| && IsFirstAt(members, chain, name, found.value, i);
        var j :| 0 <= j < |chain| && IsFirstAt(members, chain, name, first.value, j);
        assert i == j;
      }
    }
  }

  /** Inherited members are searched strictly behind the first occurrence of the namespace in its chain. */
  lemma {:induction false} AfterMainSplits(chain: seq<Ancestor>, d: DeclId)
    ensures if Known(d) in chain
      then exists k ::
        && 0 <= k < |chain| && chain[k] == Known(d) && Known(d) !in chain[..k]
        && AfterMain(chain, d) == chain[k + 1..]
      else AfterMain(chain, d) == []
    decreases |chain|
  {
    if chain != [] && chain[0] == Known(d) {
      assert Known(d) !in chain[..0];
    } else if chain != [] {
      AfterMainSplits(chain[1..], d);
      assert chain == [chain[0]] + chain[1..];
      if Known(d) in chain {
        var k :| 0 <= k < |chain[1..]| && chain[1..][k] == Known(d) && Known(d) !in chain[1..][..k]
          && AfterMain(chain[1..], d) == chain[1..][k + 1..];
        assert chain[..k + 1] == [chain[0]] + chain[1..][..k];
        assert chain[k + 1] == Known(d) && AfterMain(chain, d) == chain[k + 2..];
      }
    }
  }
}
