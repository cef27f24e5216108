/** What the three epoch-changing commands do to the membership of the group once their commit is merged. */
module Membership {
  import opened Wrappers
  import opened Mls
  import opened Client

  lemma {:induction false} MemberIff(leaves: Leaves, name: Name)
    ensures name in Members(leaves) <==> exists i :: 0 <= i < |leaves| && leaves[i] == Some(name)
    decreases |leaves|
  {
    if leaves != [] {
      MemberIff(leaves[1..], name);
      assert leaves == [leaves[0]] + leaves[1..];
    }
  }

  /** Leaf `i` is the first one that carries its name, and the name is one of `names`. */
  ghost predicate FirstOf(leaves: Leaves, names: seq<Name>, i: nat) {
    && i < |leaves| && leaves[i].Some? && leaves[i].value in names
    && forall j | 0 <= j < i :: leaves[j] != leaves[i]
  }

  /** The lookup succeeds exactly on members, and finds the first leaf of each name. */
  lemma {:induction false} FindMembersIff(leaves: Leaves, names: seq<Name>)
    ensures FindMembers(leaves, names).Some? <==> forall n | n in names :: n in Members(leaves)
    ensures FindMembers(leaves, names).Some? ==>
              forall i: nat :: i in FindMembers(leaves, names).value <==> FirstOf(leaves, names, i)
    decreases |names|
  {
    hide Members;
    if names != [] {
      FindMembersIff(leaves, names[1..]);
      MemberIff(leaves, names[0]);
      assert names == [names[0]] + names[1..];
      assert forall n | n in names :: n == names[0] || n in names[1..];
    }
  }

  /** No two leaves carry the same name. */
  ghost predicate DistinctMembers(leaves: Leaves) {
    forall i, j | 0 <= i < j < |leaves| && leaves[i].Some? :: leaves[i] != leaves[j]
  }

  function Without(members: seq<Name>, names: seq<Name>): seq<Name> {
    if members == [] then []
    else (if members[0] in names then [] else [members[0]]) + Without(members[1..], names)
  }

  lemma {:induction false} BlankedMembers(leaves: Leaves, after: Leaves, names: seq<Name>)
    requires |after| == |leaves|
    requires forall i | 0 <= i < |leaves| ::
               after[i] == if leaves[i].Some? && leaves[i].value in names then None else leaves[i]
    ensures Members(after) == Without(Members(leaves), names)
    decreases |leaves|
  {
    assert leaves == [] <==> after == [];
    if leaves != [] {
      BlankedMembers(leaves[1..], after[1..], names);
      if leaves[0].Some? {
        WithoutCons(leaves[0].value, Members(leaves[1..]), names);
      } else {
        assert Members(leaves) == Members(leaves[1..]);
      }
    }
  }

  lemma WithoutCons(first: Name, rest: seq<Name>, names: seq<Name>)
    ensures Without([first] + rest, names) == (if first in names then [] else [first]) + Without(rest, names)
  {
    assert ([first] + rest)[1..] == rest;
  }

  /** The leaves of the named members turn blank, and the other leaves stay. */
  lemma RemovalBlanks(leaves: Leaves, names: seq<Name>)
    requires DistinctMembers(leaves) && FindMembers(leaves, names).Some?
    ensures Members(ApplyEffect(leaves, Remove(FindMembers(leaves, names).value))) == Without(Members(leaves), names)
  {
    hide Members, FindMembers;
    FindMembersIff(leaves, names);
    BlankedMembers(leaves, ApplyEffect(leaves, Remove(FindMembers(leaves, names).value)), names);
  }

  /** A new member takes the leftmost blank leaf, and a leaf of its own when there is none. */
  lemma {:induction false} AddLeafAt(leaves: Leaves, name: Name, i: nat)
    requires i <= |leaves| && (forall j | 0 <= j < i :: leaves[j].Some?) && (i < |leaves| ==> leaves[i].None?)
    ensures AddLeaf(leaves, name) == leaves[..i] + [Some(name)] + if i < |leaves| then leaves[i + 1..] else []
    decreases i
  {
    if i > 0 {
      var rest := leaves[1..];
      assert forall j | 0 <= j < i - 1 :: rest[j] == leaves[j + 1];
      AddLeafAt(rest, name, i - 1);
      assert leaves[..i] == [leaves[0]] + rest[..i - 1];
    }
  }

  lemma {:induction false} AddLeafMembers(leaves: Leaves, name: Name)
    ensures multiset(Members(AddLeaf(leaves, name))) == multiset(Members(leaves)) + multiset{name}
    decreases |leaves|
  {
    if leaves != [] && leaves[0].Some? {
      AddLeafMembers(leaves[1..], name);
      assert AddLeaf(leaves, name)[1..] == AddLeaf(leaves[1..], name);
    }
  }

  lemma {:induction false} AddLeavesMembers(leaves: Leaves, names: seq<Name>)
    ensures multiset(Members(AddLeaves(leaves, names))) == multiset(Members(leaves)) + multiset(names)
    decreases |names|
  {
    hide Members, AddLeaf;
    if names != [] {
      AddLeafMembers(leaves, names[0]);
      AddLeavesMembers(AddLeaf(leaves, names[0]), names[1..]);
      assert names == [names[0]] + names[1..];
    }
  }

  /** A command starts exactly in a group without a staged commit, and a removal only of members. */
  lemma StartsIff(client: ClientState, name: Name, intent: Intent, nonce: nat, life: nat)
    ensures StartEpochChange(client, name, intent, nonce, life).Ok? <==>
              && client.group.Some? && client.group.value.staged.None?
              && (intent.request.RemoveMembers? ==>
                    forall n | n in intent.request.names :: n in Members(client.group.value.state.leaves))
  {
    hide Members, FindMembers;
    if client.group.Some? && intent.request.RemoveMembers? {
      FindMembersIff(client.group.value.state.leaves, intent.request.names);
    }
  }

  /**
   The membership after the commit of a started command is merged: an add keeps every member and adds each listed
   name, a removal keeps exactly the members that are not named, in their order, and an update keeps all.
   */
  lemma MergedMembership(client: ClientState, name: Name, intent: Intent, nonce: nat, life: nat)
    requires StartEpochChange(client, name, intent, nonce, life).Ok?
    ensures var before := client.group.value.state;
            var merged := Merge(before, StartEpochChange(client, name, intent, nonce, life).value.1);
            match intent.request
            case AddMembers(names) =>
              multiset(Members(merged.leaves)) == multiset(Members(before.leaves)) + multiset(names)
            case RemoveMembers(names) =>
              DistinctMembers(before.leaves) ==> Members(merged.leaves) == Without(Members(before.leaves), names)
            case SelfUpdate => merged.leaves == before.leaves
  {
    hide Members, FindMembers, AddLeaves;
    var leaves := client.group.value.state.leaves;
    match intent.request {
      case AddMembers(names) => AddLeavesMembers(leaves, names);
      case RemoveMembers(names) =>
        if DistinctMembers(leaves) {
          RemovalBlanks(leaves, names);
        }
      case SelfUpdate =>
    }
  }
}
