/**
 The MLS library seen from the outside (sections 12.4.2 and 12.4.3.1 of RFC 9420). A commit is a base
 epoch, a sender and a membership effect; the nonce stands for the randomness that makes the bytes of
 two commits differ. A group keeps, besides its epoch and its leaves, the transcript of the commits
 merged into it, so that "the same group state" also means "the same commits, once each, in order".
 */
module Mls {
  import opened Wrappers

  type Name = string

  /** The leaves of the ratchet tree; a removed member leaves a blank behind. */
  type Leaves = seq<Option<Name>>

  datatype Effect = Add(names: seq<Name>) | Remove(leaves: set<nat>) | Update

  /** `intent` and `life` tag the command and the membership period the commit was created in. */
  datatype Commit = Commit(nonce: nat, base: nat, sender: Name, effect: Effect, intent: nat, life: nat)

  datatype Group = Group(epoch: nat, leaves: Leaves, transcript: seq<Commit>)

  datatype Welcome = Welcome(group: Group)

  /** A new member takes the leftmost blank leaf, or a new leaf at the right. */
  function AddLeaf(leaves: Leaves, name: Name): Leaves {
    if leaves == [] then [Some(name)]
    else if leaves[0] == None then [Some(name)] + leaves[1..]
    else [leaves[0]] + AddLeaf(leaves[1..], name)
  }

  function AddLeaves(leaves: Leaves, names: seq<Name>): Leaves
    decreases |names|
  {
    if names == [] then leaves else AddLeaves(AddLeaf(leaves, names[0]), names[1..])
  }

  function ApplyEffect(leaves: Leaves, effect: Effect): Leaves {
    match effect
    case Add(names) => AddLeaves(leaves, names)
    case Remove(gone) => seq(|leaves|, i requires 0 <= i < |leaves| => if i in gone then None else leaves[i])
    case Update => leaves
  }

  /** The non-blank leaves in order: MlsGroup::members. */
  function Members(leaves: Leaves): seq<Name> {
    if leaves == [] then []
    else (if leaves[0].Some? then [leaves[0].value] else []) + Members(leaves[1..])
  }

  function NewGroup(creator: Name): Group {
    Group(0, [Some(creator)], [])
  }

  /** Merging a staged commit. */
  function Merge(group: Group, commit: Commit): Group {
    Group(group.epoch + 1, ApplyEffect(group.leaves, commit.effect), group.transcript + [commit])
  }

  /** The reference state: the commits of `history` folded, in order, into a fresh group. */
  function Fold(creator: Name, history: seq<Commit>): (group: Group)
    ensures group.epoch == |history|
    ensures group.transcript == history
    decreases |history|
  {
    if history == [] then NewGroup(creator)
    else
      var rest := history[..|history| - 1];
      assert history == rest + [history[|history| - 1]];
      Merge(Fold(creator, rest), history[|history| - 1])
  }

  /** Folding one more accepted commit is merging it. */
  lemma FoldStep(creator: Name, history: seq<Commit>, k: nat)
    requires k < |history|
    ensures Fold(creator, history[..k + 1]) == Merge(Fold(creator, history[..k]), history[k])
  {
    assert history[..k + 1][..k] == history[..k];
  }

  /** Client::find_member_index_by_name: the first leaf carrying the name. */
  function FindMember(leaves: Leaves, name: Name): (index: Option<nat>)
    ensures index.Some? ==> index.value < |leaves| && leaves[index.value] == Some(name)
    ensures index.Some? ==> forall i | 0 <= i < index.value :: leaves[i] != Some(name)
    ensures index.None? ==> name !in Members(leaves)
  {
    if leaves == [] then None
    else if leaves[0] == Some(name) then Some(0)
    else
      var rest := FindMember(leaves[1..], name);
      if rest.Some? then Some(rest.value + 1) else None
  }

  /** Client::find_member_indices_by_name: fails on the first name that is not a member. */
  function FindMembers(leaves: Leaves, names: seq<Name>): (found: Option<set<nat>>) {
    if names == [] then Some({})
    else
      var first :- FindMember(leaves, names[0]);
      var rest :- FindMembers(leaves, names[1..]);
      Some({first} + rest)
  }
}
