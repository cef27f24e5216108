/**
 The client's pending-commit state machine: at most one unmerged commit, kept twice. The MLS group holds
 the staged commit, and the client holds the commit bytes, the Welcome and its recipients beside it.
 */
module Client {
  import opened Wrappers
  import opened Mls

  /** The library's group with its own pending commit (MlsGroupState::PendingCommit). */
  datatype MlsGroup = MlsGroup(state: Group, staged: Option<Commit>)

  datatype ClientState = ClientState(
    group: Option<MlsGroup>,
    pendingCommit: Option<Commit>,
    pendingWelcome: Option<Welcome>,
    welcomeRecipients: seq<Name>)

  datatype Request = AddMembers(names: seq<Name>) | RemoveMembers(names: seq<Name>) | SelfUpdate

  /** A command that changes the epoch; the token tells two equal commands apart. */
  datatype Intent = Intent(token: nat, request: Request)

  datatype ClientError = NotInGroup | CommitPending | MemberNotFound | WrongEpoch | OwnCommit

  datatype Outcome =
    | OwnCommitAccepted(selfRemoved: bool, recipients: seq<Name>, welcome: Option<Welcome>)
    | ExternalCommitApplied(selfRemoved: bool)

  function Fresh(): ClientState {
    ClientState(None, None, None, [])
  }

  /** The effect a request has on the group it is issued in. */
  function EffectOf(leaves: Leaves, request: Request): Option<Effect> {
    match request
    case AddMembers(names) => Some(Add(names))
    case RemoveMembers(names) =>
      var gone :- FindMembers(leaves, names);
      Some(Remove(gone))
    case SelfUpdate => Some(Update)
  }

  /**
   add_members, remove_members and self_update: the library refuses while a commit is pending; otherwise
   the commit is staged in the group and stored, with its Welcome, in the client.
   */
  function StartEpochChange(client: ClientState, name: Name, intent: Intent, nonce: nat, life: nat):
    Result<(ClientState, Commit), ClientError>
  {
    if client.group.None? then Err(NotInGroup)
    else
      var group := client.group.value;
      var effect := EffectOf(group.state.leaves, intent.request);
      if effect.None? then Err(MemberNotFound)
      else if group.staged.Some? then Err(CommitPending)
      else
        var commit := Commit(nonce, group.state.epoch, name, effect.value, intent.token, life);
        var adding := intent.request.AddMembers?;
        Ok((ClientState(
              Some(group.(staged := Some(commit))),
              Some(commit),
              if adding then Some(Welcome(Merge(group.state, commit))) else None,
              if adding then intent.request.names else []),
            commit))
  }

  function RollbackPendingCommit(client: ClientState): Result<ClientState, ClientError> {
    if client.group.None? then Err(NotInGroup)
    else Ok(ClientState(Some(client.group.value.(staged := None)), None, None, []))
  }

  /** cleanup_if_removed: a client that finds its name nowhere in the group forgets everything. */
  function CleanupIfRemoved(client: ClientState, name: Name): (ClientState, bool)
    requires client.group.Some?
  {
    if name in Members(client.group.value.state.leaves) then (client, false) else (Fresh(), true)
  }

  /** merge_pending_commit: silently does nothing when no commit is staged. */
  function MergePendingCommit(group: MlsGroup): MlsGroup {
    if group.staged.Some? then MlsGroup(Merge(group.state, group.staged.value), None) else group
  }

  function ReceiveCommit(client: ClientState, name: Name, commit: Commit): Result<(ClientState, Outcome), ClientError> {
    if client.pendingCommit == Some(commit) then
      if client.group.None? then Err(NotInGroup)
      else
        var merged := ClientState(Some(MergePendingCommit(client.group.value)), None, None, []);
        var (cleaned, removed) := CleanupIfRemoved(merged, name);
        Ok((cleaned, OwnCommitAccepted(removed, client.welcomeRecipients, client.pendingWelcome)))
    else if client.group.None? then Err(NotInGroup)
    else
      var group := client.group.value;
      if commit.base != group.state.epoch then Err(WrongEpoch)
      else if commit.sender == name then Err(OwnCommit)
      else
        // Merging a staged commit clears the library's pending commit; the stored bytes stay behind.
        var merged := client.(group := Some(MlsGroup(Merge(group.state, commit), None)));
        var (cleaned, removed) := CleanupIfRemoved(merged, name);
        Ok((cleaned, ExternalCommitApplied(removed)))
  }

  /** join_from_welcome: the old group and the pending state are dropped even when the Welcome is unreadable. */
  function JoinFromWelcome(welcome: Option<Welcome>): ClientState {
    ClientState(if welcome.Some? then Some(MlsGroup(welcome.value.group, None)) else None, None, None, [])
  }

  // ---- the two copies of the pending commit

  /**
   The stored commit is the staged one, at the current epoch, or a leftover from an earlier epoch that an
   external commit ended.
   */
  ghost predicate Coherent(client: ClientState) {
    match client.group
    case None => client.pendingCommit.None?
    case Some(group) =>
      && (group.staged.Some? ==> client.pendingCommit == group.staged && group.staged.value.base == group.state.epoch)
      && (group.staged.None? && client.pendingCommit.Some? ==> client.pendingCommit.value.base < group.state.epoch)
  }

  function GroupOf(client: ClientState): Option<Group> {
    if client.group.Some? then Some(client.group.value.state) else None
  }

  lemma StartKeepsCoherent(client: ClientState, name: Name, intent: Intent, nonce: nat, life: nat)
    requires Coherent(client) && StartEpochChange(client, name, intent, nonce, life).Ok?
    ensures var (after, commit) := StartEpochChange(client, name, intent, nonce, life).value;
            && Coherent(after) && GroupOf(after) == GroupOf(client)
            && after.pendingCommit == Some(commit) && commit.base == client.group.value.state.epoch
  {
  }

  /** Rolling back undoes a start: the group is as before and nothing is pending. */
  lemma RollbackUndoesStart(client: ClientState, name: Name, intent: Intent, nonce: nat, life: nat)
    requires Coherent(client) && StartEpochChange(client, name, intent, nonce, life).Ok?
    ensures var started := StartEpochChange(client, name, intent, nonce, life).value.0;
            && RollbackPendingCommit(started).Ok?
            && RollbackPendingCommit(started).value == ClientState(client.group, None, None, [])
  {
  }

  /**
   A commit that is not behind the client's epoch is received successfully only at that very epoch, and then
   it is merged exactly once, on both branches.
   */
  lemma ReceiveMergesOnce(client: ClientState, name: Name, commit: Commit)
    requires Coherent(client)
    requires client.group.Some? ==> commit.base >= client.group.value.state.epoch
    requires ReceiveCommit(client, name, commit).Ok?
    ensures client.group.Some? && commit.base == client.group.value.state.epoch
    ensures var (after, outcome) := ReceiveCommit(client, name, commit).value;
            && Coherent(after)
            && (outcome.selfRemoved <==> after.group.None?)
            && (outcome.selfRemoved <==> name !in Members(Merge(client.group.value.state, commit).leaves))
            && (outcome.selfRemoved ==> after == Fresh())
            && (!outcome.selfRemoved ==> GroupOf(after) == Some(Merge(client.group.value.state, commit)))
  {
  }

  /** The object whose fields those functions describe. */
  class ClientObject {
    const name: Name
    var group: Option<MlsGroup>
    var pendingCommit: Option<Commit>
    var pendingWelcome: Option<Welcome>
    var welcomeRecipients: seq<Name>

    constructor (name: Name)
      ensures this.name == name && State() == Fresh()
    {
      this.name := name;
      group, pendingCommit, pendingWelcome, welcomeRecipients := None, None, None, [];
    }

    function State(): ClientState
      reads this
    {
      ClientState(group, pendingCommit, pendingWelcome, welcomeRecipients)
    }

    method ClearPendingLocalState()
      modifies this
      ensures State() == ClientState(old(group), None, None, [])
    {
      pendingCommit, pendingWelcome, welcomeRecipients := None, None, [];
    }

    method Start(intent: Intent, nonce: nat, life: nat) returns (result: Result<Commit, ClientError>)
      modifies this
      ensures match StartEpochChange(old(State()), name, intent, nonce, life)
              case Ok((state, commit)) => result == Ok(commit) && State() == state
              case Err(error) => result == Err(error) && State() == old(State())
    {
      if group.None? {
        return Err(NotInGroup);
      }
      var effect := EffectOf(group.value.state.leaves, intent.request);
      if effect.None? {
        return Err(MemberNotFound);
      }
      if group.value.staged.Some? {
        return Err(CommitPending);
      }
      var before := group.value.state;
      var commit := Commit(nonce, before.epoch, name, effect.value, intent.token, life);
      group := Some(MlsGroup(before, Some(commit)));
      pendingCommit := Some(commit);
      if intent.request.AddMembers? {
        pendingWelcome, welcomeRecipients := Some(Welcome(Merge(before, commit))), intent.request.names;
      } else {
        pendingWelcome, welcomeRecipients := None, [];
      }
      return Ok(commit);
    }

    method Rollback() returns (result: Result<(), ClientError>)
      modifies this
      ensures match RollbackPendingCommit(old(State()))
              case Ok(state) => result == Ok(()) && State() == state
              case Err(error) => result == Err(error) && State() == old(State())
    {
      if group.None? {
        return Err(NotInGroup);
      }
      group := Some(group.value.(staged := None));
      ClearPendingLocalState();
      return Ok(());
    }

    method CleanUp() returns (removed: bool)
      requires group.Some?
      modifies this
      ensures (State(), removed) == CleanupIfRemoved(old(State()), name)
    {
      if name in Members(group.value.state.leaves) {
        return false;
      }
      group := None;
      ClearPendingLocalState();
      return true;
    }

    method Receive(commit: Commit) returns (result: Result<Outcome, ClientError>)
      modifies this
      ensures match ReceiveCommit(old(State()), name, commit)
              case Ok((state, outcome)) => result == Ok(outcome) && State() == state
              case Err(error) => result == Err(error) && State() == old(State())
    {
      if pendingCommit == Some(commit) {
        if group.None? {
          return Err(NotInGroup);
        }
        if group.value.staged.Some? {
          group := Some(MlsGroup(Merge(group.value.state, group.value.staged.value), None));
        }
        var recipients, welcome := welcomeRecipients, pendingWelcome;
        pendingWelcome, welcomeRecipients := None, [];
        pendingCommit := None;
        var removed := CleanUp();
        return Ok(OwnCommitAccepted(removed, recipients, welcome));
      }
      if group.None? {
        return Err(NotInGroup);
      }
      if commit.base != group.value.state.epoch {
        return Err(WrongEpoch);
      }
      if commit.sender == name {
        return Err(OwnCommit);
      }
      group := Some(MlsGroup(Merge(group.value.state, commit), None));
      var removed := CleanUp();
      return Ok(ExternalCommitApplied(removed));
    }

    method Join(welcome: Option<Welcome>) returns (joined: bool)
      modifies this
      ensures State() == JoinFromWelcome(welcome) && joined == welcome.Some?
    {
      group := None;
      ClearPendingLocalState();
      if welcome.Some? {
        group := Some(MlsGroup(welcome.value.group, None));
      }
      return welcome.Some?;
    }
  }
}
