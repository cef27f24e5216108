/** What every step of the protocol keeps. */
module ProtocolInvariant {
  import opened Wrappers
  import opened Mls
  import opened Client
  import opened DeliverySpec
  import opened Protocol

  /** The group state after the first `epoch` accepted commits. */
  function StateAt(creator: Name, accepted: seq<Commit>, epoch: nat): Group
    requires epoch <= |accepted|
  {
    Fold(creator, accepted[..epoch])
  }

  function MembersAt(creator: Name, accepted: seq<Commit>, epoch: nat): seq<Name>
    requires epoch <= |accepted|
  {
    Members(StateAt(creator, accepted, epoch).leaves)
  }

  /** A group state that is the fold of the accepted commits, all of them already readable in the log. */
  ghost predicate Genuine(creator: Name, world: World, group: Group) {
    group.epoch <= |world.log| <= |world.accepted| && group == StateAt(creator, world.accepted, group.epoch)
  }

  /** Log entry `i` carries accepted commit `i`; at most one accepted commit is not in the log yet. */
  ghost predicate ServiceInv(world: World) {
    && |world.log| <= |world.accepted| <= |world.log| + 1
    && |world.pushing| == |world.accepted| - |world.log|
    && (forall i | 0 <= i < |world.accepted| :: world.accepted[i].base == i && world.accepted[i] in world.submits)
    && (forall i | 0 <= i < |world.log| :: EntryOf(world.log[i], world.accepted[i], i))
    && (world.pushing != [] ==>
          EntryOf(world.pushing[0], world.accepted[|world.accepted| - 1], |world.accepted| - 1))
    && (world.group.Some? ==> world.group.value.epoch == |world.accepted|)
    && (world.group.None? ==> world.accepted == [])
    && |world.addressed| == |world.accepted|
  }

  predicate EntryOf(entry: LogCommit, commit: Commit, i: int) {
    entry.commit == commit && entry.epoch == i + 1 && entry.sender == commit.sender
  }

  /** A put for this epoch has been answered: the service moved on, or holds the members of this epoch. */
  ghost predicate SyncedAt(world: World, epoch: nat) {
    epoch < |world.accepted| || (world.group.Some? && world.putEpoch == epoch)
  }

  /** Requests and replies on the network speak of epochs whose commits are all in the log. */
  ghost predicate NetworkInv(creator: Name, world: World) {
    && (forall c | c in world.submits :: c.base <= |world.log| && c.nonce < world.nonces)
    && (forall c | c in world.confirmed :: c in world.accepted)
    && (forall c | c in world.rejected :: c in world.submits)
    && (forall p | p in world.puts ::
          p.epoch <= |world.log| <= |world.accepted| && p.members == MembersAt(creator, world.accepted, p.epoch))
    && (forall p | p in world.posts :: Genuine(creator, world, p.welcome.group))
    && (forall n, i | n in world.welcomes && 0 <= i < |world.welcomes[n]| ::
          Genuine(creator, world, world.welcomes[n][i].group))
  }

  /** The stored members belong to an epoch that was put; an answered put is one of those or outdated. */
  ghost predicate StoredInv(creator: Name, world: World) {
    && (world.group.Some? ==>
          world.putEpoch <= |world.accepted|
          && world.group.value.members == MembersAt(creator, world.accepted, world.putEpoch))
    && (forall p | p in world.putReplies :: SyncedAt(world, p.epoch))
    && (forall c | c in world.syncedCommits :: c in world.submits && SyncedAt(world, c.base))
  }

  /**
   An accepted commit goes to the members of the epoch of the last stored put, which is at most its base, and
   is its base when its sender's put had been answered.
   */
  ghost predicate Addressed(creator: Name, accepted: seq<Commit>, addressed: seq<nat>, synced: set<Commit>,
                            entry: LogCommit, base: int)
  {
    && 0 <= base < |addressed| <= |accepted| && addressed[base] <= base
    && entry.recipients == MembersAt(creator, accepted, addressed[base])
    && (entry.commit in synced ==> addressed[base] == base)
  }

  ghost predicate AddressedInv(creator: Name, world: World) {
    forall e | e in world.log || e in world.pushing ::
      Addressed(creator, world.accepted, world.addressed, world.syncedCommits, e, e.epoch - 1)
  }

  /**
   The client's state is genuine. Its stored pending commit is either the one staged at the current epoch,
   or a leftover of an earlier epoch at which another commit was accepted.
   */
  ghost predicate ClientInv(creator: Name, world: World, name: Name, client: ClientState) {
    && (client.group.Some? ==> Genuine(creator, world, client.group.value.state))
    && (client.group.None? ==> client.pendingCommit.None?)
    && (client.pendingCommit.None? ==> client.pendingWelcome.None?)
    && (client.group.Some? && client.group.value.staged.Some? ==>
          client.pendingCommit == client.group.value.staged)
    && (client.group.Some? && client.pendingCommit.Some? ==>
          PendingInv(world, name, client.group.value, client.pendingCommit.value, client.pendingWelcome))
  }

  ghost predicate PendingInv(world: World, name: Name, group: MlsGroup, commit: Commit, welcome: Option<Welcome>) {
    && commit.sender == name && commit in world.submits
    && (group.staged.Some? ==>
          commit.base == group.state.epoch && (welcome.Some? ==> welcome.value.group == Merge(group.state, commit)))
    && (group.staged.None? ==>
          commit.base < group.state.epoch <= |world.accepted| && world.accepted[commit.base] != commit)
  }

  ghost predicate ControlInv(creator: Name, world: World, worker: Worker) {
    match worker.control
    case Idle => true
    case Waiting(commit, intent, retry) =>
      && commit in world.submits && commit.intent == intent.token
      && (retry ==> worker.queued == Some(intent))
      && worker.client.group.Some? && worker.client.group.value.staged == Some(commit)
    case Posting(welcome, _) => worker.client.group.Some? && Genuine(creator, world, welcome.group)
    case Putting(_) => worker.client.group.Some?
    case Retrying => worker.client.group.Some? && worker.synced
  }

  ghost predicate WorkerInv(creator: Name, world: World, name: Name, worker: Worker) {
    && ClientInv(creator, world, name, worker.client)
    && ControlInv(creator, world, worker)
    && (worker.synced ==> worker.client.group.Some? && SyncedAt(world, worker.client.group.value.state.epoch))
  }

  ghost predicate WorkersInv(creator: Name, world: World) {
    forall n | n in world.workers :: WorkerInv(creator, world, n, world.workers[n])
  }

  ghost predicate Inv(creator: Name, world: World) {
    && ServiceInv(world) && NetworkInv(creator, world)
    && StoredInv(creator, world) && AddressedInv(creator, world)
    && WorkersInv(creator, world)
  }

  lemma InitInv(creator: Name, names: set<Name>)
    ensures Inv(creator, Init(creator, names))
  {
  }

  // ---- facts survive when the service accepts or pushes

  /** The service-side facts of `world` still hold in `next`, which knows at least as much. */
  ghost predicate Grows(world: World, next: World) {
    && world.accepted <= next.accepted && |world.log| <= |next.log| <= |next.accepted|
    && world.submits <= next.submits
    && (forall e: nat | SyncedAt(world, e) && e <= |world.accepted| :: SyncedAt(next, e))
  }

  lemma StateAtGrows(creator: Name, world: World, next: World, epoch: nat)
    requires world.accepted <= next.accepted && epoch <= |world.accepted|
    ensures StateAt(creator, next.accepted, epoch) == StateAt(creator, world.accepted, epoch)
    ensures MembersAt(creator, next.accepted, epoch) == MembersAt(creator, world.accepted, epoch)
  {
    assert next.accepted[..epoch] == world.accepted[..epoch];
  }

  lemma GenuineGrows(creator: Name, world: World, next: World, group: Group)
    requires Grows(world, next) && Genuine(creator, world, group)
    ensures Genuine(creator, next, group)
  {
    StateAtGrows(creator, world, next, group.epoch);
  }

  lemma WorkerGrows(creator: Name, world: World, next: World, name: Name, worker: Worker)
    requires Grows(world, next) && WorkerInv(creator, world, name, worker)
    ensures WorkerInv(creator, next, name, worker)
  {
    if worker.client.group.Some? {
      GenuineGrows(creator, world, next, worker.client.group.value.state);
    }
    if worker.control.Posting? {
      GenuineGrows(creator, world, next, worker.control.welcome.group);
    }
  }

  lemma WorkersGrow(creator: Name, world: World, next: World)
    requires Grows(world, next) && WorkersInv(creator, world) && next.workers == world.workers
    ensures WorkersInv(creator, next)
  {
    forall n | n in world.workers ensures WorkerInv(creator, next, n, world.workers[n]) {
      WorkerGrows(creator, world, next, n, world.workers[n]);
    }
  }

  /** One worker changes, the others and what they know stay. */
  lemma WorkersSet(creator: Name, world: World, next: World, name: Name, worker: Worker)
    requires Grows(world, next) && WorkersInv(creator, world) && next.workers == world.workers[name := worker]
    requires WorkerInv(creator, next, name, worker)
    ensures WorkersInv(creator, next)
  {
    forall n | n in next.workers ensures WorkerInv(creator, next, n, next.workers[n]) {
      if n != name {
        WorkerGrows(creator, world, next, n, world.workers[n]);
      }
    }
  }

  // ---- facts survive when the fields they speak of do not change

  lemma FrameService(world: World, next: World)
    requires ServiceInv(world)
    requires next.group == world.group && next.pushing == world.pushing && next.log == world.log
    requires next.accepted == world.accepted && world.submits <= next.submits && next.addressed == world.addressed
    ensures ServiceInv(next)
  {
  }

  lemma FrameNetwork(creator: Name, world: World, next: World)
    requires NetworkInv(creator, world)
    requires next.log == world.log && next.accepted == world.accepted
    requires next.submits == world.submits && next.nonces == world.nonces
    requires next.confirmed == world.confirmed && next.rejected == world.rejected
    requires next.puts == world.puts && next.posts == world.posts && next.welcomes == world.welcomes
    ensures NetworkInv(creator, next)
  {
  }

  lemma FrameStored(creator: Name, world: World, next: World)
    requires StoredInv(creator, world)
    requires next.group == world.group && next.accepted == world.accepted && next.putEpoch == world.putEpoch
    requires next.putReplies == world.putReplies && next.syncedCommits == world.syncedCommits
    requires world.submits <= next.submits
    ensures StoredInv(creator, next)
  {
  }

  lemma FrameAddressed(creator: Name, world: World, next: World)
    requires AddressedInv(creator, world)
    requires next.log == world.log && next.pushing == world.pushing
    requires next.accepted == world.accepted && next.addressed == world.addressed
    requires next.syncedCommits == world.syncedCommits
    ensures AddressedInv(creator, next)
  {
  }

  lemma WelcomesGrow(creator: Name, world: World, next: World)
    requires Grows(world, next) && NetworkInv(creator, world)
    ensures forall n, i | n in world.welcomes && 0 <= i < |world.welcomes[n]| ::
              Genuine(creator, next, world.welcomes[n][i].group)
    ensures forall p | p in world.posts :: Genuine(creator, next, p.welcome.group)
  {
    forall p | p in world.posts ensures Genuine(creator, next, p.welcome.group) {
      GenuineGrows(creator, world, next, p.welcome.group);
    }
    forall n, i | n in world.welcomes && 0 <= i < |world.welcomes[n]|
      ensures Genuine(creator, next, world.welcomes[n][i].group)
    {
      GenuineGrows(creator, world, next, world.welcomes[n][i].group);
    }
  }

  lemma AddressedGrows(creator: Name, accepted: seq<Commit>, accepted': seq<Commit>, addressed: seq<nat>,
                       addressed': seq<nat>, synced: set<Commit>, entry: LogCommit, base: int)
    requires Addressed(creator, accepted, addressed, synced, entry, base)
    requires accepted <= accepted' && addressed <= addressed' && |addressed'| <= |accepted'|
    ensures Addressed(creator, accepted', addressed', synced, entry, base)
  {
    assert accepted'[..addressed[base]] == accepted[..addressed[base]];
  }

  lemma AddressedSame(creator: Name, accepted: seq<Commit>, addressed: seq<nat>, synced: set<Commit>,
                      synced': set<Commit>, entry: LogCommit, base: int)
    requires Addressed(creator, accepted, addressed, synced, entry, base)
    requires entry.commit in synced' ==> entry.commit in synced
    ensures Addressed(creator, accepted, addressed, synced', entry, base)
  {
  }

  // ---- the steps of the service

  /** A submitted commit of the current epoch was created by a client that had read the whole log. */
  lemma AcceptService(creator: Name, world: World, commit: Commit)
    requires ServiceInv(world) && NetworkInv(creator, world) && Enabled(world, DsAccept(commit))
    ensures commit.base == |world.accepted| == |world.log|
    ensures ServiceInv(NextAccept(world, commit)) && Grows(world, NextAccept(world, commit))
  {
  }

  lemma AcceptNetwork(creator: Name, world: World, commit: Commit)
    requires ServiceInv(world) && NetworkInv(creator, world) && Enabled(world, DsAccept(commit))
    ensures NetworkInv(creator, NextAccept(world, commit))
  {
    var next := NextAccept(world, commit);
    AcceptService(creator, world, commit);
    WelcomesGrow(creator, world, next);
    forall p | p in world.puts ensures p.members == MembersAt(creator, next.accepted, p.epoch) {
      StateAtGrows(creator, world, next, p.epoch);
    }
  }

  lemma AcceptStored(creator: Name, world: World, commit: Commit)
    requires ServiceInv(world) && NetworkInv(creator, world) && StoredInv(creator, world)
    requires Enabled(world, DsAccept(commit))
    ensures StoredInv(creator, NextAccept(world, commit))
  {
    AcceptService(creator, world, commit);
    StateAtGrows(creator, world, NextAccept(world, commit), world.putEpoch);
  }

  lemma AcceptAddressed(creator: Name, world: World, commit: Commit)
    requires ServiceInv(world) && NetworkInv(creator, world) && StoredInv(creator, world)
    requires AddressedInv(creator, world) && Enabled(world, DsAccept(commit))
    ensures AddressedInv(creator, NextAccept(world, commit))
  {
    hide MembersAt, StoredInv, NetworkInv, ServiceInv, Addressed;
    var next := NextAccept(world, commit);
    AcceptService(creator, world, commit);
    LastIsNew(creator, world, commit);
    forall e | e in next.log || e in next.pushing
      ensures Addressed(creator, next.accepted, next.addressed, next.syncedCommits, e, e.epoch - 1)
    {
      if e in world.log {
        AddressedGrows(creator, world.accepted, next.accepted, world.addressed, next.addressed, world.syncedCommits,
                       e, e.epoch - 1);
      } else {
        assert e == next.pushing[0];
        NewIsAddressed(creator, world, commit);
      }
    }
  }

  lemma NewIsAddressed(creator: Name, world: World, commit: Commit)
    requires ServiceInv(world) && NetworkInv(creator, world) && StoredInv(creator, world)
    requires Enabled(world, DsAccept(commit))
    ensures var next := NextAccept(world, commit);
            next.pushing != [] &&
            Addressed(creator, next.accepted, next.addressed, next.syncedCommits, next.pushing[|next.pushing| - 1], commit.base)
  {
    hide MembersAt, Genuine;
    AcceptService(creator, world, commit);
    StateAtGrows(creator, world, NextAccept(world, commit), world.putEpoch);
  }

  /** Nothing else awaits its push when a commit is accepted. */
  lemma LastIsNew(creator: Name, world: World, commit: Commit)
    requires ServiceInv(world) && NetworkInv(creator, world) && Enabled(world, DsAccept(commit))
    ensures var next := NextAccept(world, commit);
            && |next.pushing| == 1 && next.pushing[0].epoch == commit.base + 1
            && |next.addressed| == |next.accepted|
  {
    AcceptService(creator, world, commit);
  }

  lemma PushService(creator: Name, world: World, index: nat)
    requires ServiceInv(world) && Enabled(world, DsPush(index))
    ensures ServiceInv(NextPush(world, index)) && Grows(world, NextPush(world, index))
    ensures NextPush(world, index).pushing == []
  {
  }

  lemma PushNetwork(creator: Name, world: World, index: nat)
    requires ServiceInv(world) && NetworkInv(creator, world) && Enabled(world, DsPush(index))
    ensures NetworkInv(creator, NextPush(world, index))
  {
    PushService(creator, world, index);
    WelcomesGrow(creator, world, NextPush(world, index));
  }

  lemma PushAddressed(creator: Name, world: World, index: nat)
    requires ServiceInv(world) && AddressedInv(creator, world) && Enabled(world, DsPush(index))
    ensures AddressedInv(creator, NextPush(world, index))
  {
    PushService(creator, world, index);
    assert world.pushing[index] in world.pushing;
  }

  /** A put speaks of an accepted epoch, so a mismatch means that it is stale. */
  lemma PutService(creator: Name, world: World, put: PutRequest)
    requires ServiceInv(world) && NetworkInv(creator, world) && Enabled(world, DsPut(put))
    ensures ServiceInv(NextPut(world, put)) && Grows(world, NextPut(world, put))
    ensures put in NextPut(world, put).putReplies
  {
    hide MembersAt, Genuine;
  }

  lemma PutNetwork(creator: Name, world: World, put: PutRequest)
    requires ServiceInv(world) && NetworkInv(creator, world) && Enabled(world, DsPut(put))
    ensures NetworkInv(creator, NextPut(world, put))
  {
    PutService(creator, world, put);
    WelcomesGrow(creator, world, NextPut(world, put));
  }

  lemma PutStored(creator: Name, world: World, put: PutRequest)
    requires ServiceInv(world) && NetworkInv(creator, world) && StoredInv(creator, world)
    requires Enabled(world, DsPut(put))
    ensures StoredInv(creator, NextPut(world, put))
  {
    hide MembersAt, Genuine;
    PutService(creator, world, put);
  }
}
