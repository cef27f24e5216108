/** Every step of the protocol keeps the invariant, hence every run does. */
module ProtocolSteps {
  import opened Wrappers
  import opened Mls
  import opened Client
  import opened DeliverySpec
  import opened Protocol
  import opened ProtocolInvariant

  // ---- the service

  lemma ServiceStep(creator: Name, world: World, step: Step)
    requires Inv(creator, world) && Enabled(world, step)
    requires step.DsAccept? || step.DsPush? || step.DsPut?
    ensures Inv(creator, Next(world, step)) && Grows(world, Next(world, step))
  {
    hide ServiceInv, NetworkInv, StoredInv, AddressedInv, WorkersInv, Grows;
    match step {
      case DsAccept(commit) =>
        AcceptService(creator, world, commit);
        AcceptNetwork(creator, world, commit);
        AcceptStored(creator, world, commit);
        AcceptAddressed(creator, world, commit);
      case DsPush(index) =>
        PushService(creator, world, index);
        PushNetwork(creator, world, index);
        PushAddressed(creator, world, index);
        FrameStored(creator, world, Next(world, step));
      case DsPut(put) =>
        PutService(creator, world, put);
        PutNetwork(creator, world, put);
        PutStored(creator, world, put);
        FrameAddressed(creator, world, Next(world, step));
    }
    WorkersGrow(creator, world, Next(world, step));
  }

  // ---- a step that changes one worker and nothing else

  lemma SameServiceGrows(world: World, next: World)
    requires ServiceInv(world)
    requires next.log == world.log && next.accepted == world.accepted && world.submits <= next.submits
    requires next.group == world.group && next.putEpoch == world.putEpoch
    ensures Grows(world, next)
  {
  }

  lemma LocalStep(creator: Name, world: World, next: World, name: Name, worker: Worker)
    requires Inv(creator, world)
    requires next == SetWorker(world, name, worker)
    requires WorkerInv(creator, world, name, worker)
    ensures Inv(creator, next)
  {
    hide ServiceInv, NetworkInv, StoredInv, AddressedInv, WorkersInv, WorkerInv, Grows;
    FrameService(world, next);
    FrameNetwork(creator, world, next);
    FrameStored(creator, world, next);
    FrameAddressed(creator, world, next);
    SameServiceGrows(world, next);
    WorkerGrows(creator, world, next, name, worker);
    WorkersSet(creator, world, next, name, worker);
  }

  // ---- creating and submitting a commit

  lemma SubmitWorker(creator: Name, world: World, name: Name, intent: Intent, retry: bool)
    requires ServiceInv(world) && WorkersInv(creator, world)
    requires name in world.workers && Start(world, name, intent).Ok?
    requires retry ==> world.workers[name].queued == Some(intent)
    ensures WorkersInv(creator, Submit(world, name, intent, retry))
  {
    var next := Submit(world, name, intent, retry);
    SameServiceGrows(world, next);
    WorkerGrows(creator, world, next, name, world.workers[name]);
    WorkersSet(creator, world, next, name, next.workers[name]);
  }

  /** A new commit is based on an epoch whose commits are in the log, and is none of the submitted ones. */
  lemma SubmitNetwork(creator: Name, world: World, name: Name, intent: Intent, retry: bool)
    requires NetworkInv(creator, world) && WorkersInv(creator, world)
    requires name in world.workers && Start(world, name, intent).Ok?
    ensures NetworkInv(creator, Submit(world, name, intent, retry))
    ensures Start(world, name, intent).value.1 !in world.submits
  {
    assert WorkerInv(creator, world, name, world.workers[name]);
  }

  lemma SubmitStored(creator: Name, world: World, name: Name, intent: Intent, retry: bool)
    requires StoredInv(creator, world) && WorkersInv(creator, world)
    requires name in world.workers && Start(world, name, intent).Ok?
    ensures StoredInv(creator, Submit(world, name, intent, retry))
  {
    assert WorkerInv(creator, world, name, world.workers[name]);
  }

  lemma LoggedWereSubmitted(world: World)
    requires ServiceInv(world)
    ensures forall e | e in world.log || e in world.pushing :: e.commit in world.submits
  {
  }

  lemma SubmitAddressed(creator: Name, world: World, name: Name, intent: Intent, retry: bool)
    requires ServiceInv(world) && AddressedInv(creator, world)
    requires name in world.workers && Start(world, name, intent).Ok?
    requires Start(world, name, intent).value.1 !in world.submits
    ensures AddressedInv(creator, Submit(world, name, intent, retry))
  {
    hide Addressed, StartEpochChange, ServiceInv;
    var next := Submit(world, name, intent, retry);
    LoggedWereSubmitted(world);
    forall e | e in world.log || e in world.pushing
      ensures Addressed(creator, next.accepted, next.addressed, next.syncedCommits, e, e.epoch - 1)
    {
      AddressedSame(creator, world.accepted, world.addressed, world.syncedCommits, next.syncedCommits, e, e.epoch - 1);
    }
  }

  lemma SubmitKeepsInv(creator: Name, world: World, name: Name, intent: Intent, retry: bool)
    requires Inv(creator, world) && name in world.workers && Start(world, name, intent).Ok?
    requires retry ==> world.workers[name].queued == Some(intent)
    ensures Inv(creator, Submit(world, name, intent, retry))
  {
    hide ServiceInv, NetworkInv, StoredInv, AddressedInv, WorkersInv;
    FrameService(world, Submit(world, name, intent, retry));
    SubmitNetwork(creator, world, name, intent, retry);
    SubmitStored(creator, world, name, intent, retry);
    SubmitAddressed(creator, world, name, intent, retry);
    SubmitWorker(creator, world, name, intent, retry);
  }

  // ---- receiving a commit

  /** The own-commit branch merges the accepted commit of the current epoch; so does the external branch. */
  lemma ReceiveMerges(creator: Name, world: World, name: Name, client: ClientState, index: nat)
    requires ServiceInv(world) && ClientInv(creator, world, name, client) && index < |world.log|
    requires ReceiveCommit(client, name, world.log[index].commit).Ok?
    ensures client.group.Some? && client.group.value.state.epoch == index
    ensures index < |world.accepted| && world.log[index].commit == world.accepted[index]
    ensures ReceiveCommit(client, name, world.log[index].commit).value.1.selfRemoved
       <==> name !in MembersAt(creator, world.accepted, index + 1)
    ensures var (after, outcome) := ReceiveCommit(client, name, world.log[index].commit).value;
            if outcome.selfRemoved then after == Fresh()
            else
              && after.group == Some(MlsGroup(StateAt(creator, world.accepted, index + 1), None))
              && after.group.value.state.epoch == index + 1
              && (outcome.OwnCommitAccepted? ==>
                    after.pendingCommit.None? && after.pendingWelcome.None?
                    && client.pendingCommit == Some(world.accepted[index])
                    && outcome.welcome == client.pendingWelcome)
              && (outcome.ExternalCommitApplied? ==>
                    after.pendingCommit == client.pendingCommit && after.pendingWelcome == client.pendingWelcome
                    && client.pendingCommit != Some(world.accepted[index]))
  {
    FoldStep(creator, world.accepted, index);
  }

  /** The Welcome that goes out with an own commit carries the state the commit leads to. */
  lemma ReceiveWelcome(creator: Name, world: World, name: Name, client: ClientState, index: nat)
    requires ServiceInv(world) && ClientInv(creator, world, name, client) && index < |world.log|
    requires client.pendingCommit == Some(world.log[index].commit) && client.pendingWelcome.Some?
    ensures Genuine(creator, world, client.pendingWelcome.value.group)
  {
    FoldStep(creator, world.accepted, index);
  }

  lemma ReceivedClientInv(creator: Name, world: World, name: Name, client: ClientState, index: nat)
    requires ServiceInv(world) && ClientInv(creator, world, name, client) && index < |world.log|
    requires ReceiveCommit(client, name, world.log[index].commit).Ok?
    ensures ClientInv(creator, world, name, ReceiveCommit(client, name, world.log[index].commit).value.0)
  {
    hide Fold, Merge, Members, FindMember, CleanupIfRemoved, MergePendingCommit, ReceiveCommit;
    ReceiveMerges(creator, world, name, client, index);
  }

  lemma ApplyWorker(creator: Name, world: World, name: Name, index: nat)
    requires ServiceInv(world) && WorkersInv(creator, world) && Enabled(world, Apply(name, index))
    ensures WorkerInv(creator, world, name, NextApply(world, name, index).workers[name])
  {
    hide ServiceInv, ReceiveCommit, ClientInv, Genuine;
    var worker := world.workers[name];
    assert WorkerInv(creator, world, name, worker);
    if ReceiveCommit(worker.client, name, world.log[index].commit).Ok? {
      ReceiveMerges(creator, world, name, worker.client, index);
      ReceivedClientInv(creator, world, name, worker.client, index);
      if worker.client.pendingCommit == Some(world.log[index].commit) && worker.client.pendingWelcome.Some? {
        ReceiveWelcome(creator, world, name, worker.client, index);
      }
    }
  }

  lemma ApplyKeepsInv(creator: Name, world: World, name: Name, index: nat)
    requires Inv(creator, world) && Enabled(world, Apply(name, index))
    ensures Inv(creator, NextApply(world, name, index))
  {
    hide ServiceInv, NetworkInv, StoredInv, AddressedInv, WorkersInv, WorkerInv;
    var next := NextApply(world, name, index);
    ApplyWorker(creator, world, name, index);
    if next != world {
      LocalStep(creator, world, next, name, next.workers[name]);
    }
  }

  // ---- Welcomes

  lemma WelcomeStep(creator: Name, world: World, next: World)
    requires Inv(creator, world)
    requires next == world.(workers := next.workers, welcomes := next.welcomes, posts := next.posts,
                            postReplies := next.postReplies)
    requires forall p | p in next.posts :: Genuine(creator, world, p.welcome.group)
    requires forall n, i | n in next.welcomes && 0 <= i < |next.welcomes[n]| ::
               Genuine(creator, world, next.welcomes[n][i].group)
    requires WorkersInv(creator, next)
    ensures Inv(creator, next)
  {
    hide ServiceInv, StoredInv, AddressedInv, WorkersInv;
    FrameService(world, next);
    FrameStored(creator, world, next);
    FrameAddressed(creator, world, next);
  }

  /** Sending a Welcome post, or storing a Welcome that was sent. */
  lemma PostKeepsInv(creator: Name, world: World, step: Step)
    requires Inv(creator, world) && Enabled(world, step) && (step.SendPost? || step.DsWelcome?)
    ensures Inv(creator, Next(world, step))
  {
    hide ServiceInv, StoredInv, AddressedInv, Grows, Genuine;
    var next := Next(world, step);
    SameServiceGrows(world, next);
    if step.SendPost? {
      assert WorkerInv(creator, world, step.name, world.workers[step.name]);
    }
    WorkersGrow(creator, world, next);
    WelcomeStep(creator, world, next);
  }

  lemma JoinKeepsInv(creator: Name, world: World, name: Name, readable: bool)
    requires Inv(creator, world) && Enabled(world, Join(name, readable))
    ensures Inv(creator, NextJoin(world, name, readable))
  {
    hide ServiceInv, StoredInv, AddressedInv;
    var next := NextJoin(world, name, readable);
    SameServiceGrows(world, next);
    WorkersSet(creator, world, next, name, next.workers[name]);
    WelcomeStep(creator, world, next);
  }

  // ---- all steps

  lemma WorkerStep(creator: Name, world: World, step: Step)
    requires Inv(creator, world) && Enabled(world, step)
    requires step.GiveUp? || step.Confirm? || step.Conflict? || step.PostDone? || step.PostFailed? || step.PutFailed?
    ensures Inv(creator, Next(world, step))
  {
    hide ServiceInv, NetworkInv, StoredInv, AddressedInv, Genuine;
    var next := Next(world, step);
    var name := step.name;
    assert WorkerInv(creator, world, name, world.workers[name]);
    LocalStep(creator, world, next, name, next.workers[name]);
  }

  lemma PutDoneKeepsInv(creator: Name, world: World, name: Name)
    requires Inv(creator, world) && Enabled(world, PutDone(name))
    ensures Inv(creator, Next(world, PutDone(name)))
  {
    hide ServiceInv, NetworkInv, AddressedInv, ClientInv;
    var next := Next(world, PutDone(name));
    assert WorkerInv(creator, world, name, world.workers[name]);
    LocalStep(creator, world, next, name, next.workers[name]);
  }

  lemma SendPutNetwork(creator: Name, world: World, name: Name)
    requires NetworkInv(creator, world) && WorkersInv(creator, world) && Enabled(world, SendPut(name))
    ensures NetworkInv(creator, Next(world, SendPut(name)))
  {
    assert WorkerInv(creator, world, name, world.workers[name]);
  }

  lemma SendPutKeepsInv(creator: Name, world: World, name: Name)
    requires Inv(creator, world) && Enabled(world, SendPut(name))
    ensures Inv(creator, Next(world, SendPut(name)))
  {
    var next := Next(world, SendPut(name));
    SendPutNetwork(creator, world, name);
    hide ServiceInv, NetworkInv, StoredInv, AddressedInv, WorkersInv, Grows;
    FrameService(world, next);
    FrameStored(creator, world, next);
    FrameAddressed(creator, world, next);
    SameServiceGrows(world, next);
    WorkersGrow(creator, world, next);
  }

  lemma GoIdle(creator: Name, world: World, name: Name)
    requires Inv(creator, world) && name in world.workers
    ensures Inv(creator, SetWorker(world, name, world.workers[name].(control := Idle)))
  {
    hide ServiceInv, NetworkInv, StoredInv, AddressedInv, ClientInv;
    var worker := world.workers[name].(control := Idle);
    assert WorkerInv(creator, world, name, world.workers[name]);
    LocalStep(creator, world, SetWorker(world, name, worker), name, worker);
  }

  lemma SameServiceStep(creator: Name, world: World, next: World)
    requires Inv(creator, world) && next == world.(tokens := next.tokens)
    ensures Inv(creator, next)
  {
    hide ServiceInv, NetworkInv, StoredInv, AddressedInv, WorkersInv, Grows;
    FrameService(world, next);
    FrameNetwork(creator, world, next);
    FrameStored(creator, world, next);
    FrameAddressed(creator, world, next);
    SameServiceGrows(world, next);
    WorkersGrow(creator, world, next);
  }

  lemma RejectKeepsInv(creator: Name, world: World, commit: Commit)
    requires Inv(creator, world) && Enabled(world, DsReject(commit))
    ensures Inv(creator, Next(world, DsReject(commit)))
  {
    hide ServiceInv, StoredInv, AddressedInv, WorkersInv, Grows;
    var next := Next(world, DsReject(commit));
    FrameService(world, next);
    FrameStored(creator, world, next);
    FrameAddressed(creator, world, next);
    SameServiceGrows(world, next);
    WorkersGrow(creator, world, next);
  }

  lemma LoseKeepsInv(creator: Name, world: World, name: Name)
    requires Inv(creator, world) && Enabled(world, LoseWelcome(name))
    ensures Inv(creator, Next(world, LoseWelcome(name)))
  {
    hide ServiceInv, StoredInv, AddressedInv, WorkersInv, Grows;
    var next := Next(world, LoseWelcome(name));
    SameServiceGrows(world, next);
    WorkersGrow(creator, world, next);
    WelcomeStep(creator, world, next);
  }

  lemma StepKeepsInv(creator: Name, world: World, step: Step)
    requires Inv(creator, world) && Enabled(world, step)
    ensures Inv(creator, Next(world, step))
  {
    hide ServiceInv, NetworkInv, StoredInv, AddressedInv, WorkersInv;
    match step {
      case Begin(name, request) =>
        var intent := Intent(world.tokens, request);
        SubmitKeepsInv(creator, world, name, intent, false);
        SameServiceStep(creator, Submit(world, name, intent, false), Next(world, step));
      case Apply(name, index) => ApplyKeepsInv(creator, world, name, index);
      case SendPost(_, _) => PostKeepsInv(creator, world, step);
      case DsWelcome(_) => PostKeepsInv(creator, world, step);
      case Join(name, readable) => JoinKeepsInv(creator, world, name, readable);
      case PutDone(name) => PutDoneKeepsInv(creator, world, name);
      case SendPut(name) => SendPutKeepsInv(creator, world, name);
      case Retry(name) =>
        var worker := world.workers[name];
        if worker.queued.Some? && Start(world, name, worker.queued.value).Ok? {
          SubmitKeepsInv(creator, world, name, worker.queued.value, true);
        } else {
          GoIdle(creator, world, name);
        }
      case DsAccept(_) => ServiceStep(creator, world, step);
      case DsPush(_) => ServiceStep(creator, world, step);
      case DsPut(_) => ServiceStep(creator, world, step);
      case DsReject(commit) => RejectKeepsInv(creator, world, commit);
      case LoseWelcome(name) => LoseKeepsInv(creator, world, name);
      case _ => WorkerStep(creator, world, step);
    }
  }

  lemma {:induction false} RunKeepsInv(creator: Name, world: World, steps: seq<Step>)
    requires Inv(creator, world) && Legal(world, steps)
    ensures Inv(creator, Run(world, steps))
    decreases |steps|
  {
    if steps != [] {
      StepKeepsInv(creator, world, steps[0]);
      RunKeepsInv(creator, Next(world, steps[0]), steps[1..]);
    }
  }
}
