/** The intent a worker keeps for a retry: how it gets into the queue, and the three ways it leaves it again. */
module ProtocolQueue {
  import opened Wrappers
  import opened Mls
  import opened Client
  import opened DeliverySpec
  import opened Protocol
  import opened ProtocolInvariant
  import opened ProtocolSteps
  import opened ProtocolTheorems

  // ---- into the queue

  /** A command that starts is awaited under a new token, with the commit that carries out its request. */
  lemma BegunIsAwaited(world: World, name: Name, request: Request)
    requires Enabled(world, Begin(name, request))
    ensures var next := Next(world, Begin(name, request));
            var commit := Start(world, name, Intent(world.tokens, request)).value.1;
            && next.tokens == world.tokens + 1 && commit in next.submits
            && next.workers[name].control == Waiting(commit, Intent(world.tokens, request), false)
            && next.workers[name].queued == world.workers[name].queued
            && commit.intent == world.tokens && commit.sender == name
            && EffectOf(world.workers[name].client.group.value.state.leaves, request) == Some(commit.effect)
  {
    hide EffectOf, Merge;
  }

  /** Whatever the request, a worker that reads the conflict undoes its commit and queues the intent it waited for. */
  lemma ConflictQueues(creator: Name, world: World, name: Name)
    requires Inv(creator, world) && Enabled(world, Conflict(name))
    ensures var worker, next := world.workers[name], Next(world, Conflict(name)).workers[name];
            && next.queued == Some(worker.control.intent) && next.control == Idle
            && GroupOf(worker.client).Some?
            && next.client == ClientState(Some(MlsGroup(GroupOf(worker.client).value, None)), None, None, [])
            && next.life == worker.life && next.synced == worker.synced
  {
    hide ServiceInv, NetworkInv, StoredInv, AddressedInv, ClientInv;
    assert WorkerInv(creator, world, name, world.workers[name]);
  }

  // ---- the retry

  /** Once the put that follows an external commit is answered the worker turns to its queue, and not otherwise. */
  lemma PutLeadsToRetry(world: World, name: Name)
    requires Enabled(world, PutDone(name))
    ensures var worker, next := world.workers[name], Next(world, PutDone(name)).workers[name];
            && next == Worker(worker.client, worker.queued, next.control, true, worker.life)
            && (next.control == Retrying <==> worker.control == Putting(true))
            && (next.control == Idle <==> worker.control == Putting(false))
  {
  }

  /** The queued intent is submitted again, as a new commit, exactly when it can start; otherwise it stays queued. */
  lemma RetrySubmits(creator: Name, world: World, name: Name)
    requires Inv(creator, world) && Enabled(world, Retry(name))
    ensures var worker, next := world.workers[name], Next(world, Retry(name));
            && next.workers[name].queued == worker.queued
            && if worker.queued.Some? && Start(world, name, worker.queued.value).Ok? then
                 var commit := Start(world, name, worker.queued.value).value.1;
                 && next.workers[name].control == Waiting(commit, worker.queued.value, true)
                 && next.submits == world.submits + {commit} && commit !in world.submits
                 && commit.intent == worker.queued.value.token && commit.base == GroupOf(worker.client).value.epoch
               else next.workers[name] == worker.(control := Idle) && next.submits == world.submits
  {
    hide ServiceInv, StoredInv, AddressedInv, EffectOf, Merge, MembersAt, Genuine;
    var worker := world.workers[name];
    if worker.queued.Some? && Start(world, name, worker.queued.value).Ok? {
      SubmitNetwork(creator, world, name, worker.queued.value, true);
    }
  }

  // ---- out of the queue

  /** Its commit is accepted, a later command that lost its race takes its place, or its owner is removed. */
  ghost predicate Fate(creator: Name, world: World, step: Step, name: Name)
    requires Enabled(world, step) && name in world.workers && world.workers[name].queued.Some?
  {
    var worker := world.workers[name];
    || (step == Confirm(name) && worker.control.retry && worker.control.intent == worker.queued.value
        && worker.control.commit in world.accepted && worker.control.commit.sender == name
        && worker.control.commit.intent == worker.queued.value.token)
    || (step == Conflict(name) && worker.control.intent != worker.queued.value)
    || (step.Apply? && step.name == name && step.index < |world.accepted|
        && GroupOf(worker.client).Some? && GroupOf(worker.client).value.epoch == step.index
        && name !in MembersAt(creator, world.accepted, step.index + 1)
        && ReceiveCommit(worker.client, name, world.log[step.index].commit).Ok?)
  }

  lemma QueueUntouched(world: World, step: Step, name: Name)
    requires Enabled(world, step) && name in world.workers
    requires !((step.Confirm? || step.Conflict? || step.Apply?) && step.name == name)
    ensures name in Next(world, step).workers && Next(world, step).workers[name].queued == world.workers[name].queued
  {
    hide StartEpochChange, ReceiveCommit, PutState, AcceptCommit;
  }

  /** A commit that removes the worker leaves it with nothing, in no group and idle; any other keeps its queue. */
  lemma ApplyQueue(creator: Name, world: World, name: Name, index: nat)
    requires Inv(creator, world) && Enabled(world, Apply(name, index))
    ensures var worker, next := world.workers[name], NextApply(world, name, index).workers[name];
            var received := ReceiveCommit(worker.client, name, world.log[index].commit);
            && (received.Ok? ==> index < |world.accepted| && GroupOf(worker.client).Some?
                                 && GroupOf(worker.client).value.epoch == index)
            && if received.Ok? && name !in MembersAt(creator, world.accepted, index + 1) then
                 next == Worker(Fresh(), None, Idle, false, worker.life + 1)
               else next.queued == worker.queued
  {
    hide ReceiveCommit, ClientInv, StoredInv, AddressedInv, NetworkInv, MembersAt;
    var worker := world.workers[name];
    assert WorkerInv(creator, world, name, worker);
    if ReceiveCommit(worker.client, name, world.log[index].commit).Ok? {
      ReceiveMerges(creator, world, name, worker.client, index);
    }
  }

  /** The queued intent changes exactly by one of its fates. */
  lemma QueuedIntentFate(creator: Name, world: World, step: Step, name: Name)
    requires Inv(creator, world) && Enabled(world, step)
    requires name in world.workers && world.workers[name].queued.Some?
    ensures name in Next(world, step).workers
    ensures Next(world, step).workers[name].queued != world.workers[name].queued <==> Fate(creator, world, step, name)
  {
    hide ServiceInv, StoredInv, AddressedInv, ReceiveCommit, StartEpochChange, MembersAt, Genuine, PendingInv;
    if step.Apply? && step.name == name {
      ApplyQueue(creator, world, name, step.index);
    } else if step.Confirm? && step.name == name {
      ConfirmedCommit(creator, world, name);
    } else if step.Conflict? && step.name == name {
      ConflictQueues(creator, world, name);
    } else {
      QueueUntouched(world, step, name);
    }
  }

  lemma ConfirmedCommit(creator: Name, world: World, name: Name)
    requires Inv(creator, world) && Enabled(world, Confirm(name))
    ensures var worker := world.workers[name];
            && worker.control.commit in world.accepted && worker.control.commit.sender == name
            && worker.control.commit.intent == worker.control.intent.token
            && (worker.control.retry ==> worker.queued == Some(worker.control.intent))
  {
    hide ServiceInv, StoredInv, AddressedInv, Genuine, MembersAt;
    assert WorkerInv(creator, world, name, world.workers[name]);
  }

  /** The intent stays queued up to a step of the run that seals its fate. */
  ghost predicate MeetsItsFate(creator: Name, world: World, steps: seq<Step>, name: Name)
    requires Legal(world, steps) && name in world.workers && world.workers[name].queued.Some?
    decreases |steps|
  {
    && steps != []
    && (Fate(creator, world, steps[0], name)
        || (var next := Next(world, steps[0]);
            && name in next.workers && next.workers[name].queued == world.workers[name].queued
            && MeetsItsFate(creator, next, steps[1..], name)))
  }

  /** Over any run, an intent is still queued at the end unless it met one of these fates on the way. */
  lemma {:induction false} QueuedUntilItsFate(creator: Name, world: World, steps: seq<Step>, name: Name)
    requires Inv(creator, world) && Legal(world, steps) && name in world.workers && world.workers[name].queued.Some?
    ensures || MeetsItsFate(creator, world, steps, name)
            || (name in Run(world, steps).workers
                && Run(world, steps).workers[name].queued == world.workers[name].queued)
    decreases |steps|
  {
    hide Inv, Next, Enabled, Fate;
    if steps != [] {
      StepKeepsInv(creator, world, steps[0]);
      QueuedIntentFate(creator, world, steps[0], name);
      if !Fate(creator, world, steps[0], name) {
        QueuedUntilItsFate(creator, Next(world, steps[0]), steps[1..], name);
      }
    }
  }

  /** Over any run that starts with reading a conflict, the intent that lost its race is queued until it meets its fate. */
  lemma ConflictedUntilItsFate(creator: Name, world: World, steps: seq<Step>, name: Name)
    requires Inv(creator, world) && Legal(world, steps) && steps != [] && steps[0] == Conflict(name)
    ensures var intent, next := world.workers[name].control.intent, Next(world, steps[0]);
            && name in next.workers && next.workers[name].queued == Some(intent)
            && (|| MeetsItsFate(creator, next, steps[1..], name)
                || (name in Run(world, steps).workers && Run(world, steps).workers[name].queued == Some(intent)))
  {
    hide Inv, Next, Fate, MeetsItsFate;
    ConflictQueues(creator, world, name);
    ConflictKeepsWorkers(world, name);
    StepKeepsInv(creator, world, steps[0]);
    QueuedUntilItsFate(creator, Next(world, steps[0]), steps[1..], name);
  }

  lemma ConflictKeepsWorkers(world: World, name: Name)
    requires Enabled(world, Conflict(name))
    ensures name in Next(world, Conflict(name)).workers
  {
  }

  // ---- where intents come from

  /** The commands given during a run, with the tokens they were given. */
  function Issued(world: World, steps: seq<Step>): set<(Name, Intent)>
    requires Legal(world, steps)
    decreases |steps|
  {
    if steps == [] then {} else IssuedBy(world, steps[0]) + Issued(Next(world, steps[0]), steps[1..])
  }

  function IssuedBy(world: World, step: Step): set<(Name, Intent)> {
    if step.Begin? then {(step.name, Intent(world.tokens, step.request))} else {}
  }

  /** What a worker waits for or keeps for a retry is a command it was given. */
  ghost predicate OwnIntents(world: World, issued: set<(Name, Intent)>) {
    forall n | n in world.workers ::
      && (world.workers[n].queued.Some? ==> (n, world.workers[n].queued.value) in issued)
      && (world.workers[n].control.Waiting? ==> (n, world.workers[n].control.intent) in issued)
  }

  lemma OwnIntentsStep(world: World, step: Step, issued: set<(Name, Intent)>)
    requires Enabled(world, step) && OwnIntents(world, issued)
    ensures OwnIntents(Next(world, step), issued + IssuedBy(world, step))
  {
    hide StartEpochChange, ReceiveCommit, PutState, AcceptCommit, RollbackPendingCommit;
  }

  lemma {:induction false} OwnIntentsRun(world: World, steps: seq<Step>, issued: set<(Name, Intent)>)
    requires Legal(world, steps) && OwnIntents(world, issued)
    ensures OwnIntents(Run(world, steps), issued + Issued(world, steps))
    decreases |steps|
  {
    hide Next, Enabled, OwnIntents, IssuedBy;
    if steps == [] {
      assert issued + Issued(world, steps) == issued;
    } else {
      OwnIntentsStep(world, steps[0], issued);
      OwnIntentsRun(Next(world, steps[0]), steps[1..], issued + IssuedBy(world, steps[0]));
      assert issued + IssuedBy(world, steps[0]) + Issued(Next(world, steps[0]), steps[1..]) == issued + Issued(world, steps);
    }
  }

  /** In every run, a worker retries only commands it was given, and a queued intent is one of them. */
  lemma QueuedWasIssued(creator: Name, names: set<Name>, steps: seq<Step>, name: Name)
    requires Legal(Init(creator, names), steps) && name in Run(Init(creator, names), steps).workers
    ensures var init := Init(creator, names);
            var worker := Run(init, steps).workers[name];
            && (worker.queued.Some? ==> (name, worker.queued.value) in Issued(init, steps))
            && (worker.control.Waiting? ==> (name, worker.control.intent) in Issued(init, steps))
  {
    var init := Init(creator, names);
    OwnIntentsRun(init, steps, {});
    assert {} + Issued(init, steps) == Issued(init, steps);
  }
}
