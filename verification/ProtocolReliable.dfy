/**
 What submitting at most once gives: a worker never loses track of its accepted commit, even when it never hears
 the reply, and an intent whose retries are not abandoned is accepted at most once.
 */
module ProtocolReliable {
  import opened Wrappers
  import opened Mls
  import opened Client
  import opened DeliverySpec
  import opened Protocol
  import opened ProtocolInvariant
  import opened ProtocolSteps
  import opened ProtocolTheorems
  import opened ProtocolIntents

  predicate Processed(world: World, commit: Commit) {
    commit in world.rejected || commit in world.accepted
  }

  /** The service processes no submit a second time. */
  predicate OnceStep(world: World, step: Step) {
    match step
    case DsAccept(commit) => !Processed(world, commit)
    case DsReject(commit) => !Processed(world, commit)
    case _ => true
  }

  predicate AtMostOnce(world: World, steps: seq<Step>)
    requires Legal(world, steps)
    decreases |steps|
  {
    steps == [] || (OnceStep(world, steps[0]) && AtMostOnce(Next(world, steps[0]), steps[1..]))
  }

  /** The worker waits for the reply to a retry; it may give up on a first attempt. */
  predicate PatientStep(world: World, step: Step)
    requires Enabled(world, step)
  {
    step.GiveUp? ==> !world.workers[step.name].control.retry
  }

  predicate NoAbandonedRetry(world: World, steps: seq<Step>)
    requires Legal(world, steps)
    decreases |steps|
  {
    steps == [] || (PatientStep(world, steps[0]) && NoAbandonedRetry(Next(world, steps[0]), steps[1..]))
  }

  ghost predicate DisjointInv(world: World) {
    forall c | c in world.rejected :: c !in world.accepted
  }

  lemma DisjointStep(world: World, step: Step)
    requires DisjointInv(world) && Enabled(world, step) && OnceStep(world, step)
    ensures DisjointInv(Next(world, step))
  {
    hide ReceiveCommit, StartEpochChange;
  }

  lemma {:induction false} DisjointRun(world: World, steps: seq<Step>)
    requires DisjointInv(world) && Legal(world, steps) && AtMostOnce(world, steps)
    ensures DisjointInv(Run(world, steps))
    decreases |steps|
  {
    hide DisjointInv, Next, Enabled;
    if steps != [] {
      DisjointStep(world, steps[0]);
      DisjointRun(Next(world, steps[0]), steps[1..]);
    }
  }

  // ---- own commits stay held until they are rolled back or the epoch moves on

  /** The commit a step discards because its conflict reply was read. */
  function RollbackOf(world: World, step: Step): set<Commit>
    requires Enabled(world, step)
  {
    if step.Conflict? then {world.workers[step.name].control.commit} else {}
  }

  function RolledBack(world: World, steps: seq<Step>): set<Commit>
    requires Legal(world, steps)
    decreases |steps|
  {
    if steps == [] then {} else RollbackOf(world, steps[0]) + RolledBack(Next(world, steps[0]), steps[1..])
  }

  /**
   Within one membership period a worker still holds each own commit of its epoch that it did not roll back;
   it holds none that it rolled back or created in an earlier period.
   */
  ghost predicate HeldInv(world: World, back: set<Commit>, name: Name, worker: Worker) {
    forall c | c in world.submits && c.sender == name ::
      && c.life <= worker.life
      && (c.life == worker.life ==>
            && worker.client.group.Some? && c.base <= worker.client.group.value.state.epoch
            && (c !in back && c.base == worker.client.group.value.state.epoch ==>
                  worker.client.pendingCommit == Some(c)))
      && (c.life < worker.life || c in back ==> worker.client.pendingCommit != Some(c))
  }

  ghost predicate AllHeldInv(world: World, back: set<Commit>) {
    back <= world.rejected && forall n | n in world.workers :: HeldInv(world, back, n, world.workers[n])
  }

  lemma HeldSame(world: World, next: World, back: set<Commit>)
    requires AllHeldInv(world, back)
    requires next.submits == world.submits && world.rejected <= next.rejected
    requires next.workers.Keys == world.workers.Keys
    requires forall n | n in world.workers ::
               next.workers[n].client == world.workers[n].client && next.workers[n].life == world.workers[n].life
    ensures AllHeldInv(next, back)
  {
    forall n | n in next.workers ensures HeldInv(next, back, n, next.workers[n]) {
      assert HeldInv(world, back, n, world.workers[n]);
    }
  }

  /** One worker changes, and perhaps one of its own commits is rolled back; submits and rejections do not change. */
  lemma HeldOther(world: World, next: World, back: set<Commit>, back': set<Commit>, name: Name)
    requires AllHeldInv(world, back) && name in next.workers
    requires next.workers == world.workers[name := next.workers[name]]
    requires next.submits == world.submits && next.rejected == world.rejected
    requires back <= back' <= next.rejected && forall c | c in back' && c !in back :: c.sender == name
    requires HeldInv(next, back', name, next.workers[name])
    ensures AllHeldInv(next, back')
  {
    forall n | n in next.workers ensures HeldInv(next, back', n, next.workers[n]) {
      if n != name {
        assert HeldInv(world, back, n, world.workers[n]);
      }
    }
  }

  lemma HeldSubmit(creator: Name, world: World, back: set<Commit>, name: Name, intent: Intent, retry: bool)
    requires ServiceInv(world) && NetworkInv(creator, world) && WorkersInv(creator, world) && AllHeldInv(world, back)
    requires name in world.workers && Start(world, name, intent).Ok? && Start(world, name, intent).value.1 !in world.submits
    ensures AllHeldInv(Submit(world, name, intent, retry), back)
  {
    hide Genuine, SyncedAt, ControlInv, EffectOf, Merge, MembersAt;
    var next := Submit(world, name, intent, retry);
    assert WorkerInv(creator, world, name, world.workers[name]);
    forall n | n in next.workers ensures HeldInv(next, back, n, next.workers[n]) {
      assert HeldInv(world, back, n, world.workers[n]);
    }
  }

  lemma HeldApply(creator: Name, world: World, back: set<Commit>, name: Name, index: nat)
    requires ServiceInv(world) && WorkersInv(creator, world) && AllHeldInv(world, back)
    requires Enabled(world, Apply(name, index))
    ensures AllHeldInv(NextApply(world, name, index), back)
  {
    hide ServiceInv, ReceiveCommit, ClientInv, Genuine, SyncedAt, ControlInv;
    var next := NextApply(world, name, index);
    assert WorkerInv(creator, world, name, world.workers[name]);
    assert HeldInv(world, back, name, world.workers[name]);
    if ReceiveCommit(world.workers[name].client, name, world.log[index].commit).Ok? {
      ReceiveMerges(creator, world, name, world.workers[name].client, index);
      HeldOther(world, next, back, back, name);
    }
  }

  lemma HeldJoin(world: World, back: set<Commit>, name: Name, readable: bool)
    requires AllHeldInv(world, back) && Enabled(world, Join(name, readable))
    ensures AllHeldInv(NextJoin(world, name, readable), back)
  {
    assert HeldInv(world, back, name, world.workers[name]);
    HeldOther(world, NextJoin(world, name, readable), back, back, name);
  }

  lemma HeldConflict(creator: Name, world: World, back: set<Commit>, name: Name)
    requires WorkersInv(creator, world) && AllHeldInv(world, back) && Enabled(world, Conflict(name))
    ensures AllHeldInv(NextConflict(world, name), back + {world.workers[name].control.commit})
  {
    hide Genuine, SyncedAt;
    assert WorkerInv(creator, world, name, world.workers[name]);
    assert HeldInv(world, back, name, world.workers[name]);
    HeldOther(world, NextConflict(world, name), back, back + {world.workers[name].control.commit}, name);
  }

  lemma HeldNewCommit(creator: Name, world: World, back: set<Commit>, step: Step)
    requires Inv(creator, world) && AllHeldInv(world, back) && Enabled(world, step) && (step.Begin? || step.Retry?)
    ensures AllHeldInv(Next(world, step), back)
  {
    hide ServiceInv, NetworkInv, StoredInv, AddressedInv, WorkersInv, AllHeldInv, StartEpochChange;
    var name := step.name;
    if step.Begin? {
      var intent := Intent(world.tokens, step.request);
      SubmitNetwork(creator, world, name, intent, false);
      HeldSubmit(creator, world, back, name, intent, false);
      HeldSame(Submit(world, name, intent, false), Next(world, step), back);
    } else if WillSubmit(world, name) {
      SubmitNetwork(creator, world, name, world.workers[name].queued.value, true);
      HeldSubmit(creator, world, back, name, world.workers[name].queued.value, true);
    } else {
      HeldSame(world, Next(world, step), back);
    }
  }

  /** Every other step leaves clients and submits alone. */
  lemma HeldElse(world: World, back: set<Commit>, step: Step)
    requires AllHeldInv(world, back) && Enabled(world, step)
    requires !step.Begin? && !step.Retry? && !step.Apply? && !step.Join? && !step.Conflict?
    ensures AllHeldInv(Next(world, step), back)
  {
    hide AllHeldInv, PutState, AcceptCommit;
    HeldSame(world, Next(world, step), back);
  }

  lemma HeldStep(creator: Name, world: World, back: set<Commit>, step: Step)
    requires Inv(creator, world) && AllHeldInv(world, back) && Enabled(world, step)
    ensures AllHeldInv(Next(world, step), back + RollbackOf(world, step))
  {
    hide ServiceInv, NetworkInv, StoredInv, AddressedInv, WorkersInv, AllHeldInv, Enabled;
    assert back + {} == back;
    if step.Begin? || step.Retry? {
      HeldNewCommit(creator, world, back, step);
    } else if step.Apply? {
      HeldApply(creator, world, back, step.name, step.index);
    } else if step.Join? {
      HeldJoin(world, back, step.name, step.readable);
    } else if step.Conflict? {
      HeldConflict(creator, world, back, step.name);
    } else {
      HeldElse(world, back, step);
    }
  }

  lemma {:induction false} HeldRun(creator: Name, world: World, back: set<Commit>, steps: seq<Step>)
    requires Inv(creator, world) && AllHeldInv(world, back) && Legal(world, steps)
    ensures AllHeldInv(Run(world, steps), back + RolledBack(world, steps))
    decreases |steps|
  {
    hide Inv, AllHeldInv, Next, Enabled, RollbackOf;
    if steps == [] {
      assert back + RolledBack(world, steps) == back;
    } else {
      StepKeepsInv(creator, world, steps[0]);
      HeldStep(creator, world, back, steps[0]);
      HeldRun(creator, Next(world, steps[0]), back + RollbackOf(world, steps[0]), steps[1..]);
      assert back + RollbackOf(world, steps[0]) + RolledBack(Next(world, steps[0]), steps[1..])
          == back + RolledBack(world, steps);
    }
  }

  /** The commit accepted at the worker's epoch is one the worker created. */
  ghost predicate OwnIsDue(world: World, name: Name) {
    && name in world.workers && world.workers[name].client.group.Some?
    && world.workers[name].client.group.value.state.epoch < |world.accepted|
    && world.accepted[world.workers[name].client.group.value.state.epoch].sender == name
  }

  function Due(world: World, name: Name): Commit
    requires OwnIsDue(world, name)
  {
    world.accepted[world.workers[name].client.group.value.state.epoch]
  }

  /** The worker has it staged as its pending commit, so it will take the own-commit branch. */
  ghost predicate HoldsDue(world: World, name: Name)
    requires OwnIsDue(world, name)
  {
    var client, due := world.workers[name].client, Due(world, name);
    && client.pendingCommit == Some(due) && client.group.value.staged == Some(due)
    && ReceiveCommit(client, name, due).Ok?
    && ReceiveCommit(client, name, due).value.1.OwnCommitAccepted?
  }

  lemma DueIsHeldIff(creator: Name, world: World, back: set<Commit>, name: Name)
    requires Inv(creator, world) && AllHeldInv(world, back) && OwnIsDue(world, name)
    ensures Stranded(world, name) <==> Due(world, name).life != world.workers[name].life || Due(world, name) in back
    ensures Stranded(world, name) <==> !HoldsDue(world, name)
  {
    hide NetworkInv, StoredInv, AddressedInv, ControlInv, Genuine;
    var client, due := world.workers[name].client, Due(world, name);
    assert HeldInv(world, back, name, world.workers[name]);
    assert WorkerInv(creator, world, name, world.workers[name]);
    assert due in world.accepted;
    if client.pendingCommit == Some(due) {
      PendingAcceptedIsStaged(creator, world, name, client);
    }
  }

  /**
   After every run: a worker whose epoch's accepted commit is its own has lost track of it if and only if it
   created it in an earlier membership period or rolled it back on a conflict reply, before or after it was
   accepted; otherwise it has it staged and will merge it.
   */
  lemma StrandedIff(creator: Name, names: set<Name>, steps: seq<Step>, name: Name)
    requires Legal(Init(creator, names), steps) && OwnIsDue(Run(Init(creator, names), steps), name)
    ensures var world := Run(Init(creator, names), steps);
            && (Stranded(world, name) <==>
                || Due(world, name).life != world.workers[name].life
                || Due(world, name) in RolledBack(Init(creator, names), steps))
            && (Stranded(world, name) <==> !HoldsDue(world, name))
    ensures RolledBack(Init(creator, names), steps) <= Run(Init(creator, names), steps).rejected
  {
    hide Inv, Init, Next, Enabled, Run, Legal, RolledBack, HoldsDue, Stranded, HeldInv;
    var init := Init(creator, names);
    InitInv(creator, names);
    InitHeld(creator, names);
    RunInv(creator, names, steps);
    HeldRun(creator, init, {}, steps);
    assert {} + RolledBack(init, steps) == RolledBack(init, steps);
    DueIsHeldIff(creator, Run(init, steps), RolledBack(init, steps), name);
  }

  lemma InitHeld(creator: Name, names: set<Name>)
    ensures AllHeldInv(Init(creator, names), {}) && DisjointInv(Init(creator, names))
  {
  }

  /**
   When the service processes each submit at most once, such a worker is stranded if and only if it created the
   commit in an earlier membership period, whether or not it heard the replies to its submits.
   */
  lemma AcceptedOwnCommitIsHeld(creator: Name, names: set<Name>, steps: seq<Step>, name: Name)
    requires Legal(Init(creator, names), steps) && AtMostOnce(Init(creator, names), steps)
    requires OwnIsDue(Run(Init(creator, names), steps), name)
    ensures var world := Run(Init(creator, names), steps);
            && (Stranded(world, name) <==> Due(world, name).life != world.workers[name].life)
            && (HoldsDue(world, name) <==> Due(world, name).life == world.workers[name].life)
  {
    hide Init, Next, Enabled, Run, Legal, AtMostOnce, ReceiveCommit, HoldsDue, Stranded;
    InitHeld(creator, names);
    DisjointRun(Init(creator, names), steps);
    StrandedIff(creator, names, steps, name);
    var world := Run(Init(creator, names), steps);
    assert Due(world, name) in world.accepted;
  }

  // ---- intents

  predicate ForIntent(commit: Commit, name: Name, intent: Intent) {
    commit.sender == name && commit.intent == intent.token
  }

  /** An intent a worker holds has no commit that was not rejected, but the one whose reply the worker awaits. */
  ghost predicate IntentInv(world: World, name: Name, worker: Worker) {
    && (worker.queued.Some? ==>
          forall c | c in world.submits && ForIntent(c, name, worker.queued.value) && c !in world.rejected ::
            worker.control == Waiting(c, worker.queued.value, true))
    && (worker.control.Waiting? ==>
          && (forall c | c in world.submits && ForIntent(c, name, worker.control.intent) && c !in world.rejected ::
                c == worker.control.commit)
          && (worker.control.retry ==> worker.queued == Some(worker.control.intent))
          && (!worker.control.retry && worker.queued.Some? ==>
                worker.queued.value.token != worker.control.intent.token))
  }

  ghost predicate IntentsInv(world: World) {
    forall n | n in world.workers :: IntentInv(world, n, world.workers[n])
  }

  lemma QuietIntents(world: World, next: World)
    requires IntentsInv(world) && Quiet(world, next)
    ensures IntentsInv(next)
  {
    forall n | n in next.workers ensures IntentInv(next, n, next.workers[n]) {
      assert IntentInv(world, n, world.workers[n]);
    }
  }

  lemma SubmittedIntents(world: World, next: World, name: Name, intent: Intent, retry: bool, commit: Commit)
    requires BoundedInv(world) && IntentsInv(world) && Submitted(world, next, name, intent, retry, commit)
    ensures IntentsInv(next)
  {
    forall n | n in next.workers ensures IntentInv(next, n, next.workers[n]) {
      assert IntentInv(world, n, world.workers[n]);
    }
  }

  lemma ReplyIntents(world: World, step: Step)
    requires IntentsInv(world) && Enabled(world, step) && PatientStep(world, step)
    requires step.GiveUp? || step.Confirm? || step.Conflict? || step.DsAccept? || step.DsReject?
    ensures IntentsInv(Next(world, step))
  {
    var next := Next(world, step);
    forall n | n in next.workers ensures IntentInv(next, n, next.workers[n]) {
      assert IntentInv(world, n, world.workers[n]);
    }
  }

  lemma IntentsStep(creator: Name, world: World, step: Step)
    requires Inv(creator, world) && BoundedInv(world) && IntentsInv(world)
    requires Enabled(world, step) && PatientStep(world, step)
    ensures IntentsInv(Next(world, step))
  {
    hide ServiceInv, NetworkInv, StoredInv, AddressedInv, WorkersInv, IntentsInv, BoundedInv, StartEpochChange;
    if QuietKind(world, step) {
      QuietSteps(world, step);
      QuietIntents(world, Next(world, step));
    } else if step.Begin? || step.Retry? {
      var intent, retry, commit := SubmitSteps(creator, world, step);
      SubmittedIntents(world, Next(world, step), step.name, intent, retry, commit);
    } else {
      ReplyIntents(world, step);
    }
  }

  /** A retry is never for an intent that has been accepted. */
  lemma NothingResubmitted(world: World, step: Step)
    requires ServiceInv(world) && DisjointInv(world) && IntentsInv(world) && Enabled(world, step)
    ensures ResubmitOf(world, step) == {}
  {
    hide StartEpochChange;
    if step.Retry? {
      assert IntentInv(world, step.name, world.workers[step.name]);
      assert forall i | 0 <= i < |world.accepted| :: world.accepted[i] in world.accepted;
    }
  }

  lemma {:induction false} PatientRun(creator: Name, world: World, steps: seq<Step>, again: set<Commit>)
    requires Inv(creator, world) && HistoryInv(world, again) && DisjointInv(world) && IntentsInv(world)
    requires Legal(world, steps) && AtMostOnce(world, steps) && NoAbandonedRetry(world, steps)
    ensures Resubmitted(world, steps) == {}
    decreases |steps|
  {
    hide ServiceInv, NetworkInv, StoredInv, AddressedInv, WorkersInv, BoundedInv, RivalInv, AgainInv, DisjointInv,
         IntentsInv, Next, Enabled, ResubmitOf, OnceStep, PatientStep;
    if steps != [] {
      StepKeepsInv(creator, world, steps[0]);
      StepHistory(creator, world, steps[0], again);
      DisjointStep(world, steps[0]);
      IntentsStep(creator, world, steps[0]);
      NothingResubmitted(world, steps[0]);
      PatientRun(creator, Next(world, steps[0]), steps[1..], again + ResubmitOf(world, steps[0]));
    }
  }

  lemma InitIntents(creator: Name, names: set<Name>)
    ensures IntentsInv(Init(creator, names))
  {
  }

  /**
   When each submit is processed at most once and no retry is abandoned, an intent, however often it is retried,
   is accepted at most once over the whole run; replies to first attempts may be lost.
   */
  lemma IntentAcceptedAtMostOnce(creator: Name, names: set<Name>, steps: seq<Step>, i: nat, j: nat)
    requires Legal(Init(creator, names), steps)
    requires AtMostOnce(Init(creator, names), steps) && NoAbandonedRetry(Init(creator, names), steps)
    requires var accepted := Run(Init(creator, names), steps).accepted;
             && i < |accepted| && j < |accepted| && SameIntent(accepted[i], accepted[j])
    ensures i == j
  {
    hide Inv, HistoryInv, DisjointInv, IntentsInv, Init, Run, Legal, AtMostOnce, NoAbandonedRetry, Resubmitted;
    InitInv(creator, names);
    InitHistory(creator, names);
    InitHeld(creator, names);
    InitIntents(creator, names);
    PatientRun(creator, Init(creator, names), steps, {});
    IntentAcceptedOnceIff(creator, names, steps);
  }
}
