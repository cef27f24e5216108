/** What holds after every run, whatever the network delays, repeats or loses. */
module ProtocolTheorems {
  import opened Wrappers
  import opened Mls
  import opened Client
  import opened DeliverySpec
  import opened Protocol
  import opened ProtocolInvariant
  import opened ProtocolSteps
  import opened WorkerSpec

  lemma RunInv(creator: Name, names: set<Name>, steps: seq<Step>)
    requires Legal(Init(creator, names), steps)
    ensures Inv(creator, Run(Init(creator, names), steps))
  {
    InitInv(creator, names);
    RunKeepsInv(creator, Init(creator, names), steps);
  }

  /**
   A client at epoch e holds exactly the fold of the first e accepted commits, applied once each and in order,
   whether it applied them itself or joined by a Welcome; so clients at the same epoch agree on everything.
   */
  lemma Agreement(creator: Name, names: set<Name>, steps: seq<Step>, a: Name, b: Name)
    requires Legal(Init(creator, names), steps)
    requires var world := Run(Init(creator, names), steps);
             && a in world.workers && world.workers[a].client.group.Some?
             && b in world.workers && world.workers[b].client.group.Some?
    ensures var world := Run(Init(creator, names), steps);
            var ga, gb := world.workers[a].client.group.value.state, world.workers[b].client.group.value.state;
            && ga.epoch <= |world.accepted|
            && ga == Fold(creator, world.accepted[..ga.epoch])
            && ga.transcript == world.accepted[..ga.epoch]
            && (ga.epoch == gb.epoch ==> ga == gb)
  {
    hide ServiceInv, NetworkInv, StoredInv, AddressedInv, ControlInv, PendingInv;
    RunInv(creator, names, steps);
    var world := Run(Init(creator, names), steps);
    assert WorkerInv(creator, world, a, world.workers[a]);
    assert WorkerInv(creator, world, b, world.workers[b]);
  }

  /**
   The log is pushed in strictly consecutive epoch order although accepting and pushing are separate steps,
   and the service accepts one commit per epoch.
   */
  lemma LogIsConsecutive(creator: Name, names: set<Name>, steps: seq<Step>)
    requires Legal(Init(creator, names), steps)
    ensures var world := Run(Init(creator, names), steps);
            && |world.log| <= |world.accepted| <= |world.log| + 1
            && (forall i | 0 <= i < |world.accepted| :: world.accepted[i].base == i)
            && (forall i | 0 <= i < |world.log| ::
                  world.log[i].epoch == i + 1 && world.log[i].commit == world.accepted[i])
            && (world.group.Some? ==> world.group.value.epoch == |world.accepted|)
            && Ascending(world.log)
  {
    hide NetworkInv, StoredInv, AddressedInv, WorkersInv;
    RunInv(creator, names, steps);
  }

  lemma StepGrowsLog(world: World, step: Step)
    requires Enabled(world, step)
    ensures world.log <= Next(world, step).log && world.accepted <= Next(world, step).accepted
  {
    hide StartEpochChange, ReceiveCommit, PutState, AcceptCommit;
  }

  lemma {:induction false} RunGrowsLog(world: World, steps: seq<Step>)
    requires Legal(world, steps)
    ensures world.log <= Run(world, steps).log && world.accepted <= Run(world, steps).accepted
    decreases |steps|
  {
    hide Next, Enabled;
    if steps != [] {
      StepGrowsLog(world, steps[0]);
      RunGrowsLog(Next(world, steps[0]), steps[1..]);
    }
  }

  /** The log as it stands after `t` steps of a run, or at its end. */
  function LogAfter(world: World, steps: seq<Step>, t: nat): seq<LogCommit>
    requires Legal(world, steps)
    decreases |steps|
  {
    if steps == [] || t == 0 then world.log else LogAfter(Next(world, steps[0]), steps[1..], t - 1)
  }

  lemma {:induction false} LogAfterIs(world: World, steps: seq<Step>, t: nat)
    requires Legal(world, steps)
    ensures var k := if t < |steps| then t else |steps|;
            Legal(world, steps[..k]) && LogAfter(world, steps, t) == Run(world, steps[..k]).log
    decreases |steps|
  {
    hide Next, Enabled;
    if steps != [] && t > 0 {
      LogAfterIs(Next(world, steps[0]), steps[1..], t - 1);
      var k := if t < |steps| then t else |steps|;
      assert steps[..k][1..] == steps[1..][..k - 1];
    } else {
      assert steps[..0] == [];
    }
  }

  /** The successive logs of a run, as a worker's loops see them. */
  function LogView(world: World, steps: seq<Step>): nat -> seq<LogCommit>
    requires Legal(world, steps)
  {
    (t: nat) => LogAfter(world, steps, t)
  }

  lemma {:induction false} LogAfterGrows(world: World, steps: seq<Step>, s: nat, t: nat)
    requires Legal(world, steps) && s <= t
    ensures LogAfter(world, steps, s) <= LogAfter(world, steps, t)
    decreases |steps|
  {
    hide Next, Enabled;
    if steps != [] && s > 0 {
      LogAfterGrows(Next(world, steps[0]), steps[1..], s - 1, t - 1);
    } else {
      LogAfterIs(world, steps, t);
      var k := if t < |steps| then t else |steps|;
      RunGrowsLog(world, steps[..k]);
    }
  }

  lemma LogAfterConsecutive(creator: Name, names: set<Name>, steps: seq<Step>, t: nat)
    requires Legal(Init(creator, names), steps)
    ensures Consecutive(LogAfter(Init(creator, names), steps, t))
  {
    hide Init, Next, Enabled;
    LogAfterIs(Init(creator, names), steps, t);
    LogIsConsecutive(creator, names, steps[..if t < |steps| then t else |steps|]);
  }

  /** Every run gives the worker loops the timeline they assume: consecutive entries, only growing. */
  lemma LogsFormTimeline(creator: Name, names: set<Name>, steps: seq<Step>)
    requires Legal(Init(creator, names), steps)
    ensures Timeline(LogView(Init(creator, names), steps))
  {
    hide Init, Next, Enabled, LogAfter, Consecutive;
    var view := LogView(Init(creator, names), steps);
    forall t: nat ensures Consecutive(view(t)) {
      LogAfterConsecutive(creator, names, steps, t);
    }
    forall s: nat, t: nat | s <= t ensures view(s) <= view(t) {
      LogAfterGrows(Init(creator, names), steps, s, t);
    }
  }

  /**
   An accepted commit is addressed to the exact membership at the epoch of the last put stored before it was
   accepted. That epoch is at most its base, and is its base when its sender's put for that epoch had been
   answered (stored or stale) before the commit was created.
   */
  lemma RecipientsAreTheMembers(creator: Name, names: set<Name>, steps: seq<Step>, i: nat)
    requires Legal(Init(creator, names), steps)
    requires i < |Run(Init(creator, names), steps).log|
    ensures var world := Run(Init(creator, names), steps);
            && i < |world.addressed| && world.addressed[i] <= i < |world.accepted|
            && world.log[i].recipients == MembersAt(creator, world.accepted, world.addressed[i])
            && (world.log[i].commit in world.syncedCommits ==> world.addressed[i] == i)
  {
    hide ServiceInv, NetworkInv, StoredInv, AddressedInv, WorkersInv, MembersAt, Run, Legal;
    RunInv(creator, names, steps);
    EntryIsAddressed(creator, Run(Init(creator, names), steps), i);
  }

  lemma EntryIsAddressed(creator: Name, world: World, i: nat)
    requires ServiceInv(world) && AddressedInv(creator, world) && i < |world.log|
    ensures i < |world.addressed| && world.addressed[i] <= i < |world.accepted|
    ensures world.log[i].recipients == MembersAt(creator, world.accepted, world.addressed[i])
    ensures world.log[i].commit in world.syncedCommits ==> world.addressed[i] == i
  {
    hide MembersAt;
    assert world.log[i] in world.log;
  }

  /**
   A worker whose stored pending commit has been accepted is at that commit's epoch, and the only log entry
   it can apply is that commit, through the own-commit branch.
   */
  lemma OwnCommitIsAppliedNext(creator: Name, names: set<Name>, steps: seq<Step>, name: Name, index: nat)
    requires Legal(Init(creator, names), steps)
    requires var world := Run(Init(creator, names), steps);
             && name in world.workers && world.workers[name].client.pendingCommit.Some?
             && world.workers[name].client.pendingCommit.value in world.accepted
             && index < |world.log|
    ensures var world := Run(Init(creator, names), steps);
            var client := world.workers[name].client;
            var own := client.pendingCommit.value;
            && client.group.Some? && client.group.value.state.epoch == own.base
            && client.group.value.staged == Some(own)
            && own.base < |world.accepted| && world.accepted[own.base] == own
            && (match ReceiveCommit(client, name, world.log[index].commit)
                case Ok((_, outcome)) => outcome.OwnCommitAccepted? && world.log[index].commit == own
                case Err(_) => world.log[index].commit != own)
  {
    hide NetworkInv, StoredInv, AddressedInv, ControlInv;
    RunInv(creator, names, steps);
    var world := Run(Init(creator, names), steps);
    assert WorkerInv(creator, world, name, world.workers[name]);
    PendingAcceptedIsStaged(creator, world, name, world.workers[name].client);
  }

  lemma PendingAcceptedIsStaged(creator: Name, world: World, name: Name, client: ClientState)
    requires ServiceInv(world) && ClientInv(creator, world, name, client)
    requires client.pendingCommit.Some? && client.pendingCommit.value in world.accepted
    ensures var own := client.pendingCommit.value;
            && client.group.Some? && client.group.value.state.epoch == own.base
            && client.group.value.staged == Some(own)
            && own.base < |world.accepted| && world.accepted[own.base] == own
  {
    var own := client.pendingCommit.value;
    var i :| 0 <= i < |world.accepted| && world.accepted[i] == own;
    assert own.base == i;
  }

  // ---- a client that lost track of its own accepted commit

  /** The commit accepted at the client's epoch is its own, and it is no longer the stored pending commit. */
  ghost predicate Stranded(world: World, name: Name) {
    && name in world.workers && world.workers[name].client.group.Some?
    && var client := world.workers[name].client;
       var epoch := client.group.value.state.epoch;
       && epoch < |world.accepted| && world.accepted[epoch].sender == name
       && client.pendingCommit != Some(world.accepted[epoch])
  }

  lemma StrandedRejectsAll(creator: Name, world: World, name: Name, index: nat)
    requires ServiceInv(world) && Stranded(world, name) && ClientInv(creator, world, name, world.workers[name].client)
    requires index < |world.log|
    ensures ReceiveCommit(world.workers[name].client, name, world.log[index].commit).Err?
  {
    var client := world.workers[name].client;
    var commit := world.log[index].commit;
    if client.pendingCommit == Some(commit) {
      PendingAcceptedIsStaged(creator, world, name, client);
      assert false;
    }
  }

  /** A conflict reply strands its worker exactly when the commit it answers had been accepted. */
  lemma ConflictStrands(creator: Name, world: World, name: Name)
    requires Inv(creator, world) && Enabled(world, Conflict(name))
    ensures Stranded(Next(world, Conflict(name)), name)
       <==> Stranded(world, name) || world.workers[name].control.commit in world.accepted
  {
    hide NetworkInv, StoredInv, AddressedInv, Genuine, Fold, Merge;
    assert WorkerInv(creator, world, name, world.workers[name]);
    if world.workers[name].control.commit in world.accepted {
      PendingAcceptedIsStaged(creator, world, name, world.workers[name].client);
    }
  }

  /** A step that is not one of the worker's own epoch changes leaves its client alone. */
  lemma ClientUntouched(world: World, step: Step, name: Name)
    requires Enabled(world, step) && name in world.workers
    requires !((step.Begin? || step.Retry? || step.Conflict? || step.Apply? || step.Join?) && step.name == name)
    ensures name in Next(world, step).workers
    ensures Next(world, step).workers[name].client == world.workers[name].client
    ensures world.accepted <= Next(world, step).accepted
  {
    hide StartEpochChange, ReceiveCommit, PutState, AcceptCommit;
  }

  lemma StrandedSubmit(creator: Name, world: World, name: Name, intent: Intent, retry: bool)
    requires ServiceInv(world) && NetworkInv(creator, world) && WorkersInv(creator, world) && Stranded(world, name)
    requires Start(world, name, intent).Ok?
    ensures Stranded(Submit(world, name, intent, retry), name)
    ensures Submit(world, name, intent, retry).workers[name].client.group.value.state
         == world.workers[name].client.group.value.state
  {
    hide NetworkInv, WorkersInv, EffectOf, Merge;
    SubmitNetwork(creator, world, name, intent, retry);
  }

  /** Without a new Welcome a stranded client keeps its epoch, whatever anyone does. */
  lemma StrandedStep(creator: Name, world: World, step: Step, name: Name)
    requires Inv(creator, world) && Enabled(world, step) && Stranded(world, name)
    requires !(step.Join? && step.name == name)
    ensures Stranded(Next(world, step), name)
    ensures Next(world, step).workers[name].client.group.value.state
         == world.workers[name].client.group.value.state
  {
    hide ServiceInv, NetworkInv, StoredInv, AddressedInv, ControlInv, ClientInv, StartEpochChange, ReceiveCommit;
    if !((step.Begin? || step.Retry? || step.Conflict? || step.Apply?) && step.name == name) {
      ClientUntouched(world, step, name);
    } else if step.Begin? {
      StrandedSubmit(creator, world, name, Intent(world.tokens, step.request), false);
    } else if step.Retry? {
      var queued := world.workers[name].queued;
      if queued.Some? && Start(world, name, queued.value).Ok? {
        StrandedSubmit(creator, world, name, queued.value, true);
      }
    } else if step.Apply? {
      assert WorkerInv(creator, world, name, world.workers[name]);
      StrandedRejectsAll(creator, world, name, step.index);
    }
  }

  lemma {:induction false} StrandedForever(creator: Name, world: World, steps: seq<Step>, name: Name)
    requires Inv(creator, world) && Legal(world, steps) && Stranded(world, name)
    requires forall i | 0 <= i < |steps| :: !(steps[i].Join? && steps[i].name == name)
    ensures Stranded(Run(world, steps), name)
    ensures Run(world, steps).workers[name].client.group.value.state == world.workers[name].client.group.value.state
    decreases |steps|
  {
    hide Inv, Stranded;
    if steps != [] {
      StepKeepsInv(creator, world, steps[0]);
      StrandedStep(creator, world, steps[0], name);
      StrandedForever(creator, Next(world, steps[0]), steps[1..], name);
    }
  }
}
