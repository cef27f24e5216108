/** Who receives a commit: the members of its epoch, unless its sender came in by a Welcome or a request failed. */
module ProtocolRecipients {
  import opened Wrappers
  import opened Mls
  import opened Client
  import opened DeliverySpec
  import opened Protocol
  import opened ProtocolInvariant
  import opened ProtocolSteps
  import opened ProtocolTheorems

  /** The epoch a step lets a worker enter by a Welcome. */
  function JoinOf(world: World, step: Step): set<(Name, nat)>
    requires Enabled(world, step)
  {
    if step.Join? && Next(world, step).workers[step.name].client.group.Some? then
      {(step.name, Next(world, step).workers[step.name].client.group.value.state.epoch)}
    else {}
  }

  /** Which workers entered which epochs by a Welcome during a run. */
  function Joins(world: World, steps: seq<Step>): set<(Name, nat)>
    requires Legal(world, steps)
    decreases |steps|
  {
    if steps == [] then {} else JoinOf(world, steps[0]) + Joins(Next(world, steps[0]), steps[1..])
  }

  /** No Welcome post and no group-state put is abandoned. */
  predicate NoFailures(steps: seq<Step>) {
    forall i | 0 <= i < |steps| :: !steps[i].PostFailed? && !steps[i].PutFailed?
  }

  /** A worker that is not in the middle of applying a commit has put its epoch's members, or joined at it. */
  ghost predicate PutOrJoined(worker: Worker, name: Name, joins: set<(Name, nat)>) {
    worker.client.group.Some? && !worker.control.Posting? && !worker.control.Putting? && !worker.synced ==>
      (name, worker.client.group.value.state.epoch) in joins
  }

  ghost predicate UpToDate(world: World, joins: set<(Name, nat)>) {
    && (forall n | n in world.workers :: PutOrJoined(world.workers[n], n, joins))
    && (forall c | c in world.submits && c !in world.syncedCommits :: (c.sender, c.base) in joins)
  }

  lemma InitUpToDate(creator: Name, names: set<Name>)
    ensures UpToDate(Init(creator, names), {})
  {
  }

  lemma SubmitUpToDate(creator: Name, world: World, joins: set<(Name, nat)>, name: Name, intent: Intent, retry: bool)
    requires UpToDate(world, joins) && name in world.workers && Start(world, name, intent).Ok?
    requires world.workers[name].control == Idle || world.workers[name].control == Retrying
    ensures UpToDate(Submit(world, name, intent, retry), joins)
  {
    hide EffectOf, Merge;
    assert PutOrJoined(world.workers[name], name, joins);
  }

  lemma ApplyUpToDate(world: World, joins: set<(Name, nat)>, name: Name, index: nat)
    requires UpToDate(world, joins) && Enabled(world, Apply(name, index))
    ensures UpToDate(NextApply(world, name, index), joins)
  {
    hide Merge, Members, MergePendingCommit;
    assert PutOrJoined(world.workers[name], name, joins);
  }

  lemma StepUpToDate(creator: Name, world: World, joins: set<(Name, nat)>, step: Step)
    requires UpToDate(world, joins) && Enabled(world, step) && !step.PostFailed? && !step.PutFailed?
    ensures UpToDate(Next(world, step), joins + JoinOf(world, step))
  {
    hide ReceiveCommit, StartEpochChange, UpToDate;
    assert joins + {} == joins;
    match step {
      case Begin(_, _) => NewCommitUpToDate(creator, world, joins, step);
      case Retry(_) => NewCommitUpToDate(creator, world, joins, step);
      case Apply(name, index) => ApplyUpToDate(world, joins, name, index);
      case _ => ElseUpToDate(world, joins, step);
    }
  }

  lemma NewCommitUpToDate(creator: Name, world: World, joins: set<(Name, nat)>, step: Step)
    requires UpToDate(world, joins) && Enabled(world, step) && (step.Begin? || step.Retry?)
    ensures UpToDate(Next(world, step), joins)
  {
    hide StartEpochChange;
    if step.Begin? {
      SubmitUpToDate(creator, world, joins, step.name, Intent(world.tokens, step.request), false);
    } else {
      var queued := world.workers[step.name].queued;
      if queued.Some? && Start(world, step.name, queued.value).Ok? {
        SubmitUpToDate(creator, world, joins, step.name, queued.value, true);
      }
    }
  }

  lemma ElseUpToDate(world: World, joins: set<(Name, nat)>, step: Step)
    requires UpToDate(world, joins) && Enabled(world, step) && !step.PostFailed? && !step.PutFailed?
    requires !step.Begin? && !step.Retry? && !step.Apply?
    ensures UpToDate(Next(world, step), joins + JoinOf(world, step))
  {
    hide PutState, AcceptCommit;
  }

  lemma {:induction false} RunUpToDate(creator: Name, world: World, joins: set<(Name, nat)>, steps: seq<Step>)
    requires UpToDate(world, joins) && Legal(world, steps) && NoFailures(steps)
    ensures UpToDate(Run(world, steps), joins + Joins(world, steps))
    decreases |steps|
  {
    hide UpToDate, Next, Enabled, JoinOf;
    if steps == [] {
      assert joins + Joins(world, steps) == joins;
    } else {
      StepUpToDate(creator, world, joins, steps[0]);
      RunUpToDate(creator, Next(world, steps[0]), joins + JoinOf(world, steps[0]), steps[1..]);
      assert joins + JoinOf(world, steps[0]) + Joins(Next(world, steps[0]), steps[1..]) == joins + Joins(world, steps);
    }
  }

  /**
   Over a run without failed posts and puts, every logged commit goes to the exact membership at its base epoch,
   unless its sender entered that epoch by a Welcome.
   */
  lemma RecipientsWithoutFailures(creator: Name, names: set<Name>, steps: seq<Step>, i: nat)
    requires Legal(Init(creator, names), steps) && NoFailures(steps)
    requires i < |Run(Init(creator, names), steps).log|
    requires (Run(Init(creator, names), steps).log[i].sender, i) !in Joins(Init(creator, names), steps)
    ensures var world := Run(Init(creator, names), steps);
            i <= |world.accepted| && world.log[i].recipients == MembersAt(creator, world.accepted, i)
  {
    hide NetworkInv, StoredInv, AddressedInv, WorkersInv, MembersAt, Run, Legal, Joins, Init;
    var init := Init(creator, names);
    InitUpToDate(creator, names);
    RunUpToDate(creator, init, {}, steps);
    assert {} + Joins(init, steps) == Joins(init, steps);
    RunInv(creator, names, steps);
    RecipientsAreTheMembers(creator, names, steps, i);
  }

  // ---- a worker the next commit is not addressed to

  /** The commit that leads on from the worker's epoch is not addressed to it. */
  ghost predicate Unaddressed(world: World, name: Name) {
    && name in world.workers && world.workers[name].client.group.Some?
    && world.workers[name].client.group.value.state.epoch < |world.log|
    && name !in world.log[world.workers[name].client.group.value.state.epoch].recipients
  }

  lemma UnaddressedApply(creator: Name, world: World, name: Name, index: nat)
    requires Inv(creator, world) && Unaddressed(world, name) && Enabled(world, Apply(name, index))
    ensures NextApply(world, name, index) == world
  {
    hide NetworkInv, StoredInv, AddressedInv, ControlInv, ReceiveCommit;
    var client := world.workers[name].client;
    assert WorkerInv(creator, world, name, world.workers[name]);
    if ReceiveCommit(client, name, world.log[index].commit).Ok? {
      ReceiveMerges(creator, world, name, client, index);
      assert false;
    }
  }

  lemma UnaddressedStep(creator: Name, world: World, step: Step, name: Name)
    requires Inv(creator, world) && Enabled(world, step) && Unaddressed(world, name)
    requires !(step.Join? && step.name == name)
    ensures Unaddressed(Next(world, step), name)
    ensures Next(world, step).workers[name].client.group.value.state == world.workers[name].client.group.value.state
  {
    hide ServiceInv, NetworkInv, StoredInv, AddressedInv, WorkersInv, ReceiveCommit, EffectOf, Merge;
    StepGrowsLog(world, step);
    if !((step.Begin? || step.Retry? || step.Conflict? || step.Apply?) && step.name == name) {
      ClientUntouched(world, step, name);
    } else if step.Apply? {
      UnaddressedApply(creator, world, name, step.index);
    }
  }

  /** Without a new Welcome such a worker never leaves its epoch, whatever anyone does. */
  lemma {:induction false} UnaddressedForever(creator: Name, world: World, steps: seq<Step>, name: Name)
    requires Inv(creator, world) && Legal(world, steps) && Unaddressed(world, name)
    requires forall i | 0 <= i < |steps| :: !(steps[i].Join? && steps[i].name == name)
    ensures Unaddressed(Run(world, steps), name)
    ensures Run(world, steps).workers[name].client.group.value.state == world.workers[name].client.group.value.state
    decreases |steps|
  {
    hide Inv, Unaddressed;
    if steps != [] {
      StepKeepsInv(creator, world, steps[0]);
      UnaddressedStep(creator, world, steps[0], name);
      UnaddressedForever(creator, Next(world, steps[0]), steps[1..], name);
    }
  }
}
