/** How often an intent is accepted: over every run, exactly when it is accepted twice. */
module ProtocolIntents {
  import opened Wrappers
  import opened Mls
  import opened Client
  import opened DeliverySpec
  import opened Protocol
  import opened ProtocolInvariant
  import opened ProtocolSteps
  import opened ProtocolTheorems

  predicate SameIntent(a: Commit, b: Commit) {
    a.sender == b.sender && a.intent == b.intent
  }

  /** No two accepted commits serve the same intent. */
  ghost predicate OnceInv(world: World) {
    forall i, j | 0 <= i < j < |world.accepted| :: !SameIntent(world.accepted[i], world.accepted[j])
  }

  predicate WillSubmit(world: World, name: Name)
    requires name in world.workers
  {
    var queued := world.workers[name].queued;
    queued.Some? && Start(world, name, queued.value).Ok?
  }

  predicate IntentAccepted(world: World, name: Name, token: nat) {
    exists i :: 0 <= i < |world.accepted| && world.accepted[i].sender == name && world.accepted[i].intent == token
  }

  /** The commit a step submits again for an intent that has already been accepted. */
  function ResubmitOf(world: World, step: Step): set<Commit>
    requires Enabled(world, step)
  {
    if step.Retry? && WillSubmit(world, step.name)
       && IntentAccepted(world, step.name, world.workers[step.name].queued.value.token) then
      {Start(world, step.name, world.workers[step.name].queued.value).value.1}
    else {}
  }

  function Resubmitted(world: World, steps: seq<Step>): set<Commit>
    requires Legal(world, steps)
    decreases |steps|
  {
    if steps == [] then {} else ResubmitOf(world, steps[0]) + Resubmitted(Next(world, steps[0]), steps[1..])
  }

  // ---- what every run keeps

  /** Tokens in use have been issued, and each submitted commit has a nonce of its own. */
  ghost predicate BoundedInv(world: World) {
    && (forall c | c in world.submits :: c.intent < world.tokens)
    && (forall a, b | a in world.submits && b in world.submits && a.nonce == b.nonce :: a == b)
    && (forall n | n in world.workers && world.workers[n].queued.Some? :: world.workers[n].queued.value.token < world.tokens)
    && (forall n | n in world.workers && world.workers[n].control.Waiting? ::
          world.workers[n].control.intent.token < world.tokens)
  }

  /** Accepted, or still able to be accepted. */
  predicate Alive(world: World, c: Commit) {
    c in world.accepted || c.base == |world.accepted|
  }

  /** A commit of an intent that was not accepted when it was submitted rules out the earlier ones, or they it. */
  ghost predicate RivalInv(world: World, again: set<Commit>) {
    forall a, b | a in world.submits && b in world.submits && SameIntent(a, b) && a.nonce < b.nonce && b !in again
                  && Alive(world, a) && Alive(world, b) ::
      a !in world.accepted && b !in world.accepted && a.base == b.base
  }

  /** A commit submitted again has an accepted predecessor. */
  ghost predicate AgainInv(world: World, again: set<Commit>) {
    forall b | b in again :: exists a :: a in world.accepted && a != b && SameIntent(a, b)
  }

  ghost predicate HistoryInv(world: World, again: set<Commit>) {
    BoundedInv(world) && RivalInv(world, again) && AgainInv(world, again)
  }

  lemma InitHistory(creator: Name, names: set<Name>)
    ensures HistoryInv(Init(creator, names), {})
  {
  }

  // ---- steps that send, answer or read no submit

  predicate QuietKind(world: World, step: Step) {
    match step
    case Begin(_, _) => false
    case GiveUp(_) => false
    case DsAccept(_) => false
    case DsReject(_) => false
    case Confirm(_) => false
    case Conflict(_) => false
    case Retry(name) => name in world.workers && !WillSubmit(world, name)
    case _ => true
  }

  ghost predicate Quiet(world: World, next: World) {
    && next.submits == world.submits && next.accepted == world.accepted && next.rejected == world.rejected
    && next.tokens == world.tokens && next.workers.Keys == world.workers.Keys
    && forall n | n in world.workers ::
         && (world.workers[n].control.Waiting? ==> next.workers[n] == world.workers[n])
         && (!world.workers[n].control.Waiting? ==> !next.workers[n].control.Waiting?)
         && (next.workers[n].queued == world.workers[n].queued || next.workers[n].queued.None?)
  }

  lemma QuietSteps(world: World, step: Step)
    requires Enabled(world, step) && QuietKind(world, step)
    ensures Quiet(world, Next(world, step))
  {
    hide StartEpochChange, ReceiveCommit, PutState, AcceptCommit, MembersAt;
    if step.Apply? {
      QuietApply(world, step.name, step.index);
    }
  }

  lemma QuietApply(world: World, name: Name, index: nat)
    requires Enabled(world, Apply(name, index))
    ensures Quiet(world, NextApply(world, name, index))
  {
    hide ReceiveCommit;
  }

  lemma QuietHistory(world: World, next: World, again: set<Commit>)
    requires HistoryInv(world, again) && Quiet(world, next)
    ensures HistoryInv(next, again)
  {
  }

  // ---- a commit is submitted

  /** What submitting adds: one new commit, awaited by its sender. */
  ghost predicate Submitted(world: World, next: World, name: Name, intent: Intent, retry: bool, commit: Commit) {
    && name in world.workers && !world.workers[name].control.Waiting?
    && commit !in world.submits && commit.sender == name && commit.intent == intent.token
    && commit.base <= |world.accepted| && (forall c | c in world.submits :: c.nonce < commit.nonce)
    && next.submits == world.submits + {commit} && next.accepted == world.accepted && next.rejected == world.rejected
    && world.tokens <= next.tokens && intent.token < next.tokens
    && name in next.workers && next.workers == world.workers[name := next.workers[name]]
    && next.workers[name].control == Waiting(commit, intent, retry)
    && next.workers[name].queued == world.workers[name].queued
    && (if retry then next.workers[name].queued == Some(intent) else intent.token == world.tokens)
  }

  lemma SubmitSteps(creator: Name, world: World, step: Step) returns (intent: Intent, retry: bool, commit: Commit)
    requires Inv(creator, world) && BoundedInv(world) && Enabled(world, step)
    requires step.Begin? || (step.Retry? && WillSubmit(world, step.name))
    ensures Submitted(world, Next(world, step), step.name, intent, retry, commit)
    ensures retry == step.Retry? && (retry ==> world.workers[step.name].queued == Some(intent))
    ensures commit == Start(world, step.name, intent).value.1
  {
    hide ServiceInv, NetworkInv, StoredInv, AddressedInv, WorkersInv, StartEpochChange;
    retry := step.Retry?;
    intent := if retry then world.workers[step.name].queued.value else Intent(world.tokens, step.request);
    commit := NewCommit(creator, world, step.name, intent);
  }

  lemma NewCommit(creator: Name, world: World, name: Name, intent: Intent) returns (commit: Commit)
    requires ServiceInv(world) && NetworkInv(creator, world) && WorkersInv(creator, world)
    requires name in world.workers && Start(world, name, intent).Ok?
    ensures commit == Start(world, name, intent).value.1 && commit !in world.submits
    ensures commit.sender == name && commit.intent == intent.token && commit.base <= |world.accepted|
    ensures forall c | c in world.submits :: c.nonce < commit.nonce
  {
    hide ControlInv, PendingInv, EffectOf, Merge, MembersAt, SyncedAt;
    commit := Start(world, name, intent).value.1;
    assert WorkerInv(creator, world, name, world.workers[name]);
  }

  lemma SubmittedHistory(world: World, next: World, name: Name, intent: Intent, retry: bool, commit: Commit,
                         again: set<Commit>)
    requires ServiceInv(world) && (forall c | c in world.submits :: c.base <= |world.accepted|)
    requires HistoryInv(world, again) && Submitted(world, next, name, intent, retry, commit)
    ensures HistoryInv(next, again + if IntentAccepted(world, name, intent.token) then {commit} else {})
  {
    hide AgainInv;
    SubmittedRivals(world, next, name, intent, retry, commit, again);
    SubmittedAgain(world, next, name, intent, commit, again);
  }

  lemma SubmittedAgain(world: World, next: World, name: Name, intent: Intent, commit: Commit, again: set<Commit>)
    requires ServiceInv(world) && AgainInv(world, again) && next.accepted == world.accepted
    requires commit !in world.submits && commit.sender == name && commit.intent == intent.token
    ensures AgainInv(next, again + if IntentAccepted(world, name, intent.token) then {commit} else {})
  {
    if IntentAccepted(world, name, intent.token) {
      var i :| 0 <= i < |world.accepted| && world.accepted[i].sender == name && world.accepted[i].intent == intent.token;
      assert world.accepted[i] in world.accepted && world.accepted[i] != commit && SameIntent(world.accepted[i], commit);
    }
  }

  lemma SubmittedRivals(world: World, next: World, name: Name, intent: Intent, retry: bool, commit: Commit,
                        again: set<Commit>)
    requires ServiceInv(world) && (forall c | c in world.submits :: c.base <= |world.accepted|)
    requires BoundedInv(world) && RivalInv(world, again) && Submitted(world, next, name, intent, retry, commit)
    ensures RivalInv(next, again + if IntentAccepted(world, name, intent.token) then {commit} else {})
  {
    assert forall c | c in world.accepted :: c in world.submits;
    assert forall c | c in world.accepted && c.sender == name && c.intent == intent.token ::
             IntentAccepted(world, name, intent.token);
  }

  // ---- a submit is accepted

  lemma AcceptHistory(creator: Name, world: World, commit: Commit, again: set<Commit>)
    requires ServiceInv(world) && NetworkInv(creator, world) && HistoryInv(world, again)
    requires Enabled(world, DsAccept(commit))
    ensures HistoryInv(NextAccept(world, commit), again)
  {
    hide MembersAt, Genuine;
    var next := NextAccept(world, commit);
    AcceptService(creator, world, commit);
    assert forall c | c in next.submits && Alive(next, c) :: Alive(world, c) && (c == commit || c in world.accepted);
  }

  // ---- all steps

  /** Giving up, a rejection and reading a reply change neither submits nor acceptances. */
  lemma ReplyHistory(world: World, step: Step, again: set<Commit>)
    requires HistoryInv(world, again) && Enabled(world, step)
    requires step.GiveUp? || step.DsReject? || step.Confirm? || step.Conflict?
    ensures HistoryInv(Next(world, step), again)
  {
  }

  lemma StepHistory(creator: Name, world: World, step: Step, again: set<Commit>)
    requires Inv(creator, world) && HistoryInv(world, again) && Enabled(world, step)
    ensures HistoryInv(Next(world, step), again + ResubmitOf(world, step))
  {
    hide StoredInv, AddressedInv, WorkersInv, RivalInv, AgainInv, StartEpochChange, IntentAccepted, MembersAt, Genuine;
    assert again + {} == again;
    if QuietKind(world, step) {
      QuietSteps(world, step);
      QuietHistory(world, Next(world, step), again);
    } else if step.Begin? || step.Retry? {
      var intent, retry, commit := SubmitSteps(creator, world, step);
      SubmittedHistory(world, Next(world, step), step.name, intent, retry, commit, again);
      if step.Begin? {
        NewIntentNotAccepted(world, step.name);
      }
    } else if step.DsAccept? {
      AcceptHistory(creator, world, step.commit, again);
    } else {
      ReplyHistory(world, step, again);
    }
  }

  lemma NewIntentNotAccepted(world: World, name: Name)
    requires ServiceInv(world) && BoundedInv(world)
    ensures !IntentAccepted(world, name, world.tokens)
  {
  }

  lemma {:induction false} RunHistory(creator: Name, world: World, steps: seq<Step>, again: set<Commit>)
    requires Inv(creator, world) && HistoryInv(world, again) && Legal(world, steps)
    ensures HistoryInv(Run(world, steps), again + Resubmitted(world, steps))
    decreases |steps|
  {
    hide Inv, HistoryInv, Next, Enabled, ResubmitOf;
    if steps == [] {
      assert again + Resubmitted(world, steps) == again;
    } else {
      StepKeepsInv(creator, world, steps[0]);
      StepHistory(creator, world, steps[0], again);
      RunHistory(creator, Next(world, steps[0]), steps[1..], again + ResubmitOf(world, steps[0]));
      assert again + ResubmitOf(world, steps[0]) + Resubmitted(Next(world, steps[0]), steps[1..])
          == again + Resubmitted(world, steps);
    }
  }

  lemma OnceIffNotAgain(world: World, again: set<Commit>)
    requires ServiceInv(world) && HistoryInv(world, again)
    ensures OnceInv(world) <==> forall c | c in again :: c !in world.accepted
  {
    if c :| c in again && c in world.accepted {
      AgainMeansTwice(world, again, c);
    } else {
      forall i, j | 0 <= i < j < |world.accepted| ensures !SameIntent(world.accepted[i], world.accepted[j]) {
        RivalsNotBothAccepted(world, again, i, j);
      }
    }
  }

  lemma AgainMeansTwice(world: World, again: set<Commit>, c: Commit)
    requires AgainInv(world, again) && c in again && c in world.accepted
    ensures !OnceInv(world)
  {
    var a :| a in world.accepted && a != c && SameIntent(a, c);
    var i :| 0 <= i < |world.accepted| && world.accepted[i] == a;
    var j :| 0 <= j < |world.accepted| && world.accepted[j] == c;
    assert SameIntent(world.accepted[i], world.accepted[j]) && SameIntent(world.accepted[j], world.accepted[i]);
  }

  lemma RivalsNotBothAccepted(world: World, again: set<Commit>, i: nat, j: nat)
    requires ServiceInv(world) && BoundedInv(world) && RivalInv(world, again) && i < j < |world.accepted|
    requires world.accepted[i] !in again && world.accepted[j] !in again
    ensures !SameIntent(world.accepted[i], world.accepted[j])
  {
    var a, b := world.accepted[i], world.accepted[j];
    assert a in world.submits && b in world.submits && a.base == i && b.base == j;
    assert a in world.accepted && b in world.accepted;
    assert a.nonce < b.nonce || b.nonce < a.nonce;
  }

  /**
   Over every run, whatever the network does: no intent is accepted twice if and only if no commit is accepted
   that was submitted for an intent accepted before.
   */
  lemma IntentAcceptedOnceIff(creator: Name, names: set<Name>, steps: seq<Step>)
    requires Legal(Init(creator, names), steps)
    ensures var world := Run(Init(creator, names), steps);
            OnceInv(world) <==> forall c | c in Resubmitted(Init(creator, names), steps) :: c !in world.accepted
  {
    hide OnceInv, HistoryInv, Init, Run, Legal, Resubmitted, NetworkInv, StoredInv, AddressedInv, WorkersInv;
    var init := Init(creator, names);
    InitInv(creator, names);
    InitHistory(creator, names);
    RunInv(creator, names, steps);
    RunHistory(creator, init, steps, {});
    assert {} + Resubmitted(init, steps) == Resubmitted(init, steps);
    OnceIffNotAgain(Run(init, steps), Resubmitted(init, steps));
  }
}
