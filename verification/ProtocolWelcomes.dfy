/** Whom the Welcomes go to: over every run, exactly the names that an accepted commit adds. */
module ProtocolWelcomes {
  import opened Wrappers
  import opened Mls
  import opened Client
  import opened Membership
  import opened DeliverySpec
  import opened Protocol
  import opened ProtocolInvariant
  import opened ProtocolSteps
  import opened ProtocolTheorems

  /** A staged commit has a Welcome exactly when it adds members, for the names it adds in their order. */
  predicate StagedFor(client: ClientState) {
    client.group.Some? && client.group.value.staged.Some? ==>
      match client.group.value.staged.value.effect
      case Add(names) => client.pendingWelcome.Some? && client.welcomeRecipients == names
      case _ => client.pendingWelcome.None?
  }

  ghost predicate StagedInv(world: World) {
    forall n | n in world.workers :: StagedFor(world.workers[n].client)
  }

  /** The Welcome carries the group state after an accepted commit that adds the recipient. */
  ghost predicate AddedBy(creator: Name, accepted: seq<Commit>, i: int, recipient: Name, welcome: Welcome) {
    && 0 <= i < |accepted| && accepted[i].effect.Add? && recipient in accepted[i].effect.names
    && welcome.group == StateAt(creator, accepted, i + 1)
  }

  ghost predicate Added(creator: Name, accepted: seq<Commit>, recipient: Name, welcome: Welcome) {
    exists i :: AddedBy(creator, accepted, i, recipient, welcome)
  }

  ghost predicate PostedInv(creator: Name, world: World) {
    && (forall p | p in world.posts :: Added(creator, world.accepted, p.recipient, p.welcome))
    && (forall n, w | n in world.welcomes && w in world.welcomes[n] :: Added(creator, world.accepted, n, w))
  }

  /** A worker that posts: the Welcome is of its own accepted commit, and each added name is still listed or answered. */
  ghost predicate PostingOf(creator: Name, world: World, name: Name, worker: Worker) {
    worker.control.Posting? ==>
      && worker.client.group.Some?
      && var epoch, left := worker.client.group.value.state.epoch, worker.control.recipients;
         && 0 < epoch <= |world.accepted|
         && worker.control.welcome.group == StateAt(creator, world.accepted, epoch)
         && world.accepted[epoch - 1].sender == name && world.accepted[epoch - 1].effect.Add?
         && var names := world.accepted[epoch - 1].effect.names;
            && multiset(left) <= multiset(names)
            && forall m | m in names :: m in left || WelcomePost(m, worker.control.welcome) in world.postReplies
  }

  ghost predicate PostingInv(creator: Name, world: World) {
    forall n | n in world.workers :: PostingOf(creator, world, n, world.workers[n])
  }

  ghost predicate WelcomeInv(creator: Name, world: World) {
    StagedInv(world) && PostedInv(creator, world) && PostingInv(creator, world)
  }

  // ---- facts that survive

  lemma AddedGrows(creator: Name, world: World, next: World, recipient: Name, welcome: Welcome)
    requires world.accepted <= next.accepted && Added(creator, world.accepted, recipient, welcome)
    ensures Added(creator, next.accepted, recipient, welcome)
  {
    var i :| AddedBy(creator, world.accepted, i, recipient, welcome);
    StateAtGrows(creator, world, next, i + 1);
    assert AddedBy(creator, next.accepted, i, recipient, welcome);
  }

  lemma PostingGrows(creator: Name, world: World, next: World, name: Name, worker: Worker)
    requires world.accepted <= next.accepted && world.postReplies <= next.postReplies
    requires PostingOf(creator, world, name, worker)
    ensures PostingOf(creator, next, name, worker)
  {
    if worker.control.Posting? {
      StateAtGrows(creator, world, next, worker.client.group.value.state.epoch);
    }
  }

  /** The service side changes, the workers do not, and posts and stored Welcomes come from earlier posts. */
  lemma ServiceSide(creator: Name, world: World, next: World)
    requires WelcomeInv(creator, world) && next.workers == world.workers
    requires world.accepted <= next.accepted && world.postReplies <= next.postReplies
    requires forall p | p in next.posts :: p in world.posts || Added(creator, world.accepted, p.recipient, p.welcome)
    requires forall n, w | n in next.welcomes && w in next.welcomes[n] ::
               (n in world.welcomes && w in world.welcomes[n]) || WelcomePost(n, w) in world.posts
    ensures WelcomeInv(creator, next)
  {
    hide Added, PostingOf, StagedFor;
    forall p | p in next.posts ensures Added(creator, next.accepted, p.recipient, p.welcome) {
      AddedGrows(creator, world, next, p.recipient, p.welcome);
    }
    forall n, w | n in next.welcomes && w in next.welcomes[n] ensures Added(creator, next.accepted, n, w) {
      assert WelcomePost(n, w) in world.posts ==>
               Added(creator, world.accepted, WelcomePost(n, w).recipient, WelcomePost(n, w).welcome);
      AddedGrows(creator, world, next, n, w);
    }
    forall n | n in next.workers ensures PostingOf(creator, next, n, next.workers[n]) {
      PostingGrows(creator, world, next, n, world.workers[n]);
    }
  }

  /** One worker changes, and perhaps its Welcomes get fewer. */
  lemma WorkerSide(creator: Name, world: World, next: World, name: Name)
    requires WelcomeInv(creator, world) && name in next.workers && next.workers == world.workers[name := next.workers[name]]
    requires next.accepted == world.accepted && next.postReplies == world.postReplies && next.posts == world.posts
    requires forall n, w | n in next.welcomes && w in next.welcomes[n] :: n in world.welcomes && w in world.welcomes[n]
    requires StagedFor(next.workers[name].client) && PostingOf(creator, next, name, next.workers[name])
    ensures WelcomeInv(creator, next)
  {
    hide Added, StagedFor, PostingOf;
    forall n | n in next.workers && n != name ensures PostingOf(creator, next, n, next.workers[n]) {
      PostingGrows(creator, world, next, n, world.workers[n]);
    }
  }

  // ---- the steps

  lemma StartStages(client: ClientState, name: Name, intent: Intent, nonce: nat, life: nat)
    requires StartEpochChange(client, name, intent, nonce, life).Ok?
    ensures StagedFor(StartEpochChange(client, name, intent, nonce, life).value.0)
  {
    hide FindMembers, Merge;
  }

  lemma SubmitWelcomes(creator: Name, world: World, name: Name, intent: Intent, retry: bool, tokens: nat)
    requires WelcomeInv(creator, world) && name in world.workers && Start(world, name, intent).Ok?
    ensures WelcomeInv(creator, Submit(world, name, intent, retry).(tokens := tokens))
  {
    hide StartEpochChange, StagedFor, Added, WelcomeInv;
    var worker := world.workers[name];
    StartStages(worker.client, name, intent, world.nonces, worker.life);
    WorkerSide(creator, world, Submit(world, name, intent, retry).(tokens := tokens), name);
  }

  /**
   Applying its own accepted commit, a worker goes on to post the Welcome with the new group state to exactly the names
   the commit adds, each as often as it is listed; after any other commit it posts nothing.
   */
  lemma ApplyPosts(creator: Name, world: World, name: Name, index: nat)
    requires Inv(creator, world) && StagedInv(world) && Enabled(world, Apply(name, index))
    requires ReceiveCommit(world.workers[name].client, name, world.log[index].commit).Ok?
    ensures index < |world.accepted|
    ensures var worker, next := world.workers[name], NextApply(world, name, index).workers[name];
            var commit := world.accepted[index];
            && GroupOf(next.client) == (if name in MembersAt(creator, world.accepted, index + 1)
                                        then Some(StateAt(creator, world.accepted, index + 1)) else None)
            && StagedFor(next.client)
            && (worker.client.pendingCommit == Some(commit) ==> commit.sender == name)
            && next.control ==
               (if name !in MembersAt(creator, world.accepted, index + 1) then Idle
                else if worker.client.pendingCommit != Some(commit) then Putting(true)
                else if !commit.effect.Add? then Putting(false)
                else Posting(Welcome(StateAt(creator, world.accepted, index + 1)), commit.effect.names))
  {
    hide StoredInv, AddressedInv, NetworkInv, MembersAt, Members, Merge;
    var worker := world.workers[name];
    assert WorkerInv(creator, world, name, worker);
    ReceiveMerges(creator, world, name, worker.client, index);
    if worker.client.pendingCommit == Some(world.accepted[index]) {
      OwnIsStaged(creator, world, name, worker.client, index);
    }
  }

  lemma OwnIsStaged(creator: Name, world: World, name: Name, client: ClientState, index: nat)
    requires ServiceInv(world) && ClientInv(creator, world, name, client) && index < |world.accepted|
    requires client.pendingCommit == Some(world.accepted[index])
    ensures client.group.Some? && client.group.value.staged == Some(world.accepted[index])
    ensures world.accepted[index].sender == name
    ensures client.pendingWelcome.Some? ==>
              client.pendingWelcome.value.group == StateAt(creator, world.accepted, index + 1)
  {
    hide Merge;
    FoldStep(creator, world.accepted, index);
  }

  lemma ApplyWelcomes(creator: Name, world: World, name: Name, index: nat)
    requires Inv(creator, world) && WelcomeInv(creator, world) && Enabled(world, Apply(name, index))
    ensures WelcomeInv(creator, NextApply(world, name, index))
  {
    hide Inv, Added, ReceiveCommit, StateAt;
    var next := NextApply(world, name, index);
    if ReceiveCommit(world.workers[name].client, name, world.log[index].commit).Ok? {
      ApplyPosts(creator, world, name, index);
      StateAtEpoch(creator, world.accepted, index + 1);
      WorkerSide(creator, world, next, name);
    }
  }

  lemma StateAtEpoch(creator: Name, accepted: seq<Commit>, epoch: nat)
    requires epoch <= |accepted|
    ensures StateAt(creator, accepted, epoch).epoch == epoch
  {
  }

  lemma SendPostWelcomes(creator: Name, world: World, name: Name, index: nat)
    requires WelcomeInv(creator, world) && Enabled(world, SendPost(name, index))
    ensures WelcomeInv(creator, Next(world, SendPost(name, index)))
  {
    hide StagedInv, StateAt;
    var worker := world.workers[name];
    assert PostingOf(creator, world, name, worker);
    var post, epoch := PostOf(worker.control, index), worker.client.group.value.state.epoch;
    assert post.recipient in multiset(worker.control.recipients);
    assert AddedBy(creator, world.accepted, epoch - 1, post.recipient, post.welcome);
    ServiceSide(creator, world, Next(world, SendPost(name, index)));
  }

  /** An answered post takes one listing of its recipient off the list. */
  lemma PostDoneTakesOne(world: World, name: Name, index: nat)
    requires Enabled(world, PostDone(name, index)) && world.workers[name].control.recipients != []
    ensures var left, next := world.workers[name].control.recipients, Next(world, PostDone(name, index)).workers[name].control;
            && next.Posting? && next.welcome == world.workers[name].control.welcome
            && multiset(left) == multiset(next.recipients) + multiset{left[index]}
            && WelcomePost(left[index], next.welcome) in world.postReplies
  {
    OneFewer(world.workers[name].control.recipients, index);
  }

  lemma PostDonePosting(creator: Name, world: World, name: Name, index: nat)
    requires PostingInv(creator, world) && Enabled(world, PostDone(name, index))
    ensures var next := Next(world, PostDone(name, index)); PostingOf(creator, next, name, next.workers[name])
  {
    hide StateAt, PostingInv;
    var worker := world.workers[name];
    PostingAt(creator, world, name);
    var left := worker.control.recipients;
    if left != [] {
      PostDoneTakesOne(world, name, index);
      OneFewer(left, index);
    }
  }

  lemma PostingAt(creator: Name, world: World, name: Name)
    requires PostingInv(creator, world) && name in world.workers
    ensures PostingOf(creator, world, name, world.workers[name])
  {
  }

  lemma OneFewer(left: seq<Name>, index: nat)
    requires index < |left|
    ensures var rest := left[..index] + left[index + 1..];
            && multiset(left) == multiset(rest) + multiset{left[index]}
            && forall m | m in left :: m in rest || m == left[index]
  {
    assert left == left[..index] + [left[index]] + left[index + 1..];
  }

  lemma PostDoneWelcomes(creator: Name, world: World, name: Name, index: nat)
    requires WelcomeInv(creator, world) && Enabled(world, PostDone(name, index))
    ensures WelcomeInv(creator, Next(world, PostDone(name, index)))
  {
    hide StagedInv, Added, StagedFor, PostingInv, PostingOf, PostedInv;
    PostDonePosting(creator, world, name, index);
    StagedAt(world, name);
    WorkerSide(creator, world, Next(world, PostDone(name, index)), name);
  }

  lemma StagedAt(world: World, name: Name)
    requires StagedInv(world) && name in world.workers
    ensures StagedFor(world.workers[name].client)
  {
  }

  /** Steps that leave a worker without a Welcome to post, its staged commit as it was or gone. */
  predicate PlainKind(step: Step) {
    step.GiveUp? || step.Confirm? || step.Conflict? || step.PostFailed? || step.PutDone? || step.PutFailed? || step.Join?
  }

  lemma PlainWelcomes(creator: Name, world: World, step: Step)
    requires WelcomeInv(creator, world) && Enabled(world, step) && PlainKind(step)
    ensures WelcomeInv(creator, Next(world, step))
  {
    hide Added, StateAt;
    StagedAt(world, step.name);
    WorkerSide(creator, world, Next(world, step), step.name);
  }

  lemma NetworkWelcomes(creator: Name, world: World, step: Step)
    requires WelcomeInv(creator, world) && Enabled(world, step)
    requires step.DsAccept? || step.DsPush? || step.DsReject? || step.DsWelcome? || step.SendPut? || step.DsPut?
             || step.LoseWelcome?
    ensures WelcomeInv(creator, Next(world, step))
  {
    hide WelcomeInv, AcceptCommit, PutState, Added;
    ServiceSide(creator, world, Next(world, step));
  }

  lemma RetryWelcomes(creator: Name, world: World, name: Name)
    requires WelcomeInv(creator, world) && Enabled(world, Retry(name))
    ensures WelcomeInv(creator, NextRetry(world, name))
  {
    hide StartEpochChange, Added, StateAt;
    var worker := world.workers[name];
    if worker.queued.Some? && Start(world, name, worker.queued.value).Ok? {
      SubmitWelcomes(creator, world, name, worker.queued.value, true, world.tokens);
    } else {
      StagedAt(world, name);
      WorkerSide(creator, world, NextRetry(world, name), name);
    }
  }

  lemma StepWelcomes(creator: Name, world: World, step: Step)
    requires Inv(creator, world) && WelcomeInv(creator, world) && Enabled(world, step)
    ensures WelcomeInv(creator, Next(world, step))
  {
    hide Inv, WelcomeInv, Submit, NextAccept, NextPush, NextConflict, NextApply, NextPostDone, NextWelcome, NextPut, NextJoin,
      NextRetry;
    if PlainKind(step) {
      PlainWelcomes(creator, world, step);
    } else {
      match step {
        case Begin(name, request) =>
          SubmitWelcomes(creator, world, name, Intent(world.tokens, request), false, world.tokens + 1);
        case Apply(name, index) => ApplyWelcomes(creator, world, name, index);
        case SendPost(name, index) => SendPostWelcomes(creator, world, name, index);
        case PostDone(name, index) => PostDoneWelcomes(creator, world, name, index);
        case Retry(name) => RetryWelcomes(creator, world, name);
        case _ => NetworkWelcomes(creator, world, step);
      }
    }
  }

  lemma {:induction false} RunWelcomes(creator: Name, world: World, steps: seq<Step>)
    requires Inv(creator, world) && WelcomeInv(creator, world) && Legal(world, steps)
    ensures WelcomeInv(creator, Run(world, steps))
    decreases |steps|
  {
    hide Inv, WelcomeInv, Next, Enabled;
    if steps != [] {
      StepKeepsInv(creator, world, steps[0]);
      StepWelcomes(creator, world, steps[0]);
      RunWelcomes(creator, Next(world, steps[0]), steps[1..]);
    }
  }

  /**
   Over every run: each posted or stored Welcome is for a name that an accepted commit adds, with the state after that
   commit; and a worker that has posted all has had the answer for every name its commit added.
   */
  lemma WelcomesGoToTheAdded(creator: Name, names: set<Name>, steps: seq<Step>)
    requires Legal(Init(creator, names), steps)
    ensures var world := Run(Init(creator, names), steps);
            && (forall p | p in world.posts :: Added(creator, world.accepted, p.recipient, p.welcome))
            && (forall n, w | n in world.welcomes && w in world.welcomes[n] :: Added(creator, world.accepted, n, w))
            && (forall n | n in world.workers :: PostingOf(creator, world, n, world.workers[n]))
  {
    hide Inv, Init, Run, Legal, Added, PostingOf, StagedInv;
    InitInv(creator, names);
    InitWelcomes(creator, names);
    RunWelcomes(creator, Init(creator, names), steps);
  }

  lemma InitWelcomes(creator: Name, names: set<Name>)
    ensures WelcomeInv(creator, Init(creator, names))
  {
  }

  /** Whoever joins from a stored Welcome is a member of the group it joins. */
  lemma JoinerIsMember(creator: Name, names: set<Name>, steps: seq<Step>, name: Name)
    requires Legal(Init(creator, names), steps)
    requires Enabled(Run(Init(creator, names), steps), Join(name, true))
    ensures var client := Next(Run(Init(creator, names), steps), Join(name, true)).workers[name].client;
            client.group.Some? && name in Members(client.group.value.state.leaves)
  {
    hide Inv, Init, Run, Legal, Added, PostingOf, StagedInv, Members;
    var world := Run(Init(creator, names), steps);
    WelcomesGoToTheAdded(creator, names, steps);
    var welcome := world.welcomes[name][0];
    assert Added(creator, world.accepted, name, welcome);
    AddedIsMember(creator, world.accepted, name, welcome);
  }

  lemma AddedIsMember(creator: Name, accepted: seq<Commit>, name: Name, welcome: Welcome)
    requires Added(creator, accepted, name, welcome)
    ensures name in Members(welcome.group.leaves)
  {
    hide Members, AddLeaves;
    var i :| AddedBy(creator, accepted, i, name, welcome);
    FoldStep(creator, accepted, i);
    var before := StateAt(creator, accepted, i).leaves;
    AddLeavesMembers(before, accepted[i].effect.names);
    assert name in multiset(accepted[i].effect.names);
    assert name in multiset(Members(welcome.group.leaves));
  }

  // ---- each stored Welcome is handed out once, in the order of storing

  /** The Welcomes a step stores for the name. */
  function StoredBy(step: Step, name: Name): seq<Welcome> {
    if step.DsWelcome? && step.post.recipient == name then [step.post.welcome] else []
  }

  /** What a step takes out of the name's queue: a joiner takes the oldest, and so does a fetch whose answer gets lost. */
  function TakenBy(world: World, step: Step, name: Name): seq<Welcome>
    requires Enabled(world, step)
  {
    if (step.Join? || step.LoseWelcome?) && step.name == name then [QueueAt(world.welcomes, name)[0]] else []
  }

  function StoredIn(steps: seq<Step>, name: Name): seq<Welcome>
    decreases |steps|
  {
    if steps == [] then [] else StoredBy(steps[0], name) + StoredIn(steps[1..], name)
  }

  function TakenIn(world: World, steps: seq<Step>, name: Name): seq<Welcome>
    requires Legal(world, steps)
    decreases |steps|
  {
    if steps == [] then [] else TakenBy(world, steps[0], name) + TakenIn(Next(world, steps[0]), steps[1..], name)
  }

  lemma QueueStep(world: World, step: Step, name: Name)
    requires Enabled(world, step)
    ensures TakenBy(world, step, name) + QueueAt(Next(world, step).welcomes, name)
         == QueueAt(world.welcomes, name) + StoredBy(step, name)
  {
    hide Enabled, Start, NextAccept, NextPush, NextConflict, NextApply, NextPostDone, NextPut, NextRetry, Submit;
    if step.DsWelcome? || step.Join? || step.LoseWelcome? {
      MailStep(world, step, name);
    } else {
      OtherStep(world, step);
    }
  }

  lemma MailStep(world: World, step: Step, name: Name)
    requires Enabled(world, step) && (step.DsWelcome? || step.Join? || step.LoseWelcome?)
    ensures TakenBy(world, step, name) + QueueAt(Next(world, step).welcomes, name)
         == QueueAt(world.welcomes, name) + StoredBy(step, name)
  {
  }

  lemma OtherStep(world: World, step: Step)
    requires Enabled(world, step) && !(step.DsWelcome? || step.Join? || step.LoseWelcome?)
    ensures Next(world, step).welcomes == world.welcomes
  {
    hide StartEpochChange, ReceiveCommit, PutState, AcceptCommit;
  }

  /** Over any run: what was stored for a name, after what was there before, is what was taken and then what is left. */
  lemma {:induction false} WelcomesAreTakenInOrder(world: World, steps: seq<Step>, name: Name)
    requires Legal(world, steps)
    ensures TakenIn(world, steps, name) + QueueAt(Run(world, steps).welcomes, name)
         == QueueAt(world.welcomes, name) + StoredIn(steps, name)
    decreases |steps|
  {
    hide Next, Enabled, TakenBy, StoredBy;
    if steps != [] {
      var next := Next(world, steps[0]);
      QueueStep(world, steps[0], name);
      WelcomesAreTakenInOrder(next, steps[1..], name);
      var taken, rest := TakenBy(world, steps[0], name), TakenIn(next, steps[1..], name);
      assert (taken + rest) + QueueAt(Run(next, steps[1..]).welcomes, name)
          == taken + (QueueAt(next.welcomes, name) + StoredIn(steps[1..], name));
      assert taken + (QueueAt(next.welcomes, name) + StoredIn(steps[1..], name))
          == (taken + QueueAt(next.welcomes, name)) + StoredIn(steps[1..], name);
    }
  }

  /** A joiner is in exactly the group of the oldest stored Welcome, or in none when it cannot be read. */
  lemma JoinerTakesTheOldest(world: World, name: Name, readable: bool)
    requires Enabled(world, Join(name, readable))
    ensures var next := Next(world, Join(name, readable)).workers[name];
            && GroupOf(next.client) == (if readable then Some(QueueAt(world.welcomes, name)[0].group) else None)
            && next.client.pendingCommit.None? && next.client.pendingWelcome.None? && next.client.welcomeRecipients == []
            && (next.client.group.Some? ==> next.client.group.value.staged.None?)
            && next.life == world.workers[name].life + 1 && next.queued == world.workers[name].queued
  {
  }
}
