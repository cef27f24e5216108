/**
 The commit-sequencing protocol of one group in group-log mode, as a step system. One Delivery Service
 and any number of workers take steps in any order. Requests travel over a network that may delay them,
 and deliver them late or more than once (a timed-out HTTP request is sent again while the first copy may
 still arrive): a request once sent can be processed at any later time, any number of times.
 A publish is split at its two critical sections, so other requests run between the epoch bump and the
 log push. A worker executes one command at a time; its program counter says where it is in that command.
 */
module Protocol {
  import opened Wrappers
  import opened Mls
  import opened Client
  import opened DeliverySpec

  datatype Control =
    | Idle
    | Waiting(commit: Commit, intent: Intent, retry: bool)   // submit sent, no reply yet
    | Posting(welcome: Welcome, recipients: seq<Name>)       // own commit merged, Welcomes left to store
    | Putting(thenRetry: bool)                               // group state still to be put
    | Retrying                                               // about to retry the queued intent

  /** `synced`: the put for the client's current epoch was answered. `life` counts joins and removals. */
  datatype Worker = Worker(client: ClientState, queued: Option<Intent>, control: Control, synced: bool, life: nat)

  datatype PutRequest = PutRequest(sender: Name, epoch: nat, members: seq<Name>)

  datatype WelcomePost = WelcomePost(recipient: Name, welcome: Welcome)

  datatype World = World(
    // the Delivery Service
    group: Option<GroupState>,
    pushing: seq<LogCommit>,              // accepted, not yet pushed to the log
    log: seq<LogCommit>,
    welcomes: map<Name, seq<Welcome>>,
    // the network
    submits: set<Commit>,
    confirmed: set<Commit>,               // replies: accepted
    rejected: set<Commit>,                // replies: conflict
    puts: set<PutRequest>,
    putReplies: set<PutRequest>,          // replies: stored, or stale
    posts: set<WelcomePost>,
    postReplies: set<WelcomePost>,        // replies: stored
    // the workers
    workers: map<Name, Worker>,
    nonces: nat,                          // commits created so far
    tokens: nat,                          // epoch-changing commands issued so far
    // history
    accepted: seq<Commit>,                // the accepted commits, in order of acceptance
    putEpoch: nat,                        // the epoch of the last stored put
    addressed: seq<nat>,                  // for each accepted commit, the epoch of the members it went to
    syncedCommits: set<Commit>)           // commits created by a worker whose put had been answered

  datatype Step =
    | Begin(name: Name, request: Request)
    | GiveUp(name: Name)
    | DsAccept(commit: Commit)
    | DsPush(index: nat)
    | DsReject(commit: Commit)
    | Confirm(name: Name)
    | Conflict(name: Name)
    | Apply(name: Name, index: nat)
    | SendPost(name: Name, index: nat)
    | DsWelcome(post: WelcomePost)
    | PostDone(name: Name, index: nat)
    | PostFailed(name: Name)
    | SendPut(name: Name)
    | DsPut(put: PutRequest)
    | PutDone(name: Name)
    | PutFailed(name: Name)
    | Retry(name: Name)
    | Join(name: Name, readable: bool)
    | LoseWelcome(name: Name)

  function NewWorker(): Worker {
    Worker(Fresh(), None, Idle, false, 0)
  }

  /** One worker has created the group locally and is about to register it; the others are in no group. */
  function Init(creator: Name, names: set<Name>): World {
    var first := NewWorker().(
      client := Fresh().(group := Some(MlsGroup(NewGroup(creator), None))),
      control := Putting(false));
    World(None, [], [], map[], {}, {}, {}, {}, {}, {}, {}, (map n | n in names :: NewWorker())[creator := first],
          0, 0, [], 0, [], {})
  }

  function SetWorker(world: World, name: Name, worker: Worker): World {
    world.(workers := world.workers[name := worker])
  }

  function PutOf(name: Name, group: Group): PutRequest {
    PutRequest(name, group.epoch, Members(group.leaves))
  }

  function PostOf(control: Control, index: nat): WelcomePost
    requires control.Posting? && index < |control.recipients|
  {
    WelcomePost(control.recipients[index], control.welcome)
  }

  /** is_stale_group_state_update_error: the service has moved past the epoch of the put. */
  predicate StalePut(world: World, put: PutRequest) {
    world.group.Some? && put.epoch < world.group.value.epoch
  }

  function Start(world: World, name: Name, intent: Intent): Result<(ClientState, Commit), ClientError>
    requires name in world.workers
  {
    var worker := world.workers[name];
    StartEpochChange(worker.client, name, intent, world.nonces, worker.life)
  }

  /** When a step is possible. A fetched Welcome is popped before the reply arrives, so it can be lost. */
  predicate Enabled(world: World, step: Step) {
    match step
    case Begin(name, request) =>
      && name in world.workers && world.workers[name].control == Idle
      && Start(world, name, Intent(world.tokens, request)).Ok?
    case GiveUp(name) => name in world.workers && world.workers[name].control.Waiting?
    case DsAccept(commit) => commit in world.submits && AcceptCommit(world.group, commit.base).Ok?
    case DsPush(index) => index < |world.pushing|
    case DsReject(commit) => commit in world.submits && AcceptCommit(world.group, commit.base).Err?
    case Confirm(name) =>
      name in world.workers && world.workers[name].control.Waiting?
      && world.workers[name].control.commit in world.confirmed
    case Conflict(name) =>
      name in world.workers && world.workers[name].control.Waiting?
      && world.workers[name].control.commit in world.rejected
    case Apply(name, index) =>
      && name in world.workers && world.workers[name].control == Idle
      && index < |world.log| && name in world.log[index].recipients
    case SendPost(name, index) =>
      && name in world.workers && world.workers[name].control.Posting?
      && index < |world.workers[name].control.recipients|
    case DsWelcome(post) => post in world.posts
    case PostDone(name, index) =>
      && name in world.workers && world.workers[name].control.Posting?
      && (world.workers[name].control.recipients == []
          || (index < |world.workers[name].control.recipients|
              && PostOf(world.workers[name].control, index) in world.postReplies))
    case PostFailed(name) => name in world.workers && world.workers[name].control.Posting?
    case SendPut(name) =>
      name in world.workers && world.workers[name].control.Putting? && world.workers[name].client.group.Some?
    case DsPut(put) => put in world.puts
    case PutDone(name) =>
      && name in world.workers && world.workers[name].control.Putting? && world.workers[name].client.group.Some?
      && PutOf(name, world.workers[name].client.group.value.state) in world.putReplies
    case PutFailed(name) => name in world.workers && world.workers[name].control.Putting?
    case Retry(name) => name in world.workers && world.workers[name].control.Retrying?
    case Join(name, readable) =>
      && name in world.workers && world.workers[name].control == Idle
      && QueueAt(world.welcomes, name) != []
    case LoseWelcome(name) => QueueAt(world.welcomes, name) != []
  }

  /** try_start_intent up to the reply: the commit is stored in the client and the submit is sent. */
  function Submit(world: World, name: Name, intent: Intent, retry: bool): World
    requires name in world.workers && Start(world, name, intent).Ok?
  {
    var worker := world.workers[name];
    var (client, commit) := Start(world, name, intent).value;
    SetWorker(world, name, worker.(client := client, control := Waiting(commit, intent, retry))).(
      submits := world.submits + {commit},
      nonces := world.nonces + 1,
      syncedCommits := if worker.synced then world.syncedCommits + {commit} else world.syncedCommits)
  }

  function NextAccept(world: World, commit: Commit): World
    requires Enabled(world, DsAccept(commit))
  {
    var (state, recipients) := AcceptCommit(world.group, commit.base).value;
    world.(group := Some(state),
           accepted := world.accepted + [commit],
           addressed := world.addressed + [world.putEpoch],
           pushing := world.pushing + [LogCommit(commit.base + 1, commit.sender, recipients, commit)])
  }

  /** The push, after which the service answers the submit. */
  function NextPush(world: World, index: nat): World
    requires Enabled(world, DsPush(index))
  {
    world.(log := world.log + [world.pushing[index]],
           pushing := world.pushing[..index] + world.pushing[index + 1..],
           confirmed := world.confirmed + {world.pushing[index].commit})
  }

  function NextConflict(world: World, name: Name): World
    requires Enabled(world, Conflict(name))
  {
    var worker := world.workers[name];
    var rolledBack := RollbackPendingCommit(worker.client);
    SetWorker(world, name,
      if rolledBack.Ok? then
        worker.(client := rolledBack.value, queued := Some(worker.control.intent), control := Idle)
      else
        worker.(control := Idle))
  }

  /** apply_commit_bytes up to its first request: the commit of a fetched log entry is received. */
  function NextApply(world: World, name: Name, index: nat): World
    requires Enabled(world, Apply(name, index))
  {
    var worker := world.workers[name];
    match ReceiveCommit(worker.client, name, world.log[index].commit)
    case Err(_) => world
    case Ok((client, outcome)) =>
      SetWorker(world, name,
        if outcome.selfRemoved then Worker(client, None, Idle, false, worker.life + 1)
        else
          worker.(
            client := client,
            synced := false,
            control :=
              match outcome
              case OwnCommitAccepted(_, recipients, Some(welcome)) => Posting(welcome, recipients)
              case OwnCommitAccepted(_, _, None) => Putting(false)
              case ExternalCommitApplied(_) => Putting(true)))
  }

  /** The reply to one of the concurrent Welcome posts is read; when none is left the put follows. */
  function NextPostDone(world: World, name: Name, index: nat): World
    requires Enabled(world, PostDone(name, index))
  {
    var worker := world.workers[name];
    var left := worker.control.recipients;
    SetWorker(world, name,
      worker.(control := if left == [] then Putting(false)
                         else Posting(worker.control.welcome, left[..index] + left[index + 1..])))
  }

  function NextWelcome(world: World, post: WelcomePost): World {
    world.(welcomes := world.welcomes[post.recipient := QueueAt(world.welcomes, post.recipient) + [post.welcome]],
           postReplies := world.postReplies + {post})
  }

  function NextPut(world: World, put: PutRequest): World {
    match PutState(world.group, put.epoch, put.members)
    case Ok(state) =>
      world.(group := Some(state), putEpoch := put.epoch, putReplies := world.putReplies + {put})
    case Err(_) =>
      if StalePut(world, put) then world.(putReplies := world.putReplies + {put}) else world
  }

  /** maybe_retry_pending_intent up to the reply. */
  function NextRetry(world: World, name: Name): World
    requires Enabled(world, Retry(name))
  {
    var worker := world.workers[name];
    if worker.queued.Some? && Start(world, name, worker.queued.value).Ok? then
      Submit(world, name, worker.queued.value, true)
    else
      SetWorker(world, name, worker.(control := Idle))
  }

  function NextJoin(world: World, name: Name, readable: bool): World
    requires Enabled(world, Join(name, readable))
  {
    var worker := world.workers[name];
    var queue := QueueAt(world.welcomes, name);
    SetWorker(world, name,
      worker.(client := JoinFromWelcome(if readable then Some(queue[0]) else None),
              synced := false,
              life := worker.life + 1)).(
      welcomes := world.welcomes[name := queue[1..]])
  }

  function Next(world: World, step: Step): World
    requires Enabled(world, step)
  {
    match step
    case Begin(name, request) =>
      Submit(world, name, Intent(world.tokens, request), false).(tokens := world.tokens + 1)
    case GiveUp(name) => SetWorker(world, name, world.workers[name].(control := Idle))
    case DsAccept(commit) => NextAccept(world, commit)
    case DsPush(index) => NextPush(world, index)
    case DsReject(commit) => world.(rejected := world.rejected + {commit})
    case Confirm(name) =>
      var worker := world.workers[name];
      SetWorker(world, name,
        worker.(control := Idle, queued := if worker.control.retry then None else worker.queued))
    case Conflict(name) => NextConflict(world, name)
    case Apply(name, index) => NextApply(world, name, index)
    case SendPost(name, index) => world.(posts := world.posts + {PostOf(world.workers[name].control, index)})
    case DsWelcome(post) => NextWelcome(world, post)
    case PostDone(name, index) => NextPostDone(world, name, index)
    case PostFailed(name) => SetWorker(world, name, world.workers[name].(control := Idle))
    case SendPut(name) => world.(puts := world.puts + {PutOf(name, world.workers[name].client.group.value.state)})
    case DsPut(put) => NextPut(world, put)
    case PutDone(name) =>
      var worker := world.workers[name];
      SetWorker(world, name,
        worker.(synced := true, control := if worker.control.thenRetry then Retrying else Idle))
    case PutFailed(name) => SetWorker(world, name, world.workers[name].(control := Idle))
    case Retry(name) => NextRetry(world, name)
    case Join(name, readable) => NextJoin(world, name, readable)
    case LoseWelcome(name) => world.(welcomes := world.welcomes[name := QueueAt(world.welcomes, name)[1..]])
  }

  /** A run: every step enabled where it is taken. */
  predicate Legal(world: World, steps: seq<Step>)
    decreases |steps|
  {
    steps == [] || (Enabled(world, steps[0]) && Legal(Next(world, steps[0]), steps[1..]))
  }

  function Run(world: World, steps: seq<Step>): World
    requires Legal(world, steps)
    decreases |steps|
  {
    if steps == [] then world else Run(Next(world, steps[0]), steps[1..])
  }
}
