/**
 What the worker's calls do, as functions: one commit with the requests that follow it, the retry of a queued intent,
 a batch of commits. The outside world is a parameter: `view(t)` is the group's log when the worker makes its request
 number `t`, and `net(t)` is what happens to that request.
 */
module WorkerSpec {
  import opened Wrappers
  import opened Mls
  import opened Client
  import opened DeliverySpec
  import opened PendingBatch

  /** Processed and answered; answered with a conflict; never processed; processed but the answer lost. */
  datatype Reply = Done | Clash | Lost | Unheard

  datatype SubmitResult = Published | Conflicted | SubmitFailed

  /** Entry `i` of the log leads from epoch `i` to epoch `i + 1`. */
  ghost predicate Consecutive(log: seq<LogCommit>) {
    forall i | 0 <= i < |log| :: log[i].epoch == i + 1 && log[i].commit.base == i
  }

  /** The log only grows, in consecutive epochs. */
  ghost predicate Timeline(view: nat -> seq<LogCommit>) {
    && (forall t :: Consecutive(view(t)))
    && (forall s, t | s <= t :: view(s) <= view(t))
  }

  /** The group state after merging `n` consecutive log entries, starting at the group's own epoch. */
  function Advance(group: Group, log: seq<LogCommit>, n: nat): Group
    requires n > 0 ==> group.epoch + n <= |log|
    decreases n
  {
    if n == 0 then group else Merge(Advance(group, log, n - 1), log[group.epoch + n - 1].commit)
  }

  function CommitsOf(entries: seq<LogCommit>): seq<Commit> {
    seq(|entries|, i requires 0 <= i < |entries| => entries[i].commit)
  }

  /** Advancing appends exactly the next `n` log entries to the transcript, once each and in order. */
  lemma {:induction false} AdvanceAppends(group: Group, log: seq<LogCommit>, n: nat)
    requires group.epoch + n <= |log|
    ensures Advance(group, log, n).epoch == group.epoch + n
    ensures Advance(group, log, n).transcript == group.transcript + CommitsOf(log[group.epoch..group.epoch + n])
    decreases n
  {
    if n > 0 {
      AdvanceAppends(group, log, n - 1);
      var e := group.epoch;
      assert CommitsOf(log[e..e + n]) == CommitsOf(log[e..e + n - 1]) + [log[e + n - 1].commit];
    }
  }

  lemma {:induction false} AdvanceInLongerLog(group: Group, log: seq<LogCommit>, longer: seq<LogCommit>, n: nat)
    requires (n > 0 ==> group.epoch + n <= |log|) && log <= longer
    ensures Advance(group, log, n) == Advance(group, longer, n)
    decreases n
  {
    if n > 0 {
      AdvanceInLongerLog(group, log, longer, n - 1);
    }
  }

  predicate PutAnswered(reply: Reply) {
    reply.Done? || reply.Clash?
  }

  /** The retry of a queued intent ends in an error: the intent cannot start, or its submit is not answered. */
  predicate RetryFails(client: ClientState, name: Name, queued: Option<Intent>, net: nat -> Reply, now: nat) {
    queued.Some? && (StartEpochChange(client, name, queued.value, now, 0).Err? || net(now).Lost? || net(now).Unheard?)
  }

  /** The commit is merged, and then one of the requests of the same call fails. */
  predicate FailsAfterMerge(client: ClientState, name: Name, queued: Option<Intent>, commit: Commit, net: nat -> Reply,
                            now: nat)
  {
    match ReceiveCommit(client, name, commit)
    case Err(_) => false
    case Ok((after, outcome)) =>
      && !outcome.selfRemoved
      && match outcome
         case ExternalCommitApplied(_) => !PutAnswered(net(now)) || RetryFails(after, name, queued, net, now + 1)
         case OwnCommitAccepted(_, recipients, welcome) =>
           var posts := if welcome.Some? then |recipients| else 0;
           (exists t: nat :: now <= t < now + posts && !net(t).Done?) || !PutAnswered(net(now + posts))
  }

  /** What a call leaves behind. */
  datatype After = After(ok: bool, client: ClientState, queued: Option<Intent>, later: nat)

  /** The retry of a queued intent. */
  function RetryOf(client: ClientState, name: Name, queued: Option<Intent>, net: nat -> Reply, now: nat): After {
    if queued.None? then After(true, client, None, now)
    else
      match StartEpochChange(client, name, queued.value, now, 0)
      case Err(_) => After(false, client, queued, now)
      case Ok((started, _)) =>
        match net(now)
        case Done => After(true, started, None, now + 1)
        case Clash =>
          var rolledBack := RollbackPendingCommit(started);
          After(true, if rolledBack.Ok? then rolledBack.value else started, queued, now + 1)
        case _ => After(false, started, queued, now + 1)
  }

  /** The application of one commit with the requests that follow it. */
  function ApplyOf(client: ClientState, name: Name, queued: Option<Intent>, commit: Commit, net: nat -> Reply, now: nat):
    After
  {
    match ReceiveCommit(client, name, commit)
    case Err(_) => After(false, client, queued, now)
    case Ok((after, outcome)) =>
      if outcome.selfRemoved then After(true, after, None, now)
      else
        match outcome
        case ExternalCommitApplied(_) =>
          if PutAnswered(net(now)) then RetryOf(after, name, queued, net, now + 1)
          else After(false, after, queued, now + 1)
        case OwnCommitAccepted(_, recipients, welcome) =>
          var posts := if welcome.Some? then |recipients| else 0;
          if exists t: nat :: now <= t < now + posts && !net(t).Done? then After(false, after, queued, now + posts)
          else After(PutAnswered(net(now + posts)), after, queued, now + posts + 1)
  }

  /** The client after receiving the commits one after the other, if each can be received. */
  function ReceiveAll(client: ClientState, name: Name, commits: seq<Commit>): Option<ClientState>
    decreases |commits|
  {
    if commits == [] then Some(client)
    else
      match ReceiveCommit(client, name, commits[0])
      case Err(_) => None
      case Ok((after, _)) => ReceiveAll(after, name, commits[1..])
  }

  /** What applying a batch leaves behind: `count` commits are applied before the first call that fails. */
  datatype BatchAfter = BatchAfter(failed: bool, count: nat, client: ClientState, queued: Option<Intent>, later: nat)

  function BatchOf(client: ClientState, name: Name, queued: Option<Intent>, commits: seq<Commit>, net: nat -> Reply,
                   now: nat): BatchAfter
    decreases |commits|
  {
    if commits == [] then BatchAfter(false, 0, client, queued, now)
    else
      var next := ApplyOf(client, name, queued, commits[0], net, now);
      if !next.ok then BatchAfter(true, 0, next.client, next.queued, next.later)
      else
        var rest := BatchOf(next.client, name, next.queued, commits[1..], net, next.later);
        rest.(count := rest.count + 1)
  }

  /** Applied one after the other, the commits reach one that is merged and whose call then fails. */
  predicate LateFailure(client: ClientState, name: Name, queued: Option<Intent>, commits: seq<Commit>, net: nat -> Reply,
                        now: nat)
    decreases |commits|
  {
    && commits != []
    && (FailsAfterMerge(client, name, queued, commits[0], net, now)
        || (var next := ApplyOf(client, name, queued, commits[0], net, now);
            next.ok && LateFailure(next.client, name, next.queued, commits[1..], net, next.later)))
  }

  /** A call fails after its merge exactly when the commit is received and the call is not a success. */
  lemma FailsAfterMergeIff(client: ClientState, name: Name, queued: Option<Intent>, commit: Commit, net: nat -> Reply,
                           now: nat)
    ensures FailsAfterMerge(client, name, queued, commit, net, now) <==>
            ReceiveCommit(client, name, commit).Ok? && !ApplyOf(client, name, queued, commit, net, now).ok
    ensures queued.None? ==> ApplyOf(client, name, queued, commit, net, now).queued.None?
  {
  }

  /** A late failure from commit k on is one of that commit, or one of the rest when it succeeds. */
  lemma LateStep(client: ClientState, name: Name, queued: Option<Intent>, commits: seq<Commit>, k: nat, net: nat -> Reply,
                 now: nat)
    requires k < |commits|
    ensures var next := ApplyOf(client, name, queued, commits[k], net, now);
            LateFailure(client, name, queued, commits[k..], net, now) <==>
            if next.ok then LateFailure(next.client, name, next.queued, commits[k + 1..], net, next.later)
            else FailsAfterMerge(client, name, queued, commits[k], net, now)
  {
    hide ApplyOf, FailsAfterMerge;
    FailsAfterMergeIff(client, name, queued, commits[k], net, now);
    assert commits[k..][1..] == commits[k + 1..];
  }

  lemma NothingIsLate(client: ClientState, name: Name, queued: Option<Intent>, net: nat -> Reply, now: nat)
    ensures !LateFailure(client, name, queued, [], net, now)
  {
  }

  /** With every request answered and nothing queued, no call fails after its merge. */
  lemma {:induction false} NoLateFailure(client: ClientState, name: Name, commits: seq<Commit>, net: nat -> Reply, now: nat)
    requires forall t :: net(t).Done?
    ensures !LateFailure(client, name, None, commits, net, now)
    decreases |commits|
  {
    hide ReceiveCommit, StartEpochChange;
    if commits != [] {
      var next := ApplyOf(client, name, None, commits[0], net, now);
      FailsAfterMergeIff(client, name, None, commits[0], net, now);
      NoLateFailure(next.client, name, commits[1..], net, next.later);
    }
  }

  /** A queued removal fails when the commit that won the race removes the same member, however reliable the network. */
  lemma SameRemovalFailsAfterMerge(net: nat -> Reply, now: nat)
    requires forall t :: net(t).Done?
    ensures var group := Group(4, [Some("a"), Some("b"), Some("c")], []);
            var client := ClientState(Some(MlsGroup(group, None)), None, None, []);
            var winner := Commit(7, 4, "b", Remove({2}), 0, 0);
            && FailsAfterMerge(client, "a", Some(Intent(1, RemoveMembers(["c"]))), winner, net, now)
            && LateFailure(client, "a", Some(Intent(1, RemoveMembers(["c"]))), [winner], net, now)
            && ReceiveCommit(client, "a", winner).Ok?
            && GroupOf(ReceiveCommit(client, "a", winner).value.0) == Some(Merge(group, winner))
  {
    var group := Group(4, [Some("a"), Some("b"), Some("c")], []);
    var client := ClientState(Some(MlsGroup(group, None)), None, None, []);
    var winner := Commit(7, 4, "b", Remove({2}), 0, 0);
    var merged := Merge(group, winner);
    assert merged.leaves == [Some("a"), Some("b"), None];
    assert Members(merged.leaves)[0] == "a";
    var (after, outcome) := ReceiveCommit(client, "a", winner).value;
    assert FindMember(merged.leaves, "c").None?;
    assert FindMembers(merged.leaves, ["c"]).None?;
    assert StartEpochChange(after, "a", Intent(1, RemoveMembers(["c"])), now + 1, 0).Err?;
  }

  /** The commits a worker takes from the log in one go. */
  function Batch(log: seq<LogCommit>, name: Name, after: nat, budget: nat): seq<Commit> {
    var eligible := EligibleOf(log, name, after);
    CommitsOf(if budget < |eligible| then eligible[..budget] else eligible)
  }

  lemma BatchIs(log: seq<LogCommit>, name: Name, after: nat, budget: nat)
    ensures var eligible, batch := EligibleOf(log, name, after), Batch(log, name, after, budget);
            && |batch| == (if budget < |eligible| then budget else |eligible|)
            && forall k | 0 <= k < |batch| :: batch[k] == eligible[k].commit
  {
  }

  lemma LoggedAt(log: seq<LogCommit>, name: Name, after: nat, k: nat) returns (index: nat)
    requires k < |EligibleOf(log, name, after)|
    ensures index < |log| && log[index] == EligibleOf(log, name, after)[k]
  {
    EligibleAreLogged(log, name, after, EligibleOf(log, name, after)[k]);
    index :| 0 <= index < |log| && log[index] == EligibleOf(log, name, after)[k];
  }

  datatype PendingKind = Commits | Welcomes | ApplicationMessages

  /** The answer to fetching a Welcome; a letter that cannot be processed carries nothing. */
  datatype Mail = Empty | Unreachable | Letter(welcome: Option<Welcome>)

  datatype MessageOutcome = Received | NoMessage | Broken

  /** The commits could not be fetched, which ends the whole call. */
  predicate Unfetched(kinds: set<PendingKind>, budget: nat, net: nat -> Reply, now: nat) {
    budget > 0 && Commits in kinds && !net(now).Done?
  }

  /** The commits that are fetched and applied, if they are asked for. */
  function PhaseOf(client: ClientState, name: Name, queued: Option<Intent>, kinds: set<PendingKind>, budget: nat,
                   view: nat -> seq<LogCommit>, net: nat -> Reply, now: nat): BatchAfter
  {
    if budget == 0 || Commits !in kinds then BatchAfter(false, 0, client, queued, now)
    else if !net(now).Done? then BatchAfter(true, 0, client, queued, now)
    else
      var epoch := if client.group.Some? then client.group.value.state.epoch else 0;
      BatchOf(client, name, queued, Batch(view(now + 1), name, epoch, budget), net, now + 1)
  }

  lemma PhaseFails(client: ClientState, name: Name, queued: Option<Intent>, kinds: set<PendingKind>, budget: nat,
                   view: nat -> seq<LogCommit>, net: nat -> Reply, now: nat)
    ensures Unfetched(kinds, budget, net, now) ==>
              PhaseOf(client, name, queued, kinds, budget, view, net, now) == BatchAfter(true, 0, client, queued, now)
  {
  }

  /**
   Asked for commits with nothing queued and every request answered, a client to which all entries beyond its epoch are
   addressed gets to the end of the log, or as far as its budget goes, exactly when it can receive them in turn.
   */
  lemma PhaseCatchesUp(client: ClientState, name: Name, kinds: set<PendingKind>, budget: nat, view: nat -> seq<LogCommit>,
                       net: nat -> Reply, now: nat)
    requires Timeline(view) && (forall t :: net(t).Done?) && Commits in kinds && client.group.Some?
    requires client.group.value.state.epoch <= |view(now + 1)|
    requires AddressedFrom(view(now + 1), name, client.group.value.state.epoch)
    ensures var log, epoch := view(now + 1), client.group.value.state.epoch;
            var end := if epoch + budget < |log| then epoch + budget else |log|;
            var received := ReceiveAll(client, name, CommitsOf(log[epoch..end]));
            var phase := PhaseOf(client, name, None, kinds, budget, view, net, now);
            && (phase.failed <==> received.None?)
            && (!phase.failed ==> phase.count == end - epoch && Some(phase.client) == received)
  {
    hide Batch, BatchOf;
    var log, epoch := view(now + 1), client.group.value.state.epoch;
    BatchIsTheRest(log, name, epoch, budget);
    BatchReceivesAll(client, name, Batch(log, name, epoch, budget), net, now + 1);
    assert budget == 0 ==> CommitsOf(log[epoch..epoch]) == [];
  }

  /** A Welcome is asked for when the commits leave some of the budget. */
  predicate AsksMail(kinds: set<PendingKind>, budget: nat, net: nat -> Reply, now: nat, commits: nat) {
    !Unfetched(kinds, budget, net, now) && commits < budget && Welcomes in kinds
  }

  predicate MailFails(mail: Mail) {
    mail.Unreachable? || mail == Letter(None)
  }

  /** An application message is asked for unless the budget is used up or an unreadable Welcome ended the call. */
  predicate AsksMessage(kinds: set<PendingKind>, budget: nat, mail: nat -> Mail, net: nat -> Reply, now: nat, commits: nat,
                        welcomes: nat, mailTime: nat)
  {
    && !Unfetched(kinds, budget, net, now) && commits + welcomes < budget && ApplicationMessages in kinds
    && !(AsksMail(kinds, budget, net, now, commits) && mail(mailTime) == Letter(None))
  }

  function MessageTime(kinds: set<PendingKind>, budget: nat, net: nat -> Reply, now: nat, commits: nat, mailTime: nat): nat {
    if AsksMail(kinds, budget, net, now, commits) then mailTime + 1 else mailTime
  }

  lemma JoinIsCoherent(welcome: Option<Welcome>)
    ensures Coherent(JoinFromWelcome(welcome))
  {
  }

  lemma BatchAscends(log: seq<LogCommit>, name: Name, after: nat)
    requires Consecutive(log)
    ensures var batch := EligibleOf(log, name, after);
            && (forall i, j | 0 <= i < j < |batch| :: batch[i].epoch < batch[j].epoch)
            && (forall i | 0 <= i < |batch| :: batch[i].epoch > after)
  {
    EligibleAscends(log, name, after);
    var batch := EligibleOf(log, name, after);
    forall i | 0 <= i < |batch| ensures batch[i].epoch > after {
      EligibleAreLogged(log, name, after, batch[i]);
    }
  }

  lemma {:induction false} AdvanceEpoch(group: Group, log: seq<LogCommit>, n: nat)
    requires n > 0 ==> group.epoch + n <= |log|
    ensures Advance(group, log, n).epoch == group.epoch + n
    decreases n
  {
    if n > 0 {
      AdvanceEpoch(group, log, n - 1);
    }
  }

  /** `applied` consecutive log entries were merged, from the epoch the client started at; or the last removed it. */
  ghost predicate Progress(client: ClientState, name: Name, start: Option<Group>, log: seq<LogCommit>, applied: nat) {
    && Coherent(client)
    && match start
       case None => applied == 0 && client.group.None?
       case Some(group) =>
         && (applied > 0 ==> group.epoch + applied <= |log|)
         && (client.group.Some? ==> client.group.value.state == Advance(group, log, applied))
         && (client.group.None? ==> applied > 0 && name !in Members(Advance(group, log, applied).leaves))
  }

  lemma TimelineGrows(view: nat -> seq<LogCommit>, s: nat, t: nat)
    requires Timeline(view) && s <= t
    ensures view(s) <= view(t) && Consecutive(view(s))
  {
  }

  lemma ProgressStarts(client: ClientState, name: Name, log: seq<LogCommit>)
    requires Coherent(client)
    ensures Progress(client, name, GroupOf(client), log, 0)
  {
  }

  lemma ProgressIsCoherent(client: ClientState, name: Name, start: Option<Group>, log: seq<LogCommit>, applied: nat)
    requires Progress(client, name, start, log, applied)
    ensures Coherent(client)
  {
  }

  lemma ProgressGrows(client: ClientState, name: Name, start: Option<Group>, log: seq<LogCommit>,
                      longer: seq<LogCommit>, applied: nat)
    requires Progress(client, name, start, log, applied) && log <= longer
    ensures Progress(client, name, start, longer, applied)
  {
    if start.Some? {
      AdvanceInLongerLog(start.value, log, longer, applied);
    }
  }

  /** A commit that is applied takes a client that stays in the group one epoch further. */
  lemma AppliedEpoch(client: ClientState, name: Name, queued: Option<Intent>, commit: Commit, net: nat -> Reply, now: nat)
    requires Coherent(client) && client.group.Some? && commit.base >= client.group.value.state.epoch
    ensures var after := ApplyOf(client, name, queued, commit, net, now);
            after.ok && after.client.group.Some? ==>
              after.client.group.value.state.epoch == client.group.value.state.epoch + 1
  {
    hide ReceiveCommit, Coherent, Merge, EffectOf;
    if ReceiveCommit(client, name, commit).Ok? {
      ReceiveMergesOnce(client, name, commit);
      MergeEpoch(client.group.value.state, commit);
    }
  }

  lemma MergeEpoch(group: Group, commit: Commit)
    ensures Merge(group, commit).epoch == group.epoch + 1
  {
  }

  lemma RetryKeepsGroup(client: ClientState, name: Name, queued: Option<Intent>, net: nat -> Reply, now: nat)
    requires Coherent(client)
    ensures var after := RetryOf(client, name, queued, net, now);
            && Coherent(after.client) && GroupOf(after.client) == GroupOf(client) && after.later >= now
            && (!after.ok <==> RetryFails(client, name, queued, net, now))
  {
    hide EffectOf, Merge;
  }

  /** Applying a commit merges it exactly when it is received, even if a later request of the same call fails. */
  lemma ApplyMerges(client: ClientState, name: Name, queued: Option<Intent>, commit: Commit, net: nat -> Reply, now: nat)
    requires Coherent(client) && (client.group.Some? ==> commit.base >= client.group.value.state.epoch)
    ensures var after := ApplyOf(client, name, queued, commit, net, now);
            && after.later >= now && Coherent(after.client)
            && match ReceiveCommit(client, name, commit)
               case Err(_) => after == After(false, client, queued, now)
               case Ok((received, outcome)) =>
                 && GroupOf(after.client) == GroupOf(received)
                 && (after.ok <==> !FailsAfterMerge(client, name, queued, commit, net, now))
  {
    hide ReceiveCommit, Coherent, RetryOf, RetryFails;
    if ReceiveCommit(client, name, commit).Ok? {
      ReceiveMergesOnce(client, name, commit);
      RetryKeepsGroup(ReceiveCommit(client, name, commit).value.0, name, queued, net, now + 1);
    }
  }

  /** Applying a log entry ahead of the client extends the progress by this entry, or fails without a merge. */
  lemma ApplyAdvances(client: ClientState, name: Name, queued: Option<Intent>, start: Option<Group>, log: seq<LogCommit>,
                      index: nat, longer: seq<LogCommit>, applied: nat, net: nat -> Reply, now: nat)
    returns (applied': nat)
    requires Consecutive(log) && log <= longer && index < |log| && Progress(client, name, start, log, applied)
    requires client.group.Some? ==> client.group.value.state.epoch < log[index].epoch
    ensures var after := ApplyOf(client, name, queued, log[index].commit, net, now);
            && after.later >= now && Progress(after.client, name, start, longer, applied')
            && applied <= applied' <= applied + 1 && (after.ok ==> applied' == applied + 1)
            && (applied' == applied ==> after.client == client)
            && (!after.ok ==> (applied' > applied <==> FailsAfterMerge(client, name, queued, log[index].commit, net, now)))
            && (applied' > applied ==>
                  && client.group.Some? && client.group.value.state.epoch == index
                  && (after.client.group.Some? ==> after.client.group.value.state.epoch == index + 1))
  {
    hide ReceiveCommit, Coherent, ApplyOf, FailsAfterMerge, Merge;
    var commit := log[index].commit;
    var after := ApplyOf(client, name, queued, commit, net, now);
    ApplyMerges(client, name, queued, commit, net, now);
    FailsAfterMergeIff(client, name, queued, commit, net, now);
    applied' := applied;
    if ReceiveCommit(client, name, commit).Ok? {
      ReceiveMergesOnce(client, name, commit);
      MergeEpoch(client.group.value.state, commit);
      AdvanceEpoch(start.value, log, applied);
      applied' := applied + 1;
    }
    ProgressGrows(after.client, name, start, log, longer, applied');
  }

  lemma ApplyTakesTime(client: ClientState, name: Name, queued: Option<Intent>, commit: Commit, net: nat -> Reply, now: nat)
    ensures ApplyOf(client, name, queued, commit, net, now).later >= now
  {
    hide ReceiveCommit, StartEpochChange;
  }

  lemma BatchStep(client: ClientState, name: Name, queued: Option<Intent>, commits: seq<Commit>, k: nat,
                  net: nat -> Reply, now: nat)
    requires k < |commits|
    ensures var next := ApplyOf(client, name, queued, commits[k], net, now);
            BatchOf(client, name, queued, commits[k..], net, now) ==
            if next.ok then
              var rest := BatchOf(next.client, name, next.queued, commits[k + 1..], net, next.later);
              rest.(count := rest.count + 1)
            else BatchAfter(true, 0, next.client, next.queued, next.later)
  {
    hide ApplyOf;
    assert commits[k..][1..] == commits[k + 1..];
  }

  lemma BatchEnds(client: ClientState, name: Name, queued: Option<Intent>, net: nat -> Reply, now: nat)
    ensures BatchOf(client, name, queued, [], net, now) == BatchAfter(false, 0, client, queued, now)
  {
  }

  /** With all requests answered and nothing queued, applying a commit is receiving it. */
  lemma AppliedIffReceived(client: ClientState, name: Name, commit: Commit, net: nat -> Reply, now: nat)
    requires forall t :: net(t).Done?
    ensures var after, received := ApplyOf(client, name, None, commit, net, now), ReceiveCommit(client, name, commit);
            && (after.ok <==> received.Ok?) && after.queued.None? && after.later >= now
            && (received.Ok? ==> after.client == received.value.0)
  {
    hide ReceiveCommit;
  }

  /** With every request answered and nothing queued, a batch succeeds exactly when each commit can be received in turn. */
  lemma {:induction false} BatchReceivesAll(client: ClientState, name: Name, commits: seq<Commit>, net: nat -> Reply,
                                            now: nat)
    requires forall t :: net(t).Done?
    ensures var batch := BatchOf(client, name, None, commits, net, now);
            && (batch.failed <==> ReceiveAll(client, name, commits).None?)
            && batch.queued.None?
            && (!batch.failed ==> batch.count == |commits| && Some(batch.client) == ReceiveAll(client, name, commits))
    decreases |commits|
  {
    hide ApplyOf, ReceiveCommit;
    if commits != [] {
      AppliedIffReceived(client, name, commits[0], net, now);
      var next := ApplyOf(client, name, None, commits[0], net, now);
      if next.ok {
        BatchReceivesAll(next.client, name, commits[1..], net, next.later);
      }
    }
  }

  ghost predicate AddressedFrom(log: seq<LogCommit>, name: Name, epoch: nat) {
    forall i | epoch <= i < |log| :: name in log[i].recipients
  }

  /** A client to which every entry beyond its epoch is addressed takes the next entries of the log, up to its budget. */
  lemma BatchIsTheRest(log: seq<LogCommit>, name: Name, after: nat, budget: nat)
    requires Consecutive(log) && after <= |log| && AddressedFrom(log, name, after)
    ensures Batch(log, name, after, budget)
         == CommitsOf(log[after..if after + budget < |log| then after + budget else |log|])
  {
    hide EligibleOf;
    EligibleIsTheRest(log, name, after, |log|);
    assert log[..|log|] == log;
  }

  lemma {:induction false} EligibleIsTheRest(log: seq<LogCommit>, name: Name, after: nat, n: nat)
    requires Consecutive(log) && n <= |log| && forall i | after <= i < n :: name in log[i].recipients
    ensures EligibleOf(log[..n], name, after) == if after <= n then log[after..n] else []
    decreases n
  {
    if n > 0 {
      EligibleIsTheRest(log, name, after, n - 1);
      EligibleSnoc(log, n - 1, name, after);
    }
  }
}
