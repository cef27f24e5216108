/**
 The worker's loops over pending commits: receive_commit_delivery, which fetches, skips, applies and
 acknowledges one delivery at a time, and process_pending, which applies a fetched batch. Other workers
 keep publishing meanwhile.
 */
module WorkerLoops {
  import opened Wrappers
  import opened Mls
  import opened Client
  import opened DeliverySpec
  import opened PendingBatch
  import opened WorkerSpec
  import opened WorkerRounds

  class WorkerObject {
    const client: ClientObject
    var queued: Option<Intent>

    constructor (client: ClientObject)
      ensures this.client == client && queued.None?
    {
      this.client := client;
      queued := None;
    }

    predicate Reached(epoch: nat)
      reads this, client
    {
      At(client.State(), epoch)
    }

    /** try_start_intent: a conflict rolls the commit back, a failed request leaves it pending. */
    method TryStartIntent(intent: Intent, net: nat -> Reply, now: nat) returns (result: SubmitResult, later: nat)
      requires Coherent(client.State())
      modifies client
      ensures Coherent(client.State()) && GroupOf(client.State()) == GroupOf(old(client.State()))
      ensures later >= now
      ensures result.Published? ==>
                && client.pendingCommit.Some? && client.pendingCommit.value.intent == intent.token
                && client.group.Some? && client.group.value.staged == client.pendingCommit
      ensures result.Published? ==>
                && client.pendingCommit.value.sender == client.name
                && client.pendingCommit.value.base == client.group.value.state.epoch
                && EffectOf(client.group.value.state.leaves, intent.request) == Some(client.pendingCommit.value.effect)
      ensures result.Conflicted? ==> client.pendingCommit.None? && client.group.Some? && client.group.value.staged.None?
      ensures result.SubmitFailed? <==> RetryFails(old(client.State()), client.name, Some(intent), net, now)
      ensures var after := RetryOf(old(client.State()), client.name, Some(intent), net, now);
              client.State() == after.client && later == after.later && (result.Published? <==> after.queued.None?)
    {
      later := now;
      var started := client.Start(intent, now, 0);
      if started.Err? {
        return SubmitFailed, later;
      }
      later := now + 1;
      match net(now) {
        case Done => result := Published;
        case Clash =>
          var rolledBack := client.Rollback();
          result := if rolledBack.Ok? then Conflicted else SubmitFailed;
        case _ => result := SubmitFailed;
      }
    }

    /** maybe_retry_pending_intent: the intent leaves the queue exactly when its commit is published. */
    method MaybeRetryPendingIntent(net: nat -> Reply, now: nat) returns (ok: bool, later: nat)
      requires Coherent(client.State())
      modifies this`queued, client
      ensures Coherent(client.State()) && GroupOf(client.State()) == GroupOf(old(client.State()))
      ensures later >= now
      ensures queued == old(queued) || queued.None?
      ensures old(queued).Some? && queued.None? ==>
                ok && client.pendingCommit.Some? && client.pendingCommit.value.intent == old(queued).value.token
      ensures old(queued).None? ==> ok && client.State() == old(client.State())
      ensures !ok <==> RetryFails(old(client.State()), client.name, old(queued), net, now)
      ensures After(ok, client.State(), queued, later) == RetryOf(old(client.State()), client.name, old(queued), net, now)
    {
      if queued.None? {
        return true, now;
      }
      var result;
      result, later := TryStartIntent(queued.value, net, now);
      if result.Published? {
        queued := None;
      }
      ok := !result.SubmitFailed?;
    }

    /** update_ds_group_state: a stale put is skipped, any other failure is an error. */
    static method UpdateDsGroupState(net: nat -> Reply, now: nat) returns (ok: bool, later: nat)
      ensures later == now + 1
      ensures ok <==> PutAnswered(net(now))
    {
      return PutAnswered(net(now)), now + 1;
    }

    static method PostWelcomes(recipients: seq<Name>, net: nat -> Reply, now: nat) returns (ok: bool, later: nat)
      ensures later == now + |recipients|
      ensures ok <==> forall t: nat | now <= t < now + |recipients| :: net(t).Done?
    {
      ok := true;
      for k := 0 to |recipients|
        invariant ok <==> forall t: nat | now <= t < now + k :: net(t).Done?
      {
        ok := ok && net(now + k).Done?;
      }
      later := now + |recipients|;
    }

    /**
     apply_commit_bytes on a commit that is not behind the client: it is merged exactly when it is accepted at
     the client's epoch, even if a later request of the same call fails.
     */
    method ApplyCommitBytes(commit: Commit, net: nat -> Reply, now: nat) returns (ok: bool, later: nat)
      requires Coherent(client.State())
      requires client.group.Some? ==> commit.base >= client.group.value.state.epoch
      modifies this`queued, client
      ensures later >= now && Coherent(client.State())
      ensures After(ok, client.State(), queued, later)
           == ApplyOf(old(client.State()), client.name, old(queued), commit, net, now)
      ensures match ReceiveCommit(old(client.State()), client.name, commit)
              case Err(_) => !ok && client.State() == old(client.State()) && queued == old(queued)
              case Ok((after, outcome)) =>
                && GroupOf(client.State()) == GroupOf(after)
                && (outcome.selfRemoved ==> ok && queued.None?)
                && (queued == old(queued) || queued.None?)
                && (ok <==> !FailsAfterMerge(old(client.State()), client.name, old(queued), commit, net, now))
    {
      hide ReceiveCommit, Coherent, RetryOf, RetryFails, FailsAfterMerge;
      later := now;
      ApplyMerges(client.State(), client.name, queued, commit, net, now);
      if ReceiveCommit(client.State(), client.name, commit).Ok? {
        ReceiveMergesOnce(client.State(), client.name, commit);
      }
      var received := client.Receive(commit);
      if received.Err? {
        return false, later;
      }
      var outcome := received.value;
      if outcome.selfRemoved {
        queued := None;
        return true, later;
      }
      match outcome {
        case ExternalCommitApplied(_) =>
          ok, later := UpdateDsGroupState(net, later);
          if ok {
            ok, later := MaybeRetryPendingIntent(net, later);
          }
        case OwnCommitAccepted(_, recipients, welcome) =>
          ok := true;
          if welcome.Some? {
            ok, later := PostWelcomes(recipients, net, later);
          }
          if ok {
            ok, later := UpdateDsGroupState(net, later);
          }
      }
    }

    // ---- receive_commit_delivery

    /** The oldest unacked log entry addressed to the recipient. */
    static method FetchPending(log: seq<LogCommit>, recipient: Name, cursor: nat) returns (index: nat)
      ensures index <= |log|
      ensures index < |log| ==> Eligible(log[index], recipient, cursor)
      ensures forall j | 0 <= j < index :: !Eligible(log[j], recipient, cursor)
    {
      for i := 0 to |log|
        invariant forall j | 0 <= j < i :: !Eligible(log[j], recipient, cursor)
      {
        if Eligible(log[i], recipient, cursor) {
          return i;
        }
      }
      return |log|;
    }

    /** The acknowledgement moves the service's cursor whenever it is processed, heard or not. */
    static method AckBestEffort(cursor: nat, epoch: nat, net: nat -> Reply, now: nat)
      returns (acked: bool, moved: nat, later: nat)
      ensures later == now + 1
      ensures acked <==> net(now).Done?
      ensures moved == AckMoves(cursor, epoch, net(now))
    {
      later := now + 1;
      acked := net(now).Done?;
      moved := cursor;
      if (net(now).Done? || net(now).Unheard?) && epoch > cursor {
        moved := epoch;
      }
    }

    /** One round: a fetch, and the skipping or the application of the delivery it brings. */
    method ReceiveRound(expected: Option<nat>, view: nat -> seq<LogCommit>, net: nat -> Reply, now: nat, cursor: nat,
                        skipped: nat, counted: nat)
      returns (again: bool, ok: bool, later: nat, moved: nat, staleAcked: nat, processed: nat)
      requires Timeline(view) && Coherent(client.State())
      modifies this`queued, client
      ensures TurnOf(client.name, expected, view, net, Round(old(client.State()), old(queued), cursor, now, skipped, counted))
           == if again then Again(Round(client.State(), queued, moved, later, staleAcked, processed))
              else Finish(ok, Round(client.State(), queued, moved, later, staleAcked, processed))
    {
      hide Coherent, ApplyOf, FailsAfterMerge;
      later, moved, staleAcked, processed := now + 1, cursor, skipped, counted;
      var log := view(now);
      var index := FetchPending(log, client.name, cursor);
      assert index == FirstPending(log, client.name, cursor) && Consecutive(log);
      if !net(now).Done? || index == |log| {
        return false, expected.Some? && Reached(expected.value), later, moved, staleAcked, processed;
      }
      var delivery := log[index];
      if Reached(delivery.epoch) {
        var acked;
        acked, moved, later := AckBestEffort(moved, delivery.epoch, net, later);
        if !acked {
          return false, expected.Some? && Reached(expected.value), later, moved, staleAcked, processed;
        }
        staleAcked := staleAcked + 1;
        ok := expected.Some? && Reached(expected.value);
        return !ok, ok, later, moved, staleAcked, processed;
      }
      ok, later := ApplyCommitBytes(delivery.commit, net, later);
      if !ok {
        return false, false, later, moved, staleAcked, processed;
      }
      var acked;
      acked, moved, later := AckBestEffort(moved, delivery.epoch, net, later);
      processed := processed + 1;
      again := expected.Some? && !Reached(expected.value);
    }

    /**
     The loop ends although others keep publishing: each round either closes in on the expected epoch or
     moves the cursor past a delivery the client is already ahead of. Whatever acknowledgements get lost,
     the client's transcript grows by consecutive log entries, once each. No delivery ahead of the client is
     acknowledged, and when all requests are answered none that was applied stays unacknowledged.
     The rounds are those of WorkerRounds, so what is said there of every call holds of this one.
     */
    method ReceiveCommitDelivery(expected: Option<nat>, view: nat -> seq<LogCommit>, net: nat -> Reply,
                                 now: nat, cursor: nat)
      returns (ok: bool, later: nat, moved: nat, staleAcked: nat, processed: nat, ghost applied: nat,
               ghost rounds: seq<Round>)
      requires Timeline(view) && Coherent(client.State())
      modifies this`queued, client
      ensures later >= now && moved >= cursor
      ensures Progress(client.State(), client.name, GroupOf(old(client.State())), view(later), applied)
      ensures processed <= applied <= processed + 1 && (ok ==> applied == processed)
      ensures ok ==> if expected.Some? then Reached(expected.value) else processed == 1
      ensures moved >= cursor + staleAcked
      ensures client.group.Some? ==> moved == cursor || moved <= client.group.value.state.epoch
      ensures ok && processed > 0 && client.group.Some? && (forall t :: net(t).Done?) ==>
                moved >= client.group.value.state.epoch
      ensures Call(client.name, expected, view, net, rounds, ok,
                   Round(client.State(), queued, moved, later, staleAcked, processed))
      ensures rounds[0] == Round(old(client.State()), old(queued), cursor, now, 0, 0)
    {
      hide Progress, Coherent, ApplyOf, Timeline, Linked, TurnOf, Closer;
      ok, later, moved, staleAcked, processed := false, now, cursor, 0, 0;
      ghost var start, merged := GroupOf(client.State()), 0;
      ProgressStarts(client.State(), client.name, view(now));
      ghost var first := Round(client.State(), queued, cursor, now, 0, 0);
      ghost var r := first;
      rounds := [first];
      LinkedAlone(client.name, expected, view, net, first);
      var again := true;
      while again
        invariant rounds != [] && rounds[0] == first && Linked(client.name, expected, view, net, rounds)
        invariant again ==> r == rounds[|rounds| - 1] == Round(client.State(), queued, moved, later, staleAcked, processed)
        invariant again ==> Progress(client.State(), client.name, start, view(later), merged)
        invariant !again ==> Call(client.name, expected, view, net, rounds, ok,
                                  Round(client.State(), queued, moved, later, staleAcked, processed))
        decreases again, Distance(r.client, expected), Behind(r.client, r.cursor)
      {
        ProgressIsCoherent(client.State(), client.name, start, view(later), merged);
        merged := TurnAdvances(client.name, expected, view, net, r, start, merged);
        again, ok, later, moved, staleAcked, processed :=
          ReceiveRound(expected, view, net, later, moved, staleAcked, processed);
        if again {
          ghost var next := Round(client.State(), queued, moved, later, staleAcked, processed);
          LinkedSnoc(client.name, expected, view, net, rounds, next);
          CloserMeasure(expected, r, next);
          rounds, r := rounds + [next], next;
        }
      }
      applied := CallAdvances(client.name, expected, view, net, rounds, ok,
                              Round(client.State(), queued, moved, later, staleAcked, processed), start, 0);
    }

    /** Applying a delivery ahead of the client extends the progress by one entry, or fails without a merge. */
    method ApplyDelivery(delivery: LogCommit, ghost index: nat, view: nat -> seq<LogCommit>, net: nat -> Reply, now: nat,
                         ghost start: Option<Group>, ghost applied: nat)
      returns (ok: bool, ghost applied': nat, later: nat)
      requires Timeline(view) && Progress(client.State(), client.name, start, view(now), applied)
      requires index < |view(now)| && view(now)[index] == delivery && !Reached(delivery.epoch)
      modifies this`queued, client
      ensures later >= now && Progress(client.State(), client.name, start, view(later), applied')
      ensures After(ok, client.State(), queued, later)
           == ApplyOf(old(client.State()), client.name, old(queued), delivery.commit, net, now)
      ensures applied <= applied' <= applied + 1 && (ok ==> applied' == applied + 1)
      ensures applied' == applied ==> client.State() == old(client.State())
      ensures !ok ==> (applied' > applied <==>
                       FailsAfterMerge(old(client.State()), client.name, old(queued), delivery.commit, net, now))
      ensures applied' > applied ==>
                && old(client.group).Some? && old(client.group).value.state.epoch == index
                && (client.group.Some? ==> client.group.value.state.epoch == index + 1)
    {
      hide ApplyOf, FailsAfterMerge, Progress, Coherent;
      ghost var before, waiting := client.State(), queued;
      ProgressIsCoherent(before, client.name, start, view(now), applied);
      ok, later := ApplyCommitBytes(delivery.commit, net, now);
      applied' := ApplyAdvances(before, client.name, waiting, start, view(now), index, view(later), applied, net, now);
    }

    // ---- process_pending

    /** The client's epoch, or 0 outside a group: `current_epoch_u64().unwrap_or(0)`. */
    function EpochOrZero(): nat
      reads this, client
    {
      if client.group.Some? then client.group.value.state.epoch else 0
    }

    /**
     The commit phase: the batch of unseen commits is applied in order until the budget is used up or an entry
     fails. Exactly `commits` entries are counted; one more has been merged exactly when the failing entry failed
     after its merge, in one of the requests that follow it.
     */
    method ApplyBatch(budget: nat, view: nat -> seq<LogCommit>, net: nat -> Reply, now: nat)
      returns (failed: bool, commits: nat, later: nat, ghost applied: nat)
      requires Timeline(view) && Coherent(client.State())
      modifies this`queued, client
      ensures later >= now && commits <= budget
      ensures Progress(client.State(), client.name, GroupOf(old(client.State())), view(later), applied)
      ensures commits <= applied <= commits + 1 && (!failed ==> applied == commits)
      ensures applied == commits + 1 <==>
                LateFailure(old(client.State()), client.name, old(queued),
                            Batch(view(now), client.name, old(EpochOrZero()), budget), net, now)
      ensures BatchAfter(failed, commits, client.State(), queued, later)
           == BatchOf(old(client.State()), client.name, old(queued),
                      Batch(view(now), client.name, old(EpochOrZero()), budget), net, now)
    {
      hide BatchOf, LateFailure, ApplyOf, FailsAfterMerge, Progress, Coherent, EligibleOf, Batch;
      ghost var start := GroupOf(client.State());
      ProgressStarts(client.State(), client.name, view(now));
      var log, after := view(now), EpochOrZero();
      var batch := EligibleOf(log, client.name, after);
      BatchAscends(log, client.name, after);
      failed, commits, later, applied := false, 0, now, 0;
      BatchIs(log, client.name, after, budget);
      ghost var all := Batch(log, client.name, after, budget);
      assert all[0..] == all;
      while commits < |batch| && commits < budget && !failed
        invariant later >= now && commits <= budget && commits <= |batch|
        invariant Progress(client.State(), client.name, start, view(later), applied)
        invariant commits <= applied <= commits + 1 && (!failed ==> applied == commits)
        invariant commits <= |all|
        invariant !failed ==>
                    (LateFailure(client.State(), client.name, queued, all[commits..], net, later) <==>
                     LateFailure(old(client.State()), client.name, old(queued), all, net, now))
        invariant failed ==>
                    (applied == commits + 1 <==> LateFailure(old(client.State()), client.name, old(queued), all, net, now))
        invariant BatchOf(old(client.State()), client.name, old(queued), all, net, now) ==
                  if failed then BatchAfter(true, commits, client.State(), queued, later)
                  else
                    var rest := BatchOf(client.State(), client.name, queued, all[commits..], net, later);
                    rest.(count := rest.count + commits)
        invariant !failed && client.group.Some? ==>
                    client.group.value.state.epoch == if commits == 0 then after else batch[commits - 1].epoch
        decreases |batch| - commits, !failed
      {
        var entry := batch[commits];
        ghost var index := LoggedAt(log, client.name, after, commits);
        BatchStep(client.State(), client.name, queued, all, commits, net, later);
        LateStep(client.State(), client.name, queued, all, commits, net, later);
        var done;
        done, applied, later := ApplyDelivery(entry, index, view, net, later, start, applied);
        if done {
          commits := commits + 1;
        } else {
          failed := true;
        }
      }
      if !failed {
        assert all[commits..] == [];
        BatchEnds(client.State(), client.name, queued, net, later);
        NothingIsLate(client.State(), client.name, queued, net, later);
      }
    }

    /** The commit phase of process_pending; nothing is left to do when the commits cannot be fetched. */
    method CommitPhase(kinds: set<PendingKind>, budget: nat, view: nat -> seq<LogCommit>, net: nat -> Reply, now: nat)
      returns (failed: bool, commits: nat, later: nat, ghost applied: nat)
      requires Timeline(view) && Coherent(client.State())
      modifies this`queued, client
      ensures BatchAfter(failed, commits, client.State(), queued, later)
           == PhaseOf(old(client.State()), client.name, old(queued), kinds, budget, view, net, now)
      ensures commits <= budget && Coherent(client.State())
      ensures Progress(client.State(), client.name, GroupOf(old(client.State())), view(later), applied)
      ensures commits <= applied <= commits + 1 && (!failed ==> applied == commits)
      ensures applied == commits + 1 <==>
                && budget > 0 && Commits in kinds && net(now).Done?
                && LateFailure(old(client.State()), client.name, old(queued),
                               Batch(view(now + 1), client.name, old(EpochOrZero()), budget), net, now + 1)
      ensures old(queued).None? && (forall t :: net(t).Done?) ==> applied == commits
    {
      hide LateFailure, Progress, Batch, Timeline, BatchOf, Coherent;
      ProgressStarts(client.State(), client.name, view(now));
      if budget == 0 || Commits !in kinds {
        return false, 0, now, 0;
      }
      if !net(now).Done? {
        return true, 0, now, 0;
      }
      if old(queued).None? && forall t :: net(t).Done? {
        NoLateFailure(client.State(), client.name, Batch(view(now + 1), client.name, EpochOrZero(), budget), net, now + 1);
      }
      failed, commits, later, applied := ApplyBatch(budget, view, net, now + 1);
      ProgressIsCoherent(client.State(), client.name, GroupOf(old(client.State())), view(later), applied);
    }

    method ProcessPending(kinds: set<PendingKind>, maxMessages: nat, expected: Option<nat>,
                          view: nat -> seq<LogCommit>, mail: nat -> Mail, messages: nat -> MessageOutcome,
                          net: nat -> Reply, now: nat)
      returns (ok: bool, commits: nat, welcomes: nat, applications: nat,
               ghost afterCommits: BatchAfter, ghost applied: nat)
      requires Timeline(view) && Coherent(client.State())
      modifies this`queued, client
      ensures commits + welcomes + applications <= maxMessages
      ensures Progress(afterCommits.client, client.name, GroupOf(old(client.State())), view(afterCommits.later), applied)
      ensures commits <= applied <= commits + 1 && (ok ==> applied == commits)
      ensures applied == commits + 1 <==>
                && maxMessages > 0 && Commits in kinds && net(now).Done?
                && LateFailure(old(client.State()), client.name, old(queued),
                               Batch(view(now + 1), client.name, old(EpochOrZero()), maxMessages), net, now + 1)
      ensures old(queued).None? && (forall t :: net(t).Done?) ==> applied == commits
      ensures Coherent(client.State())
      // the commits
      ensures afterCommits == PhaseOf(old(client.State()), client.name, old(queued), kinds, maxMessages, view, net, now)
      ensures commits == afterCommits.count && queued == afterCommits.queued
      // the Welcome
      ensures !(AsksMail(kinds, maxMessages, net, now, commits) && mail(afterCommits.later).Letter?) ==>
                welcomes == 0 && client.State() == afterCommits.client
      ensures AsksMail(kinds, maxMessages, net, now, commits) ==>
                match mail(afterCommits.later)
                case Letter(Some(welcome)) =>
                  welcomes == 1 && client.State() == ClientState(Some(MlsGroup(welcome.group, None)), None, None, [])
                case Letter(None) => welcomes == 0 && client.State() == Fresh() && !ok && applications == 0
                case _ => true
      // the application message
      ensures applications == 1 <==>
                && AsksMessage(kinds, maxMessages, mail, net, now, commits, welcomes, afterCommits.later)
                && messages(MessageTime(kinds, maxMessages, net, now, commits, afterCommits.later)).Received?
      ensures applications <= 1
      // the answer
      ensures ok <==>
                && !afterCommits.failed
                && !(AsksMail(kinds, maxMessages, net, now, commits) && MailFails(mail(afterCommits.later)))
                && !(AsksMessage(kinds, maxMessages, mail, net, now, commits, welcomes, afterCommits.later)
                     && messages(MessageTime(kinds, maxMessages, net, now, commits, afterCommits.later)).Broken?)
                && (expected.Some? && client.group.Some? ==> Reached(expected.value))
    {
      hide LateFailure, Progress, Batch, Timeline, PhaseOf, Coherent;
      ok, welcomes, applications := false, 0, 0;
      var failed, later;
      failed, commits, later, applied := CommitPhase(kinds, maxMessages, view, net, now);
      afterCommits := BatchAfter(failed, commits, client.State(), queued, later);
      PhaseFails(old(client.State()), client.name, old(queued), kinds, maxMessages, view, net, now);
      if Unfetched(kinds, maxMessages, net, now) {
        return;
      }
      var remaining := maxMessages - commits;
      if remaining > 0 && Welcomes in kinds {
        match mail(later) {
          case Empty =>
          case Unreachable => failed := true;
          case Letter(welcome) =>
            var joined := client.Join(welcome);
            JoinIsCoherent(welcome);
            if !joined {
              return;
            }
            welcomes := 1;
            remaining := remaining - 1;
        }
        later := later + 1;
      }
      if remaining > 0 && ApplicationMessages in kinds {
        match messages(later) {
          case Received => applications := 1;
          case NoMessage =>
          case Broken => failed := true;
        }
      }
      if expected.Some? && client.group.Some? && client.group.value.state.epoch < expected.value {
        failed := true;
      }
      ok := !failed;
    }
  }
}
