/**
 receive_commit_delivery round by round: where the call stands before a fetch, what one round does, and what a whole
 call achieves.
 */
module WorkerRounds {
  import opened Wrappers
  import opened Mls
  import opened Client
  import opened DeliverySpec
  import opened WorkerSpec

  datatype Round = Round(client: ClientState, queued: Option<Intent>, cursor: nat, time: nat, staleAcked: nat,
                         processed: nat)

  datatype Turn = Again(round: Round) | Finish(ok: bool, round: Round)

  /** current_epoch_reached: false when the client is in no group. */
  predicate At(client: ClientState, epoch: nat) {
    client.group.Some? && client.group.value.state.epoch >= epoch
  }

  predicate Arrived(client: ClientState, expected: Option<nat>) {
    expected.Some? && At(client, expected.value)
  }

  /** The oldest log entry that is addressed to the recipient and not acknowledged. */
  function FirstPending(log: seq<LogCommit>, recipient: Name, cursor: nat): (index: nat)
    ensures index <= |log|
    ensures index < |log| ==> Eligible(log[index], recipient, cursor)
    ensures forall j | 0 <= j < index :: !Eligible(log[j], recipient, cursor)
  {
    if log == [] then 0
    else
      assert log == log[..1] + log[1..];
      if Eligible(log[0], recipient, cursor) then 0 else 1 + FirstPending(log[1..], recipient, cursor)
  }

  /** The acknowledgement moves the service's cursor whenever it is processed, heard or not. */
  function AckMoves(cursor: nat, epoch: nat, reply: Reply): nat {
    if (reply.Done? || reply.Unheard?) && epoch > cursor then epoch else cursor
  }

  /** A delivery the client is already past is acknowledged and skipped. */
  function SkipTurn(expected: Option<nat>, net: nat -> Reply, r: Round, epoch: nat): Turn {
    var next := r.(cursor := AckMoves(r.cursor, epoch, net(r.time)), time := r.time + 1);
    if !net(r.time).Done? then Finish(Arrived(r.client, expected), next)
    else
      var acked := next.(staleAcked := r.staleAcked + 1);
      if Arrived(r.client, expected) then Finish(true, acked) else Again(acked)
  }

  /** A delivery ahead of the client is applied and then acknowledged. */
  function ApplyTurn(name: Name, expected: Option<nat>, net: nat -> Reply, r: Round, entry: LogCommit): Turn {
    var after := ApplyOf(r.client, name, r.queued, entry.commit, net, r.time);
    if !after.ok then Finish(false, r.(client := after.client, queued := after.queued, time := after.later))
    else
      var next := Round(after.client, after.queued, AckMoves(r.cursor, entry.epoch, net(after.later)), after.later + 1,
                        r.staleAcked, r.processed + 1);
      if expected.Some? && !At(after.client, expected.value) then Again(next) else Finish(true, next)
  }

  function TurnOf(name: Name, expected: Option<nat>, view: nat -> seq<LogCommit>, net: nat -> Reply, r: Round): Turn {
    var log, next := view(r.time), r.(time := r.time + 1);
    var index := FirstPending(log, name, r.cursor);
    if !net(r.time).Done? || index == |log| then Finish(Arrived(r.client, expected), next)
    else if At(r.client, log[index].epoch) then SkipTurn(expected, net, next, log[index].epoch)
    else ApplyTurn(name, expected, net, next, log[index])
  }

  ghost predicate Linked(name: Name, expected: Option<nat>, view: nat -> seq<LogCommit>, net: nat -> Reply,
                         rounds: seq<Round>)
  {
    forall i | 0 < i < |rounds| :: TurnOf(name, expected, view, net, rounds[i - 1]) == Again(rounds[i])
  }

  /** The rounds of one call, and how it ends. */
  ghost predicate Call(name: Name, expected: Option<nat>, view: nat -> seq<LogCommit>, net: nat -> Reply,
                       rounds: seq<Round>, ok: bool, last: Round)
  {
    && rounds != [] && Linked(name, expected, view, net, rounds)
    && TurnOf(name, expected, view, net, rounds[|rounds| - 1]) == Finish(ok, last)
  }

  lemma LinkedAlone(name: Name, expected: Option<nat>, view: nat -> seq<LogCommit>, net: nat -> Reply, first: Round)
    ensures Linked(name, expected, view, net, [first])
  {
  }

  lemma LinkedSnoc(name: Name, expected: Option<nat>, view: nat -> seq<LogCommit>, net: nat -> Reply, rounds: seq<Round>,
                   next: Round)
    requires rounds != [] && Linked(name, expected, view, net, rounds)
    requires TurnOf(name, expected, view, net, rounds[|rounds| - 1]) == Again(next)
    ensures Linked(name, expected, view, net, rounds + [next])
  {
    hide TurnOf;
  }

  lemma CallTail(name: Name, expected: Option<nat>, view: nat -> seq<LogCommit>, net: nat -> Reply, rounds: seq<Round>,
                 ok: bool, last: Round)
    requires Call(name, expected, view, net, rounds, ok, last)
    ensures if |rounds| == 1 then TurnOf(name, expected, view, net, rounds[0]) == Finish(ok, last)
            else TurnOf(name, expected, view, net, rounds[0]) == Again(rounds[1])
                 && Call(name, expected, view, net, rounds[1..], ok, last)
  {
    hide TurnOf;
    if |rounds| > 1 {
      var rest := rounds[1..];
      forall i | 0 < i < |rest| ensures TurnOf(name, expected, view, net, rest[i - 1]) == Again(rest[i]) {
        assert rest[i - 1] == rounds[i] && rest[i] == rounds[i + 1];
      }
    }
  }

  /** The client's next commit is in the log and addressed to it. */
  predicate NextIsLogged(name: Name, view: nat -> seq<LogCommit>, r: Round) {
    && r.client.group.Some? && r.queued.None?
    && var k := r.client.group.value.state.epoch;
       r.cursor <= k < |view(r.time)| && name in view(r.time)[k].recipients
  }

  function NextCommit(view: nat -> seq<LogCommit>, r: Round): Commit
    requires r.client.group.Some? && r.client.group.value.state.epoch < |view(r.time)|
  {
    view(r.time)[r.client.group.value.state.epoch].commit
  }

  /** One round then either skips an entry the client is past, or applies that commit. */
  lemma TurnTowardsNext(name: Name, expected: Option<nat>, view: nat -> seq<LogCommit>, net: nat -> Reply, r: Round)
    requires Timeline(view) && (forall t :: net(t).Done?) && NextIsLogged(name, view, r)
    requires !Arrived(r.client, expected)
    ensures var turn := TurnOf(name, expected, view, net, r);
            var k := r.client.group.value.state.epoch;
            || (turn.Again? && turn.round.client == r.client && turn.round.queued.None? && turn.round.processed == r.processed
                && r.cursor < turn.round.cursor <= k && turn.round.time >= r.time)
            || (match ReceiveCommit(r.client, name, NextCommit(view, r))
                case Err(_) => turn.Finish? && !turn.ok
                case Ok((after, _)) =>
                  && turn.round.client == after && turn.round.queued.None? && turn.round.processed == r.processed + 1
                  && turn.round.cursor == k + 1 && turn.round.time >= r.time
                  && (turn.Again? <==> expected.Some? && !At(after, expected.value)) && (turn.Finish? ==> turn.ok))
  {
    hide ApplyOf, ReceiveCommit;
    var k := r.client.group.value.state.epoch;
    var log := view(r.time);
    assert Consecutive(log) && Eligible(log[k], name, r.cursor);
    AppliedIffReceived(r.client, name, log[k].commit, net, r.time + 1);
  }

  /**
   With every request answered, a worker with nothing queued whose next commit is in the log, addressed to it and
   receivable applies exactly that commit.
   */
  lemma {:induction false} NextCommitIsReceived(name: Name, view: nat -> seq<LogCommit>, net: nat -> Reply,
                                                rounds: seq<Round>, ok: bool, last: Round)
    requires Timeline(view) && (forall t :: net(t).Done?) && Call(name, None, view, net, rounds, ok, last)
    requires NextIsLogged(name, view, rounds[0])
    requires ReceiveCommit(rounds[0].client, name, NextCommit(view, rounds[0])).Ok?
    ensures ok && last.processed == rounds[0].processed + 1 && last.queued.None?
    ensures last.client == ReceiveCommit(rounds[0].client, name, NextCommit(view, rounds[0])).value.0
    ensures last.cursor == rounds[0].client.group.value.state.epoch + 1
    decreases |rounds|
  {
    hide TurnOf, ReceiveCommit;
    CallTail(name, None, view, net, rounds, ok, last);
    TurnTowardsNext(name, None, view, net, rounds[0]);
    if |rounds| > 1 {
      TimelineGrows(view, rounds[0].time, rounds[1].time);
      NextCommitIsReceived(name, view, net, rounds[1..], ok, last);
    }
  }

  /** The commits of the log from the client's epoch up to epoch `e`, all addressed to it. */
  predicate PathIsLogged(name: Name, view: nat -> seq<LogCommit>, r: Round, e: nat) {
    && r.client.group.Some? && r.queued.None?
    && var k := r.client.group.value.state.epoch;
       && r.cursor <= k < e <= |view(r.time)|
       && forall i | k <= i < e :: name in view(r.time)[i].recipients
  }

  function PathCommits(view: nat -> seq<LogCommit>, r: Round, e: nat): seq<Commit>
    requires r.client.group.Some? && r.client.group.value.state.epoch <= e <= |view(r.time)|
  {
    CommitsOf(view(r.time)[r.client.group.value.state.epoch..e])
  }

  /**
   With every request answered, a worker with nothing queued reaches the expected epoch, and no further, when the
   commits up to it are in the log, addressed to it and can be received one after the other without removing it.
   */
  lemma {:induction false} CatchesUp(name: Name, e: nat, view: nat -> seq<LogCommit>, net: nat -> Reply,
                                     rounds: seq<Round>, ok: bool, last: Round)
    requires Timeline(view) && (forall t :: net(t).Done?) && Call(name, Some(e), view, net, rounds, ok, last)
    requires PathIsLogged(name, view, rounds[0], e) && Coherent(rounds[0].client)
    requires var end := ReceiveAll(rounds[0].client, name, PathCommits(view, rounds[0], e));
             end.Some? && end.value.group.Some?
    ensures ok && Some(last.client) == ReceiveAll(rounds[0].client, name, PathCommits(view, rounds[0], e))
    ensures last.client.group.value.state.epoch == e && last.cursor == e && last.queued.None?
    ensures last.processed == rounds[0].processed + e - rounds[0].client.group.value.state.epoch
    decreases |rounds|
  {
    hide TurnOf, ReceiveCommit, ReceiveAll;
    var first := rounds[0];
    var k := first.client.group.value.state.epoch;
    CallTail(name, Some(e), view, net, rounds, ok, last);
    TurnTowardsNext(name, Some(e), view, net, first);
    PathSplits(first.client, name, view(first.time), e);
    if |rounds| > 1 {
      TimelineGrows(view, first.time, rounds[1].time);
      assert view(rounds[1].time)[rounds[1].client.group.value.state.epoch..e]
          == view(first.time)[rounds[1].client.group.value.state.epoch..e];
      CatchesUp(name, e, view, net, rounds[1..], ok, last);
    }
  }

  /** The path starts with the next commit; receiving it leaves the rest of the path, or nothing. */
  lemma PathSplits(client: ClientState, name: Name, log: seq<LogCommit>, e: nat)
    requires Consecutive(log) && Coherent(client) && client.group.Some? && client.group.value.state.epoch < e <= |log|
    requires var end := ReceiveAll(client, name, CommitsOf(log[client.group.value.state.epoch..e]));
             end.Some? && end.value.group.Some?
    ensures var k := client.group.value.state.epoch;
            var received := ReceiveCommit(client, name, log[k].commit);
            && received.Ok? && Coherent(received.value.0)
            && received.value.0.group.Some? && received.value.0.group.value.state.epoch == k + 1
            && ReceiveAll(client, name, CommitsOf(log[k..e])) ==
               if k + 1 == e then Some(received.value.0) else ReceiveAll(received.value.0, name, CommitsOf(log[k + 1..e]))
  {
    hide ReceiveCommit, Coherent;
    var k := client.group.value.state.epoch;
    var path, rest := CommitsOf(log[k..e]), CommitsOf(log[k + 1..e]);
    assert path[0] == log[k].commit && path[1..] == rest;
    ReceiveMergesOnce(client, name, log[k].commit);
    if rest != [] {
      NotInGroupReceives(ReceiveCommit(client, name, log[k].commit).value.0, name, rest[0]);
    }
  }

  lemma NotInGroupReceives(client: ClientState, name: Name, commit: Commit)
    ensures client.group.None? ==> ReceiveCommit(client, name, commit).Err?
  {
  }

  /** The fetch of a round is answered with this log entry. */
  ghost predicate Finds(name: Name, view: nat -> seq<LogCommit>, net: nat -> Reply, r: Round, i: int) {
    && net(r.time).Done? && 0 <= i < |view(r.time)| && Eligible(view(r.time)[i], name, r.cursor)
    && forall j | 0 <= j < i :: !Eligible(view(r.time)[j], name, r.cursor)
  }

  /** It finds an entry that is ahead of the client and whose application fails. */
  ghost predicate Fails(name: Name, view: nat -> seq<LogCommit>, net: nat -> Reply, r: Round) {
    exists i :: Finds(name, view, net, r, i) && !At(r.client, view(r.time)[i].epoch)
                && !ApplyOf(r.client, name, r.queued, view(r.time)[i].commit, net, r.time + 1).ok
  }

  /** It finds nothing, or it finds an entry the client is past and cannot acknowledge it. */
  ghost predicate Stalls(name: Name, view: nat -> seq<LogCommit>, net: nat -> Reply, r: Round) {
    || !net(r.time).Done?
    || (forall e | e in view(r.time) :: !Eligible(e, name, r.cursor))
    || (exists i :: Finds(name, view, net, r, i) && At(r.client, view(r.time)[i].epoch) && !net(r.time + 1).Done?)
  }

  lemma FoundIs(name: Name, view: nat -> seq<LogCommit>, net: nat -> Reply, r: Round)
    ensures var index := FirstPending(view(r.time), name, r.cursor);
            && (index == |view(r.time)| <==> forall e | e in view(r.time) :: !Eligible(e, name, r.cursor))
            && forall i :: Finds(name, view, net, r, i) <==> net(r.time).Done? && i == index < |view(r.time)|
  {
    var log, index := view(r.time), FirstPending(view(r.time), name, r.cursor);
    assert forall e | e in log :: exists j :: 0 <= j < |log| && log[j] == e;
  }

  /**
   Why a call fails: in its last round, a delivery ahead of the client cannot be applied; or the expected epoch is not
   reached, and the round finds nothing or cannot acknowledge a delivery the client is past.
   */
  lemma FailureHasAReason(name: Name, expected: Option<nat>, view: nat -> seq<LogCommit>, net: nat -> Reply,
                          rounds: seq<Round>, ok: bool, last: Round)
    requires Call(name, expected, view, net, rounds, ok, last)
    ensures var r := rounds[|rounds| - 1];
            !ok <==> Fails(name, view, net, r) || (!Arrived(r.client, expected) && Stalls(name, view, net, r))
  {
    hide TurnOf, Fails, Stalls;
    TurnFails(name, expected, view, net, rounds[|rounds| - 1]);
  }

  lemma TurnFails(name: Name, expected: Option<nat>, view: nat -> seq<LogCommit>, net: nat -> Reply, r: Round)
    ensures var turn := TurnOf(name, expected, view, net, r);
            turn.Finish? ==>
              (!turn.ok <==> Fails(name, view, net, r) || (!Arrived(r.client, expected) && Stalls(name, view, net, r)))
  {
    hide ApplyOf, FirstPending, Finds;
    FoundIs(name, view, net, r);
    var index := FirstPending(view(r.time), name, r.cursor);
    assert net(r.time).Done? && index < |view(r.time)| ==> Finds(name, view, net, r, index);
  }

  /** Nothing gets queued, and with every request answered a failure is a commit that cannot be received. */
  lemma {:induction false} AnsweredFailure(name: Name, expected: Option<nat>, view: nat -> seq<LogCommit>,
                                           net: nat -> Reply, rounds: seq<Round>, ok: bool, last: Round)
    requires (forall t :: net(t).Done?) && Call(name, expected, view, net, rounds, ok, last) && rounds[0].queued.None?
    ensures last.queued.None? && rounds[|rounds| - 1].queued.None?
    ensures !ok ==>
              var r := rounds[|rounds| - 1];
              || (!Arrived(r.client, expected) && forall e | e in view(r.time) :: !Eligible(e, name, r.cursor))
              || (exists i :: Finds(name, view, net, r, i) && !At(r.client, view(r.time)[i].epoch)
                              && ReceiveCommit(r.client, name, view(r.time)[i].commit).Err?)
    decreases |rounds|
  {
    var first := rounds[0];
    CallTail(name, expected, view, net, rounds, ok, last);
    TurnKeepsNothingQueued(name, expected, view, net, first);
    if |rounds| > 1 {
      hide Call;
      AnsweredFailure(name, expected, view, net, rounds[1..], ok, last);
    }
  }

  lemma TurnKeepsNothingQueued(name: Name, expected: Option<nat>, view: nat -> seq<LogCommit>, net: nat -> Reply, r: Round)
    requires (forall t :: net(t).Done?) && r.queued.None?
    ensures var turn := TurnOf(name, expected, view, net, r);
            && turn.round.queued.None?
            && (turn.Finish? && !turn.ok ==>
                  || (!Arrived(r.client, expected) && forall e | e in view(r.time) :: !Eligible(e, name, r.cursor))
                  || (exists i :: Finds(name, view, net, r, i) && !At(r.client, view(r.time)[i].epoch)
                                  && ReceiveCommit(r.client, name, view(r.time)[i].commit).Err?))
  {
    hide ApplyOf, ReceiveCommit;
    FoundIs(name, view, net, r);
    var index := FirstPending(view(r.time), name, r.cursor);
    if index < |view(r.time)| {
      AppliedIffReceived(r.client, name, view(r.time)[index].commit, net, r.time + 1);
    }
  }

  // ---- calls without a commit to wait for

  /** Outside a group every call fails, in its first round. */
  lemma OutsideFails(name: Name, expected: Option<nat>, view: nat -> seq<LogCommit>, net: nat -> Reply,
                     rounds: seq<Round>, ok: bool, last: Round)
    requires Call(name, expected, view, net, rounds, ok, last)
    requires rounds[0].client.group.None?
    ensures !ok && |rounds| == 1 && last.client == rounds[0].client && last.processed == rounds[0].processed
  {
    hide ReceiveCommit;
    CallTail(name, expected, view, net, rounds, ok, last);
    var r := rounds[0];
    var index := FirstPending(view(r.time), name, r.cursor);
    if index < |view(r.time)| {
      NotInGroupReceives(r.client, name, view(r.time)[index].commit);
    }
  }

  /** A delivery ahead of the client is found, and applying it fails or removes the client. */
  ghost predicate FailsOrLeaves(name: Name, view: nat -> seq<LogCommit>, net: nat -> Reply, r: Round) {
    exists i :: Finds(name, view, net, r, i) && !At(r.client, view(r.time)[i].epoch)
                && var after := ApplyOf(r.client, name, r.queued, view(r.time)[i].commit, net, r.time + 1);
                   !after.ok || after.client.group.None?
  }

  /**
   A worker that is at the expected epoch when the call begins: the call succeeds exactly when its first fetch does not
   bring a delivery ahead of the worker that fails or removes it. Not being able to fetch or acknowledge does no harm.
   */
  lemma AlreadyArrived(name: Name, expected: nat, view: nat -> seq<LogCommit>, net: nat -> Reply, rounds: seq<Round>,
                       ok: bool, last: Round)
    requires Timeline(view) && Call(name, Some(expected), view, net, rounds, ok, last)
    requires At(rounds[0].client, expected) && Coherent(rounds[0].client)
    ensures ok <==> !FailsOrLeaves(name, view, net, rounds[0])
  {
    hide TurnOf, FailsOrLeaves, Coherent;
    CallTail(name, Some(expected), view, net, rounds, ok, last);
    ArrivedTurn(name, expected, view, net, rounds[0]);
    if |rounds| > 1 {
      OutsideFails(name, Some(expected), view, net, rounds[1..], ok, last);
    }
  }

  lemma ArrivedTurn(name: Name, expected: nat, view: nat -> seq<LogCommit>, net: nat -> Reply, r: Round)
    requires Timeline(view) && At(r.client, expected) && Coherent(r.client)
    ensures var turn := TurnOf(name, Some(expected), view, net, r);
            if turn.Again? then FailsOrLeaves(name, view, net, r) && turn.round.client.group.None?
            else turn.ok <==> !FailsOrLeaves(name, view, net, r)
  {
    hide ApplyOf, Coherent, FirstPending, Finds;
    FoundIs(name, view, net, r);
    var index := FirstPending(view(r.time), name, r.cursor);
    assert net(r.time).Done? && index < |view(r.time)| ==> Finds(name, view, net, r, index);
    if index < |view(r.time)| && !At(r.client, view(r.time)[index].epoch) {
      assert Consecutive(view(r.time));
      AppliedEpoch(r.client, name, r.queued, view(r.time)[index].commit, net, r.time + 1);
    }
  }

  // ---- what every call keeps, whatever the network does

  /** How many epochs the call may still have to cover; none for a client that is in no group. */
  function Distance(client: ClientState, expected: Option<nat>): nat {
    if client.group.None? then 0
    else if expected.None? then 1
    else
      var epoch := client.group.value.state.epoch;
      if expected.value > epoch then 2 + expected.value - epoch else 1
  }

  /** How many deliveries behind the client may still be offered. */
  function Behind(client: ClientState, cursor: nat): nat {
    if client.group.Some? && client.group.value.state.epoch > cursor then client.group.value.state.epoch - cursor else 0
  }

  /** From one round to the next, or to the end: what was merged, counted, skipped and acknowledged. */
  ghost predicate Advances(name: Name, view: nat -> seq<LogCommit>, net: nat -> Reply, r: Round, next: Round,
                           start: Option<Group>, applied: nat, applied': nat, good: bool)
  {
    && next.time >= r.time && Progress(next.client, name, start, view(next.time), applied')
    && r.processed <= next.processed && next.processed - r.processed <= applied' - applied <= next.processed - r.processed + 1
    && (good ==> applied' - applied == next.processed - r.processed)
    && (applied' == applied ==> next.client == r.client)
    && (next.client.group.Some? ==>
          r.client.group.Some? && r.client.group.value.state.epoch <= next.client.group.value.state.epoch)
    && r.staleAcked <= next.staleAcked && next.cursor >= r.cursor + (next.staleAcked - r.staleAcked)
    && (next.client.group.Some? ==> next.cursor == r.cursor || next.cursor <= next.client.group.value.state.epoch)
    && (good && next.processed > r.processed && next.client.group.Some? && (forall t :: net(t).Done?) ==>
          next.cursor >= next.client.group.value.state.epoch)
  }

  ghost predicate Closer(expected: Option<nat>, r: Round, next: Round) {
    || Distance(next.client, expected) < Distance(r.client, expected)
    || (next.client == r.client && Behind(next.client, next.cursor) < Behind(r.client, r.cursor))
  }

  lemma CloserMeasure(expected: Option<nat>, r: Round, next: Round)
    requires Closer(expected, r, next)
    ensures || Distance(next.client, expected) < Distance(r.client, expected)
            || (Distance(next.client, expected) == Distance(r.client, expected)
                && Behind(next.client, next.cursor) < Behind(r.client, r.cursor))
  {
  }

  lemma SkipAdvances(name: Name, expected: Option<nat>, view: nat -> seq<LogCommit>, net: nat -> Reply, r: Round, epoch: nat,
                     start: Option<Group>, applied: nat)
    requires Timeline(view) && Progress(r.client, name, start, view(r.time), applied)
    requires At(r.client, epoch) && epoch > r.cursor
    ensures var turn := SkipTurn(expected, net, r, epoch);
            && Advances(name, view, net, r, turn.round, start, applied, applied, turn.Again? || turn.ok)
            && (turn.Again? ==> Closer(expected, r, turn.round))
            && (turn.Finish? && turn.ok ==> Arrived(turn.round.client, expected))
            && turn.round.processed == r.processed
  {
    hide Progress, Timeline;
    TimelineGrows(view, r.time, r.time + 1);
    ProgressGrows(r.client, name, start, view(r.time), view(r.time + 1), applied);
  }

  lemma ApplyTurnAdvances(name: Name, expected: Option<nat>, view: nat -> seq<LogCommit>, net: nat -> Reply, r: Round,
                          index: nat, start: Option<Group>, applied: nat) returns (applied': nat)
    requires Timeline(view) && Progress(r.client, name, start, view(r.time), applied)
    requires index < |view(r.time)| && !At(r.client, view(r.time)[index].epoch)
    ensures var turn := ApplyTurn(name, expected, net, r, view(r.time)[index]);
            && Advances(name, view, net, r, turn.round, start, applied, applied', turn.Again? || turn.ok)
            && (turn.Again? ==> Closer(expected, r, turn.round) && expected.Some?)
            && (turn.Finish? && turn.ok ==>
                  if expected.Some? then Arrived(turn.round.client, expected) else turn.round.processed == r.processed + 1)
  {
    hide ApplyOf, Progress, Timeline;
    var entry := view(r.time)[index];
    var next := ApplyTurn(name, expected, net, r, entry).round;
    ApplyTakesTime(r.client, name, r.queued, entry.commit, net, r.time);
    TimelineGrows(view, r.time, next.time);
    applied' := ApplyAdvances(r.client, name, r.queued, start, view(r.time), index, view(next.time), applied, net, r.time);
  }

  lemma TurnAdvances(name: Name, expected: Option<nat>, view: nat -> seq<LogCommit>, net: nat -> Reply, r: Round,
                     start: Option<Group>, applied: nat) returns (applied': nat)
    requires Timeline(view) && Progress(r.client, name, start, view(r.time), applied)
    ensures var turn := TurnOf(name, expected, view, net, r);
            && Advances(name, view, net, r, turn.round, start, applied, applied', turn.Again? || turn.ok)
            && (turn.Again? ==> Closer(expected, r, turn.round) && (expected.None? ==> turn.round.processed == r.processed))
            && (turn.Finish? && turn.ok ==>
                  if expected.Some? then Arrived(turn.round.client, expected) else turn.round.processed == r.processed + 1)
  {
    hide ApplyTurn, SkipTurn, Progress, Timeline, Closer;
    var log, index, next := view(r.time), FirstPending(view(r.time), name, r.cursor), r.(time := r.time + 1);
    TimelineGrows(view, r.time, next.time);
    ProgressGrows(r.client, name, start, log, view(next.time), applied);
    applied' := applied;
    if net(r.time).Done? && index < |log| {
      assert view(next.time)[index] == log[index];
      if At(r.client, log[index].epoch) {
        SkipAdvances(name, expected, view, net, next, log[index].epoch, start, applied);
      } else {
        applied' := ApplyTurnAdvances(name, expected, view, net, next, index, start, applied);
      }
      CloserFrom(expected, r, next, TurnOf(name, expected, view, net, r).round);
    }
  }

  /** Only the client and the cursor of a round count. */
  lemma CloserFrom(expected: Option<nat>, r: Round, same: Round, next: Round)
    requires same.client == r.client && same.cursor == r.cursor
    ensures Closer(expected, same, next) <==> Closer(expected, r, next)
  {
  }

  /**
   Whatever acknowledgements get lost: the transcript grows by consecutive log entries, once each; no delivery ahead of
   the client is acknowledged, and when all requests are answered none that was applied stays unacknowledged.
   */
  lemma {:induction false} CallAdvances(name: Name, expected: Option<nat>, view: nat -> seq<LogCommit>, net: nat -> Reply,
                                        rounds: seq<Round>, ok: bool, last: Round, start: Option<Group>, applied: nat)
    returns (applied': nat)
    requires Timeline(view) && Call(name, expected, view, net, rounds, ok, last)
    requires Progress(rounds[0].client, name, start, view(rounds[0].time), applied)
    ensures Advances(name, view, net, rounds[0], last, start, applied, applied', ok)
    ensures ok ==> if expected.Some? then Arrived(last.client, expected) else last.processed == rounds[0].processed + 1
    decreases |rounds|
  {
    hide Progress, Timeline, TurnOf;
    CallTail(name, expected, view, net, rounds, ok, last);
    applied' := TurnAdvances(name, expected, view, net, rounds[0], start, applied);
    if |rounds| > 1 {
      applied' := CallAdvances(name, expected, view, net, rounds[1..], ok, last, start, applied');
    }
  }
}
