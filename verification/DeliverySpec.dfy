/**
 The Delivery Service: one epoch counter and member list per group, at most one accepted commit per epoch,
 and delivery through per-recipient inboxes or through a group log with one cursor per recipient and group.
 */
module DeliverySpec {
  import opened Wrappers
  import opened Mls
  import Decimal

  type GroupId = string

  datatype Mode = PerRecipient | GroupLog

  datatype GroupState = GroupState(epoch: nat, members: seq<Name>)

  datatype LogCommit = LogCommit(epoch: nat, sender: Name, recipients: seq<Name>, commit: Commit)

  datatype Delivery = Delivery(id: string, groupId: GroupId, epoch: nat, sender: Name, commit: Commit)

  datatype DsError = UnknownGroup | EpochMismatch(expected: nat, got: nat)

  // ---- what each request does to the entry of one group

  function PutState(entry: Option<GroupState>, epoch: nat, members: seq<Name>): Result<GroupState, DsError> {
    match entry
    case None => Ok(GroupState(epoch, members))
    case Some(state) =>
      if epoch != state.epoch then Err(EpochMismatch(state.epoch, epoch)) else Ok(GroupState(epoch, members))
  }

  /** The first critical section of a publish: check the epoch, copy the members, advance the epoch. */
  function AcceptCommit(entry: Option<GroupState>, epoch: nat): Result<(GroupState, seq<Name>), DsError> {
    match entry
    case None => Err(UnknownGroup)
    case Some(state) =>
      if epoch != state.epoch then Err(EpochMismatch(state.epoch, epoch))
      else Ok((GroupState(epoch + 1, state.members), state.members))
  }

  // ---- delivery identifiers

  predicate ColonFree(s: string) {
    ':' !in s
  }

  function DeliveryId(groupId: GroupId, epoch: nat, sender: Name, recipient: Name): string {
    groupId + ":" + Decimal.Show(epoch) + ":" + sender + ":" + recipient
  }

  /** A string without the separator, then the separator, can be split in one way only. */
  lemma FirstColonSplits(a: string, restA: string, b: string, restB: string)
    requires ColonFree(a) && ColonFree(b)
    requires a + ":" + restA == b + ":" + restB
    ensures a == b && restA == restB
  {
    var s, t := a + ":" + restA, b + ":" + restB;
    assert s[|a|] == ':' && t[|b|] == ':';
    assert forall i | 0 <= i < |a| :: s[i] == a[i];
    assert forall i | 0 <= i < |b| :: t[i] == b[i];
    assert |a| == |b|;
    assert a == s[..|a|] && b == t[..|b|];
    assert restA == s[|a| + 1..] && restB == t[|b| + 1..];
  }

  lemma ShowIsColonFree(n: nat)
    ensures ColonFree(Decimal.Show(n))
  {
  }

  /** Seen by one recipient, an identifier with a colon-free group id names one group, epoch and sender. */
  lemma DeliveryIdNamesOneCommit(g: GroupId, e: nat, s: Name, g': GroupId, e': nat, s': Name, recipient: Name)
    requires ColonFree(g) && ColonFree(g')
    ensures DeliveryId(g, e, s, recipient) == DeliveryId(g', e', s', recipient) <==> g == g' && e == e' && s == s'
  {
    if DeliveryId(g, e, s, recipient) == DeliveryId(g', e', s', recipient) {
      var tail, tail' := s + ":" + recipient, s' + ":" + recipient;
      var rest, rest' := Decimal.Show(e) + ":" + tail, Decimal.Show(e') + ":" + tail';
      assert DeliveryId(g, e, s, recipient) == g + ":" + rest;
      assert DeliveryId(g', e', s', recipient) == g' + ":" + rest';
      FirstColonSplits(g, rest, g', rest');
      ShowIsColonFree(e);
      ShowIsColonFree(e');
      FirstColonSplits(Decimal.Show(e), tail, Decimal.Show(e'), tail');
      Decimal.ShowInjective(e, e');
      assert s == tail[..|tail| - |recipient| - 1] && s' == tail'[..|tail'| - |recipient| - 1];
    }
  }

  /** With a colon in a group id, one identifier can name commits of two groups. */
  lemma DeliveryIdCollision()
    ensures DeliveryId("g", 1, "2:x", "r") == DeliveryId("g:1", 2, "x", "r")
  {
    assert Decimal.Show(1) == "1" && Decimal.Show(2) == "2";
  }

  function DeliveryOf(groupId: GroupId, commit: LogCommit, recipient: Name): Delivery {
    Delivery(DeliveryId(groupId, commit.epoch, commit.sender, recipient), groupId, commit.epoch, commit.sender,
             commit.commit)
  }

  // ---- the group log and its cursors

  type Log = map<GroupId, seq<LogCommit>>

  type Cursors = map<(Name, GroupId), nat>

  function CursorOf(cursors: Cursors, recipient: Name, groupId: GroupId): nat {
    if (recipient, groupId) in cursors then cursors[(recipient, groupId)] else 0
  }

  predicate Eligible(commit: LogCommit, recipient: Name, after: nat) {
    commit.epoch > after && recipient in commit.recipients
  }

  /** Entry `i` of a group's log is still to be delivered to the recipient. */
  predicate Unacked(log: Log, cursors: Cursors, recipient: Name, groupId: GroupId, i: int) {
    && groupId in log && 0 <= i < |log[groupId]|
    && Eligible(log[groupId][i], recipient, CursorOf(cursors, recipient, groupId))
  }

  ghost predicate Ascending(commits: seq<LogCommit>) {
    forall i, j | 0 <= i < j < |commits| :: commits[i].epoch < commits[j].epoch
  }

  ghost predicate LogAscending(log: Log) {
    forall g | g in log :: Ascending(log[g])
  }

  /** The entry an acknowledgement of `id` by `recipient` refers to. */
  predicate Names(log: Log, recipient: Name, id: string, groupId: GroupId, i: int) {
    && groupId in log && 0 <= i < |log[groupId]|
    && recipient in log[groupId][i].recipients
    && DeliveryId(groupId, log[groupId][i].epoch, log[groupId][i].sender, recipient) == id
  }

  /** With colon-free group ids and one commit per epoch an acknowledgement refers to one log entry. */
  lemma AckNamesOneEntry(log: Log, recipient: Name, id: string, g: GroupId, i: int, g': GroupId, i': int)
    requires LogAscending(log)
    requires Names(log, recipient, id, g, i) && Names(log, recipient, id, g', i')
    requires ColonFree(g) && ColonFree(g')
    ensures g == g' && i == i'
  {
    var c, c' := log[g][i], log[g'][i'];
    DeliveryIdNamesOneCommit(g, c.epoch, c.sender, g', c'.epoch, c'.sender, recipient);
  }

  // ---- the per-recipient inboxes

  type Inboxes = map<Name, seq<Delivery>>

  function PushInbox(inboxes: Inboxes, recipient: Name, delivery: Delivery): Inboxes {
    inboxes[recipient := QueueAt(inboxes, recipient) + [delivery]]
  }

  /** One delivery per listed recipient, in list order; a name listed twice receives two. */
  function PushInboxes(inboxes: Inboxes, groupId: GroupId, commit: LogCommit, recipients: seq<Name>): Inboxes {
    if recipients == [] then inboxes
    else
      var last := recipients[|recipients| - 1];
      PushInbox(PushInboxes(inboxes, groupId, commit, recipients[..|recipients| - 1]), last,
                DeliveryOf(groupId, commit, last))
  }

  /** VecDeque::retain keeping everything but the deliveries with this id. */
  function Retain(queue: seq<Delivery>, id: string): seq<Delivery> {
    if queue == [] then []
    else if queue[0].id == id then Retain(queue[1..], id)
    else [queue[0]] + Retain(queue[1..], id)
  }

  ghost predicate Holds(queue: seq<Delivery>, id: string) {
    exists i :: 0 <= i < |queue| && queue[i].id == id
  }

  /** The queue gets shorter exactly when it held a delivery with the id. */
  lemma {:induction false} RetainShortens(queue: seq<Delivery>, id: string)
    ensures |Retain(queue, id)| <= |queue|
    ensures |Retain(queue, id)| < |queue| <==> Holds(queue, id)
    decreases |queue|
  {
    if queue != [] {
      RetainShortens(queue[1..], id);
      if i :| 0 <= i < |queue| && queue[i].id == id && i > 0 {
        assert queue[1..][i - 1].id == id;
      }
    }
  }

  function AckCursor(cursors: Cursors, recipient: Name, groupId: GroupId, epoch: nat): Cursors {
    var cursor := CursorOf(cursors, recipient, groupId);
    cursors[(recipient, groupId) := if epoch > cursor then epoch else cursor]
  }

  function AckInbox(inboxes: Inboxes, recipient: Name, id: string): Inboxes {
    if recipient in inboxes then inboxes[recipient := Retain(inboxes[recipient], id)] else inboxes
  }

  function Head(inboxes: Inboxes, recipient: Name): Option<Delivery> {
    var queue := QueueAt(inboxes, recipient);
    if queue == [] then None else Some(queue[0])
  }

  /**
   What a fetch may answer: the head of the inbox; or an unacked log entry, and with ascending logs one of least epoch.
   There is no answer exactly when there is none to give.
   */
  ghost predicate Offers(mode: Mode, log: Log, cursors: Cursors, inboxes: Inboxes, r: Name, delivery: Option<Delivery>) {
    if mode.PerRecipient? then delivery == Head(inboxes, r)
    else
      && (delivery.None? <==> forall g, i | Unacked(log, cursors, r, g, i) :: false)
      && (delivery.Some? ==>
            exists g, i :: Unacked(log, cursors, r, g, i)
                           && delivery.value.groupId == g && delivery.value.epoch == log[g][i].epoch
                           && delivery.value.sender == log[g][i].sender && delivery.value.commit == log[g][i].commit
                           && delivery.value.id == DeliveryId(g, log[g][i].epoch, log[g][i].sender, r))
      && (delivery.Some? && LogAscending(log) ==>
            forall g, i | Unacked(log, cursors, r, g, i) :: delivery.value.epoch <= log[g][i].epoch)
  }

  /** Acknowledgements never move a cursor back, and touch the cursor of one recipient and group only. */
  lemma CursorsNeverDecrease(cursors: Cursors, recipient: Name, groupId: GroupId, epoch: nat, r: Name, g: GroupId)
    ensures CursorOf(AckCursor(cursors, recipient, groupId, epoch), r, g) >= CursorOf(cursors, r, g)
    ensures (r, g) != (recipient, groupId) ==>
              CursorOf(AckCursor(cursors, recipient, groupId, epoch), r, g) == CursorOf(cursors, r, g)
  {
  }

  /** A publish retires nothing: what was unacked stays unacked, in every group. */
  lemma PublishKeepsUnacked(log: Log, cursors: Cursors, published: GroupId, entry: LogCommit, r: Name, g: GroupId, i: int)
    requires Unacked(log, cursors, r, g, i)
    ensures Unacked(log[published := QueueAt(log, published) + [entry]], cursors, r, g, i)
    ensures log[published := QueueAt(log, published) + [entry]][g][i] == log[g][i]
  {
  }

  /** Acknowledging entry `k` retires it and the entries before it in its log, for that recipient, and no others. */
  lemma AckRetires(log: Log, cursors: Cursors, recipient: Name, g: GroupId, k: int, r: Name, g': GroupId, i: int)
    requires LogAscending(log)
    requires g in log && 0 <= k < |log[g]|
    ensures Unacked(log, AckCursor(cursors, recipient, g, log[g][k].epoch), r, g', i)
         <==> Unacked(log, cursors, r, g', i) && !(r == recipient && g' == g && i <= k)
  {
  }

  // ---- what every request keeps

  function EpochAt(groups: map<GroupId, GroupState>, g: GroupId): nat {
    if g in groups then groups[g].epoch else 0
  }

  /** Log entries ascend up to the epoch of their group, and no cursor is ahead of it. */
  ghost predicate InStep(groups: map<GroupId, GroupState>, log: Log, cursors: Cursors) {
    && LogAscending(log)
    && (forall g, i | g in log && 0 <= i < |log[g]| :: log[g][i].epoch <= EpochAt(groups, g))
    && (forall r, g :: CursorOf(cursors, r, g) <= EpochAt(groups, g))
  }

  /** The epoch of a group that is known never goes back. */
  lemma EpochsNeverDecrease(groups: map<GroupId, GroupState>, groupId: GroupId, state: GroupState, epoch: nat,
                            members: seq<Name>)
    requires PutState(Lookup(groups, groupId), epoch, members) == Ok(state)
             || (AcceptCommit(Lookup(groups, groupId), epoch).Ok?
                 && AcceptCommit(Lookup(groups, groupId), epoch).value.0 == state)
    ensures forall g :: EpochAt(groups, g) <= EpochAt(groups[groupId := state], g)
  {
  }

  lemma GroupsInStep(groups: map<GroupId, GroupState>, later: map<GroupId, GroupState>, log: Log, cursors: Cursors)
    requires InStep(groups, log, cursors) && forall g :: EpochAt(groups, g) <= EpochAt(later, g)
    ensures InStep(later, log, cursors)
  {
    hide CursorOf, EpochAt;
    forall g, i | g in log && 0 <= i < |log[g]| ensures log[g][i].epoch <= EpochAt(later, g) {
      assert log[g][i].epoch <= EpochAt(groups, g) <= EpochAt(later, g);
    }
    forall r, g ensures CursorOf(cursors, r, g) <= EpochAt(later, g) {
      assert CursorOf(cursors, r, g) <= EpochAt(groups, g) <= EpochAt(later, g);
    }
  }

  lemma LogInStep(groups: map<GroupId, GroupState>, state: GroupState, log: Log, cursors: Cursors, groupId: GroupId,
                  entry: LogCommit)
    requires InStep(groups, log, cursors) && EpochAt(groups, groupId) < entry.epoch == state.epoch
    ensures InStep(groups[groupId := state], log[groupId := QueueAt(log, groupId) + [entry]], cursors)
  {
    var groups', log' := groups[groupId := state], log[groupId := QueueAt(log, groupId) + [entry]];
    assert forall g :: EpochAt(groups, g) <= EpochAt(groups', g);
    GroupsInStep(groups, groups', log, cursors);
    assert forall i | 0 <= i < |QueueAt(log, groupId)| :: QueueAt(log, groupId)[i].epoch < entry.epoch;
    assert Ascending(QueueAt(log, groupId) + [entry]);
  }

  lemma AckInStep(groups: map<GroupId, GroupState>, log: Log, cursors: Cursors, recipient: Name, g: GroupId, i: nat)
    requires InStep(groups, log, cursors) && g in log && i < |log[g]|
    ensures InStep(groups, log, AckCursor(cursors, recipient, g, log[g][i].epoch))
  {
    var cursors' := AckCursor(cursors, recipient, g, log[g][i].epoch);
    assert log[g][i].epoch <= EpochAt(groups, g);
    forall r, h ensures CursorOf(cursors', r, h) <= EpochAt(groups, h) {
      assert CursorOf(cursors, r, h) <= EpochAt(groups, h);
    }
  }
}
