/** The service object in its two modes, driven by the same operations, offers the same deliveries. */
module ServiceModes {
  import opened Wrappers
  import opened Mls
  import opened DeliverySpec
  import opened DeliveryService
  import opened DeliveryModes
  import opened Multiples

  /** What the object keeps for the one group it serves. */
  ghost function LogSideOf(s: Service, g: GroupId): LogSide
    reads s
  {
    LogSide(Lookup(s.groups, g), QueueAt(s.log, g), s.cursors)
  }

  ghost function InboxSideOf(s: Service, g: GroupId): InboxSide
    reads s
  {
    InboxSide(Lookup(s.groups, g), s.inboxes)
  }

  ghost predicate Serves(s: Service, g: GroupId)
    reads s
  {
    s.log.Keys <= {g} && Ascending(QueueAt(s.log, g))
  }

  lemma {:induction false} NoneEligible(log: seq<LogCommit>, r: Name, after: nat)
    ensures FirstEligible(log, r, after).None? <==> forall i | 0 <= i < |log| :: !Eligible(log[i], r, after)
    decreases |log|
  {
    if log != [] {
      NoneEligible(log[1..], r, after);
      assert log == [log[0]] + log[1..];
    }
  }

  /** With one group, the entry of least epoch among the unacked ones is the first eligible entry of its log. */
  lemma LeastIsFirst(log: Log, cursors: Cursors, g: GroupId, group: Option<GroupState>, r: Name,
                     delivery: Option<Delivery>)
    requires log.Keys <= {g} && Ascending(QueueAt(log, g))
    requires delivery.None? <==> forall h, i | Unacked(log, cursors, r, h, i) :: false
    requires delivery.Some? ==>
               exists h, i :: Unacked(log, cursors, r, h, i) && delivery.value == DeliveryOf(h, log[h][i], r)
    requires delivery.Some? ==>
               forall h, i | Unacked(log, cursors, r, h, i) :: delivery.value.epoch <= log[h][i].epoch
    ensures delivery == OfferedByLog(g, LogSide(group, QueueAt(log, g), cursors), r)
  {
    hide FirstEligible, DeliveryId;
    var entries, after := QueueAt(log, g), CursorOf(cursors, r, g);
    NoneEligible(entries, r, after);
    assert forall i | 0 <= i < |entries| && Eligible(entries[i], r, after) :: Unacked(log, cursors, r, g, i);
    if delivery.Some? {
      var h, i :| Unacked(log, cursors, r, h, i) && delivery.value == DeliveryOf(h, log[h][i], r);
      assert h == g && entries[i] in entries && Eligible(entries[i], r, after);
      FirstEligibleIsLeast(entries, r, after);
      var first := FirstEligible(entries, r, after).value;
      var j :| 0 <= j < |entries| && entries[j] == first;
      assert Unacked(log, cursors, r, g, j);
    }
  }

  method Fetch(s: Service, g: GroupId, r: Name) returns (delivery: Option<Delivery>)
    requires Serves(s, g)
    ensures s.mode.GroupLog? ==> delivery == OfferedByLog(g, LogSideOf(s, g), r)
    ensures s.mode.PerRecipient? ==> delivery == OfferedByInbox(InboxSideOf(s, g), r)
  {
    hide FirstEligible, DeliveryId;
    delivery := s.FetchNextPendingCommit(r);
    if s.mode.GroupLog? {
      assert LogAscending(s.log);
      LeastIsFirst(s.log, s.cursors, g, Lookup(s.groups, g), r, delivery);
    }
  }

  /** Acknowledging what is offered moves the cursor of this group to that entry. */
  lemma AckOfOffered(log: Log, cursors: Cursors, g: GroupId, group: Option<GroupState>, r: Name)
    requires log.Keys <= {g} && OfferedByLog(g, LogSide(group, QueueAt(log, g), cursors), r).Some?
    ensures var offered := OfferedByLog(g, LogSide(group, QueueAt(log, g), cursors), r).value;
            && (exists h, i :: Names(log, r, offered.id, h, i))
            && forall h, i | Names(log, r, offered.id, h, i) :: h == g && log[h][i].epoch == offered.epoch
  {
    hide DeliveryId;
    var entries, after := QueueAt(log, g), CursorOf(cursors, r, g);
    var offered := OfferedByLog(g, LogSide(group, entries, cursors), r).value;
    var k := FirstEligibleAt(entries, r, after);
    assert Names(log, r, offered.id, g, k);
    forall h, i | Names(log, r, offered.id, h, i) ensures h == g && log[h][i].epoch == offered.epoch {
      IdDeterminesEpoch(g, log[h][i].epoch, log[h][i].sender, offered.epoch, offered.sender, r);
    }
  }

  lemma {:induction false} FirstEligibleAt(log: seq<LogCommit>, r: Name, after: nat) returns (k: nat)
    requires FirstEligible(log, r, after).Some?
    ensures k < |log| && log[k] == FirstEligible(log, r, after).value && Eligible(log[k], r, after)
    decreases |log|
  {
    if Eligible(log[0], r, after) {
      k := 0;
    } else {
      var j := FirstEligibleAt(log[1..], r, after);
      k := j + 1;
    }
  }

  method AckOffer(s: Service, g: GroupId, r: Name)
    requires Serves(s, g)
    modifies s
    ensures s.groups == old(s.groups) && s.log == old(s.log)
    ensures s.mode.GroupLog? ==> LogSideOf(s, g) == LogStep(g, old(LogSideOf(s, g)), AckOffered(r))
    ensures s.mode.PerRecipient? ==> InboxSideOf(s, g) == InboxStep(g, old(InboxSideOf(s, g)), AckOffered(r))
  {
    hide FirstEligible, DeliveryId, Retain;
    var offered := Fetch(s, g, r);
    if offered.Some? {
      if s.mode.GroupLog? {
        AckOfOffered(s.log, s.cursors, g, Lookup(s.groups, g), r);
      }
      var acked := s.AckCommit(r, offered.value.id);
    }
  }

  /** One operation on the object is one step of its mode. */
  method Perform(s: Service, g: GroupId, op: Operation)
    requires Serves(s, g)
    modifies s
    ensures s.log.Keys <= {g}
    ensures s.mode.PerRecipient? ==> s.log == old(s.log)
    ensures s.mode.GroupLog? ==> LogSideOf(s, g) == LogStep(g, old(LogSideOf(s, g)), op)
    ensures s.mode.PerRecipient? ==> InboxSideOf(s, g) == InboxStep(g, old(InboxSideOf(s, g)), op)
  {
    match op {
      case Put(epoch, members) =>
        var put := s.PutGroupState(g, epoch, members);
      case Publish(sender, epoch, commit) =>
        var published := s.PublishGroupCommit(g, sender, epoch, commit);
      case AckOffered(r) =>
        AckOffer(s, g, r);
    }
  }

  lemma LogRunStep(g: GroupId, side: LogSide, ops: seq<Operation>, k: nat)
    requires k < |ops|
    ensures LogRun(g, side, ops[k..]) == LogRun(g, LogStep(g, side, ops[k]), ops[k + 1..])
  {
    hide LogStep;
    assert ops[k..][1..] == ops[k + 1..];
  }

  lemma InboxRunStep(g: GroupId, side: InboxSide, ops: seq<Operation>, k: nat)
    requires k < |ops|
    ensures InboxRun(g, side, ops[k..]) == InboxRun(g, InboxStep(g, side, ops[k]), ops[k + 1..])
  {
    hide InboxStep;
    assert ops[k..][1..] == ops[k + 1..];
  }

  /** The operations on an object lead to the end of the run of its mode, and the fetch that follows to its offer. */
  method OfferAfter(s: Service, g: GroupId, ops: seq<Operation>, r: Name) returns (delivery: Option<Delivery>)
    requires s.log.Keys <= {g} && Orderly(LogSideOf(s, g)) && (s.mode.PerRecipient? ==> s.log == map[])
    modifies s
    ensures s.mode.GroupLog? ==>
              && LogSideOf(s, g) == LogRun(g, old(LogSideOf(s, g)), ops)
              && delivery == OfferedByLog(g, LogRun(g, old(LogSideOf(s, g)), ops), r)
    ensures s.mode.PerRecipient? ==>
              && InboxSideOf(s, g) == InboxRun(g, old(InboxSideOf(s, g)), ops)
              && delivery == OfferedByInbox(InboxRun(g, old(InboxSideOf(s, g)), ops), r)
  {
    hide FirstEligible, DeliveryId, LogStep, InboxStep, OfferedByLog, OfferedByInbox, LogRun, InboxRun;
    ghost var l0, i0 := LogSideOf(s, g), InboxSideOf(s, g);
    assert ops[0..] == ops;
    for k := 0 to |ops|
      invariant s.log.Keys <= {g} && (s.mode.PerRecipient? ==> s.log == map[])
      invariant s.mode.GroupLog? ==> Orderly(LogSideOf(s, g))
      invariant s.mode.GroupLog? ==> LogRun(g, LogSideOf(s, g), ops[k..]) == LogRun(g, l0, ops)
      invariant s.mode.PerRecipient? ==> InboxRun(g, InboxSideOf(s, g), ops[k..]) == InboxRun(g, i0, ops)
    {
      ghost var l, i := LogSideOf(s, g), InboxSideOf(s, g);
      LogRunStep(g, l, ops, k);
      InboxRunStep(g, i, ops, k);
      Perform(s, g, ops[k]);
      if s.mode.GroupLog? {
        LogStepOrderly(g, l, ops[k]);
      }
    }
    assert ops[|ops|..] == [];
    RunOfNothing(g, LogSideOf(s, g), InboxSideOf(s, g));
    delivery := Fetch(s, g, r);
  }

  lemma RunOfNothing(g: GroupId, l: LogSide, i: InboxSide)
    ensures LogRun(g, l, []) == l && InboxRun(g, i, []) == i
  {
  }

  /** Two new services in different modes, after the same operations on one group, offer everyone the same delivery. */
  method BothOffer(a: Service, b: Service, g: GroupId, ops: seq<Operation>, r: Name)
    returns (x: Option<Delivery>, y: Option<Delivery>)
    requires a != b && a.mode.GroupLog? && b.mode.PerRecipient?
    requires a.groups == map[] && a.log == map[] && a.cursors == map[]
    requires b.groups == map[] && b.log == map[] && b.inboxes == map[]
    modifies a, b
    ensures x == OfferedByLog(g, LogSideOf(a, g), r) && LogSideOf(a, g) == LogRun(g, LogSide(None, [], map[]), ops)
    ensures y == OfferedByInbox(InboxSideOf(b, g), r) && InboxSideOf(b, g) == InboxRun(g, InboxSide(None, map[]), ops)
    ensures x == y
  {
    hide FirstEligible, DeliveryId, LogStep, InboxStep, OfferedByLog, OfferedByInbox, LogRun, InboxRun;
    x := OfferAfter(a, g, ops, r);
    y := OfferAfter(b, g, ops, r);
    ModesOfferTheSame(g, ops, r);
  }

  /** A delivery that is offered is offered again after any operations but its recipient's acknowledgements. */
  lemma {:induction false} OfferedAgain(g: GroupId, l: LogSide, i: InboxSide, ops: seq<Operation>, r: Name)
    requires AckOffered(r) !in ops
    ensures OfferedByLog(g, l, r).Some? ==> OfferedByLog(g, LogRun(g, l, ops), r) == OfferedByLog(g, l, r)
    ensures OfferedByInbox(i, r).Some? ==> OfferedByInbox(InboxRun(g, i, ops), r) == OfferedByInbox(i, r)
    decreases |ops|
  {
    hide FirstEligible, DeliveryId, LogStep, InboxStep, OfferedByLog, OfferedByInbox;
    if ops != [] {
      assert ops[0] in ops && forall op | op in ops[1..] :: op in ops;
      OfferedAgain(g, LogStep(g, l, ops[0]), InboxStep(g, i, ops[0]), ops[1..], r);
      if OfferedByLog(g, l, r).Some? {
        LogOfferStays(g, l, ops[0], r);
      }
      if OfferedByInbox(i, r).Some? {
        InboxOfferStays(g, i, ops[0], r);
      }
    }
  }

  // ---- what is published is what is offered, with any number of groups

  ghost predicate NothingPending(mode: Mode, log: Log, cursors: Cursors, inboxes: Inboxes, r: Name) {
    if mode.PerRecipient? then QueueAt(inboxes, r) == []
    else forall g, i :: !Unacked(log, cursors, r, g, i)
  }

  /** After a publish, the only unacked entry of a recipient who had none is the new one. */
  lemma OnlyTheNewEntry(groups: map<GroupId, GroupState>, log: Log, cursors: Cursors, g: GroupId, entry: LogCommit, r: Name,
                        h: GroupId, i: int)
    requires InStep(groups, log, cursors) && entry.epoch > EpochAt(groups, g)
    requires forall h, i :: !Unacked(log, cursors, r, h, i)
    ensures Unacked(log[g := QueueAt(log, g) + [entry]], cursors, r, h, i)
       <==> r in entry.recipients && h == g && i == |QueueAt(log, g)|
  {
    hide EpochAt, LogAscending;
    assert CursorOf(cursors, r, g) <= EpochAt(groups, g);
    assert !Unacked(log, cursors, r, h, i);
  }

  /** The delivery is of this commit by this sender, for this epoch of this group. */
  predicate IsOf(delivery: Delivery, g: GroupId, epoch: nat, sender: Name, commit: Commit) {
    delivery.groupId == g && delivery.epoch == epoch && delivery.sender == sender && delivery.commit == commit
  }

  /**
   After an accepted publish, in either mode, each stored member without a pending delivery is offered this commit of
   this sender in this group, at the next epoch, and nobody else without a pending delivery is offered anything.
   */
  lemma PublishedIsOffered(mode: Mode, groups: map<GroupId, GroupState>, log: Log, cursors: Cursors, inboxes: Inboxes,
                           g: GroupId, sender: Name, epoch: nat, commit: Commit, r: Name, delivery: Option<Delivery>)
    requires InStep(groups, log, cursors) && NothingPending(mode, log, cursors, inboxes, r)
    requires g in groups && groups[g].epoch == epoch
    requires var entry := LogCommit(epoch + 1, sender, groups[g].members, commit);
             if mode.GroupLog? then Offers(mode, log[g := QueueAt(log, g) + [entry]], cursors, inboxes, r, delivery)
             else Offers(mode, log, cursors, PushInboxes(inboxes, g, entry, entry.recipients), r, delivery)
    ensures delivery.Some? <==> r in groups[g].members
    ensures delivery.Some? ==> IsOf(delivery.value, g, epoch + 1, sender, commit)
  {
    hide DeliveryId, PushInboxes;
    var entry := LogCommit(epoch + 1, sender, groups[g].members, commit);
    if mode.PerRecipient? {
      PublishedInbox(inboxes, g, entry, r);
    } else {
      var longer := log[g := QueueAt(log, g) + [entry]];
      forall h, i ensures Unacked(longer, cursors, r, h, i) <==> r in entry.recipients && h == g && i == |QueueAt(log, g)| {
        OnlyTheNewEntry(groups, log, cursors, g, entry, r, h, i);
      }
      assert longer[g][|QueueAt(log, g)|] == entry;
      assert Unacked(longer, cursors, r, g, |QueueAt(log, g)|) <==> r in entry.recipients;
    }
  }

  lemma PublishedInbox(inboxes: Inboxes, g: GroupId, entry: LogCommit, r: Name)
    requires QueueAt(inboxes, r) == []
    ensures var head := Head(PushInboxes(inboxes, g, entry, entry.recipients), r);
            && (head.Some? <==> r in entry.recipients)
            && (head.Some? ==> IsOf(head.value, g, entry.epoch, entry.sender, entry.commit))
  {
    hide DeliveryId, PushInboxes, Count;
    PushedQueue(inboxes, g, entry, entry.recipients, r);
    CountPositive(entry.recipients, r);
    var n := Count(entry.recipients, r);
    if n > 0 {
      CopiesHead(n, DeliveryOf(g, entry, r));
    }
  }
}
