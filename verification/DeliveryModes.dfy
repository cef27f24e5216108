/**
 Per-recipient inboxes against the group log with cursors, for one group whose publishes are atomic: after
 any sequence of puts, publishes and acknowledgements of offered deliveries, both modes offer every recipient
 the same delivery. A name that is listed twice receives two equal deliveries in its inbox, and one
 acknowledgement removes both.
 */
module DeliveryModes {
  import opened Wrappers
  import opened Mls
  import opened DeliverySpec
  import opened Multiples
  import Decimal

  datatype LogSide = LogSide(group: Option<GroupState>, log: seq<LogCommit>, cursors: Cursors)

  datatype InboxSide = InboxSide(group: Option<GroupState>, inboxes: Inboxes)

  datatype Operation =
    | Put(epoch: nat, members: seq<Name>)
    | Publish(sender: Name, epoch: nat, commit: Commit)
    | AckOffered(recipient: Name)

  function FirstEligible(log: seq<LogCommit>, recipient: Name, after: nat): Option<LogCommit> {
    if log == [] then None
    else if Eligible(log[0], recipient, after) then Some(log[0])
    else FirstEligible(log[1..], recipient, after)
  }

  function OfferedByLog(g: GroupId, side: LogSide, recipient: Name): Option<Delivery> {
    var first :- FirstEligible(side.log, recipient, CursorOf(side.cursors, recipient, g));
    Some(DeliveryOf(g, first, recipient))
  }

  function OfferedByInbox(side: InboxSide, recipient: Name): Option<Delivery> {
    Head(side.inboxes, recipient)
  }

  function LogStep(g: GroupId, side: LogSide, op: Operation): LogSide {
    match op
    case Put(epoch, members) =>
      var put := PutState(side.group, epoch, members);
      if put.Ok? then side.(group := Some(put.value)) else side
    case Publish(sender, epoch, commit) =>
      var accepted := AcceptCommit(side.group, epoch);
      if accepted.Err? then side
      else
        var (state, recipients) := accepted.value;
        side.(group := Some(state), log := side.log + [LogCommit(epoch + 1, sender, recipients, commit)])
    case AckOffered(recipient) =>
      var offered := OfferedByLog(g, side, recipient);
      if offered.None? then side
      else side.(cursors := AckCursor(side.cursors, recipient, g, offered.value.epoch))
  }

  function InboxStep(g: GroupId, side: InboxSide, op: Operation): InboxSide {
    match op
    case Put(epoch, members) =>
      var put := PutState(side.group, epoch, members);
      if put.Ok? then side.(group := Some(put.value)) else side
    case Publish(sender, epoch, commit) =>
      var accepted := AcceptCommit(side.group, epoch);
      if accepted.Err? then side
      else
        var (state, recipients) := accepted.value;
        var entry := LogCommit(epoch + 1, sender, recipients, commit);
        InboxSide(Some(state), PushInboxes(side.inboxes, g, entry, recipients))
    case AckOffered(recipient) =>
      var offered := OfferedByInbox(side, recipient);
      if offered.None? then side
      else side.(inboxes := AckInbox(side.inboxes, recipient, offered.value.id))
  }

  function LogRun(g: GroupId, side: LogSide, ops: seq<Operation>): LogSide
    decreases |ops|
  {
    if ops == [] then side else LogRun(g, LogStep(g, side, ops[0]), ops[1..])
  }

  function InboxRun(g: GroupId, side: InboxSide, ops: seq<Operation>): InboxSide
    decreases |ops|
  {
    if ops == [] then side else InboxRun(g, InboxStep(g, side, ops[0]), ops[1..])
  }

  // ---- what an inbox must hold, given the log and the cursor

  function Due(g: GroupId, log: seq<LogCommit>, recipient: Name, after: nat): seq<Delivery> {
    if log == [] then []
    else
      var last := log[|log| - 1];
      var before := Due(g, log[..|log| - 1], recipient, after);
      if Eligible(last, recipient, after) then
        before + Copies(Count(last.recipients, recipient), DeliveryOf(g, last, recipient))
      else before
  }

  lemma {:induction false} FirstEligibleSnoc(log: seq<LogCommit>, last: LogCommit, recipient: Name, after: nat)
    ensures FirstEligible(log + [last], recipient, after) ==
            if FirstEligible(log, recipient, after).Some? then FirstEligible(log, recipient, after)
            else if Eligible(last, recipient, after) then Some(last) else None
    decreases |log|
  {
    if log == [] {
      assert log + [last] == [last];
    } else {
      FirstEligibleSnoc(log[1..], last, recipient, after);
      assert (log + [last])[1..] == log[1..] + [last];
    }
  }

  /** The front of what is due is the first unacked log entry. */
  lemma {:induction false} DueHead(g: GroupId, log: seq<LogCommit>, recipient: Name, after: nat)
    ensures var due, first := Due(g, log, recipient, after), FirstEligible(log, recipient, after);
            if first.None? then due == [] else due != [] && due[0] == DeliveryOf(g, first.value, recipient)
    decreases |log|
  {
    if log != [] {
      var last, rest := log[|log| - 1], log[..|log| - 1];
      assert log == rest + [last];
      DueHead(g, rest, recipient, after);
      FirstEligibleSnoc(rest, last, recipient, after);
      CountPositive(last.recipients, recipient);
      if Eligible(last, recipient, after) {
        CopiesHead(Count(last.recipients, recipient), DeliveryOf(g, last, recipient));
      }
    }
  }

  // ---- publishing

  lemma PushInboxesSnoc(inboxes: Inboxes, g: GroupId, entry: LogCommit, names: seq<Name>)
    requires names != []
    ensures var last := names[|names| - 1];
            PushInboxes(inboxes, g, entry, names) ==
            PushInbox(PushInboxes(inboxes, g, entry, names[..|names| - 1]), last, DeliveryOf(g, entry, last))
  {
  }

  lemma {:induction false} PushedQueue(inboxes: Inboxes, g: GroupId, entry: LogCommit, names: seq<Name>, r: Name)
    ensures QueueAt(PushInboxes(inboxes, g, entry, names), r)
         == QueueAt(inboxes, r) + Copies(Count(names, r), DeliveryOf(g, entry, r))
    decreases |names|
  {
    if names != [] {
      var rest, last := names[..|names| - 1], names[|names| - 1];
      PushedQueue(inboxes, g, entry, rest, r);
      var before, copies := PushInboxes(inboxes, g, entry, rest), Copies(Count(rest, r), DeliveryOf(g, entry, r));
      hide PushInboxes, Count, Copies, DeliveryOf;
      PushInboxesSnoc(inboxes, g, entry, names);
      CopiesSnoc(names, r, DeliveryOf(g, entry, r));
      if last == r {
        assert QueueAt(inboxes, r) + (copies + [DeliveryOf(g, entry, r)])
            == QueueAt(before, r) + [DeliveryOf(g, entry, r)];
      }
    }
  }

  lemma DueSnoc(g: GroupId, log: seq<LogCommit>, entry: LogCommit, r: Name, after: nat)
    requires entry.epoch > after
    ensures Due(g, log + [entry], r, after)
         == Due(g, log, r, after) + Copies(Count(entry.recipients, r), DeliveryOf(g, entry, r))
  {
    assert (log + [entry])[..|log|] == log;
    CountPositive(entry.recipients, r);
  }

  // ---- acknowledging

  lemma {:induction false} RetainAppend(a: seq<Delivery>, b: seq<Delivery>, id: string)
    ensures Retain(a + b, id) == Retain(a, id) + Retain(b, id)
    decreases |a|
  {
    if a == [] {
      assert a + b == b;
    } else {
      RetainAppend(a[1..], b, id);
      assert (a + b)[1..] == a[1..] + b;
    }
  }

  lemma {:induction false} RetainCopies(n: nat, delivery: Delivery, id: string)
    ensures Retain(Copies(n, delivery), id) == if delivery.id == id then [] else Copies(n, delivery)
    decreases n
  {
    if n > 0 {
      RetainCopies(n - 1, delivery, id);
      RetainAppend(Copies(n - 1, delivery), [delivery], id);
    }
  }

  /** Within one group and for one recipient, different epochs have different identifiers. */
  lemma IdDeterminesEpoch(g: GroupId, e: nat, s: Name, e': nat, s': Name, r: Name)
    requires DeliveryId(g, e, s, r) == DeliveryId(g, e', s', r)
    ensures e == e'
  {
    var tail, tail' := s + ":" + r, s' + ":" + r;
    var rest, rest' := Decimal.Show(e) + ":" + tail, Decimal.Show(e') + ":" + tail';
    assert DeliveryId(g, e, s, r) == (g + ":") + rest;
    assert DeliveryId(g, e', s', r) == (g + ":") + rest';
    assert rest == ((g + ":") + rest)[|g| + 1..] && rest' == ((g + ":") + rest')[|g| + 1..];
    ShowIsColonFree(e);
    ShowIsColonFree(e');
    FirstColonSplits(Decimal.Show(e), tail, Decimal.Show(e'), tail');
    Decimal.ShowInjective(e, e');
  }

  /** Dropping every delivery with the identifier of the first due entry moves the cursor to that entry. */
  lemma {:induction false} RetainDue(g: GroupId, log: seq<LogCommit>, r: Name, after: nat, first: LogCommit)
    requires first.epoch > after
    requires forall e | e in log && Eligible(e, r, after) :: e == first || e.epoch > first.epoch
    ensures Retain(Due(g, log, r, after), DeliveryOf(g, first, r).id) == Due(g, log, r, first.epoch)
    decreases |log|
  {
    if log != [] {
      var last, rest := log[|log| - 1], log[..|log| - 1];
      var id := DeliveryOf(g, first, r).id;
      assert last in log && forall e | e in rest :: e in log;
      RetainDue(g, rest, r, after, first);
      if Eligible(last, r, after) {
        var copies := Copies(Count(last.recipients, r), DeliveryOf(g, last, r));
        RetainAppend(Due(g, rest, r, after), copies, id);
        RetainCopies(Count(last.recipients, r), DeliveryOf(g, last, r), id);
        if last.epoch > first.epoch && DeliveryOf(g, last, r).id == id {
          IdDeterminesEpoch(g, last.epoch, last.sender, first.epoch, first.sender, r);
        }
      }
    }
  }

  lemma {:induction false} FirstEligibleIsLeast(log: seq<LogCommit>, r: Name, after: nat)
    requires Ascending(log) && FirstEligible(log, r, after).Some?
    ensures var first := FirstEligible(log, r, after).value;
            && first in log && Eligible(first, r, after)
            && forall e | e in log && Eligible(e, r, after) :: e == first || e.epoch > first.epoch
    decreases |log|
  {
    if !Eligible(log[0], r, after) {
      FirstEligibleIsLeast(log[1..], r, after);
    }
  }

  // ---- the two modes side by side

  ghost predicate Matches(g: GroupId, l: LogSide, b: InboxSide) {
    && l.group == b.group
    && Ascending(l.log)
    && (l.group.None? ==> l.log == [])
    && (forall e | e in l.log :: l.group.Some? && e.epoch <= l.group.value.epoch)
    && (forall r :: CursorOf(l.cursors, r, g) <= if l.group.Some? then l.group.value.epoch else 0)
    && (forall r :: QueueAt(b.inboxes, r) == Due(g, l.log, r, CursorOf(l.cursors, r, g)))
  }

  lemma MatchingOffers(g: GroupId, l: LogSide, b: InboxSide, r: Name)
    requires Matches(g, l, b)
    ensures OfferedByLog(g, l, r) == OfferedByInbox(b, r)
  {
    DueHead(g, l.log, r, CursorOf(l.cursors, r, g));
  }

  lemma PublishMatches(g: GroupId, l: LogSide, b: InboxSide, op: Operation)
    requires Matches(g, l, b) && op.Publish?
    ensures Matches(g, LogStep(g, l, op), InboxStep(g, b, op))
  {
    var accepted := AcceptCommit(l.group, op.epoch);
    if accepted.Ok? {
      var entry := LogCommit(op.epoch + 1, op.sender, accepted.value.1, op.commit);
      var l', b' := LogStep(g, l, op), InboxStep(g, b, op);
      forall r ensures QueueAt(b'.inboxes, r) == Due(g, l'.log, r, CursorOf(l'.cursors, r, g)) {
        PushedQueue(b.inboxes, g, entry, entry.recipients, r);
        DueSnoc(g, l.log, entry, r, CursorOf(l.cursors, r, g));
      }
    }
  }

  lemma AckMatches(g: GroupId, l: LogSide, b: InboxSide, op: Operation)
    requires Matches(g, l, b) && op.AckOffered?
    ensures Matches(g, LogStep(g, l, op), InboxStep(g, b, op))
  {
    var r := op.recipient;
    MatchingOffers(g, l, b, r);
    if OfferedByLog(g, l, r).Some? {
      var after := CursorOf(l.cursors, r, g);
      var first := FirstEligible(l.log, r, after).value;
      FirstEligibleIsLeast(l.log, r, after);
      RetainDue(g, l.log, r, after, first);
      var l', b' := LogStep(g, l, op), InboxStep(g, b, op);
      assert CursorOf(l'.cursors, r, g) == first.epoch;
      assert QueueAt(b'.inboxes, r) == Retain(Due(g, l.log, r, after), DeliveryOf(g, first, r).id);
      forall r' | r' != r
        ensures CursorOf(l'.cursors, r', g) == CursorOf(l.cursors, r', g)
        ensures QueueAt(b'.inboxes, r') == QueueAt(b.inboxes, r')
      {
        CursorsNeverDecrease(l.cursors, r, g, first.epoch, r', g);
      }
    }
  }

  lemma StepMatches(g: GroupId, l: LogSide, b: InboxSide, op: Operation)
    requires Matches(g, l, b)
    ensures Matches(g, LogStep(g, l, op), InboxStep(g, b, op))
  {
    match op {
      case Put(_, _) =>
      case Publish(_, _, _) => PublishMatches(g, l, b, op);
      case AckOffered(_) => AckMatches(g, l, b, op);
    }
  }

  lemma {:induction false} RunMatches(g: GroupId, l: LogSide, b: InboxSide, ops: seq<Operation>)
    requires Matches(g, l, b)
    ensures Matches(g, LogRun(g, l, ops), InboxRun(g, b, ops))
    decreases |ops|
  {
    hide Matches, LogStep, InboxStep;
    if ops != [] {
      StepMatches(g, l, b, ops[0]);
      RunMatches(g, LogStep(g, l, ops[0]), InboxStep(g, b, ops[0]), ops[1..]);
    }
  }

  /** After the same operations, both modes offer every recipient the same delivery. */
  lemma ModesOfferTheSame(g: GroupId, ops: seq<Operation>, recipient: Name)
    ensures OfferedByLog(g, LogRun(g, LogSide(None, [], map[]), ops), recipient)
         == OfferedByInbox(InboxRun(g, InboxSide(None, map[]), ops), recipient)
  {
    RunMatches(g, LogSide(None, [], map[]), InboxSide(None, map[]), ops);
    MatchingOffers(g, LogRun(g, LogSide(None, [], map[]), ops), InboxRun(g, InboxSide(None, map[]), ops), recipient);
  }

  // ---- a delivery is offered until it is acknowledged

  /** What is offered to a recipient stays offered whatever is done but that recipient's acknowledgement. */
  lemma LogOfferStays(g: GroupId, side: LogSide, op: Operation, r: Name)
    requires OfferedByLog(g, side, r).Some? && op != AckOffered(r)
    ensures OfferedByLog(g, LogStep(g, side, op), r) == OfferedByLog(g, side, r)
  {
    hide FirstEligible, DeliveryId;
    if op.Publish? && AcceptCommit(side.group, op.epoch).Ok? {
      var (_, recipients) := AcceptCommit(side.group, op.epoch).value;
      FirstEligibleSnoc(side.log, LogCommit(op.epoch + 1, op.sender, recipients, op.commit), r,
                        CursorOf(side.cursors, r, g));
    }
  }

  lemma InboxOfferStays(g: GroupId, side: InboxSide, op: Operation, r: Name)
    requires OfferedByInbox(side, r).Some? && op != AckOffered(r)
    ensures OfferedByInbox(InboxStep(g, side, op), r) == OfferedByInbox(side, r)
  {
    hide DeliveryId, PushInboxes, Retain, Copies, Count;
    if op.Publish? && AcceptCommit(side.group, op.epoch).Ok? {
      var (_, recipients) := AcceptCommit(side.group, op.epoch).value;
      PushedQueue(side.inboxes, g, LogCommit(op.epoch + 1, op.sender, recipients, op.commit), recipients, r);
    }
  }

  /** Log entries ascend and are not ahead of the group. */
  ghost predicate Orderly(side: LogSide) {
    && Ascending(side.log) && (side.group.None? ==> side.log == [])
    && forall i | 0 <= i < |side.log| :: side.group.Some? && side.log[i].epoch <= side.group.value.epoch
  }

  lemma LogStepOrderly(g: GroupId, side: LogSide, op: Operation)
    requires Orderly(side)
    ensures Orderly(LogStep(g, side, op))
  {
    hide FirstEligible, DeliveryId;
  }
}
