/** The message relay: one FIFO per recipient, filled by publishes and emptied by acknowledgements. */
module MessageRelay {
  import opened Wrappers
  import opened Mls
  import opened Multiples
  import Decimal
  import DeliverySpec

  type Bytes = seq<bv8>

  datatype Envelope = Envelope(id: string, groupId: string, sender: Name, message: Bytes)

  type Inboxes = map<Name, seq<Envelope>>

  datatype Relay = Relay(inboxes: Inboxes, nextId: nat)

  datatype Operation =
    | Publish(groupId: string, sender: Name, recipients: seq<Name>, message: Bytes)
    | Ack(recipient: Name, id: string)

  function MessageId(groupId: string, sender: Name, number: nat, recipient: Name): string {
    groupId + ":" + sender + ":" + Decimal.Show(number) + ":" + recipient
  }

  function EnvelopeFor(op: Operation, number: nat, recipient: Name): Envelope
    requires op.Publish?
  {
    Envelope(MessageId(op.groupId, op.sender, number, recipient), op.groupId, op.sender, op.message)
  }

  /** One envelope per listed recipient other than the sender, in list order. */
  function PushAll(inboxes: Inboxes, op: Operation, number: nat, recipients: seq<Name>): Inboxes
    requires op.Publish?
  {
    if recipients == [] then inboxes
    else
      var last := recipients[|recipients| - 1];
      var pushed := PushAll(inboxes, op, number, recipients[..|recipients| - 1]);
      if last == op.sender then pushed
      else pushed[last := QueueAt(pushed, last) + [EnvelopeFor(op, number, last)]]
  }

  function Without(queue: seq<Envelope>, id: string): seq<Envelope> {
    if queue == [] then []
    else if queue[0].id == id then Without(queue[1..], id)
    else [queue[0]] + Without(queue[1..], id)
  }

  function Step(relay: Relay, op: Operation): Relay {
    match op
    case Publish(_, _, recipients, _) =>
      if recipients == [] then relay
      else Relay(PushAll(relay.inboxes, op, relay.nextId, recipients), relay.nextId + 1)
    case Ack(recipient, id) =>
      if recipient in relay.inboxes
      then relay.(inboxes := relay.inboxes[recipient := Without(relay.inboxes[recipient], id)])
      else relay
  }

  function Run(ops: seq<Operation>): Relay {
    if ops == [] then Relay(map[], 1) else Step(Run(ops[..|ops| - 1]), ops[|ops| - 1])
  }

  // ---- what an inbox must hold, in terms of the whole history

  predicate Effective(op: Operation) {
    op.Publish? && op.recipients != []
  }

  /** The number given to publish `k` of the history. */
  function NumberAt(ops: seq<Operation>, k: nat): nat
    requires k <= |ops|
  {
    if k == 0 then 1 else NumberAt(ops, k - 1) + if Effective(ops[k - 1]) then 1 else 0
  }

  predicate Addressed(op: Operation, recipient: Name) {
    op.Publish? && recipient in op.recipients && recipient != op.sender
  }

  /** The recipient acknowledged the id at or after position `k`. */
  predicate AckedFrom(ops: seq<Operation>, k: nat, recipient: Name, id: string) {
    exists j :: k <= j < |ops| && ops[j] == Ack(recipient, id)
  }

  /** The envelopes of the first `k` operations that are addressed to the recipient and not acked later. */
  function Live(ops: seq<Operation>, recipient: Name, k: nat): seq<Envelope>
    requires k <= |ops|
    decreases k
  {
    if k == 0 then []
    else
      var op, before := ops[k - 1], Live(ops, recipient, k - 1);
      if !Addressed(op, recipient) then before
      else
        var envelope := EnvelopeFor(op, NumberAt(ops, k - 1), recipient);
        if AckedFrom(ops, k, recipient, envelope.id) then before
        else before + Copies(Count(op.recipients, recipient), envelope)
  }

  // ---- identifiers

  lemma LastColonSplits(a: string, b: string, a': string, b': string)
    requires DeliverySpec.ColonFree(b) && DeliverySpec.ColonFree(b')
    requires a + ":" + b == a' + ":" + b'
    ensures a == a' && b == b'
  {
    var s, s' := a + ":" + b, a' + ":" + b';
    assert s[|a|] == ':' && s'[|a'|] == ':';
    assert forall i | |a| < i < |s| :: s[i] == b[i - |a| - 1];
    assert forall i | |a'| < i < |s'| :: s'[i] == b'[i - |a'| - 1];
    assert |a| == |a'|;
    assert a == s[..|a|] && a' == s'[..|a'|];
    assert b == s[|a| + 1..] && b' == s'[|a'| + 1..];
  }

  /** Within one inbox an identifier determines its number, whatever characters the names hold. */
  lemma IdDeterminesNumber(g: string, s: Name, n: nat, g': string, s': Name, n': nat, recipient: Name)
    requires MessageId(g, s, n, recipient) == MessageId(g', s', n', recipient)
    ensures n == n'
  {
    var a, a' := g + ":" + s, g' + ":" + s';
    var b, b' := a + ":" + Decimal.Show(n), a' + ":" + Decimal.Show(n');
    assert MessageId(g, s, n, recipient) == b + (":" + recipient);
    assert MessageId(g', s', n', recipient) == b' + (":" + recipient);
    assert b == (b + (":" + recipient))[..|b + (":" + recipient)| - |":" + recipient|];
    assert b' == (b' + (":" + recipient))[..|b' + (":" + recipient)| - |":" + recipient|];
    DeliverySpec.ShowIsColonFree(n);
    DeliverySpec.ShowIsColonFree(n');
    LastColonSplits(a, Decimal.Show(n), a', Decimal.Show(n'));
    Decimal.ShowInjective(n, n');
  }

  lemma {:induction false} NumbersIncrease(ops: seq<Operation>, i: nat, j: nat)
    requires i <= j <= |ops|
    ensures NumberAt(ops, i) <= NumberAt(ops, j)
    ensures i < j && Effective(ops[i]) ==> NumberAt(ops, i) < NumberAt(ops, j)
    decreases j
  {
    if i < j {
      NumbersIncrease(ops, i, j - 1);
    }
  }

  /** Two publishes to one recipient never share an identifier: an acknowledgement names one publish. */
  lemma AckNamesOnePublish(ops: seq<Operation>, i: nat, j: nat, recipient: Name)
    requires i < |ops| && j < |ops| && Addressed(ops[i], recipient) && Addressed(ops[j], recipient)
    requires EnvelopeFor(ops[i], NumberAt(ops, i), recipient).id == EnvelopeFor(ops[j], NumberAt(ops, j), recipient).id
    ensures i == j
  {
    IdDeterminesNumber(ops[i].groupId, ops[i].sender, NumberAt(ops, i),
                       ops[j].groupId, ops[j].sender, NumberAt(ops, j), recipient);
    if i < j {
      NumbersIncrease(ops, i, j);
    } else if j < i {
      NumbersIncrease(ops, j, i);
    }
  }

  // ---- the inboxes after a history

  lemma {:induction false} PushedQueue(inboxes: Inboxes, op: Operation, number: nat, names: seq<Name>, r: Name)
    requires op.Publish?
    ensures QueueAt(PushAll(inboxes, op, number, names), r) ==
            if r == op.sender then QueueAt(inboxes, r)
            else QueueAt(inboxes, r) + Copies(Count(names, r), EnvelopeFor(op, number, r))
    decreases |names|
  {
    if names == [] {
      assert QueueAt(inboxes, r) + [] == QueueAt(inboxes, r);
    } else {
      var rest, last := names[..|names| - 1], names[|names| - 1];
      PushedQueue(inboxes, op, number, rest, r);
      var before := PushAll(inboxes, op, number, rest);
      var envelope := EnvelopeFor(op, number, r);
      assert PushAll(inboxes, op, number, names) ==
             if last == op.sender then before
             else before[last := QueueAt(before, last) + [EnvelopeFor(op, number, last)]];
      hide PushAll, EnvelopeFor;
      CopiesSnoc(names, r, envelope);
      var copies := Copies(Count(rest, r), envelope);
      hide Copies, Count;
      if last == r != op.sender {
        assert QueueAt(inboxes, r) + (copies + [envelope]) == QueueAt(before, r) + [envelope];
      }
    }
  }

  lemma {:induction false} WithoutAppend(a: seq<Envelope>, b: seq<Envelope>, id: string)
    ensures Without(a + b, id) == Without(a, id) + Without(b, id)
    decreases |a|
  {
    if a == [] {
      assert a + b == b;
    } else {
      WithoutAppend(a[1..], b, id);
      assert (a + b)[1..] == a[1..] + b;
    }
  }

  lemma {:induction false} WithoutCopies(n: nat, envelope: Envelope, id: string)
    ensures Without(Copies(n, envelope), id) == if envelope.id == id then [] else Copies(n, envelope)
    decreases n
  {
    if n > 0 {
      WithoutCopies(n - 1, envelope, id);
      WithoutAppend(Copies(n - 1, envelope), [envelope], id);
    }
  }

  lemma {:induction false} NumberAtSnoc(ops: seq<Operation>, op: Operation, k: nat)
    requires k <= |ops|
    ensures NumberAt(ops + [op], k) == NumberAt(ops, k)
    decreases k
  {
    if k > 0 {
      NumberAtSnoc(ops, op, k - 1);
    }
  }

  lemma AckedFromSnoc(ops: seq<Operation>, op: Operation, k: nat, r: Name, id: string)
    requires k <= |ops|
    ensures AckedFrom(ops + [op], k, r, id) <==> AckedFrom(ops, k, r, id) || op == Ack(r, id)
  {
    if op == Ack(r, id) {
      assert (ops + [op])[|ops|] == op;
    }
    if AckedFrom(ops, k, r, id) {
      var j :| k <= j < |ops| && ops[j] == Ack(r, id);
      assert (ops + [op])[j] == ops[j];
    }
  }

  /** One more operation: an acknowledgement by the recipient filters, anything else leaves the earlier envelopes. */
  lemma {:induction false} LiveSnoc(ops: seq<Operation>, op: Operation, r: Name, k: nat)
    requires k <= |ops|
    ensures Live(ops + [op], r, k) ==
            if op.Ack? && op.recipient == r then Without(Live(ops, r, k), op.id) else Live(ops, r, k)
    decreases k
  {
    hide Live, NumberAt, AckedFrom, EnvelopeFor, Without, Copies, Count, Addressed;
    if k == 0 {
      LiveOfNone(ops, r);
      LiveOfNone(ops + [op], r);
      WithoutOfNone(if op.Ack? then op.id else "");
    } else {
      LiveSnoc(ops, op, r, k - 1);
      NumberAtSnoc(ops, op, k - 1);
      LiveUnfold(ops, r, k);
      LiveUnfold(ops + [op], r, k);
      assert (ops + [op])[k - 1] == ops[k - 1];
      if Addressed(ops[k - 1], r) {
        AddressedIsPublish(ops[k - 1], r);
        var n, envelope := Count(ops[k - 1].recipients, r), EnvelopeFor(ops[k - 1], NumberAt(ops, k - 1), r);
        AckedFromSnoc(ops, op, k, r, envelope.id);
        if op.Ack? {
          WithoutAppend(Live(ops, r, k - 1), Copies(n, envelope), op.id);
          WithoutCopies(n, envelope, op.id);
        }
      }
    }
  }

  lemma LiveOfNone(ops: seq<Operation>, r: Name)
    ensures Live(ops, r, 0) == []
  {
  }

  lemma WithoutOfNone(id: string)
    ensures Without([], id) == []
  {
  }

  lemma AddressedIsPublish(op: Operation, r: Name)
    requires Addressed(op, r)
    ensures op.Publish?
  {
  }

  lemma LiveUnfold(ops: seq<Operation>, r: Name, k: nat)
    requires 0 < k <= |ops|
    ensures Live(ops, r, k) ==
            if Addressed(ops[k - 1], r)
               && !AckedFrom(ops, k, r, EnvelopeFor(ops[k - 1], NumberAt(ops, k - 1), r).id) then
              Live(ops, r, k - 1) +
              Copies(Count(ops[k - 1].recipients, r), EnvelopeFor(ops[k - 1], NumberAt(ops, k - 1), r))
            else Live(ops, r, k - 1)
  {
  }

  /** The last publish, when the history ends with it. */
  lemma LiveLast(ops: seq<Operation>, op: Operation, r: Name)
    ensures Live(ops + [op], r, |ops| + 1) ==
            if Addressed(op, r)
            then Live(ops + [op], r, |ops|) +
                 Copies(Count(op.recipients, r), EnvelopeFor(op, NumberAt(ops, |ops|), r))
            else Live(ops + [op], r, |ops|)
  {
    NumberAtSnoc(ops, op, |ops|);
    assert (ops + [op])[|ops|] == op;
  }

  lemma {:induction false} NextIdIsNumber(ops: seq<Operation>)
    ensures Run(ops).nextId == NumberAt(ops, |ops|)
    decreases |ops|
  {
    if ops != [] {
      var rest, last := ops[..|ops| - 1], ops[|ops| - 1];
      NextIdIsNumber(rest);
      NumberAtSnoc(rest, last, |rest|);
      assert ops == rest + [last];
    }
  }

  /** Every inbox is, in publish order, the messages addressed to its owner by others, minus those acked since. */
  lemma {:induction false} InboxIsLive(ops: seq<Operation>, r: Name)
    ensures QueueAt(Run(ops).inboxes, r) == Live(ops, r, |ops|)
    decreases |ops|
  {
    if ops != [] {
      var rest, last := ops[..|ops| - 1], ops[|ops| - 1];
      assert ops == rest + [last];
      InboxIsLive(rest, r);
      NextIdIsNumber(rest);
      LiveSnoc(rest, last, r, |rest|);
      LiveLast(rest, last, r);
      StepQueue(Run(rest), last, r);
    }
  }

  /** Operation k addresses the recipient and no later acknowledgement by the recipient names its message. */
  predicate LiveAt(ops: seq<Operation>, r: Name, k: nat) {
    && k < |ops| && Addressed(ops[k], r)
    && !AckedFrom(ops, k + 1, r, EnvelopeFor(ops[k], NumberAt(ops, k), r).id)
  }

  lemma {:induction false} LiveFront(ops: seq<Operation>, r: Name, k: nat)
    requires k <= |ops|
    ensures Live(ops, r, k) == [] <==> forall j: nat | j < k :: !LiveAt(ops, r, j)
    ensures Live(ops, r, k) != [] ==>
              exists j: nat :: j < k && LiveAt(ops, r, j) && (forall i: nat | i < j :: !LiveAt(ops, r, i))
                               && Live(ops, r, k)[0] == EnvelopeFor(ops[j], NumberAt(ops, j), r)
    decreases k
  {
    hide AckedFrom, NumberAt, MessageId;
    if k > 0 {
      LiveFront(ops, r, k - 1);
      if LiveAt(ops, r, k - 1) {
        var envelope := EnvelopeFor(ops[k - 1], NumberAt(ops, k - 1), r);
        CountPositive(ops[k - 1].recipients, r);
        CopiesHead(Count(ops[k - 1].recipients, r), envelope);
      }
    }
  }

  /**
   The message at the front of an inbox, which is the one fetched, is that of the earliest publish to its owner
   which the owner has not acknowledged since; the inbox is empty exactly when there is none.
   */
  lemma FrontIsOldestUnacked(ops: seq<Operation>, r: Name)
    ensures var inbox := QueueAt(Run(ops).inboxes, r);
            && (inbox == [] <==> forall j: nat :: !LiveAt(ops, r, j))
            && (inbox != [] ==>
                  exists j: nat :: LiveAt(ops, r, j) && (forall i: nat | i < j :: !LiveAt(ops, r, i))
                                   && Carries(inbox[0], ops[j], NumberAt(ops, j), r))
  {
    hide Live, Run, NumberAt;
    InboxIsLive(ops, r);
    LiveFront(ops, r, |ops|);
  }

  /** The envelope is that of the publish, field by field. */
  predicate Carries(envelope: Envelope, op: Operation, number: nat, r: Name) {
    && op.Publish? && envelope.groupId == op.groupId && envelope.sender == op.sender && envelope.message == op.message
    && envelope.id == op.groupId + ":" + op.sender + ":" + Decimal.Show(number) + ":" + r
  }

  lemma {:induction false} LiveCarries(ops: seq<Operation>, r: Name, k: nat, i: nat)
    requires k <= |ops| && i < |Live(ops, r, k)|
    ensures exists j: nat :: LiveAt(ops, r, j) && Carries(Live(ops, r, k)[i], ops[j], NumberAt(ops, j), r)
    decreases k
  {
    hide AckedFrom, NumberAt;
    if i < |Live(ops, r, k - 1)| {
      LiveCarries(ops, r, k - 1, i);
    } else {
      assert LiveAt(ops, r, k - 1);
      AllCopies(Count(ops[k - 1].recipients, r), EnvelopeFor(ops[k - 1], NumberAt(ops, k - 1), r));
    }
  }

  /** Every message in an inbox is the group, sender and content of a publish by another to its owner. */
  lemma MessageIsAsPublished(ops: seq<Operation>, r: Name, i: nat)
    requires i < |QueueAt(Run(ops).inboxes, r)|
    ensures exists j: nat :: LiveAt(ops, r, j) && Carries(QueueAt(Run(ops).inboxes, r)[i], ops[j], NumberAt(ops, j), r)
  {
    hide Live, Run, NumberAt;
    InboxIsLive(ops, r);
    LiveCarries(ops, r, |ops|, i);
  }

  /** What one operation does to one inbox. */
  lemma StepQueue(relay: Relay, op: Operation, r: Name)
    ensures QueueAt(Step(relay, op).inboxes, r) ==
            if Addressed(op, r)
            then QueueAt(relay.inboxes, r) + Copies(Count(op.recipients, r), EnvelopeFor(op, relay.nextId, r))
            else if op.Ack? && op.recipient == r then Without(QueueAt(relay.inboxes, r), op.id)
            else QueueAt(relay.inboxes, r)
  {
    if op.Publish? && op.recipients != [] {
      PushedQueue(relay.inboxes, op, relay.nextId, op.recipients, r);
      CountPositive(op.recipients, r);
    }
  }

  class RelayObject {
    var inboxes: Inboxes
    var nextId: nat

    constructor ()
      ensures State() == Run([])
    {
      inboxes, nextId := map[], 1;
    }

    function State(): Relay
      reads this
    {
      Relay(inboxes, nextId)
    }

    method PublishMessage(groupId: string, sender: Name, recipients: seq<Name>, message: Bytes)
      returns (result: Result<(), string>)
      modifies this
      ensures State() == Step(old(State()), Publish(groupId, sender, recipients, message))
      ensures result.Ok? <==> recipients != []
    {
      if recipients == [] {
        return Err("No recipients were provided to the message relay");
      }
      ghost var op := Publish(groupId, sender, recipients, message);
      var number := nextId;
      nextId := nextId + 1;
      for i := 0 to |recipients|
        invariant inboxes == PushAll(old(inboxes), op, number, recipients[..i]) && nextId == number + 1
      {
        var recipient := recipients[i];
        assert recipients[..i + 1][..i] == recipients[..i];
        if recipient != sender {
          var envelope := Envelope(MessageId(groupId, sender, number, recipient), groupId, sender, message);
          inboxes := inboxes[recipient := QueueAt(inboxes, recipient) + [envelope]];
        }
      }
      assert recipients[..|recipients|] == recipients;
      return Ok(());
    }

    method AckMessage(recipient: Name, id: string) returns (acked: bool)
      modifies this
      ensures State() == Step(old(State()), Ack(recipient, id))
      ensures acked <==> QueueAt(inboxes, recipient) != QueueAt(old(inboxes), recipient)
    {
      if recipient !in inboxes {
        return false;
      }
      var before := |inboxes[recipient]|;
      WithoutShortens(inboxes[recipient], id);
      inboxes := inboxes[recipient := Without(inboxes[recipient], id)];
      acked := before != |inboxes[recipient]|;
    }

    /** The oldest message; fetching does not remove it. */
    method FetchPending(recipient: Name) returns (envelope: Option<Envelope>)
      ensures envelope == if QueueAt(inboxes, recipient) == [] then None else Some(QueueAt(inboxes, recipient)[0])
    {
      if recipient !in inboxes || inboxes[recipient] == [] {
        return None;
      }
      return Some(inboxes[recipient][0]);
    }
  }

  lemma {:induction false} WithoutShortens(queue: seq<Envelope>, id: string)
    ensures |Without(queue, id)| <= |queue|
    ensures |Without(queue, id)| == |queue| ==> Without(queue, id) == queue
    decreases |queue|
  {
    if queue != [] {
      WithoutShortens(queue[1..], id);
    }
  }
}
