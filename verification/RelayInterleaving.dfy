/**
 The relay under concurrency: a publish first takes its number and then pushes to one inbox after the other, while
 other publishes and acknowledgements run in between.
 */
module RelayInterleaving {
  import opened Wrappers
  import opened Mls
  import opened Multiples
  import R = MessageRelay

  /** A publish that has taken its number, and how many of its recipients it has been through. */
  datatype Flight = Flight(op: R.Operation, sent: nat)

  datatype State = State(inboxes: R.Inboxes, nextId: nat, flights: map<nat, Flight>)

  datatype Event =
    | Take(op: R.Operation)
    | Push(number: nat)
    | Acknowledge(recipient: Name, id: string)

  predicate Wellformed(flight: Flight) {
    flight.op.Publish? && flight.sent <= |flight.op.recipients|
  }

  /** The envelope an event puts into an inbox. */
  function PushedTo(s: State, e: Event, r: Name): Option<R.Envelope> {
    if e.Push? && e.number in s.flights && Wellformed(s.flights[e.number])
       && s.flights[e.number].sent < |s.flights[e.number].op.recipients| then
      var flight := s.flights[e.number];
      if flight.op.recipients[flight.sent] == r && r != flight.op.sender
      then Some(R.EnvelopeFor(flight.op, e.number, r)) else None
    else None
  }

  /** An event that cannot happen changes nothing. */
  function Next(s: State, e: Event): State {
    match e
    case Take(op) =>
      if op.Publish? && op.recipients != []
      then State(s.inboxes, s.nextId + 1, s.flights[s.nextId := Flight(op, 0)]) else s
    case Push(number) =>
      if number in s.flights && Wellformed(s.flights[number])
         && s.flights[number].sent < |s.flights[number].op.recipients| then
        var flight := s.flights[number];
        var r := flight.op.recipients[flight.sent];
        State(if r == flight.op.sender then s.inboxes
              else s.inboxes[r := QueueAt(s.inboxes, r) + [R.EnvelopeFor(flight.op, number, r)]],
              s.nextId, s.flights[number := flight.(sent := flight.sent + 1)])
      else s
    case Acknowledge(recipient, id) =>
      if recipient in s.inboxes
      then s.(inboxes := s.inboxes[recipient := R.Without(s.inboxes[recipient], id)]) else s
  }

  function At(events: seq<Event>, k: nat): State
    requires k <= |events|
  {
    if k == 0 then State(map[], 1, map[]) else Next(At(events, k - 1), events[k - 1])
  }

  // ---- every inbox is what was pushed to it and not acknowledged since

  predicate AckedIn(events: seq<Event>, lo: nat, hi: nat, r: Name, id: string)
    requires hi <= |events|
  {
    exists i :: lo <= i < hi && events[i] == Acknowledge(r, id)
  }

  /** The envelopes of the first j events that are addressed to r and not acked among the first k. */
  function Live(events: seq<Event>, r: Name, j: nat, k: nat): seq<R.Envelope>
    requires j <= k <= |events|
    decreases j
  {
    if j == 0 then []
    else
      var before, pushed := Live(events, r, j - 1, k), PushedTo(At(events, j - 1), events[j - 1], r);
      if pushed.None? || AckedIn(events, j, k, r, pushed.value.id) then before else before + [pushed.value]
  }

  lemma {:induction false} LiveNextEvent(events: seq<Event>, r: Name, j: nat, k: nat)
    requires j <= k < |events|
    ensures Live(events, r, j, k + 1) ==
            if events[k].Acknowledge? && events[k].recipient == r
            then R.Without(Live(events, r, j, k), events[k].id) else Live(events, r, j, k)
    decreases j
  {
    hide PushedTo, At, R.Without;
    if j == 0 {
      WithoutNone(if events[k].Acknowledge? then events[k].id else "");
    } else {
      LiveNextEvent(events, r, j - 1, k);
      var pushed := PushedTo(At(events, j - 1), events[j - 1], r);
      if pushed.Some? {
        AckedNextEvent(events, j, k, r, pushed.value.id);
        if events[k].Acknowledge? {
          WithoutLast(Live(events, r, j - 1, k), pushed.value, events[k].id);
        }
      }
    }
  }

  lemma AckedNextEvent(events: seq<Event>, lo: nat, k: nat, r: Name, id: string)
    requires lo <= k < |events|
    ensures AckedIn(events, lo, k + 1, r, id) <==> AckedIn(events, lo, k, r, id) || events[k] == Acknowledge(r, id)
  {
  }

  lemma WithoutNone(id: string)
    ensures R.Without([], id) == []
  {
  }

  lemma WithoutLast(queue: seq<R.Envelope>, last: R.Envelope, id: string)
    ensures R.Without(queue + [last], id) == R.Without(queue, id) + if last.id == id then [] else [last]
  {
    R.WithoutAppend(queue, [last], id);
    assert [last][1..] == [];
  }

  lemma NextQueue(s: State, e: Event, r: Name)
    ensures QueueAt(Next(s, e).inboxes, r) ==
            if e.Acknowledge? && e.recipient == r then R.Without(QueueAt(s.inboxes, r), e.id)
            else if PushedTo(s, e, r).Some? then QueueAt(s.inboxes, r) + [PushedTo(s, e, r).value]
            else QueueAt(s.inboxes, r)
  {
    WithoutNone(if e.Acknowledge? then e.id else "");
  }

  /** Whatever runs in between, an inbox is what was pushed to it, in that order, minus what was acked after. */
  lemma {:induction false} InboxIsLive(events: seq<Event>, r: Name, k: nat)
    requires k <= |events|
    ensures QueueAt(At(events, k).inboxes, r) == Live(events, r, k, k)
    decreases k
  {
    hide PushedTo, Next, R.Without;
    if k > 0 {
      InboxIsLive(events, r, k - 1);
      NextQueue(At(events, k - 1), events[k - 1], r);
      LiveNextEvent(events, r, k - 1, k - 1);
      AckIsNoPush(At(events, k - 1), events[k - 1], r);
    }
  }

  lemma AckIsNoPush(s: State, e: Event, r: Name)
    ensures e.Acknowledge? ==> PushedTo(s, e, r).None?
  {
  }

  // ---- an acknowledgement names one publish

  /** The numbers given out are those below the next one, each to one publish. */
  ghost predicate Numbered(s: State) {
    && (forall n: nat | n in s.flights :: n < s.nextId && Wellformed(s.flights[n]))
    && forall r, i | 0 <= i < |QueueAt(s.inboxes, r)| :: IsFromFlight(s, r, QueueAt(s.inboxes, r)[i])
  }

  ghost predicate IsFromFlight(s: State, r: Name, e: R.Envelope) {
    exists n: nat :: n in s.flights && R.Addressed(s.flights[n].op, r) && e == R.EnvelopeFor(s.flights[n].op, n, r)
  }

  /** A publish keeps its number for good. */
  lemma FlightStays(s: State, e: Event, n: nat)
    requires Numbered(s) && n in s.flights
    ensures n in Next(s, e).flights && Next(s, e).flights[n].op == s.flights[n].op
  {
  }

  lemma FromFlightStays(s: State, e: Event, r: Name, envelope: R.Envelope)
    requires Numbered(s) && IsFromFlight(s, r, envelope)
    ensures IsFromFlight(Next(s, e), r, envelope)
  {
    hide Next;
    var n: nat :| n in s.flights && R.Addressed(s.flights[n].op, r) && envelope == R.EnvelopeFor(s.flights[n].op, n, r);
    FlightStays(s, e, n);
  }

  lemma FlightsStayWellformed(s: State, e: Event)
    requires Numbered(s)
    ensures forall n: nat | n in Next(s, e).flights :: n < Next(s, e).nextId && Wellformed(Next(s, e).flights[n])
  {
  }

  lemma {:induction false} WithoutIsPart(queue: seq<R.Envelope>, id: string, e: R.Envelope)
    ensures e in R.Without(queue, id) <==> e in queue && e.id != id
    decreases |queue|
  {
    if queue != [] {
      WithoutIsPart(queue[1..], id, e);
      assert queue == [queue[0]] + queue[1..];
    }
  }

  lemma PushIsFromFlight(s: State, e: Event, r: Name)
    requires PushedTo(s, e, r).Some?
    ensures IsFromFlight(s, r, PushedTo(s, e, r).value)
  {
  }

  lemma NumberedStep(s: State, e: Event)
    requires Numbered(s)
    ensures Numbered(Next(s, e))
  {
    hide Next, PushedTo, IsFromFlight, R.Without;
    FlightsStayWellformed(s, e);
    forall r, i | 0 <= i < |QueueAt(Next(s, e).inboxes, r)|
      ensures IsFromFlight(Next(s, e), r, QueueAt(Next(s, e).inboxes, r)[i])
    {
      var envelope := QueueAt(Next(s, e).inboxes, r)[i];
      NextQueue(s, e, r);
      if e.Acknowledge? {
        WithoutIsPart(QueueAt(s.inboxes, r), e.id, envelope);
      }
      if PushedTo(s, e, r).Some? {
        PushIsFromFlight(s, e, r);
      }
      assert IsFromFlight(s, r, envelope) by {
        AckIsNoPush(s, e, r);
        assert envelope in QueueAt(s.inboxes, r) || PushedTo(s, e, r) == Some(envelope);
      }
      FromFlightStays(s, e, r, envelope);
    }
  }

  lemma {:induction false} AlwaysNumbered(events: seq<Event>, k: nat)
    requires k <= |events|
    ensures Numbered(At(events, k))
    decreases k
  {
    hide Next, Numbered;
    if k > 0 {
      AlwaysNumbered(events, k - 1);
      NumberedStep(At(events, k - 1), events[k - 1]);
    } else {
      StartNumbered();
    }
  }

  lemma StartNumbered()
    ensures Numbered(State(map[], 1, map[]))
  {
  }

  /** At any moment, envelopes of one inbox with the same id are copies of one publish: an ack removes no others. */
  lemma AckRemovesOnePublish(events: seq<Event>, k: nat, r: Name, i: nat, j: nat)
    requires k <= |events|
    requires var inbox := QueueAt(At(events, k).inboxes, r);
             i < |inbox| && j < |inbox| && inbox[i].id == inbox[j].id
    ensures var inbox := QueueAt(At(events, k).inboxes, r);
            inbox[i] == inbox[j]
  {
    hide At, R.MessageId;
    AlwaysNumbered(events, k);
    var s := At(events, k);
    var inbox := QueueAt(s.inboxes, r);
    assert IsFromFlight(s, r, inbox[i]) && IsFromFlight(s, r, inbox[j]);
    var m: nat :| m in s.flights && R.Addressed(s.flights[m].op, r) && inbox[i] == R.EnvelopeFor(s.flights[m].op, m, r);
    var n: nat :| n in s.flights && R.Addressed(s.flights[n].op, r) && inbox[j] == R.EnvelopeFor(s.flights[n].op, n, r);
    R.IdDeterminesNumber(s.flights[m].op.groupId, s.flights[m].op.sender, m,
                         s.flights[n].op.groupId, s.flights[n].op.sender, n, r);
  }

  /** A number in use was taken by one of the events, for its operation. */
  ghost predicate Taken(events: seq<Event>, k: nat, op: R.Operation)
    requires k <= |events|
  {
    exists j :: 0 <= j < k && events[j] == Take(op)
  }

  lemma {:induction false} FlightsAreTaken(events: seq<Event>, k: nat, n: nat)
    requires k <= |events| && n in At(events, k).flights
    ensures Taken(events, k, At(events, k).flights[n].op)
    decreases k
  {
    if k > 0 && n in At(events, k - 1).flights {
      FlightsAreTaken(events, k - 1, n);
    }
  }

  /** At any moment, each message in an inbox is as another worker published it to the owner. */
  lemma MessageIsAsPublished(events: seq<Event>, k: nat, r: Name, i: nat)
    requires k <= |events| && i < |QueueAt(At(events, k).inboxes, r)|
    ensures exists op, n: nat :: Taken(events, k, op) && R.Addressed(op, r)
                                 && R.Carries(QueueAt(At(events, k).inboxes, r)[i], op, n, r)
  {
    hide At, Taken;
    AlwaysNumbered(events, k);
    var s := At(events, k);
    var envelope := QueueAt(s.inboxes, r)[i];
    assert IsFromFlight(s, r, envelope);
    var n: nat :| n in s.flights && R.Addressed(s.flights[n].op, r) && envelope == R.EnvelopeFor(s.flights[n].op, n, r);
    FlightsAreTaken(events, k, n);
    assert R.Carries(envelope, s.flights[n].op, n, r);
  }

  // ---- nothing is lost or repeated

  /** How often the first k events pushed publish `number` to r. */
  function Pushes(events: seq<Event>, number: nat, r: Name, k: nat): nat
    requires k <= |events|
  {
    if k == 0 then 0
    else
      Pushes(events, number, r, k - 1) +
      if events[k - 1] == Push(number) && PushedTo(At(events, k - 1), events[k - 1], r).Some? then 1 else 0
  }

  /** How often a publish went through a name that is not its sender's. */
  function Through(s: State, number: nat, r: Name): nat {
    if number in s.flights && Wellformed(s.flights[number]) && r != s.flights[number].op.sender
    then Count(s.flights[number].op.recipients[..s.flights[number].sent], r) else 0
  }

  lemma ThroughStep(s: State, e: Event, number: nat, r: Name)
    requires Numbered(s)
    ensures Through(Next(s, e), number, r) ==
            Through(s, number, r) + if e == Push(number) && PushedTo(s, e, r).Some? then 1 else 0
  {
    hide R.Without, R.MessageId, Count;
    NotYetTaken(s, number);
    if e.Take? {
      CountOfNone(r);
      assert e.op.Publish? ==> e.op.recipients[..0] == [];
    } else if number in s.flights && s.flights[number].sent < |s.flights[number].op.recipients| {
      CountOneMore(s.flights[number].op.recipients, s.flights[number].sent, r);
    }
  }

  /** A publish has been pushed to each recipient but its sender as often as it went through that name. */
  lemma {:induction false} PushesCount(events: seq<Event>, number: nat, r: Name, k: nat)
    requires k <= |events|
    ensures Pushes(events, number, r, k) == Through(At(events, k), number, r)
    decreases k
  {
    hide Next, PushedTo, Through, Numbered;
    if k > 0 {
      PushesCount(events, number, r, k - 1);
      AlwaysNumbered(events, k - 1);
      ThroughStep(At(events, k - 1), events[k - 1], number, r);
    } else {
      NothingThrough(number, r);
    }
  }

  lemma NothingThrough(number: nat, r: Name)
    ensures Through(State(map[], 1, map[]), number, r) == 0
  {
  }

  lemma NotYetTaken(s: State, number: nat)
    requires Numbered(s)
    ensures number in s.flights ==> number != s.nextId && Wellformed(s.flights[number])
  {
  }

  lemma CountOfNone(r: Name)
    ensures Count<Name>([], r) == 0
  {
  }

  lemma CountOneMore(names: seq<Name>, k: nat, r: Name)
    requires k < |names|
    ensures Count(names[..k + 1], r) == Count(names[..k], r) + if names[k] == r then 1 else 0
  {
    assert names[..k + 1][..k] == names[..k];
  }

  // ---- without interruption a publish is the atomic one

  function PushMany(s: State, number: nat, m: nat): State {
    if m == 0 then s else Next(PushMany(s, number, m - 1), Push(number))
  }

  lemma {:induction false} UninterruptedPushes(s: State, op: R.Operation, m: nat)
    requires op.Publish? && op.recipients != [] && m <= |op.recipients|
    ensures var taken := Next(s, Take(op));
            PushMany(taken, s.nextId, m) ==
            State(R.PushAll(s.inboxes, op, s.nextId, op.recipients[..m]), s.nextId + 1,
                  s.flights[s.nextId := Flight(op, m)])
    decreases m
  {
    hide R.MessageId;
    if m > 0 {
      UninterruptedPushes(s, op, m - 1);
      assert op.recipients[..m][..m - 1] == op.recipients[..m - 1];
    } else {
      assert op.recipients[..0] == [];
    }
  }

  /** Taking the number and pushing to all recipients in turn is the relay's publish. */
  lemma UninterruptedIsAtomic(s: State, op: R.Operation)
    requires op.Publish? && op.recipients != []
    ensures var after := PushMany(Next(s, Take(op)), s.nextId, |op.recipients|);
            R.Relay(after.inboxes, after.nextId) == R.Step(R.Relay(s.inboxes, s.nextId), op)
  {
    UninterruptedPushes(s, op, |op.recipients|);
    assert op.recipients[..|op.recipients|] == op.recipients;
  }
}
