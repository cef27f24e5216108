/**
 How a worker recognises a stale put: the service answers with an error text, the worker finds the two
 epochs in that text again, and skips the put when the service is ahead of it.
 */
module StateMismatch {
  import opened Wrappers
  import opened DeliverySpec
  import opened Text
  import Decimal

  const U64_MAX: nat := 0xFFFF_FFFF_FFFF_FFFF

  const EXPECTED_MARKER := "expected epoch "

  const GOT_MARKER := ", got "

  /** str::parse::<u64> on a run of digits: fails on the empty string and on overflow. */
  function ParseU64(digits: string): Option<nat>
    requires Decimal.AllDigits(digits)
  {
    if digits == [] || Decimal.Read(digits) > U64_MAX then None else Some(Decimal.Read(digits))
  }

  function LeadingNumber(text: string): Option<nat> {
    ParseU64(text[..Decimal.DigitRun(text)])
  }

  function ParseMismatch(message: string): Option<(nat, nat)> {
    var marker :- Find(message, EXPECTED_MARKER);
    var rest := message[marker + |EXPECTED_MARKER|..];
    var expected :- LeadingNumber(rest);
    var separator :- Find(rest, GOT_MARKER);
    var got :- LeadingNumber(rest[separator + |GOT_MARKER|..]);
    Some((expected, got))
  }

  predicate IsStale(message: string, epoch: nat) {
    var parsed := ParseMismatch(message);
    parsed.Some? && parsed.value.1 == epoch && parsed.value.0 > parsed.value.1
  }

  /** The error the service formats for a rejected put. */
  function MismatchText(groupId: GroupId, expected: nat, got: nat): string {
    "Group state update mismatch for group '" + groupId + "': " +
    EXPECTED_MARKER + Decimal.Show(expected) + GOT_MARKER + Decimal.Show(got)
  }

  lemma LeadingNumberOfShow(n: nat, after: string)
    requires n <= U64_MAX && (after == [] || !Decimal.IsDigit(after[0]))
    ensures LeadingNumber(Decimal.Show(n) + after) == Some(n)
  {
    Decimal.DigitRunOf(Decimal.Show(n), after);
    assert (Decimal.Show(n) + after)[..|Decimal.Show(n)|] == Decimal.Show(n);
    Decimal.ReadShow(n);
  }

  /** The number after the marker, when digits, then the separator and a second number follow it. */
  lemma ParseRest(expected: nat, got: nat, after: string)
    requires expected <= U64_MAX && got <= U64_MAX && (after == [] || !Decimal.IsDigit(after[0]))
    ensures var rest := Decimal.Show(expected) + GOT_MARKER + (Decimal.Show(got) + after);
            && LeadingNumber(rest) == Some(expected)
            && Find(rest, GOT_MARKER) == Some(|Decimal.Show(expected)|)
            && LeadingNumber(rest[|Decimal.Show(expected)| + |GOT_MARKER|..]) == Some(got)
  {
    hide Find, LeadingNumber, Decimal.Show;
    var tail := Decimal.Show(got) + after;
    var rest := Decimal.Show(expected) + GOT_MARKER + tail;
    assert rest == Decimal.Show(expected) + (GOT_MARKER + tail);
    LeadingNumberOfShow(expected, GOT_MARKER + tail);
    NoEarlierOccurrence(Decimal.Show(expected), GOT_MARKER, tail, 0);
    FindAt(Decimal.Show(expected), GOT_MARKER, tail);
    assert rest[|Decimal.Show(expected)| + |GOT_MARKER|..] == tail;
    LeadingNumberOfShow(got, after);
  }

  /** Both epochs are recovered from any message whose first marker is the one of the formatted mismatch. */
  lemma ParseMismatchRoundTrip(before: string, expected: nat, got: nat, after: string)
    requires expected <= U64_MAX && got <= U64_MAX && (after == [] || !Decimal.IsDigit(after[0]))
    requires var rest := Decimal.Show(expected) + GOT_MARKER + (Decimal.Show(got) + after);
             NotBefore(before + EXPECTED_MARKER + rest, EXPECTED_MARKER, |before|)
    ensures var rest := Decimal.Show(expected) + GOT_MARKER + (Decimal.Show(got) + after);
            ParseMismatch(before + EXPECTED_MARKER + rest) == Some((expected, got))
  {
    hide Find, LeadingNumber, Decimal.Show, NotBefore;
    var rest := Decimal.Show(expected) + GOT_MARKER + (Decimal.Show(got) + after);
    FindAt(before, EXPECTED_MARKER, rest);
    assert (before + EXPECTED_MARKER + rest)[|before| + |EXPECTED_MARKER|..] == rest;
    ParseRest(expected, got, after);
  }

  /** The text in front of the epochs, which names the client, its URL and the group. */
  function BeforeEpochs(prefix: string, groupId: GroupId): string {
    prefix + ("Group state update mismatch for group '" + groupId + "': ")
  }

  lemma TextIsSplit(prefix: string, groupId: GroupId, expected: nat, got: nat)
    ensures prefix + MismatchText(groupId, expected, got) ==
            BeforeEpochs(prefix, groupId) + EXPECTED_MARKER +
            (Decimal.Show(expected) + GOT_MARKER + (Decimal.Show(got) + []))
  {
    hide Decimal.Show;
  }

  /** No marker stands in the text before the one of the service. */
  ghost predicate MarkerIsFirst(prefix: string, groupId: GroupId, expected: nat, got: nat) {
    var text := prefix + MismatchText(groupId, expected, got);
    |BeforeEpochs(prefix, groupId)| <= |text| && NotBefore(text, EXPECTED_MARKER, |BeforeEpochs(prefix, groupId)|)
  }

  /** A rejected put is taken as stale exactly when the service is ahead of it. */
  lemma StalePutIsRecognised(prefix: string, groupId: GroupId, state: GroupState, epoch: nat, members: seq<string>)
    requires MarkerIsFirst(prefix, groupId, state.epoch, epoch) && state.epoch <= U64_MAX && epoch <= U64_MAX
    requires PutState(Some(state), epoch, members).Err?
    ensures IsStale(prefix + MismatchText(groupId, state.epoch, epoch), epoch) <==> epoch < state.epoch
  {
    hide ParseMismatch, Decimal.Show, NotBefore, MismatchText, BeforeEpochs;
    TextIsSplit(prefix, groupId, state.epoch, epoch);
    ParseMismatchRoundTrip(BeforeEpochs(prefix, groupId), state.epoch, epoch, []);
  }

  /** update_ds_group_state, given what the service holds: stored, or refused and taken as stale. */
  predicate UpdateSucceeds(prefix: string, groupId: GroupId, entry: Option<GroupState>, epoch: nat, members: seq<string>) {
    match PutState(entry, epoch, members)
    case Ok(_) => true
    case Err(EpochMismatch(expected, got)) => IsStale(prefix + MismatchText(groupId, expected, got), epoch)
    case Err(_) => false
  }

  /** The update succeeds exactly when the service is not behind the worker. */
  lemma UpdateSucceedsIff(prefix: string, groupId: GroupId, entry: Option<GroupState>, epoch: nat, members: seq<string>)
    requires epoch <= U64_MAX
    requires entry.Some? ==>
               MarkerIsFirst(prefix, groupId, entry.value.epoch, epoch) && entry.value.epoch <= U64_MAX
    ensures UpdateSucceeds(prefix, groupId, entry, epoch, members) <==> entry.None? || epoch <= entry.value.epoch
  {
    hide IsStale, MarkerIsFirst, MismatchText;
    if entry.Some? && epoch != entry.value.epoch {
      StalePutIsRecognised(prefix, groupId, entry.value, epoch, members);
    }
  }

  /** The marker is first when neither the text before the message nor the group id holds an 'x'. */
  lemma MarkerIsFirstWithoutX(prefix: string, groupId: GroupId, expected: nat, got: nat)
    requires 'x' !in prefix && 'x' !in groupId
    ensures MarkerIsFirst(prefix, groupId, expected, got)
  {
    hide Decimal.Show, NotBefore, MismatchText;
    TextIsSplit(prefix, groupId, expected, got);
    NoEarlierOccurrence(BeforeEpochs(prefix, groupId), EXPECTED_MARKER,
                        Decimal.Show(expected) + GOT_MARKER + (Decimal.Show(got) + []), 1);
  }

  /** A client name that holds a marker of its own. */
  function MisleadingName(): string {
    EXPECTED_MARKER + (Decimal.Show(9) + GOT_MARKER + (Decimal.Show(1) + " "))
  }

  /** The hypothesis is needed: an earlier marker, here in a client name, is read instead of the service's. */
  lemma EarlierMarkerMisleads(groupId: GroupId, expected: nat, got: nat)
    ensures ParseMismatch("client=" + MisleadingName() + MismatchText(groupId, expected, got)) == Some((9, 1))
  {
    hide ParseMismatch, Decimal.Show, MismatchText, NotBefore;
    var text := MismatchText(groupId, expected, got);
    var rest := Decimal.Show(9) + GOT_MARKER + (Decimal.Show(1) + (" " + text));
    NoEarlierOccurrence("client=", EXPECTED_MARKER, rest, 1);
    ParseMismatchRoundTrip("client=", 9, 1, " " + text);
    assert "client=" + MisleadingName() + text == "client=" + EXPECTED_MARKER + rest;
  }

  /**
   For that client the verdict depends on its own epoch alone: at epoch 1 every refused update is skipped as stale,
   even when the service is behind; at any other epoch none is, even when the service is ahead.
   */
  lemma MisledVerdict(groupId: GroupId, state: GroupState, epoch: nat, members: seq<string>)
    requires PutState(Some(state), epoch, members).Err?
    ensures UpdateSucceeds("client=" + MisleadingName(), groupId, Some(state), epoch, members) <==> epoch == 1
  {
    hide ParseMismatch, Decimal.Show, MismatchText, MisleadingName;
    EarlierMarkerMisleads(groupId, state.epoch, epoch);
  }

  // ---- the parser on every text

  /** The pattern stands at position `i` and at none before. */
  ghost predicate FirstAt(text: string, pattern: string, i: nat) {
    i <= |text| && pattern <= text[i..] && NotBefore(text, pattern, i)
  }

  /** The text begins with the decimal number `n`, which fits 64 bits. */
  ghost predicate BeginsWith(text: string, n: nat) {
    exists k :: 0 < k <= |text| && Decimal.AllDigits(text[..k]) && (k < |text| ==> !Decimal.IsDigit(text[k]))
                && Decimal.Read(text[..k]) == n <= U64_MAX
  }

  lemma {:induction false} FoundIff(text: string, pattern: string, i: nat)
    requires pattern != []
    ensures Find(text, pattern) == Some(i) <==> FirstAt(text, pattern, i)
    decreases |text|
  {
    hide FirstAt;
    FirstAtCons(text, pattern, i);
    if i > 0 && text != [] {
      FoundIff(text[1..], pattern, i - 1);
    }
  }

  lemma FirstAtCons(text: string, pattern: string, i: nat)
    requires pattern != []
    ensures FirstAt(text, pattern, i) <==>
            if i == 0 then pattern <= text else text != [] && !(pattern <= text) && FirstAt(text[1..], pattern, i - 1)
  {
    assert text[0..] == text;
    if 0 < i <= |text| {
      var rest := text[1..];
      assert rest[i - 1..] == text[i..];
      assert forall k | 0 < k < i :: rest[k - 1..] == text[k..];
      assert forall k | 0 <= k < i - 1 :: rest[k..] == text[k + 1..];
    }
  }

  lemma LeadingNumberIff(text: string, n: nat)
    ensures LeadingNumber(text) == Some(n) <==> BeginsWith(text, n)
  {
    var run := Decimal.DigitRun(text);
    assert forall i | 0 <= i < run :: text[..run][i] == text[i];
    forall k | 0 < k <= |text| && Decimal.AllDigits(text[..k]) && (k < |text| ==> !Decimal.IsDigit(text[k])) ensures k == run {
      assert forall i | 0 <= i < k :: text[..k][i] == text[i];
    }
  }

  /** The number `n` follows the first occurrence of the marker. */
  ghost predicate Follows(text: string, marker: string, n: nat) {
    exists i: nat :: FirstAt(text, marker, i) && i + |marker| <= |text| && BeginsWith(text[i + |marker|..], n)
  }

  /** The form of a text that both epochs are read from. */
  ghost predicate Mentions(message: string, expected: nat, got: nat) {
    exists i: nat :: FirstAt(message, EXPECTED_MARKER, i) && i + |EXPECTED_MARKER| <= |message|
                     && BeginsWith(message[i + |EXPECTED_MARKER|..], expected)
                     && Follows(message[i + |EXPECTED_MARKER|..], GOT_MARKER, got)
  }

  lemma FollowsIff(text: string, marker: string, n: nat)
    requires marker != []
    ensures Follows(text, marker, n) <==>
            Find(text, marker).Some? && LeadingNumber(text[Find(text, marker).value + |marker|..]) == Some(n)
  {
    hide LeadingNumber, BeginsWith, FirstAt;
    forall i: nat ensures Find(text, marker) == Some(i) <==> FirstAt(text, marker, i) {
      FoundIff(text, marker, i);
    }
    if Find(text, marker).Some? {
      LeadingNumberIff(text[Find(text, marker).value + |marker|..], n);
    }
  }

  /** Both epochs are read exactly from such a text: without digits, with a number too large or without a marker there is nothing. */
  lemma ParsedIff(message: string, expected: nat, got: nat)
    ensures ParseMismatch(message) == Some((expected, got)) <==> Mentions(message, expected, got)
  {
    hide LeadingNumber, BeginsWith, FirstAt, Follows;
    var marker := Find(message, EXPECTED_MARKER);
    forall i: nat ensures marker == Some(i) <==> FirstAt(message, EXPECTED_MARKER, i) {
      FoundIff(message, EXPECTED_MARKER, i);
    }
    if marker.Some? {
      var rest := message[marker.value + |EXPECTED_MARKER|..];
      LeadingNumberIff(rest, expected);
      FollowsIff(rest, GOT_MARKER, got);
    }
  }

  /** An error is taken as stale exactly when its text mentions the worker's own epoch as refused and a later one as expected. */
  lemma StaleIff(message: string, epoch: nat)
    ensures IsStale(message, epoch) <==> exists expected: nat :: Mentions(message, expected, epoch) && expected > epoch
  {
    hide ParseMismatch, Mentions;
    forall expected: nat, got: nat
      ensures ParseMismatch(message) == Some((expected, got)) <==> Mentions(message, expected, got)
    {
      ParsedIff(message, expected, got);
    }
  }
}
