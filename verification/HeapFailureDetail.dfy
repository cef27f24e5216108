/** The free text of the heap-budget failure says how large the budget was, and where in the run it was exceeded. */
module HeapFailureDetail {
  import opened Wrappers
  import opened Text
  import opened HeapFailureText
  import Decimal

  // ---- the budget

  /** A number followed by a unit. */
  function ReadBudget(text: string): Option<nat> {
    var n := Decimal.DigitRun(text);
    var number, unit := Decimal.Read(text[..n]), text[n..];
    if unit == " MiB" then Some(number * 1024 * 1024)
    else if unit == " KiB" then Some(number * 1024)
    else if unit == " bytes" then Some(number)
    else None
  }

  lemma UnitReads(number: nat, unit: string)
    requires unit == " MiB" || unit == " KiB" || unit == " bytes"
    ensures ReadBudget(Decimal.Show(number) + unit) ==
            Some(if unit == " MiB" then number * 1024 * 1024 else if unit == " KiB" then number * 1024 else number)
  {
    var digits := Decimal.Show(number);
    Decimal.DigitRunOf(digits, unit);
    Decimal.ReadShow(number);
    assert (digits + unit)[..|digits|] == digits && (digits + unit)[|digits|..] == unit;
  }

  /** The budget is shown in the largest unit that divides it, and nothing is lost. */
  lemma BudgetReads(bytes: nat)
    ensures ReadBudget(DisplayBudget(bytes)) == Some(bytes)
  {
    hide ReadBudget;
    if bytes >= 1024 * 1024 && bytes % (1024 * 1024) == 0 {
      UnitReads(bytes / (1024 * 1024), " MiB");
    } else if bytes >= 1024 && bytes % 1024 == 0 {
      UnitReads(bytes / 1024, " KiB");
    } else {
      UnitReads(bytes, " bytes");
    }
  }

  // ---- the place in the run

  /** The number that follows the first occurrence of the phrase. */
  function NumberAfter(text: string, phrase: string): Option<nat> {
    var at :- Find(text, phrase);
    var rest := text[at + |phrase|..];
    Some(Decimal.Read(rest[..Decimal.DigitRun(rest)]))
  }

  lemma ReadsAfter(before: string, phrase: string, n: nat, after: string)
    requires phrase != [] && NotBefore(before + phrase + (Decimal.Show(n) + after), phrase, |before|)
    requires after == [] || !Decimal.IsDigit(after[0])
    ensures NumberAfter(before + phrase + (Decimal.Show(n) + after), phrase) == Some(n)
  {
    var digits := Decimal.Show(n);
    var text := before + phrase + (digits + after);
    FindAt(before, phrase, digits + after);
    assert text[|before| + |phrase|..] == digits + after;
    Decimal.DigitRunOf(digits, after);
    Decimal.ReadShow(n);
    assert (digits + after)[..|digits|] == digits;
  }

  lemma {:induction false} NotFound(text: string, phrase: string)
    requires phrase != [] && forall k | 0 <= k <= |text| :: !(phrase <= text[k..])
    ensures Find(text, phrase).None?
    decreases |text|
  {
    assert text[0..] == text;
    if text != [] {
      forall k | 0 <= k <= |text| - 1 ensures !(phrase <= text[1..][k..]) {
        assert text[1..][k..] == text[k + 1..];
      }
      NotFound(text[1..], phrase);
    }
  }

  const MEMBERS := "member_count = "
  const EPOCH := "epoch = "

  predicate Plain(s: string) {
    '=' !in s && '_' !in s
  }

  /** The text before the numbers. */
  function Opening(f: Failure): string {
    "The profiled singleton exceeded the " + DisplayBudget(f.appHeapBudgetBytes) +
    " application heap budget during " + DisplayOperation(f.operationFamily)
  }

  lemma ShowIsPlain(n: nat)
    ensures Plain(Decimal.Show(n))
  {
  }

  lemma BudgetIsPlain(bytes: nat)
    ensures Plain(DisplayBudget(bytes))
  {
    hide Decimal.Show;
    ShowIsPlain(bytes);
    ShowIsPlain(bytes / 1024);
    ShowIsPlain(bytes / (1024 * 1024));
  }

  lemma CreateNamesArePlain()
    ensures Plain("KeyPackageCreate") && Plain("AddCommitCreate")
  {
  }

  lemma MessageNamesArePlain()
    ensures Plain("ApplicationMessageCreate") && Plain("ApplicationMessageReceive")
  {
  }

  lemma ChangeNamesArePlain()
    ensures Plain("UpdateCommitCreate") && Plain("RemoveCommitCreate") && Plain("CreateGroup")
  {
  }

  lemma ReceiveNamesArePlain()
    ensures Plain("WelcomeReceive") && Plain("CommitReceive")
  {
  }

  lemma OtherNamesArePlain()
    ensures Plain("ProcessPending") && Plain("OpenMLSOperation")
  {
  }

  lemma OperationIsPlain(family: string)
    ensures Plain(DisplayOperation(family))
  {
    hide Plain;
    CreateNamesArePlain();
    MessageNamesArePlain();
    ChangeNamesArePlain();
    ReceiveNamesArePlain();
    OtherNamesArePlain();
  }

  lemma FirstPhraseIsPlain()
    ensures Plain("The profiled singleton exceeded the ")
  {
  }

  lemma OtherPhrasesArePlain()
    ensures Plain(" application heap budget during ") && Plain(" at ")
  {
  }

  lemma OpeningIsPlain(f: Failure)
    ensures Plain(Opening(f)) && Plain(Opening(f) + " at ")
  {
    hide DisplayBudget, DisplayOperation;
    FirstPhraseIsPlain();
    OtherPhrasesArePlain();
    BudgetIsPlain(f.appHeapBudgetBytes);
    OperationIsPlain(f.operationFamily);
  }

  /** Where the epoch is named, an equals sign follows an h. */
  lemma EpochNamed(text: string, k: nat)
    requires k <= |text| && EPOCH <= text[k..]
    ensures k + 8 <= |text| && text[k + 6] == '=' && text[k + 4] == 'h'
  {
    assert text[k..][6] == EPOCH[6] && text[k..][4] == EPOCH[4];
  }

  lemma MembersNamed(text: string, k: nat)
    requires k <= |text| && MEMBERS <= text[k..]
    ensures k + 15 <= |text| && text[k + 6] == '_'
  {
    assert text[k..][6] == MEMBERS[6];
  }

  /** The epoch is not named before `n` when the equals signs there do not follow an h. */
  lemma EpochNotBefore(text: string, n: nat)
    requires n <= |text|
    requires forall p | 2 <= p < n + 6 && p < |text| && text[p] == '=' :: text[p - 2] != 'h'
    ensures NotBefore(text, EPOCH, n) && (n == |text| ==> Find(text, EPOCH).None?)
  {
    forall k | 0 <= k < n ensures !(EPOCH <= text[k..]) {
      if EPOCH <= text[k..] {
        EpochNamed(text, k);
      }
    }
    if n == |text| {
      assert text[n..] == [];
      NotFound(text, EPOCH);
    }
  }

  // ---- the four forms of the detail

  lemma DetailWithMembers(f: Failure)
    requires f.memberCount.Some?
    ensures HumanDetail(f) ==
            Opening(f) + " at " + MEMBERS +
            (Decimal.Show(f.memberCount.value) +
             if f.epoch.Some? then ", " + EPOCH + (Decimal.Show(f.epoch.value) + ".") else ".")
  {
    hide Decimal.Show, DisplayBudget, DisplayOperation;
    assert " at member_count = " == " at " + MEMBERS;
    assert ", epoch = " == ", " + EPOCH;
    var m := Decimal.Show(f.memberCount.value);
    if f.epoch.Some? {
      var e := Decimal.Show(f.epoch.value);
      assert Place(f) == " at " + MEMBERS + (m + (", " + EPOCH + (e + ".")));
      assert HumanDetail(f) == Opening(f) + Place(f);
    } else {
      assert Place(f) == " at " + MEMBERS + (m + ".");
      assert HumanDetail(f) == Opening(f) + Place(f);
    }
  }

  lemma DetailWithEpoch(f: Failure)
    requires f.memberCount.None? && f.epoch.Some?
    ensures HumanDetail(f) == Opening(f) + " at " + EPOCH + (Decimal.Show(f.epoch.value) + ".")
  {
    hide Decimal.Show, DisplayBudget, DisplayOperation;
    assert " at epoch = " == " at " + EPOCH;
    assert HumanDetail(f) == Opening(f) + Place(f);
  }

  lemma DetailAlone(f: Failure)
    requires f.memberCount.None? && f.epoch.None?
    ensures HumanDetail(f) == Opening(f) + "."
  {
  }

  /** The member count is read back, or found missing. */
  lemma MembersRead(f: Failure)
    ensures NumberAfter(HumanDetail(f), MEMBERS) == f.memberCount
  {
    hide Decimal.Show, NumberAfter, Opening, HumanDetail, Find;
    OpeningIsPlain(f);
    if f.memberCount.Some? {
      DetailWithMembers(f);
      var head, m := Opening(f) + " at ", f.memberCount.value;
      var after := if f.epoch.Some? then ", " + EPOCH + (Decimal.Show(f.epoch.value) + ".") else ".";
      NoEarlierOccurrence(head, MEMBERS, Decimal.Show(m) + after, 6);
      ReadsAfter(head, MEMBERS, m, after);
    } else {
      NoMembers(f);
    }
  }

  lemma NoMembers(f: Failure)
    requires f.memberCount.None?
    ensures NumberAfter(HumanDetail(f), MEMBERS).None?
  {
    hide Decimal.Show, Opening, Find;
    var text := HumanDetail(f);
    assert '_' !in text by {
      OpeningIsPlain(f);
      if f.epoch.Some? {
        DetailWithEpoch(f);
        ShowIsPlain(f.epoch.value);
      } else {
        DetailAlone(f);
      }
    }
    forall k | 0 <= k <= |text| ensures !(MEMBERS <= text[k..]) {
      if MEMBERS <= text[k..] {
        MembersNamed(text, k);
      }
    }
    NotFound(text, MEMBERS);
  }

  /** The epoch is read back, or found missing. */
  lemma EpochRead(f: Failure)
    ensures NumberAfter(HumanDetail(f), EPOCH) == f.epoch
  {
    hide Decimal.Show, NumberAfter, Opening, HumanDetail, Find;
    if f.epoch.Some? {
      if f.memberCount.Some? {
        EpochAfterMembers(f);
      } else {
        OpeningIsPlain(f);
        DetailWithEpoch(f);
        var head, after := Opening(f) + " at ", Decimal.Show(f.epoch.value) + ".";
        NoEarlierOccurrence(head, EPOCH, after, 6);
        ReadsAfter(head, EPOCH, f.epoch.value, ".");
      }
    } else {
      NoEpoch(f);
    }
  }

  /** After a plain text and up to the end of the member count, the one equals sign follows a t. */
  lemma OneEquals(head: string, digits: string, rest: string)
    requires Plain(head) && Plain(digits)
    ensures var text := head + MEMBERS + digits + rest;
            forall p | 2 <= p < |head| + |MEMBERS| + |digits| && text[p] == '=' :: text[p - 2] == 't'
  {
    var text, start := head + MEMBERS + digits + rest, |head| + |MEMBERS|;
    EqualsInMembers();
    assert forall q | 0 <= q < |head| :: text[q] == head[q] && head[q] in head;
    assert forall q | |head| <= q < start :: text[q] == MEMBERS[q - |head|];
    assert forall q | start <= q < start + |digits| :: text[q] == digits[q - start] && digits[q - start] in digits;
  }

  lemma EqualsInMembers()
    ensures |MEMBERS| == 15 && MEMBERS[11] == 't'
    ensures forall q | 0 <= q < 15 :: MEMBERS[q] == '=' <==> q == 13
  {
  }

  lemma EpochAfterMembers(f: Failure)
    requires f.memberCount.Some? && f.epoch.Some?
    ensures NumberAfter(HumanDetail(f), EPOCH) == f.epoch
  {
    hide Decimal.Show, NumberAfter, Opening, HumanDetail, Find;
    var head, m, e := Opening(f) + " at ", Decimal.Show(f.memberCount.value), f.epoch.value;
    OpeningIsPlain(f);
    ShowIsPlain(f.memberCount.value);
    DetailWithMembers(f);
    var before := head + MEMBERS + m + ", ";
    var text := before + EPOCH + (Decimal.Show(e) + ".");
    assert HumanDetail(f) == text;
    var rest := ", " + EPOCH + (Decimal.Show(e) + ".");
    assert text == head + MEMBERS + m + rest;
    OneEquals(head, m, rest);
    var start := |head + MEMBERS + m|;
    assert ", " + EPOCH == ", epoch = ";
    assert forall p | start <= p < start + 8 :: text[p] == ", epoch = "[p - start] != '=';
    EpochNotBefore(text, |before|);
    ReadsAfter(before, EPOCH, e, ".");
  }

  lemma NoEpoch(f: Failure)
    requires f.epoch.None?
    ensures NumberAfter(HumanDetail(f), EPOCH).None?
  {
    hide Decimal.Show, Opening, HumanDetail, Find;
    var text := HumanDetail(f);
    OpeningIsPlain(f);
    if f.memberCount.Some? {
      var head, m := Opening(f) + " at ", Decimal.Show(f.memberCount.value);
      ShowIsPlain(f.memberCount.value);
      DetailWithMembers(f);
      assert text == head + MEMBERS + m + ".";
      OneEquals(head, m, ".");
    } else {
      DetailAlone(f);
    }
    EpochNotBefore(text, |text|);
  }

  // ---- the operation

  predicate Known(family: string) {
    DisplayOperation(family) != "OpenMLSOperation"
  }

  /** The length and the first letter of each name. */
  function Signature(family: string): (nat, char) {
    if family == "key_package_create" then (16, 'K')
    else if family == "add_commit_create" then (15, 'A')
    else if family == "welcome_receive" then (14, 'W')
    else if family == "application_message_create" then (24, 'A')
    else if family == "application_message_receive" then (25, 'A')
    else if family == "update_commit_create" then (18, 'U')
    else if family == "remove_commit_create" then (18, 'R')
    else if family == "commit_receive" then (13, 'C')
    else if family == "create_group" then (11, 'C')
    else if family == "process_pending" then (14, 'P')
    else (16, 'O')
  }

  lemma NameHasSignature(family: string)
    ensures DisplayOperation(family) != []
    ensures Signature(family) == (|DisplayOperation(family)|, DisplayOperation(family)[0])
  {
  }

  function FamilyOf(signature: (nat, char)): string {
    match signature.0
    case 11 => "create_group"
    case 13 => "commit_receive"
    case 14 => if signature.1 == 'W' then "welcome_receive" else "process_pending"
    case 15 => "add_commit_create"
    case 16 => "key_package_create"
    case 18 => if signature.1 == 'U' then "update_commit_create" else "remove_commit_create"
    case 24 => "application_message_create"
    case _ => "application_message_receive"
  }

  lemma SignatureIsOwn(family: string)
    ensures Signature(family) != (16, 'O') ==> FamilyOf(Signature(family)) == family
  {
  }

  /** Operations that have a name of their own have different names. */
  lemma OperationNamesDiffer(a: string, b: string)
    requires Known(a) && DisplayOperation(a) == DisplayOperation(b)
    ensures a == b
  {
    hide DisplayOperation, Known, Signature, FamilyOf;
    NameHasSignature(a);
    NameHasSignature(b);
    KnownSignature(a);
    SignatureIsOwn(a);
    SignatureIsOwn(b);
  }

  lemma KnownSignature(family: string)
    requires Known(family)
    ensures Signature(family) != (16, 'O')
  {
  }

  /** What a reader of the line learns from its detail: the budget in bytes, the member count and the epoch. */
  lemma DetailReadsBack(f: Failure)
    requires CleanFailure(f)
    ensures "detail" in Parsed(f)
    ensures NumberAfter(Parsed(f)["detail"], MEMBERS) == f.memberCount
    ensures NumberAfter(Parsed(f)["detail"], EPOCH) == f.epoch
    ensures ReadBudget(DisplayBudget(f.appHeapBudgetBytes)) == Some(f.appHeapBudgetBytes)
    ensures var opening := "The profiled singleton exceeded the ";
            opening + DisplayBudget(f.appHeapBudgetBytes) + " application heap budget during "
              + DisplayOperation(f.operationFamily) <= Parsed(f)["detail"]
  {
    hide Parsed, CleanFailure, DisplayBudget, DisplayOperation, Place, NumberAfter, ReadBudget;
    DetailParsed(f);
    MembersRead(f);
    EpochRead(f);
    BudgetReads(f.appHeapBudgetBytes);
  }
}
