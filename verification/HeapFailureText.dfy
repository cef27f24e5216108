/**
 The heap-budget failure, printed by the worker as one line of key=value pairs with a quoted free-text
 detail, and read back by the experiment scripts with the regular expression
 `([A-Za-z0-9_]+)=("([^"]*)"|[^ ]*)`, matched from left to right.
 */
module HeapFailureText {
  import opened Wrappers
  import opened Text
  import Decimal

  datatype Pair = Pair(key: string, value: string)

  // ---- the printer

  datatype Failure = Failure(
    operationFamily: string, benchmarkOperation: string, spanOrPhase: string,
    memberCount: Option<nat>, epoch: Option<nat>,
    workerId: string, resourceProfileId: string, resourceProfileIndex: Option<nat>,
    appHeapBudget: string, appHeapBudgetBytes: nat,
    configuredBytes: nat, currentLiveBytes: nat, peakLiveBytes: nat, operationPeakBytes: nat,
    totalAllocatedBytes: nat, allocationCount: nat, deallocationCount: nat,
    failedAllocationBytes: Option<nat>, failureSpanId: Option<nat>, failureContext: string)

  const TAG := "APP_HEAP_BUDGET_EXCEEDED"

  function ShowOption(n: Option<nat>): string {
    if n.Some? then Decimal.Show(n.value) else ""
  }

  function DisplayBudget(bytes: nat): string {
    if bytes >= 1024 * 1024 && bytes % (1024 * 1024) == 0 then Decimal.Show(bytes / (1024 * 1024)) + " MiB"
    else if bytes >= 1024 && bytes % 1024 == 0 then Decimal.Show(bytes / 1024) + " KiB"
    else Decimal.Show(bytes) + " bytes"
  }

  function DisplayOperation(family: string): string {
    if family == "key_package_create" then "KeyPackageCreate"
    else if family == "add_commit_create" then "AddCommitCreate"
    else if family == "welcome_receive" then "WelcomeReceive"
    else if family == "application_message_create" then "ApplicationMessageCreate"
    else if family == "application_message_receive" then "ApplicationMessageReceive"
    else if family == "update_commit_create" then "UpdateCommitCreate"
    else if family == "remove_commit_create" then "RemoveCommitCreate"
    else if family == "commit_receive" then "CommitReceive"
    else if family == "create_group" then "CreateGroup"
    else if family == "process_pending" then "ProcessPending"
    else "OpenMLSOperation"
  }

  /** Where in the run it happened, as far as it is known. */
  function Place(f: Failure): string {
    match (f.memberCount, f.epoch)
    case (Some(members), Some(epoch)) =>
      " at member_count = " + Decimal.Show(members) + ", epoch = " + Decimal.Show(epoch) + "."
    case (Some(members), None) => " at member_count = " + Decimal.Show(members) + "."
    case (None, Some(epoch)) => " at epoch = " + Decimal.Show(epoch) + "."
    case (None, None) => "."
  }

  function HumanDetail(f: Failure): string {
    "The profiled singleton exceeded the " + DisplayBudget(f.appHeapBudgetBytes) +
    " application heap budget during " + DisplayOperation(f.operationFamily) + Place(f)
  }

  /** str::replace('"', "'"). */
  function Unquoted(s: string): (r: string)
    ensures '"' !in r
  {
    if s == [] then [] else [if s[0] == '"' then '\'' else s[0]] + Unquoted(s[1..])
  }

  function OperationFields(f: Failure): seq<Pair> {
    [Pair("failure_class", "app_heap_budget_exceeded"),
     Pair("memory_model", "app-heap-budget"),
     Pair("operation_family", f.operationFamily),
     Pair("benchmark_operation", f.benchmarkOperation),
     Pair("span_or_phase", f.spanOrPhase),
     Pair("member_count", ShowOption(f.memberCount)),
     Pair("epoch", ShowOption(f.epoch))]
  }

  function ProfileFields(f: Failure): seq<Pair> {
    [Pair("worker_id", f.workerId),
     Pair("resource_profile_id", f.resourceProfileId),
     Pair("resource_profile_index", ShowOption(f.resourceProfileIndex)),
     Pair("app_heap_budget", f.appHeapBudget),
     Pair("app_heap_budget_bytes", Decimal.Show(f.appHeapBudgetBytes))]
  }

  function HeapFields(f: Failure): seq<Pair> {
    [Pair("configured_heap_budget_bytes", Decimal.Show(f.configuredBytes)),
     Pair("current_live_heap_bytes", Decimal.Show(f.currentLiveBytes)),
     Pair("peak_live_heap_bytes", Decimal.Show(f.peakLiveBytes)),
     Pair("operation_peak_live_heap_bytes", Decimal.Show(f.operationPeakBytes)),
     Pair("total_allocated_bytes", Decimal.Show(f.totalAllocatedBytes))]
  }

  function CountFields(f: Failure): seq<Pair> {
    [Pair("allocation_count", Decimal.Show(f.allocationCount)),
     Pair("deallocation_count", Decimal.Show(f.deallocationCount)),
     Pair("failed_allocation_size_bytes", ShowOption(f.failedAllocationBytes)),
     Pair("failure_span_id", ShowOption(f.failureSpanId)),
     Pair("heap_failure_context", f.failureContext)]
  }

  /** The unquoted pairs of the line, in order. */
  function Fields(f: Failure): seq<Pair> {
    OperationFields(f) + ProfileFields(f) + HeapFields(f) + CountFields(f)
  }

  /** Each pair as `key=value` followed by a space. */
  function ShowFields(fields: seq<Pair>): string {
    if fields == [] then "" else fields[0].key + "=" + (fields[0].value + " " + ShowFields(fields[1..]))
  }

  function QuotedDetail(detail: string): string {
    "detail" + "=" + ("\"" + detail + "\"")
  }

  function ErrorMessage(f: Failure): string {
    TAG + " " + (ShowFields(Fields(f)) + QuotedDetail(Unquoted(HumanDetail(f))))
  }

  // ---- the regular expression

  predicate IsWord(c: char) {
    'A' <= c <= 'Z' || 'a' <= c <= 'z' || '0' <= c <= '9' || c == '_'
  }

  const UPPER := "ABCDEFGHIJKLMNOPQRSTUVWXYZ"
  const LOWER := "abcdefghijklmnopqrstuvwxyz"

  lemma UpperIff(c: char)
    ensures c in UPPER <==> 'A' <= c <= 'Z'
  {
  }

  lemma LowerIff(c: char)
    ensures c in LOWER <==> 'a' <= c <= 'z'
  {
  }

  /** A key is written in letters, digits and underscores. */
  lemma WordIff(c: char)
    ensures IsWord(c) <==> c in UPPER || c in LOWER || c in "0123456789" || c == '_'
  {
    hide UPPER, LOWER;
    UpperIff(c);
    LowerIff(c);
  }

  /** The length of the longest prefix without the stop characters of its class. */
  function WordRun(s: string): (n: nat)
    ensures n <= |s|
  {
    if s == [] || !IsWord(s[0]) then 0 else 1 + WordRun(s[1..])
  }

  function RunWithout(s: string, stop: char): (n: nat)
    ensures n <= |s|
    ensures n < |s| ==> s[n] == stop
    ensures stop !in s[..n]
  {
    if s == [] || s[0] == stop then 0
    else
      var n := 1 + RunWithout(s[1..], stop);
      assert s[..n] == [s[0]] + s[1..][..n - 1];
      n
  }

  /** A quoted value up to the next quote, or everything up to the next space; with what follows it. */
  function MatchValue(s: string): (string, string) {
    if s != [] && s[0] == '"' && RunWithout(s[1..], '"') < |s| - 1 then
      var n := RunWithout(s[1..], '"');
      (s[1..][..n], s[n + 2..])
    else
      var n := RunWithout(s, ' ');
      (s[..n], s[n..])
  }

  /** A match that begins at the first character. */
  function MatchHere(s: string): (m: Option<(Pair, string)>)
    ensures m.Some? ==> |m.value.1| < |s|
  {
    var n := WordRun(s);
    if n == 0 || n == |s| || s[n] != '=' then None
    else
      var (value, rest) := MatchValue(s[n + 1..]);
      Some((Pair(s[..n], value), rest))
  }

  /** The leftmost match, and the text after it. */
  function NextMatch(s: string): (m: Option<(Pair, string)>)
    ensures m.Some? ==> |m.value.1| < |s|
  {
    if s == [] then None else if MatchHere(s).Some? then MatchHere(s) else NextMatch(s[1..])
  }

  /** re.finditer: all matches from left to right. */
  function AllMatches(s: string): seq<Pair>
    decreases |s|
  {
    var m := NextMatch(s);
    if m.None? then [] else [m.value.0] + AllMatches(m.value.1)
  }

  function Collect(parsed: map<string, string>, pairs: seq<Pair>): map<string, string>
    decreases |pairs|
  {
    if pairs == [] then parsed else Collect(parsed[pairs[0].key := pairs[0].value], pairs[1..])
  }

  method ParseFailure(detail: string) returns (parsed: map<string, string>)
    ensures Find(detail, TAG).None? ==> parsed == map[]
    ensures Find(detail, TAG).Some? ==> parsed == Collect(map[], AllMatches(detail))
  {
    parsed := map[];
    if Find(detail, TAG).None? {
      return;
    }
    var rest := detail;
    while NextMatch(rest).Some?
      invariant Collect(parsed, AllMatches(rest)) == Collect(map[], AllMatches(detail))
      decreases |rest|
    {
      var (pair, after) := NextMatch(rest).value;
      parsed := parsed[pair.key := pair.value];
      rest := after;
    }
  }

  // ---- single matches

  predicate AllWord(s: string) {
    forall i | 0 <= i < |s| :: IsWord(s[i])
  }

  /** A value the unquoted alternative reads back: no space inside, no quote in front. */
  predicate Clean(value: string) {
    ' ' !in value && (value == [] || value[0] != '"')
  }

  lemma {:induction false} WordRunOf(word: string, rest: string)
    requires AllWord(word) && (rest == [] || !IsWord(rest[0]))
    ensures WordRun(word + rest) == |word|
    decreases |word|
  {
    if word == [] {
      assert word + rest == rest;
    } else {
      assert (word + rest)[1..] == word[1..] + rest;
      WordRunOf(word[1..], rest);
    }
  }

  lemma RunWithoutOf(s: string, stop: char, rest: string)
    requires stop !in s
    ensures RunWithout(s + [stop] + rest, stop) == |s|
  {
    var t := s + [stop] + rest;
    var n := RunWithout(t, stop);
    assert t[|s|] == stop;
    assert forall i | 0 <= i < |s| :: t[i] == s[i];
    assert forall i | 0 <= i < n :: t[..n][i] == t[i];
  }

  /** Where a field starts, its key is read and its value is matched by what follows the equals sign. */
  lemma KeyMatch(key: string, after: string)
    requires AllWord(key) && key != []
    ensures MatchHere(key + "=" + after) == Some((Pair(key, MatchValue(after).0), MatchValue(after).1))
  {
    hide MatchValue;
    var s := key + "=" + after;
    assert s == key + ("=" + after);
    WordRunOf(key, "=" + after);
    assert s[|key|] == '=' && s[|key| + 1..] == after && s[..|key|] == key;
  }

  /** A field's value comes back exactly when it holds no space and does not begin with a quote. */
  lemma ValueComesBack(value: string, rest: string)
    requires '"' in rest
    ensures MatchValue(value + " " + rest).0 == value <==> Clean(value)
    ensures Clean(value) ==> MatchValue(value + " " + rest).1 == " " + rest
  {
    var s := value + " " + rest;
    if Clean(value) {
      RunWithoutOf(value, ' ', rest);
      assert s[0] != '"';
      assert s[..|value|] == value && s[|value|..] == " " + rest;
    } else if value != [] && value[0] == '"' {
      LeadingQuoteIsLost(value, rest);
    } else {
      assert s[0] != '"';
      assert MatchValue(s).0 == s[..RunWithout(s, ' ')];
    }
  }

  /** With a quote in front, the quoted alternative matches up to the next quote and drops both. */
  lemma LeadingQuoteIsLost(value: string, rest: string)
    requires '"' in rest && value != [] && value[0] == '"'
    ensures '"' !in MatchValue(value + " " + rest).0
  {
    var s := value + " " + rest;
    var i :| 0 <= i < |rest| && rest[i] == '"';
    assert s[1..][|value| + i] == '"';
    var n := RunWithout(s[1..], '"');
    assert forall j | 0 <= j < n :: s[1..][..n][j] == s[1..][j];
  }

  lemma QuotedComesBack(text: string, rest: string)
    requires '"' !in text
    ensures MatchValue("\"" + text + "\"" + rest) == (text, rest)
  {
    var s := "\"" + text + "\"" + rest;
    assert s[1..] == text + ['"'] + rest;
    RunWithoutOf(text, '"', rest);
    assert s[1..][..|text|] == text && s[|text| + 2..] == rest;
  }

  // ---- the whole line

  lemma SkipSpace(rest: string)
    ensures AllMatches(" " + rest) == AllMatches(rest)
  {
    assert (" " + rest)[1..] == rest;
  }

  /** A word that no equals sign follows is passed over. */
  lemma {:induction false} SkipWord(word: string, rest: string)
    requires AllWord(word)
    ensures NextMatch(word + " " + rest) == NextMatch(" " + rest)
    decreases |word|
  {
    if word == [] {
      assert word + " " + rest == " " + rest;
    } else {
      var s := word + " " + rest;
      assert s == word + (" " + rest);
      WordRunOf(word, " " + rest);
      assert s[|word|] == ' ';
      assert s[1..] == word[1..] + " " + rest;
      SkipWord(word[1..], rest);
    }
  }

  predicate Readable(pair: Pair) {
    pair.key != [] && AllWord(pair.key) && Clean(pair.value)
  }

  lemma FieldMatches(pair: Pair, rest: string)
    requires Readable(pair) && '"' in rest
    ensures AllMatches(pair.key + "=" + (pair.value + " " + rest)) == [pair] + AllMatches(rest)
  {
    hide MatchValue, MatchHere;
    KeyMatch(pair.key, pair.value + " " + rest);
    ValueComesBack(pair.value, rest);
    SkipSpace(rest);
  }

  lemma HasQuote(a: string, b: string)
    requires '"' in b
    ensures '"' in a + b
  {
    var i :| 0 <= i < |b| && b[i] == '"';
    assert (a + b)[|a| + i] == '"';
  }

  lemma ShowFieldsCons(fields: seq<Pair>, tail: string)
    requires fields != []
    ensures ShowFields(fields) + tail ==
            fields[0].key + "=" + (fields[0].value + " " + (ShowFields(fields[1..]) + tail))
  {
  }

  lemma {:induction false} FieldsMatch(fields: seq<Pair>, tail: string)
    requires AllReadable(fields)
    requires '"' in tail
    ensures AllMatches(ShowFields(fields) + tail) == fields + AllMatches(tail)
    decreases |fields|
  {
    hide AllMatches, ShowFields, Readable;
    if fields == [] {
      assert ShowFields(fields) == "" by { ShowNoFields(); }
      assert "" + tail == tail && fields + AllMatches(tail) == AllMatches(tail);
    } else {
      var pair, rest := fields[0], ShowFields(fields[1..]) + tail;
      assert AllMatches(ShowFields(fields) + tail) == [pair] + AllMatches(rest) by {
        ShowFieldsCons(fields, tail);
        HasQuote(ShowFields(fields[1..]), tail);
        FieldMatches(pair, rest);
      }
      FieldsMatch(fields[1..], tail);
      assert [pair] + (fields[1..] + AllMatches(tail)) == fields + AllMatches(tail);
    }
  }

  lemma ShowNoFields()
    ensures ShowFields([]) == ""
  {
  }

  lemma DetailMatches(detail: string)
    requires '"' !in detail
    ensures AllMatches(QuotedDetail(detail)) == [Pair("detail", detail)]
  {
    assert QuotedDetail(detail) == "detail" + "=" + ("\"" + detail + "\"" + []);
    assert AllWord("detail");
    hide MatchValue, MatchHere;
    KeyMatch("detail", "\"" + detail + "\"" + []);
    QuotedComesBack(detail, []);
    assert QuotedDetail(detail) != [];
    assert NextMatch(QuotedDetail(detail)) == Some((Pair("detail", detail), []));
    assert AllMatches([]) == [];
  }

  /** The free-text fields that the worker fills in from names and labels. */
  predicate CleanFailure(f: Failure) {
    && Clean(f.operationFamily) && Clean(f.benchmarkOperation) && Clean(f.spanOrPhase)
    && Clean(f.workerId) && Clean(f.resourceProfileId) && Clean(f.appHeapBudget) && Clean(f.failureContext)
  }

  lemma NumbersAreClean(n: nat, o: Option<nat>)
    ensures Clean(Decimal.Show(n)) && Clean(ShowOption(o))
  {
  }

  predicate AllReadable(fields: seq<Pair>) {
    forall i | 0 <= i < |fields| :: Readable(fields[i])
  }

  lemma OperationKeys()
    ensures AllWord("failure_class") && AllWord("memory_model") && AllWord("operation_family")
    ensures AllWord("benchmark_operation")
  {
  }

  lemma ScopeKeys()
    ensures AllWord("span_or_phase") && AllWord("member_count") && AllWord("epoch") && AllWord("worker_id")
  {
  }

  lemma ProfileKeys()
    ensures AllWord("resource_profile_id") && AllWord("resource_profile_index") && AllWord("app_heap_budget")
  {
  }

  lemma BudgetKeys()
    ensures AllWord("app_heap_budget_bytes") && AllWord("configured_heap_budget_bytes")
  {
  }

  lemma HeapKeys()
    ensures AllWord("current_live_heap_bytes") && AllWord("peak_live_heap_bytes")
    ensures AllWord("total_allocated_bytes")
  {
  }

  lemma AllocationKeys()
    ensures AllWord("operation_peak_live_heap_bytes") && AllWord("allocation_count")
    ensures AllWord("deallocation_count")
  {
  }

  lemma FailureKeys()
    ensures AllWord("failed_allocation_size_bytes") && AllWord("failure_span_id") && AllWord("heap_failure_context")
  {
  }

  lemma OperationReadable(f: Failure)
    requires CleanFailure(f)
    ensures AllReadable(OperationFields(f))
  {
    assert Clean("app_heap_budget_exceeded") && Clean("app-heap-budget");
    hide AllWord, Clean, Decimal.Show, ShowOption;
    NumbersAreClean(0, f.memberCount);
    NumbersAreClean(0, f.epoch);
    OperationKeys();
    ScopeKeys();
  }

  lemma ProfileReadable(f: Failure)
    requires CleanFailure(f)
    ensures AllReadable(ProfileFields(f))
  {
    hide AllWord, Clean, Decimal.Show, ShowOption;
    NumbersAreClean(f.appHeapBudgetBytes, f.resourceProfileIndex);
    ScopeKeys();
    ProfileKeys();
    BudgetKeys();
  }

  lemma HeapReadable(f: Failure)
    ensures AllReadable(HeapFields(f))
  {
    hide AllWord, Clean, Decimal.Show, ShowOption;
    NumbersAreClean(f.configuredBytes, None);
    NumbersAreClean(f.currentLiveBytes, None);
    NumbersAreClean(f.peakLiveBytes, None);
    NumbersAreClean(f.operationPeakBytes, None);
    NumbersAreClean(f.totalAllocatedBytes, None);
    BudgetKeys();
    HeapKeys();
    AllocationKeys();
  }

  lemma CountReadable(f: Failure)
    requires CleanFailure(f)
    ensures AllReadable(CountFields(f))
  {
    hide AllWord, Clean, Decimal.Show, ShowOption;
    NumbersAreClean(f.allocationCount, f.failedAllocationBytes);
    NumbersAreClean(f.deallocationCount, f.failureSpanId);
    AllocationKeys();
    FailureKeys();
  }

  lemma FieldsAreReadable(f: Failure)
    requires CleanFailure(f)
    ensures AllReadable(Fields(f))
  {
    OperationReadable(f);
    ProfileReadable(f);
    HeapReadable(f);
    CountReadable(f);
    hide OperationFields, ProfileFields, HeapFields, CountFields, Readable;
  }

  /** Parsing the printed line gives back every field, in order, with its exact value, and the quoted detail. */
  lemma MessageMatches(f: Failure)
    requires CleanFailure(f)
    ensures AllMatches(ErrorMessage(f)) == Fields(f) + [Pair("detail", Unquoted(HumanDetail(f)))]
    ensures Find(ErrorMessage(f), TAG).Some?
  {
    hide HumanDetail, Fields, ShowFields, NextMatch;
    var detail := Unquoted(HumanDetail(f));
    var tail := QuotedDetail(detail);
    var body := ShowFields(Fields(f)) + tail;
    assert ErrorMessage(f) == TAG + " " + body;
    assert TAG <= ErrorMessage(f);
    SkipWord(TAG, body);
    assert AllMatches(TAG + " " + body) == AllMatches(" " + body);
    SkipSpace(body);
    FieldsAreReadable(f);
    assert tail[7] == '"';
    FieldsMatch(Fields(f), tail);
    DetailMatches(detail);
  }

  // ---- the dictionary

  /** A key keeps the value of its last match. */
  lemma {:induction false} CollectKeepsLast(parsed: map<string, string>, pairs: seq<Pair>, i: nat)
    requires i < |pairs| && forall j | i < j < |pairs| :: pairs[j].key != pairs[i].key
    ensures pairs[i].key in Collect(parsed, pairs) && Collect(parsed, pairs)[pairs[i].key] == pairs[i].value
    decreases |pairs|
  {
    if i == 0 {
      CollectLeaves(parsed[pairs[0].key := pairs[0].value], pairs[1..], pairs[0].key);
    } else {
      CollectKeepsLast(parsed[pairs[0].key := pairs[0].value], pairs[1..], i - 1);
    }
  }

  lemma {:induction false} CollectLeaves(parsed: map<string, string>, pairs: seq<Pair>, key: string)
    requires key in parsed && forall j | 0 <= j < |pairs| :: pairs[j].key != key
    ensures key in Collect(parsed, pairs) && Collect(parsed, pairs)[key] == parsed[key]
    decreases |pairs|
  {
    if pairs != [] {
      CollectLeaves(parsed[pairs[0].key := pairs[0].value], pairs[1..], key);
    }
  }

  lemma {:induction false} CollectOnlyMatched(parsed: map<string, string>, pairs: seq<Pair>, key: string)
    requires key in Collect(parsed, pairs)
    ensures key in parsed || exists i :: 0 <= i < |pairs| && pairs[i].key == key
    decreases |pairs|
  {
    if pairs != [] {
      var parsed' := parsed[pairs[0].key := pairs[0].value];
      CollectOnlyMatched(parsed', pairs[1..], key);
      if key !in parsed' {
        var i :| 0 <= i < |pairs[1..]| && pairs[1..][i].key == key;
        assert pairs[i + 1].key == key;
      }
    }
  }

  /** The position of a key in the line, told from its length and two of its letters. */
  function Position(key: string): nat {
    if |key| == 5 then 6
    else if |key| == 6 then 22
    else if |key| == 9 then 7
    else if |key| == 12 then if key[3] == 'o' then 1 else 5
    else if |key| == 13 then if key[0] == 'f' then 0 else 4
    else if |key| == 15 then if key[0] == 'a' then 10 else 20
    else if |key| == 16 then if key[0] == 'o' then 2 else 17
    else if |key| == 18 then 18
    else if |key| == 19 then if key[0] == 'b' then 3 else 8
    else if |key| == 20 then if key[0] == 'p' then 14 else 21
    else if |key| == 21 then if key[0] == 'a' then 11 else 16
    else if |key| == 22 then 9
    else if |key| == 23 then 13
    else if |key| == 28 then if key[0] == 'c' then 12 else 19
    else 15
  }

  predicate Placed(pairs: seq<Pair>, first: nat) {
    forall i | 0 <= i < |pairs| :: Position(pairs[i].key) == first + i
  }

  lemma OperationPlaced(f: Failure)
    ensures Placed(OperationFields(f), 0)
  {
    hide ShowOption, Decimal.Show;
  }

  lemma ProfilePlaced(f: Failure)
    ensures Placed(ProfileFields(f), 7)
  {
    hide ShowOption, Decimal.Show;
  }

  lemma HeapPlaced(f: Failure)
    ensures Placed(HeapFields(f), 12)
  {
    hide ShowOption, Decimal.Show;
  }

  lemma CountPlaced(f: Failure)
    ensures Placed(CountFields(f), 17)
  {
    hide ShowOption, Decimal.Show;
  }

  lemma PlacedAppend(a: seq<Pair>, b: seq<Pair>)
    requires Placed(a, 0) && Placed(b, |a|)
    ensures Placed(a + b, 0)
  {
    hide Position;
  }

  lemma AllPlaced(f: Failure, detail: string)
    ensures Placed(Fields(f) + [Pair("detail", detail)], 0)
  {
    hide Placed;
    OperationPlaced(f);
    ProfilePlaced(f);
    HeapPlaced(f);
    CountPlaced(f);
    var a, b, c, d := OperationFields(f), ProfileFields(f), HeapFields(f), CountFields(f);
    assert |a| == 7 && |b| == 5 && |c| == 5 && |d| == 5;
    hide OperationFields, ProfileFields, HeapFields, CountFields;
    PlacedAppend(a, b);
    PlacedAppend(a + b, c);
    PlacedAppend(a + b + c, d);
    DetailPlaced(detail);
    PlacedAppend(Fields(f), [Pair("detail", detail)]);
  }

  lemma DetailPlaced(detail: string)
    ensures Placed([Pair("detail", detail)], 22)
  {
  }

  /** Everything the line says. */
  function Pairs(f: Failure): seq<Pair> {
    Fields(f) + [Pair("detail", Unquoted(HumanDetail(f)))]
  }

  /** The dictionary read from the printed line. */
  function Parsed(f: Failure): map<string, string> {
    Collect(map[], AllMatches(ErrorMessage(f)))
  }

  /**
   The dictionary read from the printed line holds every key of the line with exactly the value printed for it,
   the free-text detail with its own equals signs included, and no other key.
   */
  lemma RoundTrip(f: Failure)
    requires CleanFailure(f)
    ensures var pairs, parsed := Pairs(f), Parsed(f);
            && (forall i | 0 <= i < |pairs| :: pairs[i].key in parsed && parsed[pairs[i].key] == pairs[i].value)
            && (forall key | key in parsed :: exists i :: 0 <= i < |pairs| && pairs[i].key == key)
  {
    hide Fields, HumanDetail, ErrorMessage, AllMatches, Collect, Position;
    var pairs := Fields(f) + [Pair("detail", Unquoted(HumanDetail(f)))];
    MessageMatches(f);
    assert Parsed(f) == Collect(map[], pairs) && Pairs(f) == pairs;
    AllPlaced(f, Unquoted(HumanDetail(f)));
    forall i | 0 <= i < |pairs|
      ensures pairs[i].key in Collect(map[], pairs) && Collect(map[], pairs)[pairs[i].key] == pairs[i].value
    {
      CollectKeepsLast(map[], pairs, i);
    }
    forall key | key in Collect(map[], pairs) ensures exists i :: 0 <= i < |pairs| && pairs[i].key == key {
      CollectOnlyMatched(map[], pairs, key);
    }
  }

  // ---- field by field

  predicate Says(parsed: map<string, string>, key: string, value: string) {
    key in parsed && parsed[key] == value
  }

  lemma PartsOfFields(f: Failure)
    ensures |Fields(f)| == 22
    ensures OperationFields(f) == Fields(f)[0..7] && ProfileFields(f) == Fields(f)[7..12]
    ensures HeapFields(f) == Fields(f)[12..17] && CountFields(f) == Fields(f)[17..22]
  {
  }

  lemma ParsedAt(f: Failure, part: seq<Pair>, first: nat, i: nat)
    requires CleanFailure(f) && i < |part| && first + |part| <= |Fields(f)| && part == Fields(f)[first..first + |part|]
    ensures Says(Parsed(f), part[i].key, part[i].value)
  {
    hide Fields, HumanDetail, Parsed, CleanFailure;
    RoundTrip(f);
    assert Pairs(f)[first + i] == part[i];
  }

  lemma OperationParsed(f: Failure)
    requires CleanFailure(f)
    ensures Says(Parsed(f), "failure_class", "app_heap_budget_exceeded")
    ensures Says(Parsed(f), "memory_model", "app-heap-budget")
    ensures Says(Parsed(f), "operation_family", f.operationFamily)
    ensures Says(Parsed(f), "benchmark_operation", f.benchmarkOperation)
    ensures Says(Parsed(f), "span_or_phase", f.spanOrPhase)
    ensures Says(Parsed(f), "member_count", ShowOption(f.memberCount))
    ensures Says(Parsed(f), "epoch", ShowOption(f.epoch))
  {
    hide Fields, Parsed, ShowOption, Decimal.Show, CleanFailure;
    PartsOfFields(f);
    ParsedAt(f, OperationFields(f), 0, 0);
    ParsedAt(f, OperationFields(f), 0, 1);
    ParsedAt(f, OperationFields(f), 0, 2);
    ParsedAt(f, OperationFields(f), 0, 3);
    ParsedAt(f, OperationFields(f), 0, 4);
    ParsedAt(f, OperationFields(f), 0, 5);
    ParsedAt(f, OperationFields(f), 0, 6);
  }

  lemma ProfileParsed(f: Failure)
    requires CleanFailure(f)
    ensures Says(Parsed(f), "worker_id", f.workerId)
    ensures Says(Parsed(f), "resource_profile_id", f.resourceProfileId)
    ensures Says(Parsed(f), "resource_profile_index", ShowOption(f.resourceProfileIndex))
    ensures Says(Parsed(f), "app_heap_budget", f.appHeapBudget)
    ensures Says(Parsed(f), "app_heap_budget_bytes", Decimal.Show(f.appHeapBudgetBytes))
  {
    hide Fields, Parsed, ShowOption, Decimal.Show, CleanFailure;
    PartsOfFields(f);
    ParsedAt(f, ProfileFields(f), 7, 0);
    ParsedAt(f, ProfileFields(f), 7, 1);
    ParsedAt(f, ProfileFields(f), 7, 2);
    ParsedAt(f, ProfileFields(f), 7, 3);
    ParsedAt(f, ProfileFields(f), 7, 4);
  }

  lemma HeapParsed(f: Failure)
    requires CleanFailure(f)
    ensures Says(Parsed(f), "configured_heap_budget_bytes", Decimal.Show(f.configuredBytes))
    ensures Says(Parsed(f), "current_live_heap_bytes", Decimal.Show(f.currentLiveBytes))
    ensures Says(Parsed(f), "peak_live_heap_bytes", Decimal.Show(f.peakLiveBytes))
    ensures Says(Parsed(f), "operation_peak_live_heap_bytes", Decimal.Show(f.operationPeakBytes))
    ensures Says(Parsed(f), "total_allocated_bytes", Decimal.Show(f.totalAllocatedBytes))
  {
    hide Fields, Parsed, ShowOption, Decimal.Show, CleanFailure;
    PartsOfFields(f);
    ParsedAt(f, HeapFields(f), 12, 0);
    ParsedAt(f, HeapFields(f), 12, 1);
    ParsedAt(f, HeapFields(f), 12, 2);
    ParsedAt(f, HeapFields(f), 12, 3);
    ParsedAt(f, HeapFields(f), 12, 4);
  }

  lemma CountParsed(f: Failure)
    requires CleanFailure(f)
    ensures Says(Parsed(f), "allocation_count", Decimal.Show(f.allocationCount))
    ensures Says(Parsed(f), "deallocation_count", Decimal.Show(f.deallocationCount))
    ensures Says(Parsed(f), "failed_allocation_size_bytes", ShowOption(f.failedAllocationBytes))
    ensures Says(Parsed(f), "failure_span_id", ShowOption(f.failureSpanId))
    ensures Says(Parsed(f), "heap_failure_context", f.failureContext)
  {
    hide Fields, Parsed, ShowOption, Decimal.Show, CleanFailure;
    PartsOfFields(f);
    ParsedAt(f, CountFields(f), 17, 0);
    ParsedAt(f, CountFields(f), 17, 1);
    ParsedAt(f, CountFields(f), 17, 2);
    ParsedAt(f, CountFields(f), 17, 3);
    ParsedAt(f, CountFields(f), 17, 4);
  }

  lemma ShowOptionInjective(a: Option<nat>, b: Option<nat>)
    requires ShowOption(a) == ShowOption(b)
    ensures a == b
  {
    if a.Some? && b.Some? {
      Decimal.ShowInjective(a.value, b.value);
    }
  }

  lemma OperationDetermined(f: Failure, g: Failure)
    requires CleanFailure(f) && CleanFailure(g) && Parsed(f) == Parsed(g)
    ensures f.operationFamily == g.operationFamily && f.benchmarkOperation == g.benchmarkOperation
    ensures f.spanOrPhase == g.spanOrPhase && f.memberCount == g.memberCount && f.epoch == g.epoch
  {
    hide Parsed, CleanFailure, ShowOption;
    OperationParsed(f);
    OperationParsed(g);
    ShowOptionInjective(f.memberCount, g.memberCount);
    ShowOptionInjective(f.epoch, g.epoch);
  }

  lemma ProfileDetermined(f: Failure, g: Failure)
    requires CleanFailure(f) && CleanFailure(g) && Parsed(f) == Parsed(g)
    ensures f.workerId == g.workerId && f.resourceProfileId == g.resourceProfileId
    ensures f.resourceProfileIndex == g.resourceProfileIndex && f.appHeapBudget == g.appHeapBudget
    ensures f.appHeapBudgetBytes == g.appHeapBudgetBytes
  {
    hide Parsed, CleanFailure, ShowOption, Decimal.Show;
    ProfileParsed(f);
    ProfileParsed(g);
    ShowOptionInjective(f.resourceProfileIndex, g.resourceProfileIndex);
    Decimal.ShowInjective(f.appHeapBudgetBytes, g.appHeapBudgetBytes);
  }

  lemma HeapDetermined(f: Failure, g: Failure)
    requires CleanFailure(f) && CleanFailure(g) && Parsed(f) == Parsed(g)
    ensures f.configuredBytes == g.configuredBytes && f.currentLiveBytes == g.currentLiveBytes
    ensures f.peakLiveBytes == g.peakLiveBytes && f.operationPeakBytes == g.operationPeakBytes
    ensures f.totalAllocatedBytes == g.totalAllocatedBytes
  {
    hide Parsed, CleanFailure, Decimal.Show;
    HeapParsed(f);
    HeapParsed(g);
    Decimal.ShowInjective(f.configuredBytes, g.configuredBytes);
    Decimal.ShowInjective(f.currentLiveBytes, g.currentLiveBytes);
    Decimal.ShowInjective(f.peakLiveBytes, g.peakLiveBytes);
    Decimal.ShowInjective(f.operationPeakBytes, g.operationPeakBytes);
    Decimal.ShowInjective(f.totalAllocatedBytes, g.totalAllocatedBytes);
  }

  lemma CountDetermined(f: Failure, g: Failure)
    requires CleanFailure(f) && CleanFailure(g) && Parsed(f) == Parsed(g)
    ensures f.allocationCount == g.allocationCount && f.deallocationCount == g.deallocationCount
    ensures f.failedAllocationBytes == g.failedAllocationBytes && f.failureSpanId == g.failureSpanId
    ensures f.failureContext == g.failureContext
  {
    hide Parsed, CleanFailure, ShowOption, Decimal.Show;
    CountParsed(f);
    CountParsed(g);
    Decimal.ShowInjective(f.allocationCount, g.allocationCount);
    Decimal.ShowInjective(f.deallocationCount, g.deallocationCount);
    ShowOptionInjective(f.failedAllocationBytes, g.failedAllocationBytes);
    ShowOptionInjective(f.failureSpanId, g.failureSpanId);
  }

  /** The dictionary the scripts read determines the failure the worker reported, every field of it. */
  lemma DictionaryDeterminesFailure(f: Failure, g: Failure)
    requires CleanFailure(f) && CleanFailure(g)
    ensures Parsed(f) == Parsed(g) <==> f == g
  {
    hide Parsed, CleanFailure;
    if Parsed(f) == Parsed(g) {
      OperationDetermined(f, g);
      ProfileDetermined(f, g);
      HeapDetermined(f, g);
      CountDetermined(f, g);
    }
  }

  lemma {:induction false} UnquotedSame(s: string)
    requires '"' !in s
    ensures Unquoted(s) == s
    decreases |s|
  {
    if s != [] {
      UnquotedSame(s[1..]);
    }
  }

  predicate QuoteFree(s: string) {
    '"' !in s
  }

  lemma ShowIsQuoteFree(n: nat)
    ensures QuoteFree(Decimal.Show(n))
  {
  }

  lemma BudgetIsQuoteFree(bytes: nat)
    ensures QuoteFree(DisplayBudget(bytes))
  {
    hide Decimal.Show;
    ShowIsQuoteFree(bytes);
    ShowIsQuoteFree(bytes / 1024);
    ShowIsQuoteFree(bytes / (1024 * 1024));
  }

  lemma CreateNamesAreQuoteFree()
    ensures QuoteFree("KeyPackageCreate") && QuoteFree("AddCommitCreate") && QuoteFree("ApplicationMessageCreate")
  {
  }

  lemma ChangeNamesAreQuoteFree()
    ensures QuoteFree("UpdateCommitCreate") && QuoteFree("RemoveCommitCreate") && QuoteFree("CreateGroup")
  {
  }

  lemma OtherNamesAreQuoteFree()
    ensures QuoteFree("WelcomeReceive") && QuoteFree("ApplicationMessageReceive") && QuoteFree("CommitReceive")
    ensures QuoteFree("ProcessPending") && QuoteFree("OpenMLSOperation")
  {
  }

  lemma OperationIsQuoteFree(family: string)
    ensures QuoteFree(DisplayOperation(family))
  {
    hide QuoteFree;
    CreateNamesAreQuoteFree();
    ChangeNamesAreQuoteFree();
    OtherNamesAreQuoteFree();
  }

  lemma PhrasesAreQuoteFree()
    ensures QuoteFree("The profiled singleton exceeded the ")
    ensures QuoteFree(" application heap budget during ")
  {
  }

  lemma PlacePhrasesAreQuoteFree()
    ensures QuoteFree(" at member_count = ") && QuoteFree(" at epoch = ") && QuoteFree(", epoch = ") && QuoteFree(".")
  {
  }

  lemma PlaceIsQuoteFree(f: Failure)
    ensures QuoteFree(Place(f))
  {
    hide Decimal.Show;
    PlacePhrasesAreQuoteFree();
    if f.memberCount.Some? {
      ShowIsQuoteFree(f.memberCount.value);
    }
    if f.epoch.Some? {
      ShowIsQuoteFree(f.epoch.value);
    }
  }

  lemma DetailIsQuoteFree(f: Failure)
    ensures QuoteFree(HumanDetail(f))
  {
    hide DisplayBudget, DisplayOperation, Place;
    PhrasesAreQuoteFree();
    BudgetIsQuoteFree(f.appHeapBudgetBytes);
    OperationIsQuoteFree(f.operationFamily);
    PlaceIsQuoteFree(f);
  }

  /** The free-text detail is read back as the worker phrased it. */
  lemma DetailParsed(f: Failure)
    requires CleanFailure(f)
    ensures Says(Parsed(f), "detail", HumanDetail(f))
  {
    hide Fields, Parsed, CleanFailure, DisplayBudget, DisplayOperation, Place, Unquoted;
    DetailIsQuoteFree(f);
    UnquotedSame(HumanDetail(f));
    RoundTrip(f);
    assert Pairs(f)[|Fields(f)|] == Pair("detail", HumanDetail(f));
  }
}
