/** Exactly which failure lines are read back: those whose text fields hold no space and no leading quote. */
module HeapFailureExact {
  import opened Wrappers
  import opened Text
  import opened HeapFailureText
  import Decimal

  ghost predicate AllComeBack(f: Failure) {
    forall i | 0 <= i < |Fields(f)| :: Says(Parsed(f), Fields(f)[i].key, Fields(f)[i].value)
  }

  // ---- what a match can be

  /** No quote in front, and not both a space and a quote inside. */
  predicate Decent(value: string) {
    (value == [] || value[0] != '"') && !(' ' in value && '"' in value)
  }

  predicate Unspaced(pairs: seq<Pair>) {
    forall i | 0 <= i < |pairs| :: ' ' !in pairs[i].value
  }

  /** The text ends in a quote that does not follow an equals sign. */
  predicate Ending(s: string) {
    (|s| >= 1 ==> s[|s| - 1] == '"') && (|s| >= 2 ==> s[|s| - 2] != '=')
  }

  lemma EndingSuffix(s: string, k: nat)
    requires Ending(s) && k <= |s|
    ensures Ending(s[k..])
  {
  }

  lemma ValueIsDecent(s: string)
    requires Ending(s) && |s| != 1
    ensures Decent(MatchValue(s).0) && Ending(MatchValue(s).1)
  {
    if s != [] && s[0] == '"' {
      var n := RunWithout(s[1..], '"');
      assert s[1..][|s| - 2] == '"';
      assert n < |s| - 1;
      EndingSuffix(s, n + 2);
    } else {
      EndingSuffix(s, RunWithout(s, ' '));
    }
  }

  lemma HereIsDecent(s: string)
    requires Ending(s) && MatchHere(s).Some?
    ensures Decent(MatchHere(s).value.0.value) && Ending(MatchHere(s).value.1)
  {
    hide MatchValue, Decent;
    var n := WordRun(s);
    EndingSuffix(s, n + 1);
    ValueIsDecent(s[n + 1..]);
  }

  lemma {:induction false} NextIsDecent(s: string)
    requires Ending(s) && NextMatch(s).Some?
    ensures Decent(NextMatch(s).value.0.value) && Ending(NextMatch(s).value.1)
    decreases |s|
  {
    hide MatchHere, Decent;
    if MatchHere(s).Some? {
      HereIsDecent(s);
    } else {
      EndingSuffix(s, 1);
      NextIsDecent(s[1..]);
    }
  }

  lemma {:induction false} AllAreDecent(s: string)
    requires Ending(s)
    ensures forall i | 0 <= i < |AllMatches(s)| :: Decent(AllMatches(s)[i].value)
    decreases |s|
  {
    hide NextMatch, Decent, Ending;
    if NextMatch(s).Some? {
      NextIsDecent(s);
      AllAreDecent(NextMatch(s).value.1);
    }
  }

  /** A value in the dictionary comes from a match. */
  lemma {:induction false} CollectedIsMatched(parsed: map<string, string>, pairs: seq<Pair>, key: string)
    requires key in Collect(parsed, pairs)
    ensures (key in parsed && parsed[key] == Collect(parsed, pairs)[key])
            || Pair(key, Collect(parsed, pairs)[key]) in pairs
    decreases |pairs|
  {
    if pairs != [] {
      CollectedIsMatched(parsed[pairs[0].key := pairs[0].value], pairs[1..], key);
      assert pairs == [pairs[0]] + pairs[1..];
    }
  }

  // ---- text without quotes is matched up to its end

  lemma {:induction false} WordRunStops(q: string, rest: string)
    ensures WordRun(q + " " + rest) <= |q|
    decreases |q|
  {
    var s := q + " " + rest;
    if q != [] && IsWord(s[0]) {
      WordRunStops(q[1..], rest);
      assert s[1..] == q[1..] + " " + rest;
    }
  }

  /** What follows the equals sign is read up to a space, at the latest the one after the text. */
  lemma UnquotedValue(q: string, rest: string) returns (m: nat)
    requires q == [] || q[0] != '"'
    ensures m <= |q| && MatchValue(q + " " + rest) == ((q + " " + rest)[..m], q[m..] + " " + rest)
    ensures ' ' !in (q + " " + rest)[..m] && (' ' !in q ==> m == |q|)
  {
    var s := q + " " + rest;
    m := RunWithout(s, ' ');
    assert s[|q|] == ' ';
    assert forall k | 0 <= k < m :: s[..m][k] == s[k];
    assert forall k | 0 <= k < |q| :: s[k] == q[k];
    assert s[m..] == q[m..] + " " + rest;
  }

  lemma SkipOne(s: string)
    requires s != [] && MatchHere(s).None?
    ensures AllMatches(s) == AllMatches(s[1..])
  {
    hide MatchHere;
  }

  lemma TakeOne(s: string)
    requires s != [] && MatchHere(s).Some?
    ensures AllMatches(s) == [MatchHere(s).value.0] + AllMatches(MatchHere(s).value.1)
  {
    hide MatchHere;
  }

  lemma {:induction false} StretchMatches(q: string, rest: string) returns (found: seq<Pair>)
    requires '"' !in q
    ensures AllMatches(q + " " + rest) == found + AllMatches(rest) && Unspaced(found)
    decreases |q|
  {
    hide AllMatches, MatchHere;
    var s := q + " " + rest;
    if q == [] {
      assert s == " " + rest;
      SkipSpace(rest);
      found := [];
    } else if MatchHere(s).None? {
      SkipOne(s);
      assert s[1..] == q[1..] + " " + rest;
      found := StretchMatches(q[1..], rest);
    } else {
      TakeOne(s);
      var pair, q' := MatchInStretch(q, rest);
      var more := StretchMatches(q', rest);
      found := [pair] + more;
      assert [pair] + (more + AllMatches(rest)) == found + AllMatches(rest);
    }
  }

  lemma MatchInStretch(q: string, rest: string) returns (pair: Pair, q': string)
    requires '"' !in q && MatchHere(q + " " + rest).Some?
    ensures MatchHere(q + " " + rest) == Some((pair, q' + " " + rest))
    ensures ' ' !in pair.value && '"' !in q' && |q'| < |q|
  {
    hide MatchValue;
    var s := q + " " + rest;
    var n := WordRun(s);
    WordRunStops(q, rest);
    assert s[|q|] == ' ';
    var after := q[n + 1..];
    assert s[n + 1..] == after + " " + rest;
    var m := UnquotedValue(after, rest);
    pair, q' := Pair(s[..n], (after + " " + rest)[..m]), after[m..];
  }

  // ---- fields

  predicate WordKeys(fields: seq<Pair>) {
    forall i | 0 <= i < |fields| :: fields[i].key != [] && AllWord(fields[i].key)
  }

  predicate DecentValues(fields: seq<Pair>) {
    forall i | 0 <= i < |fields| :: Decent(fields[i].value)
  }

  lemma FieldStretch(pair: Pair, rest: string) returns (found: seq<Pair>)
    requires pair.key != [] && AllWord(pair.key) && Decent(pair.value)
    ensures AllMatches(pair.key + "=" + (pair.value + " " + rest)) == found + AllMatches(rest) && Unspaced(found)
  {
    hide AllMatches, MatchHere, MatchValue, AllWord;
    var after := pair.value + " " + rest;
    KeyMatch(pair.key, after);
    TakeOne(pair.key + "=" + after);
    var m := UnquotedValue(pair.value, rest);
    var more := StretchMatches(pair.value[m..], rest);
    found := [Pair(pair.key, after[..m])] + more;
    assert [Pair(pair.key, after[..m])] + (more + AllMatches(rest)) == found + AllMatches(rest);
  }

  lemma {:induction false} FieldsStretch(fields: seq<Pair>, tail: string) returns (found: seq<Pair>)
    requires WordKeys(fields) && DecentValues(fields)
    ensures AllMatches(ShowFields(fields) + tail) == found + AllMatches(tail) && Unspaced(found)
    decreases |fields|
  {
    hide AllMatches, ShowFields, AllWord, Decent;
    if fields == [] {
      ShowNoFields();
      assert ShowFields(fields) + tail == tail;
      found := [];
    } else {
      ShowFieldsCons(fields, tail);
      var first := FieldStretch(fields[0], ShowFields(fields[1..]) + tail);
      var more := FieldsStretch(fields[1..], tail);
      found := first + more;
      assert first + (more + AllMatches(tail)) == found + AllMatches(tail);
    }
  }

  /** The failure with its text fields blanked out: the keys are the same. */
  function Blank(f: Failure): Failure {
    f.(operationFamily := "", benchmarkOperation := "", spanOrPhase := "", workerId := "", resourceProfileId := "",
       appHeapBudget := "", failureContext := "")
  }

  lemma BlankKeys(f: Failure, i: nat)
    requires i < 22
    ensures |Fields(f)| == |Fields(Blank(f))| == 22 && Fields(f)[i].key == Fields(Blank(f))[i].key
  {
    hide Decimal.Show, ShowOption;
    PartsOfFields(f);
    PartsOfFields(Blank(f));
  }

  lemma KeysAreWords(f: Failure)
    ensures WordKeys(Fields(f))
  {
    hide Fields, AllWord;
    assert CleanFailure(Blank(f));
    FieldsAreReadable(Blank(f));
    PartsOfFields(f);
    forall i | 0 <= i < |Fields(f)| ensures Fields(f)[i].key != [] && AllWord(Fields(f)[i].key) {
      BlankKeys(f, i);
      assert Readable(Fields(Blank(f))[i]);
    }
  }

  lemma TagIsSkipped(body: string)
    ensures AllMatches(TAG + " " + body) == AllMatches(body)
  {
    hide NextMatch;
    assert AllMatches(TAG + " " + body) == AllMatches(" " + body) by {
      SkipWord(TAG, body);
    }
    SkipSpace(body);
  }

  /** The matches of a line with decent fields: some without spaces, then the detail. */
  lemma LineMatches(f: Failure) returns (found: seq<Pair>)
    requires DecentValues(Fields(f))
    ensures AllMatches(ErrorMessage(f)) == found + [Pair("detail", Unquoted(HumanDetail(f)))] && Unspaced(found)
  {
    hide HumanDetail, Fields, ShowFields, AllMatches, Decent;
    var tail := QuotedDetail(Unquoted(HumanDetail(f)));
    var body := ShowFields(Fields(f)) + tail;
    assert ErrorMessage(f) == TAG + " " + body;
    TagIsSkipped(body);
    KeysAreWords(f);
    found := FieldsStretch(Fields(f), tail);
    DetailMatches(Unquoted(HumanDetail(f)));
  }

  lemma DetailIsVerbatim(f: Failure)
    ensures Unquoted(HumanDetail(f)) == HumanDetail(f) && HumanDetail(f) != []
    ensures HumanDetail(f)[|HumanDetail(f)| - 1] == '.'
  {
    DetailIsQuoteFree(f);
    UnquotedSame(HumanDetail(f));
    PlaceEnds(f);
  }

  lemma PlaceEnds(f: Failure)
    ensures Place(f) != [] && Place(f)[|Place(f)| - 1] == '.'
  {
    hide Decimal.Show;
  }

  lemma MessageEnds(f: Failure)
    ensures Ending(ErrorMessage(f))
  {
    DetailIsVerbatim(f);
    hide HumanDetail, Fields, ShowFields, Unquoted;
    var detail := HumanDetail(f);
    var before := TAG + " " + (ShowFields(Fields(f)) + ("detail" + "=" + "\""));
    assert ErrorMessage(f) == before + detail + "\"";
  }

  // ---- the line

  lemma BackMeansDecent(f: Failure)
    requires AllComeBack(f)
    ensures DecentValues(Fields(f))
  {
    hide Fields, AllMatches, ErrorMessage, Collect, Decent, Ending;
    MessageEnds(f);
    AllAreDecent(ErrorMessage(f));
    forall i | 0 <= i < |Fields(f)| ensures Decent(Fields(f)[i].value) {
      assert Says(Parsed(f), Fields(f)[i].key, Fields(f)[i].value);
      CollectedIsMatched(map[], AllMatches(ErrorMessage(f)), Fields(f)[i].key);
    }
  }

  lemma BackMeansUnspaced(f: Failure)
    requires AllComeBack(f)
    ensures Unspaced(Fields(f))
  {
    hide Fields, AllMatches, ErrorMessage, Collect, Decent, HumanDetail, Position;
    BackMeansDecent(f);
    var found := LineMatches(f);
    AllPlaced(f, Unquoted(HumanDetail(f)));
    var pairs := Fields(f) + [Pair("detail", Unquoted(HumanDetail(f)))];
    forall i | 0 <= i < |Fields(f)| ensures ' ' !in Fields(f)[i].value {
      assert Says(Parsed(f), Fields(f)[i].key, Fields(f)[i].value);
      CollectedIsMatched(map[], AllMatches(ErrorMessage(f)), Fields(f)[i].key);
      assert pairs[i].key != pairs[|Fields(f)|].key;
      assert Pair(Fields(f)[i].key, Fields(f)[i].value) in found;
    }
  }

  lemma TextFields(f: Failure)
    ensures |Fields(f)| == 22
    ensures Fields(f)[2].value == f.operationFamily && Fields(f)[3].value == f.benchmarkOperation
    ensures Fields(f)[4].value == f.spanOrPhase && Fields(f)[7].value == f.workerId
    ensures Fields(f)[8].value == f.resourceProfileId && Fields(f)[10].value == f.appHeapBudget
    ensures Fields(f)[21].value == f.failureContext
  {
    hide Decimal.Show, ShowOption;
  }

  /** Every key of the line is read back with its value if and only if every text field is clean. */
  lemma LineComesBackIff(f: Failure)
    ensures AllComeBack(f) <==> CleanFailure(f)
  {
    hide Fields, Parsed, Decent;
    if AllComeBack(f) {
      BackMeansDecent(f);
      BackMeansUnspaced(f);
      TextFields(f);
      forall i | 0 <= i < 22 ensures Clean(Fields(f)[i].value) {
        DecentUnspacedIsClean(Fields(f)[i].value);
      }
    }
    if CleanFailure(f) {
      RoundTrip(f);
      assert forall i | 0 <= i < |Fields(f)| :: Pairs(f)[i] == Fields(f)[i];
    }
  }

  lemma DecentUnspacedIsClean(value: string)
    requires Decent(value) && ' ' !in value
    ensures Clean(value)
  {
  }
}
