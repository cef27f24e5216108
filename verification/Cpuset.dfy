/** Docker cpuset strings: comma-separated CPU numbers and inclusive ranges. */
module Cpuset {
  import opened Wrappers
  import opened Sorting
  import Decimal

  datatype CpusetError = InvalidRange(part: string) | InvalidCpu(part: string)

  // ---- strings

  /** The ASCII characters Python strips. */
  predicate IsSpace(c: char) {
    c == ' ' || 9 <= c as int <= 13 || 28 <= c as int <= 31
  }

  function StripLeft(s: string): string {
    if s != [] && IsSpace(s[0]) then StripLeft(s[1..]) else s
  }

  function StripRight(s: string): string {
    if s != [] && IsSpace(s[|s| - 1]) then StripRight(s[..|s| - 1]) else s
  }

  /** str.strip() */
  function Strip(s: string): string {
    StripRight(StripLeft(s))
  }

  lemma StripNothing(s: string)
    requires forall i | 0 <= i < |s| :: !IsSpace(s[i])
    ensures Strip(s) == s
  {
  }

  /** Space, tab, line feed, vertical tab, form feed, carriage return and the four separators. */
  const BLANKS := [' ', '\t', '\n', 11 as char, 12 as char, '\r', 28 as char, 29 as char, 30 as char, 31 as char]

  lemma SpaceIff(c: char)
    ensures IsSpace(c) <==> c in BLANKS
  {
  }

  predicate Blank(s: string) {
    forall i | 0 <= i < |s| :: s[i] in BLANKS
  }

  lemma {:induction false} StripLeftBlank(before: string, s: string)
    requires Blank(before)
    ensures StripLeft(before + s) == StripLeft(s)
    decreases |before|
  {
    if before == [] {
      assert before + s == s;
    } else {
      SpaceIff(before[0]);
      assert (before + s)[1..] == before[1..] + s;
      StripLeftBlank(before[1..], s);
    }
  }

  lemma {:induction false} StripRightBlank(s: string, after: string)
    requires Blank(after)
    ensures StripRight(s + after) == StripRight(s)
    decreases |after|
  {
    if after == [] {
      assert s + after == s;
    } else {
      var last := |after| - 1;
      SpaceIff(after[last]);
      assert (s + after)[..|s + after| - 1] == s + after[..last];
      StripRightBlank(s, after[..last]);
    }
  }

  lemma {:induction false} StripLeftThenAfter(s: string, after: string)
    requires Blank(after)
    ensures StripRight(StripLeft(s + after)) == StripRight(StripLeft(s))
    decreases |s|
  {
    if s == [] {
      assert s + after == after;
      StripLeftBlank(after, []);
      assert after + [] == after;
    } else if IsSpace(s[0]) {
      assert (s + after)[1..] == s[1..] + after;
      StripLeftThenAfter(s[1..], after);
    } else {
      StripRightBlank(s, after);
    }
  }

  /** Blanks around a text are stripped, and no other characters are. */
  lemma StripIgnoresBlanks(before: string, s: string, after: string)
    requires Blank(before) && Blank(after)
    ensures Strip(before + s + after) == Strip(s)
    ensures s != [] && s[0] !in BLANKS && s[|s| - 1] !in BLANKS ==> Strip(s) == s
  {
    StripLeftThenAfter(before + s, after);
    StripLeftBlank(before, s);
    if s != [] {
      SpaceIff(s[0]);
      SpaceIff(s[|s| - 1]);
    }
  }

  /** The length of the prefix before the first separator. */
  function Before(s: string, separator: char): (n: nat)
    ensures n <= |s|
    ensures n < |s| ==> s[n] == separator
    ensures forall i | 0 <= i < n :: s[i] != separator
  {
    if s == [] || s[0] == separator then 0 else 1 + Before(s[1..], separator)
  }

  /** str.split(","): always at least one part. */
  function Split(s: string): seq<string>
    decreases |s|
  {
    var n := Before(s, ',');
    if n == |s| then [s] else [s[..n]] + Split(s[n + 1..])
  }

  /** ",".join(parts) */
  function Join(parts: seq<string>): string {
    if parts == [] then "" else if |parts| == 1 then parts[0] else parts[0] + "," + Join(parts[1..])
  }

  lemma BeforeOf(s: string, separator: char, rest: string)
    requires separator !in s
    ensures Before(s + [separator] + rest, separator) == |s|
    ensures Before(s, separator) == |s|
  {
    var t := s + [separator] + rest;
    assert t[|s|] == separator;
    assert forall i | 0 <= i < |s| :: t[i] == s[i];
  }

  /** Splitting undoes joining when no part holds a comma. */
  lemma {:induction false} SplitJoin(parts: seq<string>)
    requires parts != [] && forall i | 0 <= i < |parts| :: ',' !in parts[i]
    ensures Split(Join(parts)) == parts
    decreases |parts|
  {
    BeforeOf(parts[0], ',', []);
    if |parts| > 1 {
      var rest := Join(parts[1..]);
      BeforeOf(parts[0], ',', rest);
      var s := parts[0] + "," + rest;
      assert s == parts[0] + [','] + rest;
      assert s[..|parts[0]|] == parts[0] && s[|parts[0]| + 1..] == rest;
      SplitJoin(parts[1..]);
      assert parts == [parts[0]] + parts[1..];
    }
  }

  /** Digits, with single underscores allowed between them. */
  predicate IsNumber(s: string) {
    && s != [] && s[0] != '_' && s[|s| - 1] != '_'
    && (forall i | 0 <= i < |s| :: Decimal.IsDigit(s[i]) || s[i] == '_')
    && forall i | 0 <= i < |s| - 1 :: s[i] != '_' || s[i + 1] != '_'
  }

  function WithoutUnderscores(s: string): (r: string)
    requires forall i | 0 <= i < |s| :: Decimal.IsDigit(s[i]) || s[i] == '_'
    ensures Decimal.AllDigits(r)
    ensures Decimal.AllDigits(s) ==> r == s
  {
    if s == [] then "" else (if s[0] == '_' then "" else [s[0]]) + WithoutUnderscores(s[1..])
  }

  /** int(s) on ASCII digits with an optional sign, blanks around them allowed. */
  function ParseInt(s: string): Option<int> {
    var t := Strip(s);
    var signed := t != [] && (t[0] == '+' || t[0] == '-');
    var digits := if signed then t[1..] else t;
    if !IsNumber(digits) then None
    else
      var n: int := Decimal.Read(WithoutUnderscores(digits));
      Some(if signed && t[0] == '-' then -n else n)
  }

  /** Blanks, perhaps a sign, and a number with this value. */
  ghost predicate Spells(s: string, before: string, sign: string, body: string, after: string, n: int) {
    && s == before + (sign + body) + after && Blank(before) && Blank(after)
    && (sign == "" || sign == "+" || sign == "-") && IsNumber(body)
    && n == if sign == "-" then -(Decimal.Read(WithoutUnderscores(body)) as int) else Decimal.Read(WithoutUnderscores(body))
  }

  lemma {:induction false} StripSplits(s: string) returns (before: string, after: string)
    ensures s == before + Strip(s) + after && Blank(before) && Blank(after)
    decreases |s|
  {
    if s != [] && IsSpace(s[0]) {
      var b, a := StripSplits(s[1..]);
      SpaceIff(s[0]);
      before, after := [s[0]] + b, a;
      assert s == [s[0]] + s[1..];
    } else {
      after := StripRightSplits(s);
      before := [];
      assert before + Strip(s) == Strip(s);
    }
  }

  lemma {:induction false} StripRightSplits(s: string) returns (after: string)
    ensures s == StripRight(s) + after && Blank(after)
    decreases |s|
  {
    if s != [] && IsSpace(s[|s| - 1]) {
      var a := StripRightSplits(s[..|s| - 1]);
      SpaceIff(s[|s| - 1]);
      after := a + [s[|s| - 1]];
      assert s == s[..|s| - 1] + [s[|s| - 1]];
    } else {
      after := [];
    }
  }

  lemma NoBlanks(c: char)
    requires Decimal.IsDigit(c) || c == '+' || c == '-'
    ensures c !in BLANKS
  {
  }

  lemma SpelledIsRead(s: string, before: string, sign: string, body: string, after: string, n: int)
    requires Spells(s, before, sign, body, after, n)
    ensures ParseInt(s) == Some(n)
  {
    hide Strip, WithoutUnderscores, Decimal.Read;
    var t := sign + body;
    NoBlanks(t[0]);
    NoBlanks(t[|t| - 1]);
    StripIgnoresBlanks(before, t, after);
    assert sign != "" ==> t[1..] == body;
    assert sign == "" ==> t == body;
  }

  lemma ReadIsSpelled(s: string) returns (before: string, sign: string, body: string, after: string)
    requires ParseInt(s).Some?
    ensures Spells(s, before, sign, body, after, ParseInt(s).value)
  {
    hide Strip, WithoutUnderscores, Decimal.Read;
    var t := Strip(s);
    before, after := StripSplits(s);
    if t != [] && (t[0] == '+' || t[0] == '-') {
      sign, body := [t[0]], t[1..];
    } else {
      sign, body := "", t;
    }
    assert t == sign + body;
  }

  function RangeOf(part: string, low: Option<int>, high: Option<int>): (range: Result<(nat, nat), CpusetError>)
    ensures range.Ok? ==> range.value.0 <= range.value.1
  {
    if low.None? || high.None? || low.value < 0 || high.value < 0 || low.value > high.value then Err(InvalidRange(part))
    else Ok((low.value, high.value))
  }

  /** The CPUs of one part, as an inclusive range; a part with a minus sign is always read as a range. */
  function ParsePart(part: string): (range: Result<(nat, nat), CpusetError>)
    ensures range.Ok? ==> range.value.0 <= range.value.1
  {
    var n := Before(part, '-');
    if n < |part| then RangeOf(part, ParseInt(part[..n]), ParseInt(part[n + 1..]))
    else
      assert '-' !in part;
      UnsignedIsNotNegative(part);
      var cpu := ParseInt(part);
      if cpu.None? then Err(InvalidCpu(part)) else Ok((cpu.value, cpu.value))
  }

  /** Without a minus sign no number is negative. */
  lemma UnsignedIsNotNegative(s: string)
    requires '-' !in s
    ensures ParseInt(s).Some? ==> ParseInt(s).value >= 0
  {
    StripKeeps(s);
  }

  lemma StripKeeps(s: string)
    ensures forall i | 0 <= i < |Strip(s)| :: Strip(s)[i] in s
  {
    LeftKeeps(s);
    RightKeeps(StripLeft(s));
  }

  lemma {:induction false} LeftKeeps(s: string)
    ensures forall i | 0 <= i < |StripLeft(s)| :: StripLeft(s)[i] in s
    decreases |s|
  {
    if s != [] && IsSpace(s[0]) {
      LeftKeeps(s[1..]);
    }
  }

  lemma {:induction false} RightKeeps(s: string)
    ensures forall i | 0 <= i < |StripRight(s)| :: StripRight(s)[i] in s
    decreases |s|
  {
    if s != [] && IsSpace(s[|s| - 1]) {
      RightKeeps(s[..|s| - 1]);
    }
  }

  /** The ranges of all parts, blank parts skipped, up to the first error. */
  function ParseParts(parts: seq<string>): Result<seq<(nat, nat)>, CpusetError>
    decreases |parts|
  {
    if parts == [] then Ok([])
    else
      var rest := ParseParts(parts[..|parts| - 1]);
      var part := Strip(parts[|parts| - 1]);
      if rest.Err? || part == "" then rest
      else
        var range := ParsePart(part);
        if range.Err? then Err(range.error) else Ok(rest.value + [range.value])
  }

  predicate Covers(ranges: seq<(nat, nat)>, cpu: int) {
    exists i :: 0 <= i < |ranges| && ranges[i].0 <= cpu <= ranges[i].1
  }

  ghost predicate Gathers(cpus: seq<int>, ranges: seq<(nat, nat)>) {
    forall x :: x in cpus <==> Covers(ranges, x)
  }

  /** docker_cpuset_to_cpu_list: the CPUs of all ranges, ascending and distinct. */
  method DockerCpusetToCpuList(text: string) returns (result: Result<seq<int>, CpusetError>)
    ensures match ParseParts(Split(Strip(text)))
            case Err(error) => result == Err(error)
            case Ok(ranges) =>
              result.Ok? && StrictlyAscending(result.value) && Gathers(result.value, ranges)
  {
    hide Covers, ParseParts, ParsePart, Strip, Split, SortedSet;
    assert ParseParts([]) == Ok([]) by { NoParts(); }
    assert Gathers([], []) by { NothingGathered(); }
    var parts := Split(Strip(text));
    assert parts[..0] == [];
    var cpus: seq<int>, ranges: seq<(nat, nat)> := [], [];
    for k := 0 to |parts|
      invariant ParseParts(parts[..k]) == Ok(ranges)
      invariant Gathers(cpus, ranges)
    {
      PartsSnoc(parts, k);
      var part := Strip(parts[k]);
      if part == "" {
        continue;
      }
      var range := ParsePart(part);
      if range.Err? {
        ErrorStays(parts, k + 1);
        return Err(range.error);
      }
      var more := AddRange(cpus, range.value.0, range.value.1);
      GathersMore(cpus, ranges, range.value, more);
      cpus, ranges := more, ranges + [range.value];
    }
    assert parts[..|parts|] == parts;
    SortedSetIs(cpus);
    return Ok(SortedSet(cpus));
  }

  /** for cpu in range(low, high + 1): cpus.add(cpu) */
  method AddRange(cpus: seq<int>, low: nat, high: nat) returns (r: seq<int>)
    requires low <= high
    ensures forall x :: x in r <==> x in cpus || low <= x <= high
  {
    r := cpus;
    for cpu := low to high + 1
      invariant forall x :: x in r <==> x in cpus || low <= x < cpu
    {
      r := r + [cpu];
    }
  }

  lemma NoParts()
    ensures ParseParts([]) == Ok([])
  {
  }

  lemma NothingGathered()
    ensures Gathers([], [])
  {
  }

  lemma PartsSnoc(parts: seq<string>, k: nat)
    requires k < |parts|
    ensures var rest, part := ParseParts(parts[..k]), Strip(parts[k]);
            ParseParts(parts[..k + 1]) ==
            if rest.Err? || part == "" then rest
            else if ParsePart(part).Err? then Err(ParsePart(part).error)
            else Ok(rest.value + [ParsePart(part).value])
  {
    assert parts[..k + 1][..k] == parts[..k];
  }

  lemma GathersMore(cpus: seq<int>, ranges: seq<(nat, nat)>, range: (nat, nat), more: seq<int>)
    requires Gathers(cpus, ranges) && forall x :: x in more <==> x in cpus || range.0 <= x <= range.1
    ensures Gathers(more, ranges + [range])
  {
    hide Covers;
    CoversSnoc(ranges, range);
  }

  lemma CoversSnoc(ranges: seq<(nat, nat)>, range: (nat, nat))
    ensures forall x :: Covers(ranges + [range], x) <==> Covers(ranges, x) || range.0 <= x <= range.1
  {
    var r := ranges + [range];
    forall x ensures Covers(r, x) <==> Covers(ranges, x) || range.0 <= x <= range.1 {
      if range.0 <= x <= range.1 {
        assert r[|ranges|] == range;
      }
      if Covers(ranges, x) {
        var i :| 0 <= i < |ranges| && ranges[i].0 <= x <= ranges[i].1;
        assert r[i] == ranges[i];
      }
    }
  }

  lemma {:induction false} ErrorStays(parts: seq<string>, k: nat)
    requires k <= |parts| && ParseParts(parts[..k]).Err?
    ensures ParseParts(parts) == ParseParts(parts[..k])
    decreases |parts|
  {
    if k == |parts| {
      assert parts[..k] == parts;
    } else {
      assert parts[..|parts| - 1][..k] == parts[..k];
      ErrorStays(parts[..|parts| - 1], k);
    }
  }

  // ---- the printer

  function ShowRange(low: nat, high: nat): string {
    if low == high then Decimal.Show(low) else Decimal.Show(low) + "-" + Decimal.Show(high)
  }

  /** The ranges printed for the CPUs still to come, with one range open. */
  function RangesFrom(low: nat, high: nat, rest: seq<nat>): seq<(nat, nat)>
    decreases |rest|
  {
    if rest == [] then [(low, high)]
    else if rest[0] == high + 1 then RangesFrom(low, rest[0], rest[1..])
    else [(low, high)] + RangesFrom(rest[0], rest[0], rest[1..])
  }

  function ShowRanges(ranges: seq<(nat, nat)>): seq<string> {
    seq(|ranges|, i requires 0 <= i < |ranges| => ShowRange(ranges[i].0, ranges[i].1))
  }

  function SortNat(cpus: seq<nat>): (sorted: seq<nat>)
    ensures sorted == Sort(cpus) && |sorted| == |cpus|
  {
    SortIsNat(cpus);
    SortSorts(cpus);
    Sort(cpus)
  }

  lemma SortIsNat(cpus: seq<nat>)
    ensures forall i | 0 <= i < |Sort(cpus)| :: Sort(cpus)[i] >= 0
  {
    forall i | 0 <= i < |Sort(cpus)| ensures Sort(cpus)[i] >= 0 {
      SortKeepsElements(cpus, Sort(cpus)[i]);
    }
  }

  function RangesOf(cpus: seq<nat>): seq<(nat, nat)> {
    var sorted := SortNat(cpus);
    if sorted == [] then [] else RangesFrom(sorted[0], sorted[0], sorted[1..])
  }

  lemma ShowRangesSnoc(ranges: seq<(nat, nat)>, low: nat, high: nat)
    ensures ShowRanges(ranges + [(low, high)]) == ShowRanges(ranges) + [ShowRange(low, high)]
  {
    hide ShowRange;
  }

  /** cpu_list_to_docker_cpuset: runs of consecutive CPUs as ranges, any other CPU on its own. */
  method CpuListToDockerCpuset(cpus: seq<nat>) returns (text: string)
    ensures text == Join(ShowRanges(RangesOf(cpus)))
  {
    if cpus == [] {
      return "";
    }
    hide ShowRange, ShowRanges, Join, Sort;
    var sorted := SortNat(cpus);
    var low, high := sorted[0], sorted[0];
    var ranges: seq<string> := [];
    ghost var done: seq<(nat, nat)> := [];
    assert ranges == ShowRanges(done) by { NothingShown(); }
    for k := 1 to |sorted|
      invariant RangesOf(cpus) == done + RangesFrom(low, high, sorted[k..])
      invariant ranges == ShowRanges(done)
    {
      assert sorted[k..][0] == sorted[k] && sorted[k..][1..] == sorted[k + 1..];
      if sorted[k] == high + 1 {
        high := sorted[k];
      } else {
        ShowRangesSnoc(done, low, high);
        ranges := ranges + [ShowRange(low, high)];
        assert done + ([(low, high)] + RangesFrom(sorted[k], sorted[k], sorted[k + 1..]))
            == done + [(low, high)] + RangesFrom(sorted[k], sorted[k], sorted[k + 1..]);
        done := done + [(low, high)];
        low, high := sorted[k], sorted[k];
      }
    }
    ShowRangesSnoc(done, low, high);
    ranges := ranges + [ShowRange(low, high)];
    assert RangesFrom(low, high, []) == [(low, high)];
    text := Join(ranges);
  }

  lemma NothingShown()
    ensures ShowRanges([]) == []
  {
  }

  // ---- the round trip

  /** The open range and what is still to come are exactly what the ranges cover. */
  lemma {:induction false} RangesCover(low: nat, high: nat, rest: seq<nat>, x: int)
    requires low <= high
    ensures Covers(RangesFrom(low, high, rest), x) <==> low <= x <= high || x in rest
    decreases |rest|
  {
    if rest == [] {
      assert RangesFrom(low, high, rest)[0] == (low, high);
    } else {
      assert rest == [rest[0]] + rest[1..];
      if rest[0] == high + 1 {
        RangesCover(low, rest[0], rest[1..], x);
      } else {
        var tail := RangesFrom(rest[0], rest[0], rest[1..]);
        RangesCover(rest[0], rest[0], rest[1..], x);
        CoversCons((low, high), tail, x);
      }
    }
  }

  lemma CoversCons(range: (nat, nat), ranges: seq<(nat, nat)>, x: int)
    ensures Covers([range] + ranges, x) <==> range.0 <= x <= range.1 || Covers(ranges, x)
  {
    var all := [range] + ranges;
    if range.0 <= x <= range.1 {
      assert all[0] == range;
    }
    if Covers(ranges, x) {
      var i :| 0 <= i < |ranges| && ranges[i].0 <= x <= ranges[i].1;
      assert all[i + 1] == ranges[i];
    }
  }

  lemma {:induction false} RangesAreOrdered(low: nat, high: nat, rest: seq<nat>)
    requires low <= high
    ensures RangesFrom(low, high, rest) != []
    ensures forall i | 0 <= i < |RangesFrom(low, high, rest)| ::
              RangesFrom(low, high, rest)[i].0 <= RangesFrom(low, high, rest)[i].1
    decreases |rest|
  {
    if rest != [] {
      RangesAreOrdered(if rest[0] == high + 1 then low else rest[0], rest[0], rest[1..]);
    }
  }

  lemma ParseIntOfShow(n: nat)
    ensures ParseInt(Decimal.Show(n)) == Some(n)
  {
    var s := Decimal.Show(n);
    assert forall i | 0 <= i < |s| :: Decimal.IsDigit(s[i]);
    StripNothing(s);
    Decimal.ReadShow(n);
  }

  lemma DigitsOnly(n: nat)
    ensures NoBlank(Decimal.Show(n)) && ',' !in Decimal.Show(n) && '-' !in Decimal.Show(n) && Decimal.Show(n) != ""
  {
    var s := Decimal.Show(n);
    assert forall i | 0 <= i < |s| :: Decimal.IsDigit(s[i]);
    hide Decimal.Show;
  }

  lemma ParseSingle(n: nat)
    ensures ParsePart(Decimal.Show(n)) == Ok((n, n))
  {
    hide Decimal.Show, ParseInt, Before;
    DigitsOnly(n);
    BeforeOf(Decimal.Show(n), '-', []);
    ParseIntOfShow(n);
  }

  lemma ParseDouble(low: nat, high: nat)
    requires low <= high
    ensures ParsePart(Decimal.Show(low) + "-" + Decimal.Show(high)) == Ok((low, high))
  {
    hide Decimal.Show, ParseInt, Before;
    var a, b := Decimal.Show(low), Decimal.Show(high);
    var part := a + "-" + b;
    DigitsOnly(low);
    assert part == a + ['-'] + b;
    BeforeOf(a, '-', b);
    assert part[..|a|] == a && part[|a| + 1..] == b;
    ParseIntOfShow(low);
    ParseIntOfShow(high);
  }

  /** A printed range has no comma and no blanks, and is read back as the same range. */
  lemma ParsePartOfShow(low: nat, high: nat)
    requires low <= high
    ensures var part := ShowRange(low, high);
            part != "" && ',' !in part && Strip(part) == part && ParsePart(part) == Ok((low, high))
  {
    hide Decimal.Show, ParsePart, Strip;
    DigitsOnly(low);
    DigitsOnly(high);
    ShownNoBlank(low, high);
    StripNothing(ShowRange(low, high));
    if low == high {
      ParseSingle(low);
    } else {
      ParseDouble(low, high);
    }
  }

  lemma {:induction false} ParseShown(ranges: seq<(nat, nat)>)
    requires forall i | 0 <= i < |ranges| :: ranges[i].0 <= ranges[i].1
    ensures ParseParts(ShowRanges(ranges)) == Ok(ranges)
    decreases |ranges|
  {
    hide ParsePart, ShowRange, Strip;
    if ranges != [] {
      var rest, last := ranges[..|ranges| - 1], ranges[|ranges| - 1];
      assert ranges == rest + [last];
      ParseShown(rest);
      ShowRangesSnoc(rest, last.0, last.1);
      ParsePartOfShow(last.0, last.1);
      var parts := ShowRanges(ranges);
      assert parts[..|parts| - 1] == ShowRanges(rest);
    }
  }

  /** Reading the printed cpuset of any list gives exactly the ranges printed, which cover exactly the list. */
  lemma CpusetRoundTrip(cpus: seq<nat>)
    ensures var text := Join(ShowRanges(RangesOf(cpus)));
            && ParseParts(Split(Strip(text))) == Ok(RangesOf(cpus))
            && forall x :: Covers(RangesOf(cpus), x) <==> x in cpus
  {
    var ranges := RangesOf(cpus);
    RangesOfCover(cpus);
    if ranges == [] {
      assert Strip("") == "" && Split("") == [""];
      assert [""][..0] == [];
    } else {
      hide ParseParts, ParsePart, ShowRange, Covers, RangesOf;
      var parts := ShowRanges(ranges);
      forall i | 0 <= i < |parts| ensures ',' !in parts[i] && parts[i] != "" && NoBlank(parts[i]) {
        ParsePartOfShow(ranges[i].0, ranges[i].1);
        ShownNoBlank(ranges[i].0, ranges[i].1);
      }
      SplitJoin(parts);
      JoinNoBlank(parts);
      StripNothing(Join(parts));
      ParseShown(ranges);
    }
  }

  predicate NoBlank(s: string) {
    forall i | 0 <= i < |s| :: !IsSpace(s[i])
  }

  lemma ShownNoBlank(low: nat, high: nat)
    ensures NoBlank(ShowRange(low, high))
  {
    var a, b := Decimal.Show(low), Decimal.Show(high);
    assert forall i | 0 <= i < |a| :: Decimal.IsDigit(a[i]);
    assert forall i | 0 <= i < |b| :: Decimal.IsDigit(b[i]);
    hide Decimal.Show;
  }

  lemma {:induction false} JoinNoBlank(parts: seq<string>)
    requires forall i | 0 <= i < |parts| :: NoBlank(parts[i])
    ensures NoBlank(Join(parts))
    decreases |parts|
  {
    if |parts| > 1 {
      JoinNoBlank(parts[1..]);
    }
  }

  lemma RangesOfCover(cpus: seq<nat>)
    ensures forall i | 0 <= i < |RangesOf(cpus)| :: RangesOf(cpus)[i].0 <= RangesOf(cpus)[i].1
    ensures forall x :: Covers(RangesOf(cpus), x) <==> x in cpus
  {
    var sorted := SortNat(cpus);
    forall x {
      SortKeepsElements(cpus, x);
    }
    if sorted != [] {
      RangesAreOrdered(sorted[0], sorted[0], sorted[1..]);
      assert sorted == [sorted[0]] + sorted[1..];
      forall x ensures Covers(RangesOf(cpus), x) <==> x in cpus {
        RangesCover(sorted[0], sorted[0], sorted[1..], x);
      }
    }
  }

  /** Printing any list and reading the text back gives the distinct CPUs in ascending order. */
  method PrintAndRead(cpus: seq<nat>) returns (text: string, back: Result<seq<int>, CpusetError>)
    ensures back == Ok(SortedSet(cpus))
  {
    text := CpuListToDockerCpuset(cpus);
    back := DockerCpusetToCpuList(text);
    hide Join, ShowRanges, RangesOf, ParseParts, Split, Strip, Covers, SortedSet;
    CpusetRoundTrip(cpus);
    SortedSetIs(cpus);
    AscendingUnique(back.value, SortedSet(cpus));
  }
}
