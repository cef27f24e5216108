/** Choosing the CPUs for profiled workers from the host's topology and its sampled load. */
module CpuTopology {
  import opened Wrappers
  import opened Sorting

  datatype CpuInfo = CpuInfo(online: bool, isSmtSibling: bool)

  datatype Topology = Topology(cpus: map<int, CpuInfo>, smtEnabled: bool, coreToCpus: map<int, seq<int>>)

  datatype SelectionError = InsufficientCpus(need: nat, have: nat)

  /** get_online_cpu_list: the online CPUs, ascending. `listed` is the order the dictionary happens to have. */
  function OnlineAmong(topology: Topology, listed: seq<int>): seq<int> {
    if listed == [] then []
    else
      var rest := OnlineAmong(topology, listed[1..]);
      if listed[0] in topology.cpus && topology.cpus[listed[0]].online then [listed[0]] + rest else rest
  }

  predicate Online(topology: Topology, cpu: int) {
    cpu in topology.cpus && topology.cpus[cpu].online
  }

  ghost predicate IsOnlineList(topology: Topology, online: seq<int>) {
    StrictlyAscending(online) && forall c :: c in online <==> Online(topology, c)
  }

  lemma {:induction false} OnlineAmongIs(topology: Topology, listed: seq<int>, c: int)
    ensures c in OnlineAmong(topology, listed) <==> c in listed && Online(topology, c)
    decreases |listed|
  {
    if listed != [] {
      OnlineAmongIs(topology, listed[1..], c);
      assert listed == [listed[0]] + listed[1..];
    }
  }

  method GetOnlineCpuList(topology: Topology, listed: seq<int>) returns (online: seq<int>)
    requires forall c :: c in topology.cpus <==> c in listed
    ensures IsOnlineList(topology, online)
  {
    var found := OnlineAmong(topology, listed);
    SortedSetIs(found);
    forall c {
      OnlineAmongIs(topology, listed, c);
    }
    online := SortedSet(found);
  }

  // ---- least loaded first

  type Load = map<int, real>

  function Busy(load: Load, cpu: int): real {
    if cpu in load then load[cpu] else 0.0
  }

  /** The sort key (load, id). */
  predicate Lighter(load: Load, a: int, b: int) {
    Busy(load, a) < Busy(load, b) || (Busy(load, a) == Busy(load, b) && a < b)
  }

  function InsertByLoad(load: Load, s: seq<int>, x: int): seq<int> {
    if s == [] || !Lighter(load, s[0], x) then [x] + s else [s[0]] + InsertByLoad(load, s[1..], x)
  }

  function SortByLoad(load: Load, s: seq<int>): seq<int> {
    if s == [] then [] else InsertByLoad(load, SortByLoad(load, s[1..]), s[0])
  }

  ghost predicate SortedByLoad(load: Load, s: seq<int>) {
    forall i, j | 0 <= i < j < |s| :: !Lighter(load, s[j], s[i])
  }

  lemma {:induction false} InsertByLoadMember(load: Load, s: seq<int>, x: int, y: int)
    ensures y in InsertByLoad(load, s, x) <==> y == x || y in s
    ensures |InsertByLoad(load, s, x)| == |s| + 1
    decreases |s|
  {
    if s != [] && Lighter(load, s[0], x) {
      InsertByLoadMember(load, s[1..], x, y);
      assert s == [s[0]] + s[1..];
    }
  }

  lemma {:induction false} InsertByLoadSorts(load: Load, s: seq<int>, x: int)
    requires SortedByLoad(load, s)
    ensures SortedByLoad(load, InsertByLoad(load, s, x))
    decreases |s|
  {
    if s != [] && Lighter(load, s[0], x) {
      InsertByLoadSorts(load, s[1..], x);
      var r := InsertByLoad(load, s[1..], x);
      forall i | 0 <= i < |r| ensures !Lighter(load, r[i], s[0]) {
        InsertByLoadMember(load, s[1..], x, r[i]);
      }
    }
  }

  lemma {:induction false} SortByLoadSorts(load: Load, s: seq<int>)
    ensures SortedByLoad(load, SortByLoad(load, s)) && |SortByLoad(load, s)| == |s|
    ensures forall x :: x in SortByLoad(load, s) <==> x in s
    decreases |s|
  {
    if s != [] {
      SortByLoadSorts(load, s[1..]);
      var rest := SortByLoad(load, s[1..]);
      InsertByLoadSorts(load, rest, s[0]);
      forall x ensures x in SortByLoad(load, s) <==> x in s {
        InsertByLoadMember(load, rest, s[0], x);
        assert s == [s[0]] + s[1..];
      }
      InsertByLoadMember(load, rest, s[0], s[0]);
    }
  }

  // ---- siblings

  /** Two CPUs of one core. */
  predicate ShareCore(topology: Topology, a: int, b: int) {
    exists core :: core in topology.coreToCpus && a in topology.coreToCpus[core] && b in topology.coreToCpus[core]
  }

  /** get_smt_siblings: the other CPUs of every core that runs one of the given CPUs. */
  method GetSmtSiblings(topology: Topology, cpus: seq<int>) returns (siblings: seq<int>)
    ensures StrictlyAscending(siblings)
    ensures forall x :: x in siblings <==>
              topology.smtEnabled && x !in cpus && exists c :: c in cpus && ShareCore(topology, c, x)
  {
    if !topology.smtEnabled {
      return [];
    }
    var found: seq<int> := [];
    var todo := topology.coreToCpus.Keys;
    while todo != {}
      invariant todo <= topology.coreToCpus.Keys
      invariant forall x :: x in found <==> x !in cpus && InDoneCore(topology, todo, cpus, x)
      decreases |todo|
    {
      var core := PickCore(todo);
      var members := topology.coreToCpus[core];
      var more := AddSiblings(found, members, cpus);
      forall x ensures x in more <==> x !in cpus && InDoneCore(topology, todo - {core}, cpus, x) {
        DoneCoreStep(topology, todo, core, cpus, x);
      }
      found, todo := more, todo - {core};
    }
    SortedSetIs(found);
    siblings := SortedSet(found);
    forall x ensures InDoneCore(topology, {}, cpus, x) <==> exists c :: c in cpus && ShareCore(topology, c, x) {
      DoneAll(topology, cpus, x);
    }
  }

  /** Any core: the dictionary's order does not matter. */
  method PickCore<T>(cores: set<T>) returns (core: T)
    requires cores != {}
    ensures core in cores
  {
    core :| core in cores;
  }

  ghost predicate InDoneCore(topology: Topology, todo: set<int>, cpus: seq<int>, x: int) {
    exists core :: core in topology.coreToCpus && core !in todo && UsedCore(topology.coreToCpus[core], cpus, x)
  }

  /** The core runs one of the CPUs, and `x` is on it. */
  ghost predicate UsedCore(members: seq<int>, cpus: seq<int>, x: int) {
    x in members && exists c :: c in members && c in cpus
  }

  lemma DoneCoreStep(topology: Topology, todo: set<int>, core: int, cpus: seq<int>, x: int)
    requires core in todo && core in topology.coreToCpus
    ensures InDoneCore(topology, todo - {core}, cpus, x) <==>
            InDoneCore(topology, todo, cpus, x) || UsedCore(topology.coreToCpus[core], cpus, x)
  {
    hide UsedCore;
  }

  lemma DoneAll(topology: Topology, cpus: seq<int>, x: int)
    ensures InDoneCore(topology, {}, cpus, x) <==> exists c :: c in cpus && ShareCore(topology, c, x)
  {
    if InDoneCore(topology, {}, cpus, x) {
      var core :| core in topology.coreToCpus && UsedCore(topology.coreToCpus[core], cpus, x);
      var c :| c in topology.coreToCpus[core] && c in cpus;
      assert ShareCore(topology, c, x);
    }
    if c :| c in cpus && ShareCore(topology, c, x) {
      var core :| core in topology.coreToCpus && c in topology.coreToCpus[core] && x in topology.coreToCpus[core];
      assert UsedCore(topology.coreToCpus[core], cpus, x);
    }
  }

  /** One core's contribution; a core with a single CPU contributes nothing. */
  method AddSiblings(found: seq<int>, members: seq<int>, cpus: seq<int>) returns (r: seq<int>)
    ensures forall x :: x in r <==> x in found || (x !in cpus && UsedCore(members, cpus, x))
  {
    r := found;
    if |members| <= 1 {
      assert forall a, b | a in members && b in members :: a == b;
      return;
    }
    var used := false;
    for i := 0 to |members|
      invariant used <==> exists j :: 0 <= j < i && members[j] in cpus
    {
      used := used || members[i] in cpus;
    }
    assert forall c | c in members :: exists j :: 0 <= j < |members| && members[j] == c;
    if used {
      ghost var j :| 0 <= j < |members| && members[j] in cpus;
      assert members[j] in members;
      for i := 0 to |members|
        invariant forall x :: x in r <==> x in found || (x !in cpus && x in members[..i])
      {
        assert members[..i + 1] == members[..i] + [members[i]];
        if members[i] !in cpus {
          r := r + [members[i]];
        }
      }
      assert members[..|members|] == members;
    }
  }

  // ---- selection

  /** The list without the excluded CPUs. */
  function Candidates(online: seq<int>, exclude: set<int>): seq<int> {
    if online == [] then []
    else
      var rest := Candidates(online[..|online| - 1], exclude);
      if online[|online| - 1] in exclude then rest else rest + [online[|online| - 1]]
  }

  lemma {:induction false} CandidatesAre(online: seq<int>, exclude: set<int>, c: int)
    ensures c in Candidates(online, exclude) <==> c in online && c !in exclude
    decreases |online|
  {
    if online != [] {
      CandidatesAre(online[..|online| - 1], exclude, c);
      assert online == online[..|online| - 1] + [online[|online| - 1]];
    }
  }

  lemma {:induction false} CandidatesAscend(online: seq<int>, exclude: set<int>)
    requires StrictlyAscending(online)
    ensures StrictlyAscending(Candidates(online, exclude))
    decreases |online|
  {
    if online != [] {
      var rest, last := online[..|online| - 1], online[|online| - 1];
      CandidatesAscend(rest, exclude);
      var c := Candidates(rest, exclude);
      forall i | 0 <= i < |c| ensures c[i] < last {
        CandidatesAre(rest, exclude, c[i]);
        var j :| 0 <= j < |rest| && rest[j] == c[i];
        assert online[j] == c[i];
      }
    }
  }

  /** Every CPU is listed under one core, and under it once. */
  ghost predicate CoresDisjoint(topology: Topology) {
    forall a, b, c | a in topology.coreToCpus && b in topology.coreToCpus
                     && c in topology.coreToCpus[a] && c in topology.coreToCpus[b] :: a == b
  }

  predicate Secondary(topology: Topology, preferPhysical: bool, c: int) {
    preferPhysical && c in topology.cpus && topology.cpus[c].isSmtSibling
  }

  /** The candidates that are not marked as SMT siblings. */
  function Physical(topology: Topology, preferPhysical: bool, candidates: seq<int>): seq<int> {
    if candidates == [] then []
    else
      var rest, last := Physical(topology, preferPhysical, candidates[..|candidates| - 1]), candidates[|candidates| - 1];
      if Secondary(topology, preferPhysical, last) then rest else rest + [last]
  }

  /** The physical cores when there are enough of them, all candidates otherwise. */
  ghost predicate IsPool(topology: Topology, candidates: seq<int>, required: int, preferPhysical: bool, pool: seq<int>) {
    var physical := Physical(topology, preferPhysical, candidates);
    if |physical| >= required then pool == physical
    else |pool| == |candidates| && forall c :: c in pool <==> c in candidates
  }

  /** With a preference for physical cores, the CPUs marked as SMT siblings are set aside, and no others. */
  lemma {:induction false} PhysicalAre(topology: Topology, preferPhysical: bool, candidates: seq<int>, c: int)
    ensures c in Physical(topology, preferPhysical, candidates) <==>
            c in candidates && !(preferPhysical && c in topology.cpus && topology.cpus[c].isSmtSibling)
    decreases |candidates|
  {
    if candidates != [] {
      PhysicalAre(topology, preferPhysical, candidates[..|candidates| - 1], c);
      assert candidates == candidates[..|candidates| - 1] + [candidates[|candidates| - 1]];
    }
  }

  lemma PhysicalOfNone(topology: Topology, preferPhysical: bool, candidates: seq<int>)
    ensures Physical(topology, preferPhysical, candidates[..0]) == []
  {
  }

  lemma PhysicalSnoc(topology: Topology, preferPhysical: bool, candidates: seq<int>, k: nat)
    requires k < |candidates|
    ensures Physical(topology, preferPhysical, candidates[..k + 1]) ==
            Physical(topology, preferPhysical, candidates[..k]) +
            if Secondary(topology, preferPhysical, candidates[k]) then [] else [candidates[k]]
  {
    assert candidates[..k + 1][..k] == candidates[..k];
  }

  /** The candidates are split into physical cores and SMT siblings; siblings are used only when needed. */
  method MakePool(topology: Topology, candidates: seq<int>, required: nat, preferPhysical: bool)
    returns (pool: seq<int>)
    requires AllDistinct(candidates)
    ensures AllDistinct(pool) && (forall c :: c in pool ==> c in candidates)
    ensures IsPool(topology, candidates, required, preferPhysical, pool)
  {
    hide Physical, Secondary;
    PhysicalOfNone(topology, preferPhysical, candidates);
    var first: seq<int>, second: seq<int> := [], [];
    for k := 0 to |candidates|
      invariant first == Physical(topology, preferPhysical, candidates[..k])
      invariant forall c :: c in first <==> c in candidates[..k] && !Secondary(topology, preferPhysical, c)
      invariant forall c :: c in second <==> c in candidates[..k] && Secondary(topology, preferPhysical, c)
      invariant |first| + |second| == k && AllDistinct(first) && AllDistinct(second)
    {
      var c := candidates[k];
      PhysicalSnoc(topology, preferPhysical, candidates, k);
      assert candidates[..k + 1] == candidates[..k] + [c];
      assert c !in candidates[..k];
      if Secondary(topology, preferPhysical, c) {
        second := second + [c];
      } else {
        first := first + [c];
      }
    }
    assert candidates[..|candidates|] == candidates;
    assert forall i, j | 0 <= i < |first| && 0 <= j < |second| :: first[i] != second[j] by {
      assert forall i | 0 <= i < |first| :: first[i] in first;
      assert forall j | 0 <= j < |second| :: second[j] in second;
    }
    pool := if |first| < required then first + second else first;
  }

  /** The siblings a selected CPU brings with it: sibling_map.get(cpu, []). */
  method SiblingsOf(topology: Topology, cpu: int) returns (siblings: seq<int>)
    requires CoresDisjoint(topology)
    ensures forall x :: x in siblings <==> x != cpu && ShareCore(topology, cpu, x)
  {
    siblings := [];
    var todo := topology.coreToCpus.Keys;
    while todo != {}
      invariant todo <= topology.coreToCpus.Keys
      invariant forall x :: x in siblings <==> x != cpu && InDoneCore(topology, todo, [cpu], x)
      decreases |todo|
    {
      var core := PickCore(todo);
      var members := topology.coreToCpus[core];
      forall x {
        DoneCoreStep(topology, todo, core, [cpu], x);
      }
      if |members| > 1 && cpu in members {
        siblings := Others(members, cpu);
      } else {
        assert forall x :: UsedCore(members, [cpu], x) ==> x == cpu by {
          assert |members| <= 1 ==> forall a, b | a in members && b in members :: a == b;
        }
      }
      todo := todo - {core};
    }
    forall x ensures InDoneCore(topology, {}, [cpu], x) <==> ShareCore(topology, cpu, x) {
      DoneAll(topology, [cpu], x);
      assert cpu in [cpu];
    }
  }

  function Others(members: seq<int>, cpu: int): (r: seq<int>)
    ensures forall x :: x in r <==> x in members && x != cpu
  {
    if members == [] then []
    else
      assert members == [members[0]] + members[1..];
      (if members[0] == cpu then [] else [members[0]]) + Others(members[1..], cpu)
  }

  /** What the selection promises about the CPUs it picks before any reservation. */
  ghost predicate LeastLoaded(load: Load, pool: seq<int>, chosen: seq<int>) {
    && (forall c :: c in chosen ==> c in pool)
    && forall c, u | c in chosen && u in pool && u !in chosen :: Lighter(load, c, u)
  }

  lemma PrefixIsLeastLoaded(load: Load, pool: seq<int>, n: nat)
    requires AllDistinct(pool) && n <= |pool|
    ensures AllDistinct(SortByLoad(load, pool)) && |SortByLoad(load, pool)| == |pool|
    ensures LeastLoaded(load, pool, SortByLoad(load, pool)[..n])
  {
    SortByLoadSorts(load, pool);
    var sorted := SortByLoad(load, pool);
    SortByLoadDistinct(load, pool);
    forall c, u | c in sorted[..n] && u in pool && u !in sorted[..n] ensures Lighter(load, c, u) {
      var i :| 0 <= i < n && sorted[i] == c;
      var j :| 0 <= j < |sorted| && sorted[j] == u;
      assert forall k | 0 <= k < n :: sorted[k] in sorted[..n];
      assert !Lighter(load, sorted[j], sorted[i]) && c != u;
    }
  }

  lemma {:induction false} InsertByLoadDistinct(load: Load, s: seq<int>, x: int)
    requires AllDistinct(s) && x !in s
    ensures AllDistinct(InsertByLoad(load, s, x))
    decreases |s|
  {
    if s != [] && Lighter(load, s[0], x) {
      InsertByLoadDistinct(load, s[1..], x);
      var r := InsertByLoad(load, s[1..], x);
      forall i | 0 <= i < |r| ensures r[i] != s[0] {
        InsertByLoadMember(load, s[1..], x, r[i]);
      }
    }
  }

  lemma {:induction false} SortByLoadDistinct(load: Load, s: seq<int>)
    requires AllDistinct(s)
    ensures AllDistinct(SortByLoad(load, s))
    decreases |s|
  {
    if s != [] {
      SortByLoadDistinct(load, s[1..]);
      SortByLoadSorts(load, s[1..]);
      InsertByLoadDistinct(load, SortByLoad(load, s[1..]), s[0]);
    }
  }

  /** select_least_loaded_cpus. `chosen` are the CPUs picked by load, before their siblings join them. */
  method SelectLeastLoadedCpus(topology: Topology, online: seq<int>, required: int, load: Load, exclude: set<int>,
                               preferPhysical: bool, reserve: bool)
    returns (result: Result<seq<int>, SelectionError>, ghost pool: seq<int>, ghost chosen: seq<int>)
    requires IsOnlineList(topology, online) && CoresDisjoint(topology)
    ensures result.Ok? <==> required <= 0 || |Candidates(online, exclude)| >= required
    ensures result.Ok? && required <= 0 ==> result.value == [] && chosen == []
    ensures result.Ok? && required > 0 ==>
              && IsPool(topology, Candidates(online, exclude), required, preferPhysical, pool)
              && |chosen| == required && AllDistinct(chosen)
              && LeastLoaded(load, pool, chosen)
              && (forall c :: c in chosen ==> Online(topology, c) && c !in exclude)
    ensures result.Ok? ==> StrictlyAscending(result.value) && |result.value| >= |chosen|
    ensures result.Ok? && !(reserve && topology.smtEnabled) ==> |result.value| == |chosen|
    ensures result.Ok? ==> forall x :: x in result.value <==>
              x in chosen || (reserve && topology.smtEnabled && x !in exclude
                              && exists c :: c in chosen && ShareCore(topology, c, x))
  {
    pool, chosen := [], [];
    if required <= 0 {
      return Ok([]), pool, chosen;
    }
    var candidates := Candidates(online, exclude);
    CandidatesAscend(online, exclude);
    if |candidates| < required {
      return Err(InsufficientCpus(required, |candidates|)), pool, chosen;
    }
    var combined := MakePool(topology, candidates, required, preferPhysical);
    pool := combined;
    PrefixIsLeastLoaded(load, combined, required);
    var selected := SortByLoad(load, combined)[..required];
    chosen := selected;
    forall c | c in chosen ensures Online(topology, c) && c !in exclude {
      CandidatesAre(online, exclude, c);
    }
    var all := selected;
    if reserve && topology.smtEnabled {
      all := AddReserved(topology, selected, exclude);
    }
    SortedSetIs(all);
    DistinctFits(chosen, SortedSet(all));
    if !(reserve && topology.smtEnabled) {
      DistinctFits(SortedSet(all), chosen);
    }
    return Ok(SortedSet(all)), pool, chosen;
  }

  /** The selected CPUs and every sibling that is not excluded. */
  method AddReserved(topology: Topology, selected: seq<int>, exclude: set<int>) returns (all: seq<int>)
    requires CoresDisjoint(topology)
    ensures forall x :: x in all <==>
              x in selected || (x !in exclude && exists c :: c in selected && ShareCore(topology, c, x))
  {
    all := selected;
    for k := 0 to |selected|
      invariant forall x :: x in all <==> x in selected || (x !in exclude && SharesWithOneOf(topology, selected[..k], x))
    {
      hide ShareCore;
      var siblings := SiblingsOf(topology, selected[k]);
      var allowed := Candidates(siblings, exclude);
      forall x ensures x in all + allowed <==>
                       x in selected || (x !in exclude && SharesWithOneOf(topology, selected[..k + 1], x)) {
        SharesSnoc(topology, selected, k, x);
        CandidatesAre(siblings, exclude, x);
      }
      all := all + allowed;
    }
    assert selected[..|selected|] == selected;
  }

  ghost predicate SharesWithOneOf(topology: Topology, cpus: seq<int>, x: int) {
    exists c :: c in cpus && ShareCore(topology, c, x)
  }

  lemma SharesSnoc(topology: Topology, cpus: seq<int>, k: nat, x: int)
    requires k < |cpus|
    ensures SharesWithOneOf(topology, cpus[..k + 1], x) <==>
            SharesWithOneOf(topology, cpus[..k], x) || ShareCore(topology, cpus[k], x)
    ensures cpus[k] in cpus
  {
    hide ShareCore;
    assert cpus[..k + 1] == cpus[..k] + [cpus[k]];
  }
}
