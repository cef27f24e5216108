/** The CPU affinity plan: profiled workers get CPUs of their own, background containers get the rest. */
module AffinityPlan {
  import opened Wrappers
  import opened Sorting
  import opened CpuMask
  import opened CpuTopology

  /** A profiled worker; the thread count defaults to the number of CPUs it asks for. */
  datatype Spec = Spec(workerId: string, rayonThreads: Option<int>)

  /** A dictionary in insertion order. */
  type Counts = seq<(string, int)>

  datatype Assignment = Assignment(workerId: string, cpus: seq<int>, mask: nat, count: int, rayonThreads: int)

  datatype Plan = Plan(enabled: bool, online: seq<int>, onlineMask: nat, assignments: seq<Assignment>,
                       profiledMask: nat, reservedMask: nat, background: seq<int>, backgroundMask: nat,
                       backgroundContainers: nat)

  datatype PlanError = Masking(maskError: MaskError) | Selecting(selectionError: SelectionError)

  datatype Complaint =
    | AssignedTwice(cpu: int)
    | MasksOverlap
    | NoCpus(workerId: string)
    | ThreadMismatch(workerId: string, rayonThreads: int, count: int)

  // ---- requested counts

  predicate HasKey(counts: Counts, id: string) {
    exists i :: 0 <= i < |counts| && counts[i].0 == id
  }

  /** profiled_cpu_counts.get(worker_id, 1) */
  function CountFor(counts: Counts, id: string): int {
    if counts == [] then 1
    else if counts[0].0 == id then counts[0].1
    else CountFor(counts[1..], id)
  }

  function Total(counts: Counts): int {
    if counts == [] then 0 else counts[0].1 + Total(counts[1..])
  }

  /** One CPU per worker id; a repeated id keeps a single entry. */
  function DefaultCounts(specs: seq<Spec>): Counts {
    if specs == [] then []
    else
      var rest := DefaultCounts(specs[..|specs| - 1]);
      var id := specs[|specs| - 1].workerId;
      if HasKey(rest, id) then rest else rest + [(id, 1)]
  }

  function CountsOf(specs: seq<Spec>, counts: Option<Counts>): Counts {
    counts.UnwrapOr(DefaultCounts(specs))
  }

  /** Where worker k's slice begins. */
  function Offset(specs: seq<Spec>, counts: Counts, k: nat): int
    requires k <= |specs|
  {
    if k == 0 then 0 else Offset(specs, counts, k - 1) + CountFor(counts, specs[k - 1].workerId)
  }

  // ---- slices

  function Clip(n: nat, i: int): (r: nat)
    ensures r <= n
  {
    if i >= 0 then if i <= n then i else n
    else if i + n >= 0 then i + n else 0
  }

  /** Python's s[lo:hi], for any bounds. */
  function Slice(s: seq<int>, lo: int, hi: int): seq<int> {
    if Clip(|s|, lo) <= Clip(|s|, hi) then s[Clip(|s|, lo)..Clip(|s|, hi)] else []
  }

  /** A negative bound counts from the end, and bounds beyond either end are cut to it. */
  lemma SliceBounds(s: seq<int>, lo: int, hi: int)
    ensures 0 <= lo <= hi <= |s| ==> Slice(s, lo, hi) == s[lo..hi]
    ensures -|s| <= lo < 0 ==> Slice(s, lo, hi) == Slice(s, lo + |s|, hi)
    ensures -|s| <= hi < 0 ==> Slice(s, lo, hi) == Slice(s, lo, hi + |s|)
    ensures lo < -|s| ==> Slice(s, lo, hi) == Slice(s, 0, hi)
    ensures hi > |s| ==> Slice(s, lo, hi) == Slice(s, lo, |s|)
    ensures 0 <= hi < lo ==> Slice(s, lo, hi) == []
  {
  }

  /** Worker i's share of the selection. */
  function Share(specs: seq<Spec>, counts: Counts, selected: seq<int>, i: nat): seq<int>
    requires i < |specs|
  {
    Slice(selected, Offset(specs, counts, i), Offset(specs, counts, i + 1))
  }

  lemma SliceAscends(s: seq<int>, lo: int, hi: int)
    requires StrictlyAscending(s) && InRange(s)
    ensures StrictlyAscending(Slice(s, lo, hi)) && InRange(Slice(s, lo, hi)) && AllDistinct(Slice(s, lo, hi))
    ensures Sort(Slice(s, lo, hi)) == Slice(s, lo, hi)
    ensures forall c :: c in Slice(s, lo, hi) ==> c in s
  {
    SortAscending(Slice(s, lo, hi));
  }

  lemma SliceLength(s: seq<int>, lo: int, hi: int)
    requires 0 <= lo < hi
    ensures |Slice(s, lo, hi)| == hi - lo <==> hi <= |s|
    ensures hi <= |s| ==> s[..lo] + Slice(s, lo, hi) == s[..hi]
  {
  }

  lemma OffsetStep(specs: seq<Spec>, counts: Counts, k: nat)
    requires k < |specs|
    ensures Offset(specs, counts, k + 1) == Offset(specs, counts, k) + CountFor(counts, specs[k].workerId)
  {
  }

  // ---- the plan

  ghost predicate Serves(a: Assignment, spec: Spec, counts: Counts, cpus: seq<int>) {
    && a.workerId == spec.workerId
    && a.cpus == cpus && a.count == |cpus| && Holds(a.mask, cpus)
    && a.rayonThreads == (if spec.rayonThreads.Some? then spec.rayonThreads.value else CountFor(counts, spec.workerId))
  }

  ghost predicate Slices(assignments: seq<Assignment>, specs: seq<Spec>, counts: Counts, selected: seq<int>) {
    && |assignments| == |specs|
    && forall i | 0 <= i < |specs| ::
         Serves(assignments[i], specs[i], counts, Share(specs, counts, selected, i))
  }

  ghost predicate Assigned(assignments: seq<Assignment>, c: int) {
    exists i :: 0 <= i < |assignments| && c in assignments[i].cpus
  }

  ghost predicate Reserved(topology: Topology, assignments: seq<Assignment>, reserve: bool, c: int) {
    || Assigned(assignments, c)
    || (reserve && topology.smtEnabled && exists p :: Assigned(assignments, p) && ShareCore(topology, p, c))
  }

  /** What detect_cpu_topology builds: non-negative ids, online CPUs on the cores, one core per CPU. */
  ghost predicate WellFormed(topology: Topology) {
    && CoresDisjoint(topology)
    && (forall c :: c in topology.cpus ==> c >= 0)
    && (topology.smtEnabled ==>
          forall core, c | core in topology.coreToCpus && c in topology.coreToCpus[core] :: Online(topology, c))
  }

  method MakeAssignment(spec: Spec, counts: Counts, mine: seq<int>) returns (a: Assignment)
    requires InRange(mine) && AllDistinct(mine) && Sort(mine) == mine
    ensures Serves(a, spec, counts, mine)
  {
    hide CountFor, InRange, AllDistinct, Sort;
    var rayon := spec.rayonThreads.UnwrapOr(CountFor(counts, spec.workerId));
    if mine == [] {
      forall i: nat ensures !Bit(0, i) {
        ZeroHasNoBit(i);
      }
      return Assignment(spec.workerId, [], 0, 0, rayon);
    }
    var mask := CpuListToMask(mine);
    return Assignment(spec.workerId, Sort(mine), mask.value, |mine|, rayon);
  }

  method MakeAssignments(specs: seq<Spec>, counts: Counts, selected: seq<int>) returns (assignments: seq<Assignment>)
    requires StrictlyAscending(selected) && InRange(selected)
    ensures Slices(assignments, specs, counts, selected)
  {
    hide CountFor, InRange, StrictlyAscending, AllDistinct, Sort, Slice, Serves;
    assignments := [];
    var cpuIndex := 0;
    for k := 0 to |specs|
      invariant |assignments| == k && cpuIndex == Offset(specs, counts, k)
      invariant forall i | 0 <= i < k ::
                  Serves(assignments[i], specs[i], counts, Share(specs, counts, selected, i))
    {
      var count := CountFor(counts, specs[k].workerId);
      var mine := Slice(selected, cpuIndex, cpuIndex + count);
      SliceAscends(selected, cpuIndex, cpuIndex + count);
      cpuIndex := cpuIndex + count;
      var a := MakeAssignment(specs[k], counts, mine);
      assignments := assignments + [a];
    }
  }

  /** sorted() of the union of the assigned CPUs. */
  method CollectAssigned(assignments: seq<Assignment>) returns (all: seq<int>)
    ensures StrictlyAscending(all) && forall c :: c in all <==> Assigned(assignments, c)
  {
    var found: seq<int> := [];
    for k := 0 to |assignments|
      invariant forall c :: c in found <==> Assigned(assignments[..k], c)
    {
      forall c ensures Assigned(assignments[..k + 1], c) <==> Assigned(assignments[..k], c) || c in assignments[k].cpus {
        AssignedSnoc(assignments, k, c);
      }
      found := found + assignments[k].cpus;
    }
    assert assignments[..|assignments|] == assignments;
    SortedSetIs(found);
    all := SortedSet(found);
  }

  lemma AssignedSnoc(assignments: seq<Assignment>, k: nat, c: int)
    requires k < |assignments|
    ensures Assigned(assignments[..k + 1], c) <==> Assigned(assignments[..k], c) || c in assignments[k].cpus
  {
    var longer, shorter := assignments[..k + 1], assignments[..k];
    assert longer[k] == assignments[k];
    assert forall i | 0 <= i < k :: longer[i] == shorter[i];
  }

  /** How many CPUs are selected for a request. */
  function Wanted(counts: Counts): nat {
    if Total(counts) > 0 then Total(counts) else 0
  }

  /**
   The CPUs chosen by load, and the selection the workers are served from: the chosen CPUs and, when reserved,
   all that share a core with one.
   */
  ghost predicate Picked(topology: Topology, online: seq<int>, counts: Counts, load: Load, reserve: bool,
                         pool: seq<int>, chosen: seq<int>, selected: seq<int>)
  {
    && |chosen| == Wanted(counts) && AllDistinct(chosen) && (forall c :: c in chosen ==> Online(topology, c))
    && (chosen != [] ==> IsPool(topology, online, |chosen|, true, pool) && LeastLoaded(load, pool, chosen))
    && forall x :: x in selected <==>
         x in chosen || (reserve && topology.smtEnabled && SharesWithOneOf(topology, chosen, x))
  }

  /** What create_affinity_plan promises of the plan it returns. */
  ghost predicate Planned(plan: Plan, specs: seq<Spec>, counts: Counts, topology: Topology, reserve: bool,
                          selected: seq<int>)
  {
    && plan.enabled && IsOnlineList(topology, plan.online) && InRange(plan.online) && Holds(plan.onlineMask, plan.online)
    && StrictlyAscending(selected) && (forall c :: c in selected ==> Online(topology, c))
    && |selected| >= Total(counts) && (!(reserve && topology.smtEnabled) ==> |selected| == Wanted(counts))
    && Slices(plan.assignments, specs, counts, selected)
    && (forall c: nat :: Bit(plan.profiledMask, c) <==> Assigned(plan.assignments, c))
    && (forall c: nat :: Bit(plan.reservedMask, c) <==> Reserved(topology, plan.assignments, reserve, c))
    && StrictlyAscending(plan.background) && Holds(plan.backgroundMask, plan.background)
    && forall c :: c in plan.background <==> Online(topology, c) && !Reserved(topology, plan.assignments, reserve, c)
  }

  /** The reserved mask: the assigned CPUs and, when asked for, their siblings. */
  method Reserve(topology: Topology, assignments: seq<Assignment>, all: seq<int>, profiledMask: nat, reserve: bool)
    returns (mask: nat)
    requires WellFormed(topology) && (forall c :: Online(topology, c) ==> c <= MAX_CPU)
    requires StrictlyAscending(all) && (forall c :: c in all <==> Assigned(assignments, c))
    requires forall c :: c in all ==> Online(topology, c)
    requires Holds(profiledMask, all)
    ensures forall c: nat :: Bit(mask, c) <==> Reserved(topology, assignments, reserve, c)
  {
    if reserve && topology.smtEnabled {
      var siblings := GetSmtSiblings(topology, all);
      SortedSetIs(all + siblings);
      var union := SortedSet(all + siblings);
      forall c | c in union ensures Online(topology, c) && 0 <= c <= MAX_CPU {
        if c !in all {
          ghost var p :| p in all && ShareCore(topology, p, c);
        }
      }
      assert forall i | 0 <= i < |union| :: union[i] in union;
      var result := CpuListToMask(union);
      mask := result.value;
      forall c: nat ensures Bit(mask, c) <==> Reserved(topology, assignments, reserve, c) {
        assert c in union <==> c in all || c in siblings;
      }
    } else {
      mask := profiledMask;
    }
  }

  /** create_affinity_plan for a mode other than "none". */
  method CreateAffinityPlan(specs: seq<Spec>, requested: Option<Counts>, backgroundContainers: nat, topology: Topology,
                            listed: seq<int>, load: Load, reserve: bool)
    returns (result: Result<Plan, PlanError>, ghost online: seq<int>, ghost selected: seq<int>, ghost pool: seq<int>,
             ghost chosen: seq<int>)
    requires WellFormed(topology) && forall c :: c in topology.cpus <==> c in listed
    ensures IsOnlineList(topology, online)
    ensures result.Ok? <==> InRange(online) && |online| >= Total(CountsOf(specs, requested))
    ensures result.Ok? ==> Planned(result.value, specs, CountsOf(specs, requested), topology, reserve, selected)
    ensures result.Ok? ==>
              && IsOnlineList(topology, result.value.online) && |result.value.online| >= Total(CountsOf(specs, requested))
              && |result.value.assignments| == |specs| && result.value.enabled
    ensures (exists c :: Online(topology, c) && c > MAX_CPU) ==> result.Err?
    ensures result.Ok? ==> Picked(topology, online, CountsOf(specs, requested), load, reserve, pool, chosen, selected)
    ensures result.Ok? ==> result.value.online == online && result.value.backgroundContainers == backgroundContainers
  {
    hide Planned, Slices, Total, CountsOf, Candidates, IsPool, LeastLoaded, ShareCore;
    var onlineCpus := GetOnlineCpuList(topology, listed);
    online, selected, pool, chosen := onlineCpus, [], [], [];
    AscendingIsDistinct(onlineCpus);
    var onlineMask := CpuListToMask(onlineCpus);
    if onlineMask.Err? {
      return Err(Masking(onlineMask.error)), online, selected, pool, chosen;
    }
    var counts := CountsOf(specs, requested);
    var selection;
    selection, pool, chosen := SelectLeastLoadedCpus(topology, onlineCpus, Total(counts), load, {}, true, reserve);
    NothingExcluded(onlineCpus);
    if selection.Err? {
      return Err(Selecting(selection.error)), online, selected, pool, chosen;
    }
    var picked := selection.value;
    selected := picked;
    PickedAreOnline(topology, onlineCpus, picked, chosen);
    var assignments := MakeAssignments(specs, counts, picked);
    var plan := FinishPlan(topology, onlineCpus, onlineMask.value, assignments, backgroundContainers, reserve, picked,
                           specs, counts);
    PlannedShape(plan, specs, counts, topology, reserve, picked);
    return Ok(plan), online, selected, pool, chosen;
  }

  lemma PlannedShape(plan: Plan, specs: seq<Spec>, counts: Counts, topology: Topology, reserve: bool, selected: seq<int>)
    requires Planned(plan, specs, counts, topology, reserve, selected)
    ensures |plan.assignments| == |specs| && plan.enabled && forall c :: Online(topology, c) ==> c <= MAX_CPU
  {
    hide Share, Total, Reserved, Holds, Bit;
    assert forall c :: Online(topology, c) ==> c in plan.online;
  }

  lemma PickedAreOnline(topology: Topology, online: seq<int>, picked: seq<int>, chosen: seq<int>)
    requires WellFormed(topology) && IsOnlineList(topology, online) && InRange(online)
    requires forall c :: c in chosen ==> Online(topology, c)
    requires forall c :: c in picked ==> c in chosen || (topology.smtEnabled && SharesWithOneOf(topology, chosen, c))
    ensures InRange(picked) && forall c :: c in picked ==> Online(topology, c)
  {
    forall c | c in picked ensures Online(topology, c) && c in online {
      assert c in chosen || (topology.smtEnabled && SharesWithOneOf(topology, chosen, c));
      assert topology.smtEnabled && SharesWithOneOf(topology, chosen, c) ==> Online(topology, c);
    }
    assert forall i | 0 <= i < |picked| :: picked[i] in picked;
  }

  method FinishPlan(topology: Topology, online: seq<int>, onlineMask: nat, assignments: seq<Assignment>,
                    backgroundContainers: nat, reserve: bool, ghost picked: seq<int>, ghost specs: seq<Spec>,
                    ghost counts: Counts)
    returns (plan: Plan)
    requires WellFormed(topology) && IsOnlineList(topology, online) && InRange(online) && Holds(onlineMask, online)
    requires Slices(assignments, specs, counts, picked)
    requires StrictlyAscending(picked) && |picked| >= Total(counts) && (forall c :: c in picked ==> Online(topology, c))
    requires !(reserve && topology.smtEnabled) ==> |picked| == Wanted(counts)
    ensures Planned(plan, specs, counts, topology, reserve, picked)
    ensures plan.online == online && plan.backgroundContainers == backgroundContainers
  {
    var all := CollectAssigned(assignments);
    forall c | c in all ensures Online(topology, c) && 0 <= c <= MAX_CPU {
      AssignedArePicked(assignments, specs, counts, picked, c);
    }
    AscendingIsDistinct(all);
    assert forall i | 0 <= i < |all| :: all[i] in all;
    var profiled := CpuListToMask(all);
    var reservedMask := Reserve(topology, assignments, all, profiled.value, reserve);
    var backgroundMask := Complement(reservedMask, onlineMask);
    var background := MaskToCpuList(backgroundMask);
    forall c ensures c in background <==> Online(topology, c) && !Reserved(topology, assignments, reserve, c) {
      if c >= 0 {
        ComplementBit(reservedMask, onlineMask, c);
      }
    }
    plan := Plan(true, online, onlineMask, assignments, profiled.value, reservedMask, background, backgroundMask,
                 backgroundContainers);
  }

  lemma AscendingIsDistinct(s: seq<int>)
    requires StrictlyAscending(s)
    ensures AllDistinct(s)
  {
  }

  lemma {:induction false} NothingExcluded(online: seq<int>)
    ensures Candidates(online, {}) == online
    decreases |online|
  {
    if online != [] {
      NothingExcluded(online[..|online| - 1]);
    }
  }

  lemma AssignedArePicked(assignments: seq<Assignment>, specs: seq<Spec>, counts: Counts, picked: seq<int>, c: int)
    requires Slices(assignments, specs, counts, picked) && Assigned(assignments, c)
    ensures c in picked
  {
    var i :| 0 <= i < |assignments| && c in assignments[i].cpus;
    assert Serves(assignments[i], specs[i], counts, Share(specs, counts, picked, i));
  }

  // ---- requests that can be served

  ghost predicate UniqueIds(specs: seq<Spec>) {
    forall i, j | 0 <= i < j < |specs| :: specs[i].workerId != specs[j].workerId
  }

  ghost predicate UniqueKeys(counts: Counts) {
    forall i, j | 0 <= i < j < |counts| :: counts[i].0 != counts[j].0
  }

  ghost predicate AllPositive(counts: Counts) {
    forall i | 0 <= i < |counts| :: counts[i].1 > 0
  }

  ghost predicate AllListed(specs: seq<Spec>, counts: Counts) {
    forall i | 0 <= i < |specs| :: HasKey(counts, specs[i].workerId)
  }

  function Drop(counts: Counts, j: nat): Counts
    requires j < |counts|
  {
    counts[..j] + counts[j + 1..]
  }

  lemma {:induction false} DropTotal(counts: Counts, j: nat)
    requires j < |counts|
    ensures Total(counts) == Total(Drop(counts, j)) + counts[j].1
    decreases j
  {
    if j > 0 {
      DropTotal(counts[1..], j - 1);
      assert Drop(counts, j)[1..] == Drop(counts[1..], j - 1);
    } else {
      assert Drop(counts, 0) == counts[1..];
    }
  }

  lemma {:induction false} DropCountFor(counts: Counts, j: nat, id: string)
    requires j < |counts| && counts[j].0 != id
    ensures CountFor(Drop(counts, j), id) == CountFor(counts, id)
    decreases j
  {
    if j > 0 {
      DropCountFor(counts[1..], j - 1, id);
      assert Drop(counts, j)[1..] == Drop(counts[1..], j - 1);
    } else {
      assert Drop(counts, 0) == counts[1..];
    }
  }

  lemma {:induction false} CountForAt(counts: Counts, j: nat)
    requires j < |counts| && UniqueKeys(counts)
    ensures CountFor(counts, counts[j].0) == counts[j].1
    decreases j
  {
    if j > 0 {
      CountForAt(counts[1..], j - 1);
    }
  }

  lemma {:induction false} DropOffset(specs: seq<Spec>, counts: Counts, j: nat, k: nat)
    requires j < |counts| && k <= |specs|
    requires forall i | 0 <= i < k :: specs[i].workerId != counts[j].0
    ensures Offset(specs, Drop(counts, j), k) == Offset(specs, counts, k)
    decreases k
  {
    if k > 0 {
      DropOffset(specs, counts, j, k - 1);
      DropCountFor(counts, j, specs[k - 1].workerId);
    }
  }

  lemma {:induction false} TotalNonNegative(counts: Counts)
    requires AllPositive(counts)
    ensures Total(counts) >= 0
    decreases |counts|
  {
    if counts != [] {
      TotalNonNegative(counts[1..]);
    }
  }

  lemma KeyIndex(counts: Counts, id: string) returns (j: nat)
    requires HasKey(counts, id)
    ensures j < |counts| && counts[j].0 == id
  {
    j :| 0 <= j < |counts| && counts[j].0 == id;
  }

  lemma DropKeeps(counts: Counts, j: nat, id: string)
    requires j < |counts| && HasKey(counts, id) && counts[j].0 != id
    ensures HasKey(Drop(counts, j), id)
  {
    var m :| 0 <= m < |counts| && counts[m].0 == id;
    assert (if m < j then Drop(counts, j)[m] else Drop(counts, j)[m - 1]) == counts[m];
  }

  lemma DropKeepsShape(counts: Counts, j: nat)
    requires j < |counts| && UniqueKeys(counts) && AllPositive(counts)
    ensures UniqueKeys(Drop(counts, j)) && AllPositive(Drop(counts, j))
  {
  }

  /** Distinct workers that are all in the dictionary ask for no more than its total. */
  lemma {:induction false} TotalCovers(specs: seq<Spec>, counts: Counts, k: nat)
    requires k <= |specs| && UniqueIds(specs) && UniqueKeys(counts) && AllPositive(counts)
    requires forall i | 0 <= i < k :: HasKey(counts, specs[i].workerId)
    ensures Offset(specs, counts, k) <= Total(counts)
    decreases k
  {
    hide HasKey, Drop, UniqueKeys, AllPositive, CountFor, Total;
    TotalNonNegative(counts);
    if k > 0 {
      var id := specs[k - 1].workerId;
      var j := KeyIndex(counts, id);
      DropKeepsShape(counts, j);
      CountForAt(counts, j);
      DropTotal(counts, j);
      DropOffset(specs, counts, j, k - 1);
      var fewer := Drop(counts, j);
      forall i | 0 <= i < k - 1 ensures HasKey(fewer, specs[i].workerId) {
        DropKeeps(counts, j, specs[i].workerId);
      }
      TotalCovers(specs, fewer, k - 1);
    }
  }

  lemma {:induction false} OffsetsAscend(specs: seq<Spec>, counts: Counts, i: nat, k: nat)
    requires i <= k <= |specs| && forall j | 0 <= j < |specs| :: CountFor(counts, specs[j].workerId) > 0
    ensures 0 <= Offset(specs, counts, i) <= Offset(specs, counts, k)
    decreases k
  {
    if k > 0 {
      OffsetsAscend(specs, counts, if i < k then i else k - 1, k - 1);
    }
  }

  lemma {:induction false} PositiveFor(counts: Counts, id: string)
    requires AllPositive(counts)
    ensures CountFor(counts, id) > 0
    decreases |counts|
  {
    if counts != [] {
      PositiveFor(counts[1..], id);
    }
  }

  ghost predicate ServedInFull(specs: seq<Spec>, counts: Counts, selected: seq<int>) {
    forall i | 0 <= i < |specs| :: |Share(specs, counts, selected, i)| == CountFor(counts, specs[i].workerId)
  }

  lemma ShareLength(specs: seq<Spec>, counts: Counts, selected: seq<int>, i: nat)
    requires i < |specs| && forall j | 0 <= j < |specs| :: CountFor(counts, specs[j].workerId) > 0
    ensures |Share(specs, counts, selected, i)| == CountFor(counts, specs[i].workerId)
            <==> Offset(specs, counts, i + 1) <= |selected|
    ensures Offset(specs, counts, i + 1) <= Offset(specs, counts, |specs|)
  {
    hide CountFor, Offset, Slice;
    OffsetStep(specs, counts, i);
    OffsetsAscend(specs, counts, i, i + 1);
    OffsetsAscend(specs, counts, i + 1, |specs|);
    SliceLength(selected, Offset(specs, counts, i), Offset(specs, counts, i + 1));
  }

  /** Every worker gets as many CPUs as it asks for exactly when the slices end within the selection. */
  lemma ServedInFullIff(specs: seq<Spec>, counts: Counts, selected: seq<int>)
    requires forall j | 0 <= j < |specs| :: CountFor(counts, specs[j].workerId) > 0
    ensures ServedInFull(specs, counts, selected) <==> Offset(specs, counts, |specs|) <= |selected|
  {
    hide CountFor, Share;
    forall i | 0 <= i < |specs|
      ensures |Share(specs, counts, selected, i)| == CountFor(counts, specs[i].workerId)
              || Offset(specs, counts, |specs|) > |selected|
    {
      ShareLength(specs, counts, selected, i);
    }
    if |specs| > 0 {
      ShareLength(specs, counts, selected, |specs| - 1);
    }
  }

  /**
   Without reservation, workers that ask for a positive number of CPUs each are all served in full if and only if
   together they ask for no more than the dictionary's total.
   */
  lemma ServedInFullIffTotal(plan: Plan, specs: seq<Spec>, counts: Counts, topology: Topology, reserve: bool,
                             selected: seq<int>)
    requires Planned(plan, specs, counts, topology, reserve, selected) && !(reserve && topology.smtEnabled)
    requires forall j | 0 <= j < |specs| :: CountFor(counts, specs[j].workerId) > 0
    ensures |plan.assignments| == |specs|
    ensures (forall i | 0 <= i < |specs| :: |plan.assignments[i].cpus| == CountFor(counts, specs[i].workerId))
            <==> Offset(specs, counts, |specs|) <= Wanted(counts)
  {
    hide CountFor, Total, Share, Reserved, Holds, Offset, IsOnlineList, InRange, Bit, Wanted;
    ServedInFullIff(specs, counts, selected);
    assert forall i | 0 <= i < |specs| ::
             Serves(plan.assignments[i], specs[i], counts, Share(specs, counts, selected, i));
  }

  /** A worker that the dictionary does not name asks for one CPU that the total does not count, and gets none. */
  lemma MissingWorkerIsNotServed(plan: Plan, topology: Topology, reserve: bool, selected: seq<int>)
    requires var specs := [Spec("a", None), Spec("b", None)];
             Planned(plan, specs, [("a", 1)], topology, reserve, selected) && !(reserve && topology.smtEnabled)
    ensures |plan.assignments| == 2 && |plan.assignments[0].cpus| == 1 && plan.assignments[1].cpus == []
    ensures CountFor([("a", 1)], "b") == 1 && NoCpus("b") in CountComplaints(plan.assignments)
  {
    hide Reserved, Holds, IsOnlineList, InRange, Bit;
    var specs, counts := [Spec("a", None), Spec("b", None)], [("a", 1)];
    MissingShares(specs, counts, selected);
    assert Serves(plan.assignments[0], specs[0], counts, Share(specs, counts, selected, 0));
    assert Serves(plan.assignments[1], specs[1], counts, Share(specs, counts, selected, 1));
  }

  lemma MissingShares(specs: seq<Spec>, counts: Counts, selected: seq<int>)
    requires specs == [Spec("a", None), Spec("b", None)] && counts == [("a", 1)]
    ensures CountFor(counts, "b") == 1 && Wanted(counts) == 1
    ensures |selected| == 1 ==> |Share(specs, counts, selected, 0)| == 1 && Share(specs, counts, selected, 1) == []
  {
    assert Total(counts) == 1;
    assert CountFor(counts[1..], "b") == 1;
    OffsetStep(specs, counts, 0);
    OffsetStep(specs, counts, 1);
  }

  /** Without counts of its own, a request asks for one CPU for each worker it lists, and for no others. */
  lemma {:induction false} DefaultCountIsOne(specs: seq<Spec>, id: string)
    ensures CountFor(DefaultCounts(specs), id) == 1
    ensures HasKey(DefaultCounts(specs), id) <==> exists i :: 0 <= i < |specs| && specs[i].workerId == id
    decreases |specs|
  {
    if specs != [] {
      var init, last := specs[..|specs| - 1], specs[|specs| - 1];
      DefaultCountIsOne(init, id);
      DefaultCountIsOne(init, last.workerId);
      assert specs == init + [last];
      var rest := DefaultCounts(init);
      HasKeySnoc(rest, last.workerId, id);
      CountForSnoc(rest, last.workerId, id);
    }
  }

  /** A request that brings its own counts is planned with these, any other with one CPU for each worker. */
  lemma RequestedCounts(specs: seq<Spec>, requested: Option<Counts>, id: string)
    ensures requested.Some? ==> CountsOf(specs, requested) == requested.value
    ensures requested.None? ==> CountFor(CountsOf(specs, requested), id) == 1
  {
    DefaultCountIsOne(specs, id);
  }

  lemma HasKeySnoc(counts: Counts, last: string, id: string)
    ensures HasKey(counts + [(last, 1)], id) <==> HasKey(counts, id) || last == id
  {
    var all := counts + [(last, 1)];
    assert all[|counts|].0 == last;
    assert forall i | 0 <= i < |counts| :: all[i] == counts[i];
  }

  lemma {:induction false} CountForSnoc(counts: Counts, last: string, id: string)
    ensures CountFor(counts, id) == 1 ==> CountFor(counts + [(last, 1)], id) == 1
    decreases |counts|
  {
    if counts != [] && counts[0].0 != id {
      CountForSnoc(counts[1..], last, id);
      assert (counts + [(last, 1)])[1..] == counts[1..] + [(last, 1)];
    }
  }

  lemma {:induction false} DefaultCountsAreGood(specs: seq<Spec>)
    ensures UniqueKeys(DefaultCounts(specs)) && AllPositive(DefaultCounts(specs)) && AllListed(specs, DefaultCounts(specs))
    decreases |specs|
  {
    if specs != [] {
      var init := specs[..|specs| - 1];
      DefaultCountsAreGood(init);
      var rest, all := DefaultCounts(init), DefaultCounts(specs);
      forall i | 0 <= i < |specs| ensures HasKey(all, specs[i].workerId) {
        if i < |init| {
          assert HasKey(rest, init[i].workerId);
          var j :| 0 <= j < |rest| && rest[j].0 == specs[i].workerId;
          assert all[j] == rest[j];
        } else if !HasKey(rest, specs[i].workerId) {
          assert all[|rest|].0 == specs[i].workerId;
        }
      }
    }
  }

  // ---- validation

  /** All assigned CPUs in plan order, with repetitions. */
  function Flat(assignments: seq<Assignment>): seq<int> {
    if assignments == [] then []
    else Flat(assignments[..|assignments| - 1]) + assignments[|assignments| - 1].cpus
  }

  function Repeats(flat: seq<int>): seq<Complaint> {
    if flat == [] then []
    else
      var init, last := flat[..|flat| - 1], flat[|flat| - 1];
      Repeats(init) + if last in init then [AssignedTwice(last)] else []
  }

  function ComplaintsOf(a: Assignment): seq<Complaint> {
    (if a.count == 0 then [NoCpus(a.workerId)] else [])
    + if a.rayonThreads != a.count then [ThreadMismatch(a.workerId, a.rayonThreads, a.count)] else []
  }

  function CountComplaints(assignments: seq<Assignment>): seq<Complaint> {
    if assignments == [] then []
    else CountComplaints(assignments[..|assignments| - 1]) + ComplaintsOf(assignments[|assignments| - 1])
  }

  ghost predicate CountsAgree(assignments: seq<Assignment>) {
    forall i | 0 <= i < |assignments| ::
      assignments[i].count != 0 && assignments[i].rayonThreads == assignments[i].count
  }

  lemma {:induction false} NoRepeatsIff(flat: seq<int>)
    ensures Repeats(flat) == [] <==> AllDistinct(flat)
    decreases |flat|
  {
    if flat != [] {
      var init, last := flat[..|flat| - 1], flat[|flat| - 1];
      NoRepeatsIff(init);
      assert AllDistinct(flat) <==> AllDistinct(init) && last !in init by {
        assert forall i | 0 <= i < |init| :: init[i] == flat[i] && init[i] in init;
      }
    }
  }

  lemma {:induction false} NoCountComplaintsIff(assignments: seq<Assignment>)
    ensures CountComplaints(assignments) == [] <==> CountsAgree(assignments)
    decreases |assignments|
  {
    hide ComplaintsOf;
    if assignments != [] {
      var init, last := assignments[..|assignments| - 1], assignments[|assignments| - 1];
      NoCountComplaintsIff(init);
      NoComplaintIff(last);
      assert assignments == init + [last];
    }
  }

  lemma NoComplaintIff(a: Assignment)
    ensures ComplaintsOf(a) == [] <==> a.count != 0 && a.rayonThreads == a.count
  {
  }

  lemma FlatSnoc(assignments: seq<Assignment>, k: nat)
    requires k < |assignments|
    ensures Flat(assignments[..k + 1]) == Flat(assignments[..k]) + assignments[k].cpus
  {
    assert assignments[..k + 1][..k] == assignments[..k];
  }

  lemma {:induction false} FlatIs(assignments: seq<Assignment>, c: int)
    ensures c in Flat(assignments) <==> Assigned(assignments, c)
    decreases |assignments|
  {
    if assignments != [] {
      FlatIs(assignments[..|assignments| - 1], c);
      assert assignments[..|assignments|] == assignments;
      AssignedSnoc(assignments, |assignments| - 1, c);
    }
  }

  lemma RepeatsSnoc(flat: seq<int>, c: int)
    ensures Repeats(flat + [c]) == Repeats(flat) + if c in flat then [AssignedTwice(c)] else []
  {
    assert (flat + [c])[..|flat|] == flat;
  }

  /** One worker's CPUs; `before` are the CPUs already seen. */
  method FindRepeatsIn(before: seq<int>, found: set<int>, cpus: seq<int>) returns (errors: seq<Complaint>, now: set<int>)
    requires forall c :: c in found <==> c in before
    ensures Repeats(before + cpus) == Repeats(before) + errors
    ensures forall c :: c in now <==> c in before + cpus
  {
    hide Repeats;
    errors, now := [], found;
    assert before + cpus[..0] == before;
    for j := 0 to |cpus|
      invariant Repeats(before + cpus[..j]) == Repeats(before) + errors
      invariant forall c :: c in now <==> c in before + cpus[..j]
    {
      assert before + cpus[..j + 1] == (before + cpus[..j]) + [cpus[j]];
      RepeatsSnoc(before + cpus[..j], cpus[j]);
      if cpus[j] in now {
        errors := errors + [AssignedTwice(cpus[j])];
      }
      now := now + {cpus[j]};
    }
    assert cpus[..|cpus|] == cpus;
  }

  /** The first loop of validate_affinity_plan. */
  method FindRepeats(assignments: seq<Assignment>) returns (errors: seq<Complaint>, all: seq<int>)
    ensures errors == Repeats(Flat(assignments))
    ensures forall c :: c in all <==> c in Flat(assignments)
    ensures StrictlyAscending(all)
  {
    hide SortedSet;
    errors := [];
    var found: set<int>, listed: seq<int> := {}, [];
    for k := 0 to |assignments|
      invariant listed == Flat(assignments[..k])
      invariant errors == Repeats(listed)
      invariant forall c :: c in found <==> c in listed
    {
      FlatSnoc(assignments, k);
      var more, now := FindRepeatsIn(listed, found, assignments[k].cpus);
      errors, found, listed := errors + more, now, listed + assignments[k].cpus;
    }
    assert assignments[..|assignments|] == assignments;
    SortedSetIs(listed);
    all := SortedSet(listed);
  }

  method CheckCounts(assignments: seq<Assignment>) returns (errors: seq<Complaint>)
    ensures errors == CountComplaints(assignments)
  {
    errors := [];
    for k := 0 to |assignments|
      invariant errors == CountComplaints(assignments[..k])
    {
      var a := assignments[k];
      assert assignments[..k + 1][..k] == assignments[..k];
      ghost var before := errors;
      if a.count == 0 {
        errors := errors + [NoCpus(a.workerId)];
      }
      if a.rayonThreads != a.count {
        errors := errors + [ThreadMismatch(a.workerId, a.rayonThreads, a.count)];
      }
      assert errors == before + ComplaintsOf(a);
    }
    assert assignments[..|assignments|] == assignments;
  }

  /** The profiled and background masks never overlap: the background is computed as a complement. */
  lemma ComplementNeverOverlaps(profiled: nat, online: nat)
    ensures !Overlap(profiled, Complement(profiled, online))
  {
    OverlapIffShared(profiled, Complement(profiled, online));
    forall i: nat ensures !(Bit(profiled, i) && Bit(Complement(profiled, online), i)) {
      ComplementBit(profiled, online, i);
    }
  }

  /** validate_affinity_plan, on any plan: its error list, or the exception of a list that has no mask. */
  method ValidateAffinityPlan(plan: Plan) returns (result: Result<seq<Complaint>, MaskError>)
    ensures result.Ok? <==>
              !plan.enabled || (InRange(Flat(plan.assignments)) && InRange(plan.online) && AllDistinct(plan.online))
    ensures result.Ok? && plan.enabled ==>
              result.value == Repeats(Flat(plan.assignments)) + CountComplaints(plan.assignments)
    ensures result.Ok? ==>
              (result.value == [] <==>
               !plan.enabled || (AllDistinct(Flat(plan.assignments)) && CountsAgree(plan.assignments)))
  {
    if !plan.enabled {
      return Ok([]);
    }
    var errors, all := FindRepeats(plan.assignments);
    NoRepeatsIff(Flat(plan.assignments));
    NoCountComplaintsIff(plan.assignments);
    AscendingIsDistinct(all);
    SameRange(all, Flat(plan.assignments));
    var profiled := CpuListToMask(all);
    if profiled.Err? {
      return Err(profiled.error);
    }
    var online := CpuListToMask(plan.online);
    if online.Err? {
      return Err(online.error);
    }
    ComplementNeverOverlaps(profiled.value, online.value);
    if Overlap(profiled.value, Complement(profiled.value, online.value)) {
      errors := errors + [MasksOverlap];
    }
    var more := CheckCounts(plan.assignments);
    return Ok(errors + more);
  }

  lemma SameRange(a: seq<int>, b: seq<int>)
    requires forall c :: c in a <==> c in b
    ensures InRange(a) <==> InRange(b)
  {
    assert forall i | 0 <= i < |a| :: a[i] in a;
    assert forall i | 0 <= i < |b| :: b[i] in b;
  }

  // ---- the plan keeps its promises

  /** Distinct workers, all in the dictionary, with positive counts and as many threads as CPUs. */
  ghost predicate GoodRequest(specs: seq<Spec>, counts: Counts) {
    && UniqueIds(specs) && UniqueKeys(counts) && AllPositive(counts) && AllListed(specs, counts)
    && forall i | 0 <= i < |specs| ::
         specs[i].rayonThreads.UnwrapOr(CountFor(counts, specs[i].workerId)) == CountFor(counts, specs[i].workerId)
  }

  lemma FlatEmpty(assignments: seq<Assignment>, specs: seq<Spec>, counts: Counts)
    ensures Flat(assignments[..0]) == [] && Offset(specs, counts, 0) == 0
  {
  }

  lemma SlicesAt(assignments: seq<Assignment>, specs: seq<Spec>, counts: Counts, selected: seq<int>, i: nat)
    requires Slices(assignments, specs, counts, selected)
    ensures |assignments| == |specs|
    ensures i < |specs| ==> Serves(assignments[i], specs[i], counts, Share(specs, counts, selected, i))
  {
  }

  lemma {:induction false} FlatIsPrefix(assignments: seq<Assignment>, specs: seq<Spec>, counts: Counts,
                                        selected: seq<int>, k: nat)
    requires Slices(assignments, specs, counts, selected) && k <= |specs|
    requires forall j | 0 <= j < |specs| :: CountFor(counts, specs[j].workerId) > 0
    requires Offset(specs, counts, |specs|) <= |selected|
    ensures 0 <= Offset(specs, counts, k) <= |selected|
    ensures Flat(assignments[..k]) == selected[..Offset(specs, counts, k)]
    decreases k
  {
    hide CountFor, Flat, Slice, Slices, Holds, Offset;
    OffsetsAscend(specs, counts, k, |specs|);
    SlicesAt(assignments, specs, counts, selected, if k > 0 then k - 1 else k);
    if k == 0 {
      FlatEmpty(assignments, specs, counts);
    } else {
      FlatIsPrefix(assignments, specs, counts, selected, k - 1);
      FlatSnoc(assignments, k - 1);
      OffsetStep(specs, counts, k - 1);
      SliceLength(selected, Offset(specs, counts, k - 1), Offset(specs, counts, k));
    }
  }

  /** Every worker gets the CPUs it asked for, and they are an initial part of the selection in worker order. */
  lemma GoodRequestIsServed(assignments: seq<Assignment>, specs: seq<Spec>, counts: Counts, selected: seq<int>)
    requires GoodRequest(specs, counts) && Slices(assignments, specs, counts, selected)
    requires |selected| >= Total(counts)
    ensures ServedInFull(specs, counts, selected)
    ensures Flat(assignments) <= selected
  {
    hide CountFor, Total, UniqueKeys, AllPositive, HasKey, Slices, Flat;
    forall j | 0 <= j < |specs| ensures CountFor(counts, specs[j].workerId) > 0 {
      PositiveFor(counts, specs[j].workerId);
    }
    TotalCovers(specs, counts, |specs|);
    ServedInFullIff(specs, counts, selected);
    SlicesAt(assignments, specs, counts, selected, 0);
    FlatIsPrefix(assignments, specs, counts, selected, |specs|);
    assert assignments[..|specs|] == assignments;
  }

  lemma PrefixAscends(flat: seq<int>, selected: seq<int>)
    requires StrictlyAscending(selected) && flat <= selected
    ensures AllDistinct(flat)
  {
  }

  /** Concatenated without repetition, so no CPU is in two workers' lists. */
  lemma {:induction false} FlatDisjoint(assignments: seq<Assignment>, i: nat, j: nat, c: int)
    requires AllDistinct(Flat(assignments)) && i < j < |assignments| && c in assignments[i].cpus
    ensures c !in assignments[j].cpus
    decreases |assignments|
  {
    hide Assigned;
    var n := |assignments| - 1;
    var init := assignments[..n];
    DistinctParts(Flat(init), assignments[n].cpus, c);
    if j < n {
      FlatDisjoint(init, i, j, c);
    } else {
      assert init[i] == assignments[i];
      AssignedAt(init, i, c);
      FlatIs(init, c);
    }
  }

  lemma DistinctParts(a: seq<int>, b: seq<int>, c: int)
    requires AllDistinct(a + b)
    ensures AllDistinct(a) && !(c in a && c in b)
  {
    assert forall i | 0 <= i < |a| :: (a + b)[i] == a[i];
    assert forall j | 0 <= j < |b| :: (a + b)[|a| + j] == b[j];
  }

  lemma AssignedAt(assignments: seq<Assignment>, i: nat, c: int)
    requires i < |assignments| && c in assignments[i].cpus
    ensures Assigned(assignments, c)
  {
  }

  /** For a good request, workers get disjoint online CPU sets of the sizes they asked for. */
  lemma WorkersGetTheirOwnCpus(plan: Plan, specs: seq<Spec>, counts: Counts, topology: Topology, reserve: bool,
                               selected: seq<int>)
    requires Planned(plan, specs, counts, topology, reserve, selected) && GoodRequest(specs, counts)
    ensures |plan.assignments| == |specs|
    ensures forall i | 0 <= i < |specs| ::
              && plan.assignments[i].workerId == specs[i].workerId
              && |plan.assignments[i].cpus| == CountFor(counts, specs[i].workerId)
              && (forall c :: c in plan.assignments[i].cpus ==> Online(topology, c))
    ensures forall i, j, c | 0 <= i < j < |specs| && c in plan.assignments[i].cpus :: c !in plan.assignments[j].cpus
  {
    hide CountFor, GoodRequest, Total, Reserved, Holds, IsOnlineList, InRange, Flat, Slices, ServedInFull, Share,
         StrictlyAscending, AllDistinct;
    var a := plan.assignments;
    GoodRequestIsServed(a, specs, counts, selected);
    PrefixAscends(Flat(a), selected);
    SlicesAt(a, specs, counts, selected, 0);
    forall i | 0 <= i < |specs|
      ensures a[i].workerId == specs[i].workerId && |a[i].cpus| == CountFor(counts, specs[i].workerId)
      ensures forall c :: c in a[i].cpus ==> Online(topology, c)
    {
      SlicesAt(a, specs, counts, selected, i);
      ServedAt(specs, counts, selected, i);
      forall c | c in a[i].cpus ensures Online(topology, c) {
        AssignedAt(a, i, c);
        AssignedArePicked(a, specs, counts, selected, c);
      }
    }
    forall i, j, c | 0 <= i < j < |specs| && c in a[i].cpus ensures c !in a[j].cpus {
      FlatDisjoint(a, i, j, c);
    }
  }

  lemma ServedAt(specs: seq<Spec>, counts: Counts, selected: seq<int>, i: nat)
    requires ServedInFull(specs, counts, selected) && i < |specs|
    ensures |Share(specs, counts, selected, i)| == CountFor(counts, specs[i].workerId)
  {
  }

  /** For a good request the plan passes its own validation. */
  lemma PlanValidates(plan: Plan, specs: seq<Spec>, counts: Counts, topology: Topology, reserve: bool,
                      selected: seq<int>)
    requires Planned(plan, specs, counts, topology, reserve, selected) && GoodRequest(specs, counts)
    ensures AllDistinct(Flat(plan.assignments)) && CountsAgree(plan.assignments)
    ensures InRange(Flat(plan.assignments)) && InRange(plan.online) && AllDistinct(plan.online)
    ensures Repeats(Flat(plan.assignments)) + CountComplaints(plan.assignments) == []
  {
    hide CountFor, Total, Reserved, Holds, Flat, Slices, ServedInFull, Share, CountComplaints, Repeats;
    var a := plan.assignments;
    GoodRequestIsServed(a, specs, counts, selected);
    PrefixAscends(Flat(a), selected);
    SlicesAt(a, specs, counts, selected, 0);
    forall i | 0 <= i < |a| ensures a[i].count != 0 && a[i].rayonThreads == a[i].count {
      SlicesAt(a, specs, counts, selected, i);
      ServedAt(specs, counts, selected, i);
      PositiveFor(counts, specs[i].workerId);
    }
    NoRepeatsIff(Flat(a));
    NoCountComplaintsIff(a);
    forall k | 0 <= k < |Flat(a)| ensures 0 <= Flat(a)[k] <= MAX_CPU {
      assert Flat(a)[k] == selected[k];
      assert selected[k] in plan.online;
    }
  }

  /** The background is what is online and not reserved, and it shares no core with a profiled worker. */
  lemma BackgroundIsApart(plan: Plan, specs: seq<Spec>, counts: Counts, topology: Topology, reserve: bool,
                          selected: seq<int>)
    requires Planned(plan, specs, counts, topology, reserve, selected)
    ensures forall b :: b in plan.background ==> Online(topology, b) && !Assigned(plan.assignments, b)
    ensures !(reserve && topology.smtEnabled) ==>
              forall c :: Online(topology, c) ==> (c in plan.background <==> !Assigned(plan.assignments, c))
    ensures reserve && topology.smtEnabled ==>
              forall b, p | b in plan.background && Assigned(plan.assignments, p) :: !ShareCore(topology, p, b)
    ensures !Overlap(plan.profiledMask, plan.backgroundMask) && !Overlap(plan.reservedMask, plan.backgroundMask)
  {
    hide Slices, Assigned, ShareCore, Bit, Total, StrictlyAscending, IsOnlineList, InRange;
    OverlapIffShared(plan.profiledMask, plan.backgroundMask);
    OverlapIffShared(plan.reservedMask, plan.backgroundMask);
  }
}
