/** Which CPUs and cores a plan ends up using: the least loaded ones, and when workers do not share a core. */
module AffinityCores {
  import opened Wrappers
  import opened Sorting
  import opened CpuMask
  import opened CpuTopology
  import opened AffinityPlan

  lemma FlatOfGoodRequest(plan: Plan, specs: seq<Spec>, counts: Counts, topology: Topology, reserve: bool,
                          selected: seq<int>)
    requires Planned(plan, specs, counts, topology, reserve, selected) && GoodRequest(specs, counts)
    ensures 0 <= Offset(specs, counts, |specs|) <= Total(counts) && Offset(specs, counts, |specs|) <= |selected|
    ensures Flat(plan.assignments) == selected[..Offset(specs, counts, |specs|)]
  {
    hide CountFor, Total, UniqueKeys, AllPositive, HasKey, Slices, Flat, Reserved, Holds, Bit, IsOnlineList, InRange;
    forall j | 0 <= j < |specs| ensures CountFor(counts, specs[j].workerId) > 0 {
      PositiveFor(counts, specs[j].workerId);
    }
    TotalCovers(specs, counts, |specs|);
    SlicesAt(plan.assignments, specs, counts, selected, 0);
    FlatIsPrefix(plan.assignments, specs, counts, selected, |specs|);
    assert plan.assignments[..|specs|] == plan.assignments;
  }

  /**
   Without reservation every assigned CPU has a smaller (load, id) than every CPU of the pool that was not chosen,
   and when the workers use up the dictionary's total the assigned CPUs are exactly the chosen ones.
   */
  lemma AssignedAreLeastLoaded(plan: Plan, specs: seq<Spec>, counts: Counts, topology: Topology, load: Load,
                               reserve: bool, pool: seq<int>, chosen: seq<int>, selected: seq<int>)
    requires Planned(plan, specs, counts, topology, reserve, selected) && GoodRequest(specs, counts)
    requires Picked(topology, plan.online, counts, load, reserve, pool, chosen, selected)
    requires !(reserve && topology.smtEnabled)
    ensures forall c, u | Assigned(plan.assignments, c) && u in pool && u !in chosen :: Lighter(load, c, u)
    ensures Offset(specs, counts, |specs|) == Total(counts) ==>
              forall c :: Assigned(plan.assignments, c) <==> c in chosen
  {
    hide GoodRequest, Flat, Assigned, Slices, Reserved, Holds, Bit, IsOnlineList, InRange, IsPool, Total;
    FlatOfGoodRequest(plan, specs, counts, topology, reserve, selected);
    var n := Offset(specs, counts, |specs|);
    forall c ensures Assigned(plan.assignments, c) <==> c in selected[..n] {
      FlatIs(plan.assignments, c);
    }
    assert forall c | c in selected[..n] :: c in selected;
    assert n == |selected| ==> selected[..n] == selected;
  }

  // ---- cores

  lemma ShareTransitive(topology: Topology, a: int, b: int, c: int)
    requires CoresDisjoint(topology) && ShareCore(topology, a, b) && ShareCore(topology, b, c)
    ensures ShareCore(topology, a, c) && ShareCore(topology, b, a)
  {
  }

  /** No CPU of its core has a smaller number. */
  ghost predicate FirstOnCore(topology: Topology, p: int) {
    forall d | ShareCore(topology, p, d) :: p <= d
  }

  /** The CPU with the least number on its core. */
  ghost predicate IsPrimary(topology: Topology, p: int) {
    ShareCore(topology, p, p) && FirstOnCore(topology, p)
  }

  /** Linux numbers the first hardware threads of all cores before the second ones. */
  ghost predicate PrimariesFirst(topology: Topology) {
    && (forall c | Online(topology, c) :: ShareCore(topology, c, c))
    && forall x, y, z | ShareCore(topology, x, y) && x < y && IsPrimary(topology, z) :: z < y
  }

  lemma {:induction false} LeastOf(s: seq<int>) returns (m: int)
    requires s != []
    ensures m in s && forall x | x in s :: m <= x
    decreases |s|
  {
    m := s[0];
    if |s| > 1 {
      var rest := LeastOf(s[1..]);
      m := if rest < s[0] then rest else s[0];
      assert s == [s[0]] + s[1..];
    }
  }

  lemma PrimaryOf(topology: Topology, c: int) returns (p: int)
    requires CoresDisjoint(topology) && ShareCore(topology, c, c)
    ensures ShareCore(topology, c, p) && IsPrimary(topology, p)
  {
    var core :| core in topology.coreToCpus && c in topology.coreToCpus[core];
    p := LeastOf(topology.coreToCpus[core]);
    assert ShareCore(topology, p, p) && ShareCore(topology, c, p);
    forall d | ShareCore(topology, p, d) ensures p <= d {
      var other :| other in topology.coreToCpus && p in topology.coreToCpus[other] && d in topology.coreToCpus[other];
      assert other == core;
    }
  }

  ghost predicate OnSeparateCores(topology: Topology, cpus: seq<int>) {
    forall i, j | 0 <= i < j < |cpus| :: !ShareCore(topology, cpus[i], cpus[j])
  }

  /** The primaries of chosen CPUs on separate cores are different and all stand before a second thread. */
  lemma {:induction false} PrimariesOf(topology: Topology, chosen: seq<int>, selected: seq<int>, q: nat, x: int, k: nat)
    returns (primaries: seq<int>)
    requires CoresDisjoint(topology) && PrimariesFirst(topology) && OnSeparateCores(topology, chosen)
    requires StrictlyAscending(selected) && q < |selected| && x < selected[q] && ShareCore(topology, x, selected[q])
    requires forall c :: c in chosen ==> Online(topology, c)
    requires forall c :: SharesWithOneOf(topology, chosen, c) ==> c in selected
    requires k <= |chosen|
    ensures |primaries| == k && AllDistinct(primaries) && (forall p | p in primaries :: p in selected[..q])
    ensures forall i | 0 <= i < k :: ShareCore(topology, chosen[i], primaries[i])
    decreases k
  {
    hide ShareCore, IsPrimary;
    if k == 0 {
      return [];
    }
    primaries := PrimariesOf(topology, chosen, selected, q, x, k - 1);
    var c := chosen[k - 1];
    var p := PrimaryOf(topology, c);
    assert c in chosen;
    assert SharesWithOneOf(topology, chosen, p);
    var i :| 0 <= i < |selected| && selected[i] == p;
    assert i < q;
    assert selected[..q][i] == p;
    forall j | 0 <= j < k - 1 ensures primaries[j] != p {
      if primaries[j] == p {
        ShareTransitive(topology, c, p, p) by { Reflexive(topology, c, p); }
        ShareTransitive(topology, chosen[j], p, c);
      }
    }
    primaries := primaries + [p];
  }

  lemma Reflexive(topology: Topology, a: int, b: int)
    requires ShareCore(topology, a, b)
    ensures ShareCore(topology, b, b) && ShareCore(topology, b, a)
  {
  }

  lemma SecondThreadsComeLate(topology: Topology, chosen: seq<int>, selected: seq<int>, q: nat, x: int)
    requires CoresDisjoint(topology) && PrimariesFirst(topology) && OnSeparateCores(topology, chosen)
    requires StrictlyAscending(selected) && q < |selected| && x < selected[q] && ShareCore(topology, x, selected[q])
    requires forall c :: c in chosen ==> Online(topology, c)
    requires forall c :: SharesWithOneOf(topology, chosen, c) ==> c in selected
    ensures |chosen| <= q
  {
    hide ShareCore, PrimariesFirst, OnSeparateCores, SharesWithOneOf;
    var primaries := PrimariesOf(topology, chosen, selected, q, x, |chosen|);
    DistinctFits(primaries, selected[..q]);
  }

  /** A list that is closed under sharing a core holds all of them. */
  ghost predicate Closed(topology: Topology, selected: seq<int>) {
    forall x, y | x in selected && ShareCore(topology, x, y) :: y in selected
  }

  lemma SelectionIsClosed(topology: Topology, chosen: seq<int>, selected: seq<int>)
    requires CoresDisjoint(topology)
    requires forall x :: x in selected <==> x in chosen || SharesWithOneOf(topology, chosen, x)
    ensures Closed(topology, selected)
  {
    hide ShareCore;
    forall x, y | x in selected && ShareCore(topology, x, y) ensures y in selected {
      var c :| c in chosen && (c == x || ShareCore(topology, c, x));
      if c != x {
        ShareTransitive(topology, c, x, y);
      }
      assert SharesWithOneOf(topology, chosen, y);
    }
  }

  ghost predicate NoSharedCore(topology: Topology, cpus: seq<int>) {
    forall c, d | c in cpus && d in cpus && c != d :: !ShareCore(topology, c, d)
  }

  /** The first n CPUs of a closed ascending list are on separate cores exactly when each is the first of its core. */
  lemma PrefixSeparateIff(topology: Topology, selected: seq<int>, n: nat)
    requires CoresDisjoint(topology) && Closed(topology, selected) && StrictlyAscending(selected) && n <= |selected|
    ensures NoSharedCore(topology, selected[..n]) <==> forall c | c in selected[..n] :: FirstOnCore(topology, c)
  {
    hide ShareCore;
    var prefix := selected[..n];
    if forall c | c in prefix :: FirstOnCore(topology, c) {
      forall c, d | c in prefix && d in prefix && c != d ensures !ShareCore(topology, c, d) {
        if ShareCore(topology, c, d) {
          Reflexive(topology, c, d);
        }
      }
    }
    forall c, d | c in prefix && ShareCore(topology, c, d) && d < c ensures d in prefix {
      var i :| 0 <= i < n && selected[i] == c;
      assert c in selected;
      var j :| 0 <= j < |selected| && selected[j] == d;
      assert j < n;
      assert prefix[j] == d;
    }
  }

  /**
   With reserved siblings, no two assigned CPUs share a core if and only if each assigned CPU, that is each of the
   first CPUs of the selection, is the first one of its core.
   */
  lemma SeparateCoresIff(plan: Plan, specs: seq<Spec>, counts: Counts, topology: Topology, load: Load, reserve: bool,
                         pool: seq<int>, chosen: seq<int>, selected: seq<int>)
    requires Planned(plan, specs, counts, topology, reserve, selected) && GoodRequest(specs, counts)
    requires Picked(topology, plan.online, counts, load, reserve, pool, chosen, selected)
    requires reserve && topology.smtEnabled && WellFormed(topology)
    ensures 0 <= Offset(specs, counts, |specs|) <= |selected|
    ensures (forall c, d | Assigned(plan.assignments, c) && Assigned(plan.assignments, d) && c != d ::
               !ShareCore(topology, c, d))
            <==> forall c | c in selected[..Offset(specs, counts, |specs|)] :: FirstOnCore(topology, c)
  {
    hide GoodRequest, Flat, Assigned, Slices, Reserved, Holds, Bit, IsOnlineList, InRange, IsPool, Total, ShareCore,
         LeastLoaded, SharesWithOneOf, FirstOnCore, Closed;
    FlatOfGoodRequest(plan, specs, counts, topology, reserve, selected);
    var n := Offset(specs, counts, |specs|);
    forall c ensures Assigned(plan.assignments, c) <==> c in selected[..n] {
      FlatIs(plan.assignments, c);
    }
    SelectionIsClosed(topology, chosen, selected);
    PrefixSeparateIff(topology, selected, n);
  }

  /**
   With reserved siblings no two assigned CPUs share a core, provided that the CPUs chosen by load are on separate
   cores and the host numbers first threads before second ones.
   */
  lemma WorkersOnSeparateCores(plan: Plan, specs: seq<Spec>, counts: Counts, topology: Topology, load: Load,
                               reserve: bool, pool: seq<int>, chosen: seq<int>, selected: seq<int>, c: int, d: int)
    requires Planned(plan, specs, counts, topology, reserve, selected) && GoodRequest(specs, counts)
    requires Picked(topology, plan.online, counts, load, reserve, pool, chosen, selected)
    requires reserve && topology.smtEnabled && WellFormed(topology)
    requires PrimariesFirst(topology) && OnSeparateCores(topology, chosen)
    requires Assigned(plan.assignments, c) && Assigned(plan.assignments, d) && c < d
    ensures !ShareCore(topology, c, d)
  {
    hide GoodRequest, Flat, Assigned, Slices, Reserved, Holds, Bit, IsOnlineList, InRange, IsPool, Total, ShareCore,
         PrimariesFirst, OnSeparateCores, LeastLoaded, SharesWithOneOf;
    FlatOfGoodRequest(plan, specs, counts, topology, reserve, selected);
    FlatIs(plan.assignments, d);
    var n := Offset(specs, counts, |specs|);
    var q :| 0 <= q < n && selected[..n][q] == d;
    if ShareCore(topology, c, d) {
      SecondThreadsComeLate(topology, chosen, selected, q, c);
    }
  }

  // ---- a host on which two workers share a core

  /** Two cores with two threads each, numbered core by core. */
  function Host(): Topology {
    var thread := CpuInfo(true, true);
    Topology(map[0 := thread, 1 := thread, 2 := thread, 3 := thread], true, map[0 := [0, 1], 1 := [2, 3]])
  }

  function HostLoad(): Load {
    map[0 := 0.0, 1 := 1.0, 2 := 0.0, 3 := 1.0]
  }

  lemma {:induction false} NonePhysical(topology: Topology, candidates: seq<int>)
    requires forall i | 0 <= i < |candidates| :: Secondary(topology, true, candidates[i])
    ensures Physical(topology, true, candidates) == []
    decreases |candidates|
  {
    if candidates != [] {
      NonePhysical(topology, candidates[..|candidates| - 1]);
    }
  }

  lemma HostIsOnline(online: seq<int>)
    requires IsOnlineList(Host(), online)
    ensures online == [0, 1, 2, 3] && Physical(Host(), true, online) == []
  {
    AscendingUnique(online, [0, 1, 2, 3]);
    NonePhysical(Host(), online);
  }

  /** Load picks the first thread of either core. */
  lemma HostChoice(pool: seq<int>, chosen: seq<int>)
    requires forall c :: c in pool <==> c in [0, 1, 2, 3]
    requires |chosen| == 2 && AllDistinct(chosen) && LeastLoaded(HostLoad(), pool, chosen)
    ensures 0 in chosen && 2 in chosen && 1 !in chosen && 3 !in chosen
  {
    assert chosen[0] in chosen && chosen[1] in chosen;
    assert 0 in pool && 2 in pool;
    assert 0 !in chosen ==> Lighter(HostLoad(), chosen[0], 0);
    assert 2 !in chosen ==> Lighter(HostLoad(), chosen[0], 2) && Lighter(HostLoad(), chosen[1], 2);
  }

  lemma HostSelection(chosen: seq<int>, selected: seq<int>)
    requires 0 in chosen && 2 in chosen && (forall c :: c in chosen ==> Online(Host(), c)) && StrictlyAscending(selected)
    requires forall x :: x in selected <==> x in chosen || SharesWithOneOf(Host(), chosen, x)
    ensures selected == [0, 1, 2, 3]
  {
    var cores := Host().coreToCpus;
    assert cores[0] == [0, 1] && cores[1] == [2, 3];
    assert ShareCore(Host(), 0, 1) && ShareCore(Host(), 2, 3);
    forall x ensures x in selected <==> x in [0, 1, 2, 3] {
      assert SharesWithOneOf(Host(), chosen, x) ==> x in [0, 1, 2, 3];
    }
    AscendingUnique(selected, [0, 1, 2, 3]);
  }

  lemma HostShares(specs: seq<Spec>, counts: Counts, selected: seq<int>)
    requires specs == [Spec("a", None), Spec("b", None)] && counts == [("a", 1), ("b", 1)] && selected == [0, 1, 2, 3]
    ensures Share(specs, counts, selected, 0) == [0] && Share(specs, counts, selected, 1) == [1]
  {
    assert CountFor(counts, "a") == 1;
    assert counts[1..] == [("b", 1)] && CountFor(counts[1..], "b") == 1;
    OffsetStep(specs, counts, 0);
    OffsetStep(specs, counts, 1);
  }

  lemma HostWants()
    ensures Wanted([("a", 1), ("b", 1)]) == 2
  {
    var counts: Counts := [("a", 1), ("b", 1)];
    assert counts[1..] == [("b", 1)] && Total(counts[1..]) == 1;
  }

  /**
   With reserved siblings the workers are served from the ascending list of chosen CPUs and siblings: on this host
   both workers land on the first core, and the least loaded CPU of the second core goes unused.
   */
  lemma ReservedWorkersCanShareACore(plan: Plan, pool: seq<int>, chosen: seq<int>, selected: seq<int>)
    requires var specs, counts := [Spec("a", None), Spec("b", None)], [("a", 1), ("b", 1)];
             && Planned(plan, specs, counts, Host(), true, selected)
             && Picked(Host(), plan.online, counts, HostLoad(), true, pool, chosen, selected)
    ensures |plan.assignments| == 2 && plan.assignments[0].cpus == [0] && plan.assignments[1].cpus == [1]
    ensures ShareCore(Host(), 0, 1) && 2 in chosen && 1 !in chosen
  {
    hide Share, Total, Wanted, Reserved, Holds, Bit, InRange, IsOnlineList, Physical, LeastLoaded, Host, HostLoad,
         SharesWithOneOf, StrictlyAscending, ShareCore;
    var specs, counts := [Spec("a", None), Spec("b", None)], [("a", 1), ("b", 1)];
    HostWants();
    HostIsOnline(plan.online);
    HostIsSmt();
    HostChoice(pool, chosen);
    HostSelection(chosen, selected);
    HostShares(specs, counts, selected);
    assert Serves(plan.assignments[0], specs[0], counts, Share(specs, counts, selected, 0));
    assert Serves(plan.assignments[1], specs[1], counts, Share(specs, counts, selected, 1));
  }

  lemma HostIsSmt()
    ensures Host().smtEnabled && ShareCore(Host(), 0, 1)
  {
    assert Host().coreToCpus[0] == [0, 1];
  }
}
