/** The hybrid layout: some logical clients get a container of their own, the others are packed together. */
module HybridLayout {
  import opened Sorting
  import opened Decimal
  import Bridges

  datatype Layout = Layout(singletons: nat, packed: nat, containers: nat, physical: nat)

  datatype Strategy = EvenlySpaced | Stratified

  // ---- names

  function Zeros(k: nat): (s: string)
    ensures |s| == k && AllDigits(s)
  {
    if k == 0 then "" else "0" + Zeros(k - 1)
  }

  /** Zero-padded decimal. */
  function Pad(width: nat, n: nat): (s: string)
    ensures s != [] && AllDigits(s)
  {
    var digits := Show(n);
    if |digits| >= width then digits else Zeros(width - |digits|) + digits
  }

  lemma {:induction false} ReadLeadingZeros(k: nat, s: string)
    requires AllDigits(s)
    ensures Read(Zeros(k) + s) == Read(s)
    decreases |s|, k
  {
    if s != [] {
      var init := s[..|s| - 1];
      ReadLeadingZeros(k, init);
      assert (Zeros(k) + s)[..k + |s| - 1] == Zeros(k) + init;
    } else if k > 0 {
      assert Zeros(k) + s == "0" + Zeros(k - 1);
      ZerosSnoc(k - 1);
      ReadLeadingZeros(k - 1, s);
      assert Zeros(k - 1) + s == Zeros(k - 1);
      assert (Zeros(k - 1) + "0")[..k - 1] == Zeros(k - 1);
    }
  }

  lemma {:induction false} ZerosSnoc(k: nat)
    ensures "0" + Zeros(k) == Zeros(k) + "0"
  {
    if k > 0 {
      ZerosSnoc(k - 1);
    }
  }

  lemma ReadPad(width: nat, n: nat)
    ensures Read(Pad(width, n)) == n
  {
    var digits := Show(n);
    ReadShow(n);
    if |digits| < width {
      ReadLeadingZeros(width - |digits|, digits);
    }
  }

  function WorkerId(i: nat): string {
    Pad(5, i)
  }

  function SingletonName(i: nat): string {
    "worker-" + WorkerId(i)
  }

  function PackName(k: nat): string {
    "worker-pack-" + Pad(3, k)
  }

  lemma PrefixCancels(p: string, a: string, b: string)
    requires p + a == p + b
    ensures a == b
  {
    assert a == (p + a)[|p|..];
    assert b == (p + b)[|p|..];
  }

  lemma SingletonNamesDiffer(i: nat, j: nat)
    requires SingletonName(i) == SingletonName(j)
    ensures i == j
  {
    PrefixCancels("worker-", WorkerId(i), WorkerId(j));
    ReadPad(5, i);
    ReadPad(5, j);
  }

  lemma PackNamesDiffer(i: nat, j: nat)
    requires PackName(i) == PackName(j)
    ensures i == j
  {
    PrefixCancels("worker-pack-", Pad(3, i), Pad(3, j));
    ReadPad(3, i);
    ReadPad(3, j);
  }

  lemma SingletonIsNotPack(i: nat, k: nat)
    ensures SingletonName(i) != PackName(k)
  {
    assert SingletonName(i)[7] == WorkerId(i)[0];
    assert IsDigit(WorkerId(i)[0]);
    assert PackName(k)[7] == 'p';
  }

  // ---- the arithmetic

  function Ceil(x: real): int {
    -((-x).Floor)
  }

  lemma CeilIs(x: real)
    ensures Ceil(x) as real - 1.0 < x <= Ceil(x) as real
  {
  }

  function Min(a: int, b: int): int {
    if a <= b then a else b
  }

  function Max(a: int, b: int): int {
    if a <= b then b else a
  }

  /** compute_hybrid_layout, for arguments that passed validate_args. */
  function ComputeHybridLayout(total: nat, minCount: nat, fraction: real, perPack: nat): (r: Layout)
    requires total > 0 && minCount > 0 && 0.0 < fraction <= 1.0 && perPack > 0
    ensures 1 <= r.singletons <= total
    ensures r.singletons + r.packed == total && r.singletons + r.containers == r.physical
  {
    var singletons := Min(total, Max(minCount, Ceil(total as real * fraction)));
    var packed := total - singletons;
    var containers := if packed > 0 then Bridges.CeilDiv(packed, perPack) else 0;
    Layout(singletons, packed, containers, singletons + containers)
  }

  /** The singleton count is the least that meets both the minimum and the fraction, or everyone. */
  lemma SingletonsAreEnough(total: nat, minCount: nat, fraction: real, perPack: nat, n: nat)
    requires total > 0 && minCount > 0 && 0.0 < fraction <= 1.0 && perPack > 0 && n <= total
    ensures var s := ComputeHybridLayout(total, minCount, fraction, perPack).singletons;
            s <= n <==> n == total || (minCount <= n && total as real * fraction <= n as real)
  {
    var want := total as real * fraction;
    CeilIs(want);
    assert Ceil(want) <= n <==> want <= n as real;
  }

  /** The containers are just enough for the packed clients. */
  lemma ContainersAreEnough(total: nat, minCount: nat, fraction: real, perPack: nat, n: nat)
    requires total > 0 && minCount > 0 && 0.0 < fraction <= 1.0 && perPack > 0
    ensures var l := ComputeHybridLayout(total, minCount, fraction, perPack);
            l.containers <= n <==> l.packed <= n * perPack
  {
    var l := ComputeHybridLayout(total, minCount, fraction, perPack);
    Bridges.CeilDivIff(l.packed, perPack, n);
  }

  // ---- choosing the singletons

  function StrataSize(candidates: nat, slots: nat): real
    requires slots > 0
  {
    candidates as real / slots as real
  }

  /** int(i * strata_size) */
  function StratumStart(candidates: nat, slots: nat, i: nat): int
    requires slots > 0
  {
    (i as real * StrataSize(candidates, slots)).Floor
  }

  /** int(i * strata_size + strata_size / 2) */
  function StratumMiddle(candidates: nat, slots: nat, i: nat): int
    requires slots > 0
  {
    (i as real * StrataSize(candidates, slots) + StrataSize(candidates, slots) / 2.0).Floor
  }

  lemma StrataFacts(candidates: nat, slots: nat, i: nat)
    requires 0 < slots <= candidates && i < slots
    ensures var s := StrataSize(candidates, slots);
            && s >= 1.0 && i as real * s >= 0.0
            && (i + 1) as real * s == i as real * s + s
            && (i + 1) as real * s <= candidates as real
            && (i + 1 == slots ==> (i + 1) as real * s == candidates as real)
  {
    hide StrataSize;
    StrataSum(candidates, slots);
    RealTimes(StrataSize(candidates, slots), i as real, (i + 1) as real, slots as real);
  }

  lemma StrataSum(candidates: nat, slots: nat)
    requires 0 < slots <= candidates
    ensures slots as real * StrataSize(candidates, slots) == candidates as real && StrataSize(candidates, slots) >= 1.0
  {
    var s, k := StrataSize(candidates, slots), slots as real;
    assert k * s == candidates as real;
    if s < 1.0 {
      RealMulMono(k, s, 1.0);
    }
  }

  lemma RealTimes(s: real, a: real, b: real, k: real)
    requires s > 0.0 && 0.0 <= a && b == a + 1.0 && b <= k
    ensures 0.0 <= a * s && b * s == a * s + s && b * s <= k * s && (b == k ==> b * s == k * s)
  {
    RealMulMono(s, 0.0, a);
    RealMulMono(s, b, k);
  }

  /** Strata follow one another, are not empty and cover the candidates. */
  lemma StrataAscend(candidates: nat, slots: nat, i: nat)
    requires 0 < slots <= candidates && i < slots
    ensures 0 <= StratumStart(candidates, slots, i) < StratumStart(candidates, slots, i + 1) <= candidates
    ensures i + 1 == slots ==> StratumStart(candidates, slots, i + 1) == candidates
  {
    StrataFacts(candidates, slots, i);
  }

  /** The middles are different candidates, so the source's clipping to the last one never acts. */
  lemma MiddlesAscend(candidates: nat, slots: nat, i: nat)
    requires 0 < slots <= candidates && i < slots
    ensures 0 <= StratumMiddle(candidates, slots, i) < candidates
    ensures i > 0 ==> StratumMiddle(candidates, slots, i - 1) < StratumMiddle(candidates, slots, i)
  {
    StrataFacts(candidates, slots, i);
    if i > 0 {
      StrataFacts(candidates, slots, i - 1);
    }
  }

  /** In whole numbers: the candidate at this index covers the centre of stratum i. */
  predicate Central(candidates: int, slots: int, i: int, index: int) {
    2 * slots * index <= (2 * i + 1) * candidates < 2 * slots * (index + 1)
  }

  /** In whole numbers: the candidate at this index belongs to stratum i. */
  predicate WithinStratum(candidates: int, slots: int, i: int, index: int) {
    i * candidates < slots * (index + 1) <= (i + 1) * candidates
  }

  lemma StrataScale(candidates: nat, slots: nat, i: nat)
    requires slots > 0
    ensures slots as real * (i as real * StrataSize(candidates, slots)) == (i * candidates) as real
  {
    var s := StrataSize(candidates, slots);
    assert slots as real * s == candidates as real;
    assert slots as real * (i as real * s) == i as real * (slots as real * s);
    assert (i * candidates) as real == i as real * candidates as real;
  }

  lemma MulMono(k: nat, a: int, b: int)
    requires a <= b
    ensures k * a <= k * b
  {
  }

  lemma RealMul(k: nat, a: int)
    ensures (k * a) as real == k as real * a as real
  {
  }

  lemma RealMulMono(k: real, x: real, y: real)
    requires k > 0.0
    ensures x <= y ==> k * x <= k * y
    ensures x < y ==> k * x < k * y
  {
  }

  lemma ScaleFloor(x: real, slots: nat, scaled: int)
    requires slots > 0 && slots as real * x == scaled as real
    ensures slots * x.Floor <= scaled < slots * (x.Floor + 1)
  {
    var n := x.Floor;
    ScaleLower(slots, n, x);
    ScaleUpper(slots, n + 1, x);
  }

  lemma ScaleLower(slots: nat, n: int, x: real)
    requires slots > 0 && n as real <= x
    ensures (slots * n) as real <= slots as real * x
  {
    RealMul(slots, n);
    RealMulMono(slots as real, n as real, x);
  }

  lemma ScaleUpper(slots: nat, n: int, x: real)
    requires slots > 0 && x < n as real
    ensures slots as real * x < (slots * n) as real
  {
    RealMul(slots, n);
    RealMulMono(slots as real, x, n as real);
  }

  lemma MiddleIsCentral(candidates: nat, slots: nat, i: nat)
    requires slots > 0
    ensures Central(candidates, slots, i, StratumMiddle(candidates, slots, i))
  {
    var s := StrataSize(candidates, slots);
    var x := i as real * s + s / 2.0;
    StrataScale(candidates, slots, i);
    assert slots as real * s == candidates as real;
    assert (2 * slots) as real * x == 2.0 * (slots as real * (i as real * s)) + slots as real * s;
    assert ((2 * i + 1) * candidates) as real == 2.0 * (i * candidates) as real + candidates as real;
    assert x.Floor == StratumMiddle(candidates, slots, i);
    ScaleFloor(x, 2 * slots, (2 * i + 1) * candidates);
    assert Central(candidates, slots, i, x.Floor);
  }

  lemma StartScale(candidates: nat, slots: nat, i: nat)
    requires slots > 0
    ensures var start := StratumStart(candidates, slots, i);
            slots * start <= i * candidates < slots * (start + 1)
  {
    hide StrataSize;
    StrataScale(candidates, slots, i);
    ScaleFloor(i as real * StrataSize(candidates, slots), slots, i * candidates);
  }

  lemma BetweenStarts(candidates: nat, slots: nat, i: nat, index: int)
    requires slots > 0
    requires StratumStart(candidates, slots, i) <= index < StratumStart(candidates, slots, i + 1)
    ensures WithinStratum(candidates, slots, i, index)
  {
    hide StratumStart;
    StartScale(candidates, slots, i);
    StartScale(candidates, slots, i + 1);
    MulMono(slots, StratumStart(candidates, slots, i) + 1, index + 1);
    MulMono(slots, index + 1, StratumStart(candidates, slots, i + 1));
  }

  ghost predicate Chosen(ids: seq<int>, total: nat) {
    && StrictlyAscending(ids) && ids != [] && ids[0] == 1
    && forall k | 0 <= k < |ids| :: 1 <= ids[k] <= total
  }

  lemma ChosenSnoc(ids: seq<int>, total: nat, x: int)
    requires Chosen(ids, total) && ids[|ids| - 1] < x <= total
    ensures Chosen(ids + [x], total)
  {
  }

  method PickEvenly(total: nat, slots: nat) returns (found: seq<int>)
    requires 0 < slots < total
    ensures Chosen(found, total) && |found| == slots + 1
    ensures forall k | 0 < k <= slots :: Central(total - 1, slots, k - 1, found[k] - 2)
  {
    hide StratumMiddle, Chosen, Central;
    var candidates := total - 1;
    found := JustTheFirst(total);
    for i := 0 to slots
      invariant |found| == i + 1 && Chosen(found, total)
      invariant i == 0 ==> found[i] == 1
      invariant i > 0 ==> found[i] == 2 + StratumMiddle(candidates, slots, i - 1)
      invariant forall k | 0 < k <= i :: Central(candidates, slots, k - 1, found[k] - 2)
    {
      MiddlesAscend(candidates, slots, i);
      MiddleIsCentral(candidates, slots, i);
      var index := Min(StratumMiddle(candidates, slots, i), candidates - 1);
      ChosenSnoc(found, total, 2 + index);
      found := found + [2 + index];
    }
  }

  /** `draw` is the random generator: any number for each stratum. */
  method PickStratified(total: nat, slots: nat, draw: nat -> nat) returns (found: seq<int>)
    requires 0 < slots < total
    ensures Chosen(found, total) && |found| == slots + 1
    ensures forall k | 0 < k <= slots :: WithinStratum(total - 1, slots, k - 1, found[k] - 2)
  {
    hide StratumStart, Chosen, WithinStratum;
    var candidates := total - 1;
    found := JustTheFirst(total);
    StrataAscend(candidates, slots, 0);
    for i := 0 to slots
      invariant |found| == i + 1 && Chosen(found, total)
      invariant i < slots ==> found[i] < 2 + StratumStart(candidates, slots, i)
      invariant forall k | 0 < k <= i :: WithinStratum(candidates, slots, k - 1, found[k] - 2)
    {
      StrataAscend(candidates, slots, i);
      if i + 1 < slots {
        StrataAscend(candidates, slots, i + 1);
      }
      var start := StratumStart(candidates, slots, i);
      var end := if i < slots - 1 then StratumStart(candidates, slots, i + 1) else candidates;
      var index := start + draw(i) % (end - start);
      BetweenStarts(candidates, slots, i, index);
      ChosenSnoc(found, total, 2 + index);
      found := found + [2 + index];
    }
  }

  function JustTheFirst(total: nat): (ids: seq<int>)
    requires total > 0
    ensures Chosen(ids, total) && ids == [1]
  {
    [1]
  }

  function Everyone(total: nat): seq<int> {
    if total == 0 then [] else Everyone(total - 1) + [total]
  }

  lemma {:induction false} EveryoneIs(total: nat)
    ensures |Everyone(total)| == total && forall k | 0 <= k < total :: Everyone(total)[k] == k + 1
  {
    if total > 0 {
      EveryoneIs(total - 1);
    }
  }

  /** select_singleton_ids: as many distinct workers as asked for, worker 1 among them. */
  method SelectSingletonIds(total: nat, count: nat, strategy: Strategy, draw: nat -> nat) returns (ids: seq<int>)
    requires 1 <= count && 1 <= total
    ensures Chosen(ids, total)
    ensures |ids| == Min(count, total)
    ensures 1 < count < total ==>
              forall k | 0 < k < count ::
                if strategy == EvenlySpaced then Central(total - 1, count - 1, k - 1, ids[k] - 2)
                else WithinStratum(total - 1, count - 1, k - 1, ids[k] - 2)
  {
    hide Central, WithinStratum;
    if count >= total {
      EveryoneIs(total);
      return Everyone(total);
    }
    if count == 1 {
      return JustTheFirst(total);
    }
    var found;
    if strategy == EvenlySpaced {
      found := PickEvenly(total, count - 1);
    } else {
      found := PickStratified(total, count - 1, draw);
    }
    SortedSetIs(found);
    AscendingUnique(found, SortedSet(found));
    ids := SortedSet(found);
  }

  // ---- building the layout

  datatype Physical = Physical(name: string, clients: seq<int>)

  datatype Client = Client(id: int, worker: string)

  /** How often each client is hosted. */
  ghost function Hosted(workers: seq<Physical>): multiset<int> {
    if workers == [] then multiset{}
    else Hosted(workers[..|workers| - 1]) + multiset(workers[|workers| - 1].clients)
  }

  lemma HostedSnoc(workers: seq<Physical>, w: Physical)
    ensures Hosted(workers + [w]) == Hosted(workers) + multiset(w.clients)
  {
    assert (workers + [w])[..|workers|] == workers;
  }

  /** The client's entry names a worker that hosts it. */
  ghost predicate Found(c: Client, workers: seq<Physical>) {
    exists w :: 0 <= w < |workers| && workers[w].name == c.worker && c.id in workers[w].clients
  }

  lemma FoundInMore(c: Client, workers: seq<Physical>, w: Physical)
    requires Found(c, workers) || (w.name == c.worker && c.id in w.clients)
    ensures Found(c, workers + [w])
  {
    if Found(c, workers) {
      var i :| 0 <= i < |workers| && workers[i].name == c.worker && c.id in workers[i].clients;
      assert (workers + [w])[i] == workers[i];
    } else {
      assert (workers + [w])[|workers|] == w;
    }
  }

  /** The client table lists `ids` in order, and each entry leads to its host. */
  ghost predicate Lists(clients: seq<Client>, ids: seq<int>, workers: seq<Physical>) {
    && |clients| == |ids|
    && forall i | 0 <= i < |clients| :: clients[i].id == ids[i] && Found(clients[i], workers)
  }

  function Entries(name: string, ids: seq<int>): (r: seq<Client>)
    ensures |r| == |ids| && forall i | 0 <= i < |ids| :: r[i] == Client(ids[i], name)
  {
    if ids == [] then [] else [Client(ids[0], name)] + Entries(name, ids[1..])
  }

  lemma ListsMore(clients: seq<Client>, ids: seq<int>, workers: seq<Physical>, w: Physical)
    requires Lists(clients, ids, workers)
    ensures Lists(clients + Entries(w.name, w.clients), ids + w.clients, workers + [w])
  {
    hide Found;
    var more := clients + Entries(w.name, w.clients);
    forall i | 0 <= i < |more| ensures more[i].id == (ids + w.clients)[i] && Found(more[i], workers + [w]) {
      FoundInMore(more[i], workers, w);
    }
  }

  method HostSingletons(singletons: seq<int>) returns (clients: seq<Client>, workers: seq<Physical>)
    requires forall i | 0 <= i < |singletons| :: singletons[i] >= 0
    ensures Lists(clients, singletons, workers) && Hosted(workers) == multiset(singletons)
    ensures |workers| == |singletons|
    ensures forall i | 0 <= i < |singletons| :: workers[i] == Physical(SingletonName(singletons[i]), [singletons[i]])
  {
    hide SingletonName, Lists, Hosted;
    clients, workers := [], [];
    StartEmpty();
    assert singletons[..0] == [];
    for k := 0 to |singletons|
      invariant Lists(clients, singletons[..k], workers) && Hosted(workers) == multiset(singletons[..k])
      invariant |workers| == k
      invariant forall i | 0 <= i < k :: workers[i] == Physical(SingletonName(singletons[i]), [singletons[i]])
    {
      var w := Physical(SingletonName(singletons[k]), [singletons[k]]);
      assert singletons[..k + 1] == singletons[..k] + [singletons[k]];
      ListsMore(clients, singletons[..k], workers, w);
      HostedSnoc(workers, w);
      clients, workers := clients + Entries(w.name, w.clients), workers + [w];
    }
    assert singletons[..|singletons|] == singletons;
  }

  lemma StartEmpty()
    ensures Lists([], [], []) && Hosted([]) == multiset{}
  {
  }

  /** First one worker per singleton, then `packs` packs of one to perPack clients, each under its own name. */
  ghost predicate Shaped(workers: seq<Physical>, singletons: seq<int>, packs: nat, perPack: nat) {
    && |workers| == |singletons| + packs
    && (forall i | 0 <= i < |singletons| ::
          singletons[i] >= 0 && workers[i] == Physical(SingletonName(singletons[i]), [singletons[i]]))
    && forall k: nat | |singletons| <= k < |workers| ::
         workers[k].name == PackName(k - |singletons|) && 1 <= |workers[k].clients| <= perPack
  }

  lemma ShapedSnoc(workers: seq<Physical>, singletons: seq<int>, packs: nat, perPack: nat, w: Physical)
    requires Shaped(workers, singletons, packs, perPack)
    requires w.name == PackName(packs) && 1 <= |w.clients| <= perPack
    ensures Shaped(workers + [w], singletons, packs + 1, perPack)
  {
    hide SingletonName, PackName;
  }

  /** build_hybrid_layout: the client table and the physical workers. */
  method BuildHybridLayout(singletons: seq<int>, packed: seq<int>, perPack: nat)
    returns (clients: seq<Client>, workers: seq<Physical>)
    requires perPack > 0 && forall i | 0 <= i < |singletons| :: singletons[i] >= 0
    ensures Lists(clients, singletons + packed, workers)
    ensures Hosted(workers) == multiset(singletons + packed)
    ensures Shaped(workers, singletons, Bridges.CeilDiv(|packed|, perPack), perPack)
  {
    hide SingletonName, PackName, Lists, Hosted, Reached, Shaped, Bridges.CeilDiv;
    clients, workers := HostSingletons(singletons);
    var start, pack := 0, 0;
    StartPacks(workers, singletons, |packed|, perPack);
    assert singletons + packed[..0] == singletons;
    while start < |packed|
      invariant 0 <= start && 0 <= pack
      invariant Reached(|packed|, perPack, start, pack)
      invariant Lists(clients, singletons + packed[..Min(start, |packed|)], workers)
      invariant Hosted(workers) == multiset(singletons + packed[..Min(start, |packed|)])
      invariant Shaped(workers, singletons, pack, perPack)
    {
      var end := Min(start + perPack, |packed|);
      var w := Physical(PackName(pack), packed[start..end]);
      assert singletons + packed[..end] == singletons + packed[..start] + w.clients;
      ListsMore(clients, singletons + packed[..start], workers, w);
      HostedSnoc(workers, w);
      ReachedStep(|packed|, perPack, start, pack);
      ShapedSnoc(workers, singletons, pack, perPack, w);
      clients, workers := clients + Entries(w.name, w.clients), workers + [w];
      start, pack := start + perPack, pack + 1;
    }
    assert packed[..|packed|] == packed;
    ReachedEnd(|packed|, perPack, start, pack);
  }

  lemma StartPacks(workers: seq<Physical>, singletons: seq<int>, n: nat, perPack: nat)
    requires |workers| == |singletons| && forall i | 0 <= i < |singletons| :: singletons[i] >= 0
    requires forall i | 0 <= i < |singletons| :: workers[i] == Physical(SingletonName(singletons[i]), [singletons[i]])
    ensures Shaped(workers, singletons, 0, perPack) && Reached(n, perPack, 0, 0)
  {
  }

  /** After `pack` packs the loop stands at `start`. */
  ghost predicate Reached(n: nat, perPack: nat, start: int, pack: nat) {
    start == pack * perPack && (pack > 0 ==> start < n + perPack)
  }

  lemma ReachedStep(n: nat, perPack: nat, start: int, pack: nat)
    requires Reached(n, perPack, start, pack) && start < n
    ensures Reached(n, perPack, start + perPack, pack + 1)
  {
    assert (pack + 1) * perPack == pack * perPack + perPack;
  }

  lemma ReachedEnd(n: nat, perPack: nat, start: int, pack: nat)
    requires perPack > 0 && Reached(n, perPack, start, pack) && start >= n
    ensures pack == Bridges.CeilDiv(n, perPack)
  {
    Bridges.CeilDivIff(n, perPack, pack);
    if pack > 0 {
      Bridges.CeilDivIff(n, perPack, pack - 1);
      assert (pack - 1) * perPack == pack * perPack - perPack;
    }
  }

  /** No two physical workers share a name. */
  lemma NamesAreDistinct(workers: seq<Physical>, singletons: seq<int>, packs: nat, perPack: nat, i: nat, j: nat)
    requires Shaped(workers, singletons, packs, perPack) && StrictlyAscending(singletons)
    requires i < j < |workers|
    ensures workers[i].name != workers[j].name
  {
    hide SingletonName, PackName;
    var n := |singletons|;
    if j < n {
      if workers[i].name == workers[j].name {
        SingletonNamesDiffer(singletons[i], singletons[j]);
      }
    } else if i < n {
      SingletonIsNotPack(singletons[i], j - n);
    } else if workers[i].name == workers[j].name {
      PackNamesDiffer(i - n, j - n);
    }
  }

  // ---- the whole layout

  /** The clients that are not singletons, in order. */
  function Without(ids: seq<int>, singletons: seq<int>): seq<int> {
    if ids == [] then []
    else
      var rest, last := Without(ids[..|ids| - 1], singletons), ids[|ids| - 1];
      if last in singletons then rest else rest + [last]
  }

  lemma WithoutNone(singletons: seq<int>)
    ensures Without(Everyone(0), singletons) == []
  {
  }

  lemma WithoutSnoc(n: nat, singletons: seq<int>)
    requires n > 0
    ensures Without(Everyone(n), singletons) ==
            Without(Everyone(n - 1), singletons) + if n in singletons then [] else [n]
  {
    assert Everyone(n)[..|Everyone(n)| - 1] == Everyone(n - 1);
  }

  lemma {:induction false} WithoutIs(n: nat, singletons: seq<int>, c: int)
    ensures multiset(Without(Everyone(n), singletons))[c] == if 1 <= c <= n && c !in singletons then 1 else 0
    decreases n
  {
    hide Without, Everyone;
    if n == 0 {
      WithoutNone(singletons);
    } else {
      WithoutIs(n - 1, singletons, c);
      WithoutSnoc(n, singletons);
    }
  }

  lemma {:induction false} AscendingOnce(ids: seq<int>, c: int)
    requires StrictlyAscending(ids)
    ensures multiset(ids)[c] == if c in ids then 1 else 0
    decreases |ids|
  {
    if ids != [] {
      AscendingOnce(ids[1..], c);
      assert ids == [ids[0]] + ids[1..];
    }
  }

  /** Singletons and the rest together are every client once. */
  lemma EveryClientOnce(total: nat, singletons: seq<int>, c: int)
    requires Chosen(singletons, total)
    ensures multiset(singletons + Without(Everyone(total), singletons))[c] == if 1 <= c <= total then 1 else 0
  {
    hide Without, Everyone;
    WithoutIs(total, singletons, c);
    AscendingOnce(singletons, c);
    assert c in singletons ==> 1 <= c <= total;
  }

  lemma {:induction false} SumOfOnes(total: nat, s: seq<int>)
    requires forall c :: multiset(s)[c] == if 1 <= c <= total then 1 else 0
    ensures |s| == total
  {
    EveryoneIs(total);
    forall c ensures multiset(s)[c] == multiset(Everyone(total))[c] {
      AscendingOnce(Everyone(total), c);
      assert c in Everyone(total) <==> 1 <= c <= total by {
        assert 1 <= c <= total ==> Everyone(total)[c - 1] == c;
      }
    }
    assert multiset(s) == multiset(Everyone(total));
    assert |multiset(s)| == |s|;
    assert |multiset(Everyone(total))| == total;
  }

  lemma AllOnce(total: nat, singletons: seq<int>)
    requires Chosen(singletons, total)
    ensures var all := singletons + Without(Everyone(total), singletons);
            |all| == total && forall c :: multiset(all)[c] == if 1 <= c <= total then 1 else 0
    ensures forall i | 0 <= i < |singletons| :: singletons[i] >= 0
  {
    hide Without, Everyone;
    var all := singletons + Without(Everyone(total), singletons);
    forall c ensures multiset(all)[c] == if 1 <= c <= total then 1 else 0 {
      EveryClientOnce(total, singletons, c);
    }
    SumOfOnes(total, all);
  }

  /** The hybrid branch of main: every client is hosted exactly once and the computed worker count is the built one. */
  method GenerateHybridLayout(total: nat, minCount: nat, fraction: real, perPack: nat, strategy: Strategy, draw: nat -> nat)
    returns (layout: Layout, singletons: seq<int>, clients: seq<Client>, workers: seq<Physical>)
    requires total > 0 && minCount > 0 && 0.0 < fraction <= 1.0 && perPack > 0
    ensures layout == ComputeHybridLayout(total, minCount, fraction, perPack)
    ensures Chosen(singletons, total) && |singletons| == layout.singletons
    ensures |workers| == layout.physical
    ensures forall c :: Hosted(workers)[c] == if 1 <= c <= total then 1 else 0
    ensures |clients| == total && Lists(clients, singletons + Without(Everyone(total), singletons), workers)
    ensures Shaped(workers, singletons, layout.containers, perPack)
  {
    hide Without, Everyone, Hosted, Found, Chosen;
    layout := ComputeHybridLayout(total, minCount, fraction, perPack);
    singletons := SelectSingletonIds(total, layout.singletons, strategy, draw);
    var packed := Without(Everyone(total), singletons);
    AllOnce(total, singletons);
    clients, workers := BuildHybridLayout(singletons, packed, perPack);
  }
}
