/** CPU lists as bit masks: arbitrary-precision integers with one bit per CPU. */
module CpuMask {
  import opened Wrappers
  import opened Sorting

  datatype MaskError = NegativeCpu(cpu: int) | CpuTooLarge(cpu: int) | DuplicateCpu(cpu: int)

  const MAX_CPU: int := 1023

  /** Bit `i` of a mask. */
  predicate Bit(mask: nat, i: nat)
    decreases i
  {
    if i == 0 then mask % 2 == 1 else Bit(mask / 2, i - 1)
  }

  /** mask | (1 << i) */
  function SetBit(mask: nat, i: nat): nat
    decreases i
  {
    if i == 0 then if mask % 2 == 1 then mask else mask + 1
    else 2 * SetBit(mask / 2, i - 1) + mask % 2
  }

  /** a & b */
  function And(a: nat, b: nat): nat {
    if a == 0 then 0 else 2 * And(a / 2, b / 2) + if a % 2 == 1 && b % 2 == 1 then 1 else 0
  }

  /** masks_overlap */
  predicate Overlap(a: nat, b: nat) {
    And(a, b) != 0
  }

  /** complement_mask: online & ~mask */
  function Complement(mask: nat, online: nat): nat
    decreases online
  {
    if online == 0 then 0
    else 2 * Complement(mask / 2, online / 2) + if online % 2 == 1 && mask % 2 == 0 then 1 else 0
  }

  lemma {:induction false} SetBitBit(mask: nat, i: nat, j: nat)
    ensures Bit(SetBit(mask, i), j) <==> j == i || Bit(mask, j)
    decreases i
  {
    if i > 0 && j > 0 {
      SetBitBit(mask / 2, i - 1, j - 1);
    }
  }

  lemma {:induction false} ZeroHasNoBit(i: nat)
    ensures !Bit(0, i)
    decreases i
  {
    if i > 0 {
      ZeroHasNoBit(i - 1);
    }
  }

  lemma {:induction false} AndBit(a: nat, b: nat, i: nat)
    ensures Bit(And(a, b), i) <==> Bit(a, i) && Bit(b, i)
    decreases i
  {
    if a == 0 {
      ZeroHasNoBit(i);
    } else if i > 0 {
      AndBit(a / 2, b / 2, i - 1);
    }
  }

  /** The complement holds exactly the online CPUs that are not in the mask. */
  lemma {:induction false} ComplementBit(mask: nat, online: nat, i: nat)
    ensures Bit(Complement(mask, online), i) <==> Bit(online, i) && !Bit(mask, i)
    decreases i
  {
    if online == 0 {
      ZeroHasNoBit(i);
    } else if i > 0 {
      ComplementBit(mask / 2, online / 2, i - 1);
    }
  }

  lemma {:induction false} SomeBit(mask: nat) returns (i: nat)
    requires mask > 0
    ensures Bit(mask, i)
    decreases mask
  {
    if mask % 2 == 1 {
      i := 0;
    } else {
      var j := SomeBit(mask / 2);
      i := j + 1;
    }
  }

  /** Two masks overlap exactly when they share a CPU. */
  lemma OverlapIffShared(a: nat, b: nat)
    ensures Overlap(a, b) <==> exists i: nat :: Bit(a, i) && Bit(b, i)
  {
    if Overlap(a, b) {
      var i := SomeBit(And(a, b));
      AndBit(a, b, i);
    } else {
      forall i: nat ensures !(Bit(a, i) && Bit(b, i)) {
        AndBit(a, b, i);
        ZeroHasNoBit(i);
      }
    }
  }

  /** A mask is determined by its bits. */
  lemma {:induction false} MaskExtensional(a: nat, b: nat)
    requires forall i: nat :: Bit(a, i) <==> Bit(b, i)
    ensures a == b
    decreases a + b
  {
    if a > 0 || b > 0 {
      assert Bit(a, 0) <==> Bit(b, 0);
      forall i: nat ensures Bit(a / 2, i) <==> Bit(b / 2, i) {
        assert Bit(a, i + 1) <==> Bit(b, i + 1);
      }
      MaskExtensional(a / 2, b / 2);
    }
  }

  // ---- lists to masks

  ghost predicate InRange(cpus: seq<int>) {
    forall i | 0 <= i < |cpus| :: 0 <= cpus[i] <= MAX_CPU
  }

  /** The mask holds exactly the listed CPUs. */
  ghost predicate Holds(mask: nat, cpus: seq<int>) {
    forall i: nat :: Bit(mask, i) <==> i in cpus
  }

  /** cpu_list_to_mask: fails exactly on a CPU out of range or a repeated one. */
  method CpuListToMask(cpus: seq<int>) returns (result: Result<nat, MaskError>)
    ensures result.Ok? <==> InRange(cpus) && AllDistinct(cpus)
    ensures result.Ok? ==> Holds(result.value, cpus)
  {
    var mask, seen: set<int> := 0, {};
    forall i: nat ensures !Bit(0, i) {
      ZeroHasNoBit(i);
    }
    for k := 0 to |cpus|
      invariant InRange(cpus[..k]) && AllDistinct(cpus[..k])
      invariant forall x :: x in seen <==> x in cpus[..k]
      invariant Holds(mask, cpus[..k])
    {
      var cpu := cpus[k];
      assert cpus[..k + 1] == cpus[..k] + [cpu];
      if cpu < 0 {
        return Err(NegativeCpu(cpu));
      }
      if cpu > MAX_CPU {
        return Err(CpuTooLarge(cpu));
      }
      if cpu in seen {
        ghost var i :| 0 <= i < k && cpus[..k][i] == cpu;
        assert cpus[i] == cpus[k];
        return Err(DuplicateCpu(cpu));
      }
      seen := seen + {cpu};
      SetBitHolds(mask, cpus[..k], cpu);
      mask := SetBit(mask, cpu);
    }
    assert cpus[..|cpus|] == cpus;
    return Ok(mask);
  }

  lemma SetBitHolds(mask: nat, cpus: seq<int>, cpu: nat)
    requires Holds(mask, cpus)
    ensures Holds(SetBit(mask, cpu), cpus + [cpu])
  {
    forall i: nat ensures Bit(SetBit(mask, cpu), i) <==> i in cpus + [cpu] {
      SetBitBit(mask, cpu, i);
    }
  }

  /** mask >> n */
  function Shift(mask: nat, n: nat): nat
    decreases n
  {
    if n == 0 then mask else Shift(mask / 2, n - 1)
  }

  lemma {:induction false} ShiftStep(mask: nat, n: nat)
    ensures Shift(mask, n + 1) == Shift(mask, n) / 2
    ensures Bit(mask, n) <==> Shift(mask, n) % 2 == 1
    decreases n
  {
    if n > 0 {
      ShiftStep(mask / 2, n - 1);
    }
  }

  lemma {:induction false} NothingShiftedOut(mask: nat, n: nat, i: nat)
    requires Shift(mask, n) == 0 && i >= n
    ensures !Bit(mask, i)
    decreases n
  {
    if n == 0 {
      ZeroHasNoBit(i);
    } else {
      NothingShiftedOut(mask / 2, n - 1, i - 1);
    }
  }

  /** mask_to_cpu_list: the set bits, ascending. */
  method MaskToCpuList(mask: nat) returns (cpus: seq<int>)
    ensures StrictlyAscending(cpus) && (forall i | 0 <= i < |cpus| :: cpus[i] >= 0)
    ensures Holds(mask, cpus)
  {
    cpus := [];
    var rest, bit: nat := mask, 0;
    while rest != 0
      invariant rest == Shift(mask, bit)
      invariant StrictlyAscending(cpus) && forall i | 0 <= i < |cpus| :: 0 <= cpus[i] < bit
      invariant forall i: nat | i < bit :: Bit(mask, i) <==> i in cpus
      decreases rest
    {
      ShiftStep(mask, bit);
      if rest % 2 == 1 {
        cpus := cpus + [bit];
      }
      rest := rest / 2;
      bit := bit + 1;
    }
    forall i: nat ensures Bit(mask, i) <==> i in cpus {
      if i >= bit {
        NothingShiftedOut(mask, bit, i);
      }
    }
  }

  /** List, mask, list: the same CPUs in ascending order. */
  lemma ListRoundTrip(cpus: seq<int>, mask: nat, back: seq<int>)
    requires InRange(cpus) && Holds(mask, cpus)
    requires StrictlyAscending(back) && (forall i | 0 <= i < |back| :: back[i] >= 0) && Holds(mask, back)
    ensures back == SortedSet(cpus)
    ensures StrictlyAscending(cpus) ==> back == cpus
  {
    SortedSetIs(cpus);
    forall x ensures x in back <==> x in SortedSet(cpus) {
      if x >= 0 {
        assert Bit(mask, x) <==> x in cpus;
        assert Bit(mask, x) <==> x in back;
      }
    }
    AscendingUnique(back, SortedSet(cpus));
    if StrictlyAscending(cpus) {
      AscendingUnique(cpus, SortedSet(cpus));
    }
  }

  /** Mask, list, mask: the same mask. */
  lemma MaskRoundTrip(mask: nat, cpus: seq<int>, back: nat)
    requires Holds(mask, cpus) && Holds(back, cpus)
    ensures back == mask
  {
    MaskExtensional(mask, back);
  }
}
