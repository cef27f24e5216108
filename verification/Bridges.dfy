/** Spreading physical workers over Docker bridge networks. */
module Bridges {

  /** physical_worker_bridge_index */
  function BridgeIndex(bridges: nat, index: nat, total: nat): nat
    requires bridges > 0 && index < total
  {
    if total <= 1 then 0 else (index * bridges) / total
  }

  function CeilDiv(x: nat, d: nat): nat
    requires d > 0
  {
    (x + d - 1) / d
  }

  /** The first worker of a bridge. */
  function First(bridges: nat, total: nat, b: nat): nat
    requires bridges > 0
  {
    CeilDiv(b * total, bridges)
  }

  lemma DivideIff(x: nat, d: nat, q: nat)
    requires d > 0
    ensures x / d == q <==> q * d <= x < q * d + d
  {
    var r := x / d;
    assert r * d <= x < r * d + d;
    if r < q {
      assert (r + 1) * d <= q * d;
      assert (r + 1) * d == r * d + d;
    }
    if q < r {
      assert (q + 1) * d <= r * d;
      assert (q + 1) * d == q * d + d;
    }
  }

  /** n is at least x / d rounded up exactly when n * d reaches x. */
  lemma CeilDivIff(x: nat, d: nat, n: nat)
    requires d > 0
    ensures CeilDiv(x, d) <= n <==> x <= n * d
  {
    var c := CeilDiv(x, d);
    DivideIff(x + d - 1, d, c);
    if c <= n {
      assert c * d <= n * d;
    } else {
      assert (n + 1) * d <= c * d;
      assert (n + 1) * d == n * d + d;
    }
  }

  /** The workers of a bridge are a contiguous range. */
  lemma BridgeIndexIff(bridges: nat, total: nat, index: nat, b: nat)
    requires bridges > 0 && index < total
    ensures BridgeIndex(bridges, index, total) == b <==>
            First(bridges, total, b) <= index < First(bridges, total, b + 1)
  {
    DivideIff(index * bridges, total, b);
    CeilDivIff(b * total, bridges, index);
    CeilDivIff((b + 1) * total, bridges, index);
    assert (b + 1) * total == b * total + total;
    if total == 1 {
      DivideIff(index * bridges, 1, 0);
      assert index * bridges == 0;
    }
  }

  lemma BridgeInRange(bridges: nat, total: nat, index: nat)
    requires bridges > 0 && index < total
    ensures BridgeIndex(bridges, index, total) < bridges
  {
    var b := (index * bridges) / total;
    DivideIff(index * bridges, total, b);
    assert index * bridges < bridges * total;
    assert b >= bridges ==> b * total >= bridges * total;
  }

  /** How many of the first k workers are on a bridge. */
  function Load(bridges: nat, total: nat, b: nat, k: nat): nat
    requires bridges > 0 && k <= total
  {
    if k == 0 then 0
    else Load(bridges, total, b, k - 1) + if BridgeIndex(bridges, k - 1, total) == b then 1 else 0
  }

  lemma {:induction false} LoadOfPrefix(bridges: nat, total: nat, b: nat, k: nat)
    requires bridges > 0 && k <= total
    ensures Load(bridges, total, b, k) ==
            if k <= First(bridges, total, b) || First(bridges, total, b + 1) <= First(bridges, total, b) then 0
            else (if k <= First(bridges, total, b + 1) then k else First(bridges, total, b + 1)) - First(bridges, total, b)
    decreases k
  {
    hide First, BridgeIndex;
    if k > 0 {
      LoadOfPrefix(bridges, total, b, k - 1);
      BridgeIndexIff(bridges, total, k - 1, b);
    }
  }

  lemma CeilDivSplit(x: nat, q: nat, r: nat, d: nat)
    requires r < d
    ensures CeilDiv(x, d) + q <= CeilDiv(x + q * d + r, d) <= CeilDiv(x, d) + q + 1
  {
    var c := CeilDiv(x, d);
    var y := x + q * d + r;
    CeilDivIff(x, d, c);
    assert (c + q + 1) * d == c * d + q * d + d;
    CeilDivIff(y, d, c + q + 1);
    if c + q > 0 {
      var n := c + q - 1;
      assert n * d == c * d + q * d - d;
      if c > 0 {
        CeilDivIff(x, d, c - 1);
        assert (c - 1) * d == c * d - d;
      }
      CeilDivIff(y, d, n);
    }
  }

  lemma FirstStep(bridges: nat, total: nat, b: nat)
    requires bridges > 0
    ensures First(bridges, total, b) + total / bridges <= First(bridges, total, b + 1)
            <= First(bridges, total, b) + total / bridges + 1
  {
    hide CeilDiv;
    var q, r := total / bridges, total % bridges;
    assert (b + 1) * total == b * total + total;
    assert total == q * bridges + r;
    CeilDivSplit(b * total, q, r, bridges);
  }

  /** A bridge carries total / bridges workers or one more. */
  lemma LoadIsEven(bridges: nat, total: nat, b: nat)
    requires bridges > 0 && b < bridges
    ensures total / bridges <= Load(bridges, total, b, total) <= total / bridges + 1
  {
    hide First, Load;
    LoadOfPrefix(bridges, total, b, total);
    FirstStep(bridges, total, b);
    FirstWithinTotal(bridges, total, b + 1);
  }

  lemma FirstWithinTotal(bridges: nat, total: nat, b: nat)
    requires 0 < bridges && b <= bridges
    ensures First(bridges, total, b) <= total
  {
    assert b * total <= total * bridges;
    CeilDivIff(b * total, bridges, total);
  }

  /** The loads of two bridges differ by at most one. */
  lemma BridgesAreBalanced(bridges: nat, total: nat, a: nat, b: nat)
    requires a < bridges && b < bridges
    ensures -1 <= Load(bridges, total, a, total) - Load(bridges, total, b, total) <= 1
  {
    LoadIsEven(bridges, total, a);
    LoadIsEven(bridges, total, b);
  }

  function SumLoads(bridges: nat, total: nat, n: nat, k: nat): nat
    requires bridges > 0 && k <= total
  {
    if n == 0 then 0 else SumLoads(bridges, total, n - 1, k) + Load(bridges, total, n - 1, k)
  }

  lemma {:induction false} SumLoadsStep(bridges: nat, total: nat, n: nat, k: nat)
    requires bridges > 0 && 0 < k <= total
    ensures SumLoads(bridges, total, n, k) ==
            SumLoads(bridges, total, n, k - 1) + if BridgeIndex(bridges, k - 1, total) < n then 1 else 0
    decreases n
  {
    if n > 0 {
      SumLoadsStep(bridges, total, n - 1, k);
    }
  }

  lemma {:induction false} EmptyLoads(bridges: nat, total: nat, n: nat)
    requires bridges > 0
    ensures SumLoads(bridges, total, n, 0) == 0
    decreases n
  {
    if n > 0 {
      EmptyLoads(bridges, total, n - 1);
    }
  }

  /** Every worker is on exactly one bridge: the loads add up. */
  lemma {:induction false} LoadsAddUp(bridges: nat, total: nat, k: nat)
    requires bridges > 0 && k <= total
    ensures SumLoads(bridges, total, bridges, k) == k
    decreases k
  {
    if k == 0 {
      EmptyLoads(bridges, total, bridges);
    } else {
      LoadsAddUp(bridges, total, k - 1);
      SumLoadsStep(bridges, total, bridges, k);
      BridgeInRange(bridges, total, k - 1);
    }
  }
}
