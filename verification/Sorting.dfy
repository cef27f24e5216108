/** Python's sorted() on lists and sets of numbers. */
module Sorting {

  ghost predicate Sorted(s: seq<int>) {
    forall i, j | 0 <= i < j < |s| :: s[i] <= s[j]
  }

  ghost predicate StrictlyAscending(s: seq<int>) {
    forall i, j | 0 <= i < j < |s| :: s[i] < s[j]
  }

  function Insert(s: seq<int>, x: int): seq<int> {
    if s == [] || x <= s[0] then [x] + s else [s[0]] + Insert(s[1..], x)
  }

  function Sort(s: seq<int>): seq<int> {
    if s == [] then [] else Insert(Sort(s[1..]), s[0])
  }

  lemma {:induction false} InsertElements(s: seq<int>, x: int)
    ensures |Insert(s, x)| == |s| + 1
    ensures multiset(Insert(s, x)) == multiset(s) + multiset{x}
    decreases |s|
  {
    if s != [] && x > s[0] {
      InsertElements(s[1..], x);
      assert s == [s[0]] + s[1..];
    }
  }

  lemma {:induction false} InsertMember(s: seq<int>, x: int, y: int)
    ensures y in Insert(s, x) <==> y == x || y in s
    decreases |s|
  {
    if s != [] && x > s[0] {
      InsertMember(s[1..], x, y);
      assert s == [s[0]] + s[1..];
    }
  }

  lemma {:induction false} InsertSorts(s: seq<int>, x: int)
    requires Sorted(s)
    ensures Sorted(Insert(s, x))
    decreases |s|
  {
    if s != [] && x > s[0] {
      InsertSorts(s[1..], x);
      var r := Insert(s[1..], x);
      forall i | 0 <= i < |r| ensures s[0] <= r[i] {
        InsertMember(s[1..], x, r[i]);
      }
    }
  }

  /** sorted(list): ascending, with the same elements as often. */
  lemma {:induction false} SortSorts(s: seq<int>)
    ensures Sorted(Sort(s)) && multiset(Sort(s)) == multiset(s) && |Sort(s)| == |s|
    decreases |s|
  {
    if s != [] {
      SortSorts(s[1..]);
      InsertSorts(Sort(s[1..]), s[0]);
      InsertElements(Sort(s[1..]), s[0]);
      assert s == [s[0]] + s[1..];
    }
  }

  lemma SortKeepsElements(s: seq<int>, x: int)
    ensures x in Sort(s) <==> x in s
  {
    SortSorts(s);
    assert x in Sort(s) <==> x in multiset(Sort(s));
  }

  /** Two strictly ascending lists with the same elements are equal. */
  lemma {:induction false} AscendingUnique(a: seq<int>, b: seq<int>)
    requires StrictlyAscending(a) && StrictlyAscending(b)
    requires forall x :: x in a <==> x in b
    ensures a == b
    decreases |a|
  {
    forall i | 0 <= i < |b| ensures b[i] in a {
      assert b[i] in b;
    }
    forall i | 0 <= i < |a| ensures a[i] in b {
      assert a[i] in a;
    }
    assert b != [] ==> b[0] in a;
    if a != [] {
      assert a[0] == b[0];
      var ra, rb := a[1..], b[1..];
      forall x ensures x in ra <==> x in rb {
        if x in ra {
          assert x in a && x != a[0];
          assert x in b;
        }
        if x in rb {
          assert x in b && x != b[0];
          assert x in a;
        }
      }
      AscendingUnique(ra, rb);
      assert a == [a[0]] + ra && b == [b[0]] + rb;
    }
  }

  /** A sorted list without its repetitions. */
  function Dedup(s: seq<int>): seq<int> {
    if |s| < 2 then s
    else if s[0] == s[1] then Dedup(s[1..])
    else [s[0]] + Dedup(s[1..])
  }

  lemma {:induction false} DedupAscends(s: seq<int>)
    requires Sorted(s)
    ensures StrictlyAscending(Dedup(s))
    ensures forall x :: x in Dedup(s) <==> x in s
    ensures s != [] ==> Dedup(s) != [] && Dedup(s)[0] == s[0]
    decreases |s|
  {
    if |s| >= 2 {
      DedupAscends(s[1..]);
      assert s == [s[0]] + s[1..];
      var d := Dedup(s[1..]);
      if s[0] != s[1] {
        forall i | 0 <= i < |d| ensures s[0] < d[i] {
          assert d[0] <= d[i];
        }
      }
    }
  }

  /** sorted(set(list)): the distinct elements, ascending. */
  function SortedSet(s: seq<int>): seq<int> {
    Dedup(Sort(s))
  }

  lemma SortedSetIs(s: seq<int>)
    ensures StrictlyAscending(SortedSet(s))
    ensures forall x :: x in SortedSet(s) <==> x in s
  {
    SortSorts(s);
    DedupAscends(Sort(s));
    forall x {
      SortKeepsElements(s, x);
    }
  }

  ghost predicate AllDistinct(s: seq<int>) {
    forall i, j | 0 <= i < j < |s| :: s[i] != s[j]
  }

  /** Distinct elements of a list are no more than the list holds. */
  lemma {:induction false} DistinctFits(a: seq<int>, b: seq<int>)
    requires AllDistinct(a) && forall x :: x in a ==> x in b
    ensures |a| <= |b|
    decreases |a|
  {
    if a != [] {
      assert a[0] in a;
      var j :| 0 <= j < |b| && b[j] == a[0];
      var rest := b[..j] + b[j + 1..];
      forall x | x in a[1..] ensures x in rest {
        assert x in a;
        var i :| 0 <= i < |b| && b[i] == x;
        assert i != j;
        assert if i < j then rest[i] == x else rest[i - 1] == x;
      }
      DistinctFits(a[1..], rest);
    }
  }

  /** Sorting an ascending list changes nothing. */
  lemma {:induction false} SortAscending(s: seq<int>)
    requires StrictlyAscending(s)
    ensures Sort(s) == s
    decreases |s|
  {
    if s != [] {
      SortAscending(s[1..]);
      assert s == [s[0]] + s[1..];
    }
  }
}
