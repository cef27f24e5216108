/** Occurrences of an item in a list, and lists of equal items. */
module Multiples {

  function Count<T(==)>(items: seq<T>, item: T): nat {
    if items == [] then 0
    else Count(items[..|items| - 1], item) + if items[|items| - 1] == item then 1 else 0
  }

  function Copies<T>(n: nat, item: T): seq<T> {
    if n == 0 then [] else Copies(n - 1, item) + [item]
  }

  lemma {:induction false} CountPositive<T>(items: seq<T>, item: T)
    ensures Count(items, item) > 0 <==> item in items
    decreases |items|
  {
    if items != [] {
      CountPositive(items[..|items| - 1], item);
      assert items == items[..|items| - 1] + [items[|items| - 1]];
    }
  }

  lemma {:induction false} CopiesHead<T>(n: nat, item: T)
    requires n > 0
    ensures Copies(n, item) != [] && Copies(n, item)[0] == item
    decreases n
  {
    if n > 1 {
      CopiesHead(n - 1, item);
    }
  }

  lemma {:induction false} AllCopies<T>(n: nat, item: T)
    ensures |Copies(n, item)| == n && forall i | 0 <= i < n :: Copies(n, item)[i] == item
    decreases n
  {
    if n > 0 {
      AllCopies(n - 1, item);
    }
  }

  lemma CopiesSnoc<T, U>(items: seq<T>, r: T, copy: U)
    requires items != []
    ensures var rest := Copies(Count(items[..|items| - 1], r), copy);
            Copies(Count(items, r), copy) == if items[|items| - 1] == r then rest + [copy] else rest
  {
  }
}
