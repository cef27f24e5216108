/** The batch that fetch_pending_commits collects over all groups and sorts by epoch, then group id. */
module PendingBatch {
  import opened Wrappers
  import opened Mls
  import opened DeliverySpec

  type Item = (GroupId, LogCommit)

  predicate TextBefore(a: string, b: string) {
    b != [] && (a == [] || a[0] < b[0] || (a[0] == b[0] && TextBefore(a[1..], b[1..])))
  }

  /** Strictly before in the order (epoch, group id). */
  predicate Precedes(a: Item, b: Item) {
    a.1.epoch < b.1.epoch || (a.1.epoch == b.1.epoch && TextBefore(a.0, b.0))
  }

  lemma TextBeforeTransitive(a: string, b: string, c: string)
    requires TextBefore(a, b) && TextBefore(b, c)
    ensures TextBefore(a, c)
  {
    if a != [] && a[0] == b[0] == c[0] {
      TextBeforeTransitive(a[1..], b[1..], c[1..]);
    }
  }

  lemma TextBeforeIrreflexive(a: string)
    ensures !TextBefore(a, a)
  {
  }

  lemma TextBeforeTotal(a: string, b: string)
    requires !TextBefore(a, b) && !TextBefore(b, a)
    ensures a == b
  {
    if a != [] && b != [] {
      TextBeforeTotal(a[1..], b[1..]);
    }
  }

  lemma PrecedesTransitive(a: Item, b: Item, c: Item)
    requires !Precedes(b, a) && !Precedes(c, b)
    ensures !Precedes(c, a)
  {
    if Precedes(c, a) {
      if a.1.epoch == b.1.epoch == c.1.epoch {
        if TextBefore(b.0, c.0) {
          TextBeforeTransitive(b.0, c.0, a.0);
        } else {
          TextBeforeTotal(b.0, c.0);
        }
      }
      assert false;
    }
  }

  /** By epoch, and entries of one epoch by group id. */
  ghost predicate Sorted(items: seq<Item>) {
    forall i, j | 0 <= i < j < |items| ::
      || items[i].1.epoch < items[j].1.epoch
      || (items[i].1.epoch == items[j].1.epoch && (items[i].0 == items[j].0 || TextBefore(items[i].0, items[j].0)))
  }

  ghost predicate Unswapped(items: seq<Item>) {
    forall i, j | 0 <= i < j < |items| :: !Precedes(items[j], items[i])
  }

  lemma SortedIff(items: seq<Item>)
    ensures Sorted(items) <==> Unswapped(items)
  {
    forall i, j | 0 <= i < j < |items|
      ensures !Precedes(items[j], items[i]) <==>
              || items[i].1.epoch < items[j].1.epoch
              || (items[i].1.epoch == items[j].1.epoch && (items[i].0 == items[j].0 || TextBefore(items[i].0, items[j].0)))
    {
      TextBeforeTrichotomy(items[i].0, items[j].0);
    }
  }

  lemma TextBeforeTrichotomy(a: string, b: string)
    ensures !TextBefore(a, b) <==> a == b || TextBefore(b, a)
  {
    TextBeforeIrreflexive(a);
    if TextBefore(a, b) && TextBefore(b, a) {
      TextBeforeTransitive(a, b, a);
    }
    if !TextBefore(a, b) && !TextBefore(b, a) {
      TextBeforeTotal(a, b);
    }
  }

  /** The first difference decides, and a text comes before its extensions. */
  lemma {:induction false} TextBeforeIff(a: string, b: string)
    ensures TextBefore(a, b) <==>
            exists k :: 0 <= k <= |a| && k < |b| && a[..k] == b[..k] && (k == |a| || a[k] < b[k])
    decreases |a|
  {
    if a != [] && b != [] && a[0] == b[0] {
      TextBeforeIff(a[1..], b[1..]);
      if k :| 0 <= k <= |a[1..]| && k < |b[1..]| && a[1..][..k] == b[1..][..k] && (k == |a[1..]| || a[1..][k] < b[1..][k]) {
        assert a[..k + 1] == [a[0]] + a[1..][..k] && b[..k + 1] == [b[0]] + b[1..][..k];
      }
      if k :| 0 < k <= |a| && k < |b| && a[..k] == b[..k] && (k == |a| || a[k] < b[k]) {
        assert a[1..][..k - 1] == a[..k][1..] && b[1..][..k - 1] == b[..k][1..];
      }
    } else if a != [] && b != [] {
      assert forall k | 0 < k <= |a| && k < |b| :: a[..k][0] == a[0] && b[..k][0] == b[0];
      assert a[..0] == b[..0];
    } else if b != [] {
      assert a[..0] == b[..0];
    }
  }

  /** A stable insertion: after everything that is not greater. */
  function Insert(items: seq<Item>, item: Item): (r: seq<Item>)
    ensures |r| == |items| + 1
    ensures multiset(r) == multiset(items) + multiset{item}
  {
    if items == [] then [item]
    else if Precedes(item, items[|items| - 1]) then
      assert items == items[..|items| - 1] + [items[|items| - 1]];
      Insert(items[..|items| - 1], item) + [items[|items| - 1]]
    else items + [item]
  }

  lemma InsertSorts(items: seq<Item>, item: Item)
    requires Sorted(items)
    ensures Sorted(Insert(items, item))
  {
    hide Sorted, Insert;
    SortedIff(items);
    InsertUnswapped(items, item);
    SortedIff(Insert(items, item));
  }

  lemma {:induction false} InsertUnswapped(items: seq<Item>, item: Item)
    requires Unswapped(items)
    ensures Unswapped(Insert(items, item))
    decreases |items|
  {
    if items != [] {
      var last, rest := items[|items| - 1], items[..|items| - 1];
      if Precedes(item, last) {
        InsertUnswapped(rest, item);
        var r := Insert(rest, item);
        forall i | 0 <= i < |r| ensures !Precedes(last, r[i]) {
          assert r[i] in multiset(r);
          if r[i] == item {
            NotBoth(item, last);
          } else {
            assert r[i] in multiset(rest);
          }
        }
      } else {
        forall i | 0 <= i < |items| ensures !Precedes(item, items[i]) {
          if i < |items| - 1 {
            PrecedesTransitive(items[i], last, item);
          }
        }
      }
    }
  }

  lemma NotBoth(a: Item, b: Item)
    requires Precedes(a, b)
    ensures !Precedes(b, a)
  {
    if a.1.epoch == b.1.epoch && TextBefore(b.0, a.0) {
      TextBeforeTransitive(a.0, b.0, a.0);
      TextBeforeIrreflexive(a.0);
      assert false;
    }
  }

  /** The entries of one group within a batch, in batch order. */
  function OfGroup(items: seq<Item>, g: GroupId): seq<LogCommit> {
    if items == [] then []
    else
      var last := items[|items| - 1];
      OfGroup(items[..|items| - 1], g) + (if last.0 == g then [last.1] else [])
  }

  lemma OfGroupSnoc(items: seq<Item>, item: Item, g: GroupId)
    ensures OfGroup(items + [item], g) == OfGroup(items, g) + (if item.0 == g then [item.1] else [])
  {
    assert (items + [item])[..|items|] == items;
  }

  /** Inserting the entry with the greatest epoch of its group appends it to that group's entries. */
  lemma {:induction false} InsertAppends(items: seq<Item>, item: Item, g: GroupId)
    requires forall c | c in OfGroup(items, item.0) :: c.epoch < item.1.epoch
    ensures OfGroup(Insert(items, item), g) == OfGroup(items, g) + (if item.0 == g then [item.1] else [])
    decreases |items|
  {
    hide OfGroup, Insert, Precedes;
    InsertUnfold(items, item);
    if items != [] && Precedes(item, items[|items| - 1]) {
      var last, rest := items[|items| - 1], items[..|items| - 1];
      assert items == rest + [last];
      OfGroupSnoc(rest, last, item.0);
      OfGroupSnoc(rest, last, g);
      assert last.0 != item.0 by {
        assert last.0 == item.0 ==> OfGroup(items, item.0)[|OfGroup(rest, item.0)|] == last.1;
        SameGroupPrecedes(item, last);
      }
      InsertAppends(rest, item, g);
      OfGroupSnoc(Insert(rest, item), last, g);
    } else {
      OfGroupSnoc(items, item, g);
    }
  }

  lemma InsertUnfold(items: seq<Item>, item: Item)
    ensures Insert(items, item) ==
            if items != [] && Precedes(item, items[|items| - 1])
            then Insert(items[..|items| - 1], item) + [items[|items| - 1]] else items + [item]
  {
    hide Precedes;
  }

  lemma SameGroupPrecedes(a: Item, b: Item)
    requires Precedes(a, b)
    ensures a.0 == b.0 ==> a.1.epoch < b.1.epoch
  {
    TextBeforeIrreflexive(a.0);
  }

  /** The commits of one log that a client has not seen and is a recipient of. */
  function EligibleOf(commits: seq<LogCommit>, client: Name, after: nat): seq<LogCommit> {
    if commits == [] then []
    else
      var last := commits[|commits| - 1];
      var rest := EligibleOf(commits[..|commits| - 1], client, after);
      if Eligible(last, client, after) then rest + [last] else rest
  }

  lemma EligibleSnoc(commits: seq<LogCommit>, i: nat, client: Name, after: nat)
    requires i < |commits|
    ensures var found := EligibleOf(commits[..i], client, after);
            EligibleOf(commits[..i + 1], client, after) ==
            if Eligible(commits[i], client, after) then found + [commits[i]] else found
  {
    assert commits[..i + 1][..i] == commits[..i];
  }

  /** Nothing but eligible commits of the log. */
  lemma {:induction false} EligibleAreLogged(commits: seq<LogCommit>, client: Name, after: nat, c: LogCommit)
    requires c in EligibleOf(commits, client, after)
    ensures c in commits && Eligible(c, client, after)
    decreases |commits|
  {
    var rest := commits[..|commits| - 1];
    if c in EligibleOf(rest, client, after) {
      EligibleAreLogged(rest, client, after, c);
    }
  }

  lemma {:induction false} EligibleAscends(commits: seq<LogCommit>, client: Name, after: nat)
    requires Ascending(commits)
    ensures Ascending(EligibleOf(commits, client, after))
    decreases |commits|
  {
    if commits != [] {
      var rest := commits[..|commits| - 1];
      EligibleAscends(rest, client, after);
      forall c | c in EligibleOf(rest, client, after) ensures c.epoch < commits[|commits| - 1].epoch {
        EligibleAreLogged(rest, client, after, c);
        var i :| 0 <= i < |rest| && rest[i] == c;
        assert commits[i] == c;
      }
    }
  }

  lemma {:induction false} OfGroupPrefix(items: seq<Item>, k: nat, g: GroupId)
    requires k <= |items|
    ensures OfGroup(items[..k], g) <= OfGroup(items, g)
    decreases |items|
  {
    if k == |items| {
      assert items[..k] == items;
    } else {
      assert items[..|items| - 1][..k] == items[..k];
      OfGroupPrefix(items[..|items| - 1], k, g);
    }
  }

  /** Within ascending entries of its group, item `k` has a greater epoch than those collected before it. */
  lemma LaterIsGreater(items: seq<Item>, k: nat)
    requires k < |items|
    requires Ascending(OfGroup(items, items[k].0))
    ensures forall c | c in OfGroup(items[..k], items[k].0) :: c.epoch < items[k].1.epoch
  {
    hide OfGroup, Ascending;
    var g := items[k].0;
    OfGroupUpTo(items, k, g);
    LastOfPrefixIsGreatest(OfGroup(items[..k], g), items[k].1, OfGroup(items, g));
  }

  lemma OfGroupUpTo(items: seq<Item>, k: nat, g: GroupId)
    requires k < |items| && items[k].0 == g
    ensures OfGroup(items[..k], g) + [items[k].1] <= OfGroup(items, g)
  {
    hide OfGroup;
    OfGroupSnoc(items[..k], items[k], g);
    assert items[..k + 1] == items[..k] + [items[k]];
    OfGroupPrefix(items, k + 1, g);
  }

  lemma LastOfPrefixIsGreatest(before: seq<LogCommit>, last: LogCommit, all: seq<LogCommit>)
    requires before + [last] <= all && Ascending(all)
    ensures forall c | c in before :: c.epoch < last.epoch
  {
    assert all[|before|] == (before + [last])[|before|] == last;
    forall c | c in before ensures c.epoch < last.epoch {
      var j :| 0 <= j < |before| && before[j] == c;
      assert all[j] == (before + [last])[j] == c;
    }
  }

  /** Entries of one log as batch items of its group. */
  function Tagged(g: GroupId, commits: seq<LogCommit>): seq<Item> {
    if commits == [] then [] else Tagged(g, commits[..|commits| - 1]) + [(g, commits[|commits| - 1])]
  }

  lemma TaggedSnoc(g: GroupId, commits: seq<LogCommit>, commit: LogCommit)
    ensures Tagged(g, commits + [commit]) == Tagged(g, commits) + [(g, commit)]
  {
    assert (commits + [commit])[..|commits|] == commits;
  }

  /** The groups outside `todo` have been collected in full, the others not at all. */
  ghost predicate Collected(items: seq<Item>, log: Log, todo: set<GroupId>, client: Name, after: nat) {
    forall g :: OfGroup(items, g) == if g in todo then [] else EligibleOf(QueueAt(log, g), client, after)
  }

  lemma CollectGroup(items: seq<Item>, log: Log, todo: set<GroupId>, own: GroupId, client: Name, after: nat)
    requires Collected(items, log, todo, client, after) && own in todo && own in log
    ensures Collected(items + Tagged(own, EligibleOf(log[own], client, after)), log, todo - {own}, client, after)
  {
    var found := EligibleOf(log[own], client, after);
    forall g
      ensures OfGroup(items + Tagged(own, found), g) ==
              if g in todo - {own} then [] else EligibleOf(QueueAt(log, g), client, after)
    {
      OfGroupTagged(items, own, found, g);
    }
  }

  lemma {:induction false} OfGroupTagged(items: seq<Item>, own: GroupId, commits: seq<LogCommit>, g: GroupId)
    ensures OfGroup(items + Tagged(own, commits), g) == OfGroup(items, g) + (if g == own then commits else [])
    decreases |commits|
  {
    if commits == [] {
      assert items + Tagged(own, commits) == items;
    } else {
      var rest, last := commits[..|commits| - 1], commits[|commits| - 1];
      assert commits == rest + [last];
      TaggedSnoc(own, rest, last);
      hide OfGroup, Tagged;
      OfGroupTagged(items, own, rest, g);
      OfGroupSnoc(items + Tagged(own, rest), (own, last), g);
      assert items + (Tagged(own, rest) + [(own, last)]) == (items + Tagged(own, rest)) + [(own, last)];
    }
  }

  lemma SortedNothing()
    ensures Sorted([])
  {
  }

  /** Inserting the next collected entry leaves each group's entries in the order of collecting. */
  lemma InsertCollected(items: seq<Item>, log: Log, client: Name, after: nat, batch: seq<Item>, k: nat)
    requires Collected(items, log, {}, client, after) && LogAscending(log) && k < |items|
    requires forall g :: OfGroup(batch, g) == OfGroup(items[..k], g)
    ensures forall g :: OfGroup(Insert(batch, items[k]), g) == OfGroup(items[..k + 1], g)
  {
    hide OfGroup, Insert, EligibleOf;
    assert items[..k + 1] == items[..k] + [items[k]];
    EligibleAscends(QueueAt(log, items[k].0), client, after);
    LaterIsGreater(items, k);
    forall g ensures OfGroup(Insert(batch, items[k]), g) == OfGroup(items[..k + 1], g) {
      InsertAppends(batch, items[k], g);
      OfGroupSnoc(items[..k], items[k], g);
    }
  }

  lemma CollectedAll(items: seq<Item>, log: Log, client: Name, after: nat)
    requires Collected(items, log, {}, client, after)
    ensures forall g :: OfGroup(items, g) == EligibleOf(QueueAt(log, g), client, after)
  {
    hide OfGroup, EligibleOf;
  }
}
