/**
 The cache of completed commands: a map from request id to response beside a queue of the ids in insertion
 order, bounded in size, with entries that expire. Clock readings are parameters.
 */
module CommandCache {
  import opened Wrappers

  type Response = string

  datatype Cached = Cached(response: Response, completedAt: nat)

  /** One id of the queue with what the map holds for it. */
  datatype Slot = Slot(id: string, cached: Cached)

  /** Instant::duration_since is zero for a later instant. */
  predicate Expired(cached: Cached, ttl: nat, now: nat) {
    now > cached.completedAt && now - cached.completedAt > ttl
  }

  // ---- the cache as a list of slots in queue order

  function Prune(slots: seq<Slot>, ttl: nat, now: nat): seq<Slot> {
    if ttl == 0 || slots == [] then []
    else if Expired(slots[0].cached, ttl, now) then Prune(slots[1..], ttl, now)
    else slots
  }

  predicate Has(slots: seq<Slot>, id: string) {
    exists i :: 0 <= i < |slots| && slots[i].id == id
  }

  /** An id that is present keeps its place in the queue; a new one goes to the back. */
  function Store(slots: seq<Slot>, id: string, cached: Cached): seq<Slot> {
    if slots == [] then [Slot(id, cached)]
    else if slots[0].id == id then [Slot(id, cached)] + slots[1..]
    else [slots[0]] + Store(slots[1..], id, cached)
  }

  function Evict(slots: seq<Slot>, maxEntries: nat): seq<Slot> {
    if |slots| <= maxEntries then slots else slots[|slots| - maxEntries..]
  }

  function InsertSlot(slots: seq<Slot>, id: string, response: Response, maxEntries: nat, ttl: nat, now: nat): seq<Slot> {
    if maxEntries == 0 then slots else Evict(Store(Prune(slots, ttl, now), id, Cached(response, now)), maxEntries)
  }

  predicate Distinct(slots: seq<Slot>) {
    forall i, j | 0 <= i < j < |slots| :: slots[i].id != slots[j].id
  }

  /** The slots are ordered by completion time. */
  predicate Ordered(slots: seq<Slot>) {
    forall i, j | 0 <= i < j < |slots| :: slots[i].cached.completedAt <= slots[j].cached.completedAt
  }

  lemma {:induction false} PruneIsSuffix(slots: seq<Slot>, ttl: nat, now: nat) returns (k: nat)
    ensures k <= |slots| && Prune(slots, ttl, now) == slots[k..]
    ensures ttl > 0 ==> forall i | 0 <= i < k :: Expired(slots[i].cached, ttl, now)
    ensures ttl > 0 && k < |slots| ==> !Expired(slots[k].cached, ttl, now)
    ensures ttl == 0 ==> k == |slots|
    decreases |slots|
  {
    if ttl == 0 {
      k := |slots|;
    } else if slots == [] || !Expired(slots[0].cached, ttl, now) {
      k := 0;
    } else {
      var k' := PruneIsSuffix(slots[1..], ttl, now);
      k := k' + 1;
      assert slots[1..][k'..] == slots[k..];
      forall i | 0 <= i < k ensures Expired(slots[i].cached, ttl, now) {
        if i > 0 {
          assert slots[1..][i - 1] == slots[i];
        }
      }
    }
  }

  lemma {:induction false} StoreIsUpdateOrAppend(slots: seq<Slot>, id: string, cached: Cached) returns (k: nat)
    requires Distinct(slots)
    ensures k <= |slots| && (k < |slots| <==> Has(slots, id))
    ensures Store(slots, id, cached) == if k < |slots| then slots[k := Slot(id, cached)] else slots + [Slot(id, cached)]
    ensures k < |slots| ==> slots[k].id == id
    decreases |slots|
  {
    hide Has;
    HasCons(slots, id);
    if slots == [] || slots[0].id == id {
      k := 0;
    } else {
      var k' := StoreIsUpdateOrAppend(slots[1..], id, cached);
      k := k' + 1;
      assert slots == [slots[0]] + slots[1..];
    }
  }

  lemma HasCons(slots: seq<Slot>, id: string)
    ensures Has(slots, id) <==> slots != [] && (slots[0].id == id || Has(slots[1..], id))
  {
    if i :| 0 < i < |slots| && slots[i].id == id {
      assert slots[1..][i - 1].id == id;
    }
  }

  lemma StoreKeepsDistinct(slots: seq<Slot>, id: string, cached: Cached)
    requires Distinct(slots)
    ensures Distinct(Store(slots, id, cached))
    ensures |Store(slots, id, cached)| == if Has(slots, id) then |slots| else |slots| + 1
  {
    var k := StoreIsUpdateOrAppend(slots, id, cached);
    if k == |slots| {
      assert forall i | 0 <= i < |slots| :: slots[i].id != id;
    }
  }

  /** Evicting down to a bound of at least 1 keeps every slot but the oldest ones. */
  lemma EvictKeeps(slots: seq<Slot>, k: nat, maxEntries: nat)
    requires k < |slots| && |slots| - maxEntries <= k && Distinct(slots)
    ensures slots[k] in Evict(slots, maxEntries) && |Evict(slots, maxEntries)| <= maxEntries
    ensures Distinct(Evict(slots, maxEntries))
  {
    if |slots| > maxEntries {
      assert Evict(slots, maxEntries)[k - (|slots| - maxEntries)] == slots[k];
    }
  }

  lemma EvictOldest(slots: seq<Slot>, maxEntries: nat)
    requires |slots| > maxEntries
    ensures Evict(slots[1..], maxEntries) == Evict(slots, maxEntries)
  {
  }

  /** Inserting keeps the bound and the distinctness, and never evicts the slot just stored. */
  lemma InsertKeepsItself(slots: seq<Slot>, id: string, response: Response, maxEntries: nat, ttl: nat, now: nat)
    requires Distinct(slots) && |slots| <= maxEntries
    ensures var after := InsertSlot(slots, id, response, maxEntries, ttl, now);
            && Distinct(after) && |after| <= maxEntries
            && (maxEntries > 0 ==> Slot(id, Cached(response, now)) in after)
  {
    hide Prune, Store;
    if maxEntries > 0 {
      var j := PruneIsSuffix(slots, ttl, now);
      var pruned := Prune(slots, ttl, now);
      StoreKeepsDistinct(pruned, id, Cached(response, now));
      var k := StoreIsUpdateOrAppend(pruned, id, Cached(response, now));
      EvictKeeps(Store(pruned, id, Cached(response, now)), k, maxEntries);
    }
  }

  // ---- what pruning from the front removes

  /** No expired slot stands behind an unexpired one. */
  predicate ExpiredFirst(slots: seq<Slot>, ttl: nat, now: nat) {
    forall i, j | 0 <= i < j < |slots| && Expired(slots[j].cached, ttl, now) :: Expired(slots[i].cached, ttl, now)
  }

  /** Pruning removes nothing but expired slots, and all of them exactly when the expired slots come first. */
  lemma PruneRemovesExactlyExpired(slots: seq<Slot>, ttl: nat, now: nat)
    requires ttl > 0
    ensures (forall i | 0 <= i < |Prune(slots, ttl, now)| :: !Expired(Prune(slots, ttl, now)[i].cached, ttl, now))
       <==> ExpiredFirst(slots, ttl, now)
    ensures exists k :: 0 <= k <= |slots| && Prune(slots, ttl, now) == slots[k..]
                        && forall i | 0 <= i < k :: Expired(slots[i].cached, ttl, now)
  {
    var k := PruneIsSuffix(slots, ttl, now);
    var rest := Prune(slots, ttl, now);
    assert forall i | 0 <= i < |rest| :: rest[i] == slots[k + i];
    if forall i | 0 <= i < |rest| :: !Expired(rest[i].cached, ttl, now) {
      assert forall j | k <= j < |slots| :: slots[j] == rest[j - k];
    }
  }

  lemma OrderedExpireFirst(slots: seq<Slot>, ttl: nat, now: nat)
    requires Ordered(slots)
    ensures ExpiredFirst(slots, ttl, now)
  {
  }

  /** Ordered, and completed by now. */
  predicate Settled(slots: seq<Slot>, now: nat) {
    Ordered(slots) && forall i | 0 <= i < |slots| :: slots[i].cached.completedAt <= now
  }

  lemma SettledSuffix(slots: seq<Slot>, k: nat, now: nat)
    requires Settled(slots, now) && k <= |slots|
    ensures Settled(slots[k..], now)
  {
  }

  lemma SettledSnoc(slots: seq<Slot>, id: string, response: Response, now: nat)
    requires Settled(slots, now)
    ensures Settled(slots + [Slot(id, Cached(response, now))], now)
  {
  }

  /** Storing an id that is not live, at a time no earlier than any stored one, keeps the order. */
  lemma FreshInsertKeepsOrder(slots: seq<Slot>, id: string, response: Response, maxEntries: nat, ttl: nat, now: nat)
    requires Distinct(slots) && Settled(slots, now) && !Has(Prune(slots, ttl, now), id)
    ensures Settled(InsertSlot(slots, id, response, maxEntries, ttl, now), now)
  {
    hide Prune, Store, Settled;
    var j := PruneIsSuffix(slots, ttl, now);
    var pruned := Prune(slots, ttl, now);
    var k := StoreIsUpdateOrAppend(pruned, id, Cached(response, now));
    SettledSuffix(slots, j, now);
    SettledSnoc(pruned, id, response, now);
    var stored := Store(pruned, id, Cached(response, now));
    if |stored| > maxEntries {
      SettledSuffix(stored, |stored| - maxEntries, now);
    }
  }

  /** Inserting a live id again can leave an expired entry behind a fresh one, where pruning does not reach it. */
  lemma RefreshHidesExpired()
    ensures var slots := [Slot("a", Cached("x", 0)), Slot("b", Cached("y", 1))];
            var refreshed := InsertSlot(slots, "a", "z", 8, 10, 5);
            && refreshed == [Slot("a", Cached("z", 5)), Slot("b", Cached("y", 1))]
            && Prune(refreshed, 10, 13) == refreshed && Expired(refreshed[1].cached, 10, 13)
  {
    var slots := [Slot("a", Cached("x", 0)), Slot("b", Cached("y", 1))];
    assert Prune(slots, 10, 5) == slots;
  }

  // ---- the worker's use of the cache

  /** A command: look the id up, and on a miss run the command and store its response. */
  datatype Use = Use(id: string, response: Response, lookedUpAt: nat, completedAt: nat)

  function UseCache(slots: seq<Slot>, use: Use, maxEntries: nat, ttl: nat): seq<Slot> {
    var looked := Prune(slots, ttl, use.lookedUpAt);
    if Has(looked, use.id) then looked
    else InsertSlot(looked, use.id, use.response, maxEntries, ttl, use.completedAt)
  }

  function UseAll(slots: seq<Slot>, uses: seq<Use>, maxEntries: nat, ttl: nat): seq<Slot>
    decreases |uses|
  {
    if uses == [] then slots else UseAll(UseCache(slots, uses[0], maxEntries, ttl), uses[1..], maxEntries, ttl)
  }

  /** Commands run one after the other. */
  predicate Sequential(uses: seq<Use>, from: nat)
    decreases |uses|
  {
    uses == [] || (from <= uses[0].lookedUpAt <= uses[0].completedAt && Sequential(uses[1..], uses[0].completedAt))
  }

  ghost predicate Tidy(slots: seq<Slot>, maxEntries: nat, latest: nat) {
    Distinct(slots) && |slots| <= maxEntries && Settled(slots, latest)
  }

  lemma NotInSuffix(slots: seq<Slot>, k: nat, id: string)
    requires k <= |slots| && !Has(slots, id)
    ensures !Has(slots[k..], id)
  {
    assert forall i | 0 <= i < |slots[k..]| :: slots[k..][i] == slots[k + i];
  }

  lemma UseKeepsTidy(slots: seq<Slot>, use: Use, maxEntries: nat, ttl: nat, from: nat)
    requires Tidy(slots, maxEntries, from) && from <= use.lookedUpAt <= use.completedAt
    ensures Tidy(UseCache(slots, use, maxEntries, ttl), maxEntries, use.completedAt)
  {
    hide Prune, Store, Evict;
    var k := PruneIsSuffix(slots, ttl, use.lookedUpAt);
    var looked := Prune(slots, ttl, use.lookedUpAt);
    SettledSuffix(slots, k, from);
    if !Has(looked, use.id) {
      var j := PruneIsSuffix(looked, ttl, use.completedAt);
      NotInSuffix(looked, j, use.id);
      InsertKeepsItself(looked, use.id, use.response, maxEntries, ttl, use.completedAt);
      FreshInsertKeepsOrder(looked, use.id, use.response, maxEntries, ttl, use.completedAt);
    }
  }

  /** Over any sequence of commands the cache stays bounded and each prune removes exactly the expired entries. */
  lemma {:induction false} UsesStayTidy(slots: seq<Slot>, uses: seq<Use>, maxEntries: nat, ttl: nat, from: nat, now: nat)
    requires Tidy(slots, maxEntries, from) && Sequential(uses, from)
    ensures var after := UseAll(slots, uses, maxEntries, ttl);
            Distinct(after) && |after| <= maxEntries && ExpiredFirst(after, ttl, now)
    decreases |uses|
  {
    if uses == [] {
      OrderedExpireFirst(slots, ttl, now);
    } else {
      UseKeepsTidy(slots, uses[0], maxEntries, ttl, from);
      UsesStayTidy(UseCache(slots, uses[0], maxEntries, ttl), uses[1..], maxEntries, ttl, uses[0].completedAt, now);
    }
  }

  // ---- what a lookup answers, by the clock

  /** A stored response is found exactly while no more than the time to live has passed since it was completed. */
  lemma FoundWithinTtl(slots: seq<Slot>, i: nat, ttl: nat, now: nat)
    requires Distinct(slots) && Ordered(slots) && i < |slots| && ttl > 0
    ensures Has(Prune(slots, ttl, now), slots[i].id) <==> now <= slots[i].cached.completedAt + ttl
    ensures Has(Prune(slots, ttl, now), slots[i].id) <==> slots[i] in Prune(slots, ttl, now)
  {
    hide Prune;
    var k := PruneIsSuffix(slots, ttl, now);
    var rest := Prune(slots, ttl, now);
    assert forall j | 0 <= j < |rest| :: rest[j] == slots[k + j];
    if k <= i {
      assert rest[i - k] == slots[i];
    }
  }

  /** The slot is there, with at most `room` slots from it to the back. */
  ghost predicate Kept(slots: seq<Slot>, slot: Slot, room: nat) {
    exists i :: 0 <= i < |slots| && slots[i] == slot && |slots| - i <= room
  }

  lemma PruneKeeps(slots: seq<Slot>, slot: Slot, room: nat, ttl: nat, now: nat)
    requires Distinct(slots) && Ordered(slots) && Kept(slots, slot, room) && ttl > 0 && now <= slot.cached.completedAt + ttl
    ensures Kept(Prune(slots, ttl, now), slot, room)
  {
    hide Prune;
    var i :| 0 <= i < |slots| && slots[i] == slot && |slots| - i <= room;
    var k := PruneIsSuffix(slots, ttl, now);
    assert slots[k..][i - k] == slot;
  }

  lemma AppendKeeps(slots: seq<Slot>, slot: Slot, last: Slot, room: nat, maxEntries: nat)
    requires Kept(slots, slot, room) && room < maxEntries
    ensures Kept(Evict(slots + [last], maxEntries), slot, room + 1)
  {
    var i :| 0 <= i < |slots| && slots[i] == slot && |slots| - i <= room;
    var all := slots + [last];
    var drop := if |all| <= maxEntries then 0 else |all| - maxEntries;
    assert Evict(all, maxEntries) == all[drop..];
    assert all[drop..][i - drop] == slot;
  }

  /** One command in between pushes a response at most one place towards its eviction. */
  lemma UseKeeps(slots: seq<Slot>, slot: Slot, room: nat, use: Use, maxEntries: nat, ttl: nat, from: nat)
    requires Tidy(slots, maxEntries, from) && from <= use.lookedUpAt <= use.completedAt <= slot.cached.completedAt + ttl
    requires Kept(slots, slot, room) && room < maxEntries && ttl > 0
    ensures Kept(UseCache(slots, use, maxEntries, ttl), slot, room + 1)
  {
    hide Prune, Store, Evict, Kept;
    PruneKeeps(slots, slot, room, ttl, use.lookedUpAt);
    var k := PruneIsSuffix(slots, ttl, use.lookedUpAt);
    var looked := Prune(slots, ttl, use.lookedUpAt);
    SettledSuffix(slots, k, from);
    KeptMore(looked, slot, room);
    if !Has(looked, use.id) {
      PruneKeeps(looked, slot, room, ttl, use.completedAt);
      var j := PruneIsSuffix(looked, ttl, use.completedAt);
      var pruned := Prune(looked, ttl, use.completedAt);
      NotInSuffix(looked, j, use.id);
      var at := StoreIsUpdateOrAppend(pruned, use.id, Cached(use.response, use.completedAt));
      AppendKeeps(pruned, slot, Slot(use.id, Cached(use.response, use.completedAt)), room, maxEntries);
    }
  }

  lemma KeptMore(slots: seq<Slot>, slot: Slot, room: nat)
    requires Kept(slots, slot, room)
    ensures Kept(slots, slot, room + 1)
  {
  }

  /** No command of the sequence is completed after `latest`. */
  predicate DoneBy(uses: seq<Use>, latest: nat) {
    forall i | 0 <= i < |uses| :: uses[i].completedAt <= latest
  }

  lemma {:induction false} UsesKeep(slots: seq<Slot>, slot: Slot, room: nat, uses: seq<Use>, maxEntries: nat, ttl: nat, from: nat)
    requires Tidy(slots, maxEntries, from) && Sequential(uses, from) && DoneBy(uses, slot.cached.completedAt + ttl)
    requires Kept(slots, slot, room) && room + |uses| <= maxEntries && ttl > 0
    ensures Kept(UseAll(slots, uses, maxEntries, ttl), slot, room + |uses|)
    decreases |uses|
  {
    hide Kept, UseCache;
    if uses != [] {
      UseKeepsTidy(slots, uses[0], maxEntries, ttl, from);
      UseKeeps(slots, slot, room, uses[0], maxEntries, ttl, from);
      UsesKeep(UseCache(slots, uses[0], maxEntries, ttl), slot, room + 1, uses[1..], maxEntries, ttl, uses[0].completedAt);
    }
  }

  /**
   A command that was run is not run again: repeated within the time to live, and with fewer than `maxEntries` commands
   in between, it finds its stored response.
   */
  lemma RepeatedCommandIsAnswered(slots: seq<Slot>, use: Use, uses: seq<Use>, maxEntries: nat, ttl: nat, from: nat, now: nat)
    requires Tidy(slots, maxEntries, from) && ttl > 0 && Sequential([use] + uses, from) && |uses| < maxEntries
    requires !Has(Prune(slots, ttl, use.lookedUpAt), use.id)
    requires DoneBy(uses, now) && use.completedAt <= now <= use.completedAt + ttl
    ensures Slot(use.id, Cached(use.response, use.completedAt))
            in Prune(UseAll(slots, [use] + uses, maxEntries, ttl), ttl, now)
  {
    hide Prune, Store, Evict, Has, InsertSlot;
    var slot := Slot(use.id, Cached(use.response, use.completedAt));
    assert ([use] + uses)[1..] == uses;
    var first := UseCache(slots, use, maxEntries, ttl);
    UseKeepsTidy(slots, use, maxEntries, ttl, from);
    StoredLast(slots, use, maxEntries, ttl, from);
    UsesKeep(first, slot, 1, uses, maxEntries, ttl, use.completedAt);
    UsesTidy(first, uses, maxEntries, ttl, use.completedAt);
    PruneKeeps(UseAll(first, uses, maxEntries, ttl), slot, 1 + |uses|, ttl, now);
  }

  lemma StoredLast(slots: seq<Slot>, use: Use, maxEntries: nat, ttl: nat, from: nat)
    requires Tidy(slots, maxEntries, from) && maxEntries > 0 && !Has(Prune(slots, ttl, use.lookedUpAt), use.id)
    ensures Kept(UseCache(slots, use, maxEntries, ttl), Slot(use.id, Cached(use.response, use.completedAt)), 1)
  {
    hide Prune, Store, Has;
    var k := PruneIsSuffix(slots, ttl, use.lookedUpAt);
    var looked := Prune(slots, ttl, use.lookedUpAt);
    var j := PruneIsSuffix(looked, ttl, use.completedAt);
    NotInSuffix(looked, j, use.id);
    var pruned := Prune(looked, ttl, use.completedAt);
    var at := StoreIsUpdateOrAppend(pruned, use.id, Cached(use.response, use.completedAt));
    var after := UseCache(slots, use, maxEntries, ttl);
    assert after[|after| - 1] == Slot(use.id, Cached(use.response, use.completedAt));
  }

  lemma {:induction false} UsesTidy(slots: seq<Slot>, uses: seq<Use>, maxEntries: nat, ttl: nat, from: nat)
    requires Tidy(slots, maxEntries, from) && Sequential(uses, from)
    ensures var after := UseAll(slots, uses, maxEntries, ttl); Distinct(after) && Ordered(after)
    decreases |uses|
  {
    if uses != [] {
      UseKeepsTidy(slots, uses[0], maxEntries, ttl, from);
      UsesTidy(UseCache(slots, uses[0], maxEntries, ttl), uses[1..], maxEntries, ttl, uses[0].completedAt);
    }
  }

  // ---- the object: a map and a queue

  /** The queue's ids with their map entries. */
  function Slots(order: seq<string>, entries: map<string, Cached>): (slots: seq<Slot>)
    requires forall i | 0 <= i < |order| :: order[i] in entries
    ensures |slots| == |order|
    ensures forall i | 0 <= i < |slots| :: slots[i] == Slot(order[i], entries[order[i]])
  {
    seq(|order|, i requires 0 <= i < |order| => Slot(order[i], entries[order[i]]))
  }

  /** The queue lists the keys of the map, once each. */
  ghost predicate Lists(order: seq<string>, entries: map<string, Cached>) {
    && (forall i, j | 0 <= i < j < |order| :: order[i] != order[j])
    && (forall i | 0 <= i < |order| :: order[i] in entries)
    && (forall id | id in entries :: id in order)
  }

  lemma PopSlots(order: seq<string>, entries: map<string, Cached>)
    requires Lists(order, entries) && order != []
    ensures Lists(order[1..], entries - {order[0]})
    ensures Slots(order[1..], entries - {order[0]}) == Slots(order, entries)[1..]
  {
    hide Slots;
    PopLists(order, entries);
    var rest := entries - {order[0]};
    assert Slots(order[1..], rest) == Slots(order, entries)[1..] by {
      assert forall i | 0 <= i < |order| - 1 :: order[1..][i] == order[i + 1] && order[i + 1] != order[0];
    }
  }

  lemma PopLists(order: seq<string>, entries: map<string, Cached>)
    requires Lists(order, entries) && order != []
    ensures Lists(order[1..], entries - {order[0]})
  {
    forall id | id in entries - {order[0]} ensures id in order[1..] {
      var i :| 0 <= i < |order| && order[i] == id;
      assert order[1..][i - 1] == id;
    }
  }

  lemma StoreListed(order: seq<string>, entries: map<string, Cached>, id: string, cached: Cached)
    requires Lists(order, entries)
    ensures Lists(if id in entries then order else order + [id], entries[id := cached])
  {
  }

  lemma UpdateSlots(order: seq<string>, entries: map<string, Cached>, id: string, cached: Cached, k: nat)
    requires Lists(order, entries) && k < |order| && order[k] == id
    ensures Slots(order, entries[id := cached]) == Slots(order, entries)[k := Slot(id, cached)]
  {
  }

  lemma AppendSlots(order: seq<string>, entries: map<string, Cached>, id: string, cached: Cached)
    requires Lists(order, entries) && id !in entries
    ensures Slots(order + [id], entries[id := cached]) == Slots(order, entries) + [Slot(id, cached)]
  {
  }

  lemma HasIffKey(order: seq<string>, entries: map<string, Cached>, id: string)
    requires Lists(order, entries)
    ensures Has(Slots(order, entries), id) <==> id in entries
  {
    if id in entries {
      var i :| 0 <= i < |order| && order[i] == id;
      assert Slots(order, entries)[i].id == id;
    }
  }

  lemma StoreSlots(order: seq<string>, entries: map<string, Cached>, id: string, cached: Cached)
    requires Lists(order, entries)
    ensures var order' := if id in entries then order else order + [id];
            && Lists(order', entries[id := cached])
            && Slots(order', entries[id := cached]) == Store(Slots(order, entries), id, cached)
  {
    var before := Slots(order, entries);
    assert Distinct(before);
    var k := StoreIsUpdateOrAppend(before, id, cached);
    hide Store, Has, Distinct;
    HasIffKey(order, entries, id);
    StoreListed(order, entries, id, cached);
    if id in entries {
      UpdateSlots(order, entries, id, cached, k);
    } else {
      AppendSlots(order, entries, id, cached);
    }
  }

  class Cache {
    var entries: map<string, Cached>
    var order: seq<string>
    const maxEntries: nat
    const ttl: nat

    ghost predicate Listed()
      reads this
    {
      Lists(order, entries)
    }

    ghost predicate Valid()
      reads this
    {
      Listed() && |order| <= maxEntries
    }

    ghost function Contents(): (slots: seq<Slot>)
      requires Listed()
      reads this
      ensures Distinct(slots) && |slots| == |order|
    {
      Slots(order, entries)
    }

    constructor (maxEntries: nat, ttl: nat)
      ensures this.maxEntries == maxEntries && this.ttl == ttl
      ensures Valid() && Contents() == []
    {
      entries, order := map[], [];
      this.maxEntries, this.ttl := maxEntries, ttl;
    }

    /** VecDeque::pop_front, and the map entry with it. */
    method PopOldest()
      requires Listed() && order != []
      modifies this
      ensures Listed() && Contents() == old(Contents())[1..]
    {
      PopSlots(order, entries);
      var oldest := order[0];
      order := order[1..];
      entries := entries - {oldest};
    }

    method PruneExpired(now: nat)
      requires Listed()
      modifies this
      ensures Listed() && Contents() == Prune(old(Contents()), ttl, now)
    {
      if ttl == 0 {
        entries, order := map[], [];
        return;
      }
      while order != []
        invariant Listed() && Prune(Contents(), ttl, now) == Prune(old(Contents()), ttl, now)
        decreases |order|
      {
        assert Contents()[0] == Slot(order[0], entries[order[0]]);
        if !Expired(entries[order[0]], ttl, now) {
          break;
        }
        PopOldest();
      }
    }

    method Get(id: string, now: nat) returns (response: Option<Response>)
      requires Valid()
      modifies this
      ensures Valid() && Contents() == Prune(old(Contents()), ttl, now)
      ensures response.Some? <==> Has(Contents(), id)
      ensures response.Some? ==> id in entries && response.value == entries[id].response
    {
      ghost var k := PruneIsSuffix(Contents(), ttl, now);
      PruneExpired(now);
      HasIffKey(order, entries, id);
      if id in entries {
        return Some(entries[id].response);
      }
      return None;
    }

    /** Puts the response at the id's place in the queue, or at the back. */
    method StoreEntry(id: string, cached: Cached)
      requires Listed()
      modifies this
      ensures Listed() && Contents() == Store(old(Contents()), id, cached)
    {
      StoreSlots(order, entries, id, cached);
      if id !in entries {
        order := order + [id];
      }
      entries := entries[id := cached];
    }

    method Insert(id: string, response: Response, now: nat)
      requires Valid()
      modifies this
      ensures Valid() && Contents() == InsertSlot(old(Contents()), id, response, maxEntries, ttl, now)
    {
      if maxEntries == 0 {
        return;
      }
      InsertKeepsItself(Contents(), id, response, maxEntries, ttl, now);
      PruneExpired(now);
      StoreEntry(id, Cached(response, now));
      ghost var stored := Contents();
      while |entries| > maxEntries
        invariant Listed() && Evict(Contents(), maxEntries) == Evict(stored, maxEntries)
        decreases |order|
      {
        KeysListed(order, entries);
        EvictOldest(Contents(), maxEntries);
        PopOldest();
      }
      KeysListed(order, entries);
    }
  }

  /** A duplicate-free listing of a map's keys is as long as the map is large. */
  lemma {:induction false} KeysListed(order: seq<string>, entries: map<string, Cached>)
    requires Lists(order, entries)
    ensures |order| == |entries|
    decreases |order|
  {
    if order == [] {
      assert entries == map[];
    } else {
      var rest := entries - {order[0]};
      PopLists(order, entries);
      KeysListed(order[1..], rest);
      assert entries.Keys == rest.Keys + {order[0]};
    }
  }
}
