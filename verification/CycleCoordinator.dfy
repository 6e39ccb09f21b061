/** The cycle coordinator (specter-api/services/cycle_coordinator.py) and the
    slot-recording loop of the ingest router (specter-api/routers/internal.py).

    Each method is stated by a function of the store's keys; CycleBarrier and
    SweptCycles prove what those functions guarantee over whole runs. */
module CycleCoordinator {
  import opened CycleStore

  /** The interval bucket shared by every scrape of a merchant's cycle. */
  function CycleIdFor(now: int, interval: int): int
    requires interval > 0
  {
    now / interval
  }

  function Deadline(c: Cycle, interval: int, grace: int): int {
    (c.id + 1) * interval + grace
  }

  function OpenKeys(keys: Keys, merchant: string, now: int, interval: int, count: int, grace: int): Keys
    requires interval > 0
  {
    IncrBy(keys, Cycle(merchant, CycleIdFor(now, interval)), Expected, count, now, interval + grace)
  }

  /** The key space after one whole record_scrape, and whether that call fired. */
  function RecordKeys(keys: Keys, c: Cycle, now: int, ttl: int): (Keys, bool) {
    var counted := IncrBy(keys, c, Done, 1, now, ttl);
    if 0 < Get(counted, c, Expected) <= Get(counted, c, Done) then
      (SetFired(counted, c, now, ttl), (c, Fired) !in counted)
    else
      (counted, false)
  }

  /** A cycle the safety sweep acts on. */
  predicate Overdue(keys: Keys, c: Cycle, now: int, interval: int, grace: int) {
    (c, Expected) in keys && now > Deadline(c, interval, grace)
  }

  /** An overdue cycle that stalled: scrapes missing and nothing fired yet. */
  predicate Stalled(keys: Keys, c: Cycle, now: int, interval: int, grace: int) {
    && Overdue(keys, c, now, interval, grace)
    && Get(keys, c, Done) < Get(keys, c, Expected)
    && (c, Fired) !in keys
  }

  function Swept(keys: Keys, now: int, interval: int, grace: int): Keys {
    map k | k in keys && !Overdue(keys, k.0, now, interval, grace) :: keys[k]
  }

  /** The queue behind the injected `enqueue`. */
  class SignalQueue {
    var sent: seq<Cycle>

    constructor ()
      ensures sent == []
    {
      sent := [];
    }

    method Enqueue(c: Cycle)
      modifies this
      ensures sent == old(sent) + [c]
    {
      sent := sent + [c];
    }
  }

  method OpenCycle(store: RedisCycleStore, merchant: string, now: int, interval: int, count: int, grace: int)
      returns (cid: int)
    requires interval > 0
    modifies store
    ensures cid == CycleIdFor(now, interval)
    ensures store.keys == OpenKeys(old(store.keys), merchant, now, interval, count, grace)
    ensures cid * interval <= now < (cid + 1) * interval
    ensures Get(store.keys, Cycle(merchant, cid), Expected)
            == Get(old(store.keys), Cycle(merchant, cid), Expected) + count
    ensures forall k :: k in store.keys && k != (Cycle(merchant, cid), Expected) ==>
              k in old(store.keys) && store.keys[k] == old(store.keys)[k]
  {
    cid := CycleIdFor(now, interval);
    var _ := store.IncrExpected(Cycle(merchant, cid), count, interval + grace, now);
  }

  method RecordScrape(store: RedisCycleStore, queue: SignalQueue, c: Cycle, ttl: int, now: int)
      returns (fired: bool)
    modifies store, queue
    ensures (store.keys, fired) == RecordKeys(old(store.keys), c, now, ttl)
    ensures queue.sent == old(queue.sent) + if fired then [c] else []
    ensures Get(store.keys, c, Done) == Get(old(store.keys), c, Done) + 1
    ensures fired <==> (c, Fired) !in old(store.keys)
                       && 0 < Get(old(store.keys), c, Expected) <= Get(old(store.keys), c, Done) + 1
  {
    var done := store.IncrDone(c, ttl, now);
    var expected, _ := store.GetCounts(c);
    if expected > 0 && done >= expected {
      var won := store.TrySetFired(c, ttl, now);
      if won {
        queue.Enqueue(c);
        return true;
      }
    }
    return false;
  }

  /** One landing's slots, in order: keys and the cycles that fired. */
  function RecordAll(keys: Keys, slots: seq<(Cycle, int)>, now: int): (Keys, seq<Cycle>) {
    if slots == [] then (keys, []) else
      var n := |slots| - 1;
      var before := RecordAll(keys, slots[..n], now);
      var last := RecordKeys(before.0, slots[n].0, now, slots[n].1);
      (last.0, before.1 + if last.1 then [slots[n].0] else [])
  }

  /** How many slots belong to a cycle. */
  function SlotCount(slots: seq<(Cycle, int)>, c: Cycle): nat {
    if slots == [] then 0 else SlotCount(slots[..|slots| - 1], c) + if slots[|slots| - 1].0 == c then 1 else 0
  }

  predicate FlaggedAfter(keys: Keys, c: Cycle, n: nat) {
    (c, Fired) in keys || (n > 0 && 0 < Get(keys, c, Expected) <= Get(keys, c, Done) + n)
  }

  lemma RecordCounts(keys: Keys, slot: Cycle, now: int, ttl: int, c: Cycle)
    ensures
      var (after, fired) := RecordKeys(keys, slot, now, ttl);
      var n := if slot == c then 1 else 0;
      && Get(after, c, Expected) == Get(keys, c, Expected) && Get(after, c, Done) == Get(keys, c, Done) + n
      && ((c, Fired) in after <==> FlaggedAfter(keys, c, n))
      && (fired && slot == c <==> (c, Fired) in after && (c, Fired) !in keys)
  {
  }

  lemma FlaggedTwice(keys: Keys, after: Keys, c: Cycle, n: nat, m: nat)
    requires Get(after, c, Expected) == Get(keys, c, Expected) && Get(after, c, Done) == Get(keys, c, Done) + n
    requires (c, Fired) in after <==> FlaggedAfter(keys, c, n)
    ensures FlaggedAfter(after, c, m) <==> FlaggedAfter(keys, c, n + m)
  {
  }

  /** What a landing does to a cycle depends only on how many of its slots are the cycle's,
      not on their order: DONE grows by that many, and the cycle fires exactly if that
      first completes it. */
  lemma {:induction false} LandingCounts(keys: Keys, slots: seq<(Cycle, int)>, now: int, c: Cycle)
    ensures
      var (after, fires) := RecordAll(keys, slots, now);
      var n := SlotCount(slots, c);
      && Get(after, c, Expected) == Get(keys, c, Expected) && Get(after, c, Done) == Get(keys, c, Done) + n
      && ((c, Fired) in after <==> FlaggedAfter(keys, c, n))
      && multiset(fires)[c] == if (c, Fired) in after && (c, Fired) !in keys then 1 else 0
  {
    hide RecordKeys, Get, FlaggedAfter;
    if slots == [] {
      assert FlaggedAfter(keys, c, 0) <==> (c, Fired) in keys by {
        FlaggedByNothing(keys, c);
      }
    } else {
      var before, last := slots[..|slots| - 1], slots[|slots| - 1];
      LandingCounts(keys, before, now, c);
      var (after, fires) := RecordAll(keys, before, now);
      RecordCounts(after, last.0, now, last.1, c);
      FlaggedTwice(keys, after, c, SlotCount(before, c), if last.0 == c then 1 else 0);
      FlagStays(keys, c, SlotCount(before, c));
      FlagStays(after, c, if last.0 == c then 1 else 0);
    }
  }

  lemma FlaggedByNothing(keys: Keys, c: Cycle)
    ensures FlaggedAfter(keys, c, 0) <==> (c, Fired) in keys
  {
  }

  lemma FlagStays(keys: Keys, c: Cycle, n: nat)
    ensures (c, Fired) in keys ==> FlaggedAfter(keys, c, n)
  {
  }

  /** The loop of _record_cycles: each slot carries its cycle and its time to live. */
  method RecordCycles(store: RedisCycleStore, queue: SignalQueue, slots: seq<(Cycle, int)>, now: int)
    modifies store, queue
    ensures store.keys == RecordAll(old(store.keys), slots, now).0
    ensures queue.sent == old(queue.sent) + RecordAll(old(store.keys), slots, now).1
  {
    for i := 0 to |slots|
      invariant store.keys == RecordAll(old(store.keys), slots[..i], now).0
      invariant queue.sent == old(queue.sent) + RecordAll(old(store.keys), slots[..i], now).1
    {
      assert slots[..i + 1][..i] == slots[..i];
      var _ := RecordScrape(store, queue, slots[i].0, slots[i].1, now);
    }
    assert slots[..|slots|] == slots;
  }

  function KeysBut(keys: Keys, gone: set<Cycle>): Keys {
    map k | k in keys && k.0 !in gone :: keys[k]
  }

  lemma CleanupAlso(keys: Keys, gone: set<Cycle>, c: Cycle)
    ensures Cleanup(KeysBut(keys, gone), c) == KeysBut(keys, gone + {c})
  {
    CleanupIsExact(KeysBut(keys, gone), c);
    assert Cleanup(KeysBut(keys, gone), c) == KeysBut(keys, gone + {c});
  }

  /** One round of the sweep's loop. */
  method SweepOne(store: RedisCycleStore, queue: SignalQueue, c: Cycle, now: int, interval: int, grace: int)
      returns (won: bool)
    modifies store, queue
    ensures won <==> now > Deadline(c, interval, grace) && (c, Fired) !in old(store.keys)
                     && Get(old(store.keys), c, Done) < Get(old(store.keys), c, Expected)
    ensures store.keys == if now > Deadline(c, interval, grace) then Cleanup(old(store.keys), c) else old(store.keys)
    ensures queue.sent == old(queue.sent) + if won then [c] else []
  {
    if now <= Deadline(c, interval, grace) {
      return false;
    }
    var expected, done := store.GetCounts(c);
    won := false;
    if done < expected {
      won := store.TrySetFired(c, interval + grace, now);
      if won {
        queue.Enqueue(c);
      }
    }
    store.CleanupCycle(c);
  }

  /** The safety sweep. Whatever order SCAN lists the cycles in, exactly the stalled
      cycles fire, once each, and exactly the overdue cycles lose their keys. */
  method CloseExpired(store: RedisCycleStore, queue: SignalQueue, now: int, interval: int, grace: int)
      returns (fired: seq<Cycle>)
    modifies store, queue
    ensures store.keys == Swept(old(store.keys), now, interval, grace)
    ensures queue.sent == old(queue.sent) + fired
    ensures forall c :: multiset(fired)[c] == if Stalled(old(store.keys), c, now, interval, grace) then 1 else 0
  {
    fired := [];
    ghost var k0 := store.keys;
    ghost var gone: set<Cycle> := {};
    var cycles := store.AllCycles();
    for i := 0 to |cycles|
      invariant forall c :: c in gone <==> c in cycles[..i] && now > Deadline(c, interval, grace)
      invariant store.keys == KeysBut(k0, gone)
      invariant queue.sent == old(queue.sent) + fired
      invariant forall c :: multiset(fired)[c] == if c in gone && Stalled(k0, c, now, interval, grace) then 1 else 0
    {
      var c := cycles[i];
      CleanupAlso(k0, gone, c);
      assert cycles[..i + 1] == cycles[..i] + [c];
      var won := SweepOne(store, queue, c, now, interval, grace);
      if now > Deadline(c, interval, grace) {
        assert won <==> c !in gone && Stalled(k0, c, now, interval, grace);
        gone := gone + {c};
      }
      if won {
        fired := fired + [c];
      }
    }
    assert cycles[..|cycles|] == cycles;
  }
}
