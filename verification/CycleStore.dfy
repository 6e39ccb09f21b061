/** The Redis adapter behind the cycle coordinator (specter-api/services/cycle_store.py).

    Every counter or flag of a cycle is one Redis key; every write stamps the key's
    time to live. Functions on the key space say what each command does; the class is
    the adapter that runs the commands in place. */
module CycleStore {

  /** One merchant's scrape cycle: the interval bucket `id` of that merchant. */
  datatype Cycle = Cycle(merchant: string, id: int)

  datatype Field = Expected | Done | Fired

  datatype Entry = Entry(value: int, expiresAt: int)

  type Keys = map<(Cycle, Field), Entry>

  /** GET, with a missing key read as 0. */
  function Get(keys: Keys, c: Cycle, f: Field): int {
    if (c, f) in keys then keys[(c, f)].value else 0
  }

  /** INCRBY followed by PEXPIRE. */
  function IncrBy(keys: Keys, c: Cycle, f: Field, n: int, now: int, ttl: int): Keys {
    keys[(c, f) := Entry(Get(keys, c, f) + n, now + ttl)]
  }

  /** SET NX PX on the one-shot flag. */
  function SetFired(keys: Keys, c: Cycle, now: int, ttl: int): Keys {
    if (c, Fired) in keys then keys else keys[(c, Fired) := Entry(1, now + ttl)]
  }

  /** DEL of a cycle's three keys. */
  function Cleanup(keys: Keys, c: Cycle): Keys {
    keys - {(c, Expected), (c, Done), (c, Fired)}
  }

  lemma CleanupIsExact(keys: Keys, c: Cycle)
    ensures forall k :: k in Cleanup(keys, c) <==> k in keys && k.0 != c
  {
    forall k: (Cycle, Field) | k.0 == c
      ensures k in {(c, Expected), (c, Done), (c, Fired)}
    {
      assert k == (c, k.1) && (k.1 == Expected || k.1 == Done || k.1 == Fired);
    }
  }

  /** What Redis still holds at `now`: a key dies when its time to live has elapsed. */
  function Live(keys: Keys, now: int): Keys {
    map k | k in keys && now < keys[k].expiresAt :: keys[k]
  }

  class RedisCycleStore {
    var keys: Keys

    constructor ()
      ensures keys == map[]
    {
      keys := map[];
    }

    method IncrExpected(c: Cycle, n: int, ttl: int, now: int) returns (val: int)
      modifies this
      ensures keys == IncrBy(old(keys), c, Expected, n, now, ttl)
      ensures val == Get(keys, c, Expected) == Get(old(keys), c, Expected) + n
    {
      val := Get(keys, c, Expected) + n;
      keys := keys[(c, Expected) := Entry(val, now + ttl)];
    }

    method IncrDone(c: Cycle, ttl: int, now: int) returns (val: int)
      modifies this
      ensures keys == IncrBy(old(keys), c, Done, 1, now, ttl)
      ensures val == Get(keys, c, Done) == Get(old(keys), c, Done) + 1
    {
      val := Get(keys, c, Done) + 1;
      keys := keys[(c, Done) := Entry(val, now + ttl)];
    }

    method GetCounts(c: Cycle) returns (expected: int, done: int)
      ensures expected == Get(keys, c, Expected) && done == Get(keys, c, Done)
    {
      expected, done := Get(keys, c, Expected), Get(keys, c, Done);
    }

    /** True for the one caller that finds the flag absent. */
    method TrySetFired(c: Cycle, ttl: int, now: int) returns (won: bool)
      modifies this
      ensures won <==> (c, Fired) !in old(keys)
      ensures keys == SetFired(old(keys), c, now, ttl)
      ensures (c, Fired) in keys
    {
      won := (c, Fired) !in keys;
      if won {
        keys := keys[(c, Fired) := Entry(1, now + ttl)];
      }
    }

    /** SCAN for the `expected` keys. The order is unspecified. */
    method AllCycles() returns (cycles: seq<Cycle>)
      ensures forall c :: c in cycles <==> (c, Expected) in keys
    {
      cycles := [];
      var left := set k | k in keys && k.1 == Expected;
      while left != {}
        invariant forall k :: k in left ==> k in keys && k.1 == Expected
        invariant forall c :: (c, Expected) in keys <==> c in cycles || (c, Expected) in left
        decreases |left|
      {
        var k :| k in left;
        cycles := cycles + [k.0];
        left := left - {k};
      }
    }

    /** Nothing of the cycle is left - it reads as never opened and may fire afresh - and
        every other cycle keeps all its keys. */
    method CleanupCycle(c: Cycle)
      modifies this
      ensures keys == Cleanup(old(keys), c)
      ensures forall k :: k in keys <==> k in old(keys) && k.0 != c
      ensures forall k :: k in keys ==> keys[k] == old(keys)[k]
      ensures forall f :: Get(keys, c, f) == 0
      ensures (c, Fired) !in keys && forall d, f :: d != c ==> Get(keys, d, f) == Get(old(keys), d, f)
    {
      keys := keys - {(c, Expected), (c, Done), (c, Fired)};
      CleanupIsExact(old(keys), c);
    }
  }
}
