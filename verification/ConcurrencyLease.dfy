/** The per-domain concurrency lease (specter-api/scraper/workers/rate-limiter.ts): a
    counter that scripts acquire and release, and that its time to live may wipe out. */
module ConcurrencyLease {
  import opened Wrappers

  /** What one script call or the clock does to the counter of a domain. */
  datatype Event =
    | Acquire    // ACQUIRE_SLOT_LUA
    | Release    // RELEASE_SLOT_LUA, by a caller that holds a slot
    | Spare      // RELEASE_SLOT_LUA, by a caller that holds none
    | Expire     // the counter's time to live elapses

  /** The counter as Redis holds it, beside what really happened: the requests in flight,
      the expiries and the spare releases so far. */
  datatype State = State(counter: Option<int>, held: nat, expiries: nat, spares: nat)

  const IDLE := State(None, 0, 0, 0)

  function Current(counter: Option<int>): int {
    if counter.Some? then counter.value else 0
  }

  predicate DecideAcquire(current: int, max: int) {
    current < max
  }

  function Released(counter: Option<int>): Option<int> {
    if Current(counter) > 0 then Some(Current(counter) - 1) else counter
  }

  function Step(s: State, e: Event, max: nat): State {
    match e
    case Acquire =>
      if DecideAcquire(Current(s.counter), max) then s.(counter := Some(Current(s.counter) + 1), held := s.held + 1)
      else s
    case Release => if s.held > 0 then s.(counter := Released(s.counter), held := s.held - 1) else s
    case Spare => s.(counter := Released(s.counter), spares := s.spares + 1)
    case Expire => s.(counter := None, expiries := s.expiries + 1)
  }

  function Run(events: seq<Event>, max: nat): State {
    if events == [] then IDLE else Step(Run(events[..|events| - 1], max), events[|events| - 1], max)
  }

  /** Over every run the counter stays in [0, max], and the requests really in flight
      exceed it by at most one ceiling per expiry and one per spare release. Without
      either, the ceiling is hard and the counter exact. */
  lemma {:induction false} InFlightBound(events: seq<Event>, max: nat)
    ensures var s := Run(events, max);
            && 0 <= Current(s.counter) <= max
            && s.held <= Current(s.counter) + max * s.expiries + s.spares
            && s.held <= max * (s.expiries + 1) + s.spares
            && (s.expiries == 0 && s.spares == 0 ==> s.held == Current(s.counter) <= max)
            && (max == 0 ==> s.held == 0)
  {
    if events == [] {
    } else {
      InFlightBound(events[..|events| - 1], max);
      var s := Run(events[..|events| - 1], max);
      assert max * (s.expiries + 1) == max * s.expiries + max;
      assert max * (s.expiries + 2) == max * s.expiries + max + max;
    }
  }

  function Times(e: Event, n: nat): seq<Event> {
    seq(n, _ => e)
  }

  lemma {:induction false} Fills(before: seq<Event>, n: nat, max: nat)
    requires Run(before, max).counter == None && n <= max
    ensures Run(before + Times(Acquire, n), max)
            == Run(before, max).(counter := if n == 0 then None else Some(n), held := Run(before, max).held + n)
  {
    if n == 0 {
      assert before + Times(Acquire, 0) == before;
    } else {
      Fills(before, n - 1, max);
      assert (before + Times(Acquire, n))[..|before| + n - 1] == before + Times(Acquire, n - 1);
    }
  }

  /** The ceiling filled, and filled again after each of `k` expiries. */
  function Refilled(k: nat, max: nat): seq<Event> {
    if k == 0 then Times(Acquire, max) else Refilled(k - 1, max) + [Expire] + Times(Acquire, max)
  }

  lemma {:induction false} RefilledHolds(k: nat, max: nat)
    requires max > 0
    ensures Run(Refilled(k, max), max) == State(Some(max), max * (k + 1), k, 0)
  {
    if k == 0 {
      Fills([], max, max);
      assert [] + Times(Acquire, max) == Times(Acquire, max);
    } else {
      RefilledHolds(k - 1, max);
      var lapsed := Refilled(k - 1, max) + [Expire];
      assert lapsed[..|lapsed| - 1] == Refilled(k - 1, max);
      Fills(lapsed, max, max);
      assert max * (k + 1) == max * k + max;
    }
  }

  /** ... and then `j` spare releases, each followed by one more acquire. */
  function Overfilled(k: nat, j: nat, max: nat): seq<Event> {
    if j == 0 then Refilled(k, max) else Overfilled(k, j - 1, max) + [Spare, Acquire]
  }

  /** The bound is met, in expiries and spare releases together: with `k` of the one and `j`
      of the other, `k + 1` ceilings and `j` requests can be in flight at once. */
  lemma {:induction false} BoundIsMet(k: nat, j: nat, max: nat)
    requires max > 0
    ensures Run(Overfilled(k, j, max), max) == State(Some(max), max * (k + 1) + j, k, j)
  {
    if j == 0 {
      RefilledHolds(k, max);
    } else {
      BoundIsMet(k, j - 1, max);
      var before := Overfilled(k, j - 1, max);
      assert (before + [Spare, Acquire])[..|before| + 1] == before + [Spare];
      assert (before + [Spare])[..|before|] == before;
    }
  }

  /** Every run with so many expiries and spare releases keeps to the ceiling. */
  ghost predicate CeilingHolds(expiries: nat, spares: nat, max: nat) {
    forall events :: Run(events, max).expiries == expiries && Run(events, max).spares == spares ==>
                       Run(events, max).held <= max
  }

  /** The ceiling is hard exactly without expiries and spare releases; one of either is
      enough to break any ceiling but zero. */
  lemma CeilingIsHardIff(expiries: nat, spares: nat, max: nat)
    ensures CeilingHolds(expiries, spares, max) <==> (expiries == 0 && spares == 0) || max == 0
  {
    if (expiries == 0 && spares == 0) || max == 0 {
      forall events | Run(events, max).expiries == expiries && Run(events, max).spares == spares
        ensures Run(events, max).held <= max
      {
        InFlightBound(events, max);
      }
    } else {
      BoundIsMet(expiries, spares, max);
      assert max * (expiries + 1) == max * expiries + max;
      assert Run(Overfilled(expiries, spares, max), max).held > max;
    }
  }

  class Slots {
    var counters: map<string, int>

    constructor ()
      ensures counters == map[]
    {
      counters := map[];
    }

    function Counter(domain: string): Option<int>
      reads this
    {
      if domain in counters then Some(counters[domain]) else None
    }

    /** acquireSlot: true, and one more counted, exactly when below the ceiling. */
    method AcquireSlot(domain: string, max: nat) returns (ok: bool)
      modifies this
      ensures ok <==> Current(old(Counter(domain))) < max
      ensures Counter(domain) == if ok then Some(Current(old(Counter(domain))) + 1) else old(Counter(domain))
      ensures forall d :: d != domain ==> Counter(d) == old(Counter(d))
    {
      var current := if domain in counters then counters[domain] else 0;
      if current >= max {
        return false;
      }
      counters := counters[domain := current + 1];
      return true;
    }

    /** releaseSlot: one less, floored at zero. The floor keeps a spare release on an idle
        domain harmless; on a busy one it gives a held slot away (CeilingIsHardIff). */
    method ReleaseSlot(domain: string)
      modifies this
      ensures Current(old(Counter(domain))) >= 0 ==> Current(Counter(domain)) >= 0
      ensures Current(Counter(domain)) ==
              Current(old(Counter(domain))) - if Current(old(Counter(domain))) > 0 then 1 else 0
      ensures Counter(domain) == Released(old(Counter(domain)))
      ensures forall d :: d != domain ==> Counter(d) == old(Counter(d))
    {
      var current := if domain in counters then counters[domain] else 0;
      if current > 0 {
        counters := counters[domain := current - 1];
      }
    }
  }
}
