/** The cycle barrier, one store operation at a time.

    Any number of crawl jobs run concurrently. The dispatcher opens a slot for each of
    a job's cycles and then enqueues it (specter-api/services/dispatcher.py); when the
    job lands, the ingest router counts its slots one by one
    (specter-api/routers/internal.py), each by the separate store operations of
    record_scrape (specter-api/services/cycle_coordinator.py). Any job may take the
    next step. The safety sweep is not wired into the dispatcher's tick and keys are
    taken not to expire during the run; SweptCycles covers both. */
module CycleBarrier {
  import opened CycleStore
  import CycleCoordinator

  datatype Job =
    | Opening(todo: seq<Cycle>, slots: seq<Cycle>)       // dispatch_due, opening slots
    | Queued(slots: seq<Cycle>)                          // enqueued, with its slots
    | Landing(slots: seq<Cycle>)                         // next: INCR done for slots[0]
    | Counted(slots: seq<Cycle>, done: int)              // next: GET expected
    | Compared(slots: seq<Cycle>, done: int, expected: int) // next: SET NX, if complete
    | Won(slots: seq<Cycle>)                             // next: enqueue(merchant, cycle)
  {
    /** The slots opened for this job and not yet counted as done. */
    function Pending(): seq<Cycle> {
      match this
      case Opening(_, slots) => slots
      case Queued(slots) => slots
      case Landing(slots) => slots
      case Counted(slots, _) => Tail(slots)
      case Compared(slots, _, _) => Tail(slots)
      case Won(slots) => Tail(slots)
    }

    predicate Finished() {
      this == Landing([])
    }

    /** A recorder between its INCR and the end of record_scrape has a current slot. */
    predicate Valid() {
      (Counted? || Compared? || Won?) ==> slots != []
    }
  }

  function Tail(s: seq<Cycle>): seq<Cycle> {
    if s == [] then [] else s[1..]
  }

  datatype State = State(keys: Keys, jobs: seq<Job>, sent: multiset<Cycle>)

  datatype Action =
    | Claim(todo: seq<Cycle>)               // a due URL is claimed for dispatch
    | Advance(job: nat, now: int, ttl: int) // one operation of one job
    | Duplicate(slots: seq<Cycle>)          // a landing nobody opened slots for

  const INIT := State(map[], [], multiset{})

  /** The next operation of one job, its effect on the keys and the cycle it enqueues. */
  function JobStep(keys: Keys, j: Job, now: int, ttl: int): (Keys, Job, multiset<Cycle>)
    requires j.Valid()
  {
    match j
    case Opening(todo, slots) =>
      if todo == [] then (keys, Queued(slots), multiset{})
      else (IncrBy(keys, todo[0], Expected, 1, now, ttl), Opening(todo[1..], slots + [todo[0]]), multiset{})
    case Queued(slots) => (keys, Landing(slots), multiset{})
    case Landing(slots) =>
      if slots == [] then (keys, j, multiset{})
      else
        var keys' := IncrBy(keys, slots[0], Done, 1, now, ttl);
        (keys', Counted(slots, Get(keys', slots[0], Done)), multiset{})
    case Counted(slots, done) => (keys, Compared(slots, done, Get(keys, slots[0], Expected)), multiset{})
    case Compared(slots, done, expected) =>
      if expected > 0 && done >= expected && (slots[0], Fired) !in keys then
        (SetFired(keys, slots[0], now, ttl), Won(slots), multiset{})
      else
        (keys, Landing(slots[1..]), multiset{})
    case Won(slots) => (keys, Landing(slots[1..]), multiset{slots[0]})
  }

  function Step(s: State, a: Action): State
    requires Valid(s)
  {
    match a
    case Claim(todo) => s.(jobs := s.jobs + [Opening(todo, [])])
    case Duplicate(slots) => s.(jobs := s.jobs + [Landing(slots)])
    case Advance(i, now, ttl) =>
      if i >= |s.jobs| then s else
        var (keys', j', fired) := JobStep(s.keys, s.jobs[i], now, ttl);
        State(keys', s.jobs[i := j'], s.sent + fired)
  }

  predicate Valid(s: State) {
    forall i :: 0 <= i < |s.jobs| ==> s.jobs[i].Valid()
  }

  function Run(acts: seq<Action>): (s: State)
    ensures Valid(s)
  {
    if acts == [] then INIT else Step(Run(acts[..|acts| - 1]), acts[|acts| - 1])
  }

  function Total(jobs: seq<Job>, f: Job -> nat): nat {
    if jobs == [] then 0 else Total(jobs[..|jobs| - 1], f) + f(jobs[|jobs| - 1])
  }

  lemma {:induction false} TotalUpdate(jobs: seq<Job>, i: nat, j: Job, f: Job -> nat)
    requires i < |jobs|
    ensures Total(jobs[i := j], f) == Total(jobs, f) - f(jobs[i]) + f(j)
    ensures Total(jobs, f) >= f(jobs[i])
  {
    var n := |jobs| - 1;
    if i == n {
      assert jobs[i := j][..n] == jobs[..n];
    } else {
      TotalUpdate(jobs[..n], i, j, f);
      assert jobs[i := j][..n] == jobs[..n][i := j];
    }
  }

  lemma {:induction false} TotalZero(jobs: seq<Job>, f: Job -> nat)
    requires forall i :: 0 <= i < |jobs| ==> f(jobs[i]) == 0
    ensures Total(jobs, f) == 0
  {
    if jobs == [] {
    } else {
      TotalZero(jobs[..|jobs| - 1], f);
    }
  }

  lemma TotalAppend(jobs: seq<Job>, j: Job, f: Job -> nat)
    ensures Total(jobs + [j], f) == Total(jobs, f) + f(j)
  {
    assert (jobs + [j])[..|jobs|] == jobs;
  }

  function SlotsFor(j: Job, c: Cycle): nat {
    multiset(j.Pending())[c]
  }

  function WinsFor(j: Job, c: Cycle): nat {
    if j.Won? && j.slots != [] && j.slots[0] == c then 1 else 0
  }

  /** Slots of cycle `c` opened but not yet counted, over all jobs. */
  function InFlight(jobs: seq<Job>, c: Cycle): nat {
    Total(jobs, j => SlotsFor(j, c))
  }

  /** Recorders that won the flag of `c` and have still to enqueue it. */
  function Winners(jobs: seq<Job>, c: Cycle): nat {
    Total(jobs, j => WinsFor(j, c))
  }

  function FlagCount(keys: Keys, c: Cycle): nat {
    if (c, Fired) in keys then 1 else 0
  }

  lemma TailCount(s: seq<Cycle>, c: Cycle)
    requires s != []
    ensures multiset(s)[c] == multiset(s[1..])[c] + if s[0] == c then 1 else 0
  {
    assert s == [s[0]] + s[1..];
  }

  lemma AppendCount(s: seq<Cycle>, x: Cycle, c: Cycle)
    ensures multiset(s + [x])[c] == multiset(s)[c] + if x == c then 1 else 0
  {
  }

  lemma OpeningBalance(keys: Keys, j: Job, now: int, ttl: int, c: Cycle)
    requires j.Opening?
    ensures
      var (keys', j', _) := JobStep(keys, j, now, ttl);
      && Get(keys', c, Expected) - Get(keys', c, Done) - SlotsFor(j', c)
         == Get(keys, c, Expected) - Get(keys, c, Done) - SlotsFor(j, c)
  {
    if j.todo != [] {
      AppendCount(j.slots, j.todo[0], c);
    }
  }

  /** One operation moves a slot from todo to pending to done, and never loses one. */
  lemma JobStepBalance(keys: Keys, j: Job, now: int, ttl: int, c: Cycle)
    requires j.Valid()
    ensures
      var (keys', j', _) := JobStep(keys, j, now, ttl);
      && Get(keys', c, Expected) - Get(keys', c, Done) - SlotsFor(j', c)
         == Get(keys, c, Expected) - Get(keys, c, Done) - SlotsFor(j, c)
  {
    match j
    case Opening(_, _) => OpeningBalance(keys, j, now, ttl, c);
    case Landing(slots) =>
      if slots != [] {
        TailCount(slots, c);
      }
    case _ =>
  }

  /** The flag, the recorder holding it and the enqueued message change together. */
  lemma JobStepFlag(keys: Keys, j: Job, now: int, ttl: int, c: Cycle)
    requires j.Valid()
    ensures
      var (keys', j', sent) := JobStep(keys, j, now, ttl);
      FlagCount(keys', c) - sent[c] - WinsFor(j', c) == FlagCount(keys, c) - WinsFor(j, c)
  {
  }

  /* ---- At most once, whatever lands ---- */

  ghost predicate OneShot(s: State) {
    forall c :: s.sent[c] + Winners(s.jobs, c) == FlagCount(s.keys, c)
  }

  lemma OneShotStep(s: State, a: Action)
    requires Valid(s) && OneShot(s)
    ensures OneShot(Step(s, a))
  {
    var s' := Step(s, a);
    forall c
      ensures s'.sent[c] + Winners(s'.jobs, c) == FlagCount(s'.keys, c)
    {
      var f: Job -> nat := j => WinsFor(j, c);
      match a
      case Claim(todo) => TotalAppend(s.jobs, Opening(todo, []), f);
      case Duplicate(slots) => TotalAppend(s.jobs, Landing(slots), f);
      case Advance(i, now, ttl) =>
        if i < |s.jobs| {
          JobStepFlag(s.keys, s.jobs[i], now, ttl, c);
          TotalUpdate(s.jobs, i, s'.jobs[i], f);
        }
    }
  }

  /** Any number of concurrent recorders, even of duplicated landings: each cycle is
      enqueued at most once. */
  lemma {:induction false} EnqueuedAtMostOnce(acts: seq<Action>, c: Cycle)
    ensures OneShot(Run(acts))
    ensures Run(acts).sent[c] <= 1
  {
    if acts == [] {
    } else {
      EnqueuedAtMostOnce(acts[..|acts| - 1], c);
      OneShotStep(Run(acts[..|acts| - 1]), acts[|acts| - 1]);
    }
  }

  /* ---- Exactly once, when every job lands once ---- */

  predicate LandsOnce(acts: seq<Action>) {
    forall a :: a in acts ==> !a.Duplicate?
  }

  /** Every slot opened is either counted or still in flight. */
  ghost predicate Conserved(s: State) {
    forall c :: Get(s.keys, c, Expected) == Get(s.keys, c, Done) + InFlight(s.jobs, c)
  }

  /** The count a recorder took is no larger than the store's. */
  predicate Stale(keys: Keys, j: Job) {
    (j.Counted? || j.Compared?) && j.slots != [] ==> 0 < j.done <= Get(keys, j.slots[0], Done)
  }

  ghost predicate AllStale(s: State) {
    && (forall c :: Get(s.keys, c, Done) >= 0)
    && (forall i :: 0 <= i < |s.jobs| ==> Stale(s.keys, s.jobs[i]))
  }

  /** Job `j` is the recorder that will complete cycle `c` if nothing more is opened. */
  predicate Completes(keys: Keys, j: Job, c: Cycle) {
    && (j.Counted? || j.Compared?) && j.slots != [] && j.slots[0] == c
    && j.done == Get(keys, c, Done)
    && (j.Compared? ==> j.expected == j.done)
  }

  /** A complete cycle has fired, or the recorder that will fire it is under way. */
  ghost predicate NoStall(s: State) {
    forall c :: 0 < Get(s.keys, c, Expected) == Get(s.keys, c, Done) && (c, Fired) !in s.keys ==>
      exists i :: 0 <= i < |s.jobs| && Completes(s.keys, s.jobs[i], c)
  }

  ghost predicate Inv(s: State) {
    Valid(s) && Conserved(s) && AllStale(s) && NoStall(s)
  }

  lemma ConservedStep(s: State, a: Action)
    requires Inv(s) && !a.Duplicate?
    ensures Conserved(Step(s, a))
  {
    var s' := Step(s, a);
    forall c
      ensures Get(s'.keys, c, Expected) == Get(s'.keys, c, Done) + InFlight(s'.jobs, c)
    {
      var f: Job -> nat := j => SlotsFor(j, c);
      match a
      case Claim(todo) => TotalAppend(s.jobs, Opening(todo, []), f);
      case Advance(i, now, ttl) =>
        if i < |s.jobs| {
          JobStepBalance(s.keys, s.jobs[i], now, ttl, c);
          TotalUpdate(s.jobs, i, s'.jobs[i], f);
        }
    }
  }

  /** Counters only grow, and a recorder's own count is fresh when taken. */
  lemma JobStepCounters(keys: Keys, j: Job, now: int, ttl: int, c: Cycle)
    requires j.Valid() && Stale(keys, j)
    requires forall d :: Get(keys, d, Done) >= 0
    ensures
      var (keys', j', _) := JobStep(keys, j, now, ttl);
      && Stale(keys', j')
      && Get(keys', c, Done) >= Get(keys, c, Done)
      && Get(keys', c, Expected) >= Get(keys, c, Expected)
      && ((c, Fired) in keys ==> (c, Fired) in keys')
  {
  }

  lemma AllStaleStep(s: State, a: Action)
    requires Inv(s) && !a.Duplicate?
    ensures AllStale(Step(s, a))
  {
    var s' := Step(s, a);
    if a.Advance? && a.job < |s.jobs| {
      forall c
        ensures Get(s'.keys, c, Done) >= Get(s.keys, c, Done)
      {
        JobStepCounters(s.keys, s.jobs[a.job], a.now, a.ttl, c);
      }
      forall i | 0 <= i < |s'.jobs|
        ensures Stale(s'.keys, s'.jobs[i])
      {
        assert Stale(s.keys, s.jobs[i]);
        JobStepCounters(s.keys, s.jobs[a.job], a.now, a.ttl, Cycle("", 0));
      }
    }
  }

  /** The step of a job keeps it, or makes it, the completer of `c` - or it fires. */
  lemma CompleterStep(keys: Keys, j: Job, now: int, ttl: int, c: Cycle)
    requires j.Valid() && Get(keys, c, Done) >= 0
    ensures
      var (keys', j', _) := JobStep(keys, j, now, ttl);
      0 < Get(keys', c, Expected) == Get(keys', c, Done) && (c, Fired) !in keys' ==>
        && (Get(keys', c, Done) != Get(keys, c, Done) ==> Completes(keys', j', c))
        && (Completes(keys, j, c) ==> Completes(keys', j', c))
        && (Get(keys', c, Expected) == Get(keys, c, Expected) || Get(keys', c, Done) == Get(keys, c, Done))
  {
  }

  lemma NoStallStep(s: State, a: Action)
    requires Inv(s) && !a.Duplicate?
    ensures NoStall(Step(s, a))
  {
    var s' := Step(s, a);
    forall c | 0 < Get(s'.keys, c, Expected) == Get(s'.keys, c, Done) && (c, Fired) !in s'.keys
      ensures exists i :: 0 <= i < |s'.jobs| && Completes(s'.keys, s'.jobs[i], c)
    {
      assert Get(s.keys, c, Expected) == Get(s.keys, c, Done) + InFlight(s.jobs, c);
      if a.Advance? && a.job < |s.jobs| {
        CompleterStep(s.keys, s.jobs[a.job], a.now, a.ttl, c);
        JobStepCounters(s.keys, s.jobs[a.job], a.now, a.ttl, c);
      }
      if Get(s'.keys, c, Done) != Get(s.keys, c, Done) {
        assert Completes(s'.keys, s'.jobs[a.job], c);
      } else {
        var w :| 0 <= w < |s.jobs| && Completes(s.keys, s.jobs[w], c);
        assert Completes(s'.keys, s'.jobs[w], c);
      }
    }
  }

  lemma {:induction false} Reachable(acts: seq<Action>)
    requires LandsOnce(acts)
    ensures Inv(Run(acts))
  {
    if acts == [] {
    } else {
      var before, a := acts[..|acts| - 1], acts[|acts| - 1];
      assert forall b :: b in before ==> b in acts;
      Reachable(before);
      ConservedStep(Run(before), a);
      AllStaleStep(Run(before), a);
      NoStallStep(Run(before), a);
    }
  }

  /** The books balance in every reachable state: expected = done + slots in flight. */
  lemma ExpectedIsDonePlusInFlight(acts: seq<Action>, c: Cycle)
    requires LandsOnce(acts)
    ensures Get(Run(acts).keys, c, Expected) == Get(Run(acts).keys, c, Done) + InFlight(Run(acts).jobs, c)
  {
    Reachable(acts);
  }

  /** No job is opening, carrying or counting a slot of `c`. */
  predicate NoSlotHeld(s: State, c: Cycle) {
    forall i :: 0 <= i < |s.jobs| ==> c !in s.jobs[i].slots
  }

  /** No cycle stalls. Whatever other cycles' jobs are doing, once no job holds a slot of a
      cycle any more - every slot opened for it has landed - the cycle has been enqueued
      exactly once if any slot was ever opened for it, and never otherwise. */
  lemma ExactlyOnceWhenItsSlotsLand(acts: seq<Action>, c: Cycle)
    requires LandsOnce(acts) && NoSlotHeld(Run(acts), c)
    ensures Run(acts).sent[c] == if Get(Run(acts).keys, c, Expected) > 0 then 1 else 0
  {
    var s := Run(acts);
    Reachable(acts);
    EnqueuedAtMostOnce(acts, c);
    forall i | 0 <= i < |s.jobs|
      ensures SlotsFor(s.jobs[i], c) == 0 && WinsFor(s.jobs[i], c) == 0 && !Completes(s.keys, s.jobs[i], c)
    {
      assert forall x :: x in s.jobs[i].Pending() ==> x in s.jobs[i].slots;
    }
    TotalZero(s.jobs, j => SlotsFor(j, c));
    TotalZero(s.jobs, j => WinsFor(j, c));
    FiredWasOpened(acts, c);
  }

  /** In particular of every cycle, once every dispatched job has landed. */
  lemma ExactlyOnceWhenAllLand(acts: seq<Action>, c: Cycle)
    requires LandsOnce(acts)
    requires forall i :: 0 <= i < |Run(acts).jobs| ==> Run(acts).jobs[i].Finished()
    ensures Run(acts).sent[c] == if Get(Run(acts).keys, c, Expected) > 0 then 1 else 0
  {
    ExactlyOnceWhenItsSlotsLand(acts, c);
  }

  /** A flag, or a full read, of a cycle means that EXPECTED is that large. */
  predicate Opened(s: State, c: Cycle) {
    && ((c, Fired) in s.keys ==> Get(s.keys, c, Expected) > 0)
    && forall i :: 0 <= i < |s.jobs| && s.jobs[i].Compared? && s.jobs[i].slots != [] && s.jobs[i].slots[0] == c
                   ==> s.jobs[i].expected <= Get(s.keys, c, Expected)
  }

  lemma OpenedStep(s: State, a: Action, c: Cycle)
    requires Valid(s) && Opened(s, c)
    ensures Opened(Step(s, a), c)
  {
  }

  lemma {:induction false} FiredWasOpened(acts: seq<Action>, c: Cycle)
    ensures Opened(Run(acts), c)
  {
    if acts == [] {
    } else {
      FiredWasOpened(acts[..|acts| - 1], c);
      OpenedStep(Run(acts[..|acts| - 1]), acts[|acts| - 1], c);
    }
  }

  /** A recorder that will find the cycle complete read EXPECTED with nothing in flight. */
  lemma CompleteReadMeansNothingInFlight(s: State, i: nat)
    requires Inv(s) && i < |s.jobs| && s.jobs[i].Counted?
    requires 0 < Get(s.keys, s.jobs[i].slots[0], Expected) <= s.jobs[i].done
    ensures InFlight(s.jobs, s.jobs[i].slots[0]) == 0
  {
    var c := s.jobs[i].slots[0];
    assert Get(s.keys, c, Expected) == Get(s.keys, c, Done) + InFlight(s.jobs, c);
  }

  /** At moment `t` of the run, cycle `c` is open and all its slots have been counted. */
  ghost predicate AllCounted(acts: seq<Action>, t: nat, c: Cycle) {
    t <= |acts| && Get(Run(acts[..t]).keys, c, Expected) > 0 && InFlight(Run(acts[..t]).jobs, c) == 0
  }

  lemma AllCountedBefore(acts: seq<Action>, t: nat, c: Cycle)
    requires acts != [] && AllCounted(acts[..|acts| - 1], t, c)
    ensures AllCounted(acts, t, c)
  {
    assert acts[..|acts| - 1][..t] == acts[..t];
  }

  /** A recorder that read a complete count of `c` and may take the flag. */
  predicate FullRead(j: Job, c: Cycle) {
    j.Compared? && j.slots != [] && j.slots[0] == c && 0 < j.expected <= j.done
  }

  predicate Firing(s: State, c: Cycle) {
    (c, Fired) in s.keys || exists i :: 0 <= i < |s.jobs| && FullRead(s.jobs[i], c)
  }

  lemma FiringStartsWithAFullRead(s: State, a: Action, c: Cycle)
    requires Inv(s) && !a.Duplicate?
    requires Firing(Step(s, a), c)
    ensures Firing(s, c) || (0 < Get(s.keys, c, Expected) && InFlight(s.jobs, c) == 0)
  {
    var s' := Step(s, a);
    if a.Advance? && a.job < |s.jobs| {
      var j := s.jobs[a.job];
      if j.Counted? && j.slots[0] == c && 0 < Get(s.keys, c, Expected) <= j.done {
        CompleteReadMeansNothingInFlight(s, a.job);
      } else if (c, Fired) !in s'.keys {
        var i :| 0 <= i < |s'.jobs| && FullRead(s'.jobs[i], c);
        assert FullRead(s.jobs[i], c);
      } else if (c, Fired) !in s.keys {
        assert FullRead(j, c);
      }
    } else if (c, Fired) !in s'.keys {
      var i :| 0 <= i < |s'.jobs| && FullRead(s'.jobs[i], c);
      assert FullRead(s.jobs[i], c);
    }
  }

  /** A cycle fires early only on a full count: if it has fired, or a recorder is about
      to fire it, then at some earlier moment it was open with nothing in flight. */
  lemma {:induction false} FiresOnlyOnAFullCount(acts: seq<Action>, c: Cycle)
    requires LandsOnce(acts)
    requires Firing(Run(acts), c)
    ensures exists t :: AllCounted(acts, t, c)
  {
    if acts == [] {
    } else {
      var before := acts[..|acts| - 1];
      assert forall b :: b in before ==> b in acts;
      Reachable(before);
      FiringStartsWithAFullRead(Run(before), acts[|acts| - 1], c);
      if Firing(Run(before), c) {
        FiresOnlyOnAFullCount(before, c);
        var t: nat :| AllCounted(before, t, c);
        AllCountedBefore(acts, t, c);
      } else {
        assert acts[..|before|] == before;
        assert AllCounted(acts, |before|, c);
      }
    }
  }

  /* ---- The machine and the sequential coordinator agree ---- */

  /** A landing of one slot that is not interleaved with anything is record_scrape. */
  lemma SoloLandingIsRecordScrape(keys: Keys, c: Cycle, now: int, ttl: int)
    ensures
      var (k1, j1, _) := JobStep(keys, Landing([c]), now, ttl);
      var (k2, j2, _) := JobStep(k1, j1, now, ttl);
      var (k3, j3, _) := JobStep(k2, j2, now, ttl);
      var (k4, j4, sent) := JobStep(k3, j3, now, ttl);
      var (keys', fired) := CycleCoordinator.RecordKeys(keys, c, now, ttl);
      j4.Finished() && k4 == keys' && sent == if fired then multiset{c} else multiset{}
  {
    assert [c][1..] == [];
  }
}
