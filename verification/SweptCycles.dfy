/** The cycle protocol with its safety sweep, one coordinator call at a time.

    open_cycle, record_scrape and close_expired (specter-api/services/cycle_coordinator.py)
    run in any order under a clock that never goes back, over one interval and grace.
    Landings may be late, duplicated or lost. With `expiry` set, keys also die when their
    time to live elapses; without it they live until swept. */
module SweptCycles {
  import opened CycleStore
  import opened CycleCoordinator

  datatype Config = Config(interval: int, grace: int, expiry: bool) {
    predicate Valid() {
      interval > 0 && grace >= 0
    }
    function Ttl(): int {
      interval + grace
    }
  }

  datatype Call =
    | Open(merchant: string, count: int)
    | Record(c: Cycle)
    | Sweep
    | Wait(ms: nat)

  /** `sent` counts the signal runs enqueued for each cycle. */
  datatype State = State(keys: Keys, now: int, sent: map<Cycle, nat>)

  function Sent(s: State, c: Cycle): nat {
    if c in s.sent then s.sent[c] else 0
  }

  function Init(now: int): State {
    State(map[], now, map[])
  }

  function SweepSent(s: State, cfg: Config): map<Cycle, nat> {
    var fired := set k | k in s.keys && Stalled(s.keys, k.0, s.now, cfg.interval, cfg.grace) :: k.0;
    s.sent + map c | c in fired :: Sent(s, c) + 1
  }

  function Apply(cfg: Config, s: State, call: Call): State
    requires cfg.Valid()
  {
    match call
    case Open(m, n) => s.(keys := OpenKeys(s.keys, m, s.now, cfg.interval, n, cfg.grace))
    case Record(c) =>
      var (keys, fired) := RecordKeys(s.keys, c, s.now, cfg.Ttl());
      State(keys, s.now, if fired then s.sent[c := Sent(s, c) + 1] else s.sent)
    case Sweep => State(Swept(s.keys, s.now, cfg.interval, cfg.grace), s.now, SweepSent(s, cfg))
    case Wait(ms) => State(if cfg.expiry then Live(s.keys, s.now + ms) else s.keys, s.now + ms, s.sent)
  }

  function Run(cfg: Config, s: State, calls: seq<Call>): State
    requires cfg.Valid()
  {
    if calls == [] then s
    else Apply(cfg, Run(cfg, s, calls[..|calls| - 1]), calls[|calls| - 1])
  }

  /** The sweep adds one signal run for each stalled cycle and no other. */
  lemma SweepSends(cfg: Config, s: State, c: Cycle)
    requires cfg.Valid()
    ensures Sent(Apply(cfg, s, Sweep), c)
            == Sent(s, c) + if Stalled(s.keys, c, s.now, cfg.interval, cfg.grace) then 1 else 0
  {
    if Stalled(s.keys, c, s.now, cfg.interval, cfg.grace) {
      assert (c, Expected) in s.keys;
    }
  }

  /* ---- Without expiry: at most once, although the sweep deletes the flag ---- */

  /** A fired cycle keeps its flag, or has been swept for good. */
  predicate Settled(cfg: Config, s: State, c: Cycle) {
    || (c, Fired) in s.keys
    || (s.now > Deadline(c, cfg.interval, cfg.grace) && (c, Expected) !in s.keys)
  }

  predicate Once(cfg: Config, s: State, c: Cycle) {
    Sent(s, c) <= 1 && (Sent(s, c) == 1 ==> Settled(cfg, s, c))
  }

  /** open_cycle only ever touches the current bucket, whose deadline is ahead. */
  lemma CurrentBucket(now: int, interval: int)
    requires interval > 0
    ensures CycleIdFor(now, interval) * interval <= now < (CycleIdFor(now, interval) + 1) * interval
  {
  }

  lemma OnceStep(cfg: Config, s: State, call: Call, c: Cycle)
    requires cfg.Valid() && !cfg.expiry && Once(cfg, s, c)
    ensures Once(cfg, Apply(cfg, s, call), c)
  {
    match call
    case Open(_, _) => CurrentBucket(s.now, cfg.interval);
    case Sweep => SweepSends(cfg, s, c);
    case _ =>
  }

  /** Over any run of opens, landings and sweeps a cycle fires at most once: once swept,
      its id can never be opened again and later landings find EXPECTED = 0. */
  lemma {:induction false} FiresAtMostOnce(cfg: Config, start: int, calls: seq<Call>, c: Cycle)
    requires cfg.Valid() && !cfg.expiry
    ensures Once(cfg, Run(cfg, Init(start), calls), c)
  {
    if calls == [] {
    } else {
      FiresAtMostOnce(cfg, start, calls[..|calls| - 1], c);
      OnceStep(cfg, Run(cfg, Init(start), calls[..|calls| - 1]), calls[|calls| - 1], c);
    }
  }

  /* ---- With expiry ---- */

  /** No key outlives a write made now, and EXPECTED was last written inside the bucket. */
  predicate Stamped(cfg: Config, s: State, c: Cycle) {
    (c, Expected) in s.keys ==>
      && s.now >= c.id * cfg.interval
      && s.keys[(c, Expected)].expiresAt <= s.now + cfg.Ttl()
      && s.keys[(c, Expected)].expiresAt < (c.id + 1) * cfg.interval + cfg.Ttl()
  }

  /** As long as EXPECTED lives, so does the flag. */
  predicate FlagOutlivesExpected(s: State, c: Cycle) {
    (c, Expected) in s.keys ==>
      (c, Fired) in s.keys && s.keys[(c, Fired)].expiresAt >= s.keys[(c, Expected)].expiresAt
  }

  /** Before the deadline a fired cycle still holds its flag; a second fire can only come
      after it, and then EXPECTED cannot outlive the new flag. */
  predicate TwicePhase(cfg: Config, s: State, c: Cycle) {
    var deadline := Deadline(c, cfg.interval, cfg.grace);
    && Stamped(cfg, s, c)
    && Sent(s, c) <= 2
    && (Sent(s, c) == 2 ==> s.now >= deadline && FlagOutlivesExpected(s, c))
    && (Sent(s, c) == 1 ==>
          s.now >= deadline || ((c, Fired) in s.keys && s.keys[(c, Fired)].expiresAt >= deadline))
  }

  lemma StampedStep(cfg: Config, s: State, call: Call, c: Cycle)
    requires cfg.Valid() && Stamped(cfg, s, c)
    ensures Stamped(cfg, Apply(cfg, s, call), c)
  {
    if call.Open? {
      CurrentBucket(s.now, cfg.interval);
    }
  }

  lemma TwicePhaseStep(cfg: Config, s: State, call: Call, c: Cycle)
    requires cfg.Valid() && TwicePhase(cfg, s, c)
    ensures TwicePhase(cfg, Apply(cfg, s, call), c)
  {
    StampedStep(cfg, s, call, c);
    match call
    case Open(_, _) => CurrentBucket(s.now, cfg.interval);
    case Sweep => SweepSends(cfg, s, c);
    case _ =>
  }

  /** With expiring keys a cycle fires at most twice: at most once before its deadline
      and at most once more from then on. */
  lemma {:induction false} FiresAtMostTwice(cfg: Config, start: int, calls: seq<Call>, c: Cycle)
    requires cfg.Valid()
    ensures TwicePhase(cfg, Run(cfg, Init(start), calls), c)
    ensures Sent(Run(cfg, Init(start), calls), c) <= 2
    ensures Run(cfg, Init(start), calls).now < Deadline(c, cfg.interval, cfg.grace) ==>
              Sent(Run(cfg, Init(start), calls), c) <= 1
  {
    if calls == [] {
    } else {
      FiresAtMostTwice(cfg, start, calls[..|calls| - 1], c);
      TwicePhaseStep(cfg, Run(cfg, Init(start), calls[..|calls| - 1]), calls[|calls| - 1], c);
    }
  }

  predicate Guarded(cfg: Config, s: State, c: Cycle) {
    Stamped(cfg, s, c) && Sent(s, c) <= 1 && (Sent(s, c) == 1 ==> FlagOutlivesExpected(s, c))
  }

  /** The cycle's flag was set at this instant, or later. */
  predicate FlagSetBy(cfg: Config, s: State, c: Cycle, at: int) {
    (c, Fired) in s.keys && s.keys[(c, Fired)].expiresAt - cfg.Ttl() >= at
  }

  /** The call opens a fired cycle once more, later than its flag was set. */
  predicate Extends(cfg: Config, s: State, call: Call, c: Cycle)
    requires cfg.Valid()
  {
    && Sent(s, c) > 0 && call.Open? && Cycle(call.merchant, CycleIdFor(s.now, cfg.interval)) == c
    && !FlagSetBy(cfg, s, c, s.now)
  }

  lemma GuardedStep(cfg: Config, s: State, call: Call, c: Cycle)
    requires cfg.Valid() && Guarded(cfg, s, c) && !Extends(cfg, s, call, c)
    ensures Guarded(cfg, Apply(cfg, s, call), c)
  {
    StampedStep(cfg, s, call, c);
    if call.Sweep? {
      SweepSends(cfg, s, c);
    }
  }

  /** The guard against a second fire: a cycle that is never extended later than it fired
      keeps its flag as long as EXPECTED, and fires at most once. */
  lemma {:induction false} FiresOnceUnlessExtended(cfg: Config, start: int, calls: seq<Call>, c: Cycle)
    requires cfg.Valid()
    requires forall i :: 0 <= i < |calls| ==> !Extends(cfg, Run(cfg, Init(start), calls[..i]), calls[i], c)
    ensures Guarded(cfg, Run(cfg, Init(start), calls), c)
  {
    if calls == [] {
    } else {
      var n := |calls| - 1;
      forall i | 0 <= i < n
        ensures !Extends(cfg, Run(cfg, Init(start), calls[..n][..i]), calls[..n][i], c)
      {
        assert calls[..n][..i] == calls[..i];
      }
      FiresOnceUnlessExtended(cfg, start, calls[..n], c);
      GuardedStep(cfg, Run(cfg, Init(start), calls[..n]), calls[n], c);
    }
  }

  /* ---- Exactly when a fired cycle can fire again ---- */

  /** EXPECTED is alive, and will outlive the flag if there still is one. */
  predicate Exposed(s: State, c: Cycle) {
    && (c, Expected) in s.keys && s.keys[(c, Expected)].value > 0
    && !((c, Fired) in s.keys && s.keys[(c, Fired)].expiresAt >= s.keys[(c, Expected)].expiresAt)
  }

  predicate NoOpens(calls: seq<Call>, merchant: string) {
    forall call :: call in calls && call.Open? ==> call.merchant != merchant
  }

  /** Stored keys have not expired, and nothing was counted negatively. */
  predicate Alive(s: State) {
    && (forall k :: k in s.keys ==> s.now < s.keys[k].expiresAt)
    && (forall k :: k in s.keys && k.1 == Done ==> s.keys[k].value >= 0)
  }

  lemma {:induction false} RunIsAlive(cfg: Config, start: int, calls: seq<Call>)
    requires cfg.Valid() && cfg.expiry
    ensures Alive(Run(cfg, Init(start), calls))
  {
    if calls == [] {
    } else {
      RunIsAlive(cfg, start, calls[..|calls| - 1]);
      AliveStep(cfg, Run(cfg, Init(start), calls[..|calls| - 1]), calls[|calls| - 1]);
    }
  }

  lemma AliveStep(cfg: Config, s: State, call: Call)
    requires cfg.Valid() && cfg.expiry && Alive(s)
    ensures Alive(Apply(cfg, s, call))
  {
  }

  lemma {:induction false} RunAppend(cfg: Config, s: State, a: seq<Call>, b: seq<Call>)
    requires cfg.Valid()
    ensures Run(cfg, s, a + b) == Run(cfg, Run(cfg, s, a), b)
  {
    if b == [] {
      assert a + b == a;
    } else {
      RunAppend(cfg, s, a, b[..|b| - 1]);
      assert (a + b)[..|a + b| - 1] == a + b[..|b| - 1];
    }
  }

  /** With the flag gone, enough landings fire the cycle. */
  lemma {:induction false} LandingsFire(cfg: Config, s: State, c: Cycle) returns (more: seq<Call>)
    requires cfg.Valid() && Get(s.keys, c, Expected) > 0 && (c, Fired) !in s.keys
    ensures NoOpens(more, c.merchant) && Sent(Run(cfg, s, more), c) == Sent(s, c) + 1
    decreases Get(s.keys, c, Expected) - Get(s.keys, c, Done)
  {
    var landed := Apply(cfg, s, Record(c));
    assert Run(cfg, s, [Record(c)]) == landed by {
      RunPush(cfg, s, [], Record(c));
      assert [] + [Record(c)] == [Record(c)];
    }
    if Get(s.keys, c, Done) + 1 >= Get(s.keys, c, Expected) {
      more := [Record(c)];
    } else {
      var rest := LandingsFire(cfg, landed, c);
      more := [Record(c)] + rest;
      RunAppend(cfg, s, [Record(c)], rest);
    }
  }

  lemma ExposedFiresAgain(cfg: Config, s: State, c: Cycle) returns (more: seq<Call>)
    requires cfg.Valid() && cfg.expiry && Alive(s) && Exposed(s, c)
    ensures NoOpens(more, c.merchant) && Sent(Run(cfg, s, more), c) == Sent(s, c) + 1
  {
    if (c, Fired) in s.keys {
      var wait := Wait(s.keys[(c, Fired)].expiresAt - s.now);
      RunPush(cfg, s, [], wait);
      assert [] + [wait] == [wait];
      var rest := LandingsFire(cfg, Apply(cfg, s, wait), c);
      more := [wait] + rest;
      RunAppend(cfg, s, [wait], rest);
    } else {
      more := LandingsFire(cfg, s, c);
    }
  }

  lemma CoveredStep(cfg: Config, s: State, call: Call, c: Cycle)
    requires cfg.Valid() && cfg.expiry && Alive(s) && !Exposed(s, c) && Sent(s, c) > 0
    requires call.Open? ==> call.merchant != c.merchant
    ensures !Exposed(Apply(cfg, s, call), c) && Sent(Apply(cfg, s, call), c) == Sent(s, c)
  {
    if call.Sweep? {
      SweepSends(cfg, s, c);
    }
  }

  lemma {:induction false} CoveredNeverFires(cfg: Config, s: State, calls: seq<Call>, c: Cycle)
    requires cfg.Valid() && cfg.expiry && Alive(s) && !Exposed(s, c) && Sent(s, c) > 0 && NoOpens(calls, c.merchant)
    ensures Alive(Run(cfg, s, calls)) && !Exposed(Run(cfg, s, calls), c) && Sent(Run(cfg, s, calls), c) == Sent(s, c)
  {
    if calls == [] {
    } else {
      var before, last := calls[..|calls| - 1], calls[|calls| - 1];
      assert last in calls && forall call :: call in before ==> call in calls;
      CoveredNeverFires(cfg, s, before, c);
      CoveredStep(cfg, Run(cfg, s, before), last, c);
      AliveStep(cfg, Run(cfg, s, before), last);
    }
  }

  /** A run without further opens of the merchant after which the cycle was sent twice. */
  predicate FiresAgain(cfg: Config, s: State, c: Cycle, more: seq<Call>)
    requires cfg.Valid()
  {
    NoOpens(more, c.merchant) && Sent(Run(cfg, s, more), c) == 2
  }

  /** In every state that any run can reach, a cycle that has fired once can be fired again
      by landings, sweeps and time alone if and only if its EXPECTED is positive and will
      outlive its flag. */
  lemma FiresAgainIffExposed(cfg: Config, start: int, calls: seq<Call>, c: Cycle)
    requires cfg.Valid() && cfg.expiry && Sent(Run(cfg, Init(start), calls), c) == 1
    ensures (exists more :: FiresAgain(cfg, Run(cfg, Init(start), calls), c, more)) <==>
              Exposed(Run(cfg, Init(start), calls), c)
  {
    var s := Run(cfg, Init(start), calls);
    RunIsAlive(cfg, start, calls);
    if Exposed(s, c) {
      var more := ExposedFiresAgain(cfg, s, c);
      assert FiresAgain(cfg, s, c, more);
    } else {
      forall more | NoOpens(more, c.merchant)
        ensures !FiresAgain(cfg, s, c, more)
      {
        CoveredNeverFires(cfg, s, more, c);
      }
    }
  }

  /** Only opening a cycle strictly later than its flag was set exposes it: an open in the
      same millisecond, or one that leaves EXPECTED at zero, is harmless. */
  lemma OpenExposesIffLater(cfg: Config, s: State, c: Cycle, n: int)
    requires cfg.Valid() && CycleIdFor(s.now, cfg.interval) == c.id
    ensures Exposed(Apply(cfg, s, Open(c.merchant, n)), c) <==>
              Get(s.keys, c, Expected) + n > 0 && !FlagSetBy(cfg, s, c, s.now)
  {
  }

  /** No other call exposes a covered cycle that has fired. */
  lemma OnlyOpensExpose(cfg: Config, s: State, call: Call, c: Cycle)
    requires cfg.Valid() && cfg.expiry && Alive(s) && Sent(s, c) == 1
    requires !Exposed(s, c) && Exposed(Apply(cfg, s, call), c)
    ensures Extends(cfg, s, call, c)
  {
    if call.Open? {
      OpenExposesIffLater(cfg, s, Cycle(call.merchant, CycleIdFor(s.now, cfg.interval)), call.count);
    } else {
      CoveredStep(cfg, s, call, c);
    }
  }

  /** A fired cycle extended in the last millisecond of its bucket. */
  function Extended(cfg: Config, c: Cycle): State {
    var entry := Entry(1, cfg.Ttl());
    State(map[(c, Done) := entry, (c, Fired) := entry, (c, Expected) := Entry(2, cfg.interval - 1 + cfg.Ttl())],
          cfg.interval - 1, map[c := 1])
  }

  lemma RunPush(cfg: Config, s: State, calls: seq<Call>, call: Call)
    requires cfg.Valid()
    ensures Run(cfg, s, calls + [call]) == Apply(cfg, Run(cfg, s, calls), call)
  {
    assert (calls + [call])[..|calls|] == calls;
  }

  /** A cycle opened and completed at the very start of its bucket. */
  function FiredAtOnce(cfg: Config, c: Cycle): State {
    var entry := Entry(1, cfg.Ttl());
    State(map[(c, Expected) := entry, (c, Done) := entry, (c, Fired) := entry], 0, map[c := 1])
  }

  lemma FiredAtOnceIsReachable(cfg: Config, m: string)
    requires cfg.Valid()
    ensures Run(cfg, Init(0), [Open(m, 1)] + [Record(Cycle(m, 0))]) == FiredAtOnce(cfg, Cycle(m, 0))
  {
    var c := Cycle(m, 0);
    CurrentBucket(0, cfg.interval);
    assert CycleIdFor(0, cfg.interval) == 0;
    RunPush(cfg, Init(0), [], Open(m, 1));
    assert [] + [Open(m, 1)] == [Open(m, 1)];
    var s1 := State(map[(c, Expected) := Entry(1, cfg.Ttl())], 0, map[]);
    assert Run(cfg, Init(0), [Open(m, 1)]) == s1;
    RunPush(cfg, Init(0), [Open(m, 1)], Record(c));
    assert Apply(cfg, s1, Record(c)) == FiredAtOnce(cfg, c);
  }

  lemma ExtendLate(cfg: Config, m: string)
    requires cfg.Valid()
    ensures var waited := Apply(cfg, FiredAtOnce(cfg, Cycle(m, 0)), Wait(cfg.interval - 1));
            Apply(cfg, waited, Open(m, 1)) == Extended(cfg, Cycle(m, 0))
  {
    var c := Cycle(m, 0);
    CurrentBucket(cfg.interval - 1, cfg.interval);
    assert CycleIdFor(cfg.interval - 1, cfg.interval) == 0;
    var waited := Apply(cfg, FiredAtOnce(cfg, c), Wait(cfg.interval - 1));
    assert waited.keys == FiredAtOnce(cfg, c).keys;
  }

  /** Just after the deadline EXPECTED is the extended cycle's only living key. */
  lemma FlagDiesFirst(cfg: Config, c: Cycle)
    requires cfg.Valid() && cfg.expiry && cfg.interval > 2 && c.id == 0
    ensures var s := Apply(cfg, Extended(cfg, c), Wait(cfg.grace + 2));
            Stalled(s.keys, c, s.now, cfg.interval, cfg.grace) && Sent(s, c) == 1
  {
  }

  /** Extending a fired cycle does let it fire again, on every interval over 2 ms: the
      flag set at the start of the bucket dies at the deadline, EXPECTED lives on, and
      the sweep takes the extended cycle for a stalled one. */
  lemma ExtendedCycleFiresTwice(cfg: Config, m: string)
    requires cfg.Valid() && cfg.expiry && cfg.interval > 2
    ensures Sent(Run(cfg, Init(0), [Open(m, 1)] + [Record(Cycle(m, 0))] + [Wait(cfg.interval - 1)] + [Open(m, 1)]
                                   + [Wait(cfg.grace + 2)] + [Sweep]), Cycle(m, 0)) == 2
  {
    var fired := [Open(m, 1)] + [Record(Cycle(m, 0))];
    FiredAtOnceIsReachable(cfg, m);
    RunPush(cfg, Init(0), fired, Wait(cfg.interval - 1));
    var waited := fired + [Wait(cfg.interval - 1)];
    RunPush(cfg, Init(0), waited, Open(m, 1));
    ExtendLate(cfg, m);
    var extended := waited + [Open(m, 1)];
    RunPush(cfg, Init(0), extended, Wait(cfg.grace + 2));
    FlagDiesFirst(cfg, Cycle(m, 0));
    var late := extended + [Wait(cfg.grace + 2)];
    RunPush(cfg, Init(0), late, Sweep);
    SweepSends(cfg, Run(cfg, Init(0), late), Cycle(m, 0));
  }

  /* ---- How long keys live ---- */

  predicate Holds(cfg: Config, s: State, c: Cycle, f: Field) {
    (c, f) in s.keys && s.keys[(c, f)].expiresAt >= Deadline(c, cfg.interval, cfg.grace)
  }

  lemma HoldsStep(cfg: Config, s: State, call: Call, c: Cycle, f: Field)
    requires cfg.Valid() && s.now >= c.id * cfg.interval && Holds(cfg, s, c, f)
    requires Apply(cfg, s, call).now < Deadline(c, cfg.interval, cfg.grace)
    ensures Holds(cfg, Apply(cfg, s, call), c, f)
  {
    if call.Record? {
      assert s.now + cfg.Ttl() >= Deadline(c, cfg.interval, cfg.grace);
    } else if call.Open? {
      assert s.now + cfg.Ttl() >= Deadline(c, cfg.interval, cfg.grace);
    }
  }

  /** Every key of a cycle written inside its interval survives, whatever runs, until
      the sweep deadline. */
  lemma {:induction false} KeysOutliveTheInterval(cfg: Config, s: State, calls: seq<Call>, c: Cycle, f: Field)
    requires cfg.Valid() && s.now >= c.id * cfg.interval && Holds(cfg, s, c, f)
    requires Run(cfg, s, calls).now < Deadline(c, cfg.interval, cfg.grace)
    ensures s.now <= Run(cfg, s, calls).now && Holds(cfg, Run(cfg, s, calls), c, f)
  {
    if calls == [] {
    } else {
      var n := |calls| - 1;
      KeysOutliveTheInterval(cfg, s, calls[..n], c, f);
      HoldsStep(cfg, Run(cfg, s, calls[..n]), calls[n], c, f);
    }
  }

  /** Both writers of a cycle stamp its keys past the deadline when called in time. */
  lemma WritesReachTheDeadline(cfg: Config, s: State, c: Cycle, n: int)
    requires cfg.Valid() && CycleIdFor(s.now, cfg.interval) == c.id
    ensures Holds(cfg, Apply(cfg, s, Open(c.merchant, n)), c, Expected)
    ensures Holds(cfg, Apply(cfg, s, Record(c)), c, Done)
    ensures Sent(Apply(cfg, s, Record(c)), c) > Sent(s, c) ==> Holds(cfg, Apply(cfg, s, Record(c)), c, Fired)
  {
    CurrentBucket(s.now, cfg.interval);
  }

  /** The deadline of the bucket in which `written` falls. */
  function DeadlineOf(cfg: Config, written: int): int
    requires cfg.Valid()
  {
    Deadline(Cycle("", CycleIdFor(written, cfg.interval)), cfg.interval, cfg.grace)
  }

  /** A sweep at `t` finds EXPECTED, last written at `written`, overdue and still alive. */
  predicate SweepFinds(cfg: Config, written: int, t: int)
    requires cfg.Valid()
  {
    DeadlineOf(cfg, written) < t < written + cfg.Ttl()
  }

  /** The sweep's window opens at the deadline and is as wide as the write was late. */
  lemma SweepWindow(cfg: Config, written: int)
    requires cfg.Valid()
    ensures written + cfg.Ttl() == DeadlineOf(cfg, written) + written % cfg.interval
    ensures written <= DeadlineOf(cfg, written)
  {
    var id := CycleIdFor(written, cfg.interval);
    assert written == id * cfg.interval + written % cfg.interval;
    assert (id + 1) * cfg.interval == id * cfg.interval + cfg.interval;
  }

  predicate TickFinds(cfg: Config, written: int, first: int, period: int, k: int)
    requires cfg.Valid()
  {
    k >= 0 && SweepFinds(cfg, written, first + k * period)
  }

  ghost predicate SomeTickFinds(cfg: Config, written: int, first: int, period: int)
    requires cfg.Valid()
  {
    exists k :: TickFinds(cfg, written, first, period, k)
  }

  /** The number of periods that just exceeds `d`. */
  function Steps(d: int, period: int): (k: int)
    requires period > 0 && d >= 0
    ensures k >= 1 && d < k * period <= d + period
  {
    assert d == d / period * period + d % period;
    assert (d / period + 1) * period == d / period * period + period;
    d / period + 1
  }

  lemma NoTickBetween(k: int, back: int, period: int)
    requires period > 0
    ensures k * period - back * period <= 0 || k * period - back * period >= period
  {
    var j := k - back;
    assert k * period == j * period + back * period;
    assert j >= 1 ==> j * period >= period;
    assert j <= 0 ==> j * period <= 0;
  }

  lemma TicksStraddleTheWindow(cfg: Config, written: int, period: int) returns (first: int)
    requires cfg.Valid() && period > 0 && written % cfg.interval <= period
    ensures first <= written && !SomeTickFinds(cfg, written, first, period)
  {
    SweepWindow(cfg, written);
    var deadline := DeadlineOf(cfg, written);
    var back := Steps(deadline - written, period);
    first := deadline - back * period;
    forall k
      ensures !TickFinds(cfg, written, first, period, k)
    {
      NoTickBetween(k, back, period);
    }
  }

  /** Sweeps every `period` ms are certain to find an expired cycle before its keys
      vanish exactly when the last open came more than `period` ms into the bucket. The
      coordinator's claim that the sweep always does is too strong. */
  lemma SweepCertainIffLateEnough(cfg: Config, written: int, period: int)
    requires cfg.Valid() && period > 0
    ensures (forall first :: first <= written ==> SomeTickFinds(cfg, written, first, period))
            <==> period < written % cfg.interval
  {
    SweepWindow(cfg, written);
    if period < written % cfg.interval {
      forall first | first <= written
        ensures SomeTickFinds(cfg, written, first, period)
      {
        var k := Steps(DeadlineOf(cfg, written) - first, period);
        assert TickFinds(cfg, written, first, period, k);
      }
    } else {
      var first := TicksStraddleTheWindow(cfg, written, period);
      assert !SomeTickFinds(cfg, written, first, period);
    }
  }
}
