/** Scheduling arithmetic (specter-api/services/scrape_scheduler.py, the plan fold of
    specter-api/services/dispatcher.py, and its TypeScript twin
    specter-api/scraper/plans.ts). Times are milliseconds; an unlimited multiplier is
    `None`. */
module ScrapeScheduler {
  import opened Numbers
  import opened Wrappers

  /** A plan name, lower-cased; any unknown name falls back to RECON's numbers. */
  datatype Plan = Recon | Cipher | Phantom | Predator | Eclipse | Unknown

  const RECON_MS := 21600000
  const RECON_CAP_MS := 86400000
  const PREDATOR_MS := 3600000
  const ECLIPSE_CAP_MS := 3600000

  function PlanInterval(p: Plan): int {
    match p
    case Recon => RECON_MS
    case Cipher => 10800000
    case Phantom => 7200000
    case Predator => PREDATOR_MS
    case Eclipse => 300000
    case Unknown => RECON_MS
  }

  function PlanCap(p: Plan): int {
    match p
    case Recon => RECON_CAP_MS
    case Cipher => 43200000
    case Phantom => 28800000
    case Predator => 14400000
    case Eclipse => ECLIPSE_CAP_MS
    case Unknown => RECON_CAP_MS
  }

  /** One tracker's own interval and staleness cap, under an optional ECLIPSE setting. */
  function FloorOf(p: Plan, eclipse: Option<int>): int {
    if p.Eclipse? && eclipse.Some? then eclipse.value else PlanInterval(p)
  }

  function CapOf(p: Plan, eclipse: Option<int>): int {
    if p.Eclipse? && eclipse.Some? then Max(ECLIPSE_CAP_MS, eclipse.value) else PlanCap(p)
  }

  /* ---- The three folds over a URL's plans ---- */

  function IntervalForPlans(plans: seq<Plan>, eclipse: Option<int>): int {
    if plans == [] then RECON_MS
    else Min(IntervalForPlans(plans[..|plans| - 1], eclipse), FloorOf(plans[|plans| - 1], eclipse))
  }

  /** The smallest floor so far and the cap that came with it. */
  function CapFold(plans: seq<Plan>, eclipse: Option<int>): (int, int) {
    if plans == [] then (RECON_MS, RECON_CAP_MS) else
      var best, p := CapFold(plans[..|plans| - 1], eclipse), plans[|plans| - 1];
      if FloorOf(p, eclipse) < best.0 then (FloorOf(p, eclipse), CapOf(p, eclipse)) else best
  }

  function FastestFold(plans: seq<Plan>, eclipse: Option<int>): (Plan, int) {
    if plans == [] then (Recon, RECON_MS) else
      var best, p := FastestFold(plans[..|plans| - 1], eclipse), plans[|plans| - 1];
      if FloorOf(p, eclipse) < best.1 then (p, FloorOf(p, eclipse)) else best
  }

  method ComputeIntervalForPlans(plans: seq<Plan>, eclipse: Option<int>) returns (best: int)
    ensures best == IntervalForPlans(plans, eclipse)
    ensures best <= RECON_MS && forall p :: p in plans ==> best <= FloorOf(p, eclipse)
    ensures best == RECON_MS || exists p :: p in plans && best == FloorOf(p, eclipse)
  {
    best := RECON_MS;
    for i := 0 to |plans|
      invariant best == IntervalForPlans(plans[..i], eclipse)
    {
      assert plans[..i + 1][..i] == plans[..i];
      var iv := if plans[i].Eclipse? && eclipse.Some? then eclipse.value else PlanInterval(plans[i]);
      best := Min(best, iv);
    }
    assert plans[..|plans|] == plans;
    IntervalIsLeast(plans, eclipse);
  }

  method ComputeCapForPlans(plans: seq<Plan>, eclipse: Option<int>) returns (bestCap: int)
    ensures bestCap == CapFold(plans, eclipse).1
    ensures IntervalForPlans(plans, eclipse) == RECON_MS ==> bestCap == RECON_CAP_MS
    ensures IntervalForPlans(plans, eclipse) < RECON_MS ==>
              exists p :: p in plans && FloorOf(p, eclipse) == IntervalForPlans(plans, eclipse)
                && bestCap == CapOf(p, eclipse)
  {
    var bestFloor := RECON_MS;
    bestCap := RECON_CAP_MS;
    for i := 0 to |plans|
      invariant (bestFloor, bestCap) == CapFold(plans[..i], eclipse)
    {
      assert plans[..i + 1][..i] == plans[..i];
      var floor, cap := PlanInterval(plans[i]), PlanCap(plans[i]);
      if plans[i].Eclipse? && eclipse.Some? {
        floor, cap := eclipse.value, Max(ECLIPSE_CAP_MS, eclipse.value);
      }
      if floor < bestFloor {
        bestFloor, bestCap := floor, cap;
      }
    }
    assert plans[..|plans|] == plans;
    CapOfTheFastest(plans, eclipse);
  }

  method ComputeFastestPlan(plans: seq<Plan>, eclipse: Option<int>) returns (best: Plan)
    ensures best == FastestFold(plans, eclipse).0
    ensures IntervalForPlans([best], eclipse) == IntervalForPlans(plans, eclipse)
  {
    best := Recon;
    var bestIv := RECON_MS;
    for i := 0 to |plans|
      invariant (best, bestIv) == FastestFold(plans[..i], eclipse)
    {
      assert plans[..i + 1][..i] == plans[..i];
      var iv := FloorOf(plans[i], eclipse);
      if iv < bestIv {
        bestIv, best := iv, plans[i];
      }
    }
    assert plans[..|plans|] == plans;
    FoldsAgree(plans, eclipse);
    assert [best][..0] == [];
  }

  /* ---- The effective interval ---- */

  /** 1x, 2x, 4x, and unlimited from nine unchanged scrapes on. */
  function AdaptiveMultiplier(streak: int): Option<int> {
    if streak >= 9 then None
    else if streak >= 6 then Some(4)
    else if streak >= 3 then Some(2)
    else Some(1)
  }

  function Widened(floor: int, cap: int, streak: int): int {
    match AdaptiveMultiplier(streak)
    case None => cap
    case Some(k) => Min(floor * k, cap)
  }

  function EffectiveInterval(plans: seq<Plan>, streak: int, eclipse: Option<int>): int {
    var floor := IntervalForPlans(plans, eclipse);
    Widened(floor, Max(CapFold(plans, eclipse).1, floor), streak)
  }

  /** computeAdaptiveInterval of the TypeScript scheduler; an absent ECLIPSE setting
      defaults to five minutes there. */
  function ComputeAdaptiveInterval(p: Plan, streak: int, eclipse: Option<int>): int {
    var floor := if p.Eclipse? then (if eclipse.Some? then eclipse.value else 300000) else PlanInterval(p);
    Widened(floor, Max(PlanCap(p), floor), streak)
  }

  lemma {:induction false} IntervalIsLeast(plans: seq<Plan>, eclipse: Option<int>)
    ensures IntervalForPlans(plans, eclipse) <= RECON_MS
    ensures forall p :: p in plans ==> IntervalForPlans(plans, eclipse) <= FloorOf(p, eclipse)
    ensures IntervalForPlans(plans, eclipse) == RECON_MS
            || exists p :: p in plans && IntervalForPlans(plans, eclipse) == FloorOf(p, eclipse)
  {
    if plans == [] {
    } else {
      IntervalIsLeast(plans[..|plans| - 1], eclipse);
      assert plans[|plans| - 1] in plans;
    }
  }

  /** The three separate folds pick the same tracker: the fastest plan's floor is the
      interval and its cap is the cap. */
  lemma {:induction false} FoldsAgree(plans: seq<Plan>, eclipse: Option<int>)
    ensures CapFold(plans, eclipse).0 == IntervalForPlans(plans, eclipse) == FastestFold(plans, eclipse).1
    ensures FastestFold(plans, eclipse).1 == FloorOf(FastestFold(plans, eclipse).0, eclipse)
    ensures CapFold(plans, eclipse).1 == CapOf(FastestFold(plans, eclipse).0, eclipse)
    ensures IntervalForPlans(plans, eclipse) <= RECON_MS
  {
    if plans == [] {
    } else {
      FoldsAgree(plans[..|plans| - 1], eclipse);
    }
  }

  lemma {:induction false} CapOfTheFastest(plans: seq<Plan>, eclipse: Option<int>)
    ensures var best := CapFold(plans, eclipse);
            && (best.0 == RECON_MS ==> best.1 == RECON_CAP_MS)
            && best.0 == IntervalForPlans(plans, eclipse) <= RECON_MS
            && (best.0 < RECON_MS ==>
                  exists p :: p in plans && FloorOf(p, eclipse) == best.0 && best.1 == CapOf(p, eclipse))
  {
    if plans == [] {
    } else {
      CapOfTheFastest(plans[..|plans| - 1], eclipse);
      assert plans[|plans| - 1] in plans;
    }
  }

  /** An ECLIPSE setting that keeps the plans in step: faster than PREDATOR, or so slow
      (RECON's interval or more) that the folds ignore it. */
  predicate InStep(eclipse: Option<int>) {
    eclipse.Some? ==> 0 < eclipse.value < PREDATOR_MS || RECON_MS <= eclipse.value
  }

  /** Then an interval determines its cap. */
  function CapAt(floor: int): int {
    if floor < PREDATOR_MS then ECLIPSE_CAP_MS else 4 * floor
  }

  lemma {:induction false} CapFollowsFloor(plans: seq<Plan>, eclipse: Option<int>)
    requires InStep(eclipse)
    ensures CapFold(plans, eclipse).1 == CapAt(CapFold(plans, eclipse).0)
    ensures 0 < CapFold(plans, eclipse).0 <= RECON_MS
  {
    if plans == [] {
    } else {
      CapFollowsFloor(plans[..|plans| - 1], eclipse);
    }
  }

  lemma EffectiveOfFloor(plans: seq<Plan>, streak: int, eclipse: Option<int>)
    requires InStep(eclipse)
    ensures var floor := IntervalForPlans(plans, eclipse);
            && EffectiveInterval(plans, streak, eclipse) == Widened(floor, CapAt(floor), streak)
            && 0 < floor <= CapAt(floor)
  {
    FoldsAgree(plans, eclipse);
    CapFollowsFloor(plans, eclipse);
  }

  lemma WidenedMonotone(a: int, b: int, s: int, t: int)
    requires 0 < a <= b && s <= t
    ensures Widened(a, CapAt(a), s) <= Widened(b, CapAt(b), s)
    ensures Widened(a, CapAt(a), s) <= Widened(a, CapAt(a), t)
    ensures a <= Widened(a, CapAt(a), s) <= CapAt(a)
  {
  }

  lemma SingleInterval(p: Plan, eclipse: Option<int>)
    ensures IntervalForPlans([p], eclipse) == Min(RECON_MS, FloorOf(p, eclipse))
    ensures CapFold([p], eclipse) ==
            if FloorOf(p, eclipse) < RECON_MS then (FloorOf(p, eclipse), CapOf(p, eclipse))
            else (RECON_MS, RECON_CAP_MS)
  {
    assert [p][..0] == [];
  }

  predicate NoStalerThan(plans: seq<Plan>, streak: int, p: Plan, eclipse: Option<int>) {
    EffectiveInterval(plans, streak, eclipse) <= EffectiveInterval([p], streak, eclipse)
  }

  ghost predicate NeverStaler(eclipse: Option<int>) {
    forall plans, streak, p :: p in plans ==> NoStalerThan(plans, streak, p, eclipse)
  }

  /** A shared crawl is never staler than any of its trackers alone - for every set of
      plans, streak and tracker - exactly when the ECLIPSE setting is in step. */
  lemma NeverStalerIffInStep(eclipse: Option<int>)
    requires eclipse.Some? ==> eclipse.value > 0
    ensures NeverStaler(eclipse) <==> InStep(eclipse)
  {
    if InStep(eclipse) {
      forall plans, streak, p | p in plans
        ensures NoStalerThan(plans, streak, p, eclipse)
      {
        EffectiveOfFloor(plans, streak, eclipse);
        EffectiveOfFloor([p], streak, eclipse);
        IntervalIsLeast(plans, eclipse);
        SingleInterval(p, eclipse);
        WidenedMonotone(IntervalForPlans(plans, eclipse), IntervalForPlans([p], eclipse), streak, streak);
      }
    } else {
      var slow := OutOfStepPair(eclipse);
      assert [slow, Eclipse][1] == Eclipse && Eclipse in [slow, Eclipse];
    }
  }

  /** Out of step, a steady PREDATOR or CIPHER tracker backs the shared crawl off beyond
      what the ECLIPSE tracker alone would get. */
  lemma OutOfStepPair(eclipse: Option<int>) returns (slow: Plan)
    requires eclipse.Some? && PREDATOR_MS <= eclipse.value < RECON_MS
    ensures !slow.Eclipse? && !NoStalerThan([slow, Eclipse], 9, Eclipse, eclipse)
  {
    slow := if eclipse.value < 4 * PREDATOR_MS then Predator else Cipher;
    assert [slow, Eclipse][..1] == [slow];
    SingleInterval(slow, eclipse);
    SingleInterval(Eclipse, eclipse);
  }

  /** In step, the interval depends only on which plans track the URL, not on their order
      or number; it never shrinks as the streak grows; it stays between the interval and
      the cap of the fastest plan; and it is the fastest plan's own interval. */
  lemma EffectiveIsTheFastestPlans(plans: seq<Plan>, others: seq<Plan>, s: int, t: int, eclipse: Option<int>)
    requires InStep(eclipse) && s <= t && forall p :: p in plans <==> p in others
    ensures EffectiveInterval(plans, s, eclipse) == EffectiveInterval(others, s, eclipse)
    ensures EffectiveInterval(plans, s, eclipse) <= EffectiveInterval(plans, t, eclipse)
    ensures IntervalForPlans(plans, eclipse) <= EffectiveInterval(plans, s, eclipse) <= CapFold(plans, eclipse).1
    ensures EffectiveInterval(plans, s, eclipse) == EffectiveInterval([FastestFold(plans, eclipse).0], s, eclipse)
  {
    IntervalIsLeast(plans, eclipse);
    IntervalIsLeast(others, eclipse);
    assert IntervalForPlans(plans, eclipse) == IntervalForPlans(others, eclipse);
    EffectiveOfFloor(plans, s, eclipse);
    EffectiveOfFloor(plans, t, eclipse);
    EffectiveOfFloor(others, s, eclipse);
    FoldsAgree(plans, eclipse);
    CapFollowsFloor(plans, eclipse);
    var floor := IntervalForPlans(plans, eclipse);
    WidenedMonotone(floor, floor, s, t);
    SingleInterval(FastestFold(plans, eclipse).0, eclipse);
    EffectiveOfFloor([FastestFold(plans, eclipse).0], s, eclipse);
  }

  /** The backoff: a changed URL runs at its fastest plan's own interval; every three unchanged
      scrapes double it, up to the cap, which nine reach. */
  lemma BackoffDoubles(plans: seq<Plan>, streak: nat, eclipse: Option<int>)
    requires eclipse.Some? ==> eclipse.value > 0
    ensures var floor := IntervalForPlans(plans, eclipse);
            var cap := Max(CapFold(plans, eclipse).1, floor);
            && (streak < 3 ==> EffectiveInterval(plans, streak, eclipse) == floor)
            && (streak >= 9 ==> EffectiveInterval(plans, streak, eclipse) == cap)
            && (streak < 6 ==> EffectiveInterval(plans, streak + 3, eclipse)
                               == Min(2 * EffectiveInterval(plans, streak, eclipse), cap))
            && EffectiveInterval(plans, streak, eclipse) == EffectiveInterval(plans, streak - streak % 3, eclipse)
  {
    FloorIsPositive(plans, eclipse);
  }

  lemma {:induction false} FloorIsPositive(plans: seq<Plan>, eclipse: Option<int>)
    requires eclipse.Some? ==> eclipse.value > 0
    ensures IntervalForPlans(plans, eclipse) > 0
  {
    if plans == [] {
    } else {
      FloorIsPositive(plans[..|plans| - 1], eclipse);
    }
  }

  ghost predicate TwinsAgree(p: Plan, eclipse: Option<int>) {
    forall streak :: EffectiveInterval([p], streak, eclipse) == ComputeAdaptiveInterval(p, streak, eclipse)
  }

  /** The two schedulers agree on a single tracker, for every streak, exactly when its
      ECLIPSE setting is below RECON's interval; any other plan always agrees. */
  lemma TwinsAgreeIff(p: Plan, eclipse: Option<int>)
    ensures TwinsAgree(p, eclipse) <==> (p.Eclipse? && eclipse.Some? ==> eclipse.value < RECON_MS)
  {
    SingleInterval(p, eclipse);
    if p.Eclipse? && eclipse.Some? && eclipse.value >= RECON_MS {
      var streak := if eclipse.value == RECON_CAP_MS then 0 else 9;
      assert EffectiveInterval([p], streak, eclipse) != ComputeAdaptiveInterval(p, streak, eclipse);
    }
  }

  /* ---- The next slot ---- */

  /** The first slot strictly after `now`, one interval at a time from `base`. */
  function Advance(base: int, now: int, interval: int): int
    requires interval > 0
    decreases now - base
  {
    if base > now then base else Advance(base + interval, now, interval)
  }

  function NextRunAfter(now: int, interval: int, offset: int): int
    requires interval > 0
  {
    Advance(now - now % interval + offset, now, interval)
  }

  /** The catch-up loop. The result is later than now, on the URL's phase, and at most
      max(interval, offset) ahead. */
  method ComputeNextRunAfter(now: int, interval: int, offset: int) returns (base: int)
    requires interval > 0 && offset >= 0
    ensures base == NextRunAfter(now, interval, offset)
    ensures now < base <= now + Max(interval, offset)
    ensures base % interval == offset % interval
  {
    base := now - now % interval + offset;
    while base <= now
      invariant Advance(base, now, interval) == NextRunAfter(now, interval, offset)
      decreases now - base
    {
      base := base + interval;
    }
    NextRunBounds(now, interval, offset);
  }

  lemma MultipleGap(d: int, n: int)
    requires n > 0
    ensures d >= 1 ==> d * n >= n
    ensures d <= -1 ==> d * n <= -n
  {
    if d >= 1 {
      assert (d - 1) * n >= 0;
    } else if d <= -1 {
      assert (d + 1) * n <= 0;
    }
  }

  lemma ModUnique(x: int, q: int, r: int, n: int)
    requires n > 0 && x == q * n + r && 0 <= r < n
    ensures x % n == r && x / n == q
  {
    assert x == x / n * n + x % n;
    var d := x / n - q;
    assert d * n == x / n * n - q * n;
    MultipleGap(d, n);
  }

  lemma ModShift(x: int, k: int, n: int)
    requires n > 0
    ensures (x + k * n) % n == x % n
  {
    assert x + k * n == (x / n + k) * n + x % n;
    ModUnique(x + k * n, x / n + k, x % n, n);
  }

  lemma {:induction false} AdvanceLands(base: int, now: int, interval: int)
    requires interval > 0
    ensures var r := Advance(base, now, interval);
            && r > now && r % interval == base % interval
            && (base > now ==> r == base) && (base <= now ==> r <= now + interval)
    decreases now - base
  {
    if base <= now {
      AdvanceLands(base + interval, now, interval);
      ModShift(base, 1, interval);
    }
  }

  lemma NextRunBounds(now: int, interval: int, offset: int)
    requires interval > 0 && offset >= 0
    ensures now < NextRunAfter(now, interval, offset) <= now + Max(interval, offset)
    ensures NextRunAfter(now, interval, offset) % interval == offset % interval
  {
    AdvanceLands(now - now % interval + offset, now, interval);
    assert now - now % interval + offset == offset + now / interval * interval;
    ModShift(offset, now / interval, interval);
  }

  ghost predicate AlwaysWithinOneInterval(interval: int, offset: int)
    requires interval > 0
  {
    forall now :: NextRunAfter(now, interval, offset) <= now + interval
  }

  /** The wait is never more than one interval exactly when the offset is at most one. */
  lemma TightIffOffsetFits(interval: int, offset: int)
    requires interval > 0 && offset >= 0
    ensures AlwaysWithinOneInterval(interval, offset) <==> offset <= interval
  {
    if offset <= interval {
      forall now
        ensures NextRunAfter(now, interval, offset) <= now + interval
      {
        NextRunBounds(now, interval, offset);
      }
    } else {
      assert 0 % interval == 0;
      assert NextRunAfter(0, interval, offset) == offset;
    }
  }

  /** With a fitting offset it is the one and only slot of the phase in the next interval. */
  lemma NextRunIsUnique(now: int, interval: int, offset: int, slot: int)
    requires interval > 0 && 0 <= offset < interval
    requires now < slot <= now + interval && slot % interval == offset
    ensures slot == NextRunAfter(now, interval, offset)
  {
    hide NextRunAfter;
    NextRunBounds(now, interval, offset);
    ModUnique(offset, 0, offset, interval);
    OneSlotInAnInterval(slot, NextRunAfter(now, interval, offset), now, interval);
  }

  lemma OneSlotInAnInterval(a: int, b: int, now: int, n: int)
    requires n > 0 && now < a <= now + n && now < b <= now + n && a % n == b % n
    ensures a == b
  {
    var d := a / n - b / n;
    assert a == a / n * n + a % n && b == b / n * n + b % n;
    assert a - b == d * n;
    MultipleGap(d, n);
  }

  /** The steady gap between slots. A URL dispatched at its own slot runs again exactly one
      interval later if its offset fits; an offset kept from a longer interval stretches
      every gap to that many whole intervals, so the shrunk interval never takes effect. */
  lemma SteadyGap(slot: int, interval: int, offset: int)
    requires interval > 0 && offset >= 0 && slot % interval == offset % interval
    ensures NextRunAfter(slot, interval, offset) == slot + Max(1, offset / interval) * interval
  {
    assert offset == offset / interval * interval + offset % interval;
    var base := slot - slot % interval + offset;
    assert base == slot + offset / interval * interval;
    if offset >= interval {
      ModQuotient(offset, interval);
      assert base > slot;
    } else {
      ModUnique(offset, 0, offset, interval);
      assert base == slot;
      assert Advance(base, slot, interval) == Advance(base + interval, slot, interval) == slot + interval;
    }
  }

  lemma ModQuotient(x: int, n: int)
    requires n > 0 && x >= n
    ensures x / n >= 1 && x / n * n >= n
  {
    var q := x / n;
    assert x == q * n + x % n;
    MultipleGap(q, n);
  }
}
