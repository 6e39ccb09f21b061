/** The shared-crawl schedule: which URLs are due, dispatched, paused and healed
    (specter-api/services/dispatcher.py), and the router steps that change who tracks a URL
    (specter-api/routers/competitors.py, specter-api/routers/skus.py).

    Tables are values of the `Db` field; the streak, the hash and the routed queue of
    a URL are arbitrary functions. */
module UrlSchedule {
  import opened Wrappers
  import opened CycleStore
  import CycleCoordinator
  import opened Numbers
  import opened ScrapeScheduler
  import opened Seqs

  type Millis = ms: int | ms > 0 witness 1

  datatype UrlRow = UrlRow(nextRun: Option<int>, blocked: bool, offset: Option<int>, interval: Option<int>,
                           lastScraped: Option<int>)

  /** One tracking, with its merchant's plan joined in. */
  datatype Tracking = Tracking(id: string, url: string, sku: string, merchant: string, plan: Plan,
                               eclipse: Option<Millis>, enabled: bool)

  datatype Db = Db(urls: map<string, UrlRow>, trackings: seq<Tracking>)

  datatype Env = Env(streak: string -> int, hash: string -> nat, queue: string -> string)

  /** A crawl job: the trackings it serves and one cycle slot per merchant. */
  datatype Job = Job(url: string, queue: string, ids: seq<string>, plan: Plan, slots: seq<(Cycle, int)>)

  const UNSCHEDULED := UrlRow(None, false, None, None, None)

  /* ---- Queries ---- */

  function Enabled(ts: seq<Tracking>, url: string): seq<Tracking> {
    if ts == [] then [] else
      var before, t := Enabled(ts[..|ts| - 1], url), ts[|ts| - 1];
      if t.url == url && t.enabled then before + [t] else before
  }

  predicate Tracked(db: Db, url: string) {
    Enabled(db.trackings, url) != []
  }

  predicate Due(db: Db, url: string, now: int) {
    url in db.urls && !db.urls[url].blocked && db.urls[url].nextRun.Some? && db.urls[url].nextRun.value <= now
  }

  function DueAt(db: Db, url: string): int {
    if url in db.urls && db.urls[url].nextRun.Some? then db.urls[url].nextRun.value else 0
  }

  predicate Stuck(db: Db, url: string) {
    url in db.urls && !db.urls[url].blocked && db.urls[url].nextRun.None? && Tracked(db, url)
  }

  function DueUrls(db: Db, now: int): set<string> {
    set u | u in db.urls && Due(db, u, now)
  }

  function StuckUrls(db: Db): set<string> {
    set u | u in db.urls && Stuck(db, u)
  }

  function Plans(rows: seq<Tracking>): seq<Plan> {
    seq(|rows|, i requires 0 <= i < |rows| => rows[i].plan)
  }

  /** The smallest ECLIPSE setting among the rows. */
  function EclipseMs(rows: seq<Tracking>): (r: Option<int>)
    ensures r.Some? ==> r.value > 0
  {
    if rows == [] then None else
      var before, t := EclipseMs(rows[..|rows| - 1]), rows[|rows| - 1];
      if t.plan.Eclipse? && t.eclipse.Some? then
        Some(if before.Some? then Min(before.value, t.eclipse.value) else t.eclipse.value)
      else before
  }

  /** The URL's crawl interval for its enabled trackers. */
  function IntervalOf(rows: seq<Tracking>, streak: int): (ms: int)
    ensures ms > 0
  {
    FloorIsPositive(Plans(rows), EclipseMs(rows));
    EffectiveInterval(Plans(rows), streak, EclipseMs(rows))
  }

  function CrawlInterval(db: Db, env: Env, url: string): (ms: int)
    ensures ms > 0
  {
    IntervalOf(Enabled(db.trackings, url), env.streak(url))
  }

  /** phase_offset_ms: a URL's own place within an interval. */
  function PhaseOffset(env: Env, url: string, interval: int): (offset: int)
    requires interval > 0
    ensures 0 <= offset < interval
  {
    env.hash(url) % interval
  }

  function OffsetFor(db: Db, env: Env, url: string): int
    requires url in db.urls
  {
    if db.urls[url].offset.Some? then db.urls[url].offset.value else PhaseOffset(env, url, CrawlInterval(db, env, url))
  }

  /* ---- Row updates ---- */

  /** refresh_url_schedule on one row. */
  function Refreshed(db: Db, env: Env, url: string, now: int): UrlRow
    requires url in db.urls
  {
    if !Tracked(db, url) then db.urls[url].(nextRun := None) else
      var interval, offset := CrawlInterval(db, env, url), OffsetFor(db, env, url);
      db.urls[url].(interval := Some(interval), offset := Some(offset),
                    nextRun := Some(NextRunAfter(now, interval, offset)))
  }

  /** The row after dispatch_due handled it. */
  function Dispatched(db: Db, env: Env, url: string, now: int): UrlRow
    requires url in db.urls
  {
    if !Tracked(db, url) then db.urls[url].(nextRun := None)
    else Refreshed(db, env, url, now).(lastScraped := Some(now))
  }

  function RefreshAll(db: Db, env: Env, urls: set<string>, now: int): Db {
    db.(urls := map u | u in db.urls :: if u in urls then Refreshed(db, env, u, now) else db.urls[u])
  }

  function DispatchAll(db: Db, env: Env, urls: set<string>, now: int): Db {
    db.(urls := map u | u in db.urls :: if u in urls then Dispatched(db, env, u, now) else db.urls[u])
  }

  /** Updating row by row, in any order, updates the set. */
  lemma RefreshAlso(db: Db, env: Env, urls: set<string>, url: string, now: int)
    requires url in db.urls && url !in urls
    ensures var part := RefreshAll(db, env, urls, now);
            part.(urls := part.urls[url := Refreshed(part, env, url, now)]) == RefreshAll(db, env, urls + {url}, now)
  {
    var part, all := RefreshAll(db, env, urls, now), RefreshAll(db, env, urls + {url}, now);
    assert part.urls[url := Refreshed(part, env, url, now)] == all.urls;
  }

  lemma DispatchAlso(db: Db, env: Env, urls: set<string>, url: string, now: int)
    requires url in db.urls && url !in urls
    ensures var part := DispatchAll(db, env, urls, now);
            part.(urls := part.urls[url := Dispatched(part, env, url, now)]) == DispatchAll(db, env, urls + {url}, now)
  {
    var part, all := DispatchAll(db, env, urls, now), DispatchAll(db, env, urls + {url}, now);
    assert part.urls[url := Dispatched(part, env, url, now)] == all.urls;
  }

  lemma {:induction false} AdvanceIsLater(base: int, now: int, interval: int)
    requires interval > 0
    ensures Advance(base, now, interval) > now
    decreases now - base
  {
    if base <= now {
      AdvanceIsLater(base + interval, now, interval);
    }
  }

  /** The phase of a URL never changes once set, and every slot it is given lies on it. */
  lemma PhaseIsKept(db: Db, env: Env, url: string, now: int)
    requires url in db.urls && Tracked(db, url) && (db.urls[url].offset.Some? ==> db.urls[url].offset.value >= 0)
    ensures var row := Refreshed(db, env, url, now);
            && row.offset.Some? && row.interval == Some(CrawlInterval(db, env, url)) && row.nextRun.Some?
            && (db.urls[url].offset.Some? ==> row.offset == db.urls[url].offset)
            && row.nextRun.value % row.interval.value == row.offset.value % row.interval.value
            && now < row.nextRun.value <= now + Max(row.interval.value, row.offset.value)
  {
    NextRunBounds(now, CrawlInterval(db, env, url), OffsetFor(db, env, url));
  }

  /** A URL that has no phase yet takes its own: the hash of the URL within its interval.
      Refreshed or dispatched, it is due next at that phase, less than an interval on. */
  lemma NewUrlTakesItsPhase(db: Db, env: Env, url: string, now: int)
    requires url in db.urls && Tracked(db, url) && db.urls[url].offset.None?
    ensures var interval := CrawlInterval(db, env, url);
            forall row :: row == Refreshed(db, env, url, now) || row == Dispatched(db, env, url, now) ==>
              && row.offset == Some(env.hash(url) % interval) && row.nextRun.Some?
              && row.nextRun.value % interval == env.hash(url) % interval
              && now < row.nextRun.value <= now + interval
  {
    var interval := CrawlInterval(db, env, url);
    var offset := env.hash(url) % interval;
    NextRunBounds(now, interval, offset);
    ModUnique(offset, 0, offset, interval);
  }

  /** The even spread. Two new URLs of one interval, refreshed together, fall due in the same
      millisecond exactly if their hashes agree within the interval: there is no burst at a
      boundary that all share. */
  lemma SpreadByHash(db: Db, env: Env, u: string, v: string, now: int)
    requires u in db.urls && Tracked(db, u) && db.urls[u].offset.None?
    requires v in db.urls && Tracked(db, v) && db.urls[v].offset.None?
    requires CrawlInterval(db, env, u) == CrawlInterval(db, env, v)
    ensures Refreshed(db, env, u, now).nextRun == Refreshed(db, env, v, now).nextRun <==>
              env.hash(u) % CrawlInterval(db, env, u) == env.hash(v) % CrawlInterval(db, env, u)
  {
    NewUrlTakesItsPhase(db, env, u, now);
    NewUrlTakesItsPhase(db, env, v, now);
  }

  /** Rescheduling concerns the schedule alone: a block stays, and the last scrape is stamped
      by a dispatch and by nothing else. */
  lemma ReschedulingKeepsTheRest(db: Db, env: Env, url: string, now: int)
    requires url in db.urls
    ensures Refreshed(db, env, url, now).blocked == Dispatched(db, env, url, now).blocked == db.urls[url].blocked
    ensures Refreshed(db, env, url, now).lastScraped == db.urls[url].lastScraped
    ensures Dispatched(db, env, url, now).lastScraped ==
            if Tracked(db, url) then Some(now) else db.urls[url].lastScraped
    ensures !Tracked(db, url) ==>
              Refreshed(db, env, url, now) == Dispatched(db, env, url, now) == db.urls[url].(nextRun := None)
  {
  }

  /** A scheduled row is scheduled in the future, whatever its offset. */
  lemma RefreshedIsFuture(db: Db, env: Env, url: string, now: int)
    requires url in db.urls
    ensures Refreshed(db, env, url, now).nextRun.Some? <==> Tracked(db, url)
    ensures Tracked(db, url) ==> Refreshed(db, env, url, now).nextRun.value > now
    ensures Dispatched(db, env, url, now).nextRun == Refreshed(db, env, url, now).nextRun
  {
    if Tracked(db, url) {
      var interval := CrawlInterval(db, env, url);
      AdvanceIsLater(now - now % interval + OffsetFor(db, env, url), now, interval);
    }
  }

  /* ---- Jobs and cycle slots ---- */

  /** One slot per distinct merchant, at that merchant's own plan interval. */
  function MerchantCycles(rows: seq<Tracking>): (r: seq<(string, int)>)
    ensures forall i :: 0 <= i < |r| ==> r[i].1 > 0
  {
    if rows == [] then [] else
      var before, t := MerchantCycles(rows[..|rows| - 1]), rows[|rows| - 1];
      if exists i :: 0 <= i < |before| && before[i].0 == t.merchant then before else
        FloorIsPositive([t.plan], t.eclipse);
        before + [(t.merchant, IntervalForPlans([t.plan], t.eclipse))]
  }

  function Slots(cycles: seq<(string, int)>, now: int, grace: int): seq<(Cycle, int)>
    requires forall i :: 0 <= i < |cycles| ==> cycles[i].1 > 0
  {
    seq(|cycles|, i requires 0 <= i < |cycles| =>
      (Cycle(cycles[i].0, CycleCoordinator.CycleIdFor(now, cycles[i].1)), cycles[i].1 + grace))
  }

  function JobFor(db: Db, env: Env, url: string, now: int, grace: int): Job {
    var rows := Enabled(db.trackings, url);
    Job(url, env.queue(url), seq(|rows|, i requires 0 <= i < |rows| => rows[i].id),
        FastestFold(Plans(rows), EclipseMs(rows)).0, Slots(MerchantCycles(rows), now, grace))
  }

  function JobsFor(db: Db, env: Env, due: seq<string>, now: int, grace: int): seq<Job> {
    if due == [] then [] else
      var before, url := JobsFor(db, env, due[..|due| - 1], now, grace), due[|due| - 1];
      if Tracked(db, url) then before + [JobFor(db, env, url, now, grace)] else before
  }

  function OpenSlots(keys: Keys, slots: seq<(Cycle, int)>, now: int): Keys {
    if slots == [] then keys else
      var n := |slots| - 1;
      IncrBy(OpenSlots(keys, slots[..n], now), slots[n].0, Expected, 1, now, slots[n].1)
  }

  function OpenJobs(keys: Keys, jobs: seq<Job>, now: int): Keys {
    if jobs == [] then keys else OpenSlots(OpenJobs(keys, jobs[..|jobs| - 1], now), jobs[|jobs| - 1].slots, now)
  }

  /** Everything dispatch_due changes: the tables, the queue, the cycle keys, its count. */
  datatype World = World(db: Db, jobs: seq<Job>, keys: Keys, dispatched: nat)

  /** One round of dispatch_due's loop. */
  function Round(w: World, env: Env, url: string, now: int, grace: int): World
    requires url in w.db.urls
  {
    var db' := w.db.(urls := w.db.urls[url := Dispatched(w.db, env, url, now)]);
    if !Tracked(w.db, url) then w.(db := db') else
      var job := JobFor(w.db, env, url, now, grace);
      World(db', w.jobs + [job], OpenSlots(w.keys, job.slots, now), w.dispatched + 1)
  }

  function Rounds(w: World, env: Env, due: seq<string>, now: int, grace: int): (r: World)
    requires forall u :: u in due ==> u in w.db.urls
    ensures r.db.urls.Keys == w.db.urls.Keys && r.db.trackings == w.db.trackings
  {
    if due == [] then w else Round(Rounds(w, env, due[..|due| - 1], now, grace), env, due[|due| - 1], now, grace)
  }

  lemma OneMoreJob(jobs: seq<Job>, job: Job, keys: Keys, now: int)
    ensures OpenJobs(keys, jobs + [job], now) == OpenSlots(OpenJobs(keys, jobs, now), job.slots, now)
  {
    assert (jobs + [job])[..|jobs|] == jobs;
  }

  lemma SameJob(db: Db, db': Db, env: Env, url: string, now: int, grace: int)
    requires db'.trackings == db.trackings
    ensures Tracked(db', url) == Tracked(db, url)
    ensures JobFor(db', env, url, now, grace) == JobFor(db, env, url, now, grace)
  {
  }

  /** The rounds do not interfere: each claimed row is dispatched as it stood at the start. */
  lemma {:induction false} RoundsDispatchAll(w: World, env: Env, due: seq<string>, now: int, grace: int)
    requires Distinct(due) && forall u :: u in due ==> u in w.db.urls
    ensures var jobs := JobsFor(w.db, env, due, now, grace);
            Rounds(w, env, due, now, grace)
            == World(DispatchAll(w.db, env, ToSet(due), now), w.jobs + jobs, OpenJobs(w.keys, jobs, now),
                     w.dispatched + |jobs|)
  {
    if due == [] {
      assert w.db.urls == DispatchAll(w.db, env, {}, now).urls;
    } else {
      hide Tracked, JobFor, Dispatched, OpenSlots, OpenJobs, DispatchAll, Distinct, ToSet;
      var before, url := due[..|due| - 1], due[|due| - 1];
      RoundsDispatchAll(w, env, before, now, grace);
      var jobs, part := JobsFor(w.db, env, before, now, grace), Rounds(w, env, before, now, grace);
      DistinctLast(due);
      DispatchAlso(w.db, env, ToSet(before), url, now);
      SameJob(w.db, part.db, env, url, now, grace);
      if Tracked(w.db, url) {
        OneMoreJob(jobs, JobFor(w.db, env, url, now, grace), w.keys, now);
      }
    }
  }

  class Dispatcher {
    var db: Db
    var jobs: seq<Job>
    const store: RedisCycleStore
    const env: Env

    constructor (db: Db, store: RedisCycleStore, env: Env)
      ensures this.db == db && this.store == store && this.env == env && jobs == []
    {
      this.db, this.store, this.env, this.jobs := db, store, env, [];
    }

    method RefreshUrlSchedule(url: string, now: int)
      requires url in db.urls
      modifies this`db
      ensures db == old(db).(urls := old(db).urls[url := Refreshed(old(db), env, url, now)])
      ensures Tracked(old(db), url) && old(db).urls[url].offset.None? ==>
                db.urls[url].offset == Some(env.hash(url) % CrawlInterval(old(db), env, url))
      ensures db.urls[url].blocked == old(db).urls[url].blocked
      ensures db.urls[url].lastScraped == old(db).urls[url].lastScraped
    {
      var rows := Enabled(db.trackings, url);
      var row := db.urls[url];
      if |rows| == 0 {
        db := db.(urls := db.urls[url := row.(nextRun := None)]);
        return;
      }
      var interval := IntervalOf(rows, env.streak(url));
      var offset := if row.offset.Some? then row.offset.value else PhaseOffset(env, url, interval);
      row := row.(interval := Some(interval), offset := Some(offset),
                  nextRun := Some(NextRunAfter(now, interval, offset)));
      db := db.(urls := db.urls[url := row]);
    }

    /** Refreshes a set of URLs, in any order. */
    method RefreshUrls(urls: set<string>, now: int)
      modifies this`db
      ensures db == RefreshAll(old(db), env, urls, now)
    {
      ghost var db0, done := db, {};
      var left := set u | u in urls && u in db.urls;
      assert db.urls == RefreshAll(db0, env, done, now).urls;
      while left != {}
        invariant done + left == (set u | u in urls && u in db0.urls) && done !! left
        invariant db == RefreshAll(db0, env, done, now)
        decreases |left|
      {
        var u :| u in left;
        RefreshAlso(db0, env, done, u, now);
        RefreshUrlSchedule(u, now);
        done, left := done + {u}, left - {u};
      }
      assert db.urls == RefreshAll(db0, env, urls, now).urls;
    }

    /** SELECT ... LIMIT over the stuck URLs: any of them, up to the limit. */
    method SelectUnscheduledTrackedUrls(limit: nat) returns (urls: set<string>)
      ensures forall u :: u in urls ==> u in db.urls && !db.urls[u].blocked && db.urls[u].nextRun.None?
      ensures urls <= StuckUrls(db) && |urls| == Min(limit, |StuckUrls(db)|)
      ensures |StuckUrls(db)| <= limit ==> urls == StuckUrls(db)
    {
      urls := {};
      var left := StuckUrls(db);
      while left != {} && |urls| < limit
        invariant urls + left == StuckUrls(db) && left !! urls && |urls| <= limit
        decreases |left|
      {
        var u :| u in left;
        left := left - {u};
        urls := urls + {u};
      }
      assert |StuckUrls(db)| == |urls| + |left|;
    }

    /** heal_unscheduled_urls: every stuck URL it selects gets a future slot. */
    method HealUnscheduledUrls(now: int, limit: nat) returns (healed: nat, ghost chosen: set<string>)
      modifies this`db
      ensures chosen <= StuckUrls(old(db)) && |chosen| == Min(limit, |StuckUrls(old(db))|)
      ensures |StuckUrls(old(db))| <= limit ==> chosen == StuckUrls(old(db))
      ensures db == RefreshAll(old(db), env, chosen, now)
      ensures healed == |chosen|
    {
      var candidates := SelectUnscheduledTrackedUrls(limit);
      chosen := candidates;
      RefreshUrls(candidates, now);
      forall u | u in candidates
        ensures u in db.urls && db.urls[u].nextRun.Some?
      {
        RefreshedIsFuture(old(db), env, u, now);
      }
      assert candidates == set u | u in candidates && u in db.urls && db.urls[u].nextRun.Some?;
      healed := |set u | u in candidates && u in db.urls && db.urls[u].nextRun.Some?|;
    }

    /** claim_due_urls: the earliest due URLs, each once, up to the limit. */
    method ClaimDueUrls(now: int, limit: nat) returns (due: seq<string>)
      ensures Distinct(due)
      ensures forall u :: u in due ==> Due(db, u, now)
      ensures |due| == Min(limit, |DueUrls(db, now)|)
      ensures |DueUrls(db, now)| <= limit ==> ToSet(due) == DueUrls(db, now)
      ensures forall u :: u in due ==>
                && u in db.urls && !db.urls[u].blocked
                && db.urls[u].nextRun.Some? && db.urls[u].nextRun.value <= now
      ensures forall v :: v in db.urls && v !in due && !db.urls[v].blocked && db.urls[v].nextRun.Some? ==>
                || db.urls[v].nextRun.value > now
                || (|due| == limit && forall u :: u in due ==> db.urls[u].nextRun.value <= db.urls[v].nextRun.value)
    {
      due := [];
      ghost var claimed := {};
      var left := DueUrls(db, now);
      hide Due, DueAt;
      while left != {} && |due| < limit
        invariant claimed == ToSet(due) && |claimed| == |due| <= limit && Distinct(due)
        invariant claimed + left == DueUrls(db, now) && claimed !! left
        invariant forall u, v :: u in claimed && v in left ==> DueAt(db, u) <= DueAt(db, v)
        decreases |left|
      {
        EarliestExists(db, left, now);
        var u :| u in left && forall v :: v in left ==> DueAt(db, u) <= DueAt(db, v);
        DistinctPush(due, u);
        left := left - {u};
        due, claimed := due + [u], claimed + {u};
      }
      DueUrlsAreDue(db, now);
      ClaimsInRows(db, now, claimed, left);
      assert forall u :: u in due <==> u in claimed;
      assert |DueUrls(db, now)| == |claimed| + |left|;
    }

    /** The inner loop of dispatch_due: one open_cycle per distinct merchant. */
    method OpenMerchantCycles(cycles: seq<(string, int)>, now: int, grace: int) returns (slots: seq<(Cycle, int)>)
      requires forall i :: 0 <= i < |cycles| ==> cycles[i].1 > 0
      modifies store
      ensures slots == Slots(cycles, now, grace)
      ensures store.keys == OpenSlots(old(store.keys), slots, now)
    {
      slots := [];
      for i := 0 to |cycles|
        invariant slots == Slots(cycles, now, grace)[..i]
        invariant store.keys == OpenSlots(old(store.keys), slots, now)
      {
        var cid := CycleCoordinator.OpenCycle(store, cycles[i].0, now, cycles[i].1, 1, grace);
        var before := slots;
        slots := slots + [(Cycle(cycles[i].0, cid), cycles[i].1 + grace)];
        assert slots[..|before|] == before;
      }
    }

    /** dispatch_due: one job per claimed URL that is still tracked, carrying all its
        enabled trackings; each claimed row moves to its next slot or is paused. */
    method DispatchDue(now: int, limit: nat, grace: int) returns (dispatched: nat, due: seq<string>)
      modifies this`db, this`jobs, store
      ensures Distinct(due)
      ensures forall u :: u in due ==> Due(old(db), u, now)
      ensures |due| == Min(limit, |DueUrls(old(db), now)|)
      ensures |DueUrls(old(db), now)| <= limit ==> ToSet(due) == DueUrls(old(db), now)
      ensures db == DispatchAll(old(db), env, ToSet(due), now)
      ensures jobs == old(jobs) + JobsFor(old(db), env, due, now, grace)
      ensures store.keys == OpenJobs(old(store.keys), JobsFor(old(db), env, due, now, grace), now)
      ensures dispatched == |JobsFor(old(db), env, due, now, grace)|
      ensures forall u :: u in due ==>
                && u in db.urls && db.urls[u].blocked == old(db).urls[u].blocked
                && db.urls[u].lastScraped == if Tracked(old(db), u) then Some(now) else old(db).urls[u].lastScraped
    {
      due := ClaimDueUrls(now, limit);
      dispatched := DispatchClaimed(due, now, grace);
      RoundsDispatchAll(World(old(db), old(jobs), old(store.keys), 0), env, due, now, grace);
    }

    /** The loop of dispatch_due over the claimed rows. */
    method DispatchClaimed(due: seq<string>, now: int, grace: int) returns (dispatched: nat)
      requires forall u :: u in due ==> u in db.urls
      modifies this`db, this`jobs, store
      ensures World(db, jobs, store.keys, dispatched)
              == Rounds(World(old(db), old(jobs), old(store.keys), 0), env, due, now, grace)
    {
      dispatched := 0;
      ghost var start := World(db, jobs, store.keys, 0);
      for i := 0 to |due|
        invariant World(db, jobs, store.keys, dispatched) == Rounds(start, env, due[..i], now, grace)
      {
        assert due[..i + 1][..i] == due[..i];
        var job := DispatchOne(due[i], now, grace);
        if job.Some? {
          dispatched := dispatched + 1;
        }
      }
      assert due[..|due|] == due;
    }

    /** One round of dispatch_due's loop. */
    method DispatchOne(url: string, now: int, grace: int) returns (job: Option<Job>)
      requires url in db.urls
      modifies this`db, this`jobs, store
      ensures job == if Tracked(old(db), url) then Some(JobFor(old(db), env, url, now, grace)) else None
      ensures World(db, jobs, store.keys, if job.Some? then 1 else 0)
              == Round(World(old(db), old(jobs), old(store.keys), 0), env, url, now, grace)
    {
      var rows := Enabled(db.trackings, url);
      var row := db.urls[url];
      if |rows| == 0 {
        db := db.(urls := db.urls[url := row.(nextRun := None)]);
        return None;
      }
      var interval := IntervalOf(rows, env.streak(url));
      var offset := if row.offset.Some? then row.offset.value else PhaseOffset(env, url, interval);
      var slots := OpenMerchantCycles(MerchantCycles(rows), now, grace);
      job := Some(Job(url, env.queue(url), seq(|rows|, i requires 0 <= i < |rows| => rows[i].id),
                      FastestFold(Plans(rows), EclipseMs(rows)).0, slots));
      jobs := jobs + [job.value];
      db := db.(urls := db.urls[url := row.(interval := Some(interval), offset := Some(offset),
                                            nextRun := Some(NextRunAfter(now, interval, offset)),
                                            lastScraped := Some(now))]);
    }

    /** One dispatcher iteration. It leaves no unblocked URL due exactly if its limit covered
        those that were, and likewise none stuck, and it dispatches no URL twice. */
    method Tick(now: int, limit: nat, grace: int) returns (healed: nat, dispatched: nat, due: seq<string>)
      modifies this`db, this`jobs, store
      ensures |jobs| == |old(jobs)| + dispatched && jobs[..|old(jobs)|] == old(jobs)
      ensures OnePerUrl(jobs[|old(jobs)|..], due, old(db))
      ensures forall u :: u in due ==> Due(old(db), u, now)
      ensures |due| == Min(limit, |DueUrls(old(db), now)|) && healed == Min(Max(limit, 500), |StuckUrls(old(db))|)
      ensures DueUrls(db, now) == DueUrls(old(db), now) - ToSet(due)
      ensures DueUrls(db, now) == {} <==> |DueUrls(old(db), now)| <= limit
      ensures StuckUrls(db) == {} <==> |StuckUrls(old(db))| <= Max(limit, 500)
    {
      ghost var chosen;
      healed, chosen := HealUnscheduledUrls(now, Max(limit, 500));
      ghost var db1 := db;
      HealedAreNotDue(old(db), env, chosen, now);
      dispatched, due := DispatchDue(now, limit, grace);
      hide *;
      DispatchedJobs(old(db), db1, env, due, now, grace, old(jobs), jobs);
      SetsAfterTick(old(db), env, chosen, due, now);
      DistinctSize(due);
      NothingLeftIff(DueUrls(old(db), now), ToSet(due), limit);
      NothingLeftIff(StuckUrls(old(db)), chosen, Max(limit, 500));
    }
  }

  lemma DispatchedJobs(db: Db, db1: Db, env: Env, due: seq<string>, now: int, grace: int, jobs: seq<Job>,
                       jobs': seq<Job>)
    requires db1.trackings == db.trackings
    requires Distinct(due)
    requires jobs' == jobs + JobsFor(db1, env, due, now, grace)
    ensures jobs'[..|jobs|] == jobs
    ensures OnePerUrl(jobs'[|jobs|..], due, db)
  {
    JobsAreDistinct(db1, env, due, now, grace);
    assert jobs'[|jobs|..] == JobsFor(db1, env, due, now, grace);
  }

  lemma {:induction false} EarliestExists(db: Db, urls: set<string>, now: int)
    requires urls != {} && forall u :: u in urls ==> Due(db, u, now)
    ensures exists u :: u in urls && forall v :: v in urls ==> DueAt(db, u) <= DueAt(db, v)
    decreases |urls|
  {
    var u :| u in urls;
    var rest := urls - {u};
    if rest != {} {
      EarliestExists(db, rest, now);
      var w :| w in rest && forall v :: v in rest ==> DueAt(db, w) <= DueAt(db, v);
      var best := if DueAt(db, u) <= DueAt(db, w) then u else w;
      assert forall v :: v in urls ==> v == u || v in rest;
      assert forall v :: v in urls ==> DueAt(db, best) <= DueAt(db, v);
    } else {
      assert urls == {u};
    }
  }

  /** Healing schedules only in the future, so it makes nothing due, and it leaves nothing
      stuck if it chose every stuck URL. */
  lemma HealedAreNotDue(db: Db, env: Env, chosen: set<string>, now: int)
    requires forall u :: u in chosen ==> Stuck(db, u)
    ensures forall u :: Due(RefreshAll(db, env, chosen, now), u, now) <==> Due(db, u, now)
    ensures forall u :: Stuck(RefreshAll(db, env, chosen, now), u) <==> Stuck(db, u) && u !in chosen
  {
    forall u | u in db.urls
      ensures Due(RefreshAll(db, env, chosen, now), u, now) <==> Due(db, u, now)
      ensures Stuck(RefreshAll(db, env, chosen, now), u) <==> Stuck(db, u) && u !in chosen
    {
      RefreshedIsFuture(db, env, u, now);
    }
  }

  /** Taking `limit` of a set, or all of it if that is fewer, leaves nothing exactly if there
      were no more than `limit`. */
  lemma NothingLeftIff(all: set<string>, taken: set<string>, limit: nat)
    requires taken <= all && |taken| == Min(limit, |all|)
    ensures all - taken == {} <==> |all| <= limit
  {
    assert all == (all - taken) + taken;
    assert |all| == |all - taken| + |taken|;
  }

  predicate OnePerUrl(jobs: seq<Job>, due: seq<string>, db: Db) {
    && (forall i, j :: 0 <= i < j < |jobs| ==> jobs[i].url != jobs[j].url)
    && (forall i :: 0 <= i < |jobs| ==> jobs[i].url in due && Tracked(db, jobs[i].url))
  }

  lemma {:induction false} JobsAreDistinct(db: Db, env: Env, due: seq<string>, now: int, grace: int)
    requires Distinct(due)
    ensures OnePerUrl(JobsFor(db, env, due, now, grace), due, db)
  {
    if due == [] {
    } else {
      var n := |due| - 1;
      JobsAreDistinct(db, env, due[..n], now, grace);
      assert due == due[..n] + [due[n]];
    }
  }

  /** After dispatch no claimed URL is due, and none is newly stuck. */
  lemma AfterDispatch(db: Db, env: Env, due: seq<string>, now: int)
    requires forall u :: u in due ==> Due(db, u, now)
    ensures forall u :: Due(DispatchAll(db, env, ToSet(due), now), u, now) <==> Due(db, u, now) && u !in due
    ensures forall u :: Stuck(DispatchAll(db, env, ToSet(due), now), u) <==> Stuck(db, u)
  {
    forall u | u in db.urls
      ensures Due(DispatchAll(db, env, ToSet(due), now), u, now) <==> Due(db, u, now) && u !in due
      ensures Stuck(DispatchAll(db, env, ToSet(due), now), u) <==> Stuck(db, u)
    {
      RefreshedIsFuture(db, env, u, now);
    }
  }

  /** What claiming the earliest due URLs means for the rows. */
  lemma ClaimsInRows(db: Db, now: int, claimed: set<string>, left: set<string>)
    requires claimed + left == DueUrls(db, now)
    requires forall u, v :: u in claimed && v in left ==> DueAt(db, u) <= DueAt(db, v)
    ensures forall u :: u in claimed ==>
              && u in db.urls && !db.urls[u].blocked
              && db.urls[u].nextRun.Some? && db.urls[u].nextRun.value <= now
    ensures forall v :: v in db.urls && v !in claimed && !db.urls[v].blocked && db.urls[v].nextRun.Some? ==>
              || db.urls[v].nextRun.value > now
              || (v in left && forall u :: u in claimed ==> db.urls[u].nextRun.value <= db.urls[v].nextRun.value)
  {
    forall v | v in db.urls && v !in claimed && !db.urls[v].blocked && db.urls[v].nextRun.Some?
      ensures db.urls[v].nextRun.value > now || v in left
    {
      if db.urls[v].nextRun.value <= now {
        assert v in DueUrls(db, now);
      }
    }
    forall u, v | u in claimed && v in left
      ensures db.urls[u].nextRun.Some? && db.urls[v].nextRun.Some?
      ensures db.urls[u].nextRun.value <= db.urls[v].nextRun.value
    {
      assert DueAt(db, u) <= DueAt(db, v);
    }
  }

  lemma DueUrlsAreDue(db: Db, now: int)
    ensures forall u :: u in DueUrls(db, now) <==> Due(db, u, now)
    ensures forall u :: u in StuckUrls(db) <==> Stuck(db, u)
  {
  }

  /** What a tick leaves due and stuck: what it did not claim, and what it did not heal. */
  lemma SetsAfterTick(db: Db, env: Env, chosen: set<string>, due: seq<string>, now: int)
    requires chosen <= StuckUrls(db)
    requires forall u :: u in due ==> Due(RefreshAll(db, env, chosen, now), u, now)
    ensures var db1 := RefreshAll(db, env, chosen, now);
            var db2 := DispatchAll(db1, env, ToSet(due), now);
            && DueUrls(db1, now) == DueUrls(db, now) && DueUrls(db2, now) == DueUrls(db, now) - ToSet(due)
            && StuckUrls(db2) == StuckUrls(db) - chosen
  {
    var db1 := RefreshAll(db, env, chosen, now);
    HealedAreNotDue(db, env, chosen, now);
    AfterDispatch(db1, env, due, now);
    var db2 := DispatchAll(db1, env, ToSet(due), now);
    hide Due, Stuck, RefreshAll, DispatchAll;
    DueUrlsAreDue(db, now);
    DueUrlsAreDue(db1, now);
    DueUrlsAreDue(db2, now);
    assert forall u :: u in ToSet(due) <==> u in due;
  }
}
