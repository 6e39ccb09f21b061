# Verification of the scrape control plane

A Dafny model of the repository's concurrent scrape control plane, with proofs. The system
crawls competitor URLs on a shared schedule, batches every merchant's scrapes into cycles
and turns each completed cycle into pricing signals. Its parts are small protocols over
shared Redis keys and database tables; each is modelled as state and steps, at the
granularity of one Redis, queue or table operation where the interleaving matters, and the
properties are proved over all inputs and all runs.

| file | models |
|---|---|
| `CycleStore`, `CycleCoordinator` | the cycle counters, the one-shot flag and the sweep, as code |
| `CycleBarrier` | concurrent landings, one store operation at a time, without sweep or expiry |
| `SweptCycles` | whole coordinator calls in any order, with sweep, and with or without key expiry |
| `DispatchLock`, `DispatchCalls`, `DispatchRaces` | racing dispatches of one URL: lock, discard, batch; one call among others, and the race it is part of; how many fetches a race creates when the lock expires in it |
| `RateLimiter`, `ConcurrencyLease` | token bucket, crawl delay and concurrency slots over expiring keys |
| `ProxyHealth`, `ProxyManager`, `ProxyFleet` | proxy rotation, pins and bans; how bans spread between pods |
| `OosDetector`, `Ingest`, `IngestProperties` | the ingest endpoint, skip-write and stock alerts, one snapshot a call |
| `SnapshotTies`, `AlertBatches`, `BatchTransparency`, `SkipWriteRuns` | whole batches, whose rows may tie: alerts, and skip-write on and off |
| `ScrapeScheduler`, `UrlSchedule`, `UrlScheduleRuns` | intervals, phases, the dispatcher's tick and the routes that change who tracks a URL |
| `Pricing` | the signal rule followed by the repricer |
| `Seqs`, `Numbers`, `Wrappers` | sequences without repetition, minimum and maximum, optional values |
| `Retention`, `CostLedger` | the purge and downgrade grace; cost splitting, conservation and the flush |

`dafny verify dfyconfig.toml` checks everything. Redis keys and tables are maps, queues are
sequences or job maps, times are integer milliseconds passed in as parameters, prices are
integer cents, and rates, tokens and money are exact reals. Code that updates state in place
is a class whose methods are proved against functions of the old state; what the code
promises is then proved about those functions, over whole runs.

## What the proofs found

- **A fired cycle can fire again**, exactly when its EXPECTED is positive and will outlive
  its flag (`SweptCycles.FiresAgainIffExposed`). Each write restamps only its own key, so an
  open later than the flag was set brings that about, and nothing else does
  (`OpenExposesIffLater`, `OnlyOpensExpose`); the sweep then takes the cycle for a stalled
  one. Two fires is the most (`FiresAtMostTwice`).
- **The sweep does not always find an expired cycle**, as the coordinator's header says; its
  window is only as wide as the last open was late in the bucket
  (`SweptCycles.SweepCertainIffLateEnough`).
- **A slow ECLIPSE setting would make shared crawls staler** than a tracker's own: from one
  hour up to six hours, as would an unset one beside a setting over five minutes
  (`ScrapeScheduler.NeverStalerIffInStep`, `UrlScheduleRuns.SharedNeverStalerIff`); from six
  hours on the Python and TypeScript schedulers differ (`TwinsAgreeIff`). These are facts
  about the functions: the merchant routes accept 300000..900000 only and the column is
  never null, and then all is well (`UrlScheduleRuns.SharedCrawlIsNeverStaler`).
- **A phase offset kept from a longer interval** cancels a shrunk interval altogether
  (`ScrapeScheduler.SteadyGap`).
- **One expiry of the dispatch lock can cost a fetch for every racing dispatch.** The loser
  of a claim that finds no holder enqueues again and sets the lock outright, so losers
  overwrite one another (`DispatchRaces.OneFetchIff`). After a lapse at most one fetch is
  created exactly if it did not strike a dispatch past its claim while another could still
  fetch (`OneMoreFetchIff`).
- **With skip-write on, a retried POST that repeats a newest value counts its cycles and cost
  again**, for every batch stored before (`IngestProperties.RetriedBatchIsNoOpIff`).
- **In a batch, skip-write can be told apart from plain writing**: by the newest values
  exactly when a URL ends in a skipped repeat, or in a tie, after another value
  (`BatchTransparency.NewestAgreesIffClashFree`), and in some state by something exactly when
  the batch brings one URL two values (`SkipWriteRuns.TransparentIffUniform`).
- **A batch can leave an alert open on a URL that is back in stock**, because its detections
  see each other's rows, and the uuid-bearing ones tie: the exact condition is `Hazard` of
  `AlertBatches.BatchKeepsAlertsIffSafe`.
- **A ban can be erased.** A success that a pod reports without knowing of the ban overwrites
  the mirror; pods withhold the proxy exactly if they refreshed before that
  (`ProxyFleet.WithheldIffLearnt`, `SuccessErasesABan`).
- **A raised crawl delay can be violated**, if more than doubled: the key lives only twice
  the delay that stamped it (`RateLimiter.CrawlExpiryInvisibleIff`). It is violated once at
  most (`RaisedDelayIsBrokenOnce`).
- **A negative configured rate limit closes a domain while it is set**, naming no time to wait
  (`RateLimiter.EverAllowsIff`).
- **LOWER can raise a price and RAISE can lower one** (`Pricing.LowerSignalCanRaise`,
  `RaiseSignalCanLower`), with the exact conditions beside them. The guard compares with the
  median of all prices although its comment says "of the other prices"; the model follows
  the code. All the same the two stages never chase each other: on an unchanged market they
  are done after two rounds, whatever the bounds and outliers (`TwoRoundsSettle`).
- **The 90-day cap is not hard** for rows inside a downgrade's grace window
  (`Retention.CapIsHardIff`), and an upgrade during the window does not save marked rows
  (`GraceIsHonoured`). Nor does an upgrade restore what an earlier purge took
  (`PurgesComposeIff`).
- **The concurrency ceiling is not hard.** One expiry of the counter's key, or one release by
  a caller that holds no slot, is enough to exceed it (`ConcurrencyLease.CeilingIsHardIff`);
  the bound in both together is tight (`BoundIsMet`).
- **A tracking that was disabled cannot be added again**: the duplicate check also finds
  disabled ones (`UrlScheduleRuns.Routes.AddCompetitor`).

## Model

| member | source | states |
|---|---|---|
| `CycleBarrier.EnqueuedAtMostOnce` | specter-api/services/cycle_coordinator.py:81-86 | In every run of concurrent recorders, one store operation at a time and with duplicated landings allowed, each cycle is enqueued at most once, and the flag, the recorder holding it and the message agree. |
| `CycleBarrier.ExpectedIsDonePlusInFlight` | specter-api/services/dispatcher.py:290-306 | If every enqueued job lands once, every reachable state keeps, for each merchant and cycle, expected = done + slots in flight. |
| `CycleBarrier.ExactlyOnceWhenItsSlotsLand` | specter-api/services/cycle_coordinator.py:3-8 | Whatever other jobs are in flight: once no job holds a slot of a cycle any more, it has been enqueued exactly once if any slot was opened for it and never otherwise, so no cycle stalls. |
| `CycleBarrier.ExactlyOnceWhenAllLand` | specter-api/services/cycle_coordinator.py:75-86 | In particular so of every cycle, once all dispatched jobs have landed. |
| `CycleBarrier.FiresOnlyOnAFullCount` | specter-api/services/cycle_coordinator.py:4-8 | A cycle that has fired, or is about to, was at some earlier moment open with nothing in flight. |
| `CycleBarrier.CompleteReadMeansNothingInFlight` | specter-api/services/cycle_coordinator.py:81-83 | A recorder that finds its count complete read EXPECTED while no slot of the cycle was in flight. |
| `CycleBarrier.SoloLandingIsRecordScrape` | specter-api/services/cycle_coordinator.py:75-86 | Run without interleaving, the machine's landing of one slot is the sequential record_scrape. |
| `CycleBarrier.NoStallStep` | specter-api/services/cycle_coordinator.py:81-84 | Each single operation keeps: a complete, unfired cycle always has a recorder under way that will fire it. |
| `CycleStore.RedisCycleStore.IncrExpected` | specter-api/services/cycle_store.py:32-36 | INCRBY returns the new count and stamps the time to live; no other key changes. |
| `CycleStore.RedisCycleStore.IncrDone` | specter-api/services/cycle_store.py:38-42 | INCR of DONE, likewise. |
| `CycleStore.RedisCycleStore.TrySetFired` | specter-api/services/cycle_store.py:49-52 | Exactly the caller that finds the flag absent wins, and an existing flag keeps its time to live. |
| `CycleStore.RedisCycleStore.AllCycles` | specter-api/services/cycle_store.py:54-65 | The scan lists exactly the cycles that have an expected key. |
| `CycleStore.RedisCycleStore.CleanupCycle` | specter-api/services/cycle_store.py:67-72 | Afterwards the cycle reads as never opened and may fire afresh; every other cycle keeps all its keys. |
| `CycleCoordinator.OpenCycle` | specter-api/services/cycle_coordinator.py:63-72 | Adds to EXPECTED of the current interval bucket and returns its id. |
| `CycleCoordinator.RecordScrape` | specter-api/services/cycle_coordinator.py:75-86 | Counts a landing and reports and enqueues a fire only on a full count with the flag absent. |
| `CycleCoordinator.RecordCycles` | specter-api/routers/internal.py:237-251 | A landing's slots are recorded in order, each with its own time to live. |
| `CycleCoordinator.CloseExpired` | specter-api/services/cycle_coordinator.py:89-109 | Whatever the scan order, exactly the stalled overdue cycles fire, once each, and exactly the overdue cycles lose their keys. |
| `CycleCoordinator.LandingCounts` | specter-api/services/cycle_coordinator.py:75-86 | A landing adds to DONE as many as it has slots of the cycle and fires it exactly if that first completes it, in whatever order the slots come. |
| `SweptCycles.FiresAtMostOnce` | specter-api/services/cycle_coordinator.py:93-109 | Over every run of opens, landings and sweeps under a monotone clock, keys not expiring, a cycle fires at most once although the sweep deletes the flag. |
| `SweptCycles.FiresAtMostTwice` | specter-api/services/cycle_coordinator.py:13-17 | With expiring keys a cycle fires at most twice, and at most once before its deadline. |
| `SweptCycles.FiresAgainIffExposed` | specter-api/services/cycle_coordinator.py:75-109 | In every state any run can reach, with expiring keys, a cycle that has fired once can be fired again by landings, sweeps and time alone if and only if its EXPECTED is positive and will outlive its flag. |
| `SweptCycles.OpenExposesIffLater` | specter-api/services/cycle_coordinator.py:67-71 | An open exposes its cycle if and only if it leaves EXPECTED positive and comes strictly later than the flag was set. |
| `SweptCycles.OnlyOpensExpose` | specter-api/services/cycle_coordinator.py:75-109 | No landing, sweep or lapse of time exposes a fired cycle that was covered; only such an open does. |
| `SweptCycles.FiresOnceUnlessExtended` | specter-api/services/cycle_coordinator.py:67-71 | Over every run, a cycle never opened later than its flag was set fires at most once. |
| `SweptCycles.ExtendedCycleFiresTwice` | specter-api/services/cycle_coordinator.py:13-17 | A witness, for every interval over 2 ms: a cycle extended after firing is fired again by the sweep. |
| `SweptCycles.KeysOutliveTheInterval` | specter-api/services/cycle_coordinator.py:13-16 | A key of a cycle stamped past the deadline survives, whatever runs, until the sweep deadline. |
| `SweptCycles.WritesReachTheDeadline` | specter-api/services/cycle_coordinator.py:67-80 | Every write made inside the interval stamps its key at least to the deadline. |
| `SweptCycles.SweepCertainIffLateEnough` | specter-api/services/cycle_coordinator.py:15-17 | Sweeps of a given period are certain to find an expired cycle before its keys vanish if and only if its last open came more than one period into the bucket. |
| `SweptCycles.SweepSends` | specter-api/services/cycle_coordinator.py:100-109 | A sweep adds one signal run for each stalled cycle and none for any other. |
| `DispatchLock.OneJobForEveryone` | specter-api/scraper/scheduler.ts:57-96 | However N dispatches of one URL interleave without lock expiry, one job survives, all were told it, and it serves exactly all callers' ids and those it served before. |
| `DispatchLock.NoTrackerDropped` | specter-api/scraper/scheduler.ts:90-103 | Even if the lock expires at any moment, the job a caller is told exists and serves every id the caller brought. |
| `DispatchLock.OneFetchPerRace` | specter-api/scraper/scheduler.ts:81-88 | From a free lock exactly one racing dispatch creates the fetch; all others are batched. |
| `DispatchRaces.OneMoreFetchIff` | specter-api/scraper/scheduler.ts:90-103 | From any state in which the lock has lapsed: until it lapses again at most one more fetch is created, on every continuation, if and only if no dispatch is past its claim while another is too or may still claim. |
| `DispatchRaces.OneFetchIff` | specter-api/scraper/dispatch-lock.ts:7-14 | From a free lock, at most one fetch is created on every run with so many expiries if and only if there are none or only one dispatch runs; with any expiry, every dispatch may create one. |
| `DispatchLock.InvStep` | specter-api/scraper/scheduler.ts:57-103 | Every single Redis or queue operation, and lock expiry, keeps the protocol invariant. |
| `DispatchLock.NextIsRelied` | specter-api/scraper/scheduler.ts:57-103 | What one dispatcher does is always within what every other dispatcher relies on. |
| `DispatchLock.Redis.DispatchScrapeJob` | specter-api/scraper/scheduler.ts:44-103 | Whatever others do between its operations, its own are exactly those of the machine's dispatcher from the first read to the answer, so the job it returns exists and serves the caller's ids. Undisturbed, a held lock means that nothing is queued and the holder's batch gains exactly the ids; a free one, that one job with exactly the ids is queued and holds the lock. A blocked domain changes nothing. |
| `DispatchLock.HeldLockIsJoined` | specter-api/scraper/scheduler.ts:56-70 | An undisturbed dispatch that finds the lock held changes nothing but the holder's batch set, by exactly its ids, and says it was batched. |
| `DispatchLock.FreeLockIsTaken` | specter-api/scraper/scheduler.ts:81-88 | An undisturbed dispatch that finds the lock free adds exactly one job with exactly its ids and leaves the lock on it. |
| `DispatchCalls.CallIsARun` | specter-api/scraper/scheduler.ts:44-103 | A call whose interference comes from other dispatchers is a run of the machine: same world, same answer; what is proved of all runs holds of calls. |
| `DispatchCalls.OthersAreRelied` | specter-api/scraper/scheduler.ts:57-103 | What any number of steps of other dispatchers, and the clock, do while a call waits is within what it relies on. |
| `DispatchCalls.CallJoinsTheRace` | specter-api/scraper/scheduler.ts:81-96 | A call that races others without lock expiry answers with the one job that is left when all have returned, and that job serves every caller's ids. |
| `DispatchLock.Redis.ClaimDomainLock` | specter-api/scraper/dispatch-lock.ts:44-57 | The claim is won exactly if the lock is free, and then the lock is on the candidate; a loss reports who holds it by then, another live job or none if its lock has expired. |
| `DispatchLock.WorkerServesTheUnion` | specter-api/scraper/batch-set.ts:50-58 | The ids the worker computes are exactly the job's own and the batched ones, the job's own first. |
| `Seqs.DedupeKeepsMembers` | specter-api/scraper/batch-set.ts:57 | De-duplication keeps every member and each only once. |
| `RateLimiter.RateBound` | specter-api/scraper/workers/rate-limiter.ts:62-80 | Over any stretch of calls, allowed and refused mixed, at most limit + elapsed * limit / window are allowed. |
| `RateLimiter.TokensBounded` | specter-api/scraper/workers/rate-limiter.ts:68-79 | Tokens stay in [0, limit], and tokens plus admissions grow no faster than the refill. |
| `RateLimiter.TokensAreConserved` | specter-api/scraper/workers/rate-limiter.ts:68-79 | Over every run, what was in the bucket and what was refilled is in the bucket, was taken one token an allowed call, or was discarded by the cap: an equality. |
| `RateLimiter.NothingSpills` | specter-api/scraper/workers/rate-limiter.ts:68-79 | Nothing is discarded on a run that could not have filled the bucket, so tokens and admissions then add up exactly. |
| `RateLimiter.BurstIsExact` | specter-api/scraper/workers/rate-limiter.ts:68-79 | Of k calls at one instant exactly min(k, whole tokens) are allowed - from a missing or full bucket, whole tokens of the limit - and each takes one. |
| `RateLimiter.ExpiryInvisible` | specter-api/scraper/workers/rate-limiter.ts:84-101 | On every run the expiring bucket gives the same answers and state as one that never expires. |
| `RateLimiter.IdleWindowFills` | specter-api/scraper/workers/rate-limiter.ts:90-95 | After one idle window the stored bucket decides as a missing one does. |
| `RateLimiter.AllowedIffReady` | specter-api/scraper/workers/rate-limiter.ts:70-79 | A call is allowed exactly from the bucket's ready instant on, and a refusal does not move that instant. |
| `RateLimiter.RetryAfterIsExact` | specter-api/scraper/workers/rate-limiter.ts:74-77 | A refusal's retryAfterMs is the least whole number of milliseconds after which a retry succeeds, whatever refused calls came in between. |
| `RateLimiter.EverAllowsIff` | specter-api/scraper/workers/rate-limiter.ts:208-218 | A configured limit ever lets a call through if and only if it is at least one; a negative one refuses every call, whatever is stored, with no time to wait. |
| `RateLimiter.CrawlSpacing` | specter-api/scraper/workers/rate-limiter.ts:114-146 | With or without key expiry a run allows the same crawls, and no two of them closer than the delay. |
| `RateLimiter.CrawlRetryIsExact` | specter-api/scraper/workers/rate-limiter.ts:122-126 | A refused crawl is allowed exactly from its retryAfterMs on. |
| `RateLimiter.Limiter.CheckRateLimit` | specter-api/scraper/workers/rate-limiter.ts:202-220 | The script over the expiring key answers, and stores, what the domain's bucket as last written would, however long ago and under whatever limit; other domains keep theirs. |
| `RateLimiter.CrawlExpiryInvisibleIff` | specter-api/scraper/workers/rate-limiter.ts:129-146 | If the configured delay changes, expiry of the key stays invisible if and only if the new delay is at most twice the one that stamped it. |
| `RateLimiter.RaisedDelayIsBrokenOnce` | specter-api/scraper/workers/rate-limiter.ts:129-146 | After a change of the delay, over every run, only the first crawl can come too early, and not before twice the old delay; all later ones keep the new delay. |
| `RateLimiter.Limiter.EnforceCrawlDelay` | specter-api/scraper/workers/rate-limiter.ts:154-171 | The gate decides on what is left of the key, and as the timestamp itself would while the key's life covers the delay; a refusal stores nothing. |
| `ConcurrencyLease.InFlightBound` | specter-api/scraper/workers/rate-limiter.ts:180-194 | Over every run the counter stays in [0, max]; the requests really in flight exceed it by at most one ceiling per expiry and one per spare release, and not at all without either. |
| `ConcurrencyLease.BoundIsMet` | specter-api/scraper/workers/rate-limiter.ts:180-194 | For every ceiling and any number of expiries and of spare releases the bound is reached exactly, so it is tight in both. |
| `ConcurrencyLease.CeilingIsHardIff` | specter-api/scraper/workers/rate-limiter.ts:174-194 | Every run with so many expiries and spare releases keeps to the ceiling if and only if there are none of either (or the ceiling is zero). |
| `ConcurrencyLease.Slots.AcquireSlot` | specter-api/scraper/workers/rate-limiter.ts:223-233 | A slot is granted, and counted, exactly below the ceiling; other domains are untouched. |
| `ConcurrencyLease.Slots.ReleaseSlot` | specter-api/scraper/workers/rate-limiter.ts:236-238 | A release takes one off a positive counter and never takes it below zero; other domains are untouched. |
| `ProxyManager.RotationIsFair` | specter-api/scraper/proxy/manager.ts:252-269 | Whatever happens to scores and clock: while the same proxies of a pool of distinct URLs are non-cooling, as many consecutive picks return each of them exactly once, wherever the cursor stands. |
| `ProxyManager.NextRound` | specter-api/scraper/proxy/manager.ts:153-191 | The same of consecutive domain-less calls of next, between which the health map and the clock change. |
| `ProxyManager.PickMissesIffCooling` | specter-api/scraper/proxy/manager.ts:247-251 | A pick comes back empty exactly when the whole pool is cooling. |
| `ProxyManager.Manager.Create` | specter-api/scraper/proxy/manager.ts:124-131 | A configuration is refused exactly when it has no proxy at all. |
| `ProxyManager.Manager.PickHealthy` | specter-api/scraper/proxy/manager.ts:252-269 | Returns the first non-cooling proxy from the cursor and moves only that tier's cursor past it. |
| `ProxyManager.Manager.Next` | specter-api/scraper/proxy/manager.ts:153-191 | Only configured, non-cooling proxies are returned; it fails exactly when both tiers are cooling. A pin of the tier and domain whose window is open and whose proxy does not cool is returned, and nothing changes; otherwise the pick is a fresh one, the cursor it came from moves just past it, and it is pinned for the window. |
| `ProxyManager.Manager.SameProxyWithinTheWindow` | specter-api/scraper/proxy/manager.ts:145-163 | Once next has returned a proxy for a tier and domain, every later call for them within the window returns it and changes nothing, whatever other calls, bans of other proxies, successes and refreshes come between, while it is not cooling; a fresh assignment lasts the whole window. |
| `ProxyManager.Manager.PinLasts` | specter-api/scraper/proxy/manager.ts:155-163 | No run of such events touches the pin. |
| `ProxyManager.Manager.AnswerIsSound` | specter-api/scraper/proxy/manager.ts:165-191 | The function of the whole call: configured, non-cooling, refused exactly when both tiers cool, cursors and pins kept in range. |
| `ProxyManager.Manager.FreshPickIsSound` | specter-api/scraper/proxy/manager.ts:169-182 | A fresh pick uses the other tier, and its cursor, only if the requested one is entirely cooling. |
| `ProxyManager.Manager.ReportFailure` | specter-api/scraper/proxy/manager.ts:198-208 | A ban cools the IP for the whole cooldown, mirrors that past its end, and releases every domain pinned to it. |
| `ProxyManager.Manager.ReportSuccess` | specter-api/scraper/proxy/manager.ts:214-220 | A success raises the score up to the ceiling, ends the cooldown and overwrites the mirror with that. |
| `ProxyManager.Manager.ReportResult` | specter-api/scraper/proxy/manager.ts:227-233 | Ban statuses lower the score, cool the IP and unpin it; any other status raises the score and makes it available; either is mirrored, and no other IP changes. |
| `ProxyManager.BanReachesOtherPod` | specter-api/scraper/proxy/redis-health-store.ts:62-85 | If a pod refreshes during a ban, with nothing in between, its next call does not return the IP before the ban ends, not even for a pinned domain. |
| `ProxyFleet.BanIsHonoured` | specter-api/scraper/proxy/redis-health-store.ts:62-85 | Over all runs of bans, successes and refreshes on any number of pods: a pod that refreshes during a ban withholds the IP until its end, if no pod reports a success for it before that refresh and this pod none after. |
| `ProxyFleet.BanIsHonouredAtHome` | specter-api/scraper/proxy/manager.ts:193-203 | The banning pod withholds the IP until the ban ends unless it reports a success itself. |
| `ProxyFleet.WithheldIffLearnt` | specter-api/scraper/proxy/redis-health-store.ts:48-85 | After one ban on another pod, until it ends, a pod withholds the IP if and only if it refreshed before any success for it anywhere and has reported none itself since. |
| `ProxyFleet.SuccessErasesABan` | specter-api/scraper/proxy/redis-health-store.ts:48-55 | A witness: one success on a pod that does not know of the ban erases it for every pod that refreshes later. |
| `ProxyHealth.HealthStore.Set` | specter-api/scraper/proxy/redis-health-store.ts:48-60 | A write is local and mirrored, replacing what any pod had mirrored, and the mirror outlives the cooldown by the grace. |
| `ProxyHealth.HealthStore.RefreshOnce` | specter-api/scraper/proxy/redis-health-store.ts:63-85 | Every known IP with a readable mirror adopts the stricter view; nothing else changes, and nothing at all when Redis is down. |
| `ProxyHealth.MergeIsStrictest` | specter-api/scraper/proxy/redis-health-store.ts:78-82 | Merging takes the later cooldown and the lower score, never a value nobody held, and does not depend on order or repetition. |
| `ProxyHealth.ReportsAddUp` | specter-api/scraper/proxy/manager.ts:198-220 | Each ban costs the penalty down to zero, each success regains the recovery up to the ceiling, and the latest report decides whether the proxy cools. |
| `Ingest.Endpoint.Ingest` | specter-api/routers/internal.py:269-359 | One call leaves the world of the specification and reports exactly how many rows it stored, items it received and distinct merchants completed a cycle. |
| `Ingest.FireCycleSignals` | specter-api/routers/internal.py:254-265 | Signals run once for each merchant with a completed cycle, however many of its cycles completed. |
| `Ingest.Endpoint.Partition` | specter-api/routers/internal.py:275-303 | Excluded items are only audited; the unchanged ones are split from those to store. |
| `Ingest.Endpoint.Split` | specter-api/routers/internal.py:307-315 | Uuid-bearing items are deduplicated within the batch, first one kept; the rest keep their order. |
| `Ingest.Endpoint.ScrapeFailed` | specter-api/routers/internal.py:381-400 | A failed scrape counts its cycle slots in order, is audited and is charged, and reports for how many merchants a cycle completed; no table changes. |
| `IngestProperties.BatchAccounting` | specter-api/routers/internal.py:269-359 | For every batch, received = excluded + inserted + unchanged + stored before + repeated in the batch, each item having one fate. |
| `IngestProperties.FatesAreTheItems` | specter-api/routers/internal.py:269-327 | Not only the numbers: exactly the items with the fate of an insert become rows and exactly those with the fate of a skip are skipped, each as often as sent. |
| `IngestProperties.AuditsNameTheFates` | specter-api/routers/internal.py:275-355 | One audit entry for each item not stored already, naming its fate: the excluded first, then the stored, then the unchanged. |
| `IngestProperties.NoUuidStoredTwice` | specter-api/routers/internal.py:215-234 | No ingest ever leaves two rows with the same job uuid. |
| `IngestProperties.ReplayIsNoOp` | specter-api/routers/internal.py:329-341 | With skip-write off, re-sending a batch of uuid-bearing items changes no snapshot, alert, counter, fire or cost. |
| `IngestProperties.RetriedBatchIsNoOpIff` | specter-api/routers/internal.py:269-355 | Re-sending a batch whose admitted items are all stored changes audits only if and only if skip-write takes none of them as unchanged; tables never change, and each skipped item is charged again. |
| `IngestProperties.RetryIsNoOpIffNotSkipped` | specter-api/routers/internal.py:343-355 | In particular so of a retried snapshot; a skipped one counts its own cycles and cost again. |
| `IngestProperties.SkipWriteIsTransparent` | specter-api/routers/internal.py:146-164 | For every sequence of fresh single-snapshot ingests and tracking changes, skip-write on and off give the same alerts, newest values, cycle counters, fires and costs, from no more rows. |
| `BatchTransparency.NewestAgreesIffClashFree` | specter-api/routers/internal.py:167-182 | For every insert, and however ties are read, skipping its unchanged items leaves all newest values the same if and only if no URL ends in a skipped repeat, or in a tie, while the insert also brings another value for it. |
| `BatchTransparency.InsertsOfTheRuns` | specter-api/routers/internal.py:293-327 | With new uuids, skip-write inserts exactly the changed items of what it would insert otherwise, in the same order. |
| `SkipWriteRuns.CallKeepsCountsIff` | specter-api/routers/internal.py:293-355 | One batch leaves newest values, cycle counters and flags, signal runs and costs the same with the flag on and off, whatever is read on ties, if and only if it is free of such clashes. |
| `SkipWriteRuns.RunsAgree` | specter-api/routers/internal.py:146-164 | So over every run of clash-free batches with new uuids and of tracking changes, whatever tied rows the detections of either run read; and the alerts agree too if each batch brings each URL one value. |
| `SkipWriteRuns.TransparentIffUniform` | specter-api/routers/internal.py:146-164 | A batch is transparent, alerts included, from every state with unambiguous newest values and on every reading of ties, if and only if it brings no URL two different values. |
| `SkipWriteRuns.EndpointIsACall` | specter-api/routers/internal.py:317-331 | The endpoint's own call is such a call, reading rows the database may give. |
| `SkipWriteRuns.ClashFreeAlertsMayDiffer` | specter-api/routers/internal.py:293-331 | A witness that freedom from clashes is not enough for the alerts. |
| `IngestProperties.BatchesAreNotTransparent` | specter-api/routers/internal.py:293-303 | A witness of a clash: a value that changes and changes back in a batch is dropped and the wrong price stays newest. |
| `IngestProperties.FailureAdvancesLikeSuccess` | specter-api/routers/internal.py:386-398 | A failed scrape advances cycles, fires and costs exactly as a counted snapshot with the same slots, so a banned URL cannot stall a cycle. |
| `IngestProperties.AlertsStayJustified` | specter-api/signals/oos_detector.py:66-93 | Over all runs of single-snapshot ingests, retries included, and tracking changes, each tracking has at most one unresolved alert and only while its URL's newest snapshot is out of stock. |
| `OosDetector.AlertSession.DetectAndWrite` | specter-api/signals/oos_detector.py:51-93 | A restock resolves the URL's alerts; a stock-out adds the reported alerts to enabled, unsilenced trackings without an active one; nothing else changes. |
| `OosDetector.AlertSession.ResolveAlerts` | specter-api/signals/oos_detector.py:162-170 | Exactly the alerts of the URL's trackings become resolved. |
| `OosDetector.StockOutAlertsTheConcerned` | specter-api/signals/oos_detector.py:77-91 | A stock-out leaves exactly the URL's enabled, unsilenced trackings, and those already alerted, with an active alert. |
| `OosDetector.StockOutIsAlerted` | specter-api/signals/oos_detector.py:28-40 | After storing an out-of-stock snapshot of a URL that had none, or whose newest was in stock, exactly the URL's enabled, unsilenced trackings have gained an active alert if they had none. |
| `OosDetector.RestockIsResolved` | specter-api/signals/oos_detector.py:43-46 | After an in-stock snapshot of a URL whose newest was out of stock, none of its trackings has an active alert, and no other loses one. |
| `OosDetector.RestockResolvesTheUrl` | specter-api/signals/oos_detector.py:162-170 | A restock leaves no tracking of the URL with an active alert and every other tracking as it was. |
| `OosDetector.StoreKeepsAlertInv` | specter-api/signals/oos_detector.py:29-46 | Storing and detecting one snapshot keeps alerts unique and justified. |
| `OosDetector.SameStockIsSilent` | specter-api/signals/oos_detector.py:66-75 | A snapshot that repeats the newest stock state changes no alert. |
| `OosDetector.RaiseKeeps` | specter-api/signals/oos_detector.py:81-91 | The creation loop never gives a tracking a second active alert and alerts only the URL's trackings. |
| `AlertBatches.BatchKeepsAlertsIffSafe` | specter-api/routers/internal.py:317-331 | A batch keeps every alert justified, from every state and however the database orders rows that tie, if and only if no in-stock snapshot of it ties with a later one of its URL, or is the one an in-stock, uuid-less last snapshot may read before it. |
| `AlertBatches.OneEachIsSafe` | specter-api/routers/internal.py:317-331 | A batch that has each URL at most once is safe. |
| `AlertBatches.LaterOutIsSafe` | specter-api/routers/internal.py:317-327 | So is one whose in-stock, uuid-bearing snapshot is followed by a uuid-less one out of stock, which is stamped later. |
| `AlertBatches.SafeRunsKeepAlerts` | specter-api/signals/oos_detector.py:98-113 | Over every run of safe batches and tracking changes, whatever tied rows the queries read, the alerts stay unique and justified. |
| `SnapshotTies.ReadsTheBatch` | specter-api/signals/oos_detector.py:98-113 | A query for the newest other row of a URL may read exactly the batch's latest ones by timestamp, where all uuid-bearing rows of one insert tie. |
| `AlertBatches.IngestIsABatch` | specter-api/routers/internal.py:317-331 | One ingest stores all new rows first, uuid-bearing ones in one statement, and then detects on each, reading rows the database may give. |
| `ScrapeScheduler.FoldsAgree` | specter-api/services/dispatcher.py:56-65 | The separate folds for interval, cap and fastest plan always pick the same tracker. |
| `ScrapeScheduler.ComputeIntervalForPlans` | specter-api/services/scrape_scheduler.py:27-34 | Returns the smallest interval among the plans, never more than RECON's. |
| `ScrapeScheduler.ComputeCapForPlans` | specter-api/services/scrape_scheduler.py:53-68 | Returns the cap of a plan whose floor is the smallest, or RECON's if none is below it. |
| `ScrapeScheduler.ComputeFastestPlan` | specter-api/services/dispatcher.py:56-65 | Returns a plan whose own interval is the URL's interval. |
| `ScrapeScheduler.NeverStalerIffInStep` | specter-api/services/scrape_scheduler.py:71-77 | A shared crawl is never staler than any tracker alone, for all plans and streaks, if and only if the ECLIPSE setting is absent, under one hour, or at least six hours. |
| `ScrapeScheduler.EffectiveIsTheFastestPlans` | specter-api/services/scrape_scheduler.py:71-77 | The interval ignores order and number of trackers, never shrinks with the streak, lies between the fastest plan's floor and cap, and is the fastest plan's own. |
| `ScrapeScheduler.BackoffDoubles` | specter-api/services/scrape_scheduler.py:44-77 | A changed URL runs at its fastest plan's interval; every three unchanged scrapes double it up to the cap, which nine reach. |
| `ScrapeScheduler.TwinsAgreeIff` | specter-api/scraper/plans.ts:59-75 | The two schedulers agree on one tracker for all streaks if and only if its ECLIPSE setting is below six hours. |
| `ScrapeScheduler.ComputeNextRunAfter` | specter-api/services/scrape_scheduler.py:85-90 | The loop ends strictly after now, on the phase, at most max(interval, offset) ahead. |
| `ScrapeScheduler.TightIffOffsetFits` | specter-api/services/scrape_scheduler.py:85-90 | The wait is never over one interval if and only if the offset is at most one interval. |
| `ScrapeScheduler.NextRunIsUnique` | specter-api/services/scrape_scheduler.py:85-90 | With a fitting offset the result is the only slot of the phase in the next interval. |
| `ScrapeScheduler.SteadyGap` | specter-api/services/dispatcher.py:129-130 | From a slot to the next is max(1, offset / interval) whole intervals: one if the offset fits, and a stale larger offset keeps the old cadence. |
| `UrlSchedule.Dispatcher.RefreshUrlSchedule` | specter-api/services/dispatcher.py:224-241 | One row is rescheduled from its enabled trackings or paused; an existing offset is kept and a missing one becomes the hash within the interval; block and last scrape stay, and no other row changes. |
| `UrlSchedule.Dispatcher.HealUnscheduledUrls` | specter-api/services/dispatcher.py:244-263 | Only stuck tracked URLs are rescheduled, as many as the limit allows and all of them if it covers them, and the count is exact. |
| `UrlSchedule.Dispatcher.ClaimDueUrls` | specter-api/services/dispatcher.py:159-173 | Distinct unblocked URLs whose next run is not after now, the earliest first, as many as the limit allows and all of them if it covers them. |
| `UrlSchedule.Dispatcher.DispatchDue` | specter-api/services/dispatcher.py:268-315 | Each claimed URL is dispatched or paused as it stood, one job per tracked one, its slots opened and its scrape stamped; blocks stay. |
| `UrlSchedule.Dispatcher.Tick` | specter-api/services/dispatcher.py:318-344 | A tick leaves no unblocked URL due if and only if its limit covers those that were, and likewise none stuck; it enqueues at most one job for a URL, only for due and tracked ones. |
| `UrlSchedule.RoundsDispatchAll` | specter-api/services/dispatcher.py:279-312 | The rounds of the dispatch loop do not interfere: together they dispatch every claimed row as it stood at the start. |
| `UrlSchedule.RefreshedIsFuture` | specter-api/services/dispatcher.py:230-241 | A refreshed row is scheduled exactly if tracked, and then strictly in the future. |
| `UrlSchedule.PhaseIsKept` | specter-api/services/dispatcher.py:238-241 | A URL's offset never changes once set, and each slot it is given lies on that phase, after now and at most max(interval, offset) ahead. |
| `UrlSchedule.NewUrlTakesItsPhase` | specter-api/services/scrape_scheduler.py:80-90 | A URL without a phase, refreshed or dispatched, takes the hash within its interval, and its next run is at that phase, at most an interval on. |
| `UrlSchedule.SpreadByHash` | specter-api/services/scrape_scheduler.py:4-8 | Two new URLs of one interval, refreshed together, fall due in the same millisecond if and only if their hashes agree within the interval: no boundary burst. |
| `UrlSchedule.ReschedulingKeepsTheRest` | specter-api/services/dispatcher.py:224-241 | Rescheduling touches no block; only a dispatch of a tracked URL stamps the last scrape; an untracked one only loses its next run. |
| `UrlSchedule.HealedAreNotDue` | specter-api/services/dispatcher.py:336-342 | Healing makes nothing due and unsticks exactly what it chose. |
| `UrlSchedule.JobsAreDistinct` | specter-api/services/dispatcher.py:159-161 | No URL is dispatched twice in one claim. |
| `UrlScheduleRuns.Routes.AddCompetitor` | specter-api/routers/competitors.py:263-312 | A product and URL pair ever tracked is refused without change; otherwise exactly one enabled tracking is added, the row is created unblocked if missing and scheduled in the future, and no other row changes. |
| `UrlScheduleRuns.Routes.DeleteCompetitor` | specter-api/routers/competitors.py:335-356 | Only the owner's tracking is found; it alone is disabled, and only its URL is rescheduled. |
| `UrlScheduleRuns.Routes.CascadeDeleteSku` | specter-api/routers/skus.py:195-230 | All trackings of the product go, no other, and every URL they were on is rescheduled. |
| `UrlScheduleRuns.RunsStayCoherent` | specter-api/services/dispatcher.py:224-263 | Over all runs of add, disable, cascade-delete, register, block, re-plan, heal and dispatch steps, a URL is scheduled if and only if it has an enabled tracking. |
| `UrlScheduleRuns.RunsFromEmptyStayCoherent` | specter-api/services/dispatcher.py:224-263 | In particular over every run of a new installation. |
| `UrlScheduleRuns.BlockedForGood` | specter-api/routers/internal.py:409-413 | Once its domain is blocked, a URL is never due again over any run. |
| `UrlScheduleRuns.TickRepairs` | specter-api/services/dispatcher.py:244-263 | From any state, a tick with enough limit schedules every unblocked tracked URL in the future and schedules no untracked one. |
| `UrlScheduleRuns.JobServesEveryTracker` | specter-api/services/dispatcher.py:132-154 | A job carries all enabled trackings of its URL and no others, and one cycle slot for each of their merchants. |
| `UrlScheduleRuns.JobIsCurrent` | specter-api/services/dispatcher.py:132-153 | A job has the priority of its most demanding tracker, and each slot is its merchant's current cycle at that merchant's own interval; its time to live is that interval plus the grace. |
| `UrlScheduleRuns.CyclesPerMerchant` | specter-api/services/dispatcher.py:132-141 | Each distinct merchant appears once, at the interval of one of its own trackings. |
| `UrlScheduleRuns.ExpectedCountsTheJobs` | specter-api/services/dispatcher.py:290-295 | EXPECTED of every cycle grows by exactly the slots the new jobs carry for it; DONE and the flags stay. |
| `UrlScheduleRuns.SoloOpeningIsDispatch` | specter-api/services/dispatcher.py:290-306 | Run alone, a claimed job of the barrier machine opens the same slots, and all of them before it is queued. |
| `UrlScheduleRuns.SharedCrawlIsNeverStaler` | specter-api/routers/merchants.py:353-357 | With the settings that the merchant routes accept, each tracker of a shared URL is crawled at least as often as alone, under its own merchant's setting. |
| `UrlScheduleRuns.SharedNeverStalerIff` | specter-api/services/scrape_scheduler.py:71-77 | Over any set of ECLIPSE settings that merchants may have, unset included: no tracker, plan mix or streak ever makes a shared crawl staler than a tracker's own if and only if every setting is under one hour or at least six, and an unset one never meets one over five minutes. |
| `Pricing.MedianCutsInHalf` | specter-api/signals/rule_engine.py:111-116 | At least half of the prices are at or below the median and at least half at or above it, and it lies between two of them. |
| `Pricing.MedianOfRearranged` | specter-api/signals/rule_engine.py:111-116 | The median does not depend on the order of the prices. |
| `Pricing.FallbackIsUnreachable` | specter-api/signals/rule_engine.py:107-114 | For positive prices the outlier guard always accepts some price, so the fallback is dead code; it accepts exactly those up to five medians. |
| `Pricing.NeverHeldAsLowest` | specter-api/signals/rule_engine.py:157-162 | The "lowest-priced option" HOLD is unreachable. |
| `Pricing.HoldMeansTopOfTheBand` | specter-api/signals/rule_engine.py:122-169 | LOWER means exactly more than 5% over the accepted median, even if some competitor charges more; then at least half of the accepted prices are strictly lower. A market HOLD means: at least every accepted price and at most 5% over their median. RAISE implies that one is higher. |
| `Pricing.SignalIs` | specter-api/signals/rule_engine.py:66-110 | No signal exactly without a positive own price; a HOLD of its own for no trackings and for nobody in stock; otherwise the rule's kind over the accepted prices. |
| `Pricing.OutOfStockIsIgnored` | specter-api/signals/rule_engine.py:79-110 | An out-of-stock competitor, wherever it stands and whatever its price, changes neither the kind of signal, while anyone is in stock, nor the repricing. |
| `Pricing.InStockMembers` | specter-api/signals/rule_engine.py:79-110 | A price counts exactly if some in-stock point has it. |
| `Pricing.Confidence` | specter-api/signals/rule_engine.py:80-94 | Confidence lies in 0.10..1.00: 0.20 a tracking up to 1.00 with two in stock, capped at 0.60 with fewer, 0.10 without trackings. |
| `Pricing.DecisionIsInBounds` | specter-api/services/repricer.py:81-105 | A decision is positive, changed and never below the floor; it exceeds the ceiling exactly when floor and ceiling are crossed; the clamp it reports is where it landed. |
| `Pricing.DecidesIff` | specter-api/services/repricer.py:63-105 | No decision exactly for a HOLD, nobody in stock, no positive current price, or a target that is not positive or is the current price; otherwise the target. |
| `Pricing.TargetInCents` | specter-api/services/repricer.py:70-96 | The target is one cent under the cheapest for RAISE, the rounded median less a cent for LOWER, capped by the ceiling, with the floor having the last word. |
| `Pricing.RepriceIsIdempotent` | specter-api/services/repricer.py:96-100 | At the decided price the same signal decides nothing more. |
| `Pricing.LowerLowersIff` | specter-api/services/repricer.py:77-100 | A LOWER decision lowers the price or does nothing if and only if floor <= current and either ceiling <= current or the median of all in-stock prices is under current + 0.015. |
| `Pricing.RaiseRaisesIff` | specter-api/services/repricer.py:70-100 | A RAISE decision raises the price or does nothing if and only if the floor, or both the ceiling and the undercut price, are at least the current price, or no positive price results. |
| `Pricing.LowerSignalLowers` | specter-api/services/repricer.py:70-105 | With no outlier discarded and floor <= current, a LOWER signal strictly lowers the price or does nothing; it does lower it if floor < current, the ceiling is positive and the median over a cent. |
| `Pricing.LowerSignalDecides` | specter-api/services/repricer.py:77-105 | With no outlier discarded and no bounds a LOWER signal always decides, if the median is over a cent, and strictly lowers the price to the rounded median less a cent. |
| `Pricing.RaiseSignalDecides` | specter-api/services/repricer.py:70-105 | Without bounds a RAISE signal moves the price to a cent under the cheapest, unless it is there or that is nothing. |
| `Pricing.LowerSignalSettles` | specter-api/signals/rule_engine.py:122-131 | After such a lowering, unless the floor stopped it, the next signal is not LOWER again. |
| `Pricing.TwoRoundsSettle` | specter-api/services/repricer.py:70-105 | From any price, with any bounds and outliers, signal and repricer decide nothing more after two rounds on an unchanged market; without a floor a second decision undercuts the cheapest competitor by a cent or stops at the ceiling. |
| `Pricing.LowerSignalCanRaise` | specter-api/services/repricer.py:77-80 | With an outlier discarded a LOWER signal can raise the price: 10, 100, 600 against 60 gives 99.99. |
| `Pricing.RaiseSignalCanLower` | specter-api/services/repricer.py:70-76 | A RAISE signal can lower the price: 90, 120 against 100 gives 89.99. |
| `Retention.Snapshots.DeleteSnapshotsBatched` | specter-api/services/retention.py:65-85 | The loop ends, removes exactly the matching rows and returns their number, whatever rows each LIMIT picks. |
| `Retention.Snapshots.PurgeExpiredSnapshots` | specter-api/services/retention.py:88-124 | Three passes leave exactly the rows the policy retains and report how many went. |
| `Retention.Snapshots.ScheduleDowngradeDeletion` | specter-api/services/retention.py:127-153 | Marks exactly the merchant's unmarked rows over 30 days on URLs no 90-day merchant tracks, and reports how many. |
| `Retention.PurgesCompose` | specter-api/services/retention.py:88-124 | While nobody's tracking or plan changes, an earlier purge never changes what a later one leaves, and purging twice removes nothing more. |
| `Retention.PurgesComposeIff` | specter-api/services/retention.py:88-124 | If they change in between, an earlier purge is harmless, whatever the rows, if and only if no URL gains a 90-day merchant or the later purge is at least 60 days on. |
| `Retention.GraceIsHonoured` | specter-api/services/retention.py:10-11 | Over every run of purges, downgrades and new snapshots, a marked row stays unaltered until the first purge at or after its mark, and goes then. |
| `Retention.DowngradeGivesAWeek` | specter-api/services/retention.py:127-153 | A row that a downgrade marks stays, unaltered, until the first purge seven days or more later, and goes then; rows of 90-day URLs are never marked. |
| `Retention.DowngradeSavesTheLapsed` | specter-api/services/retention.py:127-153 | A downgrade alters exactly the merchant's unmarked rows, on URLs no 90-day merchant tracks, that a purge at that instant would delete, and stamps them seven days ahead. |
| `Retention.CapIsHardIff` | specter-api/services/retention.py:93-111 | A purge leaves nothing older than 90 days if and only if no such row is inside a grace window. |
| `Retention.CapIsExceeded` | specter-api/services/retention.py:93-111 | A concrete row, 91 days old, that a purge keeps. |
| `CostLedger.Ledger.RecordScrapeCost` | specter-api/services/cost_ledger.py:69-91 | One fetch charges its tier once and each distinct merchant its share of each type. |
| `CostLedger.Ledger.RecordAiCost` | specter-api/services/cost_ledger.py:106-116 | The merchant's own AI slot of the day grows by the cost and its tokens; no other slot and no tier's spend moves; a free call leaves no trace. |
| `CostLedger.Ledger.FlushDaily` | specter-api/services/cost_ledger.py:140-155 | One row per cost counter of the day is upserted, no other row changes, and the count is exact. |
| `CostLedger.EachPaysItsShare` | specter-api/services/cost_model.py:61-63 | Every distinct merchant served pays cost / n and one unit for each type that costs anything; nobody else pays. |
| `CostLedger.FetchIsChargedOnce` | specter-api/services/cost_ledger.py:78-89 | The shares of a fetch add back to its full cost, on its own day only, and its proxy cost reaches the tier spend once. |
| `CostLedger.BilledAtTheTiersRate` | specter-api/services/cost_model.py:21-53 | Bandwidth costs its tier's rate a gigabyte, in proportion to the bytes; direct fetches and unknown tiers are free; a captcha costs its rate if solved. |
| `CostLedger.SpendGoesToItsTier` | specter-api/services/cost_ledger.py:79-82 | A fetch that served somebody adds its full proxy cost to its own tier's spend of the day and to no other. |
| `CostLedger.CostsAreConserved` | specter-api/services/cost_ledger.py:33-45 | Over every run, each day the merchants' proxy counters sum to the tiers' spend and their captcha counters to the captchas solved. |
| `CostLedger.FlushIsIdempotent` | specter-api/services/cost_ledger.py:140-141 | Flushing twice equals flushing once. |
| `CostLedger.FlushedTableIsConserved` | specter-api/services/cost_ledger.py:140-155 | After a flush the day's rows are exactly its counters, so the table's proxy total is what the tiers spent, however often it was flushed before. |

## Left out

- CycleBarrier.ExactlyOnceWhenItsSlotsLand: assumes that no enqueued job lands twice, and speaks of cycles whose jobs have all landed. The workers do not guarantee that a job lands: a page that parses to no price or fails validation returns without landing (specter-api/scraper/workers/http.ts:147-158 and 171-179), and the sweep that would cover it is not wired into the tick. EnqueuedAtMostOnce needs no such assumption.
- CycleBarrier.EnqueuedAtMostOnce: no sweep and no key expiry at this granularity. A cleanup between a recorder's read and its set-if-absent can let a second fire through, so the swept protocol is proved one whole call at a time in SweptCycles.
- SweptCycles.FiresAtMostOnce: one interval and grace for all merchants, as close_expired itself takes them; INCR and PEXPIRE of one write count as one step.
- DispatchLock.OneJobForEveryone: no lock expiry during the race (NoTrackerDropped and DispatchRaces allow it), one unblocked domain class and no worker consuming the job meanwhile; the batch set's own 30-minute life is not modelled.
- RateLimiter.Limiter.CheckRateLimit: requires a positive limit and a clock that does not go back for the domain. A configured limit of zero falls back to the default; a negative one is covered as a decision by EverAllowsIff, not over the stored key. Not modelled is the number formatting of Redis.
- RateLimiter.RateBound: one fixed limit over the run, as TokensBounded, ExpiryInvisible and RetryAfterIsExact; a changed limit is covered one call at a time.
- ProxyHealth.HealthStore.Set: the mirror write is taken to succeed; when it does not, the ban stays local to the pod. Keys hashed from URLs are taken to be distinct.
- ProxyFleet.BanIsHonoured: one cooldown for all pods, and no proxy of different URL shares a key.
- IngestProperties.SkipWriteIsTransparent: one snapshot a call, fresh uuids, and no currency, which the comparison ignores; batches are the subject of BatchTransparency and SkipWriteRuns, again without currency.
- IngestProperties.ReplayIsNoOp: audit rows are excepted, because re-sent excluded items are audited again.
- SkipWriteRuns.RunsAgree: a cycle's counters and flag are compared, not the instants at which its keys expire, and fires and costs without their order. For the alerts, bringing each URL one value is sufficient from any given state, and necessary only over all states.
- AlertBatches.BatchKeepsAlertsIffSafe: rows without a uuid, and rows of different calls, are taken to be stamped at different instants; only the uuid-bearing rows of one insert tie.
- Ingest.Endpoint.Ingest: the URL row of an item is resolved beforehand and notifications are not sent; of rows that tie it reads the last inserted, where SnapshotTies covers every order; and the signal runs are counted, not modelled.
- UrlScheduleRuns.RunsStayCoherent: the steps are atomic, as their transactions are; plan limits and the reachability check of add_competitor are not modelled.
- UrlSchedule.Dispatcher.Tick: one dispatcher at a time; the row locks that keep pods apart are not modelled. The hash of a URL is any number, and so is the streak.
- Retention.Snapshots.DeleteSnapshotsBatched: requires a positive batch size; with zero the original never ends.
- CostLedger.CostsAreConserved: exact reals, counters that do not expire before the flush, and lower-casing of ASCII letters only; the token rates of AI calls are a parameter, and sampled cost events are not modelled.
- Floating point: the median, percentages, tokens and costs are exact, where the code rounds binary fractions.
- HTTP, browser, CAPTCHA and parsing workers: a job is an environment step that ends in a landing.
- BullMQ internals, SQL text, indexes and migrations; the Gemini engine, emails and other best-effort side effects.
- Billing, trials, authentication, signatures, plan gates, URL validation, retry ladders and the Shopify update: easy members, or rests on services outside the repository.
- specter-web: the user interface.
