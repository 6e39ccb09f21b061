/** The router steps that change who tracks a URL (specter-api/routers/competitors.py,
    specter-api/routers/skus.py), and what every run of them keeps together with the
    dispatcher's steps of UrlSchedule. */
module UrlScheduleRuns {
  import opened Wrappers
  import opened CycleStore
  import opened Numbers
  import opened ScrapeScheduler
  import opened UrlSchedule
  import CycleBarrier
  import opened CycleCoordinator

  /* ---- The tables after each router step ---- */

  function Register(db: Db, url: string): Db {
    if url in db.urls then db else db.(urls := db.urls[url := UNSCHEDULED])
  }

  function RefreshOne(db: Db, env: Env, url: string, now: int): Db {
    if url in db.urls then db.(urls := db.urls[url := Refreshed(db, env, url, now)]) else db
  }

  function AddTracking(db: Db, env: Env, t: Tracking, now: int): Db {
    var registered := Register(db, t.url);
    RefreshOne(registered.(trackings := registered.trackings + [t]), env, t.url, now)
  }

  function Disable(ts: seq<Tracking>, id: string): seq<Tracking> {
    seq(|ts|, i requires 0 <= i < |ts| => if ts[i].id == id then ts[i].(enabled := false) else ts[i])
  }

  function DisableTracking(db: Db, env: Env, t: Tracking, now: int): Db {
    RefreshOne(db.(trackings := Disable(db.trackings, t.id)), env, t.url, now)
  }

  function WithoutSku(ts: seq<Tracking>, sku: string): (r: seq<Tracking>)
    ensures forall t :: t in r <==> t in ts && t.sku != sku
  {
    if ts == [] then [] else
      var before, t := WithoutSku(ts[..|ts| - 1], sku), ts[|ts| - 1];
      if t.sku == sku then before else before + [t]
  }

  function SkuUrls(ts: seq<Tracking>, sku: string): set<string> {
    set t | t in ts && t.sku == sku :: t.url
  }

  function DeleteSku(db: Db, env: Env, sku: string, now: int): Db {
    RefreshAll(db.(trackings := WithoutSku(db.trackings, sku)), env, SkuUrls(db.trackings, sku), now)
  }

  function BlockAll(db: Db, domain: set<string>): Db {
    db.(urls := map u | u in db.urls :: if u in domain then db.urls[u].(blocked := true) else db.urls[u])
  }

  /** A merchant's plan change is seen through the join by all its trackings. */
  function Replan(db: Db, merchant: string, plan: Plan, eclipse: Option<Millis>): Db {
    db.(trackings := seq(|db.trackings|, i requires 0 <= i < |db.trackings| =>
      if db.trackings[i].merchant == merchant then db.trackings[i].(plan := plan, eclipse := eclipse)
        else db.trackings[i]))
  }

  /* ---- The route handlers ---- */

  predicate IdsAreUnique(ts: seq<Tracking>) {
    forall i, j :: 0 <= i < j < |ts| ==> ts[i].id != ts[j].id
  }

  predicate TracksPair(ts: seq<Tracking>, sku: string, url: string) {
    exists t :: t in ts && t.sku == sku && t.url == url
  }

  class Routes {
    const dispatcher: Dispatcher

    constructor (dispatcher: Dispatcher)
      ensures this.dispatcher == dispatcher
    {
      this.dispatcher := dispatcher;
    }

    /** add_competitor past its plan gates. A pair that was ever tracked, even one since
        disabled, is refused and nothing changes. */
    method AddCompetitor(id: string, url: string, sku: string, merchant: string, plan: Plan, eclipse: Option<Millis>,
                         now: int)
        returns (created: bool)
      requires forall t :: t in dispatcher.db.trackings ==> t.id != id
      modifies dispatcher`db
      ensures created <==> !TracksPair(old(dispatcher.db).trackings, sku, url)
      ensures var t := Tracking(id, url, sku, merchant, plan, eclipse, true);
              dispatcher.db == if created then AddTracking(old(dispatcher.db), dispatcher.env, t, now)
                               else old(dispatcher.db)
      ensures created ==>
                && dispatcher.db.trackings
                   == old(dispatcher.db).trackings + [Tracking(id, url, sku, merchant, plan, eclipse, true)]
                && dispatcher.db.urls.Keys == old(dispatcher.db).urls.Keys + {url}
                && dispatcher.db.urls[url].nextRun.Some? && dispatcher.db.urls[url].nextRun.value > now
                && (url !in old(dispatcher.db).urls ==> !dispatcher.db.urls[url].blocked)
                && forall u :: u in dispatcher.db.urls && u != url ==>
                     dispatcher.db.urls[u] == old(dispatcher.db).urls[u]
    {
      var db := dispatcher.db;
      for i := 0 to |db.trackings|
        invariant !TracksPair(db.trackings[..i], sku, url)
      {
        assert db.trackings[i] in db.trackings;
        if db.trackings[i].sku == sku && db.trackings[i].url == url {
          return false;
        }
        assert db.trackings[..i + 1] == db.trackings[..i] + [db.trackings[i]];
      }
      assert db.trackings[..|db.trackings|] == db.trackings;
      if url !in db.urls {
        dispatcher.db := dispatcher.db.(urls := db.urls[url := UNSCHEDULED]);
      }
      var t := Tracking(id, url, sku, merchant, plan, eclipse, true);
      dispatcher.db := dispatcher.db.(trackings := db.trackings + [t]);
      assert dispatcher.db.trackings[..|db.trackings|] == db.trackings;
      assert Tracked(dispatcher.db, url);
      RefreshedIsFuture(dispatcher.db, dispatcher.env, url, now);
      dispatcher.RefreshUrlSchedule(url, now);
      created := true;
    }

    /** delete_competitor: only the owner's tracking is found, and only it is disabled. */
    method DeleteCompetitor(id: string, merchant: string, now: int) returns (deleted: Option<Tracking>)
      requires IdsAreUnique(dispatcher.db.trackings)
      modifies dispatcher`db
      ensures deleted.None? <==> forall t :: t in old(dispatcher.db).trackings && t.id == id ==> t.merchant != merchant
      ensures deleted.Some? ==>
                && deleted.value in old(dispatcher.db).trackings && deleted.value.id == id
                && deleted.value.merchant == merchant
      ensures dispatcher.db ==
              if deleted.Some? then DisableTracking(old(dispatcher.db), dispatcher.env, deleted.value, now)
                               else old(dispatcher.db)
      ensures deleted.Some? ==>
                && |dispatcher.db.trackings| == |old(dispatcher.db).trackings|
                && (forall i :: 0 <= i < |dispatcher.db.trackings| ==>
                      var was := old(dispatcher.db).trackings[i];
                      dispatcher.db.trackings[i] == if was.id == id then was.(enabled := false) else was)
                && dispatcher.db.urls.Keys == old(dispatcher.db).urls.Keys
                && forall u :: u in dispatcher.db.urls && u != deleted.value.url ==>
                     dispatcher.db.urls[u] == old(dispatcher.db).urls[u]
    {
      var ts := dispatcher.db.trackings;
      var i := 0;
      while i < |ts| && ts[i].id != id
        invariant 0 <= i <= |ts| && forall k :: 0 <= k < i ==> ts[k].id != id
      {
        i := i + 1;
      }
      if i == |ts| || ts[i].merchant != merchant {
        return None;
      }
      deleted := Some(ts[i]);
      dispatcher.db := dispatcher.db.(trackings := ts[i := ts[i].(enabled := false)]);
      assert dispatcher.db.trackings == Disable(ts, id);
      if ts[i].url in dispatcher.db.urls {
        dispatcher.RefreshUrlSchedule(ts[i].url, now);
      }
    }

    /** cascade_delete_sku: the affected URLs are captured before the trackings go. */
    method CascadeDeleteSku(sku: string, now: int) returns (rescheduled: nat)
      modifies dispatcher`db
      ensures dispatcher.db == DeleteSku(old(dispatcher.db), dispatcher.env, sku, now)
      ensures rescheduled == |SkuUrls(old(dispatcher.db).trackings, sku)|
      ensures forall t :: t in dispatcher.db.trackings <==> t in old(dispatcher.db).trackings && t.sku != sku
      ensures forall u :: u in dispatcher.db.urls <==> u in old(dispatcher.db).urls
      ensures forall u :: u in dispatcher.db.urls
                          && (forall t :: t in old(dispatcher.db).trackings && t.sku == sku ==> t.url != u) ==>
                dispatcher.db.urls[u] == old(dispatcher.db).urls[u]
    {
      var ts := dispatcher.db.trackings;
      var affected, kept := {}, [];
      for i := 0 to |ts|
        invariant affected == SkuUrls(ts[..i], sku)
        invariant kept == WithoutSku(ts[..i], sku)
      {
        assert ts[..i + 1] == ts[..i] + [ts[i]] && ts[..i + 1][..i] == ts[..i];
        if ts[i].sku == sku {
          affected := affected + {ts[i].url};
        } else {
          kept := kept + [ts[i]];
        }
      }
      assert ts[..|ts|] == ts;
      dispatcher.db := dispatcher.db.(trackings := kept);
      dispatcher.RefreshUrls(affected, now);
      rescheduled := |affected|;
    }
  }

  /* ---- Runs ---- */

  datatype Event =
    | Added(t: Tracking)
    | Deleted(t: Tracking)
    | SkuDeleted(sku: string)
    | Seen(url: string)                  // ingest's get-or-create
    | Blocked(domain: set<string>)       // domain-blocked
    | Replanned(merchant: string, plan: Plan, eclipse: Option<Millis>)
    | Healed(chosen: set<string>)
    | Claimed(due: set<string>)          // dispatch_due

  datatype Moment = Moment(env: Env, now: int, event: Event)

  /** What the handlers check, or their queries select, before the step. */
  predicate Enabling(db: Db, m: Moment) {
    match m.event
    case Added(t) =>
      t.enabled && !TracksPair(db.trackings, t.sku, t.url) && forall u :: u in db.trackings ==> u.id != t.id
    case Deleted(t) => t in db.trackings
    case Healed(chosen) => forall u :: u in chosen ==> Stuck(db, u)
    case Claimed(due) => forall u :: u in due ==> Due(db, u, m.now)
    case _ => true
  }

  function Apply(db: Db, m: Moment): Db {
    match m.event
    case Added(t) => AddTracking(db, m.env, t, m.now)
    case Deleted(t) => DisableTracking(db, m.env, t, m.now)
    case SkuDeleted(sku) => DeleteSku(db, m.env, sku, m.now)
    case Seen(url) => Register(db, url)
    case Blocked(domain) => BlockAll(db, domain)
    case Replanned(merchant, plan, eclipse) => Replan(db, merchant, plan, eclipse)
    case Healed(chosen) => RefreshAll(db, m.env, chosen, m.now)
    case Claimed(due) => DispatchAll(db, m.env, due, m.now)
  }

  function Run(db: Db, ms: seq<Moment>): Db {
    if ms == [] then db else
      var before := Run(db, ms[..|ms| - 1]);
      if Enabling(before, ms[|ms| - 1]) then Apply(before, ms[|ms| - 1]) else before
  }

  lemma {:induction false} EnabledRows(ts: seq<Tracking>, url: string)
    ensures forall t :: t in Enabled(ts, url) <==> t in ts && t.url == url && t.enabled
  {
    if ts == [] {
    } else {
      EnabledRows(ts[..|ts| - 1], url);
    }
  }

  lemma TrackedIff(db: Db, url: string)
    ensures Tracked(db, url) <==> exists t :: t in db.trackings && t.url == url && t.enabled
  {
    EnabledRows(db.trackings, url);
    if Tracked(db, url) {
      assert Enabled(db.trackings, url)[0] in Enabled(db.trackings, url);
    }
  }

  /** A URL is scheduled exactly when somebody tracks it. */
  predicate ScheduledIffTracked(db: Db) {
    forall u :: u in db.urls ==> (db.urls[u].nextRun.Some? <==> Tracked(db, u))
  }

  /** The keys of the trackings table: the id, the (product, URL) pair and the URL's row. */
  predicate KeysHold(ts: seq<Tracking>, urls: set<string>) {
    && IdsAreUnique(ts)
    && (forall i, j :: 0 <= i < j < |ts| && ts[i].sku == ts[j].sku ==> ts[i].url != ts[j].url)
    && (forall i :: 0 <= i < |ts| ==> ts[i].url in urls)
  }

  predicate Coherent(db: Db) {
    ScheduledIffTracked(db) && KeysHold(db.trackings, db.urls.Keys)
  }

  lemma {:induction false} SameTracks(ts: seq<Tracking>, ts': seq<Tracking>, url: string)
    requires |ts| == |ts'|
    requires forall i :: 0 <= i < |ts| && (ts[i].url == url || ts'[i].url == url) ==>
               ts[i].url == ts'[i].url && ts[i].enabled == ts'[i].enabled
    ensures Enabled(ts, url) == [] <==> Enabled(ts', url) == []
  {
    if ts == [] {
    } else {
      SameTracks(ts[..|ts| - 1], ts'[..|ts| - 1], url);
    }
  }

  /** Refreshing the URLs whose trackings changed restores the link for all. */
  lemma RefreshRestores(db: Db, db': Db, env: Env, urls: set<string>, now: int)
    requires ScheduledIffTracked(db) && db'.urls == db.urls
    requires forall u :: u in db.urls && u !in urls ==> (Tracked(db', u) <==> Tracked(db, u))
    ensures ScheduledIffTracked(RefreshAll(db', env, urls, now))
  {
    var after := RefreshAll(db', env, urls, now);
    forall u | u in after.urls
      ensures after.urls[u].nextRun.Some? <==> Tracked(after, u)
    {
      RefreshedIsFuture(db', env, u, now);
    }
  }

  lemma RefreshOneIsAll(db: Db, env: Env, url: string, now: int)
    ensures RefreshOne(db, env, url, now) == RefreshAll(db, env, {url}, now)
  {
    assert RefreshOne(db, env, url, now).urls == RefreshAll(db, env, {url}, now).urls;
  }

  lemma KeysHoldAlso(ts: seq<Tracking>, urls: set<string>, t: Tracking)
    requires KeysHold(ts, urls) && !TracksPair(ts, t.sku, t.url) && forall u :: u in ts ==> u.id != t.id
    ensures KeysHold(ts + [t], urls + {t.url})
  {
    forall i | 0 <= i < |ts|
      ensures ts[i].id != t.id && (ts[i].sku == t.sku ==> ts[i].url != t.url)
    {
      assert ts[i] in ts;
    }
  }

  lemma AddedKeeps(db: Db, env: Env, t: Tracking, now: int)
    requires Coherent(db) && Enabling(db, Moment(env, now, Added(t)))
    ensures Coherent(AddTracking(db, env, t, now))
  {
    hide KeysHold;
    SeenKeeps(db, t.url);
    var registered := Register(db, t.url);
    var grown := registered.(trackings := registered.trackings + [t]);
    assert grown.trackings[..|db.trackings|] == db.trackings;
    KeysHoldAlso(db.trackings, db.urls.Keys, t);
    assert registered.urls.Keys == db.urls.Keys + {t.url};
    RefreshRestores(registered, grown, env, {t.url}, now);
    RefreshOneIsAll(grown, env, t.url, now);
    assert RefreshAll(grown, env, {t.url}, now).urls.Keys == registered.urls.Keys;
  }

  lemma SameKeys(ts: seq<Tracking>, ts': seq<Tracking>, urls: set<string>)
    requires KeysHold(ts, urls) && |ts| == |ts'|
    requires forall i :: 0 <= i < |ts| ==> ts'[i].id == ts[i].id && ts'[i].sku == ts[i].sku && ts'[i].url == ts[i].url
    ensures KeysHold(ts', urls)
  {
  }

  lemma DisabledElsewhere(ts: seq<Tracking>, t: Tracking, url: string)
    requires IdsAreUnique(ts) && t in ts && url != t.url
    ensures Enabled(Disable(ts, t.id), url) == [] <==> Enabled(ts, url) == []
  {
    var k :| 0 <= k < |ts| && ts[k] == t;
    forall i | 0 <= i < |ts| && ts[i].id == t.id
      ensures i == k
    {
    }
    SameTracks(ts, Disable(ts, t.id), url);
  }

  lemma DeletedKeeps(db: Db, env: Env, t: Tracking, now: int)
    requires Coherent(db) && t in db.trackings
    ensures Coherent(DisableTracking(db, env, t, now))
  {
    assert IdsAreUnique(db.trackings);
    hide KeysHold;
    var db' := db.(trackings := Disable(db.trackings, t.id));
    SameKeys(db.trackings, db'.trackings, db.urls.Keys);
    forall u | u in db.urls && u != t.url
      ensures Tracked(db', u) <==> Tracked(db, u)
    {
      DisabledElsewhere(db.trackings, t, u);
    }
    RefreshRestores(db, db', env, {t.url}, now);
    RefreshOneIsAll(db', env, t.url, now);
    assert RefreshAll(db', env, {t.url}, now).urls.Keys == db.urls.Keys;
  }

  lemma {:induction false} WithoutSkuKeepsKeys(ts: seq<Tracking>, urls: set<string>, sku: string)
    requires KeysHold(ts, urls)
    ensures KeysHold(WithoutSku(ts, sku), urls)
  {
    if ts == [] {
    } else {
      var before, t := ts[..|ts| - 1], ts[|ts| - 1];
      WithoutSkuKeepsKeys(before, urls, sku);
      hide KeysHold;
      if t.sku != sku {
        KeysHoldAlso(WithoutSku(before, sku), urls, t);
        assert urls + {t.url} == urls;
      }
    }
  }

  lemma SkuDeletedKeeps(db: Db, env: Env, sku: string, now: int)
    requires Coherent(db)
    ensures Coherent(DeleteSku(db, env, sku, now))
  {
    var db' := db.(trackings := WithoutSku(db.trackings, sku));
    forall u | u in db.urls && u !in SkuUrls(db.trackings, sku)
      ensures Tracked(db', u) <==> Tracked(db, u)
    {
      TrackedIff(db, u);
      TrackedIff(db', u);
    }
    RefreshRestores(db, db', env, SkuUrls(db.trackings, sku), now);
    WithoutSkuKeepsKeys(db.trackings, db.urls.Keys, sku);
  }

  lemma ReplannedKeeps(db: Db, merchant: string, plan: Plan, eclipse: Option<Millis>)
    requires Coherent(db)
    ensures Coherent(Replan(db, merchant, plan, eclipse))
  {
    hide KeysHold;
    var db' := Replan(db, merchant, plan, eclipse);
    SameKeys(db.trackings, db'.trackings, db.urls.Keys);
    forall u | u in db.urls
      ensures Tracked(db', u) <==> Tracked(db, u)
    {
      SameTracks(db.trackings, db'.trackings, u);
    }
  }

  lemma ClaimedKeeps(db: Db, env: Env, due: set<string>, now: int)
    requires Coherent(db)
    ensures Coherent(DispatchAll(db, env, due, now))
  {
    forall u | u in db.urls
      ensures Dispatched(db, env, u, now).nextRun.Some? <==> Tracked(db, u)
    {
      RefreshedIsFuture(db, env, u, now);
    }
  }

  lemma SeenKeeps(db: Db, url: string)
    requires Coherent(db)
    ensures Coherent(Register(db, url))
  {
    TrackedIff(db, url);
    if Tracked(db, url) {
      var t :| t in db.trackings && t.url == url;
      assert exists i :: 0 <= i < |db.trackings| && db.trackings[i] == t;
    }
  }

  lemma ApplyKeeps(db: Db, m: Moment)
    requires Coherent(db) && Enabling(db, m)
    ensures Coherent(Apply(db, m))
  {
    hide RefreshAll, DispatchAll, AddTracking, DisableTracking, DeleteSku, Register, Replan, Coherent;
    match m.event
    case Added(t) => AddedKeeps(db, m.env, t, m.now);
    case Deleted(t) => DeletedKeeps(db, m.env, t, m.now);
    case SkuDeleted(sku) => SkuDeletedKeeps(db, m.env, sku, m.now);
    case Seen(url) => SeenKeeps(db, url);
    case Blocked(domain) => BlockedKeeps(db, domain);
    case Replanned(merchant, plan, eclipse) => ReplannedKeeps(db, merchant, plan, eclipse);
    case Healed(chosen) => HealedKeeps(db, m.env, chosen, m.now);
    case Claimed(due) => ClaimedKeeps(db, m.env, due, m.now);
  }

  lemma BlockedKeeps(db: Db, domain: set<string>)
    requires Coherent(db)
    ensures Coherent(BlockAll(db, domain))
  {
  }

  lemma HealedKeeps(db: Db, env: Env, chosen: set<string>, now: int)
    requires Coherent(db)
    ensures Coherent(RefreshAll(db, env, chosen, now))
  {
    RefreshRestores(db, db, env, chosen, now);
  }

  /** Over every run of adding, disabling, deleting, registering, blocking, re-planning,
      healing and dispatching - whatever the streaks and the clock do - a URL is scheduled
      exactly when it has an enabled tracking. */
  lemma {:induction false} RunsStayCoherent(db: Db, ms: seq<Moment>)
    requires Coherent(db)
    ensures Coherent(Run(db, ms)) && ScheduledIffTracked(Run(db, ms))
  {
    if ms == [] {
    } else {
      var before := Run(db, ms[..|ms| - 1]);
      RunsStayCoherent(db, ms[..|ms| - 1]);
      if Enabling(before, ms[|ms| - 1]) {
        ApplyKeeps(before, ms[|ms| - 1]);
      }
    }
  }

  lemma {:induction false} BlockedStays(db: Db, ms: seq<Moment>, url: string)
    requires url in db.urls && db.urls[url].blocked
    ensures url in Run(db, ms).urls && Run(db, ms).urls[url].blocked
  {
    if ms == [] {
    } else {
      BlockedStays(db, ms[..|ms| - 1], url);
      var before, m := Run(db, ms[..|ms| - 1]), ms[|ms| - 1];
      if m.event.Added? {
        assert url in Register(before, m.event.t.url).urls;
      }
    }
  }

  /** A URL of a blocked domain is never dispatched again, whatever the run: it is due at no
      time, for no later step unblocks it. */
  lemma BlockedForGood(db: Db, domain: set<string>, ms: seq<Moment>, url: string, now: int)
    requires url in db.urls && url in domain
    ensures url in Run(BlockAll(db, domain), ms).urls && !Due(Run(BlockAll(db, domain), ms), url, now)
  {
    BlockedStays(BlockAll(db, domain), ms, url);
  }

  /** In particular over every run of a new installation. */
  lemma RunsFromEmptyStayCoherent(ms: seq<Moment>)
    ensures ScheduledIffTracked(Run(Db(map[], []), ms))
  {
    RunsStayCoherent(Db(map[], []), ms);
  }

  /** From any state at all, a tick that is not cut short by its limits leaves every
      unblocked URL scheduled in the future if tracked; one nobody tracks is paused if it
      was due and is otherwise left as it was. */
  lemma TickRepairs(db: Db, env: Env, now: int, chosen: set<string>, due: set<string>, url: string)
    requires forall u :: u in chosen <==> Stuck(db, u)
    requires forall u :: u in due <==> Due(RefreshAll(db, env, chosen, now), u, now)
    requires url in db.urls && !db.urls[url].blocked
    ensures
      var after := DispatchAll(RefreshAll(db, env, chosen, now), env, due, now).urls[url];
      && (Tracked(db, url) ==> after.nextRun.Some? && after.nextRun.value > now)
      && (!Tracked(db, url) ==> after == if Due(db, url, now) then db.urls[url].(nextRun := None) else db.urls[url])
  {
    HealedAreNotDue(db, env, chosen, now);
    RefreshedIsFuture(db, env, url, now);
    RefreshedIsFuture(RefreshAll(db, env, chosen, now), env, url, now);
  }

  /* ---- What a job carries ---- */

  /** Somebody has a slot. */
  predicate HasCycle(cycles: seq<(string, int)>, merchant: string) {
    exists i :: 0 <= i < |cycles| && cycles[i].0 == merchant
  }

  predicate HasSlot(slots: seq<(Cycle, int)>, merchant: string) {
    exists i :: 0 <= i < |slots| && slots[i].0.merchant == merchant
  }

  predicate OneEach(cycles: seq<(string, int)>) {
    forall i, j :: 0 <= i < j < |cycles| ==> cycles[i].0 != cycles[j].0
  }

  /** A cycle runs at the interval of some tracking of its merchant. */
  predicate AtOwnInterval(rows: seq<Tracking>, cycle: (string, int)) {
    exists t :: t in rows && t.merchant == cycle.0 && cycle.1 == IntervalForPlans([t.plan], t.eclipse)
  }

  lemma HasCycleAlso(cycles: seq<(string, int)>, cycle: (string, int), merchant: string)
    ensures HasCycle(cycles + [cycle], merchant) <==> HasCycle(cycles, merchant) || merchant == cycle.0
  {
    if HasCycle(cycles, merchant) {
      var i :| 0 <= i < |cycles| && cycles[i].0 == merchant;
      assert (cycles + [cycle])[i].0 == merchant;
    }
    assert (cycles + [cycle])[|cycles|] == cycle;
  }

  lemma {:induction false} CyclesPerMerchant(rows: seq<Tracking>)
    ensures OneEach(MerchantCycles(rows))
    ensures forall t :: t in rows ==> HasCycle(MerchantCycles(rows), t.merchant)
    ensures forall cycle :: cycle in MerchantCycles(rows) ==> AtOwnInterval(rows, cycle)
  {
    if rows == [] {
    } else {
      var n := |rows| - 1;
      CyclesPerMerchant(rows[..n]);
      var before, cycles, last := MerchantCycles(rows[..n]), MerchantCycles(rows), rows[n];
      var added := (last.merchant, IntervalForPlans([last.plan], last.eclipse));
      assert cycles == if HasCycle(before, last.merchant) then before else before + [added];
      assert rows == rows[..n] + [last];
      forall t | t in rows
        ensures HasCycle(cycles, t.merchant)
      {
        HasCycleAlso(before, added, t.merchant);
      }
      forall cycle | cycle in cycles
        ensures AtOwnInterval(rows, cycle)
      {
        if cycle in before {
          var t :| t in rows[..n] && t.merchant == cycle.0 && cycle.1 == IntervalForPlans([t.plan], t.eclipse);
          assert t in rows;
        } else {
          assert last in rows;
        }
      }
    }
  }

  lemma SlotsOfCycles(cycles: seq<(string, int)>, now: int, grace: int, merchant: string)
    requires forall i :: 0 <= i < |cycles| ==> cycles[i].1 > 0
    ensures HasSlot(Slots(cycles, now, grace), merchant) <==> HasCycle(cycles, merchant)
  {
    var slots := Slots(cycles, now, grace);
    if HasCycle(cycles, merchant) {
      var i :| 0 <= i < |cycles| && cycles[i].0 == merchant;
      assert slots[i].0.merchant == merchant;
    }
    if HasSlot(slots, merchant) {
      var i :| 0 <= i < |slots| && slots[i].0.merchant == merchant;
      assert cycles[i].0 == merchant;
    }
  }

  lemma IdsOf(rows: seq<Tracking>, ids: seq<string>)
    requires |ids| == |rows| && forall i :: 0 <= i < |rows| ==> ids[i] == rows[i].id
    ensures forall id :: id in ids <==> exists t :: t in rows && t.id == id
  {
    forall t | t in rows
      ensures t.id in ids
    {
      var k :| 0 <= k < |rows| && rows[k] == t;
      assert ids[k] == t.id;
    }
    forall id | id in ids
      ensures exists t :: t in rows && t.id == id
    {
      var k :| 0 <= k < |ids| && ids[k] == id;
      assert rows[k] in rows;
    }
  }

  /** One job serves everyone: all the URL's enabled trackings and no other, and one cycle
      slot for each of their merchants. */
  lemma JobServesEveryTracker(db: Db, env: Env, url: string, now: int, grace: int)
    ensures
      var job := JobFor(db, env, url, now, grace);
      && (forall t :: t in db.trackings && t.url == url && t.enabled ==>
            t.id in job.ids && HasSlot(job.slots, t.merchant))
      && job.url == url && job.queue == env.queue(url)
      && (forall id :: id in job.ids ==> exists t :: t in db.trackings && t.url == url && t.enabled && t.id == id)
      && (forall i, j :: 0 <= i < j < |job.slots| ==> job.slots[i].0.merchant != job.slots[j].0.merchant)
  {
    var rows, job := Enabled(db.trackings, url), JobFor(db, env, url, now, grace);
    EnabledRows(db.trackings, url);
    IdsOf(rows, job.ids);
    CyclesPerMerchant(rows);
    hide MerchantCycles, HasSlot, HasCycle;
    forall t | t in rows
      ensures HasSlot(job.slots, t.merchant)
    {
      SlotsOfCycles(MerchantCycles(rows), now, grace, t.merchant);
    }
  }

  predicate CurrentSlot(rows: seq<Tracking>, slot: (Cycle, int), now: int, grace: int) {
    exists t :: t in rows && SlotOf(t, slot, now, grace)
  }

  /** The slot of the tracking's own merchant, in that merchant's current cycle. */
  predicate SlotOf(t: Tracking, slot: (Cycle, int), now: int, grace: int) {
    var interval := IntervalForPlans([t.plan], t.eclipse);
    slot.0.merchant == t.merchant && slot.1 == interval + grace && interval > 0 && slot.0.id == now / interval
  }

  /** A job runs at the priority of its most demanding tracker, and each of its slots is
      the current cycle of its merchant at that merchant's own interval. */
  lemma JobIsCurrent(db: Db, env: Env, url: string, now: int, grace: int)
    ensures
      var rows, job := Enabled(db.trackings, url), JobFor(db, env, url, now, grace);
      && IntervalForPlans([job.plan], EclipseMs(rows)) == IntervalForPlans(Plans(rows), EclipseMs(rows))
      && forall i :: 0 <= i < |job.slots| ==> CurrentSlot(rows, job.slots[i], now, grace)
  {
    var rows, job := Enabled(db.trackings, url), JobFor(db, env, url, now, grace);
    FoldsAgree(Plans(rows), EclipseMs(rows));
    SingleInterval(job.plan, EclipseMs(rows));
    CyclesPerMerchant(rows);
    forall i | 0 <= i < |job.slots|
      ensures CurrentSlot(rows, job.slots[i], now, grace)
    {
      var cycle := MerchantCycles(rows)[i];
      assert cycle in MerchantCycles(rows) && AtOwnInterval(rows, cycle);
      var t :| t in rows && t.merchant == cycle.0 && cycle.1 == IntervalForPlans([t.plan], t.eclipse);
      assert SlotOf(t, job.slots[i], now, grace);
    }
  }

  /** How many of the jobs' slots belong to a cycle. */
  function JobSlotCount(jobs: seq<Job>, c: Cycle): nat {
    if jobs == [] then 0 else JobSlotCount(jobs[..|jobs| - 1], c) + SlotCount(jobs[|jobs| - 1].slots, c)
  }

  lemma {:induction false} OpenSlotsCount(keys: Keys, slots: seq<(Cycle, int)>, now: int, c: Cycle)
    ensures var after := OpenSlots(keys, slots, now);
            && Get(after, c, Expected) == Get(keys, c, Expected) + SlotCount(slots, c)
            && Get(after, c, Done) == Get(keys, c, Done) && ((c, Fired) in after <==> (c, Fired) in keys)
  {
    if slots == [] {
    } else {
      OpenSlotsCount(keys, slots[..|slots| - 1], now, c);
    }
  }

  /** EXPECTED of every cycle grows by exactly the slots that the new jobs carry for it;
      nothing is counted done or fired. */
  lemma {:induction false} ExpectedCountsTheJobs(keys: Keys, jobs: seq<Job>, now: int, c: Cycle)
    ensures var after := OpenJobs(keys, jobs, now);
            && Get(after, c, Expected) == Get(keys, c, Expected) + JobSlotCount(jobs, c)
            && Get(after, c, Done) == Get(keys, c, Done) && ((c, Fired) in after <==> (c, Fired) in keys)
  {
    if jobs == [] {
    } else {
      var n := |jobs| - 1;
      ExpectedCountsTheJobs(keys, jobs[..n], now, c);
      OpenSlotsCount(OpenJobs(keys, jobs[..n], now), jobs[n].slots, now, c);
    }
  }

  /* ---- The barrier machine opens the slots the dispatcher opens ---- */

  function CyclesOf(slots: seq<(Cycle, int)>): seq<Cycle> {
    seq(|slots|, i requires 0 <= i < |slots| => slots[i].0)
  }

  /** `k` uninterrupted operations of a claimed job in the barrier machine. */
  function Opened(keys: Keys, slots: seq<(Cycle, int)>, k: nat, now: int): (r: (Keys, CycleBarrier.Job))
    requires k <= |slots|
    ensures r.1.Valid()
  {
    if k == 0 then (keys, CycleBarrier.Opening(CyclesOf(slots), [])) else
      var (before, j) := Opened(keys, slots, k - 1, now);
      var (after, j', _) := CycleBarrier.JobStep(before, j, now, slots[k - 1].1);
      (after, j')
  }

  /** Run alone, a claimed job of the barrier machine does what dispatch_due does: it
      opens every slot before it is queued with exactly those slots. */
  lemma {:induction false} SoloOpeningIsDispatch(keys: Keys, slots: seq<(Cycle, int)>, k: nat, now: int)
    requires k <= |slots|
    ensures Opened(keys, slots, k, now)
            == (OpenSlots(keys, slots[..k], now), CycleBarrier.Opening(CyclesOf(slots)[k..], CyclesOf(slots)[..k]))
    ensures k == |slots| ==>
              CycleBarrier.JobStep(OpenSlots(keys, slots, now), Opened(keys, slots, k, now).1, now, 0)
              == (OpenSlots(keys, slots, now), CycleBarrier.Queued(CyclesOf(slots)), multiset{})
  {
    var all := CyclesOf(slots);
    if k > 0 {
      SoloOpeningIsDispatch(keys, slots, k - 1, now);
      assert slots[..k][..k - 1] == slots[..k - 1];
      assert all[k - 1..][0] == slots[k - 1].0 && all[k - 1..][1..] == all[k..];
      assert all[..k - 1] + [all[k - 1]] == all[..k];
    }
    assert slots[..|slots|] == slots && all[..|slots|] == all;
  }

  /* ---- Staleness per tracker ---- */

  lemma {:induction false} EclipseIsLeast(rows: seq<Tracking>)
    ensures var e := EclipseMs(rows);
            && (forall t :: t in rows && t.plan.Eclipse? && t.eclipse.Some? ==> e.Some? && e.value <= t.eclipse.value)
            && (e.Some? ==> exists t :: t in rows && t.plan.Eclipse? && t.eclipse.Some? && e.value == t.eclipse.value)
  {
    if rows == [] {
    } else {
      EclipseIsLeast(rows[..|rows| - 1]);
      assert rows[|rows| - 1] in rows && forall t :: t in rows[..|rows| - 1] ==> t in rows;
    }
  }

  /** Sharing makes the tracker wait no longer than being crawled alone, under its own
      merchant's setting. */
  predicate NoLongerWait(rows: seq<Tracking>, streak: int, t: Tracking) {
    IntervalOf(rows, streak) <= IntervalOf([t], streak)
  }

  ghost predicate Allowed(rows: seq<Tracking>, settings: iset<Option<Millis>>) {
    forall t :: t in rows && t.plan.Eclipse? ==> t.eclipse in settings
  }

  ghost predicate NeverStalerOver(settings: iset<Option<Millis>>) {
    forall rows, streak, t :: t in rows && Allowed(rows, settings) ==> NoLongerWait(rows, streak, t)
  }

  /** Every setting is in step, and an unset one, which means five minutes to a tracker
      alone, is never beside a slower one. */
  ghost predicate Harmonious(settings: iset<Option<Millis>>) {
    && (forall e :: Some(e) in settings ==> InStep(Some(e)))
    && (None in settings ==> forall e :: Some(e) in settings ==> e <= 300000)
  }

  lemma HarmoniousIsNeverStaler(settings: iset<Option<Millis>>, rows: seq<Tracking>, streak: int, t: Tracking)
    requires Harmonious(settings) && t in rows && Allowed(rows, settings)
    ensures NoLongerWait(rows, streak, t)
  {
    var e, own := EclipseMs(rows), EclipseMs([t]);
    EclipseIsLeast(rows);
    EclipseIsLeast([t]);
    assert InStep(e) && InStep(own);
    assert [t][..0] == [];
    assert FloorOf(t.plan, e) <= FloorOf(t.plan, own);
    var k :| 0 <= k < |rows| && rows[k] == t;
    assert Plans(rows)[k] == t.plan && t.plan in Plans(rows);
    assert Plans([t]) == [t.plan];
    IntervalIsLeast(Plans(rows), e);
    SingleInterval(t.plan, own);
    EffectiveOfFloor(Plans(rows), streak, e);
    EffectiveOfFloor([t.plan], streak, own);
  }

  function Tracker(id: string, plan: Plan, eclipse: Option<Millis>): Tracking {
    Tracking(id, "url", id, id, plan, eclipse, true)
  }

  lemma PairOf(a: Tracking, b: Tracking)
    ensures Plans([a, b]) == [a.plan, b.plan] && Plans([b]) == [b.plan]
    ensures b.plan.Eclipse? && b.eclipse.Some? && !a.plan.Eclipse? ==> EclipseMs([a, b]) == b.eclipse == EclipseMs([b])
    ensures a.plan.Eclipse? && a.eclipse.Some? && b.plan.Eclipse? && b.eclipse.None? ==>
              EclipseMs([a, b]) == a.eclipse && EclipseMs([b]) == None
  {
    assert [a, b][..1] == [a] && [a][..0] == [] && [b][..0] == [];
    assert EclipseMs([a]) == if a.plan.Eclipse? && a.eclipse.Some? then Some(a.eclipse.value) else None;
  }

  lemma OutOfStepWaitsLonger(settings: iset<Option<Millis>>, e: Millis)
    requires Some(e) in settings && !InStep(Some(e))
    ensures !NeverStalerOver(settings)
  {
    var slow := OutOfStepPair(Some(e));
    var a, b := Tracker("a", slow, None), Tracker("b", Eclipse, Some(e));
    PairOf(a, b);
    assert [a, b][1] == b && Allowed([a, b], settings);
    assert !NoLongerWait([a, b], 9, b);
  }

  lemma UnsetWaitsLonger(settings: iset<Option<Millis>>, e: Millis)
    requires None in settings && Some(e) in settings && e > 300000
    ensures !NeverStalerOver(settings)
  {
    var a, b := Tracker("a", Eclipse, Some(e)), Tracker("b", Eclipse, None);
    PairOf(a, b);
    SingleInterval(Eclipse, Some(e));
    SingleInterval(Eclipse, None);
    FoldsAgree([Eclipse, Eclipse], Some(e));
    assert [Eclipse, Eclipse][..1] == [Eclipse];
    assert [a, b][1] == b && Allowed([a, b], settings);
    assert !NoLongerWait([a, b], 0, b);
  }

  /** Over any set of settings that merchants may have, unset included: nobody ever waits
      longer because a crawl is shared - for all trackers and streaks - if and only if the
      set is harmonious. */
  lemma SharedNeverStalerIff(settings: iset<Option<Millis>>)
    ensures NeverStalerOver(settings) <==> Harmonious(settings)
  {
    if Harmonious(settings) {
      forall rows, streak, t | t in rows && Allowed(rows, settings)
        ensures NoLongerWait(rows, streak, t)
      {
        HarmoniousIsNeverStaler(settings, rows, streak, t);
      }
    } else if e: Millis :| Some(e) in settings && !InStep(Some(e)) {
      OutOfStepWaitsLonger(settings, e);
    } else {
      var e: Millis :| Some(e) in settings && e > 300000;
      UnsetWaitsLonger(settings, e);
    }
  }

  /** The settings that the merchant routes accept; the column is never null. */
  const ACCEPTED: iset<Option<Millis>> := iset e: Millis | 300000 <= e <= 900000 :: Some(e)

  /** With them, each tracker is crawled at least as often as alone. */
  lemma SharedCrawlIsNeverStaler(rows: seq<Tracking>, streak: int, t: Tracking)
    requires t in rows && Allowed(rows, ACCEPTED)
    ensures IntervalOf(rows, streak) <= IntervalOf([t], streak)
  {
    HarmoniousIsNeverStaler(ACCEPTED, rows, streak, t);
  }
}
