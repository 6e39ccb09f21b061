/** Price-snapshot retention (specter-api/services/retention.py): the batched delete, the
    three-pass purge and the downgrade grace window. Times are milliseconds; a LIMITed
    query may return any of the matching rows. */
module Retention {
  import opened Wrappers

  const DAY_MS := 86400000

  datatype Row = Row(url: string, scrapedAt: int, deleteAt: Option<int>)

  type Rows = map<nat, Row>

  /** Who tracks what, disabled trackings included, and the merchants on a 90-day plan. */
  datatype Registry = Registry(trackings: set<(string, string)>, longMerchants: set<string>)

  function UrlsOf(reg: Registry, merchant: string): set<string> {
    set t | t in reg.trackings && t.1 == merchant :: t.0
  }

  function LongUrls(reg: Registry): set<string> {
    set t | t in reg.trackings && t.1 in reg.longMerchants :: t.0
  }

  function Cutoff(now: int, days: int): int {
    now - days * DAY_MS
  }

  function Without(rows: Rows, where: Row -> bool): Rows {
    map k | k in rows && !where(rows[k]) :: rows[k]
  }

  /* ---- The three passes of the purge ---- */

  predicate GraceElapsed(r: Row, now: int) {
    r.deleteAt.Some? && r.deleteAt.value <= now
  }

  predicate BeyondCap(r: Row, now: int) {
    r.deleteAt.None? && r.scrapedAt < Cutoff(now, 90)
  }

  predicate InLapsedBand(r: Row, now: int, longUrls: set<string>) {
    r.deleteAt.None? && Cutoff(now, 90) <= r.scrapedAt < Cutoff(now, 30) && r.url !in longUrls
  }

  /** The retention policy: a marked row lives until its mark; any other row lives 90 days
      on a URL that a 90-day merchant tracks and 30 days elsewhere. */
  predicate Retained(r: Row, now: int, longUrls: set<string>) {
    match r.deleteAt
    case Some(at) => now < at
    case None => r.scrapedAt >= Cutoff(now, if r.url in longUrls then 90 else 30)
  }

  function Purged(rows: Rows, reg: Registry, now: int): Rows {
    map k | k in rows && Retained(rows[k], now, LongUrls(reg)) :: rows[k]
  }

  /** The rows a downgrade marks. */
  predicate Marks(r: Row, reg: Registry, merchant: string, now: int) {
    r.url in UrlsOf(reg, merchant) && r.url !in LongUrls(reg) && r.scrapedAt < Cutoff(now, 30) && r.deleteAt.None?
  }

  function Marked(rows: Rows, reg: Registry, merchant: string, now: int): Rows {
    map k | k in rows ::
      if Marks(rows[k], reg, merchant, now) then rows[k].(deleteAt := Some(now + 7 * DAY_MS)) else rows[k]
  }

  class Snapshots {
    var rows: Rows

    constructor (rows: Rows)
      ensures this.rows == rows
    {
      this.rows := rows;
    }

    /** SELECT id WHERE ... LIMIT. */
    method SelectIds(where: Row -> bool, limit: nat) returns (ids: set<nat>)
      ensures forall k :: k in ids ==> k in rows && where(rows[k])
      ensures |ids| <= limit
      ensures |ids| < limit ==> forall k :: k in rows && where(rows[k]) ==> k in ids
    {
      ids := {};
      var left := set k | k in rows && where(rows[k]);
      while left != {} && |ids| < limit
        invariant ids + left == (set k | k in rows && where(rows[k])) && ids !! left
        invariant |ids| <= limit
        decreases |left|
      {
        var k :| k in left;
        ids, left := ids + {k}, left - {k};
      }
    }

    /** Deletes every matching row, in batches, and nothing else; returns how many. */
    method DeleteSnapshotsBatched(where: Row -> bool, batchSize: nat) returns (total: nat)
      requires batchSize > 0
      modifies this
      ensures rows == Without(old(rows), where)
      ensures total == |old(rows)| - |rows|
    {
      total := 0;
      ghost var start := rows;
      while true
        invariant rows.Keys <= start.Keys && forall k :: k in rows ==> rows[k] == start[k]
        invariant forall k :: k in start && k !in rows ==> where(start[k])
        invariant total == |start| - |rows|
        decreases |rows|
      {
        var ids := SelectIds(where, batchSize);
        assert (rows - ids).Keys == rows.Keys - ids;
        assert |rows - ids| == |rows.Keys - ids| && |rows| == |rows.Keys|;
        rows := rows - ids;
        total := total + |ids|;
        if |ids| < batchSize {
          break;
        }
      }
    }

    /** The purge leaves exactly the retained rows and reports how many went. */
    method PurgeExpiredSnapshots(reg: Registry, now: int, batchSize: nat) returns (deleted: nat)
      requires batchSize > 0
      modifies this
      ensures rows == Purged(old(rows), reg, now)
      ensures deleted == |old(rows)| - |rows|
    {
      var longUrls := LongUrls(reg);
      deleted := DeleteSnapshotsBatched(r => GraceElapsed(r, now), batchSize);
      var n := DeleteSnapshotsBatched(r => BeyondCap(r, now), batchSize);
      deleted := deleted + n;
      n := DeleteSnapshotsBatched(r => InLapsedBand(r, now, longUrls), batchSize);
      deleted := deleted + n;
      assert rows == Purged(old(rows), reg, now);
    }

    /** Marks the merchant's lapsed history and reports how many rows it marked. */
    method ScheduleDowngradeDeletion(reg: Registry, merchant: string, now: int) returns (scheduled: nat)
      modifies this
      ensures rows == Marked(old(rows), reg, merchant, now)
      ensures scheduled == |set k | k in rows && old(rows)[k].deleteAt.None? && rows[k].deleteAt.Some?|
    {
      var ids := set k | k in rows && Marks(rows[k], reg, merchant, now);
      scheduled := |ids|;
      rows := map k | k in rows :: if k in ids then rows[k].(deleteAt := Some(now + 7 * DAY_MS)) else rows[k];
      assert ids == set k | k in rows && old(rows)[k].deleteAt.None? && rows[k].deleteAt.Some?;
    }
  }

  /* ---- What purging guarantees ---- */

  /** A purge at `now` under `before` never changes what one at `later` under `after` leaves. */
  ghost predicate EarlierPurgeIsHarmless(before: Registry, now: int, after: Registry, later: int) {
    forall rows :: Purged(Purged(rows, before, now), after, later) == Purged(rows, after, later)
  }

  /** Which purges compose? An earlier purge is harmless, whatever the rows, exactly if no
      URL gains a 90-day merchant in between or the later purge comes at least 60 days on:
      the history a plan promises for a URL is gone if the URL was purged without it. */
  lemma PurgesComposeIff(before: Registry, now: int, after: Registry, later: int)
    requires now <= later
    ensures EarlierPurgeIsHarmless(before, now, after, later) <==>
              LongUrls(after) <= LongUrls(before) || later >= now + 60 * DAY_MS
  {
    if LongUrls(after) <= LongUrls(before) || later >= now + 60 * DAY_MS {
      forall rows
        ensures Purged(Purged(rows, before, now), after, later) == Purged(rows, after, later)
      {
      }
    } else {
      var url :| url in LongUrls(after) && url !in LongUrls(before);
      var rows := map[0 := Row(url, later - 90 * DAY_MS, None)];
      assert 0 in Purged(rows, after, later) && 0 !in Purged(rows, before, now);
      assert 0 !in Purged(Purged(rows, before, now), after, later);
    }
  }

  /** Under one registry an earlier purge is always harmless, and purging twice at once
      removes nothing more. */
  lemma PurgesCompose(rows: Rows, reg: Registry, now: int, later: int)
    requires now <= later
    ensures Purged(Purged(rows, reg, now), reg, later) == Purged(rows, reg, later)
    ensures Purged(Purged(rows, reg, now), reg, now) == Purged(rows, reg, now)
  {
  }

  /** The 90-day cap is not hard. A purge leaves nothing older than 90 days exactly when no
      such row is inside a downgrade's grace window. */
  lemma CapIsHardIff(rows: Rows, reg: Registry, now: int)
    ensures (forall k :: k in Purged(rows, reg, now) ==> rows[k].scrapedAt >= Cutoff(now, 90)) <==>
              (forall k :: k in rows && rows[k].deleteAt.Some? && rows[k].deleteAt.value > now ==>
                 rows[k].scrapedAt >= Cutoff(now, 90))
  {
    forall k | k in rows
      ensures k in Purged(rows, reg, now) <==> Retained(rows[k], now, LongUrls(reg))
    {
    }
  }

  /** A row scraped 85 days before a downgrade is 91 days old six days later, and kept. */
  lemma CapIsExceeded(url: string, merchant: string)
    ensures
      var reg, rows := Registry({(url, merchant)}, {}), map[0 := Row(url, 0, None)];
      var marked := Marked(rows, reg, merchant, 85 * DAY_MS);
      Purged(marked, reg, 91 * DAY_MS) == marked && marked.Keys == {0} && marked[0].scrapedAt < Cutoff(91 * DAY_MS, 90)
  {
    var reg := Registry({(url, merchant)}, {});
    assert (url, merchant) in reg.trackings && url in UrlsOf(reg, merchant);
  }

  /* ---- Runs ---- */

  datatype Event =
    | Purge(reg: Registry, now: int)
    | Downgrade(reg: Registry, merchant: string, now: int)
    | Ingest(id: nat, row: Row)

  function Step(rows: Rows, e: Event): Rows {
    match e
    case Purge(reg, now) => Purged(rows, reg, now)
    case Downgrade(reg, merchant, now) => Marked(rows, reg, merchant, now)
    case Ingest(id, row) => if id in rows then rows else rows[id := row]
  }

  function Run(rows: Rows, events: seq<Event>): Rows {
    if events == [] then rows else Step(Run(rows, events[..|events| - 1]), events[|events| - 1])
  }

  predicate ElapsesIn(events: seq<Event>, at: int) {
    exists i :: 0 <= i < |events| && events[i].Purge? && events[i].now >= at
  }

  predicate Reuses(events: seq<Event>, id: nat) {
    exists i :: 0 <= i < |events| && events[i].Ingest? && events[i].id == id
  }

  /** The grace window, over every run of purges, downgrades, upgrades and new snapshots: a
      marked row stays, unaltered, up to the first purge at or after its mark, and goes
      then, even if its URL has a 90-day merchant again. */
  lemma {:induction false} GraceIsHonoured(rows: Rows, events: seq<Event>, k: nat)
    requires k in rows && rows[k].deleteAt.Some? && !Reuses(events, k)
    ensures k in Run(rows, events) <==> !ElapsesIn(events, rows[k].deleteAt.value)
    ensures k in Run(rows, events) ==> Run(rows, events)[k] == rows[k]
  {
    if events == [] {
    } else {
      var n := |events| - 1;
      var before, e, at := events[..n], events[n], rows[k].deleteAt.value;
      assert forall i :: 0 <= i < n ==> before[i] == events[i];
      GraceIsHonoured(rows, before, k);
      assert ElapsesIn(events, at) <==> ElapsesIn(before, at) || (e.Purge? && e.now >= at);
    }
  }

  /** A downgrade alters exactly the merchant's unmarked rows, on URLs that no 90-day merchant
      tracks, that a purge at that instant would delete: it saves the lapsed history, nothing
      else, and stamps it seven days ahead. */
  lemma DowngradeSavesTheLapsed(rows: Rows, reg: Registry, merchant: string, now: int, k: nat)
    requires k in rows
    ensures var marked := Marked(rows, reg, merchant, now);
            && marked.Keys == rows.Keys
            && (marked[k] != rows[k] <==>
                  && (rows[k].url, merchant) in reg.trackings && rows[k].deleteAt.None? && k !in Purged(rows, reg, now)
                  && forall t :: t in reg.trackings && t.0 == rows[k].url ==> t.1 !in reg.longMerchants)
            && (marked[k] != rows[k] ==> marked[k] == rows[k].(deleteAt := Some(now + 7 * DAY_MS)))
  {
    assert rows[k].url in UrlsOf(reg, merchant) <==> (rows[k].url, merchant) in reg.trackings by {
      if rows[k].url in UrlsOf(reg, merchant) {
        var t :| t in reg.trackings && t.1 == merchant && t.0 == rows[k].url;
        assert t == (rows[k].url, merchant);
      }
    }
  }

  /** A downgrade gives every row it marks seven days, to the instant, and touches no row that
      another 90-day merchant's URL keeps. */
  lemma {:induction false} DowngradeGivesAWeek(rows: Rows, reg: Registry, merchant: string, now: int,
                                               events: seq<Event>, k: nat)
    requires k in rows && !Reuses(events, k)
    ensures var marked := Marked(rows, reg, merchant, now);
            && (marked[k] != rows[k] ==>
                  && (k in Run(marked, events) <==> !ElapsesIn(events, now + 7 * DAY_MS))
                  && (k in Run(marked, events) ==> Run(marked, events)[k] == marked[k]))
            && (rows[k].url in LongUrls(reg) ==> marked[k] == rows[k])
  {
    var marked := Marked(rows, reg, merchant, now);
    if Marks(rows[k], reg, merchant, now) {
      GraceIsHonoured(marked, events, k);
    }
  }
}
