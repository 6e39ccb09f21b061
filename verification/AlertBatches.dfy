/** Out-of-stock alerts over whole batches. One ingest call stores all of its snapshots
    before it detects on any of them (specter-api/routers/internal.py), so a detection can
    see snapshots stored after its own, and those that tie with it in any order
    (specter-api/signals/oos_detector.py). Which batches are safe, exactly? */
module AlertBatches {
  import opened Wrappers
  import opened OosDetector
  import opened Ingest
  import opened SnapshotTies
  import IngestProperties

  datatype Tables = Tables(snapshots: Table, trackings: seq<Tracking>, alerts: seq<Alert>)

  /** Row `r` as the stock state that a detection reads. */
  function StockAt(rows: seq<Row>, r: Option<nat>): Option<bool> {
    if r.Some? && r.value < |rows| then Some(rows[r.value].inStock) else None
  }

  /** The alerts after detecting on the first `n` items, whose queries read `seen`. */
  function Alerts(s: Tables, items: seq<Item>, seen: seq<Option<nat>>, n: nat): seq<Alert>
    requires n <= |items| == |seen|
  {
    if n == 0 then s.alerts else
      React(s.trackings, Alerts(s, items, seen, n - 1), items[n - 1].url, items[n - 1].inStock,
            StockAt(s.snapshots.rows, seen[n - 1]))
  }

  function Store(s: Tables, items: seq<Item>): Tables {
    s.(snapshots := StoreAll(s.snapshots, items))
  }

  /** Storing a batch and detecting on all of it. */
  function StoreAndDetect(s: Tables, items: seq<Item>, seen: seq<Option<nat>>): Tables
    requires |items| == |seen|
  {
    Store(s, items).(alerts := Alerts(Store(s, items), items, seen, |items|))
  }

  /** Each detection reads some newest row of its URL other than its own. */
  ghost predicate ValidReads(s: Tables, items: seq<Item>, seen: seq<Option<nat>>)
    requires WellStamped(s.snapshots) && UuidsFirst(items)
  {
    StoreAllIsWellStamped(s.snapshots, items);
    && |seen| == |items|
    && forall k :: 0 <= k < |items| ==>
         MayRead(StoreAll(s.snapshots, items), items[k].url, |s.snapshots.rows| + k, seen[k])
  }

  /** Every row that may be read as the URL's newest is out of stock. */
  ghost predicate OutOfStock(t: Table, url: string)
    requires |t.rows| == |t.stamps|
  {
    && (exists i :: Candidate(t, url, -1, i))
    && forall r: nat :: MayRead(t, url, -1, Some(r)) ==> !t.rows[r].inStock
  }

  predicate TracksUrl(trackings: seq<Tracking>, id: string, k: int) {
    0 <= k < |trackings| && trackings[k].id == id
  }

  /** An unresolved alert is unique to its tracking, and only of a tracking whose URL is out
      of stock however the newest snapshot is read. */
  ghost predicate AlertsHold(s: Tables) {
    && WellStamped(s.snapshots) && DistinctTrackings(s.trackings) && OneActive(s.alerts)
    && forall i :: 0 <= i < |s.alerts| && !s.alerts[i].resolved ==> Warranted(s, s.alerts[i].tracking)
  }

  ghost predicate Warranted(s: Tables, id: string)
    requires |s.snapshots.rows| == |s.snapshots.stamps|
  {
    exists k :: TracksUrl(s.trackings, id, k) && OutOfStock(s.snapshots, s.trackings[k].url)
  }

  /* ---- The condition ---- */

  predicate IsLast(items: seq<Item>, j: int) {
    0 <= j < |items| && forall k :: j < k < |items| ==> items[k].url != items[j].url
  }

  /** Item `i` is in stock, `j` is the last item of its URL, and either they tie, or `j` is
      in stock too and may read `i` as the one before it. */
  predicate Hazard(items: seq<Item>, i: int, j: int) {
    && 0 <= i < j && IsLast(items, j) && items[i].url == items[j].url && items[i].inStock
    && (items[j].jobUuid.Some? || (items[j].inStock && ItemRead(items, items[j].url, j, i)))
  }

  predicate Safe(items: seq<Item>) {
    forall i, j :: 0 <= i < j < |items| ==> !Hazard(items, i, j)
  }

  lemma LastOf(items: seq<Item>, url: string) returns (j: int)
    ensures -1 <= j < |items| && (j < 0 <==> !HasItem(items, url, -1))
    ensures j >= 0 ==> IsLast(items, j) && items[j].url == url
  {
    j := |items| - 1;
    while j >= 0 && items[j].url != url
      invariant -1 <= j < |items| && forall k :: j < k < |items| ==> items[k].url != url
    {
      j := j - 1;
    }
  }

  /** A batch that has each URL at most once is safe. */
  lemma OneEachIsSafe(items: seq<Item>)
    requires forall i, j :: 0 <= i < j < |items| ==> items[i].url != items[j].url
    ensures Safe(items)
  {
  }

  /** So is one whose in-stock, uuid-bearing snapshot is followed by a later-stamped one out
      of stock: nothing ties with the last. */
  lemma LaterOutIsSafe(x: Item, y: Item)
    requires x.jobUuid.Some? && y.jobUuid.None? && x.url == y.url && x.inStock && !y.inStock
    ensures UuidsFirst([x, y]) && Safe([x, y])
  {
  }

  /** In a safe batch the last item of a URL decides: if it is out of stock, so is whatever
      may be read as newest; if in stock, whatever may be read before it is not. */
  lemma LastDecides(items: seq<Item>, j: int, i: int)
    requires UuidsFirst(items) && Safe(items) && IsLast(items, j)
    ensures !items[j].inStock && ItemRead(items, items[j].url, -1, i) ==> !items[i].inStock
    ensures items[j].inStock && ItemRead(items, items[j].url, j, i) ==> !items[i].inStock
  {
    if 0 <= i < j && items[i].url == items[j].url {
      assert !Hazard(items, i, j);
    }
  }

  /* ---- Safe batches keep the alerts ---- */

  /** Item `j`, still to come, is bound to resolve its URL's alerts. */
  ghost predicate Pending(t: Table, items: seq<Item>, first: nat, url: string, n: int, j: int)
    requires |t.rows| == |t.stamps|
  {
    && n <= j && IsLast(items, j) && items[j].url == url && items[j].inStock
    && forall r :: MayRead(t, url, first + j, r) ==> StockAt(t.rows, r) == Some(false)
  }

  ghost predicate SoonResolved(t: Table, items: seq<Item>, first: nat, url: string, n: int)
    requires |t.rows| == |t.stamps|
  {
    exists j :: Pending(t, items, first, url, n, j)
  }

  /** An alert of this tracking is justified by the stored rows, or about to be resolved. */
  ghost predicate Excused(s: Tables, items: seq<Item>, first: nat, id: string, n: int)
    requires |s.snapshots.rows| == |s.snapshots.stamps|
  {
    exists k :: TracksUrl(s.trackings, id, k) &&
                (OutOfStock(s.snapshots, s.trackings[k].url)
                 || SoonResolved(s.snapshots, items, first, s.trackings[k].url, n))
  }

  ghost predicate AllExcused(s: Tables, items: seq<Item>, first: nat, alerts: seq<Alert>, n: int)
    requires |s.snapshots.rows| == |s.snapshots.stamps|
  {
    forall i :: 0 <= i < |alerts| && !alerts[i].resolved ==> Excused(s, items, first, alerts[i].tracking, n)
  }

  lemma LastInStockIsPending(t: Table, items: seq<Item>, j: int, n: int)
    requires WellStamped(t) && UuidsFirst(items) && Safe(items) && IsLast(items, j) && n <= j
    requires items[j].inStock && HasItem(items, items[j].url, j)
    ensures WellStamped(StoreAll(t, items)) && Pending(StoreAll(t, items), items, |t.rows|, items[j].url, n, j)
  {
    StoreAllIsWellStamped(t, items);
    var s, url := StoreAll(t, items), items[j].url;
    assert RowOf(t, j) == |t.rows| + j;
    forall r: Option<nat> | MayRead(s, url, |t.rows| + j, r)
      ensures StockAt(s.rows, r) == Some(false)
    {
      ReadsOnlyTheBatch(t, items, url, j, r);
      LastDecides(items, j, r.value - |t.rows|);
      StoredAt(t, items, r.value - |t.rows|);
    }
  }

  lemma LastOutIsOutOfStock(t: Table, items: seq<Item>, j: int)
    requires WellStamped(t) && UuidsFirst(items) && Safe(items) && IsLast(items, j) && !items[j].inStock
    ensures WellStamped(StoreAll(t, items)) && OutOfStock(StoreAll(t, items), items[j].url)
  {
    StoreAllIsWellStamped(t, items);
    var s, url := StoreAll(t, items), items[j].url;
    StoredAt(t, items, j);
    assert Candidate(s, url, -1, |t.rows| + j);
    assert HasItem(items, url, -1);
    forall r: nat | MayRead(s, url, -1, Some(r))
      ensures !s.rows[r].inStock
    {
      ReadsOnlyTheBatch(t, items, url, -1, Some(r));
      LastDecides(items, j, r - |t.rows|);
      StoredAt(t, items, r - |t.rows|);
    }
  }

  /** A URL with an item left, whose last item is out of stock, or in stock with another
      item before it, is excused. */
  lemma LastExcuses(t: Table, items: seq<Item>, j: int, n: int)
    requires WellStamped(t) && UuidsFirst(items) && Safe(items) && IsLast(items, j) && n <= j
    requires items[j].inStock ==> HasItem(items, items[j].url, j)
    ensures WellStamped(StoreAll(t, items))
    ensures OutOfStock(StoreAll(t, items), items[j].url)
            || SoonResolved(StoreAll(t, items), items, |t.rows|, items[j].url, n)
  {
    hide OutOfStock, Pending, Safe, UuidsFirst, StoreAll;
    if items[j].inStock {
      LastInStockIsPending(t, items, j, n);
    } else {
      LastOutIsOutOfStock(t, items, j);
    }
  }

  /** A URL that was out of stock before the batch is excused throughout. */
  lemma OldExcuses(t: Table, items: seq<Item>, url: string)
    requires WellStamped(t) && UuidsFirst(items) && Safe(items) && OutOfStock(t, url)
    ensures WellStamped(StoreAll(t, items))
    ensures OutOfStock(StoreAll(t, items), url) || SoonResolved(StoreAll(t, items), items, |t.rows|, url, 0)
  {
    StoreAllIsWellStamped(t, items);
    var j := LastOf(items, url);
    if j >= 0 && (!items[j].inStock || HasItem(items, url, j)) {
      LastExcuses(t, items, j, 0);
    } else {
      LoneLastExcuses(t, items, url, j);
    }
  }

  /** So it is if the batch brings it nothing, or a single in-stock item. */
  lemma LoneLastExcuses(t: Table, items: seq<Item>, url: string, j: int)
    requires WellStamped(t) && UuidsFirst(items) && OutOfStock(t, url) && WellStamped(StoreAll(t, items))
    requires -1 <= j < |items| && !HasItem(items, url, j)
    requires j >= 0 ==> IsLast(items, j) && items[j].url == url && items[j].inStock
    ensures OutOfStock(StoreAll(t, items), url) || SoonResolved(StoreAll(t, items), items, |t.rows|, url, 0)
  {
    hide *;
    SameLengths(t);
    SameLengths(StoreAll(t, items));
    StoredFollow(t, items);
    forall r
      ensures MayRead(StoreAll(t, items), url, RowOf(t, j), r) <==> MayRead(t, url, -1, r)
    {
      ReadsBeyondTheBatch(t, items, url, j, r);
    }
    OldReads(t, StoreAll(t, items), url, RowOf(t, j));
    if j >= 0 {
      IsPending(t, items, url, j);
    } else {
      StaysOut(t, items, url);
    }
  }

  lemma SameLengths(t: Table)
    requires WellStamped(t)
    ensures |t.rows| == |t.stamps|
  {
  }

  lemma StoredFollow(t: Table, items: seq<Item>)
    requires WellStamped(t)
    ensures t.rows <= StoreAll(t, items).rows
  {
  }

  lemma IsPending(t: Table, items: seq<Item>, url: string, j: nat)
    requires IsLast(items, j) && items[j].url == url && items[j].inStock && WellStamped(StoreAll(t, items))
    requires forall r :: MayRead(StoreAll(t, items), url, RowOf(t, j), r) ==>
               StockAt(StoreAll(t, items).rows, r) == Some(false)
    ensures SoonResolved(StoreAll(t, items), items, |t.rows|, url, 0)
  {
    assert Pending(StoreAll(t, items), items, |t.rows|, url, 0, j);
  }

  lemma StaysOut(t: Table, items: seq<Item>, url: string)
    requires WellStamped(t) && WellStamped(StoreAll(t, items)) && OutOfStock(t, url)
    requires forall r :: MayRead(StoreAll(t, items), url, RowOf(t, -1), r) ==>
               StockAt(StoreAll(t, items).rows, r) == Some(false)
    ensures OutOfStock(StoreAll(t, items), url)
  {
    var s := StoreAll(t, items);
    var i :| Candidate(t, url, -1, i);
    assert Candidate(s, url, -1, i);
    forall r: nat | MayRead(s, url, -1, Some(r))
      ensures !s.rows[r].inStock
    {
      assert StockAt(s.rows, Some(r)) == Some(false);
    }
  }

  lemma OldReads(t: Table, s: Table, url: string, row: int)
    requires WellStamped(t) && WellStamped(s) && t.rows <= s.rows && OutOfStock(t, url)
    requires forall r :: MayRead(s, url, row, r) <==> MayRead(t, url, -1, r)
    ensures forall r :: MayRead(s, url, row, r) ==> StockAt(s.rows, r) == Some(false)
  {
    var i :| Candidate(t, url, -1, i);
    forall r | MayRead(s, url, row, r)
      ensures StockAt(s.rows, r) == Some(false)
    {
      assert MayRead(t, url, -1, r) && r.Some?;
    }
  }

  lemma ExcusedAtStart(s: Tables, items: seq<Item>)
    requires AlertsHold(s) && UuidsFirst(items) && Safe(items)
    ensures WellStamped(Store(s, items).snapshots)
    ensures AllExcused(Store(s, items), items, |s.snapshots.rows|, s.alerts, 0)
  {
    StoreAllIsWellStamped(s.snapshots, items);
    forall i | 0 <= i < |s.alerts| && !s.alerts[i].resolved
      ensures Excused(Store(s, items), items, |s.snapshots.rows|, s.alerts[i].tracking, 0)
    {
      var k :| TracksUrl(s.trackings, s.alerts[i].tracking, k) && OutOfStock(s.snapshots, s.trackings[k].url);
      OldExcuses(s.snapshots, items, s.trackings[k].url);
    }
  }

  /** A tracking alerted at item `n` is excused from then on. */
  lemma RaisedIsExcused(s: Tables, items: seq<Item>, n: nat, id: string, k: int)
    requires WellStamped(s.snapshots) && UuidsFirst(items) && Safe(items) && n < |items| && !items[n].inStock
    requires TracksUrl(s.trackings, id, k) && s.trackings[k].url == items[n].url
    ensures WellStamped(Store(s, items).snapshots) && Excused(Store(s, items), items, |s.snapshots.rows|, id, n + 1)
  {
    var j := LastOf(items, items[n].url);
    assert HasItem(items, items[n].url, -1);
    if j > n {
      assert HasItem(items, items[n].url, j);
      LastExcuses(s.snapshots, items, j, n + 1);
    } else {
      LastExcuses(s.snapshots, items, j, n);
      assert forall i :: !Pending(Store(s, items).snapshots, items, |s.snapshots.rows|, items[n].url, n, i);
    }
  }

  lemma StaysExcused(s: Tables, items: seq<Item>, first: nat, seen: Option<nat>, n: nat, alerts: seq<Alert>, i: nat)
    requires |s.snapshots.rows| == |s.snapshots.stamps| && n < |items| && i < |alerts| && !alerts[i].resolved
    requires MayRead(s.snapshots, items[n].url, first + n, seen)
    requires Excused(s, items, first, alerts[i].tracking, n)
    requires var alerts' := React(s.trackings, alerts, items[n].url, items[n].inStock,
                                  StockAt(s.snapshots.rows, seen));
             i < |alerts'| && alerts'[i] == alerts[i]
    ensures Excused(s, items, first, alerts[i].tracking, n + 1)
  {
    hide OutOfStock, Pending, MayRead, React, StockAt;
    var t, id := s.snapshots, alerts[i].tracking;
    var k :| TracksUrl(s.trackings, id, k)
             && (OutOfStock(t, s.trackings[k].url) || SoonResolved(t, items, first, s.trackings[k].url, n));
    var url := s.trackings[k].url;
    assert OnUrl(s.trackings, id, url);
    if !OutOfStock(t, url) {
      var j :| Pending(t, items, first, url, n, j);
      PendingStays(s.trackings, t, items, first, seen, n, alerts, i, url, j);
    }
  }

  lemma ReadsAt(s: Tables, items: seq<Item>, seen: seq<Option<nat>>, n: nat)
    requires WellStamped(s.snapshots) && UuidsFirst(items) && ValidReads(s, items, seen) && n < |items|
    requires WellStamped(Store(s, items).snapshots)
    ensures var t := Store(s, items).snapshots;
            |t.rows| == |t.stamps| && MayRead(t, items[n].url, |s.snapshots.rows| + n, seen[n])
  {
  }

  /** An item that did not resolve the alert is not the one its URL waits for. */
  lemma PendingStays(trackings: seq<Tracking>, t: Table, items: seq<Item>, first: nat, seen: Option<nat>, n: nat,
                     alerts: seq<Alert>, i: nat, url: string, j: int)
    requires |t.rows| == |t.stamps| && n < |items| && MayRead(t, items[n].url, first + n, seen)
    requires i < |alerts| && !alerts[i].resolved && OnUrl(trackings, alerts[i].tracking, url)
    requires Pending(t, items, first, url, n, j)
    requires var alerts' := React(trackings, alerts, items[n].url, items[n].inStock, StockAt(t.rows, seen));
             i < |alerts'| && alerts'[i] == alerts[i]
    ensures Pending(t, items, first, url, n + 1, j)
  {
    hide React, MayRead, StockAt;
    if j == n {
      PendingResolves(trackings, alerts, i, url, items[n].inStock, StockAt(t.rows, seen));
    }
  }

  /** A detection on the item its URL waits for would have resolved the alert. */
  lemma PendingResolves(trackings: seq<Tracking>, alerts: seq<Alert>, i: nat, url: string, inStock: bool,
                        previous: Option<bool>)
    requires i < |alerts| && !alerts[i].resolved && OnUrl(trackings, alerts[i].tracking, url)
    requires inStock && previous == Some(false)
    ensures |React(trackings, alerts, url, inStock, previous)| > i ==>
              React(trackings, alerts, url, inStock, previous)[i].resolved
  {
  }

  lemma ExcusedStep(s: Tables, items: seq<Item>, seen: seq<Option<nat>>, n: nat, alerts: seq<Alert>)
    requires WellStamped(s.snapshots) && UuidsFirst(items) && Safe(items) && ValidReads(s, items, seen) && n < |items|
    requires WellStamped(Store(s, items).snapshots) && OneActive(alerts)
    requires AllExcused(Store(s, items), items, |s.snapshots.rows|, alerts, n)
    ensures var alerts' := React(s.trackings, alerts, items[n].url, items[n].inStock,
                                 StockAt(Store(s, items).snapshots.rows, seen[n]));
            OneActive(alerts') && AllExcused(Store(s, items), items, |s.snapshots.rows|, alerts', n + 1)
  {
    var url := items[n].url;
    var alerts' := React(s.trackings, alerts, url, items[n].inStock, StockAt(Store(s, items).snapshots.rows, seen[n]));
    RaiseKeeps(s.trackings, alerts, url);
    forall i | 0 <= i < |alerts'| && !alerts'[i].resolved
      ensures Excused(Store(s, items), items, |s.snapshots.rows|, alerts'[i].tracking, n + 1)
    {
      if i < |alerts| {
        assert alerts[i] == alerts'[i];
        ReadsAt(s, items, seen, n);
        StaysExcused(Store(s, items), items, |s.snapshots.rows|, seen[n], n, alerts, i);
      } else {
        var k :| 0 <= k < |s.trackings| && s.trackings[k].id == alerts'[i].tracking && s.trackings[k].url == url;
        RaisedIsExcused(s, items, n, alerts'[i].tracking, k);
      }
    }
  }

  lemma {:induction false} ExcusedThroughout(s: Tables, items: seq<Item>, seen: seq<Option<nat>>, n: nat)
    requires AlertsHold(s) && UuidsFirst(items) && Safe(items) && ValidReads(s, items, seen) && n <= |items|
    ensures WellStamped(Store(s, items).snapshots)
    ensures var alerts := Alerts(Store(s, items), items, seen, n);
            OneActive(alerts) && AllExcused(Store(s, items), items, |s.snapshots.rows|, alerts, n)
  {
    hide *;
    ReadsMatch(s, items, seen);
    if n == 0 {
      ExcusedAtStart(s, items);
      NoAlertsYet(s, items, seen);
    } else {
      ExcusedThroughout(s, items, seen, n - 1);
      ExcusedStep(s, items, seen, n - 1, Alerts(Store(s, items), items, seen, n - 1));
      AlertsStep(Store(s, items), items, seen, n - 1);
    }
  }

  lemma ReadsMatch(s: Tables, items: seq<Item>, seen: seq<Option<nat>>)
    requires AlertsHold(s) && UuidsFirst(items) && ValidReads(s, items, seen)
    ensures |seen| == |items| && WellStamped(s.snapshots) && OneActive(s.alerts)
    ensures Store(s, items).trackings == s.trackings
  {
  }

  lemma NoAlertsYet(s: Tables, items: seq<Item>, seen: seq<Option<nat>>)
    requires |seen| == |items|
    ensures Alerts(Store(s, items), items, seen, 0) == s.alerts
  {
  }

  lemma SafeBatchKeepsAlerts(s: Tables, items: seq<Item>, seen: seq<Option<nat>>)
    requires AlertsHold(s) && UuidsFirst(items) && Safe(items) && ValidReads(s, items, seen)
    ensures AlertsHold(StoreAndDetect(s, items, seen))
  {
    ExcusedThroughout(s, items, seen, |items|);
    var after := StoreAndDetect(s, items, seen);
    forall i | 0 <= i < |after.alerts| && !after.alerts[i].resolved
      ensures Warranted(after, after.alerts[i].tracking)
    {
      assert Excused(Store(s, items), items, |s.snapshots.rows|, after.alerts[i].tracking, |items|);
      var k :| TracksUrl(s.trackings, after.alerts[i].tracking, k) &&
               (OutOfStock(after.snapshots, s.trackings[k].url)
                || SoonResolved(after.snapshots, items, |s.snapshots.rows|, s.trackings[k].url, |items|));
      assert OutOfStock(after.snapshots, after.trackings[k].url);
    }
  }

  /* ---- An unsafe batch breaks them ---- */

  /** One URL, out of stock and alerted. */
  function Alerted(url: string): Tables {
    Tables(Table([Row(url, 0, false, None)], [0]), [Tracking("t", url, true, false)], [Alert("t", false)])
  }

  lemma AlertedHolds(url: string)
    ensures AlertsHold(Alerted(url))
  {
    var s := Alerted(url);
    assert Candidate(s.snapshots, url, -1, 0) && TracksUrl(s.trackings, "t", 0);
    assert OutOfStock(s.snapshots, s.trackings[0].url);
  }

  predicate OtherInStock(items: seq<Item>, url: string, but: int) {
    exists k :: 0 <= k < |items| && k != but && items[k].url == url && items[k].inStock
  }

  /** What each detection reads at the worst: an in-stock item of its URL, if one ties or
      comes later; for other URLs, the last-inserted row. */
  ghost function WorstItem(items: seq<Item>, i: int, j: int, k: int): int
    requires Hazard(items, i, j) && 0 <= k < |items|
  {
    if items[j].jobUuid.None? then (if k == j then i else j)
    else if k != i then i
    else if OtherInStock(items, items[i].url, i) then
      var o :| 0 <= o < |items| && o != i && items[o].url == items[i].url && items[o].inStock; o
    else -1
  }

  ghost function WorstReads(items: seq<Item>, i: int, j: int): (seen: seq<Option<nat>>)
    requires Hazard(items, i, j)
    ensures |seen| == |items|
  {
    var rows := StoreAll(Alerted(items[j].url).snapshots, items).rows;
    seq(|items|, k requires 0 <= k < |items| =>
      if items[k].url == items[j].url && WorstItem(items, i, j, k) >= 0 then Some(1 + WorstItem(items, i, j, k))
      else LastRow(rows, items[k].url, 1 + k))
  }

  lemma WorstItemIsRead(items: seq<Item>, i: int, j: int, k: int)
    requires UuidsFirst(items) && Hazard(items, i, j) && 0 <= k < |items| && items[k].url == items[j].url
    requires WorstItem(items, i, j, k) >= 0
    ensures ItemRead(items, items[j].url, k, WorstItem(items, i, j, k))
  {
  }

  lemma WorstReadAt(items: seq<Item>, i: int, j: int, k: int)
    requires Hazard(items, i, j) && 0 <= k < |items|
    ensures WorstReads(items, i, j)[k] ==
            if items[k].url == items[j].url && WorstItem(items, i, j, k) >= 0 then Some(1 + WorstItem(items, i, j, k))
            else LastRow(StoreAll(Alerted(items[j].url).snapshots, items).rows, items[k].url, 1 + k)
  {
  }

  lemma WorstReadIsValid(items: seq<Item>, i: int, j: int, k: int)
    requires UuidsFirst(items) && Hazard(items, i, j) && 0 <= k < |items|
    ensures var t := StoreAll(Alerted(items[j].url).snapshots, items);
            WellStamped(t) && MayRead(t, items[k].url, 1 + k, WorstReads(items, i, j)[k])
  {
    var t := Alerted(items[j].url).snapshots;
    assert RowOf(t, k) == 1 + k && |t.rows| == 1;
    StoreAllIsWellStamped(t, items);
    SameLengths(StoreAll(t, items));
    hide *;
    WorstReadAt(items, i, j, k);
    if items[k].url == items[j].url && WorstItem(items, i, j, k) >= 0 {
      WorstItemIsRead(items, i, j, k);
      InRange(items, items[j].url, k, WorstItem(items, i, j, k));
      ReadsTheBatch(t, items, items[k].url, k, WorstItem(items, i, j, k));
    } else {
      LastRowMayBeRead(StoreAll(t, items), items[k].url, 1 + k);
    }
  }

  lemma InRange(items: seq<Item>, url: string, but: int, i: int)
    requires ItemRead(items, url, but, i)
    ensures 0 <= i < |items|
  {
  }

  lemma WorstReadsAreValid(items: seq<Item>, i: int, j: int)
    requires UuidsFirst(items) && Hazard(items, i, j)
    ensures WellStamped(Alerted(items[j].url).snapshots)
    ensures ValidReads(Alerted(items[j].url), items, WorstReads(items, i, j))
  {
    var s := Alerted(items[j].url);
    StoreAllIsWellStamped(s.snapshots, items);
    hide MayRead, Hazard, WorstReads, StoreAll;
    forall k | 0 <= k < |items|
      ensures MayRead(StoreAll(s.snapshots, items), items[k].url, |s.snapshots.rows| + k, WorstReads(items, i, j)[k])
    {
      WorstReadIsValid(items, i, j, k);
    }
  }

  /** A reaction for another URL, or one that reads "in stock", resolves nothing here. */
  lemma ReactionKeeps(trackings: seq<Tracking>, alerts: seq<Alert>, url: string, inStock: bool, previous: Option<bool>,
                      id: string)
    requires Active(alerts, id) && (previous == Some(true) || !OnUrl(trackings, id, url))
    ensures Active(React(trackings, alerts, url, inStock, previous), id)
  {
    StockOutAlertsTheConcerned(trackings, alerts, url, id);
    RestockResolvesTheUrl(trackings, alerts, url, id);
  }

  lemma WorstReadIsInStock(items: seq<Item>, i: int, j: int, k: int)
    requires UuidsFirst(items) && Hazard(items, i, j) && 0 <= k < |items| && items[k].url == items[j].url
    requires WorstItem(items, i, j, k) >= 0
    ensures StockAt(StoreAll(Alerted(items[j].url).snapshots, items).rows, WorstReads(items, i, j)[k]) == Some(true)
  {
    StoredAt(Alerted(items[j].url).snapshots, items, WorstItem(items, i, j, k));
  }

  /** With a second in-stock item to read, or a later in-stock one, nothing resolves the
      alert; otherwise the last item raises it again. */
  lemma {:induction false} AlertSurvives(items: seq<Item>, i: int, j: int, n: nat)
    requires UuidsFirst(items) && Hazard(items, i, j) && n <= |items|
    requires n > j || items[j].jobUuid.None? || OtherInStock(items, items[i].url, i)
    ensures Active(Alerts(Store(Alerted(items[j].url), items), items, WorstReads(items, i, j), n), "t")
  {
    var url, seen := items[j].url, WorstReads(items, i, j);
    var s := Store(Alerted(url), items);
    if n == 0 {
      assert s.alerts[0] == Alert("t", false);
    } else {
      var k, before := n - 1, Alerts(s, items, seen, n - 1);
      var previous := StockAt(s.snapshots.rows, seen[k]);
      assert OnUrl(s.trackings, "t", items[k].url) <==> items[k].url == url;
      if items[k].url == url && WorstItem(items, i, j, k) >= 0 {
        WorstReadIsInStock(items, i, j, k);
      }
      if k > j || items[j].jobUuid.None? || OtherInStock(items, items[i].url, i) {
        AlertSurvives(items, i, j, k);
        hide Active, React, Alerts, WorstReads, StoreAll, OnUrl;
        ReactionKeeps(s.trackings, before, items[k].url, items[k].inStock, previous, "t");
      } else {
        hide WorstReads, StoreAll, Hazard;
        StockOutAlertsTheConcerned(s.trackings, before, url, "t");
        assert s.trackings[0] in s.trackings && Concerned(s.trackings, "t", url);
      }
    }
  }

  /** ... and the URL may then be read as in stock. */
  lemma NewestMayBeInStock(items: seq<Item>, i: int, j: int)
    requires UuidsFirst(items) && Hazard(items, i, j)
    ensures var t := StoreAll(Alerted(items[j].url).snapshots, items);
            WellStamped(t) && !OutOfStock(t, items[j].url)
  {
    var s, newest := Alerted(items[j].url), if items[j].jobUuid.Some? then i else j;
    StoreAllIsWellStamped(s.snapshots, items);
    if items[j].jobUuid.Some? {
      forall o | 0 <= o < |items| && items[o].url == items[j].url
        ensures items[o].jobUuid.Some?
      {
      }
    }
    assert ItemRead(items, items[j].url, -1, newest) && items[newest].inStock;
    hide ItemRead, Hazard, UuidsFirst;
    ReadsTheBatch(s.snapshots, items, items[j].url, -1, newest);
    StoredAt(s.snapshots, items, newest);
  }

  lemma HazardBreaksAlerts(items: seq<Item>, i: int, j: int)
    requires UuidsFirst(items) && Hazard(items, i, j)
    ensures !AlertsHold(StoreAndDetect(Alerted(items[j].url), items, WorstReads(items, i, j)))
  {
    var s, after := Alerted(items[j].url), StoreAndDetect(Alerted(items[j].url), items, WorstReads(items, i, j));
    AlertSurvives(items, i, j, |items|);
    NewestMayBeInStock(items, i, j);
    hide OutOfStock, WorstReads, Hazard, StoreAll, Alerts;
    var a :| 0 <= a < |after.alerts| && after.alerts[a] == Alert("t", false);
    assert !Warranted(after, "t");
  }

  /** The batch keeps the alerts from every state, whatever the queries read on ties. */
  ghost predicate KeepsAlerts(items: seq<Item>)
    requires UuidsFirst(items)
  {
    forall s, seen :: AlertsHold(s) && ValidReads(s, items, seen) ==> AlertsHold(StoreAndDetect(s, items, seen))
  }

  /** A batch keeps every unresolved alert justified - from every state and however the
      database orders rows that tie - exactly when it is safe. */
  lemma BatchKeepsAlertsIffSafe(items: seq<Item>)
    requires UuidsFirst(items)
    ensures KeepsAlerts(items) <==> Safe(items)
  {
    if Safe(items) {
      forall s, seen | AlertsHold(s) && ValidReads(s, items, seen)
        ensures AlertsHold(StoreAndDetect(s, items, seen))
      {
        SafeBatchKeepsAlerts(s, items, seen);
      }
    } else {
      var i, j :| 0 <= i < j < |items| && Hazard(items, i, j);
      AlertedHolds(items[j].url);
      WorstReadsAreValid(items, i, j);
      HazardBreaksAlerts(items, i, j);
    }
  }

  /* ---- Runs ---- */

  datatype Event =
    | Batch(items: seq<Item>, seen: seq<Option<nat>>)   // the rows one call inserts, and what its detections read
    | SetFlags(k: nat, enabled: bool, silenced: bool)
    | Track(t: Tracking)

  ghost predicate Happens(s: Tables, e: Event) {
    WellStamped(s.snapshots) && (e.Batch? ==> UuidsFirst(e.items) && ValidReads(s, e.items, e.seen))
  }

  function Step(s: Tables, e: Event): Tables
    requires e.Batch? ==> |e.items| == |e.seen|
  {
    match e
    case Batch(items, seen) => StoreAndDetect(s, items, seen)
    case SetFlags(k, enabled, silenced) =>
      if k >= |s.trackings| then s
      else s.(trackings := s.trackings[k := s.trackings[k].(enabled := enabled, silenced := silenced)])
    case Track(t) =>
      if exists i :: 0 <= i < |s.trackings| && s.trackings[i].id == t.id then s else s.(trackings := s.trackings + [t])
  }

  /** A run of events from `s` to `last`, each of its batches safe. */
  ghost predicate SafeRun(s: Tables, events: seq<Event>, last: Tables) {
    if events == [] then last == s else
      var n := |events| - 1;
      exists before :: SafeRun(s, events[..n], before) && Happens(before, events[n])
                       && (events[n].Batch? ==> Safe(events[n].items)) && last == Step(before, events[n])
  }

  lemma ChangeKeepsAlerts(s: Tables, e: Event)
    requires AlertsHold(s) && !e.Batch?
    ensures AlertsHold(Step(s, e))
  {
    var after := Step(s, e);
    forall i | 0 <= i < |after.alerts| && !after.alerts[i].resolved
      ensures Warranted(after, after.alerts[i].tracking)
    {
      assert s.alerts[i] == after.alerts[i];
      var k :| TracksUrl(s.trackings, s.alerts[i].tracking, k) && OutOfStock(s.snapshots, s.trackings[k].url);
      assert TracksUrl(after.trackings, after.alerts[i].tracking, k) && after.trackings[k].url == s.trackings[k].url;
    }
  }

  /** Over every run of safe batches - any call that brings each URL at most once is one - and
      of tracking changes, whatever the queries read on ties, each tracking has at most one
      unresolved alert, and only while its URL is out of stock. */
  lemma {:induction false} SafeRunsKeepAlerts(s: Tables, events: seq<Event>, last: Tables)
    requires AlertsHold(s) && SafeRun(s, events, last)
    ensures AlertsHold(last)
  {
    if events == [] {
    } else {
      var n := |events| - 1;
      var before :| SafeRun(s, events[..n], before) && Happens(before, events[n])
                    && (events[n].Batch? ==> Safe(events[n].items)) && last == Step(before, events[n]);
      SafeRunsKeepAlerts(s, events[..n], before);
      if events[n].Batch? {
        SafeBatchKeepsAlerts(before, events[n].items, events[n].seen);
      } else {
        ChangeKeepsAlerts(before, events[n]);
      }
    }
  }

  /* ---- The endpoint ---- */

  /** The readings of the endpoint's model: the last-inserted row. */
  function LastReads(t: Table, items: seq<Item>): (seen: seq<Option<nat>>)
    ensures |seen| == |items|
  {
    seq(|items|, k requires 0 <= k < |items| => LastRow(StoreAll(t, items).rows, items[k].url, |t.rows| + k))
  }

  lemma InsertedUuidsFirst(rows: seq<Row>, items: seq<Item>, excluded: set<string>, skip: bool)
    ensures UuidsFirst(Inserted(rows, items, excluded, skip))
  {
    var kept := Kept(rows, items, excluded, skip);
    IngestProperties.WithUuidMembers(kept);
    IngestProperties.WithUuidUnique(kept);
    IngestProperties.NotStoredUnique(rows, [] + WithUuid(kept));
    assert [] + WithUuid(kept) == WithUuid(kept);
    IngestProperties.PlainHasNone(kept);
  }

  lemma DetectIsReact(db: Db, url: string, row: nat, inStock: bool)
    ensures Detect(db, url, row, inStock)
            == React(db.trackings, db.alerts, url, inStock, StockAt(db.rows, LastRow(db.rows, url, row)))
  {
    LastRowIsNewest(db.rows, url, row);
  }

  lemma StoreEffectsStep(w: World, items: seq<Item>, first: int, n: nat, now: int)
    requires 0 < n <= |items|
    ensures var before := StoreEffects(w, items[..n - 1], first, now);
            StoreEffects(w, items[..n], first, now).db
            == before.db.(alerts := Detect(before.db, items[n - 1].url, first + n - 1, items[n - 1].inStock))
  {
    assert items[..n][..n - 1] == items[..n - 1];
  }

  lemma AlertsStep(s: Tables, items: seq<Item>, seen: seq<Option<nat>>, k: nat)
    requires |items| == |seen| && k < |items|
    ensures Alerts(s, items, seen, k + 1) ==
            React(s.trackings, Alerts(s, items, seen, k), items[k].url, items[k].inStock,
                  StockAt(s.snapshots.rows, seen[k]))
  {
  }

  lemma LastReadAt(w: World, t: Table, items: seq<Item>, k: nat)
    requires k < |items| && w.db.rows == t.rows + ToRows(items)
    ensures StoreAll(t, items).rows == w.db.rows
    ensures LastReads(t, items)[k] == LastRow(w.db.rows, items[k].url, |t.rows| + k)
  {
  }

  lemma NothingDetected(w: World, t: Table, items: seq<Item>, now: int)
    ensures StoreEffects(w, [], |t.rows|, now) == w
    ensures Alerts(Tables(StoreAll(t, items), w.db.trackings, w.db.alerts), items, LastReads(t, items), 0)
         == w.db.alerts
  {
  }

  lemma {:induction false} EffectsAreDetections(w: World, t: Table, items: seq<Item>, n: nat, now: int)
    requires n <= |items| && w.db.rows == t.rows + ToRows(items)
    ensures StoreEffects(w, items[..n], |t.rows|, now).db
            == w.db.(alerts := Alerts(Tables(StoreAll(t, items), w.db.trackings, w.db.alerts), items,
                                      LastReads(t, items), n))
  {
    hide *;
    if n == 0 {
      assert items[..0] == [];
      NothingDetected(w, t, items, now);
    } else {
      var k, s, before := n - 1, Tables(StoreAll(t, items), w.db.trackings, w.db.alerts),
        StoreEffects(w, items[..n - 1], |t.rows|, now).db;
      EffectsAreDetections(w, t, items, k, now);
      assert before.rows == w.db.rows && before.trackings == w.db.trackings
             && before.alerts == Alerts(s, items, LastReads(t, items), k);
      StoreEffectsStep(w, items, |t.rows|, n, now);
      DetectIsReact(before, items[k].url, |t.rows| + k, items[k].inStock);
      LastReadAt(w, t, items, k);
      AlertsStep(s, items, LastReads(t, items), k);
    }
  }

  lemma LastReadsAreValid(s: Tables, items: seq<Item>)
    requires WellStamped(s.snapshots) && UuidsFirst(items)
    ensures ValidReads(s, items, LastReads(s.snapshots, items))
  {
    StoreAllIsWellStamped(s.snapshots, items);
    forall k | 0 <= k < |items|
      ensures MayRead(StoreAll(s.snapshots, items), items[k].url, |s.snapshots.rows| + k,
                      LastReads(s.snapshots, items)[k])
    {
      LastRowMayBeRead(StoreAll(s.snapshots, items), items[k].url, |s.snapshots.rows| + k);
    }
  }

  lemma AfterIsEffects(w: World, items: seq<Item>, excluded: set<string>, skip: bool, now: int)
    ensures
      var inserted, w1 := Inserted(w.db.rows, items, excluded, skip), ExcludeEffects(w, items, excluded);
      var w2 := w1.(db := w.db.(rows := w.db.rows + ToRows(inserted)));
      After(w, items, excluded, skip, now).db == StoreEffects(w2, inserted, |w.db.rows|, now).db
  {
    var inserted, w1 := Inserted(w.db.rows, items, excluded, skip), ExcludeEffects(w, items, excluded);
    ExcludeEffectsFrame(w, items, excluded);
    var w2 := w1.(db := w.db.(rows := w.db.rows + ToRows(inserted)));
    SkipEffectsFrame(StoreEffects(w2, inserted, |w.db.rows|, now), Skipped(w.db.rows, items, excluded, skip), now);
  }

  /** One ingest call is such a batch: it stores all new rows first, then detects on each of
      them, and its readings are among those the database may give. */
  lemma IngestIsABatch(w: World, t: Table, items: seq<Item>, excluded: set<string>, skip: bool, now: int)
    requires WellStamped(t) && t.rows == w.db.rows
    ensures
      var inserted := Inserted(w.db.rows, items, excluded, skip);
      var s, seen, after := Tables(t, w.db.trackings, w.db.alerts), LastReads(t, inserted),
        After(w, items, excluded, skip, now).db;
      && UuidsFirst(inserted) && ValidReads(s, inserted, seen)
      && StoreAndDetect(s, inserted, seen) == Tables(StoreAll(t, inserted), after.trackings, after.alerts)
      && after.rows == StoreAll(t, inserted).rows
  {
    var inserted, w1 := Inserted(w.db.rows, items, excluded, skip), ExcludeEffects(w, items, excluded);
    InsertedUuidsFirst(w.db.rows, items, excluded, skip);
    LastReadsAreValid(Tables(t, w.db.trackings, w.db.alerts), inserted);
    AfterIsEffects(w, items, excluded, skip, now);
    var w2 := w1.(db := w.db.(rows := w.db.rows + ToRows(inserted)));
    EffectsAreDetections(w2, t, inserted, |inserted|, now);
    hide After, Inserted, ExcludeEffects, StoreEffects, ValidReads, LastReads, Alerts, ToRows;
    assert inserted[..|inserted|] == inserted;
  }
}
