/** Out-of-stock alerts (specter-api/signals/oos_detector.py).

    Tables are sequences in insertion order; under a monotone clock the newest snapshot of
    a URL is the last one stored, and a snapshot's id is its position. Rows stored at one
    instant count in insertion order. */
module OosDetector {
  import opened Wrappers

  datatype Row = Row(url: string, price: int, inStock: bool, jobUuid: Option<string>)

  datatype Tracking = Tracking(id: string, url: string, enabled: bool, silenced: bool)

  datatype Alert = Alert(tracking: string, resolved: bool)

  datatype Db = Db(rows: seq<Row>, trackings: seq<Tracking>, alerts: seq<Alert>)

  /** The newest row of a URL other than row `exclude`. */
  function NewestBut(rows: seq<Row>, url: string, exclude: int): Option<Row> {
    if rows == [] then None
    else if rows[|rows| - 1].url == url && |rows| - 1 != exclude then Some(rows[|rows| - 1])
    else NewestBut(rows[..|rows| - 1], url, exclude)
  }

  function Newest(rows: seq<Row>, url: string): Option<Row> {
    NewestBut(rows, url, -1)
  }

  /** A first snapshot counts as "was in stock". */
  predicate IsOosTransition(current: bool, previous: Option<bool>) {
    !current && (previous.None? || previous.value)
  }

  predicate IsRestock(current: bool, previous: Option<bool>) {
    current && previous == Some(false)
  }

  predicate Active(alerts: seq<Alert>, tracking: string) {
    exists i :: 0 <= i < |alerts| && alerts[i] == Alert(tracking, false)
  }

  predicate OnUrl(trackings: seq<Tracking>, id: string, url: string) {
    exists i :: 0 <= i < |trackings| && trackings[i].id == id && trackings[i].url == url
  }

  /** _resolve_alerts. */
  function Resolve(trackings: seq<Tracking>, alerts: seq<Alert>, url: string): seq<Alert> {
    seq(|alerts|, i requires 0 <= i < |alerts| =>
      if OnUrl(trackings, alerts[i].tracking, url) then Alert(alerts[i].tracking, true) else alerts[i])
  }

  /** The creation loop over the first `n` trackings. */
  function Raise(trackings: seq<Tracking>, alerts: seq<Alert>, url: string): seq<Alert> {
    if trackings == [] then alerts else
      var t := trackings[|trackings| - 1];
      var before := Raise(trackings[..|trackings| - 1], alerts, url);
      if t.url == url && t.enabled && !t.silenced && !Active(before, t.id) then before + [Alert(t.id, false)]
      else before
  }

  function Previous(db: Db, url: string, snapshot: int): Option<bool> {
    var row := NewestBut(db.rows, url, snapshot);
    if row.Some? then Some(row.value.inStock) else None
  }

  /** The alerts after a snapshot of the URL, given the stock read as the previous one's. */
  function React(trackings: seq<Tracking>, alerts: seq<Alert>, url: string, inStock: bool,
                 previous: Option<bool>): seq<Alert>
  {
    if IsRestock(inStock, previous) then Resolve(trackings, alerts, url)
    else if IsOosTransition(inStock, previous) then Raise(trackings, alerts, url)
    else alerts
  }

  /** The alerts after detect_and_write for one stored snapshot. */
  function Detect(db: Db, url: string, snapshot: int, inStock: bool): seq<Alert> {
    React(db.trackings, db.alerts, url, inStock, Previous(db, url, snapshot))
  }

  class AlertSession {
    var db: Db

    constructor (db: Db)
      ensures this.db == db
    {
      this.db := db;
    }

    /** detect_and_write; returns the alerts it created. */
    method DetectAndWrite(url: string, snapshot: int, inStock: bool) returns (created: seq<Alert>)
      modifies this
      ensures db == old(db).(alerts := Detect(old(db), url, snapshot, inStock))
      ensures if IsOosTransition(inStock, Previous(old(db), url, snapshot)) then db.alerts == old(db).alerts + created
              else created == []
    {
      created := [];
      var previous := Previous(db, url, snapshot);
      if IsRestock(inStock, previous) {
        ResolveAlerts(url);
        return;
      }
      if !IsOosTransition(inStock, previous) {
        return;
      }
      var trackings := db.trackings;
      for i := 0 to |trackings|
        invariant db == old(db).(alerts := Raise(trackings[..i], old(db).alerts, url))
        invariant db.alerts == old(db).alerts + created
      {
        assert trackings[..i + 1][..i] == trackings[..i];
        var t := trackings[i];
        if t.url != url || !t.enabled || t.silenced {
          continue;
        }
        if Active(db.alerts, t.id) {
          continue;
        }
        db := db.(alerts := db.alerts + [Alert(t.id, false)]);
        created := created + [Alert(t.id, false)];
      }
      assert trackings[..|trackings|] == trackings;
    }

    method ResolveAlerts(url: string)
      modifies this
      ensures db == old(db).(alerts := Resolve(old(db).trackings, old(db).alerts, url))
    {
      var alerts := db.alerts;
      for i := 0 to |alerts|
        invariant |alerts| == |old(db).alerts| && db == old(db)
        invariant alerts[..i] == Resolve(db.trackings, db.alerts, url)[..i]
        invariant alerts[i..] == db.alerts[i..]
      {
        if OnUrl(db.trackings, alerts[i].tracking, url) {
          alerts := alerts[i := Alert(alerts[i].tracking, true)];
        }
      }
      db := db.(alerts := alerts);
    }
  }

  /* ---- What holds over every run ---- */

  ghost predicate DistinctTrackings(trackings: seq<Tracking>) {
    forall i, j :: 0 <= i < j < |trackings| ==> trackings[i].id != trackings[j].id
  }

  /** At most one unresolved alert per tracking, so looking one up never finds two. */
  ghost predicate OneActive(alerts: seq<Alert>) {
    forall i, j :: 0 <= i < j < |alerts| && !alerts[i].resolved && !alerts[j].resolved ==>
      alerts[i].tracking != alerts[j].tracking
  }

  /** An unresolved alert is one of a tracking whose URL is out of stock right now. */
  ghost predicate Justified(db: Db) {
    forall i :: 0 <= i < |db.alerts| && !db.alerts[i].resolved ==>
      exists k :: TracksOutOfStock(db, db.alerts[i].tracking, k)
  }

  predicate TracksOutOfStock(db: Db, id: string, k: int) {
    && 0 <= k < |db.trackings| && db.trackings[k].id == id
    && Newest(db.rows, db.trackings[k].url).Some? && !Newest(db.rows, db.trackings[k].url).value.inStock
  }

  ghost predicate AlertInv(db: Db) {
    DistinctTrackings(db.trackings) && OneActive(db.alerts) && Justified(db)
  }

  lemma {:induction false} RaiseKeeps(trackings: seq<Tracking>, alerts: seq<Alert>, url: string)
    requires OneActive(alerts)
    ensures OneActive(Raise(trackings, alerts, url))
    ensures alerts <= Raise(trackings, alerts, url)
    ensures forall i :: |alerts| <= i < |Raise(trackings, alerts, url)| ==>
              !Raise(trackings, alerts, url)[i].resolved
                && OnUrl(trackings, Raise(trackings, alerts, url)[i].tracking, url)
  {
    if trackings == [] {
    } else {
      var n := |trackings| - 1;
      RaiseKeeps(trackings[..n], alerts, url);
      var before := Raise(trackings[..n], alerts, url);
      forall id | OnUrl(trackings[..n], id, url)
        ensures OnUrl(trackings, id, url)
      {
        var i :| 0 <= i < n && trackings[..n][i].id == id && trackings[..n][i].url == url;
        assert trackings[i].id == id;
      }
      assert trackings[n].url == url ==> OnUrl(trackings, trackings[n].id, url);
    }
  }

  lemma ActiveAlso(alerts: seq<Alert>, a: Alert, id: string)
    ensures Active(alerts + [a], id) <==> Active(alerts, id) || a == Alert(id, false)
  {
    assert (alerts + [a])[|alerts|] == a;
    if Active(alerts, id) {
      var i :| 0 <= i < |alerts| && alerts[i] == Alert(id, false);
      assert (alerts + [a])[i] == Alert(id, false);
    }
  }

  /** A tracking that a stock-out of the URL concerns. */
  predicate Concerned(trackings: seq<Tracking>, id: string, url: string) {
    exists t :: t in trackings && t.id == id && t.url == url && t.enabled && !t.silenced
  }

  /** A stock-out leaves every enabled, unsilenced tracking of the URL with an active alert
      and gives one to nobody else. */
  lemma {:induction false} StockOutAlertsTheConcerned(trackings: seq<Tracking>, alerts: seq<Alert>, url: string,
                                                      id: string)
    ensures Active(Raise(trackings, alerts, url), id) <==> Active(alerts, id) || Concerned(trackings, id, url)
  {
    if trackings == [] {
    } else {
      var before, t := trackings[..|trackings| - 1], trackings[|trackings| - 1];
      StockOutAlertsTheConcerned(before, alerts, url, id);
      assert trackings == before + [t];
      ActiveAlso(Raise(before, alerts, url), Alert(t.id, false), id);
    }
  }

  /** A restock leaves none of the URL's trackings with an active alert and touches no
      other. */
  lemma RestockResolvesTheUrl(trackings: seq<Tracking>, alerts: seq<Alert>, url: string, id: string)
    ensures Active(Resolve(trackings, alerts, url), id) <==> Active(alerts, id) && !OnUrl(trackings, id, url)
  {
    var after := Resolve(trackings, alerts, url);
    if Active(alerts, id) && !OnUrl(trackings, id, url) {
      var i :| 0 <= i < |alerts| && alerts[i] == Alert(id, false);
      assert after[i] == Alert(id, false);
    }
    if Active(after, id) {
      var i :| 0 <= i < |after| && after[i] == Alert(id, false);
      assert alerts[i] == Alert(id, false);
    }
  }

  lemma {:induction false} NewestButIgnores(rows: seq<Row>, url: string, exclude: int)
    requires exclude < 0 || exclude >= |rows|
    ensures NewestBut(rows, url, exclude) == Newest(rows, url)
  {
    if rows == [] {
    } else {
      NewestButIgnores(rows[..|rows| - 1], url, exclude);
    }
  }

  lemma NewestAfter(rows: seq<Row>, row: Row, url: string)
    ensures Newest(rows + [row], url) == if row.url == url then Some(row) else Newest(rows, url)
    ensures NewestBut(rows + [row], row.url, |rows|) == Newest(rows, row.url)
  {
    assert (rows + [row])[..|rows|] == rows;
    NewestButIgnores(rows, row.url, |rows|);
  }

  /** Storing one snapshot and detecting on it keeps the alert invariant. */
  lemma StoreKeepsAlertInv(db: Db, row: Row)
    requires AlertInv(db)
    ensures var stored := db.(rows := db.rows + [row]);
            AlertInv(stored.(alerts := Detect(stored, row.url, |db.rows|, row.inStock)))
  {
    var stored := db.(rows := db.rows + [row]);
    var after := stored.(alerts := Detect(stored, row.url, |db.rows|, row.inStock));
    NewestAfter(db.rows, row, row.url);
    RaiseKeeps(db.trackings, db.alerts, row.url);
    forall i | 0 <= i < |after.alerts| && !after.alerts[i].resolved
      ensures exists k :: TracksOutOfStock(after, after.alerts[i].tracking, k)
    {
      var id := after.alerts[i].tracking;
      if i < |db.alerts| {
        assert db.alerts[i] == after.alerts[i];
        var k :| TracksOutOfStock(db, id, k);
        NewestAfter(db.rows, row, db.trackings[k].url);
        if db.trackings[k].url == row.url && row.inStock {
          assert OnUrl(db.trackings, id, row.url);
        }
        assert TracksOutOfStock(after, id, k);
      } else {
        var k :| 0 <= k < |db.trackings| && db.trackings[k].id == id && db.trackings[k].url == row.url;
        assert TracksOutOfStock(after, id, k);
      }
    }
  }

  /** A stock-out is alerted. After storing and detecting an out-of-stock snapshot of a URL
      that had none, or whose newest was in stock, every enabled, unsilenced tracking of the
      URL has an active alert, and no other tracking gains or loses one. */
  lemma StockOutIsAlerted(db: Db, row: Row, id: string)
    requires !row.inStock
    requires Newest(db.rows, row.url).Some? ==> Newest(db.rows, row.url).value.inStock
    ensures var alerts := Detect(db.(rows := db.rows + [row]), row.url, |db.rows|, row.inStock);
            Active(alerts, id) <==> Active(db.alerts, id) || Concerned(db.trackings, id, row.url)
  {
    NewestAfter(db.rows, row, row.url);
    StockOutAlertsTheConcerned(db.trackings, db.alerts, row.url, id);
  }

  /** A restock is resolved. After an in-stock snapshot of a URL whose newest was out of
      stock, none of its trackings has an active alert, and no other tracking loses one. */
  lemma RestockIsResolved(db: Db, row: Row, id: string)
    requires row.inStock
    requires Newest(db.rows, row.url).Some? && !Newest(db.rows, row.url).value.inStock
    ensures var alerts := Detect(db.(rows := db.rows + [row]), row.url, |db.rows|, row.inStock);
            Active(alerts, id) <==> Active(db.alerts, id) && !OnUrl(db.trackings, id, row.url)
  {
    NewestAfter(db.rows, row, row.url);
    RestockResolvesTheUrl(db.trackings, db.alerts, row.url, id);
  }

  /** A snapshot whose stock equals the newest one's changes no alert. */
  lemma SameStockIsSilent(db: Db, row: Row)
    requires Newest(db.rows, row.url).Some? && Newest(db.rows, row.url).value.inStock == row.inStock
    ensures Detect(db.(rows := db.rows + [row]), row.url, |db.rows|, row.inStock) == db.alerts
  {
    NewestAfter(db.rows, row, row.url);
  }

  /** Enabling, disabling or silencing a tracking keeps the invariant. */
  lemma FlagsKeepAlertInv(db: Db, k: nat, enabled: bool, silenced: bool)
    requires AlertInv(db) && k < |db.trackings|
    ensures AlertInv(db.(trackings := db.trackings[k := db.trackings[k].(enabled := enabled, silenced := silenced)]))
  {
    var db' := db.(trackings := db.trackings[k := db.trackings[k].(enabled := enabled, silenced := silenced)]);
    forall i | 0 <= i < |db'.alerts| && !db'.alerts[i].resolved
      ensures exists j :: TracksOutOfStock(db', db'.alerts[i].tracking, j)
    {
      var j :| TracksOutOfStock(db, db.alerts[i].tracking, j);
      assert TracksOutOfStock(db', db'.alerts[i].tracking, j);
    }
  }

  lemma NewTrackingKeepsAlertInv(db: Db, t: Tracking)
    requires AlertInv(db) && forall i :: 0 <= i < |db.trackings| ==> db.trackings[i].id != t.id
    ensures AlertInv(db.(trackings := db.trackings + [t]))
  {
    var db' := db.(trackings := db.trackings + [t]);
    forall i | 0 <= i < |db'.alerts| && !db'.alerts[i].resolved
      ensures exists j :: TracksOutOfStock(db', db'.alerts[i].tracking, j)
    {
      var j :| TracksOutOfStock(db, db.alerts[i].tracking, j);
      assert TracksOutOfStock(db', db'.alerts[i].tracking, j);
    }
  }
}
