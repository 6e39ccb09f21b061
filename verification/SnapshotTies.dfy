/** Which snapshot is the newest of its URL? The uuid-bearing rows of one insert carry one
    timestamp (specter-api/routers/internal.py), and a query that orders by timestamp may
    return any of the rows that tie (specter-api/signals/oos_detector.py). Here a query has
    every result the database may give; rows without a uuid, and different calls, are
    stamped at different instants. */
module SnapshotTies {
  import opened Wrappers
  import opened OosDetector
  import opened Ingest

  /** Row `i` was stamped at instant `stamps[i]`. */
  datatype Table = Table(rows: seq<Row>, stamps: seq<nat>)

  /** The clock follows insertion. */
  predicate WellStamped(t: Table) {
    && |t.rows| == |t.stamps|
    && (forall i :: 0 <= i < |t.stamps| ==> t.stamps[i] <= i)
    && (forall i, j :: 0 <= i < j < |t.stamps| ==> t.stamps[i] <= t.stamps[j])
  }

  predicate Candidate(t: Table, url: string, exclude: int, i: int) {
    0 <= i < |t.rows| && i != exclude && t.rows[i].url == url
  }

  /** What the newest row of a URL, other than row `exclude`, may be read to be. */
  ghost predicate MayRead(t: Table, url: string, exclude: int, r: Option<nat>)
    requires |t.rows| == |t.stamps|
  {
    match r
    case None => forall i :: !Candidate(t, url, exclude, i)
    case Some(n) =>
      Candidate(t, url, exclude, n) && forall i :: Candidate(t, url, exclude, i) ==> t.stamps[i] <= t.stamps[n]
  }

  /** The last-inserted row is one such reading. */
  function LastRow(rows: seq<Row>, url: string, exclude: int): (r: Option<nat>)
    ensures r.Some? ==> r.value < |rows|
  {
    if rows == [] then None
    else if rows[|rows| - 1].url == url && |rows| - 1 != exclude then Some(|rows| - 1)
    else LastRow(rows[..|rows| - 1], url, exclude)
  }

  lemma {:induction false} LastRowIsNewest(rows: seq<Row>, url: string, exclude: int)
    ensures var r := LastRow(rows, url, exclude);
            && NewestBut(rows, url, exclude) == (if r.Some? then Some(rows[r.value]) else None)
            && (r.Some? ==> rows[r.value].url == url && r.value != exclude)
            && forall i :: (if r.Some? then r.value else -1) < i < |rows| && i != exclude ==> rows[i].url != url
  {
    if rows == [] {
    } else {
      LastRowIsNewest(rows[..|rows| - 1], url, exclude);
    }
  }

  /** The insertion-order reading of the endpoint's model is one the database may give. */
  lemma LastRowMayBeRead(t: Table, url: string, exclude: int)
    requires WellStamped(t)
    ensures MayRead(t, url, exclude, LastRow(t.rows, url, exclude))
  {
    LastRowIsNewest(t.rows, url, exclude);
  }

  /* ---- Storing a batch ---- */

  /** The insert stores uuid-bearing rows first, in one statement. */
  predicate UuidsFirst(items: seq<Item>) {
    forall i, j :: 0 <= i < j < |items| && items[j].jobUuid.Some? ==> items[i].jobUuid.Some?
  }

  function StampsOf(items: seq<Item>, first: nat): seq<nat> {
    seq(|items|, k requires 0 <= k < |items| => if items[k].jobUuid.Some? then first else first + k)
  }

  function StoreAll(t: Table, items: seq<Item>): Table {
    Table(t.rows + ToRows(items), t.stamps + StampsOf(items, |t.rows|))
  }

  lemma StoreAllIsWellStamped(t: Table, items: seq<Item>)
    requires WellStamped(t) && UuidsFirst(items)
    ensures WellStamped(StoreAll(t, items))
  {
  }

  /** Item `i` may be read as the newest of its URL in the batch, item `but` left out. */
  predicate ItemRead(items: seq<Item>, url: string, but: int, i: int) {
    && 0 <= i < |items| && i != but && items[i].url == url
    && forall k :: i < k < |items| && k != but && items[k].url == url ==> items[k].jobUuid.Some?
  }

  predicate HasItem(items: seq<Item>, url: string, but: int) {
    exists k :: 0 <= k < |items| && k != but && items[k].url == url
  }

  /** The row of item `but`, if any. */
  function RowOf(t: Table, but: int): int {
    if but < 0 then -1 else |t.rows| + but
  }

  lemma StoredAt(t: Table, items: seq<Item>, k: nat)
    requires WellStamped(t) && k < |items|
    ensures var s := StoreAll(t, items);
            && |s.rows| == |s.stamps| == |t.rows| + |items|
            && s.rows[|t.rows| + k] == ToRow(items[k])
            && s.stamps[|t.rows| + k] == if items[k].jobUuid.Some? then |t.rows| else |t.rows| + k
  {
  }

  function StampOf(t: Table, items: seq<Item>, k: nat): nat
    requires k < |items|
  {
    if items[k].jobUuid.Some? then |t.rows| else |t.rows| + k
  }

  lemma StampsDecide(t: Table, items: seq<Item>, i: nat, k: nat)
    requires UuidsFirst(items) && i < |items| && k < |items|
    ensures StampOf(t, items, k) <= StampOf(t, items, i) <==> k <= i || items[k].jobUuid.Some?
  {
  }

  lemma BatchCandidate(t: Table, items: seq<Item>, url: string, but: int, k: nat)
    requires WellStamped(t) && k < |items|
    ensures Candidate(StoreAll(t, items), url, RowOf(t, but), |t.rows| + k) <==> k != but && items[k].url == url
  {
    StoredAt(t, items, k);
  }

  lemma OlderStamps(t: Table, items: seq<Item>, r: nat)
    requires WellStamped(t) && r < |t.rows|
    ensures |StoreAll(t, items).rows| == |StoreAll(t, items).stamps| == |t.rows| + |items|
    ensures StoreAll(t, items).stamps[r] == t.stamps[r] < |t.rows|
  {
  }

  lemma RowReadMeansItemRead(t: Table, items: seq<Item>, url: string, but: int, i: int)
    requires WellStamped(t) && UuidsFirst(items) && -1 <= but < |items| && 0 <= i < |items|
    requires |StoreAll(t, items).rows| == |StoreAll(t, items).stamps|
    requires MayRead(StoreAll(t, items), url, RowOf(t, but), Some(|t.rows| + i))
    ensures ItemRead(items, url, but, i)
  {
    StoredAt(t, items, i);
    BatchCandidate(t, items, url, but, i);
    forall k | i < k < |items| && k != but && items[k].url == url
      ensures items[k].jobUuid.Some?
    {
      BatchCandidate(t, items, url, but, k);
      StoredAt(t, items, k);
      StampsDecide(t, items, i, k);
    }
  }

  lemma ItemReadMeansRowRead(t: Table, items: seq<Item>, url: string, but: int, i: int)
    requires WellStamped(t) && UuidsFirst(items) && -1 <= but < |items| && ItemRead(items, url, but, i)
    ensures |StoreAll(t, items).rows| == |StoreAll(t, items).stamps|
    ensures MayRead(StoreAll(t, items), url, RowOf(t, but), Some(|t.rows| + i))
  {
    var s, first, row := StoreAll(t, items), |t.rows|, RowOf(t, but);
    StoredAt(t, items, i);
    BatchCandidate(t, items, url, but, i);
    forall r | Candidate(s, url, row, r)
      ensures s.stamps[r] <= s.stamps[first + i]
    {
      if r < first {
        OlderStamps(t, items, r);
      } else {
        BatchCandidate(t, items, url, but, r - first);
        StoredAt(t, items, r - first);
        StampsDecide(t, items, i, r - first);
      }
    }
  }

  /** A query reads a row of the batch if it has one, in the order of the batch's stamps. */
  lemma ReadsTheBatch(t: Table, items: seq<Item>, url: string, but: int, i: int)
    requires WellStamped(t) && UuidsFirst(items) && -1 <= but < |items| && 0 <= i < |items|
    ensures |StoreAll(t, items).rows| == |StoreAll(t, items).stamps|
    ensures MayRead(StoreAll(t, items), url, RowOf(t, but), Some(|t.rows| + i)) <==> ItemRead(items, url, but, i)
  {
    StoredAt(t, items, i);
    hide *;
    if MayRead(StoreAll(t, items), url, RowOf(t, but), Some(|t.rows| + i)) {
      RowReadMeansItemRead(t, items, url, but, i);
    }
    if ItemRead(items, url, but, i) {
      ItemReadMeansRowRead(t, items, url, but, i);
    }
  }

  /** ... and only a row of the batch. */
  lemma ReadsOnlyTheBatch(t: Table, items: seq<Item>, url: string, but: int, r: Option<nat>)
    requires WellStamped(t) && UuidsFirst(items) && -1 <= but < |items| && HasItem(items, url, but)
    requires |StoreAll(t, items).rows| == |StoreAll(t, items).stamps|
    requires MayRead(StoreAll(t, items), url, RowOf(t, but), r)
    ensures r.Some? && |t.rows| <= r.value < |t.rows| + |items| && ItemRead(items, url, but, r.value - |t.rows|)
  {
    var s, first := StoreAll(t, items), |t.rows|;
    var k :| 0 <= k < |items| && k != but && items[k].url == url;
    StoredAt(t, items, k);
    assert Candidate(s, url, RowOf(t, but), first + k);
    assert s.stamps[first + k] >= first;
    forall o | 0 <= o < first
      ensures s.stamps[o] < first
    {
      OlderStamps(t, items, o);
    }
    assert r.value >= first;
    ReadsTheBatch(t, items, url, but, r.value - first);
  }

  /** With no such row in the batch it reads what it read before. */
  lemma ReadsBeyondTheBatch(t: Table, items: seq<Item>, url: string, but: int, r: Option<nat>)
    requires WellStamped(t) && UuidsFirst(items) && -1 <= but < |items| && !HasItem(items, url, but)
    ensures |StoreAll(t, items).rows| == |StoreAll(t, items).stamps|
    ensures MayRead(StoreAll(t, items), url, RowOf(t, but), r) <==> MayRead(t, url, -1, r)
  {
    var s, first, row := StoreAll(t, items), |t.rows|, RowOf(t, but);
    forall i
      ensures Candidate(s, url, row, i) <==> Candidate(t, url, -1, i)
    {
      if first <= i < |s.rows| {
        StoredAt(t, items, i - first);
      }
    }
    assert forall i :: 0 <= i < first ==> s.stamps[i] == t.stamps[i];
  }
}
