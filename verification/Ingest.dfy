/** The scraper's ingest endpoint (specter-api/routers/internal.py): excluded domains are
    dropped, unchanged values may be skipped, job uuids make stores idempotent, and every
    counted fetch runs its side effects.

    An item carries its URL-registry id already resolved; `skip` is the skip-write flag. */
module Ingest {
  import opened Wrappers
  import opened CycleStore
  import opened CycleCoordinator
  import opened OosDetector
  import opened Seqs

  /** What record_scrape_cost is called with. */
  datatype Charge = Charge(merchants: seq<string>, tier: string, bytes: int, captcha: bool)

  datatype Item = Item(domain: string, url: string, price: int, inStock: bool, jobUuid: Option<string>,
                       cycles: seq<(Cycle, int)>, charge: Charge)

  datatype Status = Excluded | Stored | Unchanged | Failed

  datatype World = World(db: Db, keys: Keys, fired: seq<Cycle>, charges: seq<Charge>, audits: seq<Status>)

  function ToRow(item: Item): Row {
    Row(item.url, item.price, item.inStock, item.jobUuid)
  }

  function Values(rows: seq<Row>, url: string): Option<(int, bool)> {
    var row := Newest(rows, url);
    if row.Some? then Some((row.value.price, row.value.inStock)) else None
  }

  function Uuids(rows: seq<Row>): set<string> {
    set r | r in rows && r.jobUuid.Some? :: r.jobUuid.value
  }

  function ItemUuids(items: seq<Item>): set<string> {
    set i | i in items && i.jobUuid.Some? :: i.jobUuid.value
  }

  predicate IsUnchanged(rows: seq<Row>, item: Item) {
    Values(rows, item.url) == Some((item.price, item.inStock))
  }

  /* ---- The stages, each on a prefix of the batch ---- */

  /** The items that go on to an insert. */
  function Kept(rows: seq<Row>, items: seq<Item>, excluded: set<string>, skip: bool): seq<Item> {
    if items == [] then [] else
      var before, item := Kept(rows, items[..|items| - 1], excluded, skip), items[|items| - 1];
      if item.domain in excluded || (skip && IsUnchanged(rows, item)) then before else before + [item]
  }

  /** The items that skip-write drops. */
  function Skipped(rows: seq<Row>, items: seq<Item>, excluded: set<string>, skip: bool): seq<Item> {
    if items == [] then [] else
      var before, item := Skipped(rows, items[..|items| - 1], excluded, skip), items[|items| - 1];
      if item.domain !in excluded && skip && IsUnchanged(rows, item) then before + [item] else before
  }

  /** Uuid-bearing items, the first of each uuid. */
  function WithUuid(items: seq<Item>): seq<Item> {
    if items == [] then [] else
      var before, item := WithUuid(items[..|items| - 1]), items[|items| - 1];
      if item.jobUuid.Some? && item.jobUuid.value !in ItemUuids(before) then before + [item] else before
  }

  function Plain(items: seq<Item>): seq<Item> {
    if items == [] then [] else
      var before, item := Plain(items[..|items| - 1]), items[|items| - 1];
      if item.jobUuid.None? then before + [item] else before
  }

  /** INSERT ... ON CONFLICT (job_uuid) DO NOTHING: the items actually stored. */
  function NotStored(rows: seq<Row>, items: seq<Item>): seq<Item> {
    if items == [] then [] else
      var before, item := NotStored(rows, items[..|items| - 1]), items[|items| - 1];
      if item.jobUuid.Some? && item.jobUuid.value in Uuids(rows) then before else before + [item]
  }

  function Inserted(rows: seq<Row>, items: seq<Item>, excluded: set<string>, skip: bool): seq<Item> {
    var kept := Kept(rows, items, excluded, skip);
    NotStored(rows, WithUuid(kept)) + Plain(kept)
  }

  function ToRows(items: seq<Item>): seq<Row> {
    seq(|items|, i requires 0 <= i < |items| => ToRow(items[i]))
  }

  /** Cycle slots, audit row and cost of one counted fetch. */
  function Landed(w: World, cycles: seq<(Cycle, int)>, charge: Charge, status: Status, now: int): World {
    var (keys, fired) := RecordAll(w.keys, cycles, now);
    w.(keys := keys, fired := w.fired + fired, audits := w.audits + [status], charges := w.charges + [charge])
  }

  function Count(w: World, item: Item, status: Status, now: int): World {
    Landed(w, item.cycles, item.charge, status, now)
  }

  /** Side effects of new snapshots, whose ids start at `first`. */
  function StoreEffects(w: World, items: seq<Item>, first: int, now: int): World {
    if items == [] then w else
      var n := |items| - 1;
      var before := StoreEffects(w, items[..n], first, now);
      var alerts := Detect(before.db, items[n].url, first + n, items[n].inStock);
      Count(before.(db := before.db.(alerts := alerts)), items[n], Stored, now)
  }

  function SkipEffects(w: World, items: seq<Item>, now: int): World {
    if items == [] then w
    else Count(SkipEffects(w, items[..|items| - 1], now), items[|items| - 1], Unchanged, now)
  }

  function ExcludeEffects(w: World, items: seq<Item>, excluded: set<string>): World {
    if items == [] then w else
      var before := ExcludeEffects(w, items[..|items| - 1], excluded);
      if items[|items| - 1].domain in excluded then before.(audits := before.audits + [Excluded]) else before
  }

  /** The world after one ingest call. */
  function After(w: World, items: seq<Item>, excluded: set<string>, skip: bool, now: int): World {
    var rows := w.db.rows;
    var inserted := Inserted(rows, items, excluded, skip);
    var w1 := ExcludeEffects(w, items, excluded);
    var w2 := w1.(db := w1.db.(rows := rows + ToRows(inserted)));
    var w3 := StoreEffects(w2, inserted, |rows|, now);
    SkipEffects(w3, Skipped(rows, items, excluded, skip), now)
  }

  /** The fires of one call, and the merchants they are for. */
  function NewFires(before: World, after: World): seq<Cycle>
    requires |before.fired| <= |after.fired|
  {
    after.fired[|before.fired|..]
  }

  function Merchants(fired: seq<Cycle>): set<string> {
    set c | c in fired :: c.merchant
  }

  /** _fire_cycle_signals: one signal run for each merchant, however many of its cycles
      completed. */
  method FireCycleSignals(fired: seq<Cycle>) returns (runs: seq<string>)
    ensures Distinct(runs) && ToSet(runs) == Merchants(fired) && |runs| == |Merchants(fired)|
  {
    runs := [];
    for i := 0 to |fired|
      invariant Distinct(runs) && ToSet(runs) == Merchants(fired[..i])
    {
      assert fired[..i + 1] == fired[..i] + [fired[i]];
      assert Merchants(fired[..i + 1]) == Merchants(fired[..i]) + {fired[i].merchant};
      assert fired[i].merchant in runs <==> fired[i].merchant in ToSet(runs);
      if fired[i].merchant !in runs {
        assert ToSet(runs + [fired[i].merchant]) == ToSet(runs) + {fired[i].merchant};
        runs := runs + [fired[i].merchant];
      }
    }
    assert fired[..|fired|] == fired;
    DistinctSize(runs);
  }

  class Endpoint {
    var w: World

    constructor (w: World)
      ensures this.w == w
    {
      this.w := w;
    }

    /** _ingest: returns how many snapshots it stored, how many items it received and for
        how many merchants a cycle completed. */
    method Ingest(items: seq<Item>, excluded: set<string>, skip: bool, now: int)
        returns (inserted: nat, received: nat, cyclesFired: nat)
      modifies this
      ensures w == After(old(w), items, excluded, skip, now)
      ensures received == |items| && inserted == |Inserted(old(w).db.rows, items, excluded, skip)|
      ensures |w.db.rows| == |old(w).db.rows| + inserted
      ensures old(w).fired <= w.fired && cyclesFired == |Merchants(NewFires(old(w), w))|
    {
      var rows, fired := w.db.rows, |w.fired|;
      var kept, skipped := Partition(items, excluded, skip);
      var withUuid, plain := Split(kept);
      var stored := NotStored(rows, withUuid) + plain;
      assert stored == Inserted(rows, items, excluded, skip);
      w := w.(db := w.db.(rows := rows + ToRows(stored)));
      RunStoreEffects(stored, |rows|, now);
      RunSkipEffects(skipped, now);
      RowsFixed(ExcludeEffects(old(w), items, excluded).(db := old(w).db.(rows := rows + ToRows(stored))), stored,
                |rows|, skipped, now);
      FiresAreAppended(old(w), items, excluded, skip, now);
      var runs := FireCycleSignals(w.fired[fired..]);
      return |stored|, |items|, |runs|;
    }

    /** Drops and audits excluded items, and separates the unchanged ones. */
    method Partition(items: seq<Item>, excluded: set<string>, skip: bool) returns (kept: seq<Item>, skipped: seq<Item>)
      modifies this
      ensures w == ExcludeEffects(old(w), items, excluded) && w.db == old(w).db
      ensures kept == Kept(w.db.rows, items, excluded, skip) && skipped == Skipped(w.db.rows, items, excluded, skip)
    {
      kept, skipped := [], [];
      for i := 0 to |items|
        invariant w == ExcludeEffects(old(w), items[..i], excluded) && w.db == old(w).db
        invariant kept == Kept(w.db.rows, items[..i], excluded, skip)
        invariant skipped == Skipped(w.db.rows, items[..i], excluded, skip)
      {
        assert items[..i + 1][..i] == items[..i];
        if items[i].domain in excluded {
          w := w.(audits := w.audits + [Excluded]);
          continue;
        }
        if skip && IsUnchanged(w.db.rows, items[i]) {
          skipped := skipped + [items[i]];
        } else {
          kept := kept + [items[i]];
        }
      }
      assert items[..|items|] == items;
    }

    /** Uuid-bearing items, deduplicated within the batch, and the uuid-less rest. */
    method Split(kept: seq<Item>) returns (withUuid: seq<Item>, plain: seq<Item>)
      ensures withUuid == WithUuid(kept) && plain == Plain(kept)
    {
      withUuid, plain := [], [];
      var seen: set<string> := {};
      for i := 0 to |kept|
        invariant withUuid == WithUuid(kept[..i]) && plain == Plain(kept[..i])
        invariant seen == ItemUuids(withUuid)
      {
        assert kept[..i + 1][..i] == kept[..i];
        if kept[i].jobUuid.None? {
          plain := plain + [kept[i]];
        } else if kept[i].jobUuid.value !in seen {
          seen := seen + {kept[i].jobUuid.value};
          withUuid := withUuid + [kept[i]];
        }
      }
      assert kept[..|kept|] == kept;
    }

    /** scrape_failed: a failed fetch still counts its cycle slots and its cost. */
    method ScrapeFailed(cycles: seq<(Cycle, int)>, charge: Charge, now: int) returns (cyclesFired: nat)
      modifies this
      ensures w == Landed(old(w), cycles, charge, Failed, now)
      ensures w.db == old(w).db
      ensures w.audits == old(w).audits + [Failed] && w.charges == old(w).charges + [charge]
      ensures old(w).fired <= w.fired && cyclesFired == |Merchants(NewFires(old(w), w))|
    {
      var fired := |w.fired|;
      for i := 0 to |cycles|
        invariant w == old(w).(keys := RecordAll(old(w).keys, cycles[..i], now).0,
                               fired := old(w).fired + RecordAll(old(w).keys, cycles[..i], now).1)
      {
        assert cycles[..i + 1][..i] == cycles[..i];
        var (keys, fired) := RecordKeys(w.keys, cycles[i].0, now, cycles[i].1);
        w := w.(keys := keys, fired := w.fired + if fired then [cycles[i].0] else []);
      }
      assert cycles[..|cycles|] == cycles;
      w := w.(audits := w.audits + [Failed], charges := w.charges + [charge]);
      var runs := FireCycleSignals(w.fired[fired..]);
      return |runs|;
    }

    method RunStoreEffects(items: seq<Item>, first: int, now: int)
      modifies this
      ensures w == StoreEffects(old(w), items, first, now)
    {
      for i := 0 to |items|
        invariant w == StoreEffects(old(w), items[..i], first, now)
      {
        assert items[..i + 1][..i] == items[..i];
        var session := new AlertSession(w.db);
        var _ := session.DetectAndWrite(items[i].url, first + i, items[i].inStock);
        w := Count(w.(db := session.db), items[i], Stored, now);
      }
      assert items[..|items|] == items;
    }

    method RunSkipEffects(items: seq<Item>, now: int)
      modifies this
      ensures w == SkipEffects(old(w), items, now)
    {
      for i := 0 to |items|
        invariant w == SkipEffects(old(w), items[..i], now)
      {
        assert items[..i + 1][..i] == items[..i];
        w := Count(w, items[i], Unchanged, now);
      }
      assert items[..|items|] == items;
    }
  }

  /** Side effects touch no snapshot and no tracking. */
  lemma {:induction false} StoreEffectsFrame(w: World, items: seq<Item>, first: int, now: int)
    ensures var w' := StoreEffects(w, items, first, now);
            w'.db.rows == w.db.rows && w'.db.trackings == w.db.trackings
  {
    if items == [] {
    } else {
      StoreEffectsFrame(w, items[..|items| - 1], first, now);
    }
  }

  lemma {:induction false} SkipEffectsFrame(w: World, items: seq<Item>, now: int)
    ensures SkipEffects(w, items, now).db == w.db
  {
    if items == [] {
    } else {
      SkipEffectsFrame(w, items[..|items| - 1], now);
    }
  }

  lemma {:induction false} ExcludeEffectsFrame(w: World, items: seq<Item>, excluded: set<string>)
    ensures ExcludeEffects(w, items, excluded) == w.(audits := ExcludeEffects(w, items, excluded).audits)
  {
    if items == [] {
    } else {
      ExcludeEffectsFrame(w, items[..|items| - 1], excluded);
    }
  }

  lemma RowsFixed(w: World, items: seq<Item>, first: int, skipped: seq<Item>, now: int)
    ensures SkipEffects(StoreEffects(w, items, first, now), skipped, now).db.rows == w.db.rows
  {
    StoreEffectsFrame(w, items, first, now);
    SkipEffectsFrame(StoreEffects(w, items, first, now), skipped, now);
  }

  lemma AfterRows(w: World, items: seq<Item>, excluded: set<string>, skip: bool, now: int)
    ensures After(w, items, excluded, skip, now).db.rows
            == w.db.rows + ToRows(Inserted(w.db.rows, items, excluded, skip))
    ensures After(w, items, excluded, skip, now).db.trackings == w.db.trackings
  {
    var rows := w.db.rows;
    var inserted := Inserted(rows, items, excluded, skip);
    ExcludeEffectsFrame(w, items, excluded);
    var w1 := ExcludeEffects(w, items, excluded);
    var w2 := w1.(db := w1.db.(rows := rows + ToRows(inserted)));
    StoreEffectsFrame(w2, inserted, |rows|, now);
    SkipEffectsFrame(StoreEffects(w2, inserted, |rows|, now), Skipped(rows, items, excluded, skip), now);
  }

  lemma {:induction false} EffectsAppendFires(w: World, items: seq<Item>, first: int, skipped: seq<Item>, now: int)
    ensures w.fired <= StoreEffects(w, items, first, now).fired
    ensures w.fired <= SkipEffects(w, skipped, now).fired
    decreases |items| + |skipped|
  {
    if items == [] {
    } else {
      EffectsAppendFires(w, items[..|items| - 1], first, [], now);
    }
    if skipped == [] {
    } else {
      EffectsAppendFires(w, [], first, skipped[..|skipped| - 1], now);
    }
  }

  lemma FiresAreAppended(w: World, items: seq<Item>, excluded: set<string>, skip: bool, now: int)
    ensures w.fired <= After(w, items, excluded, skip, now).fired
  {
    var rows := w.db.rows;
    var inserted, skipped := Inserted(rows, items, excluded, skip), Skipped(rows, items, excluded, skip);
    ExcludeEffectsFrame(w, items, excluded);
    var w2 := ExcludeEffects(w, items, excluded).(db := w.db.(rows := rows + ToRows(inserted)));
    EffectsAppendFires(w2, inserted, |rows|, [], now);
    EffectsAppendFires(StoreEffects(w2, inserted, |rows|, now), [], 0, skipped, now);
  }
}
