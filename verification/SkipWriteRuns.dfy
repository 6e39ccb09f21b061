/** Skip-write on and off over whole runs of batches (specter-api/routers/internal.py). */
module SkipWriteRuns {
  import opened Wrappers
  import opened Seqs
  import opened CycleStore
  import opened CycleCoordinator
  import opened OosDetector
  import opened Ingest
  import opened IngestProperties
  import opened SnapshotTies
  import opened AlertBatches
  import opened BatchTransparency

  /* ---- What a call counts, whatever its order ---- */

  function SlotsOf(items: seq<Item>): seq<(Cycle, int)> {
    if items == [] then [] else SlotsOf(items[..|items| - 1]) + items[|items| - 1].cycles
  }

  function ChargesOf(items: seq<Item>): seq<Charge> {
    if items == [] then [] else ChargesOf(items[..|items| - 1]) + [items[|items| - 1].charge]
  }

  lemma {:induction false} RecordAppend(keys: Keys, a: seq<(Cycle, int)>, b: seq<(Cycle, int)>, now: int)
    ensures var (mid, first) := RecordAll(keys, a, now);
            var (last, second) := RecordAll(mid, b, now);
            RecordAll(keys, a + b, now) == (last, first + second)
  {
    if b == [] {
      assert a + b == a;
      assert RecordAll(keys, a, now).1 + [] == RecordAll(keys, a, now).1;
    } else {
      RecordAppend(keys, a, b[..|b| - 1], now);
      assert (a + b)[..|a + b| - 1] == a + b[..|b| - 1];
      hide RecordKeys;
      var (mid, first) := RecordAll(keys, a, now);
      var (before, second) := RecordAll(mid, b[..|b| - 1], now);
      var last := b[|b| - 1];
      var fire := if RecordKeys(before, last.0, now, last.1).1 then [last.0] else [];
      assert first + (second + fire) == (first + second) + fire;
    }
  }

  /** The world's counts after some landings. */
  predicate Counts(before: World, after: World, slots: seq<(Cycle, int)>, charges: seq<Charge>, audits: nat, now: int) {
    var (keys, fires) := RecordAll(before.keys, slots, now);
    && after.keys == keys && after.fired == before.fired + fires
    && after.charges == before.charges + charges && |after.audits| == |before.audits| + audits
  }

  lemma CountsPush(a: World, b: World, w: World, item: Item, status: Status, slots: seq<(Cycle, int)>,
                   charges: seq<Charge>, audits: nat, now: int)
    requires Counts(a, b, slots, charges, audits, now)
    requires w == Count(b.(db := w.db), item, status, now)
    ensures Counts(a, w, slots + item.cycles, charges + [item.charge], audits + 1, now)
  {
    RecordAppend(a.keys, slots, item.cycles, now);
  }

  lemma {:induction false} EffectsCount(w: World, items: seq<Item>, first: int, now: int)
    ensures Counts(w, StoreEffects(w, items, first, now), SlotsOf(items), ChargesOf(items), |items|, now)
    ensures Counts(w, SkipEffects(w, items, now), SlotsOf(items), ChargesOf(items), |items|, now)
  {
    if items == [] {
    } else {
      var before, item := items[..|items| - 1], items[|items| - 1];
      EffectsCount(w, before, first, now);
      CountsPush(w, StoreEffects(w, before, first, now), StoreEffects(w, items, first, now), item, Stored,
                 SlotsOf(before), ChargesOf(before), |before|, now);
      CountsPush(w, SkipEffects(w, before, now), SkipEffects(w, items, now), item, Unchanged,
                 SlotsOf(before), ChargesOf(before), |before|, now);
    }
  }

  lemma CountsCompose(a: World, b: World, c: World, slots: seq<(Cycle, int)>, more: seq<(Cycle, int)>,
                      charges: seq<Charge>, others: seq<Charge>, m: nat, n: nat, now: int)
    requires Counts(a, b, slots, charges, m, now) && Counts(b, c, more, others, n, now)
    ensures Counts(a, c, slots + more, charges + others, m + n, now)
  {
    RecordAppend(a.keys, slots, more, now);
  }

  lemma {:induction false} ExclusionsAudited(w: World, items: seq<Item>, excluded: set<string>)
    ensures |ExcludeEffects(w, items, excluded).audits| + |Admitted(items, excluded)| == |w.audits| + |items|
  {
    if items == [] {
    } else {
      ExclusionsAudited(w, items[..|items| - 1], excluded);
    }
  }

  lemma AfterInStages(w: World, items: seq<Item>, excluded: set<string>, skip: bool, now: int)
    ensures var rows, inserted := w.db.rows, Inserted(w.db.rows, items, excluded, skip);
            var w1 := w.(audits := ExcludeEffects(w, items, excluded).audits);
            var w2 := w1.(db := w.db.(rows := rows + ToRows(inserted)));
            After(w, items, excluded, skip, now)
            == SkipEffects(StoreEffects(w2, inserted, |rows|, now), Skipped(rows, items, excluded, skip), now)
  {
    ExcludeEffectsFrame(w, items, excluded);
    hide Inserted, Skipped, StoreEffects, SkipEffects, ExcludeEffects;
  }

  /** One call counts the slots and charges of its inserted and skipped items. */
  lemma CallCounts(w: World, items: seq<Item>, excluded: set<string>, skip: bool, now: int,
                   inserted: seq<Item>, skipped: seq<Item>)
    requires inserted == Inserted(w.db.rows, items, excluded, skip)
    requires skipped == Skipped(w.db.rows, items, excluded, skip)
    ensures Counts(w.(audits := ExcludeEffects(w, items, excluded).audits), After(w, items, excluded, skip, now),
                   SlotsOf(inserted) + SlotsOf(skipped), ChargesOf(inserted) + ChargesOf(skipped),
                   |inserted| + |skipped|, now)
  {
    var rows := w.db.rows;
    ExcludeEffectsFrame(w, items, excluded);
    var w1 := w.(audits := ExcludeEffects(w, items, excluded).audits);
    var w2 := w1.(db := w1.db.(rows := rows + ToRows(inserted)));
    var w3 := StoreEffects(w2, inserted, |rows|, now);
    hide Inserted, Skipped, StoreEffects, SkipEffects, ExcludeEffects, After, SlotsOf, ChargesOf, ToRows, RecordAll;
    EffectsCount(w2, inserted, |rows|, now);
    EffectsCount(w3, skipped, 0, now);
    AfterInStages(w, items, excluded, skip, now);
    CountsCompose(w2, w3, SkipEffects(w3, skipped, now), SlotsOf(inserted), SlotsOf(skipped), ChargesOf(inserted),
                  ChargesOf(skipped), |inserted|, |skipped|, now);
  }

  /* ---- Totals that do not depend on the order ---- */

  function Total(items: seq<Item>, f: Item -> nat): nat {
    if items == [] then 0 else Total(items[..|items| - 1], f) + f(items[|items| - 1])
  }

  lemma {:induction false} TotalAppend(a: seq<Item>, b: seq<Item>, f: Item -> nat)
    ensures Total(a + b, f) == Total(a, f) + Total(b, f)
  {
    if b == [] {
      assert a + b == a;
    } else {
      TotalAppend(a, b[..|b| - 1], f);
      assert (a + b)[..|a + b| - 1] == a + b[..|b| - 1];
    }
  }

  lemma {:induction false} TotalSplit(items: seq<Item>, f: Item -> nat)
    requires OnceEach(items)
    ensures Total(WithUuid(items), f) + Total(Plain(items), f) == Total(items, f)
  {
    if items == [] {
    } else {
      hide *;
      var before, item := items[..|items| - 1], items[|items| - 1];
      TotalSplit(before, f);
      UuidPush(before, item);
      assert items == before + [item];
    }
  }

  lemma TotalOrdered(items: seq<Item>, f: Item -> nat)
    requires OnceEach(items)
    ensures Total(Ordered(items), f) == Total(items, f)
  {
    TotalAppend(WithUuid(items), Plain(items), f);
    TotalSplit(items, f);
  }

  lemma {:induction false} TotalSkipped(rows: seq<Row>, items: seq<Item>, excluded: set<string>, f: Item -> nat)
    ensures Total(Kept(rows, items, excluded, true), f) + Total(Skipped(rows, items, excluded, true), f)
            == Total(Admitted(items, excluded), f)
  {
    hide IsUnchanged;
    if items == [] {
    } else {
      var before, item := items[..|items| - 1], items[|items| - 1];
      TotalSkipped(rows, before, excluded, f);
    }
  }

  /** Both runs of a call with new uuids count every admitted item once. */
  lemma BothCountAll(on: seq<Row>, off: seq<Row>, items: seq<Item>, excluded: set<string>, f: Item -> nat)
    requires NewUuids(on, items) && NewUuids(off, items) && forall url :: Values(on, url) == Values(off, url)
    ensures Total(Inserted(on, items, excluded, true), f) + Total(Skipped(on, items, excluded, true), f)
            == Total(Admitted(items, excluded), f)
    ensures Total(Inserted(off, items, excluded, false), f) == Total(Admitted(items, excluded), f)
    ensures Skipped(off, items, excluded, false) == []
  {
    var admitted := Admitted(items, excluded);
    InsertsOfTheRuns(on, off, items, excluded);
    AdmittedOnce(on, items, excluded);
    TotalOrdered(admitted, f);
    NoSkipping(off, off, items, excluded);
    KeptIsChanged(on, off, items, excluded);
    ChangedNew(on, off, admitted);
    AllNew(on, Changed(off, admitted));
    TotalOrdered(Changed(off, admitted), f);
    TotalSkipped(on, items, excluded, f);
  }

  lemma {:induction false} SlotTotal(items: seq<Item>, c: Cycle, f: Item -> nat)
    requires forall item: Item :: f(item) == SlotCount(item.cycles, c)
    ensures SlotCount(SlotsOf(items), c) == Total(items, f)
  {
    if items == [] {
    } else {
      SlotTotal(items[..|items| - 1], c, f);
      SlotCountAppend(SlotsOf(items[..|items| - 1]), items[|items| - 1].cycles, c);
    }
  }

  lemma {:induction false} SlotCountAppend(a: seq<(Cycle, int)>, b: seq<(Cycle, int)>, c: Cycle)
    ensures SlotCount(a + b, c) == SlotCount(a, c) + SlotCount(b, c)
  {
    if b == [] {
      assert a + b == a;
    } else {
      SlotCountAppend(a, b[..|b| - 1], c);
      assert (a + b)[..|a + b| - 1] == a + b[..|b| - 1];
    }
  }

  lemma {:induction false} ChargeTotal(items: seq<Item>, charge: Charge, f: Item -> nat)
    requires forall item: Item :: f(item) == if item.charge == charge then 1 else 0
    ensures multiset(ChargesOf(items))[charge] == Total(items, f)
  {
    if items == [] {
    } else {
      ChargeTotal(items[..|items| - 1], charge, f);
    }
  }

  lemma {:induction false} CountTotal(items: seq<Item>, f: Item -> nat)
    requires forall item: Item :: f(item) == 1
    ensures |items| == Total(items, f)
  {
    if items == [] {
    } else {
      CountTotal(items[..|items| - 1], f);
    }
  }

  /* ---- The two runs side by side ---- */

  /** The endpoint's world, with its snapshots' timestamps. */
  datatype State = State(w: World, t: Table)

  ghost predicate Good(s: State) {
    s.t.rows == s.w.db.rows && WellStamped(s.t)
  }

  function TablesOf(s: State): Tables {
    Tables(s.t, s.w.db.trackings, s.w.db.alerts)
  }

  /** One call, whose detections read `seen`: the endpoint's but for the alerts. */
  function Call(s: State, items: seq<Item>, excluded: set<string>, skip: bool, now: int,
                seen: seq<Option<nat>>): State
  {
    var w, inserted := After(s.w, items, excluded, skip, now), Inserted(s.t.rows, items, excluded, skip);
    var alerts := if |seen| == |inserted| then StoreAndDetect(TablesOf(s), inserted, seen).alerts else w.db.alerts;
    State(w.(db := w.db.(alerts := alerts)), StoreAll(s.t, inserted))
  }

  /** The database may give the call's detections these readings. */
  ghost predicate MayGive(s: State, items: seq<Item>, excluded: set<string>, skip: bool, seen: seq<Option<nat>>) {
    InsertedUuidsFirst(s.t.rows, items, excluded, skip);
    WellStamped(s.t) && ValidReads(TablesOf(s), Inserted(s.t.rows, items, excluded, skip), seen)
  }

  /** The endpoint's own call reads the last-inserted rows, which the database may give. */
  lemma EndpointIsACall(s: State, items: seq<Item>, excluded: set<string>, skip: bool, now: int)
    requires Good(s)
    ensures var seen := LastReads(s.t, Inserted(s.t.rows, items, excluded, skip));
            MayGive(s, items, excluded, skip, seen)
            && Call(s, items, excluded, skip, now, seen).w == After(s.w, items, excluded, skip, now)
  {
    IngestIsABatch(s.w, s.t, items, excluded, skip, now);
  }

  ghost predicate SameCounters(a: Keys, b: Keys) {
    forall c :: && Get(a, c, Expected) == Get(b, c, Expected) && Get(a, c, Done) == Get(b, c, Done)
                && ((c, Fired) in a <==> (c, Fired) in b)
  }

  /** Equal up to order: the fires, the charges. */
  ghost predicate SameBag<T(!new)>(a: seq<T>, b: seq<T>) {
    forall x :: multiset(a)[x] == multiset(b)[x]
  }

  /** Nobody can tell the runs apart by the newest price and stock of a URL, however ties
      are read, nor by a cycle's counters and flag, the signal runs or the costs. */
  ghost predicate SameCounts(on: State, off: State) {
    && Good(on) && Good(off) && Agree(on.t, off.t)
    && on.w.db.trackings == off.w.db.trackings
    && SameCounters(on.w.keys, off.w.keys) && SameBag(on.w.fired, off.w.fired) && SameBag(on.w.charges, off.w.charges)
    && |on.w.audits| == |off.w.audits|
    && |on.w.db.rows| <= |off.w.db.rows| && Uuids(on.w.db.rows) <= Uuids(off.w.db.rows)
  }

  lemma SameLanding(a: Keys, b: Keys, s: seq<(Cycle, int)>, t: seq<(Cycle, int)>, now: int, c: Cycle)
    requires Get(a, c, Expected) == Get(b, c, Expected) && Get(a, c, Done) == Get(b, c, Done)
    requires (c, Fired) in a <==> (c, Fired) in b
    requires SlotCount(s, c) == SlotCount(t, c)
    ensures var (k, f) := RecordAll(a, s, now);
            var (l, g) := RecordAll(b, t, now);
            && Get(k, c, Expected) == Get(l, c, Expected) && Get(k, c, Done) == Get(l, c, Done)
            && ((c, Fired) in k <==> (c, Fired) in l) && multiset(f)[c] == multiset(g)[c]
  {
    LandingCounts(a, s, now, c);
    LandingCounts(b, t, now, c);
    hide RecordAll, SlotCount;
    assert FlaggedAfter(a, c, SlotCount(s, c)) <==> FlaggedAfter(b, c, SlotCount(t, c));
  }

  lemma SameLandings(a: Keys, b: Keys, s: seq<(Cycle, int)>, t: seq<(Cycle, int)>, now: int)
    requires SameCounters(a, b) && forall c :: SlotCount(s, c) == SlotCount(t, c)
    ensures SameCounters(RecordAll(a, s, now).0, RecordAll(b, t, now).0)
    ensures SameBag(RecordAll(a, s, now).1, RecordAll(b, t, now).1)
  {
    var (k, f) := RecordAll(a, s, now);
    var (l, g) := RecordAll(b, t, now);
    hide RecordAll, SlotCount, Get;
    forall c
      ensures Get(k, c, Expected) == Get(l, c, Expected) && Get(k, c, Done) == Get(l, c, Done)
      ensures ((c, Fired) in k <==> (c, Fired) in l) && multiset(f)[c] == multiset(g)[c]
    {
      assert SlotCount(s, c) == SlotCount(t, c);
      SameLanding(a, b, s, t, now, c);
    }
  }

  lemma SameSlots(on: seq<Row>, off: seq<Row>, items: seq<Item>, excluded: set<string>, c: Cycle)
    requires NewUuids(on, items) && NewUuids(off, items) && forall url :: Values(on, url) == Values(off, url)
    ensures SlotCount(SlotsOf(Inserted(on, items, excluded, true)) + SlotsOf(Skipped(on, items, excluded, true)), c)
            == SlotCount(SlotsOf(Inserted(off, items, excluded, false)), c)
  {
    var kept, skipped, all :=
      Inserted(on, items, excluded, true), Skipped(on, items, excluded, true), Inserted(off, items, excluded, false);
    var f: Item -> nat := (item: Item) => SlotCount(item.cycles, c);
    BothCountAll(on, off, items, excluded, f);
    hide Inserted, Skipped, NewUuids, Values, SlotCount, SlotsOf, Total;
    SlotTotal(kept, c, f);
    SlotTotal(skipped, c, f);
    SlotTotal(all, c, f);
    SlotCountAppend(SlotsOf(kept), SlotsOf(skipped), c);
  }

  lemma SameCharges(on: seq<Row>, off: seq<Row>, items: seq<Item>, excluded: set<string>, charge: Charge)
    requires NewUuids(on, items) && NewUuids(off, items) && forall url :: Values(on, url) == Values(off, url)
    ensures multiset(ChargesOf(Inserted(on, items, excluded, true))
                     + ChargesOf(Skipped(on, items, excluded, true)))[charge]
            == multiset(ChargesOf(Inserted(off, items, excluded, false)))[charge]
  {
    var kept, skipped, all :=
      Inserted(on, items, excluded, true), Skipped(on, items, excluded, true), Inserted(off, items, excluded, false);
    var f: Item -> nat := (item: Item) => if item.charge == charge then 1 else 0;
    BothCountAll(on, off, items, excluded, f);
    hide Inserted, Skipped, NewUuids, Values, ChargesOf, Total;
    ChargeTotal(kept, charge, f);
    ChargeTotal(skipped, charge, f);
    ChargeTotal(all, charge, f);
  }

  lemma SameNumber(on: seq<Row>, off: seq<Row>, items: seq<Item>, excluded: set<string>)
    requires NewUuids(on, items) && NewUuids(off, items) && forall url :: Values(on, url) == Values(off, url)
    ensures |Inserted(on, items, excluded, true)| + |Skipped(on, items, excluded, true)|
            == |Inserted(off, items, excluded, false)|
  {
    var f: Item -> nat := (item: Item) => 1;
    BothCountAll(on, off, items, excluded, f);
    CountTotal(Inserted(on, items, excluded, true), f);
    CountTotal(Skipped(on, items, excluded, true), f);
    CountTotal(Inserted(off, items, excluded, false), f);
  }

  lemma NewForBoth(on: State, off: State, items: seq<Item>)
    requires SameCounts(on, off) && NewUuids(off.t.rows, items)
    ensures NewUuids(on.t.rows, items) && forall url :: Values(on.t.rows, url) == Values(off.t.rows, url)
  {
    forall url
      ensures Values(on.t.rows, url) == Values(off.t.rows, url)
    {
      AgreeOnValues(on.t, off.t, url);
    }
  }

  /** The counts of one call in both runs, from worlds that count the same. */
  lemma CallKeepsCounters(on: World, off: World, items: seq<Item>, excluded: set<string>, now: int)
    requires NewUuids(on.db.rows, items) && NewUuids(off.db.rows, items)
    requires forall url :: Values(on.db.rows, url) == Values(off.db.rows, url)
    requires SameCounters(on.keys, off.keys) && SameBag(on.fired, off.fired) && SameBag(on.charges, off.charges)
    requires |on.audits| == |off.audits|
    ensures var a, b := After(on, items, excluded, true, now), After(off, items, excluded, false, now);
            && SameCounters(a.keys, b.keys) && SameBag(a.fired, b.fired) && SameBag(a.charges, b.charges)
            && |a.audits| == |b.audits|
  {
    var kept, skipped, all :=
      Inserted(on.db.rows, items, excluded, true), Skipped(on.db.rows, items, excluded, true),
      Inserted(off.db.rows, items, excluded, false);
    CallCounts(on, items, excluded, true, now, kept, skipped);
    CallCounts(off, items, excluded, false, now, all, Skipped(off.db.rows, items, excluded, false));
    ExclusionsAudited(on, items, excluded);
    ExclusionsAudited(off, items, excluded);
    NoSkipping(off.db.rows, off.db.rows, items, excluded);
    SameNumber(on.db.rows, off.db.rows, items, excluded);
    var a, b := After(on, items, excluded, true, now), After(off, items, excluded, false, now);
    forall c
      ensures SlotCount(SlotsOf(kept) + SlotsOf(skipped), c) == SlotCount(SlotsOf(all), c)
    {
      SameSlots(on.db.rows, off.db.rows, items, excluded, c);
    }
    assert SlotsOf(all) + SlotsOf([]) == SlotsOf(all) && ChargesOf(all) + ChargesOf([]) == ChargesOf(all);
    SameLandings(on.keys, off.keys, SlotsOf(kept) + SlotsOf(skipped), SlotsOf(all), now);
    forall charge
      ensures multiset(ChargesOf(kept) + ChargesOf(skipped))[charge] == multiset(ChargesOf(all))[charge]
    {
      SameCharges(on.db.rows, off.db.rows, items, excluded, charge);
    }
    hide *;
    BagsAppend(on.charges, ChargesOf(kept) + ChargesOf(skipped), off.charges, ChargesOf(all));
    BagsAppend(on.fired, RecordAll(on.keys, SlotsOf(kept) + SlotsOf(skipped), now).1, off.fired,
               RecordAll(off.keys, SlotsOf(all), now).1);
  }

  lemma BagsAppend<T(!new)>(a: seq<T>, b: seq<T>, c: seq<T>, d: seq<T>)
    requires SameBag(a, c) && SameBag(b, d)
    ensures SameBag(a + b, c + d)
  {
    forall x
      ensures multiset(a + b)[x] == multiset(c + d)[x]
    {
    }
  }

  lemma CallIsGood(s: State, items: seq<Item>, excluded: set<string>, skip: bool, now: int, seen: seq<Option<nat>>)
    requires Good(s)
    ensures Good(Call(s, items, excluded, skip, now, seen))
    ensures Call(s, items, excluded, skip, now, seen).w.db.trackings == s.w.db.trackings
  {
    AfterRows(s.w, items, excluded, skip, now);
    InsertedUuidsFirst(s.w.db.rows, items, excluded, skip);
    StoreAllIsWellStamped(s.t, Inserted(s.w.db.rows, items, excluded, skip));
  }

  lemma UuidsStored(rows: seq<Row>, items: seq<Item>)
    ensures Uuids(rows + ToRows(items)) == Uuids(rows) + ItemUuids(items)
  {
    var all := rows + ToRows(items);
    forall u | u in Uuids(rows) + ItemUuids(items)
      ensures u in Uuids(all)
    {
      if u in Uuids(rows) {
        var r :| r in rows && r.jobUuid == Some(u);
        assert r in all;
      } else {
        var item :| item in items && item.jobUuid == Some(u);
        var k :| 0 <= k < |items| && items[k] == item;
        assert all[|rows| + k] == ToRow(item);
      }
    }
    forall u | u in Uuids(all)
      ensures u in Uuids(rows) + ItemUuids(items)
    {
      var i :| 0 <= i < |all| && all[i].jobUuid == Some(u);
      if i >= |rows| {
        assert items[i - |rows|] in items && items[i - |rows|].jobUuid == Some(u);
      }
    }
  }

  lemma CallRows(on: State, off: State, items: seq<Item>, excluded: set<string>)
    requires SameCounts(on, off) && NewUuids(off.t.rows, items)
    ensures var all := Inserted(off.t.rows, items, excluded, false);
            && UuidsFirst(all) && all == Ordered(Admitted(items, excluded))
            && Inserted(on.t.rows, items, excluded, true) == Changed(off.t.rows, all)
            && |Changed(off.t.rows, all)| <= |all|
            && Uuids(on.t.rows + ToRows(Changed(off.t.rows, all))) <= Uuids(off.t.rows + ToRows(all))
  {
    var all := Inserted(off.t.rows, items, excluded, false);
    NewForBoth(on, off, items);
    InsertsOfTheRuns(on.t.rows, off.t.rows, items, excluded);
    InsertedUuidsFirst(off.t.rows, items, excluded, false);
    ChangedKeepsOrder(off.t.rows, all);
    ChangedUuids(off.t.rows, all);
    UuidsStored(on.t.rows, Changed(off.t.rows, all));
    UuidsStored(off.t.rows, all);
  }

  /** One batch, skipped in one run and stored in the other, from states nobody could tell
      apart: they stay so exactly if the batch is free of clashes. */
  lemma CallKeepsCountsIff(on: State, off: State, items: seq<Item>, excluded: set<string>, now: int,
                           seenOn: seq<Option<nat>>, seenOff: seq<Option<nat>>)
    requires SameCounts(on, off) && NewUuids(off.t.rows, items)
    ensures SameCounts(Call(on, items, excluded, true, now, seenOn), Call(off, items, excluded, false, now, seenOff))
            <==> ClashFree(off.t.rows, Ordered(Admitted(items, excluded)))
  {
    CallRows(on, off, items, excluded);
    NewForBoth(on, off, items);
    CallIsGood(on, items, excluded, true, now, seenOn);
    CallIsGood(off, items, excluded, false, now, seenOff);
    AfterRows(on.w, items, excluded, true, now);
    AfterRows(off.w, items, excluded, false, now);
    CallKeepsCounters(on.w, off.w, items, excluded, now);
    NewestAgreesIffClashFree(on.t, off.t, Inserted(off.t.rows, items, excluded, false));
    hide After, Inserted, Changed, ClashFree, Agree, Ordered, Admitted, SameCounters, SameBag, NewUuids, Values;
    assert |ToRows(Inserted(on.t.rows, items, excluded, true))|
           <= |ToRows(Inserted(off.t.rows, items, excluded, false))|;
  }

  /* ---- Alerts, when each URL brings one value ---- */

  /** The batch brings no URL two different values. */
  predicate Uniform(items: seq<Item>) {
    forall x, y :: x in items && y in items && x.url == y.url ==> ValueOf(x) == ValueOf(y)
  }

  /** What a detection on item `k` may read in a uniform batch: its own stock state if the
      URL comes again, and what was stored before otherwise. */
  lemma UniformRead(t: Table, items: seq<Item>, k: nat, r: Option<nat>)
    requires Clear(t) && UuidsFirst(items) && Uniform(items) && k < |items| && WellStamped(StoreAll(t, items))
    requires MayRead(StoreAll(t, items), items[k].url, |t.rows| + k, r)
    ensures StockAt(StoreAll(t, items).rows, r) ==
            if HasItem(items, items[k].url, k) then Some(items[k].inStock)
            else if Values(t.rows, items[k].url).Some? then Some(Values(t.rows, items[k].url).value.1) else None
  {
    var url := items[k].url;
    assert RowOf(t, k) == |t.rows| + k;
    if HasItem(items, url, k) {
      ReadsOnlyTheBatch(t, items, url, k, r);
      StoredAt(t, items, r.value - |t.rows|);
      assert items[r.value - |t.rows|] in items && items[k] in items;
    } else {
      ReadBeyond(t, items, k, r);
    }
  }

  lemma ReadBeyond(t: Table, items: seq<Item>, k: nat, r: Option<nat>)
    requires Clear(t) && UuidsFirst(items) && k < |items| && WellStamped(StoreAll(t, items))
    requires !HasItem(items, items[k].url, k) && MayRead(StoreAll(t, items), items[k].url, |t.rows| + k, r)
    ensures var v := Values(t.rows, items[k].url);
            StockAt(StoreAll(t, items).rows, r) == if v.Some? then Some(v.value.1) else None
  {
    assert RowOf(t, k) == |t.rows| + k;
    assert t.rows <= StoreAll(t, items).rows;
    hide StoreAll, UuidsFirst, HasItem, Values;
    ReadsBeyondTheBatch(t, items, items[k].url, k, r);
    AgreeOnValues(t, t, items[k].url);
    assert r.Some? ==> r.value < |t.rows| && StoreAll(t, items).rows[r.value] == t.rows[r.value];
  }

  lemma KeptBefore(rows: seq<Row>, items: seq<Item>, item: Item) returns (q: int)
    requires item in Changed(rows, items)
    ensures 0 <= q < |items| && items[q] == item
  {
    ChangedMember(rows, items, item);
    q :| 0 <= q < |items| && items[q] == item;
  }

  lemma KeptAt(rows: seq<Row>, items: seq<Item>, q: int) returns (i: int)
    requires 0 <= q < |items| && !IsUnchanged(rows, items[q])
    ensures 0 <= i < |Changed(rows, items)| && Changed(rows, items)[i] == items[q]
  {
    ChangedMember(rows, items, items[q]);
    i :| 0 <= i < |Changed(rows, items)| && Changed(rows, items)[i] == items[q];
  }

  lemma ComesAgainThere(rows: seq<Row>, items: seq<Item>, k: nat, i: int)
    requires k < |items| && !IsUnchanged(rows, items[k]) && 0 <= i < |Changed(rows, items)|
    requires i != |Changed(rows, items[..k])|
    requires Changed(rows, items)[i].url == items[k].url
    ensures HasItem(items, items[k].url, k)
  {
    var before, rest := Changed(rows, items[..k]), Changed(rows, items[k + 1..]);
    SplitAt(rows, items, k);
    hide Changed, IsUnchanged;
    if i < |before| {
      assert Changed(rows, items)[i] == before[i];
      var q := KeptBefore(rows, items[..k], before[i]);
      assert items[q].url == items[k].url;
    } else {
      var r := i - |before| - 1;
      assert Changed(rows, items)[i] == rest[r];
      var q := KeptBefore(rows, items[k + 1..], rest[r]);
      assert items[k + 1 + q].url == items[k].url;
    }
  }

  lemma ComesAgainHere(rows: seq<Row>, items: seq<Item>, k: nat, q: int)
    requires Uniform(items) && k < |items| && !IsUnchanged(rows, items[k])
    requires 0 <= q < |items| && q != k && items[q].url == items[k].url
    ensures HasItem(Changed(rows, items), items[k].url, |Changed(rows, items[..k])|)
  {
    UniformChanged(rows, items, k, q);
    SplitAt(rows, items, k);
    hide *;
    if q < k {
      ComesAgainBefore(rows, items, k, q);
    } else {
      ComesAgainAfter(rows, items, k, q);
    }
  }

  lemma ComesAgainBefore(rows: seq<Row>, items: seq<Item>, k: nat, q: int)
    requires k < |items| && 0 <= q < k && items[q].url == items[k].url && !IsUnchanged(rows, items[q])
    requires Changed(rows, items[..k]) <= Changed(rows, items)
    ensures HasItem(Changed(rows, items), items[k].url, |Changed(rows, items[..k])|)
  {
    hide *;
    var i := KeptAt(rows, items[..k], q);
    ItemAt(Changed(rows, items), items[k].url, |Changed(rows, items[..k])|, i);
  }

  lemma ComesAgainAfter(rows: seq<Row>, items: seq<Item>, k: nat, q: int)
    requires k < q < |items| && items[q].url == items[k].url && !IsUnchanged(rows, items[q])
    requires Changed(rows, items) == Changed(rows, items[..k]) + [items[k]] + Changed(rows, items[k + 1..])
    ensures HasItem(Changed(rows, items), items[k].url, |Changed(rows, items[..k])|)
  {
    hide *;
    var i := KeptAt(rows, items[k + 1..], q - k - 1);
    ItemAt(Changed(rows, items), items[k].url, |Changed(rows, items[..k])|, |Changed(rows, items[..k])| + 1 + i);
  }

  lemma UniformChanged(rows: seq<Row>, items: seq<Item>, k: nat, q: int)
    requires Uniform(items) && k < |items| && !IsUnchanged(rows, items[k])
    requires 0 <= q < |items| && items[q].url == items[k].url
    ensures !IsUnchanged(rows, items[q])
  {
    assert items[k] in items && items[q] in items;
  }

  lemma ItemAt(items: seq<Item>, url: string, but: int, i: int)
    requires 0 <= i < |items| && i != but && items[i].url == url
    ensures HasItem(items, url, but)
  {
  }

  /** The URL comes again for the skipping run just if it does for the other. */
  lemma ComesAgain(rows: seq<Row>, items: seq<Item>, k: nat)
    requires Uniform(items) && k < |items| && !IsUnchanged(rows, items[k])
    ensures var on, m := Changed(rows, items), |Changed(rows, items[..k])|;
            m < |on| && on[m] == items[k] && (HasItem(on, items[k].url, m) <==> HasItem(items, items[k].url, k))
  {
    var on, m := Changed(rows, items), |Changed(rows, items[..k])|;
    SplitAt(rows, items, k);
    hide Changed, IsUnchanged, Uniform;
    if HasItem(on, items[k].url, m) {
      var i :| 0 <= i < |on| && i != m && on[i].url == items[k].url;
      ComesAgainThere(rows, items, k, i);
    }
    if HasItem(items, items[k].url, k) {
      var q :| 0 <= q < |items| && q != k && items[q].url == items[k].url;
      ComesAgainHere(rows, items, k, q);
    }
  }

  lemma ChangedIsUniform(rows: seq<Row>, items: seq<Item>)
    requires Uniform(items)
    ensures Uniform(Changed(rows, items))
  {
    forall x, y | x in Changed(rows, items) && y in Changed(rows, items) && x.url == y.url
      ensures ValueOf(x) == ValueOf(y)
    {
      ChangedMember(rows, items, x);
      ChangedMember(rows, items, y);
    }
  }

  /** A detection reads the same stock state in both runs; on a skipped item it reads the
      item's own. */
  lemma SamePrevious(a: Table, b: Table, items: seq<Item>, k: nat, r: Option<nat>, q: Option<nat>)
    requires Agree(a, b) && UuidsFirst(items) && Uniform(items) && k < |items| && UuidsFirst(Changed(b.rows, items))
    requires WellStamped(StoreAll(b, items)) && MayRead(StoreAll(b, items), items[k].url, |b.rows| + k, q)
    requires WellStamped(StoreAll(a, Changed(b.rows, items)))
    requires !IsUnchanged(b.rows, items[k]) ==>
               MayRead(StoreAll(a, Changed(b.rows, items)), items[k].url, |a.rows| + |Changed(b.rows, items[..k])|, r)
    ensures IsUnchanged(b.rows, items[k]) ==> StockAt(StoreAll(b, items).rows, q) == Some(items[k].inStock)
    ensures !IsUnchanged(b.rows, items[k]) ==>
              StockAt(StoreAll(a, Changed(b.rows, items)).rows, r) == StockAt(StoreAll(b, items).rows, q)
  {
    var on, m := Changed(b.rows, items), |Changed(b.rows, items[..k])|;
    AgreeMeansClear(a, b);
    UniformRead(b, items, k, q);
    if !IsUnchanged(b.rows, items[k]) {
      ComesAgain(b.rows, items, k);
      ChangedIsUniform(b.rows, items);
      UniformRead(a, on, m, r);
      AgreeOnValues(a, b, items[k].url);
    }
  }

  lemma SilentRepeat(trackings: seq<Tracking>, alerts: seq<Alert>, url: string, inStock: bool)
    ensures React(trackings, alerts, url, inStock, Some(inStock)) == alerts
  {
  }

  lemma ChangedPrefix(rows: seq<Row>, items: seq<Item>, k: nat)
    requires k < |items|
    ensures |Changed(rows, items[..k + 1])| ==
            |Changed(rows, items[..k])| + if IsUnchanged(rows, items[k]) then 0 else 1
    ensures |Changed(rows, items[..k + 1])| <= |Changed(rows, items)|
  {
    assert items[..k + 1] == items[..k] + [items[k]] && items == items[..k + 1] + items[k + 1..];
    ChangedPush(rows, items[..k], items[k]);
    ChangedAppend(rows, items[..k + 1], items[k + 1..]);
  }

  lemma ReadOf(s: Tables, items: seq<Item>, seen: seq<Option<nat>>, k: nat)
    requires WellStamped(s.snapshots) && UuidsFirst(items) && ValidReads(s, items, seen) && k < |items|
    ensures |seen| == |items| && WellStamped(StoreAll(s.snapshots, items))
    ensures MayRead(StoreAll(s.snapshots, items), items[k].url, |s.snapshots.rows| + k, seen[k])
  {
    StoreAllIsWellStamped(s.snapshots, items);
  }

  /** The two runs' tables before a batch, and what their detections on it read. */
  datatype Pair = Pair(a: Table, b: Table, trackings: seq<Tracking>, alerts: seq<Alert>, items: seq<Item>,
                       seenOn: seq<Option<nat>>, seenOff: seq<Option<nat>>)
  {
    function On(): seq<Item> {
      Changed(b.rows, items)
    }

    function TablesOn(): Tables {
      Tables(StoreAll(a, On()), trackings, alerts)
    }

    function TablesOff(): Tables {
      Tables(StoreAll(b, items), trackings, alerts)
    }

    ghost predicate Valid() {
      && Agree(a, b) && WellStamped(a) && WellStamped(b) && UuidsFirst(items) && Uniform(items) && UuidsFirst(On())
      && |seenOn| == |On()| && |seenOff| == |items|
      && ValidReads(Tables(a, trackings, alerts), On(), seenOn)
      && ValidReads(Tables(b, trackings, alerts), items, seenOff)
    }

    /** After the first `n` items, and those of them it keeps, each run has the same alerts. */
    predicate SameAfter(n: nat) {
      && n <= |items| == |seenOff| && |On()| == |seenOn| && |Changed(b.rows, items[..n])| <= |On()|
      && Alerts(TablesOn(), On(), seenOn, |Changed(b.rows, items[..n])|) == Alerts(TablesOff(), items, seenOff, n)
    }
  }

  lemma UnchangedFacts(p: Pair, k: nat)
    requires p.Valid() && k < |p.items| && IsUnchanged(p.b.rows, p.items[k])
    ensures |p.seenOff| == |p.items| && StockAt(p.TablesOff().snapshots.rows, p.seenOff[k]) == Some(p.items[k].inStock)
  {
    ReadOf(Tables(p.b, p.trackings, p.alerts), p.items, p.seenOff, k);
    StoreAllIsWellStamped(p.a, p.On());
    SamePrevious(p.a, p.b, p.items, k, None, p.seenOff[k]);
  }

  lemma ChangedFacts(p: Pair, k: nat)
    requires p.Valid() && k < |p.items| && !IsUnchanged(p.b.rows, p.items[k])
    ensures var m := |Changed(p.b.rows, p.items[..k])|;
            && m < |p.On()| == |p.seenOn| && |p.seenOff| == |p.items| && p.On()[m] == p.items[k]
            && StockAt(p.TablesOn().snapshots.rows, p.seenOn[m]) == StockAt(p.TablesOff().snapshots.rows, p.seenOff[k])
  {
    var m := |Changed(p.b.rows, p.items[..k])|;
    ComesAgain(p.b.rows, p.items, k);
    ReadOf(Tables(p.b, p.trackings, p.alerts), p.items, p.seenOff, k);
    ReadOf(Tables(p.a, p.trackings, p.alerts), p.On(), p.seenOn, m);
    SamePrevious(p.a, p.b, p.items, k, p.seenOn[m], p.seenOff[k]);
  }

  lemma UnchangedStep(p: Pair, k: nat)
    requires p.Valid() && k < |p.items| && p.SameAfter(k) && IsUnchanged(p.b.rows, p.items[k])
    ensures p.SameAfter(k + 1)
  {
    hide Alerts, React, Agree, UuidsFirst, Uniform, StoreAll, ValidReads, WellStamped, IsUnchanged, Changed, StockAt;
    ChangedPrefix(p.b.rows, p.items, k);
    UnchangedFacts(p, k);
    AlertsStep(p.TablesOff(), p.items, p.seenOff, k);
    SilentRepeat(p.trackings, Alerts(p.TablesOff(), p.items, p.seenOff, k), p.items[k].url, p.items[k].inStock);
  }

  lemma ChangedStep(p: Pair, k: nat)
    requires p.Valid() && k < |p.items| && p.SameAfter(k) && !IsUnchanged(p.b.rows, p.items[k])
    ensures p.SameAfter(k + 1)
  {
    hide Alerts, React, Agree, UuidsFirst, Uniform, StoreAll, ValidReads, WellStamped, IsUnchanged, Changed, StockAt;
    ChangedPrefix(p.b.rows, p.items, k);
    ChangedFacts(p, k);
    AlertsStep(p.TablesOff(), p.items, p.seenOff, k);
    AlertsStep(p.TablesOn(), p.On(), p.seenOn, |Changed(p.b.rows, p.items[..k])|);
  }

  lemma SameAtStart(p: Pair)
    requires p.Valid()
    ensures p.SameAfter(0)
  {
    hide Agree, UuidsFirst, Uniform, ValidReads, WellStamped, StoreAll;
    assert p.items[..0] == [];
  }

  /** However either run's detections read ties, both create and resolve the same alerts. */
  lemma {:induction false} SameAlerts(p: Pair, n: nat)
    requires p.Valid() && n <= |p.items|
    ensures p.SameAfter(n)
  {
    hide *;
    if n == 0 {
      SameAtStart(p);
    } else {
      SameAlerts(p, n - 1);
      if IsUnchanged(p.b.rows, p.items[n - 1]) {
        UnchangedStep(p, n - 1);
      } else {
        ChangedStep(p, n - 1);
      }
    }
  }

  lemma OrderedPush(items: seq<Item>, last: Item, item: Item)
    requires OnceEach(items + [last])
    ensures OnceEach(items) && (item in Ordered(items + [last]) <==> item in Ordered(items) || item == last)
  {
    var all := items + [last];
    assert all[..|items|] == items && all[|items|] == last;
    assert forall k :: 0 <= k < |items| ==> items[k] == all[k];
    UuidPush(items, last);
  }

  lemma OrderedMembers(items: seq<Item>, item: Item)
    requires OnceEach(items)
    ensures item in Ordered(items) <==> item in items
    decreases |items|
  {
    if items != [] {
      var before, last := items[..|items| - 1], items[|items| - 1];
      assert items == before + [last];
      OrderedPush(before, last, item);
      hide *;
      OrderedMembers(before, item);
    }
  }

  lemma OrderedIsUniform(items: seq<Item>)
    requires OnceEach(items)
    ensures Uniform(Ordered(items)) <==> Uniform(items)
  {
    forall item
      ensures item in Ordered(items) <==> item in items
    {
      OrderedMembers(items, item);
    }
  }

  /** One uniform batch leaves both runs the same alerts, too, however each reads ties. */
  lemma CallKeepsAlerts(on: State, off: State, items: seq<Item>, excluded: set<string>, now: int,
                        seenOn: seq<Option<nat>>, seenOff: seq<Option<nat>>)
    requires SameCounts(on, off) && NewUuids(off.t.rows, items) && on.w.db.alerts == off.w.db.alerts
    requires Uniform(Admitted(items, excluded))
    requires MayGive(on, items, excluded, true, seenOn) && MayGive(off, items, excluded, false, seenOff)
    ensures Call(on, items, excluded, true, now, seenOn).w.db.alerts
            == Call(off, items, excluded, false, now, seenOff).w.db.alerts
  {
    var all := Inserted(off.t.rows, items, excluded, false);
    var kept := Changed(off.t.rows, all);
    CallRows(on, off, items, excluded);
    AdmittedOnce(off.t.rows, items, excluded);
    OrderedIsUniform(Admitted(items, excluded));
    var p := Pair(on.t, off.t, off.w.db.trackings, off.w.db.alerts, all, seenOn, seenOff);
    assert TablesOf(on) == Tables(p.a, p.trackings, p.alerts) && TablesOf(off) == Tables(p.b, p.trackings, p.alerts);
    assert Inserted(on.t.rows, items, excluded, true) == p.On();
    assert |seenOn| == |p.On()| && |seenOff| == |all| && Uniform(all);
    InsertedUuidsFirst(on.t.rows, items, excluded, true);
    assert p.Valid();
    SameAlerts(p, |all|);
    hide *;
    assert all[..|all|] == all;
  }

  /* ---- Which batches are transparent ---- */

  /** Skip-write on and off cannot be told apart on this batch from this state, whatever
      either run's detections read on ties. */
  ghost predicate Indistinguishable(s: State, items: seq<Item>, excluded: set<string>, now: int) {
    forall seenOn, seenOff ::
      MayGive(s, items, excluded, true, seenOn) && MayGive(s, items, excluded, false, seenOff) ==>
        Alike(Call(s, items, excluded, true, now, seenOn), Call(s, items, excluded, false, now, seenOff))
  }

  ghost predicate Alike(on: State, off: State) {
    SameCounts(on, off) && on.w.db.alerts == off.w.db.alerts
  }

  /** From every state with unambiguous newest values. */
  ghost predicate Transparent(items: seq<Item>, excluded: set<string>, now: int) {
    forall s :: Good(s) && Clear(s.t) && NewUuids(s.t.rows, items) ==> Indistinguishable(s, items, excluded, now)
  }

  lemma SameAsItself(s: State)
    requires Good(s) && Clear(s.t)
    ensures SameCounts(s, s)
  {
  }

  lemma UniformIsTransparent(s: State, items: seq<Item>, excluded: set<string>, now: int)
    requires Good(s) && Clear(s.t) && NewUuids(s.t.rows, items) && Uniform(Admitted(items, excluded))
    ensures Indistinguishable(s, items, excluded, now)
  {
    SameAsItself(s);
    AdmittedOnce(s.t.rows, items, excluded);
    OrderedIsUniform(Admitted(items, excluded));
    forall seenOn, seenOff | MayGive(s, items, excluded, true, seenOn) && MayGive(s, items, excluded, false, seenOff)
      ensures Alike(Call(s, items, excluded, true, now, seenOn), Call(s, items, excluded, false, now, seenOff))
    {
      hide SameCounts, MayGive, ClashFree, Uniform, NewUuids, Call;
      CallKeepsCountsIff(s, s, items, excluded, now, seenOn, seenOff);
      CallKeepsAlerts(s, s, items, excluded, now, seenOn, seenOff);
    }
  }

  /** A state whose only snapshot already has the value of `item`. */
  function Holding(item: Item): State {
    var row := Row(item.url, item.price, item.inStock, None);
    State(World(Db([row], [], []), map[], [], [], []), Table([row], [0]))
  }

  lemma HoldingIsClear(item: Item)
    ensures Good(Holding(item)) && Clear(Holding(item).t) && IsUnchanged(Holding(item).t.rows, item)
    ensures Uuids(Holding(item).t.rows) == {}
  {
    var s := Holding(item);
    assert s.t.rows[..0] == [];
    forall url, r, q | MayRead(s.t, url, -1, r) && MayRead(s.t, url, -1, q)
      ensures ReadValue(s.t, r) == ReadValue(s.t, q)
    {
      if item.url == url {
        assert Candidate(s.t, url, -1, 0);
      }
    }
  }

  lemma MixedIsNotTransparent(items: seq<Item>, excluded: set<string>, now: int, x: Item, y: Item)
    requires OnceEach(items) && x in Admitted(items, excluded) && y in Admitted(items, excluded)
    requires x.url == y.url && ValueOf(x) != ValueOf(y)
    ensures !Transparent(items, excluded, now)
  {
    AdmittedOnce([], items, excluded);
    var all := Ordered(Admitted(items, excluded));
    OrderedMembers(Admitted(items, excluded), x);
    OrderedMembers(Admitted(items, excluded), y);
    var j := LastOf(all, x.url);
    var p :| 0 <= p < |all| && all[p] == x;
    var q :| 0 <= q < |all| && all[q] == y;
    assert j >= 0;
    var s, i := Holding(all[j]), if ValueOf(x) == ValueOf(all[j]) then q else p;
    HoldingIsClear(all[j]);
    assert NewUuids(s.t.rows, items);
    SameAsItself(s);
    assert Clash(s.t.rows, all, i, j);
    var seenOn, seenOff := LastReads(s.t, Inserted(s.t.rows, items, excluded, true)),
      LastReads(s.t, Inserted(s.t.rows, items, excluded, false));
    EndpointIsACall(s, items, excluded, true, now);
    EndpointIsACall(s, items, excluded, false, now);
    CallKeepsCountsIff(s, s, items, excluded, now, seenOn, seenOff);
    assert !Alike(Call(s, items, excluded, true, now, seenOn), Call(s, items, excluded, false, now, seenOff));
  }

  /** A batch is transparent - from every unambiguous state nobody can tell skip-write on
      from off by newest values, alerts, cycles, signal runs or costs - exactly when it
      brings no URL two different values. Any call that reports each URL once is. */
  lemma TransparentIffUniform(items: seq<Item>, excluded: set<string>, now: int)
    requires OnceEach(items)
    ensures Transparent(items, excluded, now) <==> Uniform(Admitted(items, excluded))
  {
    if Uniform(Admitted(items, excluded)) {
      forall s | Good(s) && Clear(s.t) && NewUuids(s.t.rows, items)
        ensures Indistinguishable(s, items, excluded, now)
      {
        UniformIsTransparent(s, items, excluded, now);
      }
    } else {
      var x, y :| x in Admitted(items, excluded) && y in Admitted(items, excluded) && x.url == y.url
        && ValueOf(x) != ValueOf(y);
      MixedIsNotTransparent(items, excluded, now, x, y);
    }
  }

  /* ---- Runs of batches ---- */

  datatype Event =
    | Post(items: seq<Item>, excluded: set<string>, now: int,   // a call, and what its detections read
           seenOn: seq<Option<nat>>, seenOff: seq<Option<nat>>) // with skip-write on, and off
    | SetFlags(k: nat, enabled: bool, silenced: bool)
    | Track(t: Tracking)

  function Step(s: State, e: Event, skip: bool): State {
    match e
    case Post(items, excluded, now, seenOn, seenOff) =>
      Call(s, items, excluded, skip, now, if skip then seenOn else seenOff)
    case SetFlags(k, enabled, silenced) =>
      s.(w := IngestProperties.Step(s.w, IngestProperties.SetFlags(k, enabled, silenced), skip))
    case Track(t) => s.(w := IngestProperties.Step(s.w, IngestProperties.Track(t), skip))
  }

  function Run(s: State, events: seq<Event>, skip: bool): State {
    if events == [] then s else Step(Run(s, events[..|events| - 1], skip), events[|events| - 1], skip)
  }

  /** The event, if a batch, has new uuids and is free of clashes when it arrives, and its
      detections read what the database may give in either run. */
  ghost predicate Gentle(on: State, off: State, e: Event) {
    e.Post? ==>
      && NewUuids(off.t.rows, e.items) && ClashFree(off.t.rows, Ordered(Admitted(e.items, e.excluded)))
      && MayGive(on, e.items, e.excluded, true, e.seenOn) && MayGive(off, e.items, e.excluded, false, e.seenOff)
  }

  ghost predicate GentleAt(s: State, events: seq<Event>, i: nat) {
    i < |events| && Gentle(Run(s, events[..i], true), Run(s, events[..i], false), events[i])
  }

  predicate AllUniform(events: seq<Event>) {
    forall e :: e in events && e.Post? ==> Uniform(Admitted(e.items, e.excluded))
  }

  lemma EventKeepsSame(on: State, off: State, e: Event)
    requires SameCounts(on, off) && Gentle(on, off, e)
    ensures SameCounts(Step(on, e, true), Step(off, e, false))
    ensures on.w.db.alerts == off.w.db.alerts && (e.Post? ==> Uniform(Admitted(e.items, e.excluded))) ==>
              Step(on, e, true).w.db.alerts == Step(off, e, false).w.db.alerts
  {
    if e.Post? {
      hide SameCounts, NewUuids, ClashFree, After, Uniform, MayGive, Call;
      CallKeepsCountsIff(on, off, e.items, e.excluded, e.now, e.seenOn, e.seenOff);
      if on.w.db.alerts == off.w.db.alerts && Uniform(Admitted(e.items, e.excluded)) {
        CallKeepsAlerts(on, off, e.items, e.excluded, e.now, e.seenOn, e.seenOff);
      }
    } else {
    }
  }

  /** Over every run of batches and tracking changes, with new uuids and no clashes, and
      whatever either run reads on ties, skip-write on and off give the same newest values,
      the same cycle counters and flags, signal runs and costs, from no more rows; and if
      each batch brings each URL one value, the same alerts. */
  lemma {:induction false} RunsAgree(s: State, events: seq<Event>)
    requires Good(s) && Clear(s.t) && forall i :: 0 <= i < |events| ==> GentleAt(s, events, i)
    ensures SameCounts(Run(s, events, true), Run(s, events, false))
    ensures AllUniform(events) ==> Run(s, events, true).w.db.alerts == Run(s, events, false).w.db.alerts
  {
    if events == [] {
      SameAsItself(s);
    } else {
      hide *;
      var n := |events| - 1;
      GentleBefore(s, events);
      RunsAgree(s, events[..n]);
      EventKeepsSame(Run(s, events[..n], true), Run(s, events[..n], false), events[n]);
    }
  }

  lemma GentleBefore(s: State, events: seq<Event>)
    requires events != [] && forall i :: 0 <= i < |events| ==> GentleAt(s, events, i)
    ensures var n := |events| - 1;
            && (forall i :: 0 <= i < n ==> GentleAt(s, events[..n], i))
            && Gentle(Run(s, events[..n], true), Run(s, events[..n], false), events[n])
            && (AllUniform(events) ==> AllUniform(events[..n]))
            && (AllUniform(events) && events[n].Post? ==> Uniform(Admitted(events[n].items, events[n].excluded)))
  {
    hide Gentle, Uniform, Run;
    var n := |events| - 1;
    forall i | 0 <= i < n
      ensures GentleAt(s, events[..n], i)
    {
      assert GentleAt(s, events, i) && events[..n][..i] == events[..i];
    }
    assert GentleAt(s, events, n);
    assert events[n] in events && forall f :: f in events[..n] ==> f in events;
  }

  /* ---- Without uniformity, alerts may differ ---- */

  lemma LastReading(rows: seq<Row>, url: string, exclude: int, n: nat)
    requires n < |rows| && n != exclude && rows[n].url == url
    requires forall i :: n < i < |rows| && i != exclude ==> rows[i].url != url
    ensures LastRow(rows, url, exclude) == Some(n)
  {
    LastRowIsNewest(rows, url, exclude);
  }

  lemma MiddleIsSkipped(x: Item, y: Item, z: Item)
    requires x.url == y.url == z.url && x.jobUuid.None? && y.jobUuid.None? && z.jobUuid.None?
    requires !x.inStock && y.inStock && !z.inStock
    ensures Changed(Holding(y).t.rows, [x, y, z]) == [x, z] && ClashFree(Holding(y).t.rows, [x, y, z])
  {
    var rows := Holding(y).t.rows;
    HoldingIsClear(y);
    assert !IsUnchanged(rows, x) && IsUnchanged(rows, y) && !IsUnchanged(rows, z);
    hide IsUnchanged, Changed;
    ChangedPush(rows, [], x);
    ChangedPush(rows, [x], y);
    ChangedPush(rows, [x, y], z);
    assert [] + [x] == [x] && [x] + [y] == [x, y] && [x, y] + [z] == [x, y, z] && [x] + [z] == [x, z];
  }

  /** What storing all three reads and raises. */
  lemma AllStoredRaises(x: Item, y: Item, z: Item, t: Tracking)
    requires x.url == y.url == z.url == t.url && x.jobUuid.None? && y.jobUuid.None? && z.jobUuid.None?
    requires !x.inStock && y.inStock && !z.inStock && t.enabled && !t.silenced
    ensures var b, all := Holding(y).t, [x, y, z];
            Alerts(Tables(StoreAll(b, all), [t], []), all, LastReads(b, all), 3) == [Alert(t.id, false)]
  {
    var b, all, url := Holding(y).t, [x, y, z], x.url;
    var s, seen := Tables(StoreAll(b, all), [t], []), LastReads(b, all);
    var rows := s.snapshots.rows;
    assert rows == [b.rows[0], ToRow(x), ToRow(y), ToRow(z)];
    LastReading(rows, url, 1, 3);
    LastReading(rows, url, 2, 3);
    LastReading(rows, url, 3, 2);
    assert seen[0] == Some(3) && seen[1] == Some(3) && seen[2] == Some(2);
    assert Resolve([t], [], url) == [] && [t][..0] == [] && Raise([t], [], url) == [Alert(t.id, false)];
    AlertsStep(s, all, seen, 0);
    AlertsStep(s, all, seen, 1);
    AlertsStep(s, all, seen, 2);
  }

  lemma MiddleSkippedIsSilent(x: Item, y: Item, z: Item, t: Tracking)
    requires x.url == y.url == z.url == t.url && x.jobUuid.None? && z.jobUuid.None? && !x.inStock && !z.inStock
    ensures var b, on := Holding(y).t, [x, z];
            Alerts(Tables(StoreAll(b, on), [t], []), on, LastReads(b, on), 2) == []
  {
    var b, on, url := Holding(y).t, [x, z], x.url;
    var s, seen := Tables(StoreAll(b, on), [t], []), LastReads(b, on);
    var rows := s.snapshots.rows;
    assert rows == [b.rows[0], ToRow(x), ToRow(z)];
    LastReading(rows, url, 1, 2);
    LastReading(rows, url, 2, 1);
    assert seen[0] == Some(2) && seen[1] == Some(1);
    AlertsStep(s, on, seen, 0);
    AlertsStep(s, on, seen, 1);
  }

  /** A clash-free batch of plain items - out of stock, back at the stored value, out again -
      raises an alert if stored and none if the middle item is skipped. So freedom from
      clashes is not enough for the alerts. */
  lemma ClashFreeAlertsMayDiffer(x: Item, y: Item, z: Item, t: Tracking)
    requires x.url == y.url == z.url == t.url && x.jobUuid.None? && y.jobUuid.None? && z.jobUuid.None?
    requires !x.inStock && y.inStock && !z.inStock && t.enabled && !t.silenced
    ensures
      var b := Holding(y).t;
      var on, off := Changed(b.rows, [x, y, z]), [x, y, z];
      && ClashFree(b.rows, off) && |on| == 2
      && Alerts(Tables(StoreAll(b, off), [t], []), off, LastReads(b, off), 3) == [Alert(t.id, false)]
      && Alerts(Tables(StoreAll(b, on), [t], []), on, LastReads(b, on), 2) == []
  {
    hide *;
    MiddleIsSkipped(x, y, z);
    AllStoredRaises(x, y, z, t);
    MiddleSkippedIsSilent(x, y, z, t);
  }
}
