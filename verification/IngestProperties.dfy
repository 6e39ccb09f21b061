/** What the ingest endpoint guarantees over whole batches and whole runs
    (specter-api/routers/internal.py, specter-api/signals/oos_detector.py). */
module IngestProperties {
  import opened Wrappers
  import opened CycleStore
  import opened CycleCoordinator
  import opened OosDetector
  import opened Ingest

  /* ---- Accounting of a batch ---- */

  datatype Fate = WasExcluded | WasUnchanged | WasRepeated | WasStoredBefore | WasInserted

  /** What becomes of `item`, sent after the items `before` in the same batch. */
  function FateOf(rows: seq<Row>, before: seq<Item>, item: Item, excluded: set<string>, skip: bool): Fate {
    if item.domain in excluded then WasExcluded
    else if skip && IsUnchanged(rows, item) then WasUnchanged
    else if item.jobUuid.None? then WasInserted
    else if exists i :: 0 <= i < |before| && before[i].jobUuid == item.jobUuid
                        && before[i].domain !in excluded && !(skip && IsUnchanged(rows, before[i])) then WasRepeated
    else if item.jobUuid.value in Uuids(rows) then WasStoredBefore
    else WasInserted
  }

  function Tally(rows: seq<Row>, items: seq<Item>, excluded: set<string>, skip: bool, fate: Fate): nat {
    if items == [] then 0 else
      var n := |items| - 1;
      Tally(rows, items[..n], excluded, skip, fate)
      + if FateOf(rows, items[..n], items[n], excluded, skip) == fate then 1 else 0
  }

  /** Each stage handles the last item of its input last. */
  lemma StagesAppend(rows: seq<Row>, items: seq<Item>, item: Item)
    ensures WithUuid(items + [item]) ==
            WithUuid(items)
            + if item.jobUuid.Some? && item.jobUuid.value !in ItemUuids(WithUuid(items)) then [item] else []
    ensures Plain(items + [item]) == Plain(items) + if item.jobUuid.None? then [item] else []
    ensures NotStored(rows, items + [item]) ==
            NotStored(rows, items) + if item.jobUuid.Some? && item.jobUuid.value in Uuids(rows) then [] else [item]
    ensures ItemUuids(items + [item]) == ItemUuids(items) + if item.jobUuid.Some? then {item.jobUuid.value} else {}
  {
    assert (items + [item])[..|items|] == items;
    assert item in items + [item];
  }

  lemma {:induction false} WithUuidMembers(items: seq<Item>)
    ensures ItemUuids(WithUuid(items)) == ItemUuids(items)
    ensures forall i :: i in WithUuid(items) ==> i in items && i.jobUuid.Some?
  {
    if items == [] {
    } else {
      var before, item := items[..|items| - 1], items[|items| - 1];
      WithUuidMembers(before);
      assert items == before + [item];
      StagesAppend([], before, item);
      StagesAppend([], WithUuid(before), item);
    }
  }

  lemma {:induction false} KeptMembers(rows: seq<Row>, items: seq<Item>, excluded: set<string>, skip: bool)
    ensures forall u :: u in ItemUuids(Kept(rows, items, excluded, skip)) <==>
                        exists i :: 0 <= i < |items| && items[i].jobUuid == Some(u)
                          && items[i].domain !in excluded && !(skip && IsUnchanged(rows, items[i]))
  {
    if items == [] {
    } else {
      var n := |items| - 1;
      KeptMembers(rows, items[..n], excluded, skip);
      forall u
        ensures u in ItemUuids(Kept(rows, items, excluded, skip)) <==>
                exists i :: 0 <= i < |items| && items[i].jobUuid == Some(u)
                  && items[i].domain !in excluded && !(skip && IsUnchanged(rows, items[i]))
      {
        var kept := Kept(rows, items[..n], excluded, skip);
        assert u in ItemUuids(kept + [items[n]]) <==> u in ItemUuids(kept) || items[n].jobUuid == Some(u) by {
          if items[n].jobUuid == Some(u) {
            assert items[n] in kept + [items[n]];
          }
        }
        assert (exists i :: 0 <= i < n && items[..n][i].jobUuid == Some(u)
                  && items[..n][i].domain !in excluded && !(skip && IsUnchanged(rows, items[..n][i])))
            == (exists i :: 0 <= i < n && items[i].jobUuid == Some(u)
                  && items[i].domain !in excluded && !(skip && IsUnchanged(rows, items[i])));
      }
    }
  }

  lemma OneFate(rows: seq<Row>, items: seq<Item>, excluded: set<string>, skip: bool)
    requires items != []
    ensures var n := |items| - 1;
            && |Inserted(rows, items, excluded, skip)| == |Inserted(rows, items[..n], excluded, skip)|
               + (if FateOf(rows, items[..n], items[n], excluded, skip) == WasInserted then 1 else 0)
            && |Skipped(rows, items, excluded, skip)| == |Skipped(rows, items[..n], excluded, skip)|
               + (if FateOf(rows, items[..n], items[n], excluded, skip) == WasUnchanged then 1 else 0)
  {
    var n := |items| - 1;
    if items[n].domain !in excluded && !(skip && IsUnchanged(rows, items[n])) {
      LastKept(rows, items[..n], items[n], excluded, skip);
    }
  }

  lemma EmptyBatch(rows: seq<Row>, excluded: set<string>, skip: bool)
    ensures Inserted(rows, [], excluded, skip) == [] && Skipped(rows, [], excluded, skip) == []
  {
  }

  /** Every received item has one fate; exactly the inserted ones become rows and exactly
      the skipped ones are audited as unchanged. */
  lemma {:induction false} BatchAccounting(rows: seq<Row>, items: seq<Item>, excluded: set<string>, skip: bool)
    ensures |Inserted(rows, items, excluded, skip)| == Tally(rows, items, excluded, skip, WasInserted)
    ensures |Skipped(rows, items, excluded, skip)| == Tally(rows, items, excluded, skip, WasUnchanged)
    ensures |items| == Tally(rows, items, excluded, skip, WasExcluded) + |Inserted(rows, items, excluded, skip)|
                       + |Skipped(rows, items, excluded, skip)| + Tally(rows, items, excluded, skip, WasStoredBefore)
                       + Tally(rows, items, excluded, skip, WasRepeated)
  {
    hide FateOf, Inserted, Skipped;
    if items != [] {
      BatchAccounting(rows, items[..|items| - 1], excluded, skip);
      OneFate(rows, items, excluded, skip);
    } else {
      EmptyBatch(rows, excluded, skip);
    }
  }

  lemma LastKept(rows: seq<Row>, items: seq<Item>, item: Item, excluded: set<string>, skip: bool)
    requires item.domain !in excluded && !(skip && IsUnchanged(rows, item))
    ensures var kept := Kept(rows, items, excluded, skip);
            |NotStored(rows, WithUuid(kept + [item]))| + |Plain(kept + [item])|
            == |NotStored(rows, WithUuid(kept))| + |Plain(kept)|
               + if FateOf(rows, items, item, excluded, skip) == WasInserted then 1 else 0
  {
    var kept := Kept(rows, items, excluded, skip);
    StagesAppend(rows, kept, item);
    if item.jobUuid.Some? {
      RepeatedIffKeptBefore(rows, items, item, excluded, skip);
      WithUuidMembers(kept);
      StagesAppend(rows, WithUuid(kept), item);
    }
  }

  lemma RepeatedIffKeptBefore(rows: seq<Row>, items: seq<Item>, item: Item, excluded: set<string>, skip: bool)
    requires item.domain !in excluded && !(skip && IsUnchanged(rows, item)) && item.jobUuid.Some?
    ensures FateOf(rows, items, item, excluded, skip) == WasRepeated
            <==> item.jobUuid.value in ItemUuids(Kept(rows, items, excluded, skip))
  {
    KeptMembers(rows, items, excluded, skip);
  }

  /** How many times `x` is among the items, with the given fate. */
  function TallyOf(rows: seq<Row>, items: seq<Item>, excluded: set<string>, skip: bool, fate: Fate, x: Item): nat {
    if items == [] then 0 else
      var n := |items| - 1;
      TallyOf(rows, items[..n], excluded, skip, fate, x)
      + if items[n] == x && FateOf(rows, items[..n], items[n], excluded, skip) == fate then 1 else 0
  }

  lemma LastOfKept(rows: seq<Row>, items: seq<Item>, item: Item, excluded: set<string>, skip: bool, x: Item)
    requires item.domain !in excluded && !(skip && IsUnchanged(rows, item))
    ensures var kept := Kept(rows, items, excluded, skip);
            multiset(NotStored(rows, WithUuid(kept + [item])))[x] + multiset(Plain(kept + [item]))[x]
            == multiset(NotStored(rows, WithUuid(kept)))[x] + multiset(Plain(kept))[x]
               + if item == x && FateOf(rows, items, item, excluded, skip) == WasInserted then 1 else 0
  {
    var kept := Kept(rows, items, excluded, skip);
    StagesAppend(rows, kept, item);
    if item.jobUuid.Some? {
      RepeatedIffKeptBefore(rows, items, item, excluded, skip);
      WithUuidMembers(kept);
      StagesAppend(rows, WithUuid(kept), item);
    }
  }

  lemma KeptPush(rows: seq<Row>, items: seq<Item>, item: Item, excluded: set<string>, skip: bool)
    ensures Kept(rows, items + [item], excluded, skip) ==
            Kept(rows, items, excluded, skip)
            + if item.domain in excluded || (skip && IsUnchanged(rows, item)) then [] else [item]
  {
    assert (items + [item])[..|items|] == items;
  }

  lemma SkippedPush(rows: seq<Row>, items: seq<Item>, item: Item, excluded: set<string>, skip: bool)
    ensures Skipped(rows, items + [item], excluded, skip) ==
            Skipped(rows, items, excluded, skip)
            + if item.domain !in excluded && skip && IsUnchanged(rows, item) then [item] else []
  {
    assert (items + [item])[..|items|] == items;
  }

  lemma InsertedIs(rows: seq<Row>, items: seq<Item>, excluded: set<string>, skip: bool)
    ensures var kept := Kept(rows, items, excluded, skip);
            Inserted(rows, items, excluded, skip) == NotStored(rows, WithUuid(kept)) + Plain(kept)
  {
  }

  /** The fate of an item says whether it is skipped, and an inserted one is kept. */
  lemma FateDecides(rows: seq<Row>, before: seq<Item>, item: Item, excluded: set<string>, skip: bool)
    ensures FateOf(rows, before, item, excluded, skip) == WasUnchanged <==>
              item.domain !in excluded && skip && IsUnchanged(rows, item)
    ensures FateOf(rows, before, item, excluded, skip) == WasInserted ==>
              item.domain !in excluded && !(skip && IsUnchanged(rows, item))
  {
  }

  lemma OneFateOf(rows: seq<Row>, items: seq<Item>, excluded: set<string>, skip: bool, x: Item)
    requires items != []
    ensures var n := |items| - 1;
            && multiset(Inserted(rows, items, excluded, skip))[x]
               == multiset(Inserted(rows, items[..n], excluded, skip))[x]
               + (if items[n] == x && FateOf(rows, items[..n], items[n], excluded, skip) == WasInserted then 1 else 0)
            && multiset(Skipped(rows, items, excluded, skip))[x]
               == multiset(Skipped(rows, items[..n], excluded, skip))[x]
               + (if items[n] == x && FateOf(rows, items[..n], items[n], excluded, skip) == WasUnchanged then 1 else 0)
  {
    hide *;
    var n := |items| - 1;
    assert items == items[..n] + [items[n]];
    FateDecides(rows, items[..n], items[n], excluded, skip);
    KeptPush(rows, items[..n], items[n], excluded, skip);
    SkippedPush(rows, items[..n], items[n], excluded, skip);
    InsertedIs(rows, items, excluded, skip);
    InsertedIs(rows, items[..n], excluded, skip);
    if items[n].domain !in excluded && !(skip && IsUnchanged(rows, items[n])) {
      LastOfKept(rows, items[..n], items[n], excluded, skip, x);
    } else {
      assert Kept(rows, items[..n], excluded, skip) + [] == Kept(rows, items[..n], excluded, skip);
    }
  }

  lemma NothingFromNothing(rows: seq<Row>, excluded: set<string>, skip: bool, x: Item)
    ensures multiset(Inserted(rows, [], excluded, skip))[x] == 0 == multiset(Skipped(rows, [], excluded, skip))[x]
  {
    EmptyBatch(rows, excluded, skip);
  }

  /** Not only the numbers: exactly the items with the fate of an insert become rows, and
      exactly those with the fate of a skip are skipped, each as often as it was sent so. */
  lemma {:induction false} FatesAreTheItems(rows: seq<Row>, items: seq<Item>, excluded: set<string>, skip: bool,
                                            x: Item)
    ensures multiset(Inserted(rows, items, excluded, skip))[x] == TallyOf(rows, items, excluded, skip, WasInserted, x)
    ensures multiset(Skipped(rows, items, excluded, skip))[x] == TallyOf(rows, items, excluded, skip, WasUnchanged, x)
  {
    hide FateOf, Inserted, Skipped;
    if items == [] {
      NothingFromNothing(rows, excluded, skip, x);
    } else {
      FatesAreTheItems(rows, items[..|items| - 1], excluded, skip, x);
      OneFateOf(rows, items, excluded, skip, x);
    }
  }

  /* ---- What a call audits ---- */

  function Times(status: Status, n: nat): seq<Status> {
    seq(n, _ => status)
  }

  lemma TimesPush(status: Status, n: nat)
    ensures Times(status, n) + [status] == Times(status, n + 1)
  {
  }

  lemma {:induction false} StoresAreAudited(w: World, items: seq<Item>, first: int, now: int)
    ensures StoreEffects(w, items, first, now).audits == w.audits + Times(Stored, |items|)
  {
    if items == [] {
    } else {
      StoresAreAudited(w, items[..|items| - 1], first, now);
      TimesPush(Stored, |items| - 1);
    }
  }

  lemma {:induction false} SkipsAreAudited(w: World, items: seq<Item>, now: int)
    ensures SkipEffects(w, items, now).audits == w.audits + Times(Unchanged, |items|)
  {
    if items == [] {
    } else {
      SkipsAreAudited(w, items[..|items| - 1], now);
      TimesPush(Unchanged, |items| - 1);
    }
  }

  lemma {:induction false} ExclusionsAreAudited(w: World, items: seq<Item>, excluded: set<string>, skip: bool)
    ensures ExcludeEffects(w, items, excluded).audits
            == w.audits + Times(Excluded, Tally(w.db.rows, items, excluded, skip, WasExcluded))
  {
    if items == [] {
    } else {
      var n := |items| - 1;
      ExclusionsAreAudited(w, items[..n], excluded, skip);
      TimesPush(Excluded, Tally(w.db.rows, items[..n], excluded, skip, WasExcluded));
      assert FateOf(w.db.rows, items[..n], items[n], excluded, skip) == WasExcluded <==> items[n].domain in excluded;
    }
  }

  /** A call leaves one audit entry for each item it does not find stored already, and names
      its fate: first the excluded ones, then the stored, then the unchanged. */
  lemma AuditsNameTheFates(w: World, items: seq<Item>, excluded: set<string>, skip: bool, now: int)
    ensures After(w, items, excluded, skip, now).audits
            == w.audits + Times(Excluded, Tally(w.db.rows, items, excluded, skip, WasExcluded))
               + Times(Stored, Tally(w.db.rows, items, excluded, skip, WasInserted))
               + Times(Unchanged, Tally(w.db.rows, items, excluded, skip, WasUnchanged))
  {
    var rows := w.db.rows;
    var inserted, skipped := Inserted(rows, items, excluded, skip), Skipped(rows, items, excluded, skip);
    BatchAccounting(rows, items, excluded, skip);
    ExclusionsAreAudited(w, items, excluded, skip);
    ExcludeEffectsFrame(w, items, excluded);
    var w1 := ExcludeEffects(w, items, excluded);
    var w2 := w1.(db := w1.db.(rows := rows + ToRows(inserted)));
    StoresAreAudited(w2, inserted, |rows|, now);
    SkipsAreAudited(StoreEffects(w2, inserted, |rows|, now), skipped, now);
  }

  /* ---- Idempotence ---- */

  ghost predicate UuidsUnique(rows: seq<Row>) {
    forall i, j :: 0 <= i < j < |rows| && rows[i].jobUuid.Some? ==> rows[i].jobUuid != rows[j].jobUuid
  }

  lemma {:induction false} WithUuidUnique(items: seq<Item>)
    ensures forall i, j :: 0 <= i < j < |WithUuid(items)| ==> WithUuid(items)[i].jobUuid != WithUuid(items)[j].jobUuid
  {
    if items == [] {
    } else {
      var before, item := items[..|items| - 1], items[|items| - 1];
      WithUuidUnique(before);
      WithUuidMembers(before);
      assert forall i :: 0 <= i < |WithUuid(before)| ==> WithUuid(before)[i] in WithUuid(before);
    }
  }

  lemma {:induction false} NotStoredUnique(rows: seq<Row>, items: seq<Item>)
    requires forall i, j :: 0 <= i < j < |items| ==> items[i].jobUuid != items[j].jobUuid
    requires forall i :: 0 <= i < |items| ==> items[i].jobUuid.Some?
    ensures forall i, j :: 0 <= i < j < |NotStored(rows, items)| ==>
              NotStored(rows, items)[i].jobUuid != NotStored(rows, items)[j].jobUuid
    ensures forall i :: 0 <= i < |NotStored(rows, items)| ==>
              && NotStored(rows, items)[i].jobUuid.Some? && NotStored(rows, items)[i] in items
              && NotStored(rows, items)[i].jobUuid.value !in Uuids(rows)
  {
    if items == [] {
    } else {
      NotStoredUnique(rows, items[..|items| - 1]);
      var before := NotStored(rows, items[..|items| - 1]);
      forall i | 0 <= i < |before|
        ensures before[i].jobUuid != items[|items| - 1].jobUuid
      {
        var k :| 0 <= k < |items| - 1 && items[..|items| - 1][k] == before[i];
        assert items[k] == before[i];
      }
    }
  }

  lemma {:induction false} PlainHasNone(items: seq<Item>)
    ensures forall i :: 0 <= i < |Plain(items)| ==> Plain(items)[i].jobUuid.None?
  {
    if items == [] {
    } else {
      PlainHasNone(items[..|items| - 1]);
    }
  }

  /** New items whose uuids collide neither with stored rows nor with each other. */
  ghost predicate Collisionless(rows: seq<Row>, items: seq<Item>) {
    forall i :: 0 <= i < |items| && items[i].jobUuid.Some? ==>
      && items[i].jobUuid.value !in Uuids(rows)
      && forall j :: 0 <= j < i ==> items[j].jobUuid != items[i].jobUuid
  }

  lemma InsertedIsCollisionless(rows: seq<Row>, items: seq<Item>, excluded: set<string>, skip: bool)
    ensures Collisionless(rows, Inserted(rows, items, excluded, skip))
  {
    var kept := Kept(rows, items, excluded, skip);
    WithUuidUnique(kept);
    WithUuidMembers(kept);
    NotStoredUnique(rows, WithUuid(kept));
    PlainHasNone(kept);
  }

  /** Whatever batches arrive, no job uuid is ever stored twice. */
  lemma NoUuidStoredTwice(w: World, items: seq<Item>, excluded: set<string>, skip: bool, now: int)
    requires UuidsUnique(w.db.rows)
    ensures UuidsUnique(After(w, items, excluded, skip, now).db.rows)
  {
    AfterRows(w, items, excluded, skip, now);
    InsertedIsCollisionless(w.db.rows, items, excluded, skip);
  }

  lemma {:induction false} NotStoredCovers(rows: seq<Row>, items: seq<Item>)
    ensures forall i :: i in items && i.jobUuid.Some? ==> i.jobUuid.value in Uuids(rows) || i in NotStored(rows, items)
    ensures (forall i :: i in items ==> i.jobUuid.Some? && i.jobUuid.value in Uuids(rows)) ==>
              NotStored(rows, items) == []
  {
    if items == [] {
    } else {
      var before, item := items[..|items| - 1], items[|items| - 1];
      NotStoredCovers(rows, before);
      assert items == before + [item];
    }
  }

  lemma {:induction false} NoSkipping(rows: seq<Row>, rows': seq<Row>, items: seq<Item>, excluded: set<string>)
    ensures Skipped(rows, items, excluded, false) == []
    ensures Kept(rows, items, excluded, false) == Kept(rows', items, excluded, false)
    ensures forall i :: i in Kept(rows, items, excluded, false) ==> i in items
  {
    if items == [] {
    } else {
      NoSkipping(rows, rows', items[..|items| - 1], excluded);
    }
  }

  lemma {:induction false} PlainEmpty(items: seq<Item>)
    requires forall i :: i in items ==> i.jobUuid.Some?
    ensures Plain(items) == []
  {
    if items == [] {
    } else {
      assert items[|items| - 1] in items;
      PlainEmpty(items[..|items| - 1]);
    }
  }

  lemma InsertedThenStored(rows: seq<Row>, items: seq<Item>, excluded: set<string>)
    requires forall i :: i in items ==> i.jobUuid.Some?
    ensures Inserted(rows + ToRows(Inserted(rows, items, excluded, false)), items, excluded, false) == []
  {
    var kept := Kept(rows, items, excluded, false);
    var inserted := Inserted(rows, items, excluded, false);
    var rows' := rows + ToRows(inserted);
    NoSkipping(rows, rows', items, excluded);
    PlainEmpty(kept);
    WithUuidMembers(kept);
    NotStoredCovers(rows, WithUuid(kept));
    forall i | i in WithUuid(kept)
      ensures i.jobUuid.value in Uuids(rows')
    {
      if i in inserted {
        var k :| 0 <= k < |inserted| && inserted[k] == i;
        assert rows'[|rows| + k] == ToRow(i);
      } else {
        var r :| r in rows && r.jobUuid == i.jobUuid;
        assert r in rows';
      }
    }
    NotStoredCovers(rows', WithUuid(kept));
  }

  /** With skip-write off, re-sending a batch whose items all carry uuids changes no
      snapshot, alert, cycle counter or cost, and fires nothing. */
  lemma ReplayIsNoOp(w: World, items: seq<Item>, excluded: set<string>, now: int, later: int)
    requires forall i :: i in items ==> i.jobUuid.Some?
    ensures var w1 := After(w, items, excluded, false, now);
            var w2 := After(w1, items, excluded, false, later);
            w2 == w1.(audits := w2.audits)
  {
    var w1 := After(w, items, excluded, false, now);
    AfterRows(w, items, excluded, false, now);
    InsertedThenStored(w.db.rows, items, excluded);
    NoSkipping(w1.db.rows, w1.db.rows, items, excluded);
    ExcludeEffectsFrame(w1, items, excluded);
    assert w1.db.rows + ToRows([]) == w1.db.rows;
  }

  /* ---- One snapshot at a time ---- */

  function AfterOne(w: World, item: Item, excluded: set<string>, skip: bool, now: int): World {
    if item.domain in excluded then w.(audits := w.audits + [Excluded])
    else if skip && IsUnchanged(w.db.rows, item) then Count(w, item, Unchanged, now)
    else if item.jobUuid.Some? && item.jobUuid.value in Uuids(w.db.rows) then w
    else
      var stored := w.db.(rows := w.db.rows + [ToRow(item)]);
      var alerts := Detect(stored, item.url, |w.db.rows|, item.inStock);
      Count(w.(db := stored.(alerts := alerts)), item, Stored, now)
  }

  lemma SingleAfter(w: World, item: Item, excluded: set<string>, skip: bool, now: int)
    ensures After(w, [item], excluded, skip, now) == AfterOne(w, item, excluded, skip, now)
  {
    var rows := w.db.rows;
    assert [item][..0] == [];
    InsertedOne(rows, item, excluded, skip);
    assert ExcludeEffects(w, [item], excluded) ==
           if item.domain in excluded then w.(audits := w.audits + [Excluded]) else w;
    assert ToRows([item]) == [ToRow(item)] && rows + ToRows([]) == rows;
    if Inserted(rows, [item], excluded, skip) == [item] {
      var stored := w.(db := w.db.(rows := rows + [ToRow(item)]));
      assert StoreEffects(stored, [item][..0], |rows|, now) == stored;
      assert StoreEffects(stored, [item], |rows|, now) == AfterOne(w, item, excluded, skip, now);
    } else {
      var w1 := ExcludeEffects(w, [item], excluded);
      assert w1.(db := w1.db.(rows := rows + ToRows([]))) == w1;
      assert SkipEffects(w1, [item][..0], now) == w1;
    }
  }

  lemma InsertedOne(rows: seq<Row>, item: Item, excluded: set<string>, skip: bool)
    ensures var drop := item.domain in excluded || (skip && IsUnchanged(rows, item));
            Inserted(rows, [item], excluded, skip) ==
            if drop || (item.jobUuid.Some? && item.jobUuid.value in Uuids(rows)) then [] else [item]
    ensures Skipped(rows, [item], excluded, skip) ==
            if item.domain !in excluded && skip && IsUnchanged(rows, item) then [item] else []
  {
    assert [item][..0] == [] && [] + [item] == [item];
    assert Kept(rows, [item], excluded, skip) ==
           if item.domain in excluded || (skip && IsUnchanged(rows, item)) then [] else [item];
    StagesAppend(rows, [], item);
    assert WithUuid([item]) + Plain([item]) == [item];
  }

  /** The batch was stored before: every item not of an excluded domain has a stored uuid. */
  predicate StoredBefore(rows: seq<Row>, items: seq<Item>, excluded: set<string>) {
    forall k :: 0 <= k < |items| && items[k].domain !in excluded ==>
                  items[k].jobUuid.Some? && items[k].jobUuid.value in Uuids(rows)
  }

  /** Some item is dropped by skip-write as unchanged. */
  predicate SkipsSome(rows: seq<Row>, items: seq<Item>, excluded: set<string>, skip: bool) {
    skip && exists k :: 0 <= k < |items| && items[k].domain !in excluded && IsUnchanged(rows, items[k])
  }

  lemma {:induction false} StoredKeeps(rows: seq<Row>, items: seq<Item>, excluded: set<string>, skip: bool)
    requires StoredBefore(rows, items, excluded)
    ensures forall i :: i in Kept(rows, items, excluded, skip) ==> i.jobUuid.Some? && i.jobUuid.value in Uuids(rows)
    ensures Skipped(rows, items, excluded, skip) == [] <==> !SkipsSome(rows, items, excluded, skip)
  {
    hide IsUnchanged;
    if items == [] {
    } else {
      var n := |items| - 1;
      StoredKeeps(rows, items[..n], excluded, skip);
      assert forall k :: 0 <= k < n ==> items[..n][k] == items[k];
      if SkipsSome(rows, items[..n], excluded, skip) {
        var k :| 0 <= k < n && items[..n][k].domain !in excluded && IsUnchanged(rows, items[..n][k]);
        assert items[k].domain !in excluded && IsUnchanged(rows, items[k]);
      }
    }
  }

  lemma StoredInsertsNothing(rows: seq<Row>, items: seq<Item>, excluded: set<string>, skip: bool)
    requires StoredBefore(rows, items, excluded)
    ensures Inserted(rows, items, excluded, skip) == []
  {
    var kept := Kept(rows, items, excluded, skip);
    StoredKeeps(rows, items, excluded, skip);
    PlainEmpty(kept);
    WithUuidMembers(kept);
    NotStoredCovers(rows, WithUuid(kept));
  }

  lemma {:induction false} SkipsAreCharged(w: World, items: seq<Item>, now: int)
    ensures |SkipEffects(w, items, now).charges| == |w.charges| + |items|
  {
    if items == [] {
    } else {
      SkipsAreCharged(w, items[..|items| - 1], now);
    }
  }

  /** A retried batch is a no-op but for its audits exactly when none of it is skipped as
      unchanged; the skipped items advance their cycles and their costs once more. */
  lemma RetriedBatchIsNoOpIff(w: World, items: seq<Item>, excluded: set<string>, skip: bool, now: int)
    requires StoredBefore(w.db.rows, items, excluded)
    ensures var w' := After(w, items, excluded, skip, now);
            && (w' == w.(audits := w'.audits) <==> !SkipsSome(w.db.rows, items, excluded, skip))
            && w'.db == w.db
            && |w'.charges| == |w.charges| + |Skipped(w.db.rows, items, excluded, skip)|
  {
    var skipped, w1 := Skipped(w.db.rows, items, excluded, skip), ExcludeEffects(w, items, excluded);
    StoredKeeps(w.db.rows, items, excluded, skip);
    StoredInsertsNothing(w.db.rows, items, excluded, skip);
    ExcludeEffectsFrame(w, items, excluded);
    assert w.db.rows + ToRows([]) == w.db.rows;
    assert StoreEffects(w1, [], |w.db.rows|, now) == w1;
    hide SkipsSome, StoredBefore, Skipped;
    SkipsAreCharged(w1, skipped, now);
    SkipEffectsFrame(w1, skipped, now);
  }

  /** In particular of one snapshot: with skip-write on, a retry of the newest value
      advances its cycles and its cost once more. */
  lemma RetryIsNoOpIffNotSkipped(w: World, item: Item, excluded: set<string>, skip: bool, now: int)
    requires item.domain !in excluded && item.jobUuid.Some? && item.jobUuid.value in Uuids(w.db.rows)
    ensures After(w, [item], excluded, skip, now) == w <==> !(skip && IsUnchanged(w.db.rows, item))
    ensures skip && IsUnchanged(w.db.rows, item) ==>
              After(w, [item], excluded, skip, now).charges == w.charges + [item.charge]
              && After(w, [item], excluded, skip, now).keys == RecordAll(w.keys, item.cycles, now).0
  {
    SingleAfter(w, item, excluded, skip, now);
  }

  /** A failed scrape advances its cycles, fires and costs exactly as a counted snapshot
      with the same slots would, and touches no table: a banned competitor cannot stall a
      merchant's cycle. */
  lemma FailureAdvancesLikeSuccess(w: World, item: Item, excluded: set<string>, skip: bool, now: int)
    requires item.domain !in excluded
    requires (skip && IsUnchanged(w.db.rows, item)) || (item.jobUuid.Some? ==> item.jobUuid.value !in Uuids(w.db.rows))
    ensures var landed := After(w, [item], excluded, skip, now);
            var failed := Landed(w, item.cycles, item.charge, Failed, now);
            && failed.db == w.db
            && (failed.keys, failed.fired, failed.charges) == (landed.keys, landed.fired, landed.charges)
  {
    SingleAfter(w, item, excluded, skip, now);
  }

  datatype Event =
    | Post(item: Item, excluded: set<string>, now: int)
    | SetFlags(k: nat, enabled: bool, silenced: bool)
    | Track(t: Tracking)

  function Step(w: World, e: Event, skip: bool): World {
    match e
    case Post(item, excluded, now) => After(w, [item], excluded, skip, now)
    case SetFlags(k, enabled, silenced) =>
      if k >= |w.db.trackings| then w
      else
        var t := w.db.trackings[k].(enabled := enabled, silenced := silenced);
        w.(db := w.db.(trackings := w.db.trackings[k := t]))
    case Track(t) =>
      if exists i :: 0 <= i < |w.db.trackings| && w.db.trackings[i].id == t.id then w
      else w.(db := w.db.(trackings := w.db.trackings + [t]))
  }

  function Run(w: World, events: seq<Event>, skip: bool): World {
    if events == [] then w else Step(Run(w, events[..|events| - 1], skip), events[|events| - 1], skip)
  }

  /* ---- Alerts over whole runs ---- */

  /** Over any run of single-snapshot ingests, retries included and skip-write on or off,
      mixed with adding, enabling, disabling and silencing trackings: each tracking has at
      most one unresolved alert, and only while its URL's newest snapshot is out of stock. */
  lemma {:induction false} AlertsStayJustified(w: World, events: seq<Event>, skip: bool)
    requires AlertInv(w.db)
    ensures AlertInv(Run(w, events, skip).db)
  {
    if events == [] {
    } else {
      AlertsStayJustified(w, events[..|events| - 1], skip);
      var s := Run(w, events[..|events| - 1], skip);
      match events[|events| - 1]
      case Post(item, excluded, now) =>
        SingleAfter(s, item, excluded, skip, now);
        StoreKeepsAlertInv(s.db, ToRow(item));
      case SetFlags(k, enabled, silenced) =>
        if k < |s.db.trackings| {
          FlagsKeepAlertInv(s.db, k, enabled, silenced);
        }
      case Track(t) =>
        if !exists i :: 0 <= i < |s.db.trackings| && s.db.trackings[i].id == t.id {
          NewTrackingKeepsAlertInv(s.db, t);
        }
    }
  }

  /* ---- Skip-write is transparent ---- */

  /** Everything but the stored rows and the audit wording agrees, and every URL's newest
      price and stock agree. */
  ghost predicate SameOutcome(on: World, off: World) {
    && on.db.trackings == off.db.trackings
    && on.db.alerts == off.db.alerts
    && on.keys == off.keys && on.fired == off.fired && on.charges == off.charges
    && |on.audits| == |off.audits|
    && |on.db.rows| <= |off.db.rows|
    && (forall url :: Values(on.db.rows, url) == Values(off.db.rows, url))
    && Uuids(on.db.rows) <= Uuids(off.db.rows)
  }

  lemma UuidsAfter(rows: seq<Row>, row: Row)
    ensures Uuids(rows + [row]) == Uuids(rows) + if row.jobUuid.Some? then {row.jobUuid.value} else {}
  {
    if row.jobUuid.Some? {
      assert row in rows + [row];
    }
  }

  lemma ValuesAfter(rows: seq<Row>, row: Row, url: string)
    ensures Values(rows + [row], url) == if row.url == url then Some((row.price, row.inStock)) else Values(rows, url)
  {
    NewestAfter(rows, row, url);
  }

  lemma DetectDependsOnNewest(a: Db, b: Db, row: Row)
    requires a.trackings == b.trackings && a.alerts == b.alerts
    requires Values(a.rows, row.url) == Values(b.rows, row.url)
    ensures Detect(a.(rows := a.rows + [row]), row.url, |a.rows|, row.inStock)
            == Detect(b.(rows := b.rows + [row]), row.url, |b.rows|, row.inStock)
  {
    NewestAfter(a.rows, row, row.url);
    NewestAfter(b.rows, row, row.url);
  }

  lemma PostKeepsSame(on: World, off: World, item: Item, excluded: set<string>, now: int)
    requires SameOutcome(on, off)
    requires item.jobUuid.Some? ==> item.jobUuid.value !in Uuids(off.db.rows)
    ensures SameOutcome(AfterOne(on, item, excluded, true, now), AfterOne(off, item, excluded, false, now))
    ensures Uuids(AfterOne(off, item, excluded, false, now).db.rows)
            <= Uuids(off.db.rows) + if item.jobUuid.Some? then {item.jobUuid.value} else {}
  {
    if item.domain !in excluded {
      var row := ToRow(item);
      UuidsAfter(off.db.rows, row);
      forall url
        ensures Values(off.db.rows + [row], url) ==
                if row.url == url then Some((row.price, row.inStock)) else Values(off.db.rows, url)
        ensures Values(on.db.rows + [row], url) ==
                if row.url == url then Some((row.price, row.inStock)) else Values(on.db.rows, url)
      {
        ValuesAfter(off.db.rows, row, url);
        ValuesAfter(on.db.rows, row, url);
      }
      if IsUnchanged(on.db.rows, item) {
        SameStockIsSilent(off.db, row);
      } else {
        UuidsAfter(on.db.rows, row);
        DetectDependsOnNewest(on.db, off.db, row);
      }
    }
  }

  function PostedUuids(events: seq<Event>): set<string> {
    set e | e in events && e.Post? && e.item.jobUuid.Some? :: e.item.jobUuid.value
  }

  /** No uuid is posted twice or was stored before the run. */
  ghost predicate AllFresh(w: World, events: seq<Event>) {
    forall i :: 0 <= i < |events| && events[i].Post? && events[i].item.jobUuid.Some? ==>
      events[i].item.jobUuid.value !in Uuids(w.db.rows) + PostedUuids(events[..i])
  }

  function PostedUuid(e: Event): set<string> {
    if e.Post? && e.item.jobUuid.Some? then {e.item.jobUuid.value} else {}
  }

  lemma SkipWriteStep(on: World, off: World, e: Event)
    requires SameOutcome(on, off) && PostedUuid(e) !! Uuids(off.db.rows)
    ensures SameOutcome(Step(on, e, true), Step(off, e, false))
    ensures Uuids(Step(off, e, false).db.rows) <= Uuids(off.db.rows) + PostedUuid(e)
  {
    if e.Post? {
      SingleAfter(on, e.item, e.excluded, true, e.now);
      SingleAfter(off, e.item, e.excluded, false, e.now);
      PostKeepsSame(on, off, e.item, e.excluded, e.now);
    }
  }

  /** For every sequence of fresh single-snapshot ingests and tracking changes, running
      with skip-write on and off gives the same alerts, the same newest price and stock of
      every URL, the same cycle counters, fires and costs, from no more rows. */
  lemma {:induction false} SkipWriteIsTransparent(w: World, events: seq<Event>)
    requires AllFresh(w, events)
    ensures SameOutcome(Run(w, events, true), Run(w, events, false))
    ensures Uuids(Run(w, events, false).db.rows) <= Uuids(w.db.rows) + PostedUuids(events)
  {
    if events == [] {
    } else {
      hide *;
      var n := |events| - 1;
      FreshBefore(w, events);
      SkipWriteIsTransparent(w, events[..n]);
      SkipWriteStep(Run(w, events[..n], true), Run(w, events[..n], false), events[n]);
      RunLast(w, events, true);
      RunLast(w, events, false);
    }
  }

  lemma RunLast(w: World, events: seq<Event>, skip: bool)
    requires events != []
    ensures var n := |events| - 1; Run(w, events, skip) == Step(Run(w, events[..n], skip), events[n], skip)
  {
  }

  lemma FreshBefore(w: World, events: seq<Event>)
    requires AllFresh(w, events) && events != []
    ensures var n := |events| - 1;
            && AllFresh(w, events[..n]) && PostedUuid(events[n]) !! Uuids(w.db.rows) + PostedUuids(events[..n])
            && PostedUuids(events) == PostedUuids(events[..n]) + PostedUuid(events[n])
  {
    var n := |events| - 1;
    forall i | 0 <= i < n && events[..n][i].Post? && events[..n][i].item.jobUuid.Some?
      ensures events[..n][i].item.jobUuid.value !in Uuids(w.db.rows) + PostedUuids(events[..n][..i])
    {
      assert events[..n][..i] == events[..i];
    }
    assert events == events[..n] + [events[n]];
  }

  /** Plain items are inserted as they are kept. */
  lemma PlainInserts(rows: seq<Row>, kept: seq<Item>)
    requires forall i :: 0 <= i < |kept| ==> kept[i].jobUuid.None?
    ensures NotStored(rows, WithUuid(kept)) + Plain(kept) == kept
    decreases |kept|
  {
    if kept == [] {
    } else {
      var before, item := kept[..|kept| - 1], kept[|kept| - 1];
      PlainInserts(rows, before);
      StagesAppend(rows, before, item);
      assert kept == before + [item];
    }
  }

  lemma KeptPair(rows: seq<Row>, there: Item, back: Item)
    requires Values(rows, back.url) == Some((back.price, back.inStock)) && there.url == back.url
    requires there.price != back.price
    ensures Kept(rows, [there, back], {}, true) == [there] && Kept(rows, [there, back], {}, false) == [there, back]
  {
    assert IsUnchanged(rows, back) && !IsUnchanged(rows, there);
    assert Kept(rows, [], {}, true) == [] == Kept(rows, [], {}, false);
    hide Kept, IsUnchanged;
    KeptPush(rows, [], there, {}, true);
    KeptPush(rows, [], there, {}, false);
    KeptPush(rows, [there], back, {}, true);
    KeptPush(rows, [there], back, {}, false);
    assert [] + [there] == [there] && [there] + [back] == [there, back] && [there] + [] == [there];
  }

  lemma PairRows(a: Item, b: Item)
    ensures ToRows([a]) == [ToRow(a)] && ToRows([a, b]) == [ToRow(a)] + [ToRow(b)]
  {
  }

  lemma ToRowFields(item: Item)
    ensures ToRow(item).url == item.url && ToRow(item).price == item.price && ToRow(item).inStock == item.inStock
  {
  }

  /** Batches are not transparent: skip-write compares every item with what was stored
      before the batch, so a value that changes and changes back within one batch is
      dropped and the wrong price stays newest. */
  lemma BatchesAreNotTransparent(w: World, there: Item, back: Item, now: int)
    requires w.db.rows == [ToRow(back)] && there.url == back.url && there.price != back.price
    requires there.jobUuid.None? && back.jobUuid.None?
    ensures Values(After(w, [there, back], {}, true, now).db.rows, back.url) == Some((there.price, there.inStock))
    ensures Values(After(w, [there, back], {}, false, now).db.rows, back.url) == Some((back.price, back.inStock))
  {
    hide *;
    var rows := w.db.rows;
    assert [] + [ToRow(back)] == rows;
    ToRowFields(there);
    ToRowFields(back);
    ValuesAfter([], ToRow(back), back.url);
    KeptPair(rows, there, back);
    PlainInserts(rows, [there]);
    PlainInserts(rows, [there, back]);
    InsertedIs(rows, [there, back], {}, true);
    InsertedIs(rows, [there, back], {}, false);
    AfterRows(w, [there, back], {}, true, now);
    AfterRows(w, [there, back], {}, false, now);
    PairRows(there, back);
    ValuesAfter(rows, ToRow(there), back.url);
    ValuesAfter(rows + [ToRow(there)], ToRow(back), back.url);
    assert rows + ([ToRow(there)] + [ToRow(back)]) == rows + [ToRow(there)] + [ToRow(back)];
  }
}
