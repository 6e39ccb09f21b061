/** Skip-write over whole batches (specter-api/routers/internal.py). Every item is compared
    with what was stored before the batch, and the uuid-bearing rows of a batch tie. When
    can nobody tell whether unchanged items were stored or skipped? */
module BatchTransparency {
  import opened Wrappers
  import opened Seqs
  import opened CycleStore
  import opened CycleCoordinator
  import opened OosDetector
  import opened Ingest
  import opened IngestProperties
  import opened SnapshotTies
  import opened AlertBatches

  /* ---- What the two runs insert ---- */

  function ValueOf(item: Item): (int, bool) {
    (item.price, item.inStock)
  }

  /** The items that skip-write would still insert. */
  function Changed(rows: seq<Row>, items: seq<Item>): seq<Item> {
    if items == [] then [] else
      var before, item := Changed(rows, items[..|items| - 1]), items[|items| - 1];
      if IsUnchanged(rows, item) then before else before + [item]
  }

  lemma {:induction false} ChangedAppend(rows: seq<Row>, a: seq<Item>, b: seq<Item>)
    ensures Changed(rows, a + b) == Changed(rows, a) + Changed(rows, b)
  {
    if b == [] {
      assert a + b == a;
    } else {
      ChangedAppend(rows, a, b[..|b| - 1]);
      assert (a + b)[..|a + b| - 1] == a + b[..|b| - 1];
    }
  }

  lemma {:induction false} ChangedMember(rows: seq<Row>, items: seq<Item>, item: Item)
    ensures item in Changed(rows, items) <==> item in items && !IsUnchanged(rows, item)
  {
    hide IsUnchanged;
    if items == [] {
    } else {
      ChangedMember(rows, items[..|items| - 1], item);
      assert items == items[..|items| - 1] + [items[|items| - 1]];
    }
  }

  lemma {:induction false} ChangedKeepsOrder(rows: seq<Row>, items: seq<Item>)
    requires UuidsFirst(items)
    ensures UuidsFirst(Changed(rows, items)) && |Changed(rows, items)| <= |items|
  {
    hide IsUnchanged;
    if items == [] {
    } else {
      var before, last := items[..|items| - 1], items[|items| - 1];
      ChangedKeepsOrder(rows, before);
      forall i | 0 <= i < |Changed(rows, before)| && last.jobUuid.Some?
        ensures Changed(rows, before)[i].jobUuid.Some?
      {
        ChangedMember(rows, before, Changed(rows, before)[i]);
      }
    }
  }

  /* ---- Reading the newest value ---- */

  function ReadValue(t: Table, r: Option<nat>): Option<(int, bool)> {
    if r.Some? && r.value < |t.rows| then Some((t.rows[r.value].price, t.rows[r.value].inStock)) else None
  }

  ghost predicate ReadsAgree(a: Table, b: Table, url: string)
    requires |a.rows| == |a.stamps| && |b.rows| == |b.stamps|
  {
    forall r, q :: MayRead(a, url, -1, r) && MayRead(b, url, -1, q) ==> ReadValue(a, r) == ReadValue(b, q)
  }

  /** However ties are read, both tables give every URL the same newest price and stock. */
  ghost predicate Agree(a: Table, b: Table) {
    WellStamped(a) && WellStamped(b) && forall url :: ReadsAgree(a, b, url)
  }

  /** The value is unambiguous. */
  ghost predicate Clear(t: Table) {
    Agree(t, t)
  }

  lemma AgreeOnValues(a: Table, b: Table, url: string)
    requires Agree(a, b)
    ensures Values(a.rows, url) == Values(b.rows, url)
    ensures forall r :: MayRead(a, url, -1, r) ==> ReadValue(a, r) == Values(a.rows, url)
    ensures forall r :: MayRead(b, url, -1, r) ==> ReadValue(b, r) == Values(b.rows, url)
  {
    LastRowMayBeRead(a, url, -1);
    LastRowMayBeRead(b, url, -1);
    LastRowIsNewest(a.rows, url, -1);
    LastRowIsNewest(b.rows, url, -1);
    assert ReadsAgree(a, b, url);
  }

  /** Agreement makes each side unambiguous. */
  lemma AgreeMeansClear(a: Table, b: Table)
    requires Agree(a, b)
    ensures Clear(a) && Clear(b)
  {
    forall url
      ensures ReadsAgree(a, a, url) && ReadsAgree(b, b, url)
    {
      AgreeOnValues(a, b, url);
    }
  }

  /* ---- The condition ---- */

  /** Item `j` is the last of its URL, item `i` brings another value for it, and either they
      may tie or `j` would be skipped. */
  predicate Clash(rows: seq<Row>, items: seq<Item>, i: int, j: int) {
    && 0 <= i < |items| && IsLast(items, j) && items[i].url == items[j].url && ValueOf(items[i]) != ValueOf(items[j])
    && (items[j].jobUuid.Some? || IsUnchanged(rows, items[j]))
  }

  predicate ClashFree(rows: seq<Row>, items: seq<Item>) {
    forall i, j :: 0 <= i < |items| && 0 <= j < |items| ==> !Clash(rows, items, i, j)
  }

  /** The skipping run's list around item `j`. */
  lemma SplitAt(rows: seq<Row>, items: seq<Item>, j: int)
    requires 0 <= j < |items| && !IsUnchanged(rows, items[j])
    ensures Changed(rows, items) == Changed(rows, items[..j]) + [items[j]] + Changed(rows, items[j + 1..])
  {
    var before, rest := items[..j], items[j + 1..];
    assert items == before + ([items[j]] + rest);
    ChangedAppend(rows, before, [items[j]] + rest);
    ChangedAppend(rows, [items[j]], rest);
    assert [items[j]][..0] == [];
    assert Changed(rows, [items[j]]) == [items[j]];
  }

  /** Nothing of its URL follows the last item. */
  lemma NothingAfterLast(rows: seq<Row>, items: seq<Item>, j: int, k: int)
    requires IsLast(items, j) && 0 <= k < |Changed(rows, items[j + 1..])|
    ensures Changed(rows, items[j + 1..])[k].url != items[j].url
  {
    var rest := items[j + 1..];
    ChangedMember(rows, rest, Changed(rows, rest)[k]);
    var m :| 0 <= m < |rest| && rest[m] == Changed(rows, rest)[k];
    assert rest[m] == items[j + 1 + m];
  }

  /** Where the skipping run keeps the last item, a query reads that item or one it ties with. */
  lemma ReadsLastKept(rows: seq<Row>, items: seq<Item>, j: int, i: int)
    requires IsLast(items, j) && !IsUnchanged(rows, items[j]) && ItemRead(Changed(rows, items), items[j].url, -1, i)
    ensures Changed(rows, items)[i] in items && !IsUnchanged(rows, Changed(rows, items)[i])
    ensures items[j].jobUuid.None? ==> Changed(rows, items)[i] == items[j]
  {
    var before, rest := Changed(rows, items[..j]), Changed(rows, items[j + 1..]);
    SplitAt(rows, items, j);
    ChangedMember(rows, items, Changed(rows, items)[i]);
    hide Changed, IsUnchanged;
    var p := |before|;
    assert Changed(rows, items)[p] == items[j];
    if i > p {
      assert Changed(rows, items)[i] == rest[i - p - 1];
      NothingAfterLast(rows, items, j, i - p - 1);
    }
  }

  /** What may be read of a URL whose last item the skipping run keeps. */
  lemma OnReads(t: Table, rows: seq<Row>, items: seq<Item>, j: int, r: Option<nat>) returns (item: Item)
    requires WellStamped(t) && UuidsFirst(items) && IsLast(items, j) && !IsUnchanged(rows, items[j])
    requires WellStamped(StoreAll(t, Changed(rows, items)))
    requires MayRead(StoreAll(t, Changed(rows, items)), items[j].url, -1, r)
    ensures item in items && item.url == items[j].url && !IsUnchanged(rows, item)
    ensures ReadValue(StoreAll(t, Changed(rows, items)), r) == Some(ValueOf(item))
    ensures items[j].jobUuid.None? ==> item == items[j]
  {
    ChangedKeepsOrder(rows, items);
    ChangedMember(rows, items, items[j]);
    var i := KeptReads(t, Changed(rows, items), items[j], r);
    ReadsLastKept(rows, items, j, i);
    item := Changed(rows, items)[i];
  }

  lemma KeptReads(t: Table, on: seq<Item>, item: Item, r: Option<nat>) returns (i: nat)
    requires WellStamped(t) && UuidsFirst(on) && item in on && WellStamped(StoreAll(t, on))
    requires MayRead(StoreAll(t, on), item.url, -1, r)
    ensures ItemRead(on, item.url, -1, i) && ReadValue(StoreAll(t, on), r) == Some(ValueOf(on[i]))
  {
    var k :| 0 <= k < |on| && on[k] == item;
    assert HasItem(on, item.url, -1);
    ReadsOnlyTheBatch(t, on, item.url, -1, r);
    i := r.value - |t.rows|;
    StoredAt(t, on, i);
  }

  /* ---- Exactly when the newest values agree ---- */

  lemma NoneSkipped(rows: seq<Row>, items: seq<Item>, url: string)
    requires forall item :: item in items && item.url == url ==> IsUnchanged(rows, item)
    ensures !HasItem(Changed(rows, items), url, -1)
  {
    forall k | 0 <= k < |Changed(rows, items)|
      ensures Changed(rows, items)[k].url != url
    {
      ChangedMember(rows, items, Changed(rows, items)[k]);
    }
  }

  lemma ClashFreeLast(rows: seq<Row>, items: seq<Item>, j: int, i: int)
    requires ClashFree(rows, items) && IsLast(items, j) && 0 <= i < |items| && items[i].url == items[j].url
    requires items[j].jobUuid.Some? || IsUnchanged(rows, items[j])
    ensures ValueOf(items[i]) == ValueOf(items[j])
  {
    assert !Clash(rows, items, i, j);
  }

  /** With all items stored, whatever is read is the last item's value. */
  lemma OffReadsLast(t: Table, rows: seq<Row>, items: seq<Item>, j: int, r: Option<nat>)
    requires WellStamped(t) && UuidsFirst(items) && ClashFree(rows, items) && IsLast(items, j)
    requires WellStamped(StoreAll(t, items))
    requires MayRead(StoreAll(t, items), items[j].url, -1, r)
    ensures ReadValue(StoreAll(t, items), r) == Some(ValueOf(items[j]))
  {
    var i := KeptReads(t, items, items[j], r);
    if items[j].jobUuid.Some? {
      ClashFreeLast(rows, items, j, i);
    } else {
      assert i == j;
    }
  }

  /** With unchanged items skipped, too. */
  lemma OnReadsLast(t: Table, rows: seq<Row>, items: seq<Item>, j: int, r: Option<nat>)
    requires WellStamped(t) && Clear(t) && (forall url :: Values(t.rows, url) == Values(rows, url))
    requires UuidsFirst(items) && ClashFree(rows, items) && IsLast(items, j)
    requires WellStamped(StoreAll(t, Changed(rows, items)))
    requires MayRead(StoreAll(t, Changed(rows, items)), items[j].url, -1, r)
    ensures ReadValue(StoreAll(t, Changed(rows, items)), r) == Some(ValueOf(items[j]))
  {
    var on, url := Changed(rows, items), items[j].url;
    if IsUnchanged(rows, items[j]) {
      forall item | item in items && item.url == url
        ensures IsUnchanged(rows, item)
      {
        var i :| 0 <= i < |items| && items[i] == item;
        ClashFreeLast(rows, items, j, i);
      }
      NoneSkipped(rows, items, url);
      ChangedKeepsOrder(rows, items);
      ReadsBeyondTheBatch(t, on, url, -1, r);
      AgreeOnValues(t, t, url);
    } else {
      var item := OnReads(t, rows, items, j, r);
      if items[j].jobUuid.Some? {
        var i :| 0 <= i < |items| && items[i] == item;
        ClashFreeLast(rows, items, j, i);
      }
    }
  }

  lemma ClashFreeAgrees(a: Table, b: Table, items: seq<Item>)
    requires Agree(a, b) && UuidsFirst(items) && ClashFree(b.rows, items)
    ensures Agree(StoreAll(a, Changed(b.rows, items)), StoreAll(b, items))
  {
    var on := Changed(b.rows, items);
    AgreeMeansClear(a, b);
    ChangedKeepsOrder(b.rows, items);
    StoreAllIsWellStamped(a, on);
    StoreAllIsWellStamped(b, items);
    forall url
      ensures Values(a.rows, url) == Values(b.rows, url)
    {
      AgreeOnValues(a, b, url);
    }
    forall url, r, q | MayRead(StoreAll(a, on), url, -1, r) && MayRead(StoreAll(b, items), url, -1, q)
      ensures ReadValue(StoreAll(a, on), r) == ReadValue(StoreAll(b, items), q)
    {
      var j := LastOf(items, url);
      if j >= 0 {
        OffReadsLast(b, b.rows, items, j, q);
        OnReadsLast(a, b.rows, items, j, r);
      } else {
        NoneSkipped(b.rows, items, url);
        ReadsBeyondTheBatch(a, on, url, -1, r);
        ReadsBeyondTheBatch(b, items, url, -1, q);
        assert ReadsAgree(a, b, url);
      }
    }
  }

  /** Tied items of different values can both be read. */
  lemma TieDisagrees(b: Table, items: seq<Item>, i: int, j: int)
    requires WellStamped(b) && UuidsFirst(items) && IsLast(items, j) && items[j].jobUuid.Some?
    requires 0 <= i < |items| && items[i].url == items[j].url && ValueOf(items[i]) != ValueOf(items[j])
    ensures WellStamped(StoreAll(b, items))
    ensures exists p, q :: && MayRead(StoreAll(b, items), items[j].url, -1, p)
                           && MayRead(StoreAll(b, items), items[j].url, -1, q)
                           && ReadValue(StoreAll(b, items), p) != ReadValue(StoreAll(b, items), q)
  {
    StoreAllIsWellStamped(b, items);
    forall o | 0 <= o < |items| && items[o].url == items[j].url
      ensures items[o].jobUuid.Some?
    {
    }
    assert ItemRead(items, items[j].url, -1, i) && ItemRead(items, items[j].url, -1, j);
    hide ItemRead, IsLast;
    ReadsTheBatch(b, items, items[j].url, -1, i);
    ReadsTheBatch(b, items, items[j].url, -1, j);
    StoredAt(b, items, i);
    StoredAt(b, items, j);
    var p: Option<nat>, q: Option<nat> := Some(|b.rows| + i), Some(|b.rows| + j);
    assert ReadValue(StoreAll(b, items), p) != ReadValue(StoreAll(b, items), q);
  }

  /** A skipped last item leaves another value newest. */
  lemma SkippedDisagrees(a: Table, b: Table, items: seq<Item>, i: int, j: int, r: Option<nat>)
    requires WellStamped(a) && WellStamped(b) && UuidsFirst(items) && IsLast(items, j) && items[j].jobUuid.None?
    requires IsUnchanged(b.rows, items[j])
    requires 0 <= i < |items| && items[i].url == items[j].url && ValueOf(items[i]) != ValueOf(items[j])
    requires WellStamped(StoreAll(a, Changed(b.rows, items)))
    requires MayRead(StoreAll(a, Changed(b.rows, items)), items[j].url, -1, r)
    ensures WellStamped(StoreAll(b, items))
    ensures exists q :: && MayRead(StoreAll(b, items), items[j].url, -1, q)
                        && ReadValue(StoreAll(b, items), q) != ReadValue(StoreAll(a, Changed(b.rows, items)), r)
  {
    var on := Changed(b.rows, items);
    StoreAllIsWellStamped(b, items);
    ReadsTheBatch(b, items, items[j].url, -1, j);
    StoredAt(b, items, j);
    ChangedMember(b.rows, items, items[i]);
    ChangedKeepsOrder(b.rows, items);
    var m := KeptReads(a, on, items[i], r);
    ChangedMember(b.rows, items, on[m]);
    var q: Option<nat> := Some(|b.rows| + j);
    assert ReadValue(StoreAll(b, items), q) == Some(ValueOf(items[j]));
  }

  lemma ClashDisagrees(a: Table, b: Table, items: seq<Item>, i: int, j: int)
    requires Agree(a, b) && UuidsFirst(items) && Clash(b.rows, items, i, j)
    ensures !Agree(StoreAll(a, Changed(b.rows, items)), StoreAll(b, items))
  {
    var on, url := Changed(b.rows, items), items[j].url;
    ChangedKeepsOrder(b.rows, items);
    StoreAllIsWellStamped(a, on);
    StoreAllIsWellStamped(b, items);
    var t, u := StoreAll(a, on), StoreAll(b, items);
    hide MayRead, StoreAll, Changed, IsUnchanged, UuidsFirst, IsLast, ReadValue;
    var r := LastRow(t.rows, url, -1);
    LastRowMayBeRead(t, url, -1);
    if items[j].jobUuid.Some? {
      TieDisagrees(b, items, i, j);
      var p, q :| MayRead(u, url, -1, p) && MayRead(u, url, -1, q) && ReadValue(u, p) != ReadValue(u, q);
      Disagree(t, u, url, r, if ReadValue(t, r) == ReadValue(u, p) then q else p);
    } else {
      SkippedDisagrees(a, b, items, i, j, r);
      var q :| MayRead(u, url, -1, q) && ReadValue(u, q) != ReadValue(t, r);
      Disagree(t, u, url, r, q);
    }
  }

  lemma Disagree(t: Table, u: Table, url: string, r: Option<nat>, q: Option<nat>)
    requires |t.rows| == |t.stamps| && |u.rows| == |u.stamps|
    requires MayRead(t, url, -1, r) && MayRead(u, url, -1, q) && ReadValue(t, r) != ReadValue(u, q)
    ensures !Agree(t, u)
  {
    assert !ReadsAgree(t, u, url);
  }

  /** From tables that agree, and so for any one unambiguous table, skipping the unchanged
      items of an insert leaves every URL the same newest price and stock - however ties are
      read - exactly when no URL ends in a skipped repeat of the stored value, or in a tie,
      while the insert also brings another value for it. */
  lemma NewestAgreesIffClashFree(a: Table, b: Table, items: seq<Item>)
    requires Agree(a, b) && UuidsFirst(items)
    ensures Agree(StoreAll(a, Changed(b.rows, items)), StoreAll(b, items)) <==> ClashFree(b.rows, items)
  {
    if ClashFree(b.rows, items) {
      ClashFreeAgrees(a, b, items);
    } else {
      var i, j :| 0 <= i < |items| && 0 <= j < |items| && Clash(b.rows, items, i, j);
      ClashDisagrees(a, b, items, i, j);
    }
  }

  /* ---- The endpoint inserts those lists ---- */

  /** The batch's uuids are new, and each is used once. */
  predicate NewUuids(rows: seq<Row>, items: seq<Item>) {
    forall k :: 0 <= k < |items| && items[k].jobUuid.Some? ==>
      items[k].jobUuid.value !in Uuids(rows) && forall m :: 0 <= m < k ==> items[m].jobUuid != items[k].jobUuid
  }

  predicate OnceEach(items: seq<Item>) {
    NewUuids([], items)
  }

  lemma ChangedPush(rows: seq<Row>, items: seq<Item>, item: Item)
    ensures Changed(rows, items + [item]) ==
            if IsUnchanged(rows, item) then Changed(rows, items) else Changed(rows, items) + [item]
  {
    assert (items + [item])[..|items|] == items;
  }

  /** A new uuid is kept by the deduplication. */
  lemma UuidPush(items: seq<Item>, item: Item)
    requires item.jobUuid.Some? ==> item.jobUuid.value !in ItemUuids(items)
    ensures WithUuid(items + [item]) == if item.jobUuid.Some? then WithUuid(items) + [item] else WithUuid(items)
    ensures Plain(items + [item]) == if item.jobUuid.None? then Plain(items) + [item] else Plain(items)
  {
    WithUuidMembers(items);
    StagesAppend([], items, item);
  }

  lemma ChangedUuids(rows: seq<Row>, items: seq<Item>)
    ensures ItemUuids(Changed(rows, items)) <= ItemUuids(items)
  {
    forall item | item in Changed(rows, items)
      ensures item in items
    {
      ChangedMember(rows, items, item);
    }
  }

  lemma CommutePush(rows: seq<Row>, before: seq<Item>, item: Item)
    requires item.jobUuid.Some? ==> item.jobUuid.value !in ItemUuids(before)
    requires WithUuid(Changed(rows, before)) == Changed(rows, WithUuid(before))
    requires Plain(Changed(rows, before)) == Changed(rows, Plain(before))
    ensures WithUuid(Changed(rows, before + [item])) == Changed(rows, WithUuid(before + [item]))
    ensures Plain(Changed(rows, before + [item])) == Changed(rows, Plain(before + [item]))
  {
    hide *;
    ChangedUuids(rows, before);
    UuidPush(before, item);
    ChangedPush(rows, before, item);
    if !IsUnchanged(rows, item) {
      UuidPush(Changed(rows, before), item);
    }
    if item.jobUuid.Some? {
      ChangedPush(rows, WithUuid(before), item);
    } else {
      ChangedPush(rows, Plain(before), item);
    }
  }

  /** Skipping commutes with the split into uuid-bearing and plain items. */
  lemma {:induction false} ChangedCommutes(rows: seq<Row>, items: seq<Item>)
    requires OnceEach(items)
    ensures WithUuid(Changed(rows, items)) == Changed(rows, WithUuid(items))
    ensures Plain(Changed(rows, items)) == Changed(rows, Plain(items))
  {
    if items == [] {
    } else {
      hide *;
      var before, item := items[..|items| - 1], items[|items| - 1];
      ChangedCommutes(rows, before);
      assert before + [item] == items;
      CommutePush(rows, before, item);
    }
  }

  lemma {:induction false} NothingStored(rows: seq<Row>, items: seq<Item>)
    requires forall item :: item in items && item.jobUuid.Some? ==> item.jobUuid.value !in Uuids(rows)
    ensures NotStored(rows, items) == items
  {
    if items == [] {
    } else {
      var before, item := items[..|items| - 1], items[|items| - 1];
      assert items == before + [item] && item in items && forall i :: i in before ==> i in items;
      NothingStored(rows, before);
    }
  }

  /** The items not of an excluded domain. */
  function Admitted(items: seq<Item>, excluded: set<string>): seq<Item> {
    Kept([], items, excluded, false)
  }

  lemma {:induction false} KeptIsChanged(rows: seq<Row>, rows': seq<Row>, items: seq<Item>, excluded: set<string>)
    requires forall url :: Values(rows, url) == Values(rows', url)
    ensures Kept(rows, items, excluded, true) == Changed(rows', Admitted(items, excluded))
    ensures Kept(rows, items, excluded, false) == Admitted(items, excluded)
  {
    hide Values;
    if items == [] {
    } else {
      var before, item := items[..|items| - 1], items[|items| - 1];
      KeptIsChanged(rows, rows', before, excluded);
      ChangedAppend(rows', Admitted(before, excluded), [item]);
      assert [item][..0] == [];
    }
  }

  lemma {:induction false} AdmittedOnce(rows: seq<Row>, items: seq<Item>, excluded: set<string>)
    requires NewUuids(rows, items)
    ensures OnceEach(Admitted(items, excluded)) && NewUuids(rows, Admitted(items, excluded))
    ensures forall item :: item in Admitted(items, excluded) ==> item in items
  {
    if items == [] {
    } else {
      var before, item := items[..|items| - 1], items[|items| - 1];
      AdmittedOnce(rows, before, excluded);
      var kept := Admitted(before, excluded);
      forall m | 0 <= m < |kept| && item.jobUuid.Some?
        ensures kept[m].jobUuid != item.jobUuid
      {
        assert kept[m] in kept && kept[m] in before;
        var n :| 0 <= n < |before| && before[n] == kept[m];
        assert items[n] == before[n];
      }
    }
  }

  /** The insert of a batch with new uuids: its uuid-bearing items, then the rest. */
  function Ordered(items: seq<Item>): seq<Item> {
    WithUuid(items) + Plain(items)
  }

  lemma AllNew(rows: seq<Row>, items: seq<Item>)
    requires NewUuids(rows, items)
    ensures NotStored(rows, WithUuid(items)) + Plain(items) == Ordered(items)
  {
    WithUuidMembers(items);
    forall item | item in WithUuid(items) && item.jobUuid.Some?
      ensures item.jobUuid.value !in Uuids(rows)
    {
      assert item in items;
      var k :| 0 <= k < |items| && items[k] == item;
    }
    NothingStored(rows, WithUuid(items));
  }

  lemma ChangedNew(rows: seq<Row>, rows': seq<Row>, items: seq<Item>)
    requires NewUuids(rows, items)
    ensures OnceEach(Changed(rows', items)) && NewUuids(rows, Changed(rows', items))
    decreases |items|
  {
    if items == [] {
    } else {
      var before, item := items[..|items| - 1], items[|items| - 1];
      ChangedNew(rows, rows', before);
      var kept := Changed(rows', before);
      forall m | 0 <= m < |kept| && item.jobUuid.Some?
        ensures kept[m].jobUuid != item.jobUuid
      {
        ChangedMember(rows', before, kept[m]);
        var n :| 0 <= n < |before| && before[n] == kept[m];
        assert items[n] == before[n];
      }
    }
  }

  /** The two runs' inserts: all admitted items in order, and the changed ones of them. */
  lemma InsertsOfTheRuns(on: seq<Row>, off: seq<Row>, items: seq<Item>, excluded: set<string>)
    requires NewUuids(on, items) && NewUuids(off, items) && forall url :: Values(on, url) == Values(off, url)
    ensures Inserted(off, items, excluded, false) == Ordered(Admitted(items, excluded))
    ensures Inserted(on, items, excluded, true) == Changed(off, Ordered(Admitted(items, excluded)))
  {
    var admitted := Admitted(items, excluded);
    KeptIsChanged(on, off, items, excluded);
    KeptIsChanged(off, off, items, excluded);
    AdmittedOnce(on, items, excluded);
    AdmittedOnce(off, items, excluded);
    AllNew(off, admitted);
    ChangedNew(on, off, admitted);
    AllNew(on, Changed(off, admitted));
    ChangedCommutes(off, admitted);
    ChangedAppend(off, WithUuid(admitted), Plain(admitted));
  }
}
