/** The cost ledger (specter-api/services/cost_ledger.py) over the rate model
    (specter-api/services/cost_model.py): a shared fetch's cost is split across the
    distinct merchants it served, and counters roll up into a daily table. Money is exact
    reals; counters are taken not to expire before the flush. */
module CostLedger {
  import opened Wrappers
  import opened Seqs

  datatype CostType = Proxy | Captcha | Ai

  datatype Slot = Slot(merchant: string, day: string, ctype: CostType)

  /** Rates in dollars: per GB of each proxy tier, per captcha solved. */
  datatype Rates = Rates(residential: real, datacenter: real, captcha: real)

  datatype Fetch = Fetch(merchants: seq<string>, tier: Option<string>, bytes: int, solved: bool)

  /** The Redis counters: cost and units per slot, and spend per (day, tier). */
  datatype Counters = Counters(costs: map<Slot, real>, units: map<Slot, real>, spend: map<(string, string), real>)

  /** merchant_cost_daily: cost and units. */
  type Table = map<Slot, (real, real)>

  function Lower(s: string): (r: string)
    ensures |r| == |s|
  {
    seq(|s|, i requires 0 <= i < |s| => if 'A' <= s[i] <= 'Z' then (s[i] as int + 32) as char else s[i])
  }

  function ProxyRate(rates: Rates, tier: Option<string>): real {
    if tier.None? then 0.0
    else if Lower(tier.value) == "residential" then rates.residential
    else if Lower(tier.value) == "datacenter" then rates.datacenter
    else 0.0
  }

  function ProxyCost(rates: Rates, f: Fetch): real {
    (if f.bytes > 0 then f.bytes as real else 0.0) / 1000000000.0 * ProxyRate(rates, f.tier)
  }

  function CaptchaCost(rates: Rates, f: Fetch): real {
    if f.solved then rates.captcha else 0.0
  }

  function CostOf(rates: Rates, f: Fetch, ctype: CostType): real {
    match ctype
    case Proxy => ProxyCost(rates, f)
    case Captcha => CaptchaCost(rates, f)
    case Ai => 0.0
  }

  function Split(cost: real, merchants: nat): real {
    cost / (if merchants > 1 then merchants as real else 1.0)
  }

  function Value<K>(m: map<K, real>, k: K): real {
    if k in m then m[k] else 0.0
  }

  /** INCRBYFLOAT. */
  function Incr<K>(m: map<K, real>, k: K, amount: real): map<K, real> {
    m[k := Value(m, k) + amount]
  }

  function Accrue(c: Counters, s: Slot, cost: real, units: real): Counters {
    c.(costs := Incr(c.costs, s, cost), units := Incr(c.units, s, units))
  }

  /** One merchant's share of one cost type; nothing for a free fetch. */
  function AccrueShare(c: Counters, s: Slot, share: real): Counters {
    if share <= 0.0 then c else Accrue(c, s, share, 1.0)
  }

  /** The loop over the merchants, each charged proxy then captcha. */
  function AccrueShares(c: Counters, merchants: seq<string>, day: string, proxy: real, captcha: real): Counters {
    if merchants == [] then c else
      var before, m := AccrueShares(c, merchants[..|merchants| - 1], day, proxy, captcha), merchants[|merchants| - 1];
      AccrueShare(AccrueShare(before, Slot(m, day, Proxy), proxy), Slot(m, day, Captcha), captcha)
  }

  function AccrueTierSpend(c: Counters, day: string, tier: Option<string>, cost: real): Counters {
    if tier.Some? && tier.value != "" && cost > 0.0 then c.(spend := Incr(c.spend, (day, Lower(tier.value)), cost))
    else c
  }

  function Recorded(c: Counters, rates: Rates, f: Fetch, day: string): Counters {
    var distinct := Dedupe(f.merchants);
    if distinct == [] then c else
      var n := |distinct|;
      AccrueShares(AccrueTierSpend(c, day, f.tier, ProxyCost(rates, f)), distinct, day,
                   Split(ProxyCost(rates, f), n), Split(CaptchaCost(rates, f), n))
  }

  function RecordedAi(c: Counters, merchant: string, day: string, cost: real, tokens: nat): Counters {
    if cost <= 0.0 then c else Accrue(c, Slot(merchant, day, Ai), cost, tokens as real)
  }

  function CostSlots(c: Counters, day: string): set<Slot> {
    set s | s in c.costs && s.day == day
  }

  function FlushSlots(table: Table, c: Counters, slots: set<Slot>): Table {
    table + map s | s in slots :: (Value(c.costs, s), Value(c.units, s))
  }

  function Flushed(table: Table, c: Counters, day: string): Table {
    FlushSlots(table, c, CostSlots(c, day))
  }

  lemma FlushAlso(table: Table, c: Counters, slots: set<Slot>, s: Slot)
    ensures FlushSlots(table, c, slots)[s := (Value(c.costs, s), Value(c.units, s))]
            == FlushSlots(table, c, slots + {s})
  {
  }

  lemma FlushedRows(table: Table, c: Counters, day: string)
    ensures forall k: Slot :: k in Flushed(table, c, day) <==> k in table || (k in c.costs && k.day == day)
    ensures forall k: Slot :: k in Flushed(table, c, day) ==>
              Flushed(table, c, day)[k] ==
              if k in c.costs && k.day == day then (c.costs[k], Value(c.units, k)) else table[k]
  {
  }

  /* ---- What a fetch costs ---- */

  /** Bandwidth is billed at the tier's rate per gigabyte, the tier's name in any letter
      case, and in proportion to the bytes; direct fetches, and tiers without a rate, are
      free; a captcha costs its rate if one was solved. */
  lemma BilledAtTheTiersRate(rates: Rates, f: Fetch, more: nat)
    ensures var gb := f.(bytes := 1000000000);
            && (f.tier.Some? && Lower(f.tier.value) == "residential" ==> ProxyCost(rates, gb) == rates.residential)
            && (f.tier.Some? && Lower(f.tier.value) == "datacenter" ==> ProxyCost(rates, gb) == rates.datacenter)
            && (f.tier.None? || Lower(f.tier.value) !in {"residential", "datacenter"} ==> ProxyCost(rates, f) == 0.0)
    ensures f.bytes >= 0 ==>
              ProxyCost(rates, f.(bytes := f.bytes + more)) == ProxyCost(rates, f) + ProxyCost(rates, f.(bytes := more))
    ensures f.bytes <= 0 ==> ProxyCost(rates, f) == 0.0
    ensures CaptchaCost(rates, f) == if f.solved then rates.captcha else 0.0
  {
    var rate := ProxyRate(rates, f.tier);
    BytesAddUp(if f.bytes > 0 then f.bytes else 0, more, rate);
  }

  lemma BytesAddUp(a: nat, b: nat, rate: real)
    ensures (a + b) as real / 1000000000.0 * rate == a as real / 1000000000.0 * rate + b as real / 1000000000.0 * rate
  {
    assert (a + b) as real / 1000000000.0 == a as real / 1000000000.0 + b as real / 1000000000.0;
  }

  /** Letter case does not matter to a tier. */
  lemma TiersIgnoreCase()
    ensures Lower("Residential") == Lower("RESIDENTIAL") == Lower("residential") == "residential"
    ensures Lower("DataCenter") == "datacenter"
  {
  }

  class Ledger {
    var counters: Counters
    var table: Table

    constructor ()
      ensures counters == Counters(map[], map[], map[]) && table == map[]
    {
      counters, table := Counters(map[], map[], map[]), map[];
    }

    method AccrueOne(s: Slot, cost: real, units: real)
      modifies this`counters
      ensures counters == Accrue(old(counters), s, cost, units)
    {
      counters := counters.(costs := Incr(counters.costs, s, cost));
      counters := counters.(units := Incr(counters.units, s, units));
    }

    method RecordScrapeCost(rates: Rates, f: Fetch, day: string)
      modifies this`counters
      ensures counters == Recorded(old(counters), rates, f, day)
    {
      var distinct := Dedupe(f.merchants);
      if |distinct| == 0 {
        return;
      }
      var proxy, captcha := ProxyCost(rates, f), CaptchaCost(rates, f);
      if f.tier.Some? && f.tier.value != "" && proxy > 0.0 {
        counters := counters.(spend := Incr(counters.spend, (day, Lower(f.tier.value)), proxy));
      }
      ghost var start := counters;
      var n := |distinct|;
      for i := 0 to n
        invariant counters == AccrueShares(start, distinct[..i], day, Split(proxy, n), Split(captcha, n))
      {
        assert distinct[..i + 1][..i] == distinct[..i];
        var types := [Proxy, Captcha];
        ghost var before := counters;
        for j := 0 to 2
          invariant j == 0 ==> counters == before
          invariant j == 1 ==> counters == AccrueShare(before, Slot(distinct[i], day, Proxy), Split(proxy, n))
          invariant j == 2 ==>
                      counters == AccrueShare(AccrueShare(before, Slot(distinct[i], day, Proxy), Split(proxy, n)),
                                                       Slot(distinct[i], day, Captcha), Split(captcha, n))
        {
          var share := Split(CostOf(rates, f, types[j]), n);
          if share > 0.0 {
            AccrueOne(Slot(distinct[i], day, types[j]), share, 1.0);
          }
        }
      }
      assert distinct[..n] == distinct;
    }

    /** One merchant's own slot grows by the cost and its tokens; no other slot, and no
        tier's spend, moves; a free call leaves no trace. The token rates are not
        modelled: `cost` is whatever they come to. */
    method RecordAiCost(merchant: string, day: string, cost: real, tokens: nat)
      modifies this`counters
      ensures counters == RecordedAi(old(counters), merchant, day, cost, tokens)
      ensures counters.spend == old(counters).spend
      ensures forall s: Slot ::
                var paid := s == Slot(merchant, day, Ai) && cost > 0.0;
                && Value(counters.costs, s) == Value(old(counters).costs, s) + (if paid then cost else 0.0)
                && Value(counters.units, s) == Value(old(counters).units, s) + (if paid then tokens as real else 0.0)
                && (s in counters.costs <==> s in old(counters).costs || paid)
    {
      if cost <= 0.0 {
        return;
      }
      AccrueOne(Slot(merchant, day, Ai), cost, tokens as real);
    }

    /** Upserts one row per cost counter of the day, in the arbitrary order of SCAN. */
    method FlushDaily(day: string) returns (written: nat)
      modifies this`table
      ensures table == Flushed(old(table), counters, day)
      ensures written == |CostSlots(counters, day)|
      ensures forall k: Slot :: k in table <==> k in old(table) || (k in counters.costs && k.day == day)
      ensures forall k: Slot :: k in table ==>
                table[k] == if k in counters.costs && k.day == day then (counters.costs[k], Value(counters.units, k))
                            else old(table)[k]
    {
      written := 0;
      ghost var start, done := table, {};
      var left := CostSlots(counters, day);
      hide FlushSlots, CostSlots, Value;
      while left != {}
        invariant done + left == CostSlots(counters, day) && done !! left
        invariant table == FlushSlots(start, counters, done)
        invariant written == |done|
        decreases |left|
      {
        var s :| s in left;
        FlushAlso(start, counters, done, s);
        table := table[s := (Value(counters.costs, s), Value(counters.units, s))];
        done, left := done + {s}, left - {s};
        written := written + 1;
      }
      assert done == CostSlots(counters, day);
      FlushedRows(old(table), counters, day);
    }
  }

  /* ---- Sums over counters ---- */

  ghost function Sum<K>(m: map<K, real>, keys: set<K>): real
    requires keys <= m.Keys
  {
    if keys == {} then 0.0 else
      var k :| k in keys;
      m[k] + Sum(m, keys - {k})
  }

  lemma {:induction false} SumTakeOut<K>(m: map<K, real>, keys: set<K>, k: K)
    requires keys <= m.Keys && k in keys
    ensures Sum(m, keys) == m[k] + Sum(m, keys - {k})
    decreases |keys|
  {
    var first :| first in keys && Sum(m, keys) == m[first] + Sum(m, keys - {first});
    if first != k {
      SumTakeOut(m, keys - {first}, k);
      SumTakeOut(m, keys - {k}, first);
      assert keys - {first} - {k} == keys - {k} - {first};
    }
  }

  lemma {:induction false} SumSame<K>(m: map<K, real>, m': map<K, real>, keys: set<K>)
    requires keys <= m.Keys && keys <= m'.Keys && forall k :: k in keys ==> m[k] == m'[k]
    ensures Sum(m, keys) == Sum(m', keys)
    decreases |keys|
  {
    if keys != {} {
      var k :| k in keys;
      SumTakeOut(m, keys, k);
      SumTakeOut(m', keys, k);
      SumSame(m, m', keys - {k});
    }
  }

  /** Incrementing one counter of a selection moves its sum by the increment. */
  lemma SumIncr<K>(m: map<K, real>, keys: set<K>, k: K, amount: real)
    requires keys <= m.Keys && (k in m ==> k in keys)
    ensures Sum(Incr(m, k, amount), keys + {k}) == Sum(m, keys) + amount
  {
    var m' := Incr(m, k, amount);
    SumTakeOut(m', keys + {k}, k);
    assert keys + {k} - {k} == keys - {k};
    SumSame(m, m', keys - {k});
    if k in keys {
      SumTakeOut(m, keys, k);
    } else {
      assert keys - {k} == keys;
    }
  }

  ghost function Selected(costs: map<Slot, real>, day: string, ctype: CostType): set<Slot> {
    set s | s in costs && s.day == day && s.ctype == ctype
  }

  /** The day's counters of one cost type, over all merchants. */
  ghost function Total(costs: map<Slot, real>, day: string, ctype: CostType): real {
    Sum(costs, Selected(costs, day, ctype))
  }

  ghost function TierKeys(spend: map<(string, string), real>, day: string): set<(string, string)> {
    set k | k in spend && k.0 == day
  }

  /** The day's proxy spend, over all tiers. */
  ghost function TierTotal(spend: map<(string, string), real>, day: string): real {
    Sum(spend, TierKeys(spend, day))
  }

  lemma TotalIncr(costs: map<Slot, real>, s: Slot, amount: real, day: string, ctype: CostType)
    ensures Total(Incr(costs, s, amount), day, ctype)
            == Total(costs, day, ctype) + if s.day == day && s.ctype == ctype then amount else 0.0
  {
    var keys, after := Selected(costs, day, ctype), Incr(costs, s, amount);
    if s.day == day && s.ctype == ctype {
      SumIncr(costs, keys, s, amount);
      assert Selected(after, day, ctype) == keys + {s};
    } else {
      SumSame(costs, after, keys);
      assert Selected(after, day, ctype) == keys;
    }
  }

  lemma TierTotalIncr(spend: map<(string, string), real>, k: (string, string), amount: real, day: string)
    ensures TierTotal(Incr(spend, k, amount), day) == TierTotal(spend, day) + if k.0 == day then amount else 0.0
  {
    var keys, after := TierKeys(spend, day), Incr(spend, k, amount);
    if k.0 == day {
      SumIncr(spend, keys, k, amount);
      assert TierKeys(after, day) == keys + {k};
    } else {
      SumSame(spend, after, keys);
      assert TierKeys(after, day) == keys;
    }
  }

  /* ---- Conservation ---- */

  /** What a fetch really charges of one type: nothing unless the cost is positive. */
  function Charged(cost: real): real {
    if cost > 0.0 then cost else 0.0
  }

  lemma ShareCharges(c: Counters, s: Slot, share: real, day: string, ctype: CostType)
    ensures Total(AccrueShare(c, s, share).costs, day, ctype)
            == Total(c.costs, day, ctype) + if s.day == day && s.ctype == ctype then Charged(share) else 0.0
    ensures AccrueShare(c, s, share).spend == c.spend
  {
    TotalIncr(c.costs, s, share, day, ctype);
  }

  function Times(n: nat, x: real): real {
    n as real * x
  }

  lemma OneMore(n: nat, x: real)
    ensures Times(0, x) == 0.0 && Times(n + 1, x) == Times(n, x) + x
  {
  }

  lemma {:induction false} SharesCharge(c: Counters, ms: seq<string>, on: string, proxy: real, captcha: real,
                                        day: string, ctype: CostType)
    ensures Total(AccrueShares(c, ms, on, proxy, captcha).costs, day, ctype)
            == Total(c.costs, day, ctype)
               + if on != day || ctype == Ai then 0.0
                 else Times(|ms|, Charged(if ctype == Proxy then proxy else captcha))
    ensures AccrueShares(c, ms, on, proxy, captcha).spend == c.spend
  {
    hide Total, AccrueShare, Charged, Times;
    var x := Charged(if ctype == Proxy then proxy else captcha);
    if ms == [] {
      OneMore(0, x);
    } else {
      var n := |ms| - 1;
      OneMore(n, x);
      SharesCharge(c, ms[..n], on, proxy, captcha, day, ctype);
      var before := AccrueShares(c, ms[..n], on, proxy, captcha);
      ShareCharges(before, Slot(ms[n], on, Proxy), proxy, day, ctype);
      ShareCharges(AccrueShare(before, Slot(ms[n], on, Proxy), proxy), Slot(ms[n], on, Captcha), captcha, day, ctype);
    }
  }

  lemma SharesAddUp(cost: real, n: nat)
    requires n > 0
    ensures Times(n, Charged(Split(cost, n))) == Charged(cost)
  {
    var r := n as real;
    var share := Split(cost, n);
    assert share == cost / r && r * share == cost;
    if share > 0.0 {
      assert r * share > 0.0;
    } else {
      assert r * share <= 0.0;
    }
  }

  /** A fetch adds its full cost to the merchants' counters of its day, each type once,
      and its full proxy cost to the day's tier spend. */
  lemma FetchIsChargedOnce(c: Counters, rates: Rates, f: Fetch, on: string, day: string)
    ensures
      var after, served := Recorded(c, rates, f, on), f.merchants != [] && on == day;
      && Total(after.costs, day, Proxy)
         == Total(c.costs, day, Proxy) + (if served then Charged(ProxyCost(rates, f)) else 0.0)
      && Total(after.costs, day, Captcha)
         == Total(c.costs, day, Captcha) + (if served then Charged(CaptchaCost(rates, f)) else 0.0)
      && TierTotal(after.spend, day) == TierTotal(c.spend, day) + (if served then Charged(ProxyCost(rates, f)) else 0.0)
  {
    var distinct := Dedupe(f.merchants);
    DedupeKeepsMembers(f.merchants);
    SomeoneServed(f.merchants);
    hide Total, TierTotal, Dedupe, AccrueShares, ProxyCost, Split, Charged;
    if distinct != [] {
      var n := |distinct|;
      var spent := AccrueTierSpend(c, on, f.tier, ProxyCost(rates, f));
      SpendIsCharged(c, rates, f, on, day);
      SharesCharge(spent, distinct, on, Split(ProxyCost(rates, f), n), Split(CaptchaCost(rates, f), n), day, Proxy);
      SharesCharge(spent, distinct, on, Split(ProxyCost(rates, f), n), Split(CaptchaCost(rates, f), n), day, Captcha);
      SharesAddUp(ProxyCost(rates, f), n);
      SharesAddUp(CaptchaCost(rates, f), n);
    }
  }

  /** A fetch that served somebody adds its full proxy cost to the spend of its own tier on
      its day, and moves no other spend. */
  lemma SpendGoesToItsTier(c: Counters, rates: Rates, f: Fetch, on: string, k: (string, string))
    ensures Value(Recorded(c, rates, f, on).spend, k) ==
            Value(c.spend, k) + if f.merchants != [] && f.tier.Some? && k == (on, Lower(f.tier.value))
                                then Charged(ProxyCost(rates, f)) else 0.0
  {
    var distinct := Dedupe(f.merchants);
    SomeoneServed(f.merchants);
    if distinct != [] {
      var n, spent := |distinct|, AccrueTierSpend(c, on, f.tier, ProxyCost(rates, f));
      SharesCharge(spent, distinct, on, Split(ProxyCost(rates, f), n), Split(CaptchaCost(rates, f), n), on, Proxy);
      if f.tier == Some("") {
        assert ProxyCost(rates, f) == 0.0;
      }
    }
  }

  lemma ShareAt(c: Counters, slot: Slot, share: real, s: Slot)
    ensures var after := AccrueShare(c, slot, share);
            && Value(after.costs, s) == Value(c.costs, s) + (if s == slot then Charged(share) else 0.0)
            && Value(after.units, s) == Value(c.units, s) + (if s == slot && share > 0.0 then 1.0 else 0.0)
  {
  }

  lemma {:induction false} SharesAt(c: Counters, ms: seq<string>, on: string, proxy: real, captcha: real, s: Slot)
    requires Distinct(ms)
    ensures
      var after, share := AccrueShares(c, ms, on, proxy, captcha), if s.ctype == Proxy then proxy else captcha;
      var served := s.day == on && s.merchant in ms && s.ctype != Ai;
      && Value(after.costs, s) == Value(c.costs, s) + (if served then Charged(share) else 0.0)
      && Value(after.units, s) == Value(c.units, s) + (if served && share > 0.0 then 1.0 else 0.0)
  {
    hide AccrueShare, Distinct, Value, Charged;
    if ms == [] {
    } else {
      var before, m := ms[..|ms| - 1], ms[|ms| - 1];
      DistinctLast(ms);
      assert s.merchant in ToSet(ms) <==> s.merchant in ToSet(before) || s.merchant == m;
      SharesAt(c, before, on, proxy, captcha, s);
      var c1 := AccrueShares(c, before, on, proxy, captcha);
      ShareAt(c1, Slot(m, on, Proxy), proxy, s);
      ShareAt(AccrueShare(c1, Slot(m, on, Proxy), proxy), Slot(m, on, Captcha), captcha, s);
      assert s == Slot(m, on, Proxy) <==> s.merchant == m && s.day == on && s.ctype == Proxy;
      assert s == Slot(m, on, Captcha) <==> s.merchant == m && s.day == on && s.ctype == Captcha;
    }
  }

  /** Each merchant served pays the same: one part in as many as there are distinct
      merchants, and one unit, for each type that costs anything. Nobody else pays. */
  lemma EachPaysItsShare(c: Counters, rates: Rates, f: Fetch, on: string, s: Slot)
    ensures
      var after, share := Recorded(c, rates, f, on), Split(CostOf(rates, f, s.ctype), |ToSet(f.merchants)|);
      var charged := s.day == on && s.merchant in f.merchants && s.ctype != Ai && share > 0.0;
      && Value(after.costs, s) == Value(c.costs, s) + (if charged then share else 0.0)
      && Value(after.units, s) == Value(c.units, s) + (if charged then 1.0 else 0.0)
  {
    var distinct := Dedupe(f.merchants);
    DedupeKeepsMembers(f.merchants);
    DistinctSize(distinct);
    assert s.merchant in f.merchants <==> s.merchant in ToSet(distinct);
    if distinct != [] {
      SharesAt(AccrueTierSpend(c, on, f.tier, ProxyCost(rates, f)), distinct, on,
               Split(ProxyCost(rates, f), |distinct|), Split(CaptchaCost(rates, f), |distinct|), s);
    }
  }

  lemma SomeoneServed(merchants: seq<string>)
    ensures Dedupe(merchants) == [] <==> merchants == []
  {
  }

  lemma SpendIsCharged(c: Counters, rates: Rates, f: Fetch, on: string, day: string)
    ensures var spent := AccrueTierSpend(c, on, f.tier, ProxyCost(rates, f));
            && TierTotal(spent.spend, day)
               == TierTotal(c.spend, day) + (if on == day then Charged(ProxyCost(rates, f)) else 0.0)
            && spent.costs == c.costs
  {
    if ProxyCost(rates, f) > 0.0 {
      assert f.tier.Some? && Lower(f.tier.value) != "";
      TierTotalIncr(c.spend, (on, Lower(f.tier.value)), ProxyCost(rates, f), day);
    }
  }

  /* ---- Runs ---- */

  datatype Event =
    | Scraped(rates: Rates, fetch: Fetch, day: string)
    | AiUsed(merchant: string, day: string, cost: real, tokens: nat)
    | DayFlushed(day: string)

  datatype State = State(counters: Counters, table: Table)

  const EMPTY := State(Counters(map[], map[], map[]), map[])

  function Step(s: State, e: Event): State {
    match e
    case Scraped(rates, fetch, day) => s.(counters := Recorded(s.counters, rates, fetch, day))
    case AiUsed(merchant, day, cost, tokens) => s.(counters := RecordedAi(s.counters, merchant, day, cost, tokens))
    case DayFlushed(day) => s.(table := Flushed(s.table, s.counters, day))
  }

  function Run(events: seq<Event>): State {
    if events == [] then EMPTY else Step(Run(events[..|events| - 1]), events[|events| - 1])
  }

  /** The captchas solved on a day for at least one merchant, at the rates of the moment. */
  function CaptchaBill(events: seq<Event>, day: string): real {
    if events == [] then 0.0 else
      var e := events[|events| - 1];
      CaptchaBill(events[..|events| - 1], day) +
        if e.Scraped? && e.day == day && e.fetch.merchants != [] then Charged(CaptchaCost(e.rates, e.fetch)) else 0.0
  }

  /** Conservation over every run, at any rates: each day the merchants' proxy counters add
      up to the spend recorded against the tiers, and their captcha counters to the
      captchas solved. */
  lemma {:induction false} CostsAreConserved(events: seq<Event>, day: string)
    ensures Total(Run(events).counters.costs, day, Proxy) == TierTotal(Run(events).counters.spend, day)
    ensures Total(Run(events).counters.costs, day, Captcha) == CaptchaBill(events, day)
  {
    if events == [] {
      assert Selected(map[], day, Proxy) == {} == Selected(map[], day, Captcha) && TierKeys(map[], day) == {};
    } else {
      var before, e := Run(events[..|events| - 1]), events[|events| - 1];
      CostsAreConserved(events[..|events| - 1], day);
      match e
      case Scraped(rates, fetch, on) =>
        hide Total, TierTotal, Recorded;
        FetchIsChargedOnce(before.counters, rates, fetch, on, day);
      case AiUsed(m, on, cost, tokens) =>
        TotalIncr(before.counters.costs, Slot(m, on, Ai), cost, day, Proxy);
        TotalIncr(before.counters.costs, Slot(m, on, Ai), cost, day, Captcha);
      case DayFlushed(_) =>
    }
  }

  /* ---- The flush ---- */

  lemma FlushIsIdempotent(table: Table, c: Counters, day: string)
    ensures Flushed(Flushed(table, c, day), c, day) == Flushed(table, c, day)
  {
  }

  function Costs(table: Table): map<Slot, real> {
    map s | s in table :: table[s].0
  }

  lemma {:induction false} SharesOnlyGrow(c: Counters, ms: seq<string>, day: string, proxy: real, captcha: real)
    ensures c.costs.Keys <= AccrueShares(c, ms, day, proxy, captcha).costs.Keys
  {
    if ms == [] {
    } else {
      SharesOnlyGrow(c, ms[..|ms| - 1], day, proxy, captcha);
    }
  }

  lemma {:induction false} TableIsBacked(events: seq<Event>)
    ensures Run(events).table.Keys <= Run(events).counters.costs.Keys
  {
    if events == [] {
    } else {
      var before, e := Run(events[..|events| - 1]), events[|events| - 1];
      TableIsBacked(events[..|events| - 1]);
      if e.Scraped? {
        var f, distinct := e.fetch, Dedupe(e.fetch.merchants);
        SharesOnlyGrow(AccrueTierSpend(before.counters, e.day, f.tier, ProxyCost(e.rates, f)), distinct, e.day,
                       Split(ProxyCost(e.rates, f), |distinct|), Split(CaptchaCost(e.rates, f), |distinct|));
      }
    }
  }

  /** Once a day is flushed its table rows are its counters, so what the customers are
      shown for proxies is what the tiers spent - however often it was flushed before. */
  lemma FlushedTableIsConserved(events: seq<Event>, day: string)
    ensures var s := Run(events + [DayFlushed(day)]);
            && (forall k: Slot :: k.day == day ==> (k in s.table <==> k in s.counters.costs))
            && (forall k: Slot :: k.day == day && k in s.table ==>
                  s.table[k] == (s.counters.costs[k], Value(s.counters.units, k)))
            && Total(Costs(s.table), day, Proxy) == TierTotal(s.counters.spend, day)
  {
    assert (events + [DayFlushed(day)])[..|events|] == events;
    var s := Run(events + [DayFlushed(day)]);
    TableIsBacked(events);
    CostsAreConserved(events, day);
    var keys := Selected(s.counters.costs, day, Proxy);
    assert Selected(Costs(s.table), day, Proxy) == keys;
    SumSame(Costs(s.table), s.counters.costs, keys);
  }
}
