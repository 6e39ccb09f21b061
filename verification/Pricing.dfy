/** The pricing pipeline: the signal rule (specter-api/signals/rule_engine.py) followed by
    the repricer's pure decision (specter-api/services/repricer.py), on the same in-stock
    prices. That is the chain of a merchant whose plan reprices while its AI signals fall
    back to the rule (specter-api/signals/fallback.py, then _maybe_reprice of
    specter-api/signals/dispatcher.py); a RECON merchant gets the rule and no repricing.

    Prices are whole cents, as the NUMERIC(10,2) columns hold them; a median is kept
    doubled (`Median2`), so half cents stay exact. Confidence is in hundredths. */
module Pricing {
  import opened Numbers
  import opened Wrappers

  datatype DataPoint = DataPoint(price: int, inStock: bool)

  datatype HoldReason = NoTrackings | AllOutOfStock | WithinBand | LowestPriced | PricedHighest

  datatype Kind = Raise | Lower | Hold(why: HoldReason)

  /** `DivisionByZero` is the arithmetic error raised when the market median is zero. */
  datatype Outcome = NoSignal | DivisionByZero | Signal(kind: Kind, confidence: int)

  /* ---- The median ---- */

  predicate IsSorted(s: seq<int>) {
    forall i, j :: 0 <= i < j < |s| ==> s[i] <= s[j]
  }

  function Insert(s: seq<int>, p: int): seq<int> {
    if s == [] || s[|s| - 1] <= p then s + [p] else Insert(s[..|s| - 1], p) + [s[|s| - 1]]
  }

  function Sort(s: seq<int>): seq<int> {
    if s == [] then [] else Insert(Sort(s[..|s| - 1]), s[|s| - 1])
  }

  function Last(s: seq<int>): int
    requires s != []
  {
    s[|s| - 1]
  }

  lemma SnocSorted(s: seq<int>, p: int)
    requires IsSorted(s) && (s != [] ==> Last(s) <= p)
    ensures IsSorted(s + [p])
  {
  }

  lemma {:induction false} InsertSorts(s: seq<int>, p: int)
    requires IsSorted(s)
    ensures Insert(s, p) != [] && IsSorted(Insert(s, p))
    ensures Last(Insert(s, p)) == if s == [] || Last(s) <= p then p else Last(s)
  {
    hide IsSorted;
    if s == [] || Last(s) <= p {
      SnocSorted(s, p);
    } else {
      PrefixSorted(s);
      InsertSorts(s[..|s| - 1], p);
      SnocSorted(Insert(s[..|s| - 1], p), Last(s));
    }
  }

  lemma PrefixSorted(s: seq<int>)
    requires IsSorted(s) && s != []
    ensures IsSorted(s[..|s| - 1]) && (|s| > 1 ==> Last(s[..|s| - 1]) <= Last(s))
  {
  }

  predicate Rearranged(s: seq<int>, t: seq<int>) {
    multiset(s) == multiset(t)
  }

  lemma RearrangedLength(s: seq<int>, t: seq<int>)
    requires Rearranged(s, t)
    ensures |s| == |t|
  {
    assert |s| == |multiset(s)| == |multiset(t)| == |t|;
  }

  lemma RearrangedMember(s: seq<int>, t: seq<int>, p: int)
    requires Rearranged(s, t) && p in s
    ensures p in t
  {
    assert p in multiset(s) && p in multiset(t);
  }

  lemma DropLast(s: seq<int>)
    requires s != []
    ensures multiset(s[..|s| - 1]) == multiset(s) - multiset{Last(s)}
  {
    assert s == s[..|s| - 1] + [Last(s)];
  }

  lemma TakeOut(t: seq<int>, k: nat)
    requires k < |t|
    ensures multiset(t[..k] + t[k + 1..]) == multiset(t) - multiset{t[k]}
  {
    assert t == t[..k] + [t[k]] + t[k + 1..];
  }

  lemma RearrangedWithout(s: seq<int>, t: seq<int>, k: nat)
    requires Rearranged(s, t) && s != [] && k < |t| && t[k] == Last(s)
    ensures Rearranged(s[..|s| - 1], t[..k] + t[k + 1..])
  {
    DropLast(s);
    TakeOut(t, k);
  }

  lemma {:induction false} InsertAdds(s: seq<int>, p: int)
    ensures multiset(Insert(s, p)) == multiset(s) + multiset{p}
  {
    if s != [] && s[|s| - 1] > p {
      InsertAdds(s[..|s| - 1], p);
      assert s == s[..|s| - 1] + [s[|s| - 1]];
    }
  }

  lemma InsertRearranges(s: seq<int>, t: seq<int>, p: int)
    requires Rearranged(s, t)
    ensures Rearranged(Insert(s, p), t + [p])
  {
    InsertAdds(s, p);
  }

  lemma {:induction false} SortSorts(s: seq<int>)
    ensures IsSorted(Sort(s)) && Rearranged(Sort(s), s) && |Sort(s)| == |s|
  {
    if s == [] {
    } else {
      var before, p := s[..|s| - 1], s[|s| - 1];
      SortSorts(before);
      assert Sort(s) == Insert(Sort(before), p);
      assert before + [p] == s;
      hide *;
      InsertSorts(Sort(before), p);
      InsertRearranges(Sort(before), before, p);
      RearrangedLength(Insert(Sort(before), p), before + [p]);
    }
  }

  /** Twice statistics.median. */
  function Median2(s: seq<int>): int
    requires s != []
  {
    SortSorts(s);
    Sort(s)[(|s| - 1) / 2] + Sort(s)[|s| / 2]
  }

  lemma {:induction false} SortedIsUnique(a: seq<int>, b: seq<int>)
    requires IsSorted(a) && IsSorted(b) && Rearranged(a, b)
    ensures a == b
  {
    RearrangedLength(a, b);
    if a == [] {
    } else {
      RearrangedMember(a, b, Last(a));
      RearrangedMember(b, a, Last(b));
      PrefixSorted(a);
      PrefixSorted(b);
      RearrangedWithout(a, b, |b| - 1);
      hide IsSorted, Rearranged;
      assert b[..|b| - 1] + b[|b|..] == b[..|b| - 1];
      SortedIsUnique(a[..|a| - 1], b[..|b| - 1]);
      assert a == a[..|a| - 1] + [Last(a)] && b == b[..|b| - 1] + [Last(b)];
    }
  }

  /** How many prices lie at or below, and at or above, half of `m2`. */
  function AtMost(s: seq<int>, m2: int): nat {
    if s == [] then 0 else AtMost(s[..|s| - 1], m2) + if 2 * s[|s| - 1] <= m2 then 1 else 0
  }

  function AtLeast(s: seq<int>, m2: int): nat {
    if s == [] then 0 else AtLeast(s[..|s| - 1], m2) + if 2 * s[|s| - 1] >= m2 then 1 else 0
  }

  lemma {:induction false} CountsPermute(s: seq<int>, t: seq<int>, m2: int)
    requires Rearranged(s, t)
    ensures AtMost(s, m2) == AtMost(t, m2) && AtLeast(s, m2) == AtLeast(t, m2)
  {
    hide Rearranged;
    RearrangedLength(s, t);
    if s == [] {
    } else {
      RearrangedMember(s, t, Last(s));
      var k :| 0 <= k < |t| && t[k] == Last(s);
      RearrangedWithout(s, t, k);
      CountsPermute(s[..|s| - 1], t[..k] + t[k + 1..], m2);
      assert t == t[..k] + ([t[k]] + t[k + 1..]);
      CountsAppend(t[..k], [t[k]] + t[k + 1..], m2);
      CountsAppend([t[k]], t[k + 1..], m2);
      CountsAppend(t[..k], t[k + 1..], m2);
    }
  }

  lemma {:induction false} CountsAppend(s: seq<int>, t: seq<int>, m2: int)
    ensures AtMost(s + t, m2) == AtMost(s, m2) + AtMost(t, m2)
    ensures AtLeast(s + t, m2) == AtLeast(s, m2) + AtLeast(t, m2)
  {
    if t == [] {
      assert s + t == s;
    } else {
      CountsAppend(s, t[..|t| - 1], m2);
      assert (s + t)[..|s + t| - 1] == s + t[..|t| - 1];
    }
  }

  lemma {:induction false} AtMostPrefix(s: seq<int>, k: nat, m2: int)
    requires k <= |s| && forall i :: 0 <= i < k ==> 2 * s[i] <= m2
    ensures AtMost(s, m2) >= k
  {
    if s == [] {
    } else {
      AtMostPrefix(s[..|s| - 1], if k == |s| then k - 1 else k, m2);
    }
  }

  lemma {:induction false} AtLeastSuffix(s: seq<int>, k: nat, m2: int)
    requires k <= |s| && forall i :: k <= i < |s| ==> 2 * s[i] >= m2
    ensures AtLeast(s, m2) >= |s| - k
  {
    if |s| > k {
      AtLeastSuffix(s[..|s| - 1], k, m2);
    }
  }

  lemma SortedHalves(s: seq<int>, m2: int)
    requires s != [] && IsSorted(s) && m2 == s[(|s| - 1) / 2] + s[|s| / 2]
    ensures 2 * AtMost(s, m2) >= |s| && 2 * AtLeast(s, m2) >= |s|
  {
    var a, b := (|s| - 1) / 2, |s| / 2;
    assert forall i :: 0 <= i < a + 1 ==> s[i] <= s[a] <= s[b];
    AtMostPrefix(s, a + 1, m2);
    assert forall i :: b <= i < |s| ==> s[a] <= s[b] <= s[i];
    AtLeastSuffix(s, b, m2);
  }

  lemma MedianOfSorted(s: seq<int>)
    requires s != []
    ensures IsSorted(Sort(s)) && Rearranged(s, Sort(s)) && |Sort(s)| == |s|
    ensures Median2(s) == Sort(s)[(|s| - 1) / 2] + Sort(s)[|s| / 2]
    ensures Sort(s)[(|s| - 1) / 2] <= Sort(s)[|s| / 2]
  {
    SortSorts(s);
  }

  lemma HalvesOfSorted(s: seq<int>, sorted: seq<int>, m2: int)
    requires s != [] && Rearranged(s, sorted) && IsSorted(sorted) && |sorted| == |s|
    requires m2 == sorted[(|s| - 1) / 2] + sorted[|s| / 2]
    ensures 2 * AtMost(s, m2) >= |s| && 2 * AtLeast(s, m2) >= |s|
    ensures exists lo, hi :: lo in s && hi in s && 2 * lo <= m2 <= 2 * hi
  {
    var lo, hi := sorted[(|s| - 1) / 2], sorted[|s| / 2];
    assert lo <= hi && Rearranged(sorted, s);
    SortedHalves(sorted, m2);
    CountsPermute(s, sorted, m2);
    hide *;
    RearrangedMember(sorted, s, lo);
    RearrangedMember(sorted, s, hi);
  }

  /** The median cuts the prices in half: at least half of them are no higher and at least
      half no lower; and it lies between two of them. */
  lemma MedianCutsInHalf(s: seq<int>)
    requires s != []
    ensures 2 * AtMost(s, Median2(s)) >= |s| && 2 * AtLeast(s, Median2(s)) >= |s|
    ensures exists lo, hi :: lo in s && hi in s && 2 * lo <= Median2(s) <= 2 * hi
  {
    MedianOfSorted(s);
    HalvesOfSorted(s, Sort(s), Median2(s));
  }

  /** The order of the prices does not matter. */
  lemma MedianOfRearranged(s: seq<int>, t: seq<int>)
    requires s != [] && Rearranged(s, t)
    ensures t != [] && Median2(t) == Median2(s)
  {
    RearrangedLength(s, t);
    MedianOfSorted(s);
    MedianOfSorted(t);
    assert Rearranged(Sort(s), Sort(t));
    SortedIsUnique(Sort(s), Sort(t));
  }

  /* ---- compute_signal ---- */

  function Abs(a: int): int {
    if a < 0 then -a else a
  }

  function InStockPrices(points: seq<DataPoint>): seq<int> {
    if points == [] then [] else
      var before, p := InStockPrices(points[..|points| - 1]), points[|points| - 1];
      if p.inStock then before + [p.price] else before
  }

  /** The outlier guard: prices up to five times half of `m2`. */
  function UpTo(prices: seq<int>, m2: int): seq<int> {
    if prices == [] then [] else
      var before, p := UpTo(prices[..|prices| - 1], m2), prices[|prices| - 1];
      if 2 * p <= 5 * m2 then before + [p] else before
  }

  function Accepted(prices: seq<int>): (r: seq<int>)
    requires prices != []
    ensures r != []
  {
    var filtered := UpTo(prices, Median2(prices));
    if filtered == [] then prices else filtered
  }

  /** Full confidence needs five trackings and two in stock; one in stock is never trusted
      beyond 0.60. */
  function Confidence(enabled: nat, inStock: nat): (c: int)
    ensures 10 <= c <= 100
    ensures c == 100 <==> enabled >= 5 && inStock >= 2
    ensures inStock >= 2 && 1 <= enabled <= 5 ==> c == 20 * enabled
    ensures inStock < 2 && 1 <= enabled <= 3 ==> c == 20 * enabled
    ensures inStock < 2 && enabled >= 3 ==> c == 60
    ensures enabled == 0 ==> c == 10
    ensures inStock < 2 ==> c <= 60
  {
    var base := Min(100, 20 * enabled);
    Max(if inStock < 2 then Min(base, 60) else base, 10)
  }

  function KindOf(merchant: int, accepted: seq<int>): Kind
    requires accepted != []
  {
    var m2 := Median2(accepted);
    if 40 * merchant > 21 * m2 then Lower
    else if exists p :: p in accepted && p > merchant then Raise
    else if 50 * Abs(2 * merchant - m2) <= Abs(m2) then Hold(WithinBand)
    else if 2 * merchant < m2 then Hold(LowestPriced)
    else Hold(PricedHighest)
  }

  function ComputeSignal(merchant: Option<int>, points: seq<DataPoint>): Outcome {
    if merchant.None? || merchant.value <= 0 then NoSignal else
      var prices := InStockPrices(points);
      var confidence := Confidence(|points|, |prices|);
      if prices == [] then Signal(Hold(if points == [] then NoTrackings else AllOutOfStock), confidence)
      else if Median2(Accepted(prices)) == 0 then DivisionByZero
      else Signal(KindOf(merchant.value, Accepted(prices)), confidence)
  }

  lemma {:induction false} UpToKeeps(prices: seq<int>, m2: int)
    ensures forall p :: p in UpTo(prices, m2) <==> p in prices && 2 * p <= 5 * m2
    ensures (forall p :: p in prices ==> 2 * p <= 5 * m2) ==> UpTo(prices, m2) == prices
  {
    if prices == [] {
    } else {
      var n := |prices| - 1;
      UpToKeeps(prices[..n], m2);
      assert prices == prices[..n] + [prices[n]] && prices[n] in prices;
      assert forall p :: p in prices[..n] ==> p in prices;
    }
  }

  /** No price was discarded as an outlier. */
  predicate NoOutlier(prices: seq<int>)
    requires prices != []
  {
    forall p :: p in prices ==> 2 * p <= 5 * Median2(prices)
  }

  predicate Positive(prices: seq<int>) {
    forall p :: p in prices ==> p > 0
  }

  /** The fallback of the outlier guard is dead code for real prices: the guard always
      accepts some of them, and exactly those up to five times their median. */
  lemma FallbackIsUnreachable(prices: seq<int>)
    requires prices != [] && Positive(prices)
    ensures UpTo(prices, Median2(prices)) != []
    ensures forall p :: p in Accepted(prices) <==> p in prices && 2 * p <= 5 * Median2(prices)
    ensures Positive(Accepted(prices)) && Median2(Accepted(prices)) > 0
    ensures NoOutlier(prices) ==> Accepted(prices) == prices
  {
    var m2 := Median2(prices);
    MedianCutsInHalf(prices);
    UpToKeeps(prices, m2);
    var lo :| lo in prices && 2 * lo <= m2;
    assert lo in UpTo(prices, m2);
    MedianCutsInHalf(Accepted(prices));
  }

  /** The "lowest-priced option" HOLD is unreachable: when no accepted competitor charges
      more than the merchant, the merchant is not below their median. */
  lemma NeverHeldAsLowest(merchant: Option<int>, points: seq<DataPoint>)
    ensures var r := ComputeSignal(merchant, points); r.Signal? ==> r.kind != Hold(LowestPriced)
  {
    var prices := InStockPrices(points);
    if prices != [] {
      MedianCutsInHalf(Accepted(prices));
    }
  }

  /** A market HOLD means the merchant charges at least as much as every accepted
      competitor yet at most 5% more than their median. */
  lemma HoldMeansTopOfTheBand(merchant: int, accepted: seq<int>)
    requires accepted != []
    ensures KindOf(merchant, accepted) == Lower <==> 40 * merchant > 21 * Median2(accepted)
    ensures KindOf(merchant, accepted).Hold? <==>
              (forall p :: p in accepted ==> p <= merchant) && 40 * merchant <= 21 * Median2(accepted)
    ensures KindOf(merchant, accepted) == Raise ==> exists p :: p in accepted && p > merchant
    ensures KindOf(merchant, accepted) == Lower && Positive(accepted) ==>
              2 * AtMost(accepted, 2 * merchant - 1) >= |accepted|
  {
    MedianCutsInHalf(accepted);
    if KindOf(merchant, accepted) == Lower && Positive(accepted) {
      AtMostGrows(accepted, Median2(accepted), 2 * merchant - 1);
    }
  }

  lemma {:induction false} AtMostGrows(s: seq<int>, a: int, b: int)
    requires a <= b
    ensures AtMost(s, a) <= AtMost(s, b)
  {
    if s == [] {
    } else {
      AtMostGrows(s[..|s| - 1], a, b);
    }
  }

  lemma {:induction false} InStockMembers(points: seq<DataPoint>, price: int)
    ensures price in InStockPrices(points) <==> DataPoint(price, true) in points
    ensures InStockPrices(points) == [] <==> forall p :: p in points ==> !p.inStock
  {
    if points == [] {
    } else {
      InStockMembers(points[..|points| - 1], price);
      assert points == points[..|points| - 1] + [points[|points| - 1]];
      var last := points[|points| - 1];
      assert last.inStock ==> last == DataPoint(last.price, true);
    }
  }

  lemma {:induction false} InStockAppend(a: seq<DataPoint>, b: seq<DataPoint>)
    ensures InStockPrices(a + b) == InStockPrices(a) + InStockPrices(b)
  {
    if b == [] {
      assert a + b == a;
    } else {
      InStockAppend(a, b[..|b| - 1]);
      assert (a + b)[..|a + b| - 1] == a + b[..|b| - 1];
    }
  }

  /** Competitors out of stock weigh only in the confidence: wherever one stands, and whatever
      its price, the kind of signal is the same while anyone is in stock, and so is what the
      repricer decides. */
  lemma OutOfStockIsIgnored(current: int, floor: Option<int>, ceiling: Option<int>, a: seq<DataPoint>, out: DataPoint,
                            b: seq<DataPoint>)
    requires !out.inStock
    ensures InStockPrices(a + [out] + b) == InStockPrices(a + b)
    ensures InStockPrices(a + b) != [] ==>
              forall kind :: Signals(current, a + [out] + b, kind) <==> Signals(current, a + b, kind)
    ensures Reprice(current, floor, ceiling, a + [out] + b) == Reprice(current, floor, ceiling, a + b)
  {
    assert [out][..0] == [] && InStockPrices([out]) == [];
    InStockAppend(a + [out], b);
    InStockAppend(a, [out]);
    InStockAppend(a, b);
  }

  /** When there is a signal at all, and which: none without a positive own price, a HOLD with
      nobody in stock, and otherwise the rule's kind over the accepted prices. */
  lemma SignalIs(merchant: Option<int>, points: seq<DataPoint>)
    requires Positive(InStockPrices(points))
    ensures ComputeSignal(merchant, points).NoSignal? <==> merchant.None? || merchant.value <= 0
    ensures merchant.Some? && merchant.value > 0 ==>
              var r := ComputeSignal(merchant, points);
              && r.Signal? && r.confidence == Confidence(|points|, |InStockPrices(points)|)
              && (r.kind == Hold(NoTrackings) <==> points == [])
              && (r.kind == Hold(AllOutOfStock) <==> points != [] && forall p :: p in points ==> !p.inStock)
              && (InStockPrices(points) != [] ==> r.kind == KindOf(merchant.value, Accepted(InStockPrices(points))))
  {
    InStockMembers(points, 0);
    if InStockPrices(points) != [] {
      FallbackIsUnreachable(InStockPrices(points));
    }
  }

  /* ---- compute_reprice ---- */

  datatype Clamp = Floor | Ceiling

  datatype Decision = Decision(price: int, clamped: Option<Clamp>)

  /** Half-cents to cents, ties away from zero. */
  function RoundHalfUp(half: int): int {
    if half >= 0 then (half + 1) / 2 else -((1 - half) / 2)
  }

  function Least(s: seq<int>): (r: int)
    requires s != []
    ensures r in s && forall p :: p in s ==> r <= p
  {
    if |s| == 1 then s[0] else
      assert s == s[..|s| - 1] + [s[|s| - 1]];
      Min(Least(s[..|s| - 1]), s[|s| - 1])
  }

  /** The target before clamping, in half-cents. */
  function Target(kind: Kind, prices: seq<int>): int
    requires prices != []
  {
    if kind == Raise then 2 * (Least(prices) - 1) else Median2(prices) - 2
  }

  function Clamped(target: int, floor: Option<int>, ceiling: Option<int>): (int, Option<Clamp>) {
    var (capped, how) :=
      if ceiling.Some? && target > 2 * ceiling.value then (2 * ceiling.value, Some(Ceiling)) else (target, None);
    if floor.Some? && capped < 2 * floor.value then (2 * floor.value, Some(Floor)) else (capped, how)
  }

  function ComputeReprice(kind: Kind, current: Option<int>, floor: Option<int>, ceiling: Option<int>,
                          prices: seq<int>): Option<Decision>
  {
    if kind.Hold? || prices == [] || current.None? || current.value <= 0 then None else
      var (target, clamped) := Clamped(Target(kind, prices), floor, ceiling);
      var price := RoundHalfUp(target);
      if price <= 0 || price == current.value then None else Some(Decision(price, clamped))
  }

  /** Rounding is to a nearest cent and leaves whole cents alone. */
  lemma RoundIsNearest(half: int)
    ensures half - 1 <= 2 * RoundHalfUp(half) <= half + 1
    ensures half % 2 == 0 ==> 2 * RoundHalfUp(half) == half
    ensures half % 2 != 0 && half > 0 ==> 2 * RoundHalfUp(half) == half + 1
  {
  }

  /** Where a decision of this kind lands, if it is positive. */
  function PriceOf(kind: Kind, floor: Option<int>, ceiling: Option<int>, prices: seq<int>): int
    requires prices != []
  {
    RoundHalfUp(Clamped(Target(kind, prices), floor, ceiling).0)
  }

  /** When nothing is decided: for a HOLD, with nobody in stock, without a positive current
      price, or if the target, clamped and rounded, is not positive or is the current price.
      Otherwise that target is the decision. */
  lemma DecidesIff(kind: Kind, current: Option<int>, floor: Option<int>, ceiling: Option<int>, prices: seq<int>)
    ensures ComputeReprice(kind, current, floor, ceiling, prices).None? <==>
              || kind.Hold? || prices == [] || current.None? || current.value <= 0
              || PriceOf(kind, floor, ceiling, prices) <= 0
              || PriceOf(kind, floor, ceiling, prices) == current.value
    ensures ComputeReprice(kind, current, floor, ceiling, prices).Some? ==>
              ComputeReprice(kind, current, floor, ceiling, prices).value.price == PriceOf(kind, floor, ceiling, prices)
  {
  }

  /** The target in cents: for RAISE one cent under the cheapest, for LOWER the median less a
      cent, half a cent rounded up; then the ceiling caps it and the floor has the last word. */
  lemma TargetInCents(kind: Kind, floor: Option<int>, ceiling: Option<int>, prices: seq<int>)
    requires prices != []
    ensures PriceOf(Raise, None, None, prices) == Least(prices) - 1
    ensures Median2(prices) >= 2 ==>
              Median2(prices) - 2 <= 2 * PriceOf(Lower, None, None, prices) <= Median2(prices) - 1
    ensures var free := PriceOf(kind, None, None, prices);
            var capped := if ceiling.Some? then Min(free, ceiling.value) else free;
            PriceOf(kind, floor, ceiling, prices) == if floor.Some? then Max(capped, floor.value) else capped
  {
    hide Least, Median2;
    var target := Target(kind, prices);
    RoundIsNearest(target);
    RoundIsNearest(Median2(prices) - 2);
    if floor.Some? {
      RoundIsNearest(2 * floor.value);
    }
    if ceiling.Some? {
      RoundIsNearest(2 * ceiling.value);
    }
  }

  /** Every decision is a positive, changed price, never below the floor; it is above the
      ceiling exactly when the bounds are crossed, and then it is the floor's doing. */
  lemma DecisionIsInBounds(kind: Kind, current: Option<int>, floor: Option<int>, ceiling: Option<int>, prices: seq<int>)
    requires ComputeReprice(kind, current, floor, ceiling, prices).Some?
    ensures
      var d := ComputeReprice(kind, current, floor, ceiling, prices).value;
      && d.price > 0 && d.price != current.value
      && (floor.Some? ==> d.price >= floor.value)
      && (ceiling.Some? ==> (d.price > ceiling.value <==> floor.Some? && floor.value > ceiling.value))
      && (d.clamped == Some(Floor) ==> floor.Some? && d.price == floor.value)
      && (d.clamped == Some(Ceiling) ==> ceiling.Some? && d.price == ceiling.value)
  {
    RoundIsNearest(Target(kind, prices));
    if floor.Some? {
      RoundIsNearest(2 * floor.value);
    }
    if ceiling.Some? {
      RoundIsNearest(2 * ceiling.value);
    }
  }

  /** Repricing settles: at the decided price the same signal decides nothing more. */
  lemma RepriceIsIdempotent(kind: Kind, current: Option<int>, floor: Option<int>, ceiling: Option<int>,
                            prices: seq<int>)
    requires ComputeReprice(kind, current, floor, ceiling, prices).Some?
    ensures var decided := ComputeReprice(kind, current, floor, ceiling, prices).value.price;
            ComputeReprice(kind, Some(decided), floor, ceiling, prices) == None
  {
    DecisionIsInBounds(kind, current, floor, ceiling, prices);
  }

  /** Nothing is done, or the price goes down (respectively up). */
  predicate LowersOrHolds(d: Option<Decision>, current: int) {
    d.Some? ==> d.value.price < current
  }

  predicate RaisesOrHolds(d: Option<Decision>, current: int) {
    d.Some? ==> d.value.price > current
  }

  /** A LOWER decision lowers the price or does nothing exactly when the floor allows it
      and either the ceiling or the median of all in-stock prices is low enough. */
  lemma LowerLowersIff(current: int, floor: Option<int>, ceiling: Option<int>, prices: seq<int>)
    requires current > 0 && prices != []
    ensures LowersOrHolds(ComputeReprice(Lower, Some(current), floor, ceiling, prices), current) <==>
              && (floor.Some? ==> floor.value <= current)
              && ((ceiling.Some? && ceiling.value <= current) || Median2(prices) < 2 * current + 3)
  {
    RoundIsNearest(Median2(prices) - 2);
    if floor.Some? {
      RoundIsNearest(2 * floor.value);
    }
    if ceiling.Some? {
      RoundIsNearest(2 * ceiling.value);
    }
  }

  /** A RAISE decision raises the price or does nothing exactly when the floor, or both
      the ceiling and the undercut price, are at least the current price - or there is no
      positive price to decide. */
  lemma RaiseRaisesIff(current: int, floor: Option<int>, ceiling: Option<int>, prices: seq<int>)
    requires current > 0 && prices != []
    ensures RaisesOrHolds(ComputeReprice(Raise, Some(current), floor, ceiling, prices), current) <==>
              || (floor.Some? && floor.value >= current)
              || (Least(prices) > current && (ceiling.Some? ==> ceiling.value >= current))
              || ((floor.Some? ==> floor.value <= 0) && (Least(prices) <= 1 || (ceiling.Some? && ceiling.value <= 0)))
  {
    RoundIsNearest(2 * (Least(prices) - 1));
    if floor.Some? {
      RoundIsNearest(2 * floor.value);
    }
    if ceiling.Some? {
      RoundIsNearest(2 * ceiling.value);
    }
  }

  /* ---- The two stages chained ---- */

  /** The chain for one product: the rule's signal on its current price, then the repricer
      on the same in-stock prices. */
  function Reprice(current: int, floor: Option<int>, ceiling: Option<int>, points: seq<DataPoint>): Option<Decision> {
    var signal := ComputeSignal(Some(current), points);
    if signal.Signal? then ComputeReprice(signal.kind, Some(current), floor, ceiling, InStockPrices(points)) else None
  }

  predicate Signals(current: int, points: seq<DataPoint>, kind: Kind) {
    var signal := ComputeSignal(Some(current), points); signal.Signal? && signal.kind == kind
  }

  /** With no outlier discarded and a floor no higher than the current price, a LOWER
      signal lowers the price or does nothing; and it does lower it if the floor is under the
      current price and the ceiling and the median leave room. */
  lemma LowerSignalLowers(current: int, floor: Option<int>, ceiling: Option<int>, points: seq<DataPoint>)
    requires Signals(current, points, Lower)
    requires Positive(InStockPrices(points)) && NoOutlier(InStockPrices(points))
    requires floor.Some? ==> floor.value <= current
    ensures LowersOrHolds(Reprice(current, floor, ceiling, points), current)
    ensures (floor.Some? ==> floor.value < current) && (ceiling.Some? ==> ceiling.value > 0)
            && Median2(InStockPrices(points)) >= 3 ==>
              Reprice(current, floor, ceiling, points).Some?
  {
    var prices := InStockPrices(points);
    FallbackIsUnreachable(prices);
    RepriceBySignal(current, floor, ceiling, points, Lower);
    HoldMeansTopOfTheBand(current, prices);
    hide InStockPrices, Median2, Accepted, Positive, NoOutlier, Least, Signals, Reprice, ComputeReprice, PriceOf;
    LowerLowersIff(current, floor, ceiling, prices);
    DecidesIff(Lower, Some(current), floor, ceiling, prices);
    TargetInCents(Lower, floor, ceiling, prices);
  }

  /** A LOWER signal is acted on: with no outlier discarded and no bounds it always decides -
      unless the median is within a cent of nothing - and strictly lowers the price, to the
      median less a cent. */
  lemma LowerSignalDecides(current: int, points: seq<DataPoint>)
    requires Signals(current, points, Lower)
    requires Positive(InStockPrices(points)) && NoOutlier(InStockPrices(points))
    ensures Reprice(current, None, None, points).Some? <==> Median2(InStockPrices(points)) >= 3
    ensures Reprice(current, None, None, points).Some? ==>
              var d, m2 := Reprice(current, None, None, points).value, Median2(InStockPrices(points));
              d.price < current && m2 - 2 <= 2 * d.price <= m2 - 1 && d.clamped.None?
  {
    var prices := InStockPrices(points);
    FallbackIsUnreachable(prices);
    DecidesIff(Lower, Some(current), None, None, prices);
    TargetInCents(Lower, None, None, prices);
    Unclamped(Lower, current, prices);
    RepriceBySignal(current, None, None, points, Lower);
    HoldMeansTopOfTheBand(current, prices);
    hide ComputeReprice, Reprice, Signals, PriceOf, Median2;
  }

  lemma RepriceBySignal(current: int, floor: Option<int>, ceiling: Option<int>, points: seq<DataPoint>, kind: Kind)
    requires Signals(current, points, kind)
    ensures Reprice(current, floor, ceiling, points)
            == ComputeReprice(kind, Some(current), floor, ceiling, InStockPrices(points))
    ensures current > 0
    ensures InStockPrices(points) != [] ==> kind == KindOf(current, Accepted(InStockPrices(points)))
    ensures kind == Raise || kind == Lower ==> InStockPrices(points) != []
  {
  }

  lemma Unclamped(kind: Kind, current: int, prices: seq<int>)
    ensures var d := ComputeReprice(kind, Some(current), None, None, prices); d.Some? ==> d.value.clamped.None?
  {
  }

  /** So is a RAISE signal: without bounds it moves the price to a cent under the cheapest
      competitor, unless it is there already or that is nothing. */
  lemma RaiseSignalDecides(current: int, points: seq<DataPoint>)
    requires Signals(current, points, Raise) && Positive(InStockPrices(points))
    ensures InStockPrices(points) != []
    ensures var undercut := Least(InStockPrices(points)) - 1;
            Reprice(current, None, None, points) ==
            if undercut <= 0 || undercut == current then None else Some(Decision(undercut, None))
  {
    var prices := InStockPrices(points);
    RepriceBySignal(current, None, None, points, Raise);
    hide *;
    DecidesIff(Raise, Some(current), None, None, prices);
    TargetInCents(Raise, None, None, prices);
    Unclamped(Raise, current, prices);
  }

  /** ... and unless the floor stopped it, the lowered price is no longer overpriced: the
      next signal is not LOWER again. */
  lemma LowerSignalSettles(current: int, floor: Option<int>, ceiling: Option<int>, points: seq<DataPoint>)
    requires Signals(current, points, Lower)
    requires Positive(InStockPrices(points)) && NoOutlier(InStockPrices(points))
    requires Reprice(current, floor, ceiling, points).Some?
    requires Reprice(current, floor, ceiling, points).value.clamped != Some(Floor)
    ensures !Signals(Reprice(current, floor, ceiling, points).value.price, points, Lower)
  {
    var prices := InStockPrices(points);
    FallbackIsUnreachable(prices);
    RoundIsNearest(Median2(prices) - 2);
    if ceiling.Some? {
      RoundIsNearest(2 * ceiling.value);
    }
  }

  /** A RAISE aims below the median of the accepted prices. */
  lemma RaiseAimsBelowMedian(prices: seq<int>)
    requires prices != [] && Positive(prices)
    ensures Target(Raise, prices) <= Median2(Accepted(prices)) - 2 && Median2(Accepted(prices)) > 0
  {
    FallbackIsUnreachable(prices);
    hide Positive, Median2, AtMost, AtLeast, Accepted;
    MedianCutsInHalf(Accepted(prices));
    var lo :| lo in Accepted(prices) && 2 * lo <= Median2(Accepted(prices));
    assert Least(prices) <= lo;
  }

  /** Two clamped targets that straddle nothing but the floor. */
  lemma FloorLifts(low: int, high: int, bound: int, floor: Option<int>, ceiling: Option<int>)
    requires bound > 0 && low <= bound - 2 && 40 * RoundHalfUp(Clamped(low, floor, ceiling).0) > 21 * bound
    ensures floor.Some? && 40 * RoundHalfUp(Clamped(high, floor, ceiling).0) > 21 * bound
  {
  }

  /** A RAISE that lands in LOWER territory was lifted by the floor, and so is a LOWER. */
  lemma RaisedIntoLower(floor: Option<int>, ceiling: Option<int>, prices: seq<int>)
    requires prices != [] && Positive(prices)
    requires KindOf(PriceOf(Raise, floor, ceiling, prices), Accepted(prices)) == Lower
    ensures floor.Some? && KindOf(PriceOf(Lower, floor, ceiling, prices), Accepted(prices)) == Lower
  {
    RaiseAimsBelowMedian(prices);
    hide Positive, Median2, Accepted, Target, RoundHalfUp, Clamped;
    FloorLifts(Target(Raise, prices), Target(Lower, prices), Median2(Accepted(prices)), floor, ceiling);
  }

  /** The price after up to `n` rounds of signal and repricing. */
  function Repriced(current: int, floor: Option<int>, ceiling: Option<int>, points: seq<DataPoint>, n: nat): int
    decreases n
  {
    var d := Reprice(current, floor, ceiling, points);
    if n == 0 || d.None? then current else Repriced(d.value.price, floor, ceiling, points, n - 1)
  }

  lemma RepriceLands(current: int, floor: Option<int>, ceiling: Option<int>, points: seq<DataPoint>)
    requires Reprice(current, floor, ceiling, points).Some? && Positive(InStockPrices(points))
    ensures var prices, price := InStockPrices(points), Reprice(current, floor, ceiling, points).value.price;
            && current > 0 && prices != [] && price > 0 && price != current
            && !KindOf(current, Accepted(prices)).Hold?
            && price == PriceOf(KindOf(current, Accepted(prices)), floor, ceiling, prices)
  {
  }

  /** Two rounds at most: on an unchanged market, whatever the bounds and even with
      outliers, signal and repricer never chase each other; the third round decides nothing.
      Without a floor a second decision undercuts the cheapest competitor by a cent, or
      stops at the ceiling. */
  lemma TwoRoundsSettle(current: int, floor: Option<int>, ceiling: Option<int>, points: seq<DataPoint>)
    requires Positive(InStockPrices(points))
    ensures Reprice(Repriced(current, floor, ceiling, points, 2), floor, ceiling, points) == None
    ensures floor.None? && Reprice(current, floor, ceiling, points).Some?
            && Reprice(Repriced(current, floor, ceiling, points, 1), floor, ceiling, points).Some? ==>
              var undercut := Least(InStockPrices(points)) - 1;
              Repriced(current, floor, ceiling, points, 2) ==
              if ceiling.Some? then Min(undercut, ceiling.value) else undercut
  {
    hide *;
    RepricedOnce(current, floor, ceiling, points, 1);
    RepricedOnce(current, floor, ceiling, points, 2);
    var first := Reprice(current, floor, ceiling, points);
    if first.Some? {
      var p1 := first.value.price;
      RepricedOnce(p1, floor, ceiling, points, 0);
      RepricedOnce(p1, floor, ceiling, points, 1);
      var second := Reprice(p1, floor, ceiling, points);
      if second.Some? {
        RepricedOnce(second.value.price, floor, ceiling, points, 0);
        SecondRoundIsLast(current, p1, floor, ceiling, points);
      }
    }
  }

  /** After two decisions the kinds have alternated, and a third would repeat the first. */
  lemma SecondRoundIsLast(current: int, p1: int, floor: Option<int>, ceiling: Option<int>, points: seq<DataPoint>)
    requires Positive(InStockPrices(points))
    requires Reprice(current, floor, ceiling, points).Some?
    requires Reprice(current, floor, ceiling, points).value.price == p1
    requires Reprice(p1, floor, ceiling, points).Some?
    ensures var p2, prices := Reprice(p1, floor, ceiling, points).value.price, InStockPrices(points);
            && Reprice(p2, floor, ceiling, points) == None && prices != []
            && (floor.None? ==>
                  p2 == if ceiling.Some? then Min(Least(prices) - 1, ceiling.value) else Least(prices) - 1)
  {
    hide *;
    var prices, p2 := InStockPrices(points), Reprice(p1, floor, ceiling, points).value.price;
    RepriceLands(current, floor, ceiling, points);
    RepriceLands(p1, floor, ceiling, points);
    if KindOf(current, Accepted(prices)) == Raise {
      RaisedIntoLower(floor, ceiling, prices);
    }
    UnflooredRaise(ceiling, prices);
    if Reprice(p2, floor, ceiling, points).Some? {
      RepriceLands(p2, floor, ceiling, points);
      RaisedIntoLower(floor, ceiling, prices);
    }
  }

  lemma RepricedOnce(current: int, floor: Option<int>, ceiling: Option<int>, points: seq<DataPoint>, n: nat)
    ensures Repriced(current, floor, ceiling, points, n) ==
              var d := Reprice(current, floor, ceiling, points);
              if n == 0 || d.None? then current else Repriced(d.value.price, floor, ceiling, points, n - 1)
  {
  }

  lemma UnflooredRaise(ceiling: Option<int>, prices: seq<int>)
    requires prices != []
    ensures PriceOf(Raise, None, ceiling, prices) ==
            if ceiling.Some? then Min(Least(prices) - 1, ceiling.value) else Least(prices) - 1
  {
  }

  lemma SortThree(a: int, b: int, c: int)
    requires a <= b <= c
    ensures Median2([a, b, c]) == 2 * b
  {
    assert [a, b, c][..2] == [a, b] && [a, b][..1] == [a] && [a][..0] == [];
    assert Sort([a]) == [a] && Sort([a, b]) == [a, b];
  }

  lemma SortTwo(a: int, b: int)
    requires a <= b
    ensures Median2([a, b]) == a + b
  {
    assert [a, b][..1] == [a] && [a][..0] == [];
    assert Sort([a]) == [a];
  }

  lemma AllInStock(a: DataPoint, b: DataPoint)
    requires a.inStock && b.inStock
    ensures InStockPrices([a, b]) == [a.price, b.price]
  {
    assert [a, b][..1] == [a] && [a][..0] == [];
    assert InStockPrices([a]) == [a.price];
  }

  lemma WithoutThird(a: int, b: int, c: int, m2: int)
    requires 2 * a <= 5 * m2 && 2 * b <= 5 * m2 < 2 * c
    ensures UpTo([a, b, c], m2) == [a, b]
  {
    UpToKeeps([a, b], m2);
    assert [a, b, c][..2] == [a, b];
  }

  /** Once an outlier is discarded LOWER can raise the price: competitors at 10, 100 and
      600 dollars, the merchant at 60. The rule compares with the accepted median, 55,
      but the repricer aims at the median of all three. */
  lemma LowerSignalCanRaise()
    ensures var points := [DataPoint(1000, true), DataPoint(10000, true), DataPoint(60000, true)];
            Signals(6000, points, Lower) && Reprice(6000, None, None, points) == Some(Decision(9999, None))
  {
    var points := [DataPoint(1000, true), DataPoint(10000, true), DataPoint(60000, true)];
    AllInStock(points[0], points[1]);
    assert points[..2] == [points[0], points[1]];
    assert InStockPrices(points) == [1000, 10000, 60000];
    SortThree(1000, 10000, 60000);
    WithoutThird(1000, 10000, 60000, 20000);
    SortTwo(1000, 10000);
    hide UpTo, Sort, InStockPrices, Median2;
    assert Accepted([1000, 10000, 60000]) == [1000, 10000];
  }

  /** RAISE can lower the price: competitors at 90 and 120 dollars, the merchant at 100.
      One charges more, but the repricer undercuts the other. */
  lemma RaiseSignalCanLower()
    ensures var points := [DataPoint(9000, true), DataPoint(12000, true)];
            Signals(10000, points, Raise) && Reprice(10000, None, None, points) == Some(Decision(8999, None))
  {
    var prices := [9000, 12000];
    AllInStock(DataPoint(9000, true), DataPoint(12000, true));
    SortTwo(9000, 12000);
    UpToKeeps(prices, 21000);
    hide UpTo, Sort, InStockPrices, Median2;
    assert 9000 in prices && prices[1] == 12000 && 12000 in prices && Accepted(prices) == prices;
    assert KindOf(10000, prices) == Raise;
  }
}
