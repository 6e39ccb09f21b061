/** Proxy rotation (specter-api/scraper/proxy/manager.ts): round-robin over two tiers with
    sticky domains, ban cooldowns and failover. */
module ProxyManager {
  import opened Numbers
  import opened Wrappers
  import opened ProxyHealth

  datatype Tier = Datacenter | Residential {
    function Other(): Tier {
      if Datacenter? then Residential else Datacenter
    }
  }

  datatype Sticky = Sticky(ip: string, expiresAt: int)

  /** The first healthy slot at or after `start + offset`, going round the pool. */
  function PickFrom(pool: seq<string>, m: HealthMap, now: int, start: nat, offset: nat): (r: Option<nat>)
    requires pool != []
    ensures r.Some? ==> r.value < |pool| && Healthy(m, pool[r.value], now)
    decreases |pool| - offset
  {
    if offset >= |pool| then None else
      var idx := (start + offset) % |pool|;
      if Healthy(m, pool[idx], now) then Some(idx) else PickFrom(pool, m, now, start, offset + 1)
  }

  /** Whether and what pickHealthy picks from a pool that may be empty. */
  function Pick(pool: seq<string>, m: HealthMap, now: int, cursor: nat): (r: Option<nat>)
    ensures r.Some? ==> r.value < |pool| && Healthy(m, pool[r.value], now)
  {
    if pool == [] then None else PickFrom(pool, m, now, cursor, 0)
  }

  predicate AllCooling(pool: seq<string>, m: HealthMap, now: int) {
    forall ip :: ip in pool ==> !Healthy(m, ip, now)
  }

  /* ---- Rotation ---- */

  /** Slot `k` of the pool read round from `start`. */
  function Slot(start: nat, k: nat, n: nat): nat
    requires start < n && k < n
  {
    if start + k < n then start + k else start + k - n
  }

  lemma SmallMod(x: nat, n: nat)
    requires 0 < n && x < 2 * n
    ensures x % n == if x < n then x else x - n
  {
  }

  lemma SlotOff(start: nat, u: nat, off: nat, n: nat)
    requires start < n && u + off < n
    ensures (Slot(start, u, n) + off) % n == Slot(start, u + off, n) < n
  {
    SmallMod(Slot(start, u, n) + off, n);
  }

  /** The healthy IPs of slots `u..` of the pool read round from `start`, in order. */
  function HealthyFrom(pool: seq<string>, m: HealthMap, now: int, start: nat, u: nat): seq<string>
    requires start < |pool| && u <= |pool|
    decreases |pool| - u
  {
    if u == |pool| then [] else
      var ip := pool[Slot(start, u, |pool|)];
      var rest := HealthyFrom(pool, m, now, start, u + 1);
      if Healthy(m, ip, now) then [ip] + rest else rest
  }

  /** What a pick sees: the health map and the clock, both of which move between picks. */
  datatype View = View(health: HealthMap, now: int)

  /** The non-cooling proxies of a pool. */
  function HealthySet(pool: seq<string>, v: View): set<string> {
    set ip | ip in pool && Healthy(v.health, ip, v.now)
  }

  /** Consecutive domain-less picks of a tier whose cursor is at `cursor`, one per view. */
  function Picks(pool: seq<string>, views: seq<View>, cursor: nat): seq<string>
    requires pool != []
    decreases |views|
  {
    if views == [] then [] else
      match PickFrom(pool, views[0].health, views[0].now, cursor, 0)
      case None => []
      case Some(idx) => [pool[idx]] + Picks(pool, views[1..], (idx + 1) % |pool|)
  }

  /** Views of the same non-cooling proxies are all alike to a scan. */
  lemma {:induction false} SameScan(pool: seq<string>, a: View, b: View, start: nat, offset: nat)
    requires pool != [] && HealthySet(pool, a) == HealthySet(pool, b)
    ensures PickFrom(pool, a.health, a.now, start, offset) == PickFrom(pool, b.health, b.now, start, offset)
    decreases |pool| - offset
  {
    if offset >= |pool| {
    } else {
      var ip := pool[(start + offset) % |pool|];
      assert ip in HealthySet(pool, a) <==> Healthy(a.health, ip, a.now);
      assert ip in HealthySet(pool, b) <==> Healthy(b.health, ip, b.now);
      SameScan(pool, a, b, start, offset + 1);
    }
  }

  /** One step of the scan, and of the reading. */
  lemma ScanStep(pool: seq<string>, m: HealthMap, now: int, start: nat, u: nat, off: nat)
    requires start < |pool| && u + off < |pool|
    ensures var slot := Slot(start, u + off, |pool|);
            && slot < |pool|
            && PickFrom(pool, m, now, Slot(start, u, |pool|), off) ==
               (if Healthy(m, pool[slot], now) then Some(slot)
                else PickFrom(pool, m, now, Slot(start, u, |pool|), off + 1))
            && HealthyFrom(pool, m, now, start, u + off) ==
               (if Healthy(m, pool[slot], now) then [pool[slot]] else [])
               + HealthyFrom(pool, m, now, start, u + off + 1)
  {
    SlotOff(start, u, off, |pool|);
  }

  lemma NothingFurther(pool: seq<string>, m: HealthMap, now: int, start: nat)
    requires start < |pool|
    ensures HealthyFrom(pool, m, now, start, |pool|) == []
  {
  }

  /** The scan from slot `u` stops at the first healthy slot, and leaves the cursor there. */
  lemma {:induction false} ScanFinds(pool: seq<string>, m: HealthMap, now: int, start: nat, u: nat, off: nat)
      returns (next: nat)
    requires start < |pool| && u + off < |pool| && HealthyFrom(pool, m, now, start, u + off) != []
    ensures u + off < next <= |pool|
    ensures var r := PickFrom(pool, m, now, Slot(start, u, |pool|), off);
            && r.Some? && r.value == Slot(start, next - 1, |pool|)
            && HealthyFrom(pool, m, now, start, u + off) == [pool[r.value]] + HealthyFrom(pool, m, now, start, next)
    decreases |pool| - off
  {
    hide *;
    ScanStep(pool, m, now, start, u, off);
    if Healthy(m, pool[Slot(start, u + off, |pool|)], now) {
      next := u + off + 1;
    } else {
      assert HealthyFrom(pool, m, now, start, u + off) == HealthyFrom(pool, m, now, start, u + off + 1);
      NothingFurther(pool, m, now, start);
      next := ScanFinds(pool, m, now, start, u, off + 1);
    }
  }

  /** Picks over views of one non-cooling set read the pool round from the cursor. */
  lemma {:induction false} PicksFollow(pool: seq<string>, v: View, views: seq<View>, start: nat, u: nat)
    requires start < |pool| && u < |pool|
    requires |views| == |HealthyFrom(pool, v.health, v.now, start, u)|
    requires forall w :: w in views ==> HealthySet(pool, w) == HealthySet(pool, v)
    ensures Picks(pool, views, Slot(start, u, |pool|)) == HealthyFrom(pool, v.health, v.now, start, u)
    decreases |pool| - u
  {
    var rest := HealthyFrom(pool, v.health, v.now, start, u);
    if rest == [] {
    } else {
      var next := ScanFinds(pool, v.health, v.now, start, u, 0);
      SameScan(pool, v, views[0], Slot(start, u, |pool|), 0);
      SmallMod(Slot(start, next - 1, |pool|) + 1, |pool|);
      if next < |pool| {
        PicksFollow(pool, v, views[1..], start, next);
      } else {
        assert views[1..] == [];
      }
    }
  }

  lemma {:induction false} HealthyFromMembers(pool: seq<string>, m: HealthMap, now: int, start: nat, u: nat)
    requires start < |pool| && u <= |pool|
    requires forall i, j :: 0 <= i < j < |pool| ==> pool[i] != pool[j]
    ensures forall ip :: ip in HealthyFrom(pool, m, now, start, u) <==>
                         exists k :: u <= k < |pool| && pool[Slot(start, k, |pool|)] == ip && Healthy(m, ip, now)
    ensures forall ip :: multiset(HealthyFrom(pool, m, now, start, u))[ip] <= 1
    decreases |pool| - u
  {
    if u < |pool| {
      HealthyFromMembers(pool, m, now, start, u + 1);
      var ip := pool[Slot(start, u, |pool|)];
      assert forall k :: u < k < |pool| ==> pool[Slot(start, k, |pool|)] != ip;
      var rest := HealthyFrom(pool, m, now, start, u + 1);
      assert ip !in rest;
      assert ip !in multiset(rest);
    }
  }

  /** Whatever happens to scores and clock meanwhile: as long as the same proxies of a pool
      of distinct URLs are non-cooling, as many consecutive picks return each of them
      exactly once, wherever the cursor stands. */
  lemma RotationIsFair(pool: seq<string>, views: seq<View>, cursor: nat, h: set<string>)
    requires cursor < |pool|
    requires forall i, j :: 0 <= i < j < |pool| ==> pool[i] != pool[j]
    requires |views| == |h| && forall v :: v in views ==> HealthySet(pool, v) == h
    ensures multiset(Picks(pool, views, cursor)) == multiset(h)
  {
    if views == [] {
      assert h == {};
    } else {
      var v := views[0];
      RoundIsTheSet(pool, v, cursor);
      PicksFollow(pool, v, views, cursor, 0);
    }
  }

  lemma RoundIsTheSet(pool: seq<string>, v: View, cursor: nat)
    requires cursor < |pool|
    requires forall i, j :: 0 <= i < j < |pool| ==> pool[i] != pool[j]
    ensures var round := HealthyFrom(pool, v.health, v.now, cursor, 0);
            multiset(round) == multiset(HealthySet(pool, v)) && |round| == |HealthySet(pool, v)|
  {
    var m, now, h := v.health, v.now, HealthySet(pool, v);
    var round := HealthyFrom(pool, m, now, cursor, 0);
    HealthyFromMembers(pool, m, now, cursor, 0);
    forall ip
      ensures ip in round <==> ip in h
    {
      if ip in h {
        var i :| 0 <= i < |pool| && pool[i] == ip;
        var k := if i >= cursor then i - cursor else i + |pool| - cursor;
        assert Slot(cursor, k, |pool|) == i;
      }
    }
    assert forall ip :: multiset(round)[ip] == multiset(h)[ip];
    assert multiset(round) == multiset(h);
    assert |round| == |multiset(round)| == |multiset(h)| == |h|;
  }

  lemma {:induction false} ScanMisses(pool: seq<string>, m: HealthMap, now: int, start: nat, off: nat)
    requires start < |pool| && off <= |pool|
    ensures PickFrom(pool, m, now, start, off).None? <==>
            forall k :: off <= k < |pool| ==> !Healthy(m, pool[Slot(start, k, |pool|)], now)
    decreases |pool| - off
  {
    if off < |pool| {
      SmallMod(start + off, |pool|);
      ScanMisses(pool, m, now, start, off + 1);
      assert Healthy(m, pool[Slot(start, off, |pool|)], now) <==>
             PickFrom(pool, m, now, start, off) == Some(Slot(start, off, |pool|));
    }
  }

  /** pickHealthy comes back empty-handed exactly when the whole pool is cooling. */
  lemma PickMissesIffCooling(pool: seq<string>, m: HealthMap, now: int, cursor: nat)
    requires pool != [] ==> cursor < |pool|
    ensures Pick(pool, m, now, cursor).None? <==> AllCooling(pool, m, now)
  {
    if pool != [] {
      ScanMisses(pool, m, now, cursor, 0);
      if !AllCooling(pool, m, now) {
        var i :| 0 <= i < |pool| && Healthy(m, pool[i], now);
        var k := if i >= cursor then i - cursor else i + |pool| - cursor;
        assert Slot(cursor, k, |pool|) == i;
      }
    }
  }

  /* ---- The manager ---- */

  datatype Config = Config(
    datacenterUrls: seq<string>, residentialUrls: seq<string>, cooldownMs: int, stickyWindowMs: int,
    banStatuses: set<int>, healthyScore: int, penaltyPerBan: int, recoveryPerOk: int)

  /** The round-robin position in each tier. */
  datatype Cursors = Cursors(datacenter: nat, residential: nat) {
    function At(tier: Tier): nat {
      if tier.Datacenter? then datacenter else residential
    }

    function Move(tier: Tier, to: nat): Cursors {
      if tier.Datacenter? then this.(datacenter := to) else this.(residential := to)
    }
  }

  type Pins = map<(Tier, string), Sticky>

  /** What `next` keeps between calls. */
  datatype Held = Held(cursors: Cursors, sticky: Pins)

  /** What a manager goes through: calls of `next`, each under the health map and the clock
      of its moment, and bans, which release pins. Successes and refreshes only change the
      health map. */
  datatype Event = Asked(tier: Tier, domain: Option<string>, view: View) | Failed(ip: string)

  class Manager {
    const config: Config
    const store: HealthStore
    var cursors: Cursors
    var sticky: map<(Tier, string), Sticky>

    /** The constructor's guard: a configuration without any proxy is refused. */
    static method Create(config: Config, store: HealthStore) returns (m: Option<Manager>)
      ensures m.None? <==> config.datacenterUrls == [] && config.residentialUrls == []
      ensures m.Some? ==> fresh(m.value) && m.value.Valid() && m.value.config == config && m.value.store == store
    {
      if |config.datacenterUrls| == 0 && |config.residentialUrls| == 0 {
        return None;
      }
      var manager := new Manager(config, store);
      return Some(manager);
    }

    constructor (config: Config, store: HealthStore)
      ensures Valid() && this.config == config && this.store == store && sticky == map[]
      ensures cursors == Cursors(0, 0)
    {
      this.config := config;
      this.store := store;
      cursors := Cursors(0, 0);
      sticky := map[];
    }

    function Pool(tier: Tier): seq<string> {
      if tier.Datacenter? then config.datacenterUrls else config.residentialUrls
    }

    predicate InPools(c: Cursors) {
      && (Pool(Datacenter) != [] ==> c.datacenter < |Pool(Datacenter)|)
      && (Pool(Residential) != [] ==> c.residential < |Pool(Residential)|)
    }

    /** Cursors are in range and only configured proxies are pinned. */
    predicate Valid()
      reads this
    {
      InPools(cursors) && (forall k :: k in sticky ==> Configured(sticky[k].ip))
    }

    predicate Configured(ip: string) {
      ip in config.datacenterUrls || ip in config.residentialUrls
    }

    /** A pick from one tier: the first non-cooling proxy from the cursor, and the cursors
        with that tier's moved just past it. */
    function TierPick(tier: Tier, m: HealthMap, now: int, c: Cursors): (Option<string>, Cursors) {
      match Pick(Pool(tier), m, now, c.At(tier))
      case None => (None, c)
      case Some(idx) => (Some(Pool(tier)[idx]), c.Move(tier, (idx + 1) % |Pool(tier)|))
    }

    /** A fresh assignment: this tier's pick, else the other tier's. */
    function FreshPick(tier: Tier, m: HealthMap, now: int, c: Cursors): (Option<string>, Cursors) {
      var first := TierPick(tier, m, now, c);
      if first.0.Some? then first else TierPick(tier.Other(), m, now, c)
    }

    lemma TierPickIsSound(tier: Tier, m: HealthMap, now: int, c: Cursors)
      requires InPools(c)
      ensures var (r, c') := TierPick(tier, m, now, c);
              && InPools(c') && c'.At(tier.Other()) == c.At(tier.Other())
              && (r.None? <==> AllCooling(Pool(tier), m, now)) && (r.None? ==> c' == c)
              && (r.Some? ==> r.value in Pool(tier) && Healthy(m, r.value, now))
    {
      PickMissesIffCooling(Pool(tier), m, now, c.At(tier));
    }

    /** A fresh assignment fails only if both tiers are cooling, and it uses the other tier,
        and moves the other cursor, only if this one is. */
    lemma FreshPickIsSound(tier: Tier, m: HealthMap, now: int, c: Cursors)
      requires InPools(c)
      ensures var (r, c') := FreshPick(tier, m, now, c);
              var used := if AllCooling(Pool(tier), m, now) then tier.Other() else tier;
              && InPools(c') && (r, c') == TierPick(used, m, now, c) && c'.At(used.Other()) == c.At(used.Other())
              && (r.None? <==> AllCooling(Pool(tier), m, now) && AllCooling(Pool(tier.Other()), m, now))
              && (r.Some? ==> r.value in Pool(used) && Configured(r.value) && Healthy(m, r.value, now))
    {
      TierPickIsSound(tier, m, now, c);
      TierPickIsSound(tier.Other(), m, now, c);
    }

    /** Scans from the cursor and moves it past the pick. */
    method PickHealthy(tier: Tier, now: int) returns (r: Option<string>)
      requires Valid()
      modifies this`cursors
      ensures Valid() && (r, cursors) == TierPick(tier, store.health, now, old(cursors))
      ensures r.None? <==> AllCooling(Pool(tier), store.health, now)
      ensures r.Some? ==> r.value in Pool(tier) && Healthy(store.health, r.value, now)
    {
      var pool := Pool(tier);
      TierPickIsSound(tier, store.health, now, cursors);
      if |pool| == 0 {
        return None;
      }
      var start := cursors.At(tier);
      for offset := 0 to |pool|
        invariant cursors == old(cursors)
        invariant PickFrom(pool, store.health, now, start, 0) == PickFrom(pool, store.health, now, start, offset)
      {
        var idx := (start + offset) % |pool|;
        if Healthy(store.health, pool[idx], now) {
          cursors := cursors.Move(tier, (idx + 1) % |pool|);
          return Some(pool[idx]);
        }
      }
      return None;
    }

    /** The pinned proxy of a domain, while its window is open and it is not cooling. */
    function Pinned(tier: Tier, domain: Option<string>, now: int): Option<string>
      reads this, store
    {
      if domain.Some? && (tier, domain.value) in sticky then
        var entry := sticky[(tier, domain.value)];
        if entry.expiresAt > now && Healthy(store.health, entry.ip, now) then Some(entry.ip) else None
      else None
    }

    /** next, as a function of what it sees and holds. */
    function Answer(tier: Tier, domain: Option<string>, v: View, held: Held): (Option<string>, Held) {
      if domain.None? then
        var (r, c) := FreshPick(tier, v.health, v.now, held.cursors);
        (r, held.(cursors := c))
      else
        var key := (tier, domain.value);
        if key in held.sticky && held.sticky[key].expiresAt > v.now
          && Healthy(v.health, held.sticky[key].ip, v.now) then
          (Some(held.sticky[key].ip), held)
        else
          var (r, c) := FreshPick(tier, v.health, v.now, held.cursors);
          var pinned := if r.None? then held.sticky - {key}
            else held.sticky[key := Sticky(r.value, v.now + config.stickyWindowMs)];
          (r, Held(c, pinned))
    }

    function After(held: Held, e: Event): Held {
      match e
      case Asked(tier, domain, view) => Answer(tier, domain, view, held).1
      case Failed(ip) => held.(sticky := map k | k in held.sticky && held.sticky[k].ip != ip :: held.sticky[k])
    }

    function Run(held: Held, events: seq<Event>): Held {
      if events == [] then held else After(Run(held, events[..|events| - 1]), events[|events| - 1])
    }

    /** While a pin's window is open and its proxy does not cool, this does not touch it: a
        ban of another proxy, a call for another domain or tier, or one for this one. */
    predicate Spares(e: Event, key: (Tier, string), pin: Sticky) {
      match e
      case Failed(ip) => ip != pin.ip
      case Asked(tier, domain, view) =>
        (tier, domain) == (key.0, Some(key.1)) ==> view.now < pin.expiresAt && Healthy(view.health, pin.ip, view.now)
    }

    lemma {:induction false} PinLasts(held: Held, events: seq<Event>, key: (Tier, string))
      requires key in held.sticky && forall e :: e in events ==> Spares(e, key, held.sticky[key])
      ensures key in Run(held, events).sticky && Run(held, events).sticky[key] == held.sticky[key]
    {
      if events == [] {
      } else {
        var before, e := events[..|events| - 1], events[|events| - 1];
        assert forall f :: f in before ==> f in events;
        PinLasts(held, before, key);
        hide FreshPick;
        assert Spares(e, key, held.sticky[key]);
      }
    }

    /** Stickiness. Once `next` has returned a proxy for a tier and domain, every later call
        for them within the window returns it, and changes nothing, whatever other calls,
        reports on other proxies and refreshes come between - as long as it is not cooling.
        A proxy freshly assigned is pinned for the whole window. */
    lemma SameProxyWithinTheWindow(held: Held, tier: Tier, domain: string, first: View, events: seq<Event>, later: View)
      requires Answer(tier, Some(domain), first, held).0.Some?
      requires var pinned := Answer(tier, Some(domain), first, held).1.sticky;
               && (tier, domain) in pinned
               && (forall e :: e in events ==> Spares(e, (tier, domain), pinned[(tier, domain)]))
               && Spares(Asked(tier, Some(domain), later), (tier, domain), pinned[(tier, domain)])
      ensures var (r, mid) := Answer(tier, Some(domain), first, held);
              && Answer(tier, Some(domain), later, Run(mid, events)) == (r, Run(mid, events))
              && (mid != held ==> mid.sticky[(tier, domain)] == Sticky(r.value, first.now + config.stickyWindowMs))
    {
      PinLasts(Answer(tier, Some(domain), first, held).1, events, (tier, domain));
      hide FreshPick;
    }

    /** An answered call leaves its proxy pinned. */
    lemma AnswerIsPinned(held: Held, tier: Tier, domain: string, v: View)
      requires Answer(tier, Some(domain), v, held).0.Some?
      ensures var (r, mid) := Answer(tier, Some(domain), v, held);
              (tier, domain) in mid.sticky && mid.sticky[(tier, domain)].ip == r.value
    {
    }

    /** Tries the requested tier, then the other. */
    method PickEither(tier: Tier, now: int) returns (r: Option<string>)
      requires Valid()
      modifies this`cursors
      ensures Valid() && (r, cursors) == FreshPick(tier, store.health, now, old(cursors))
    {
      r := PickHealthy(tier, now);
      if r.None? {
        r := PickHealthy(tier.Other(), now);
      }
    }

    /** next: None stands for the thrown error. Only configured, non-cooling proxies are
        returned; the call fails exactly when both tiers are entirely cooling; a pinned
        domain keeps its proxy and no cursor moves; otherwise the pick is a fresh one, the
        cursor it came from moves past it, and it is pinned for the window. */
    method Next(tier: Tier, domain: Option<string>, now: int) returns (r: Option<string>)
      requires Valid()
      modifies this`cursors, this`sticky
      ensures Valid()
      ensures r.None? <==>
                AllCooling(Pool(tier), store.health, now) && AllCooling(Pool(tier.Other()), store.health, now)
      ensures r.Some? ==> Configured(r.value) && Healthy(store.health, r.value, now)
      ensures (r, Held(cursors, sticky)) ==
              Answer(tier, domain, View(store.health, now), old(Held(cursors, sticky)))
      ensures domain.Some? && (tier, domain.value) in old(sticky) ==>
                var pin := old(sticky)[(tier, domain.value)];
                pin.expiresAt > now && Healthy(store.health, pin.ip, now) ==>
                  r == Some(pin.ip) && cursors == old(cursors) && sticky == old(sticky)
      ensures var pinned := old(Pinned(tier, domain, now));
              (r, cursors) ==
              if pinned.Some? then (pinned, old(cursors)) else FreshPick(tier, store.health, now, old(cursors))
      ensures old(Pinned(tier, domain, now)).Some? || domain.None? ==> sticky == old(sticky)
      ensures old(Pinned(tier, domain, now)).None? && domain.Some? ==>
                sticky == if r.None? then old(sticky) - {(tier, domain.value)}
                          else old(sticky)[(tier, domain.value) := Sticky(r.value, now + config.stickyWindowMs)]
    {
      AnswerIsSound(tier, domain, View(store.health, now), Held(cursors, sticky));
      hide FreshPick, AllCooling, Healthy, Configured;
      ghost var before := sticky;
      r := TakePinned(tier, domain, now);
      if r.Some? {
        return;
      }
      r := PickEither(tier, now);
      if domain.Some? {
        if r.Some? {
          sticky := sticky[(tier, domain.value) := Sticky(r.value, now + config.stickyWindowMs)];
          assert sticky == before[(tier, domain.value) := Sticky(r.value, now + config.stickyWindowMs)];
        }
      }
    }

    /** What an answer is worth: a configured, non-cooling proxy, refused exactly when both
        tiers are entirely cooling. */
    lemma AnswerIsSound(tier: Tier, domain: Option<string>, v: View, held: Held)
      requires InPools(held.cursors) && forall k :: k in held.sticky ==> Configured(held.sticky[k].ip)
      ensures var (r, after) := Answer(tier, domain, v, held);
              && (r.None? <==>
                    AllCooling(Pool(tier), v.health, v.now) && AllCooling(Pool(tier.Other()), v.health, v.now))
              && (r.Some? ==> Configured(r.value) && Healthy(v.health, r.value, v.now))
              && InPools(after.cursors) && forall k :: k in after.sticky ==> Configured(after.sticky[k].ip)
    {
      FreshPickIsSound(tier, v.health, v.now, held.cursors);
      hide FreshPick;
      if domain.Some? && (tier, domain.value) in held.sticky {
        var ip := held.sticky[(tier, domain.value)].ip;
        if Healthy(v.health, ip, v.now) {
          PinnedMeansSomeoneHealthy(tier, ip, v);
        }
      }
    }

    lemma PinnedMeansSomeoneHealthy(tier: Tier, ip: string, v: View)
      requires Configured(ip) && Healthy(v.health, ip, v.now)
      ensures !AllCooling(Pool(tier), v.health, v.now) || !AllCooling(Pool(tier.Other()), v.health, v.now)
    {
      assert ip in Pool(tier) || ip in Pool(tier.Other());
    }

    /** The sticky lookup of next: an expired or cooling pin is dropped. */
    method TakePinned(tier: Tier, domain: Option<string>, now: int) returns (r: Option<string>)
      requires Valid()
      modifies this`sticky
      ensures Valid() && r == old(Pinned(tier, domain, now))
      ensures r.Some? ==> Configured(r.value) && Healthy(store.health, r.value, now)
      ensures sticky == if r.Some? || domain.None? then old(sticky) else old(sticky) - {(tier, domain.value)}
    {
      if domain.None? {
        return None;
      }
      var key := (tier, domain.value);
      if key in sticky {
        var entry := sticky[key];
        if entry.expiresAt > now && Healthy(store.health, entry.ip, now) {
          return Some(entry.ip);
        }
        sticky := sticky - {key};
      }
      return None;
    }

    /** Evicts every sticky assignment that points at `ip`. */
    method Evict(ip: string)
      requires Valid()
      modifies this`sticky
      ensures Valid()
      ensures sticky == map k | k in old(sticky) && old(sticky)[k].ip != ip :: old(sticky)[k]
    {
      var left := sticky.Keys;
      while left != {}
        invariant left <= sticky.Keys
        invariant forall k :: k in sticky <==> k in old(sticky) && (k in left || old(sticky)[k].ip != ip)
        invariant forall k :: k in sticky ==> sticky[k] == old(sticky)[k]
        decreases |left|
      {
        var key :| key in left;
        left := left - {key};
        if sticky[key].ip == ip {
          sticky := sticky - {key};
        }
      }
    }

    /** A ban: the score drops, the cooldown starts and every domain pinned to the IP is
        released, so the IP is not handed out again before the cooldown has elapsed. */
    method ReportFailure(ip: string, now: int)
      requires Valid() && store.Valid()
      modifies this`sticky, store, store.redis
      ensures Valid() && store.Valid()
      ensures var banned := Banned(HealthOf(old(store.health), ip), config.penaltyPerBan, now + config.cooldownMs);
              store.health == old(store.health)[ip := banned]
      ensures sticky == map k | k in old(sticky) && old(sticky)[k].ip != ip :: old(sticky)[k]
      ensures store.redis.mirror == old(store.redis.mirror)[ip := Mirror(store.health[ip], now)]
    {
      var h := HealthOf(store.health, ip);
      store.Set(ip, Health(Max(0, h.score - config.penaltyPerBan), now + config.cooldownMs), now);
      Evict(ip);
    }

    method ReportSuccess(ip: string, now: int)
      requires store.Valid()
      modifies store, store.redis
      ensures store.Valid() && Healthy(store.health, ip, if now >= 0 then now else 0)
      ensures var well := Recovered(HealthOf(old(store.health), ip), config.healthyScore, config.recoveryPerOk);
              store.health == old(store.health)[ip := well]
      ensures store.redis.mirror == old(store.redis.mirror)[ip := Mirror(store.health[ip], now)]
    {
      var h := HealthOf(store.health, ip);
      store.Set(ip, Health(Min(config.healthyScore, h.score + config.recoveryPerOk), 0), now);
    }

    /** Routes on the configured ban statuses: after a ban the IP cools for the whole
        cooldown, after anything else it is available at once. */
    method ReportResult(ip: string, status: int, now: int)
      requires Valid() && store.Valid()
      modifies this`sticky, store, store.redis
      ensures Valid() && store.Valid()
      ensures forall u :: u != ip ==> HealthOf(store.health, u) == HealthOf(old(store.health), u)
      ensures HealthOf(store.health, ip) ==
              if status in config.banStatuses then
                Banned(HealthOf(old(store.health), ip), config.penaltyPerBan, now + config.cooldownMs)
              else Recovered(HealthOf(old(store.health), ip), config.healthyScore, config.recoveryPerOk)
      ensures store.redis.mirror == old(store.redis.mirror)[ip := Mirror(HealthOf(store.health, ip), now)]
      ensures status !in config.banStatuses ==> sticky == old(sticky)
      ensures status in config.banStatuses ==>
                sticky == map k | k in old(sticky) && old(sticky)[k].ip != ip :: old(sticky)[k]
    {
      if status in config.banStatuses {
        ReportFailure(ip, now);
      } else {
        ReportSuccess(ip, now);
      }
    }
  }

  /** One domain-less call of `next` under the health map and the clock of the moment. */
  method NextUnder(manager: Manager, tier: Tier, v: View, ghost h: set<string>) returns (ip: string)
    requires manager.Valid() && HealthySet(manager.Pool(tier), v) == h && h != {}
    modifies manager`cursors, manager`sticky, manager.store`health
    ensures manager.Valid() && manager.sticky == old(manager.sticky)
    ensures manager.cursors.At(tier.Other()) == old(manager.cursors.At(tier.Other()))
    ensures Picked(manager.Pool(tier), v, old(manager.cursors.At(tier)), ip, manager.cursors.At(tier))
  {
    var pool := manager.Pool(tier);
    SomeoneIsHealthy(pool, v, h);
    manager.store.health := v.health;
    manager.FreshPickIsSound(tier, v.health, v.now, manager.cursors);
    var r := manager.Next(tier, None, v.now);
    ip := r.value;
  }

  /** A pick of `ip` that moves the cursor from `cursor` to `next`. */
  predicate Picked(pool: seq<string>, v: View, cursor: nat, ip: string, next: nat) {
    && pool != []
    && var idx := PickFrom(pool, v.health, v.now, cursor, 0);
       idx.Some? && ip == pool[idx.value] && next == (idx.value + 1) % |pool|
  }

  lemma PickedIsNext(pool: seq<string>, views: seq<View>, i: nat, ips: seq<string>, cursor: nat, ip: string, next: nat)
    requires i < |views| && Picked(pool, views[i], cursor, ip, next)
    ensures ips + Picks(pool, views[i..], cursor) == ips + [ip] + Picks(pool, views[i + 1..], next)
  {
    assert views[i..][0] == views[i] && views[i..][1..] == views[i + 1..];
  }

  /** A round of domain-less calls of `next`, between which reports and refreshes change the
      health map and time passes. While the same proxies of the tier stay non-cooling, the
      round hands out each of them exactly once. */
  method NextRound(manager: Manager, tier: Tier, views: seq<View>, ghost h: set<string>) returns (ips: seq<string>)
    requires manager.Valid() && |views| == |h|
    requires forall i, j :: 0 <= i < j < |manager.Pool(tier)| ==> manager.Pool(tier)[i] != manager.Pool(tier)[j]
    requires forall v :: v in views ==> HealthySet(manager.Pool(tier), v) == h
    modifies manager`cursors, manager`sticky, manager.store`health
    ensures manager.Valid() && multiset(ips) == multiset(h)
    ensures manager.cursors.At(tier.Other()) == old(manager.cursors.At(tier.Other()))
    ensures manager.sticky == old(manager.sticky)
  {
    ips := [];
    if |views| == 0 {
      assert h == {};
      return;
    }
    ghost var pool, start := manager.Pool(tier), manager.cursors;
    SomeoneIsHealthy(pool, views[0], h);
    assert start.At(tier) < |pool|;
    hide HealthySet, Picked, Picks;
    for i := 0 to |views|
      invariant manager.Valid() && manager.sticky == old(manager.sticky)
      invariant manager.cursors.At(tier.Other()) == start.At(tier.Other())
      invariant ips + Picks(pool, views[i..], manager.cursors.At(tier)) == Picks(pool, views, start.At(tier))
    {
      ghost var cursor := manager.cursors.At(tier);
      assert views[i] in views;
      var ip := NextUnder(manager, tier, views[i], h);
      PickedIsNext(pool, views, i, ips, cursor, ip, manager.cursors.At(tier));
      ips := ips + [ip];
    }
    assert views[|views|..] == [] && Picks(pool, [], manager.cursors.At(tier)) == [] by {
    }
    RotationIsFair(pool, views, start.At(tier), h);
  }

  lemma SomeoneIsHealthy(pool: seq<string>, v: View, h: set<string>)
    requires HealthySet(pool, v) == h && |h| > 0
    ensures pool != [] && !AllCooling(pool, v.health, v.now)
  {
    var ip :| ip in h;
    assert ip in pool && Healthy(v.health, ip, v.now);
  }

  /** A ban on one pod is honoured by every pod that refreshes during the cooldown: until
      the cooldown ends the other pod hands the IP to nobody, not even a pinned domain. */
  method BanReachesOtherPod(a: Manager, b: Manager, ip: string, status: int, bannedAt: int, refreshedAt: int,
                            tier: Tier, domain: Option<string>, askedAt: int) returns (r: Option<string>)
    requires a != b && a.store != b.store && a.store.redis == b.store.redis
    requires a.Valid() && b.Valid() && a.store.Valid() && b.store.Valid()
    requires status in a.config.banStatuses && ip in b.store.urls
    requires bannedAt <= refreshedAt < bannedAt + a.config.cooldownMs && askedAt < bannedAt + a.config.cooldownMs
    modifies a, b, a.store, b.store, a.store.redis
    ensures r != Some(ip)
  {
    a.ReportFailure(ip, bannedAt);
    b.store.RefreshOnce(refreshedAt, true);
    assert Read(b.store.redis.mirror, ip, refreshedAt).Some?;
    r := b.Next(tier, domain, askedAt);
  }
}
