/** Per-IP health shared between pods (specter-api/scraper/proxy/redis-health-store.ts).

    The local map is the hot path; every write is mirrored to Redis and a periodic
    refresh merges what other pods mirrored. Keys are taken to be distinct per URL. */
module ProxyHealth {
  import opened Numbers
  import opened Wrappers

  datatype Health = Health(score: int, cooldownUntil: int)

  const DEFAULT_HEALTH := Health(100, 0)

  const KEY_GRACE_MS := 60000

  type HealthMap = map<string, Health>

  function HealthOf(m: HealthMap, url: string): Health {
    if url in m then m[url] else DEFAULT_HEALTH
  }

  predicate Healthy(m: HealthMap, url: string, now: int) {
    HealthOf(m, url).cooldownUntil <= now
  }

  /** The stricter of two views: the later cooldown and the lower score. */
  function Merge(local: Health, remote: Health): Health {
    Health(Min(local.score, remote.score), Max(local.cooldownUntil, remote.cooldownUntil))
  }

  /** What one pod's write leaves in Redis, and until when. */
  datatype Mirrored = Mirrored(health: Health, expiresAt: int)

  /** One write, as mirrored at `now`: the key outlives the cooldown by the grace. */
  function Mirror(h: Health, now: int): (m: Mirrored)
    ensures m.health == h && m.expiresAt == Max(now, h.cooldownUntil) + KEY_GRACE_MS
  {
    Mirrored(h, now + Max(KEY_GRACE_MS, h.cooldownUntil - now + KEY_GRACE_MS))
  }

  /** The health after a ban, and after a success. */
  function Banned(h: Health, penalty: int, until: int): Health {
    Health(Max(0, h.score - penalty), until)
  }

  function Recovered(h: Health, ceiling: int, recovery: int): Health {
    Health(Min(ceiling, h.score + recovery), 0)
  }

  /** The health after `n` bans, or successes, in a row. */
  function BannedTimes(h: Health, penalty: int, until: int, n: nat): Health {
    if n == 0 then h else Banned(BannedTimes(h, penalty, until, n - 1), penalty, until)
  }

  function RecoveredTimes(h: Health, ceiling: int, recovery: int, n: nat): Health {
    if n == 0 then h else Recovered(RecoveredTimes(h, ceiling, recovery, n - 1), ceiling, recovery)
  }

  /** Each ban costs the penalty, down to zero, and each success regains the recovery, up to
      the ceiling; the latest report decides whether the proxy cools. */
  lemma {:induction false} ReportsAddUp(h: Health, ceiling: int, penalty: nat, recovery: nat, until: int, n: nat)
    requires 0 <= h.score <= ceiling
    ensures BannedTimes(h, penalty, until, n)
            == Health(Max(0, h.score - n * penalty), if n == 0 then h.cooldownUntil else until)
    ensures RecoveredTimes(h, ceiling, recovery, n)
            == Health(Min(ceiling, h.score + n * recovery), if n == 0 then h.cooldownUntil else 0)
  {
    if n == 0 {
    } else {
      ReportsAddUp(h, ceiling, penalty, recovery, until, n - 1);
      assert n * penalty == (n - 1) * penalty + penalty && n * recovery == (n - 1) * recovery + recovery;
      assert (n - 1) * penalty >= 0 && (n - 1) * recovery >= 0;
    }
  }

  /** The value MGET returns for one URL: none if missing, expired or malformed. */
  function Read(m: map<string, Mirrored>, url: string, now: int): Option<Health> {
    if url in m && now < m[url].expiresAt then Some(m[url].health) else None
  }

  class HealthRedis {
    var mirror: map<string, Mirrored>

    constructor ()
      ensures mirror == map[]
    {
      mirror := map[];
    }
  }

  class HealthStore {
    var health: HealthMap
    var urls: seq<string>
    const redis: HealthRedis

    constructor (redis: HealthRedis, urls: seq<string>)
      requires forall i, j :: 0 <= i < j < |urls| ==> urls[i] != urls[j]
      ensures Valid() && health == map[] && this.urls == urls && this.redis == redis
    {
      this.redis := redis;
      this.urls := urls;
      health := map[];
    }

    predicate Valid()
      reads this
    {
      forall i, j :: 0 <= i < j < |urls| ==> urls[i] != urls[j]
    }

    /** Writes locally and mirrors; the mirrored key outlives the cooldown by the grace. */
    method Set(url: string, h: Health, now: int)
      requires Valid()
      modifies this, redis
      ensures Valid() && health == old(health)[url := h]
      ensures redis.mirror == old(redis.mirror)[url := Mirror(h, now)]
      ensures urls == old(urls) + if url in old(urls) then [] else [url]
    {
      health := health[url := h];
      var untilCool := h.cooldownUntil - now + KEY_GRACE_MS;
      var ttl := if KEY_GRACE_MS >= untilCool then KEY_GRACE_MS else untilCool;
      if url !in urls {
        urls := urls + [url];
      }
      redis.mirror := redis.mirror[url := Mirrored(h, now + ttl)];
    }

    /** One refresh pass; `reachable` is false when Redis is down. Every known URL adopts
        the stricter view, so a refresh never shortens a cooldown; the rest is untouched. */
    method RefreshOnce(now: int, reachable: bool)
      requires Valid()
      modifies this`health
      ensures !reachable ==> health == old(health)
      ensures forall u :: HealthOf(health, u) ==
                          if reachable && u in urls && Read(redis.mirror, u, now).Some?
                          then Merge(HealthOf(old(health), u), Read(redis.mirror, u, now).value)
                          else HealthOf(old(health), u)
      ensures forall u :: u in redis.mirror && redis.mirror[u].expiresAt <= now ==>
                            HealthOf(health, u) == HealthOf(old(health), u)
      ensures reachable ==>
                forall u :: u in urls && u in redis.mirror && now < redis.mirror[u].expiresAt ==>
                  HealthOf(health, u) == Merge(HealthOf(old(health), u), redis.mirror[u].health)
    {
      if !reachable {
        return;
      }
      for i := 0 to |urls|
        invariant forall u :: HealthOf(health, u) ==
                              if u in urls[..i] && Read(redis.mirror, u, now).Some?
                              then Merge(HealthOf(old(health), u), Read(redis.mirror, u, now).value)
                              else HealthOf(old(health), u)
      {
        assert urls[i] !in urls[..i];
        assert urls[..i + 1] == urls[..i] + [urls[i]];
        var raw := Read(redis.mirror, urls[i], now);
        if raw.Some? {
          health := health[urls[i] := Merge(HealthOf(health, urls[i]), raw.value)];
        }
      }
      assert urls[..|urls|] == urls;
    }
  }

  /** Merging takes the stricter of each view - never an earlier cooldown, never a higher
      score, never a value nobody held - and neither order nor repetition matters, so pods
      that merge the same views agree. */
  lemma MergeIsStrictest(a: Health, b: Health, c: Health)
    ensures Merge(a, b).score <= a.score && Merge(a, b).cooldownUntil >= a.cooldownUntil
    ensures Merge(a, b).score in {a.score, b.score} && Merge(a, b).cooldownUntil in {a.cooldownUntil, b.cooldownUntil}
    ensures Merge(a, b) == Merge(b, a) && Merge(a, a) == a
    ensures Merge(Merge(a, b), c) == Merge(a, Merge(b, c))
  {
  }
}
