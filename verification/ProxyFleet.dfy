/** How bans spread between pods (specter-api/scraper/proxy/redis-health-store.ts, driven by
    the reports of specter-api/scraper/proxy/manager.ts): any number of pods ban, succeed
    and refresh in any order over one shared mirror. */
module ProxyFleet {
  import opened Wrappers
  import opened ProxyHealth

  datatype Config = Config(cooldown: nat, penalty: int, ceiling: int, recovery: int)

  /** A pod's local view and the proxies it refreshes. */
  datatype Pod = Pod(health: HealthMap, known: set<string>)

  datatype Fleet = Fleet(pods: seq<Pod>, mirror: map<string, Mirrored>, now: int)

  datatype Event =
    | Ban(pod: nat, ip: string)       // reportFailure
    | Success(pod: nat, ip: string)   // reportSuccess
    | Refresh(pod: nat)               // refreshOnce, Redis reachable
    | Wait(ms: nat)

  /** HealthStore.Set on one pod. */
  function Write(s: Fleet, p: nat, ip: string, h: Health): Fleet
    requires p < |s.pods|
  {
    s.(pods := s.pods[p := Pod(s.pods[p].health[ip := h], s.pods[p].known + {ip})],
       mirror := s.mirror[ip := Mirror(h, s.now)])
  }

  /** HealthStore.RefreshOnce on one pod. */
  function Refreshed(p: Pod, mirror: map<string, Mirrored>, now: int): HealthMap {
    p.health
    + map u | u in p.known && Read(mirror, u, now).Some? :: Merge(HealthOf(p.health, u), Read(mirror, u, now).value)
  }

  function Step(cfg: Config, s: Fleet, e: Event): Fleet {
    match e
    case Wait(ms) => s.(now := s.now + ms)
    case Ban(p, ip) =>
      if p >= |s.pods| then s
      else Write(s, p, ip, Banned(HealthOf(s.pods[p].health, ip), cfg.penalty, s.now + cfg.cooldown))
    case Success(p, ip) =>
      if p >= |s.pods| then s
      else Write(s, p, ip, Recovered(HealthOf(s.pods[p].health, ip), cfg.ceiling, cfg.recovery))
    case Refresh(p) =>
      if p >= |s.pods| then s
      else s.(pods := s.pods[p := s.pods[p].(health := Refreshed(s.pods[p], s.mirror, s.now))])
  }

  function Run(cfg: Config, s: Fleet, events: seq<Event>): (r: Fleet)
    ensures |r.pods| == |s.pods| && r.now >= s.now
  {
    if events == [] then s else Step(cfg, Run(cfg, s, events[..|events| - 1]), events[|events| - 1])
  }

  /** The pod will not hand the proxy out now: ProxyManager.Manager.Next skips it. */
  predicate Cooling(s: Fleet, p: nat, ip: string)
    requires p < |s.pods|
  {
    !Healthy(s.pods[p].health, ip, s.now)
  }

  /* ---- A ban is honoured ---- */

  predicate SucceedsAnywhere(events: seq<Event>, ip: string) {
    exists e :: e in events && e.Success? && e.ip == ip
  }

  predicate SucceedsOn(events: seq<Event>, p: nat, ip: string) {
    Success(p, ip) in events
  }

  predicate MirrorCools(s: Fleet, ip: string, until: int) {
    ip in s.mirror && s.mirror[ip].health.cooldownUntil >= until && s.mirror[ip].expiresAt > until
  }

  predicate PodCools(s: Fleet, p: nat, ip: string, until: int)
    requires p < |s.pods|
  {
    HealthOf(s.pods[p].health, ip).cooldownUntil >= until
  }

  lemma {:induction false} MirrorStaysCool(cfg: Config, s: Fleet, events: seq<Event>, ip: string, until: int)
    requires MirrorCools(s, ip, until) && until <= s.now + cfg.cooldown && !SucceedsAnywhere(events, ip)
    ensures MirrorCools(Run(cfg, s, events), ip, until)
    ensures forall p :: 0 <= p < |s.pods| && ip in s.pods[p].known ==> ip in Run(cfg, s, events).pods[p].known
  {
    if events == [] {
    } else {
      assert forall e :: e in events[..|events| - 1] ==> e in events;
      MirrorStaysCool(cfg, s, events[..|events| - 1], ip, until);
      assert events[|events| - 1] in events;
    }
  }

  lemma {:induction false} PodStaysCool(cfg: Config, s: Fleet, events: seq<Event>, p: nat, ip: string, until: int)
    requires p < |s.pods| && PodCools(s, p, ip, until) && until <= s.now + cfg.cooldown && !SucceedsOn(events, p, ip)
    ensures PodCools(Run(cfg, s, events), p, ip, until)
  {
    if events == [] {
    } else {
      PodStaysCool(cfg, s, events[..|events| - 1], p, ip, until);
      assert events[|events| - 1] in events;
    }
  }

  /** A pod that refreshes during a ban does not hand the proxy out before the ban ends,
      whatever every pod bans, refreshes and reports meanwhile - provided no pod reports a
      success for it between the ban and the refresh, and this pod none afterwards. */
  lemma BanIsHonoured(cfg: Config, s: Fleet, a: nat, ip: string, before: seq<Event>, b: nat, after: seq<Event>)
    requires a < |s.pods| && b < |s.pods| && ip in s.pods[b].known
    requires !SucceedsAnywhere(before, ip) && !SucceedsOn(after, b, ip)
    ensures
      var refreshing := Run(cfg, Step(cfg, s, Ban(a, ip)), before);
      var last := Run(cfg, Step(cfg, refreshing, Refresh(b)), after);
      last.now < s.now + cfg.cooldown ==> Cooling(last, b, ip)
  {
    var until, banned := s.now + cfg.cooldown, Step(cfg, s, Ban(a, ip));
    var refreshing := Run(cfg, banned, before);
    var refreshed := Step(cfg, refreshing, Refresh(b));
    MirrorStaysCool(cfg, banned, before, ip, until);
    if refreshing.now < until {
      assert Read(refreshing.mirror, ip, refreshing.now).Some?;
      assert PodCools(refreshed, b, ip, until);
      PodStaysCool(cfg, refreshed, after, b, ip, until);
    }
  }

  /** The banning pod itself needs no refresh. */
  lemma BanIsHonouredAtHome(cfg: Config, s: Fleet, a: nat, ip: string, after: seq<Event>)
    requires a < |s.pods| && !SucceedsOn(after, a, ip)
    ensures var last := Run(cfg, Step(cfg, s, Ban(a, ip)), after);
            last.now < s.now + cfg.cooldown ==> Cooling(last, a, ip)
  {
    PodStaysCool(cfg, Step(cfg, s, Ban(a, ip)), after, a, ip, s.now + cfg.cooldown);
  }

  /* ---- ... and only then ---- */

  /** Refresh `i` of pod `b` saw the ban, and the pod has not cleared it since. */
  predicate LearntAt(events: seq<Event>, b: nat, ip: string, i: int) {
    0 <= i < |events| && events[i] == Refresh(b) && !SucceedsAnywhere(events[..i], ip)
      && !SucceedsOn(events[i..], b, ip)
  }

  ghost predicate Learnt(events: seq<Event>, b: nat, ip: string) {
    exists i :: LearntAt(events, b, ip, i)
  }

  lemma LearntAlso(events: seq<Event>, e: Event, b: nat, ip: string)
    ensures Learnt(events + [e], b, ip) <==>
              || (Learnt(events, b, ip) && e != Success(b, ip))
              || (e == Refresh(b) && !SucceedsAnywhere(events, ip))
  {
    var all := events + [e];
    forall i | 0 <= i < |events|
      ensures LearntAt(all, b, ip, i) <==> LearntAt(events, b, ip, i) && e != Success(b, ip)
    {
      assert all[..i] == events[..i] && all[i..] == events[i..] + [e];
    }
    assert all[..|events|] == events && all[|events|..] == [e];
    if Learnt(events, b, ip) && e != Success(b, ip) {
      var i :| LearntAt(events, b, ip, i);
      assert LearntAt(all, b, ip, i);
    }
    if e == Refresh(b) && !SucceedsAnywhere(events, ip) {
      assert LearntAt(all, b, ip, |events|);
    }
  }

  /** One ban since `start`, and who knows of it. */
  predicate Tracks(s: Fleet, b: nat, ip: string, start: int, until: int, succeeded: bool, learnt: bool)
    requires b < |s.pods|
  {
    && ip in s.pods[b].known && ip in s.mirror
    && (if succeeded then s.mirror[ip].health.cooldownUntil == 0
        else s.mirror[ip].health.cooldownUntil == until && s.mirror[ip].expiresAt > until)
    && (if learnt then HealthOf(s.pods[b].health, ip).cooldownUntil == until
        else HealthOf(s.pods[b].health, ip).cooldownUntil <= start)
  }

  predicate OneBan(s: Fleet, events: seq<Event>, ip: string) {
    forall e :: e in events ==> !(e.Ban? && e.ip == ip) && (e.Success? ==> e.pod < |s.pods|)
  }

  lemma TracksStep(cfg: Config, s: Fleet, e: Event, b: nat, ip: string, start: int, until: int, succeeded: bool,
                   learnt: bool)
    requires b < |s.pods| && 0 <= start <= s.now && s.now < until && Tracks(s, b, ip, start, until, succeeded, learnt)
    requires !(e.Ban? && e.ip == ip) && (e.Success? ==> e.pod < |s.pods|)
    ensures Tracks(Step(cfg, s, e), b, ip, start, until, succeeded || (e.Success? && e.ip == ip),
                   (learnt && e != Success(b, ip)) || (e == Refresh(b) && !succeeded))
  {
  }

  lemma {:induction false} RunTracks(cfg: Config, s: Fleet, events: seq<Event>, b: nat, ip: string, until: int)
    requires b < |s.pods| && 0 <= s.now && Tracks(s, b, ip, s.now, until, false, false)
    requires OneBan(s, events, ip) && Run(cfg, s, events).now < until
    ensures Tracks(Run(cfg, s, events), b, ip, s.now, until, SucceedsAnywhere(events, ip), Learnt(events, b, ip))
  {
    if events == [] {
    } else {
      var before, e := events[..|events| - 1], events[|events| - 1];
      assert events == before + [e] && e in events && forall f :: f in before ==> f in events;
      RunTracks(cfg, s, before, b, ip, until);
      TracksStep(cfg, Run(cfg, s, before), e, b, ip, s.now, until, SucceedsAnywhere(before, ip), Learnt(before, b, ip));
      LearntAlso(before, e, b, ip);
    }
  }

  /** After one ban on another pod, until it ends, a pod withholds the proxy exactly if it
      refreshed before any pod reported a success for it and has reported none itself
      since. A success anywhere erases the ban for every pod that has not refreshed. */
  lemma WithheldIffLearnt(cfg: Config, s: Fleet, a: nat, ip: string, events: seq<Event>, b: nat)
    requires a < |s.pods| && b < |s.pods| && a != b && ip in s.pods[b].known
    requires s.now >= 0 && !Cooling(s, b, ip) && OneBan(s, events, ip)
    ensures var last := Run(cfg, Step(cfg, s, Ban(a, ip)), events);
            last.now < s.now + cfg.cooldown ==> (Cooling(last, b, ip) <==> Learnt(events, b, ip))
  {
    var banned := Step(cfg, s, Ban(a, ip));
    if Run(cfg, banned, events).now < s.now + cfg.cooldown {
      RunTracks(cfg, banned, events, b, ip, s.now + cfg.cooldown);
    }
  }

  /** The failing run: pod `c`, not knowing of the ban, reports a success; whoever refreshes
      after that hands the proxy out during the ban. */
  lemma SuccessErasesABan(cfg: Config, s: Fleet, a: nat, c: nat, b: nat, ip: string)
    requires a < |s.pods| && b < |s.pods| && c < |s.pods| && a != b && ip in s.pods[b].known
    requires s.now >= 0 && cfg.cooldown > 0 && !Cooling(s, b, ip)
    ensures !Cooling(Run(cfg, Step(cfg, s, Ban(a, ip)), [Success(c, ip), Refresh(b)]), b, ip)
  {
    var events := [Success(c, ip), Refresh(b)];
    var banned := Step(cfg, s, Ban(a, ip));
    assert events[..1] == [Success(c, ip)] && events[..1][..0] == [];
    assert Run(cfg, banned, []) == banned && Run(cfg, banned, events[..1]).now == s.now;
    WithheldIffLearnt(cfg, s, a, ip, events, b);
    assert Success(c, ip) in events[..1] && SucceedsAnywhere(events[..1], ip);
    assert !LearntAt(events, b, ip, 1) && !LearntAt(events, b, ip, 0);
  }
}
