/** Per-domain request pacing (specter-api/scraper/workers/rate-limiter.ts): the token
    bucket and the robots.txt crawl delay, each one atomic script over keys that expire.

    Token arithmetic is over the reals; the clock is a parameter. */
module RateLimiter {
  import opened Numbers
  import opened Wrappers

  /* ---- Token bucket ---- */

  datatype Bucket = Bucket(tokens: real, ts: real)

  datatype Decision = Decision(allowed: bool, retryAfterMs: int, bucket: Bucket)

  /** The refill policy: `limit` tokens regenerate every `window` ms. */
  datatype Policy = Policy(limit: real, window: real) {
    predicate Valid() {
      limit > 0.0 && window > 0.0
    }

    /** The configured limit is any whole number but zero, negative ones included. */
    predicate Configured() {
      limit != 0.0 && window > 0.0
    }
  }

  function Ceil(x: real): int {
    -(-x).Floor
  }

  /** The tokens regenerated in `d` ms; a backward clock regenerates none. */
  function Refill(p: Policy, d: real): real
    requires p.Configured()
  {
    RealMax(0.0, d * p.limit / p.window)
  }

  /** How long `missing` tokens take to regenerate. */
  function WaitFor(p: Policy, missing: real): real
    requires p.Configured()
  {
    missing * p.window / p.limit
  }

  function Refilled(p: Policy, state: Option<Bucket>, now: real): real
    requires p.Configured()
  {
    match state
    case None => p.limit
    case Some(b) => RealMin(p.limit, b.tokens + Refill(p, now - b.ts))
  }

  /** evaluateTokenBucket, and the script that mirrors it. */
  function Evaluate(p: Policy, state: Option<Bucket>, now: real): Decision
    requires p.Configured()
  {
    var tokens := Refilled(p, state, now);
    if tokens < 1.0 then
      Decision(false, Ceil(WaitFor(p, 1.0 - tokens)), Bucket(tokens, now))
    else
      Decision(true, 0, Bucket(tokens - 1.0, now))
  }

  predicate InRange(p: Policy, state: Option<Bucket>) {
    state.Some? ==> 0.0 <= state.value.tokens <= p.limit
  }

  predicate Monotone(state: Option<Bucket>, times: seq<real>) {
    && (forall i, j :: 0 <= i < j < |times| ==> times[i] <= times[j])
    && (state.Some? && times != [] ==> state.value.ts <= times[0])
  }

  datatype Trace = Trace(bucket: Option<Bucket>, allowed: nat, answers: seq<(bool, int)>)

  /** A run of calls. Before call `i` the key has expired if `expired[i]`. */
  function Run(p: Policy, state: Option<Bucket>, times: seq<real>, expired: seq<bool>): Trace
    requires p.Valid() && |times| == |expired|
  {
    if times == [] then Trace(state, 0, []) else
      var n := |times| - 1;
      var before := Run(p, state, times[..n], expired[..n]);
      var d := Evaluate(p, if expired[n] then None else before.bucket, times[n]);
      Trace(Some(d.bucket), before.allowed + (if d.allowed then 1 else 0),
            before.answers + [(d.allowed, d.retryAfterMs)])
  }

  function Never(n: nat): seq<bool> {
    seq(n, _ => false)
  }

  lemma RefillGrows(p: Policy, a: real, b: real)
    requires p.Valid() && a >= 0.0 && b >= 0.0
    ensures Refill(p, a + b) == Refill(p, a) + Refill(p, b)
  {
    assert (a + b) * p.limit / p.window == a * p.limit / p.window + b * p.limit / p.window;
    assert a * p.limit >= 0.0 && b * p.limit >= 0.0;
  }

  /** Tokens stay in [0, limit], and tokens plus admissions grow no faster than the refill. */
  lemma {:induction false} TokensBounded(p: Policy, state: Option<Bucket>, times: seq<real>)
    requires p.Valid() && InRange(p, state) && Monotone(state, times)
    ensures var t := Run(p, state, times, Never(|times|));
            InRange(p, t.bucket) && (times != [] ==> t.bucket.Some? && t.bucket.value.ts == times[|times| - 1])
    ensures times != [] ==>
              var t := Run(p, state, times, Never(|times|));
              t.bucket.value.tokens + t.allowed as real <= p.limit + Refill(p, times[|times| - 1] - times[0])
  {
    hide Refill, WaitFor, Ceil;
    if times == [] {
    } else {
      var n := |times| - 1;
      assert Never(|times|)[..n] == Never(n);
      TokensBounded(p, state, times[..n]);
      var before := Run(p, state, times[..n], Never(n));
      RefillNonNegative(p, 0.0);
      if before.bucket.Some? {
        RefillNonNegative(p, times[n] - before.bucket.value.ts);
        if n > 0 {
          RefillGrows(p, times[n - 1] - times[0], times[n] - times[n - 1]);
        }
      }
    }
  }

  lemma RefillNonNegative(p: Policy, d: real)
    requires p.Valid()
    ensures Refill(p, d) >= 0.0
  {
  }

  /** What the cap discards when the bucket is refilled for a call at `now`. */
  function Overflow(p: Policy, state: Option<Bucket>, now: real): real
    requires p.Valid()
  {
    if state.None? then 0.0 else RealMax(0.0, state.value.tokens + Refill(p, now - state.value.ts) - p.limit)
  }

  /** What the cap discards over a run. */
  function Spilled(p: Policy, state: Option<Bucket>, times: seq<real>): real
    requires p.Valid()
  {
    if times == [] then 0.0 else
      var n := |times| - 1;
      Spilled(p, state, times[..n]) + Overflow(p, Run(p, state, times[..n], Never(n)).bucket, times[n])
  }

  /** Conservation: what was there at the start and what has been refilled since is in the
      bucket, was taken by an allowed call - one token each - or was discarded by the cap. */
  lemma {:induction false} TokensAreConserved(p: Policy, b: Bucket, times: seq<real>)
    requires p.Valid() && Monotone(Some(b), times) && times != []
    ensures var t := Run(p, Some(b), times, Never(|times|));
            && t.bucket.Some? && t.bucket.value.ts == times[|times| - 1]
            && t.bucket.value.tokens + t.allowed as real + Spilled(p, Some(b), times)
               == b.tokens + Refill(p, times[|times| - 1] - b.ts)
  {
    hide Refill, WaitFor, Ceil;
    var n := |times| - 1;
    assert Never(|times|)[..n] == Never(n);
    RefillNonNegative(p, times[n] - b.ts);
    if n == 0 {
      assert Run(p, Some(b), times[..0], Never(0)) == Trace(Some(b), 0, []);
      assert Spilled(p, Some(b), times[..0]) == 0.0;
    } else {
      TokensAreConserved(p, b, times[..n]);
      RefillGrows(p, times[n - 1] - b.ts, times[n] - times[n - 1]);
    }
  }

  /** Nothing is discarded on a run that could not have filled the bucket; there, tokens and
      admissions add up exactly. */
  lemma {:induction false} NothingSpills(p: Policy, b: Bucket, times: seq<real>)
    requires p.Valid() && Monotone(Some(b), times) && times != []
    requires b.tokens + Refill(p, times[|times| - 1] - b.ts) <= p.limit
    ensures Spilled(p, Some(b), times) == 0.0
    ensures var t := Run(p, Some(b), times, Never(|times|));
            t.bucket.value.tokens + t.allowed as real == b.tokens + Refill(p, times[|times| - 1] - b.ts)
  {
    hide Refill, WaitFor, Ceil;
    TokensAreConserved(p, b, times);
    var n := |times| - 1;
    if n == 0 {
      assert Run(p, Some(b), times[..0], Never(0)) == Trace(Some(b), 0, []);
      assert Spilled(p, Some(b), times[..0]) == 0.0;
    } else {
      RefillGrows(p, times[n - 1] - b.ts, times[n] - times[n - 1]);
      RefillNonNegative(p, times[n] - times[n - 1]);
      NothingSpills(p, b, times[..n]);
      TokensAreConserved(p, b, times[..n]);
    }
  }

  /** A burst: of `k` calls at one instant exactly as many are allowed as there are whole
      tokens - from a missing or a full bucket, as the limit allows - and each takes one. */
  lemma {:induction false} BurstIsExact(p: Policy, state: Option<Bucket>, now: real, k: nat)
    requires p.Valid() && InRange(p, state) && (state.Some? ==> state.value.ts <= now) && k > 0
    ensures var t, whole := Run(p, state, seq(k, _ => now), Never(k)), Refilled(p, state, now);
            && t.allowed == Min(k, whole.Floor)
            && t.bucket == Some(Bucket(whole - t.allowed as real, now))
    ensures state.None? || state.value.tokens == p.limit ==> Refilled(p, state, now) == p.limit
  {
    hide Refill, WaitFor, Ceil;
    var times := seq(k, _ => now);
    assert times[..k - 1] == seq(k - 1, _ => now) && Never(k)[..k - 1] == Never(k - 1);
    if state.Some? {
      RefillNonNegative(p, now - state.value.ts);
    }
    if k == 1 {
      assert Run(p, state, times[..0], Never(0)) == Trace(state, 0, []);
    } else {
      BurstIsExact(p, state, now, k - 1);
      NoRefillAtOnce(p);
    }
  }

  lemma NoRefillAtOnce(p: Policy)
    requires p.Valid()
    ensures Refill(p, 0.0) == 0.0
  {
  }

  /** The rate bound: over any stretch of calls, however allowed and refused calls mix,
      no more than limit + elapsed * limit / window are allowed. */
  lemma RateBound(p: Policy, state: Option<Bucket>, times: seq<real>)
    requires p.Valid() && InRange(p, state) && Monotone(state, times) && times != []
    ensures Run(p, state, times, Never(|times|)).allowed as real
            <= p.limit + (times[|times| - 1] - times[0]) * p.limit / p.window
  {
    hide Run, Refill;
    TokensBounded(p, state, times);
    RefillForward(p, times[|times| - 1] - times[0]);
  }

  lemma RefillForward(p: Policy, d: real)
    requires p.Valid() && d >= 0.0
    ensures Refill(p, d) == d * p.limit / p.window
  {
    assert d * p.limit >= 0.0;
  }

  /* ---- The expiring key ---- */

  lemma WindowFills(p: Policy, d: real)
    requires p.Valid() && d >= p.window
    ensures Refill(p, d) >= p.limit
  {
    assert d * p.limit >= p.window * p.limit;
    assert p.window * p.limit / p.window == p.limit;
  }

  /** After one idle window the bucket is full, which is what a missing key means. */
  lemma IdleWindowFills(p: Policy, b: Bucket, now: real)
    requires p.Valid() && 0.0 <= b.tokens && now - b.ts >= p.window
    ensures Evaluate(p, Some(b), now) == Evaluate(p, None, now)
  {
    hide Refill, WaitFor, Ceil;
    WindowFills(p, now - b.ts);
  }

  /** The time since the bucket was last written is at least a window before call `i`. */
  predicate IdleBefore(p: Policy, state: Option<Bucket>, times: seq<real>, i: int)
    requires 0 <= i < |times|
  {
    if i > 0 then times[i] - times[i - 1] >= p.window
    else state.Some? ==> times[0] - state.value.ts >= p.window
  }

  /** PEXPIRE window: the key may be gone only once the bucket was idle for a window. */
  predicate ExpiryAllowed(p: Policy, state: Option<Bucket>, times: seq<real>, expired: seq<bool>)
    requires |times| == |expired|
  {
    forall i :: 0 <= i < |times| && expired[i] ==> IdleBefore(p, state, times, i)
  }

  /** Key expiry is invisible: on every run the expiring bucket gives the same answers
      and stores the same state as one that never expires. */
  lemma {:induction false} ExpiryInvisible(p: Policy, state: Option<Bucket>, times: seq<real>, expired: seq<bool>)
    requires p.Valid() && InRange(p, state) && Monotone(state, times) && |times| == |expired|
    requires ExpiryAllowed(p, state, times, expired)
    ensures Run(p, state, times, expired).answers == Run(p, state, times, Never(|times|)).answers
    ensures times != [] ==> Run(p, state, times, expired) == Run(p, state, times, Never(|times|))
  {
    hide Refilled, Refill, WaitFor, Ceil;
    if times == [] {
    } else {
      var n := |times| - 1;
      assert Never(|times|)[..n] == Never(n);
      forall i | 0 <= i < n && expired[..n][i]
        ensures IdleBefore(p, state, times[..n], i)
      {
        assert IdleBefore(p, state, times, i);
      }
      ExpiryInvisible(p, state, times[..n], expired[..n]);
      TokensBounded(p, state, times[..n]);
      var before := Run(p, state, times[..n], Never(n));
      if expired[n] && before.bucket.Some? {
        assert IdleBefore(p, state, times, n);
        assert n > 0 ==> before.bucket.value.ts == times[n - 1];
        assert n == 0 ==> before.bucket == state;
        IdleWindowFills(p, before.bucket.value, times[n]);
      }
    }
  }

  /* ---- When to retry ---- */

  /** The instant at which a bucket holds one whole token. */
  function ReadyAt(p: Policy, b: Bucket): real
    requires p.Valid()
  {
    b.ts + WaitFor(p, 1.0 - b.tokens)
  }

  /** Waiting and refilling are inverse. */
  lemma WaitIsRefillTime(p: Policy, missing: real, d: real)
    requires p.Valid() && d >= 0.0
    ensures Refill(p, d) >= missing <==> d >= WaitFor(p, missing)
    ensures WaitFor(p, missing - Refill(p, d)) == WaitFor(p, missing) - d
  {
    RefillForward(p, d);
    var refill, wait := Refill(p, d), WaitFor(p, missing);
    hide Refill;
    assert refill * p.window == d * p.limit;
    assert wait * p.limit == missing * p.window;
    CompareScaled(refill, missing, p.window);
    CompareScaled(d, wait, p.limit);
    assert (missing - refill) * p.window == missing * p.window - d * p.limit;
  }

  lemma CompareScaled(x: real, y: real, k: real)
    requires k > 0.0
    ensures x >= y <==> x * k >= y * k
  {
    assert x * k - y * k == (x - y) * k;
  }

  /** A call is allowed exactly when the bucket is ready; a refused call in between does
      not move that instant, and its answer is the time left, rounded up. */
  lemma AllowedIffReady(p: Policy, b: Bucket, now: real)
    requires p.Valid() && p.limit >= 1.0 && 0.0 <= b.tokens <= p.limit && b.ts <= now
    ensures var d := Evaluate(p, Some(b), now);
            && (d.allowed <==> ReadyAt(p, b) <= now)
            && (!d.allowed ==> ReadyAt(p, d.bucket) == ReadyAt(p, b) && d.retryAfterMs == Ceil(ReadyAt(p, b) - now))
  {
    hide Refill, WaitFor, Ceil;
    WaitIsRefillTime(p, 1.0 - b.tokens, now - b.ts);
    var d := Evaluate(p, Some(b), now);
    if !d.allowed {
      assert d.bucket.tokens == b.tokens + Refill(p, now - b.ts);
      assert 1.0 - d.bucket.tokens == 1.0 - b.tokens - Refill(p, now - b.ts);
    }
  }

  lemma {:induction false} RefusalsKeepReadiness(p: Policy, b: Bucket, times: seq<real>)
    requires p.Valid() && p.limit >= 1.0 && 0.0 <= b.tokens <= p.limit && Monotone(Some(b), times)
    requires Run(p, Some(b), times, Never(|times|)).allowed == 0
    ensures var after := Run(p, Some(b), times, Never(|times|)).bucket;
            after.Some? && ReadyAt(p, after.value) == ReadyAt(p, b)
  {
    hide Refilled, Refill, WaitFor, Ceil;
    if times == [] {
    } else {
      var n := |times| - 1;
      assert Never(|times|)[..n] == Never(n);
      RefusalsKeepReadiness(p, b, times[..n]);
      TokensBounded(p, Some(b), times[..n]);
      AllowedIffReady(p, Run(p, Some(b), times[..n], Never(n)).bucket.value, times[n]);
    }
  }

  /** A refusal's retryAfterMs is the least whole number of milliseconds after which a
      retry succeeds, and refused calls made meanwhile do not delay it. */
  lemma RetryAfterIsExact(p: Policy, state: Option<Bucket>, now: real, between: seq<real>, k: nat)
    requires p.Valid() && p.limit >= 1.0 && InRange(p, state) && (state.Some? ==> state.value.ts <= now)
    requires var d := Evaluate(p, state, now);
             && !d.allowed
             && Monotone(Some(d.bucket), between)
             && Run(p, Some(d.bucket), between, Never(|between|)).allowed == 0
    requires between != [] ==> between[|between| - 1] <= now + k as real
    ensures var d := Evaluate(p, state, now);
            var retried := Evaluate(p, Run(p, Some(d.bucket), between, Never(|between|)).bucket, now + k as real);
            retried.allowed <==> k >= d.retryAfterMs
  {
    hide Refill, WaitFor, Ceil, Run;
    if state.Some? {
      RefillNonNegative(p, now - state.value.ts);
    }
    var b := Evaluate(p, state, now).bucket;
    RefusalsKeepReadiness(p, b, between);
    TokensBounded(p, Some(b), between);
    EmptyRun(p, Some(b));
    AllowedIffReady(p, Run(p, Some(b), between, Never(|between|)).bucket.value, now + k as real);
    CeilIsLeast(WaitFor(p, 1.0 - b.tokens), k);
  }

  lemma EmptyRun(p: Policy, state: Option<Bucket>)
    requires p.Valid()
    ensures Run(p, state, [], Never(0)).bucket == state
  {
  }

  lemma CeilIsLeast(x: real, k: int)
    ensures k as real >= x <==> k >= Ceil(x)
  {
  }

  ghost predicate EverAllows(p: Policy)
    requires p.Configured()
  {
    exists state, now :: Evaluate(p, state, now).allowed
  }

  /** Which configured limits let a domain be crawled at all? Exactly those of at least one:
      a negative one refuses every call, whatever is stored, and the wait it names is none. */
  lemma EverAllowsIff(p: Policy)
    requires p.Configured()
    ensures EverAllows(p) <==> p.limit >= 1.0
    ensures p.limit < 0.0 ==> forall state, now :: Evaluate(p, state, now).retryAfterMs <= 0
  {
    if p.limit >= 1.0 {
      assert Evaluate(p, None, 0.0).allowed;
    } else {
      forall state, now
        ensures !Evaluate(p, state, now).allowed
        ensures p.limit < 0.0 ==> Evaluate(p, state, now).retryAfterMs <= 0
      {
        if p.limit < 0.0 {
          NegativeWait(p, 1.0 - Refilled(p, state, now));
        }
      }
    }
  }

  lemma NegativeWait(p: Policy, missing: real)
    requires p.Configured() && p.limit < 0.0 && missing >= 0.0
    ensures Ceil(WaitFor(p, missing)) <= 0
  {
    assert missing * p.window >= 0.0;
  }

  /* ---- Crawl delay ---- */

  /** decideCrawlDelay: allowed, and how long to wait if not. */
  function DecideCrawlDelay(last: Option<int>, delay: int, now: int): (bool, int) {
    if delay <= 0 || last.None? || now - last.value >= delay then (true, 0)
    else (false, delay - (now - last.value))
  }

  /** The instants a run allows, oldest first; before call `i` the key may have expired. */
  function AllowedAt(delay: int, times: seq<int>, expired: seq<bool>): seq<int>
    requires |times| == |expired|
  {
    if times == [] then [] else
      var n := |times| - 1;
      var before := AllowedAt(delay, times[..n], expired[..n]);
      var last := if expired[n] then None else LastAllowed(before);
      if DecideCrawlDelay(last, delay, times[n]).0 then before + [times[n]] else before
  }

  /** What the script reads before call `i`. */
  function LastAllowed(allowed: seq<int>): Option<int> {
    if allowed == [] then None else Some(allowed[|allowed| - 1])
  }

  /** PEXPIRE 2 * delay, stamped only by an allowed call. */
  predicate CrawlExpiryAllowed(delay: int, times: seq<int>, expired: seq<bool>, i: int)
    requires |times| == |expired| && 0 <= i < |times|
  {
    var last := LastAllowed(AllowedAt(delay, times[..i], expired[..i]));
    last.Some? ==> times[i] - last.value >= 2 * delay
  }

  predicate CrawlExpiriesAllowed(delay: int, times: seq<int>, expired: seq<bool>)
    requires |times| == |expired|
  {
    forall i :: 0 <= i < |times| && expired[i] ==> CrawlExpiryAllowed(delay, times, expired, i)
  }

  predicate Spaced(delay: int, allowed: seq<int>) {
    forall i, j :: 0 <= i < j < |allowed| ==> allowed[j] - allowed[i] >= delay
  }

  lemma SpacedAppend(delay: int, allowed: seq<int>, t: int)
    requires delay > 0 && Spaced(delay, allowed)
    requires allowed != [] ==> t - allowed[|allowed| - 1] >= delay
    ensures Spaced(delay, allowed + [t])
  {
    forall i | 0 <= i < |allowed|
      ensures t - allowed[i] >= delay
    {
      if i < |allowed| - 1 {
        assert allowed[|allowed| - 1] - allowed[i] >= delay;
      }
    }
  }

  lemma CrawlExpiryBefore(delay: int, times: seq<int>, expired: seq<bool>)
    requires |times| == |expired| && times != []
    requires CrawlExpiriesAllowed(delay, times, expired)
    ensures CrawlExpiriesAllowed(delay, times[..|times| - 1], expired[..|times| - 1])
    ensures var n := |times| - 1;
            var last := LastAllowed(AllowedAt(delay, times[..n], expired[..n]));
            expired[n] && last.Some? ==> times[n] - last.value >= 2 * delay
  {
    var n := |times| - 1;
    forall i | 0 <= i < n && expired[..n][i]
      ensures CrawlExpiryAllowed(delay, times[..n], expired[..n], i)
    {
      assert times[..n][..i] == times[..i] && expired[..n][..i] == expired[..i];
      assert CrawlExpiryAllowed(delay, times, expired, i);
    }
  }

  /** With or without expiry a run allows the same calls, and two allowed calls are never
      closer than the delay. */
  lemma {:induction false} CrawlSpacing(delay: int, times: seq<int>, expired: seq<bool>)
    requires delay > 0 && |times| == |expired|
    requires CrawlExpiriesAllowed(delay, times, expired)
    ensures AllowedAt(delay, times, expired) == AllowedAt(delay, times, Never(|times|))
    ensures Spaced(delay, AllowedAt(delay, times, expired))
  {
    if times == [] {
    } else {
      var n := |times| - 1;
      assert Never(|times|)[..n] == Never(n);
      CrawlExpiryBefore(delay, times, expired);
      CrawlSpacing(delay, times[..n], expired[..n]);
      var before := AllowedAt(delay, times[..n], expired[..n]);
      AllowedLast(delay, times, expired);
      AllowedLast(delay, times, Never(|times|));
      assert !Never(|times|)[n];
      hide AllowedAt, Spaced, CrawlExpiriesAllowed, Never;
      if before == [] || times[n] - before[|before| - 1] >= delay {
        SpacedAppend(delay, before, times[n]);
      }
    }
  }

  lemma AllowedLast(delay: int, times: seq<int>, expired: seq<bool>)
    requires |times| == |expired| && times != []
    ensures var n := |times| - 1;
            var before := AllowedAt(delay, times[..n], expired[..n]);
            var last := if expired[n] then None else LastAllowed(before);
            AllowedAt(delay, times, expired) ==
            if DecideCrawlDelay(last, delay, times[n]).0 then before + [times[n]] else before
  {
  }

  /** A refused crawl leaves the key alone and says exactly when a retry is allowed. */
  lemma CrawlRetryIsExact(last: Option<int>, delay: int, now: int, k: nat)
    requires !DecideCrawlDelay(last, delay, now).0
    ensures DecideCrawlDelay(last, delay, now + k).0 <==> k >= DecideCrawlDelay(last, delay, now).1
  {
  }

  /** What is left of a crawl stamped at `last` under the delay `stamped`. */
  function CrawlKey(last: int, stamped: int, now: int): Option<int> {
    if now < last + 2 * stamped then Some(last) else None
  }

  /** If the configured delay changes, expiry stays invisible at every later instant
      exactly when the new delay is at most twice the one that stamped the key. */
  lemma CrawlExpiryInvisibleIff(last: int, stamped: int, delay: int)
    requires stamped > 0
    ensures (forall now :: now >= last ==>
               DecideCrawlDelay(CrawlKey(last, stamped, now), delay, now) == DecideCrawlDelay(Some(last), delay, now))
            <==> delay <= 2 * stamped
  {
    if delay > 2 * stamped {
      var now := last + 2 * stamped;
      assert DecideCrawlDelay(CrawlKey(last, stamped, now), delay, now).0;
      assert !DecideCrawlDelay(Some(last), delay, now).0;
    }
  }

  /** The calls allowed after the delay was raised (or lowered) to `delay`, when the key held
      a crawl stamped at `last` under the delay `stamped`. */
  function AllowedSince(last: int, stamped: int, delay: int, times: seq<int>): seq<int> {
    if times == [] then [] else
      var n := |times| - 1;
      var before := AllowedSince(last, stamped, delay, times[..n]);
      var key := if before == [] then CrawlKey(last, stamped, times[n]) else CrawlKey(Last(before), delay, times[n]);
      if DecideCrawlDelay(key, delay, times[n]).0 then before + [times[n]] else before
  }

  function Last(allowed: seq<int>): int
    requires allowed != []
  {
    allowed[|allowed| - 1]
  }

  /** A raised delay is broken at most once: only the first crawl after the change can come
      too early, and not before twice the old delay; all later ones keep the new one. */
  lemma {:induction false} RaisedDelayIsBrokenOnce(last: int, stamped: int, delay: int, times: seq<int>)
    requires stamped > 0 && delay > 0
    ensures var allowed := AllowedSince(last, stamped, delay, times);
            && Spaced(delay, allowed)
            && (allowed != [] ==> allowed[0] - last >= Min(delay, 2 * stamped))
  {
    if times == [] {
    } else {
      var n := |times| - 1;
      RaisedDelayIsBrokenOnce(last, stamped, delay, times[..n]);
      var before := AllowedSince(last, stamped, delay, times[..n]);
      if before != [] && times[n] - Last(before) >= delay {
        SpacedAppend(delay, before, times[n]);
      }
    }
  }

  /* ---- The Redis-backed wrappers ---- */

  const WINDOW_MS := 60000.0

  datatype Stored<T> = Stored(value: T, expiresAt: real)

  class Limiter {
    var buckets: map<string, Stored<Bucket>>
    var crawls: map<string, Stored<int>>

    constructor ()
      ensures buckets == map[] && crawls == map[]
    {
      buckets, crawls := map[], map[];
    }

    /** A domain's stored bucket, if any, is one the script wrote: not negative, and
        expiring one window after the call that wrote it. Its limit may have been another. */
    predicate Written(domain: string)
      reads this
    {
      domain in buckets ==>
        && 0.0 <= buckets[domain].value.tokens
        && buckets[domain].expiresAt == buckets[domain].value.ts + WINDOW_MS
    }

    /** RATE_LIMIT_LUA. Although the key expires, the answer and the stored bucket are
        those of the bucket as last written, however long ago and under whatever limit.
        Other domains keep theirs. */
    method CheckRateLimit(domain: string, limit: real, now: real) returns (allowed: bool, retryAfterMs: int)
      requires limit > 0.0 && Written(domain)
      requires domain in buckets ==> buckets[domain].value.ts <= now
      modifies this`buckets
      ensures Written(domain) && buckets.Keys == old(buckets.Keys) + {domain}
      ensures buckets[domain].value.ts == now && 0.0 <= buckets[domain].value.tokens <= limit
      ensures var kept := if domain in old(buckets) then Some(old(buckets)[domain].value) else None;
              Evaluate(Policy(limit, WINDOW_MS), kept, now) == Decision(allowed, retryAfterMs, buckets[domain].value)
      ensures forall d :: d in buckets && d != domain ==> buckets[d] == old(buckets)[d]
    {
      hide Refill, WaitFor, Ceil;
      var p := Policy(limit, WINDOW_MS);
      var tokens, ts := limit, now;
      if domain in buckets {
        if now < buckets[domain].expiresAt {
          tokens, ts := buckets[domain].value.tokens, buckets[domain].value.ts;
        } else {
          IdleWindowFills(p, buckets[domain].value, now);
        }
      }
      RefillNonNegative(p, now - ts);
      tokens := RealMin(limit, tokens + Refill(p, now - ts));
      if tokens < 1.0 {
        buckets := buckets[domain := Stored(Bucket(tokens, now), now + WINDOW_MS)];
        return false, Ceil(WaitFor(p, 1.0 - tokens));
      }
      tokens := tokens - 1.0;
      buckets := buckets[domain := Stored(Bucket(tokens, now), now + WINDOW_MS)];
      return true, 0;
    }

    /** What the gate reads for a domain: nothing once the key's time to live has elapsed. */
    function LastCrawl(domain: string, now: int): Option<int>
      reads this
    {
      if domain in crawls && (now as real) < crawls[domain].expiresAt then Some(crawls[domain].value) else None
    }

    /** enforceCrawlDelay with CRAWL_DELAY_LUA, whatever delay stamped the key. While the
        key's life covers the delay, the answer is that of the timestamp itself, expired or
        not; CrawlExpiryInvisibleIff says when it does. */
    method EnforceCrawlDelay(domain: string, delay: int, now: int) returns (allowed: bool, retryAfterMs: int)
      modifies this`crawls
      ensures delay <= 0 ==> allowed && crawls == old(crawls)
      ensures (allowed, retryAfterMs) == DecideCrawlDelay(old(LastCrawl(domain, now)), delay, now)
      ensures var kept := if domain in old(crawls) then Some(old(crawls)[domain].value) else None;
              (kept.Some? ==> old(crawls)[domain].expiresAt >= (kept.value + delay) as real) ==>
                (allowed, retryAfterMs) == DecideCrawlDelay(kept, delay, now)
      ensures delay > 0 ==>
                crawls ==
                if allowed then old(crawls)[domain := Stored(now, (now + 2 * delay) as real)] else old(crawls)
    {
      if delay <= 0 {
        return true, 0;
      }
      if domain !in crawls || now as real >= crawls[domain].expiresAt || now - crawls[domain].value >= delay {
        crawls := crawls[domain := Stored(now, (now + 2 * delay) as real)];
        return true, 0;
      }
      return false, delay - (now - crawls[domain].value);
    }
  }
}
