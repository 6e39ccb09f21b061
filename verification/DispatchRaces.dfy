/** How many fetches do racing dispatches of one URL create if its lock expires among them
    (specter-api/scraper/dispatch-lock.ts, specter-api/scraper/scheduler.ts)? A dispatch that
    lost the claim and then finds no holder enqueues again and sets the lock outright. */
module DispatchRaces {
  import opened Wrappers
  import opened DispatchLock

  /** The fetches created: the callers told that their own job will run. */
  function Fetches(ds: seq<Dispatcher>): nat {
    if ds == [] then 0 else Fetches(ds[..|ds| - 1]) + if Created(ds[|ds| - 1]) then 1 else 0
  }

  function Expiries(acts: seq<Action>): nat {
    if acts == [] then 0 else Expiries(acts[..|acts| - 1]) + if acts[|acts| - 1].Expire? then 1 else 0
  }

  lemma {:induction false} FetchesUpdate(ds: seq<Dispatcher>, i: nat, d: Dispatcher)
    requires i < |ds|
    ensures Fetches(ds[i := d]) + (if Created(ds[i]) then 1 else 0) == Fetches(ds) + if Created(d) then 1 else 0
  {
    var n := |ds| - 1;
    if i == n {
      assert ds[i := d][..n] == ds[..n];
    } else {
      FetchesUpdate(ds[..n], i, d);
      assert ds[i := d][..n] == ds[..n][i := d];
    }
  }

  /** All but dispatcher `i` created a fetch or not as they had before. */
  lemma {:induction false} FetchesAtMostOneMore(ds: seq<Dispatcher>, ds': seq<Dispatcher>, i: nat)
    requires |ds| == |ds'| && forall k :: 0 <= k < |ds| && k != i ==> Created(ds'[k]) == Created(ds[k])
    ensures Fetches(ds') <= Fetches(ds) + 1
    ensures i >= |ds| ==> Fetches(ds') == Fetches(ds)
  {
    if ds == [] {
    } else {
      FetchesAtMostOneMore(ds[..|ds| - 1], ds'[..|ds| - 1], i);
    }
  }

  lemma {:induction false} AllFetch(ds: seq<Dispatcher>)
    ensures Fetches(ds) <= |ds|
    ensures (forall i :: 0 <= i < |ds| ==> Created(ds[i])) ==> Fetches(ds) == |ds|
  {
    if ds == [] {
    } else {
      AllFetch(ds[..|ds| - 1]);
    }
  }

  /* ---- While the lock is not lost ---- */

  /** Past its claim, a dispatch that may fetch again whoever takes the lock meanwhile. */
  predicate Blind(d: Dispatcher) {
    d.pc.Lost? || (d.pc.Discarding? && d.pc.holder.None?) || d.pc.Recreating? || d.pc.Relocking?
  }

  /** A dispatch that may still win the claim. */
  predicate MayClaim(d: Dispatcher) {
    d.pc.Start? || d.pc.Creating? || d.pc.Claiming?
  }

  /** One dispatch is past its claim while another may still fetch. */
  predicate Contended(ds: seq<Dispatcher>) {
    exists i, k :: 0 <= i < |ds| && 0 <= k < |ds| && i != k && Blind(ds[i]) && (Blind(ds[k]) || MayClaim(ds[k]))
  }

  /** Nobody is past the claim until the lock is taken, and nobody finds it gone then. */
  predicate Orderly(s: State, fetches: nat) {
    && (forall i :: 0 <= i < |s.ds| && Blind(s.ds[i]) ==> s.w.lock.Some? && s.ds[i].pc.Lost?)
    && Fetches(s.ds) == fetches + if s.w.lock.Some? then 1 else 0
  }

  lemma OrderlyStep(s: State, a: Action, fetches: nat)
    requires Orderly(s, fetches) && a.Advance?
    ensures Orderly(Step(s, a), fetches)
  {
    if a.i < |s.ds| {
      FetchesUpdate(s.ds, a.i, Step(s, a).ds[a.i]);
    }
  }

  lemma {:induction false} OrderlyRun(s: State, acts: seq<Action>, fetches: nat)
    requires Orderly(s, fetches) && NoExpiry(acts)
    ensures Orderly(Run(s, acts), fetches)
  {
    if acts == [] {
    } else {
      assert forall a :: a in acts[..|acts| - 1] ==> a in acts;
      OrderlyRun(s, acts[..|acts| - 1], fetches);
      OrderlyStep(Run(s, acts[..|acts| - 1]), acts[|acts| - 1], fetches);
    }
  }

  /** Only dispatcher `i` may create a fetch any more. */
  predicate OnlyMayFetch(s: State, i: nat) {
    forall k :: 0 <= k < |s.ds| && k != i ==> !Blind(s.ds[k]) && !MayClaim(s.ds[k])
  }

  lemma {:induction false} OnlyRun(s: State, acts: seq<Action>, i: nat)
    requires OnlyMayFetch(s, i) && NoExpiry(acts)
    ensures OnlyMayFetch(Run(s, acts), i)
    ensures forall k :: 0 <= k < |s.ds| && k != i ==> Created(Run(s, acts).ds[k]) == Created(s.ds[k])
  {
    if acts == [] {
    } else {
      assert forall a :: a in acts[..|acts| - 1] ==> a in acts;
      OnlyRun(s, acts[..|acts| - 1], i);
    }
  }

  /* ---- Reaching a state ---- */

  /** Some run with that many expiries leads from `s` to `t`. */
  ghost predicate Reaches(s: State, t: State, expiries: nat) {
    exists acts :: Expiries(acts) == expiries && Run(s, acts) == t
  }

  lemma ReachesItself(s: State)
    ensures Reaches(s, s, 0)
  {
    assert Run(s, []) == s && Expiries([]) == 0;
  }

  lemma ReachesStep(s: State, t: State, expiries: nat, a: Action)
    requires Reaches(s, t, expiries)
    ensures Reaches(s, Step(t, a), expiries + if a.Expire? then 1 else 0)
  {
    var acts :| Expiries(acts) == expiries && Run(s, acts) == t;
    assert (acts + [a])[..|acts|] == acts;
    assert Run(s, acts + [a]) == Step(t, a) && Expiries(acts + [a]) == expiries + if a.Expire? then 1 else 0;
  }

  lemma {:induction false} NoneExpire(acts: seq<Action>)
    ensures Expiries(acts) == 0 <==> NoExpiry(acts)
  {
    if acts == [] {
    } else {
      var before, last := acts[..|acts| - 1], acts[|acts| - 1];
      NoneExpire(before);
      assert acts == before + [last];
      assert forall a :: a in acts <==> a in before || a == last;
    }
  }

  /** `t` and `u` differ in dispatcher `i` at most. */
  predicate OnlyChanged(t: State, u: State, i: nat) {
    |t.ds| == |u.ds| && forall k :: 0 <= k < |t.ds| && k != i ==> u.ds[k] == t.ds[k]
  }

  predicate BoundToFetch(d: Dispatcher) {
    d.pc.Recreating? || d.pc.Relocking?
  }

  /** Finding no holder, a dispatch past its claim becomes bound to fetch. */
  lemma BecomesBound(s: State, t: State, e: nat, i: nat) returns (u: State)
    requires Reaches(s, t, e) && i < |t.ds| && t.w.lock.None? && Blind(t.ds[i])
    ensures Reaches(s, u, e) && OnlyChanged(t, u, i) && u.w.lock.None?
    ensures BoundToFetch(u.ds[i]) && Fetches(u.ds) == Fetches(t.ds)
    decreases if t.ds[i].pc.Lost? then 2 else if t.ds[i].pc.Discarding? then 1 else 0
  {
    u := t;
    if !BoundToFetch(t.ds[i]) {
      var t' := Step(t, Advance(i));
      ReachesStep(s, t, e, Advance(i));
      FetchesUpdate(t.ds, i, t'.ds[i]);
      u := BecomesBound(s, t', e, i);
    }
  }

  /** ... and fetches, whoever holds the lock by then. */
  lemma Refetches(s: State, t: State, e: nat, i: nat) returns (u: State)
    requires Reaches(s, t, e) && i < |t.ds| && BoundToFetch(t.ds[i])
    ensures Reaches(s, u, e) && OnlyChanged(t, u, i)
    ensures Created(u.ds[i]) && Fetches(u.ds) == Fetches(t.ds) + 1
    decreases if t.ds[i].pc.Recreating? then 1 else 0
  {
    u := Step(t, Advance(i));
    ReachesStep(s, t, e, Advance(i));
    FetchesUpdate(t.ds, i, u.ds[i]);
    if t.ds[i].pc.Recreating? {
      u := Refetches(s, u, e, i);
    }
  }

  lemma Claims(s: State, t: State, e: nat, i: nat) returns (u: State)
    requires Reaches(s, t, e) && i < |t.ds| && t.w.lock.None? && MayClaim(t.ds[i])
    ensures Reaches(s, u, e) && OnlyChanged(t, u, i)
    ensures u.w.lock.Some? && Created(u.ds[i]) && Fetches(u.ds) == Fetches(t.ds) + 1
    decreases if t.ds[i].pc.Start? then 2 else if t.ds[i].pc.Creating? then 1 else 0
  {
    u := Step(t, Advance(i));
    ReachesStep(s, t, e, Advance(i));
    FetchesUpdate(t.ds, i, u.ds[i]);
    if !t.ds[i].pc.Claiming? {
      u := Claims(s, u, e, i);
    }
  }

  /* ---- One fetch more, exactly when ---- */

  /** Until the lock expires again, at most one more fetch is created. */
  ghost predicate AtMostOneMore(s: State) {
    forall t :: Reaches(s, t, 0) ==> Fetches(t.ds) <= Fetches(s.ds) + 1
  }

  lemma UncontendedFetchesOnce(s: State, t: State)
    requires s.w.lock.None? && !Contended(s.ds) && Reaches(s, t, 0)
    ensures Fetches(t.ds) <= Fetches(s.ds) + 1
  {
    var acts :| Expiries(acts) == 0 && Run(s, acts) == t;
    NoneExpire(acts);
    if i: nat :| i < |s.ds| && Blind(s.ds[i]) {
      assert OnlyMayFetch(s, i);
      OnlyRun(s, acts, i);
      FetchesAtMostOneMore(s.ds, t.ds, i);
    } else {
      OrderlyRun(s, acts, Fetches(s.ds));
    }
  }

  lemma ContendedFetchesTwice(s: State, i: nat, k: nat) returns (t: State)
    requires s.w.lock.None? && i < |s.ds| && k < |s.ds| && i != k
    requires Blind(s.ds[i]) && (Blind(s.ds[k]) || MayClaim(s.ds[k]))
    ensures Reaches(s, t, 0) && Fetches(t.ds) == Fetches(s.ds) + 2
  {
    ReachesItself(s);
    t := BecomesBound(s, s, 0, i);
    if Blind(s.ds[k]) {
      t := BecomesBound(s, t, 0, k);
      t := Refetches(s, t, 0, k);
    } else {
      t := Claims(s, t, 0, k);
    }
    t := Refetches(s, t, 0, i);
  }

  /** The lock has lapsed. Until it lapses again at most one more fetch is created, however
      the dispatches go on, exactly if it did not lapse under a dispatch that was past its
      claim while another could still fetch. */
  lemma OneMoreFetchIff(s: State)
    requires s.w.lock.None?
    ensures AtMostOneMore(s) <==> !Contended(s.ds)
  {
    if Contended(s.ds) {
      var i, k :| 0 <= i < |s.ds| && 0 <= k < |s.ds| && i != k && Blind(s.ds[i])
        && (Blind(s.ds[k]) || MayClaim(s.ds[k]));
      var t := ContendedFetchesTwice(s, i, k);
      assert Fetches(t.ds) > Fetches(s.ds) + 1;
    } else {
      forall t | Reaches(s, t, 0)
        ensures Fetches(t.ds) <= Fetches(s.ds) + 1
      {
        UncontendedFetchesOnce(s, t);
      }
    }
  }

  /* ---- One expiry can cost a fetch for every dispatch ---- */

  lemma {:induction false} AllReadyToClaim(s: State, n: nat) returns (t: State)
    requires Begins(s) && s.w.lock.None? && n <= |s.ds|
    ensures Reaches(s, t, 0) && |t.ds| == |s.ds| && t.w.lock.None?
    ensures forall i :: 0 <= i < |s.ds| ==> if i < n then t.ds[i].pc.Claiming? else t.ds[i].pc.Start?
  {
    if n == 0 {
      ReachesItself(s);
      t := s;
    } else {
      t := AllReadyToClaim(s, n - 1);
      ReachesStep(s, t, 0, Advance(n - 1));
      t := Step(t, Advance(n - 1));
      ReachesStep(s, t, 0, Advance(n - 1));
      t := Step(t, Advance(n - 1));
    }
  }

  lemma {:induction false} AllButOneLose(s: State, n: nat) returns (t: State)
    requires Begins(s) && s.w.lock.None? && 1 <= n <= |s.ds|
    ensures Reaches(s, t, 0) && |t.ds| == |s.ds| && t.w.lock.Some? && Created(t.ds[0])
    ensures forall i :: 1 <= i < |s.ds| ==> if i < n then t.ds[i].pc.Lost? else t.ds[i].pc.Claiming?
  {
    if n == 1 {
      t := AllReadyToClaim(s, |s.ds|);
    } else {
      t := AllButOneLose(s, n - 1);
    }
    ReachesStep(s, t, 0, Advance(n - 1));
    t := Step(t, Advance(n - 1));
  }

  lemma {:induction false} AllLosersBound(s: State, n: nat) returns (t: State)
    requires Begins(s) && s.w.lock.None? && 1 <= n <= |s.ds|
    ensures Reaches(s, t, 1) && |t.ds| == |s.ds| && t.w.lock.None? && Created(t.ds[0])
    ensures forall i :: 1 <= i < |s.ds| ==> if i < n then BoundToFetch(t.ds[i]) else t.ds[i].pc.Lost?
  {
    if n == 1 {
      t := AllButOneLose(s, |s.ds|);
      ReachesStep(s, t, 0, Expire);
      t := Step(t, Expire);
    } else {
      t := AllLosersBound(s, n - 1);
      t := BecomesBound(s, t, 1, n - 1);
    }
  }

  lemma {:induction false} AllRefetch(s: State, n: nat) returns (t: State)
    requires Begins(s) && s.w.lock.None? && 1 <= n <= |s.ds|
    ensures Reaches(s, t, 1) && |t.ds| == |s.ds|
    ensures forall i :: 0 <= i < |s.ds| ==> if i < n then Created(t.ds[i]) else BoundToFetch(t.ds[i])
  {
    if n == 1 {
      t := AllLosersBound(s, |s.ds|);
    } else {
      t := AllRefetch(s, n - 1);
      t := Refetches(s, t, 1, n - 1);
    }
  }

  /** However the race goes, with so many expiries at most one fetch is created. */
  ghost predicate OneFetch(s: State, expiries: nat) {
    forall t :: Reaches(s, t, expiries) ==> Fetches(t.ds) <= 1
  }

  lemma {:induction false} MoreExpiries(s: State, t: State, expiries: nat) returns (u: State)
    requires Reaches(s, t, 1) && expiries >= 1
    ensures Reaches(s, u, expiries) && u.ds == t.ds
  {
    if expiries == 1 {
      u := t;
    } else {
      u := MoreExpiries(s, t, expiries - 1);
      ReachesStep(s, u, expiries - 1, Expire);
      u := Step(u, Expire);
    }
  }

  lemma BeginsOrderly(s: State)
    requires Begins(s) && s.w.lock.None?
    ensures Orderly(s, 0)
  {
    FetchesAtMostOneMore(s.ds, seq(|s.ds|, _ => Dispatcher([], Start)), |s.ds|);
    NoFetches(|s.ds|);
  }

  lemma {:induction false} NoFetches(n: nat)
    ensures Fetches(seq(n, _ => Dispatcher([], Start))) == 0
  {
    if n == 0 {
    } else {
      NoFetches(n - 1);
      assert seq(n, _ => Dispatcher([], Start))[..n - 1] == seq(n - 1, _ => Dispatcher([], Start));
    }
  }

  /** Racing from a free lock, at most one fetch is created exactly if the lock does not
      expire during the race or only one dispatch runs: a single expiry can make every
      loser of the claim create a fetch of its own. */
  lemma OneFetchIff(s: State, expiries: nat)
    requires Begins(s) && s.w.lock.None?
    ensures OneFetch(s, expiries) <==> expiries == 0 || |s.ds| <= 1
    ensures expiries > 0 && s.ds != [] ==> exists t :: Reaches(s, t, expiries) && Fetches(t.ds) == |s.ds|
  {
    if expiries == 0 {
      forall t | Reaches(s, t, 0)
        ensures Fetches(t.ds) <= 1
      {
        var acts :| Expiries(acts) == 0 && Run(s, acts) == t;
        NoneExpire(acts);
        BeginsOrderly(s);
        OrderlyRun(s, acts, 0);
      }
    } else {
      forall t | Reaches(s, t, expiries)
        ensures Fetches(t.ds) <= |s.ds|
      {
        AllFetch(t.ds);
      }
      if s.ds != [] {
        var t := AllRefetch(s, |s.ds|);
        t := MoreExpiries(s, t, expiries);
        AllFetch(t.ds);
      }
    }
  }
}
