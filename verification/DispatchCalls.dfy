/** Calls of dispatchScrapeJob and the machine of racing dispatchers
    (specter-api/scraper/scheduler.ts): a call among others is a run of that machine, so what
    is proved of its runs holds of the calls. */
module DispatchCalls {
  import opened Wrappers
  import opened Seqs
  import opened DispatchLock

  /** Steps of the other dispatchers, and of the clock. */
  predicate OthersOnly(acts: seq<Action>, i: nat) {
    forall a :: a in acts ==> a.Expire? || a.i != i
  }

  lemma {:induction false} RunAppend(s: State, a: seq<Action>, b: seq<Action>)
    ensures Run(s, a + b) == Run(Run(s, a), b)
  {
    if b == [] {
      assert a + b == a;
    } else {
      RunAppend(s, a, b[..|b| - 1]);
      assert (a + b)[..|a + b| - 1] == a + b[..|b| - 1];
    }
  }

  /** They leave dispatcher `i` where it is. */
  lemma {:induction false} OthersLeaveIt(s: State, acts: seq<Action>, i: nat)
    requires i < |s.ds| && OthersOnly(acts, i)
    ensures Run(s, acts).ds[i] == s.ds[i]
  {
    if acts == [] {
    } else {
      assert forall a :: a in acts[..|acts| - 1] ==> a in acts;
      OthersLeaveIt(s, acts[..|acts| - 1], i);
      assert acts[|acts| - 1] in acts;
    }
  }

  /** ... and to it they are what it relies on. */
  lemma {:induction false} OthersAreRelied(s: State, acts: seq<Action>, i: nat)
    requires Inv(s) && i < |s.ds| && OthersOnly(acts, i)
    ensures Inv(Run(s, acts)) && Rely(s.w, Run(s, acts).w, s.ds[i].pc.Own(), s.ds[i].pc.Target())
  {
    if acts == [] {
      assert Sound(s.w, s.ds[i]);
    } else {
      var before, a := acts[..|acts| - 1], acts[|acts| - 1];
      assert forall b :: b in before ==> b in acts;
      assert a in acts;
      OthersAreRelied(s, before, i);
      OthersLeaveIt(s, before, i);
      var t := Run(s, before);
      InvStep(t, a);
      if a.Advance? && a.i < |t.ds| {
        assert Sound(t.w, t.ds[a.i]) && Sound(t.w, t.ds[i]);
        assert Apart(t.ds[a.i], t.ds[i]) && Apart(t.ds[i], t.ds[a.i]);
        NextIsRelied(t.w, t.ds[a.i], t.ds[i]);
        RelyTwice(s.w, t.w, Step(t, a).w, s.ds[i].pc.Own(), s.ds[i].pc.Target());
      }
    }
  }

  lemma RelyTwice(a: World, b: World, c: World, own: Option<JobId>, target: Option<JobId>)
    requires Rely(a, b, own, target) && Rely(b, c, own, target)
    ensures Rely(a, c, own, target)
  {
  }

  /** The steps of dispatcher `i`, each after a gap filled by the others. */
  function Interleaved(i: nat, gaps: seq<seq<Action>>): seq<Action> {
    if gaps == [] then [] else gaps[0] + [Advance(i)] + Interleaved(i, gaps[1..])
  }

  /** In each gap `others` is what the machine's other dispatchers make of the world, until
      dispatcher `i` has returned. */
  ghost predicate Realises(s: State, i: nat, gaps: seq<seq<Action>>, others: Others)
    requires i < |s.ds|
    decreases |gaps|
  {
    if gaps == [] then s.ds[i].pc.Returned? else
      && !s.ds[i].pc.Returned? && OthersOnly(gaps[0], i)
      && others(s.w, s.ds[i].pc) == Run(s, gaps[0]).w
      && Realises(Step(Run(s, gaps[0]), Advance(i)), i, gaps[1..], others)
  }

  /** A call whose interference comes from the machine's other dispatchers is that machine's
      run: it leaves the same world and gives the same answer. */
  lemma {:induction false} CallIsARun(s: State, i: nat, gaps: seq<seq<Action>>, others: Others)
    requires i < |s.ds| && Realises(s, i, gaps, others)
    ensures var t := Run(s, Interleaved(i, gaps));
            (t.w, t.ds[i].pc) == Play(s.w, s.ds[i], others)
    decreases |gaps|
  {
    if gaps == [] {
    } else {
      var gap := Run(s, gaps[0]);
      var next := Step(gap, Advance(i));
      OthersLeaveIt(s, gaps[0], i);
      CallIsARun(next, i, gaps[1..], others);
      RunAppend(s, gaps[0], [Advance(i)]);
      RunAppend(s, gaps[0] + [Advance(i)], Interleaved(i, gaps[1..]));
      assert [Advance(i)][..0] == [];
    }
  }

  lemma {:induction false} ReturnedStays(s: State, acts: seq<Action>, i: nat)
    requires i < |s.ds| && s.ds[i].pc.Returned?
    ensures Run(s, acts).ds[i].pc == s.ds[i].pc
  {
    if acts == [] {
    } else {
      ReturnedStays(s, acts[..|acts| - 1], i);
    }
  }

  /** So a call that races others, the lock not expiring meanwhile, answers with the one job
      that is left when all have returned, and that job serves the ids of every caller. */
  lemma CallJoinsTheRace(s: State, i: nat, gaps: seq<seq<Action>>, others: Others, rest: seq<Action>)
    requires i < |s.ds| && Realises(s, i, gaps, others)
    requires Begins(s) && AtMostTheHolder(s.w) && NoExpiry(Interleaved(i, gaps) + rest)
    requires forall k :: 0 <= k < |s.ds| ==> Run(s, Interleaved(i, gaps) + rest).ds[k].pc.Returned?
    ensures var (_, pc) := Play(s.w, Dispatcher(s.ds[i].ids, Start), others);
            var w' := Run(s, Interleaved(i, gaps) + rest).w;
            && pc.Returned? && w'.jobs.Keys == {pc.job}
            && Served(w', pc.job) == Seed(s.w) + AllIds(s.ds)
  {
    var acts := Interleaved(i, gaps);
    CallIsARun(s, i, gaps, others);
    OneJobForEveryone(s, acts + rest);
    RunAppend(s, acts, rest);
    assert s.ds[i] == Dispatcher(s.ds[i].ids, Start);
    Finishes(s, i, gaps, others);
    ReturnedStays(Run(s, acts), rest, i);
  }

  lemma {:induction false} Finishes(s: State, i: nat, gaps: seq<seq<Action>>, others: Others)
    requires i < |s.ds| && Realises(s, i, gaps, others)
    ensures Play(s.w, s.ds[i], others).1.Returned?
    decreases |gaps|
  {
    if gaps == [] {
    } else {
      OthersLeaveIt(s, gaps[0], i);
      Finishes(Step(Run(s, gaps[0]), Advance(i)), i, gaps[1..], others);
    }
  }
}
