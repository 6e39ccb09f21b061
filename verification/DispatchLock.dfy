/** Racing dispatches of one URL (specter-api/scraper/scheduler.ts, dispatch-lock.ts and
    batch-set.ts): the per-URL lock, the queue's jobs and the per-job batch sets, one
    Redis or queue operation at a time.

    The domain class is fixed and unblocked, so one queue serves the URL, and no worker
    consumes a job during the run. */
module DispatchLock {
  import opened Wrappers
  import opened Seqs

  type JobId = nat

  /** `jobs` holds each queued job's own tracking ids, `batch` the ids batched onto it. */
  datatype World = World(lock: Option<JobId>, jobs: map<JobId, seq<string>>, batch: map<JobId, set<string>>,
                         nextId: nat)

  function Batched(w: World, job: JobId): set<string> {
    if job in w.batch then w.batch[job] else {}
  }

  /** The trackers a worker running `job` serves. */
  function Served(w: World, job: JobId): set<string> {
    (if job in w.jobs then ToSet(w.jobs[job]) else {}) + Batched(w, job)
  }

  /* ---- The operations ---- */

  function Add(w: World, ids: seq<string>): World {
    w.(jobs := w.jobs[w.nextId := ids], nextId := w.nextId + 1)
  }

  function Remove(w: World, job: JobId): World {
    w.(jobs := w.jobs - {job})
  }

  /** SET NX. */
  function Claim(w: World, job: JobId): World {
    if w.lock.None? then w.(lock := Some(job)) else w
  }

  /** addToBatch: SADD, skipped for an empty list. */
  function AddToBatch(w: World, job: JobId, ids: seq<string>): World {
    if ids == [] then w else w.(batch := w.batch[job := Batched(w, job) + ToSet(ids)])
  }

  /* ---- One dispatcher ---- */

  datatype Pc =
    | Start                                          // next: GET lock
    | Creating                                       // next: queue.add
    | Claiming(job: JobId)                           // next: SET NX
    | Lost(job: JobId)                               // next: GET holder
    | Discarding(job: JobId, holder: Option<JobId>)  // next: job.remove
    | Batching(onto: JobId)                          // next: SADD
    | Recreating                                     // next: queue.add, second time
    | Relocking(job: JobId)                          // next: SET
    | Returned(job: JobId, batched: bool)
  {
    /** A job of ours that we may still discard. */
    function Own(): Option<JobId> {
      match this
      case Claiming(j) => Some(j)
      case Lost(j) => Some(j)
      case Discarding(j, _) => Some(j)
      case _ => None
    }

    /** A job we rely on to carry our ids. */
    function Target(): Option<JobId> {
      match this
      case Discarding(_, h) => h
      case Batching(h) => Some(h)
      case Relocking(j) => Some(j)
      case Returned(j, _) => Some(j)
      case _ => None
    }
  }

  datatype Dispatcher = Dispatcher(ids: seq<string>, pc: Pc)

  /** The next operation of dispatchScrapeJob. */
  function Next(w: World, d: Dispatcher): (World, Pc) {
    match d.pc
    case Start => (w, if w.lock.Some? then Batching(w.lock.value) else Creating)
    case Creating => (Add(w, d.ids), Claiming(w.nextId))
    case Claiming(job) => (Claim(w, job), if w.lock.None? then Returned(job, false) else Lost(job))
    case Lost(job) => (w, Discarding(job, w.lock))
    case Discarding(job, holder) => (Remove(w, job), if holder.Some? then Batching(holder.value) else Recreating)
    case Batching(holder) => (AddToBatch(w, holder, d.ids), Returned(holder, true))
    case Recreating => (Add(w, d.ids), Relocking(w.nextId))
    case Relocking(job) => (w.(lock := Some(job)), Returned(job, false))
    case Returned(_, _) => (w, d.pc)
  }

  /* ---- Any number of dispatchers ---- */

  datatype State = State(w: World, ds: seq<Dispatcher>)

  datatype Action = Advance(i: nat) | Expire

  function Step(s: State, a: Action): State {
    match a
    case Expire => s.(w := s.w.(lock := None))
    case Advance(i) =>
      if i >= |s.ds| then s else
        var (w', pc') := Next(s.w, s.ds[i]);
        State(w', s.ds[i := s.ds[i].(pc := pc')])
  }

  function Run(s: State, acts: seq<Action>): (r: State)
    ensures |r.ds| == |s.ds|
    ensures forall i :: 0 <= i < |s.ds| ==> r.ds[i].ids == s.ds[i].ids
  {
    if acts == [] then s else Step(Run(s, acts[..|acts| - 1]), acts[|acts| - 1])
  }

  predicate CleanWorld(w: World) {
    && (w.lock.Some? ==> w.lock.value in w.jobs)
    && (forall j :: j in w.jobs ==> j < w.nextId)
    && (forall j :: j in w.batch ==> j < w.nextId)
  }

  /** Every dispatcher is about to read the lock. */
  predicate Begins(s: State) {
    CleanWorld(s.w) && forall i :: 0 <= i < |s.ds| ==> s.ds[i].pc == Start
  }

  /** What each dispatcher may count on, whatever the others and the clock do. */
  predicate Sound(w: World, d: Dispatcher) {
    && (d.pc.Own().Some? ==>
          var j := d.pc.Own().value;
          j in w.jobs && w.jobs[j] == d.ids && w.lock != Some(j) && d.pc.Target() != Some(j))
    && (d.pc.Target().Some? ==> d.pc.Target().value in w.jobs)
    && (d.pc.Relocking? ==> w.jobs[d.pc.job] == d.ids)
    && (d.pc.Returned? ==> ToSet(d.ids) <= Served(w, d.pc.job))
  }

  /** One dispatcher's discardable job is nobody else's. */
  predicate Apart(d: Dispatcher, e: Dispatcher) {
    d.pc.Own().Some? ==> e.pc.Own() != d.pc.Own() && e.pc.Target() != d.pc.Own()
  }

  ghost predicate Inv(s: State) {
    && CleanWorld(s.w)
    && (forall i :: 0 <= i < |s.ds| ==> Sound(s.w, s.ds[i]))
    && (forall i, k :: 0 <= i < |s.ds| && 0 <= k < |s.ds| && i != k ==> Apart(s.ds[i], s.ds[k]))
  }

  /** What a dispatcher with the given own and target jobs relies on: other dispatchers,
      and the lock's expiry, leave those jobs and their data alone, never lock its own
      job, and only ever add to a batch set. */
  ghost predicate Rely(w: World, w': World, own: Option<JobId>, target: Option<JobId>) {
    && CleanWorld(w') && w.nextId <= w'.nextId
    && (own.Some? && own.value in w.jobs ==>
          own.value in w'.jobs && w'.jobs[own.value] == w.jobs[own.value] && w'.lock != own)
    && (target.Some? && target.value in w.jobs ==>
          target.value in w'.jobs && w'.jobs[target.value] == w.jobs[target.value])
    && (forall j :: Batched(w, j) <= Batched(w', j))
  }

  /** A dispatcher's own operation keeps its guarantees. */
  lemma NextIsSound(w: World, d: Dispatcher)
    requires CleanWorld(w) && Sound(w, d)
    ensures var (w', pc') := Next(w, d); CleanWorld(w') && Sound(w', d.(pc := pc'))
  {
  }

  /** It is, to every other dispatcher, one of the changes they rely on. */
  lemma NextIsRelied(w: World, d: Dispatcher, e: Dispatcher)
    requires CleanWorld(w) && Sound(w, d) && Sound(w, e) && Apart(d, e) && Apart(e, d)
    ensures var (w', pc') := Next(w, d);
            && Rely(w, w', e.pc.Own(), e.pc.Target())
            && Apart(d.(pc := pc'), e) && Apart(e, d.(pc := pc'))
  {
  }

  lemma InvStep(s: State, a: Action)
    requires Inv(s)
    ensures Inv(Step(s, a))
  {
    var s' := Step(s, a);
    if a.Advance? && a.i < |s.ds| {
      NextIsSound(s.w, s.ds[a.i]);
      forall k | 0 <= k < |s.ds| && k != a.i
        ensures Sound(s'.w, s'.ds[k]) && Apart(s'.ds[a.i], s'.ds[k]) && Apart(s'.ds[k], s'.ds[a.i])
      {
        NextIsRelied(s.w, s.ds[a.i], s.ds[k]);
      }
    }
  }

  lemma {:induction false} RunInv(s: State, acts: seq<Action>)
    requires Begins(s)
    ensures Inv(Run(s, acts))
  {
    if acts == [] {
    } else {
      RunInv(s, acts[..|acts| - 1]);
      InvStep(Run(s, acts[..|acts| - 1]), acts[|acts| - 1]);
    }
  }

  /** Even if the lock expires at any moment, no tracker is dropped: the job a caller is
      told still exists and serves all the ids the caller brought. */
  lemma NoTrackerDropped(s: State, acts: seq<Action>, i: nat)
    requires Begins(s) && i < |s.ds| && Run(s, acts).ds[i].pc.Returned?
    ensures Run(s, acts).ds[i].pc.job in Run(s, acts).w.jobs
    ensures ToSet(s.ds[i].ids) <= Served(Run(s, acts).w, Run(s, acts).ds[i].pc.job)
  {
    RunInv(s, acts);
    assert Sound(Run(s, acts).w, Run(s, acts).ds[i]);
  }

  /* ---- Without expiry: one job for everyone ---- */

  predicate NoExpiry(acts: seq<Action>) {
    forall a :: a in acts ==> a.Advance?
  }

  function AllIds(ds: seq<Dispatcher>): set<string> {
    set i, x | 0 <= i < |ds| && x in ds[i].ids :: x
  }

  /** Nothing queued for the URL, or exactly the job that holds its lock. */
  predicate AtMostTheHolder(w: World) {
    w.jobs.Keys == if w.lock.Some? then {w.lock.value} else {}
  }

  /** While the lock is not lost, a job is either its holder or about to be discarded or
      claimed by its creator; nobody is told anything but the holder. */
  predicate Settling(w: World, d: Dispatcher) {
    && (d.pc.Target().Some? ==> d.pc.Target() == w.lock)
    && (d.pc.Lost? || d.pc.Discarding? ==> w.lock.Some?)
    && (d.pc.Discarding? ==> d.pc.holder.Some?)
    && !d.pc.Recreating? && !d.pc.Relocking?
    && (d.pc.Returned? ==> w.lock.Some?)
  }

  predicate Kept(s: State, j: JobId) {
    s.w.lock == Some(j) || exists i :: 0 <= i < |s.ds| && s.ds[i].pc.Own() == Some(j)
  }

  ghost predicate Accounted(s: State, seed: set<string>) {
    && (forall i :: 0 <= i < |s.ds| ==> Settling(s.w, s.ds[i]))
    && (forall j :: j in s.w.jobs ==> Kept(s, j))
    && (forall j :: j in s.w.jobs ==> Served(s.w, j) <= seed + AllIds(s.ds))
    && (s.w.lock.Some? ==> seed <= Served(s.w, s.w.lock.value))
    && (s.w.lock.None? ==> seed == {})
  }

  lemma NextSettles(w: World, d: Dispatcher, e: Dispatcher)
    requires CleanWorld(w) && Sound(w, d) && Settling(w, d) && Settling(w, e)
    ensures var (w', pc') := Next(w, d);
            && Settling(w', d.(pc := pc')) && Settling(w', e)
            && (w.lock.Some? ==> w'.lock == w.lock)
            && (w.lock.None? && w'.lock.Some? ==> d.pc.Own() == w'.lock)
  {
  }

  /** Only the dispatcher's own ids are added to what a job serves, and only its own
      discarded job disappears. */
  lemma NextServes(w: World, d: Dispatcher, j: JobId)
    requires CleanWorld(w) && Sound(w, d)
    ensures var (w', _) := Next(w, d);
            && Served(w', j) <= Served(w, j) + ToSet(d.ids)
            && (Some(j) != d.pc.Own() && j in w.jobs ==> j in w'.jobs && Served(w, j) <= Served(w', j))
            && (j in w'.jobs ==> j in w.jobs || j == w.nextId)
  {
  }

  lemma NextKeeps(s: State, i: nat, j: JobId)
    requires Inv(s) && i < |s.ds| && Settling(s.w, s.ds[i])
    requires j in Step(s, Advance(i)).w.jobs
    requires j in s.w.jobs ==> Kept(s, j)
    ensures Kept(Step(s, Advance(i)), j)
  {
    var s' := Step(s, Advance(i));
    NextServes(s.w, s.ds[i], j);
    NextSettles(s.w, s.ds[i], s.ds[i]);
    assert Sound(s.w, s.ds[i]);
    if j !in s.w.jobs {
      assert s'.ds[i].pc.Own() == Some(j);
    } else if s.w.lock != Some(j) {
      var k :| 0 <= k < |s.ds| && s.ds[k].pc.Own() == Some(j);
      if k != i {
        assert s'.ds[k].pc.Own() == Some(j);
      } else if s'.w.lock != Some(j) {
        assert s'.ds[i].pc.Own() == Some(j);
      }
    }
  }

  lemma AccountedStep(s: State, a: Action, seed: set<string>)
    requires Inv(s) && Accounted(s, seed) && a.Advance?
    ensures Accounted(Step(s, a), seed)
  {
    var s' := Step(s, a);
    if a.i < |s.ds| {
      var d := s.ds[a.i];
      assert Sound(s.w, d);
      IdsFixed(s.ds, s'.ds);
      assert ToSet(d.ids) <= AllIds(s.ds);
      forall k | 0 <= k < |s.ds|
        ensures Settling(s'.w, s'.ds[k])
      {
        NextSettles(s.w, d, s.ds[k]);
      }
      forall j | j in s'.w.jobs
        ensures Kept(s', j) && Served(s'.w, j) <= seed + AllIds(s.ds)
      {
        NextKeeps(s, a.i, j);
        NextServes(s.w, d, j);
      }
      NextSettles(s.w, d, d);
      if s.w.lock.Some? {
        NextServes(s.w, d, s.w.lock.value);
      }
    }
  }

  lemma IdsFixed(ds: seq<Dispatcher>, ds': seq<Dispatcher>)
    requires |ds| == |ds'| && forall i :: 0 <= i < |ds| ==> ds'[i].ids == ds[i].ids
    ensures AllIds(ds') == AllIds(ds)
  {
  }

  lemma {:induction false} RunAccounted(s: State, acts: seq<Action>)
    requires Begins(s) && AtMostTheHolder(s.w) && NoExpiry(acts)
    ensures Accounted(Run(s, acts), Seed(s.w))
  {
    if acts == [] {
    } else {
      assert forall a :: a in acts[..|acts| - 1] ==> a in acts;
      RunAccounted(s, acts[..|acts| - 1]);
      RunInv(s, acts[..|acts| - 1]);
      AccountedStep(Run(s, acts[..|acts| - 1]), acts[|acts| - 1], Seed(s.w));
    }
  }

  /** The ids the lock's holder already served when the race began. */
  function Seed(w: World): set<string> {
    if w.lock.Some? then Served(w, w.lock.value) else {}
  }

  /** However N dispatches of the URL interleave, once all have returned exactly one job
      is left, everyone was told that job, and it serves exactly the ids of all callers
      (and those it served before). */
  lemma OneJobForEveryone(s: State, acts: seq<Action>)
    requires Begins(s) && AtMostTheHolder(s.w) && NoExpiry(acts) && s.ds != []
    requires forall i :: 0 <= i < |s.ds| ==> Run(s, acts).ds[i].pc.Returned?
    ensures var w' := Run(s, acts).w;
            && w'.lock.Some?
            && w'.jobs.Keys == {w'.lock.value}
            && (forall i :: 0 <= i < |s.ds| ==> Run(s, acts).ds[i].pc.job == w'.lock.value)
            && Served(w', w'.lock.value) == Seed(s.w) + AllIds(s.ds)
  {
    RunInv(s, acts);
    RunAccounted(s, acts);
    var s' := Run(s, acts);
    IdsFixed(s.ds, s'.ds);
    hide Begins, AtMostTheHolder, NoExpiry, Run, Served, Seed, AllIds, Kept;
    ToldTheHolder(s', Seed(s.w));
    OnlyTheHolderIsLeft(s');
    AllAreServed(s');
  }

  /** Whoever has returned was told the holder of the lock. */
  lemma ToldTheHolder(s: State, seed: set<string>)
    requires Accounted(s, seed) && s.ds != []
    requires forall i :: 0 <= i < |s.ds| ==> s.ds[i].pc.Returned?
    ensures s.w.lock.Some? && forall i :: 0 <= i < |s.ds| ==> s.ds[i].pc.job == s.w.lock.value
  {
    forall i | 0 <= i < |s.ds|
      ensures s.w.lock == Some(s.ds[i].pc.job)
    {
      assert Settling(s.w, s.ds[i]) && s.ds[i].pc.Target() == Some(s.ds[i].pc.job);
    }
    assert s.w.lock == Some(s.ds[0].pc.job);
  }

  lemma OnlyTheHolderIsLeft(s: State)
    requires s.w.lock.Some? && CleanWorld(s.w)
    requires forall i :: 0 <= i < |s.ds| ==> s.ds[i].pc.Returned?
    requires forall j :: j in s.w.jobs ==> Kept(s, j)
    ensures s.w.jobs.Keys == {s.w.lock.value}
  {
    assert forall j :: j in s.w.jobs ==> s.w.lock == Some(j);
  }

  lemma AllAreServed(s: State)
    requires s.w.lock.Some? && Inv(s)
    requires forall i :: 0 <= i < |s.ds| ==> s.ds[i].pc.Returned? && s.ds[i].pc.job == s.w.lock.value
    ensures AllIds(s.ds) <= Served(s.w, s.w.lock.value)
  {
    forall x | x in AllIds(s.ds)
      ensures x in Served(s.w, s.w.lock.value)
    {
      var i :| 0 <= i < |s.ds| && x in s.ds[i].ids;
      assert Sound(s.w, s.ds[i]) && x in ToSet(s.ds[i].ids);
    }
  }

  /** A caller told that its own new job will do the fetch. */
  predicate Created(d: Dispatcher) {
    d.pc.Returned? && !d.pc.batched
  }

  ghost predicate OneCreator(s: State) {
    && (s.w.lock.None? ==> forall i :: 0 <= i < |s.ds| ==> !Created(s.ds[i]))
    && (s.w.lock.Some? ==> exists i :: 0 <= i < |s.ds| && Created(s.ds[i]))
    && (forall i, k :: 0 <= i < |s.ds| && 0 <= k < |s.ds| && Created(s.ds[i]) && Created(s.ds[k]) ==> i == k)
  }

  lemma OneCreatorStep(s: State, i: nat)
    requires i < |s.ds| && Settling(s.w, s.ds[i]) && OneCreator(s)
    ensures OneCreator(Step(s, Advance(i)))
  {
    var s' := Step(s, Advance(i));
    if s.w.lock.Some? {
      var k :| 0 <= k < |s.ds| && Created(s.ds[k]);
      assert Created(s'.ds[k]);
    } else if s'.w.lock.Some? {
      assert Created(s'.ds[i]);
    }
  }

  /** From a free lock, exactly one of the racing dispatches creates the fetch; all the
      others are told they were batched onto it. */
  lemma {:induction false} OneFetchPerRace(s: State, acts: seq<Action>)
    requires Begins(s) && AtMostTheHolder(s.w) && NoExpiry(acts) && s.w.lock.None?
    ensures OneCreator(Run(s, acts))
  {
    if acts == [] {
    } else {
      var before, a := acts[..|acts| - 1], acts[|acts| - 1];
      assert forall b :: b in before ==> b in acts;
      OneFetchPerRace(s, before);
      RunAccounted(s, before);
      assert a.Advance?;
      if a.i < |s.ds| {
        OneCreatorStep(Run(s, before), a.i);
      }
    }
  }

  /* ---- One call among others ---- */

  /** What the others, and the clock, make of the world before a call's next operation,
      given where the call stands. */
  type Others = (World, Pc) -> World

  /** They keep to what the call relies on, wherever it stands. */
  ghost predicate Reliable(others: Others, ids: seq<string>) {
    forall w, pc :: CleanWorld(w) && Sound(w, Dispatcher(ids, pc)) ==> Rely(w, others(w, pc), pc.Own(), pc.Target())
  }

  /** Nobody else does anything. */
  ghost predicate Alone(others: Others) {
    forall w, pc :: others(w, pc) == w
  }

  /** How many operations are left to a dispatcher, at most. */
  function Left(pc: Pc): nat {
    match pc
    case Start => 8
    case Creating => 7
    case Claiming(_) => 6
    case Lost(_) => 5
    case Discarding(_, _) => 4
    case Recreating => 3
    case Relocking(_) => 2
    case Batching(_) => 1
    case Returned(_, _) => 0
  }

  /** The rest of a call: the others act, then the call takes its next operation, until it
      returns. What is left is the world and the answer. */
  function Play(w: World, d: Dispatcher, others: Others): (World, Pc)
    decreases Left(d.pc)
  {
    if d.pc.Returned? then (w, d.pc) else
      var (w', pc') := Next(others(w, d.pc), d);
      Play(w', d.(pc := pc'), others)
  }

  lemma {:induction false} PlayIsSound(w: World, d: Dispatcher, others: Others)
    requires CleanWorld(w) && Sound(w, d) && Reliable(others, d.ids)
    ensures var (w', pc') := Play(w, d, others); CleanWorld(w') && pc'.Returned? && Sound(w', d.(pc := pc'))
    decreases Left(d.pc)
  {
    if d.pc.Returned? {
    } else {
      var v := others(w, d.pc);
      assert d == Dispatcher(d.ids, d.pc);
      RelySound(w, v, d);
      NextIsSound(v, d);
      var (w', pc') := Next(v, d);
      PlayIsSound(w', d.(pc := pc'), others);
    }
  }

  lemma RelySound(w: World, w': World, e: Dispatcher)
    requires Sound(w, e) && Rely(w, w', e.pc.Own(), e.pc.Target())
    ensures Sound(w', e)
  {
  }

  lemma PlayOn(w: World, d: Dispatcher, others: Others)
    ensures Play(w, d, others) ==
            if d.pc.Returned? then (w, d.pc) else
              var (w', pc') := Next(others(w, d.pc), d);
              Play(w', d.(pc := pc'), others)
  {
  }

  /** A call that finds the lock held, and is not disturbed, joins the holder's job: nothing
      is queued, and the holder's batch set gains exactly the caller's ids. */
  lemma HeldLockIsJoined(w: World, ids: seq<string>, others: Others)
    requires Alone(others) && w.lock.Some?
    ensures var (w', pc) := Play(w, Dispatcher(ids, Start), others);
            && pc == Returned(w.lock.value, true)
            && w'.jobs == w.jobs && w'.lock == w.lock && w'.nextId == w.nextId
            && forall j: JobId :: Batched(w', j) == Batched(w, j) + if j == w.lock.value then ToSet(ids) else {}
  {
    hide Play;
    var d, h := Dispatcher(ids, Start), w.lock.value;
    PlayOn(w, d, others);
    PlayOn(w, d.(pc := Batching(h)), others);
    PlayOn(AddToBatch(w, h, ids), d.(pc := Returned(h, true)), others);
  }

  /** One that finds it free, and is not disturbed, queues exactly one job with exactly the
      caller's ids and leaves the lock pointing at it. */
  lemma FreeLockIsTaken(w: World, ids: seq<string>, others: Others)
    requires Alone(others) && w.lock.None?
    ensures var (w', pc) := Play(w, Dispatcher(ids, Start), others);
            && pc == Returned(w.nextId, false)
            && w' == World(Some(w.nextId), w.jobs[w.nextId := ids], w.batch, w.nextId + 1)
  {
    hide Play;
    var d, job := Dispatcher(ids, Start), w.nextId;
    PlayOn(w, d, others);
    PlayOn(w, d.(pc := Creating), others);
    PlayOn(Add(w, ids), d.(pc := Claiming(job)), others);
    PlayOn(Claim(Add(w, ids), job), d.(pc := Returned(job, false)), others);
  }

  /* ---- The dispatcher itself, under interference ---- */

  datatype DomainClass = Blocked | HttpOk | JsRequired | Unknown

  datatype Result = Result(jobId: JobId, batched: bool)

  class Redis {
    var w: World
    const others: Others

    constructor (others: Others)
      ensures w == World(None, map[], map[], 0) && this.others == others
    {
      w, this.others := World(None, map[], map[], 0), others;
    }

    /** The others act while a call stands at `pc`. */
    method Interfere(pc: Pc)
      modifies this
      ensures w == others(old(w), pc)
    {
      w := others(w, pc);
    }

    method QueueAdd(ids: seq<string>) returns (job: JobId)
      modifies this
      ensures job == old(w).nextId && w == Add(old(w), ids)
    {
      job := w.nextId;
      w := w.(jobs := w.jobs[job := ids], nextId := job + 1);
    }

    method JobRemove(job: JobId)
      modifies this
      ensures w == Remove(old(w), job)
    {
      w := w.(jobs := w.jobs - {job});
    }

    method Sadd(job: JobId, ids: seq<string>)
      modifies this
      ensures w == AddToBatch(old(w), job, ids)
    {
      if |ids| == 0 {
        return;
      }
      w := w.(batch := w.batch[job := Batched(w, job) + ToSet(ids)]);
    }

    /** claimDomainLock: SET NX, then on a loss, after whatever the others do, GET the
        holder. */
    method ClaimDomainLock(job: JobId, ghost ids: seq<string>) returns (won: bool, holder: Option<JobId>)
      requires CleanWorld(w) && Sound(w, Dispatcher(ids, Claiming(job))) && Reliable(others, ids)
      modifies this
      ensures CleanWorld(w) && job in w.jobs && w.jobs[job] == old(w).jobs[job]
      ensures won <==> old(w).lock.None?
      ensures won ==> holder == Some(job) && w == Claim(old(w), job)
      ensures !won ==> w == others(old(w), Lost(job)) && holder == w.lock
      ensures !won ==> holder != Some(job) && (holder.Some? ==> holder.value in w.jobs)
      ensures !won ==> Sound(w, Dispatcher(ids, Discarding(job, holder)))
    {
      won := w.lock.None?;
      w := Claim(w, job);
      if won {
        return true, Some(job);
      }
      ghost var d := Dispatcher(ids, Lost(job));
      assert Sound(w, d);
      RelySound(w, others(w, Lost(job)), d);
      Interfere(Lost(job));
      holder := w.lock;
    }

    /** dispatchScrapeJob. Whatever happens between its operations, its own are exactly those
        of the machine's dispatcher, from Start to the answer it returns; so the job it
        returns exists and serves the caller's ids. Undisturbed, it joins the holder of the
        lock, or else queues one job and takes the lock. A blocked domain creates nothing. */
    method DispatchScrapeJob(ids: seq<string>, domainClass: DomainClass) returns (r: Option<Result>)
      requires CleanWorld(w) && Reliable(others, ids)
      modifies this
      ensures r.None? <==> domainClass.Blocked?
      ensures r.None? ==> w == old(w)
      ensures r.Some? ==>
                Play(old(w), Dispatcher(ids, Start), others) == (w, Returned(r.value.jobId, r.value.batched))
      ensures r.Some? ==> CleanWorld(w) && r.value.jobId in w.jobs && ToSet(ids) <= Served(w, r.value.jobId)
      ensures r.Some? && Alone(others) && old(w).lock.Some? ==>
                && r.value == Result(old(w).lock.value, true)
                && w.jobs == old(w).jobs && w.lock == old(w).lock && w.nextId == old(w).nextId
                && forall j: JobId ::
                     Batched(w, j) == Batched(old(w), j) + if Some(j) == old(w).lock then ToSet(ids) else {}
      ensures r.Some? && Alone(others) && old(w).lock.None? ==>
                && r.value == Result(old(w).nextId, false)
                && w.lock == Some(old(w).nextId) && w.jobs == old(w).jobs[old(w).nextId := ids]
                && w.batch == old(w).batch
    {
      if domainClass.Blocked? {
        return None;
      }
      Consequences(w, ids);
      r := Dispatch(ids);
    }

    /** The call past its blocked test. */
    method Dispatch(ids: seq<string>) returns (r: Option<Result>)
      requires CleanWorld(w) && Reliable(others, ids)
      modifies this
      ensures r.Some?
      ensures Play(old(w), Dispatcher(ids, Start), others) == (w, Returned(r.value.jobId, r.value.batched))
    {
      hide Play, Sound, CleanWorld, Reliable, Add, AddToBatch, Remove;
      ghost var d := Dispatcher(ids, Start);
      assert Sound(w, d) by {
        StartIsSound(w, ids);
      }
      Gap(w, d);
      Interfere(Start);
      var existing := w.lock;
      if existing.Some? {
        Gap(w, d.(pc := Batching(existing.value)));
        Interfere(Batching(existing.value));
        Sadd(existing.value, ids);
        PlayOn(w, d.(pc := Returned(existing.value, true)), others);
        return Some(Result(existing.value, true));
      }
      Gap(w, d.(pc := Creating));
      Interfere(Creating);
      var newJob := QueueAdd(ids);
      Gap(w, d.(pc := Claiming(newJob)));
      Interfere(Claiming(newJob));
      ghost var claiming := w;
      var won, holder := ClaimDomainLock(newJob, ids);
      if won {
        PlayOn(w, d.(pc := Returned(newJob, false)), others);
        return Some(Result(newJob, false));
      }
      Gap(claiming, d.(pc := Lost(newJob)));
      Gap(w, d.(pc := Discarding(newJob, holder)));
      Interfere(Discarding(newJob, holder));
      JobRemove(newJob);
      if holder.Some? {
        Gap(w, d.(pc := Batching(holder.value)));
        Interfere(Batching(holder.value));
        Sadd(holder.value, ids);
        PlayOn(w, d.(pc := Returned(holder.value, true)), others);
        return Some(Result(holder.value, true));
      }
      Gap(w, d.(pc := Recreating));
      Interfere(Recreating);
      var retryJob := QueueAdd(ids);
      Gap(w, d.(pc := Relocking(retryJob)));
      Interfere(Relocking(retryJob));
      w := w.(lock := Some(retryJob));
      PlayOn(w, d.(pc := Returned(retryJob, false)), others);
      return Some(Result(retryJob, false));
    }

    lemma StartIsSound(v: World, ids: seq<string>)
      ensures Sound(v, Dispatcher(ids, Start))
    {
    }

    /** Before each operation the others act, within what the call relies on. */
    lemma Gap(v: World, d: Dispatcher)
      requires CleanWorld(v) && Sound(v, d) && Reliable(others, d.ids) && !d.pc.Returned?
      ensures CleanWorld(others(v, d.pc)) && Sound(others(v, d.pc), d)
      ensures var (w', pc') := Next(others(v, d.pc), d);
              && CleanWorld(w') && Sound(w', d.(pc := pc'))
              && Play(v, d, others) == Play(w', d.(pc := pc'), others)
    {
      assert d == Dispatcher(d.ids, d.pc);
      RelySound(v, others(v, d.pc), d);
      NextIsSound(others(v, d.pc), d);
    }

    lemma Consequences(v: World, ids: seq<string>)
      requires CleanWorld(v) && Reliable(others, ids)
      ensures var (w', pc) := Play(v, Dispatcher(ids, Start), others);
              && CleanWorld(w') && pc.Returned? && Sound(w', Dispatcher(ids, pc))
      ensures Alone(others) && v.lock.Some? ==>
                var (w', pc) := Play(v, Dispatcher(ids, Start), others);
                && pc == Returned(v.lock.value, true)
                && w'.jobs == v.jobs && w'.lock == v.lock && w'.nextId == v.nextId
                && forall j: JobId :: Batched(w', j) == Batched(v, j) + if j == v.lock.value then ToSet(ids) else {}
      ensures Alone(others) && v.lock.None? ==>
                Play(v, Dispatcher(ids, Start), others)
                == (World(Some(v.nextId), v.jobs[v.nextId := ids], v.batch, v.nextId + 1), Returned(v.nextId, false))
    {
      PlayIsSound(v, Dispatcher(ids, Start), others);
      if Alone(others) {
        if v.lock.Some? {
          HeldLockIsJoined(v, ids, others);
        } else {
          FreeLockIsTaken(v, ids, others);
        }
      }
    }
  }

  /* ---- What the worker reads back ---- */

  /** unionBatchedTrackingIds, given the members Redis returns. */
  function UnionBatched(base: seq<string>, extra: seq<string>): seq<string> {
    if extra == [] then base else Dedupe(base + extra)
  }

  /** The worker serves exactly the trackers of its job and its batch set, its own first
      and, if any were batched, each once. */
  lemma WorkerServesTheUnion(w: World, job: JobId, extra: seq<string>)
    requires job in w.jobs && ToSet(extra) == Batched(w, job)
    ensures ToSet(UnionBatched(w.jobs[job], extra)) == Served(w, job)
    ensures extra != [] ==> Dedupe(w.jobs[job]) <= UnionBatched(w.jobs[job], extra)
  {
    var base := w.jobs[job];
    DedupeKeepsMembers(base + extra);
    DedupeKeepsOrder(base, extra);
    assert ToSet(base + extra) == ToSet(base) + ToSet(extra);
  }
}
