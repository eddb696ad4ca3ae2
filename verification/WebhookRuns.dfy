/** The webhook queue shared by any number of workers, over whole runs: jobs are
    enqueued, hooks come and go, workers claim, post and settle, and may crash. */
module WebhookRuns {
  import opened Wrappers
  import opened WebhookQueue

  datatype Worker = Free | Holding(job: Job) | Posted(job: Job)

  /** One delivery: when its request was sent, what it met (once its worker knew),
      when it was recorded as failed for a retry (if it was), and the delay
      scheduled then. */
  datatype Attempt = Attempt(sentAt: int, met: Option<Outcome>, failedAt: Option<int>, delay: nat)

  /** log, refused and lost are observations: every request sent for a job, the
      jobs for which some request could not be built, and the jobs that no worker
      holds any more although they are marked running. */
  datatype World = World(q: Queue, now: int, workers: map<int, Worker>, log: map<int, seq<Attempt>>, refused: set<int>, lost: set<int>)

  function WorkerOf(w: World, k: int): Worker { if k in w.workers then w.workers[k] else Free }
  function LogOf(w: World, id: int): seq<Attempt> { if id in w.log then w.log[id] else [] }

  datatype Action =
    | Pass(seconds: nat)
    | AddHook(hook: int, value: Hook)
    | DropHook(hook: int)
    | EnqueueJob(hook: int, payload: string)
    | Claim(k: int, id: int)
    | Post(k: int)
    | Settle(k: int, o: Outcome)
    | CrashWorker(k: int)

  const START := World(Queue(map[], 0, map[]), 0, map[], map[], {}, {})

  // The log after a settlement: the last delivery is stamped with what it met,
  // and with its retry if there is one.
  function Stamp(log: seq<Attempt>, o: Outcome, now: int, retried: bool, attempts: nat): seq<Attempt> {
    if log == [] then log
    else
      var a := log[|log| - 1].(met := Some(o));
      log[|log| - 1 := if retried then a.(failedAt := Some(now), delay := Pow5(attempts)) else a]
  }

  predicate Retries(j: Job, o: Outcome) {
    !o.Unsendable? && !Delivered(o) && j.attempts + 1 < MAX_ATTEMPTS
  }

  ghost predicate Next(w: World, w': World, act: Action) {
    match act
    case Pass(s) => w' == w.(now := w.now + s)
    case AddHook(h, v) => w' == w.(q := w.q.(hooks := w.q.hooks[h := v]))
    case DropHook(h) => w' == w.(q := w.q.(hooks := w.q.hooks - {h}))
    case EnqueueJob(h, p) => w' == w.(q := Enqueued(w.q, h, p, w.now))
    case Claim(k, id) => WorkerOf(w, k).Free? && Due(w.q, id, w.now) &&
      (if w.q.jobs[id].hook in w.q.hooks then
         w' == w.(q := Claimed(w.q, id), workers := w.workers[k := Holding(Claimed(w.q, id).jobs[id])])
       else w' == w.(q := Claimed(w.q, id), lost := w.lost + {id}))
    case Post(k) => WorkerOf(w, k).Holding? &&
      var j := WorkerOf(w, k).job;
      w' == w.(workers := w.workers[k := Posted(j)], log := w.log[j.id := LogOf(w, j.id) + [Attempt(w.now, None, None, 0)]])
    case Settle(k, o) => !WorkerOf(w, k).Free? && (WorkerOf(w, k).Holding? <==> o.Unsendable?) &&
      var j := WorkerOf(w, k).job;
      j.id in w.q.jobs && j.attempts >= 0 &&
      w' == (if o.Unsendable? then
               w.(q := Settled(w.q, j, o, w.now), workers := w.workers[k := Free], refused := w.refused + {j.id})
             else
               w.(q := Settled(w.q, j, o, w.now), workers := w.workers[k := Free],
                  log := w.log[j.id := Stamp(LogOf(w, j.id), o, w.now, Retries(j, o), j.attempts + 1)]))
    case CrashWorker(k) =>
      w' == w.(workers := w.workers[k := Free], lost := if WorkerOf(w, k).Free? then w.lost else w.lost + {WorkerOf(w, k).job.id})
  }

  datatype Run = Run(worlds: seq<World>, actions: seq<Action>)

  ghost predicate IsRun(run: Run) {
    && |run.worlds| == |run.actions| + 1 && run.worlds[0] == START
    && forall i :: 0 <= i < |run.actions| ==> Next(run.worlds[i], run.worlds[i + 1], run.actions[i])
  }

  // ---------------------------------------------------------------- invariants

  predicate Holds(w: World, k: int, id: int) {
    !WorkerOf(w, k).Free? && WorkerOf(w, k).job.id == id
  }

  /** A held job is running and is as the worker last saw it. */
  ghost predicate HeldIsRunning(w: World) {
    forall k :: !WorkerOf(w, k).Free? ==>
      var j := WorkerOf(w, k).job;
      j.id in w.q.jobs && j == w.q.jobs[j.id] && j.status == Running && j.id !in w.lost
  }

  /** No two workers hold the same job. */
  ghost predicate SoleOwner(w: World) {
    forall k, l, id :: Holds(w, k, id) && Holds(w, l, id) ==> k == l
  }

  /** A running job that was not lost has an owner. */
  ghost predicate RunningIsHeld(w: World) {
    forall id :: id in w.q.jobs && w.q.jobs[id].status == Running && id !in w.lost ==> exists k :: Holds(w, k, id)
  }

  ghost predicate LostIsRunning(w: World) {
    forall id :: id in w.lost ==> id in w.q.jobs && w.q.jobs[id].status == Running
  }

  ghost predicate Owned(w: World) {
    HeldIsRunning(w) && SoleOwner(w) && RunningIsHeld(w) && LostIsRunning(w)
  }

  /** Every delivery but the last was recorded as failed, and delivery i (from
      0) started at least 5^i seconds after delivery i-1 was recorded. */
  ghost predicate Spaced(log: seq<Attempt>) {
    forall i :: 0 <= i < |log| - 1 ==>
      log[i].failedAt.Some? && log[i].delay == Pow5(i + 1) && log[i + 1].sentAt >= log[i].failedAt.value + Pow5(i + 1)
  }

  // How much of the log belongs to recorded attempts, and when the next may start.
  ghost predicate LogFits(w: World, id: int)
    requires id in w.q.jobs
  {
    var j, log := w.q.jobs[id], LogOf(w, id);
    && Spaced(log) && |log| <= MAX_ATTEMPTS
    && (j.status == Pending ==> |log| == j.attempts && LastFailed(log, j.nextRunAt))
    && (j.status == Running ==> j.attempts <= |log| <= j.attempts + 1 && (|log| == j.attempts ==> LastFailed(log, w.now)))
    && (log != [] ==> log[|log| - 1].delay == if log[|log| - 1].failedAt.None? then 0 else Pow5(|log|))
    && (|log| == MAX_ATTEMPTS ==> Unanswered(log))
    && EndFits(j, log, id in w.refused)
  }

  // The last request that was sent for a job met this kind of answer.
  predicate Met(log: seq<Attempt>, delivered: bool) {
    log != [] && log[|log| - 1].met.Some? && Delivered(log[|log| - 1].met.value) == delivered
  }

  // A job has ended as its last request did, or because it could not be sent.
  predicate EndFits(j: Job, log: seq<Attempt>, refused: bool) {
    && (j.status == Succeeded <==> Met(log, true))
    && (j.status == Failed <==> refused || (Met(log, false) && |log| == MAX_ATTEMPTS))
  }

  // The last delivery was recorded as failed long enough before t.
  ghost predicate LastFailed(log: seq<Attempt>, t: int) {
    log == [] ||
    (log[|log| - 1].failedAt.Some? && log[|log| - 1].delay == Pow5(|log|) && t >= log[|log| - 1].failedAt.value + Pow5(|log|))
  }

  ghost predicate Unanswered(log: seq<Attempt>) {
    log != [] && log[|log| - 1].failedAt.None?
  }

  // What a worker has sent for the job it holds.
  ghost predicate SentFits(w: World, k: int) {
    match WorkerOf(w, k)
    case Free => true
    case Holding(j) => |LogOf(w, j.id)| == j.attempts
    case Posted(j) => |LogOf(w, j.id)| == j.attempts + 1 && Unanswered(LogOf(w, j.id))
  }

  ghost predicate LogsFit(w: World) {
    && (forall id :: id in w.q.jobs ==> LogFits(w, id))
    && (forall id :: LogOf(w, id) != [] || id in w.refused ==> id in w.q.jobs)
    && (forall k :: SentFits(w, k))
  }

  ghost predicate Inv(w: World) {
    JobsOk(w.q) && Owned(w) && LogsFit(w)
  }

  // ---------------------------------------------------------------- ownership is kept

  lemma OwnedStep(w: World, w': World, act: Action)
    requires JobsOk(w.q) && Owned(w) && Next(w, w', act)
    ensures JobsOk(w'.q) && Owned(w')
  {
    hide Stamp, Pow5;
    match act {
      case Claim(k, id) => ClaimOwned(w, w', k, id);
      case Post(k) => PostOwned(w, w', k);
      case Settle(k, o) => SettleOwned(w, w', k, o);
      case CrashWorker(k) => CrashOwned(w, w', k);
      case _ => QuietOwned(w, w', act);
    }
  }

  // Steps that touch no worker and no existing job.
  lemma QuietOwned(w: World, w': World, act: Action)
    requires JobsOk(w.q) && Owned(w) && Next(w, w', act) && (act.Pass? || act.AddHook? || act.DropHook? || act.EnqueueJob?)
    ensures JobsOk(w'.q) && Owned(w')
  {
    hide Pow5;
    assert forall l :: WorkerOf(w', l) == WorkerOf(w, l);
    assert forall k, id :: Holds(w', k, id) <==> Holds(w, k, id);
    assert forall id :: id in w.q.jobs ==> id in w'.q.jobs && w'.q.jobs[id] == w.q.jobs[id];
  }

  lemma ClaimedJobsOk(q: Queue, id: int)
    requires JobsOk(q) && id in q.jobs && q.jobs[id].status == Pending
    ensures JobsOk(Claimed(q, id))
  {
  }

  lemma ClaimOwned(w: World, w': World, k: int, id: int)
    requires JobsOk(w.q) && Owned(w) && Next(w, w', Claim(k, id))
    ensures JobsOk(w'.q) && Owned(w')
  {
    ClaimedJobsOk(w.q, id);
    assert w.q.jobs[id].id == id;
    hide JobsOk;
    assert forall l :: !Holds(w, l, id);
    assert forall l :: l != k ==> WorkerOf(w', l) == WorkerOf(w, l);
    assert forall l, x :: Holds(w', l, x) <==> Holds(w, l, x) || (l == k && x == id && w.q.jobs[id].hook in w.q.hooks);
    forall x | x in w'.q.jobs && w'.q.jobs[x].status == Running && x !in w'.lost ensures exists l :: Holds(w', l, x) {
      if x == id {
        assert Holds(w', k, id);
      } else {
        var l :| Holds(w, l, x);
        assert Holds(w', l, x);
      }
    }
  }

  lemma PostOwned(w: World, w': World, k: int)
    requires JobsOk(w.q) && Owned(w) && Next(w, w', Post(k))
    ensures JobsOk(w'.q) && Owned(w')
  {
    assert forall l :: l != k ==> WorkerOf(w', l) == WorkerOf(w, l);
    assert forall l, x :: Holds(w', l, x) <==> Holds(w, l, x);
  }

  // What settling does to the queue.
  lemma SettledShape(q: Queue, j: Job, o: Outcome, now: int)
    requires JobsOk(q) && j.id in q.jobs && j == q.jobs[j.id] && j.status == Running
    ensures var q' := Settled(q, j, o, now);
      && JobsOk(q') && q'.jobs.Keys == q.jobs.Keys && q'.lastId == q.lastId
      && (forall x :: x in q.jobs && x != j.id ==> q'.jobs[x] == q.jobs[x])
      && q'.jobs[j.id].status == (if Retries(j, o) then Pending else if Delivered(o) then Succeeded else Failed)
      && q'.jobs[j.id].attempts == j.attempts + 1
      && (Retries(j, o) ==> q'.jobs[j.id].nextRunAt == now + Pow5(j.attempts + 1))
  {
    hide Pow5;
  }

  // A worker lets go of a job that is no longer running, or is lost.
  lemma ReleaseOwned(w: World, w': World, k: int, id: int)
    requires Owned(w) && Holds(w, k, id)
    requires WorkerOf(w', k).Free? && forall l :: l != k ==> WorkerOf(w', l) == WorkerOf(w, l)
    requires w'.q.jobs.Keys == w.q.jobs.Keys && forall x :: x in w.q.jobs && x != id ==> w'.q.jobs[x] == w.q.jobs[x]
    requires w'.lost == w.lost || w'.lost == w.lost + {id}
    requires id in w'.q.jobs && (id in w'.lost <==> w'.q.jobs[id].status == Running)
    ensures Owned(w')
  {
    assert forall l, x :: Holds(w', l, x) <==> Holds(w, l, x) && l != k;
    forall l | !WorkerOf(w', l).Free?
      ensures var x := WorkerOf(w', l).job; x.id in w'.q.jobs && x == w'.q.jobs[x.id] && x.status == Running && x.id !in w'.lost
    {
      var x := WorkerOf(w', l).job.id;
      assert Holds(w', l, x) && !Holds(w, k, x);
    }
    forall x | x in w'.q.jobs && w'.q.jobs[x].status == Running && x !in w'.lost ensures exists l :: Holds(w', l, x) {
      var l :| Holds(w, l, x);
      assert Holds(w', l, x);
    }
  }

  lemma SettleOwned(w: World, w': World, k: int, o: Outcome)
    requires JobsOk(w.q) && Owned(w) && Next(w, w', Settle(k, o))
    ensures JobsOk(w'.q) && Owned(w')
  {
    var j := WorkerOf(w, k).job;
    assert Holds(w, k, j.id);
    SettledShape(w.q, j, o, w.now);
    hide Stamp, Settled, Retries, Delivered, JobsOk;
    ReleaseOwned(w, w', k, j.id);
  }

  lemma CrashOwned(w: World, w': World, k: int)
    requires JobsOk(w.q) && Owned(w) && Next(w, w', CrashWorker(k))
    ensures JobsOk(w'.q) && Owned(w')
  {
    if WorkerOf(w, k).Free? {
      assert forall l :: WorkerOf(w', l) == WorkerOf(w, l);
      assert forall l, x :: Holds(w', l, x) <==> Holds(w, l, x);
    } else {
      assert Holds(w, k, WorkerOf(w, k).job.id);
      ReleaseOwned(w, w', k, WorkerOf(w, k).job.id);
    }
  }

  // ---------------------------------------------------------------- logs are kept

  lemma SpacedAppend(log: seq<Attempt>, now: int)
    requires Spaced(log) && LastFailed(log, now)
    ensures Spaced(log + [Attempt(now, None, None, 0)])
  {
    hide Pow5;
    var log' := log + [Attempt(now, None, None, 0)];
    forall i | 0 <= i < |log'| - 1
      ensures log'[i].failedAt.Some? && log'[i].delay == Pow5(i + 1) && log'[i + 1].sentAt >= log'[i].failedAt.value + Pow5(i + 1)
    {
      if i < |log| - 1 { assert log'[i + 1] == log[i + 1]; }
    }
  }

  lemma StampSpaced(log: seq<Attempt>, o: Outcome, now: int, retried: bool, attempts: nat)
    requires Spaced(log) && |log| == attempts >= 1
    ensures var s := Stamp(log, o, now, retried, attempts);
      && |s| == |log| && Spaced(s)
      && (retried ==> LastFailed(s, now + Pow5(attempts)))
      && (!retried ==> s[|s| - 1] == log[|s| - 1].(met := Some(o)))
      && s[|s| - 1].met == Some(o)
      && (forall i :: 0 <= i < |log| - 1 ==> s[i] == log[i])
  {
    hide Pow5;
    var s := Stamp(log, o, now, retried, attempts);
    forall i | 0 <= i < |s| - 1
      ensures s[i].failedAt.Some? && s[i].delay == Pow5(i + 1) && s[i + 1].sentAt >= s[i].failedAt.value + Pow5(i + 1)
    {
      assert s[i] == log[i] && s[i + 1].sentAt == log[i + 1].sentAt;
    }
  }

  lemma ClaimedFits(w: World, w': World, k: int, id: int)
    requires id in w.q.jobs && LogFits(w, id) && Next(w, w', Claim(k, id))
    ensures id in w'.q.jobs && LogFits(w', id)
  {
    hide Spaced, Pow5;
  }

  lemma ClaimLogs(w: World, w': World, k: int, id: int)
    requires Inv(w) && Next(w, w', Claim(k, id))
    ensures LogsFit(w')
  {
    assert w.q.jobs[id].id == id;
    hide Spaced, LastFailed, Pow5, Owned, JobsOk;
    assert LogFits(w, id);
    assert |LogOf(w, id)| == w.q.jobs[id].attempts;
    hide LogFits, SentFits;
    forall x | x in w'.q.jobs ensures LogFits(w', x) {
      if x == id { ClaimedFits(w, w', k, id); } else { SameLogFits(w, w', x); }
    }
    forall l ensures SentFits(w', l) {
      assert SentFits(w, l);
      ClaimSent(w, w', k, id, l);
    }
  }

  lemma ClaimSent(w: World, w': World, k: int, id: int, l: int)
    requires Next(w, w', Claim(k, id)) && SentFits(w, l)
    requires id in w.q.jobs && w.q.jobs[id].id == id && |LogOf(w, id)| == w.q.jobs[id].attempts
    ensures SentFits(w', l)
  {
  }

  lemma PostLogs(w: World, w': World, k: int)
    requires Inv(w) && Next(w, w', Post(k))
    ensures LogsFit(w')
  {
    hide Spaced, LastFailed, Pow5;
    var j := WorkerOf(w, k).job;
    assert LogFits(w, j.id) && SentFits(w, k);
    SpacedAppend(LogOf(w, j.id), w.now);
    forall x | x in w'.q.jobs ensures LogFits(w', x) { assert LogFits(w, x); }
    forall l ensures SentFits(w', l) {
      assert SentFits(w, l) && Holds(w, k, j.id);
      if Holds(w, l, j.id) { assert l == k; }
    }
  }

  // What the invariant says of the job a worker holds.
  lemma HeldJob(w: World, k: int)
    requires Inv(w) && !WorkerOf(w, k).Free?
    ensures var j := WorkerOf(w, k).job;
      && j.id in w.q.jobs && j == w.q.jobs[j.id] && j.status == Running && 0 <= j.attempts < MAX_ATTEMPTS
      && LogFits(w, j.id) && SentFits(w, k) && JobsOk(w.q) && j.id !in w.lost && 1 <= j.id <= w.q.lastId
  {
    hide LogFits, SentFits, SoleOwner, RunningIsHeld, LostIsRunning;
  }

  // The job that is settled.
  lemma SettledLogFits(w: World, w': World, k: int, o: Outcome)
    requires Inv(w) && Next(w, w', Settle(k, o))
    ensures var id := WorkerOf(w, k).job.id; id in w'.q.jobs && LogFits(w', id)
  {
    hide Inv, Spaced, LastFailed, Pow5, JobsOk, Settled;
    var j := WorkerOf(w, k).job;
    HeldJob(w, k);
    SettledShape(w.q, j, o, w.now);
    if WorkerOf(w, k).Posted? { StampSpaced(LogOf(w, j.id), o, w.now, Retries(j, o), j.attempts + 1); }
  }

  // The jobs that are not.
  lemma SettledElsewhere(w: World, w': World, k: int, o: Outcome, x: int)
    requires Inv(w) && Next(w, w', Settle(k, o)) && x in w'.q.jobs && x != WorkerOf(w, k).job.id
    ensures LogFits(w', x)
  {
    assert LogsFit(w);
    hide Inv, Spaced, LastFailed, Pow5, Stamp, Settled, JobsOk, Retries, Delivered, SentFits;
    HeldJob(w, k);
    SettledShape(w.q, WorkerOf(w, k).job, o, w.now);
    hide LogFits;
    assert LogFits(w, x) && w'.q.jobs[x] == w.q.jobs[x] && LogOf(w', x) == LogOf(w, x) && w'.now == w.now;
    SameLogFits(w, w', x);
  }

  lemma SameLogFits(w: World, w': World, x: int)
    requires x in w.q.jobs && x in w'.q.jobs && LogFits(w, x)
    requires w'.q.jobs[x] == w.q.jobs[x] && LogOf(w', x) == LogOf(w, x) && w'.now >= w.now
    requires x in w'.refused <==> x in w.refused
    ensures LogFits(w', x)
  {
    hide Spaced, Pow5;
  }

  lemma SettleLogs(w: World, w': World, k: int, o: Outcome)
    requires Inv(w) && Next(w, w', Settle(k, o))
    ensures LogsFit(w')
  {
    hide Spaced, LastFailed, Pow5;
    var j := WorkerOf(w, k).job;
    assert LogFits(w, j.id) && SentFits(w, k) && Holds(w, k, j.id);
    SettledLogFits(w, w', k, o);
    forall x | x in w'.q.jobs ensures LogFits(w', x) {
      if x != j.id { SettledElsewhere(w, w', k, o, x); }
    }
    hide LogFits, Stamp;
    forall l ensures SentFits(w', l) {
      assert SentFits(w, l);
      if Holds(w, l, j.id) { assert l == k; }
    }
  }

  lemma OtherLogs(w: World, w': World, act: Action)
    requires Inv(w) && Next(w, w', act) && !act.Claim? && !act.Post? && !act.Settle?
    ensures LogsFit(w')
  {
    assert Spaced([]);
    hide Pow5, Spaced, Owned, JobsOk, Stamp, Settled, Claimed;
    forall x | x in w'.q.jobs ensures LogFits(w', x) {
      if x in w.q.jobs {
        assert LogFits(w, x);
        hide LogFits;
        SameLogFits(w, w', x);
      } else {
        assert LogOf(w, x) == [];
      }
    }
    hide LogFits;
    forall l ensures SentFits(w', l) { assert SentFits(w, l); }
  }

  /** Every step of every worker keeps the invariant. */
  lemma StepKeepsInv(w: World, w': World, act: Action)
    requires Inv(w) && Next(w, w', act)
    ensures Inv(w')
  {
    hide Owned, LogsFit, JobsOk;
    OwnedStep(w, w', act);
    match act {
      case Claim(k, id) => ClaimLogs(w, w', k, id);
      case Post(k) => PostLogs(w, w', k);
      case Settle(k, o) => SettleLogs(w, w', k, o);
      case _ => OtherLogs(w, w', act);
    }
  }

  lemma StepOf(run: Run, n: nat)
    requires IsRun(run) && n < |run.actions|
    ensures n + 1 < |run.worlds| && Next(run.worlds[n], run.worlds[n + 1], run.actions[n])
  {
    hide Next;
  }

  lemma {:induction false} RunKeepsInv(run: Run, n: nat)
    requires IsRun(run) && n < |run.worlds|
    ensures Inv(run.worlds[n])
  {
    if n == 0 {
      assert JobsOk(START.q) && Owned(START);
    } else {
      hide Inv, Next;
      RunKeepsInv(run, n - 1);
      StepKeepsInv(run.worlds[n - 1], run.worlds[n], run.actions[n - 1]);
    }
  }

  // ---------------------------------------------------------------- results

  /** A running job has at most one owner, and exactly one unless its worker
      crashed or its hook was gone when it was claimed. */
  lemma RunningJobHasOneOwner(run: Run, n: nat, id: int)
    requires IsRun(run) && n < |run.worlds|
    requires var w := run.worlds[n]; id in w.q.jobs && w.q.jobs[id].status == Running
    ensures var w := run.worlds[n];
      && (forall k, l :: Holds(w, k, id) && Holds(w, l, id) ==> k == l)
      && (id in w.lost || exists k :: Holds(w, k, id))
  {
    hide IsRun, LogsFit, JobsOk;
    RunKeepsInv(run, n);
  }

  function Total(log: seq<Attempt>): nat {
    if log == [] then 0 else Total(log[..|log| - 1]) + log[|log| - 1].delay
  }

  lemma TotalBound(log: seq<Attempt>)
    requires Spaced(log) && |log| <= MAX_ATTEMPTS
    requires log != [] ==> log[|log| - 1].delay <= Pow5(|log|)
    requires |log| == MAX_ATTEMPTS ==> log[MAX_ATTEMPTS - 1].delay == 0
    ensures Total(log) <= 780
  {
    Powers();
    if |log| >= 1 { assert Total(log) == Total(log[..|log| - 1]) + log[|log| - 1].delay; }
    if |log| >= 2 { TotalPrefix(log, |log| - 1); }
    if |log| >= 3 { TotalPrefix(log, |log| - 2); }
    if |log| >= 4 { TotalPrefix(log, |log| - 3); }
    if |log| >= 5 { TotalPrefix(log, |log| - 4); }
    assert Total(log[..0]) == 0;
  }

  lemma TotalPrefix(log: seq<Attempt>, n: nat)
    requires Spaced(log) && 1 <= n < |log|
    ensures Total(log[..n]) == Total(log[..n - 1]) + Pow5(n)
  {
    assert log[..n][..n - 1] == log[..n - 1] && log[..n][n - 1] == log[n - 1];
  }

  /** Any job is sent at most five times, each retry at least 5, 25, 125 and 625
      seconds after the failure before it was recorded, and all delays scheduled
      for it together are at most 780 seconds. */
  lemma DeliveriesAreBoundedAndSpaced(run: Run, n: nat, id: int)
    requires IsRun(run) && n < |run.worlds|
    ensures var log := LogOf(run.worlds[n], id);
      && |log| <= 5
      && (forall i :: 0 <= i < |log| - 1 ==>
           log[i].failedAt.Some? && log[i + 1].sentAt >= log[i].failedAt.value + [5, 25, 125, 625][i])
      && Total(log) <= 780
  {
    hide IsRun, Owned, Pow5, Total;
    RunKeepsInv(run, n);
    Powers();
    var w, log := run.worlds[n], LogOf(run.worlds[n], id);
    if id in w.q.jobs {
      assert LogFits(w, id);
      DelayBound(w, id);
      TotalBound(log);
    } else {
      assert log == [] && Spaced(log);
      TotalBound(log);
    }
  }

  lemma DelayBound(w: World, id: int)
    requires id in w.q.jobs && LogFits(w, id)
    ensures var log := LogOf(w, id); log != [] ==> log[|log| - 1].delay <= Pow5(|log|)
  {
    hide Pow5;
  }

  /** A job ends as its requests did: at every moment it is recorded as succeeded
      exactly when the last request sent for it was answered with a code from 200
      to 299, and as failed exactly when some request could not be built, or the
      fifth one met something else. */
  lemma JobsEndAsAnswered(run: Run, n: nat, id: int)
    requires IsRun(run) && n < |run.worlds| && id in run.worlds[n].q.jobs
    ensures var w, log := run.worlds[n], LogOf(run.worlds[n], id); var status := w.q.jobs[id].status;
      && (status == Succeeded <==>
            log != [] && log[|log| - 1].met.Some? && log[|log| - 1].met.value.Answered? && 200 <= log[|log| - 1].met.value.code <= 299)
      && (status == Failed <==>
            id in w.refused ||
            (|log| == 5 && log[4].met.Some? && !(log[4].met.value.Answered? && 200 <= log[4].met.value.code <= 299)))
  {
    hide IsRun, Owned, Spaced, LastFailed;
    RunKeepsInv(run, n);
    assert LogFits(run.worlds[n], id);
  }

  ghost predicate Over(w: World, id: int) { id in w.q.jobs && Terminal(w.q.jobs[id]) }

  // The job is over in both worlds, and nothing about it has changed.
  ghost predicate Kept(w: World, w': World, id: int) {
    Over(w, id) && Over(w', id) && w'.q.jobs[id] == w.q.jobs[id] && LogOf(w', id) == LogOf(w, id)
  }

  lemma TerminalStays(w: World, w': World, act: Action, id: int)
    requires Inv(w) && Next(w, w', act) && Over(w, id)
    ensures Kept(w, w', id)
  {
    hide Pow5, Stamp, LogsFit;
  }

  lemma KeptTransitive(u: World, v: World, w: World, id: int)
    requires Kept(u, v, id) && Kept(v, w, id)
    ensures Kept(u, w, id)
  {
  }

  lemma {:induction false} KeptAlong(run: Run, i: nat, j: nat, id: int)
    requires IsRun(run) && i <= j < |run.worlds| && Over(run.worlds[i], id)
    ensures Kept(run.worlds[i], run.worlds[j], id)
    decreases j - i
  {
    if i < j {
      assert |run.actions| == |run.worlds| - 1;
      KeptAlong(run, i, j - 1, id);
      hide IsRun, Inv, Next, LogOf, Terminal;
      RunKeepsInv(run, j - 1);
      StepOf(run, j - 1);
      TerminalStays(run.worlds[j - 1], run.worlds[j], run.actions[j - 1], id);
      KeptTransitive(run.worlds[i], run.worlds[j - 1], run.worlds[j], id);
    }
  }

  /** A job that succeeded or failed is never claimed, sent or changed again. */
  lemma TerminalIsFinal(run: Run, i: nat, j: nat, id: int)
    requires IsRun(run) && i <= j < |run.worlds| && id in run.worlds[i].q.jobs
    requires run.worlds[i].q.jobs[id].status == Succeeded || run.worlds[i].q.jobs[id].status == Failed
    ensures id in run.worlds[j].q.jobs && run.worlds[j].q.jobs[id] == run.worlds[i].q.jobs[id]
    ensures LogOf(run.worlds[j], id) == LogOf(run.worlds[i], id)
  {
    hide IsRun;
    KeptAlong(run, i, j, id);
  }

  // ---------------------------------------------------------------- termination

  function Work(w: World): nat { if w.q.lastId < 0 then 0 else Remaining(w.q, w.q.lastId) }

  lemma {:induction false} SameRemaining(q: Queue, q': Queue, n: nat)
    requires forall id :: 1 <= id <= n ==> (id in q.jobs <==> id in q'.jobs)
    requires forall id :: 1 <= id <= n && id in q.jobs ==> Left(q'.jobs[id]) == Left(q.jobs[id])
    ensures Remaining(q', n) == Remaining(q, n)
  {
    if n > 0 { SameRemaining(q, q', n - 1); }
  }

  lemma WorkStep(w: World, w': World, act: Action)
    requires Inv(w) && Next(w, w', act) && !act.EnqueueJob?
    ensures if act.Settle? then Work(w') < Work(w) else Work(w') == Work(w)
  {
    hide Pow5, Stamp, LogsFit, Remaining;
    if act.Claim? {
      ClaimingUsesNothing(w.q, act.id, w.q.lastId);
    } else if act.Settle? {
      SettlingUsesAnAttempt(w.q, WorkerOf(w, act.k).job, act.o, w.now, w.q.lastId);
    } else {
      SameRemaining(w.q, w'.q, w.q.lastId);
    }
  }

  function Settlements(acts: seq<Action>): nat {
    if acts == [] then 0 else Settlements(acts[..|acts| - 1]) + if acts[|acts| - 1].Settle? then 1 else 0
  }

  lemma SettlementsUpTo(acts: seq<Action>, i: nat, j: nat)
    requires i < j <= |acts|
    ensures Settlements(acts[i..j]) == Settlements(acts[i..j - 1]) + if acts[j - 1].Settle? then 1 else 0
  {
    assert acts[i..j][..j - i - 1] == acts[i..j - 1] && acts[i..j][j - i - 1] == acts[j - 1];
  }

  /** With nothing enqueued between two moments, the deliveries settled between
      them are at most the attempts that remained: retries cannot go on forever. */
  lemma {:induction false} RetriesTerminate(run: Run, i: nat, j: nat)
    requires IsRun(run) && i <= j < |run.worlds|
    requires forall x :: i <= x < j ==> !run.actions[x].EnqueueJob?
    ensures Settlements(run.actions[i..j]) + Work(run.worlds[j]) <= Work(run.worlds[i])
    decreases j - i
  {
    if i < j {
      assert |run.actions| == |run.worlds| - 1;
      hide IsRun, Inv, Next, Work, Settlements;
      RetriesTerminate(run, i, j - 1);
      RunKeepsInv(run, j - 1);
      StepOf(run, j - 1);
      WorkStep(run.worlds[j - 1], run.worlds[j], run.actions[j - 1]);
      SettlementsUpTo(run.actions, i, j);
    } else {
      assert run.actions[i..j] == [];
    }
  }

  /** When no worker holds a job and none is pending, every job that was not
      lost has succeeded or failed. */
  lemma NothingLeftMeansAllOver(run: Run, n: nat, id: int)
    requires IsRun(run) && n < |run.worlds| && id in run.worlds[n].q.jobs && id !in run.worlds[n].lost
    requires var w := run.worlds[n];
      (forall k :: WorkerOf(w, k).Free?) && forall x :: x in w.q.jobs ==> w.q.jobs[x].status != Pending
    ensures run.worlds[n].q.jobs[id].status == Succeeded || run.worlds[n].q.jobs[id].status == Failed
  {
    hide IsRun, LogsFit, JobsOk;
    RunKeepsInv(run, n);
    var w := run.worlds[n];
    assert forall k :: !Holds(w, k, id);
    assert w.q.jobs[id].status != Pending;
    assert w.q.jobs[id].status != Running;
  }

  /** A pending job becomes claimable once enough time has passed, so with a
      free worker the queue never gets stuck. */
  lemma PendingCanBeClaimed(w: World, id: int, k: int) returns (later: World, claimed: World)
    requires id in w.q.jobs && w.q.jobs[id].status == Pending && WorkerOf(w, k).Free?
    ensures exists s :: Next(w, later, Pass(s))
    ensures later.now == if w.q.jobs[id].nextRunAt > w.now then w.q.jobs[id].nextRunAt else w.now
    ensures Next(later, claimed, Claim(k, id)) && claimed.q.jobs[id].status == Running
  {
    var s := if w.q.jobs[id].nextRunAt > w.now then w.q.jobs[id].nextRunAt - w.now else 0;
    later := w.(now := w.now + s);
    assert Next(w, later, Pass(s));
    claimed := if w.q.jobs[id].hook in w.q.hooks then
        later.(q := Claimed(w.q, id), workers := w.workers[k := Holding(Claimed(w.q, id).jobs[id])])
      else later.(q := Claimed(w.q, id), lost := w.lost + {id});
  }

  // ---------------------------------------------------------------- all work gets done

  predicate IsWork(act: Action) { act.Claim? || act.Post? || act.Settle? }

  /** A job that has not ended and was not lost. */
  ghost predicate Unfinished(w: World, id: int) {
    id in w.q.jobs && !Terminal(w.q.jobs[id]) && id !in w.lost
  }

  ghost predicate IsPosted(w: World, id: int) {
    exists k :: WorkerOf(w, k).Posted? && Holds(w, k, id)
  }

  /** How many more claims, requests and settlements a job can see: three for
      each attempt that is left. */
  ghost function StepsLeft(w: World, id: int): nat {
    if !Unfinished(w, id) || Left(w.q.jobs[id]) == 0 then 0
    else if w.q.jobs[id].status == Pending then 3 * Left(w.q.jobs[id])
    else if IsPosted(w, id) then 3 * Left(w.q.jobs[id]) - 2
    else 3 * Left(w.q.jobs[id]) - 1
  }

  ghost function Measure(w: World, n: nat): nat {
    if n == 0 then 0 else Measure(w, n - 1) + StepsLeft(w, n)
  }

  lemma {:induction false} MeasureLess(w: World, w': World, n: nat)
    requires forall id :: StepsLeft(w', id) <= StepsLeft(w, id)
    ensures Measure(w', n) <= Measure(w, n)
    ensures (exists id :: 1 <= id <= n && StepsLeft(w', id) < StepsLeft(w, id)) ==> Measure(w', n) < Measure(w, n)
  {
    hide StepsLeft;
    if n > 0 { MeasureLess(w, w', n - 1); }
  }

  lemma {:induction false} MeasureBound(w: World, n: nat)
    ensures Measure(w, n) <= 15 * n
  {
    if n > 0 { MeasureBound(w, n - 1); }
  }

  // The job that a worker's step is about.
  function Subject(w: World, act: Action): int
    requires IsWork(act)
  {
    if act.Claim? then act.id else if WorkerOf(w, act.k).Free? then 0 else WorkerOf(w, act.k).job.id
  }

  lemma SameSteps(w: World, w': World, id: int)
    requires Unfinished(w', id) ==> Unfinished(w, id) && w'.q.jobs[id] == w.q.jobs[id]
    requires Unfinished(w', id) && IsPosted(w, id) ==> IsPosted(w', id)
    ensures StepsLeft(w', id) <= StepsLeft(w, id)
  {
    hide IsPosted;
  }

  lemma ClaimSteps(w: World, w': World, k: int, id: int)
    requires Inv(w) && Inv(w') && Next(w, w', Claim(k, id))
    ensures 1 <= id <= w.q.lastId && StepsLeft(w', id) < StepsLeft(w, id)
  {
    hide LogsFit;
    if id !in w'.lost {
      assert Holds(w', k, id);
      assert !IsPosted(w', id);
    }
  }

  lemma PostSteps(w: World, w': World, k: int)
    requires Inv(w) && Inv(w') && Next(w, w', Post(k))
    ensures var id := Subject(w, Post(k)); 1 <= id <= w.q.lastId && StepsLeft(w', id) < StepsLeft(w, id)
  {
    hide LogsFit;
    var id := WorkerOf(w, k).job.id;
    assert Holds(w, k, id) && Holds(w', k, id);
    assert IsPosted(w', id) && !IsPosted(w, id);
  }

  lemma SettleSteps(w: World, w': World, k: int, o: Outcome)
    requires Inv(w) && Inv(w') && Next(w, w', Settle(k, o))
    ensures var id := Subject(w, Settle(k, o)); 1 <= id <= w.q.lastId && StepsLeft(w', id) < StepsLeft(w, id)
  {
    hide Inv, Settled, Stamp, Pow5, IsPosted, Retries, Delivered, LogFits, SentFits, JobsOk;
    HeldJob(w, k);
    SettledShape(w.q, WorkerOf(w, k).job, o, w.now);
  }

  // What happens to the jobs that a step is not about.
  lemma OtherSteps(w: World, w': World, act: Action, id: int)
    requires Inv(w) && Inv(w') && Next(w, w', act) && !act.EnqueueJob? && (IsWork(act) ==> id != Subject(w, act))
    ensures StepsLeft(w', id) <= StepsLeft(w, id)
  {
    hide Inv, Stamp, Pow5, StepsLeft;
    if act.Settle? {
      HeldJob(w, act.k);
      SettledShape(w.q, WorkerOf(w, act.k).job, act.o, w.now);
      hide Settled, SentFits, LogFits, JobsOk;
    }
    if k :| Unfinished(w', id) && WorkerOf(w, k).Posted? && Holds(w, k, id) {
      assert WorkerOf(w', k) == WorkerOf(w, k);
      assert Holds(w', k, id);
    }
    SameSteps(w, w', id);
  }

  lemma MeasureStep(w: World, w': World, act: Action)
    requires Inv(w) && Inv(w') && Next(w, w', act) && !act.EnqueueJob? && w.q.lastId >= 0
    ensures w'.q.lastId == w.q.lastId
    ensures Measure(w', w.q.lastId) <= Measure(w, w.q.lastId)
    ensures IsWork(act) ==> Measure(w', w.q.lastId) < Measure(w, w.q.lastId)
  {
    LastIdStays(w, w', act);
    hide Inv, Next, StepsLeft, Measure;
    forall id ensures StepsLeft(w', id) <= StepsLeft(w, id) {
      if IsWork(act) && id == Subject(w, act) { WorkSubject(w, w', act); } else { OtherSteps(w, w', act, id); }
    }
    if IsWork(act) { WorkSubject(w, w', act); }
    MeasureLess(w, w', w.q.lastId);
  }

  lemma WorkSubject(w: World, w': World, act: Action)
    requires Inv(w) && Inv(w') && Next(w, w', act) && IsWork(act)
    ensures var id := Subject(w, act); 1 <= id <= w.q.lastId && StepsLeft(w', id) < StepsLeft(w, id)
  {
    hide Inv, Next, StepsLeft;
    match act {
      case Claim(k, id) => ClaimSteps(w, w', k, id);
      case Post(k) => PostSteps(w, w', k);
      case Settle(k, o) => SettleSteps(w, w', k, o);
    }
  }

  lemma LastIdStays(w: World, w': World, act: Action)
    requires Next(w, w', act) && !act.EnqueueJob?
    ensures w'.q.lastId == w.q.lastId
  {
    hide Stamp, Pow5;
  }

  function WorkSteps(acts: seq<Action>): nat {
    if acts == [] then 0 else WorkSteps(acts[..|acts| - 1]) + if IsWork(acts[|acts| - 1]) then 1 else 0
  }

  lemma WorkStepsUpTo(acts: seq<Action>, i: nat, j: nat)
    requires i < j <= |acts|
    ensures WorkSteps(acts[i..j]) == WorkSteps(acts[i..j - 1]) + if IsWork(acts[j - 1]) then 1 else 0
  {
    assert acts[i..j][..j - i - 1] == acts[i..j - 1] && acts[i..j][j - i - 1] == acts[j - 1];
  }

  ghost function Budget(w: World): nat { if w.q.lastId < 0 then 0 else Measure(w, w.q.lastId) }

  lemma {:induction false} WorkIsBounded(run: Run, i: nat, j: nat)
    requires IsRun(run) && i <= j < |run.worlds|
    requires forall x :: i <= x < j ==> !run.actions[x].EnqueueJob?
    ensures WorkSteps(run.actions[i..j]) + Budget(run.worlds[j]) <= Budget(run.worlds[i])
    decreases j - i
  {
    if i < j {
      assert |run.actions| == |run.worlds| - 1;
      hide IsRun, Inv, Next, Measure, WorkSteps, IsWork;
      WorkIsBounded(run, i, j - 1);
      RunKeepsInv(run, j - 1);
      RunKeepsInv(run, j);
      StepOf(run, j - 1);
      IdsNotNegative(run.worlds[j - 1]);
      MeasureStep(run.worlds[j - 1], run.worlds[j], run.actions[j - 1]);
      WorkStepsUpTo(run.actions, i, j);
    } else {
      assert run.actions[i..j] == [];
    }
  }

  lemma IdsNotNegative(w: World)
    requires Inv(w)
    ensures w.q.lastId >= 0
  {
    hide Owned, LogsFit;
  }

  ghost predicate CanStep(w: World, act: Action) { exists w' :: Next(w, w', act) }

  function Later(w: World, seconds: nat): World { w.(now := w.now + seconds) }

  /** Some worker can claim, send or settle, at once or after some time. */
  ghost predicate WorkRemains(w: World) {
    exists s: nat, act :: IsWork(act) && CanStep(Later(w, s), act)
  }

  // A worker that holds a job can go on with it.
  lemma HolderCanStep(w: World, k: int)
    requires Inv(w) && !WorkerOf(w, k).Free?
    ensures WorkRemains(w)
  {
    HeldJob(w, k);
    hide Inv, Settled, Stamp;
    var j := WorkerOf(w, k).job;
    assert Later(w, 0) == w;
    if WorkerOf(w, k).Holding? {
      var w' := w.(workers := w.workers[k := Posted(j)], log := w.log[j.id := LogOf(w, j.id) + [Attempt(w.now, None, None, 0)]]);
      assert Next(w, w', Post(k));
      assert IsWork(Post(k)) && CanStep(Later(w, 0), Post(k));
    } else {
      var o := Unreachable("");
      var w' := w.(q := Settled(w.q, j, o, w.now), workers := w.workers[k := Free],
                   log := w.log[j.id := Stamp(LogOf(w, j.id), o, w.now, Retries(j, o), j.attempts + 1)]);
      assert Next(w, w', Settle(k, o));
      assert IsWork(Settle(k, o)) && CanStep(Later(w, 0), Settle(k, o));
    }
  }

  // So there is work for any given worker as long as a job is unfinished.
  lemma UnfinishedMeansWork(w: World, id: int, k: int)
    requires Inv(w) && Unfinished(w, id)
    ensures WorkRemains(w)
  {
    if w.q.jobs[id].status == Running {
      assert Owned(w);
      var l :| Holds(w, l, id);
      HolderCanStep(w, l);
    } else if WorkerOf(w, k).Free? {
      hide Inv, Stamp, Pow5;
      var later, claimed := PendingCanBeClaimed(w, id, k);
      var s: nat :| Next(w, later, Pass(s));
      assert Later(w, s) == later && IsWork(Claim(k, id)) && CanStep(Later(w, s), Claim(k, id));
    } else {
      HolderCanStep(w, k);
    }
  }

  lemma WorkMeansUnfinished(w: World)
    requires Inv(w) && WorkRemains(w)
    ensures exists id :: Unfinished(w, id)
  {
    hide LogsFit, Stamp, Pow5;
    var s: nat, act :| IsWork(act) && CanStep(Later(w, s), act);
    var w' :| Next(Later(w, s), w', act);
    assert WorkerOf(Later(w, s), act.k) == WorkerOf(w, act.k);
    assert Unfinished(w, Subject(w, act));
  }

  /** All work gets done. From any moment of any run on, as long as nothing is
      enqueued, the claims, requests and settlements of all workers together are
      at most fifteen per job, whatever crashes or is deleted meanwhile; and at
      every moment some such step is possible, at once or after some time,
      exactly while a job that was not lost has neither succeeded nor failed. */
  lemma EveryJobEnds(run: Run, i: nat, j: nat, k: int)
    requires IsRun(run) && i <= j < |run.worlds|
    requires forall x :: i <= x < j ==> !run.actions[x].EnqueueJob?
    ensures WorkSteps(run.actions[i..j]) <= Budget(run.worlds[i]) <= 15 * run.worlds[i].q.lastId
    ensures WorkRemains(run.worlds[j]) <==> exists id :: Unfinished(run.worlds[j], id)
  {
    WorkIsBounded(run, i, j);
    RunKeepsInv(run, i);
    RunKeepsInv(run, j);
    IdsNotNegative(run.worlds[i]);
    hide IsRun, Inv, Measure, WorkSteps, WorkRemains, Unfinished;
    MeasureBound(run.worlds[i], run.worlds[i].q.lastId);
    if WorkRemains(run.worlds[j]) { WorkMeansUnfinished(run.worlds[j]); }
    if id :| Unfinished(run.worlds[j], id) { UnfinishedMeansWork(run.worlds[j], id, k); }
  }
}
