/** The certificate job queue: the store's atomic operations, one worker's
    handling of a claimed job, and whole runs with any number of workers.
    Issuing a certificate is a step that succeeds or fails. */
module AcmeQueue {
  import opened Wrappers
  import opened RevisionStore

  datatype Status = Pending | Running | Succeeded | Failed

  datatype Request = Request(fleet: string, name: string, dnsNames: seq<string>, provider: string)

  datatype Job = Job(id: int, request: Request, status: Status, error: string, certId: Option<int>,
                     startedAt: Option<int>, finishedAt: Option<int>)

  datatype Queue = Queue(jobs: map<int, Job>, lastId: int, fleets: set<string>)

  function Requested(q: Queue, r: Request): Queue {
    var id := q.lastId + 1;
    q.(jobs := q.jobs[id := Job(id, r, Pending, "", None, None, None)], lastId := id)
  }

  predicate Waiting(q: Queue, id: int) { id in q.jobs && q.jobs[id].status == Pending }

  ghost predicate Oldest(q: Queue, id: int) {
    Waiting(q, id) && forall x :: Waiting(q, x) ==> id <= x
  }

  function Taken(q: Queue, id: int, now: int): Queue
    requires id in q.jobs
  {
    q.(jobs := q.jobs[id := q.jobs[id].(status := Running, startedAt := Some(now))])
  }

  function MarkedSucceeded(q: Queue, id: int, cert: int, now: int): Queue
    requires id in q.jobs
  {
    q.(jobs := q.jobs[id := q.jobs[id].(status := Succeeded, certId := Some(cert), finishedAt := Some(now), error := "")])
  }

  function MarkedFailed(q: Queue, id: int, err: string, now: int): Queue
    requires id in q.jobs
  {
    q.(jobs := q.jobs[id := q.jobs[id].(status := Failed, error := err, finishedAt := Some(now))])
  }

  /** How executing a job ends: no certificate, a certificate that could not be
      published, or a published one. */
  datatype Execution = NotIssued(err: string) | NotPublished(cert: int, err: string) | Published(cert: int)

  function Executed(q: Queue, id: int, e: Execution, now: int): Queue
    requires id in q.jobs
  {
    match e
    case NotIssued(err) => MarkedFailed(q, id, err, now)
    case NotPublished(cert, err) => MarkedFailed(MarkedSucceeded(q, id, cert, now), id, err, now)
    case Published(cert) => MarkedSucceeded(q, id, cert, now)
  }

  // The keys of the job map in increasing order.
  method SortedIds(ids: set<int>) returns (keys: seq<int>)
    ensures forall id :: id in keys <==> id in ids
    ensures forall i, j :: 0 <= i < j < |keys| ==> keys[i] < keys[j]
  {
    keys := [];
    var todo := ids;
    while todo != {}
      invariant todo <= ids
      invariant forall id :: id in keys <==> id in ids - todo
      invariant Rising(keys)
    {
      var id := AnyOf(todo);
      todo := todo - {id};
      var n := 0;
      while n < |keys| && keys[n] < id
        invariant 0 <= n <= |keys|
        invariant forall i :: 0 <= i < n ==> keys[i] < id
      {
        n := n + 1;
      }
      InsertId(keys, n, id);
      keys := keys[..n] + [id] + keys[n..];
    }
  }

  ghost predicate Rising(keys: seq<int>) {
    forall i, j :: 0 <= i < j < |keys| ==> keys[i] < keys[j]
  }

  lemma InsertId(keys: seq<int>, n: nat, id: int)
    requires Rising(keys) && n <= |keys| && id !in keys
    requires (forall i :: 0 <= i < n ==> keys[i] < id) && (n < |keys| ==> keys[n] >= id)
    ensures Rising(keys[..n] + [id] + keys[n..])
    ensures forall x :: x in keys[..n] + [id] + keys[n..] <==> x in keys || x == id
  {
    var all := keys[..n] + [id] + keys[n..];
    forall i, j | 0 <= i < j < |all| ensures all[i] < all[j] {
      if j > n && n < |keys| { assert all[j] == keys[j - 1] && id < keys[n] <= keys[j - 1]; }
    }
    assert keys == keys[..n] + keys[n..];
  }

  class AcmeStore {
    var jobs: map<int, Job>
    var lastId: int
    var fleets: set<string>

    function State(): Queue
      reads this
    {
      Queue(jobs, lastId, fleets)
    }

    constructor ()
      ensures State() == Queue(map[], 0, {})
    {
      jobs, lastId, fleets := map[], 0, {};
    }

    method CreateJob(r: Request) returns (j: Result<Job, StoreError>)
      modifies this
      ensures if r.fleet in old(fleets) then State() == Requested(old(State()), r) && j == Success(jobs[lastId])
              else State() == old(State()) && j == Failure(NotFound)
      ensures j.Success? ==>
        && lastId == old(lastId) + 1 && j.value == Job(lastId, r, Pending, "", None, None, None)
        && jobs == old(jobs)[lastId := j.value] && fleets == old(fleets)
    {
      if r.fleet !in fleets {
        return Failure(NotFound);
      }
      lastId := lastId + 1;
      jobs := jobs[lastId := Job(lastId, r, Pending, "", None, None, None)];
      j := Success(jobs[lastId]);
    }

    /** ClaimNextACMEJob: the pending job with the smallest id, if any is pending. */
    method ClaimNext(now: int) returns (id: Result<int, StoreError>)
      modifies this
      ensures id.Success? ==> Oldest(old(State()), id.value) && State() == Taken(old(State()), id.value, now)
      ensures id.Failure? ==>
        id.error == NotFound && State() == old(State()) && forall x :: !Waiting(State(), x)
      ensures id.Success? ==>
        && id.value in old(jobs) && old(jobs)[id.value].status == Pending
        && (forall x :: x in old(jobs) && old(jobs)[x].status == Pending ==> id.value <= x)
        && jobs == old(jobs)[id.value := old(jobs)[id.value].(status := Running, startedAt := Some(now))]
        && lastId == old(lastId) && fleets == old(fleets)
      ensures id.Failure? ==> forall x :: x in jobs ==> jobs[x].status != Pending
    {
      var keys := SortedIds(jobs.Keys);
      for i := 0 to |keys|
        invariant State() == old(State())
        invariant forall n :: 0 <= n < i ==> !Waiting(State(), keys[n])
      {
        var k := keys[i];
        if jobs[k].status == Pending {
          forall x | Waiting(State(), x) ensures k <= x {
            assert x in keys;
            var n :| 0 <= n < |keys| && keys[n] == x;
          }
          jobs := jobs[k := jobs[k].(status := Running, startedAt := Some(now))];
          return Success(k);
        }
      }
      forall x | x in jobs ensures !Waiting(State(), x) { assert x in keys; }
      id := Failure(NotFound);
    }

    method MarkSucceeded(id: int, cert: int, now: int) returns (r: Result<(), StoreError>)
      modifies this
      ensures if id in old(jobs) then r.Success? && State() == MarkedSucceeded(old(State()), id, cert, now)
              else r == Failure(NotFound) && State() == old(State())
      ensures lastId == old(lastId) && fleets == old(fleets)
      ensures id in old(jobs) ==>
        jobs == old(jobs)[id := old(jobs)[id].(status := Succeeded, error := "", certId := Some(cert), finishedAt := Some(now))]
    {
      if id !in jobs {
        return Failure(NotFound);
      }
      jobs := jobs[id := jobs[id].(status := Succeeded, certId := Some(cert), finishedAt := Some(now), error := "")];
      r := Success(());
    }

    method MarkFailed(id: int, err: string, now: int) returns (r: Result<(), StoreError>)
      modifies this
      ensures if id in old(jobs) then r.Success? && State() == MarkedFailed(old(State()), id, err, now)
              else r == Failure(NotFound) && State() == old(State())
      ensures lastId == old(lastId) && fleets == old(fleets)
      ensures id in old(jobs) ==>
        jobs == old(jobs)[id := old(jobs)[id].(status := Failed, error := err, finishedAt := Some(now))]
    {
      if id !in jobs {
        return Failure(NotFound);
      }
      jobs := jobs[id := jobs[id].(status := Failed, error := err, finishedAt := Some(now))];
      r := Success(());
    }

    /** runACMEJob with executeACMEJob, with no other worker in between. */
    method RunJob(id: int, e: Execution, now: int)
      requires id in jobs
      modifies this
      ensures State() == Executed(old(State()), id, e, now)
      ensures var was := old(jobs)[id];
        && lastId == old(lastId) && fleets == old(fleets) && jobs.Keys == old(jobs).Keys
        && (forall x :: x in jobs && x != id ==> jobs[x] == old(jobs)[x])
        && jobs[id] == was.(
             status := if e.Published? then Succeeded else Failed,
             error := if e.Published? then "" else e.err,
             certId := if e.NotIssued? then was.certId else Some(e.cert),
             finishedAt := Some(now))
    {
      if e.NotIssued? {
        var _ := MarkFailed(id, e.err, now);
        return;
      }
      var _ := MarkSucceeded(id, e.cert, now);
      if e.NotPublished? {
        var _ := MarkFailed(id, e.err, now);
      }
    }
  }

  // ---------------------------------------------------------------- runs

  datatype Worker = Free | Executing(id: int) | Publishing(id: int)

  /** claims and lost are observations: the ids claimed so far, in order, and
      the jobs whose worker gave up without recording an outcome. */
  datatype World = World(q: Queue, workers: map<int, Worker>, claims: seq<int>, lost: set<int>)

  function WorkerOf(w: World, k: int): Worker { if k in w.workers then w.workers[k] else Free }

  datatype Action =
    | AddFleet(fleet: string)
    | DropFleet(fleet: string)
    | Create(r: Request)
    | Claim(k: int, id: int, now: int)
    | FailIssue(k: int, err: string, now: int)
    | Issue(k: int, cert: int, now: int)
    | FailPublish(k: int, err: string, now: int)
    | FinishPublish(k: int)
    | Abandon(k: int)

  const START := World(Queue(map[], 0, {}), map[], [], {})

  ghost predicate Next(w: World, w': World, act: Action) {
    match act
    case AddFleet(f) => w' == w.(q := w.q.(fleets := w.q.fleets + {f}))
    case DropFleet(f) => w' == w.(q := w.q.(fleets := w.q.fleets - {f}))
    case Create(r) => r.fleet in w.q.fleets && w' == w.(q := Requested(w.q, r))
    case Claim(k, id, now) => WorkerOf(w, k).Free? && Oldest(w.q, id) &&
      w' == w.(q := Taken(w.q, id, now), workers := w.workers[k := Executing(id)], claims := w.claims + [id])
    case FailIssue(k, err, now) => WorkerOf(w, k).Executing? && WorkerOf(w, k).id in w.q.jobs &&
      w' == w.(q := MarkedFailed(w.q, WorkerOf(w, k).id, err, now), workers := w.workers[k := Free])
    case Issue(k, cert, now) => WorkerOf(w, k).Executing? && WorkerOf(w, k).id in w.q.jobs &&
      var id := WorkerOf(w, k).id;
      w' == w.(q := MarkedSucceeded(w.q, id, cert, now), workers := w.workers[k := Publishing(id)])
    case FailPublish(k, err, now) => WorkerOf(w, k).Publishing? && WorkerOf(w, k).id in w.q.jobs &&
      w' == w.(q := MarkedFailed(w.q, WorkerOf(w, k).id, err, now), workers := w.workers[k := Free])
    case FinishPublish(k) => WorkerOf(w, k).Publishing? && w' == w.(workers := w.workers[k := Free])
    case Abandon(k) =>
      !WorkerOf(w, k).Free? && w' == w.(workers := w.workers[k := Free], lost := w.lost + {WorkerOf(w, k).id})
  }

  datatype Run = Run(worlds: seq<World>, actions: seq<Action>)

  ghost predicate IsRun(run: Run) {
    && |run.worlds| == |run.actions| + 1 && run.worlds[0] == START
    && forall i :: 0 <= i < |run.actions| ==> Next(run.worlds[i], run.worlds[i + 1], run.actions[i])
  }

  predicate Holds(w: World, k: int, id: int) { !WorkerOf(w, k).Free? && WorkerOf(w, k).id == id }

  /** Jobs 1 to |claims| have been claimed, in that order, and the rest wait. */
  ghost predicate Fifo(w: World) {
    && (forall i :: 0 <= i < |w.claims| ==> w.claims[i] == i + 1)
    && |w.claims| <= w.q.lastId
    && (forall id :: id in w.q.jobs <==> 1 <= id <= w.q.lastId)
    && (forall id :: id in w.q.jobs ==> (w.q.jobs[id].status == Pending <==> id > |w.claims|))
  }

  // The job a worker holds is where the worker left it.
  ghost predicate OwnerFits(w: World, k: int) {
    match WorkerOf(w, k)
    case Free => true
    case Executing(id) => id in w.q.jobs && w.q.jobs[id].status == Running
    case Publishing(id) => id in w.q.jobs && w.q.jobs[id].status == Succeeded
  }

  ghost predicate Owners(w: World) {
    && (forall k :: OwnerFits(w, k))
    && (forall k, l, id :: Holds(w, k, id) && Holds(w, l, id) ==> k == l)
    && (forall id :: id in w.q.jobs && w.q.jobs[id].status == Running && id !in w.lost ==> exists k :: Holds(w, k, id))
  }

  ghost predicate Inv(w: World) { Fifo(w) && Owners(w) }

  lemma FifoStep(w: World, w': World, act: Action)
    requires Inv(w) && Next(w, w', act)
    ensures Fifo(w')
  {
    hide Holds;
    if !act.AddFleet? && !act.DropFleet? && !act.Create? { assert OwnerFits(w, act.k); }
    if act.Claim? {
      assert act.id == |w.claims| + 1 by {
        assert act.id > |w.claims|;
        assert Waiting(w.q, |w.claims| + 1);
      }
    }
  }

  lemma OwnersStep(w: World, w': World, act: Action)
    requires Inv(w) && Next(w, w', act)
    ensures Owners(w')
  {
    if act.AddFleet? || act.DropFleet? || act.Create? {
      assert forall k, id :: Holds(w', k, id) <==> Holds(w, k, id);
      forall l ensures OwnerFits(w', l) { assert OwnerFits(w, l) && WorkerOf(w', l) == WorkerOf(w, l); }
    } else if act.Claim? {
      forall l ensures OwnerFits(w', l) { assert OwnerFits(w, l) && !Holds(w, l, act.id); }
      forall l ensures !Holds(w, l, act.id) { assert OwnerFits(w, l); }
      assert forall l, x :: Holds(w', l, x) <==> Holds(w, l, x) || (l == act.k && x == act.id);
      assert Holds(w', act.k, act.id);
    } else {
      var k, id := act.k, WorkerOf(w, act.k).id;
      assert Holds(w, k, id);
      assert forall l, x :: l != k ==> (Holds(w', l, x) <==> Holds(w, l, x));
      assert forall l :: l != k ==> !Holds(w, l, id) && WorkerOf(w', l) == WorkerOf(w, l);
      forall l ensures OwnerFits(w', l) {
        assert OwnerFits(w, l) && OwnerFits(w, k);
      }
      forall x | x in w'.q.jobs && w'.q.jobs[x].status == Running && x !in w'.lost ensures exists l :: Holds(w', l, x) {
        var l :| Holds(w, l, x);
        assert OwnerFits(w, k);
        assert l != k && Holds(w', l, x);
      }
    }
  }

  lemma StepOf(run: Run, n: nat)
    requires IsRun(run) && n < |run.actions|
    ensures n + 1 < |run.worlds| && Next(run.worlds[n], run.worlds[n + 1], run.actions[n])
  {
    hide Next;
  }

  lemma {:induction false} RunKeepsInv(run: Run, n: nat)
    requires IsRun(run) && n < |run.worlds|
    ensures Inv(run.worlds[n])
  {
    if n > 0 {
      hide Fifo, Owners, Next;
      RunKeepsInv(run, n - 1);
      FifoStep(run.worlds[n - 1], run.worlds[n], run.actions[n - 1]);
      OwnersStep(run.worlds[n - 1], run.worlds[n], run.actions[n - 1]);
    }
  }

  /** The n-th claim of a run takes the n-th job created, whichever worker makes
      it: claimed ids strictly increase, no job is claimed twice, and a job is
      pending exactly as long as it has not been claimed. */
  lemma ClaimsAreFirstInFirstOut(run: Run, n: nat)
    requires IsRun(run) && n < |run.worlds|
    ensures var w := run.worlds[n];
      && (forall i :: 0 <= i < |w.claims| ==> w.claims[i] == i + 1)
      && (forall i, j :: 0 <= i < j < |w.claims| ==> w.claims[i] < w.claims[j])
      && (forall id :: 1 <= id <= w.q.lastId ==> id in w.q.jobs && (w.q.jobs[id].status == Pending <==> id !in w.claims))
  {
    hide IsRun, Owners;
    RunKeepsInv(run, n);
    var w := run.worlds[n];
    forall id | 1 <= id <= w.q.lastId ensures id in w.q.jobs && (w.q.jobs[id].status == Pending <==> id !in w.claims) {
      if id <= |w.claims| { assert w.claims[id - 1] == id; }
    }
  }

  /** A running job is executed by exactly one worker, unless its worker gave up. */
  lemma RunningJobHasOneWorker(run: Run, n: nat, id: int)
    requires IsRun(run) && n < |run.worlds|
    requires var w := run.worlds[n]; id in w.q.jobs && w.q.jobs[id].status == Running
    ensures var w := run.worlds[n];
      && (forall k, l :: Holds(w, k, id) && Holds(w, l, id) ==> k == l)
      && (id in w.lost || exists k :: Holds(w, k, id))
  {
    hide IsRun, Fifo;
    RunKeepsInv(run, n);
  }

  // ---------------------------------------------------------------- life cycle

  function Rank(s: Status): nat {
    match s case Pending => 0 case Running => 1 case Succeeded => 2 case Failed => 3
  }

  /** Job j may become j2: its request stays, it never goes back, a certificate
      is recorded exactly on the way to success and then kept, and failure is final. */
  predicate MayBecome(j: Job, j2: Job) {
    && j2.request == j.request && j2.id == j.id
    && Rank(j.status) <= Rank(j2.status)
    && (Rank(j.status) == Rank(j2.status) ==> j2 == j)
    && (j.certId.Some? ==> j2.certId == j.certId)
  }

  // A certificate is recorded exactly for jobs that succeeded, whatever came after.
  ghost predicate CertsFit(w: World) {
    forall id :: id in w.q.jobs ==>
      (w.q.jobs[id].status == Succeeded ==> w.q.jobs[id].certId.Some?) &&
      (w.q.jobs[id].certId.Some? ==> Rank(w.q.jobs[id].status) >= 2)
  }

  lemma CycleStep(w: World, w': World, act: Action, id: int)
    requires Inv(w) && CertsFit(w) && Next(w, w', act) && id in w.q.jobs
    ensures id in w'.q.jobs && MayBecome(w.q.jobs[id], w'.q.jobs[id])
  {
    hide Holds;
    if !act.AddFleet? && !act.DropFleet? && !act.Create? { assert OwnerFits(w, act.k); }
  }

  lemma {:induction false} CertsAlong(run: Run, n: nat)
    requires IsRun(run) && n < |run.worlds|
    ensures CertsFit(run.worlds[n])
  {
    if n > 0 {
      CertsAlong(run, n - 1);
      RunKeepsInv(run, n - 1);
      StepOf(run, n - 1);
      hide IsRun, Holds;
      CertsStep(run.worlds[n - 1], run.worlds[n], run.actions[n - 1]);
    }
  }

  lemma CertsStep(w: World, w': World, act: Action)
    requires Inv(w) && CertsFit(w) && Next(w, w', act)
    ensures CertsFit(w')
  {
    hide Holds;
    if !act.AddFleet? && !act.DropFleet? && !act.Create? { assert OwnerFits(w, act.k); }
  }

  /** Over any run a job keeps its request and only moves forward: pending, then
      running, then succeeded or failed. Success can still turn into failure,
      with the certificate kept; failure is final. */
  lemma {:induction false} JobsOnlyMoveForward(run: Run, i: nat, j: nat, id: int)
    requires IsRun(run) && i <= j < |run.worlds| && id in run.worlds[i].q.jobs
    ensures id in run.worlds[j].q.jobs && MayBecome(run.worlds[i].q.jobs[id], run.worlds[j].q.jobs[id])
    decreases j - i
  {
    if i < j {
      JobsOnlyMoveForward(run, i, j - 1, id);
      RunKeepsInv(run, j - 1);
      CertsAlong(run, j - 1);
      StepOf(run, j - 1);
      hide IsRun, Inv, Next, CertsFit;
      CycleStep(run.worlds[j - 1], run.worlds[j], run.actions[j - 1], id);
    }
  }

  ghost predicate SucceededAt(run: Run, m: nat, id: int)
    requires m < |run.worlds|
  {
    id in run.worlds[m].q.jobs && run.worlds[m].q.jobs[id].status == Succeeded
  }

  /** A job carries a certificate exactly when it succeeded at some moment, so a
      failed job with a certificate is one whose publication failed. */
  lemma {:induction false} CertificateMeansItSucceeded(run: Run, n: nat, id: int)
    requires IsRun(run) && n < |run.worlds| && id in run.worlds[n].q.jobs
    ensures run.worlds[n].q.jobs[id].certId.Some? <==> exists m :: 0 <= m <= n && SucceededAt(run, m, id)
  {
    if m :| 0 <= m <= n && SucceededAt(run, m, id) {
      CertsAlong(run, m);
      JobsOnlyMoveForward(run, m, n, id);
    }
    if run.worlds[n].q.jobs[id].certId.Some? && !SucceededAt(run, n, id) {
      CertBefore(run, n, id);
    }
  }

  lemma {:induction false} CertBefore(run: Run, n: nat, id: int)
    requires IsRun(run) && n < |run.worlds| && id in run.worlds[n].q.jobs && run.worlds[n].q.jobs[id].certId.Some?
    ensures exists m :: 0 <= m <= n && SucceededAt(run, m, id)
  {
    if SucceededAt(run, n, id) {
    } else if n > 0 {
      StepOf(run, n - 1);
      assert id in run.worlds[n - 1].q.jobs && run.worlds[n - 1].q.jobs[id].certId.Some?;
      CertBefore(run, n - 1, id);
    }
  }
}
