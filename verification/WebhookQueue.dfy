/** The webhook delivery queue: the store's atomic operations and one worker's
    handling of a claimed job. Times are whole seconds. */
module WebhookQueue {
  import opened Wrappers
  import opened RevisionStore

  datatype Status = Pending | Running | Succeeded | Failed

  datatype Job = Job(id: int, hook: int, payload: string, status: Status, attempts: int, nextRunAt: int,
                     lastError: string, finishedAt: Option<int>)

  datatype Hook = Hook(fleet: string, url: string, secret: string, events: seq<string>, enabled: bool)

  datatype Queue = Queue(jobs: map<int, Job>, lastId: int, hooks: map<int, Hook>)

  const MAX_ATTEMPTS := 5

  predicate Terminal(j: Job) { j.status == Succeeded || j.status == Failed }

  function Enqueued(q: Queue, hook: int, payload: string, now: int): Queue {
    var id := q.lastId + 1;
    q.(jobs := q.jobs[id := Job(id, hook, payload, Pending, 0, now, "", None)], lastId := id)
  }

  predicate Due(q: Queue, id: int, now: int) {
    id in q.jobs && q.jobs[id].status == Pending && q.jobs[id].nextRunAt <= now
  }

  function Claimed(q: Queue, id: int): Queue
    requires id in q.jobs
  {
    q.(jobs := q.jobs[id := q.jobs[id].(status := Running)])
  }

  function Finished(q: Queue, id: int, status: Status, err: string, nextRunAt: int, attempts: int, now: int): Queue
    requires id in q.jobs
  {
    var j := q.jobs[id].(status := status, lastError := err, attempts := attempts, nextRunAt := nextRunAt);
    var j := if status == Succeeded || status == Failed then j.(finishedAt := Some(now)) else j;
    q.(jobs := q.jobs[id := j])
  }

  /** What a delivery meets: a request that cannot be built, no answer, or an
      HTTP status, as a number and as the text after it. */
  datatype Outcome = Unsendable(err: string) | Unreachable(err: string) | Answered(code: int, status: string)

  predicate Delivered(o: Outcome) { o.Answered? && 200 <= o.code < 300 }

  function ErrorText(o: Outcome): string {
    match o case Unsendable(e) => e case Unreachable(e) => "transport: " + e case Answered(_, st) => "non-2xx: " + st
  }

  function Pow5(n: nat): nat { if n == 0 then 1 else 5 * Pow5(n - 1) }

  /** The state after a worker settles the job it claimed. */
  function Settled(q: Queue, j: Job, o: Outcome, now: int): Queue
    requires j.id in q.jobs && j.attempts >= 0
  {
    var attempts := j.attempts + 1;
    if o.Unsendable? then Finished(q, j.id, Failed, ErrorText(o), now, attempts, now)
    else if Delivered(o) then Finished(q, j.id, Succeeded, "", now, attempts, now)
    else if attempts >= MAX_ATTEMPTS then Finished(q, j.id, Failed, ErrorText(o), now, attempts, now)
    else Finished(q, j.id, Pending, ErrorText(o), now + Pow5(attempts), attempts, now)
  }

  /** What settling a delivery records. The job has succeeded exactly when the
      answer's code is from 200 to 299; it has failed when no request could be
      built, or when this was the fifth attempt; otherwise it waits 5, 25, 125 or
      625 seconds. Nothing else in the queue changes. */
  lemma SettledExactly(q: Queue, j: Job, o: Outcome, now: int)
    requires j.id in q.jobs && 0 <= j.attempts
    ensures var q' := Settled(q, j, o, now); var was, r := q.jobs[j.id], q'.jobs[j.id];
      var ok, retry := o.Answered? && 200 <= o.code <= 299, !o.Unsendable? && j.attempts < 4;
      && q' == q.(jobs := q.jobs[j.id := r])
      && r.id == was.id && r.hook == was.hook && r.payload == was.payload && r.attempts == j.attempts + 1
      && (r.status == Succeeded <==> ok)
      && (r.status == Failed <==> !ok && !retry)
      && (r.status == Pending <==> !ok && retry)
      && (r.status == Pending ==> r.nextRunAt == now + [5, 25, 125, 625][j.attempts] && r.finishedAt == was.finishedAt)
      && (r.status != Pending ==> r.nextRunAt == now && r.finishedAt == Some(now))
      && (ok ==> r.lastError == "")
      && (o.Unsendable? ==> r.lastError == o.err)
      && (o.Unreachable? ==> r.lastError == "transport: " + o.err)
      && (o.Answered? && !ok ==> r.lastError == "non-2xx: " + o.status)
  {
    Powers();
  }

  lemma Powers()
    ensures Pow5(1) == 5 && Pow5(2) == 25 && Pow5(3) == 125 && Pow5(4) == 625
  {
    assert Pow5(0) == 1;
  }

  /** The backoff loop: the delay is multiplied by five once per attempt. */
  method Backoff(attempts: nat) returns (delay: nat)
    ensures delay == Pow5(attempts)
  {
    delay := 1;
    for i := 0 to attempts
      invariant delay == Pow5(i)
    {
      delay := delay * 5;
    }
  }

  // ---------------------------------------------------------------- firing an event

  predicate Wants(h: Hook, fleet: string, event: string) {
    h.fleet == fleet && h.enabled && event in h.events
  }

  /** The enabled hooks of a fleet that subscribe to an event, each once, in any order. */
  ghost predicate Subscribers(ids: seq<int>, hooks: map<int, Hook>, fleet: string, event: string) {
    && (forall id :: id in ids <==> id in hooks && Wants(hooks[id], fleet, event))
    && (forall i, j :: 0 <= i < j < |ids| ==> ids[i] != ids[j])
  }

  // One job per hook, in the order of the list.
  function EnqueuedFor(q: Queue, ids: seq<int>, payload: string, clock: nat -> int): Queue {
    if ids == [] then q
    else Enqueued(EnqueuedFor(q, ids[..|ids| - 1], payload, clock), ids[|ids| - 1], payload, clock(|ids| - 1))
  }

  lemma {:induction false} EnqueuedForAt(q: Queue, ids: seq<int>, payload: string, clock: nat -> int, id: int)
    requires JobsOk(q)
    ensures var q' := EnqueuedFor(q, ids, payload, clock);
      && JobsOk(q') && q'.lastId == q.lastId + |ids| && q'.hooks == q.hooks
      && (id <= q.lastId ==> (id in q'.jobs <==> id in q.jobs) && (id in q.jobs ==> q'.jobs[id] == q.jobs[id]))
      && (q.lastId < id <= q.lastId + |ids| ==>
            id in q'.jobs && q'.jobs[id] == Job(id, ids[id - q.lastId - 1], payload, Pending, 0, clock(id - q.lastId - 1), "", None))
  {
    if ids != [] { EnqueuedForAt(q, ids[..|ids| - 1], payload, clock, id); }
  }

  ghost predicate NewJobFor(q: Queue, q': Queue, hook: int, payload: string, clock: nat -> int, id: int) {
    id !in q.jobs && id in q'.jobs &&
    exists t: nat :: q'.jobs[id] == Job(id, hook, payload, Pending, 0, clock(t), "", None)
  }

  /** An event leaves every existing job alone and makes exactly one new pending
      job, due at once, for each enabled hook of the fleet that subscribes to it,
      and none for any other hook. */
  lemma EventsFireOnce(q: Queue, ids: seq<int>, fleet: string, event: string, payload: string, clock: nat -> int)
    requires JobsOk(q) && Subscribers(ids, q.hooks, fleet, event)
    ensures var q' := EnqueuedFor(q, ids, payload, clock);
      && JobsOk(q') && q'.hooks == q.hooks
      && (forall id :: id in q.jobs ==> id in q'.jobs && q'.jobs[id] == q.jobs[id])
      && (forall h :: h in q.hooks && q.hooks[h].fleet == fleet && q.hooks[h].enabled && event in q.hooks[h].events ==>
            exists id :: NewJobFor(q, q', h, payload, clock, id))
      && (forall id :: id in q'.jobs && id !in q.jobs ==>
            var h := q'.jobs[id].hook;
            h in q.hooks && q.hooks[h].fleet == fleet && q.hooks[h].enabled && event in q.hooks[h].events)
      && (forall id, x :: id in q'.jobs && x in q'.jobs && id !in q.jobs && x !in q.jobs && id != x ==>
            q'.jobs[id].hook != q'.jobs[x].hook)
  {
    hide EnqueuedFor;
    var q' := EnqueuedFor(q, ids, payload, clock);
    EnqueuedForAt(q, ids, payload, clock, 0);
    forall id | id in q.jobs ensures id in q'.jobs && q'.jobs[id] == q.jobs[id] { EnqueuedForAt(q, ids, payload, clock, id); }
    forall id | id in q'.jobs && id !in q.jobs
      ensures q.lastId < id <= q.lastId + |ids| && q'.jobs[id].hook == ids[id - q.lastId - 1]
    {
      EnqueuedForAt(q, ids, payload, clock, id);
    }
    forall h | h in q.hooks && Wants(q.hooks[h], fleet, event) ensures exists id :: NewJobFor(q, q', h, payload, clock, id) {
      assert h in ids;
      var i :| 0 <= i < |ids| && ids[i] == h;
      EnqueuedForAt(q, ids, payload, clock, q.lastId + 1 + i);
      assert NewJobFor(q, q', h, payload, clock, q.lastId + 1 + i);
    }
  }

  // ---------------------------------------------------------------- remaining work

  function Left(j: Job): nat {
    if Terminal(j) || j.attempts >= MAX_ATTEMPTS then 0 else if j.attempts < 0 then MAX_ATTEMPTS else MAX_ATTEMPTS - j.attempts
  }

  /** Attempts still to be made, over all jobs up to an id. */
  function Remaining(q: Queue, n: nat): nat {
    if n == 0 then 0 else Remaining(q, n - 1) + if n in q.jobs then Left(q.jobs[n]) else 0
  }

  lemma {:induction false} RemainingUpdate(q: Queue, q': Queue, id: int, n: nat)
    requires id in q.jobs && id in q'.jobs && q'.jobs.Keys == q.jobs.Keys
    requires forall k :: k in q.jobs && k != id ==> q'.jobs[k] == q.jobs[k]
    ensures Remaining(q', n) == Remaining(q, n) + if 1 <= id <= n then Left(q'.jobs[id]) - Left(q.jobs[id]) else 0
  {
    if n > 0 { RemainingUpdate(q, q', id, n - 1); }
  }

  /** Settling a claimed job takes away at least one remaining attempt. */
  lemma SettlingUsesAnAttempt(q: Queue, j: Job, o: Outcome, now: int, n: nat)
    requires j.id in q.jobs && 1 <= j.id <= n && q.jobs[j.id].status == Running
    requires q.jobs[j.id].attempts == j.attempts && 0 <= j.attempts < MAX_ATTEMPTS
    ensures Remaining(Settled(q, j, o, now), n) < Remaining(q, n)
  {
    RemainingUpdate(q, Settled(q, j, o, now), j.id, n);
  }

  lemma ClaimingUsesNothing(q: Queue, id: int, n: nat)
    requires id in q.jobs && q.jobs[id].status == Pending
    ensures Remaining(Claimed(q, id), n) == Remaining(q, n)
  {
    RemainingUpdate(q, Claimed(q, id), id, n);
  }

  // ---------------------------------------------------------------- the store and the worker

  /** Every job has a positive id and has made fewer than the maximum of
      attempts unless it is over. */
  ghost predicate JobsOk(q: Queue) {
    q.lastId >= 0 && forall id :: id in q.jobs ==>
      1 <= id <= q.lastId && q.jobs[id].id == id && 0 <= q.jobs[id].attempts <= MAX_ATTEMPTS &&
      (!Terminal(q.jobs[id]) ==> q.jobs[id].attempts < MAX_ATTEMPTS)
  }

  // A job that was claimed although its hook is gone.
  predicate Orphan(q: Queue, id: int) {
    id in q.jobs && q.jobs[id].status == Running && q.jobs[id].hook !in q.hooks
  }

  lemma ClaimedJob(q: Queue, id: int)
    requires JobsOk(q) && id in q.jobs && q.jobs[id].status == Running
    ensures 1 <= id <= q.lastId && q.jobs[id].id == id && 0 <= q.jobs[id].attempts < MAX_ATTEMPTS
  {
  }

  lemma SettledJobsOk(q: Queue, j: Job, o: Outcome, now: int)
    requires JobsOk(q) && j.id in q.jobs && j == q.jobs[j.id] && j.status == Running
    ensures JobsOk(Settled(q, j, o, now)) && Settled(q, j, o, now).lastId == q.lastId
  {
    hide Pow5;
  }

  class WebhookStore {
    var jobs: map<int, Job>
    var lastId: int
    var hooks: map<int, Hook>

    function State(): Queue
      reads this
    {
      Queue(jobs, lastId, hooks)
    }

    constructor ()
      ensures State() == Queue(map[], 0, map[])
    {
      jobs, lastId, hooks := map[], 0, map[];
    }

    method Enqueue(hook: int, payload: string, now: int) returns (j: Job)
      modifies this
      ensures State() == Enqueued(old(State()), hook, payload, now)
      ensures lastId == old(lastId) + 1 && j == Job(lastId, hook, payload, Pending, 0, now, "", None)
      ensures jobs == old(jobs)[lastId := j] && hooks == old(hooks)
    {
      lastId := lastId + 1;
      j := Job(lastId, hook, payload, Pending, 0, now, "", None);
      jobs := jobs[lastId := j];
    }

    /** ListEnabledWebhooks. */
    method ListEnabled(fleet: string, event: string) returns (ids: seq<int>)
      ensures Subscribers(ids, hooks, fleet, event)
      ensures forall id :: id in ids <==> id in hooks && hooks[id].fleet == fleet && hooks[id].enabled && event in hooks[id].events
      ensures forall i, j :: 0 <= i < j < |ids| ==> ids[i] != ids[j]
    {
      ids := [];
      var todo := hooks.Keys;
      while todo != {}
        invariant todo <= hooks.Keys
        invariant forall id :: id in ids <==> id in hooks && id !in todo && Wants(hooks[id], fleet, event)
        invariant forall i, j :: 0 <= i < j < |ids| ==> ids[i] != ids[j]
      {
        var id := AnyOf(todo);
        todo := todo - {id};
        if Wants(hooks[id], fleet, event) {
          ids := ids + [id];
        }
      }
    }

    /** fireWebhooks, with the payload already written. */
    method FireWebhooks(fleet: string, event: string, payload: string, clock: nat -> int)
      modifies this
      ensures exists ids :: Subscribers(ids, old(hooks), fleet, event) && State() == EnqueuedFor(old(State()), ids, payload, clock)
    {
      var ids := ListEnabled(fleet, event);
      ghost var q := State();
      for i := 0 to |ids|
        invariant State() == EnqueuedFor(q, ids[..i], payload, clock)
      {
        assert ids[..i + 1][..i] == ids[..i];
        var _ := Enqueue(ids[i], payload, clock(i));
      }
      assert ids[..|ids|] == ids;
    }

    /** ClaimNextWebhookJob: some due job becomes running. When its hook is gone
        the job stays running and nothing is returned. */
    method ClaimNext(now: int) returns (r: Result<(Job, Hook), StoreError>)
      requires JobsOk(State())
      modifies this
      ensures JobsOk(State())
      ensures r.Success? ==> var j := r.value.0;
        && Due(old(State()), j.id, now) && State() == Claimed(old(State()), j.id)
        && j.id in old(jobs) && old(jobs)[j.id].status == Pending && old(jobs)[j.id].nextRunAt <= now
        && j == old(jobs)[j.id].(status := Running) && jobs == old(jobs)[j.id := j] && lastId == old(lastId) && hooks == old(hooks)
        && j.hook in old(hooks) && r.value.1 == old(hooks)[j.hook]
      ensures r.Failure? ==> r.error == NotFound
      ensures r.Failure? && State() == old(State()) ==> forall id :: !Due(old(State()), id, now)
      ensures r.Failure? && State() == old(State()) ==>
        forall id :: id in jobs && jobs[id].status == Pending ==> jobs[id].nextRunAt > now
      ensures r.Failure? && State() != old(State()) ==>
        exists id :: Due(old(State()), id, now) && old(jobs)[id].hook !in old(hooks) && State() == Claimed(old(State()), id)
    {
      ghost var q := State();
      var todo := jobs.Keys;
      while todo != {}
        invariant State() == q && todo <= jobs.Keys
        invariant forall id :: id in jobs && id !in todo ==> !Due(q, id, now)
      {
        var id := AnyOf(todo);
        todo := todo - {id};
        if jobs[id].status != Pending || jobs[id].nextRunAt > now {
          continue;
        }
        assert Due(q, id, now);
        var picked := jobs[id].(status := Running);
        jobs := jobs[id := picked];
        if picked.hook !in hooks {
          return Failure(NotFound);
        }
        return Success((picked, hooks[picked.hook]));
      }
      r := Failure(NotFound);
    }

    method Finish(id: int, status: Status, err: string, nextRunAt: int, attempts: int, now: int) returns (r: Result<(), StoreError>)
      modifies this
      ensures if id in old(jobs) then r.Success? && State() == Finished(old(State()), id, status, err, nextRunAt, attempts, now)
              else r == Failure(NotFound) && State() == old(State())
      ensures id in old(jobs) ==>
        lastId == old(lastId) && hooks == old(hooks) &&
        jobs == old(jobs)[id := old(jobs)[id].(status := status, lastError := err, attempts := attempts, nextRunAt := nextRunAt,
                                finishedAt := if status in {Succeeded, Failed} then Some(now) else old(jobs)[id].finishedAt)]
    {
      if id !in jobs {
        return Failure(NotFound);
      }
      var j := jobs[id].(status := status, lastError := err, attempts := attempts, nextRunAt := nextRunAt);
      if status == Succeeded || status == Failed {
        j := j.(finishedAt := Some(now));
      }
      jobs := jobs[id := j];
      r := Success(());
    }

    /** deliverWebhook with retryWebhook and finishWebhook. */
    method Deliver(j: Job, o: Outcome, now: int)
      requires j.id in jobs && j.attempts >= 0
      modifies this
      ensures State() == Settled(old(State()), j, o, now)
    {
      var attempts := j.attempts + 1;
      if o.Unsendable? {
        var _ := Finish(j.id, Failed, ErrorText(o), now, attempts, now);
      } else if Delivered(o) {
        var _ := Finish(j.id, Succeeded, "", now, attempts, now);
      } else if attempts >= MAX_ATTEMPTS {
        var _ := Finish(j.id, Failed, ErrorText(o), now, attempts, now);
      } else {
        var delay := Backoff(attempts);
        var _ := Finish(j.id, Pending, ErrorText(o), now + delay, attempts, now);
      }
    }

    /** The inner drain loop ends: with nothing enqueued meanwhile, each
        delivery uses up an attempt. It stops when no job is due, or at a job
        whose hook is gone. The clock and the outcomes are arbitrary. */
    method Drain(clock: nat -> int, outcome: nat -> Outcome) returns (deliveries: nat)
      requires JobsOk(State())
      modifies this
      ensures JobsOk(State()) && lastId == old(lastId)
      ensures deliveries + Remaining(State(), lastId) <= Remaining(old(State()), old(lastId))
      ensures (forall id :: !Due(State(), id, clock(2 * deliveries))) || (exists id :: Orphan(State(), id))
    {
      assert lastId >= 0;
      hide JobsOk, Settled, Remaining, Left;
      deliveries := 0;
      ghost var start := Remaining(State(), lastId);
      while true
        invariant JobsOk(State()) && lastId == old(lastId)
        invariant deliveries + Remaining(State(), lastId) <= start
        decreases Remaining(State(), lastId)
      {
        ghost var q := State();
        var claimed := ClaimNext(clock(2 * deliveries));
        if claimed.Failure? {
          if State() != q {
            ghost var id :| Due(q, id, clock(2 * deliveries)) && q.jobs[id].hook !in q.hooks && State() == Claimed(q, id);
            ClaimingUsesNothing(q, id, lastId);
            assert Orphan(State(), id);
          }
          break;
        }
        var j := claimed.value.0;
        ClaimingUsesNothing(q, j.id, lastId);
        ClaimedJob(State(), j.id);
        SettledJobsOk(State(), j, outcome(deliveries), clock(2 * deliveries + 1));
        SettlingUsesAnAttempt(State(), j, outcome(deliveries), clock(2 * deliveries + 1), lastId);
        Deliver(j, outcome(deliveries), clock(2 * deliveries + 1));
        deliveries := deliveries + 1;
      }
    }
  }
}
