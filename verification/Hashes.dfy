/** What every hash says about its job: its times, worker and dead-letter entry follow from its state. */
module Hashes {
  import opened Redis
  import opened Domain
  import opened BrokerSpec
  import opened Stranded
  import opened Partition
  import opened PartitionRuns
  import opened Filing
  import opened Cancellation
  import opened Fencing

  /**
   * A finished job and no other has a finishing time; an active one and no other a lease expiry, and the worker its token
   * was given to; a throttled one and no other a throttle time, which is when it is due; only active and completed ones
   * name a worker.
   */
  predicate Tidy(job: Job) {
    && (job.finishedAt.Some? <==> job.state == Completed || job.state == Failed || job.state == Canceled)
    && (job.leaseExpiresAt.Some? <==> job.state == Active)
    && (job.throttleUntil.Some? <==> job.state == Throttled) && (job.state == Throttled ==> job.throttleUntil == Some(job.runAt))
    && (job.worker != "" ==> job.state == Active || job.state == Completed)
    && (job.state == Active ==> job.token.LeaseToken? && job.token.worker == job.worker)
  }

  /** The dead letters of a queue are its failed jobs. */
  ghost predicate DeadLettersTrue(s: State) {
    forall q, x :: x in s.DeadLetters(q) <==> x in s.jobs && s.jobs[x].state == Failed && s.jobs[x].queue == q
  }

  ghost predicate AllTidy(s: State) { forall x :: x in s.jobs ==> Tidy(s.jobs[x]) }

  ghost predicate Inv(s: State) { Partitioned(s) && AllTidy(s) && DeadLettersTrue(s) }

  /**
   * The partition discipline; and jobs are handed in with such hashes, reports name the job's own queue, and replays keep it.
   */
  predicate Careful(s: State, step: Step) {
    && Disciplined(s, step)
    && match step
       case EnqueueStep(_, job, _) => Tidy(job)
       case FailStep(id, queue, token, _, _) => TokenMatches(s, id, token) ==> queue == s.jobs[id].queue
       case RetryStep(id, job, _) => id in s.jobs ==> job.queue == s.jobs[id].queue
       case _ => true
  }

  /** One hash changes, and the dead letters change with it. */
  lemma OneHash(s: State, t: State, id: Id)
    requires AllTidy(s) && DeadLettersTrue(s) && id in t.jobs && t.jobs == s.jobs[id := t.jobs[id]] && Tidy(t.jobs[id])
    requires forall q, x :: x != id ==> (x in t.DeadLetters(q) <==> x in s.DeadLetters(q))
    requires forall q :: id in t.DeadLetters(q) <==> t.jobs[id].state == Failed && t.jobs[id].queue == q
    ensures AllTidy(t) && DeadLettersTrue(t)
  {
    forall q, x ensures x in t.DeadLetters(q) <==> x in t.jobs && t.jobs[x].state == Failed && t.jobs[x].queue == q {
      assert x != id ==> (x in s.DeadLetters(q) <==> x in s.jobs && s.jobs[x].state == Failed && s.jobs[x].queue == q);
    }
  }

  /** A hash that neither was nor becomes failed leaves the dead letters alone. */
  lemma QuietHash(s: State, t: State, id: Id)
    requires AllTidy(s) && DeadLettersTrue(s) && id in t.jobs && t.jobs == s.jobs[id := t.jobs[id]] && Tidy(t.jobs[id])
    requires t.dlq == s.dlq && t.jobs[id].state != Failed && (id in s.jobs ==> s.jobs[id].state != Failed)
    ensures AllTidy(t) && DeadLettersTrue(t)
  {
    forall q ensures t.DeadLetters(q) == s.DeadLetters(q) && id !in s.DeadLetters(q) {}
    OneHash(s, t, id);
  }

  /** A hash that becomes failed, with the id pushed on its queue's dead letters. */
  lemma FailedHash(s: State, t: State, id: Id)
    requires AllTidy(s) && DeadLettersTrue(s) && id in t.jobs && t.jobs == s.jobs[id := t.jobs[id]] && Tidy(t.jobs[id])
    requires t.jobs[id].state == Failed && id in s.jobs && s.jobs[id].state != Failed
    requires t.dlq == s.dlq[t.jobs[id].queue := [id] + s.DeadLetters(t.jobs[id].queue)]
    ensures AllTidy(t) && DeadLettersTrue(t)
  {
    var k := t.jobs[id].queue;
    forall q ensures id !in s.DeadLetters(q) && t.DeadLetters(q) == if q == k then [id] + s.DeadLetters(q) else s.DeadLetters(q) {}
    assert t.DeadLetters(k)[0] == id;
    OneHash(s, t, id);
  }

  lemma EnqueueStaysTrue(s: State, id: Id, job: Job, now: int)
    requires Inv(s) && Enqueueable(job) && Tidy(job) && (id in s.jobs ==> s.jobs[id].state.Blocked?)
    ensures AllTidy(Enqueue(s, id, job, now)) && DeadLettersTrue(Enqueue(s, id, job, now))
  {
    EnqueueFiles(s, id, job, now);
    QuietHash(s, Enqueue(s, id, job, now), id);
  }

  lemma DequeueStaysTrue(s: State, keys: seq<ReadyKey>, worker: string, ttl: int, now: int)
    requires Inv(s)
    ensures var t := Dequeue(s, keys, worker, ttl, now).0; AllTidy(t) && DeadLettersTrue(t)
  {
    DequeueExact(s, keys, worker, ttl, now);
    var i := FirstNonEmpty(s, keys);
    if i < |keys| { LeaseStaysTrue(s, keys[i], worker, ttl, now); }
  }

  lemma LeaseStaysTrue(s: State, k: ReadyKey, worker: string, ttl: int, now: int)
    requires Inv(s) && s.Ready(k) != []
    ensures var id := s.Ready(k)[0];
            id in s.jobs && AllTidy(Lease(PopReady(s, k), id, worker, ttl, now)) && DeadLettersTrue(Lease(PopReady(s, k), id, worker, ttl, now))
  {
    var id := s.Ready(k)[0];
    InReady(s, k, id);
    QuietHash(s, Lease(PopReady(s, k), id, worker, ttl, now), id);
  }

  lemma HeartbeatStaysTrue(s: State, id: Id, token: Token, ttl: int, now: int)
    requires Inv(s)
    ensures var t := Heartbeat(s, id, token, ttl, now).0; AllTidy(t) && DeadLettersTrue(t)
  {
    var (t, ok) := Heartbeat(s, id, token, ttl, now);
    if ok { QuietHash(s, t, id); }
  }

  lemma CompleteStaysTrue(s: State, id: Id, token: Token, worker: string, now: int)
    requires Inv(s) && token != NoToken
    ensures var t := Complete(s, id, token, worker, now).0; AllTidy(t) && DeadLettersTrue(t)
  {
    var (t, ok) := Complete(s, id, token, worker, now);
    if ok { HolderIsActive(s, id, token); QuietHash(s, t, id); }
  }

  lemma FailStaysTrue(s: State, id: Id, queue: string, token: Token, retryAt: Option<int>, now: int)
    requires Inv(s) && token != NoToken && (TokenMatches(s, id, token) ==> queue == s.jobs[id].queue)
    ensures var t := Fail(s, id, queue, token, retryAt, now).0; AllTidy(t) && DeadLettersTrue(t)
  {
    var (t, ok) := Fail(s, id, queue, token, retryAt, now);
    if ok {
      HolderIsActive(s, id, token);
      if retryAt.Some? { QuietHash(s, t, id); } else { FailedHash(s, t, id); }
    }
  }

  lemma ThrottleStaysTrue(s: State, id: Id, token: Token, until: int)
    requires Inv(s) && token != NoToken
    ensures var t := Throttle(s, id, token, until).0; AllTidy(t) && DeadLettersTrue(t)
  {
    var (t, ok) := Throttle(s, id, token, until);
    if ok { HolderIsActive(s, id, token); QuietHash(s, t, id); }
  }

  lemma {:induction false} ActivateStaysTrue(s: State, ids: seq<Id>)
    requires Inv(s) && Distinct(ids) && forall id :: id in ids ==> id in s.delayed
    ensures Inv(ActivateAll(s, ids).0)
    decreases |ids|
  {
    if ids != [] {
      var rest, id := Init(ids), Last(ids);
      assert ids == rest + [id] && id in ids && id !in rest;
      ActivateStaysTrue(s, rest);
      ActivateAllSets(s, rest);
      ActivateOneStaysTrue(ActivateAll(s, rest).0, id);
    }
  }

  lemma ActivateOneStaysTrue(s: State, id: Id)
    requires Inv(s) && id in s.delayed
    ensures Inv(ActivateOne(s, id).0)
  {
    InDelayed(s, id);
    ActivateOneExact(s, id);
    QuietHash(s, ActivateOne(s, id).0, id);
  }

  lemma {:induction false} RecoverStaysTrue(s: State, ids: seq<Id>, now: int, c: Config)
    requires Inv(s) && Distinct(ids) && forall id :: id in ids ==> id in s.leases
    ensures Inv(RecoverAll(s, ids, now, c).0)
    decreases |ids|
  {
    if ids != [] {
      var rest, id := Init(ids), Last(ids);
      assert ids == rest + [id] && id in ids && id !in rest;
      assert forall x :: x in rest ==> x in ids;
      RecoverStaysTrue(s, rest, now, c);
      RecoverAllExact(s, rest, now, c);
      RecoverOneStaysTrue(RecoverAll(s, rest, now, c).0, id, now, c);
    }
  }

  lemma RecoverOneStaysTrue(s: State, id: Id, now: int, c: Config)
    requires Inv(s) && id in s.leases
    ensures Inv(RecoverOne(s, id, now, c).0)
  {
    InLeases(s, id);
    RecoverOneExact(s, id, now, c);
    var t := RecoverOne(s, id, now, c).0;
    RecoverJobShape(s.jobs[id], now, c);
    if t.jobs[id].state == Failed { FailedHash(s, t, id); } else { QuietHash(s, t, id); }
  }

  lemma RetryStaysTrue(s: State, id: Id, job: Job, now: int)
    requires Inv(s) && (id in s.jobs ==> job.queue == s.jobs[id].queue)
    ensures AllTidy(Retry(s, id, job, now)) && DeadLettersTrue(Retry(s, id, job, now))
  {
    ReplayFiles(s, id, job, now);
    forall q ensures id in s.DeadLetters(q) <==> id in s.jobs && s.jobs[id].state == Failed && s.jobs[id].queue == q {}
    OneHash(s, Retry(s, id, job, now), id);
  }

  lemma CancelStaysTrue(s: State, id: Id, now: int)
    requires Inv(s) && id in s.jobs
    ensures var t := CancelWrite(s, id, s.jobs[id], now); AllTidy(t) && DeadLettersTrue(t)
  {
    CancelActs(s, id, s.jobs[id], now);
    var t := CancelWrite(s, id, s.jobs[id], now);
    if !AtOnce(s.jobs[id].state) {
      forall q ensures t.DeadLetters(q) == s.DeadLetters(q) {}
    }
    forall q ensures id in s.DeadLetters(q) <==> s.jobs[id].state == Failed && s.jobs[id].queue == q {}
    OneHash(s, t, id);
  }

  lemma StepStaysTrue(s: State, step: Step, c: Config)
    requires Inv(s) && Careful(s, step)
    ensures Inv(Next(s, step, c))
  {
    StepKeepsPartition(s, step, c);
    match step
    case EnqueueStep(id, job, now) => EnqueueStaysTrue(s, id, job, now);
    case DequeueStep(worker, queues, ttl, now) => DequeueStaysTrue(s, ReadyKeys(queues), worker, ttl, now);
    case HeartbeatStep(id, token, ttl, now) => HeartbeatStaysTrue(s, id, token, ttl, now);
    case CompleteStep(id, token, worker, now) => CompleteStaysTrue(s, id, token, worker, now);
    case FailStep(id, queue, token, retryAt, now) => FailStaysTrue(s, id, queue, token, retryAt, now);
    case ThrottleStep(id, token, until) => ThrottleStaysTrue(s, id, token, until);
    case ActivateStep(limit, now) =>
      DueIdsExact(s.delayed, now, limit);
      ActivateStaysTrue(s, DueIds(s.delayed, now, limit));
    case RecoverStep(limit, now) =>
      DueIdsExact(s.leases, now, limit);
      RecoverStaysTrue(s, DueIds(s.leases, now, limit), now, c);
    case RetryStep(id, job, now) => RetryStaysTrue(s, id, job, now);
    case CancelStep(id, seen, now) => CancelStaysTrue(s, id, now);
  }

  ghost predicate IsCarefulRun(states: seq<State>, steps: seq<Step>, c: Config) {
    IsRun(states, steps, c) && forall i {:trigger steps[i]} :: 0 <= i < |steps| ==> Careful(states[i], steps[i])
  }

  lemma RunStaysTrue(states: seq<State>, steps: seq<Step>, c: Config, i: nat)
    requires IsCarefulRun(states, steps, c) && i < |steps| && Inv(states[i])
    ensures Inv(states[i + 1])
  {
    assert Careful(states[i], steps[i]) && states[i + 1] == Next(states[i], steps[i], c);
    StepStaysTrue(states[i], steps[i], c);
  }

  /** In every state of every careful run, each hash's fields follow from its state, and a queue's dead letters are its failed jobs. */
  lemma {:induction false} HashesTellState(states: seq<State>, steps: seq<Step>, c: Config, n: nat)
    requires IsCarefulRun(states, steps, c) && n <= |steps|
    ensures Inv(states[n])
    ensures forall x :: x in states[n].jobs ==> Tidy(states[n].jobs[x])
    ensures forall q, x :: x in states[n].DeadLetters(q) <==> x in states[n].jobs && states[n].jobs[x].state == Failed && states[n].jobs[x].queue == q
  {
    if n > 0 {
      HashesTellState(states, steps, c, n - 1);
      RunStaysTrue(states, steps, c, n - 1);
    }
  }

  /** A replay keeps the dead letters true exactly if it does not move a failed job to another queue; there its old entry stays behind. */
  lemma ReplayDeadLettersExact(s: State, id: Id, job: Job, now: int)
    requires DeadLettersTrue(s)
    ensures DeadLettersTrue(Retry(s, id, job, now)) <==> !(id in s.jobs && s.jobs[id].state == Failed && s.jobs[id].queue != job.queue)
  {
    ReplayFiles(s, id, job, now);
    var t := Retry(s, id, job, now);
    if id in s.jobs && s.jobs[id].state == Failed && s.jobs[id].queue != job.queue {
      assert id in t.DeadLetters(s.jobs[id].queue);
    }
  }

  // ----- Without any discipline -----

  /** A lease expiry means active and the other way round; only active, completed and cancelled jobs name a worker; only active and cancelled ones keep a token. */
  predicate Plain(job: Job) {
    && (job.leaseExpiresAt.Some? <==> job.state == Active)
    && (job.worker != "" ==> job.state == Active || job.state == Completed || job.state == Canceled)
    && (job.token != NoToken ==> job.state == Active || job.state == Canceled)
    && (job.state == Active ==> job.token.LeaseToken? && job.token.worker == job.worker)
  }

  ghost predicate AllPlain(s: State) { forall x :: x in s.jobs ==> Plain(s.jobs[x]) }

  lemma {:induction false} ActivateStaysPlain(s: State, ids: seq<Id>)
    requires AllPlain(s)
    ensures AllPlain(ActivateAll(s, ids).0)
    decreases |ids|
  {
    if ids != [] { ActivateStaysPlain(s, Init(ids)); }
  }

  lemma {:induction false} RecoverStaysPlain(s: State, ids: seq<Id>, now: int, c: Config)
    requires AllPlain(s)
    ensures AllPlain(RecoverAll(s, ids, now, c).0)
    decreases |ids|
  {
    if ids != [] { RecoverStaysPlain(s, Init(ids), now, c); }
  }

  lemma CallStaysPlain(s: State, step: Step, c: Config)
    requires AllPlain(s) && (step.HeartbeatStep? || step.CompleteStep? || step.FailStep? || step.ThrottleStep?)
    ensures AllPlain(Next(s, step, c))
  {}

  lemma EnqueueStaysPlain(s: State, id: Id, job: Job, now: int)
    requires AllPlain(s) && Plain(job)
    ensures AllPlain(Enqueue(s, id, job, now))
  {}

  lemma RetryStaysPlain(s: State, id: Id, job: Job, now: int)
    requires AllPlain(s)
    ensures AllPlain(Retry(s, id, job, now))
  {
    ReplayFiles(s, id, job, now);
  }

  lemma CancelStaysPlain(s: State, id: Id, seen: Job, now: int)
    requires AllPlain(s) && id in s.jobs
    ensures AllPlain(CancelWrite(s, id, seen, now))
  {}

  lemma StepStaysPlain(s: State, step: Step, c: Config)
    requires AllPlain(s) && Legal(s, step) && (step.EnqueueStep? ==> Plain(step.job))
    ensures AllPlain(Next(s, step, c))
  {
    match step
    case DequeueStep(worker, queues, ttl, now) => DequeueJobs(s, ReadyKeys(queues), worker, ttl, now);
    case ActivateStep(limit, now) => ActivateStaysPlain(s, DueIds(s.delayed, now, limit));
    case RecoverStep(limit, now) => RecoverStaysPlain(s, DueIds(s.leases, now, limit), now, c);
    case EnqueueStep(id, job, now) => EnqueueStaysPlain(s, id, job, now);
    case RetryStep(id, job, now) => RetryStaysPlain(s, id, job, now);
    case CancelStep(id, seen, now) => CancelStaysPlain(s, id, seen, now);
    case _ => CallStaysPlain(s, step, c);
  }

  ghost predicate IsPlainRun(states: seq<State>, steps: seq<Step>, c: Config) {
    IsRun(states, steps, c) && forall i {:trigger steps[i]} :: 0 <= i < |steps| && steps[i].EnqueueStep? ==> Plain(steps[i].job)
  }

  lemma RunStaysPlain(states: seq<State>, steps: seq<Step>, c: Config, i: nat)
    requires IsPlainRun(states, steps, c) && i < |steps| && AllPlain(states[i])
    ensures AllPlain(states[i + 1])
  {
    assert Legal(states[i], steps[i]) && states[i + 1] == Next(states[i], steps[i], c);
    StepStaysPlain(states[i], steps[i], c);
  }

  /** In every run, replays of live jobs and half-done cancels included, lease fields, worker and token follow from the state. */
  lemma {:induction false} HashesStayPlain(states: seq<State>, steps: seq<Step>, c: Config, n: nat)
    requires IsPlainRun(states, steps, c) && n <= |steps|
    ensures AllPlain(states[n])
  {
    if n > 0 {
      HashesStayPlain(states, steps, c, n - 1);
      RunStaysPlain(states, steps, c, n - 1);
    }
  }
}
