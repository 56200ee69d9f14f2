/** How often a job can run: retries and lease recoveries share one budget, and throttling does not draw on it. */
module Attempts {
  import opened Redis
  import opened Domain
  import opened BrokerSpec
  import opened Stranded
  import opened Partition
  import opened PartitionRuns
  import opened Fencing

  /**
   * The partition discipline, without operator replays, where jobs start with no attempts and a limit of at least
   * one, and a worker retries exactly while attempts remain (Worker.WorkerReportsAreBudgeted).
   */
  predicate Budgeted(s: State, step: Step) {
    && Disciplined(s, step)
    && match step
       case EnqueueStep(_, job, _) => job.attempts == 0 && job.maxAttempts.Some? && job.maxAttempts.value >= 1
       case FailStep(id, _, token, retryAt, _) =>
         TokenMatches(s, id, token) && s.jobs[id].maxAttempts.Some? ==> (retryAt.Some? <==> s.jobs[id].attempts < s.jobs[id].maxAttempts.value)
       case RetryStep(_, _, _) => false
       case _ => true
  }

  predicate Throttles(s: State, step: Step, id: Id) {
    step.ThrottleStep? && AcceptsAck(s, step, id)
  }

  /** The step sends the job to retrying: a worker's failure report, or the recovery of its lease. */
  ghost predicate Retries(s: State, step: Step, id: Id, c: Config) {
    || (step.FailStep? && step.retryAt.Some? && AcceptsAck(s, step, id))
    || (step.RecoverStep? && exists r :: r in RecoverExpired(s, step.limit, step.now, c).1 && r.id == id && r.state.Retrying?)
  }

  ghost function ThrottleCount(states: seq<State>, steps: seq<Step>, id: Id, n: nat): nat
    requires n <= |steps| < |states|
  {
    if n == 0 then 0 else ThrottleCount(states, steps, id, n - 1) + One(Throttles(states[n - 1], steps[n - 1], id))
  }

  ghost function RetryCount(states: seq<State>, steps: seq<Step>, c: Config, id: Id, n: nat): nat
    requires n <= |steps| < |states|
  {
    if n == 0 then 0 else RetryCount(states, steps, c, id, n - 1) + One(Retries(states[n - 1], steps[n - 1], id, c))
  }

  /** Every grant so far was throttled, retried, is still active, or was the one that ended the job. */
  ghost predicate Balanced(s: State, id: Id, grants: int, throttles: int, retries: int) {
    if id !in s.jobs then grants == throttles == retries == 0
    else
      var job := s.jobs[id];
      && job.attempts == grants && job.maxAttempts.Some? && 0 <= retries < job.maxAttempts.value && 0 <= throttles
      && (job.state.Blocked? ==> grants == throttles == retries == 0)
      && throttles + retries + (if job.state.Active? then 1 else 0) <= grants
      && grants <= throttles + retries + (if job.state.Active? || job.state.Terminal() then 1 else 0)
  }

  lemma DequeueBalances(s: State, step: Step, id: Id, c: Config, grants: int, throttles: int, retries: int)
    requires Partitioned(s) && step.DequeueStep? && Balanced(s, id, grants, throttles, retries)
    ensures Balanced(Next(s, step, c), id, grants + One(Grants(s, step, id)), throttles, retries)
  {
    var keys := ReadyKeys(step.queues);
    DequeueJobs(s, keys, step.worker, step.ttl, step.now);
    DequeueExact(s, keys, step.worker, step.ttl, step.now);
  }

  lemma HeartbeatBalances(s: State, step: Step, id: Id, c: Config, grants: int, throttles: int, retries: int)
    requires Balanced(s, id, grants, throttles, retries) && step.HeartbeatStep?
    ensures Balanced(Next(s, step, c), id, grants, throttles, retries)
  {}

  lemma CompleteBalances(s: State, step: Step, id: Id, c: Config, grants: int, throttles: int, retries: int)
    requires Partitioned(s) && Budgeted(s, step) && Balanced(s, id, grants, throttles, retries) && step.CompleteStep?
    ensures Balanced(Next(s, step, c), id, grants, throttles, retries)
  {
    if step.id == id && TokenMatches(s, id, step.token) { HolderIsActive(s, id, step.token); }
  }

  lemma FailBalances(s: State, step: Step, id: Id, c: Config, grants: int, throttles: int, retries: int)
    requires Partitioned(s) && Budgeted(s, step) && Balanced(s, id, grants, throttles, retries) && step.FailStep?
    ensures Balanced(Next(s, step, c), id, grants, throttles, retries + One(Retries(s, step, id, c)))
  {
    if step.id == id && TokenMatches(s, id, step.token) { HolderIsActive(s, id, step.token); }
  }

  lemma ThrottleBalances(s: State, step: Step, id: Id, c: Config, grants: int, throttles: int, retries: int)
    requires Partitioned(s) && Budgeted(s, step) && Balanced(s, id, grants, throttles, retries) && step.ThrottleStep?
    ensures Balanced(Next(s, step, c), id, grants, throttles + One(Throttles(s, step, id)), retries)
  {
    if step.id == id && TokenMatches(s, id, step.token) { HolderIsActive(s, id, step.token); }
  }

  lemma EnqueueBalances(s: State, step: Step, id: Id, c: Config, grants: int, throttles: int, retries: int)
    requires Budgeted(s, step) && Balanced(s, id, grants, throttles, retries) && step.EnqueueStep?
    ensures Balanced(Next(s, step, c), id, grants, throttles, retries)
  {}

  lemma CancelBalances(s: State, step: Step, id: Id, c: Config, grants: int, throttles: int, retries: int)
    requires Budgeted(s, step) && Balanced(s, id, grants, throttles, retries) && step.CancelStep?
    ensures Balanced(Next(s, step, c), id, grants, throttles, retries)
  {}

  lemma ActivateBalances(s: State, step: Step, id: Id, c: Config, grants: int, throttles: int, retries: int)
    requires Partitioned(s) && step.ActivateStep? && Balanced(s, id, grants, throttles, retries)
    ensures Balanced(Next(s, step, c), id, grants, throttles, retries)
  {
    var ids := DueIds(s.delayed, step.now, step.limit);
    ActivateJobs(s, ids, id);
    DueIdsExact(s.delayed, step.now, step.limit);
    if id in ActivateAll(s, ids).1 { InDelayed(s, id); }
  }

  /** Under a recovery batch a job either keeps its hash or, having been leased, gets the recovered one. */
  lemma RecoverStepJob(s: State, step: Step, id: Id, c: Config)
    requires Partitioned(s) && step.RecoverStep?
    ensures var t := Next(s, step, c);
            && (id in s.jobs <==> id in t.jobs)
            && (id in s.jobs ==>
                  || (t.jobs[id] == s.jobs[id] && !Retries(s, step, id, c))
                  || (s.jobs[id].state.Active? && t.jobs[id] == RecoverJob(s.jobs[id], step.now, c)
                      && (Retries(s, step, id, c) <==> t.jobs[id].state.Retrying?)))
            && (id !in s.jobs ==> !Retries(s, step, id, c))
  {
    var ids := DueIds(s.leases, step.now, step.limit);
    DueIdsExact(s.leases, step.now, step.limit);
    RecoverJobs(s, ids, step.now, c, id);
    InLeases(s, id);
    var (t, out) := RecoverAll(s, ids, step.now, c);
    if Names(out, id) {
      var r :| r in out && r.id == id;
      assert r.state == t.jobs[id].state;
    }
  }

  lemma RecoverBalances(s: State, step: Step, id: Id, c: Config, grants: int, throttles: int, retries: int)
    requires Partitioned(s) && step.RecoverStep? && Balanced(s, id, grants, throttles, retries)
    ensures Balanced(Next(s, step, c), id, grants, throttles, retries + One(Retries(s, step, id, c)))
  {
    RecoverStepJob(s, step, id, c);
    if id in s.jobs { RecoverJobShape(s.jobs[id], step.now, c); }
  }

  lemma StepBalances(s: State, step: Step, id: Id, c: Config, grants: int, throttles: int, retries: int)
    requires Partitioned(s) && Budgeted(s, step) && Balanced(s, id, grants, throttles, retries)
    ensures Balanced(Next(s, step, c), id, grants + One(Grants(s, step, id)),
                     throttles + One(Throttles(s, step, id)), retries + One(Retries(s, step, id, c)))
  {
    match step
    case DequeueStep(_, _, _, _) => DequeueBalances(s, step, id, c, grants, throttles, retries);
    case ActivateStep(_, _) => ActivateBalances(s, step, id, c, grants, throttles, retries);
    case RecoverStep(_, _) => RecoverBalances(s, step, id, c, grants, throttles, retries);
    case EnqueueStep(_, _, _) => EnqueueBalances(s, step, id, c, grants, throttles, retries);
    case CancelStep(_, _, _) => CancelBalances(s, step, id, c, grants, throttles, retries);
    case HeartbeatStep(_, _, _, _) => HeartbeatBalances(s, step, id, c, grants, throttles, retries);
    case CompleteStep(_, _, _, _) => CompleteBalances(s, step, id, c, grants, throttles, retries);
    case FailStep(_, _, _, _, _) => FailBalances(s, step, id, c, grants, throttles, retries);
    case ThrottleStep(_, _, _) => ThrottleBalances(s, step, id, c, grants, throttles, retries);
  }

  ghost predicate IsBudgetedRun(states: seq<State>, steps: seq<Step>, c: Config) {
    IsDisciplinedRun(states, steps, c) && forall i {:trigger steps[i]} :: 0 <= i < |steps| ==> Budgeted(states[i], steps[i])
  }

  /** The step takes balanced numbers to balanced numbers. */
  ghost predicate StaysBalanced(s: State, step: Step, t: State, id: Id, c: Config) {
    forall grants: int, throttles: int, retries: int {:trigger Balanced(s, id, grants, throttles, retries)} ::
      Balanced(s, id, grants, throttles, retries) ==>
        Balanced(t, id, grants + One(Grants(s, step, id)), throttles + One(Throttles(s, step, id)), retries + One(Retries(s, step, id, c)))
  }

  lemma RunStepBalances(states: seq<State>, steps: seq<Step>, c: Config, id: Id, i: nat)
    requires IsBudgetedRun(states, steps, c) && i < |steps|
    ensures StaysBalanced(states[i], steps[i], states[i + 1], id, c)
  {
    PartitionHolds(states, steps, c, i);
    assert Budgeted(states[i], steps[i]) && states[i + 1] == Next(states[i], steps[i], c);
    forall grants: int, throttles: int, retries: int | Balanced(states[i], id, grants, throttles, retries)
      ensures Balanced(states[i + 1], id, grants + One(Grants(states[i], steps[i], id)), throttles + One(Throttles(states[i], steps[i], id)),
                       retries + One(Retries(states[i], steps[i], id, c)))
    {
      StepBalances(states[i], steps[i], id, c, grants, throttles, retries);
    }
  }

  lemma {:induction false} BalancesAddUp(states: seq<State>, steps: seq<Step>, c: Config, id: Id, n: nat)
    requires n <= |steps| < |states| && Balanced(states[0], id, 0, 0, 0)
    requires forall i {:trigger steps[i]} :: 0 <= i < |steps| ==> StaysBalanced(states[i], steps[i], states[i + 1], id, c)
    ensures Balanced(states[n], id, GrantCount(states, steps, id, n), ThrottleCount(states, steps, id, n), RetryCount(states, steps, c, id, n))
  {
    if n > 0 {
      BalancesAddUp(states, steps, c, id, n - 1);
      assert StaysBalanced(states[n - 1], steps[n - 1], states[n], id, c);
    }
  }

  lemma RunBalances(states: seq<State>, steps: seq<Step>, c: Config, id: Id, n: nat)
    requires IsBudgetedRun(states, steps, c) && n <= |steps|
    ensures Balanced(states[n], id, GrantCount(states, steps, id, n), ThrottleCount(states, steps, id, n), RetryCount(states, steps, c, id, n))
  {
    forall i {:trigger steps[i]} | 0 <= i < |steps| ensures StaysBalanced(states[i], steps[i], states[i + 1], id, c) {
      RunStepBalances(states, steps, c, id, i);
    }
    BalancesAddUp(states, steps, c, id, n);
  }

  /**
   * Bounded execution: attempts counts the grants; a job is sent to retrying at most maxAttempts - 1 times, by
   * workers and recoveries together; and at most maxAttempts of its grants are not throttled, however many are.
   */
  lemma BoundedExecution(states: seq<State>, steps: seq<Step>, c: Config, id: Id, n: nat)
    requires IsBudgetedRun(states, steps, c) && n <= |steps| && id in states[n].jobs
    ensures states[n].jobs[id].attempts == GrantCount(states, steps, id, n)
    ensures states[n].jobs[id].maxAttempts.Some?
    ensures RetryCount(states, steps, c, id, n) <= states[n].jobs[id].maxAttempts.value - 1
    ensures GrantCount(states, steps, id, n) - ThrottleCount(states, steps, id, n) <= states[n].jobs[id].maxAttempts.value
  {
    RunBalances(states, steps, c, id, n);
  }

  // ----- Blocked jobs -----

  /** A step that could release `id`: enqueueing it in a state other than blocked, or replaying it. */
  predicate Releases(step: Step, id: Id) {
    (step.EnqueueStep? && step.id == id && !step.job.state.Blocked?) || (step.RetryStep? && step.id == id)
  }

  /** The broker knows `id` only as a blocked or cancelled job that is in no list. */
  ghost predicate Parked(s: State, id: Id) {
    && (id in s.jobs ==> s.jobs[id].token == NoToken && (s.jobs[id].state.Blocked? || s.jobs[id].state.Canceled?))
    && (forall k :: id !in s.Ready(k)) && id !in s.delayed && id !in s.leases
  }

  /** Calls on a lease carry a real token; the workers of the source always pass the one they were granted. */
  predicate RealToken(step: Step) {
    match step
    case CompleteStep(_, token, _, _) => token != NoToken
    case FailStep(_, _, token, _, _) => token != NoToken
    case ThrottleStep(_, token, _) => token != NoToken
    case _ => true
  }

  /** Parking survives an update that brings the id into no list. */
  lemma ParkedAfter(s: State, t: State, id: Id)
    requires Parked(s, id)
    requires id in t.jobs ==> t.jobs[id].token == NoToken && (t.jobs[id].state.Blocked? || t.jobs[id].state.Canceled?)
    requires forall k :: id in t.Ready(k) ==> id in s.Ready(k)
    requires id !in t.delayed && id !in t.leases
    ensures Parked(t, id)
  {
    forall k ensures id !in t.Ready(k) { assert id !in s.Ready(k); }
  }

  lemma {:induction false} DequeueLeavesParked(s: State, keys: seq<ReadyKey>, worker: string, ttl: int, now: int, id: Id)
    requires Parked(s, id)
    ensures var (t, grant) := Dequeue(s, keys, worker, ttl, now); Parked(t, id) && (grant.Some? ==> grant.value.id != id)
    decreases |keys|
  {
    if keys != [] {
      if s.Ready(keys[0]) == [] {
        DequeueLeavesParked(s, keys[1..], worker, ttl, now, id);
      } else {
        var list := s.Ready(keys[0]);
        var s1 := PopReady(s, keys[0]);
        assert list[0] != id by { assert list[0] in list; }
        assert forall x :: x in list[1..] ==> x in list;
        ParkedAfter(s, s1, id);
        if list[0] in s.jobs { ParkedAfter(s1, Lease(s1, list[0], worker, ttl, now), id); }
        DequeueLeavesParked(s1, keys[1..], worker, ttl, now, id);
      }
    }
  }

  lemma {:induction false} ActivateLeavesParked(s: State, ids: seq<Id>, id: Id)
    requires Parked(s, id)
    ensures Parked(ActivateAll(s, ids).0, id)
    decreases |ids|
  {
    if ids != [] {
      ActivateLeavesParked(s, Init(ids), id);
      var s1 := ActivateAll(s, Init(ids)).0;
      ParkedAfter(s1, ActivateOne(s1, Last(ids)).0, id);
    }
  }

  lemma {:induction false} RecoverLeavesParked(s: State, ids: seq<Id>, now: int, c: Config, id: Id)
    requires Parked(s, id)
    ensures Parked(RecoverAll(s, ids, now, c).0, id)
    decreases |ids|
  {
    if ids != [] {
      RecoverLeavesParked(s, Init(ids), now, c, id);
      var s1 := RecoverAll(s, Init(ids), now, c).0;
      RecoverOneJobs(s1, Last(ids), now, c, id);
      ParkedAfter(s1, RecoverOne(s1, Last(ids), now, c).0, id);
    }
  }

  lemma HeartbeatLeavesParked(s: State, x: Id, token: Token, ttl: int, now: int, id: Id)
    requires Parked(s, id)
    ensures Parked(Heartbeat(s, x, token, ttl, now).0, id)
  {
    ParkedAfter(s, Heartbeat(s, x, token, ttl, now).0, id);
  }

  lemma CompleteLeavesParked(s: State, x: Id, token: Token, worker: string, now: int, id: Id)
    requires Parked(s, id) && token != NoToken
    ensures Parked(Complete(s, x, token, worker, now).0, id)
  {
    ParkedAfter(s, Complete(s, x, token, worker, now).0, id);
  }

  lemma FailLeavesParked(s: State, x: Id, queue: string, token: Token, retryAt: Option<int>, now: int, id: Id)
    requires Parked(s, id) && token != NoToken
    ensures Parked(Fail(s, x, queue, token, retryAt, now).0, id)
  {
    ParkedAfter(s, Fail(s, x, queue, token, retryAt, now).0, id);
  }

  lemma ThrottleLeavesParked(s: State, x: Id, token: Token, until: int, id: Id)
    requires Parked(s, id) && token != NoToken
    ensures Parked(Throttle(s, x, token, until).0, id)
  {
    ParkedAfter(s, Throttle(s, x, token, until).0, id);
  }

  lemma PushLeavesParked(s: State, k: ReadyKey, x: Id, id: Id)
    requires Parked(s, id) && x != id
    ensures Parked(PushReady(s, k, x), id)
  {
    ParkedAfter(s, PushReady(s, k, x), id);
  }

  lemma EnqueueLeavesParked(s: State, x: Id, job: Job, now: int, id: Id)
    requires Parked(s, id) && Enqueueable(job) && (x == id ==> job.state.Blocked?)
    ensures Parked(Enqueue(s, x, job, now), id)
  {
    var s1 := s.(jobs := s.jobs[x := job]);
    ParkedAfter(s, s1, id);
    if !GoesToDelayed(job, now) && job.state.Queued? { PushLeavesParked(s1, job.Key(), x, id); }
    else { ParkedAfter(s1, Enqueue(s, x, job, now), id); }
  }

  lemma RetryLeavesParked(s: State, x: Id, job: Job, now: int, id: Id)
    requires Parked(s, id) && x != id
    ensures Parked(Retry(s, x, job, now), id)
  {
    ParkedAfter(s, Retry(s, x, job, now), id);
  }

  lemma CancelLeavesParked(s: State, x: Id, seen: Job, now: int, id: Id)
    requires Parked(s, id) && x in s.jobs
    ensures Parked(CancelWrite(s, x, seen, now), id)
  {
    ParkedAfter(s, CancelWrite(s, x, seen, now), id);
  }

  lemma StepLeavesParked(s: State, step: Step, id: Id, c: Config)
    requires Parked(s, id) && Legal(s, step) && RealToken(step) && !Releases(step, id)
    ensures Parked(Next(s, step, c), id) && !Grants(s, step, id)
  {
    match step
    case DequeueStep(worker, queues, ttl, now) => DequeueLeavesParked(s, ReadyKeys(queues), worker, ttl, now, id);
    case ActivateStep(limit, now) => ActivateLeavesParked(s, DueIds(s.delayed, now, limit), id);
    case RecoverStep(limit, now) => RecoverLeavesParked(s, DueIds(s.leases, now, limit), now, c, id);
    case EnqueueStep(x, job, now) => EnqueueLeavesParked(s, x, job, now, id);
    case RetryStep(x, job, now) => RetryLeavesParked(s, x, job, now, id);
    case CancelStep(x, seen, now) => CancelLeavesParked(s, x, seen, now, id);
    case HeartbeatStep(x, token, ttl, now) => HeartbeatLeavesParked(s, x, token, ttl, now, id);
    case CompleteStep(x, token, worker, now) => CompleteLeavesParked(s, x, token, worker, now, id);
    case FailStep(x, queue, token, retryAt, now) => FailLeavesParked(s, x, queue, token, retryAt, now, id);
    case ThrottleStep(x, token, until) => ThrottleLeavesParked(s, x, token, until, id);
  }

  /** Undisciplined runs too: a job submitted as blocked is never leased before something releases it. */
  lemma {:induction false} BlockedIsNeverLeased(states: seq<State>, steps: seq<Step>, c: Config, id: Id, n: nat)
    requires IsRun(states, steps, c) && n <= |steps|
    requires forall i :: 0 <= i < n ==> RealToken(steps[i]) && !Releases(steps[i], id)
    ensures Parked(states[n], id) && GrantCount(states, steps, id, n) == 0
  {
    if n > 0 {
      BlockedIsNeverLeased(states, steps, c, id, n - 1);
      StepLeavesParked(states[n - 1], steps[n - 1], id, c);
    }
  }
}
