/** What a cancel does, at once or later: it takes the job out of the queues, or has lease recovery end it for good. */
module Cancellation {
  import opened Redis
  import opened Domain
  import opened BrokerSpec
  import opened Fencing

  /** Cancelling a job seen in one of these states takes effect at once. */
  predicate AtOnce(state: JobState) {
    state == Queued || state == Scheduled || state == Retrying || state == Throttled || state == Failed || state == Blocked
  }

  /**
   * A cancel raises the flag in every case. On a copy seen waiting, blocked or failed it also cancels the hash and takes
   * the id out of the list, the delayed set and the dead letters that copy names; otherwise it changes nothing else.
   */
  lemma CancelActs(s: State, id: Id, seen: Job, now: int)
    requires id in s.jobs
    ensures var t := CancelWrite(s, id, seen, now);
            && id in t.jobs && t.jobs == s.jobs[id := t.jobs[id]] && t.jobs[id].cancelRequested && t.leases == s.leases
            && (!AtOnce(seen.state) ==> t == s.(jobs := s.jobs[id := s.jobs[id].(cancelRequested := true)]))
            && (AtOnce(seen.state) ==>
                  && t.jobs[id].state == Canceled && t.jobs[id].finishedAt == Some(now) && t.jobs[id].leaseExpiresAt == None
                  && t.jobs[id].throttleUntil == None && t.jobs[id].token == s.jobs[id].token
                  && (forall x :: x in t.delayed <==> x in s.delayed && x != id)
                  && (forall k, x :: x in t.Ready(k) <==> x in s.Ready(k) && !(x == id && k == ReadyKey(seen.queue, seen.priority)))
                  && (forall q, x :: x in t.DeadLetters(q) <==> x in s.DeadLetters(q) && !(x == id && q == seen.queue)))
  {}

  // ----- The flag stays, and recovery obeys it -----

  predicate Flagged(s: State, id: Id) { id in s.jobs && s.jobs[id].cancelRequested }

  /** A step that writes a new hash for the job. */
  predicate HandsIn(step: Step, id: Id) { (step.EnqueueStep? && step.id == id) || (step.RetryStep? && step.id == id) }

  lemma {:induction false} ActivateKeepsFlag(s: State, ids: seq<Id>, id: Id)
    requires Flagged(s, id)
    ensures Flagged(ActivateAll(s, ids).0, id)
    decreases |ids|
  {
    if ids != [] { ActivateKeepsFlag(s, Init(ids), id); }
  }

  /** Recovery of a flagged job's lease cancels it, and every record of the batch about it says so. */
  lemma {:induction false} RecoverObeysFlag(s: State, ids: seq<Id>, now: int, c: Config, id: Id)
    requires Flagged(s, id)
    ensures var (t, out) := RecoverAll(s, ids, now, c);
            && Flagged(t, id)
            && (forall r :: r in out && r.id == id ==> r.state == Canceled && r.retryAt == None)
            && (id in ids && id in s.leases ==> t.jobs[id].state == Canceled && id !in t.leases)
            && (id in s.leases && id !in ids ==> id in t.leases)
    decreases |ids|
  {
    if ids != [] {
      RecoverObeysFlag(s, Init(ids), now, c, id);
      assert ids == Init(ids) + [Last(ids)];
    }
  }

  lemma CallKeepsFlag(s: State, step: Step, id: Id, c: Config)
    requires Flagged(s, id) && (step.HeartbeatStep? || step.CompleteStep? || step.FailStep? || step.ThrottleStep?)
    ensures Flagged(Next(s, step, c), id)
  {}

  lemma StepKeepsFlag(s: State, step: Step, id: Id, c: Config)
    requires Flagged(s, id) && Legal(s, step) && !HandsIn(step, id)
    ensures Flagged(Next(s, step, c), id)
  {
    match step
    case EnqueueStep(_, _, _) =>
    case DequeueStep(worker, queues, ttl, now) => DequeueJobs(s, ReadyKeys(queues), worker, ttl, now);
    case ActivateStep(limit, now) => ActivateKeepsFlag(s, DueIds(s.delayed, now, limit), id);
    case RecoverStep(limit, now) => RecoverObeysFlag(s, DueIds(s.leases, now, limit), now, c, id);
    case RetryStep(_, _, _) =>
    case CancelStep(x, seen, now) => CancelActs(s, x, seen, now);
    case _ => CallKeepsFlag(s, step, id, c);
  }

  lemma RunKeepsFlag(states: seq<State>, steps: seq<Step>, c: Config, id: Id, i: nat)
    requires IsRun(states, steps, c) && i < |steps| && !HandsIn(steps[i], id) && Flagged(states[i], id)
    ensures Flagged(states[i + 1], id)
  {
    assert Legal(states[i], steps[i]);
    StepKeepsFlag(states[i], steps[i], id, c);
  }

  lemma CancelRaisesFlag(states: seq<State>, steps: seq<Step>, c: Config, id: Id, n: nat)
    requires IsRun(states, steps, c) && n < |steps| && steps[n].CancelStep? && steps[n].id == id
    ensures Flagged(states[n + 1], id)
  {
    assert Legal(states[n], steps[n]);
    CancelActs(states[n], id, steps[n].seen, steps[n].now);
  }

  lemma {:induction false} FlagSpreads(states: seq<State>, id: Id, n: nat, m: nat)
    requires n <= m < |states| && Flagged(states[n], id)
    requires forall i {:trigger states[i]} :: n <= i < m && Flagged(states[i], id) ==> Flagged(states[i + 1], id)
    ensures Flagged(states[m], id)
    decreases m
  {
    if n < m {
      FlagSpreads(states, id, n, m - 1);
      assert Flagged(states[m - 1], id);
    }
  }

  /**
   * A requested cancel is not forgotten: until the job is enqueued or replayed anew, the flag stays, and a recovery of
   * its lease ends it as cancelled and never sends it to a retry.
   */
  lemma CancelIsHonoured(states: seq<State>, steps: seq<Step>, c: Config, id: Id, n: nat, m: nat)
    requires IsRun(states, steps, c) && n < m <= |steps| && steps[n].CancelStep? && steps[n].id == id
    requires forall i {:trigger steps[i]} :: n < i < m ==> !HandsIn(steps[i], id)
    ensures Flagged(states[m], id)
    ensures m < |steps| && steps[m].RecoverStep? ==> RecoversAsCanceled(states[m], steps[m], id, c)
  {
    CancelRaisesFlag(states, steps, c, id, n);
    forall i {:trigger states[i]} | n + 1 <= i < m && Flagged(states[i], id) ensures Flagged(states[i + 1], id) {
      assert !HandsIn(steps[i], id);
      RunKeepsFlag(states, steps, c, id, i);
    }
    FlagSpreads(states, id, n + 1, m);
    if m < |steps| && steps[m].RecoverStep? {
      RecoverObeysFlag(states[m], DueIds(states[m].leases, steps[m].now, steps[m].limit), steps[m].now, c, id);
    }
  }

  /** If the batch takes the job's lease away, the job is cancelled; it never reports it as anything else. */
  ghost predicate RecoversAsCanceled(s: State, step: Step, id: Id, c: Config)
    requires step.RecoverStep?
  {
    var (t, records) := RecoverExpired(s, step.limit, step.now, c);
    && (forall r :: r in records && r.id == id ==> r.state == Canceled && r.retryAt == None)
    && (id in s.leases && id !in t.leases ==> id in t.jobs && t.jobs[id].state == Canceled)
  }
}
