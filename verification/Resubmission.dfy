/**
 * What becomes of a job whose hash is overwritten as blocked: whether any later steps of the broker, short of handing
 * it in again, can still bring it to a worker.
 */
module Resubmission {
  import opened Redis
  import opened Domain
  import opened BrokerSpec
  import opened Stranded
  import opened Partition
  import opened Fencing
  import opened Attempts

  /** Lease recovery would not retry the job. */
  predicate Hopeless(job: Job) {
    job.cancelRequested || job.attempts >= (if job.maxAttempts.Some? then job.maxAttempts.value else 1)
  }

  /** Nothing will bring the job back: at most ready entries are left of it, and a lease that recovery will not renew. */
  ghost predicate Lost(s: State, id: Id) {
    && id in s.jobs && s.jobs[id].token == NoToken
    && (s.jobs[id].state.Blocked? || s.jobs[id].state.Canceled? || s.jobs[id].state.Failed?)
    && id !in s.delayed && (id in s.leases ==> Hopeless(s.jobs[id]))
  }

  /** A step that does not hand the job in again, except as blocked while it is in no lease. */
  predicate Spares(s: State, step: Step, id: Id) {
    && Legal(s, step) && RealToken(step) && !Releases(step, id)
    && (step.EnqueueStep? && step.id == id ==> id !in s.leases)
  }

  // ----- A lost job stays lost -----

  lemma {:induction false} DequeueLeavesLost(s: State, keys: seq<ReadyKey>, worker: string, ttl: int, now: int, id: Id)
    requires Lost(s, id)
    ensures var (t, grant) := Dequeue(s, keys, worker, ttl, now); Lost(t, id) && (grant.Some? ==> grant.value.id != id)
    decreases |keys|
  {
    if keys != [] {
      if s.Ready(keys[0]) == [] { DequeueLeavesLost(s, keys[1..], worker, ttl, now, id); }
      else { DequeueLeavesLost(PopReady(s, keys[0]), keys[1..], worker, ttl, now, id); }
    }
  }

  lemma {:induction false} ActivateLeavesLost(s: State, ids: seq<Id>, id: Id)
    requires Lost(s, id)
    ensures Lost(ActivateAll(s, ids).0, id)
    decreases |ids|
  {
    if ids != [] { ActivateLeavesLost(s, Init(ids), id); }
  }

  lemma RecoverOneLeavesLost(s: State, x: Id, now: int, c: Config, id: Id)
    requires Lost(s, id)
    ensures Lost(RecoverOne(s, x, now, c).0, id)
  {
    if x in s.jobs { RecoverJobShape(s.jobs[x], now, c); }
  }

  lemma {:induction false} RecoverLeavesLost(s: State, ids: seq<Id>, now: int, c: Config, id: Id)
    requires Lost(s, id)
    ensures Lost(RecoverAll(s, ids, now, c).0, id)
    decreases |ids|
  {
    if ids != [] {
      RecoverLeavesLost(s, Init(ids), now, c, id);
      RecoverOneLeavesLost(RecoverAll(s, Init(ids), now, c).0, Last(ids), now, c, id);
    }
  }

  lemma HeartbeatLeavesLost(s: State, x: Id, token: Token, ttl: int, now: int, id: Id)
    requires Lost(s, id)
    ensures Lost(Heartbeat(s, x, token, ttl, now).0, id)
  {}

  lemma CompleteLeavesLost(s: State, x: Id, token: Token, worker: string, now: int, id: Id)
    requires Lost(s, id) && token != NoToken
    ensures Lost(Complete(s, x, token, worker, now).0, id)
  {}

  lemma FailLeavesLost(s: State, x: Id, queue: string, token: Token, retryAt: Option<int>, now: int, id: Id)
    requires Lost(s, id) && token != NoToken
    ensures Lost(Fail(s, x, queue, token, retryAt, now).0, id)
  {}

  lemma ThrottleLeavesLost(s: State, x: Id, token: Token, until: int, id: Id)
    requires Lost(s, id) && token != NoToken
    ensures Lost(Throttle(s, x, token, until).0, id)
  {}

  lemma EnqueueLeavesLost(s: State, x: Id, job: Job, now: int, id: Id)
    requires Lost(s, id) && Enqueueable(job) && (x == id ==> job.state.Blocked? && id !in s.leases)
    ensures Lost(Enqueue(s, x, job, now), id)
  {}

  lemma RetryLeavesLost(s: State, x: Id, job: Job, now: int, id: Id)
    requires Lost(s, id) && x != id
    ensures Lost(Retry(s, x, job, now), id)
  {}

  lemma CancelLeavesLost(s: State, x: Id, seen: Job, now: int, id: Id)
    requires Lost(s, id) && x in s.jobs
    ensures Lost(CancelWrite(s, x, seen, now), id)
  {}

  lemma StepLeavesLost(s: State, step: Step, id: Id, c: Config)
    requires Lost(s, id) && Spares(s, step, id)
    ensures Lost(Next(s, step, c), id) && !Grants(s, step, id)
  {
    match step
    case EnqueueStep(x, job, now) => EnqueueLeavesLost(s, x, job, now, id);
    case DequeueStep(worker, queues, ttl, now) => DequeueLeavesLost(s, ReadyKeys(queues), worker, ttl, now, id);
    case HeartbeatStep(x, token, ttl, now) => HeartbeatLeavesLost(s, x, token, ttl, now, id);
    case CompleteStep(x, token, worker, now) => CompleteLeavesLost(s, x, token, worker, now, id);
    case FailStep(x, queue, token, retryAt, now) => FailLeavesLost(s, x, queue, token, retryAt, now, id);
    case ThrottleStep(x, token, until) => ThrottleLeavesLost(s, x, token, until, id);
    case ActivateStep(limit, now) => ActivateLeavesLost(s, DueIds(s.delayed, now, limit), id);
    case RecoverStep(limit, now) => RecoverLeavesLost(s, DueIds(s.leases, now, limit), now, c, id);
    case RetryStep(x, job, now) => RetryLeavesLost(s, x, job, now, id);
    case CancelStep(x, seen, now) => CancelLeavesLost(s, x, seen, now, id);
  }

  // ----- Continuations -----

  /** At most `n` steps in which nobody hands the job in again, and then one in which a worker leases it. */
  ghost predicate RunsWithin(s: State, id: Id, c: Config, n: nat)
    decreases n
  {
    exists step: Step :: Spares(s, step, id) && (Grants(s, step, id) || (n > 0 && RunsWithin(Next(s, step, c), id, c, n - 1)))
  }

  /** Some course of events in which nobody hands the job in again ends with a worker leasing it. */
  ghost predicate CanStillRun(s: State, id: Id, c: Config) {
    exists n: nat :: RunsWithin(s, id, c, n)
  }

  lemma {:induction false} LostForGood(s: State, id: Id, c: Config, n: nat)
    requires Lost(s, id)
    ensures !RunsWithin(s, id, c, n)
    decreases n
  {
    forall step: Step | Spares(s, step, id) ensures !Grants(s, step, id) && (n > 0 ==> !RunsWithin(Next(s, step, c), id, c, n - 1)) {
      StepLeavesLost(s, step, id, c);
      if n > 0 { LostForGood(Next(s, step, c), id, c, n - 1); }
    }
  }

  lemma StepFirst(s: State, step: Step, c: Config, id: Id)
    requires Spares(s, step, id) && CanStillRun(Next(s, step, c), id, c)
    ensures CanStillRun(s, id, c)
  {
    var n: nat :| RunsWithin(Next(s, step, c), id, c, n);
    assert RunsWithin(s, id, c, n + 1);
  }

  lemma GrantsNow(s: State, step: Step, c: Config, id: Id)
    requires Spares(s, step, id) && Grants(s, step, id)
    ensures CanStillRun(s, id, c)
  {
    assert RunsWithin(s, id, c, 0);
  }

  // ----- A listed job is leased sooner or later -----

  /** The job is in its own list and can be leased. */
  predicate Listed(s: State, id: Id) {
    id in s.jobs && s.jobs[id].state.Leasable() && 0 <= s.jobs[id].priority <= 9 && id in s.Ready(s.jobs[id].Key())
  }

  ghost function Entries(s: State): nat { |AllReady(s.ready)| }

  lemma PopShrinks(s: State, k: ReadyKey)
    requires s.Ready(k) != []
    ensures Entries(PopReady(s, k)) == Entries(s) - 1
  {
    AllReadySet(s.ready, k, s.Ready(k)[1..]);
    assert s.Ready(k) == [s.Ready(k)[0]] + s.Ready(k)[1..];
  }

  /** What a dequeue that does not grant the job leaves of it: its hash and its entry; and it takes at least one entry from its list. */
  ghost predicate Closer(s: State, t: State, id: Id, asked: bool) {
    id in s.jobs && Listed(t, id) && t.jobs[id] == s.jobs[id] && Entries(t) <= Entries(s) - (if asked then 1 else 0)
  }

  lemma PopCloser(s: State, k: ReadyKey, id: Id)
    requires Listed(s, id) && s.Ready(k) != [] && s.Ready(k)[0] != id
    ensures Closer(s, PopReady(s, k), id, true)
  {
    PopShrinks(s, k);
    var list := s.Ready(k);
    assert list == [list[0]] + list[1..];
  }

  lemma LeaseCloser(s: State, x: Id, worker: string, ttl: int, now: int, id: Id)
    requires Listed(s, id) && x in s.jobs && x != id
    ensures Closer(s, Lease(s, x, worker, ttl, now), id, false)
  {}

  lemma {:induction false} DequeueCloser(s: State, keys: seq<ReadyKey>, worker: string, ttl: int, now: int, id: Id)
    requires Listed(s, id)
    ensures var (t, grant) := Dequeue(s, keys, worker, ttl, now);
            (grant.Some? && grant.value.id == id && grant.value.token == LeaseToken(worker, id, now)) || Closer(s, t, id, s.jobs[id].Key() in keys)
    decreases |keys|
  {
    if keys != [] {
      if s.Ready(keys[0]) == [] {
        DequeueCloser(s, keys[1..], worker, ttl, now, id);
      } else {
        var x := s.Ready(keys[0])[0];
        var s1 := PopReady(s, keys[0]);
        if x != id {
          PopCloser(s, keys[0], id);
          if x in s.jobs && s.jobs[x].state.Leasable() { LeaseCloser(s1, x, worker, ttl, now, id); }
          else { DequeueCloser(s1, keys[1..], worker, ttl, now, id); }
        }
      }
    }
  }

  lemma KeyIsAsked(queue: string, priority: int)
    requires 0 <= priority <= 9
    ensures ReadyKey(queue, priority) in ReadyKeys([queue])
  {
    assert ReadyKeys([queue])[9 - priority] == ReadyKey(queue, priority);
  }

  lemma DequeueStepCloser(s: State, id: Id, c: Config) returns (step: Step)
    requires Listed(s, id)
    ensures step.DequeueStep? && (Grants(s, step, id) || Closer(s, Next(s, step, c), id, true))
  {
    var queue := s.jobs[id].queue;
    step := DequeueStep("", [queue], 1, 0);
    KeyIsAsked(queue, s.jobs[id].priority);
    DequeueCloser(s, ReadyKeys([queue]), "", 1, 0, id);
  }

  /** Workers that keep dequeueing from its queue lease a listed job in the end. */
  lemma {:induction false} ListedRuns(s: State, id: Id, c: Config)
    requires Listed(s, id)
    ensures CanStillRun(s, id, c)
    decreases Entries(s)
  {
    var step := DequeueStepCloser(s, id, c);
    if Grants(s, step, id) {
      GrantsNow(s, step, c, id);
    } else {
      ListedRuns(Next(s, step, c), id, c);
      StepFirst(s, step, c, id);
    }
  }

  // ----- What brings a blocked job back -----

  /** Activated, or still as it was. */
  ghost predicate MaybeActivated(s: State, t: State, id: Id, activated: bool)
    requires id in s.jobs
  {
    && id in t.jobs && t.jobs[id].Key() == s.jobs[id].Key()
    && (id in t.delayed <==> id in s.delayed && !activated)
    && (activated && id in s.delayed ==> t.jobs[id].state.Queued? && id in t.Ready(t.jobs[id].Key()))
  }

  lemma ActivateOneListed(s: State, x: Id, id: Id)
    requires id in s.jobs
    ensures MaybeActivated(s, ActivateOne(s, x).0, id, x == id)
    ensures s.jobs[id].state.Queued? && id in s.Ready(s.jobs[id].Key()) ==>
              var t := ActivateOne(s, x).0; t.jobs[id].state.Queued? && id in t.Ready(t.jobs[id].Key())
  {
    var t := ActivateOne(s, x).0;
    if x in s.delayed && x in s.jobs { assert t.Ready(t.jobs[x].Key())[0] == x; }
  }

  lemma {:induction false} ActivateAllListed(s: State, ids: seq<Id>, id: Id)
    requires id in s.jobs
    ensures MaybeActivated(s, ActivateAll(s, ids).0, id, id in ids)
    decreases |ids|
  {
    if ids != [] {
      ActivateAllListed(s, Init(ids), id);
      assert ids == Init(ids) + [Last(ids)];
      ActivateOneListed(ActivateAll(s, Init(ids)).0, Last(ids), id);
    }
  }

  /** A delayed entry brings the job back, whatever its hash says. */
  lemma DelayedRuns(s: State, id: Id, c: Config)
    requires id in s.jobs && id in s.delayed && 0 <= s.jobs[id].priority <= 9
    ensures CanStillRun(s, id, c)
  {
    var step := ActivateStep(-1, s.delayed[id]);
    DueIdsExact(s.delayed, step.now, step.limit);
    ActivateAllListed(s, DueIds(s.delayed, step.now, step.limit), id);
    ListedRuns(Next(s, step, c), id, c);
    StepFirst(s, step, c, id);
  }

  /** Recovered into a retry, or still as it was. */
  ghost predicate MaybeRecovered(s: State, t: State, id: Id, recovered: bool)
    requires id in s.jobs
  {
    && id in t.jobs && t.jobs[id].Key() == s.jobs[id].Key()
    && (if recovered then id in t.delayed else t.jobs[id] == s.jobs[id] && (id in t.leases <==> id in s.leases))
  }

  lemma {:induction false} RecoverAllDelays(s: State, ids: seq<Id>, now: int, c: Config, id: Id)
    requires id in s.jobs && id in s.leases && !Hopeless(s.jobs[id])
    ensures MaybeRecovered(s, RecoverAll(s, ids, now, c).0, id, id in ids)
    decreases |ids|
  {
    if ids != [] {
      var x := Last(ids);
      RecoverAllDelays(s, Init(ids), now, c, id);
      assert ids == Init(ids) + [x];
      var s1 := RecoverAll(s, Init(ids), now, c).0;
      if x in s1.jobs { RecoverJobShape(s1.jobs[x], now, c); }
    }
  }

  /** A lease brings it back if recovery finds attempts left and no cancel. */
  lemma LeasedRuns(s: State, id: Id, c: Config)
    requires id in s.jobs && id in s.leases && !Hopeless(s.jobs[id]) && 0 <= s.jobs[id].priority <= 9
    ensures CanStillRun(s, id, c)
  {
    var step := RecoverStep(-1, s.leases[id]);
    DueIdsExact(s.leases, step.now, step.limit);
    RecoverAllDelays(s, DueIds(s.leases, step.now, step.limit), step.now, c, id);
    DelayedRuns(Next(s, step, c), id, c);
    StepFirst(s, step, c, id);
  }

  // ----- Main result -----

  /**
   * A job overwritten as blocked can still be leased, without being handed in again, exactly if an earlier enqueue left
   * it in the delayed set, or an earlier grant left a lease and the new hash has attempts and no cancel.
   */
  lemma BlockedAgainExact(s: State, id: Id, job: Job, now: int, c: Config)
    requires Enqueueable(job) && job.state.Blocked? && 0 <= job.priority <= 9
    ensures CanStillRun(Enqueue(s, id, job, now), id, c) <==> id in s.delayed || (id in s.leases && !Hopeless(job))
  {
    var t := Enqueue(s, id, job, now);
    if id in s.delayed {
      DelayedRuns(t, id, c);
    } else if id in s.leases && !Hopeless(job) {
      LeasedRuns(t, id, c);
    } else {
      assert Lost(t, id);
      forall n: nat ensures !RunsWithin(t, id, c, n) {
        LostForGood(t, id, c, n);
      }
    }
  }
}
