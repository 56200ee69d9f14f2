/**
 * What a worker does around a job: ask the limiter, and afterwards acknowledge to the broker, mark the repository's row
 * and scan the dependents, in that order.
 */
module Worker {
  import opened Redis
  import opened Domain
  import opened BrokerSpec
  import opened Broker
  import opened Fencing
  import opened Partition
  import opened PartitionRuns
  import opened Attempts
  import Backoff
  import FanIn
  import LimiterSpec
  import Limiter

  /** Writes to the repository, and scans of the dependents (FanIn says what a scan does). */
  datatype Effect = Marked(id: Id, state: JobState) | Scanned(id: Id)

  /** The retry time a worker computes for a failed attempt, None if the attempts are used up. */
  function RetryTime(copy: Job, finished: int, c: Config, outOfRange: int): Option<int> {
    var maxAttempts := if copy.maxAttempts.Some? then copy.maxAttempts.value else 0;
    if copy.attempts < maxAttempts then Some(finished + WorkerDelay(copy.attempts, c, outOfRange)) else None
  }

  /** In whole milliseconds. */
  function WorkerDelay(attempts: int, c: Config, outOfRange: int): int {
    Backoff.ComputeBackoff(attempts, c.baseRetryDelay * Backoff.NANOS_PER_MILLI, c.maxRetryDelay * Backoff.NANOS_PER_MILLI, outOfRange)
      / Backoff.NANOS_PER_MILLI
  }

  /** The effects of an acknowledgement: none when it is refused; a scan only for a finished job and only after the mark. */
  function Effects(id: Id, state: JobState, accepted: bool, markFails: bool): seq<Effect> {
    if !accepted then []
    else (if markFails then [] else [Marked(id, state)]) + (if state.Terminal() then [Scanned(id)] else [])
  }

  /** A mark of this kind, at the position before. */
  predicate MarkedJustBefore(effects: seq<Effect>, i: nat, id: Id, state: JobState)
    requires i < |effects|
  {
    i > 0 && effects[i - 1] == Marked(id, state)
  }

  /**
   * A refused acknowledgement has no effects. An accepted one marks the row unless that fails, and is followed by a scan
   * exactly if it finished the job; the scan comes right after the mark, or alone if the mark failed.
   */
  lemma EffectsExact(id: Id, state: JobState, accepted: bool, markFails: bool)
    ensures var effects := Effects(id, state, accepted, markFails);
            && (!accepted ==> effects == [])
            && (Marked(id, state) in effects <==> accepted && !markFails)
            && (Scanned(id) in effects <==> accepted && (state == Completed || state == Failed || state == Canceled))
            && (forall i :: 0 <= i < |effects| && effects[i] == Scanned(id) ==> i == |effects| - 1 && (markFails || MarkedJustBefore(effects, i, id, state)))
            && (forall e :: e in effects ==> e == Marked(id, state) || e == Scanned(id))
  {
    var effects := Effects(id, state, accepted, markFails);
    if accepted {
      if !markFails { assert effects[0] == Marked(id, state); }
      if state.Terminal() { assert effects[|effects| - 1] == Scanned(id); }
    }
  }

  /** What the fan-in sees of a worker's effects on dependency `d`: the mark of its end, and the list a scan begins with. */
  function Seen(effects: seq<Effect>, d: nat): seq<FanIn.Event> {
    if effects == [] then []
    else
      var e := effects[0];
      (if e.Scanned? then [FanIn.List(d)]
       else if e.state == Completed || e.state == Failed || e.state == Canceled then [FanIn.Finish(d)]
       else []) + Seen(effects[1..], d)
  }

  lemma SeenOfEnd(id: Id, state: JobState, d: nat)
    requires state == Completed || state == Failed || state == Canceled
    ensures Seen(Effects(id, state, true, false), d) == [FanIn.Finish(d), FanIn.List(d)]
    ensures Seen(Effects(id, state, true, true), d) == [FanIn.List(d)]
  {
    var both, scan := Effects(id, state, true, false), Effects(id, state, true, true);
    assert both == [Marked(id, state), Scanned(id)] && scan == [Scanned(id)];
    assert both[1..] == scan && scan[1..] == [];
    assert Seen(scan, d) == [FanIn.List(d)] + Seen([], d);
    assert Seen(both, d) == [FanIn.Finish(d)] + Seen(scan, d);
  }

  /** One event more, if it is legal. */
  ghost predicate Continues(states: seq<FanIn.State>, log: seq<FanIn.Event>, more: seq<FanIn.Event>, setup: FanIn.Setup) {
    exists after: seq<FanIn.State> :: FanIn.IsRun(after, log + more, setup) && |states| <= |after| && after[..|states|] == states
  }

  lemma NoScanBeforeMark(states: seq<FanIn.State>, log: seq<FanIn.Event>, after: seq<FanIn.State>, setup: FanIn.Setup, d: nat)
    requires FanIn.IsRun(states, log, setup) && d < |setup.final| && states[|log|].pcs[d].Working?
    requires FanIn.IsRun(after, log + [FanIn.List(d)], setup)
    ensures after[..|states|] != states
  {
    var full := log + [FanIn.List(d)];
    assert full[|log|] == FanIn.List(d);
    assert FanIn.Legal(after[|log|], full[|log|], setup);
    assert after[..|states|][|log|] == after[|log|];
  }

  /**
   * A worker that ends a dependency acts as the fan-in assumes, Finish before List, exactly if its mark is stored; with
   * the mark lost it would scan for a dependency that still looks unfinished.
   */
  lemma WorkerFollowsFanIn(states: seq<FanIn.State>, log: seq<FanIn.Event>, setup: FanIn.Setup, d: nat, id: Id, markFails: bool)
    requires FanIn.IsRun(states, log, setup) && d < |setup.final| && setup.scans[d] && states[|log|].pcs[d].Working?
    ensures Continues(states, log, Seen(Effects(id, setup.final[d], true, markFails), d), setup) <==> !markFails
  {
    SeenOfEnd(id, setup.final[d], d);
    if markFails {
      forall after: seq<FanIn.State> | FanIn.IsRun(after, log + [FanIn.List(d)], setup) ensures after[..|states|] != states {
        NoScanBeforeMark(states, log, after, setup, d);
      }
    } else {
      var s1, l1 := FanIn.Extend(states, log, setup, FanIn.Finish(d));
      var s2, l2 := FanIn.Extend(s1, l1, setup, FanIn.List(d));
      assert l2 == log + [FanIn.Finish(d), FanIn.List(d)];
      assert s2[..|states|] == states;
    }
  }

  datatype Verdict = Go | Deny(retryAt: int) | Unavailable

  /** The limiter's keys after a worker's evaluation; without policies it does not ask. */
  function KeysAfter(s: LimiterSpec.Store, job: LimiterSpec.LimitedJob, policies: seq<LimiterSpec.Policy>, ttl: int, now: int,
                     trouble: LimiterSpec.Trouble): LimiterSpec.Store {
    if policies == [] then s
    else if trouble.Stops(|LimiterSpec.Applicable(job, policies)|) then
      LimiterSpec.EvaluateFaulty(s, policies, job, ttl, now, trouble.fault.value, trouble.stuck)
    else LimiterSpec.EvaluateStuck(s, policies, job, ttl, now, trouble.stuck).0
  }

  class Runtime {
    const broker: RedisBroker
    const limiter: Limiter.RedisLimiter
    const leaseTtl: int
    const heartbeat: int
    const name: string
    const config: Config
    const outOfRange: int
    var effects: seq<Effect>

    constructor (broker: RedisBroker, limiter: Limiter.RedisLimiter, leaseTtl: int, heartbeat: int, name: string, config: Config, outOfRange: int)
      ensures this.broker == broker && this.limiter == limiter && this.config == config && effects == []
    {
      this.broker, this.limiter, this.leaseTtl, this.heartbeat := broker, limiter, leaseTtl, heartbeat;
      this.name, this.config, this.outOfRange, effects := name, config, outOfRange, [];
    }

    method HandleFailure(id: Id, copy: Job, token: Token, finished: int, markFails: bool)
      modifies this`effects, broker
      ensures var (t, accepted) := Fail(old(broker.View()), id, copy.queue, token, RetryTime(copy, finished, config, outOfRange), finished);
              && broker.View() == t
              && effects == old(effects) + Effects(id, if RetryTime(copy, finished, config, outOfRange).Some? then Retrying else Failed, accepted, markFails)
    {
      var retryAt: Option<int> := None;
      var state := Failed;
      var maxAttempts := if copy.maxAttempts.Some? then copy.maxAttempts.value else 0;
      if copy.attempts < maxAttempts {
        retryAt := Some(finished + WorkerDelay(copy.attempts, config, outOfRange));
        state := Retrying;
      }
      var ok := broker.FailScript(id, copy.queue, token, retryAt, finished);
      if !ok { return; }
      if retryAt.Some? {
        if !markFails { effects := effects + [Marked(id, state)]; }
        return;
      }
      if !markFails { effects := effects + [Marked(id, state)]; }
      effects := effects + [Scanned(id)];
    }

    method Throttle(id: Id, token: Token, retryAt: int, markFails: bool)
      modifies this`effects, broker
      ensures var (t, accepted) := BrokerSpec.Throttle(old(broker.View()), id, token, retryAt);
              && broker.View() == t
              && effects == old(effects) + Effects(id, Throttled, accepted, markFails)
    {
      var ok := broker.ThrottleScript(id, token, retryAt);
      if !ok { return; }
      if !markFails { effects := effects + [Marked(id, Throttled)]; }
    }

    /**
     * Before the handler: without policies, or with the limiter's consent, the job runs; otherwise it is throttled until
     * the limiter's retry time, or for one heartbeat interval if the limiter is unavailable.
     */
    method Admit(id: Id, token: Token, job: LimiterSpec.LimitedJob, policies: seq<LimiterSpec.Policy>, now: int, trouble: LimiterSpec.Trouble, markFails: bool)
      returns (go: bool)
      modifies this`effects, broker, limiter
      ensures var (keys, d) := LimiterSpec.EvaluateStuck(old(limiter.keys), policies, job, leaseTtl, now, trouble.stuck);
              var failed := trouble.Stops(|LimiterSpec.Applicable(job, policies)|);
              && (go <==> policies == [] || (!failed && d.allowed))
              && (go ==> broker.View() == old(broker.View()) && effects == old(effects) + (if markFails then [] else [Marked(id, Active)]))
              && (!go ==>
                    && (!failed ==> d.retryAt.Some?)
                    && var until := if failed then now + heartbeat else d.retryAt.value;
                       var (t, accepted) := BrokerSpec.Throttle(old(broker.View()), id, token, until);
                       broker.View() == t && effects == old(effects) + Effects(id, Throttled, accepted, markFails))
      ensures limiter.keys == KeysAfter(old(limiter.keys), job, policies, leaseTtl, now, trouble)
    {
      var verdict := Consult(job, policies, now, trouble);
      match verdict {
        case Go => if !markFails { effects := effects + [Marked(id, Active)]; }
        case Deny(retryAt) => Throttle(id, token, retryAt, markFails);
        case Unavailable => Throttle(id, token, now + heartbeat, markFails);
      }
      return verdict.Go?;
    }

    /** What the limiter says, if it is asked at all. */
    method Consult(job: LimiterSpec.LimitedJob, policies: seq<LimiterSpec.Policy>, now: int, trouble: LimiterSpec.Trouble) returns (verdict: Verdict)
      modifies limiter
      ensures limiter.keys == KeysAfter(old(limiter.keys), job, policies, leaseTtl, now, trouble)
      ensures var d := LimiterSpec.EvaluateStuck(old(limiter.keys), policies, job, leaseTtl, now, trouble.stuck).1;
              var failed := trouble.Stops(|LimiterSpec.Applicable(job, policies)|);
              match verdict
              case Go => policies == [] || (!failed && d.allowed)
              case Deny(retryAt) => policies != [] && !failed && !d.allowed && d.retryAt == Some(retryAt)
              case Unavailable => policies != [] && failed
    {
      if |policies| == 0 { return Go; }
      DeniedHasTime(limiter.keys, LimiterSpec.Applicable(job, policies), job, leaseTtl, now);
      var decision := limiter.EvaluateAndAcquire(job, policies, leaseTtl, now, trouble);
      if decision.None? { return Unavailable; }
      if !decision.value.allowed { return Deny(decision.value.retryAt.value); }
      return Go;
    }

    /** After the handler; the slots are given back whatever the broker says, unless Redis fails after `effective` of them. */
    method Conclude(id: Id, copy: Job, token: Token, job: LimiterSpec.LimitedJob, policies: seq<LimiterSpec.Policy>, succeeded: bool, finished: int, markFails: bool, effective: nat)
      modifies this`effects, broker, limiter
      ensures var failed := Fail(old(broker.View()), id, copy.queue, token, RetryTime(copy, finished, config, outOfRange), finished);
              var (t, accepted) := if succeeded then Complete(old(broker.View()), id, token, name, finished) else failed;
              var state := if succeeded then Completed else if RetryTime(copy, finished, config, outOfRange).Some? then Retrying else Failed;
              && broker.View() == t
              && effects == old(effects) + Effects(id, state, accepted, markFails)
      ensures limiter.keys == LimiterSpec.Undo(old(limiter.keys), LimiterSpec.FirstOf(LimiterSpec.SlotPolicies(LimiterSpec.Applicable(job, policies)), effective), job)
    {
      if succeeded {
        var ok := broker.CompleteScript(id, token, name, finished);
        if ok {
          if !markFails { effects := effects + [Marked(id, Completed)]; }
          effects := effects + [Scanned(id)];
        }
      } else {
        HandleFailure(id, copy, token, finished, markFails);
      }
      limiter.Release(job, policies, effective);
    }
  }

  lemma {:induction false} DeniedHasTime(s: LimiterSpec.Store, ps: seq<LimiterSpec.Policy>, job: LimiterSpec.LimitedJob, ttl: int, now: int)
    ensures var d := LimiterSpec.AskAll(s, ps, job, ttl, now).1; d.allowed <==> d.retryAt.None?
    decreases |ps|
  {
    if ps != [] { DeniedHasTime(s, ps[..|ps| - 1], job, ttl, now); }
  }

  // ----- What follows across broker, limiter and worker -----

  /**
   * A worker that loaded its copy after grant `g` decides on the hash's own numbers whenever its report is accepted:
   * such a report is the budgeted kind that Attempts.BoundedExecution takes for granted.
   */
  lemma WorkerReportsAreBudgeted(states: seq<State>, steps: seq<Step>, c: Config, id: Id, g: nat, i: nat, n: nat, finished: int, outOfRange: int)
    requires IsRun(states, steps, c) && GrantsDiffer(Marks(states, steps, c, id)) && g < i <= n <= |steps|
    requires Marks(states, steps, c, id)[g].Granted? && id in states[i].jobs
    requires Disciplined(states[n], FailStep(id, states[i].jobs[id].queue, Marks(states, steps, c, id)[g].token,
                                             RetryTime(states[i].jobs[id], finished, c, outOfRange), finished))
    ensures var copy := states[i].jobs[id];
            Budgeted(states[n], FailStep(id, copy.queue, Marks(states, steps, c, id)[g].token, RetryTime(copy, finished, c, outOfRange), finished))
  {
    if TokenMatches(states[n], id, Marks(states, steps, c, id)[g].token) {
      WorkerCopyIsCurrent(states, steps, c, id, g, i, n);
    }
  }

  /** The step is a report whose sender got its token from grant `g` and loaded its copy of the job at step `i`. */
  ghost predicate ReportedFrom(states: seq<State>, steps: seq<Step>, c: Config, outOfRange: int, n: nat, g: nat, i: nat)
    requires n < |steps| < |states| && steps[n].FailStep?
  {
    var step := steps[n];
    var marks := Marks(states, steps, c, step.id);
    && g < i <= n && marks[g].Granted? && marks[g].token == step.token && step.id in states[i].jobs
    && step.queue == states[i].jobs[step.id].queue && step.retryAt == RetryTime(states[i].jobs[step.id], step.now, c, outOfRange)
  }

  ghost predicate Reported(states: seq<State>, steps: seq<Step>, c: Config, outOfRange: int, n: nat)
    requires n < |steps| < |states| && steps[n].FailStep?
  {
    exists g: nat, i: nat :: ReportedFrom(states, steps, c, outOfRange, n, g, i)
  }

  /** A disciplined run without operator replays, of new jobs and of reports by workers. */
  ghost predicate IsWorkerRun(states: seq<State>, steps: seq<Step>, c: Config, outOfRange: int) {
    && IsDisciplinedRun(states, steps, c)
    && (forall id :: GrantsDiffer(Marks(states, steps, c, id)))
    && forall n {:trigger steps[n]} :: 0 <= n < |steps| ==>
         match steps[n]
         case EnqueueStep(_, job, _) => job.attempts == 0 && job.maxAttempts.Some? && job.maxAttempts.value >= 1
         case FailStep(_, _, _, _, _) => Reported(states, steps, c, outOfRange, n)
         case RetryStep(_, _, _) => false
         case _ => true
  }

  lemma ReportIsBudgeted(states: seq<State>, steps: seq<Step>, c: Config, outOfRange: int, n: nat, g: nat, i: nat)
    requires IsRun(states, steps, c) && n < |steps| && steps[n].FailStep? && Disciplined(states[n], steps[n])
    requires GrantsDiffer(Marks(states, steps, c, steps[n].id)) && ReportedFrom(states, steps, c, outOfRange, n, g, i)
    ensures Budgeted(states[n], steps[n])
  {
    WorkerReportsAreBudgeted(states, steps, c, steps[n].id, g, i, n, steps[n].now, outOfRange);
  }

  lemma WorkerRunIsBudgeted(states: seq<State>, steps: seq<Step>, c: Config, outOfRange: int)
    requires IsWorkerRun(states, steps, c, outOfRange)
    ensures IsBudgetedRun(states, steps, c)
  {
    forall n | 0 <= n < |steps| ensures Budgeted(states[n], steps[n]) {
      assert Disciplined(states[n], steps[n]);
      if steps[n].FailStep? {
        assert Reported(states, steps, c, outOfRange, n);
        var g: nat, i: nat :| ReportedFrom(states, steps, c, outOfRange, n, g, i);
        ReportIsBudgeted(states, steps, c, outOfRange, n, g, i);
      }
    }
  }

  /**
   * Bounded execution as the workers bring it about, each deciding on its own copy: a job is granted as often as its
   * attempts say, retried at most maxAttempts - 1 times, and at most maxAttempts of its grants are not throttled.
   */
  lemma WorkersAreBounded(states: seq<State>, steps: seq<Step>, c: Config, outOfRange: int, id: Id, n: nat)
    requires IsWorkerRun(states, steps, c, outOfRange) && n <= |steps| && id in states[n].jobs
    ensures states[n].jobs[id].attempts == GrantCount(states, steps, id, n)
    ensures states[n].jobs[id].maxAttempts.Some?
    ensures RetryCount(states, steps, c, id, n) <= states[n].jobs[id].maxAttempts.value - 1
    ensures GrantCount(states, steps, id, n) - ThrottleCount(states, steps, id, n) <= states[n].jobs[id].maxAttempts.value
  {
    WorkerRunIsBudgeted(states, steps, c, outOfRange);
    BoundedExecution(states, steps, c, id, n);
  }

  /** Two stores agree on where a job is and what becomes of it. */
  predicate SamePlace(s: State, t: State, id: Id) {
    && s.ready == t.ready && s.delayed == t.delayed && s.leases == t.leases && s.dlq == t.dlq
    && id in s.jobs && id in t.jobs && s.jobs[id].state == t.jobs[id].state && s.jobs[id].runAt == t.jobs[id].runAt
  }

  /**
   * Reporting a failure and letting the lease run out put the job in the same place for the same time, except exactly
   * where a cancel was requested, which only the lease recovery honours, and where the worker's delay overflows.
   */
  lemma FailureAgreesWithRecovery(s: State, id: Id, token: Token, now: int, c: Config, outOfRange: int)
    requires TokenMatches(s, id, token) && id in s.leases && s.jobs[id].attempts >= 1
    requires 0 <= c.baseRetryDelay && 0 <= c.maxRetryDelay && c.maxRetryDelay * Backoff.NANOS_PER_MILLI < Backoff.INT64_LIMIT
    ensures var job := s.jobs[id];
            SamePlace(Fail(s, id, job.queue, token, RetryTime(job, now, c, outOfRange), now).0, RecoverOne(s, id, now, c).0, id)
            <==> (!job.cancelRequested
                  && (job.attempts >= (if job.maxAttempts.Some? then job.maxAttempts.value else 0) || Backoff.Representable(job.attempts, c.baseRetryDelay)
                      || outOfRange >= c.maxRetryDelay * Backoff.NANOS_PER_MILLI))
  {
    var job := s.jobs[id];
    DelaysAgree(job.attempts, c, outOfRange);
    var reported := Fail(s, id, job.queue, token, RetryTime(job, now, c, outOfRange), now).0;
    var recovered := RecoverOne(s, id, now, c).0;
    assert recovered.jobs[id] == RecoverJob(job, now, c);
    if job.maxAttempts.Some? && job.attempts < job.maxAttempts.value {
      assert reported.jobs[id].runAt == now + WorkerDelay(job.attempts, c, outOfRange);
    }
  }

  lemma DelaysAgree(attempts: int, c: Config, outOfRange: int)
    requires attempts >= 1
    requires 0 <= c.baseRetryDelay && 0 <= c.maxRetryDelay && c.maxRetryDelay * Backoff.NANOS_PER_MILLI < Backoff.INT64_LIMIT
    ensures WorkerDelay(attempts, c, outOfRange) == Backoff.RecoveryDelay(attempts, c.baseRetryDelay, c.maxRetryDelay)
       <==> Backoff.Representable(attempts, c.baseRetryDelay) || outOfRange >= c.maxRetryDelay * Backoff.NANOS_PER_MILLI
  {
    var base, limit := c.baseRetryDelay, c.maxRetryDelay;
    Backoff.BackoffsAgree(attempts, base, limit, outOfRange);
    var delay := Backoff.RecoveryDelay(attempts, base, limit);
    var nanos := Backoff.ComputeBackoff(attempts, base * Backoff.NANOS_PER_MILLI, limit * Backoff.NANOS_PER_MILLI, outOfRange);
    if !Backoff.Representable(attempts, base) {
      var p := Backoff.Pow2(attempts - 1);
      assert base * Backoff.NANOS_PER_MILLI * p == base * p * Backoff.NANOS_PER_MILLI;
      assert delay == limit;
    }
  }

  /**
   * A job throttled on the limiter's word becomes due exactly when the limiter would let it in again, other traffic
   * aside: it neither comes back in vain nor waits too long.
   */
  lemma ThrottledUntilAdmissible(s: State, token: Token, store: LimiterSpec.Store, policies: seq<LimiterSpec.Policy>, job: LimiterSpec.LimitedJob,
                                 ttl: int, now: int, later: int)
    requires Limiter.DistinctIds(policies) && Limiter.Fit(store, LimiterSpec.Applicable(job, policies), now) && now <= later
    requires TokenMatches(s, job.id, token) && !LimiterSpec.Evaluate(store, policies, job, ttl, now).1.allowed
    ensures var (after, d) := LimiterSpec.Evaluate(store, policies, job, ttl, now);
            && d.retryAt.Some?
            && var t := BrokerSpec.Throttle(s, job.id, token, d.retryAt.value).0;
               && t.jobs[job.id].state.Throttled?
               && (job.id in DueSet(t.delayed, later)
                   <==> LimiterSpec.Evaluate(after, policies, job.(attempts := job.attempts + 1), ttl, later).1.allowed)
  {
    Limiter.RetryTimeIsExact(store, policies, job, job.attempts + 1, ttl, now, later);
  }
}
