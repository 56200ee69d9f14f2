/**
 * The broker and the fan-in together: a blocked job enters the broker when it is submitted, and becomes runnable there
 * only through the wake-ups of the scans that found its dependencies finished.
 */
module Dependents {
  import opened Redis
  import opened Domain
  import opened BrokerSpec
  import opened Partition
  import opened Fencing
  import opened Attempts
  import opened Resubmission
  import FanIn

  datatype Joint = Joint(broker: State, fan: FanIn.State)

  /** A step of the fan-in about the one blocked job, with the hash it is enqueued with if it is, or any other broker step. */
  datatype Event = Fan(e: FanIn.Event, job: Job, now: int) | Other(step: Step)

  /** What the fan-in enqueues: the blocked job on submission, and a runnable one on a wake-up. */
  predicate Enqueues(e: FanIn.Event, job: Job) {
    Enqueueable(job) && (e.Submit? ==> job.state.Blocked?) && (e.Wake? ==> !job.state.Blocked?)
  }

  predicate JointLegal(s: Joint, event: Event, id: Id, setup: FanIn.Setup)
    requires FanIn.Shaped(s.fan, setup) && setup.Valid()
  {
    match event
    case Fan(e, job, _) => FanIn.Legal(s.fan, e, setup) && Enqueues(e, job)
    case Other(step) => Legal(s.broker, step) && RealToken(step) && !Releases(step, id)
  }

  function JointNext(s: Joint, event: Event, id: Id, setup: FanIn.Setup, c: Config): (t: Joint)
    requires FanIn.Shaped(s.fan, setup) && setup.Valid() && JointLegal(s, event, id, setup)
    ensures FanIn.Shaped(t.fan, setup)
  {
    match event
    case Fan(e, job, now) =>
      Joint(if e.Submit? || e.Wake? then Enqueue(s.broker, id, job, now) else s.broker, FanIn.Next(s.fan, e, setup))
    case Other(step) => s.(broker := Next(s.broker, step, c))
  }

  ghost predicate IsJointRun(states: seq<Joint>, events: seq<Event>, id: Id, setup: FanIn.Setup, c: Config) {
    && setup.Valid() && |states| == |events| + 1 && states[0] == Joint(EMPTY, FanIn.Start(setup))
    && (forall i :: 0 <= i < |states| ==> FanIn.Shaped(states[i].fan, setup))
    && forall i {:trigger events[i]} :: 0 <= i < |events| ==>
         JointLegal(states[i], events[i], id, setup) && states[i + 1] == JointNext(states[i], events[i], id, setup, c)
  }

  /** Readings are true, and without a wake-up the job is in no list. */
  ghost predicate Waits(s: Joint, id: Id, setup: FanIn.Setup)
    requires FanIn.Shaped(s.fan, setup)
  {
    FanIn.ReadingsTrue(s.fan, setup) && (s.fan.wakes == 0 ==> Parked(s.broker, id))
  }

  lemma FanStepWaits(s: Joint, event: Event, id: Id, setup: FanIn.Setup, c: Config)
    requires FanIn.Shaped(s.fan, setup) && setup.Valid() && JointLegal(s, event, id, setup) && Waits(s, id, setup) && event.Fan?
    ensures Waits(JointNext(s, event, id, setup, c), id, setup)
  {
    FanIn.ReadingsStep(s.fan, event.e, setup);
    if event.e.Submit? && s.fan.wakes == 0 { EnqueueLeavesParked(s.broker, id, event.job, event.now, id); }
  }

  lemma OtherStepWaits(s: Joint, event: Event, id: Id, setup: FanIn.Setup, c: Config)
    requires FanIn.Shaped(s.fan, setup) && setup.Valid() && JointLegal(s, event, id, setup) && Waits(s, id, setup) && event.Other?
    ensures Waits(JointNext(s, event, id, setup, c), id, setup)
    ensures s.fan.wakes == 0 ==> !Grants(s.broker, event.step, id)
  {
    if s.fan.wakes == 0 { StepLeavesParked(s.broker, event.step, id, c); }
  }

  lemma {:induction false} JointRunWaits(states: seq<Joint>, events: seq<Event>, id: Id, setup: FanIn.Setup, c: Config, n: nat)
    requires IsJointRun(states, events, id, setup, c) && n <= |events|
    ensures Waits(states[n], id, setup)
  {
    if n > 0 {
      JointRunWaits(states, events, id, setup, c, n - 1);
      var s, event := states[n - 1], events[n - 1];
      assert JointLegal(s, event, id, setup);
      if event.Fan? { FanStepWaits(s, event, id, setup, c); } else { OtherStepWaits(s, event, id, setup, c); }
    }
  }

  /**
   * No job runs ahead of its dependencies: when the broker grants it, a scan has found every one of them finished as
   * the job's policy wants.
   */
  lemma LeasedOnlyWhenReady(states: seq<Joint>, events: seq<Event>, id: Id, setup: FanIn.Setup, c: Config, n: nat)
    requires IsJointRun(states, events, id, setup, c) && n < |events|
    requires events[n].Other? && Grants(states[n].broker, events[n].step, id)
    ensures states[n].fan.wakes > 0 && setup.Satisfied() && forall d :: 0 <= d < |setup.final| ==> states[n].fan.finished[d]
    ensures forall d :: 0 <= d < |setup.final| ==>
              setup.final[d] == Completed || (setup.policy == FanIn.AllowFailed && (setup.final[d] == Failed || setup.final[d] == Canceled))
  {
    JointRunWaits(states, events, id, setup, c, n);
    assert JointLegal(states[n], events[n], id, setup);
    OtherStepWaits(states[n], events[n], id, setup, c);
  }

  // ----- A submission that comes after the wake-up -----

  /** The fan-in does not wake the job at this step. */
  predicate NoWake(event: Event) { event.Fan? ==> !event.e.Wake? }

  lemma JointStepLeavesLost(s: Joint, event: Event, id: Id, setup: FanIn.Setup, c: Config)
    requires FanIn.Shaped(s.fan, setup) && setup.Valid() && JointLegal(s, event, id, setup) && Lost(s.broker, id) && id !in s.broker.leases
    requires NoWake(event)
    ensures Lost(JointNext(s, event, id, setup, c).broker, id) && id !in JointNext(s, event, id, setup, c).broker.leases
    ensures event.Other? ==> !Grants(s.broker, event.step, id)
  {
    match event
    case Fan(e, job, now) => if e.Submit? { EnqueueLeavesLost(s.broker, id, job, now, id); }
    case Other(step) =>
      StepLeavesLost(s.broker, step, id, c);
      StepLeavesUnleased(s.broker, step, id, c);
  }

  /** Only a grant or an accepted heartbeat brings an id into the lease set. */
  lemma StepLeavesUnleased(s: State, step: Step, id: Id, c: Config)
    requires Lost(s, id) && id !in s.leases && Spares(s, step, id)
    ensures id !in Next(s, step, c).leases
  {
    match step
    case DequeueStep(worker, queues, ttl, now) =>
      DequeueLeases(s, ReadyKeys(queues), worker, ttl, now);
      DequeueLeavesLost(s, ReadyKeys(queues), worker, ttl, now, id);
    case ActivateStep(limit, now) => ActivateLeases(s, DueIds(s.delayed, now, limit));
    case RecoverStep(limit, now) => RecoverLeavesUnleased(s, DueIds(s.leases, now, limit), now, c, id);
    case _ =>
  }

  lemma {:induction false} RecoverLeavesUnleased(s: State, ids: seq<Id>, now: int, c: Config, id: Id)
    requires id !in s.leases
    ensures id !in RecoverAll(s, ids, now, c).0.leases
    decreases |ids|
  {
    if ids != [] { RecoverLeavesUnleased(s, Init(ids), now, c, id); }
  }

  ghost predicate Gone(s: State, id: Id) { Lost(s, id) && id !in s.leases }

  lemma JointRunStep(states: seq<Joint>, events: seq<Event>, id: Id, setup: FanIn.Setup, c: Config, i: nat)
    requires IsJointRun(states, events, id, setup, c) && i < |events|
    requires Gone(states[i].broker, id) && NoWake(events[i])
    ensures Gone(states[i + 1].broker, id) && (events[i].Other? ==> !Grants(states[i].broker, events[i].step, id))
  {
    assert JointLegal(states[i], events[i], id, setup);
    JointStepLeavesLost(states[i], events[i], id, setup, c);
  }

  lemma SubmittedIsGone(states: seq<Joint>, events: seq<Event>, id: Id, setup: FanIn.Setup, c: Config, n: nat)
    requires IsJointRun(states, events, id, setup, c) && n < |events| && events[n].Fan? && events[n].e.Submit?
    requires id !in states[n].broker.delayed && id !in states[n].broker.leases
    ensures Gone(states[n + 1].broker, id)
  {
    assert JointLegal(states[n], events[n], id, setup);
  }

  lemma {:induction false} GoneSpreads(states: seq<Joint>, id: Id, n: nat, m: nat)
    requires n <= m < |states| && Gone(states[n].broker, id)
    requires forall i {:trigger states[i]} :: n <= i < m && Gone(states[i].broker, id) ==> Gone(states[i + 1].broker, id)
    ensures Gone(states[m].broker, id)
    decreases m
  {
    if n < m {
      GoneSpreads(states, id, n, m - 1);
      assert Gone(states[m - 1].broker, id);
    }
  }

  lemma SubmittedStaysGone(states: seq<Joint>, events: seq<Event>, id: Id, setup: FanIn.Setup, c: Config, n: nat, m: nat)
    requires IsJointRun(states, events, id, setup, c) && n < m <= |events| && events[n].Fan? && events[n].e.Submit?
    requires id !in states[n].broker.delayed && id !in states[n].broker.leases
    requires forall i {:trigger events[i]} :: n < i < m ==> NoWake(events[i])
    ensures Gone(states[m].broker, id)
  {
    SubmittedIsGone(states, events, id, setup, c, n);
    forall i {:trigger states[i]} | n < i < m && Gone(states[i].broker, id) ensures Gone(states[i + 1].broker, id) {
      assert NoWake(events[i]);
      JointRunStep(states, events, id, setup, c, i);
    }
    GoneSpreads(states, id, n + 1, m);
  }

  /**
   * The service's own enqueue of the blocked job, when it comes after a wake-up that has neither left the job in the
   * delayed set nor led to a lease still held, is final: until another wake-up the job is never leased.
   */
  lemma LateSubmissionIsFinal(states: seq<Joint>, events: seq<Event>, id: Id, setup: FanIn.Setup, c: Config, n: nat, m: nat)
    requires IsJointRun(states, events, id, setup, c) && n < m < |events| && events[n].Fan? && events[n].e.Submit?
    requires id !in states[n].broker.delayed && id !in states[n].broker.leases
    requires forall i {:trigger events[i]} :: n < i < m ==> NoWake(events[i])
    ensures Lost(states[m].broker, id) && (events[m].Other? ==> !Grants(states[m].broker, events[m].step, id))
  {
    SubmittedStaysGone(states, events, id, setup, c, n, m);
    if events[m].Other? { JointRunStep(states, events, id, setup, c, m); }
  }

  /**
   * And exactly so: the submission of a new job, with its attempts before it and no cancel requested, leaves the broker
   * able to run it without another wake-up if and only if an earlier one left it in the delayed set or leased.
   */
  lemma LateSubmissionExact(s: Joint, e: FanIn.Event, job: Job, now: int, id: Id, setup: FanIn.Setup, c: Config)
    requires FanIn.Shaped(s.fan, setup) && setup.Valid() && e.Submit? && JointLegal(s, Fan(e, job, now), id, setup)
    requires 0 <= job.priority <= 9 && !Hopeless(job)
    ensures CanStillRun(JointNext(s, Fan(e, job, now), id, setup, c).broker, id, c) <==> id in s.broker.delayed || id in s.broker.leases
  {
    BlockedAgainExact(s.broker, id, job, now, c);
  }

  /** A wake-up into a ready list is lost: the next dequeue throws the entry away, and no later step brings the job back. */
  lemma LateSubmissionLosesTheWakeUp(id: Id, job: Job, worker: string, ttl: int, now: int, c: Config)
    requires Enqueueable(job) && job.state.Queued? && job.runAt <= now && 0 <= job.priority <= 9
    ensures var woken := Enqueue(EMPTY, id, job, now);
            var s := Enqueue(woken, id, job.(state := Blocked), now);
            var (t, grant) := Dequeue(s, [job.Key()], worker, ttl, now);
            && CanStillRun(woken, id, c) && !CanStillRun(s, id, c)
            && grant == None && id in t.jobs && t.jobs[id].state == Blocked && t.Ready(job.Key()) == [] && id !in t.delayed
  {
    var woken := Enqueue(EMPTY, id, job, now);
    assert woken.Ready(job.Key()) == [id];
    assert id in woken.Ready(job.Key()) by { assert woken.Ready(job.Key())[0] == id; }
    ListedRuns(woken, id, c);
    BlockedAgainExact(woken, id, job.(state := Blocked), now, c);
  }

  // ----- A second wake-up -----

  /**
   * The second of two wake-ups hands in a job that is live already, which no disciplined run does: unless it only
   * renews an entry in the delayed set, the job is listed twice.
   */
  lemma SecondWakeUpExact(s: State, id: Id, job: Job, now: int)
    requires Partitioned(s) && !Live(s, id) && Enqueueable(job) && !job.state.Blocked?
    ensures var t := Enqueue(s, id, job, now);
            && Partitioned(t) && !Disciplined(t, EnqueueStep(id, job, now))
            && (Partitioned(Enqueue(t, id, job, now)) <==> GoesToDelayed(job, now))
            && (!GoesToDelayed(job, now) ==> Count(Enqueue(t, id, job, now), id) == 2)
  {
    var t := Enqueue(s, id, job, now);
    EnqueueExact(s, id, job, now);
    EnqueueExact(t, id, job, now);
    EnqueueCounts(t, id, job, now);
    assert OnceIfLive(t, id);
  }
}
