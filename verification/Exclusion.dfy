/** Mutual exclusion in time: no two grants of one job ever entitle their holders to it at the same moment. */
module Exclusion {
  import opened Redis
  import opened Domain
  import opened BrokerSpec
  import opened Stranded
  import opened Partition
  import opened PartitionRuns
  import opened Fencing

  /**
   * The holder of a grant may count on the job from the grant or an accepted heartbeat for its TTL, unless it gives
   * the job back before.
   */
  datatype Interval = Interval(grant: nat, from: int, until: int)
  {
    predicate Covers(t: int) { from <= t < until }
  }

  /** The store, the intervals of one job so far, how often it has been granted, and the time. */
  datatype Timed = Timed(store: State, history: seq<Interval>, grants: nat, last: int)

  predicate AcceptsHeartbeat(s: State, step: Step, id: Id) {
    step.HeartbeatStep? && step.id == id && TokenMatches(s, id, step.token) && s.jobs[id].state.Active?
  }

  function Earlier(a: int, b: int): int { if a <= b then a else b }

  function Cut(history: seq<Interval>, grant: nat, now: int): (r: seq<Interval>)
    ensures |r| == |history|
    ensures forall i :: 0 <= i < |r| ==> r[i] == if history[i].grant == grant then history[i].(until := Earlier(history[i].until, now)) else history[i]
  {
    seq(|history|, i requires 0 <= i < |history| =>
      if history[i].grant == grant then history[i].(until := Earlier(history[i].until, now)) else history[i])
  }

  /** What happens to the intervals of job `id` when `step` is taken at `now`. */
  function NextHistory(s: Timed, step: Step, now: int, id: Id): seq<Interval> {
    if Grants(s.store, step, id) then s.history + [Interval(s.grants + 1, now, now + step.ttl)]
    else if AcceptsHeartbeat(s.store, step, id) then s.history + [Interval(s.grants, now, now + step.ttl)]
    else if AcceptsAck(s.store, step, id) then Cut(s.history, s.grants, now)
    else s.history
  }

  function TimedNext(s: Timed, step: Step, now: int, id: Id, c: Config): Timed
    requires Legal(s.store, step)
  {
    Timed(Next(s.store, step, c), NextHistory(s, step, now, id), s.grants + One(Grants(s.store, step, id)), now)
  }

  /** The time a step says it happens at. */
  predicate HappensAt(step: Step, now: int) {
    match step
    case EnqueueStep(_, _, at) => at == now
    case DequeueStep(_, _, _, at) => at == now
    case HeartbeatStep(_, _, _, at) => at == now
    case CompleteStep(_, _, _, at) => at == now
    case FailStep(_, _, _, _, at) => at == now
    case ThrottleStep(_, _, _) => true
    case ActivateStep(_, at) => at == now
    case RecoverStep(_, at) => at == now
    case RetryStep(_, _, at) => at == now
    case CancelStep(_, _, at) => at == now
  }

  /** Every worker leases and renews with its own TTL. */
  predicate OwnTtl(step: Step, ttlOf: string -> int) {
    match step
    case DequeueStep(worker, _, ttl, _) => ttl == ttlOf(worker)
    case HeartbeatStep(_, token, ttl, _) => token.LeaseToken? ==> ttl == ttlOf(token.worker)
    case _ => true
  }

  predicate TimedLegal(s: Timed, step: Step, now: int, ttlOf: string -> int) {
    Disciplined(s.store, step) && s.last <= now && HappensAt(step, now) && OwnTtl(step, ttlOf)
  }

  // ----- What a step does to a lease -----

  predicate Leased(s: State, id: Id) {
    id in s.jobs && s.jobs[id].state.Active? && s.jobs[id].token.LeaseToken? && id in s.leases
  }

  lemma ActiveIsLeased(s: State, id: Id)
    requires Partitioned(s)
    ensures Leased(s, id) <==> id in s.leases
  {
    InLeases(s, id);
    assert OnceIfLive(s, id);
  }

  /** The same lease, untouched. */
  predicate SameLease(s: State, t: State, id: Id) {
    Leased(s, id) && Leased(t, id) && t.leases[id] == s.leases[id] && t.jobs[id].token == s.jobs[id].token
  }

  /** A step begins a lease by a grant, extends it by an accepted heartbeat, ends it by an acknowledgement or once it has run out, and otherwise leaves it. */
  ghost predicate LeaseMoves(s: State, step: Step, t: State, now: int, id: Id) {
    && (Grants(s, step, id) ==>
          !Leased(s, id) && Leased(t, id) && t.leases[id] == now + step.ttl && t.jobs[id].token == LeaseToken(step.worker, id, now))
    && (AcceptsHeartbeat(s, step, id) ==>
          Leased(s, id) && Leased(t, id) && t.leases[id] == now + step.ttl && t.jobs[id].token == s.jobs[id].token == step.token)
    && (AcceptsAck(s, step, id) ==> !Leased(t, id))
    && (!Grants(s, step, id) && !AcceptsHeartbeat(s, step, id) && !AcceptsAck(s, step, id) && Leased(s, id) ==>
          SameLease(s, t, id) || (!Leased(t, id) && s.leases[id] <= now))
    && (!Grants(s, step, id) && !Leased(s, id) ==> !Leased(t, id))
  }

  lemma DequeueMovesLease(s: State, step: Step, c: Config, now: int, id: Id)
    requires Partitioned(s) && step.DequeueStep? && step.now == now
    ensures LeaseMoves(s, step, Next(s, step, c), now, id)
  {
    var keys := ReadyKeys(step.queues);
    DequeueExact(s, keys, step.worker, step.ttl, step.now);
    DequeueKeepsPartition(s, keys, step.worker, step.ttl, step.now);
    DequeueLeases(s, keys, step.worker, step.ttl, step.now);
    ActiveIsLeased(s, id);
    DequeueJobs(s, keys, step.worker, step.ttl, step.now);
  }

  lemma HeartbeatMovesLease(s: State, step: Step, c: Config, now: int, id: Id)
    requires Partitioned(s) && step.HeartbeatStep? && step.now == now
    ensures LeaseMoves(s, step, Next(s, step, c), now, id)
  {
    ActiveIsLeased(s, id);
    InLeases(s, id);
  }

  lemma CompleteMovesLease(s: State, step: Step, c: Config, now: int, id: Id)
    requires Partitioned(s) && Disciplined(s, step) && step.CompleteStep?
    ensures LeaseMoves(s, step, Next(s, step, c), now, id)
  {}

  lemma FailMovesLease(s: State, step: Step, c: Config, now: int, id: Id)
    requires Partitioned(s) && Disciplined(s, step) && step.FailStep?
    ensures LeaseMoves(s, step, Next(s, step, c), now, id)
  {}

  lemma ThrottleMovesLease(s: State, step: Step, c: Config, now: int, id: Id)
    requires Partitioned(s) && Disciplined(s, step) && step.ThrottleStep?
    ensures LeaseMoves(s, step, Next(s, step, c), now, id)
  {}

  lemma EnqueueMovesLease(s: State, step: Step, c: Config, now: int, id: Id)
    requires Disciplined(s, step) && step.EnqueueStep?
    ensures LeaseMoves(s, step, Next(s, step, c), now, id)
  {}

  lemma RetryMovesLease(s: State, step: Step, c: Config, now: int, id: Id)
    requires Disciplined(s, step) && step.RetryStep?
    ensures LeaseMoves(s, step, Next(s, step, c), now, id)
  {}

  lemma CancelMovesLease(s: State, step: Step, c: Config, now: int, id: Id)
    requires Disciplined(s, step) && step.CancelStep?
    ensures LeaseMoves(s, step, Next(s, step, c), now, id)
  {
    CancelHash(s, step.id, step.seen, step.now);
  }

  lemma ActivateMovesLease(s: State, step: Step, c: Config, now: int, id: Id)
    requires Partitioned(s) && step.ActivateStep?
    ensures LeaseMoves(s, step, Next(s, step, c), now, id)
  {
    var ids := DueIds(s.delayed, step.now, step.limit);
    DueIdsExact(s.delayed, step.now, step.limit);
    ActivateJobs(s, ids, id);
    ActivateLeases(s, ids);
    if id in s.delayed { InDelayed(s, id); }
  }

  lemma RecoverMovesLease(s: State, step: Step, c: Config, now: int, id: Id)
    requires Partitioned(s) && step.RecoverStep? && step.now == now
    ensures LeaseMoves(s, step, Next(s, step, c), now, id)
  {
    var ids := DueIds(s.leases, now, step.limit);
    DueIdsExact(s.leases, now, step.limit);
    RecoverAllExact(s, ids, now, c);
    RecoverJobs(s, ids, now, c, id);
    var (t, out) := RecoverAll(s, ids, now, c);
    ActiveIsLeased(s, id);
    ActiveIsLeased(t, id);
    if Names(out, id) { assert id in ids; }
  }

  lemma StepMovesLease(s: State, step: Step, c: Config, now: int, id: Id)
    requires Partitioned(s) && Disciplined(s, step) && HappensAt(step, now)
    ensures LeaseMoves(s, step, Next(s, step, c), now, id)
  {
    match step
    case DequeueStep(_, _, _, _) => DequeueMovesLease(s, step, c, now, id);
    case HeartbeatStep(_, _, _, _) => HeartbeatMovesLease(s, step, c, now, id);
    case CompleteStep(_, _, _, _) => CompleteMovesLease(s, step, c, now, id);
    case FailStep(_, _, _, _, _) => FailMovesLease(s, step, c, now, id);
    case ThrottleStep(_, _, _) => ThrottleMovesLease(s, step, c, now, id);
    case ActivateStep(_, _) => ActivateMovesLease(s, step, c, now, id);
    case RecoverStep(_, _) => RecoverMovesLease(s, step, c, now, id);
    case EnqueueStep(_, _, _) => EnqueueMovesLease(s, step, c, now, id);
    case RetryStep(_, _, _) => RetryMovesLease(s, step, c, now, id);
    case CancelStep(_, _, _) => CancelMovesLease(s, step, c, now, id);
  }

  // ----- Runs -----

  ghost predicate Disjoint(history: seq<Interval>) {
    forall i, j :: 0 <= i < j < |history| && history[i].grant != history[j].grant ==> history[i].until <= history[j].from
  }

  /** An interval is over, or it belongs to the latest grant, whose lease lasts at least as long. */
  ghost predicate Fits(s: Timed, a: Interval, id: Id) {
    a.until <= s.last || (a.grant == s.grants && Leased(s.store, id) && a.until <= s.store.leases[id])
  }

  ghost predicate Inv(s: Timed, id: Id, ttlOf: string -> int) {
    && Disjoint(s.history)
    && (forall i :: 0 <= i < |s.history| ==> s.history[i].grant <= s.grants && Fits(s, s.history[i], id))
    && (Leased(s.store, id) ==> s.store.leases[id] <= s.last + ttlOf(s.store.jobs[id].token.worker))
  }

  lemma HistoryKeeps(s: Timed, t: Timed, step: Step, now: int, id: Id, ttlOf: string -> int)
    requires Inv(s, id, ttlOf) && s.last <= now && OwnTtl(step, ttlOf) && LeaseMoves(s.store, step, t.store, now, id)
    requires t.history == NextHistory(s, step, now, id) && t.grants == s.grants + One(Grants(s.store, step, id)) && t.last == now
    ensures Inv(t, id, ttlOf)
  {
    if Grants(s.store, step, id) {
      forall i | 0 <= i < |s.history| ensures s.history[i].until <= now { assert Fits(s, s.history[i], id); }
      forall i | 0 <= i < |t.history| ensures t.history[i].grant <= t.grants && Fits(t, t.history[i], id) {
        if i < |s.history| { assert t.history[i] == s.history[i]; }
      }
    } else if AcceptsHeartbeat(s.store, step, id) {
      forall i | 0 <= i < |s.history| ensures Fits(t, s.history[i], id) { assert Fits(s, s.history[i], id); }
      forall i | 0 <= i < |s.history| && s.history[i].grant != s.grants ensures s.history[i].until <= now { assert Fits(s, s.history[i], id); }
    } else {
      forall i | 0 <= i < |t.history| ensures t.history[i].grant <= t.grants && Fits(t, t.history[i], id) {
        assert Fits(s, s.history[i], id);
      }
      forall i, j | 0 <= i < j < |t.history| && t.history[i].grant != t.history[j].grant ensures t.history[i].until <= t.history[j].from {
        assert s.history[i].until <= s.history[j].from;
      }
    }
  }

  ghost predicate IsTimedRun(states: seq<Timed>, steps: seq<Step>, times: seq<int>, id: Id, c: Config, ttlOf: string -> int) {
    && |states| == |steps| + 1 && |times| == |steps| && states[0].store == EMPTY && states[0].history == [] && states[0].grants == 0
    && forall i {:trigger steps[i]} :: 0 <= i < |steps| ==>
         TimedLegal(states[i], steps[i], times[i], ttlOf) && states[i + 1] == TimedNext(states[i], steps[i], times[i], id, c)
  }

  lemma RunStep(states: seq<Timed>, steps: seq<Step>, times: seq<int>, id: Id, c: Config, ttlOf: string -> int, i: nat)
    requires IsTimedRun(states, steps, times, id, c, ttlOf) && i < |steps|
    requires Partitioned(states[i].store) && Inv(states[i], id, ttlOf)
    ensures Partitioned(states[i + 1].store) && Inv(states[i + 1], id, ttlOf)
  {
    var s, step, now := states[i], steps[i], times[i];
    assert TimedLegal(s, step, now, ttlOf);
    StepKeepsPartition(s.store, step, c);
    StepMovesLease(s.store, step, c, now, id);
    HistoryKeeps(s, states[i + 1], step, now, id, ttlOf);
  }

  lemma {:induction false} InvHolds(states: seq<Timed>, steps: seq<Step>, times: seq<int>, id: Id, c: Config, ttlOf: string -> int, n: nat)
    requires IsTimedRun(states, steps, times, id, c, ttlOf) && n <= |steps|
    ensures Partitioned(states[n].store) && Inv(states[n], id, ttlOf)
  {
    if n > 0 {
      InvHolds(states, steps, times, id, c, ttlOf, n - 1);
      RunStep(states, steps, times, id, c, ttlOf, n - 1);
    } else {
      assert forall x :: OnceIfLive(EMPTY, x);
    }
  }

  /** At no moment may two different grants of a job count on it, in any disciplined run on one clock, whatever the workers' TTLs. */
  lemma LeasesAreDisjoint(states: seq<Timed>, steps: seq<Step>, times: seq<int>, id: Id, c: Config, ttlOf: string -> int, n: nat, a: Interval, b: Interval, t: int)
    requires IsTimedRun(states, steps, times, id, c, ttlOf) && n <= |steps|
    requires a in states[n].history && b in states[n].history && a.Covers(t) && b.Covers(t)
    ensures a.grant == b.grant
  {
    InvHolds(states, steps, times, id, c, ttlOf, n);
  }
}
