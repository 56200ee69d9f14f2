/** The partition over whole runs, and what it buys: an exact dequeue and exact scheduler batches. */
module PartitionRuns {
  import opened Redis
  import opened Domain
  import opened BrokerSpec
  import opened Stranded
  import opened Partition

  // ----- Dequeue -----

  function FirstNonEmpty(s: State, keys: seq<ReadyKey>): (i: nat)
    ensures i <= |keys|
    ensures forall j :: 0 <= j < i ==> s.Ready(keys[j]) == []
    ensures i < |keys| ==> s.Ready(keys[i]) != []
  {
    if keys == [] || s.Ready(keys[0]) != [] then 0 else 1 + FirstNonEmpty(s, keys[1..])
  }

  /**
   * A partitioned store never makes the dequeue drop an entry: it grants the head of the first non-empty list
   * in key order, and it comes back empty-handed, changing nothing, only when every list is empty.
   */
  lemma {:induction false} DequeueExact(s: State, keys: seq<ReadyKey>, worker: string, ttl: int, now: int)
    requires Partitioned(s)
    ensures var (t, grant) := Dequeue(s, keys, worker, ttl, now);
            var i := FirstNonEmpty(s, keys);
            if i == |keys| then t == s && grant == None
            else
              var id := s.Ready(keys[i])[0];
              && id in s.jobs && s.jobs[id].state.Queued? && s.jobs[id].Key() == keys[i]
              && grant == Some(Grant(id, LeaseToken(worker, id, now), s.jobs[id].attempts + 1))
              && t == Lease(PopReady(s, keys[i]), id, worker, ttl, now)
    decreases |keys|
  {
    if keys != [] {
      if s.Ready(keys[0]) == [] {
        DequeueExact(s, keys[1..], worker, ttl, now);
      } else {
        InReady(s, keys[0], s.Ready(keys[0])[0]);
      }
    }
  }

  lemma LeaseKeepsPartition(s: State, k: ReadyKey, worker: string, ttl: int, now: int)
    requires Partitioned(s) && s.Ready(k) != []
    requires var id := s.Ready(k)[0]; id in s.jobs && NoneStranded(Lease(PopReady(s, k), id, worker, ttl, now))
    ensures Partitioned(Lease(PopReady(s, k), s.Ready(k)[0], worker, ttl, now))
  {
    var id := s.Ready(k)[0];
    InReady(s, k, id);
    Popped(s, k);
    var s1 := PopReady(s, k);
    var t := Lease(s1, id, worker, ttl, now);
    assert OnceIfLive(s, id);
    OneJobMoves(s, t, id);
  }

  lemma DequeueKeepsPartition(s: State, keys: seq<ReadyKey>, worker: string, ttl: int, now: int)
    requires Partitioned(s)
    ensures Partitioned(Dequeue(s, keys, worker, ttl, now).0)
  {
    DequeueExact(s, keys, worker, ttl, now);
    DequeueKeeps(s, keys, worker, ttl, now);
    var i := FirstNonEmpty(s, keys);
    if i < |keys| { LeaseKeepsPartition(s, keys[i], worker, ttl, now); }
  }

  // ----- Calls by the lease holder -----

  /** A job that gives up its lease, and enters the delayed set if it is to wait. */
  lemma LeaseEnds(s: State, t: State, id: Id, waits: bool)
    requires Partitioned(s) && NoneStranded(t) && id in s.jobs && id in s.leases
    requires id in t.jobs && t.jobs == s.jobs[id := t.jobs[id]] && t.ready == s.ready && t.leases == ZRem(s.leases, id)
    requires t.delayed.Keys == if waits then s.delayed.Keys + {id} else s.delayed.Keys
    requires t.jobs[id].token == NoToken && !t.jobs[id].state.Active? && (Live(t, id) <==> waits)
    ensures Partitioned(t)
  {
    assert OnceIfLive(s, id);
    OneJobMoves(s, t, id);
  }

  lemma HolderIsActive(s: State, id: Id, token: Token)
    requires Partitioned(s) && TokenMatches(s, id, token) && token != NoToken
    ensures s.jobs[id].state.Active? && id in s.leases
  {
    assert OnceIfLive(s, id);
    InLeases(s, id);
  }

  lemma HeartbeatKeepsPartition(s: State, id: Id, token: Token, ttl: int, now: int)
    requires Partitioned(s)
    ensures Partitioned(Heartbeat(s, id, token, ttl, now).0)
  {
    var t := Heartbeat(s, id, token, ttl, now).0;
    HeartbeatKeeps(s, id, token, ttl, now);
    if TokenMatches(s, id, token) && s.jobs[id].state.Active? {
      assert OnceIfLive(s, id);
      HolderIsActive(s, id, token);
      OneJobMoves(s, t, id);
    }
  }

  lemma CompleteKeepsPartition(s: State, id: Id, token: Token, worker: string, now: int)
    requires Partitioned(s) && token != NoToken
    ensures Partitioned(Complete(s, id, token, worker, now).0)
  {
    CompleteKeeps(s, id, token, worker, now);
    if TokenMatches(s, id, token) {
      HolderIsActive(s, id, token);
      LeaseEnds(s, Complete(s, id, token, worker, now).0, id, false);
    }
  }

  lemma FailKeepsPartition(s: State, id: Id, queue: string, token: Token, retryAt: Option<int>, now: int)
    requires Partitioned(s) && token != NoToken
    ensures Partitioned(Fail(s, id, queue, token, retryAt, now).0)
  {
    FailKeeps(s, id, queue, token, retryAt, now);
    if TokenMatches(s, id, token) {
      HolderIsActive(s, id, token);
      LeaseEnds(s, Fail(s, id, queue, token, retryAt, now).0, id, retryAt.Some?);
    }
  }

  lemma ThrottleKeepsPartition(s: State, id: Id, token: Token, until: int)
    requires Partitioned(s) && token != NoToken
    ensures Partitioned(Throttle(s, id, token, until).0)
  {
    ThrottleKeeps(s, id, token, until);
    if TokenMatches(s, id, token) {
      HolderIsActive(s, id, token);
      LeaseEnds(s, Throttle(s, id, token, until).0, id, true);
    }
  }

  /** An acknowledgement with the empty token gets through only to a job without a lease. */
  lemma NoHolder(s: State, id: Id)
    requires Partitioned(s) && TokenMatches(s, id, NoToken)
    ensures !s.jobs[id].state.Active? && id !in s.leases
  {
    assert OnceIfLive(s, id);
    InLeases(s, id);
  }

  /** A job that is acknowledged without having held a lease, and enters the delayed set if it is to wait. */
  lemma Unfenced(s: State, t: State, id: Id, waits: bool)
    requires Partitioned(s) && NoneStranded(t) && id in s.jobs && id !in s.leases
    requires id in t.jobs && t.jobs == s.jobs[id := t.jobs[id]] && t.ready == s.ready && t.leases == s.leases
    requires t.delayed.Keys == if waits then s.delayed.Keys + {id} else s.delayed.Keys
    requires t.jobs[id].token == NoToken && !t.jobs[id].state.Active? && (Live(t, id) <==> waits)
    ensures Partitioned(t) <==> !Live(s, id) || (waits && id in s.delayed)
  {
    assert OnceIfLive(s, id);
    OneJobMoves(s, t, id);
  }

  /** A completion keeps the partition exactly if it is refused, carries a real token, or finds a job that is not live. */
  lemma CompleteExact(s: State, id: Id, token: Token, worker: string, now: int)
    requires Partitioned(s)
    ensures Partitioned(Complete(s, id, token, worker, now).0) <==> !TokenMatches(s, id, token) || token != NoToken || !Live(s, id)
  {
    if token != NoToken {
      CompleteKeepsPartition(s, id, token, worker, now);
    } else if TokenMatches(s, id, token) {
      NoHolder(s, id);
      CompleteKeeps(s, id, token, worker, now);
      assert ZRem(s.leases, id) == s.leases;
      Unfenced(s, Complete(s, id, token, worker, now).0, id, false);
    }
  }

  /** For a failure report or a throttle that makes the job wait, an entry already in the delayed set also serves. */
  lemma FailExact(s: State, id: Id, queue: string, token: Token, retryAt: Option<int>, now: int)
    requires Partitioned(s)
    ensures Partitioned(Fail(s, id, queue, token, retryAt, now).0)
       <==> !TokenMatches(s, id, token) || token != NoToken || !Live(s, id) || (retryAt.Some? && id in s.delayed)
  {
    if token != NoToken {
      FailKeepsPartition(s, id, queue, token, retryAt, now);
    } else if TokenMatches(s, id, token) {
      NoHolder(s, id);
      FailKeeps(s, id, queue, token, retryAt, now);
      assert ZRem(s.leases, id) == s.leases;
      Unfenced(s, Fail(s, id, queue, token, retryAt, now).0, id, retryAt.Some?);
    }
  }

  lemma ThrottleExact(s: State, id: Id, token: Token, until: int)
    requires Partitioned(s)
    ensures Partitioned(Throttle(s, id, token, until).0) <==> !TokenMatches(s, id, token) || token != NoToken || !Live(s, id) || id in s.delayed
  {
    if token != NoToken {
      ThrottleKeepsPartition(s, id, token, until);
    } else if TokenMatches(s, id, token) {
      NoHolder(s, id);
      ThrottleKeeps(s, id, token, until);
      assert ZRem(s.leases, id) == s.leases;
      Unfenced(s, Throttle(s, id, token, until).0, id, true);
    }
  }

  // ----- Scheduler batches -----

  /** Activating a delayed job moves its one entry from the delayed set to the head of its own list. */
  lemma ActivateOneExact(s: State, id: Id)
    requires Partitioned(s) && id in s.delayed
    ensures var (t, done) := ActivateOne(s, id);
            && done && Partitioned(t) && (forall x :: Count(t, x) == Count(s, x))
            && t.delayed == ZRem(s.delayed, id) && t.leases == s.leases
            && id in t.jobs && t.jobs[id].state.Queued? && t.Ready(t.jobs[id].Key())[..1] == [id]
  {
    InDelayed(s, id);
    ActivateOneKeeps(s, id);
    var t := ActivateOne(s, id).0;
    var s1 := s.(jobs := t.jobs, delayed := t.delayed);
    Pushed(s1, t.jobs[id].Key(), id);
    assert OnceIfLive(s, id);
    OneJobMoves(s, t, id);
  }

  /** A batch takes exactly its ids out of the delayed set. */
  lemma {:induction false} ActivateAllSets(s: State, ids: seq<Id>)
    ensures var t := ActivateAll(s, ids).0;
            && (forall x :: x in t.delayed <==> x in s.delayed && x !in ids)
            && (forall x :: x in t.delayed ==> t.delayed[x] == s.delayed[x])
    decreases |ids|
  {
    if ids != [] {
      ActivateAllSets(s, Init(ids));
      assert ids == Init(ids) + [Last(ids)];
    }
  }

  /** A batch activates every id it was given, in order, and loses and duplicates nothing. */
  lemma {:induction false} ActivateAllExact(s: State, ids: seq<Id>)
    requires Partitioned(s) && Distinct(ids) && forall id :: id in ids ==> id in s.delayed
    ensures var (t, out) := ActivateAll(s, ids);
            && out == ids && Partitioned(t)
            && (forall x :: Count(t, x) == Count(s, x))
    decreases |ids|
  {
    if ids != [] {
      var rest, id := Init(ids), Last(ids);
      assert ids == rest + [id];
      assert id in ids && id !in rest;
      ActivateAllExact(s, rest);
      ActivateAllSets(s, rest);
      ActivateOneExact(ActivateAll(s, rest).0, id);
    }
  }

  /** ActivateDue activates exactly the `limit` earliest due jobs; nothing due is left when the limit covers them. */
  lemma ActivateDueExact(s: State, limit: int, now: int)
    requires Partitioned(s)
    ensures var (t, activated) := ActivateDue(s, limit, now);
            && activated == DueIds(s.delayed, now, limit) && Distinct(activated) && Partitioned(t)
            && (forall x :: Count(t, x) == Count(s, x))
            && (limit < 0 || |DueSet(s.delayed, now)| <= limit ==> forall x :: x in t.delayed ==> t.delayed[x] > now)
  {
    var ids := DueIds(s.delayed, now, limit);
    DueIdsExact(s.delayed, now, limit);
    ActivateAllExact(s, ids);
    ActivateAllSets(s, ids);
  }

  /** What a recovery record says, and which place the job has moved to. */
  ghost predicate RecordTrue(t: State, r: Recovered) {
    && r.id in t.jobs && t.jobs[r.id].state == r.state
    && r.id !in t.leases
    && match r.state
       case Retrying =>
         && (r.retryAt == None || r.retryAt == Some(t.jobs[r.id].runAt))
         && (r.retryAt == None ==> t.jobs[r.id].runAt == 0)
         && r.id in t.delayed && t.delayed[r.id] == t.jobs[r.id].runAt && Count(t, r.id) == 1
       case Failed => r.retryAt == None && DeadLettered(t, r.id) && Count(t, r.id) == 0
       case Canceled => r.retryAt == None && t.jobs[r.id].cancelRequested && Count(t, r.id) == 0
       case _ => false
  }

  lemma RecoverOneExact(s: State, id: Id, now: int, c: Config)
    requires Partitioned(s) && id in s.leases
    ensures var (t, record) := RecoverOne(s, id, now, c);
            && Partitioned(t) && record.Some? && record.value.id == id && RecordTrue(t, record.value)
            && t.leases == ZRem(s.leases, id) && id in t.jobs && t.jobs == s.jobs[id := t.jobs[id]]
            && (forall x :: x in s.delayed && x != id ==> x in t.delayed && t.delayed[x] == s.delayed[x])
  {
    InLeases(s, id);
    RecoverOneKeeps(s, id, now, c);
    RecoverJobShape(s.jobs[id], now, c);
    var t := RecoverOne(s, id, now, c).0;
    LeaseEnds(s, t, id, t.jobs[id].state.Retrying?);
    assert OnceIfLive(t, id) && Placed(t, id);
    assert id !in t.leases;
  }

  /** Later recoveries do not disturb what an earlier record says. */
  lemma RecordStaysTrue(s: State, t: State, id: Id, r: Recovered)
    requires Partitioned(s) && Partitioned(t) && RecordTrue(s, r) && r.id != id
    requires r.id in t.jobs && t.jobs[r.id] == s.jobs[r.id] && r.id !in t.leases
    requires r.id in s.delayed ==> r.id in t.delayed && t.delayed[r.id] == s.delayed[r.id]
    ensures RecordTrue(t, r)
  {
    assert OnceIfLive(s, r.id) && OnceIfLive(t, r.id) && Placed(t, r.id);
  }

  lemma RecordsStayTrue(s: State, records: seq<Recovered>, id: Id, now: int, c: Config)
    requires Partitioned(s) && id in s.leases
    requires forall i :: 0 <= i < |records| ==> records[i].id != id && RecordTrue(s, records[i])
    ensures forall i :: 0 <= i < |records| ==> RecordTrue(RecoverOne(s, id, now, c).0, records[i])
  {
    RecoverOneExact(s, id, now, c);
    forall i | 0 <= i < |records| ensures RecordTrue(RecoverOne(s, id, now, c).0, records[i]) {
      RecordStaysTrue(s, RecoverOne(s, id, now, c).0, id, records[i]);
    }
  }

  /** One record per recovered id, in order; every record agrees with the hash and with where the job now is. */
  lemma {:induction false} RecoverAllExact(s: State, ids: seq<Id>, now: int, c: Config)
    requires Partitioned(s) && Distinct(ids) && forall id :: id in ids ==> id in s.leases
    ensures var (t, out) := RecoverAll(s, ids, now, c);
            && Partitioned(t)
            && |out| == |ids| && (forall i :: 0 <= i < |ids| ==> out[i].id == ids[i] && RecordTrue(t, out[i]))
            && (forall x :: x in t.leases <==> x in s.leases && x !in ids)
            && (forall x :: x in t.leases ==> t.leases[x] == s.leases[x])
    decreases |ids|
  {
    if ids != [] {
      var rest, id := Init(ids), Last(ids);
      assert ids == rest + [id];
      assert id in ids && id !in rest;
      assert forall x :: x in ids <==> x in rest || x == id;
      RecoverAllExact(s, rest, now, c);
      var (s1, out) := RecoverAll(s, rest, now, c);
      RecoverOneExact(s1, id, now, c);
      forall i | 0 <= i < |out| ensures out[i].id != id && out[i].id !in s1.leases {
        assert out[i].id == rest[i] && rest[i] in rest;
      }
      RecordsStayTrue(s1, out, id, now, c);
    }
  }

  /** RecoverExpired recovers exactly the `limit` earliest expired leases; none expired is left when the limit covers them. */
  lemma RecoverExpiredExact(s: State, limit: int, now: int, c: Config)
    requires Partitioned(s)
    ensures var (t, records) := RecoverExpired(s, limit, now, c);
            var ids := DueIds(s.leases, now, limit);
            && Partitioned(t) && Distinct(ids)
            && |records| == |ids| && (forall i :: 0 <= i < |ids| ==> records[i].id == ids[i] && RecordTrue(t, records[i]))
            && (limit < 0 || |DueSet(s.leases, now)| <= limit ==> forall x :: x in t.leases ==> t.leases[x] > now)
  {
    DueIdsExact(s.leases, now, limit);
    RecoverAllExact(s, DueIds(s.leases, now, limit), now, c);
  }

  // ----- Runs -----

  lemma StepKeepsPartition(s: State, step: Step, c: Config)
    requires Partitioned(s) && Disciplined(s, step)
    ensures Partitioned(Next(s, step, c))
  {
    match step
    case EnqueueStep(id, job, now) => EnqueueExact(s, id, job, now);
    case DequeueStep(worker, queues, ttl, now) => DequeueKeepsPartition(s, ReadyKeys(queues), worker, ttl, now);
    case HeartbeatStep(id, token, ttl, now) => HeartbeatKeepsPartition(s, id, token, ttl, now);
    case CompleteStep(id, token, worker, now) => CompleteKeepsPartition(s, id, token, worker, now);
    case FailStep(id, queue, token, retryAt, now) => FailKeepsPartition(s, id, queue, token, retryAt, now);
    case ThrottleStep(id, token, until) => ThrottleKeepsPartition(s, id, token, until);
    case ActivateStep(limit, now) => ActivateDueExact(s, limit, now);
    case RecoverStep(limit, now) => RecoverExpiredExact(s, limit, now, c);
    case RetryStep(id, job, now) => RetryExact(s, id, job, now);
    case CancelStep(id, seen, now) =>
      CancelExact(s, id, seen, now);
  }

  ghost predicate IsDisciplinedRun(states: seq<State>, steps: seq<Step>, c: Config) {
    IsRun(states, steps, c) && forall i {:trigger steps[i]} :: 0 <= i < |steps| ==> Disciplined(states[i], steps[i])
  }

  /** In every state of every disciplined run, live jobs are in exactly one place and other ids in none. */
  lemma {:induction false} PartitionHolds(states: seq<State>, steps: seq<Step>, c: Config, n: nat)
    requires IsDisciplinedRun(states, steps, c) && n <= |steps|
    ensures Partitioned(states[n])
  {
    if n > 0 {
      PartitionHolds(states, steps, c, n - 1);
      RunKeepsPartition(states, steps, c, n - 1);
    }
  }

  lemma RunKeepsPartition(states: seq<State>, steps: seq<Step>, c: Config, i: nat)
    requires IsDisciplinedRun(states, steps, c) && i < |steps| && Partitioned(states[i])
    ensures Partitioned(states[i + 1])
  {
    assert states[i + 1] == Next(states[i], steps[i], c) && Disciplined(states[i], steps[i]);
    StepKeepsPartition(states[i], steps[i], c);
  }

  /** Without the discipline it fails: replaying a job that is already queued lists it twice. */
  lemma ReplayOfQueuedJobDuplicates(id: Id, job: Job, now: int, c: Config)
    requires Enqueueable(job) && job.state.Queued? && job.runAt <= now
    ensures var s := Next(EMPTY, EnqueueStep(id, job, now), c);
            Partitioned(s) && Count(Next(s, RetryStep(id, job, now), c), id) == 2
  {
    EnqueueExact(EMPTY, id, job, now);
    var s := Enqueue(EMPTY, id, job, now);
    EnqueueCounts(EMPTY, id, job, now);
    RetryCounts(s, id, job, now);
  }
}
