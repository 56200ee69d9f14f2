/** No job is ever stranded: whatever interleaving of broker steps happened, every job is where its state says it can be found. */
module Stranded {
  import opened Redis
  import opened Domain
  import opened BrokerSpec

  ghost predicate DeadLettered(s: State, id: Id) {
    exists queue :: id in s.DeadLetters(queue)
  }

  ghost predicate Placed(s: State, id: Id)
    requires id in s.jobs
  {
    var job := s.jobs[id];
    match job.state
    case Queued => id in s.Ready(job.Key()) || id in s.delayed
    case Scheduled => id in s.delayed && s.delayed[id] == job.runAt
    case Retrying => id in s.delayed && s.delayed[id] == job.runAt
    case Throttled => id in s.delayed && s.delayed[id] == job.runAt
    case Active => job.token != NoToken && id in s.leases && job.leaseExpiresAt == Some(s.leases[id])
    case Failed => DeadLettered(s, id)
    case _ => true
  }

  ghost predicate NoneStranded(s: State) {
    forall id :: id in s.jobs ==> Placed(s, id)
  }

  /** NoneStranded, with one job excepted. */
  ghost predicate OthersPlaced(s: State, id: Id) {
    forall x :: x in s.jobs && x != id ==> Placed(s, x)
  }

  /** Every step on `id` is a sequence of the updates below; each of them keeps the other jobs placed. */
  lemma SetJob(s: State, id: Id, job: Job)
    requires OthersPlaced(s, id)
    ensures OthersPlaced(s.(jobs := s.jobs[id := job]), id)
  {
    var t := s.(jobs := s.jobs[id := job]);
    forall x | x in t.jobs && x != id ensures Placed(t, x) {
      assert Placed(s, x);
      if s.jobs[x].state.Failed? { KeepDeadLetters(s, t, x); }
    }
  }

  lemma KeepDeadLetters(s: State, t: State, x: Id)
    requires DeadLettered(s, x)
    requires forall queue :: x in s.DeadLetters(queue) ==> x in t.DeadLetters(queue)
    ensures DeadLettered(t, x)
  {
    var queue :| x in s.DeadLetters(queue);
    assert x in t.DeadLetters(queue);
  }

  lemma SetReady(s: State, id: Id, k: ReadyKey, list: seq<Id>)
    requires OthersPlaced(s, id)
    requires forall x :: x in s.Ready(k) && x != id ==> x in list
    ensures OthersPlaced(s.(ready := s.ready[k := list]), id)
  {
    var t := s.(ready := s.ready[k := list]);
    forall x | x in t.jobs && x != id ensures Placed(t, x) {
      assert Placed(s, x);
      if s.jobs[x].state.Failed? { KeepDeadLetters(s, t, x); }
    }
  }

  lemma SetDlq(s: State, id: Id, queue: string, list: seq<Id>)
    requires OthersPlaced(s, id)
    requires forall x :: x in s.DeadLetters(queue) && x != id ==> x in list
    ensures OthersPlaced(s.(dlq := s.dlq[queue := list]), id)
  {
    var t := s.(dlq := s.dlq[queue := list]);
    forall x | x in t.jobs && x != id ensures Placed(t, x) {
      assert Placed(s, x);
      if s.jobs[x].state.Failed? { KeepDeadLetters(s, t, x); }
    }
  }

  lemma SetTimes(s: State, id: Id, delayed: ZSet, leases: ZSet)
    requires OthersPlaced(s, id)
    requires forall x :: x in s.delayed && x != id ==> x in delayed && delayed[x] == s.delayed[x]
    requires forall x :: x in s.leases && x != id ==> x in leases && leases[x] == s.leases[x]
    ensures OthersPlaced(s.(delayed := delayed, leases := leases), id)
  {
    var t := s.(delayed := delayed, leases := leases);
    forall x | x in t.jobs && x != id ensures Placed(t, x) {
      assert Placed(s, x);
      if s.jobs[x].state.Failed? { KeepDeadLetters(s, t, x); }
    }
  }

  lemma Push(s: State, k: ReadyKey, id: Id)
    requires OthersPlaced(s, id)
    ensures OthersPlaced(PushReady(s, k, id), id) && id in PushReady(s, k, id).Ready(k)
  {
    SetReady(s, id, k, [id] + s.Ready(k));
    assert PushReady(s, k, id).Ready(k)[0] == id;
  }

  lemma PushDead(s: State, queue: string, id: Id)
    requires OthersPlaced(s, id)
    ensures OthersPlaced(PushDeadLetter(s, queue, id), id) && DeadLettered(PushDeadLetter(s, queue, id), id)
  {
    SetDlq(s, id, queue, [id] + s.DeadLetters(queue));
    assert PushDeadLetter(s, queue, id).DeadLetters(queue)[0] == id;
  }

  lemma Pop(s: State, k: ReadyKey)
    requires s.Ready(k) != [] && OthersPlaced(s, s.Ready(k)[0])
    ensures OthersPlaced(PopReady(s, k), s.Ready(k)[0])
  {
    var list := s.Ready(k);
    assert list == [list[0]] + list[1..];
    SetReady(s, list[0], k, list[1..]);
  }

  lemma EnqueueKeeps(s: State, id: Id, job: Job, now: int)
    requires NoneStranded(s) && Enqueueable(job)
    ensures NoneStranded(Enqueue(s, id, job, now))
  {
    SetJob(s, id, job);
    var s1 := s.(jobs := s.jobs[id := job]);
    if job.state.Blocked? {
    } else if job.state.Waiting() || job.runAt > now {
      SetTimes(s1, id, s1.delayed[id := job.runAt], s1.leases);
    } else {
      Push(s1, job.Key(), id);
    }
  }

  /** A popped entry that cannot be leased belongs to a job that is to be found elsewhere. */
  lemma {:induction false} DequeueKeeps(s: State, keys: seq<ReadyKey>, worker: string, ttl: int, now: int)
    requires NoneStranded(s)
    ensures NoneStranded(Dequeue(s, keys, worker, ttl, now).0)
    decreases |keys|
  {
    if keys == [] {
    } else if s.Ready(keys[0]) == [] {
      DequeueKeeps(s, keys[1..], worker, ttl, now);
    } else {
      var id := s.Ready(keys[0])[0];
      var s1 := PopReady(s, keys[0]);
      Pop(s, keys[0]);
      if id in s.jobs && s.jobs[id].state.Leasable() {
        var t := Lease(s1, id, worker, ttl, now);
        SetJob(s1, id, t.jobs[id]);
        SetTimes(s1.(jobs := t.jobs), id, s1.delayed, s1.leases[id := now + ttl]);
      } else {
        if id in s.jobs && s.jobs[id].state.Failed? { KeepDeadLetters(s, s1, id); }
        DequeueKeeps(s1, keys[1..], worker, ttl, now);
      }
    }
  }

  lemma HeartbeatKeeps(s: State, id: Id, token: Token, ttl: int, now: int)
    requires NoneStranded(s)
    ensures NoneStranded(Heartbeat(s, id, token, ttl, now).0)
  {
    if TokenMatches(s, id, token) && s.jobs[id].state.Active? {
      assert Placed(s, id);
      var t := Heartbeat(s, id, token, ttl, now).0;
      SetJob(s, id, t.jobs[id]);
      SetTimes(s.(jobs := t.jobs), id, s.delayed, t.leases);
    }
  }

  lemma CompleteKeeps(s: State, id: Id, token: Token, worker: string, now: int)
    requires NoneStranded(s)
    ensures NoneStranded(Complete(s, id, token, worker, now).0)
  {
    if TokenMatches(s, id, token) {
      var t := Complete(s, id, token, worker, now).0;
      SetJob(s, id, t.jobs[id]);
      SetTimes(s.(jobs := t.jobs), id, s.delayed, t.leases);
    }
  }

  lemma FailKeeps(s: State, id: Id, queue: string, token: Token, retryAt: Option<int>, now: int)
    requires NoneStranded(s)
    ensures NoneStranded(Fail(s, id, queue, token, retryAt, now).0)
  {
    if TokenMatches(s, id, token) {
      var t := Fail(s, id, queue, token, retryAt, now).0;
      SetJob(s, id, t.jobs[id]);
      SetTimes(s.(jobs := t.jobs), id, t.delayed, t.leases);
      if retryAt.None? { PushDead(s.(jobs := t.jobs, leases := t.leases), queue, id); }
    }
  }

  lemma ThrottleKeeps(s: State, id: Id, token: Token, until: int)
    requires NoneStranded(s)
    ensures NoneStranded(Throttle(s, id, token, until).0)
  {
    if TokenMatches(s, id, token) {
      var t := Throttle(s, id, token, until).0;
      SetJob(s, id, t.jobs[id]);
      SetTimes(s.(jobs := t.jobs), id, t.delayed, t.leases);
    }
  }

  lemma ActivateOneKeeps(s: State, id: Id)
    requires NoneStranded(s)
    ensures NoneStranded(ActivateOne(s, id).0)
  {
    if id in s.delayed {
      var t := ActivateOne(s, id).0;
      SetTimes(s, id, t.delayed, s.leases);
      if id in s.jobs {
        SetJob(s.(delayed := t.delayed), id, t.jobs[id]);
        Push(s.(delayed := t.delayed, jobs := t.jobs), t.jobs[id].Key(), id);
      }
    }
  }

  lemma {:induction false} ActivateKeeps(s: State, ids: seq<Id>)
    requires NoneStranded(s)
    ensures NoneStranded(ActivateAll(s, ids).0)
    decreases |ids|
  {
    if ids != [] {
      ActivateKeeps(s, Init(ids));
      ActivateOneKeeps(ActivateAll(s, Init(ids)).0, Last(ids));
    }
  }

  lemma SettleKeeps(s: State, id: Id, job: Job)
    requires OthersPlaced(s, id) && (job.state.Canceled? || job.state.Retrying? || job.state.Failed?)
    ensures NoneStranded(Settle(s, id, job).0)
  {
    SetJob(s, id, job);
    var s1 := s.(jobs := s.jobs[id := job]);
    if job.state.Retrying? {
      SetTimes(s1, id, s1.delayed[id := job.runAt], s1.leases);
    } else if job.state.Failed? {
      PushDead(s1, job.queue, id);
    }
  }

  lemma RecoverOneKeeps(s: State, id: Id, now: int, c: Config)
    requires NoneStranded(s)
    ensures NoneStranded(RecoverOne(s, id, now, c).0)
  {
    if id in s.leases {
      SetTimes(s, id, s.delayed, ZRem(s.leases, id));
      if id in s.jobs {
        RecoverJobShape(s.jobs[id], now, c);
        SettleKeeps(s.(leases := ZRem(s.leases, id)), id, RecoverJob(s.jobs[id], now, c));
      }
    }
  }

  lemma {:induction false} RecoverKeeps(s: State, ids: seq<Id>, now: int, c: Config)
    requires NoneStranded(s)
    ensures NoneStranded(RecoverAll(s, ids, now, c).0)
    decreases |ids|
  {
    if ids != [] {
      RecoverKeeps(s, Init(ids), now, c);
      RecoverOneKeeps(RecoverAll(s, Init(ids), now, c).0, Last(ids), now, c);
    }
  }

  /** The first half of a replay: the reset hash, and its new entry. */
  lemma RelistKeeps(s: State, id: Id, reset: Job, now: int)
    requires NoneStranded(s) && reset.state == (if reset.runAt > now then Scheduled else Queued)
    ensures var s1 := s.(jobs := s.jobs[id := reset]);
            NoneStranded(if reset.runAt > now then s1.(delayed := s1.delayed[id := reset.runAt]) else PushReady(s1, reset.Key(), id))
  {
    SetJob(s, id, reset);
    var s1 := s.(jobs := s.jobs[id := reset]);
    if reset.runAt > now { SetTimes(s1, id, s1.delayed[id := reset.runAt], s1.leases); } else { Push(s1, reset.Key(), id); }
  }

  lemma RetryKeeps(s: State, id: Id, job: Job, now: int)
    requires NoneStranded(s)
    ensures NoneStranded(Retry(s, id, job, now))
  {
    var reset := Retry(s, id, job, now).jobs[id];
    RelistKeeps(s, id, reset, now);
    var s1 := s.(jobs := s.jobs[id := reset]);
    var s2 := if job.runAt > now then s1.(delayed := s1.delayed[id := job.runAt]) else PushReady(s1, job.Key(), id);
    SetDlq(s2, id, job.queue, RemoveAll(s2.DeadLetters(job.queue), id));
  }

  lemma CancelKeeps(s: State, id: Id, seen: Job, now: int)
    requires NoneStranded(s) && id in s.jobs
    ensures NoneStranded(CancelWrite(s, id, seen, now))
  {
    var t := CancelWrite(s, id, seen, now);
    assert Placed(s, id);
    SetJob(s, id, t.jobs[id]);
    var s1 := s.(jobs := t.jobs);
    if seen.state.CancelsAtOnce() {
      SetReady(s1, id, seen.Key(), RemoveAll(s.Ready(seen.Key()), id));
      var s2 := s1.(ready := t.ready);
      SetTimes(s2, id, t.delayed, s2.leases);
      var s3 := s2.(delayed := t.delayed);
      SetDlq(s3, id, seen.queue, RemoveAll(s.DeadLetters(seen.queue), id));
    } else if s.jobs[id].state.Failed? {
      KeepDeadLetters(s, t, id);
    }
  }

  lemma StepKeeps(s: State, step: Step, c: Config)
    requires NoneStranded(s) && Legal(s, step)
    ensures NoneStranded(Next(s, step, c))
  {
    match step
    case EnqueueStep(id, job, now) => EnqueueKeeps(s, id, job, now);
    case DequeueStep(worker, queues, ttl, now) => DequeueKeeps(s, ReadyKeys(queues), worker, ttl, now);
    case HeartbeatStep(id, token, ttl, now) => HeartbeatKeeps(s, id, token, ttl, now);
    case CompleteStep(id, token, worker, now) => CompleteKeeps(s, id, token, worker, now);
    case FailStep(id, queue, token, retryAt, now) => FailKeeps(s, id, queue, token, retryAt, now);
    case ThrottleStep(id, token, until) => ThrottleKeeps(s, id, token, until);
    case ActivateStep(limit, now) => ActivateKeeps(s, DueIds(s.delayed, now, limit));
    case RecoverStep(limit, now) => RecoverKeeps(s, DueIds(s.leases, now, limit), now, c);
    case RetryStep(id, job, now) => RetryKeeps(s, id, job, now);
    case CancelStep(id, seen, now) => CancelKeeps(s, id, seen, now);
  }

  /** In every state of every run, replays on any job and half-done cancels included, no job is stranded. */
  lemma {:induction false} NoJobIsEverStranded(states: seq<State>, steps: seq<Step>, c: Config, n: nat)
    requires IsRun(states, steps, c) && n <= |steps|
    ensures NoneStranded(states[n])
  {
    if n > 0 {
      NoJobIsEverStranded(states, steps, c, n - 1);
      StepKeeps(states[n - 1], steps[n - 1], c);
    }
  }
}
