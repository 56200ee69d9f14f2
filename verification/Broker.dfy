/** The broker itself: the Redis keys are its fields, and each script or pipeline is a method that updates them. */
module Broker {
  import opened Redis
  import opened Domain
  import opened BrokerSpec
  import Backoff

  class RedisBroker {
    var jobs: map<Id, Job>
    var ready: map<ReadyKey, seq<Id>>
    var delayed: ZSet
    var leases: ZSet
    var dlq: map<string, seq<Id>>
    const config: Config

    constructor (config: Config)
      ensures View() == EMPTY && this.config == config
    {
      jobs, ready, delayed, leases, dlq := map[], map[], map[], map[], map[];
      this.config := config;
    }

    function View(): State
      reads this
    {
      State(jobs, ready, delayed, leases, dlq)
    }

    method LPush(k: ReadyKey, id: Id)
      modifies this`ready
      ensures View() == PushReady(old(View()), k, id)
    {
      ready := ready[k := [id] + if k in ready then ready[k] else []];
    }

    method LPushDead(queue: string, id: Id)
      modifies this`dlq
      ensures View() == PushDeadLetter(old(View()), queue, id)
    {
      dlq := dlq[queue := [id] + if queue in dlq then dlq[queue] else []];
    }

    method EnqueueOne(id: Id, job: Job, now: int)
      modifies this
      ensures View() == Enqueue(old(View()), id, job, now)
    {
      jobs := jobs[id := job];
      if job.state.Blocked? {
      } else if job.state.Waiting() || job.runAt > now {
        delayed := delayed[id := job.runAt];
      } else if job.state.Queued? {
        LPush(job.Key(), id);
      }
    }

    method EnqueueMany(batch: seq<(Id, Job)>, now: int)
      modifies this
      ensures View() == EnqueueBatch(old(View()), batch, now)
    {
      for i := 0 to |batch|
        invariant View() == EnqueueBatch(old(View()), batch[..i], now)
      {
        assert batch[..i + 1][..i] == batch[..i];
        EnqueueOne(batch[i].0, batch[i].1, now);
      }
      assert batch[..|batch|] == batch;
    }

    method DequeueScript(keys: seq<ReadyKey>, worker: string, ttl: int, now: int) returns (grant: Option<Grant>)
      modifies this
      ensures (View(), grant) == Dequeue(old(View()), keys, worker, ttl, now)
    {
      var i := 0;
      while i < |keys|
        invariant 0 <= i <= |keys|
        invariant Dequeue(old(View()), keys, worker, ttl, now) == Dequeue(View(), keys[i..], worker, ttl, now)
      {
        var list := if keys[i] in ready then ready[keys[i]] else [];
        assert keys[i..][1..] == keys[i + 1..];
        if list != [] {
          var id := list[0];
          ghost var before := View();
          ready := ready[keys[i] := list[1..]];
          assert View() == PopReady(before, keys[i]);
          if id in jobs && jobs[id].state.Leasable() {
            ghost var popped := View();
            var token := LeaseToken(worker, id, now);
            var attempts := jobs[id].attempts + 1;
            jobs := jobs[id := jobs[id].(attempts := attempts, state := Active, leaseExpiresAt := Some(now + ttl),
                                         worker := worker, token := token, throttleUntil := None)];
            leases := leases[id := now + ttl];
            assert View() == Lease(popped, id, worker, ttl, now);
            return Some(Grant(id, token, attempts));
          }
        }
        i := i + 1;
      }
      return None;
    }

    method DequeueFrom(worker: string, queues: seq<string>, ttl: int, now: int) returns (grant: Option<Grant>)
      modifies this
      ensures (View(), grant) == Dequeue(old(View()), ReadyKeys(queues), worker, ttl, now)
    {
      var keys := ReadyKeysForQueues(queues);
      grant := DequeueScript(keys, worker, ttl, now);
    }

    method HeartbeatScript(id: Id, token: Token, ttl: int, now: int) returns (ok: bool)
      modifies this`jobs, this`leases
      ensures (View(), ok) == Heartbeat(old(View()), id, token, ttl, now)
    {
      if id !in jobs || jobs[id].token != token { return false; }
      if jobs[id].state != Active { return false; }
      jobs := jobs[id := jobs[id].(leaseExpiresAt := Some(now + ttl))];
      leases := leases[id := now + ttl];
      return true;
    }

    method CompleteScript(id: Id, token: Token, worker: string, now: int) returns (ok: bool)
      modifies this`jobs, this`leases
      ensures (View(), ok) == Complete(old(View()), id, token, worker, now)
    {
      if id !in jobs || jobs[id].token != token { return false; }
      leases := ZRem(leases, id);
      jobs := jobs[id := jobs[id].(state := Completed, finishedAt := Some(now), worker := worker,
                                   token := NoToken, leaseExpiresAt := None, throttleUntil := None)];
      return true;
    }

    method FailScript(id: Id, queue: string, token: Token, retryAt: Option<int>, now: int) returns (ok: bool)
      modifies this
      ensures (View(), ok) == Fail(old(View()), id, queue, token, retryAt, now)
    {
      if id !in jobs || jobs[id].token != token { return false; }
      leases := ZRem(leases, id);
      var job := jobs[id].(worker := "", token := NoToken, leaseExpiresAt := None, throttleUntil := None);
      match retryAt {
        case Some(at) =>
          jobs := jobs[id := job.(state := Retrying, runAt := at)];
          delayed := delayed[id := at];
        case None =>
          jobs := jobs[id := job.(state := Failed, finishedAt := Some(now))];
          LPushDead(queue, id);
      }
      return true;
    }

    method ThrottleScript(id: Id, token: Token, retryAt: int) returns (ok: bool)
      modifies this
      ensures (View(), ok) == Throttle(old(View()), id, token, retryAt)
    {
      if id !in jobs || jobs[id].token != token { return false; }
      leases := ZRem(leases, id);
      jobs := jobs[id := jobs[id].(state := Throttled, runAt := retryAt, throttleUntil := Some(retryAt),
                                   worker := "", token := NoToken, leaseExpiresAt := None)];
      delayed := delayed[id := retryAt];
      return true;
    }

    method ActivateDueScript(limit: int, now: int) returns (activated: seq<Id>)
      modifies this
      ensures (View(), activated) == ActivateDue(old(View()), limit, now)
    {
      var ids := DueIds(delayed, now, limit);
      activated := [];
      for i := 0 to |ids|
        invariant (View(), activated) == ActivateAll(old(View()), ids[..i])
      {
        assert ids[..i + 1][..i] == ids[..i];
        var id := ids[i];
        if id in delayed {
          delayed := ZRem(delayed, id);
          if id in jobs {
            jobs := jobs[id := jobs[id].(state := Queued, worker := "", token := NoToken, throttleUntil := None, leaseExpiresAt := None)];
            LPush(jobs[id].Key(), id);
            activated := activated + [id];
          }
        }
      }
      assert ids[..|ids|] == ids;
    }

    method RecoverExpiredScript(limit: int, now: int) returns (recovered: seq<Recovered>)
      modifies this
      ensures (View(), recovered) == RecoverExpired(old(View()), limit, now, config)
    {
      var ids := DueIds(leases, now, limit);
      recovered := [];
      for i := 0 to |ids|
        invariant (View(), recovered) == RecoverAll(old(View()), ids[..i], now, config)
      {
        RecoverAllExtends(old(View()), ids, i, now, config);
        var record := RecoverLease(ids[i], now);
        if record.Some? { recovered := recovered + [record.value]; }
      }
      assert ids[..|ids|] == ids;
    }

    /** One round of the recovery script's loop. */
    method RecoverLease(id: Id, now: int) returns (record: Option<Recovered>)
      modifies this
      ensures (View(), record) == RecoverOne(old(View()), id, now, config)
    {
      record := None;
      if id !in leases { return; }
      leases := ZRem(leases, id);
      if id !in jobs { return; }
      var job := jobs[id].(worker := "", token := NoToken, leaseExpiresAt := None);
      var maxAttempts := if job.maxAttempts.Some? then job.maxAttempts.value else 1;
      if job.cancelRequested {
        jobs := jobs[id := job.(state := Canceled, finishedAt := Some(now))];
        record := Some(Recovered(id, Canceled, None));
      } else if job.attempts < maxAttempts {
        var retryAt := now + Backoff.RecoveryDelay(job.attempts, config.baseRetryDelay, config.maxRetryDelay);
        jobs := jobs[id := job.(state := Retrying, runAt := retryAt)];
        delayed := delayed[id := retryAt];
        record := Some(Recovered(id, Retrying, if retryAt == 0 then None else Some(retryAt)));
      } else {
        jobs := jobs[id := job.(state := Failed, finishedAt := Some(now))];
        LPushDead(job.queue, id);
        record := Some(Recovered(id, Failed, None));
      }
    }

    method Replay(id: Id, job: Job, now: int)
      modifies this
      ensures View() == Retry(old(View()), id, job, now)
    {
      var maxAttempts := if id in jobs then jobs[id].maxAttempts else None;
      jobs := jobs[id := Job(Queued, job.queue, job.priority, job.attempts, maxAttempts, job.runAt,
                             NoToken, None, "", false, None, None)];
      if job.runAt > now {
        jobs := jobs[id := jobs[id].(state := Scheduled)];
        delayed := delayed[id := job.runAt];
      } else {
        LPush(job.Key(), id);
      }
      dlq := dlq[job.queue := RemoveAll(if job.queue in dlq then dlq[job.queue] else [], id)];
    }

    method CancelLoaded(id: Id, seen: Job, now: int)
      requires id in jobs
      modifies this
      ensures View() == CancelWrite(old(View()), id, seen, now)
    {
      jobs := jobs[id := jobs[id].(cancelRequested := true)];
      if seen.state.CancelsAtOnce() {
        ready := ready[seen.Key() := RemoveAll(if seen.Key() in ready then ready[seen.Key()] else [], id)];
        delayed := ZRem(delayed, id);
        dlq := dlq[seen.queue := RemoveAll(if seen.queue in dlq then dlq[seen.queue] else [], id)];
        jobs := jobs[id := jobs[id].(state := Canceled, finishedAt := Some(now), leaseExpiresAt := None, throttleUntil := None)];
      }
    }
  }

  /** The key list a worker passes to the dequeue script. */
  method ReadyKeysForQueues(queues: seq<string>) returns (keys: seq<ReadyKey>)
    ensures keys == ReadyKeys(queues)
  {
    var qs := if queues == [] then SUPPORTED_QUEUES else queues;
    keys := [];
    for i := 0 to |qs|
      invariant |keys| == 10 * i
      invariant forall k :: 0 <= k < |keys| ==> keys[k] == ReadyKey(qs[k / 10], 9 - k % 10)
    {
      var priority := 9;
      while priority >= 0
        invariant -1 <= priority <= 9
        invariant |keys| == 10 * i + 9 - priority
        invariant forall k :: 0 <= k < |keys| ==> keys[k] == ReadyKey(qs[k / 10], 9 - k % 10)
      {
        keys := keys + [ReadyKey(qs[i], priority)];
        priority := priority - 1;
      }
    }
  }
}
