/** Where the broker files jobs, and in which order workers get them, in terms of the keys, states and times themselves. */
module Filing {
  import opened Redis
  import opened Domain
  import opened BrokerSpec
  import opened Stranded
  import opened Partition
  import opened PartitionRuns
  import opened Fencing
  import Backoff

  // ----- Filing -----

  /**
   * A blocked job is in no list; a scheduled, retrying or throttled one, or any other whose time is still to come, is
   * in the delayed set at its time; and a queued one whose time has come is at the head of its own ready list.
   */
  lemma EnqueueFiles(s: State, id: Id, job: Job, now: int)
    requires Enqueueable(job)
    ensures var t := Enqueue(s, id, job, now);
            var later := job.state == Scheduled || job.state == Retrying || job.state == Throttled || job.runAt > now;
            && t.jobs == s.jobs[id := job] && t.leases == s.leases && t.dlq == s.dlq
            && (job.state == Blocked ==> t.delayed == s.delayed && t.ready == s.ready)
            && (job.state != Blocked && later ==> t.delayed == s.delayed[id := job.runAt] && t.ready == s.ready)
            && (job.state != Blocked && !later ==> t.delayed == s.delayed && HeadOnly(s, t, ReadyKey(job.queue, job.priority), id))
  {}

  /** The id has become the head of that one list. */
  ghost predicate HeadOnly(s: State, t: State, k: ReadyKey, id: Id) {
    t.Ready(k) == [id] + s.Ready(k) && forall l :: l != k ==> t.Ready(l) == s.Ready(l)
  }

  /** A batch is filed job by job, first to last. */
  lemma {:induction false} BatchAppends(s: State, a: seq<(Id, Job)>, b: seq<(Id, Job)>, now: int)
    ensures EnqueueBatch(s, a + b, now) == EnqueueBatch(EnqueueBatch(s, a, now), b, now)
    ensures |b| == 1 ==> EnqueueBatch(s, b, now) == Enqueue(s, b[0].0, b[0].1, now)
    decreases |b|
  {
    if b == [] {
      assert a + b == a;
    } else {
      assert (a + b)[..|a + b| - 1] == a + b[..|b| - 1];
      BatchAppends(s, a, b[..|b| - 1], now);
    }
  }

  /**
   * A replay makes the job scheduled in the delayed set if its time is still to come, and otherwise queued at the head
   * of its list; it clears cancel flag, lease fields and times, and takes the id out of its queue's dead letters only.
   */
  lemma ReplayFiles(s: State, id: Id, job: Job, now: int)
    ensures var t := Retry(s, id, job, now);
            && t.leases == s.leases && id in t.jobs && t.jobs == s.jobs[id := t.jobs[id]]
            && (job.runAt > now ==> t.jobs[id].state == Scheduled && t.delayed == s.delayed[id := job.runAt] && t.ready == s.ready)
            && (job.runAt <= now ==> t.jobs[id].state == Queued && t.delayed == s.delayed && HeadOnly(s, t, ReadyKey(job.queue, job.priority), id))
    ensures var hash := Retry(s, id, job, now).jobs[id];
            && hash.queue == job.queue && hash.priority == job.priority && hash.attempts == job.attempts && hash.runAt == job.runAt
            && hash.maxAttempts == (if id in s.jobs then s.jobs[id].maxAttempts else None)
            && hash.token == NoToken && hash.leaseExpiresAt == None && hash.worker == "" && !hash.cancelRequested
            && hash.throttleUntil == None && hash.finishedAt == None
    ensures forall q, x :: x in Retry(s, id, job, now).DeadLetters(q) <==> x in s.DeadLetters(q) && !(x == id && q == job.queue)
  {}

  // ----- What the scripts leave in a hash, in any store -----

  /** What no script but an enqueue or a replay changes. */
  predicate SameOrder(a: Job, b: Job) {
    a.queue == b.queue && a.priority == b.priority && a.maxAttempts == b.maxAttempts && a.cancelRequested == b.cancelRequested
  }

  /** No lease and no throttle time. */
  predicate Unheld(job: Job) { job.token == NoToken && job.leaseExpiresAt == None && job.throttleUntil == None }

  /** A grant spends an attempt and starts a lease. */
  lemma GrantActs(s: State, keys: seq<ReadyKey>, worker: string, ttl: int, now: int)
    ensures var (t, grant) := Dequeue(s, keys, worker, ttl, now);
            grant.Some? ==>
              var id := grant.value.id;
              && id in s.jobs && id in t.jobs && t.jobs == s.jobs[id := t.jobs[id]] && SameOrder(s.jobs[id], t.jobs[id])
              && t.leases == s.leases[id := now + ttl] && grant.value.attempts == s.jobs[id].attempts + 1
              && var hash := t.jobs[id];
                 && hash.state == Active && hash.attempts == s.jobs[id].attempts + 1 && hash.worker == worker && hash.token == grant.value.token
                 && hash.leaseExpiresAt == Some(now + ttl) && hash.throttleUntil == None
                 && hash.runAt == s.jobs[id].runAt && hash.finishedAt == s.jobs[id].finishedAt
    ensures var (t, grant) := Dequeue(s, keys, worker, ttl, now); grant.None? ==> t.jobs == s.jobs && t.leases == s.leases
    ensures var t := Dequeue(s, keys, worker, ttl, now).0; t.delayed == s.delayed && t.dlq == s.dlq
  {
    DequeueJobs(s, keys, worker, ttl, now);
    DequeueLeases(s, keys, worker, ttl, now);
    DequeueSets(s, keys, worker, ttl, now);
  }

  lemma {:induction false} DequeueSets(s: State, keys: seq<ReadyKey>, worker: string, ttl: int, now: int)
    ensures var (t, grant) := Dequeue(s, keys, worker, ttl, now);
            t.delayed == s.delayed && t.dlq == s.dlq && (grant.Some? ==> grant.value.id in s.jobs && grant.value.attempts == s.jobs[grant.value.id].attempts + 1)
    decreases |keys|
  {
    if keys != [] {
      if s.Ready(keys[0]) == [] { DequeueSets(s, keys[1..], worker, ttl, now); }
      else { DequeueSets(PopReady(s, keys[0]), keys[1..], worker, ttl, now); }
    }
  }

  lemma CompletionActs(s: State, id: Id, token: Token, worker: string, now: int)
    ensures var (t, ok) := Complete(s, id, token, worker, now);
            && (ok <==> id in s.jobs && s.jobs[id].token == token)
            && (ok ==>
                  && id in t.jobs && t.jobs == s.jobs[id := t.jobs[id]] && SameOrder(s.jobs[id], t.jobs[id]) && Unheld(t.jobs[id])
                  && t.jobs[id].state == Completed && t.jobs[id].finishedAt == Some(now) && t.jobs[id].worker == worker
                  && t.jobs[id].attempts == s.jobs[id].attempts && t.jobs[id].runAt == s.jobs[id].runAt
                  && t.ready == s.ready && t.delayed == s.delayed && t.dlq == s.dlq)
  {}

  lemma FailureActs(s: State, id: Id, queue: string, token: Token, retryAt: Option<int>, now: int)
    ensures var (t, ok) := Fail(s, id, queue, token, retryAt, now);
            && (ok <==> id in s.jobs && s.jobs[id].token == token)
            && (ok ==>
                  && id in t.jobs && t.jobs == s.jobs[id := t.jobs[id]] && SameOrder(s.jobs[id], t.jobs[id]) && Unheld(t.jobs[id])
                  && t.jobs[id].worker == "" && t.jobs[id].attempts == s.jobs[id].attempts && t.ready == s.ready)
            && (ok && retryAt.Some? ==>
                  && t.jobs[id].state == Retrying && t.jobs[id].runAt == retryAt.value && t.jobs[id].finishedAt == s.jobs[id].finishedAt
                  && t.delayed == s.delayed[id := retryAt.value] && t.dlq == s.dlq)
            && (ok && retryAt.None? ==>
                  && t.jobs[id].state == Failed && t.jobs[id].runAt == s.jobs[id].runAt && t.jobs[id].finishedAt == Some(now)
                  && t.delayed == s.delayed && t.dlq == s.dlq[queue := [id] + s.DeadLetters(queue)])
  {}

  lemma ThrottleActs(s: State, id: Id, token: Token, until: int)
    ensures var (t, ok) := Throttle(s, id, token, until);
            && (ok <==> id in s.jobs && s.jobs[id].token == token)
            && (ok ==>
                  && id in t.jobs && t.jobs == s.jobs[id := t.jobs[id]] && SameOrder(s.jobs[id], t.jobs[id])
                  && t.jobs[id].token == NoToken && t.jobs[id].leaseExpiresAt == None && t.jobs[id].worker == ""
                  && t.jobs[id].state == Throttled && t.jobs[id].throttleUntil == Some(until) && t.jobs[id].runAt == until
                  && t.jobs[id].attempts == s.jobs[id].attempts && t.jobs[id].finishedAt == s.jobs[id].finishedAt
                  && t.ready == s.ready && t.delayed == s.delayed[id := until] && t.dlq == s.dlq)
  {}

  lemma HeartbeatActs(s: State, id: Id, token: Token, ttl: int, now: int)
    ensures var (t, ok) := Heartbeat(s, id, token, ttl, now);
            && (ok <==> id in s.jobs && s.jobs[id].token == token && s.jobs[id].state == Active)
            && (ok ==> t == s.(jobs := t.jobs, leases := s.leases[id := now + ttl])
                       && t.jobs == s.jobs[id := s.jobs[id].(leaseExpiresAt := Some(now + ttl))])
  {}

  lemma ActivationActs(s: State, id: Id)
    ensures var (t, done) := ActivateOne(s, id);
            && (done <==> id in s.delayed && id in s.jobs) && (forall x :: x in t.delayed <==> x in s.delayed && x != id)
            && (!done ==> t == s.(delayed := t.delayed))
            && (done ==>
                  && id in t.jobs && t.jobs == s.jobs[id := t.jobs[id]] && SameOrder(s.jobs[id], t.jobs[id]) && Unheld(t.jobs[id])
                  && t.jobs[id].state == Queued && t.jobs[id].worker == "" && t.jobs[id].attempts == s.jobs[id].attempts
                  && t.jobs[id].runAt == s.jobs[id].runAt && t.jobs[id].finishedAt == s.jobs[id].finishedAt
                  && HeadOnly(s, t, ReadyKey(s.jobs[id].queue, s.jobs[id].priority), id) && t.leases == s.leases && t.dlq == s.dlq)
  {}

  /** Recovery cancels a job if that was asked for, retries it while attempts are left (of one, if no limit is known), and otherwise fails it. */
  lemma RecoveryActs(s: State, id: Id, now: int, c: Config)
    requires id in s.leases && id in s.jobs
    ensures var (t, record) := RecoverOne(s, id, now, c);
            var job := s.jobs[id];
            var left := job.attempts < (if job.maxAttempts.Some? then job.maxAttempts.value else 1);
            && id !in t.leases && id in t.jobs && t.jobs == s.jobs[id := t.jobs[id]] && SameOrder(job, t.jobs[id]) && t.ready == s.ready
            && t.jobs[id].token == NoToken && t.jobs[id].leaseExpiresAt == None && t.jobs[id].worker == "" && t.jobs[id].attempts == job.attempts
            && t.jobs[id].state == (if job.cancelRequested then Canceled else if left then Retrying else Failed)
            && (t.jobs[id].state == Retrying ==> t.delayed == s.delayed[id := t.jobs[id].runAt] && t.jobs[id].finishedAt == job.finishedAt)
            && (t.jobs[id].state != Retrying ==> t.delayed == s.delayed && t.jobs[id].runAt == job.runAt && t.jobs[id].finishedAt == Some(now))
            && t.dlq == (if t.jobs[id].state == Failed then s.dlq[job.queue := [id] + s.DeadLetters(job.queue)] else s.dlq)
  {}

  /** A retry by recovery waits for the delay of the job's attempts, which lies between the base delay and the cap. */
  lemma RecoveryWaits(s: State, id: Id, now: int, c: Config)
    requires id in s.leases && id in s.jobs && 0 <= c.baseRetryDelay <= c.maxRetryDelay
    ensures var hash := RecoverOne(s, id, now, c).0.jobs[id];
            hash.state == Retrying ==> now + c.baseRetryDelay <= hash.runAt <= now + c.maxRetryDelay
    ensures var hash := RecoverOne(s, id, now, c).0.jobs[id];
            hash.state == Retrying && s.jobs[id].attempts <= 1 ==> hash.runAt == now + c.baseRetryDelay
  {
    var attempts := s.jobs[id].attempts;
    Backoff.RecoveryDelayGrows(attempts, attempts, c.baseRetryDelay, c.maxRetryDelay);
    Backoff.RecoveryDelayDoubles(attempts, c.baseRetryDelay, c.maxRetryDelay);
  }

  // ----- Who is served first -----

  /** The queues a worker dequeues from. */
  function Named(queues: seq<string>): seq<string> { if queues == [] then ["critical", "default", "low"] else queues }

  predicate HeadOf(s: State, k: ReadyKey, id: Id) { s.Ready(k) != [] && s.Ready(k)[0] == id }

  /** Every list of the queue with a higher priority is empty, and so is every list of the queues named before it. */
  ghost predicate NothingBefore(s: State, queues: seq<string>, q: nat, priority: int)
    requires q < |queues|
  {
    && (forall p :: priority < p <= 9 ==> s.Ready(ReadyKey(queues[q], p)) == [])
    && (forall r, p :: 0 <= r < q && 0 <= p <= 9 ==> s.Ready(ReadyKey(queues[r], p)) == [])
  }

  ghost predicate NothingAtAll(s: State, queues: seq<string>) {
    forall r, p :: 0 <= r < |queues| && 0 <= p <= 9 ==> s.Ready(ReadyKey(queues[r], p)) == []
  }

  /** The key at position `j` of the list a worker passes, and the position of a key. */
  lemma KeyPositions(queues: seq<string>, r: nat, p: int)
    requires r < |Named(queues)| && 0 <= p <= 9
    ensures var j := 10 * r + 9 - p; j < |ReadyKeys(queues)| && ReadyKeys(queues)[j] == ReadyKey(Named(queues)[r], p)
  {
    var j := 10 * r + 9 - p;
    assert j / 10 == r && j % 10 == 9 - p;
  }

  lemma NothingBeforeFirst(s: State, queues: seq<string>, i: nat)
    requires i < |ReadyKeys(queues)| && forall j :: 0 <= j < i ==> s.Ready(ReadyKeys(queues)[j]) == []
    ensures NothingBefore(s, Named(queues), i / 10, 9 - i % 10)
    ensures ReadyKeys(queues)[i] == ReadyKey(Named(queues)[i / 10], 9 - i % 10)
  {
    var named := Named(queues);
    forall p | 9 - i % 10 < p <= 9 ensures s.Ready(ReadyKey(named[i / 10], p)) == [] { KeyPositions(queues, i / 10, p); }
    forall r, p | 0 <= r < i / 10 && 0 <= p <= 9 ensures s.Ready(ReadyKey(named[r], p)) == [] { KeyPositions(queues, r, p); }
    KeyPositions(queues, i / 10, 9 - i % 10);
  }

  /**
   * A granted job is the head of its list, and no job of a higher priority in its queue, and none at all in the queues
   * named before, was ready. Nobody is granted anything exactly if all ten lists of every named queue are empty.
   */
  lemma HighestPriorityFirst(s: State, queues: seq<string>, worker: string, ttl: int, now: int, id: Id)
    requires Partitioned(s)
    ensures Grants(s, DequeueStep(worker, queues, ttl, now), id) ==>
              && id in s.jobs && 0 <= s.jobs[id].priority <= 9
              && HeadOf(s, ReadyKey(s.jobs[id].queue, s.jobs[id].priority), id)
              && exists q: nat :: q < |Named(queues)| && Named(queues)[q] == s.jobs[id].queue && NothingBefore(s, Named(queues), q, s.jobs[id].priority)
    ensures (forall x :: !Grants(s, DequeueStep(worker, queues, ttl, now), x)) <==> NothingAtAll(s, Named(queues))
  {
    var keys := ReadyKeys(queues);
    DequeueExact(s, keys, worker, ttl, now);
    var i := FirstNonEmpty(s, keys);
    if i < |keys| {
      NothingBeforeFirst(s, queues, i);
      var head := s.Ready(keys[i])[0];
      assert Grants(s, DequeueStep(worker, queues, ttl, now), head);
      assert NothingBefore(s, Named(queues), i / 10, 9 - i % 10);
    } else {
      forall r, p | 0 <= r < |Named(queues)| && 0 <= p <= 9 ensures s.Ready(ReadyKey(Named(queues)[r], p)) == [] { KeyPositions(queues, r, p); }
    }
  }

  // ----- Any store -----

  /** The dequeue hands such a job out: its hash exists and says queued, retrying or scheduled. */
  predicate HandsOut(s: State, id: Id) {
    id in s.jobs && (s.jobs[id].state == Queued || s.jobs[id].state == Retrying || s.jobs[id].state == Scheduled)
  }

  /** Nothing at the head of these lists can be handed out. */
  ghost predicate NoneToHandOut(s: State, keys: seq<ReadyKey>) {
    forall j :: 0 <= j < |keys| && s.Ready(keys[j]) != [] ==> !HandsOut(s, s.Ready(keys[j])[0])
  }

  /** The lists from `keys` that lose their head. */
  ghost predicate PopsHeads(s: State, t: State, keys: seq<ReadyKey>) {
    forall k :: t.Ready(k) == if k in keys && s.Ready(k) != [] then s.Ready(k)[1..] else s.Ready(k)
  }

  /** The head of list number `i` is taken, and the heads before it, which cannot be handed out, are gone. */
  ghost predicate TakesAt(s: State, t: State, keys: seq<ReadyKey>, i: nat, id: Id) {
    i < |keys| && HeadOf(s, keys[i], id) && HandsOut(s, id) && NoneToHandOut(s, keys[..i]) && PopsHeads(s, t, keys[..i + 1])
  }

  lemma SkipsOne(s: State, s1: State, keys: seq<ReadyKey>, rest: seq<ReadyKey>)
    requires keys != [] && rest == keys[1..] && Distinct(keys)
    requires s1 == if s.Ready(keys[0]) == [] then s else PopReady(s, keys[0])
    ensures forall j :: 0 <= j < |rest| ==> s1.Ready(rest[j]) == s.Ready(keys[j + 1])
  {
    forall j | 0 <= j < |rest| ensures s1.Ready(rest[j]) == s.Ready(keys[j + 1]) {
      assert keys[j + 1] != keys[0];
    }
  }

  lemma NoneOneMore(s: State, s1: State, keys: seq<ReadyKey>, n: nat)
    requires keys != [] && Distinct(keys) && n < |keys| && NoneToHandOut(s1, keys[1..][..n])
    requires s1 == if s.Ready(keys[0]) == [] then s else PopReady(s, keys[0])
    requires s.Ready(keys[0]) == [] || !HandsOut(s, s.Ready(keys[0])[0])
    ensures NoneToHandOut(s, keys[..n + 1])
  {
    SkipsOne(s, s1, keys, keys[1..]);
    forall j | 0 <= j < n + 1 && s.Ready(keys[j]) != [] ensures !HandsOut(s, s.Ready(keys[j])[0]) {
      if j > 0 { assert keys[1..][..n][j - 1] == keys[j]; }
    }
  }

  lemma PopsOneMore(s: State, s1: State, t: State, keys: seq<ReadyKey>, n: nat)
    requires keys != [] && Distinct(keys) && n < |keys| && PopsHeads(s1, t, keys[1..][..n])
    requires s1 == if s.Ready(keys[0]) == [] then s else PopReady(s, keys[0])
    ensures PopsHeads(s, t, keys[..n + 1])
  {
    var rest := keys[1..][..n];
    assert keys[..n + 1] == [keys[0]] + rest;
    assert keys[0] !in rest;
    forall l ensures t.Ready(l) == if l in keys[..n + 1] && s.Ready(l) != [] then s.Ready(l)[1..] else s.Ready(l) {
      assert l in keys[..n + 1] <==> l == keys[0] || l in rest;
    }
  }

  lemma TakesHead(s: State, keys: seq<ReadyKey>, worker: string, ttl: int, now: int)
    requires keys != [] && s.Ready(keys[0]) != [] && HandsOut(s, s.Ready(keys[0])[0])
    ensures var (t, grant) := Dequeue(s, keys, worker, ttl, now); grant.Some? && TakesAt(s, t, keys, 0, grant.value.id)
  {
    assert keys[..1] == [keys[0]];
  }

  /**
   * In any store, disciplined or not, the granted job is the head of the first list whose head can be handed out; the
   * lists up to there lose their heads, and only if there is no such list is nothing granted.
   */
  lemma {:induction false} DequeueTakes(s: State, keys: seq<ReadyKey>, worker: string, ttl: int, now: int)
    requires Distinct(keys)
    ensures var (t, grant) := Dequeue(s, keys, worker, ttl, now);
            if grant.Some? then exists i: nat :: TakesAt(s, t, keys, i, grant.value.id)
            else NoneToHandOut(s, keys) && PopsHeads(s, t, keys)
    decreases |keys|
  {
    if keys != [] {
      if s.Ready(keys[0]) != [] && HandsOut(s, s.Ready(keys[0])[0]) {
        TakesHead(s, keys, worker, ttl, now);
      } else {
        var s1 := if s.Ready(keys[0]) == [] then s else PopReady(s, keys[0]);
        DequeueTakes(s1, keys[1..], worker, ttl, now);
        var (t, grant) := Dequeue(s1, keys[1..], worker, ttl, now);
        if grant.Some? {
          var i: nat :| TakesAt(s1, t, keys[1..], i, grant.value.id);
          TakesLater(s, s1, t, keys, i, grant.value.id);
        } else {
          var n := |keys| - 1;
          assert keys[1..][..n] == keys[1..] && keys[..n + 1] == keys;
          NoneOneMore(s, s1, keys, n);
          PopsOneMore(s, s1, t, keys, n);
        }
      }
    }
  }

  lemma TakesLater(s: State, s1: State, t: State, keys: seq<ReadyKey>, i: nat, id: Id)
    requires keys != [] && Distinct(keys) && TakesAt(s1, t, keys[1..], i, id)
    requires s1 == if s.Ready(keys[0]) == [] then s else PopReady(s, keys[0])
    requires s.Ready(keys[0]) == [] || !HandsOut(s, s.Ready(keys[0])[0])
    ensures TakesAt(s, t, keys, i + 1, id)
  {
    SkipsOne(s, s1, keys, keys[1..]);
    NoneOneMore(s, s1, keys, i);
    PopsOneMore(s, s1, t, keys, i + 1);
  }
}
