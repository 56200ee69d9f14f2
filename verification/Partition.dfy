/**
 * Each live job is in exactly one place. That holds in every run whose callers enqueue only new or blocked ids,
 * replay only jobs that are not live, acknowledge with a real token, and cancel what they just loaded.
 */
module Partition {
  import opened Redis
  import opened Domain
  import opened BrokerSpec
  import opened Stranded

  // ----- Counting entries -----

  /** All ready lists together. */
  ghost function AllReady(m: map<ReadyKey, seq<Id>>): multiset<Id>
    decreases |m|
  {
    if m == map[] then multiset{}
    else
      var k :| k in m;
      multiset(m[k]) + AllReady(m - {k})
  }

  lemma {:induction false} AllReadyAt(m: map<ReadyKey, seq<Id>>, k: ReadyKey)
    requires k in m
    ensures AllReady(m) == multiset(m[k]) + AllReady(m - {k})
    decreases |m|
  {
    var k0 :| k0 in m && AllReady(m) == multiset(m[k0]) + AllReady(m - {k0});
    if k0 != k {
      AllReadyAt(m - {k0}, k);
      AllReadyAt(m - {k}, k0);
      assert m - {k0} - {k} == m - {k} - {k0};
    }
  }

  ghost function Listed(s: State, id: Id): int { AllReady(s.ready)[id] }

  /** How often an id occurs in the ready lists, the delayed set and the lease set together. */
  ghost function Count(s: State, id: Id): int {
    Listed(s, id) + (if id in s.delayed then 1 else 0) + (if id in s.leases then 1 else 0)
  }

  lemma AllReadySet(m: map<ReadyKey, seq<Id>>, k: ReadyKey, list: seq<Id>)
    ensures AllReady(m[k := list]) == AllReady(m - {k}) + multiset(list)
    ensures AllReady(m) == AllReady(m - {k}) + multiset(if k in m then m[k] else [])
  {
    AllReadyAt(m[k := list], k);
    assert m[k := list] - {k} == m - {k};
    if k in m { AllReadyAt(m, k); } else { assert m - {k} == m; }
  }

  lemma ReadySet(s: State, k: ReadyKey, list: seq<Id>)
    ensures forall x :: Listed(s.(ready := s.ready[k := list]), x) == Listed(s, x) - multiset(s.Ready(k))[x] + multiset(list)[x]
  {
    AllReadySet(s.ready, k, list);
  }

  lemma Pushed(s: State, k: ReadyKey, id: Id)
    ensures forall x :: Listed(PushReady(s, k, id), x) == Listed(s, x) + (if x == id then 1 else 0)
  {
    ReadySet(s, k, [id] + s.Ready(k));
    assert multiset([id] + s.Ready(k)) == multiset{id} + multiset(s.Ready(k));
  }

  lemma Popped(s: State, k: ReadyKey)
    requires s.Ready(k) != []
    ensures forall x :: Listed(PopReady(s, k), x) == Listed(s, x) - (if x == s.Ready(k)[0] then 1 else 0)
  {
    var list := s.Ready(k);
    ReadySet(s, k, list[1..]);
    assert list == [list[0]] + list[1..];
    assert multiset(list) == multiset{list[0]} + multiset(list[1..]);
  }

  lemma {:induction false} RemoveAllCounts(l: seq<Id>, x: Id)
    ensures multiset(RemoveAll(l, x)) == multiset(l)[x := 0]
  {
    if l != [] {
      RemoveAllCounts(l[1..], x);
      assert l == [l[0]] + l[1..];
    }
  }

  /** An entry in a place is counted there. */
  lemma ReadyCounted(s: State, k: ReadyKey, id: Id)
    requires id in s.Ready(k)
    ensures Listed(s, id) >= 1
  {
    AllReadyAt(s.ready, k);
    assert multiset(s.Ready(k))[id] >= 1;
  }

  lemma ReadyCountedTwice(s: State, k: ReadyKey, l: ReadyKey, id: Id)
    requires k != l && id in s.Ready(k) && id in s.Ready(l)
    ensures Listed(s, id) >= 2
  {
    AllReadyAt(s.ready, k);
    AllReadyAt(s.ready - {k}, l);
    assert multiset(s.Ready(k))[id] >= 1 && multiset(s.Ready(l))[id] >= 1;
  }

  // ----- The invariant -----

  predicate Live(s: State, id: Id) {
    id in s.jobs && (s.jobs[id].state.Queued? || s.jobs[id].state.Waiting() || s.jobs[id].state.Active?)
  }

  ghost predicate OnceIfLive(s: State, id: Id) {
    && Count(s, id) == (if Live(s, id) then 1 else 0)
    && (id in s.jobs ==> (s.jobs[id].token != NoToken <==> s.jobs[id].state.Active?))
  }

  /** Nothing is stranded, live ids occur exactly once and other ids never, and leases are what active jobs hold. */
  ghost predicate Partitioned(s: State) {
    NoneStranded(s) && forall id :: OnceIfLive(s, id)
  }

  /** Where the one entry of an id is. */
  lemma InLeases(s: State, id: Id)
    requires Partitioned(s)
    ensures id in s.leases <==> id in s.jobs && s.jobs[id].state.Active?
  {
    assert OnceIfLive(s, id);
    if id in s.jobs {
      assert Placed(s, id);
      if id in s.leases && id in s.Ready(s.jobs[id].Key()) { ReadyCounted(s, s.jobs[id].Key(), id); }
    }
  }

  lemma InDelayed(s: State, id: Id)
    requires Partitioned(s) && id in s.delayed
    ensures id in s.jobs && (s.jobs[id].state.Waiting() || s.jobs[id].state.Queued?) && id !in s.leases
  {
    assert OnceIfLive(s, id);
    InLeases(s, id);
  }

  lemma InReady(s: State, k: ReadyKey, id: Id)
    requires Partitioned(s) && id in s.Ready(k)
    ensures id in s.jobs && s.jobs[id].state.Queued? && s.jobs[id].Key() == k && id !in s.delayed && id !in s.leases
  {
    ReadyCounted(s, k, id);
    assert OnceIfLive(s, id);
    assert Placed(s, id);
    var own := s.jobs[id].Key();
    if own != k && id in s.Ready(own) { ReadyCountedTwice(s, k, own, id); }
  }

  // ----- The discipline -----

  predicate Disciplined(s: State, step: Step) {
    && Legal(s, step)
    && match step
       case EnqueueStep(id, _, _) => id in s.jobs ==> s.jobs[id].state.Blocked?
       case RetryStep(id, _, _) => !Live(s, id)
       case CompleteStep(_, token, _, _) => token != NoToken
       case FailStep(_, _, token, _, _) => token != NoToken
       case ThrottleStep(_, token, _) => token != NoToken
       case CancelStep(id, seen, _) => seen == s.jobs[id]
       case _ => true
  }

  /** `t` differs from `s` in the hash of `id` and in how often `id` occurs, at most. */
  ghost predicate SameButFor(s: State, t: State, id: Id) {
    && (forall x :: x != id ==> Count(t, x) == Count(s, x))
    && id in t.jobs && t.jobs == s.jobs[id := t.jobs[id]]
  }

  lemma OneJobMoves(s: State, t: State, id: Id)
    requires Partitioned(s) && NoneStranded(t) && SameButFor(s, t, id)
    ensures Partitioned(t) <==> OnceIfLive(t, id)
  {
    if OnceIfLive(t, id) {
      forall x ensures OnceIfLive(t, x) {
        assert OnceIfLive(s, x);
        if x != id { assert Live(t, x) == Live(s, x); }
      }
    }
  }

  // ----- Enqueue, replay and cancel keep the partition exactly when the id is not live elsewhere -----

  lemma EnqueueCounts(s: State, id: Id, job: Job, now: int)
    requires Enqueueable(job)
    ensures forall x :: Count(Enqueue(s, id, job, now), x)
              == Count(s, x) + (if x != id || job.state.Blocked? || (GoesToDelayed(job, now) && id in s.delayed) then 0 else 1)
  {
    if !GoesToDelayed(job, now) && job.state.Queued? { Pushed(s.(jobs := s.jobs[id := job]), job.Key(), id); }
  }

  /** An id given a fresh hash and one more entry, unless it is blocked or its old delayed entry serves. */
  lemma Joins(s: State, t: State, id: Id, job: Job, reused: bool)
    requires Partitioned(s) && NoneStranded(t) && Enqueueable(job)
    requires t.jobs == s.jobs[id := job]
    requires reused ==> id in s.delayed && !job.state.Blocked?
    requires forall x :: Count(t, x) == Count(s, x) + (if x != id || job.state.Blocked? || reused then 0 else 1)
    ensures Partitioned(t) <==> !Live(s, id) || reused
  {
    if reused { InDelayed(s, id); }
    assert OnceIfLive(s, id);
    OneJobMoves(s, t, id);
  }

  lemma EnqueueExact(s: State, id: Id, job: Job, now: int)
    requires Partitioned(s) && Enqueueable(job)
    ensures Partitioned(Enqueue(s, id, job, now)) <==> !Live(s, id) || (GoesToDelayed(job, now) && id in s.delayed)
  {
    EnqueueKeeps(s, id, job, now);
    EnqueueCounts(s, id, job, now);
    Joins(s, Enqueue(s, id, job, now), id, job, GoesToDelayed(job, now) && id in s.delayed);
  }

  lemma RetryCounts(s: State, id: Id, job: Job, now: int)
    ensures forall x :: Count(Retry(s, id, job, now), x)
              == Count(s, x) + (if x != id || (job.runAt > now && id in s.delayed) then 0 else 1)
  {
    var t := Retry(s, id, job, now);
    if job.runAt <= now {
      Pushed(s, job.Key(), id);
      assert t.ready == PushReady(s, job.Key(), id).ready;
    }
  }

  lemma RetryHash(s: State, id: Id, job: Job, now: int)
    ensures var t := Retry(s, id, job, now);
            && id in t.jobs && t.jobs == s.jobs[id := t.jobs[id]]
            && t.jobs[id].token == NoToken && (t.jobs[id].state.Scheduled? || t.jobs[id].state.Queued?)
  {}

  lemma RetryExact(s: State, id: Id, job: Job, now: int)
    requires Partitioned(s)
    ensures Partitioned(Retry(s, id, job, now)) <==> !Live(s, id) || (job.runAt > now && id in s.delayed)
  {
    var t := Retry(s, id, job, now);
    RetryKeeps(s, id, job, now);
    RetryCounts(s, id, job, now);
    RetryHash(s, id, job, now);
    Joins(s, t, id, t.jobs[id], job.runAt > now && id in s.delayed);
  }

  /** Cancelling at once takes away the entries in the list it looks at and in the delayed set. */
  lemma CancelCounts(s: State, id: Id, seen: Job, now: int)
    requires id in s.jobs && seen.state.CancelsAtOnce()
    ensures forall x :: Count(CancelWrite(s, id, seen, now), x)
              == Count(s, x) - (if x != id then 0 else multiset(s.Ready(seen.Key()))[id] + (if id in s.delayed then 1 else 0))
  {
    var t := CancelWrite(s, id, seen, now);
    var k := seen.Key();
    ReadySet(s, k, RemoveAll(s.Ready(k), id));
    RemoveAllCounts(s.Ready(k), id);
    assert AllReady(t.ready) == AllReady(s.(ready := t.ready).ready);
  }

  lemma CancelHash(s: State, id: Id, seen: Job, now: int)
    requires id in s.jobs
    ensures var t := CancelWrite(s, id, seen, now);
            && t.jobs == s.jobs[id := t.jobs[id]] && t.jobs[id].token == s.jobs[id].token
            && t.jobs[id].state == (if seen.state.CancelsAtOnce() then Canceled else s.jobs[id].state)
            && (!seen.state.CancelsAtOnce() ==> t == s.(jobs := t.jobs))
  {}

  lemma CancelExact(s: State, id: Id, seen: Job, now: int)
    requires Partitioned(s) && id in s.jobs
    ensures Partitioned(CancelWrite(s, id, seen, now))
       <==> (seen.state.CancelsAtOnce() ==>
               !s.jobs[id].state.Active? && (seen.Key() == s.jobs[id].Key() || id !in s.Ready(s.jobs[id].Key())))
  {
    var t := CancelWrite(s, id, seen, now);
    CancelKeeps(s, id, seen, now);
    CancelHash(s, id, seen, now);
    assert OnceIfLive(s, id);
    if seen.state.CancelsAtOnce() {
      CancelCounts(s, id, seen, now);
      CancelledCount(s, id, seen, now);
    }
    OneJobMoves(s, t, id);
  }

  /** What is left of a cancelled id: the lease of an active job, or an entry in a list the cancel did not look at. */
  lemma CancelledCount(s: State, id: Id, seen: Job, now: int)
    requires Partitioned(s) && id in s.jobs && seen.state.CancelsAtOnce()
    ensures Count(CancelWrite(s, id, seen, now), id) == 0
       <==> !s.jobs[id].state.Active? && (seen.Key() == s.jobs[id].Key() || id !in s.Ready(s.jobs[id].Key()))
  {
    var k, own := seen.Key(), s.jobs[id].Key();
    CancelCounts(s, id, seen, now);
    assert OnceIfLive(s, id) && Placed(s, id);
    InLeases(s, id);
    if id in s.delayed { InDelayed(s, id); }
    if id in s.Ready(k) { InReady(s, k, id); assert multiset(s.Ready(k))[id] >= 1; }
    else { assert multiset(s.Ready(k))[id] == 0; }
    if id in s.Ready(own) { InReady(s, own, id); }
  }
}
