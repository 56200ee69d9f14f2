/** The broker's scripts and pipelines, each as one step on the whole Redis state. */
module BrokerSpec {
  import opened Redis
  import opened Domain
  import Backoff

  datatype State = State(
    jobs: map<Id, Job>,
    ready: map<ReadyKey, seq<Id>>,
    delayed: ZSet,
    leases: ZSet,
    dlq: map<string, seq<Id>>)
  {
    /** A missing list key reads as an empty list. */
    function Ready(k: ReadyKey): seq<Id> { if k in ready then ready[k] else [] }
    function DeadLetters(queue: string): seq<Id> { if queue in dlq then dlq[queue] else [] }
    function Token(id: Id): Token { if id in jobs then jobs[id].token else NoToken }
  }

  const EMPTY := State(map[], map[], map[], map[], map[])

  datatype Config = Config(baseRetryDelay: int, maxRetryDelay: int)

  function PushReady(s: State, k: ReadyKey, id: Id): State {
    s.(ready := s.ready[k := [id] + s.Ready(k)])
  }

  function PushDeadLetter(s: State, queue: string, id: Id): State {
    s.(dlq := s.dlq[queue := [id] + s.DeadLetters(queue)])
  }

  // ----- Enqueue -----

  predicate GoesToDelayed(job: Job, now: int) {
    !job.state.Blocked? && (job.state.Waiting() || job.runAt > now)
  }

  function Enqueue(s: State, id: Id, job: Job, now: int): State {
    var s1 := s.(jobs := s.jobs[id := job]);
    if job.state.Blocked? then s1
    else if job.state.Waiting() || job.runAt > now then s1.(delayed := s1.delayed[id := job.runAt])
    else if job.state.Queued? then PushReady(s1, job.Key(), id)
    else s1
  }

  function EnqueueBatch(s: State, batch: seq<(Id, Job)>, now: int): State {
    if batch == [] then s
    else
      var s1 := EnqueueBatch(s, batch[..|batch| - 1], now);
      Enqueue(s1, batch[|batch| - 1].0, batch[|batch| - 1].1, now)
  }

  // ----- Dequeue -----

  datatype Grant = Grant(id: Id, token: Token, attempts: int)

  function PopReady(s: State, k: ReadyKey): State
    requires s.Ready(k) != []
  {
    s.(ready := s.ready[k := s.Ready(k)[1..]])
  }

  function Lease(s: State, id: Id, worker: string, ttl: int, now: int): State
    requires id in s.jobs
  {
    var job := s.jobs[id].(
      attempts := s.jobs[id].attempts + 1, state := Active, leaseExpiresAt := Some(now + ttl),
      worker := worker, token := LeaseToken(worker, id, now), throttleUntil := None);
    s.(jobs := s.jobs[id := job], leases := s.leases[id := now + ttl])
  }

  /** One pop per key, in key order; a popped id that cannot be leased is dropped. */
  function Dequeue(s: State, keys: seq<ReadyKey>, worker: string, ttl: int, now: int): (State, Option<Grant>)
    decreases |keys|
  {
    if keys == [] then (s, None)
    else if s.Ready(keys[0]) == [] then Dequeue(s, keys[1..], worker, ttl, now)
    else
      var id := s.Ready(keys[0])[0];
      var s1 := PopReady(s, keys[0]);
      if id in s.jobs && s.jobs[id].state.Leasable() then
        (Lease(s1, id, worker, ttl, now), Some(Grant(id, LeaseToken(worker, id, now), s.jobs[id].attempts + 1)))
      else Dequeue(s1, keys[1..], worker, ttl, now)
  }

  /** All ten priorities of each queue, highest first, queue by queue; no queues means the supported ones. */
  function ReadyKeys(queues: seq<string>): (keys: seq<ReadyKey>) {
    var qs := if queues == [] then SUPPORTED_QUEUES else queues;
    seq(10 * |qs|, i requires 0 <= i < 10 * |qs| => ReadyKey(qs[i / 10], 9 - i % 10))
  }

  // ----- Lease holder calls -----

  predicate TokenMatches(s: State, id: Id, token: Token) {
    id in s.jobs && s.jobs[id].token == token
  }

  function Heartbeat(s: State, id: Id, token: Token, ttl: int, now: int): (r: (State, bool))
    ensures !r.1 ==> r.0 == s
    ensures r.1 ==> id in r.0.jobs && id in r.0.leases && r.0.jobs[id].leaseExpiresAt == Some(r.0.leases[id])
  {
    if !TokenMatches(s, id, token) || !s.jobs[id].state.Active? then (s, false)
    else
      (s.(jobs := s.jobs[id := s.jobs[id].(leaseExpiresAt := Some(now + ttl))],
          leases := s.leases[id := now + ttl]), true)
  }

  function Complete(s: State, id: Id, token: Token, worker: string, now: int): (r: (State, bool))
    ensures !r.1 ==> r.0 == s
    ensures r.1 ==> r.0.Token(id) == NoToken && id !in r.0.leases
  {
    if !TokenMatches(s, id, token) then (s, false)
    else
      var job := s.jobs[id].(state := Completed, finishedAt := Some(now), worker := worker,
                             token := NoToken, leaseExpiresAt := None, throttleUntil := None);
      (s.(jobs := s.jobs[id := job], leases := ZRem(s.leases, id)), true)
  }

  /** `queue` is the queue of the caller's copy of the job. */
  function Fail(s: State, id: Id, queue: string, token: Token, retryAt: Option<int>, now: int): (r: (State, bool))
    ensures !r.1 ==> r.0 == s
    ensures r.1 ==> r.0.Token(id) == NoToken && id !in r.0.leases
  {
    if !TokenMatches(s, id, token) then (s, false)
    else
      var cleared := s.jobs[id].(worker := "", token := NoToken, leaseExpiresAt := None, throttleUntil := None);
      var s1 := s.(leases := ZRem(s.leases, id));
      match retryAt
      case Some(at) =>
        (s1.(jobs := s.jobs[id := cleared.(state := Retrying, runAt := at)], delayed := s1.delayed[id := at]), true)
      case None =>
        (PushDeadLetter(s1.(jobs := s.jobs[id := cleared.(state := Failed, finishedAt := Some(now))]), queue, id), true)
  }

  function Throttle(s: State, id: Id, token: Token, retryAt: int): (r: (State, bool))
    ensures !r.1 ==> r.0 == s
    ensures r.1 ==> r.0.Token(id) == NoToken && id !in r.0.leases
  {
    if !TokenMatches(s, id, token) then (s, false)
    else
      var job := s.jobs[id].(state := Throttled, runAt := retryAt, throttleUntil := Some(retryAt),
                             worker := "", token := NoToken, leaseExpiresAt := None);
      (s.(jobs := s.jobs[id := job], leases := ZRem(s.leases, id), delayed := s.delayed[id := retryAt]), true)
  }

  // ----- Scheduler batches -----

  function ActivateOne(s: State, id: Id): (State, bool) {
    if id !in s.delayed then (s, false)
    else
      var s1 := s.(delayed := ZRem(s.delayed, id));
      if id !in s.jobs then (s1, false)
      else
        var job := s.jobs[id].(state := Queued, worker := "", token := NoToken, throttleUntil := None, leaseExpiresAt := None);
        (PushReady(s1.(jobs := s1.jobs[id := job]), job.Key(), id), true)
  }

  function ActivateAll(s: State, ids: seq<Id>): (State, seq<Id>) {
    if ids == [] then (s, [])
    else
      var (s1, out) := ActivateAll(s, ids[..|ids| - 1]);
      var (s2, done) := ActivateOne(s1, ids[|ids| - 1]);
      (s2, if done then out + [ids[|ids| - 1]] else out)
  }

  function ActivateDue(s: State, limit: int, now: int): (State, seq<Id>) {
    ActivateAll(s, DueIds(s.delayed, now, limit))
  }

  /** What the recovery script reports; a retry time of zero is written as "0", which the reader takes for none. */
  datatype Recovered = Recovered(id: Id, state: JobState, retryAt: Option<int>)

  function RecoverJob(job: Job, now: int, c: Config): Job {
    var cleared := job.(worker := "", token := NoToken, leaseExpiresAt := None);
    if job.cancelRequested then cleared.(state := Canceled, finishedAt := Some(now))
    else if job.attempts < (if job.maxAttempts.Some? then job.maxAttempts.value else 1) then
      cleared.(state := Retrying, runAt := now + Backoff.RecoveryDelay(job.attempts, c.baseRetryDelay, c.maxRetryDelay))
    else cleared.(state := Failed, finishedAt := Some(now))
  }

  /** Files a job whose lease has just been removed under its new state. */
  function Settle(s: State, id: Id, job: Job): (State, Recovered) {
    var s1 := s.(jobs := s.jobs[id := job]);
    if job.state.Canceled? then (s1, Recovered(id, Canceled, None))
    else if job.state.Retrying? then
      (s1.(delayed := s1.delayed[id := job.runAt]),
       Recovered(id, Retrying, if job.runAt == 0 then None else Some(job.runAt)))
    else (PushDeadLetter(s1, job.queue, id), Recovered(id, Failed, None))
  }

  function RecoverOne(s: State, id: Id, now: int, c: Config): (State, Option<Recovered>) {
    if id !in s.leases then (s, None)
    else
      var s1 := s.(leases := ZRem(s.leases, id));
      if id !in s.jobs then (s1, None)
      else
        var (s2, record) := Settle(s1, id, RecoverJob(s.jobs[id], now, c));
        (s2, Some(record))
  }

  /** What recovery may change in a hash. */
  lemma RecoverJobShape(job: Job, now: int, c: Config)
    ensures var r := RecoverJob(job, now, c);
            && (r.state.Canceled? || r.state.Retrying? || r.state.Failed?)
            && r.token == NoToken && r.Key() == job.Key() && r.attempts == job.attempts && r.maxAttempts == job.maxAttempts
            && (r.state.Canceled? <==> job.cancelRequested)
            && (r.state.Retrying? <==> !job.cancelRequested && job.attempts < (if job.maxAttempts.Some? then job.maxAttempts.value else 1))
  {}

  function RecoverAll(s: State, ids: seq<Id>, now: int, c: Config): (State, seq<Recovered>) {
    if ids == [] then (s, [])
    else
      var (s1, out) := RecoverAll(s, ids[..|ids| - 1], now, c);
      var (s2, record) := RecoverOne(s1, ids[|ids| - 1], now, c);
      (s2, if record.Some? then out + [record.value] else out)
  }

  lemma RecoverAllExtends(s: State, ids: seq<Id>, i: nat, now: int, c: Config)
    requires i < |ids|
    ensures var (s1, out) := RecoverAll(s, ids[..i], now, c);
            var (s2, record) := RecoverOne(s1, ids[i], now, c);
            RecoverAll(s, ids[..i + 1], now, c) == (s2, if record.Some? then out + [record.value] else out)
  {
    assert ids[..i + 1][..i] == ids[..i];
  }

  function RecoverExpired(s: State, limit: int, now: int, c: Config): (State, seq<Recovered>) {
    RecoverAll(s, DueIds(s.leases, now, limit), now, c)
  }

  // ----- Operator calls -----

  /** `job` is the repository's copy; only the fields the pipeline writes are taken from it. */
  function Retry(s: State, id: Id, job: Job, now: int): State {
    var maxAttempts := if id in s.jobs then s.jobs[id].maxAttempts else None;
    var later := job.runAt > now;
    var reset := Job(if later then Scheduled else Queued, job.queue, job.priority, job.attempts, maxAttempts, job.runAt,
                     NoToken, None, "", false, None, None);
    var s1 := s.(jobs := s.jobs[id := reset]);
    var s2 := if later then s1.(delayed := s1.delayed[id := job.runAt]) else PushReady(s1, job.Key(), id);
    s2.(dlq := s2.dlq[job.queue := RemoveAll(s2.DeadLetters(job.queue), id)])
  }

  /** The second half of a cancel, acting on a copy `seen` loaded earlier. */
  function CancelWrite(s: State, id: Id, seen: Job, now: int): State
    requires id in s.jobs
  {
    var flagged := s.jobs[id].(cancelRequested := true);
    if !seen.state.CancelsAtOnce() then s.(jobs := s.jobs[id := flagged])
    else
      s.(jobs := s.jobs[id := flagged.(state := Canceled, finishedAt := Some(now), leaseExpiresAt := None, throttleUntil := None)],
         ready := s.ready[seen.Key() := RemoveAll(s.Ready(seen.Key()), id)],
         delayed := ZRem(s.delayed, id),
         dlq := s.dlq[seen.queue := RemoveAll(s.DeadLetters(seen.queue), id)])
  }

  // ----- Runs -----

  datatype Step =
    | EnqueueStep(id: Id, job: Job, now: int)
    | DequeueStep(worker: string, queues: seq<string>, ttl: int, now: int)
    | HeartbeatStep(id: Id, token: Token, ttl: int, now: int)
    | CompleteStep(id: Id, token: Token, worker: string, now: int)
    | FailStep(id: Id, queue: string, token: Token, retryAt: Option<int>, now: int)
    | ThrottleStep(id: Id, token: Token, until: int)
    | ActivateStep(limit: int, now: int)
    | RecoverStep(limit: int, now: int)
    | RetryStep(id: Id, job: Job, now: int)
    | CancelStep(id: Id, seen: Job, now: int)

  /** A job the service or a worker may hand to the broker. */
  predicate Enqueueable(job: Job) {
    job.token == NoToken && !job.state.Active? && !job.state.Terminal()
  }

  /** What callers owe a step in any state: a fit job to enqueue, and a cancel whose load found the job. */
  predicate Legal(s: State, step: Step) {
    match step
    case EnqueueStep(_, job, _) => Enqueueable(job)
    case CancelStep(id, _, _) => id in s.jobs
    case _ => true
  }

  function Next(s: State, step: Step, c: Config): State
    requires Legal(s, step)
  {
    match step
    case EnqueueStep(id, job, now) => Enqueue(s, id, job, now)
    case DequeueStep(worker, queues, ttl, now) => Dequeue(s, ReadyKeys(queues), worker, ttl, now).0
    case HeartbeatStep(id, token, ttl, now) => Heartbeat(s, id, token, ttl, now).0
    case CompleteStep(id, token, worker, now) => Complete(s, id, token, worker, now).0
    case FailStep(id, queue, token, retryAt, now) => Fail(s, id, queue, token, retryAt, now).0
    case ThrottleStep(id, token, until) => Throttle(s, id, token, until).0
    case ActivateStep(limit, now) => ActivateDue(s, limit, now).0
    case RecoverStep(limit, now) => RecoverExpired(s, limit, now, c).0
    case RetryStep(id, job, now) => Retry(s, id, job, now)
    case CancelStep(id, seen, now) => CancelWrite(s, id, seen, now)
  }

  function Last<T>(s: seq<T>): T requires s != [] { s[|s| - 1] }
  function Init<T>(s: seq<T>): seq<T> requires s != [] { s[..|s| - 1] }

  /** The states a run goes through, latest last; a run is any interleaving of legal steps from an empty store. */
  ghost predicate IsRun(states: seq<State>, steps: seq<Step>, c: Config) {
    && |states| == |steps| + 1
    && states[0] == EMPTY
    && forall i {:trigger steps[i]} :: 0 <= i < |steps| ==> Legal(states[i], steps[i]) && states[i + 1] == Next(states[i], steps[i], c)
  }
}
