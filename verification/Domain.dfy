/** Jobs as the broker stores them. Times are whole milliseconds. */
module Domain {
  import opened Redis

  datatype JobState = Queued | Scheduled | Retrying | Blocked | Throttled | Active | Completed | Failed | Canceled
  {
    /** The job is finished for good unless an operator replays it. */
    predicate Terminal() { Completed? || Failed? || Canceled? }

    /** The job waits for its time in the delayed set. */
    predicate Waiting() { Scheduled? || Retrying? || Throttled? }

    /** The states in which the dequeue script hands a job out. */
    predicate Leasable() { Queued? || Retrying? || Scheduled? }

    /** The states in which a cancel takes the job out of the queues at once. */
    predicate CancelsAtOnce() { Queued? || Waiting() || Failed? || Blocked? }
  }

  /** A lease token is a hash of worker, job and time of the grant, taken to be injective; NoToken is the empty string. */
  datatype Token = NoToken | LeaseToken(worker: string, id: Id, at: int)

  /** One job hash. A replay may create a hash without max_attempts, so that field is optional. */
  datatype Job = Job(
    state: JobState,
    queue: string,
    priority: int,
    attempts: int,
    maxAttempts: Option<int>,
    runAt: int,
    token: Token,
    leaseExpiresAt: Option<int>,
    worker: string,
    cancelRequested: bool,
    throttleUntil: Option<int>,
    finishedAt: Option<int>)
  {
    function Key(): ReadyKey { ReadyKey(queue, priority) }
  }

  /** The name of a ready list. */
  datatype ReadyKey = ReadyKey(queue: string, priority: int)

  const SUPPORTED_QUEUES := ["critical", "default", "low"]
}

/** The two retry delays: the one the recovery script computes and the one the worker computes. */
module Backoff {

  const INT64_LIMIT := 0x8000_0000_0000_0000
  const NANOS_PER_MILLI := 1_000_000

  function Pow2(n: nat): (r: int)
    ensures r >= 1
  {
    if n == 0 then 1 else 2 * Pow2(n - 1)
  }

  function Min(a: int, b: int): int { if a <= b then a else b }

  /** The recovery script's delay, in milliseconds. */
  function RecoveryDelay(attempts: int, base: int, capDelay: int): int {
    var power := if attempts - 1 < 0 then 0 else attempts - 1;
    var delay := base * Pow2(power);
    if delay > capDelay then capDelay else delay
  }

  /** A float to int64 conversion; what it yields out of range is up to the implementation. */
  function ToInt64(x: int, outOfRange: int): int {
    if -INT64_LIMIT <= x < INT64_LIMIT then x else outOfRange
  }

  /** The worker's delay, in nanoseconds. */
  function ComputeBackoff(attempt: int, base: int, capDelay: int, outOfRange: int): int {
    if attempt <= 0 then base
    else
      var backoff := ToInt64(base * Pow2(attempt - 1), outOfRange);
      if backoff > capDelay then capDelay else backoff
  }

  lemma {:induction false} Pow2Monotone(m: nat, n: nat)
    requires m <= n
    ensures Pow2(m) <= Pow2(n)
    decreases n
  {
    if m < n { Pow2Monotone(m, n - 1); }
  }

  lemma MulMonotone(c: int, a: int, b: int)
    requires 0 <= c && a <= b
    ensures c * a <= c * b
  {}

  /** The delay the worker's float conversion can still represent. */
  predicate Representable(attempts: int, base: int) {
    attempts <= 0 || base * NANOS_PER_MILLI * Pow2(attempts - 1) < INT64_LIMIT
  }

  /**
   * The two delays agree exactly when: for a job never granted, the base is within the cap (the worker
   * forgets the cap there); for any other, the doubled base fits an int64, or an unrepresentable value
   * happens to convert to something at or above the cap.
   */
  lemma BackoffsAgree(attempts: int, base: int, capDelay: int, outOfRange: int)
    requires 0 <= base && 0 <= capDelay && capDelay * NANOS_PER_MILLI < INT64_LIMIT
    ensures RecoveryDelay(attempts, base, capDelay) * NANOS_PER_MILLI
            == ComputeBackoff(attempts, base * NANOS_PER_MILLI, capDelay * NANOS_PER_MILLI, outOfRange)
       <==> if attempts <= 0 then base <= capDelay
            else Representable(attempts, base) || outOfRange >= capDelay * NANOS_PER_MILLI
  {
    if attempts > 0 {
      var p := Pow2(attempts - 1);
      assert base * NANOS_PER_MILLI * p == base * p * NANOS_PER_MILLI;
      MulMonotone(p, 0, base);
    }
  }

  /** On a machine whose conversion yields the smallest int64, five seconds doubled 32 times is a retry in the past. */
  lemma BackoffOverflows(capDelay: int)
    requires 0 <= capDelay && capDelay * NANOS_PER_MILLI < INT64_LIMIT
    ensures ComputeBackoff(33, 5000 * NANOS_PER_MILLI, capDelay * NANOS_PER_MILLI, -INT64_LIMIT) < 0
    ensures RecoveryDelay(33, 5000, capDelay) >= 0
  {
    assert Pow2(8) == 256;
    assert Pow2(16) == 65536 by { assert Pow2(12) == 4096; }
    assert Pow2(24) == 0x100_0000 by { assert Pow2(20) == 0x10_0000; }
    assert Pow2(32) == 0x1_0000_0000 by { assert Pow2(28) == 0x1000_0000; }
  }

  /** The first delay is the base, and each further attempt doubles it, up to the cap. */
  lemma RecoveryDelayDoubles(attempts: int, base: int, capDelay: int)
    requires 0 <= base && 0 <= capDelay
    ensures attempts <= 1 ==> RecoveryDelay(attempts, base, capDelay) == (if base <= capDelay then base else capDelay)
    ensures attempts >= 1 ==>
              var doubled := 2 * RecoveryDelay(attempts, base, capDelay);
              RecoveryDelay(attempts + 1, base, capDelay) == if doubled <= capDelay then doubled else capDelay
  {
    if attempts >= 1 {
      var p := Pow2(attempts - 1);
      assert Pow2(attempts) == 2 * p;
      assert base * (2 * p) == 2 * (base * p);
      MulMonotone(base, 0, p);
    }
  }

  /** The delay never shrinks, lies between min(base, cap) and the cap, and stays at the cap once there. */
  lemma RecoveryDelayGrows(attempts: int, later: int, base: int, capDelay: int)
    requires 0 <= base && attempts <= later
    ensures Min(base, capDelay) <= RecoveryDelay(attempts, base, capDelay) <= RecoveryDelay(later, base, capDelay) <= capDelay
    ensures RecoveryDelay(attempts, base, capDelay) == capDelay ==> RecoveryDelay(later, base, capDelay) == capDelay
  {
    var m := if attempts - 1 < 0 then 0 else attempts - 1;
    var n := if later - 1 < 0 then 0 else later - 1;
    Pow2Monotone(0, m);
    Pow2Monotone(m, n);
    MulMonotone(base, 1, Pow2(m));
    MulMonotone(base, Pow2(m), Pow2(n));
  }
}
