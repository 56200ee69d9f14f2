/** How a request becomes a job, and which jobs therefore enter the broker. */
module Submission {
  import opened Redis
  import opened Domain
  import opened BrokerSpec

  /** A requested dependency is an id, or None for the empty string. */
  datatype Request = Request(
    queue: string,
    priority: Option<int>,
    maxAttempts: int,
    delayMillis: int,
    scheduledAt: Option<int>,
    dependencies: seq<Option<Id>>)

  predicate Valid(req: Request) {
    (req.priority.Some? ==> 0 <= req.priority.value <= 9) && req.maxAttempts >= 0
  }

  function Latest(a: int, b: int): int { if a >= b then a else b }

  /** When the request wants to run: not before now, its delay, or its schedule. */
  function WantedAt(now: int, req: Request): int {
    var delayed := Latest(now, now + req.delayMillis);
    if req.scheduledAt.Some? then Latest(delayed, req.scheduledAt.value) else delayed
  }

  /** Every job a valid request yields may be handed to the broker, in a state that says where the broker will put it. */
  method BuildJob(now: int, req: Request) returns (job: Job)
    ensures Enqueueable(job) && job.attempts == 0 && job.maxAttempts.Some? && job.maxAttempts.value >= 1
    ensures Valid(req) ==> 0 <= job.priority <= 9
    ensures job.runAt == WantedAt(now, req)
    ensures job.runAt >= now && (req.delayMillis > 0 ==> job.runAt >= now + req.delayMillis) && (req.scheduledAt.Some? ==> job.runAt >= req.scheduledAt.value)
    ensures job.runAt == now || (req.delayMillis > 0 && job.runAt == now + req.delayMillis) || Some(job.runAt) == req.scheduledAt
    ensures job.maxAttempts == Some(if req.maxAttempts > 0 then req.maxAttempts else 5)
    ensures job.priority == (if req.priority.Some? then req.priority.value else 5) && job.queue == (if req.queue == "" then "default" else req.queue)
    ensures job.state.Blocked? <==> req.dependencies != []
    ensures GoesToDelayed(job, now) <==> job.state.Scheduled?
    ensures job.state.Queued? <==> req.dependencies == [] && job.runAt == now
  {
    var runAt := now;
    if req.delayMillis > 0 { runAt := now + req.delayMillis; }
    if req.scheduledAt.Some? && req.scheduledAt.value > runAt { runAt := req.scheduledAt.value; }
    var maxAttempts := req.maxAttempts;
    if maxAttempts <= 0 { maxAttempts := 5; }
    var priority := 5;
    if req.priority.Some? { priority := req.priority.value; }
    var state := Queued;
    if |req.dependencies| > 0 { state := Blocked; }
    if runAt > now && state != Blocked { state := Scheduled; }
    var queue := if req.queue == "" then "default" else req.queue;
    job := Job(state, queue, priority, 0, Some(maxAttempts), runAt, NoToken, None, "", false, None, None);
  }

  /** The edges that are stored: each named id once, in order of first mention, without empty names and without the job itself. */
  method SanitizeDependencies(ids: seq<Option<Id>>, self: Id) returns (out: seq<Id>)
    ensures forall id :: id in out <==> Some(id) in ids && id != self
    ensures Distinct(out)
    ensures forall a, b :: 0 <= a < b < |out| ==>
              exists i :: 0 <= i < |ids| && ids[i] == Some(out[a]) && Some(out[b]) !in ids[..i]
  {
    var seen: set<Id> := {};
    out := [];
    for n := 0 to |ids|
      invariant seen == set id | id in out
      invariant forall id :: id in out <==> Some(id) in ids[..n] && id != self
      invariant Distinct(out)
      invariant forall a, b :: 0 <= a < b < |out| ==>
                  exists i :: 0 <= i < n && ids[i] == Some(out[a]) && Some(out[b]) !in ids[..i]
    {
      assert ids[..n + 1] == ids[..n] + [ids[n]];
      if ids[n].None? || ids[n].value == self { continue; }
      if ids[n].value in seen { continue; }
      ghost var before := out;
      seen := seen + {ids[n].value};
      out := out + [ids[n].value];
      forall a, b | 0 <= a < b < |out|
        ensures exists i :: 0 <= i < n + 1 && ids[i] == Some(out[a]) && Some(out[b]) !in ids[..i]
      {
        if b == |before| {
          assert before[a] in before;
          var i :| 0 <= i < n && ids[..n][i] == Some(out[a]);
          assert ids[i] == Some(out[a]) && forall x :: x in ids[..i] ==> x in ids[..n];
        } else {
          var i :| 0 <= i < n && ids[i] == Some(before[a]) && Some(before[b]) !in ids[..i];
        }
      }
    }
    assert ids[..|ids|] == ids;
  }

  /**
   * A job is created blocked without a single stored dependency, and so with nothing that could ever release it,
   * exactly when its request names dependencies but only empty ones or itself.
   */
  method Submit(now: int, self: Id, req: Request) returns (job: Job, edges: seq<Id>)
    ensures Enqueueable(job)
    ensures job.state.Blocked? && edges == [] <==>
              req.dependencies != [] && forall d :: d in req.dependencies ==> d == None || d == Some(self)
  {
    job := BuildJob(now, req);
    edges := SanitizeDependencies(req.dependencies, self);
    if edges == [] {
      forall d | d in req.dependencies ensures d == None || d == Some(self) {
        if d.Some? { assert d.value !in edges; }
      }
    } else {
      assert edges[0] in edges;
    }
  }
}
