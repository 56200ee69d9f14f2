/** The limiter's scripts, each as one step on one sorted-set key with its expiry time. */
module LimiterSpec {
  import opened Redis

  /** A rate admission is recorded per job and attempt, a concurrency slot per job. */
  datatype Member = Admission(job: Id, attempt: int) | Slot(job: Id)

  datatype SortedKey = SortedKey(members: map<Member, int>, expireAt: int)
  {
    /** Redis treats a key as gone once its expiry time has passed. */
    function At(now: int): map<Member, int> { if now > expireAt then map[] else members }
  }

  const NO_KEY := SortedKey(map[], 0)

  /** ZREMRANGEBYSCORE -inf cut. */
  function Prune(m: map<Member, int>, cut: int): map<Member, int> {
    map x | x in m && m[x] > cut :: m[x]
  }

  lemma {:induction false} LowestExists(m: map<Member, int>) returns (x: Member)
    requires m != map[]
    ensures x in m && forall y :: y in m ==> m[x] <= m[y]
    decreases |m|
  {
    x :| x in m;
    var rest := m - {x};
    assert m.Keys == rest.Keys + {x};
    if rest != map[] {
      var y := LowestExists(rest);
      if m[y] < m[x] { x := y; }
    }
  }

  lemma LowestIsThere(m: map<Member, int>)
    requires m != map[]
    ensures exists v :: v in m.Values && forall w :: w in m.Values ==> v <= w
  {
    var x := LowestExists(m);
    assert m[x] in m.Values;
  }

  /** The score ZRANGE 0 0 WITHSCORES reports. */
  function Lowest(m: map<Member, int>): (v: int)
    requires m != map[]
    ensures exists x :: x in m && m[x] == v
    ensures forall x :: x in m ==> v <= m[x]
  {
    LowestIsThere(m);
    var v :| v in m.Values && forall w :: w in m.Values ==> v <= w;
    assert forall x :: x in m ==> m[x] in m.Values;
    v
  }

  datatype Outcome = Allowed | Denied(retryAt: int)

  function AcquireRate(k: SortedKey, now: int, limit: int, window: int, member: Member): (SortedKey, Outcome) {
    var m := Prune(k.At(now), now - window);
    if |m| < limit then (SortedKey(m[member := now], now + window), Allowed)
    else if m != map[] then (SortedKey(m, k.expireAt), Denied(Lowest(m) + window))
    else (SortedKey(m, k.expireAt), Denied(now + window))
  }

  function AcquireSlot(k: SortedKey, now: int, limit: int, ttl: int, member: Member): (SortedKey, Outcome) {
    var m := Prune(k.At(now), now);
    if member in m || |m| < limit then (SortedKey(m[member := now + ttl], now + ttl), Allowed)
    else if m != map[] then (SortedKey(m, k.expireAt), Denied(Lowest(m)))
    else (SortedKey(m, k.expireAt), Denied(now + ttl))
  }

  function RenewSlot(k: SortedKey, now: int, ttl: int, member: Member): (SortedKey, bool) {
    var m := Prune(k.At(now), now);
    if member in m then (SortedKey(m[member := now + ttl], now + ttl), true) else (SortedKey(m, k.expireAt), false)
  }

  function Without(m: map<Member, int>, x: Member): map<Member, int> {
    map y | y in m && y != x :: m[y]
  }

  /** ZREM of one member, on acquisition rollback and on release; the expiry time stays. */
  function Drop(k: SortedKey, member: Member): SortedKey {
    SortedKey(Without(k.members, member), k.expireAt)
  }

  // ----- Policies -----

  datatype Scope = Global | QueueScope(queue: string) | TypeScope(jobType: string) | TenantScope(tenant: string)

  datatype Policy = Policy(id: string, scope: Scope, isRate: bool, limit: int, windowSeconds: int, enabled: bool)
  {
    /** What UpsertRateLimitPolicy lets through. */
    predicate Valid() { limit >= 1 && (isRate ==> windowSeconds >= 1) }
    function Window(): int { windowSeconds * 1000 }
  }

  datatype LimitedJob = LimitedJob(id: Id, attempts: int, queue: string, jobType: string, tenant: string)

  predicate AppliesTo(p: Policy, job: LimitedJob) {
    p.enabled && match p.scope
                 case Global => true
                 case QueueScope(q) => q == job.queue
                 case TypeScope(t) => t == job.jobType
                 case TenantScope(t) => t == job.tenant
  }

  function Applicable(job: LimitedJob, policies: seq<Policy>): (out: seq<Policy>)
    ensures forall p {:trigger p in out} :: p in out <==> p in policies && AppliesTo(p, job)
  {
    if policies == [] then []
    else
      var out := Applicable(job, policies[..|policies| - 1]);
      if AppliesTo(policies[|policies| - 1], job) then out + [policies[|policies| - 1]] else out
  }

  /** Two policies never share a key, because ids are distinct and the two modes use different key prefixes. */
  datatype KeyName = RateKey(policy: string) | SlotKey(policy: string)

  type Store = map<KeyName, SortedKey>

  function NameOf(p: Policy): KeyName { if p.isRate then RateKey(p.id) else SlotKey(p.id) }
  function MemberOf(p: Policy, job: LimitedJob): Member { if p.isRate then Admission(job.id, job.attempts) else Slot(job.id) }
  function KeyOf(s: Store, p: Policy): SortedKey { if NameOf(p) in s then s[NameOf(p)] else NO_KEY }

  function Acquire(k: SortedKey, p: Policy, job: LimitedJob, ttl: int, now: int): (SortedKey, Outcome) {
    if p.isRate then AcquireRate(k, now, p.limit, p.Window(), MemberOf(p, job))
    else AcquireSlot(k, now, p.limit, ttl, MemberOf(p, job))
  }

  /** The members pruning alone leaves at `now`. */
  function Pruned(k: SortedKey, p: Policy, now: int): map<Member, int> {
    Prune(k.At(now), if p.isRate then now - p.Window() else now)
  }

  /** The verdict over the policies asked so far; `rates` and `slots` are the acquisitions a denial will have to undo. */
  datatype Decision = Decision(allowed: bool, retryAt: Option<int>, denied: seq<Policy>, rates: seq<Policy>, slots: seq<Policy>)
  {
    function Held(): seq<Policy> { rates + slots }
  }

  const UNDECIDED := Decision(true, None, [], [], [])

  function LaterOf(current: Option<int>, candidate: int): Option<int> {
    if current.None? || candidate > current.value then Some(candidate) else current
  }

  function Record(d: Decision, p: Policy, outcome: Outcome): Decision {
    match outcome
    case Allowed => if p.isRate then d.(rates := d.rates + [p]) else d.(slots := d.slots + [p])
    case Denied(at) => d.(allowed := false, retryAt := LaterOf(d.retryAt, at), denied := d.denied + [p])
  }

  function Ask(s: Store, d: Decision, p: Policy, job: LimitedJob, ttl: int, now: int): (Store, Decision) {
    var (k, outcome) := Acquire(KeyOf(s, p), p, job, ttl, now);
    (s[NameOf(p) := k], Record(d, p, outcome))
  }

  function AskAll(s: Store, ps: seq<Policy>, job: LimitedJob, ttl: int, now: int): (Store, Decision) {
    if ps == [] then (s, UNDECIDED)
    else
      var (s1, d) := AskAll(s, ps[..|ps| - 1], job, ttl, now);
      Ask(s1, d, ps[|ps| - 1], job, ttl, now)
  }

  lemma AskAllExtends(s: Store, ps: seq<Policy>, i: nat, job: LimitedJob, ttl: int, now: int)
    requires i < |ps|
    ensures var (s1, d) := AskAll(s, ps[..i], job, ttl, now); AskAll(s, ps[..i + 1], job, ttl, now) == Ask(s1, d, ps[i], job, ttl, now)
  {
    assert ps[..i + 1][..i] == ps[..i];
  }

  function Undo(s: Store, held: seq<Policy>, job: LimitedJob): Store {
    if held == [] then s
    else
      var s1 := Undo(s, held[..|held| - 1], job);
      var p := held[|held| - 1];
      s1[NameOf(p) := Drop(KeyOf(s1, p), MemberOf(p, job))]
  }

  /** Asks every applicable policy, and undoes what was acquired unless all of them allowed. */
  function Evaluate(s: Store, policies: seq<Policy>, job: LimitedJob, ttl: int, now: int): (Store, Decision) {
    var (s1, d) := AskAll(s, Applicable(job, policies), job, ttl, now);
    (if d.allowed then s1 else Undo(s1, d.Held(), job), d)
  }

  // ----- When Redis fails -----

  /** The acquire script number `at` fails for the caller, with or without having taken effect. */
  datatype Fault = Fault(at: nat, applied: bool)

  /** What goes wrong during an evaluation: an acquire script, and the rollback scripts on the `stuck` keys. */
  datatype Trouble = Trouble(fault: Option<Fault>, stuck: set<KeyName>)
  {
    predicate Stops(count: nat) { fault.Some? && fault.value.at < count }
  }

  /** The acquisitions whose rollback takes effect. */
  function Undoable(held: seq<Policy>, stuck: set<KeyName>): (r: seq<Policy>)
    ensures forall p {:trigger p in r} :: p in r <==> p in held && NameOf(p) !in stuck
    ensures stuck == {} ==> r == held
  {
    if held == [] then []
    else
      var rest, p := Undoable(held[..|held| - 1], stuck), held[|held| - 1];
      if NameOf(p) in stuck then rest else rest + [p]
  }

  lemma {:induction false} UndoableAppends(a: seq<Policy>, b: seq<Policy>, stuck: set<KeyName>)
    ensures Undoable(a + b, stuck) == Undoable(a, stuck) + Undoable(b, stuck)
    decreases |b|
  {
    if b == [] { assert a + b == a; }
    else {
      assert (a + b)[..|a + b| - 1] == a + b[..|b| - 1];
      UndoableAppends(a, b[..|b| - 1], stuck);
    }
  }

  /** Evaluate, with rollback scripts that may fail; the source ignores their errors. */
  function EvaluateStuck(s: Store, policies: seq<Policy>, job: LimitedJob, ttl: int, now: int, stuck: set<KeyName>): (Store, Decision) {
    var (s1, d) := AskAll(s, Applicable(job, policies), job, ttl, now);
    (if d.allowed then s1 else Undo(s1, Undoable(d.Held(), stuck), job), d)
  }

  /** An evaluation that ends with an error: what it knows to have acquired until then is undone, as far as that works. */
  function EvaluateFaulty(s: Store, policies: seq<Policy>, job: LimitedJob, ttl: int, now: int, fault: Fault, stuck: set<KeyName>): Store
    requires fault.at < |Applicable(job, policies)|
  {
    var ps := Applicable(job, policies);
    var (s1, d) := AskAll(s, ps[..fault.at], job, ttl, now);
    var s2 := if fault.applied then Ask(s1, d, ps[fault.at], job, ttl, now).0 else s1;
    Undo(s2, Undoable(d.Held(), stuck), job)
  }

  // ----- Renewal and release -----

  function SlotPolicies(ps: seq<Policy>): (out: seq<Policy>)
    ensures forall p {:trigger p in out} :: p in out <==> p in ps && !p.isRate
  {
    if ps == [] then []
    else
      var out := SlotPolicies(ps[..|ps| - 1]);
      if ps[|ps| - 1].isRate then out else out + [ps[|ps| - 1]]
  }

  function FirstOf<T>(s: seq<T>, count: nat): (r: seq<T>)
    ensures forall x :: x in r ==> x in s
    ensures |r| == (if count <= |s| then count else |s|) && r == s[..|r|]
  {
    if count <= |s| then s[..count] else s
  }

  /** Renews the job's slot under each of these policies. */
  function RenewAll(s: Store, slots: seq<Policy>, job: LimitedJob, ttl: int, now: int): Store {
    if slots == [] then s
    else
      var s1 := RenewAll(s, slots[..|slots| - 1], job, ttl, now);
      var p := slots[|slots| - 1];
      s1[NameOf(p) := RenewSlot(KeyOf(s1, p), now, ttl, MemberOf(p, job)).0]
  }

  lemma SlotPoliciesExtend(ps: seq<Policy>, i: nat)
    requires i < |ps|
    ensures SlotPolicies(ps[..i + 1]) == if ps[i].isRate then SlotPolicies(ps[..i]) else SlotPolicies(ps[..i]) + [ps[i]]
  {
    assert ps[..i + 1][..i] == ps[..i];
  }

  lemma RenewAllExtends(s: Store, slots: seq<Policy>, p: Policy, job: LimitedJob, ttl: int, now: int)
    ensures var s1 := RenewAll(s, slots, job, ttl, now);
            RenewAll(s, slots + [p], job, ttl, now) == s1[NameOf(p) := RenewSlot(KeyOf(s1, p), now, ttl, MemberOf(p, job)).0]
  {
    assert (slots + [p])[..|slots|] == slots;
  }

  lemma UndoExtends(s: Store, held: seq<Policy>, p: Policy, job: LimitedJob)
    ensures var s1 := Undo(s, held, job); Undo(s, held + [p], job) == s1[NameOf(p) := Drop(KeyOf(s1, p), MemberOf(p, job))]
  {
    assert (held + [p])[..|held|] == held;
  }
}
