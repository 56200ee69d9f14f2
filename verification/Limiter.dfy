/** The limiter itself, and what a denial promises: no trace of the attempt, and an exact time to come back. */
module Limiter {
  import opened Redis
  import opened LimiterSpec

  // ----- The limiter -----

  class RedisLimiter {
    var keys: Store

    constructor ()
      ensures keys == map[]
    {
      keys := map[];
    }

    method AcquireScript(p: Policy, job: LimitedJob, ttl: int, now: int) returns (outcome: Outcome)
      modifies this
      ensures KeyOf(keys, p) == Acquire(old(KeyOf(keys, p)), p, job, ttl, now).0
      ensures outcome == Acquire(old(KeyOf(keys, p)), p, job, ttl, now).1
      ensures keys == old(keys)[NameOf(p) := KeyOf(keys, p)]
    {
      var k := if NameOf(p) in keys then keys[NameOf(p)] else NO_KEY;
      var member := MemberOf(p, job);
      var cut := if p.isRate then now - p.Window() else now;
      var m := Prune(k.At(now), cut);
      var score, ttlMillis := if p.isRate then now else now + ttl, if p.isRate then p.Window() else ttl;
      if (!p.isRate && member in m) || |m| < p.limit {
        keys := keys[NameOf(p) := SortedKey(m[member := score], now + ttlMillis)];
        return Allowed;
      }
      keys := keys[NameOf(p) := SortedKey(m, k.expireAt)];
      if m != map[] {
        return Denied(if p.isRate then Lowest(m) + p.Window() else Lowest(m));
      }
      return Denied(now + ttlMillis);
    }

    /** Rollback scripts on the `stuck` keys fail, which nobody notices. */
    method Rollback(held: seq<Policy>, job: LimitedJob, stuck: set<KeyName>)
      modifies this
      ensures keys == Undo(old(keys), Undoable(held, stuck), job)
    {
      for i := 0 to |held|
        invariant keys == Undo(old(keys), Undoable(held[..i], stuck), job)
      {
        assert held[..i + 1] == held[..i] + [held[i]];
        UndoableAppends(held[..i], [held[i]], stuck);
        if NameOf(held[i]) in stuck { continue; }
        UndoExtends(old(keys), Undoable(held[..i], stuck), held[i], job);
        var k := if NameOf(held[i]) in keys then keys[NameOf(held[i])] else NO_KEY;
        keys := keys[NameOf(held[i]) := Drop(k, MemberOf(held[i], job))];
      }
      assert held[..|held|] == held;
    }

    method EvaluateAndAcquire(job: LimitedJob, policies: seq<Policy>, ttl: int, now: int, trouble: Trouble) returns (decision: Option<Decision>)
      modifies this
      ensures trouble.Stops(|Applicable(job, policies)|) ==>
                decision == None && keys == EvaluateFaulty(old(keys), policies, job, ttl, now, trouble.fault.value, trouble.stuck)
      ensures !trouble.Stops(|Applicable(job, policies)|) ==>
                decision.Some? && (keys, decision.value) == EvaluateStuck(old(keys), policies, job, ttl, now, trouble.stuck)
    {
      var d := UNDECIDED;
      var applicable := ApplicablePolicies(job, policies);
      for i := 0 to |applicable|
        invariant trouble.fault.Some? ==> i <= trouble.fault.value.at
        invariant (keys, d) == AskAll(old(keys), applicable[..i], job, ttl, now)
      {
        AskAllExtends(old(keys), applicable, i, job, ttl, now);
        var p := applicable[i];
        if trouble.fault.Some? && trouble.fault.value.at == i {
          if trouble.fault.value.applied {
            var lost := AcquireScript(p, job, ttl, now);
          }
          RollbackAll(d, job, trouble.stuck);
          return None;
        }
        var outcome := AcquireScript(p, job, ttl, now);
        match outcome {
          case Denied(at) =>
            d := d.(allowed := false, retryAt := LaterOf(d.retryAt, at), denied := d.denied + [p]);
          case Allowed =>
            if p.isRate { d := d.(rates := d.rates + [p]); } else { d := d.(slots := d.slots + [p]); }
        }
      }
      assert applicable[..|applicable|] == applicable;
      if !d.allowed { RollbackAll(d, job, trouble.stuck); }
      return Some(d);
    }

    method RenewScript(p: Policy, job: LimitedJob, ttl: int, now: int)
      requires !p.isRate
      modifies this
      ensures keys == old(keys)[NameOf(p) := RenewSlot(old(KeyOf(keys, p)), now, ttl, MemberOf(p, job)).0]
    {
      var k := if NameOf(p) in keys then keys[NameOf(p)] else NO_KEY;
      var m := Prune(k.At(now), now);
      if Slot(job.id) in m {
        keys := keys[NameOf(p) := SortedKey(m[Slot(job.id) := now + ttl], now + ttl)];
      } else {
        keys := keys[NameOf(p) := SortedKey(m, k.expireAt)];
      }
    }

    /** Stops at the first error, after `effective` of the scripts have taken effect. */
    method Renew(job: LimitedJob, policies: seq<Policy>, ttl: int, now: int, effective: nat)
      modifies this
      ensures keys == RenewAll(old(keys), FirstOf(SlotPolicies(Applicable(job, policies)), effective), job, ttl, now)
    {
      var slots := ConcurrencyPolicies(job, policies);
      var i := 0;
      while i < |slots| && i < effective
        invariant i <= |slots| && i <= effective
        invariant keys == RenewAll(old(keys), slots[..i], job, ttl, now)
      {
        assert slots[..i + 1] == slots[..i] + [slots[i]];
        assert slots[i] in slots;
        RenewAllExtends(old(keys), slots[..i], slots[i], job, ttl, now);
        RenewScript(slots[i], job, ttl, now);
        i := i + 1;
      }
      assert slots[..i] == FirstOf(slots, effective);
    }

    method Release(job: LimitedJob, policies: seq<Policy>, effective: nat)
      modifies this
      ensures keys == Undo(old(keys), FirstOf(SlotPolicies(Applicable(job, policies)), effective), job)
    {
      var slots := ConcurrencyPolicies(job, policies);
      var i := 0;
      while i < |slots| && i < effective
        invariant i <= |slots| && i <= effective
        invariant keys == Undo(old(keys), slots[..i], job)
      {
        assert slots[..i + 1] == slots[..i] + [slots[i]];
        assert slots[i] in slots;
        UndoExtends(old(keys), slots[..i], slots[i], job);
        var k := if NameOf(slots[i]) in keys then keys[NameOf(slots[i])] else NO_KEY;
        keys := keys[NameOf(slots[i]) := Drop(k, Slot(job.id))];
        i := i + 1;
      }
      assert slots[..i] == FirstOf(slots, effective);
    }

    /** Rate admissions first, then slots. */
    method RollbackAll(d: Decision, job: LimitedJob, stuck: set<KeyName>)
      modifies this
      ensures keys == Undo(old(keys), Undoable(d.Held(), stuck), job)
    {
      Rollback(d.rates, job, stuck);
      UndoableAppends(d.rates, d.slots, stuck);
      UndoAppends(old(keys), Undoable(d.rates, stuck), Undoable(d.slots, stuck), job);
      Rollback(d.slots, job, stuck);
    }
  }

  /** The applicable policies that are skipped by neither a renewal nor a release. */
  method ConcurrencyPolicies(job: LimitedJob, policies: seq<Policy>) returns (out: seq<Policy>)
    ensures out == SlotPolicies(Applicable(job, policies))
  {
    var applicable := ApplicablePolicies(job, policies);
    out := [];
    for i := 0 to |applicable|
      invariant out == SlotPolicies(applicable[..i])
    {
      SlotPoliciesExtend(applicable, i);
      if applicable[i].isRate { continue; }
      out := out + [applicable[i]];
    }
    assert applicable[..|applicable|] == applicable;
  }

  /** Renewing twice at one instant is renewing once. */
  lemma RenewTwice(k: SortedKey, now: int, ttl: int, member: Member)
    requires ttl >= 1
    ensures RenewSlot(RenewSlot(k, now, ttl, member).0, now, ttl, member).0 == RenewSlot(k, now, ttl, member).0
  {
    var m := Prune(k.At(now), now);
    if member in m {
      assert Prune(m[member := now + ttl], now) == m[member := now + ttl];
    } else {
      assert Prune(m, now) == m;
    }
  }

  /** Renewal renews exactly the keys named, and no key gains a member by it. */
  lemma {:induction false} RenewalExact(s: Store, slots: seq<Policy>, job: LimitedJob, ttl: int, now: int, q: Policy)
    requires ttl >= 1 && forall p :: p in slots ==> !p.isRate
    ensures var k, k' := KeyOf(s, q), KeyOf(RenewAll(s, slots, job, ttl, now), q);
            && k' == (if Mentions(slots, NameOf(q)) then RenewSlot(k, now, ttl, Slot(job.id)).0 else k)
            && k'.members.Keys <= k.members.Keys
    decreases |slots|
  {
    if slots != [] {
      var rest, p := slots[..|slots| - 1], slots[|slots| - 1];
      assert slots == rest + [p];
      RenewalExact(s, rest, job, ttl, now, q);
      assert Mentions(slots, NameOf(q)) <==> Mentions(rest, NameOf(q)) || NameOf(p) == NameOf(q) by {
        assert forall r :: r in slots <==> r in rest || r == p;
      }
      RenewTwice(KeyOf(s, q), now, ttl, Slot(job.id));
      if NameOf(p) == NameOf(q) { assert KeyOf(RenewAll(s, rest, job, ttl, now), p) == KeyOf(RenewAll(s, rest, job, ttl, now), q); }
    }
  }

  /**
   * A release takes the job's slot, and nothing else, out of every applicable slot set it reaches before an error; rate
   * sets stay as they are.
   */
  lemma ReleaseExact(s: Store, policies: seq<Policy>, job: LimitedJob, effective: nat, q: Policy)
    ensures var slots := FirstOf(SlotPolicies(Applicable(job, policies)), effective);
            KeyOf(Undo(s, slots, job), q) == if Mentions(slots, NameOf(q)) then Drop(KeyOf(s, q), Slot(job.id)) else KeyOf(s, q)
  {
    var slots := SlotPolicies(Applicable(job, policies));
    UndoDrops(s, FirstOf(slots, effective), job, q);
  }

  method ApplicablePolicies(job: LimitedJob, policies: seq<Policy>) returns (out: seq<Policy>)
    ensures out == Applicable(job, policies)
  {
    out := [];
    for i := 0 to |policies|
      invariant out == Applicable(job, policies[..i])
    {
      assert policies[..i + 1][..i] == policies[..i];
      if AppliesTo(policies[i], job) { out := out + [policies[i]]; }
    }
    assert policies[..|policies|] == policies;
  }

  lemma {:induction false} UndoAppends(s: Store, a: seq<Policy>, b: seq<Policy>, job: LimitedJob)
    ensures Undo(s, a + b, job) == Undo(Undo(s, a, job), b, job)
    decreases |b|
  {
    if b == [] { assert a + b == a; }
    else {
      assert (a + b)[..|a + b| - 1] == a + b[..|b| - 1];
      UndoAppends(s, a, b[..|b| - 1], job);
    }
  }

  // ----- One key -----

  /** Once the key has expired, pruning would have removed every member too. */
  ghost predicate KeySound(k: SortedKey, p: Policy) {
    forall x :: x in k.members ==> k.members[x] + (if p.isRate then p.Window() else 0) <= k.expireAt + 1
  }

  lemma PruneShrinks(m: map<Member, int>, cut: int)
    ensures |Prune(m, cut)| <= |m|
    ensures (exists x :: x in m && m[x] <= cut) ==> |Prune(m, cut)| < |m|
    ensures (forall x :: x in m ==> m[x] > cut) ==> Prune(m, cut) == m
  {
    var r := Prune(m, cut);
    assert r.Keys <= m.Keys;
    SubsetSize(r.Keys, m.Keys);
    if x :| x in m && m[x] <= cut {
      assert r.Keys <= m.Keys - {x};
      SubsetSize(r.Keys, m.Keys - {x});
    }
  }

  lemma {:induction false} SubsetSize<T>(a: set<T>, b: set<T>)
    requires a <= b
    ensures |a| <= |b|
    decreases |a|
  {
    if a != {} {
      var x :| x in a;
      SubsetSize(a - {x}, b - {x});
    }
  }

  // ----- What the scripts do, in scores and times -----

  /** The members that still count at `now` for a window or lease of `age` milliseconds since their score. */
  function Counting(m: map<Member, int>, now: int, age: int): set<Member> { set x | x in m && m[x] + age > now }

  /** The time at which the first of these members stops counting. */
  ghost predicate FirstToGo(m: map<Member, int>, counting: set<Member>, age: int, at: int) {
    (exists x :: x in counting && x in m && at == m[x] + age) && (forall x :: x in counting && x in m ==> at <= m[x] + age)
  }

  lemma PrunedCounts(k: SortedKey, now: int, age: int)
    requires forall x :: x in k.members ==> k.members[x] + age <= k.expireAt + 1
    ensures Prune(k.At(now), now - age).Keys == Counting(k.members, now, age)
    ensures |Prune(k.At(now), now - age)| == |Counting(k.members, now, age)|
  {
    assert Prune(k.At(now), now - age).Keys == Counting(k.members, now, age);
  }

  /**
   * A rate policy admits a job exactly if fewer than its limit of admissions are younger than its window; it then counts
   * this one from now under job and attempt. Otherwise it names the time at which the oldest of them leaves the window.
   */
  lemma RateAdmissionExact(k: SortedKey, p: Policy, job: LimitedJob, ttl: int, now: int)
    requires p.isRate && p.limit >= 1 && forall x :: x in k.members ==> k.members[x] + 1000 * p.windowSeconds <= k.expireAt + 1
    ensures var window := 1000 * p.windowSeconds;
            var (counting, x) := (Counting(k.members, now, window), Admission(job.id, job.attempts));
            var (t, outcome) := Acquire(k, p, job, ttl, now);
            && (outcome.Allowed? <==> |counting| < p.limit)
            && (outcome.Allowed? ==> t.members.Keys == counting + {x} && t.members[x] == now && t.expireAt == now + window)
            && (outcome.Denied? ==> t.members.Keys == counting && FirstToGo(k.members, counting, window, outcome.retryAt))
            && (forall y :: y in counting && (outcome.Denied? || y != x) ==> y in t.members && t.members[y] == k.members[y])
  {
    PrunedCounts(k, now, 1000 * p.windowSeconds);
  }

  /**
   * A concurrency policy admits a job exactly if it holds a slot already or fewer than the limit do; its slot then lasts
   * for the TTL. Otherwise it names the time at which the first of the slots runs out.
   */
  lemma SlotAdmissionExact(k: SortedKey, p: Policy, job: LimitedJob, ttl: int, now: int)
    requires !p.isRate && p.limit >= 1 && forall x :: x in k.members ==> k.members[x] <= k.expireAt + 1
    ensures var (counting, x) := (Counting(k.members, now, 0), Slot(job.id));
            var (t, outcome) := Acquire(k, p, job, ttl, now);
            && (outcome.Allowed? <==> x in counting || |counting| < p.limit)
            && (outcome.Allowed? ==> t.members.Keys == counting + {x} && t.members[x] == now + ttl && t.expireAt == now + ttl)
            && (outcome.Denied? ==> t.members.Keys == counting && FirstToGo(k.members, counting, 0, outcome.retryAt))
            && (forall y :: y in counting && (outcome.Denied? || y != x) ==> y in t.members && t.members[y] == k.members[y])
  {
    PrunedCounts(k, now, 0);
  }

  /** A slot is renewed, for the TTL from now, exactly if it has not run out; another is never made. */
  lemma RenewalOfSlotExact(k: SortedKey, job: Id, ttl: int, now: int)
    requires forall x :: x in k.members ==> k.members[x] <= k.expireAt + 1
    ensures var (t, renewed) := RenewSlot(k, now, ttl, Slot(job));
            && (renewed <==> Slot(job) in Counting(k.members, now, 0))
            && t.members.Keys == Counting(k.members, now, 0)
            && (renewed ==> t.members[Slot(job)] == now + ttl && t.expireAt == now + ttl)
            && (forall x :: x in t.members && x != Slot(job) ==> t.members[x] == k.members[x])
  {
    PrunedCounts(k, now, 0);
  }

  /** A policy is asked about a job exactly if it is enabled and global, or for the job's queue, type or tenant. */
  lemma {:induction false} ApplicableExact(job: LimitedJob, policies: seq<Policy>, p: Policy)
    ensures p in Applicable(job, policies) <==>
              && p in policies && p.enabled
              && (p.scope == Global || p.scope == QueueScope(job.queue) || p.scope == TypeScope(job.jobType) || p.scope == TenantScope(job.tenant))
  {}

  /** Policies of different ids or modes have their own keys. */
  lemma KeysExact(p: Policy, q: Policy)
    ensures NameOf(p) == NameOf(q) <==> p.id == q.id && p.isRate == q.isRate
  {}

  /** What is left in a key once the call that asked it has been denied. */
  function AfterDenial(k: SortedKey, p: Policy, job: LimitedJob, ttl: int, now: int): SortedKey {
    var (k1, outcome) := Acquire(k, p, job, ttl, now);
    if outcome.Allowed? then Drop(k1, MemberOf(p, job)) else k1
  }

  /** Nothing but pruning remains, unless the policy had admitted a job that it already counted. */
  lemma AfterDenialExact(k: SortedKey, p: Policy, job: LimitedJob, ttl: int, now: int)
    ensures AfterDenial(k, p, job, ttl, now).members == Pruned(k, p, now)
       <==> !(MemberOf(p, job) in Pruned(k, p, now) && Acquire(k, p, job, ttl, now).1.Allowed?)
  {
    var m := Pruned(k, p, now);
    if Acquire(k, p, job, ttl, now).1.Allowed? {
      var score := if p.isRate then now else now + ttl;
      assert Acquire(k, p, job, ttl, now).0.members == m[MemberOf(p, job) := score];
      if MemberOf(p, job) !in m { assert Without(m[MemberOf(p, job) := score], MemberOf(p, job)) == m; }
    }
  }

  lemma DenialShape(k: SortedKey, p: Policy, job: LimitedJob, ttl: int, now: int)
    requires p.Valid() && Acquire(k, p, job, ttl, now).1.Denied?
    ensures var m := Pruned(k, p, now);
            && m != map[] && |m| >= p.limit && (!p.isRate ==> MemberOf(p, job) !in m)
            && Acquire(k, p, job, ttl, now) == (SortedKey(m, k.expireAt), Denied(Lowest(m) + (if p.isRate then p.Window() else 0)))
            && Acquire(k, p, job, ttl, now).1.retryAt > now
  {}

  /** Asked again later with no traffic in between, a policy that denied admits exactly from its own retry time on. */
  lemma DeniedReask(k: SortedKey, p: Policy, job: LimitedJob, attempts: int, ttl: int, now: int, later: int)
    requires p.Valid() && KeySound(k, p) && |Pruned(k, p, now)| <= p.limit && now <= later
    requires Acquire(k, p, job, ttl, now).1.Denied?
    ensures Acquire(AfterDenial(k, p, job, ttl, now), p, job.(attempts := attempts), ttl, later).1.Allowed?
       <==> later >= Acquire(k, p, job, ttl, now).1.retryAt
  {
    DenialShape(k, p, job, ttl, now);
    var m := Pruned(k, p, now);
    var width := if p.isRate then p.Window() else 0;
    var k1 := AfterDenial(k, p, job, ttl, now);
    assert k1 == SortedKey(m, k.expireAt);
    PruneShrinks(m, later - width);
    if later >= Lowest(m) + width {
      var x :| x in m && m[x] == Lowest(m);
    } else {
      assert Pruned(k1, p, later) == m by {
        var x :| x in m && m[x] == Lowest(m);
        assert x in k.members && k.members[x] == m[x];
      }
    }
  }

  lemma RoomAdmits(k: SortedKey, p: Policy, job: LimitedJob, ttl: int, now: int)
    requires p.Valid() && |k.members| < p.limit
    ensures Acquire(k, p, job, ttl, now).1.Allowed?
  {
    PruneShrinks(k.At(now), if p.isRate then now - p.Window() else now);
  }

  lemma PutThenDrop(m: map<Member, int>, x: Member, score: int)
    ensures Without(m[x := score], x) == Without(m, x)
    ensures |Without(m, x)| == |m| - (if x in m then 1 else 0)
  {
    var w := Without(m, x);
    if x in m { assert m.Keys == w.Keys + {x}; } else { assert w == m; }
  }

  lemma AllowedLeavesRoom(k: SortedKey, p: Policy, job: LimitedJob, ttl: int, now: int)
    requires |Pruned(k, p, now)| <= p.limit && Acquire(k, p, job, ttl, now).1.Allowed?
    ensures |AfterDenial(k, p, job, ttl, now).members| < p.limit
  {
    PutThenDrop(Pruned(k, p, now), MemberOf(p, job), if p.isRate then now else now + ttl);
  }

  /** A policy that allowed, and was rolled back, admits again at any time. */
  lemma AllowedReask(k: SortedKey, p: Policy, job: LimitedJob, attempts: int, ttl: int, now: int, later: int)
    requires p.Valid() && |Pruned(k, p, now)| <= p.limit
    requires Acquire(k, p, job, ttl, now).1.Allowed?
    ensures Acquire(AfterDenial(k, p, job, ttl, now), p, job.(attempts := attempts), ttl, later).1.Allowed?
  {
    AllowedLeavesRoom(k, p, job, ttl, now);
    RoomAdmits(AfterDenial(k, p, job, ttl, now), p, job.(attempts := attempts), ttl, later);
  }

  // ----- All policies -----

  ghost predicate DistinctNames(ps: seq<Policy>) {
    forall i, j :: 0 <= i < j < |ps| ==> NameOf(ps[i]) != NameOf(ps[j])
  }

  ghost predicate Mentions(ps: seq<Policy>, name: KeyName) {
    exists p :: p in ps && NameOf(p) == name
  }

  ghost predicate Allows(s: Store, p: Policy, job: LimitedJob, ttl: int, now: int) {
    Acquire(KeyOf(s, p), p, job, ttl, now).1.Allowed?
  }

  /** Each policy is asked once, on the key it had before the call. */
  ghost predicate AskedOnce(s: Store, t: Store, ps: seq<Policy>, job: LimitedJob, ttl: int, now: int) {
    && (forall p :: p in ps ==> KeyOf(t, p) == Acquire(KeyOf(s, p), p, job, ttl, now).0)
    && (forall q: Policy :: !Mentions(ps, NameOf(q)) ==> KeyOf(t, q) == KeyOf(s, q))
  }

  /** What each policy would say to the job if asked now. */
  ghost function Says(s: Store, job: LimitedJob, ttl: int, now: int): Policy -> Outcome {
    p => Acquire(KeyOf(s, p), p, job, ttl, now).1
  }

  /** The decision is the conjunction of the verdicts; its retry time is the latest any denial named. */
  ghost predicate Summarises(d: Decision, ps: seq<Policy>, says: Policy -> Outcome) {
    && (d.allowed <==> forall p :: p in ps ==> says(p).Allowed?)
    && (forall p {:trigger p in d.Held()} :: p in d.Held() <==> p in ps && says(p).Allowed?)
    && (d.allowed <==> d.retryAt.None?)
    && (d.retryAt.Some? ==>
          && (exists p :: p in ps && says(p) == Denied(d.retryAt.value))
          && (forall p :: p in ps && says(p).Denied? ==> says(p).retryAt <= d.retryAt.value))
  }

  lemma KeysAsked(s: Store, t: Store, d: Decision, ps: seq<Policy>, p: Policy, job: LimitedJob, ttl: int, now: int)
    requires AskedOnce(s, t, ps, job, ttl, now) && !Mentions(ps, NameOf(p))
    ensures AskedOnce(s, Ask(t, d, p, job, ttl, now).0, ps + [p], job, ttl, now)
  {
    var t1 := Ask(t, d, p, job, ttl, now).0;
    var qs := ps + [p];
    assert KeyOf(t, p) == KeyOf(s, p);
    forall q: Policy | !Mentions(qs, NameOf(q)) ensures KeyOf(t1, q) == KeyOf(s, q) {
      assert p in qs && NameOf(p) != NameOf(q);
      forall r | r in ps ensures NameOf(r) != NameOf(q) { assert r in qs; }
      assert !Mentions(ps, NameOf(q));
    }
    forall q | q in qs ensures KeyOf(t1, q) == Acquire(KeyOf(s, q), q, job, ttl, now).0 {
      if q in ps { assert NameOf(q) != NameOf(p); }
    }
  }

  lemma VerdictRecorded(d: Decision, ps: seq<Policy>, p: Policy, says: Policy -> Outcome)
    requires Summarises(d, ps, says)
    ensures Summarises(Record(d, p, says(p)), ps + [p], says)
  {
    var d1 := Record(d, p, says(p));
    var qs := ps + [p];
    assert forall q :: q in qs <==> q in ps || q == p;
    assert forall q :: q in d1.Held() <==> q in d.Held() || (q == p && says(p).Allowed?);
    if d.retryAt.Some? {
      var r :| r in ps && says(r) == Denied(d.retryAt.value);
      assert r in qs;
    }
    if says(p).Denied? { assert p in qs; }
  }

  lemma LastIsNew(ps: seq<Policy>)
    requires DistinctNames(ps) && ps != []
    ensures DistinctNames(ps[..|ps| - 1]) && !Mentions(ps[..|ps| - 1], NameOf(ps[|ps| - 1]))
  {
    var rest := ps[..|ps| - 1];
    forall q | q in rest ensures NameOf(q) != NameOf(ps[|ps| - 1]) { var i :| 0 <= i < |rest| && rest[i] == q; }
  }

  lemma {:induction false} AskAllKeys(s: Store, ps: seq<Policy>, job: LimitedJob, ttl: int, now: int)
    requires DistinctNames(ps)
    ensures AskedOnce(s, AskAll(s, ps, job, ttl, now).0, ps, job, ttl, now)
    decreases |ps|
  {
    if ps != [] {
      var rest, p := ps[..|ps| - 1], ps[|ps| - 1];
      LastIsNew(ps);
      AskAllKeys(s, rest, job, ttl, now);
      assert ps == rest + [p];
      var (t, d) := AskAll(s, rest, job, ttl, now);
      KeysAsked(s, t, d, rest, p, job, ttl, now);
    }
  }

  lemma AskAllLast(s: Store, ps: seq<Policy>, job: LimitedJob, ttl: int, now: int)
    requires DistinctNames(ps) && ps != []
    ensures var rest, p := ps[..|ps| - 1], ps[|ps| - 1];
            AskAll(s, ps, job, ttl, now).1 == Record(AskAll(s, rest, job, ttl, now).1, p, Says(s, job, ttl, now)(p))
  {
    var rest, p := ps[..|ps| - 1], ps[|ps| - 1];
    LastIsNew(ps);
    AskAllKeys(s, rest, job, ttl, now);
    assert KeyOf(AskAll(s, rest, job, ttl, now).0, p) == KeyOf(s, p);
  }

  /** Summarises, for a decision that records the policies one after the other. */
  lemma {:induction false} RecordsSummarise(ps: seq<Policy>, d: seq<Decision>, says: Policy -> Outcome)
    requires |d| == |ps| + 1 && d[0] == UNDECIDED
    requires forall i :: 0 <= i < |ps| ==> d[i + 1] == Record(d[i], ps[i], says(ps[i]))
    ensures Summarises(d[|ps|], ps, says)
    decreases |ps|
  {
    if ps != [] {
      var rest := ps[..|ps| - 1];
      RecordsSummarise(rest, d[..|d| - 1], says);
      VerdictRecorded(d[|rest|], rest, ps[|rest|], says);
      assert ps == rest + [ps[|rest|]];
    }
  }

  lemma AskAllVerdict(s: Store, ps: seq<Policy>, job: LimitedJob, ttl: int, now: int)
    requires DistinctNames(ps)
    ensures Summarises(AskAll(s, ps, job, ttl, now).1, ps, Says(s, job, ttl, now))
  {
    var d := seq(|ps| + 1, i requires 0 <= i <= |ps| => AskAll(s, ps[..i], job, ttl, now).1);
    forall i | 0 <= i < |ps| ensures d[i + 1] == Record(d[i], ps[i], Says(s, job, ttl, now)(ps[i])) {
      var qs := ps[..i + 1];
      assert qs[..|qs| - 1] == ps[..i];
      AskAllLast(s, qs, job, ttl, now);
    }
    assert ps[..|ps|] == ps;
    RecordsSummarise(ps, d, Says(s, job, ttl, now));
  }

  lemma AskAllOnce(s: Store, ps: seq<Policy>, job: LimitedJob, ttl: int, now: int)
    requires DistinctNames(ps)
    ensures AskedOnce(s, AskAll(s, ps, job, ttl, now).0, ps, job, ttl, now)
    ensures Summarises(AskAll(s, ps, job, ttl, now).1, ps, Says(s, job, ttl, now))
  {
    AskAllKeys(s, ps, job, ttl, now);
    AskAllVerdict(s, ps, job, ttl, now);
  }

  /** Undoing drops the job's member from exactly the keys named. */
  lemma {:induction false} UndoDrops(s: Store, held: seq<Policy>, job: LimitedJob, q: Policy)
    ensures KeyOf(Undo(s, held, job), q) == if Mentions(held, NameOf(q)) then Drop(KeyOf(s, q), MemberOf(q, job)) else KeyOf(s, q)
    decreases |held|
  {
    if held != [] {
      var rest, p := held[..|held| - 1], held[|held| - 1];
      assert held == rest + [p];
      UndoDrops(s, rest, job, q);
      assert Mentions(held, NameOf(q)) <==> Mentions(rest, NameOf(q)) || NameOf(p) == NameOf(q) by {
        assert forall r :: r in held <==> r in rest || r == p;
      }
      if NameOf(p) == NameOf(q) {
        var k := KeyOf(s, q);
        assert KeyOf(Undo(s, rest, job), p) == KeyOf(Undo(s, rest, job), q);
        var once := Drop(k, MemberOf(q, job)).members;
        assert Without(once, MemberOf(q, job)) == once;
      }
    }
  }

  /** Policies come from a table whose ids are a primary key. */
  ghost predicate DistinctIds(policies: seq<Policy>) {
    forall i, j :: 0 <= i < j < |policies| ==> policies[i].id != policies[j].id
  }

  lemma {:induction false} ApplicableDistinct(job: LimitedJob, policies: seq<Policy>)
    requires DistinctIds(policies)
    ensures DistinctNames(Applicable(job, policies))
    decreases |policies|
  {
    if policies != [] {
      var rest, last := policies[..|policies| - 1], policies[|policies| - 1];
      ApplicableDistinct(job, rest);
      forall p | p in Applicable(job, rest) ensures NameOf(p) != NameOf(last) {
        assert p in rest;
        var i :| 0 <= i < |rest| && policies[i] == p;
      }
    }
  }

  lemma {:induction false} ApplicableIgnoresAttempts(job: LimitedJob, policies: seq<Policy>, attempts: int)
    ensures Applicable(job.(attempts := attempts), policies) == Applicable(job, policies)
    decreases |policies|
  {
    if policies != [] { ApplicableIgnoresAttempts(job, policies[..|policies| - 1], attempts); }
  }

  lemma MentionsHeld(ps: seq<Policy>, held: seq<Policy>, p: Policy)
    requires DistinctNames(ps) && p in ps && forall q :: q in held ==> q in ps
    ensures Mentions(held, NameOf(p)) <==> p in held
  {
    if q :| q in held && NameOf(q) == NameOf(p) {
      var i :| 0 <= i < |ps| && ps[i] == p;
      var j :| 0 <= j < |ps| && ps[j] == q;
    }
  }

  lemma EvaluateUnstuck(s: Store, policies: seq<Policy>, job: LimitedJob, ttl: int, now: int)
    ensures EvaluateStuck(s, policies, job, ttl, now, {}) == Evaluate(s, policies, job, ttl, now)
  {}

  /** A denied evaluation leaves in each applicable key what AfterDenial says, or what was acquired if its rollback failed. */
  lemma DeniedEvaluation(s: Store, policies: seq<Policy>, job: LimitedJob, ttl: int, now: int, stuck: set<KeyName>, p: Policy)
    requires DistinctIds(policies) && p in Applicable(job, policies)
    requires !EvaluateStuck(s, policies, job, ttl, now, stuck).1.allowed
    ensures KeyOf(EvaluateStuck(s, policies, job, ttl, now, stuck).0, p)
         == if NameOf(p) in stuck then Acquire(KeyOf(s, p), p, job, ttl, now).0 else AfterDenial(KeyOf(s, p), p, job, ttl, now)
  {
    var ps := Applicable(job, policies);
    ApplicableDistinct(job, policies);
    AskAllOnce(s, ps, job, ttl, now);
    var (t, d) := AskAll(s, ps, job, ttl, now);
    MentionsHeld(ps, Undoable(d.Held(), stuck), p);
    UndoDrops(t, Undoable(d.Held(), stuck), job, p);
  }

  /** Acquiring a member leaves a key as pruning alone would only if that member was there already, with that very score. */
  lemma AcquiredExact(k: SortedKey, p: Policy, job: LimitedJob, ttl: int, now: int)
    ensures var m := Pruned(k, p, now);
            Acquire(k, p, job, ttl, now).0.members == m
            <==> (Acquire(k, p, job, ttl, now).1.Allowed? ==> MemberOf(p, job) in m && m[MemberOf(p, job)] == Score(p, ttl, now))
  {
    var m := Pruned(k, p, now);
    if Acquire(k, p, job, ttl, now).1.Allowed? {
      assert Acquire(k, p, job, ttl, now).0.members == m[MemberOf(p, job) := Score(p, ttl, now)];
    }
  }

  function Score(p: Policy, ttl: int, now: int): int { if p.isRate then now else now + ttl }

  /**
   * Clean denial: a denied evaluation leaves an applicable key as pruning alone would exactly when that policy denied
   * too, or admitted a job it was not counting and the rollback took effect. Otherwise the job's member stays (unless
   * it was there with the same score before) or, like a slot that outlived a lost lease, goes although it was there.
   */
  lemma DenialIsClean(s: Store, policies: seq<Policy>, job: LimitedJob, ttl: int, now: int, stuck: set<KeyName>, p: Policy)
    requires DistinctIds(policies) && p in Applicable(job, policies)
    requires !EvaluateStuck(s, policies, job, ttl, now, stuck).1.allowed
    ensures var m := Pruned(KeyOf(s, p), p, now);
            KeyOf(EvaluateStuck(s, policies, job, ttl, now, stuck).0, p).members == m
            <==> (Allows(s, p, job, ttl, now) ==>
                    if NameOf(p) in stuck then MemberOf(p, job) in m && m[MemberOf(p, job)] == Score(p, ttl, now) else MemberOf(p, job) !in m)
  {
    DeniedEvaluation(s, policies, job, ttl, now, stuck, p);
    AfterDenialExact(KeyOf(s, p), p, job, ttl, now);
    AcquiredExact(KeyOf(s, p), p, job, ttl, now);
  }

  /** A denied evaluation takes away any slot the job held before. */
  lemma HeldSlotIsDropped(s: Store, policies: seq<Policy>, job: LimitedJob, ttl: int, now: int, p: Policy)
    requires DistinctIds(policies) && p in Applicable(job, policies) && !p.isRate
    requires !Evaluate(s, policies, job, ttl, now).1.allowed && Slot(job.id) in Pruned(KeyOf(s, p), p, now)
    ensures Slot(job.id) !in KeyOf(Evaluate(s, policies, job, ttl, now).0, p).members
  {
    EvaluateUnstuck(s, policies, job, ttl, now);
    DeniedEvaluation(s, policies, job, ttl, now, {}, p);
  }

  function OneSlot(id: string): Policy { Policy(id, Global, false, 1, 30, true) }

  function TakenBy(job: Id): SortedKey { SortedKey(map[Slot(job) := 100], 100) }

  lemma TakenByAnother(p: Policy, job: LimitedJob, other: Id)
    requires p == OneSlot(p.id) && other != job.id
    ensures Acquire(TakenBy(other), p, job, 30, 0).1.Denied?
  {
    assert Prune(TakenBy(other).At(0), 0) == map[Slot(other) := 100];
  }

  /**
   * A job that holds the one slot of policy "a" until 100, evaluated at time 0 while another job holds the one slot of
   * policy "b": the evaluation is denied, and the job's slot is gone.
   */
  lemma DenialCostsASlot(job: LimitedJob, other: Id)
    requires other != job.id
    ensures var s: Store := map[SlotKey("a") := TakenBy(job.id), SlotKey("b") := TakenBy(other)];
            var (after, d) := Evaluate(s, [OneSlot("a"), OneSlot("b")], job, 30, 0);
            !d.allowed && Slot(job.id) in KeyOf(s, OneSlot("a")).members && Slot(job.id) !in KeyOf(after, OneSlot("a")).members
  {
    var s: Store := map[SlotKey("a") := TakenBy(job.id), SlotKey("b") := TakenBy(other)];
    var a, b := OneSlot("a"), OneSlot("b");
    assert a in [a, b] && b in [a, b];
    TakenByAnother(b, job, other);
    Verdict(s, [a, b], job, 30, 0);
    assert Says(s, job, 30, 0)(b).Denied?;
    HeldSlotIsDropped(s, [a, b], job, 30, 0, a);
  }

  /** An allowed evaluation leaves the job counted by every applicable policy, from now or for the TTL. */
  lemma AllowedIsCounted(s: Store, policies: seq<Policy>, job: LimitedJob, ttl: int, now: int, p: Policy)
    requires DistinctIds(policies) && p in Applicable(job, policies) && Evaluate(s, policies, job, ttl, now).1.allowed
    ensures var m := KeyOf(Evaluate(s, policies, job, ttl, now).0, p).members;
            if p.isRate then Admission(job.id, job.attempts) in m && m[Admission(job.id, job.attempts)] == now
            else Slot(job.id) in m && m[Slot(job.id)] == now + ttl
  {
    ApplicableDistinct(job, policies);
    AskAllOnce(s, Applicable(job, policies), job, ttl, now);
    assert Says(s, job, ttl, now)(p).Allowed?;
  }

  lemma PrefixMentions(ps: seq<Policy>, n: nat, p: Policy)
    requires DistinctNames(ps) && p in ps && n <= |ps|
    ensures DistinctNames(ps[..n])
    ensures Mentions(ps[..n], NameOf(p)) <==> p in ps[..n]
  {
    forall q | q in ps[..n] && NameOf(q) == NameOf(p) ensures q == p {
      var i :| 0 <= i < n && ps[..n][i] == q;
      var j :| 0 <= j < |ps| && ps[j] == p;
      assert ps[i] == q;
    }
  }

  /** What an evaluation that ends with an error leaves in the key of policy `p`. */
  function AfterFault(s: Store, ps: seq<Policy>, job: LimitedJob, ttl: int, now: int, fault: Fault, stuck: set<KeyName>, p: Policy): SortedKey
    requires fault.at < |ps|
  {
    var k := KeyOf(s, p);
    if p in ps[..fault.at] then
      if NameOf(p) in stuck then Acquire(k, p, job, ttl, now).0 else AfterDenial(k, p, job, ttl, now)
    else if fault.applied && p == ps[fault.at] then Acquire(k, p, job, ttl, now).0
    else k
  }

  lemma FaultyEvaluation(s: Store, policies: seq<Policy>, job: LimitedJob, ttl: int, now: int, fault: Fault, stuck: set<KeyName>, p: Policy)
    requires DistinctIds(policies) && p in Applicable(job, policies) && fault.at < |Applicable(job, policies)|
    ensures KeyOf(EvaluateFaulty(s, policies, job, ttl, now, fault, stuck), p) == AfterFault(s, Applicable(job, policies), job, ttl, now, fault, stuck, p)
  {
    var ps := Applicable(job, policies);
    var asked, hit := ps[..fault.at], ps[fault.at];
    ApplicableDistinct(job, policies);
    PrefixMentions(ps, fault.at, p);
    PrefixMentions(ps, fault.at, hit);
    AskAllOnce(s, asked, job, ttl, now);
    var (t, d) := AskAll(s, asked, job, ttl, now);
    HitIsNew(ps, fault.at);
    assert KeyOf(t, hit) == KeyOf(s, hit);
    SameName(ps, p, hit);
    var t2 := if fault.applied then Ask(t, d, hit, job, ttl, now).0 else t;
    UndoDrops(t2, Undoable(d.Held(), stuck), job, p);
    UndoableMentioned(asked, d.Held(), stuck, p);
  }

  lemma HitIsNew(ps: seq<Policy>, at: nat)
    requires DistinctNames(ps) && at < |ps|
    ensures ps[at] !in ps[..at]
  {
    forall i | 0 <= i < at ensures ps[..at][i] != ps[at] { assert NameOf(ps[i]) != NameOf(ps[at]); }
  }

  lemma SameName(ps: seq<Policy>, p: Policy, q: Policy)
    requires DistinctNames(ps) && p in ps && q in ps
    ensures NameOf(p) == NameOf(q) ==> p == q
  {
    var i :| 0 <= i < |ps| && ps[i] == p;
    var j :| 0 <= j < |ps| && ps[j] == q;
  }

  /** A rollback reaches the key of an acquired policy unless it is stuck, and never that of a policy not asked before. */
  lemma UndoableMentioned(asked: seq<Policy>, held: seq<Policy>, stuck: set<KeyName>, p: Policy)
    requires DistinctNames(asked) && (forall q :: q in held ==> q in asked) && (Mentions(asked, NameOf(p)) <==> p in asked)
    ensures Mentions(Undoable(held, stuck), NameOf(p)) <==> p in held && NameOf(p) !in stuck
  {
    if p in asked {
      MentionsHeld(asked, Undoable(held, stuck), p);
    } else if q :| q in Undoable(held, stuck) && NameOf(q) == NameOf(p) {
      assert Mentions(asked, NameOf(p));
    }
  }

  lemma NewMember(k: SortedKey, p: Policy, job: LimitedJob, ttl: int, now: int)
    requires MemberOf(p, job) !in k.members
    ensures MemberOf(p, job) in Acquire(k, p, job, ttl, now).0.members <==> Acquire(k, p, job, ttl, now).1.Allowed?
    ensures MemberOf(p, job) !in AfterDenial(k, p, job, ttl, now).members
  {}

  lemma NewAfterFault(s: Store, ps: seq<Policy>, job: LimitedJob, ttl: int, now: int, fault: Fault, stuck: set<KeyName>, p: Policy)
    requires fault.at < |ps| && ps[fault.at] !in ps[..fault.at] && MemberOf(p, job) !in KeyOf(s, p).members
    ensures MemberOf(p, job) in AfterFault(s, ps, job, ttl, now, fault, stuck, p).members
       <==> Allows(s, p, job, ttl, now) && ((p in ps[..fault.at] && NameOf(p) in stuck) || (fault.applied && p == ps[fault.at]))
  {
    NewMember(KeyOf(s, p), p, job, ttl, now);
  }

  /**
   * An evaluation that ends with an error leaves a new member in a key exactly if that policy admitted the job, and
   * either its rollback failed too or its script was the one that took effect without an answer.
   */
  lemma FaultIsExact(s: Store, policies: seq<Policy>, job: LimitedJob, ttl: int, now: int, fault: Fault, stuck: set<KeyName>, p: Policy)
    requires DistinctIds(policies) && p in Applicable(job, policies) && fault.at < |Applicable(job, policies)|
    requires MemberOf(p, job) !in KeyOf(s, p).members
    ensures var ps := Applicable(job, policies);
            MemberOf(p, job) in KeyOf(EvaluateFaulty(s, policies, job, ttl, now, fault, stuck), p).members
            <==> Allows(s, p, job, ttl, now) && ((p in ps[..fault.at] && NameOf(p) in stuck) || (fault.applied && p == ps[fault.at]))
  {
    ApplicableDistinct(job, policies);
    HitIsNew(Applicable(job, policies), fault.at);
    FaultyEvaluation(s, policies, job, ttl, now, fault, stuck, p);
    NewAfterFault(s, Applicable(job, policies), job, ttl, now, fault, stuck, p);
  }

  /** Apart from those keys the error is clean: the job's member is gone, or it is where it was before the call. */
  lemma FaultIsClean(s: Store, policies: seq<Policy>, job: LimitedJob, ttl: int, now: int, fault: Fault, stuck: set<KeyName>, p: Policy)
    requires DistinctIds(policies) && p in Applicable(job, policies) && fault.at < |Applicable(job, policies)|
    requires NameOf(p) !in stuck && !(fault.applied && p == Applicable(job, policies)[fault.at])
    ensures var m, m' := KeyOf(s, p).members, KeyOf(EvaluateFaulty(s, policies, job, ttl, now, fault, stuck), p).members;
            MemberOf(p, job) in m' ==> MemberOf(p, job) in m && m'[MemberOf(p, job)] == m[MemberOf(p, job)]
  {
    FaultyEvaluation(s, policies, job, ttl, now, fault, stuck, p);
    AfterDenialAbsent(KeyOf(s, p), p, job, ttl, now);
  }

  lemma AfterDenialAbsent(k: SortedKey, p: Policy, job: LimitedJob, ttl: int, now: int)
    ensures var m, m' := k.members, AfterDenial(k, p, job, ttl, now).members;
            MemberOf(p, job) in m' ==> MemberOf(p, job) in m && m'[MemberOf(p, job)] == m[MemberOf(p, job)]
  {}

  /** What the limiter's own operations maintain in every key (see LimiterRuns). */
  ghost predicate Fit(s: Store, ps: seq<Policy>, now: int) {
    forall p :: p in ps ==> p.Valid() && KeySound(KeyOf(s, p), p) && |Pruned(KeyOf(s, p), p, now)| <= p.limit
  }

  lemma Reask(s: Store, policies: seq<Policy>, job: LimitedJob, attempts: int, ttl: int, now: int, later: int, p: Policy)
    requires DistinctIds(policies) && p in Applicable(job, policies) && Fit(s, Applicable(job, policies), now) && now <= later
    requires !Evaluate(s, policies, job, ttl, now).1.allowed
    ensures Allows(Evaluate(s, policies, job, ttl, now).0, p, job.(attempts := attempts), ttl, later)
       <==> Allows(s, p, job, ttl, now) || later >= Acquire(KeyOf(s, p), p, job, ttl, now).1.retryAt
  {
    EvaluateUnstuck(s, policies, job, ttl, now);
    DeniedEvaluation(s, policies, job, ttl, now, {}, p);
    if Allows(s, p, job, ttl, now) { AllowedReask(KeyOf(s, p), p, job, attempts, ttl, now, later); }
    else { DeniedReask(KeyOf(s, p), p, job, attempts, ttl, now, later); }
  }

  lemma Verdict(s: Store, policies: seq<Policy>, job: LimitedJob, ttl: int, now: int)
    requires DistinctIds(policies)
    ensures Summarises(Evaluate(s, policies, job, ttl, now).1, Applicable(job, policies), Says(s, job, ttl, now))
  {
    ApplicableDistinct(job, policies);
    AskAllOnce(s, Applicable(job, policies), job, ttl, now);
  }

  /**
   * The retry time is exact: with no other traffic, evaluating the job again, on whatever attempt, is allowed by
   * every policy from the decision's retry time on, and denied at any time before it. It lies in the future.
   */
  lemma RetryTimeIsExact(s: Store, policies: seq<Policy>, job: LimitedJob, attempts: int, ttl: int, now: int, later: int)
    requires DistinctIds(policies) && Fit(s, Applicable(job, policies), now) && now <= later
    requires !Evaluate(s, policies, job, ttl, now).1.allowed
    ensures var (t, d) := Evaluate(s, policies, job, ttl, now);
            && d.retryAt.Some? && d.retryAt.value > now
            && (Evaluate(t, policies, job.(attempts := attempts), ttl, later).1.allowed <==> later >= d.retryAt.value)
  {
    var ps, again := Applicable(job, policies), job.(attempts := attempts);
    var (t, d) := Evaluate(s, policies, job, ttl, now);
    ApplicableIgnoresAttempts(job, policies, attempts);
    Verdict(s, policies, job, ttl, now);
    Verdict(t, policies, again, ttl, later);
    var says := Says(s, job, ttl, now);
    var worst :| worst in ps && says(worst) == Denied(d.retryAt.value);
    DenialShape(KeyOf(s, worst), worst, job, ttl, now);
    Reask(s, policies, job, attempts, ttl, now, later, worst);
    if later >= d.retryAt.value {
      forall p | p in ps ensures Allows(t, p, again, ttl, later) {
        Reask(s, policies, job, attempts, ttl, now, later, p);
        assert says(p) == Acquire(KeyOf(s, p), p, job, ttl, now).1;
      }
    }
  }
}
