/** Cron dispatch: any number of schedulers list a due schedule, claim its slot, enqueue a job and move the schedule on. */
module Cron {
  import opened Redis

  const CLAIM_TTL := 24 * 60 * 60 * 1000

  // ----- One scheduler's pass over the due schedules -----

  datatype Schedule = Schedule(id: Id, nextRunAt: int)
  datatype Slot = Slot(schedule: Id, at: int)

  function Claimable(claims: map<Slot, int>, slot: Slot, now: int): bool {
    slot !in claims || now > claims[slot]
  }

  class Dispatcher {
    var claims: map<Slot, int>
    var nextRunAt: map<Id, int>
    var enqueued: seq<Slot>

    constructor ()
      ensures claims == map[] && nextRunAt == map[] && enqueued == []
    {
      claims, nextRunAt, enqueued := map[], map[], [];
    }

    /** One schedule of a pass. */
    method Dispatch(schedule: Schedule, now: int, outcome: Outcome, next: int -> int)
      modifies this
      ensures var slot := Slot(schedule.id, schedule.nextRunAt);
              var claimed := !outcome.ClaimFails? && Claimable(old(claims), slot, now);
              && claims == (if claimed then old(claims)[slot := now + CLAIM_TTL] else old(claims))
              && enqueued == old(enqueued) + (if claimed && !outcome.EnqueueFails? then [slot] else [])
              && nextRunAt == (if claimed && outcome.AllSucceed? then old(nextRunAt)[schedule.id := next(now)] else old(nextRunAt))
    {
      var slot := Slot(schedule.id, schedule.nextRunAt);
      if outcome.ClaimFails? { return; }
      if !Claimable(claims, slot, now) { return; }
      claims := claims[slot := now + CLAIM_TTL];
      if outcome.EnqueueFails? { return; }
      enqueued := enqueued + [slot];
      if outcome.UpdateFails? { return; }
      nextRunAt := nextRunAt[schedule.id := next(now)];
    }

    /**
     * `due` is the list read at `now`, each schedule once, and `outcome` says which call fails for which schedule. Every
     * free slot is claimed unless the claim fails; the claimed ones whose enqueue succeeds are enqueued, in order; and
     * of those, the schedules whose next run can be computed and stored move on, and no others.
     */
    method RunDueSchedules(due: seq<Schedule>, now: int, outcome: Id -> Outcome, next: int -> int)
      requires forall i, j :: 0 <= i < j < |due| ==> due[i].id != due[j].id
      modifies this
      ensures enqueued == old(enqueued) + Sent(due, old(claims), now, outcome)
      ensures forall slot :: slot in claims && claims[slot] != now + CLAIM_TTL ==> slot in old(claims) && claims[slot] == old(claims)[slot]
      ensures forall i :: 0 <= i < |due| && !outcome(due[i].id).ClaimFails? ==>
                var slot := Slot(due[i].id, due[i].nextRunAt);
                slot in claims && (Claimable(old(claims), slot, now) ==> claims[slot] == now + CLAIM_TTL)
      ensures forall id :: id in nextRunAt && (id !in old(nextRunAt) || nextRunAt[id] != old(nextRunAt)[id]) ==>
                nextRunAt[id] == next(now) && exists i :: 0 <= i < |due| && due[i].id == id && Moves(due[i], old(claims), now, outcome)
      ensures forall i :: 0 <= i < |due| && Moves(due[i], old(claims), now, outcome) ==> due[i].id in nextRunAt && nextRunAt[due[i].id] == next(now)
    {
      ghost var claims0, next0 := claims, nextRunAt;
      for n := 0 to |due|
        invariant enqueued == old(enqueued) + Sent(due[..n], claims0, now, outcome)
        invariant forall i :: n <= i < |due| ==>
                    Claimable(claims, Slot(due[i].id, due[i].nextRunAt), now) == Claimable(claims0, Slot(due[i].id, due[i].nextRunAt), now)
        invariant forall slot :: slot in claims && claims[slot] != now + CLAIM_TTL ==> slot in claims0 && claims[slot] == claims0[slot]
        invariant forall i :: 0 <= i < n && !outcome(due[i].id).ClaimFails? ==>
                    var slot := Slot(due[i].id, due[i].nextRunAt);
                    slot in claims && (Claimable(claims0, slot, now) ==> claims[slot] == now + CLAIM_TTL)
        invariant forall id :: id in nextRunAt && (id !in next0 || nextRunAt[id] != next0[id]) ==>
                    nextRunAt[id] == next(now) && exists i :: 0 <= i < n && due[i].id == id && Moves(due[i], claims0, now, outcome)
        invariant forall i :: 0 <= i < n && Moves(due[i], claims0, now, outcome) ==> due[i].id in nextRunAt && nextRunAt[due[i].id] == next(now)
      {
        assert due[..n + 1][..n] == due[..n];
        Dispatch(due[n], now, outcome(due[n].id), next);
      }
      assert due[..|due|] == due;
    }
  }

  /**
   * How the calls for one schedule end. A claim that takes effect but whose reply is lost ends like a failing enqueue;
   * UpdateFails stands for a next run that cannot be computed or stored.
   */
  datatype Outcome = AllSucceed | ClaimFails | EnqueueFails | UpdateFails

  predicate Sends(schedule: Schedule, claims: map<Slot, int>, now: int, outcome: Id -> Outcome) {
    Claimable(claims, Slot(schedule.id, schedule.nextRunAt), now) && (outcome(schedule.id).AllSucceed? || outcome(schedule.id).UpdateFails?)
  }

  predicate Moves(schedule: Schedule, claims: map<Slot, int>, now: int, outcome: Id -> Outcome) {
    Sends(schedule, claims, now, outcome) && outcome(schedule.id).AllSucceed?
  }

  function Sent(due: seq<Schedule>, claims: map<Slot, int>, now: int, outcome: Id -> Outcome): seq<Slot> {
    if due == [] then []
    else
      var last := due[|due| - 1];
      var sent := Sent(due[..|due| - 1], claims, now, outcome);
      if Sends(last, claims, now, outcome) then sent + [Slot(last.id, last.nextRunAt)] else sent
  }

  /** A slot can be claimed unless somebody claimed it within the last 24 hours. */
  lemma ClaimableExact(claims: map<Slot, int>, slot: Slot, claimed: int, now: int)
    ensures Claimable(claims[slot := claimed + CLAIM_TTL], slot, now) <==> now > claimed + 86_400_000
    ensures slot !in claims ==> Claimable(claims, slot, now)
  {}

  /** A pass enqueues the slots of the listed schedules that nobody holds and whose calls get that far. */
  lemma {:induction false} SentExact(due: seq<Schedule>, claims: map<Slot, int>, now: int, outcome: Id -> Outcome)
    ensures forall slot :: slot in Sent(due, claims, now, outcome) <==> AnyDue(due, slot, claims, now, outcome)
    decreases |due|
  {
    if due != [] {
      var rest := due[..|due| - 1];
      SentExact(rest, claims, now, outcome);
      forall slot ensures slot in Sent(due, claims, now, outcome) <==> AnyDue(due, slot, claims, now, outcome) {
        SentLast(due, rest, claims, now, outcome, slot);
      }
    }
  }

  /** The slot is this schedule's, nobody holds it, and claim and enqueue succeed. */
  predicate Due(schedule: Schedule, slot: Slot, claims: map<Slot, int>, now: int, outcome: Id -> Outcome) {
    && slot == Slot(schedule.id, schedule.nextRunAt) && (slot !in claims || now > claims[slot])
    && outcome(schedule.id) != ClaimFails && outcome(schedule.id) != EnqueueFails
  }

  ghost predicate AnyDue(due: seq<Schedule>, slot: Slot, claims: map<Slot, int>, now: int, outcome: Id -> Outcome) {
    exists i :: 0 <= i < |due| && Due(due[i], slot, claims, now, outcome)
  }

  lemma AnyDueLast(rest: seq<Schedule>, last: Schedule, slot: Slot, claims: map<Slot, int>, now: int, outcome: Id -> Outcome)
    ensures AnyDue(rest + [last], slot, claims, now, outcome) <==> AnyDue(rest, slot, claims, now, outcome) || Due(last, slot, claims, now, outcome)
  {
    var due := rest + [last];
    if i :| 0 <= i < |rest| && Due(rest[i], slot, claims, now, outcome) { assert Due(due[i], slot, claims, now, outcome); }
    if Due(last, slot, claims, now, outcome) { assert Due(due[|rest|], slot, claims, now, outcome); }
  }

  lemma SentLast(due: seq<Schedule>, rest: seq<Schedule>, claims: map<Slot, int>, now: int, outcome: Id -> Outcome, slot: Slot)
    requires due != [] && rest == due[..|due| - 1]
    requires slot in Sent(rest, claims, now, outcome) <==> AnyDue(rest, slot, claims, now, outcome)
    ensures slot in Sent(due, claims, now, outcome) <==> AnyDue(due, slot, claims, now, outcome)
  {
    var last := due[|due| - 1];
    assert due == rest + [last];
    AnyDueLast(rest, last, slot, claims, now, outcome);
    SendsExact(last, slot, claims, now, outcome);
  }

  lemma SendsExact(schedule: Schedule, slot: Slot, claims: map<Slot, int>, now: int, outcome: Id -> Outcome)
    ensures Sends(schedule, claims, now, outcome) && slot == Slot(schedule.id, schedule.nextRunAt) <==> Due(schedule, slot, claims, now, outcome)
    ensures Moves(schedule, claims, now, outcome) <==> Due(schedule, Slot(schedule.id, schedule.nextRunAt), claims, now, outcome) && outcome(schedule.id) == AllSucceed
  {}

  // ----- Many schedulers, one schedule -----

  /** Where one scheduler is in its pass; `listed` is the time its list was read, which it also uses to compute the next run. */
  datatype Pc =
    | Idle
    | Listed(slot: int, listed: int)
    | Claimed(slot: int, listed: int, claimed: int)
    | Enqueued(slot: int, listed: int, claimed: int)
  {
    predicate Holds() { Claimed? || Enqueued? }
  }

  /** A job enqueued for a slot, with the time of the claim it was enqueued under. */
  datatype Dispatch = Dispatch(slot: int, claimed: int)

  datatype State = State(nextRunAt: int, claims: map<int, int>, pcs: seq<Pc>, log: seq<Dispatch>, last: int)

  datatype Event =
    | List(w: nat, now: int)
    | Claim(w: nat, now: int)
    | Enqueue(w: nat, now: int)
    | Update(w: nat, now: int)
    | GiveUp(w: nat, now: int)  // an enqueue or an update fails, or the process stops

  /** A pass, from its list to its last write, lasts no longer than `longest`. */
  predicate InTime(pc: Pc, now: int, longest: int) {
    pc.Idle? || now - pc.listed <= longest
  }

  predicate Legal(s: State, e: Event, longest: int) {
    && e.w < |s.pcs| && s.last <= e.now
    && match e
       case List(w, now) => s.pcs[w].Idle? && s.nextRunAt <= now
       case Claim(w, now) => s.pcs[w].Listed? && InTime(s.pcs[w], now, longest)
       case Enqueue(w, now) => s.pcs[w].Claimed? && InTime(s.pcs[w], now, longest)
       case Update(w, now) => s.pcs[w].Enqueued? && InTime(s.pcs[w], now, longest)
       case GiveUp(w, now) => true
  }

  function Next(s: State, e: Event, next: int -> int): State
    requires e.w < |s.pcs| && (e.Claim? ==> s.pcs[e.w].Listed?) && (e.Enqueue? ==> s.pcs[e.w].Claimed?) && (e.Update? ==> s.pcs[e.w].Enqueued?)
  {
    match e
    case List(w, now) => s.(pcs := s.pcs[w := Listed(s.nextRunAt, now)], last := now)
    case Claim(w, now) =>
      var pc := s.pcs[w];
      if pc.slot in s.claims && now <= s.claims[pc.slot] then s.(pcs := s.pcs[w := Idle], last := now)
      else s.(pcs := s.pcs[w := Claimed(pc.slot, pc.listed, now)], claims := s.claims[pc.slot := now + CLAIM_TTL], last := now)
    case Enqueue(w, now) =>
      var pc := s.pcs[w];
      s.(pcs := s.pcs[w := Enqueued(pc.slot, pc.listed, pc.claimed)], log := s.log + [Dispatch(pc.slot, pc.claimed)], last := now)
    case Update(w, now) => s.(pcs := s.pcs[w := Idle], nextRunAt := next(s.pcs[w].listed), last := now)
    case GiveUp(w, now) => s.(pcs := s.pcs[w := Idle], last := now)
  }

  ghost predicate IsRun(states: seq<State>, events: seq<Event>, next: int -> int, longest: int) {
    && |states| == |events| + 1
    && states[0].claims == map[] && states[0].log == [] && (forall w :: 0 <= w < |states[0].pcs| ==> states[0].pcs[w].Idle?)
    && forall i {:trigger events[i]} :: 0 <= i < |events| ==> Legal(states[i], events[i], longest) && states[i + 1] == Next(states[i], events[i], next)
  }

  // ----- Each slot once -----

  predicate FarApart(a: int, b: int) { a + CLAIM_TTL < b || b + CLAIM_TTL < a }

  /** Claims on one slot are more than a TTL apart, and each is enqueued under at most once. */
  ghost predicate ClaimsApart(s: State) {
    && (forall w :: 0 <= w < |s.pcs| && s.pcs[w].Holds() ==> s.pcs[w].slot in s.claims && s.pcs[w].claimed + CLAIM_TTL <= s.claims[s.pcs[w].slot])
    && (forall i :: 0 <= i < |s.log| ==> s.log[i].slot in s.claims && s.log[i].claimed + CLAIM_TTL <= s.claims[s.log[i].slot])
    && (forall v, w :: 0 <= v < w < |s.pcs| && s.pcs[v].Holds() && s.pcs[w].Holds() && s.pcs[v].slot == s.pcs[w].slot ==>
          FarApart(s.pcs[v].claimed, s.pcs[w].claimed))
    && (forall i, j :: 0 <= i < j < |s.log| && s.log[i].slot == s.log[j].slot ==> FarApart(s.log[i].claimed, s.log[j].claimed))
    && (forall i, w :: 0 <= i < |s.log| && 0 <= w < |s.pcs| && s.pcs[w].Claimed? && s.log[i].slot == s.pcs[w].slot ==>
          FarApart(s.log[i].claimed, s.pcs[w].claimed))
  }

  lemma ClaimApart(s: State, w: nat, now: int, next: int -> int, longest: int)
    requires Legal(s, Claim(w, now), longest) && ClaimsApart(s)
    ensures ClaimsApart(Next(s, Claim(w, now), next))
  {}

  lemma EnqueueApart(s: State, w: nat, now: int, next: int -> int, longest: int)
    requires Legal(s, Enqueue(w, now), longest) && ClaimsApart(s)
    ensures ClaimsApart(Next(s, Enqueue(w, now), next))
  {}

  lemma ApartStep(s: State, e: Event, next: int -> int, longest: int)
    requires Legal(s, e, longest) && ClaimsApart(s)
    ensures ClaimsApart(Next(s, e, next))
  {
    match e
    case Claim(w, now) => ClaimApart(s, w, now, next, longest);
    case Enqueue(w, now) => EnqueueApart(s, w, now, next, longest);
    case _ =>
  }

  /** Any two jobs enqueued for one slot were enqueued under claims more than 24 hours apart, however many leaders there were. */
  lemma {:induction false} EachSlotOncePerDay(states: seq<State>, events: seq<Event>, next: int -> int, longest: int, n: nat)
    requires IsRun(states, events, next, longest) && n <= |events|
    ensures ClaimsApart(states[n])
    ensures forall i, j :: 0 <= i < j < |states[n].log| && states[n].log[i].slot == states[n].log[j].slot ==>
              FarApart(states[n].log[i].claimed, states[n].log[j].claimed)
  {
    if n > 0 {
      EachSlotOncePerDay(states, events, next, longest, n - 1);
      ApartStep(states[n - 1], events[n - 1], next, longest);
    }
  }

  /** So within 24 hours of a claim, no second job is enqueued for its slot. */
  lemma NoSecondJobWithinADay(states: seq<State>, events: seq<Event>, next: int -> int, longest: int, n: nat, i: nat, j: nat)
    requires IsRun(states, events, next, longest) && n <= |events| && i < |states[n].log| && j < |states[n].log| && i != j
    requires states[n].log[i].slot == states[n].log[j].slot
    ensures states[n].log[j].claimed > states[n].log[i].claimed + 86_400_000 || states[n].log[i].claimed > states[n].log[j].claimed + 86_400_000
  {
    EachSlotOncePerDay(states, events, next, longest, n);
  }

  // ----- Every completed dispatch moves the schedule forward -----

  /**
   * While its pass lasts, a scheduler holding a claim holds it on the schedule's current slot, and a scheduler whose
   * listed slot has been dispatched in the meantime will find it claimed.
   */
  ghost predicate Current(s: State, longest: int) {
    forall w :: 0 <= w < |s.pcs| ==>
      var pc := s.pcs[w];
      && (!pc.Idle? ==> pc.slot <= pc.listed <= s.last)
      && (pc.Holds() ==> pc.listed <= pc.claimed <= s.last && (InTime(pc, s.last, longest) ==> pc.slot == s.nextRunAt))
      && (pc.Listed? && pc.slot != s.nextRunAt ==> pc.slot in s.claims && pc.listed + longest <= s.claims[pc.slot])
  }

  lemma UpdateKeepsCurrent(s: State, w: nat, now: int, next: int -> int, longest: int)
    requires Legal(s, Update(w, now), longest) && ClaimsApart(s) && Current(s, longest) && 2 * longest <= CLAIM_TTL
    ensures Current(Next(s, Update(w, now), next), longest)
  {
    assert InTime(s.pcs[w], s.last, longest);
    assert forall v :: 0 <= v < |s.pcs| && v != w && s.pcs[v].Holds() ==> !InTime(s.pcs[v], now, longest);
  }

  lemma CurrentStep(s: State, e: Event, next: int -> int, longest: int)
    requires Legal(s, e, longest) && ClaimsApart(s) && Current(s, longest) && 2 * longest <= CLAIM_TTL
    ensures Current(Next(s, e, next), longest)
  {
    if e.Update? { UpdateKeepsCurrent(s, e.w, e.now, next, longest); }
  }

  lemma {:induction false} CurrentHolds(states: seq<State>, events: seq<Event>, next: int -> int, longest: int, n: nat)
    requires IsRun(states, events, next, longest) && n <= |events| && 2 * longest <= CLAIM_TTL
    ensures Current(states[n], longest)
  {
    if n > 0 {
      CurrentHolds(states, events, next, longest, n - 1);
      EachSlotOncePerDay(states, events, next, longest, n - 1);
      CurrentStep(states[n - 1], events[n - 1], next, longest);
    }
  }

  /** In every run with such passes, every completed dispatch strictly advances next_run_at, and nothing else moves it. */
  ghost predicate AlwaysAdvances(longest: int) {
    forall states: seq<State>, events: seq<Event>, next: int -> int, n: nat {:trigger IsRun(states, events, next, longest), events[n]} ::
      IsRun(states, events, next, longest) && n < |events| && (forall t :: next(t) > t) ==>
        if events[n].Update? then states[n + 1].nextRunAt > states[n].nextRunAt else states[n + 1].nextRunAt == states[n].nextRunAt
  }

  lemma DispatchAdvances(states: seq<State>, events: seq<Event>, next: int -> int, longest: int, n: nat)
    requires IsRun(states, events, next, longest) && n < |events| && (forall t :: next(t) > t) && 2 * longest <= CLAIM_TTL
    ensures if events[n].Update? then states[n + 1].nextRunAt > states[n].nextRunAt else states[n + 1].nextRunAt == states[n].nextRunAt
  {
    CurrentHolds(states, events, next, longest, n);
    var s := states[n];
    assert Legal(s, events[n], longest);
    if events[n].Update? {
      var pc := s.pcs[events[n].w];
      assert InTime(pc, s.last, longest);
      assert next(pc.listed) > pc.listed;
    }
  }

  /** A daily schedule. */
  const DAILY: int -> int := t => (t / CLAIM_TTL + 1) * CLAIM_TTL

  lemma Extend(states: seq<State>, events: seq<Event>, longest: int, e: Event) returns (after: seq<State>, log: seq<Event>)
    requires IsRun(states, events, DAILY, longest) && Legal(states[|events|], e, longest)
    ensures IsRun(after, log, DAILY, longest) && log == events + [e]
    ensures after == states + [Next(states[|events|], e, DAILY)]
  {
    after, log := states + [Next(states[|events|], e, DAILY)], events + [e];
    forall i | 0 <= i < |log| ensures Legal(after[i], log[i], longest) && after[i + 1] == Next(after[i], log[i], DAILY) {
      if i < |events| { assert log[i] == events[i] && after[i] == states[i] && after[i + 1] == states[i + 1]; }
    }
  }

  /** The first scheduler dispatches the slot at once; half a day later, just before it moves the schedule on, a second one lists it. */
  lemma FirstPass(longest: int) returns (states: seq<State>, events: seq<Event>)
    requires 2 * longest > CLAIM_TTL
    ensures IsRun(states, events, DAILY, longest) && |events| == 5
    ensures states[5] == State(CLAIM_TTL, map[0 := CLAIM_TTL], [Idle, Listed(0, CLAIM_TTL / 2)], [Dispatch(0, 0)], CLAIM_TTL / 2)
  {
    states, events := [State(0, map[], [Idle, Idle], [], 0)], [];
    states, events := Extend(states, events, longest, List(0, 0));
    states, events := Extend(states, events, longest, Claim(0, 0));
    states, events := Extend(states, events, longest, Enqueue(0, 0));
    states, events := Extend(states, events, longest, List(1, CLAIM_TTL / 2));
    states, events := Extend(states, events, longest, Update(0, CLAIM_TTL / 2));
  }

  /**
   * With passes longer than half a day, a second scheduler that listed the slot just before it was dispatched can
   * still be about to claim it when the first claim expires, and dispatches the same daily slot again.
   */
  lemma SlowPassRepeats(longest: int) returns (states: seq<State>, events: seq<Event>)
    requires 2 * longest > CLAIM_TTL
    ensures IsRun(states, events, DAILY, longest) && |events| == 8 && events[7].Update?
    ensures states[8].nextRunAt == states[7].nextRunAt
    ensures states[8].log == [Dispatch(0, 0), Dispatch(0, CLAIM_TTL + 1)]
  {
    states, events := FirstPass(longest);
    states, events := Extend(states, events, longest, Claim(1, CLAIM_TTL + 1));
    states, events := Extend(states, events, longest, Enqueue(1, CLAIM_TTL + 1));
    states, events := Extend(states, events, longest, Update(1, CLAIM_TTL + 1));
  }

  /** Half the claim's life is the exact bound on a pass. */
  lemma PassBoundIsExact(longest: int)
    ensures AlwaysAdvances(longest) <==> 2 * longest <= CLAIM_TTL
  {
    if 2 * longest <= CLAIM_TTL {
      forall states: seq<State>, events: seq<Event>, next: int -> int, n: nat
        | IsRun(states, events, next, longest) && n < |events| && (forall t :: next(t) > t)
        ensures if events[n].Update? then states[n + 1].nextRunAt > states[n].nextRunAt else states[n + 1].nextRunAt == states[n].nextRunAt
      {
        DispatchAdvances(states, events, next, longest, n);
      }
    } else {
      var states, events := SlowPassRepeats(longest);
      assert forall t :: DAILY(t) > t;
      assert IsRun(states, events, DAILY, longest) && events[7].Update?;
    }
  }
}
