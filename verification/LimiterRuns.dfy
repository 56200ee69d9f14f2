/** What one policy's key bounds, over every interleaving of the scripts that touch it, and what a whole store keeps. */
module LimiterRuns {
  import opened Redis
  import opened LimiterSpec
  import opened Limiter

  lemma PutSize<K, V>(m: map<K, V>, x: K, v: V)
    ensures |m[x := v]| == |m| + (if x in m then 0 else 1)
  {
    assert m[x := v].Keys == m.Keys + {x};
  }

  // ----- Rate: the sliding window -----

  datatype RateEvent =
    | Admit(member: Member, now: int)  // an acquisition, allowed or not
    | Undone(number: nat, now: int)    // the rollback of an admission
    | Read(now: int)                   // a status call, which prunes

  /** One admission: the name it was recorded under, and when. */
  datatype Stamp = Stamp(member: Member, at: int)

  /** The key, the admissions that have not been rolled back, by number, and the latest time seen. */
  datatype RateState = RateState(key: SortedKey, kept: map<nat, Stamp>, count: nat, last: int)

  function RateNext(s: RateState, e: RateEvent, limit: int, window: int): RateState {
    match e
    case Admit(member, now) =>
      var (k, outcome) := AcquireRate(s.key, now, limit, window, member);
      if outcome.Allowed? then RateState(k, s.kept[s.count := Stamp(member, now)], s.count + 1, now)
      else RateState(k, s.kept, s.count, now)
    case Undone(number, now) =>
      if number in s.kept then RateState(Drop(s.key, s.kept[number].member), s.kept - {number}, s.count, now) else s.(last := now)
    case Read(now) => s.(key := SortedKey(Prune(s.key.At(now), now - window), s.key.expireAt), last := now)
  }

  /**
   * The clock does not run backwards. A name comes back no sooner than `gap` after the last admission kept under it,
   * and an evaluation rolls back its own admission before the name has come back.
   */
  predicate RateLegal(s: RateState, e: RateEvent, gap: int) {
    && s.last <= e.now
    && match e
       case Admit(member, now) => forall i :: i in s.kept && s.kept[i].member == member ==> now - s.kept[i].at >= gap
       case Undone(number, _) => number in s.kept && forall i :: i in s.kept && s.kept[i].member == s.kept[number].member ==> i <= number
       case Read(_) => true
  }

  /** The admissions kept in the half-open window that starts at `from`. */
  function InWindow(kept: map<nat, Stamp>, from: int, window: int): set<nat> {
    set i | i in kept && from <= kept[i].at < from + window
  }

  ghost predicate IsRateRun(states: seq<RateState>, events: seq<RateEvent>, limit: nat, window: int, gap: int) {
    && |states| == |events| + 1 && states[0].key == NO_KEY && states[0].kept == map[]
    && forall i {:trigger events[i]} :: 0 <= i < |events| ==> RateLegal(states[i], events[i], gap) && states[i + 1] == RateNext(states[i], events[i], limit, window)
  }

  /** Recent admissions are in the set under their own names, each name once. */
  ghost predicate Recorded(s: RateState, window: int) {
    && (forall i :: i in s.kept ==> i < s.count && s.kept[i].at <= s.last)
    && (forall i, j :: i in s.kept && j in s.kept && i < j ==> s.kept[i].at <= s.kept[j].at)
    && (forall i :: i in s.kept && s.kept[i].at > s.last - window ==>
          s.kept[i].member in s.key.members && s.key.members[s.kept[i].member] == s.kept[i].at)
    && (forall i, j :: i in s.kept && j in s.kept && i < j && s.kept[i].at > s.last - window ==> s.kept[i].member != s.kept[j].member)
  }

  ghost predicate RateInv(s: RateState, limit: nat, window: int) {
    && (forall from :: |InWindow(s.kept, from, window)| <= limit)
    && |s.key.members| <= limit
    && (forall x :: x in s.key.members ==> s.key.members[x] + window <= s.key.expireAt && s.key.members[x] <= s.last)
    && Recorded(s, window)
  }

  /** Letting the key expire loses nothing that pruning would have kept. */
  lemma ExpiryIsPruning(s: RateState, limit: nat, window: int, now: int)
    requires RateInv(s, limit, window)
    ensures Prune(s.key.At(now), now - window) == Prune(s.key.members, now - window)
  {}

  /** Admissions with different names are at most as many as the names. */
  lemma {:induction false} NamesBound(numbers: set<nat>, kept: map<nat, Stamp>, names: set<Member>)
    requires forall i :: i in numbers ==> i in kept && kept[i].member in names
    requires forall i, j :: i in numbers && j in numbers && i < j ==> kept[i].member != kept[j].member
    ensures |numbers| <= |names|
    decreases |numbers|
  {
    if numbers != {} {
      var i :| i in numbers;
      NamesBound(numbers - {i}, kept, names - {kept[i].member});
    }
  }

  /** What a window that reaches up to `now` has kept is still in the pruned set. */
  lemma WindowIsInSet(s: RateState, limit: nat, window: int, now: int, from: int)
    requires RateInv(s, limit, window) && s.last <= now < from + window
    ensures |InWindow(s.kept, from, window)| <= |Prune(s.key.members, now - window)|
  {
    NamesBound(InWindow(s.kept, from, window), s.kept, Prune(s.key.members, now - window).Keys);
  }

  lemma AdmissionKeepsBound(s: RateState, member: Member, now: int, limit: nat, window: int, from: int)
    requires RateInv(s, limit, window) && s.last <= now && |Prune(s.key.members, now - window)| < limit
    ensures |InWindow(s.kept[s.count := Stamp(member, now)], from, window)| <= limit
  {
    var before, after := InWindow(s.kept, from, window), InWindow(s.kept[s.count := Stamp(member, now)], from, window);
    if from <= now < from + window {
      WindowIsInSet(s, limit, window, now, from);
      SubsetSize(after, before + {s.count});
    } else {
      SubsetSize(after, before);
    }
  }

  /** A new admission's name is not that of a recent one: either it has stayed away long enough, or there is no recent one. */
  lemma AdmissionIsNew(s: RateState, member: Member, now: int, limit: nat, window: int, gap: int)
    requires RateInv(s, limit, window) && RateLegal(s, Admit(member, now), gap) && window >= 1 && (gap >= window || limit <= 1)
    requires |Prune(s.key.members, now - window)| < limit
    ensures forall i :: i in s.kept && s.kept[i].at > now - window ==> s.kept[i].member != member
  {
    if limit <= 1 {
      var m := Prune(s.key.members, now - window);
      assert m == map[];
      forall x | x in s.key.members ensures s.key.members[x] <= now - window {
        assert x in m <==> s.key.members[x] > now - window;
      }
    }
  }

  lemma AdmitRecords(s: RateState, member: Member, now: int, limit: nat, window: int, gap: int)
    requires RateInv(s, limit, window) && RateLegal(s, Admit(member, now), gap) && window >= 1 && (gap >= window || limit <= 1)
    ensures Recorded(RateNext(s, Admit(member, now), limit, window), window)
  {
    ExpiryIsPruning(s, limit, window, now);
    if |Prune(s.key.members, now - window)| < limit { AdmissionIsNew(s, member, now, limit, window, gap); }
  }

  lemma AdmitKeepsBound(s: RateState, member: Member, now: int, limit: nat, window: int)
    requires RateInv(s, limit, window) && s.last <= now
    ensures forall from :: |InWindow(RateNext(s, Admit(member, now), limit, window).kept, from, window)| <= limit
  {
    ExpiryIsPruning(s, limit, window, now);
    if |Prune(s.key.members, now - window)| < limit {
      var kept := s.kept[s.count := Stamp(member, now)];
      forall from ensures |InWindow(kept, from, window)| <= limit {
        AdmissionKeepsBound(s, member, now, limit, window, from);
      }
    }
  }

  lemma AdmitKeeps(s: RateState, member: Member, now: int, limit: nat, window: int, gap: int)
    requires RateInv(s, limit, window) && RateLegal(s, Admit(member, now), gap) && window >= 1 && (gap >= window || limit <= 1)
    ensures RateInv(RateNext(s, Admit(member, now), limit, window), limit, window)
  {
    ExpiryIsPruning(s, limit, window, now);
    PruneShrinks(s.key.members, now - window);
    PutSize(Prune(s.key.members, now - window), member, now);
    AdmitRecords(s, member, now, limit, window, gap);
    AdmitKeepsBound(s, member, now, limit, window);
  }

  lemma UndoneRecords(s: RateState, number: nat, now: int, limit: nat, window: int, gap: int)
    requires Recorded(s, window) && RateLegal(s, Undone(number, now), gap)
    ensures Recorded(RateNext(s, Undone(number, now), limit, window), window)
  {
    var t := RateNext(s, Undone(number, now), limit, window);
    forall i | i in t.kept && t.kept[i].at > now - window ensures t.kept[i].member != s.kept[number].member {
      if i < number { assert s.kept[i].at > s.last - window; }
    }
  }

  lemma UndoneKeeps(s: RateState, number: nat, now: int, limit: nat, window: int, gap: int)
    requires RateInv(s, limit, window) && RateLegal(s, Undone(number, now), gap)
    ensures RateInv(RateNext(s, Undone(number, now), limit, window), limit, window)
  {
    var t := RateNext(s, Undone(number, now), limit, window);
    PutThenDrop(s.key.members, s.kept[number].member, 0);
    UndoneRecords(s, number, now, limit, window, gap);
    forall from ensures |InWindow(t.kept, from, window)| <= limit {
      SubsetSize(InWindow(t.kept, from, window), InWindow(s.kept, from, window));
    }
  }

  lemma RateStepKeeps(s: RateState, e: RateEvent, limit: nat, window: int, gap: int)
    requires RateInv(s, limit, window) && RateLegal(s, e, gap) && window >= 1 && (gap >= window || limit <= 1)
    ensures RateInv(RateNext(s, e, limit, window), limit, window)
  {
    match e
    case Admit(member, now) => AdmitKeeps(s, member, now, limit, window, gap);
    case Undone(number, now) => UndoneKeeps(s, number, now, limit, window, gap);
    case Read(now) =>
      ExpiryIsPruning(s, limit, window, now);
      PruneShrinks(s.key.members, now - window);
  }

  /** The sliding-window bound: no window ever holds more than `limit` admissions that were not rolled back. */
  lemma {:induction false} WindowBound(states: seq<RateState>, events: seq<RateEvent>, limit: nat, window: int, gap: int, n: nat)
    requires IsRateRun(states, events, limit, window, gap) && n <= |events| && window >= 1 && (gap >= window || limit <= 1)
    ensures RateInv(states[n], limit, window)
    ensures forall from :: |InWindow(states[n].kept, from, window)| <= limit
  {
    if n > 0 {
      WindowBound(states, events, limit, window, gap, n - 1);
      assert RateLegal(states[n - 1], events[n - 1], gap);
      RateStepKeeps(states[n - 1], events[n - 1], limit, window, gap);
    } else {
      assert forall from :: InWindow(states[0].kept, from, window) == {};
    }
  }

  /** In every run whose names stay away for `gap`, every window stays within the limit. */
  ghost predicate AlwaysWithinWindow(limit: nat, window: int, gap: int) {
    forall states: seq<RateState>, events: seq<RateEvent>, n: nat, from: int
      {:trigger IsRateRun(states, events, limit, window, gap), InWindow(states[n].kept, from, window)} ::
      IsRateRun(states, events, limit, window, gap) && n <= |events| ==> |InWindow(states[n].kept, from, window)| <= limit
  }

  lemma ExtendRateRun(states: seq<RateState>, events: seq<RateEvent>, limit: nat, window: int, gap: int, e: RateEvent)
    requires IsRateRun(states, events, limit, window, gap) && RateLegal(states[|events|], e, gap)
    ensures IsRateRun(states + [RateNext(states[|events|], e, limit, window)], events + [e], limit, window, gap)
  {
    var after, log := states + [RateNext(states[|events|], e, limit, window)], events + [e];
    forall i | 0 <= i < |log| ensures RateLegal(after[i], log[i], gap) && after[i + 1] == RateNext(after[i], log[i], limit, window) {
      if i < |events| { assert log[i] == events[i] && after[i] == states[i] && after[i + 1] == states[i + 1]; }
    }
  }

  /** The names of `count` different jobs, all recorded at one instant. */
  function Names(count: nat, at: int): (m: map<Member, int>)
    ensures forall x :: x in m ==> x.Admission? && x.job < count && m[x] == at
  {
    if count == 0 then map[] else Names(count - 1, at)[Admission(count - 1, 1) := at]
  }

  lemma {:induction false} NamesCount(count: nat, at: int)
    ensures |Names(count, at)| == count
  {
    if count > 0 {
      NamesCount(count - 1, at);
      PutSize(Names(count - 1, at), Admission(count - 1, 1), at);
    }
  }

  /** The admissions so far: the first name twice, at 0 and at `at`, and the other names once, at `at`. */
  function Stamps(names: nat, at: int): (m: map<nat, Stamp>)
    ensures forall i :: i in m ==> i <= names
  {
    if names == 0 then map[0 := Stamp(Admission(0, 1), 0)] else Stamps(names - 1, at)[names := Stamp(Admission(names - 1, 1), at)]
  }

  lemma {:induction false} StampsInWindow(names: nat, at: int, window: int)
    requires 0 <= at < window
    ensures |InWindow(Stamps(names, at), 0, window)| == names + 1
  {
    if names == 0 {
      assert InWindow(Stamps(0, at), 0, window) == {0};
    } else {
      StampsInWindow(names - 1, at, window);
      assert InWindow(Stamps(names, at), 0, window) == InWindow(Stamps(names - 1, at), 0, window) + {names};
    }
  }

  function Filled(names: nat, at: int, window: int): RateState {
    RateState(SortedKey(Names(names, at), at + window), Stamps(names, at), names + 1, at)
  }

  lemma FirstAdmission(limit: nat, window: int)
    requires limit >= 2 && window >= 1
    ensures var x := Admission(0, 1);
            RateNext(RateState(NO_KEY, map[], 0, 0), Admit(x, 0), limit, window) == RateState(SortedKey(map[x := 0], window), map[0 := Stamp(x, 0)], 1, 0)
  {
    assert Prune(NO_KEY.At(0), 0 - window) == map[];
  }

  lemma SecondAdmission(limit: nat, window: int, at: int)
    requires limit >= 2 && 0 <= at < window
    ensures var x := Admission(0, 1);
            RateNext(RateState(SortedKey(map[x := 0], window), map[0 := Stamp(x, 0)], 1, 0), Admit(x, at), limit, window) == Filled(1, at, window)
  {
    var x := Admission(0, 1);
    assert Prune(SortedKey(map[x := 0], window).At(at), at - window) == map[x := 0];
    assert Names(1, at) == Names(0, at)[x := at];
    assert Stamps(1, at) == Stamps(0, at)[1 := Stamp(x, at)];
  }

  lemma RateStep(states: seq<RateState>, events: seq<RateEvent>, limit: nat, window: int, gap: int, e: RateEvent)
    returns (after: seq<RateState>, log: seq<RateEvent>)
    requires IsRateRun(states, events, limit, window, gap) && RateLegal(states[|events|], e, gap)
    ensures IsRateRun(after, log, limit, window, gap) && after[|log|] == RateNext(states[|events|], e, limit, window)
  {
    ExtendRateRun(states, events, limit, window, gap, e);
    after, log := states + [RateNext(states[|events|], e, limit, window)], events + [e];
  }

  /** The first admissions of the run below: one name, and the same name again at `at`, which takes no further room. */
  lemma SameNameTwice(limit: nat, window: int, gap: int, at: int) returns (states: seq<RateState>, events: seq<RateEvent>)
    requires limit >= 2 && 0 <= at < window && gap <= at
    ensures IsRateRun(states, events, limit, window, gap)
    ensures states[|events|] == Filled(1, at, window)
  {
    var x := Admission(0, 1);
    states, events := [RateState(NO_KEY, map[], 0, 0)], [];
    FirstAdmission(limit, window);
    states, events := RateStep(states, events, limit, window, gap, Admit(x, 0));
    SecondAdmission(limit, window, at);
    states, events := RateStep(states, events, limit, window, gap, Admit(x, at));
  }

  lemma StampNames(names: nat, at: int)
    ensures forall i :: i in Stamps(names, at) ==> Stamps(names, at)[i].member.Admission? && Stamps(names, at)[i].member.job < (if names == 0 then 1 else names)
  {}

  lemma NamesUnpruned(names: nat, at: int, window: int)
    requires window >= 1
    ensures Prune(Filled(names, at, window).key.At(at), at - window) == Names(names, at)
  {}

  lemma RoomAdmitsName(s: RateState, m: map<Member, int>, member: Member, now: int, limit: nat, window: int)
    requires m == Prune(s.key.At(now), now - window) && |m| < limit
    ensures RateNext(s, Admit(member, now), limit, window)
         == RateState(SortedKey(m[member := now], now + window), s.kept[s.count := Stamp(member, now)], s.count + 1, now)
  {}

  lemma NewNameAdmitted(limit: nat, window: int, gap: int, at: int, names: nat)
    requires 0 <= at < window && 1 <= names < limit
    ensures var s, e := Filled(names, at, window), Admit(Admission(names, 1), at);
            RateLegal(s, e, gap) && RateNext(s, e, limit, window) == Filled(names + 1, at, window)
  {
    StampNames(names, at);
    NamesCount(names, at);
    NamesUnpruned(names, at, window);
    RoomAdmitsName(Filled(names, at, window), Names(names, at), Admission(names, 1), at, limit, window);
  }

  lemma FillStep(states: seq<RateState>, events: seq<RateEvent>, limit: nat, window: int, gap: int, at: int, names: nat)
    returns (after: seq<RateState>, log: seq<RateEvent>)
    requires 0 <= at < window && 1 <= names < limit && IsRateRun(states, events, limit, window, gap) && states[|events|] == Filled(names, at, window)
    ensures IsRateRun(after, log, limit, window, gap) && after[|log|] == Filled(names + 1, at, window)
  {
    NewNameAdmitted(limit, window, gap, at, names);
    after, log := RateStep(states, events, limit, window, gap, Admit(Admission(names, 1), at));
  }

  lemma {:induction false} FillWindow(limit: nat, window: int, gap: int, at: int, names: nat) returns (states: seq<RateState>, events: seq<RateEvent>)
    requires limit >= 2 && 0 <= at < window && gap <= at && 1 <= names <= limit
    ensures IsRateRun(states, events, limit, window, gap)
    ensures states[|events|] == Filled(names, at, window)
    decreases names
  {
    if names == 1 {
      states, events := SameNameTwice(limit, window, gap, at);
    } else {
      states, events := FillWindow(limit, window, gap, at, names - 1);
      states, events := FillStep(states, events, limit, window, gap, at, names - 1);
    }
  }

  /** One admission too many: a name that comes back within the window, and as many others as the set then has room for. */
  lemma ReturningNameOverflows(limit: nat, window: int, gap: int) returns (states: seq<RateState>, events: seq<RateEvent>)
    requires limit >= 2 && window >= 1 && gap < window
    ensures IsRateRun(states, events, limit, window, gap) && |InWindow(states[|events|].kept, 0, window)| == limit + 1
  {
    var at := if gap < 0 then 0 else gap;
    states, events := FillWindow(limit, window, gap, at, limit);
    StampsInWindow(limit, at, window);
  }

  /**
   * The window is the exact time a name has to stay away, unless the limit is one: an operator's replay, which resets
   * the attempt number and so brings names back, can make a window overflow exactly when it comes sooner.
   */
  lemma WindowBoundIsExact(limit: nat, window: int, gap: int)
    requires window >= 1
    ensures AlwaysWithinWindow(limit, window, gap) <==> gap >= window || limit <= 1
  {
    if gap >= window || limit <= 1 {
      forall states: seq<RateState>, events: seq<RateEvent>, n: nat, from: int | IsRateRun(states, events, limit, window, gap) && n <= |events|
        ensures |InWindow(states[n].kept, from, window)| <= limit
      {
        WindowBound(states, events, limit, window, gap, n);
      }
    } else {
      var states, events := ReturningNameOverflows(limit, window, gap);
    }
  }

  /** Only one name is ever asked for. */
  ghost predicate OneName(events: seq<RateEvent>, member: Member) {
    forall i {:trigger events[i]} :: 0 <= i < |events| ==> events[i].Admit? && events[i].member == member
  }

  /** Exactly `times` admissions are kept, all of them made in the window that starts at `from`. */
  ghost predicate AllAdmitted(s: RateState, member: Member, times: nat, from: int, window: int) {
    && s.key.members.Keys <= {member} && |s.kept| == times
    && forall i :: i in s.kept ==> i < s.count && from <= s.kept[i].at < from + window
  }

  lemma OneNameStep(s: RateState, e: RateEvent, limit: nat, window: int, times: nat, from: int)
    requires limit >= 2 && e.Admit? && AllAdmitted(s, e.member, times, from, window) && from <= e.now < from + window
    ensures AllAdmitted(RateNext(s, e, limit, window), e.member, times + 1, from, window)
  {
    SubsetSize(Prune(s.key.At(e.now), e.now - window).Keys, {e.member});
    PutSize(s.kept, s.count, Stamp(e.member, e.now));
  }

  lemma {:induction false} OneNameCounts(states: seq<RateState>, events: seq<RateEvent>, limit: nat, window: int, gap: int, member: Member, from: int, n: nat)
    requires IsRateRun(states, events, limit, window, gap) && OneName(events, member) && n <= |events| && limit >= 2
    requires forall i {:trigger events[i]} :: 0 <= i < |events| ==> from <= events[i].now < from + window
    ensures AllAdmitted(states[n], member, n, from, window)
  {
    if n > 0 {
      OneNameCounts(states, events, limit, window, gap, member, from, n - 1);
      assert events[n - 1].Admit?;
      OneNameStep(states[n - 1], events[n - 1], limit, window, n - 1, from);
    }
  }

  /** Under a limit of two or more a single name counts once: asked for any number of times within a window, it is admitted each time. */
  lemma RepeatedNameIsNeverDenied(states: seq<RateState>, events: seq<RateEvent>, limit: nat, window: int, gap: int, member: Member, from: int)
    requires IsRateRun(states, events, limit, window, gap) && OneName(events, member) && limit >= 2
    requires forall i {:trigger events[i]} :: 0 <= i < |events| ==> from <= events[i].now < from + window
    ensures |InWindow(states[|events|].kept, from, window)| == |events|
  {
    OneNameCounts(states, events, limit, window, gap, member, from, |events|);
    assert InWindow(states[|events|].kept, from, window) == states[|events|].kept.Keys;
  }

  // ----- Concurrency: the slots -----

  datatype SlotEvent =
    | Take(member: Member, now: int, ttl: int)
    | Renew(member: Member, now: int, ttl: int)
    | Give(member: Member, now: int)  // release or rollback
    | Look(now: int)

  /** The key, until when each holder that has not given its slot back may count on it, and the latest time seen. */
  datatype SlotState = SlotState(key: SortedKey, held: map<Member, int>, last: int)

  function SlotNext(s: SlotState, e: SlotEvent, limit: int): SlotState {
    match e
    case Take(member, now, ttl) =>
      var (k, outcome) := AcquireSlot(s.key, now, limit, ttl, member);
      SlotState(k, if outcome.Allowed? then s.held[member := now + ttl] else s.held, now)
    case Renew(member, now, ttl) =>
      var (k, renewed) := RenewSlot(s.key, now, ttl, member);
      SlotState(k, if renewed then s.held[member := now + ttl] else s.held, now)
    case Give(member, now) => SlotState(Drop(s.key, member), Without(s.held, member), now)
    case Look(now) => SlotState(SortedKey(Prune(s.key.At(now), now), s.key.expireAt), s.held, now)
  }

  /** The clock does not run backwards, and the workers' TTLs lie between `lo` and `hi`. */
  predicate SlotLegal(s: SlotState, e: SlotEvent, lo: int, hi: int) {
    s.last <= e.now && (e.Take? ==> lo <= e.ttl <= hi) && (e.Renew? ==> lo <= e.ttl <= hi)
  }

  /** Who holds an unexpired slot at `now`. */
  function Holding(held: map<Member, int>, now: int): set<Member> {
    set x | x in held && held[x] > now
  }

  ghost predicate SlotInv(s: SlotState, limit: nat, hi: int) {
    && |s.key.members| <= limit
    && (forall x :: x in s.key.members ==> s.key.members[x] <= s.key.expireAt + 1 && s.key.members[x] <= s.last + hi)
    && (forall x :: x in s.held && s.held[x] > s.last ==> x in s.key.members && s.key.members[x] == s.held[x])
  }

  lemma SlotExpiryIsPruning(s: SlotState, limit: nat, hi: int, now: int)
    requires SlotInv(s, limit, hi)
    ensures Prune(s.key.At(now), now) == Prune(s.key.members, now)
  {}

  /** A member written into a set of at most one is alone there. */
  lemma AloneInSet(m: map<Member, int>, member: Member, limit: nat)
    requires limit <= 1 && |m| <= limit && (member in m || |m| < limit)
    ensures forall x :: x in m ==> x == member
  {
    forall x | x in m ensures x == member {
      if member in m && x != member { SubsetSize({x, member}, m.Keys); }
    }
  }

  /** Writing a member with its new expiry leaves the key alive for as long as any member. */
  lemma WriteKeepsAlive(s: SlotState, m: map<Member, int>, member: Member, now: int, ttl: int, limit: nat, lo: int, hi: int)
    requires SlotInv(s, limit, hi) && s.last <= now && lo <= ttl <= hi && (limit <= 1 || hi - lo <= 1)
    requires m == Prune(s.key.members, now) && |m| <= limit && (member in m || |m| < limit)
    ensures forall x :: x in m ==> m[x] <= now + hi && (x == member || m[x] <= now + ttl + 1)
  {
    if limit <= 1 { AloneInSet(m, member, limit); }
  }

  lemma WriteKeepsHeld(s: SlotState, m: map<Member, int>, member: Member, now: int, ttl: int, limit: nat, hi: int)
    requires SlotInv(s, limit, hi) && s.last <= now && m == Prune(s.key.members, now)
    ensures var held := s.held[member := now + ttl];
            forall x :: x in held && held[x] > now ==> x in m[member := now + ttl] && m[member := now + ttl][x] == held[x]
  {}

  lemma WriteKeeps(s: SlotState, member: Member, now: int, ttl: int, limit: nat, lo: int, hi: int)
    requires SlotInv(s, limit, hi) && s.last <= now && lo <= ttl <= hi && (limit <= 1 || hi - lo <= 1)
    requires var m := Prune(s.key.At(now), now); member in m || |m| < limit
    ensures var m := Prune(s.key.At(now), now);
            SlotInv(SlotState(SortedKey(m[member := now + ttl], now + ttl), s.held[member := now + ttl], now), limit, hi)
  {
    SlotExpiryIsPruning(s, limit, hi, now);
    var m := Prune(s.key.members, now);
    PruneShrinks(s.key.members, now);
    PutSize(m, member, now + ttl);
    WriteKeepsAlive(s, m, member, now, ttl, limit, lo, hi);
    WriteKeepsHeld(s, m, member, now, ttl, limit, hi);
  }

  /** Pruning alone, which is all that a refused call does. */
  lemma PruneKeeps(s: SlotState, now: int, limit: nat, hi: int)
    requires SlotInv(s, limit, hi) && s.last <= now && hi >= 0
    ensures SlotInv(SlotState(SortedKey(Prune(s.key.At(now), now), s.key.expireAt), s.held, now), limit, hi)
  {
    SlotExpiryIsPruning(s, limit, hi, now);
    PruneShrinks(s.key.members, now);
  }

  lemma GiveKeeps(s: SlotState, member: Member, now: int, limit: nat, hi: int)
    requires SlotInv(s, limit, hi) && s.last <= now
    ensures SlotInv(SlotState(Drop(s.key, member), Without(s.held, member), now), limit, hi)
  {
    PutThenDrop(s.key.members, member, 0);
  }

  lemma TakeKeeps(s: SlotState, member: Member, now: int, ttl: int, limit: nat, lo: int, hi: int)
    requires SlotInv(s, limit, hi) && s.last <= now && lo <= ttl <= hi && (limit <= 1 || hi - lo <= 1) && hi >= 0
    ensures SlotInv(SlotNext(s, Take(member, now, ttl), limit), limit, hi)
  {
    var m := Prune(s.key.At(now), now);
    if member in m || |m| < limit { WriteKeeps(s, member, now, ttl, limit, lo, hi); } else { PruneKeeps(s, now, limit, hi); }
  }

  lemma RenewKeeps(s: SlotState, member: Member, now: int, ttl: int, limit: nat, lo: int, hi: int)
    requires SlotInv(s, limit, hi) && s.last <= now && lo <= ttl <= hi && (limit <= 1 || hi - lo <= 1) && hi >= 0
    ensures SlotInv(SlotNext(s, Renew(member, now, ttl), limit), limit, hi)
  {
    if member in Prune(s.key.At(now), now) { WriteKeeps(s, member, now, ttl, limit, lo, hi); } else { PruneKeeps(s, now, limit, hi); }
  }

  lemma SlotStepKeeps(s: SlotState, e: SlotEvent, limit: nat, lo: int, hi: int)
    requires SlotInv(s, limit, hi) && SlotLegal(s, e, lo, hi) && (limit <= 1 || hi - lo <= 1) && hi >= 0
    ensures SlotInv(SlotNext(s, e, limit), limit, hi)
  {
    match e
    case Take(member, now, ttl) => TakeKeeps(s, member, now, ttl, limit, lo, hi);
    case Renew(member, now, ttl) => RenewKeeps(s, member, now, ttl, limit, lo, hi);
    case Give(member, now) => GiveKeeps(s, member, now, limit, hi);
    case Look(now) => PruneKeeps(s, now, limit, hi);
  }

  /** Renewing never brings a member into the set. */
  lemma RenewNeverCreates(s: SlotState, e: SlotEvent, limit: int)
    requires e.Renew?
    ensures SlotNext(s, e, limit).key.members.Keys <= s.key.members.Keys
    ensures e.member in Prune(s.key.At(e.now), e.now) <==> e.member in SlotNext(s, e, limit).key.members
  {}

  ghost predicate IsSlotRun(states: seq<SlotState>, events: seq<SlotEvent>, limit: nat, lo: int, hi: int) {
    && |states| == |events| + 1 && states[0].key == NO_KEY && states[0].held == map[]
    && forall i {:trigger events[i]} :: 0 <= i < |events| ==> SlotLegal(states[i], events[i], lo, hi) && states[i + 1] == SlotNext(states[i], events[i], limit)
  }

  /** The concurrency bound: at any time, at most `limit` jobs hold a slot that is neither given back nor run out. */
  lemma {:induction false} SlotBound(states: seq<SlotState>, events: seq<SlotEvent>, limit: nat, lo: int, hi: int, n: nat, now: int)
    requires IsSlotRun(states, events, limit, lo, hi) && n <= |events| && states[n].last <= now && hi >= 0 && (limit <= 1 || hi - lo <= 1)
    ensures SlotInv(states[n], limit, hi) && |Holding(states[n].held, now)| <= limit
    decreases n
  {
    if n > 0 {
      SlotBound(states, events, limit, lo, hi, n - 1, states[n - 1].last);
      assert SlotLegal(states[n - 1], events[n - 1], lo, hi);
      SlotStepKeeps(states[n - 1], events[n - 1], limit, lo, hi);
    }
    SubsetSize(Holding(states[n].held, now), states[n].key.members.Keys);
  }

  /** In every run with such TTLs, never more than `limit` jobs hold an unexpired slot. */
  ghost predicate AlwaysWithinSlots(limit: nat, lo: int, hi: int) {
    forall states: seq<SlotState>, events: seq<SlotEvent>, n: nat, now: int
      {:trigger IsSlotRun(states, events, limit, lo, hi), Holding(states[n].held, now)} ::
      IsSlotRun(states, events, limit, lo, hi) && n <= |events| && states[n].last <= now ==> |Holding(states[n].held, now)| <= limit
  }

  lemma ExtendSlotRun(states: seq<SlotState>, events: seq<SlotEvent>, limit: nat, lo: int, hi: int, e: SlotEvent)
    requires IsSlotRun(states, events, limit, lo, hi) && SlotLegal(states[|events|], e, lo, hi)
    ensures IsSlotRun(states + [SlotNext(states[|events|], e, limit)], events + [e], limit, lo, hi)
  {
    var after, log := states + [SlotNext(states[|events|], e, limit)], events + [e];
    forall i | 0 <= i < |log| ensures SlotLegal(after[i], log[i], lo, hi) && after[i + 1] == SlotNext(after[i], log[i], limit) {
      if i < |events| { assert log[i] == events[i] && after[i] == states[i] && after[i + 1] == states[i + 1]; }
    }
  }

  /**
   * Job 0 took its slot at time 0 for `hi`; another job's shorter TTL `lo` then made the whole key expire; and
   * `count` more jobs have come the moment it had.
   */
  ghost predicate Crowded(s: SlotState, count: nat, lo: int, hi: int) {
    && s.last == lo + 1 && s.key.expireAt == lo + 1 + hi && |s.key.members| == count
    && (forall x :: x in s.key.members ==> s.key.members[x] == lo + 1 + hi)
    && (forall x :: x in s.key.members || x in s.held ==> x.Slot? && x.job < count + 2)
    && |Holding(s.held, lo + 1)| == count + 1
  }

  lemma FirstTake(limit: nat, lo: int, hi: int)
    requires limit >= 2 && lo >= 1 && hi >= 1
    ensures SlotNext(SlotState(NO_KEY, map[], 0), Take(Slot(0), 0, hi), limit) == SlotState(SortedKey(map[Slot(0) := hi], hi), map[Slot(0) := hi], 0)
  {
    assert Prune(NO_KEY.At(0), 0) == map[];
  }

  lemma SecondTake(limit: nat, lo: int, hi: int, s: SlotState)
    requires limit >= 2 && lo >= 1 && hi >= 1 && s == SlotState(SortedKey(map[Slot(0) := hi], hi), map[Slot(0) := hi], 0)
    ensures var both := map[Slot(0) := hi, Slot(1) := lo]; SlotNext(s, Take(Slot(1), 0, lo), limit) == SlotState(SortedKey(both, lo), both, 0)
  {
    assert Prune(s.key.At(0), 0) == map[Slot(0) := hi];
  }

  lemma KeyIsGone(lo: int, hi: int, s: SlotState)
    requires lo >= 1 && hi - lo >= 2
    requires var both := map[Slot(0) := hi, Slot(1) := lo]; s == SlotState(SortedKey(both, lo), both, 0)
    ensures Crowded(SlotState(SortedKey(map[], lo + 1 + hi), s.held, lo + 1), 0, lo, hi)
    ensures Prune(s.key.At(lo + 1), lo + 1) == map[]
  {
    assert Holding(s.held, lo + 1) == {Slot(0)};
  }

  lemma OneMoreHolds(held: map<Member, int>, x: Member, until: int, now: int)
    requires x !in held && now < until
    ensures |Holding(held[x := until], now)| == |Holding(held, now)| + 1
  {
    assert Holding(held[x := until], now) == Holding(held, now) + {x};
  }

  lemma RoomTakes(s: SlotState, m: map<Member, int>, member: Member, now: int, ttl: int, limit: nat)
    requires m == Prune(s.key.At(now), now) && |m| < limit
    ensures SlotNext(s, Take(member, now, ttl), limit) == SlotState(SortedKey(m[member := now + ttl], now + ttl), s.held[member := now + ttl], now)
  {}

  lemma CrowdGrows(m: map<Member, int>, held: map<Member, int>, count: nat, lo: int, hi: int)
    requires hi >= 1 && Crowded(SlotState(SortedKey(m, lo + 1 + hi), held, lo + 1), count, lo, hi)
    ensures var x, until := Slot(count + 2), lo + 1 + hi;
            Crowded(SlotState(SortedKey(m[x := until], until), held[x := until], lo + 1), count + 1, lo, hi)
  {
    var x, until := Slot(count + 2), lo + 1 + hi;
    assert x !in m && x !in held;
    PutSize(m, x, until);
    OneMoreHolds(held, x, until, lo + 1);
  }

  /** The next job finds room, because the key no longer counts job 0. */
  lemma OneMoreCrowds(s: SlotState, m: map<Member, int>, count: nat, limit: nat, lo: int, hi: int)
    requires lo >= 1 && hi >= 1 && count < limit && m == Prune(s.key.At(lo + 1), lo + 1)
    requires Crowded(SlotState(SortedKey(m, lo + 1 + hi), s.held, lo + 1), count, lo, hi)
    ensures Crowded(SlotNext(s, Take(Slot(count + 2), lo + 1, hi), limit), count + 1, lo, hi)
  {
    RoomTakes(s, m, Slot(count + 2), lo + 1, hi, limit);
    CrowdGrows(m, s.held, count, lo, hi);
  }

  lemma TwoTake(limit: nat, lo: int, hi: int) returns (states: seq<SlotState>, events: seq<SlotEvent>)
    requires limit >= 2 && lo >= 1 && hi - lo >= 2
    ensures IsSlotRun(states, events, limit, lo, hi)
    ensures var both := map[Slot(0) := hi, Slot(1) := lo]; states[|events|] == SlotState(SortedKey(both, lo), both, 0)
  {
    states, events := [SlotState(NO_KEY, map[], 0)], [];
    FirstTake(limit, lo, hi);
    states, events := SlotStep(states, events, limit, lo, hi, Take(Slot(0), 0, hi));
    SecondTake(limit, lo, hi, states[|events|]);
    states, events := SlotStep(states, events, limit, lo, hi, Take(Slot(1), 0, lo));
  }

  lemma ShortTtlEndsKey(limit: nat, lo: int, hi: int) returns (states: seq<SlotState>, events: seq<SlotEvent>)
    requires limit >= 2 && lo >= 1 && hi - lo >= 2
    ensures IsSlotRun(states, events, limit, lo, hi) && Crowded(states[|events|], 1, lo, hi)
  {
    states, events := TwoTake(limit, lo, hi);
    KeyIsGone(lo, hi, states[|events|]);
    OneMoreCrowds(states[|events|], map[], 0, limit, lo, hi);
    states, events := SlotStep(states, events, limit, lo, hi, Take(Slot(2), lo + 1, hi));
  }

  lemma SlotStep(states: seq<SlotState>, events: seq<SlotEvent>, limit: nat, lo: int, hi: int, e: SlotEvent)
    returns (after: seq<SlotState>, log: seq<SlotEvent>)
    requires IsSlotRun(states, events, limit, lo, hi) && SlotLegal(states[|events|], e, lo, hi)
    ensures IsSlotRun(after, log, limit, lo, hi) && after[|log|] == SlotNext(states[|events|], e, limit)
  {
    ExtendSlotRun(states, events, limit, lo, hi, e);
    after, log := states + [SlotNext(states[|events|], e, limit)], events + [e];
  }

  lemma {:induction false} CrowdRun(limit: nat, lo: int, hi: int, count: nat) returns (states: seq<SlotState>, events: seq<SlotEvent>)
    requires limit >= 2 && lo >= 1 && hi - lo >= 2 && 1 <= count <= limit
    ensures IsSlotRun(states, events, limit, lo, hi) && Crowded(states[|events|], count, lo, hi)
    decreases count
  {
    if count == 1 {
      states, events := ShortTtlEndsKey(limit, lo, hi);
    } else {
      states, events := CrowdRun(limit, lo, hi, count - 1);
      var s := states[|events|];
      NonePruned(s.key, lo + 1);
      OneMoreCrowds(s, s.key.members, count - 1, limit, lo, hi);
      states, events := SlotStep(states, events, limit, lo, hi, Take(Slot(count + 1), lo + 1, hi));
    }
  }

  lemma NonePruned(k: SortedKey, now: int)
    requires now < k.expireAt && forall x :: x in k.members ==> k.members[x] == k.expireAt
    ensures Prune(k.At(now), now) == k.members
  {}

  /**
   * One worker with a shorter TTL makes the whole key expire under the others: with TTLs two milliseconds or more
   * apart, a limit of two or more is exceeded by one.
   */
  lemma MixedTtlsBreakTheBound(limit: nat, lo: int, hi: int) returns (states: seq<SlotState>, events: seq<SlotEvent>)
    requires limit >= 2 && lo >= 1 && hi - lo >= 2
    ensures IsSlotRun(states, events, limit, lo, hi) && states[|events|].last == lo + 1
    ensures |Holding(states[|events|].held, lo + 1)| == limit + 1
  {
    states, events := CrowdRun(limit, lo, hi, limit);
  }

  /** TTLs within one millisecond of each other are exactly what the bound needs, unless the limit is one. */
  lemma SlotBoundIsExact(limit: nat, lo: int, hi: int)
    requires 1 <= lo <= hi
    ensures AlwaysWithinSlots(limit, lo, hi) <==> limit <= 1 || hi - lo <= 1
  {
    if limit <= 1 || hi - lo <= 1 {
      forall states: seq<SlotState>, events: seq<SlotEvent>, n: nat, now: int
        | IsSlotRun(states, events, limit, lo, hi) && n <= |events| && states[n].last <= now
        ensures |Holding(states[n].held, now)| <= limit
      {
        SlotBound(states, events, limit, lo, hi, n, now);
      }
    } else {
      var states, events := MixedTtlsBreakTheBound(limit, lo, hi);
      assert |Holding(states[|events|].held, lo + 1)| > limit;
    }
  }

  // ----- A whole store -----

  /** What one policy's key keeps. */
  ghost predicate KeyFit(k: SortedKey, p: Policy, last: int, hi: int) {
    && p.Valid() && |k.members| <= p.limit && KeySound(k, p)
    && forall x :: x in k.members ==> k.members[x] <= last + (if p.isRate then 0 else hi)
  }

  /** TTLs close enough for one policy: they do not matter to a rate limit or a limit of one. */
  predicate TtlFits(p: Policy, ttl: int, lo: int, hi: int) {
    lo <= ttl <= hi && (p.isRate || p.limit <= 1 || hi - lo <= 1)
  }

  lemma KeyPruneIsWhole(k: SortedKey, p: Policy, last: int, hi: int, now: int)
    requires KeyFit(k, p, last, hi)
    ensures Pruned(k, p, now) == Prune(k.members, if p.isRate then now - p.Window() else now)
    ensures |Pruned(k, p, now)| <= p.limit
  {
    PruneShrinks(k.members, if p.isRate then now - p.Window() else now);
  }

  lemma AcquireKeepsKey(k: SortedKey, p: Policy, job: LimitedJob, last: int, ttl: int, now: int, lo: int, hi: int)
    requires KeyFit(k, p, last, hi) && last <= now && TtlFits(p, ttl, lo, hi)
    ensures KeyFit(Acquire(k, p, job, ttl, now).0, p, now, hi)
  {
    KeyPruneIsWhole(k, p, last, hi, now);
    var m := Pruned(k, p, now);
    PutSize(m, MemberOf(p, job), if p.isRate then now else now + ttl);
    if !p.isRate && p.limit <= 1 && (MemberOf(p, job) in m || |m| < p.limit) { AloneInSet(m, MemberOf(p, job), p.limit); }
  }

  lemma RenewKeepsKey(k: SortedKey, p: Policy, member: Member, last: int, ttl: int, now: int, lo: int, hi: int)
    requires KeyFit(k, p, last, hi) && last <= now && TtlFits(p, ttl, lo, hi) && !p.isRate
    ensures KeyFit(RenewSlot(k, now, ttl, member).0, p, now, hi)
  {
    KeyPruneIsWhole(k, p, last, hi, now);
    var m := Pruned(k, p, now);
    PutSize(m, member, now + ttl);
    if p.limit <= 1 && member in m { AloneInSet(m, member, p.limit); }
  }

  lemma DropKeepsKey(k: SortedKey, p: Policy, member: Member, last: int, now: int, hi: int)
    requires KeyFit(k, p, last, hi) && last <= now
    ensures KeyFit(Drop(k, member), p, now, hi)
  {
    PutThenDrop(k.members, member, 0);
  }

  ghost predicate StoreFit(s: Store, policies: seq<Policy>, last: int, hi: int) {
    forall p :: p in policies ==> KeyFit(KeyOf(s, p), p, last, hi)
  }

  lemma NamesApart(policies: seq<Policy>, p: Policy, q: Policy)
    requires DistinctIds(policies) && p in policies && q in policies && NameOf(p) == NameOf(q)
    ensures p == q
  {
    var i :| 0 <= i < |policies| && policies[i] == p;
    var j :| 0 <= j < |policies| && policies[j] == q;
  }

  /** A new value for one policy's key is all that has to be checked. */
  lemma PutKeepsStore(s: Store, policies: seq<Policy>, p: Policy, k: SortedKey, now: int, hi: int)
    requires DistinctIds(policies) && p in policies && StoreFit(s, policies, now, hi) && KeyFit(k, p, now, hi)
    ensures StoreFit(s[NameOf(p) := k], policies, now, hi)
  {
    forall q | q in policies ensures KeyFit(KeyOf(s[NameOf(p) := k], q), q, now, hi) {
      if NameOf(q) == NameOf(p) { NamesApart(policies, p, q); }
    }
  }

  predicate TtlsFit(policies: seq<Policy>, ttl: int, lo: int, hi: int) {
    forall p :: p in policies ==> TtlFits(p, ttl, lo, hi)
  }

  lemma {:induction false} AskAllKeepsStore(s: Store, policies: seq<Policy>, ps: seq<Policy>, job: LimitedJob, ttl: int, now: int, lo: int, hi: int)
    requires DistinctIds(policies) && (forall p :: p in ps ==> p in policies) && TtlsFit(policies, ttl, lo, hi) && StoreFit(s, policies, now, hi)
    ensures StoreFit(AskAll(s, ps, job, ttl, now).0, policies, now, hi)
    ensures forall p :: p in AskAll(s, ps, job, ttl, now).1.Held() ==> p in policies
    decreases |ps|
  {
    if ps != [] {
      var rest, p := ps[..|ps| - 1], ps[|ps| - 1];
      AskAllKeepsStore(s, policies, rest, job, ttl, now, lo, hi);
      var s1 := AskAll(s, rest, job, ttl, now).0;
      AcquireKeepsKey(KeyOf(s1, p), p, job, now, ttl, now, lo, hi);
      PutKeepsStore(s1, policies, p, Acquire(KeyOf(s1, p), p, job, ttl, now).0, now, hi);
    }
  }

  lemma {:induction false} UndoKeepsStore(s: Store, policies: seq<Policy>, held: seq<Policy>, job: LimitedJob, now: int, hi: int)
    requires DistinctIds(policies) && (forall p :: p in held ==> p in policies) && StoreFit(s, policies, now, hi)
    ensures StoreFit(Undo(s, held, job), policies, now, hi)
    decreases |held|
  {
    if held != [] {
      var rest, p := held[..|held| - 1], held[|held| - 1];
      UndoKeepsStore(s, policies, rest, job, now, hi);
      var s1 := Undo(s, rest, job);
      DropKeepsKey(KeyOf(s1, p), p, MemberOf(p, job), now, now, hi);
      PutKeepsStore(s1, policies, p, Drop(KeyOf(s1, p), MemberOf(p, job)), now, hi);
    }
  }

  lemma {:induction false} RenewKeepsStore(s: Store, policies: seq<Policy>, slots: seq<Policy>, job: LimitedJob, ttl: int, now: int, lo: int, hi: int)
    requires DistinctIds(policies) && (forall p :: p in slots ==> p in policies && !p.isRate) && TtlsFit(policies, ttl, lo, hi) && StoreFit(s, policies, now, hi)
    ensures StoreFit(RenewAll(s, slots, job, ttl, now), policies, now, hi)
    decreases |slots|
  {
    if slots != [] {
      var rest, p := slots[..|slots| - 1], slots[|slots| - 1];
      RenewKeepsStore(s, policies, rest, job, ttl, now, lo, hi);
      var s1 := RenewAll(s, rest, job, ttl, now);
      RenewKeepsKey(KeyOf(s1, p), p, MemberOf(p, job), now, ttl, now, lo, hi);
      PutKeepsStore(s1, policies, p, RenewSlot(KeyOf(s1, p), now, ttl, MemberOf(p, job)).0, now, hi);
    }
  }

  /** The limiter's calls, and how far each gets before Redis fails, if it does. */
  datatype Call =
    | Evaluation(job: LimitedJob, ttl: int, now: int, trouble: Trouble)
    | Renewal(job: LimitedJob, ttl: int, now: int, effective: nat)
    | Release(job: LimitedJob, now: int, effective: nat)
    | Status(p: Policy, now: int)

  function CallNext(s: Store, call: Call, policies: seq<Policy>): Store {
    match call
    case Evaluation(job, ttl, now, trouble) =>
      if trouble.Stops(|Applicable(job, policies)|) then EvaluateFaulty(s, policies, job, ttl, now, trouble.fault.value, trouble.stuck)
      else EvaluateStuck(s, policies, job, ttl, now, trouble.stuck).0
    case Renewal(job, ttl, now, effective) => RenewAll(s, FirstOf(SlotPolicies(Applicable(job, policies)), effective), job, ttl, now)
    case Release(job, now, effective) => Undo(s, FirstOf(SlotPolicies(Applicable(job, policies)), effective), job)
    case Status(p, now) =>
      if NameOf(p) in s then s[NameOf(p) := SortedKey(Pruned(s[NameOf(p)], p, now), s[NameOf(p)].expireAt)] else s
  }

  predicate CallLegal(call: Call, policies: seq<Policy>, lo: int, hi: int) {
    match call
    case Evaluation(_, ttl, _, _) => TtlsFit(policies, ttl, lo, hi)
    case Renewal(_, ttl, _, _) => TtlsFit(policies, ttl, lo, hi)
    case Release(_, _, _) => true
    case Status(p, _) => p in policies
  }

  lemma EvaluationKeepsStore(s: Store, job: LimitedJob, ttl: int, now: int, trouble: Trouble, policies: seq<Policy>, lo: int, hi: int)
    requires DistinctIds(policies) && TtlsFit(policies, ttl, lo, hi) && StoreFit(s, policies, now, hi)
    ensures StoreFit(CallNext(s, Evaluation(job, ttl, now, trouble), policies), policies, now, hi)
  {
    var ps := Applicable(job, policies);
    if trouble.Stops(|ps|) {
      var asked, p := ps[..trouble.fault.value.at], ps[trouble.fault.value.at];
      forall q | q in asked ensures q in policies { assert q in ps; }
      AskAllKeepsStore(s, policies, asked, job, ttl, now, lo, hi);
      var (t, d) := AskAll(s, asked, job, ttl, now);
      assert p in ps;
      AcquireKeepsKey(KeyOf(t, p), p, job, now, ttl, now, lo, hi);
      PutKeepsStore(t, policies, p, Acquire(KeyOf(t, p), p, job, ttl, now).0, now, hi);
      var t2 := if trouble.fault.value.applied then Ask(t, d, p, job, ttl, now).0 else t;
      UndoKeepsStore(t2, policies, Undoable(d.Held(), trouble.stuck), job, now, hi);
    } else {
      AskAllKeepsStore(s, policies, ps, job, ttl, now, lo, hi);
      var (t, d) := AskAll(s, ps, job, ttl, now);
      UndoKeepsStore(t, policies, Undoable(d.Held(), trouble.stuck), job, now, hi);
    }
  }

  lemma CallKeepsStore(s: Store, call: Call, policies: seq<Policy>, lo: int, hi: int)
    requires DistinctIds(policies) && CallLegal(call, policies, lo, hi) && StoreFit(s, policies, call.now, hi)
    ensures StoreFit(CallNext(s, call, policies), policies, call.now, hi)
  {
    match call
    case Evaluation(job, ttl, now, trouble) => EvaluationKeepsStore(s, job, ttl, now, trouble, policies, lo, hi);
    case Renewal(job, ttl, now, effective) => RenewKeepsStore(s, policies, FirstOf(SlotPolicies(Applicable(job, policies)), effective), job, ttl, now, lo, hi);
    case Release(job, now, effective) => UndoKeepsStore(s, policies, FirstOf(SlotPolicies(Applicable(job, policies)), effective), job, now, hi);
    case Status(p, now) =>
      KeyPruneIsWhole(KeyOf(s, p), p, now, hi, now);
      if NameOf(p) in s { PutKeepsStore(s, policies, p, SortedKey(Pruned(s[NameOf(p)], p, now), s[NameOf(p)].expireAt), now, hi); }
  }

  lemma LaterKeepsStore(s: Store, policies: seq<Policy>, last: int, now: int, hi: int)
    requires StoreFit(s, policies, last, hi) && last <= now
    ensures StoreFit(s, policies, now, hi)
  {}

  ghost predicate IsStoreRun(stores: seq<Store>, calls: seq<Call>, policies: seq<Policy>, lo: int, hi: int) {
    && DistinctIds(policies) && (forall p :: p in policies ==> p.Valid())
    && |stores| == |calls| + 1 && stores[0] == map[]
    && (forall i {:trigger calls[i]} :: 0 <= i < |calls| ==> CallLegal(calls[i], policies, lo, hi) && stores[i + 1] == CallNext(stores[i], calls[i], policies))
    && (forall i, j :: 0 <= i < j < |calls| ==> calls[i].now <= calls[j].now)
  }

  lemma {:induction false} StoreStaysFit(stores: seq<Store>, calls: seq<Call>, policies: seq<Policy>, lo: int, hi: int, n: nat, now: int)
    requires IsStoreRun(stores, calls, policies, lo, hi) && n <= |calls| && (n > 0 ==> calls[n - 1].now <= now)
    ensures StoreFit(stores[n], policies, now, hi)
    decreases n
  {
    if n > 0 {
      var call := calls[n - 1];
      assert CallLegal(call, policies, lo, hi);
      StoreStaysFit(stores, calls, policies, lo, hi, n - 1, call.now);
      CallKeepsStore(stores[n - 1], call, policies, lo, hi);
      LaterKeepsStore(stores[n], policies, call.now, now, hi);
    }
  }

  /** Whatever calls a store has seen, its keys are such that the retry times of its denials are exact. */
  lemma RunsAreFit(stores: seq<Store>, calls: seq<Call>, policies: seq<Policy>, lo: int, hi: int, n: nat, job: LimitedJob, now: int)
    requires IsStoreRun(stores, calls, policies, lo, hi) && n <= |calls| && (n > 0 ==> calls[n - 1].now <= now)
    ensures Fit(stores[n], Applicable(job, policies), now)
  {
    StoreStaysFit(stores, calls, policies, lo, hi, n, now);
    forall p | p in Applicable(job, policies) ensures |Pruned(KeyOf(stores[n], p), p, now)| <= p.limit {
      KeyPruneIsWhole(KeyOf(stores[n], p), p, now, hi, now);
    }
  }

  /** So, in any run, a denied job is admitted again, other traffic aside, exactly from the decision's retry time on. */
  lemma RetryTimeIsExactInRuns(stores: seq<Store>, calls: seq<Call>, policies: seq<Policy>, lo: int, hi: int, n: nat,
                               job: LimitedJob, attempts: int, ttl: int, now: int, later: int)
    requires IsStoreRun(stores, calls, policies, lo, hi) && n <= |calls| && (n > 0 ==> calls[n - 1].now <= now) && now <= later
    requires !Evaluate(stores[n], policies, job, ttl, now).1.allowed
    ensures var (t, d) := Evaluate(stores[n], policies, job, ttl, now);
            && d.retryAt.Some? && d.retryAt.value > now
            && (Evaluate(t, policies, job.(attempts := attempts), ttl, later).1.allowed <==> later >= d.retryAt.value)
  {
    RunsAreFit(stores, calls, policies, lo, hi, n, job, now);
    RetryTimeIsExact(stores[n], policies, job, attempts, ttl, now, later);
  }
}
