/** Idempotent submission: concurrent transactions that store a job and the idempotency record of one scope. */
module Idempotency {
  import opened Redis

  datatype Record = Record(job: Id, firstSeen: int, expires: int)

  const DEFAULT_WINDOW := 15 * 60 * 1000

  function Window(dedupeWindow: int): int { if dedupeWindow <= 0 then DEFAULT_WINDOW else dedupeWindow }

  function RecordOf(job: Id, now: int, dedupeWindow: int): Record { Record(job, now, now + Window(dedupeWindow)) }

  datatype Result = Created(job: Id) | Suppressed(job: Id)

  // ----- One call -----

  class Repository {
    var jobs: set<Id>
    var record: Option<Record>

    constructor ()
      ensures jobs == {} && record == None
    {
      jobs, record := {}, None;
    }

    /**
     * `rival` is the record another transaction commits between this call's lookup and its insert; the database lets
     * that happen only when the lookup found no row.
     */
    method CreateJobWithIdempotency(job: Id, now: int, dedupeWindow: int, rival: Option<Record>) returns (result: Result)
      requires rival.Some? ==> record == None
      modifies this
      ensures result.Created? ==>
                && result.job == job && job in jobs
                && record == Some(Record(job, now, now + (if dedupeWindow > 0 then dedupeWindow else 900_000)))
      ensures match old(record)
              case Some(r) =>
                if r.expires > now then result == Suppressed(r.job) && record == old(record) && jobs == old(jobs)
                else result == Created(job) && record == Some(RecordOf(job, now, dedupeWindow)) && jobs == old(jobs) + {job}
              case None =>
                if rival.Some? then result == Suppressed(rival.value.job) && record == rival && jobs == old(jobs) + {rival.value.job}
                else result == Created(job) && record == Some(RecordOf(job, now, dedupeWindow)) && jobs == old(jobs) + {job}
    {
      var found := record;
      if found.Some? && found.value.expires > now {
        return Suppressed(found.value.job);
      }
      var savedRecord, savedJobs := record, jobs;
      if found.Some? { record := None; }
      jobs := jobs + {job};
      if rival.Some? {
        record, savedRecord := rival, rival;
        savedJobs := savedJobs + {rival.value.job};
      }
      if record.Some? {
        record, jobs := savedRecord, savedJobs;  // unique violation: the transaction is rolled back
        return Suppressed(record.value.job);
      }
      record := Some(RecordOf(job, now, dedupeWindow));
      return Created(job);
    }
  }

  // ----- Concurrent calls on one scope -----

  /** A call: the id of the job it built, its creation time, and the window asked for. */
  datatype Call = Call(job: Id, now: int, dedupeWindow: int)
  {
    function Wanted(): Record { RecordOf(job, now, dedupeWindow) }
  }

  datatype Pc =
    | Begun
    | Selecting(seen: Option<Record>)  // SELECT ... FOR UPDATE, on the row its snapshot shows, perhaps waiting for a lock
    | NoRow                            // no row; the job is inserted, uncommitted
    | Replacing                        // holds the row lock of an expired record, which it deletes; the job is inserted, uncommitted
    | Inserted                         // the new record is inserted, uncommitted
    | Lost                             // unique violation; rolled back
    | Finished(result: Result)
    | Aborted

  /** Committed rows, who holds the lock on the record's row, who has an uncommitted insert, and all records ever committed. */
  datatype State = State(
    record: Option<Record>,
    jobs: set<Id>,
    locker: Option<nat>,
    inserter: Option<nat>,
    pcs: seq<Pc>,
    accepted: seq<Record>)

  datatype Event =
    | Select(i: nat)   // the statement starts
    | Lookup(i: nat)   // and returns
    | Insert(i: nat)   // of the new record
    | Commit(i: nat)
    | ReadBack(i: nat) // of the record that won
    | Abort(i: nat)    // any error or crash before the commit

  predicate Legal(s: State, e: Event) {
    && e.i < |s.pcs|
    && match e
       case Select(i) => s.pcs[i].Begun?
       case Lookup(i) => s.pcs[i].Selecting? && (s.pcs[i].seen.Some? ==> s.locker.None?)
       case Insert(i) => s.pcs[i].Replacing? || (s.pcs[i].NoRow? && (s.record.None? ==> s.inserter.None?))
       case Commit(i) => s.pcs[i].Inserted?
       case ReadBack(i) => s.pcs[i].Lost?
       case Abort(i) => !s.pcs[i].Finished? && !s.pcs[i].Lost?
  }

  function Without(holder: Option<nat>, i: nat): Option<nat> { if holder == Some(i) then None else holder }

  function Next(s: State, e: Event, calls: seq<Call>): State
    requires Legal(s, e) && |calls| == |s.pcs|
  {
    match e
    case Select(i) => s.(pcs := s.pcs[i := Selecting(s.record)])
    case Lookup(i) =>
      // A row deleted while the statement waited is gone, and its replacement is not in the statement's snapshot.
      if s.pcs[i].seen.None? || s.record != s.pcs[i].seen then s.(pcs := s.pcs[i := NoRow])
      else if s.record.value.expires > calls[i].now then s.(pcs := s.pcs[i := Finished(Suppressed(s.record.value.job))])
      else s.(pcs := s.pcs[i := Replacing], locker := Some(i))
    case Insert(i) =>
      if s.pcs[i].NoRow? && s.record.Some? then s.(pcs := s.pcs[i := Lost])
      else s.(pcs := s.pcs[i := Inserted], inserter := Some(i))
    case Commit(i) =>
      s.(record := Some(calls[i].Wanted()), jobs := s.jobs + {calls[i].job}, locker := Without(s.locker, i),
         inserter := Without(s.inserter, i), pcs := s.pcs[i := Finished(Created(calls[i].job))],
         accepted := s.accepted + [calls[i].Wanted()])
    case ReadBack(i) =>
      s.(pcs := s.pcs[i := if s.record.Some? then Finished(Suppressed(s.record.value.job)) else Aborted])
    case Abort(i) => s.(pcs := s.pcs[i := Aborted], locker := Without(s.locker, i), inserter := Without(s.inserter, i))
  }

  ghost predicate IsRun(states: seq<State>, events: seq<Event>, calls: seq<Call>) {
    && |states| == |events| + 1
    && states[0] == State(None, {}, None, None, seq(|calls|, _ => Begun), [])
    && (forall i :: 0 <= i < |states| ==> |states[i].pcs| == |calls|)
    && forall i {:trigger events[i]} :: 0 <= i < |events| ==> Legal(states[i], events[i]) && states[i + 1] == Next(states[i], events[i], calls)
  }

  // ----- Invariant -----

  /** Each accepted record's window ends before the next one begins. */
  ghost predicate Chained(accepted: seq<Record>) {
    && (forall a :: 0 <= a < |accepted| ==> accepted[a].firstSeen < accepted[a].expires)
    && (forall a, b :: 0 <= a < b < |accepted| ==> accepted[a].expires <= accepted[b].firstSeen)
  }

  ghost predicate Inv(s: State, calls: seq<Call>)
    requires |s.pcs| == |calls|
  {
    && Chained(s.accepted)
    && s.record == (if s.accepted == [] then None else Some(s.accepted[|s.accepted| - 1]))
    && s.jobs == (set r | r in s.accepted :: r.job)
    && (forall i :: 0 <= i < |s.pcs| ==>
          match s.pcs[i]
          case Replacing => s.locker == Some(i) && s.record.Some? && s.record.value.expires <= calls[i].now
          case Inserted =>
            s.inserter == Some(i) && (s.record.Some? ==> s.locker == Some(i) && s.record.value.expires <= calls[i].now)
          case Lost => s.record.Some?
          case Finished(result) => exists r :: r in s.accepted && r.job == result.job
          case _ => true)
    && (s.inserter.Some? ==> s.inserter.value < |s.pcs| && s.pcs[s.inserter.value].Inserted?)
    && (s.locker.Some? ==> s.record.Some?)
  }

  lemma CommitKeeps(s: State, i: nat, calls: seq<Call>)
    requires |s.pcs| == |calls| && Inv(s, calls) && Legal(s, Commit(i))
    ensures Inv(Next(s, Commit(i), calls), calls)
  {
    var t := Next(s, Commit(i), calls);
    var new_ := calls[i].Wanted();
    assert forall r :: r in t.accepted <==> r in s.accepted || r == new_;
    assert new_ in t.accepted && new_.job == calls[i].job;
    if s.record.Some? {
      var last := s.accepted[|s.accepted| - 1];
      forall a | 0 <= a < |s.accepted| ensures s.accepted[a].expires <= new_.firstSeen {
        if a < |s.accepted| - 1 { assert s.accepted[a].expires <= last.firstSeen; }
      }
    }
    forall k | 0 <= k < |t.pcs| && t.pcs[k].Finished? ensures exists r :: r in t.accepted && r.job == t.pcs[k].result.job {
      if k != i {
        var r :| r in s.accepted && r.job == s.pcs[k].result.job;
        assert r in t.accepted;
      }
    }
  }

  lemma InsertKeeps(s: State, i: nat, calls: seq<Call>)
    requires |s.pcs| == |calls| && Inv(s, calls) && Legal(s, Insert(i))
    ensures Inv(Next(s, Insert(i), calls), calls)
  {}

  lemma LookupKeeps(s: State, i: nat, calls: seq<Call>)
    requires |s.pcs| == |calls| && Inv(s, calls) && Legal(s, Lookup(i))
    ensures Inv(Next(s, Lookup(i), calls), calls)
  {
    if s.record.Some? { assert s.record.value in s.accepted; }
  }

  lemma AbortKeeps(s: State, i: nat, calls: seq<Call>)
    requires |s.pcs| == |calls| && Inv(s, calls) && Legal(s, Abort(i))
    ensures Inv(Next(s, Abort(i), calls), calls)
  {}

  lemma StepKeeps(s: State, e: Event, calls: seq<Call>)
    requires |s.pcs| == |calls| && Inv(s, calls) && Legal(s, e)
    ensures Inv(Next(s, e, calls), calls)
  {
    match e
    case Commit(i) => CommitKeeps(s, i, calls);
    case Insert(i) => InsertKeeps(s, i, calls);
    case Lookup(i) => LookupKeeps(s, i, calls);
    case Abort(i) => AbortKeeps(s, i, calls);
    case Select(i) =>
    case ReadBack(i) => if s.record.Some? { assert s.record.value in s.accepted; }
  }

  lemma {:induction false} InvHolds(states: seq<State>, events: seq<Event>, calls: seq<Call>, n: nat)
    requires IsRun(states, events, calls) && n <= |events|
    ensures Inv(states[n], calls)
  {
    if n > 0 {
      InvHolds(states, events, calls, n - 1);
      StepKeeps(states[n - 1], events[n - 1], calls);
    }
  }

  // ----- Main results -----

  /** An accepted record is one that a call asked for: its window starts when the call was made and is as long as asked, or 15 minutes. */
  ghost predicate FromCall(r: Record, calls: seq<Call>) {
    exists i :: 0 <= i < |calls| && r == Record(calls[i].job, calls[i].now, calls[i].now + (if calls[i].dedupeWindow > 0 then calls[i].dedupeWindow else 900_000))
  }

  lemma {:induction false} RecordsAreAsked(states: seq<State>, events: seq<Event>, calls: seq<Call>, n: nat)
    requires IsRun(states, events, calls) && n <= |events|
    ensures forall r :: r in states[n].accepted ==> FromCall(r, calls)
  {
    if n > 0 {
      RecordsAreAsked(states, events, calls, n - 1);
      var s, e := states[n - 1], events[n - 1];
      assert Legal(s, e) && states[n] == Next(s, e, calls);
      if e.Commit? { assert FromCall(calls[e.i].Wanted(), calls); }
    }
  }

  /** No instant lies in the windows of two accepted submissions. */
  lemma WindowsAreDisjoint(states: seq<State>, events: seq<Event>, calls: seq<Call>, n: nat, a: nat, b: nat, t: int)
    requires IsRun(states, events, calls) && n <= |events| && a < |states[n].accepted| && b < |states[n].accepted|
    requires states[n].accepted[a].firstSeen <= t < states[n].accepted[a].expires
    requires states[n].accepted[b].firstSeen <= t < states[n].accepted[b].expires
    ensures a == b
  {
    InvHolds(states, events, calls, n);
  }

  /** The job rows are exactly those of accepted records, so a call that lost the race, or failed, leaves none. */
  lemma RowsAreAccepted(states: seq<State>, events: seq<Event>, calls: seq<Call>, n: nat)
    requires IsRun(states, events, calls) && n <= |events|
    ensures forall id :: id in states[n].jobs <==> exists r :: r in states[n].accepted && r.job == id
  {
    InvHolds(states, events, calls, n);
  }

  /** Every result names a stored job. */
  lemma ResultsAreStored(states: seq<State>, events: seq<Event>, calls: seq<Call>, n: nat, i: nat)
    requires IsRun(states, events, calls) && n <= |events| && i < |calls| && states[n].pcs[i].Finished?
    ensures states[n].pcs[i].result.job in states[n].jobs
  {
    InvHolds(states, events, calls, n);
  }

  /**
   * What a call is told is true when it is told: a suppressed call gets the job of the record stored at that moment,
   * which is unexpired if its own lookup found it; a created job's record has become the stored one. A call that
   * loses the race always finds the winner's record.
   */
  lemma ResultsAreCurrent(states: seq<State>, events: seq<Event>, calls: seq<Call>, n: nat)
    requires IsRun(states, events, calls) && n < |events|
    ensures var i, s, t := events[n].i, states[n], states[n + 1];
            && (t.pcs[i].Finished? && t.pcs[i].result.Suppressed? ==>
                  t.record == s.record && t.record.Some? && t.record.value.job == t.pcs[i].result.job
                  && (events[n].Lookup? ==> t.record.value.expires > calls[i].now))
            && (t.pcs[i].Finished? && t.pcs[i].result.Created? ==> t.record == Some(calls[i].Wanted()))
            && (events[n].ReadBack? ==> t.pcs[i].Finished?)
  {
    InvHolds(states, events, calls, n);
    assert Legal(states[n], events[n]);
  }
}
