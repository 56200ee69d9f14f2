/**
 * Fan-in: the workers that finish the dependencies of one blocked job, each marking its own job before scanning its
 * dependents, interleaved with the service that submits the job.
 */
module FanIn {
  import opened Redis
  import opened Domain

  datatype Policy = Block | AllowFailed

  predicate Satisfies(policy: Policy, state: JobState) {
    if policy.AllowFailed? then state.Terminal() else state.Completed?
  }

  /** Under the block policy a dependency has to be completed; failed and cancelled ones will do where failure is allowed. */
  lemma PolicyAsks(policy: Policy, state: JobState)
    ensures policy == Block ==> (Satisfies(policy, state) <==> state == Completed)
    ensures policy == AllowFailed ==> (Satisfies(policy, state) <==> state == Completed || state == Failed || state == Canceled)
  {}

  // ----- One scan, on its own -----

  /** A row of the jobs table, as far as the scan looks at it. */
  datatype Row = Row(state: JobState, runAt: int)

  class Runtime {
    var rows: map<Id, Row>
    const edges: map<Id, seq<Id>>
    const policies: map<Id, Policy>
    var enqueued: seq<Id>

    constructor (rows: map<Id, Row>, edges: map<Id, seq<Id>>, policies: map<Id, Policy>)
      ensures this.rows == rows && this.edges == edges && this.policies == policies && enqueued == []
    {
      this.rows, this.edges, this.policies, enqueued := rows, edges, policies, [];
    }

    function EdgesOf(id: Id): seq<Id> {
      if id in edges then edges[id] else []
    }

    function PolicyOf(id: Id): Policy {
      if id in policies then policies[id] else Block
    }

    /**
     * Ready exactly when every dependency can be loaded and is completed, or, if the job allows failure, has failed or
     * been cancelled.
     */
    method DependencyReadiness(job: Id) returns (ready: bool)
      ensures ready <==> forall d :: d in EdgesOf(job) ==> d in rows && Satisfies(PolicyOf(job), rows[d].state)
      ensures ready <==> (job in edges ==> forall d :: d in edges[job] ==> d in rows && Allows(job, rows[d].state))
    {
      var dependencies := EdgesOf(job);
      if |dependencies| == 0 { return true; }
      var allSatisfied := true;
      for i := 0 to |dependencies|
        invariant allSatisfied <==> forall n :: 0 <= n < i ==> dependencies[n] in rows && Satisfies(PolicyOf(job), rows[dependencies[n]].state)
      {
        if dependencies[i] !in rows { return false; }
        var state := rows[dependencies[i]].state;
        match PolicyOf(job) {
          case AllowFailed =>
            if state != Completed && state != Failed && state != Canceled { allSatisfied := false; }
          case Block =>
            if state == Failed || state == Canceled { return false; }
            if state != Completed { allSatisfied := false; }
        }
      }
      return allSatisfied;
    }

    /** A job without a stored policy has the block policy. */
    predicate Allows(job: Id, state: JobState) {
      || state == Completed
      || (job in policies && policies[job] == AllowFailed && (state == Failed || state == Canceled))
    }

    /** What it takes to let a listed job go, and what its row then says. */
    lemma ReleaseExact(rows: map<Id, Row>, dependents: seq<Id>, now: int, id: Id)
      requires id in rows
      ensures Released(rows, id) <==> rows[id].state == Blocked && (id in edges ==> forall d :: d in edges[id] ==> d in rows && Allows(id, rows[d].state))
      ensures id in dependents && Released(rows, id) ==>
                RowAfter(rows, dependents, now, id) == rows[id].(state := if rows[id].runAt > now then Scheduled else Queued)
      ensures id !in dependents || !Released(rows, id) ==> RowAfter(rows, dependents, now, id) == rows[id]
    {}

    /** The chosen jobs are the listed ones that are let go, each once and in the order of the list. */
    lemma {:induction false} ChosenExact(rows: map<Id, Row>, dependents: seq<Id>)
      ensures forall id :: id in Chosen(rows, dependents) <==> id in dependents && Released(rows, id)
      ensures Distinct(dependents) ==> Distinct(Chosen(rows, dependents))
      ensures dependents != [] ==>
                var last := dependents[|dependents| - 1];
                Chosen(rows, dependents) == Chosen(rows, dependents[..|dependents| - 1]) + (if Released(rows, last) then [last] else [])
      decreases |dependents|
    {
      if dependents != [] {
        var rest, last := dependents[..|dependents| - 1], dependents[|dependents| - 1];
        assert dependents == rest + [last];
        ChosenExact(rows, rest);
        if Distinct(dependents) {
          assert last !in rest;
          assert last !in Chosen(rows, rest);
        }
      }
    }

    /** Whether the rows let a listed job go: it is blocked, and its dependencies are satisfied. */
    predicate Released(rows: map<Id, Row>, id: Id) {
      && id in rows && rows[id].state.Blocked?
      && forall d :: d in EdgesOf(id) ==> d in rows && Satisfies(PolicyOf(id), rows[d].state)
    }

    /** A row after a scan over `dependents`. */
    function RowAfter(rows: map<Id, Row>, dependents: seq<Id>, now: int, id: Id): Row
      requires id in rows
    {
      if id in dependents && Released(rows, id) then rows[id].(state := if rows[id].runAt > now then Scheduled else Queued)
      else rows[id]
    }

    /** Rows released earlier in the same scan were unfinished before and still are. */
    lemma SameRelease(before: map<Id, Row>, rows: map<Id, Row>, dependents: seq<Id>, now: int, id: Id)
      requires rows.Keys == before.Keys && forall x :: x in rows ==> rows[x] == RowAfter(before, dependents, now, x)
      requires id in rows && id !in dependents
      ensures Released(rows, id) == Released(before, id)
    {
      forall d | d in rows ensures Satisfies(PolicyOf(id), rows[d].state) == Satisfies(PolicyOf(id), before[d].state) {
        assert rows[d] == RowAfter(before, dependents, now, d);
      }
    }

    /** `dependents` is the list read at the start of the scan, each job once. */
    method ResolveDependents(dependents: seq<Id>, now: int)
      requires Distinct(dependents) && forall id :: id in dependents ==> id in rows
      modifies this`rows, this`enqueued
      ensures enqueued == old(enqueued) + Chosen(old(rows), dependents)
      ensures rows.Keys == old(rows).Keys
      ensures forall id :: id in rows ==> rows[id] == RowAfter(old(rows), dependents, now, id)
    {
      ghost var before := rows;
      for i := 0 to |dependents|
        invariant enqueued == old(enqueued) + Chosen(before, dependents[..i])
        invariant rows.Keys == before.Keys
        invariant forall id :: id in rows ==> rows[id] == RowAfter(before, dependents[..i], now, id)
      {
        var id := dependents[i];
        assert dependents[..i + 1][..i] == dependents[..i];
        assert forall x :: x in dependents[..i + 1] <==> x in dependents[..i] || x == id;
        SameRelease(before, rows, dependents[..i], now, id);
        if rows[id].state.Blocked? {
          var ready := DependencyReadiness(id);
          if ready {
            enqueued := enqueued + [id];
            rows := rows[id := rows[id].(state := if rows[id].runAt > now then Scheduled else Queued)];
          }
        }
      }
      assert dependents[..|dependents|] == dependents;
    }

    /** The listed jobs the rows let go, in order. */
    function Chosen(rows: map<Id, Row>, dependents: seq<Id>): seq<Id> {
      if dependents == [] then []
      else
        var chosen := Chosen(rows, dependents[..|dependents| - 1]);
        var id := dependents[|dependents| - 1];
        if Released(rows, id) then chosen + [id] else chosen
    }
  }

  // ----- Concurrent scans -----

  /** How each dependency ends, whether a worker scans afterwards (a lease recovery or a cancel does not), and the job's policy. */
  datatype Setup = Setup(final: seq<JobState>, scans: seq<bool>, policy: Policy)
  {
    predicate Valid() {
      |final| == |scans| && forall d :: 0 <= d < |final| ==> final[d].Terminal()
    }
    predicate Satisfied() { forall d :: 0 <= d < |final| ==> Satisfies(policy, final[d]) }
    predicate AllScan() { forall d :: 0 <= d < |scans| ==> scans[d] }
  }

  /** Where the worker of one dependency is. */
  datatype Pc = Working | Marked | Reading(next: nat, satisfied: bool) | Waking | Woke | Done

  datatype State = State(
    finished: seq<bool>,   // the repository shows the dependency's final state
    pcs: seq<Pc>,
    committed: bool,       // the job's row and edges are stored
    rowBlocked: bool,      // the row says blocked
    wakes: nat)            // runnable enqueues so far

  datatype Event =
    | Commit                // the service stores the row and the edges
    | Submit                // and then hands the blocked job to the broker (Dependents says what that does there)
    | Finish(d: nat)        // a dependency's final state is marked
    | List(d: nat)          // its worker lists the dependents
    | Read(d: nat)          // and loads one dependency after the other
    | Settle(d: nat, rewrite: bool)  // not ready: perhaps writes the row back as blocked
    | Wake(d: nat)          // ready: enqueues the job
    | MarkRow(d: nat)       // and then marks its row
    | Onward                // the woken job's row moves on

  function Start(setup: Setup): State {
    State(seq(|setup.final|, _ => false), seq(|setup.final|, _ => Working), false, false, 0)
  }

  predicate Shaped(s: State, setup: Setup) { |s.finished| == |s.pcs| == |setup.final| }

  predicate Legal(s: State, e: Event, setup: Setup)
    requires Shaped(s, setup) && setup.Valid()
  {
    match e
    case Commit => !s.committed
    case Submit => s.committed
    case Finish(d) => d < |s.pcs| && s.pcs[d].Working?
    case List(d) => d < |s.pcs| && s.pcs[d].Marked?
    case Read(d) => d < |s.pcs| && s.pcs[d].Reading? && s.pcs[d].next < |setup.final|
    case Settle(d, _) => d < |s.pcs| && s.pcs[d].Reading? && s.pcs[d].next >= |setup.final| && !s.pcs[d].satisfied
    case Wake(d) => d < |s.pcs| && s.pcs[d].Reading? && s.pcs[d].next >= |setup.final| && s.pcs[d].satisfied
    case MarkRow(d) => d < |s.pcs| && s.pcs[d].Woke?
    case Onward => s.committed && s.wakes > 0
  }

  /** One dependency loaded: an unfinished one clears the flag, and a failed one under the block policy ends the scan. */
  function AfterRead(s: State, setup: Setup, pc: Pc): Pc
    requires Shaped(s, setup) && pc.Reading? && pc.next < |setup.final|
  {
    if !s.finished[pc.next] then Reading(pc.next + 1, false)
    else if Satisfies(setup.policy, setup.final[pc.next]) then Reading(pc.next + 1, pc.satisfied)
    else Reading(|setup.final|, false)
  }

  function Next(s: State, e: Event, setup: Setup): (t: State)
    requires Shaped(s, setup) && setup.Valid() && Legal(s, e, setup)
    ensures Shaped(t, setup)
  {
    match e
    case Commit => s.(committed := true, rowBlocked := true)
    case Submit => s
    case Finish(d) => s.(finished := s.finished[d := true], pcs := s.pcs[d := if setup.scans[d] then Marked else Done])
    case List(d) => s.(pcs := s.pcs[d := if s.committed && s.rowBlocked then Reading(0, true) else Done])
    case Read(d) => s.(pcs := s.pcs[d := AfterRead(s, setup, s.pcs[d])])
    case Settle(d, rewrite) => s.(pcs := s.pcs[d := Done], rowBlocked := s.rowBlocked || rewrite)
    case Wake(d) => s.(pcs := s.pcs[d := Woke], wakes := s.wakes + 1)
    case MarkRow(d) => s.(pcs := s.pcs[d := Done], rowBlocked := false)
    case Onward => s.(rowBlocked := false)
  }

  ghost predicate IsRun(states: seq<State>, log: seq<Event>, setup: Setup) {
    && setup.Valid() && |states| == |log| + 1 && states[0] == Start(setup)
    && (forall i :: 0 <= i < |states| ==> Shaped(states[i], setup))
    && forall i {:trigger log[i]} :: 0 <= i < |log| ==> Legal(states[i], log[i], setup) && states[i + 1] == Next(states[i], log[i], setup)
  }

  /** Everything has been finished and scanned. */
  ghost predicate Quiet(s: State) {
    && s.committed && (forall d :: 0 <= d < |s.pcs| ==> s.pcs[d].Done?)
  }

  // ----- Invariants -----

  /** What the log so far says about the worker of dependency `d`. */
  ghost predicate Logged(s: State, log: seq<Event>, setup: Setup, d: nat)
    requires Shaped(s, setup) && setup.Valid() && d < |setup.final|
  {
    && (s.finished[d] <==> !s.pcs[d].Working?)
    && (s.finished[d] <==> Finish(d) in log)
    && (s.pcs[d].Marked? ==> setup.scans[d])
    && (setup.scans[d] && !s.pcs[d].Working? ==> (s.pcs[d].Marked? <==> List(d) !in log))
    && (List(d) in log ==> s.finished[d])
  }

  lemma LogStep(s: State, log: seq<Event>, e: Event, setup: Setup, d: nat)
    requires Shaped(s, setup) && setup.Valid() && d < |setup.final| && Legal(s, e, setup) && Logged(s, log, setup, d)
    ensures Logged(Next(s, e, setup), log + [e], setup, d)
  {
    assert Finish(d) in log + [e] <==> Finish(d) in log || e == Finish(d);
    assert List(d) in log + [e] <==> List(d) in log || e == List(d);
  }

  lemma {:induction false} LogHolds(states: seq<State>, log: seq<Event>, setup: Setup, n: nat, d: nat)
    requires IsRun(states, log, setup) && n <= |log| && d < |setup.final|
    ensures Logged(states[n], log[..n], setup, d)
  {
    if n > 0 {
      LogHolds(states, log, setup, n - 1, d);
      LogStep(states[n - 1], log[..n - 1], log[n - 1], setup, d);
      assert log[..n] == log[..n - 1] + [log[n - 1]];
    }
  }

  lemma {:induction false} CommitLogged(states: seq<State>, log: seq<Event>, setup: Setup, n: nat)
    requires IsRun(states, log, setup) && n <= |log|
    ensures states[n].committed <==> Commit in log[..n]
  {
    if n > 0 {
      CommitLogged(states, log, setup, n - 1);
      assert Legal(states[n - 1], log[n - 1], setup);
      assert log[..n] == log[..n - 1] + [log[n - 1]];
      assert Commit in log[..n] <==> Commit in log[..n - 1] || log[n - 1] == Commit;
    }
  }

  /** A worker past a good reading has only seen dependencies that are finished as the policy wants; wakes follow such readings. */
  ghost predicate ReadingsTrue(s: State, setup: Setup)
    requires Shaped(s, setup)
  {
    && (forall d :: 0 <= d < |s.pcs| && s.pcs[d].Reading? && s.pcs[d].satisfied ==>
          forall n :: 0 <= n < s.pcs[d].next && n < |setup.final| ==> s.finished[n] && Satisfies(setup.policy, setup.final[n]))
    && (s.wakes > 0 ==> forall n :: 0 <= n < |setup.final| ==> s.finished[n] && Satisfies(setup.policy, setup.final[n]))
    && (s.committed && !s.rowBlocked ==> s.wakes > 0)
    && (forall d :: 0 <= d < |s.pcs| && s.pcs[d].Woke? ==> s.wakes > 0)
  }

  lemma ReadingsStep(s: State, e: Event, setup: Setup)
    requires Shaped(s, setup) && setup.Valid() && Legal(s, e, setup) && ReadingsTrue(s, setup)
    ensures ReadingsTrue(Next(s, e, setup), setup)
  {}

  lemma {:induction false} ReadingsHold(states: seq<State>, log: seq<Event>, setup: Setup, n: nat)
    requires IsRun(states, log, setup) && n <= |log|
    ensures ReadingsTrue(states[n], setup)
  {
    if n > 0 {
      ReadingsHold(states, log, setup, n - 1);
      ReadingsStep(states[n - 1], log[n - 1], setup);
    }
  }

  /** The job is only ever woken once all its dependencies are finished as its policy wants. */
  lemma NeverAheadOfDependencies(states: seq<State>, log: seq<Event>, setup: Setup, n: nat)
    requires IsRun(states, log, setup) && n <= |log| && states[n].wakes > 0
    ensures setup.Satisfied() && forall d :: 0 <= d < |setup.final| ==> states[n].finished[d]
    ensures forall d :: 0 <= d < |setup.final| ==>
              setup.final[d] == Completed || (setup.policy == AllowFailed && (setup.final[d] == Failed || setup.final[d] == Canceled))
  {
    ReadingsHold(states, log, setup, n);
  }

  /** A scan that listed the job at step `p` and will not wake it was too early for some dependency. */
  ghost predicate TooEarly(log: seq<Event>, setup: Setup, p: nat)
    requires p < |log|
  {
    exists d: nat :: d < |setup.final| && Finish(d) !in log[..p]
  }

  ghost predicate GaveUp(pc: Pc) { pc.Done? || (pc.Reading? && !pc.satisfied) }

  /** The step at which a scan goes bad is one that reads a dependency not finished yet. */
  lemma ScanGoesBad(s: State, e: Event, setup: Setup, w: nat)
    requires setup.Valid() && setup.Satisfied() && Shaped(s, setup) && Legal(s, e, setup) && ReadingsTrue(s, setup)
    requires w < |s.pcs| && !GaveUp(s.pcs[w]) && !s.pcs[w].Working?
    requires e != List(w) && GaveUp(Next(s, e, setup).pcs[w]) && Next(s, e, setup).wakes == 0
    ensures s.pcs[w].Reading? && s.pcs[w].next < |setup.final| && !s.finished[s.pcs[w].next]
  {}

  lemma {:induction false} ScansExplained(states: seq<State>, log: seq<Event>, setup: Setup, n: nat, p: nat)
    requires IsRun(states, log, setup) && setup.Satisfied() && p < n <= |log| && log[p].List? && Commit in log[..p]
    requires log[p].d < |setup.final| && states[n].wakes == 0 && GaveUp(states[n].pcs[log[p].d])
    ensures TooEarly(log, setup, p)
    decreases n
  {
    var w := log[p].d;
    var s, e := states[n - 1], log[n - 1];
    assert Legal(s, e, setup) && states[n] == Next(s, e, setup);
    ReadingsHold(states, log, setup, n - 1);
    if n - 1 == p {
      CommitLogged(states, log, setup, p);
    } else if GaveUp(s.pcs[w]) {
      ScansExplained(states, log, setup, n - 1, p);
    } else {
      ListedOnce(states, log, setup, n - 1, p);
      ScanGoesBad(s, e, setup, w);
      UnfinishedIsEarly(states, log, setup, n - 1, p, s.pcs[w].next);
    }
  }

  lemma UnfinishedIsEarly(states: seq<State>, log: seq<Event>, setup: Setup, n: nat, p: nat, d: nat)
    requires IsRun(states, log, setup) && p <= n <= |log| && p < |log| && d < |setup.final| && !states[n].finished[d]
    ensures TooEarly(log, setup, p)
  {
    LogHolds(states, log, setup, n, d);
    assert forall x :: x in log[..p] ==> x in log[..n];
  }

  /** A worker that has listed is past that point for good. */
  lemma {:induction false} ListedOnce(states: seq<State>, log: seq<Event>, setup: Setup, n: nat, p: nat)
    requires IsRun(states, log, setup) && p < n <= |log| && log[p].List?
    ensures log[p].d < |states[n].pcs| && !states[n].pcs[log[p].d].Working? && !states[n].pcs[log[p].d].Marked?
    decreases n
  {
    assert Legal(states[n - 1], log[n - 1], setup);
    if n - 1 > p { ListedOnce(states, log, setup, n - 1, p); }
  }

  // ----- Main results -----

  /** Some worker listed the dependents after the job was stored and after every dependency that nobody scans for was finished. */
  ghost predicate CoveringScan(log: seq<Event>, setup: Setup) {
    exists p: nat :: p < |log| && Covers(log, setup, p)
  }

  ghost predicate Covers(log: seq<Event>, setup: Setup, p: nat)
    requires p < |log|
  {
    && log[p].List? && Commit in log[..p]
    && forall d: nat :: d < |setup.scans| && !setup.scans[d] ==> Finish(d) in log[..p]
  }

  lemma LastScan(log: seq<Event>, p: nat) returns (last: nat)
    requires p < |log| && log[p].List?
    ensures p <= last < |log| && log[last].List? && forall q :: last < q < |log| ==> !log[q].List?
  {
    last := p;
    var q := p + 1;
    while q < |log|
      invariant p <= last < q <= |log| && log[last].List?
      invariant forall r :: last < r < q ==> !log[r].List?
    {
      if log[q].List? { last := q; }
      q := q + 1;
    }
  }

  /**
   * No lost wake-up: if the finished dependencies satisfy the policy and one scan began after the job was stored
   * (and after every unscanned finish), then once everything is quiet the job has been enqueued at least once.
   */
  lemma NoLostWakeUp(states: seq<State>, log: seq<Event>, setup: Setup)
    requires IsRun(states, log, setup) && setup.Satisfied() && Quiet(states[|log|]) && CoveringScan(log, setup)
    ensures states[|log|].wakes > 0
  {
    var n := |log|;
    if states[n].wakes == 0 {
      var p: nat :| p < |log| && Covers(log, setup, p);
      var last := LastScan(log, p);
      assert forall e :: e in log[..p] ==> e in log[..last];
      assert Legal(states[last], log[last], setup);
      ScansExplained(states, log, setup, n, last);
      var d: nat :| d < |setup.final| && Finish(d) !in log[..last];
      LogHolds(states, log, setup, n, d);
      assert log[..n] == log;
      assert setup.scans[d];
      var q: nat :| q < |log| && log[q] == List(d);
      assert q <= last;
      LogHolds(states, log, setup, q, d);
      assert Legal(states[q], log[q], setup);
      assert forall e :: e in log[..q] ==> e in log[..last];
      assert false;
    }
  }

  /** And a job that no worker ever lists after it was stored is never woken. */
  lemma {:induction false} WakesComeFromScans(states: seq<State>, log: seq<Event>, setup: Setup, n: nat)
    requires IsRun(states, log, setup) && n <= |log|
    requires forall p :: 0 <= p < n && log[p].List? ==> Commit !in log[..p]
    ensures states[n].wakes == 0 && forall d :: 0 <= d < |states[n].pcs| ==> !states[n].pcs[d].Reading? && !states[n].pcs[d].Woke?
  {
    if n > 0 {
      WakesComeFromScans(states, log, setup, n - 1);
      CommitLogged(states, log, setup, n - 1);
      assert Legal(states[n - 1], log[n - 1], setup);
    }
  }

  /**
   * With a worker scanning after every dependency, the job is woken exactly when some worker listed its dependents
   * after the job was stored; a job submitted after its dependencies were all scanned stays blocked for good.
   */
  lemma WokenIffListedAfterCommit(states: seq<State>, log: seq<Event>, setup: Setup)
    requires IsRun(states, log, setup) && setup.Satisfied() && setup.AllScan() && Quiet(states[|log|])
    ensures states[|log|].wakes > 0 <==> exists p :: 0 <= p < |log| && log[p].List? && Commit in log[..p]
  {
    if p :| 0 <= p < |log| && log[p].List? && Commit in log[..p] {
      assert Covers(log, setup, p);
      NoLostWakeUp(states, log, setup);
    } else {
      WakesComeFromScans(states, log, setup, |log|);
    }
  }

  /**
   * Why the unscanned finishes matter: if a dependency that no worker scans for, such as one dead-lettered by lease
   * recovery, is still unfinished when all other workers are through, the job is never woken, whatever its policy.
   */
  lemma {:induction false} UnscannedLastFinishStrands(states: seq<State>, log: seq<Event>, setup: Setup, d: nat, n: nat, m: nat)
    requires IsRun(states, log, setup) && n <= m <= |log| && d < |setup.final| && !setup.scans[d]
    requires !states[n].finished[d] && forall x :: 0 <= x < |setup.final| && x != d ==> states[n].pcs[x].Done?
    ensures states[m].wakes == 0 && (states[m].pcs[d].Working? || states[m].pcs[d].Done?)
    ensures forall x :: 0 <= x < |setup.final| && x != d ==> states[m].pcs[x].Done?
    decreases m
  {
    if m == n {
      ReadingsHold(states, log, setup, n);
      LogHolds(states, log, setup, n, d);
    } else {
      UnscannedLastFinishStrands(states, log, setup, d, n, m - 1);
      assert Legal(states[m - 1], log[m - 1], setup) && states[m] == Next(states[m - 1], log[m - 1], setup);
    }
  }

  // ----- Which setups are safe -----

  lemma Extend(states: seq<State>, log: seq<Event>, setup: Setup, e: Event) returns (after: seq<State>, more: seq<Event>)
    requires IsRun(states, log, setup) && Legal(states[|log|], e, setup)
    ensures IsRun(after, more, setup) && after[|more|] == Next(states[|log|], e, setup) && more == log + [e] && after[..|states|] == states
  {
    after, more := states + [Next(states[|log|], e, setup)], log + [e];
    forall i | 0 <= i < |more| ensures Legal(after[i], more[i], setup) && after[i + 1] == Next(after[i], more[i], setup) {
      if i < |log| { assert more[i] == log[i] && after[i] == states[i] && after[i + 1] == states[i + 1]; }
    }
  }

  /** Dependency `d` is unfinished, the workers of those before `x` are through, the others have not begun, and the job still waits. */
  ghost predicate Stalled(s: State, setup: Setup, d: nat, x: nat) {
    && Shaped(s, setup) && d < |s.pcs| && s.committed && s.rowBlocked && s.wakes == 0 && !s.finished[d] && s.pcs[d].Working?
    && forall y :: 0 <= y < |s.pcs| && y != d ==> if y < x then s.pcs[y].Done? else s.pcs[y].Working?
  }

  /** The worker of `x` is reading, and once past `d` it has seen that one unfinished. */
  ghost predicate Scanning(s: State, setup: Setup, d: nat, x: nat) {
    && Shaped(s, setup) && d < |s.pcs| && x < |s.pcs| && x != d && Stalled(s.(pcs := s.pcs[x := Done]), setup, d, x + 1)
    && s.pcs[x].Reading? && s.pcs[x].next <= |setup.final| && (s.pcs[x].next > d ==> !s.pcs[x].satisfied)
  }

  lemma ReadingStaysVain(s: State, setup: Setup, d: nat, x: nat)
    requires setup.Valid() && Scanning(s, setup, d, x) && s.pcs[x].next < |setup.final|
    ensures Legal(s, Read(x), setup) && Scanning(Next(s, Read(x), setup), setup, d, x)
    ensures Next(s, Read(x), setup).pcs[x].next > s.pcs[x].next
  {
    var t := Next(s, Read(x), setup);
    assert t.pcs[x := Done] == s.pcs[x := Done];
  }

  lemma {:induction false} ReadInVain(states: seq<State>, log: seq<Event>, setup: Setup, d: nat, x: nat) returns (after: seq<State>, more: seq<Event>)
    requires IsRun(states, log, setup) && log != [] && Scanning(states[|log|], setup, d, x)
    ensures IsRun(after, more, setup) && more != [] && more[0] == log[0] && Stalled(after[|more|], setup, d, x + 1)
    decreases |setup.final| - states[|log|].pcs[x].next
  {
    var s := states[|log|];
    if s.pcs[x].next < |setup.final| {
      ReadingStaysVain(s, setup, d, x);
      after, more := Extend(states, log, setup, Read(x));
      after, more := ReadInVain(after, more, setup, d, x);
    } else {
      after, more := Extend(states, log, setup, Settle(x, false));
    }
  }

  /** The worker of any other dependency finishes and scans, if it does, without waking the job. */
  lemma ScanInVain(states: seq<State>, log: seq<Event>, setup: Setup, d: nat, x: nat) returns (after: seq<State>, more: seq<Event>)
    requires IsRun(states, log, setup) && log != [] && Stalled(states[|log|], setup, d, x) && x < |setup.final| && x != d
    ensures IsRun(after, more, setup) && more != [] && more[0] == log[0] && Stalled(after[|more|], setup, d, x + 1)
  {
    after, more := Extend(states, log, setup, Finish(x));
    if setup.scans[x] {
      after, more := Extend(after, more, setup, List(x));
      after, more := ReadInVain(after, more, setup, d, x);
    }
  }

  lemma {:induction false} StallRun(setup: Setup, d: nat, x: nat) returns (states: seq<State>, log: seq<Event>)
    requires setup.Valid() && d < |setup.final| && x <= |setup.final|
    ensures IsRun(states, log, setup) && log != [] && log[0] == Commit && Stalled(states[|log|], setup, d, x)
    decreases x
  {
    if x == 0 {
      states, log := [Start(setup)], [];
      states, log := Extend(states, log, setup, Commit);
    } else {
      states, log := StallRun(setup, d, x - 1);
      if x - 1 != d { states, log := ScanInVain(states, log, setup, d, x - 1); }
    }
  }

  /** A dependency that nobody scans for can end last, and then the job waits for good. */
  lemma UnscannedCanStrand(setup: Setup, d: nat) returns (states: seq<State>, log: seq<Event>)
    requires setup.Valid() && d < |setup.final| && !setup.scans[d]
    ensures IsRun(states, log, setup) && log != [] && log[0] == Commit && Quiet(states[|log|]) && states[|log|].wakes == 0
  {
    states, log := StallRun(setup, d, |setup.final|);
    states, log := Extend(states, log, setup, Finish(d));
  }

  /** In every run in which the job is stored first, once everything is quiet the job has been enqueued. */
  ghost predicate AlwaysWakes(setup: Setup) {
    forall states: seq<State>, log: seq<Event> {:trigger IsRun(states, log, setup)} ::
      IsRun(states, log, setup) && log != [] && log[0] == Commit && Quiet(states[|log|]) ==> states[|log|].wakes > 0
  }

  lemma StoredFirstWakes(states: seq<State>, log: seq<Event>, setup: Setup)
    requires IsRun(states, log, setup) && log != [] && log[0] == Commit && Quiet(states[|log|])
    requires setup.Satisfied() && setup.AllScan() && setup.final != []
    ensures states[|log|].wakes > 0
  {
    LogHolds(states, log, setup, |log|, 0);
    assert log[..|log|] == log;
    var p :| 0 <= p < |log| && log[p] == List(0);
    assert log[..p][0] == Commit;
    WokenIffListedAfterCommit(states, log, setup);
  }

  /**
   * For dependencies that all end as the policy wants, a wake-up is certain exactly if every one of them ends under a
   * worker that scans; one that is dead-lettered by lease recovery, or cancelled, is enough to lose it.
   */
  lemma WakesExactlyIfAllScan(setup: Setup)
    requires setup.Valid() && setup.Satisfied() && setup.final != []
    ensures AlwaysWakes(setup) <==> setup.AllScan()
  {
    if setup.AllScan() {
      forall states: seq<State>, log: seq<Event>
        | IsRun(states, log, setup) && log != [] && log[0] == Commit && Quiet(states[|log|])
        ensures states[|log|].wakes > 0
      {
        StoredFirstWakes(states, log, setup);
      }
    } else {
      var d: nat :| d < |setup.scans| && !setup.scans[d];
      var states, log := UnscannedCanStrand(setup, d);
    }
  }

  // ----- A job stored after its dependencies' scans -----

  /** The workers of the dependencies before `x` have finished and scanned before the job was stored. */
  ghost predicate TooSoon(s: State, setup: Setup, x: nat) {
    && Shaped(s, setup) && !s.committed && s.wakes == 0
    && forall y :: 0 <= y < |s.pcs| ==> if y < x then s.pcs[y].Done? else s.pcs[y].Working?
  }

  lemma {:induction false} ScannedTooSoon(setup: Setup, x: nat) returns (states: seq<State>, log: seq<Event>)
    requires setup.Valid() && x <= |setup.final|
    ensures IsRun(states, log, setup) && TooSoon(states[|log|], setup, x)
    decreases x
  {
    if x == 0 {
      states, log := [Start(setup)], [];
    } else {
      states, log := ScannedTooSoon(setup, x - 1);
      states, log := Extend(states, log, setup, Finish(x - 1));
      if setup.scans[x - 1] { states, log := Extend(states, log, setup, List(x - 1)); }
    }
  }

  /** For every setup there is a run in which all scans come before the job is stored, and nothing ever wakes it. */
  lemma StoredLastIsNeverWoken(setup: Setup) returns (states: seq<State>, log: seq<Event>)
    requires setup.Valid()
    ensures IsRun(states, log, setup) && Quiet(states[|log|]) && states[|log|].wakes == 0
  {
    states, log := ScannedTooSoon(setup, |setup.final|);
    states, log := Extend(states, log, setup, Commit);
  }

  // ----- How often it is woken -----

  /** Only the worker of `x` has got past marking its own job, and it has woken the job at most once. */
  ghost predicate OnlyScanner(s: State, setup: Setup, x: nat) {
    && Shaped(s, setup) && s.wakes <= 1
    && (forall d :: 0 <= d < |s.pcs| && d != x ==> s.pcs[d].Working? || s.pcs[d].Done?)
    && (s.wakes == 1 ==> x < |s.pcs| && (s.pcs[x].Woke? || s.pcs[x].Done?))
  }

  predicate OnlyOneScans(setup: Setup, x: nat) {
    forall d :: 0 <= d < |setup.scans| && setup.scans[d] ==> d == x
  }

  lemma {:induction false} OneScannerWakesOnce(states: seq<State>, log: seq<Event>, setup: Setup, x: nat, n: nat)
    requires IsRun(states, log, setup) && n <= |log| && OnlyOneScans(setup, x)
    ensures OnlyScanner(states[n], setup, x)
  {
    if n > 0 {
      OneScannerWakesOnce(states, log, setup, x, n - 1);
      OneScannerStep(states[n - 1], log[n - 1], setup, x);
    }
  }

  lemma OneScannerStep(s: State, e: Event, setup: Setup, x: nat)
    requires setup.Valid() && OnlyOneScans(setup, x) && OnlyScanner(s, setup, x) && Legal(s, e, setup)
    ensures OnlyScanner(Next(s, e, setup), setup, x)
  {}

  /** All dependencies are finished, nothing has been woken, and the workers that scan stand before their scans. */
  ghost predicate AllMarked(s: State, setup: Setup, x: nat) {
    && Shaped(s, setup) && setup.Valid() && s.committed && s.rowBlocked && s.wakes == 0
    && forall y :: 0 <= y < |s.pcs| ==>
         if y < x then s.finished[y] && s.pcs[y] == (if setup.scans[y] then Marked else Done) else s.pcs[y].Working?
  }

  lemma {:induction false} MarkAll(setup: Setup, x: nat) returns (states: seq<State>, log: seq<Event>)
    requires setup.Valid() && x <= |setup.final|
    ensures IsRun(states, log, setup) && AllMarked(states[|log|], setup, x)
    decreases x
  {
    if x == 0 {
      states, log := [Start(setup)], [];
      states, log := Extend(states, log, setup, Commit);
    } else {
      states, log := MarkAll(setup, x - 1);
      states, log := Extend(states, log, setup, Finish(x - 1));
    }
  }

  /** All is finished as the policy wants and the row still says blocked. */
  ghost predicate Ripe(s: State, setup: Setup) {
    && Shaped(s, setup) && setup.Valid() && setup.Satisfied() && s.committed && s.rowBlocked
    && forall y :: 0 <= y < |s.finished| ==> s.finished[y]
  }

  lemma ReadingStaysGood(s: State, setup: Setup, x: nat)
    requires Ripe(s, setup) && x < |s.pcs| && s.pcs[x].Reading? && s.pcs[x].satisfied && s.pcs[x].next < |setup.final|
    ensures Legal(s, Read(x), setup)
    ensures Next(s, Read(x), setup) == s.(pcs := s.pcs[x := Reading(s.pcs[x].next + 1, true)])
  {}

  lemma {:induction false} ReadToEnd(states: seq<State>, log: seq<Event>, setup: Setup, x: nat, next: nat) returns (after: seq<State>, more: seq<Event>)
    requires IsRun(states, log, setup) && Ripe(states[|log|], setup) && x < |setup.final| && next <= |setup.final|
    requires states[|log|].pcs[x] == Reading(next, true)
    ensures IsRun(after, more, setup)
    ensures after[|more|] == states[|log|].(pcs := states[|log|].pcs[x := Reading(|setup.final|, true)])
    decreases |setup.final| - next
  {
    var s := states[|log|];
    if next < |setup.final| {
      ReadingStaysGood(s, setup, x);
      after, more := Extend(states, log, setup, Read(x));
      assert after[|more|].pcs[x := Reading(|setup.final|, true)] == s.pcs[x := Reading(|setup.final|, true)];
      after, more := ReadToEnd(after, more, setup, x, next + 1);
    } else {
      after, more := states, log;
      assert s.pcs[x := Reading(|setup.final|, true)] == s.pcs;
    }
  }

  /** A scan over finished dependencies, up to just before its wake-up. */
  lemma ScanToWake(states: seq<State>, log: seq<Event>, setup: Setup, x: nat) returns (after: seq<State>, more: seq<Event>)
    requires IsRun(states, log, setup) && Ripe(states[|log|], setup) && x < |setup.final| && states[|log|].pcs[x].Marked?
    ensures IsRun(after, more, setup)
    ensures after[|more|] == states[|log|].(pcs := states[|log|].pcs[x := Reading(|setup.final|, true)])
  {
    after, more := Extend(states, log, setup, List(x));
    assert after[|more|].pcs[x := Reading(|setup.final|, true)] == states[|log|].pcs[x := Reading(|setup.final|, true)];
    after, more := ReadToEnd(after, more, setup, x, 0);
  }

  /** Two scans that both find everything finished before either has woken the job. */
  lemma TwoScansWakeTwice(setup: Setup, a: nat, b: nat) returns (states: seq<State>, log: seq<Event>)
    requires setup.Valid() && setup.Satisfied() && a < |setup.final| && b < |setup.final| && a != b && setup.scans[a] && setup.scans[b]
    ensures IsRun(states, log, setup) && states[|log|].wakes == 2
  {
    states, log := MarkAll(setup, |setup.final|);
    states, log := ScanToWake(states, log, setup, a);
    states, log := ScanToWake(states, log, setup, b);
    states, log := Extend(states, log, setup, Wake(a));
    states, log := Extend(states, log, setup, Wake(b));
  }

  /** In no run is the job woken twice. */
  ghost predicate NeverWokenTwice(setup: Setup) {
    forall states: seq<State>, log: seq<Event>, n: nat {:trigger IsRun(states, log, setup), states[n]} ::
      IsRun(states, log, setup) && n <= |log| ==> states[n].wakes <= 1
  }

  /** For dependencies that end as the policy wants, a wake-up comes at most once exactly if at most one of their workers scans. */
  lemma WokenOnceExactly(setup: Setup)
    requires setup.Valid() && setup.Satisfied()
    ensures NeverWokenTwice(setup) <==> exists x: nat :: OnlyOneScans(setup, x)
  {
    if x: nat :| OnlyOneScans(setup, x) {
      forall states: seq<State>, log: seq<Event>, n: nat | IsRun(states, log, setup) && n <= |log| ensures states[n].wakes <= 1 {
        OneScannerWakesOnce(states, log, setup, x, n);
      }
    } else {
      var a: nat :| a < |setup.scans| && setup.scans[a] by { assert !OnlyOneScans(setup, 0); }
      var b: nat :| b < |setup.scans| && setup.scans[b] && b != a by { assert !OnlyOneScans(setup, a); }
      var states, log := TwoScansWakeTwice(setup, a, b);
    }
  }
}
