/** Lease fencing: which acknowledgements get through, over every run, with or without the partition discipline. */
module Fencing {
  import opened Redis
  import opened Domain
  import opened BrokerSpec

  // ----- What happens to one job's lease -----

  predicate GrantsToken(s: State, step: Step, id: Id, token: Token) {
    step.DequeueStep? &&
    var grant := Dequeue(s, ReadyKeys(step.queues), step.worker, step.ttl, step.now).1;
    grant.Some? && grant.value.id == id && grant.value.token == token
  }

  predicate Grants(s: State, step: Step, id: Id) {
    step.DequeueStep? && GrantsToken(s, step, id, LeaseToken(step.worker, id, step.now))
  }

  /** The step acknowledges `id` with a real token and the broker takes it. */
  predicate AcceptsAck(s: State, step: Step, id: Id) {
    match step
    case CompleteStep(x, token, _, _) => x == id && token != NoToken && TokenMatches(s, id, token)
    case FailStep(x, _, token, _, _) => x == id && token != NoToken && TokenMatches(s, id, token)
    case ThrottleStep(x, token, _) => x == id && token != NoToken && TokenMatches(s, id, token)
    case _ => false
  }

  /** The step ends whatever grant `id` had: an accepted acknowledgement, an activation, a recovery, a replay or a new enqueue. */
  predicate Clears(s: State, step: Step, id: Id, c: Config) {
    match step
    case EnqueueStep(x, _, _) => x == id
    case RetryStep(x, _, _) => x == id
    case ActivateStep(limit, now) => id in ActivateDue(s, limit, now).1
    case RecoverStep(limit, now) => exists r :: r in RecoverExpired(s, limit, now, c).1 && r.id == id
    case _ => AcceptsAck(s, step, id)
  }

  // ----- One step -----

  /** A dequeue rewrites at most the hash of the job it grants, and there exactly as a lease does. */
  lemma {:induction false} DequeueJobs(s: State, keys: seq<ReadyKey>, worker: string, ttl: int, now: int)
    ensures var (t, grant) := Dequeue(s, keys, worker, ttl, now);
            match grant
            case None => t.jobs == s.jobs
            case Some(g) => g.id in s.jobs && g.token == LeaseToken(worker, g.id, now) && t.jobs == Lease(s, g.id, worker, ttl, now).jobs
    decreases |keys|
  {
    if keys != [] {
      if s.Ready(keys[0]) == [] { DequeueJobs(s, keys[1..], worker, ttl, now); }
      else { DequeueJobs(PopReady(s, keys[0]), keys[1..], worker, ttl, now); }
    }
  }

  lemma {:induction false} DequeueLeases(s: State, keys: seq<ReadyKey>, worker: string, ttl: int, now: int)
    ensures var (t, grant) := Dequeue(s, keys, worker, ttl, now);
            t.leases == if grant.Some? then s.leases[grant.value.id := now + ttl] else s.leases
    decreases |keys|
  {
    if keys != [] {
      if s.Ready(keys[0]) == [] { DequeueLeases(s, keys[1..], worker, ttl, now); }
      else { DequeueLeases(PopReady(s, keys[0]), keys[1..], worker, ttl, now); }
    }
  }

  lemma {:induction false} ActivateLeases(s: State, ids: seq<Id>)
    ensures ActivateAll(s, ids).0.leases == s.leases
    decreases |ids|
  {
    if ids != [] { ActivateLeases(s, Init(ids)); }
  }

  lemma {:induction false} ActivateJobs(s: State, ids: seq<Id>, id: Id)
    ensures var (t, out) := ActivateAll(s, ids);
            && (id in t.jobs <==> id in s.jobs)
            && (id in out ==>
                  && id in ids && id in s.jobs && t.jobs[id].token == NoToken && t.jobs[id].state.Queued?
                  && t.jobs[id].attempts == s.jobs[id].attempts && t.jobs[id].maxAttempts == s.jobs[id].maxAttempts)
            && (id !in out && id in s.jobs ==> t.jobs[id] == s.jobs[id])
    decreases |ids|
  {
    if ids != [] { ActivateJobs(s, Init(ids), id); }
  }

  lemma RecoverOneJobs(s: State, x: Id, now: int, c: Config, id: Id)
    ensures var (t, record) := RecoverOne(s, x, now, c);
            && (id in t.jobs <==> id in s.jobs)
            && (record.Some? ==> record.value.id == x)
            && (x == id && record.Some? ==>
                  id in s.jobs && t.jobs[id] == RecoverJob(s.jobs[id], now, c) && record.value.state == t.jobs[id].state)
            && ((x != id || record.None?) && id in s.jobs ==> t.jobs[id] == s.jobs[id])
  {
    if x in s.jobs { RecoverJobShape(s.jobs[x], now, c); }
  }

  ghost predicate Names(records: seq<Recovered>, id: Id) { exists r :: r in records && r.id == id }

  lemma {:induction false} RecoverJobs(s: State, ids: seq<Id>, now: int, c: Config, id: Id)
    requires Distinct(ids)
    ensures var (t, out) := RecoverAll(s, ids, now, c);
            && (id in t.jobs <==> id in s.jobs)
            && (Names(out, id) ==> id in s.jobs && id in ids && t.jobs[id] == RecoverJob(s.jobs[id], now, c))
            && (!Names(out, id) && id in s.jobs ==> t.jobs[id] == s.jobs[id])
            && (forall r :: r in out && r.id == id ==> id in t.jobs && r.state == t.jobs[id].state)
    decreases |ids|
  {
    if ids != [] {
      var rest, x := Init(ids), Last(ids);
      assert ids == rest + [x] && x !in rest;
      RecoverJobs(s, rest, now, c, id);
      var (s1, out) := RecoverAll(s, rest, now, c);
      var (t, record) := RecoverOne(s1, x, now, c);
      RecoverOneJobs(s1, x, now, c, id);
      if record.Some? {
        assert forall r :: r in out + [record.value] <==> r in out || r == record.value;
        assert Names(out + [record.value], id) <==> Names(out, id) || x == id;
      }
    }
  }

  /** What a worker's copy of a job and the hash must still agree on for the worker's decisions to be right. */
  predicate SameJob(s: State, t: State, id: Id) {
    && (id in s.jobs <==> id in t.jobs)
    && (id in s.jobs ==>
          && t.jobs[id].attempts == s.jobs[id].attempts && t.jobs[id].maxAttempts == s.jobs[id].maxAttempts
          && t.jobs[id].Key() == s.jobs[id].Key() && t.jobs[id].token == s.jobs[id].token)
  }

  /** A step sets the token by granting, empties it by clearing, and otherwise leaves token, attempts and queue alone. */
  ghost predicate MovesToken(s: State, step: Step, id: Id, c: Config)
    requires Legal(s, step)
  {
    Moves(s, step, Next(s, step, c), id, c)
  }

  ghost predicate Moves(s: State, step: Step, t: State, id: Id, c: Config) {
    && (Grants(s, step, id) ==> t.Token(id) == LeaseToken(step.worker, id, step.now) && !Clears(s, step, id, c))
    && (Clears(s, step, id, c) ==> t.Token(id) == NoToken)
    && (!Grants(s, step, id) && !Clears(s, step, id, c) ==> SameJob(s, t, id))
  }

  lemma HeartbeatMovesToken(s: State, step: Step, id: Id, c: Config)
    requires step.HeartbeatStep?
    ensures MovesToken(s, step, id, c)
  {}

  lemma CompleteMovesToken(s: State, step: Step, id: Id, c: Config)
    requires step.CompleteStep?
    ensures MovesToken(s, step, id, c)
  {}

  lemma FailMovesToken(s: State, step: Step, id: Id, c: Config)
    requires step.FailStep?
    ensures MovesToken(s, step, id, c)
  {}

  lemma ThrottleMovesToken(s: State, step: Step, id: Id, c: Config)
    requires step.ThrottleStep?
    ensures MovesToken(s, step, id, c)
  {}

  lemma EnqueueMovesToken(s: State, step: Step, id: Id, c: Config)
    requires Legal(s, step) && step.EnqueueStep?
    ensures MovesToken(s, step, id, c)
  {}

  lemma RetryMovesToken(s: State, step: Step, id: Id, c: Config)
    requires Legal(s, step) && step.RetryStep?
    ensures MovesToken(s, step, id, c)
  {}

  lemma CancelMovesToken(s: State, step: Step, id: Id, c: Config)
    requires Legal(s, step) && step.CancelStep?
    ensures MovesToken(s, step, id, c)
  {}

  lemma DequeueMovesToken(s: State, step: Step, id: Id, c: Config)
    requires step.DequeueStep?
    ensures MovesToken(s, step, id, c)
  {
    DequeueJobs(s, ReadyKeys(step.queues), step.worker, step.ttl, step.now);
  }

  lemma BatchMovesToken(s: State, step: Step, id: Id, c: Config)
    requires step.ActivateStep? || step.RecoverStep?
    ensures MovesToken(s, step, id, c)
  {
    if step.ActivateStep? { ActivateJobs(s, DueIds(s.delayed, step.now, step.limit), id); }
    else {
      DueIdsExact(s.leases, step.now, step.limit);
      RecoverJobs(s, DueIds(s.leases, step.now, step.limit), step.now, c, id);
      if id in s.jobs { RecoverJobShape(s.jobs[id], step.now, c); }
      assert Clears(s, step, id, c) <==> Names(RecoverExpired(s, step.limit, step.now, c).1, id);
    }
  }

  lemma TokenMoves(s: State, step: Step, id: Id, c: Config)
    requires Legal(s, step)
    ensures MovesToken(s, step, id, c)
  {
    match step
    case DequeueStep(_, _, _, _) => DequeueMovesToken(s, step, id, c);
    case ActivateStep(_, _) => BatchMovesToken(s, step, id, c);
    case RecoverStep(_, _) => BatchMovesToken(s, step, id, c);
    case EnqueueStep(_, _, _) => EnqueueMovesToken(s, step, id, c);
    case RetryStep(_, _, _) => RetryMovesToken(s, step, id, c);
    case CancelStep(_, _, _) => CancelMovesToken(s, step, id, c);
    case HeartbeatStep(_, _, _, _) => HeartbeatMovesToken(s, step, id, c);
    case CompleteStep(_, _, _, _) => CompleteMovesToken(s, step, id, c);
    case FailStep(_, _, _, _, _) => FailMovesToken(s, step, id, c);
    case ThrottleStep(_, _, _) => ThrottleMovesToken(s, step, id, c);
  }

  // ----- Runs -----

  ghost function GrantCount(states: seq<State>, steps: seq<Step>, id: Id, n: nat): nat
    requires n <= |steps| < |states|
  {
    if n == 0 then 0 else GrantCount(states, steps, id, n - 1) + One(Grants(states[n - 1], steps[n - 1], id))
  }

  ghost function AckCount(states: seq<State>, steps: seq<Step>, id: Id, n: nat): nat
    requires n <= |steps| < |states|
  {
    if n == 0 then 0 else AckCount(states, steps, id, n - 1) + One(AcceptsAck(states[n - 1], steps[n - 1], id))
  }

  function One(b: bool): nat { if b then 1 else 0 }

  /** An acknowledgement uses up the token, and only a grant brings one. */
  lemma AckUsesToken(s: State, step: Step, t: State, id: Id, c: Config)
    requires Moves(s, step, t, id, c)
    ensures One(AcceptsAck(s, step, id)) + One(t.Token(id) != NoToken) <= One(s.Token(id) != NoToken) + One(Grants(s, step, id))
  {}

  lemma AckStep(states: seq<State>, steps: seq<Step>, c: Config, id: Id, i: nat)
    requires IsRun(states, steps, c) && i < |steps|
    ensures One(AcceptsAck(states[i], steps[i], id)) + One(states[i + 1].Token(id) != NoToken)
         <= One(states[i].Token(id) != NoToken) + One(Grants(states[i], steps[i], id))
  {
    RunMoves(states, steps, c, id, i);
    AckUsesToken(states[i], steps[i], states[i + 1], id, c);
  }

  lemma {:induction false} CountsAddUp(states: seq<State>, steps: seq<Step>, id: Id, n: nat)
    requires n <= |steps| < |states| && states[0].Token(id) == NoToken
    requires forall i {:trigger steps[i]} :: 0 <= i < |steps| ==>
               One(AcceptsAck(states[i], steps[i], id)) + One(states[i + 1].Token(id) != NoToken)
               <= One(states[i].Token(id) != NoToken) + One(Grants(states[i], steps[i], id))
    ensures AckCount(states, steps, id, n) + One(states[n].Token(id) != NoToken) <= GrantCount(states, steps, id, n)
  {
    if n > 0 {
      CountsAddUp(states, steps, id, n - 1);
      assert steps[n - 1] == steps[n - 1];
    }
  }

  /** Acknowledgements taken for a job, plus the one its current token still allows, never outnumber its grants. */
  lemma AcksWithinGrants(states: seq<State>, steps: seq<Step>, c: Config, id: Id, n: nat)
    requires IsRun(states, steps, c) && n <= |steps|
    ensures AckCount(states, steps, id, n) + One(states[n].Token(id) != NoToken) <= GrantCount(states, steps, id, n)
  {
    forall i {:trigger steps[i]} | 0 <= i < |steps|
      ensures One(AcceptsAck(states[i], steps[i], id)) + One(states[i + 1].Token(id) != NoToken)
           <= One(states[i].Token(id) != NoToken) + One(Grants(states[i], steps[i], id))
    {
      AckStep(states, steps, c, id, i);
    }
    CountsAddUp(states, steps, id, n);
  }

  /** What a step does to the lease of one job. */
  datatype Mark = Granted(token: Token) | Cleared | Untouched

  ghost function MarkOf(s: State, step: Step, id: Id, c: Config): Mark {
    if Grants(s, step, id) then Granted(LeaseToken(step.worker, id, step.now))
    else if Clears(s, step, id, c) then Cleared
    else Untouched
  }

  ghost function Marks(states: seq<State>, steps: seq<Step>, c: Config, id: Id): (r: seq<Mark>)
    requires |steps| < |states|
    ensures |r| == |steps| && forall i {:trigger r[i]} :: 0 <= i < |steps| ==> r[i] == MarkOf(states[i], steps[i], id, c)
  {
    seq(|steps|, i requires 0 <= i < |steps| => MarkOf(states[i], steps[i], id, c))
  }

  /** A grant that nothing has ended or replaced by step `n`. */
  ghost predicate StillHeld(marks: seq<Mark>, g: nat, n: nat)
    requires n <= |marks|
  {
    g < n && marks[g].Granted? && forall j :: g < j < n ==> marks[j].Untouched?
  }

  function TokenAfter(mark: Mark, before: Token): Token {
    match mark
    case Granted(token) => token
    case Cleared => NoToken
    case Untouched => before
  }

  /** How the token in the hash follows the marks. */
  ghost predicate Follows(marks: seq<Mark>, tokens: seq<Token>) {
    && |tokens| == |marks| + 1 && tokens[0] == NoToken
    && forall i {:trigger marks[i]} :: 0 <= i < |marks| ==> tokens[i + 1] == TokenAfter(marks[i], tokens[i])
  }

  lemma {:induction false} FollowsLatestGrant(marks: seq<Mark>, tokens: seq<Token>, token: Token, n: nat)
    requires Follows(marks, tokens) && n <= |marks| && token != NoToken
    ensures tokens[n] == token <==> exists g: nat :: g < |marks| && StillHeld(marks, g, n) && token == marks[g].token
  {
    if n > 0 {
      FollowsLatestGrant(marks, tokens, token, n - 1);
      assert tokens[n] == TokenAfter(marks[n - 1], tokens[n - 1]);
      forall g: nat | g < |marks|
        ensures StillHeld(marks, g, n) <==> if g == n - 1 then marks[g].Granted? else StillHeld(marks, g, n - 1) && marks[n - 1].Untouched?
      {}
    }
  }

  function Tokens(states: seq<State>, id: Id): (r: seq<Token>)
    ensures |r| == |states| && forall i {:trigger r[i]} :: 0 <= i < |states| ==> r[i] == states[i].Token(id)
  {
    seq(|states|, i requires 0 <= i < |states| => states[i].Token(id))
  }

  lemma RunMoves(states: seq<State>, steps: seq<Step>, c: Config, id: Id, i: nat)
    requires IsRun(states, steps, c) && i < |steps|
    ensures Moves(states[i], steps[i], states[i + 1], id, c)
  {
    assert Legal(states[i], steps[i]);
    TokenMoves(states[i], steps[i], id, c);
  }

  lemma RunStepMarks(states: seq<State>, steps: seq<Step>, c: Config, id: Id, i: nat)
    requires IsRun(states, steps, c) && i < |steps|
    ensures states[i + 1].Token(id) == TokenAfter(MarkOf(states[i], steps[i], id, c), states[i].Token(id))
    ensures MarkOf(states[i], steps[i], id, c).Untouched? ==> SameJob(states[i], states[i + 1], id)
  {
    RunMoves(states, steps, c, id, i);
    MarkMoves(states[i], steps[i], states[i + 1], id, c);
  }

  lemma RunFollows(states: seq<State>, steps: seq<Step>, c: Config, id: Id)
    requires IsRun(states, steps, c)
    ensures Follows(Marks(states, steps, c, id), Tokens(states, id))
  {
    var marks, tokens := Marks(states, steps, c, id), Tokens(states, id);
    forall i {:trigger marks[i]} | 0 <= i < |marks| ensures tokens[i + 1] == TokenAfter(marks[i], tokens[i]) {
      RunStepMarks(states, steps, c, id, i);
      assert marks[i] == MarkOf(states[i], steps[i], id, c) && tokens[i] == states[i].Token(id) && tokens[i + 1] == states[i + 1].Token(id);
    }
    assert tokens[0] == EMPTY.Token(id);
  }

  lemma MarkMoves(s: State, step: Step, t: State, id: Id, c: Config)
    requires Moves(s, step, t, id, c)
    ensures t.Token(id) == TokenAfter(MarkOf(s, step, id, c), s.Token(id))
    ensures MarkOf(s, step, id, c).Untouched? ==> SameJob(s, t, id)
  {}

  /** The token in the hash is that of the latest grant, exactly as long as that grant is still held. */
  lemma TokenIsLatestGrant(states: seq<State>, steps: seq<Step>, c: Config, id: Id, token: Token, n: nat)
    requires IsRun(states, steps, c) && n <= |steps| && token != NoToken
    ensures var marks := Marks(states, steps, c, id);
            states[n].Token(id) == token <==> exists g: nat :: g < |marks| && StillHeld(marks, g, n) && token == marks[g].token
  {
    RunFollows(states, steps, c, id);
    FollowsLatestGrant(Marks(states, steps, c, id), Tokens(states, id), token, n);
  }

  /** No two grants of the job carry the same token: no worker is granted it twice within one millisecond. */
  ghost predicate GrantsDiffer(marks: seq<Mark>) {
    forall g, h :: 0 <= g < h < |marks| && marks[g].Granted? && marks[h].Granted? ==> marks[g].token != marks[h].token
  }

  /** The broker would take the token of grant `g` at step `n` exactly if that grant is still held then. */
  ghost predicate Fenced(states: seq<State>, steps: seq<Step>, c: Config, id: Id, g: nat, n: nat)
    requires g < n <= |steps| < |states| && Marks(states, steps, c, id)[g].Granted?
  {
    TokenMatches(states[n], id, Marks(states, steps, c, id)[g].token) <==> StillHeld(Marks(states, steps, c, id), g, n)
  }

  /**
   * Fencing: the holder of grant `g` is acknowledged at step `n` exactly when no acknowledgement, activation,
   * recovery, replay, enqueue or later grant has touched the job since.
   */
  lemma FencedAck(states: seq<State>, steps: seq<Step>, c: Config, id: Id, g: nat, n: nat)
    requires IsRun(states, steps, c) && g < n <= |steps|
    requires var marks := Marks(states, steps, c, id); GrantsDiffer(marks) && marks[g].Granted?
    ensures Fenced(states, steps, c, id, g, n)
  {
    var marks := Marks(states, steps, c, id);
    GrantHasToken(states[g], steps[g], id, c);
    TokenIsLatestGrant(states, steps, c, id, marks[g].token, n);
  }

  /** Every grant of a job is fenced at all times exactly if no two of them carry the same token. */
  lemma FencingIsExact(states: seq<State>, steps: seq<Step>, c: Config, id: Id)
    requires IsRun(states, steps, c)
    ensures var marks := Marks(states, steps, c, id);
            (forall g: nat, n: nat :: g < n <= |steps| && marks[g].Granted? ==> Fenced(states, steps, c, id, g, n)) <==> GrantsDiffer(marks)
  {
    var marks := Marks(states, steps, c, id);
    if GrantsDiffer(marks) {
      forall g: nat, n: nat | g < n <= |steps| && marks[g].Granted? ensures Fenced(states, steps, c, id, g, n) {
        FencedAck(states, steps, c, id, g, n);
      }
    } else {
      var g: nat, h: nat :| g < h < |marks| && marks[g].Granted? && marks[h].Granted? && marks[g].token == marks[h].token;
      TwinGrantUnfences(states, steps, c, id, g, h);
    }
  }

  lemma GrantSets(states: seq<State>, steps: seq<Step>, c: Config, id: Id, h: nat)
    requires IsRun(states, steps, c) && h < |steps| && Marks(states, steps, c, id)[h].Granted?
    ensures TokenMatches(states[h + 1], id, Marks(states, steps, c, id)[h].token)
  {
    RunMoves(states, steps, c, id, h);
    MarkMoves(states[h], steps[h], states[h + 1], id, c);
    GrantHasToken(states[h], steps[h], id, c);
  }

  lemma Superseded(marks: seq<Mark>, g: nat, h: nat)
    requires g < h < |marks| && marks[h].Granted?
    ensures !StillHeld(marks, g, h + 1)
  {}

  /** A later grant with the same token lets the holder of the earlier one through. */
  lemma TwinGrantUnfences(states: seq<State>, steps: seq<Step>, c: Config, id: Id, g: nat, h: nat)
    requires IsRun(states, steps, c) && g < h < |steps|
    requires var marks := Marks(states, steps, c, id); marks[g].Granted? && marks[h].Granted? && marks[g].token == marks[h].token
    ensures !Fenced(states, steps, c, id, g, h + 1)
  {
    GrantSets(states, steps, c, id, h);
    Superseded(Marks(states, steps, c, id), g, h);
  }

  /** A dequeue that finds one leasable job in all the lists it asks leases that one. */
  lemma {:induction false} SoleEntry(s: State, keys: seq<ReadyKey>, k: ReadyKey, id: Id, worker: string, ttl: int, now: int)
    requires k in keys && s.Ready(k) == [id] && forall l :: l in keys && l != k ==> s.Ready(l) == []
    requires id in s.jobs && s.jobs[id].state.Leasable()
    ensures Dequeue(s, keys, worker, ttl, now)
         == (Lease(PopReady(s, k), id, worker, ttl, now), Some(Grant(id, LeaseToken(worker, id, now), s.jobs[id].attempts + 1)))
    decreases |keys|
  {
    if keys[0] != k { SoleEntry(s, keys[1..], k, id, worker, ttl, now); }
  }

  /** Only one list has an entry, and its job can be leased. */
  predicate OnlyReady(s: State, id: Id) {
    && id in s.jobs && s.jobs[id].state.Leasable() && 0 <= s.jobs[id].priority <= 9
    && s.Ready(s.jobs[id].Key()) == [id] && forall l :: l in s.ready && l != s.jobs[id].Key() ==> s.ready[l] == []
  }

  lemma SoleGrant(s: State, id: Id, worker: string, ttl: int, now: int, c: Config)
    requires OnlyReady(s, id)
    ensures var job := s.jobs[id];
            var step := DequeueStep(worker, [job.queue], ttl, now);
            MarkOf(s, step, id, c) == Granted(LeaseToken(worker, id, now)) && Next(s, step, c) == Lease(PopReady(s, job.Key()), id, worker, ttl, now)
  {
    var job := s.jobs[id];
    assert ReadyKeys([job.queue])[9 - job.priority] == job.Key();
    SoleEntry(s, ReadyKeys([job.queue]), job.Key(), id, worker, ttl, now);
  }

  /** Enqueued, granted, replayed and granted again by one worker within one millisecond: two grants with the same token. */
  lemma TwinGrantRun(id: Id, job: Job, worker: string, ttl: int, now: int, c: Config) returns (states: seq<State>, steps: seq<Step>)
    requires Enqueueable(job) && job.state.Queued? && job.runAt <= now && 0 <= job.priority <= 9
    ensures IsRun(states, steps, c) && |steps| == 4
    ensures var marks := Marks(states, steps, c, id);
            marks[1].Granted? && marks[3].Granted? && marks[1].token == marks[3].token && !GrantsDiffer(marks)
  {
    var dequeue := DequeueStep(worker, [job.queue], ttl, now);
    var s1 := Enqueue(EMPTY, id, job, now);
    assert OnlyReady(s1, id);
    SoleGrant(s1, id, worker, ttl, now, c);
    var s2 := Lease(PopReady(s1, job.Key()), id, worker, ttl, now);
    var s3 := Retry(s2, id, job, now);
    assert s2.Ready(job.Key()) == [];
    assert OnlyReady(s3, id);
    SoleGrant(s3, id, worker, ttl, now, c);
    states, steps := TwinStates(s1, s2, s3, id, job, dequeue, now, c);
    assert steps[1] == steps[3] == dequeue && states[1] == s1 && states[3] == s3;
    assert Marks(states, steps, c, id)[1] == MarkOf(s1, dequeue, id, c);
    assert Marks(states, steps, c, id)[3] == MarkOf(s3, dequeue, id, c);
  }

  lemma TwinStates(s1: State, s2: State, s3: State, id: Id, job: Job, dequeue: Step, now: int, c: Config)
    returns (states: seq<State>, steps: seq<Step>)
    requires Enqueueable(job) && s1 == Enqueue(EMPTY, id, job, now) && dequeue.DequeueStep? && s2 == Next(s1, dequeue, c) && s3 == Retry(s2, id, job, now)
    ensures IsRun(states, steps, c) && |steps| == 4 && steps[1] == dequeue && steps[3] == dequeue && states[1] == s1 && states[3] == s3
  {
    steps := [EnqueueStep(id, job, now), dequeue, RetryStep(id, job, now), dequeue];
    states := [EMPTY, s1, s2, s3, Next(s3, dequeue, c)];
    forall i | 0 <= i < |steps| ensures Legal(states[i], steps[i]) && states[i + 1] == Next(states[i], steps[i], c) {
      assert i == 0 || i == 1 || i == 2 || i == 3;
    }
  }

  lemma GrantHasToken(s: State, step: Step, id: Id, c: Config)
    ensures MarkOf(s, step, id, c).Granted? ==> MarkOf(s, step, id, c).token != NoToken
  {}

  lemma HeldKeepsCopy(states: seq<State>, steps: seq<Step>, c: Config, id: Id, g: nat, i: nat, n: nat)
    requires IsRun(states, steps, c) && g < i <= n <= |steps| && StillHeld(Marks(states, steps, c, id), g, n)
    ensures SameJob(states[i], states[n], id)
  {
    var marks := Marks(states, steps, c, id);
    forall j | i <= j < n ensures SameJob(states[j], states[j + 1], id) {
      assert marks[j].Untouched?;
      RunStepMarks(states, steps, c, id, j);
    }
    CopyKept(states, id, i, n);
  }

  lemma {:induction false} CopyKept(states: seq<State>, id: Id, i: nat, n: nat)
    requires i <= n < |states| && forall j :: i <= j < n ==> SameJob(states[j], states[j + 1], id)
    ensures SameJob(states[i], states[n], id)
    decreases n - i
  {
    if i < n { CopyKept(states, id, i + 1, n); }
  }

  /**
   * A worker decides between retry and dead letter on a copy loaded some time after its grant. If its
   * acknowledgement is then accepted, that copy still had the hash's attempts, limit and queue.
   */
  lemma WorkerCopyIsCurrent(states: seq<State>, steps: seq<Step>, c: Config, id: Id, g: nat, i: nat, n: nat)
    requires IsRun(states, steps, c) && g < i <= n <= |steps|
    requires var marks := Marks(states, steps, c, id); GrantsDiffer(marks) && marks[g].Granted? && TokenMatches(states[n], id, marks[g].token)
    ensures SameJob(states[i], states[n], id)
  {
    FencedAck(states, steps, c, id, g, n);
    HeldKeepsCopy(states, steps, c, id, g, i, n);
  }

  /** An empty token is no fence: on a job without a lease it is accepted, here turning a queued job into a completed one. */
  lemma EmptyTokenIsNoFence(id: Id, job: Job, now: int, c: Config)
    requires Enqueueable(job) && job.state.Queued? && job.runAt <= now
    ensures var s := Next(EMPTY, EnqueueStep(id, job, now), c);
            var t := Next(s, CompleteStep(id, NoToken, "", now), c);
            t.jobs[id].state == Completed && id in t.Ready(job.Key())
  {
    var s := Enqueue(EMPTY, id, job, now);
    assert s.Ready(job.Key())[0] == id;
  }
}
