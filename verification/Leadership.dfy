/** Scheduler leadership: one Redis key with an expiry, renewed by its holder's token. */
module Leadership {
  import opened Redis

  /** Tokens are non-empty; the empty token stands for a scheduler that has not asked yet. */
  datatype Lease = Lease(token: string, expireAt: int)

  /** The key, while it has not expired. */
  function Held(key: Option<Lease>, now: int): Option<Lease> {
    if key.Some? && now <= key.value.expireAt then key else None
  }

  function Acquire(key: Option<Lease>, token: string, ttl: int, now: int): (Option<Lease>, bool) {
    var held := Held(key, now);
    if held.None? || held.value.token == token then (Some(Lease(token, now + ttl)), true) else (held, false)
  }

  function Free(key: Option<Lease>, token: string, now: int): Option<Lease> {
    var held := Held(key, now);
    if held.Some? && held.value.token == token then None else held
  }

  // ----- The elector and a scheduler that uses it -----

  class Elector {
    var key: Option<Lease>

    constructor ()
      ensures key == None
    {
      key := None;
    }

    /** `generated` is the token a scheduler without one generates. */
    method TryAcquire(ttl: int, currentToken: string, generated: string, now: int) returns (token: string, acquired: bool)
      modifies this
      ensures token == if currentToken == "" then generated else currentToken
      ensures (key, acquired) == Acquire(old(key), token, ttl, now)
      ensures acquired <==> old(key) == None || now > old(key).value.expireAt || old(key).value.token == token
      ensures key == if acquired then Some(Lease(token, now + ttl)) else old(key)
    {
      token := currentToken;
      if token == "" { token := generated; }
      if key.Some? && now > key.value.expireAt { key := None; }
      if key.None? || key.value.token == token {
        key := Some(Lease(token, now + ttl));
        return token, true;
      }
      return token, false;
    }

    method Release(token: string, now: int)
      modifies this
      ensures key == if token == "" then old(key) else Free(old(key), token, now)
      ensures token != "" && old(key).Some? && now <= old(key).value.expireAt ==> key == if old(key).value.token == token then None else old(key)
    {
      if token == "" { return; }
      if key.Some? && now > key.value.expireAt { key := None; }
      if key.Some? && key.value.token == token { key := None; }
    }
  }

  class Scheduler {
    const elector: Elector
    const ttl: int
    var leaderToken: string
    var isLeader: bool

    constructor (elector: Elector, ttl: int)
      ensures this.elector == elector && this.ttl == ttl && leaderToken == "" && !isLeader
    {
      this.elector, this.ttl, leaderToken, isLeader := elector, ttl, "", false;
    }

    /**
     * On an error nothing changes here; but if only the reply was lost, the key is taken, for a scheduler without a
     * token under one it forgets. Otherwise the token is kept for good once there is one.
     */
    method EnsureLeadership(generated: string, now: int, fault: Fault) returns (ok: bool)
      modifies this, elector
      ensures ok == fault.NoFault?
      ensures !ok ==> leaderToken == old(leaderToken) && isLeader == old(isLeader)
      ensures ok ==> leaderToken == Asking(old(leaderToken), generated) && isLeader == Acquire(old(elector.key), leaderToken, ttl, now).1
      ensures elector.key == if fault.NotSent? then old(elector.key) else Acquire(old(elector.key), Asking(old(leaderToken), generated), ttl, now).0
    {
      if fault.NotSent? { return false; }
      var token, acquired := elector.TryAcquire(ttl, leaderToken, generated, now);
      if fault.ReplyLost? { return false; }
      leaderToken := token;
      isLeader := acquired;
      return true;
    }

    /** A gated tick starts only if, at this very moment, the key has been taken or renewed under the scheduler's own token. */
    method ShouldRun(generated: string, now: int, fault: Fault) returns (run: bool)
      modifies this, elector
      ensures run ==> fault.NoFault? && elector.key == Some(Lease(leaderToken, now + ttl))
      ensures run <==> fault.NoFault? && Acquire(old(elector.key), Asking(old(leaderToken), generated), ttl, now).1
      ensures var token := if old(leaderToken) == "" then generated else old(leaderToken);
              run <==> fault.NoFault? && (old(elector.key) == None || now > old(elector.key).value.expireAt || old(elector.key).value.token == token)
      ensures old(leaderToken) != "" ==> leaderToken == old(leaderToken)
    {
      var ok := EnsureLeadership(generated, now, fault);
      if !ok { return false; }
      return isLeader;
    }
  }

  /** How the call to Redis goes wrong, if it does. */
  datatype Fault = NoFault | NotSent | ReplyLost

  /** The token a scheduler asks with. */
  function Asking(current: string, generated: string): string { if current == "" then generated else current }

  /**
   * A scheduler that lost the reply to its first successful attempt asks again under another token, and is refused
   * exactly until the key under the forgotten one has expired.
   */
  lemma ForgottenTokenLocksOut(key: Option<Lease>, forgotten: string, generated: string, ttl: int, now: int, later: int)
    requires Acquire(key, forgotten, ttl, now).1 && generated != forgotten && now <= later
    ensures Acquire(Acquire(key, forgotten, ttl, now).0, generated, ttl, later).1 <==> later > now + ttl
  {}

  // ----- Runs -----

  datatype Event = TakeKey(token: string, now: int) | GiveKey(token: string, now: int)

  /** A stretch of leadership: from a grant or renewal for the token's TTL, unless cut short by its own release. */
  datatype Interval = Interval(token: string, from: int, until: int)
  {
    predicate Covers(t: int) { from <= t < until }
  }

  datatype State = State(key: Option<Lease>, history: seq<Interval>, last: int)

  function Earlier(a: int, b: int): int { if a <= b then a else b }

  function Cut(history: seq<Interval>, token: string, now: int): (r: seq<Interval>)
    ensures |r| == |history|
    ensures forall i :: 0 <= i < |r| ==> r[i] == if history[i].token == token then history[i].(until := Earlier(history[i].until, now)) else history[i]
  {
    seq(|history|, i requires 0 <= i < |history| =>
      if history[i].token == token then history[i].(until := Earlier(history[i].until, now)) else history[i])
  }

  /** Every token belongs to one scheduler, which always asks with its own TTL. */
  function Next(s: State, e: Event, ttlOf: string -> int): State {
    match e
    case TakeKey(token, now) =>
      var (key, acquired) := Acquire(s.key, token, ttlOf(token), now);
      State(key, if acquired then s.history + [Interval(token, now, now + ttlOf(token))] else s.history, now)
    case GiveKey(token, now) => State(Free(s.key, token, now), Cut(s.history, token, now), now)
  }

  ghost predicate Disjoint(history: seq<Interval>) {
    forall i, j :: 0 <= i < j < |history| && history[i].token != history[j].token ==> history[i].until <= history[j].from
  }

  ghost predicate Inv(s: State, ttlOf: string -> int) {
    && Disjoint(s.history)
    && (s.key.Some? ==> s.key.value.expireAt <= s.last + ttlOf(s.key.value.token))
    && forall i :: 0 <= i < |s.history| ==>
         || s.history[i].until <= s.last
         || (s.key.Some? && s.key.value.token == s.history[i].token && s.history[i].until <= s.key.value.expireAt)
  }

  lemma TakeKeeps(s: State, token: string, now: int, ttlOf: string -> int)
    requires Inv(s, ttlOf) && s.last <= now
    ensures Inv(Next(s, TakeKey(token, now), ttlOf), ttlOf)
  {
    var t := Next(s, TakeKey(token, now), ttlOf);
    if Acquire(s.key, token, ttlOf(token), now).1 {
      forall i | 0 <= i < |s.history| && s.history[i].token != token ensures s.history[i].until <= now {}
      forall i, j | 0 <= i < j < |t.history| && t.history[i].token != t.history[j].token
        ensures t.history[i].until <= t.history[j].from
      {
        if j < |s.history| { assert t.history[j] == s.history[j]; }
        assert t.history[i] == s.history[i];
      }
    }
  }

  lemma GiveKeeps(s: State, token: string, now: int, ttlOf: string -> int)
    requires Inv(s, ttlOf) && s.last <= now
    ensures Inv(Next(s, GiveKey(token, now), ttlOf), ttlOf)
  {
    var t := Next(s, GiveKey(token, now), ttlOf);
    forall i, j | 0 <= i < j < |t.history| && t.history[i].token != t.history[j].token
      ensures t.history[i].until <= t.history[j].from
    {
      assert s.history[i].until <= s.history[j].from;
    }
  }

  ghost predicate IsRun(states: seq<State>, events: seq<Event>, ttlOf: string -> int) {
    && |states| == |events| + 1 && states[0].key == None && states[0].history == []
    && forall i {:trigger events[i]} :: 0 <= i < |events| ==> states[i].last <= events[i].now && states[i + 1] == Next(states[i], events[i], ttlOf)
  }

  /** Leadership stretches of different schedulers never overlap, in any run, whatever their TTLs. */
  lemma {:induction false} LeadershipIsDisjoint(states: seq<State>, events: seq<Event>, ttlOf: string -> int, n: nat)
    requires IsRun(states, events, ttlOf) && n <= |events|
    ensures Inv(states[n], ttlOf)
    ensures forall a, b, t :: a in states[n].history && b in states[n].history && a.Covers(t) && b.Covers(t) ==> a.token == b.token
  {
    if n > 0 {
      LeadershipIsDisjoint(states, events, ttlOf, n - 1);
      match events[n - 1]
      case TakeKey(token, now) => TakeKeeps(states[n - 1], token, now, ttlOf);
      case GiveKey(token, now) => GiveKeeps(states[n - 1], token, now, ttlOf);
    }
  }

  /**
   * During its stretch a leader is always admitted again, for a full TTL from then on, and nobody else is; only its own
   * release ends that early.
   */
  lemma HolderIsRenewed(states: seq<State>, events: seq<Event>, ttlOf: string -> int, n: nat, a: Interval, token: string, ttl: int, now: int)
    requires IsRun(states, events, ttlOf) && n <= |events| && a in states[n].history && states[n].last <= now && a.Covers(now)
    ensures var (key, acquired) := Acquire(states[n].key, token, ttl, now);
            if token == a.token then acquired && key == Some(Lease(token, now + ttl)) else !acquired && key == states[n].key
  {
    LeadershipIsDisjoint(states, events, ttlOf, n);
  }

  /** A key nobody holds any more goes to whoever asks first. */
  lemma FreeKeyIsGranted(key: Option<Lease>, token: string, ttl: int, now: int)
    ensures Acquire(key, token, ttl, now).1 <==> key == None || now > key.value.expireAt || key.value.token == token
    ensures Acquire(key, token, ttl, now).1 ==> Acquire(key, token, ttl, now).0 == Some(Lease(token, now + ttl))
    ensures key.Some? && key.value.token == token ==> Acquire(Free(key, token, now), token, ttl, now).1 && Free(key, token, now) == None
  {}
}
