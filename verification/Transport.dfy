/** The transport manager, and what it keeps over every sequence of calls, timers and connection events. */
module Transport {
  import opened Redis
  import opened TransportSpec

  class LiveTransportManager {
    const env: Env
    var mode: Mode
    var phase: Phase
    var attempt: nat
    var started: bool
    var stopped: bool
    var pending: map<nat, Task>
    var retryTimer: Option<nat>
    var probeTimer: Option<nat>
    var socket: Option<Conn>
    var source: Option<Conn>
    var nextId: nat

    constructor (env: Env)
      ensures View() == CONSTRUCTED && this.env == env
    {
      this.env := env;
      mode, phase, attempt, started, stopped := Polling, Idle, 0, false, false;
      pending, retryTimer, probeTimer, socket, source, nextId := map[], None, None, None, None, 0;
    }

    function View(): State
      reads this
    {
      State(mode, phase, attempt, started, stopped, pending, retryTimer, probeTimer, socket, source, nextId)
    }

    method SetTimeout(task: Task) returns (timer: nat)
      modifies this`pending, this`nextId
      ensures timer == old(nextId) && nextId == old(nextId) + 1 && pending == old(pending)[timer := task]
    {
      timer := nextId;
      pending := pending[timer := task];
      nextId := nextId + 1;
    }

    method DoClearTimers()
      modifies this
      ensures View() == ClearTimers(old(View()))
    {
      if retryTimer != None {
        pending := pending - {retryTimer.value};
        retryTimer := None;
      }
      if probeTimer != None {
        pending := pending - {probeTimer.value};
        probeTimer := None;
      }
    }

    method DoCloseCurrent()
      modifies this
      ensures View() == CloseCurrent(old(View()))
    {
      if socket != None { socket := None; }
      if source != None { source := None; }
    }

    method DoStart()
      modifies this
      ensures View() == StartUp(old(View()))
    {
      stopped := false;
      started := true;
      DoClearTimers();
      var timer := SetTimeout(Task(false, WebSocket, 0));
      retryTimer := Some(timer);
    }

    method DoStop(nextPhase: Phase)
      modifies this
      ensures View() == ShutDown(old(View()), nextPhase)
    {
      stopped := true;
      DoClearTimers();
      DoCloseCurrent();
      phase := nextPhase;
      attempt := 0;
    }

    method DoRetryNow(throws: bool)
      modifies this
      ensures View() == Reconnect(old(View()), throws, env)
    {
      if stopped { return; }
      started := true;
      DoClearTimers();
      DoConnect(WebSocket, 0, throws);
    }

    method DoConnect(m: Mode, n: nat, throws: bool)
      modifies this
      ensures View() == Connect(old(View()), m, n, throws, env)
      decreases if m.WebSocket? then 4 else 1
    {
      if stopped { return; }
      DoClearTimers();
      DoCloseCurrent();
      mode := if m.WebSocket? then WebSocket else Sse;
      phase := Connecting;
      attempt := n;
      if m.WebSocket? {
        DoOpenWebSocket(n, throws);
        return;
      }
      DoOpenEventSource(n);
    }

    method DoOpenWebSocket(n: nat, throws: bool)
      modifies this
      ensures View() == OpenWebSocket(old(View()), n, throws, env)
      decreases 3
    {
      if !env.socketUrl {
        DoEnterPolling();
        return;
      }
      if throws {
        DoHandleFailure(WebSocket, n);
        return;
      }
      socket := Some(Conn(nextId, n, false));
      nextId := nextId + 1;
    }

    method DoOpenEventSource(n: nat)
      modifies this
      ensures View() == OpenEventSource(old(View()), n, env)
      decreases 0
    {
      if !env.sse {
        DoEnterPolling();
        return;
      }
      source := Some(Conn(nextId, n, false));
      nextId := nextId + 1;
    }

    method DoHandleFailure(m: Mode, n: nat)
      modifies this
      ensures View() == HandleFailure(old(View()), m, n, env)
      decreases 2
    {
      if stopped { return; }
      if m.WebSocket? && n + 1 < WEBSOCKET_ATTEMPT_LIMIT {
        DoScheduleRetry(WebSocket, n + 1);
        return;
      }
      if m.WebSocket? {
        if env.sse {
          DoConnect(Sse, 0, false);
          return;
        }
        DoEnterPolling();
        return;
      }
      if n + 1 < SSE_ATTEMPT_LIMIT {
        DoScheduleRetry(Sse, n + 1);
        return;
      }
      DoEnterPolling();
    }

    method DoScheduleRetry(m: Mode, n: nat)
      modifies this
      ensures View() == ScheduleRetry(old(View()), m, n)
    {
      mode := m;
      phase := Connecting;
      attempt := n;
      var timer := SetTimeout(Task(false, m, n));
      retryTimer := Some(timer);
    }

    method DoEnterPolling()
      modifies this
      ensures View() == EnterPolling(old(View()))
    {
      DoClearTimers();
      DoCloseCurrent();
      mode := Polling;
      phase := PollingPhase;
      attempt := 0;
      DoScheduleProbe();
    }

    method DoScheduleProbe()
      modifies this
      ensures View() == ScheduleProbe(old(View()))
    {
      if stopped { return; }
      var timer := SetTimeout(Task(true, WebSocket, 0));
      probeTimer := Some(timer);
    }

    method OnTimer(timer: nat, throws: bool)
      requires timer in pending
      modifies this
      ensures View() == Fire(old(View()), timer, throws, env)
    {
      var task := pending[timer];
      pending := pending - {timer};
      if task.probe { probeTimer := None; } else { retryTimer := None; }
      DoConnect(task.mode, task.attempt, throws);
    }

    method OnSocketOpen(conn: nat)
      modifies this
      ensures View() == SocketOpened(old(View()), conn)
    {
      if socket.None? || socket.value.id != conn || stopped { return; }
      socket := Some(socket.value.(isOpen := true));
      mode := WebSocket;
      phase := Live;
      attempt := 0;
    }

    method OnSocketClose(conn: nat)
      modifies this
      ensures View() == SocketClosed(old(View()), conn, env)
    {
      if socket.None? || socket.value.id != conn || stopped { return; }
      var n := socket.value.attempt;
      socket := None;
      DoHandleFailure(WebSocket, n);
    }

    method OnSourceOpen(conn: nat)
      modifies this
      ensures View() == SourceOpened(old(View()), conn)
    {
      if source.None? || source.value.id != conn || stopped { return; }
      source := Some(source.value.(isOpen := true));
      mode := Sse;
      phase := Live;
      attempt := 0;
      DoScheduleProbe();
    }

    method OnSourceError(conn: nat)
      modifies this
      ensures View() == SourceFailed(old(View()), conn, env)
    {
      if source.None? || source.value.id != conn || stopped { return; }
      var n := source.value.attempt;
      source := None;
      DoHandleFailure(Sse, n);
    }
  }

  // ----- Invariant -----

  /** The timers pending in the browser are exactly the ones the two handles name. */
  ghost predicate Tracked(s: State) {
    && (forall id :: id in s.pending <==> s.retryTimer == Some(id) || s.probeTimer == Some(id))
    && (s.retryTimer.Some? ==> s.retryTimer.value in s.pending && !s.pending[s.retryTimer.value].probe)
    && (s.probeTimer.Some? ==> s.probeTimer.value in s.pending && s.pending[s.probeTimer.value] == Task(true, WebSocket, 0))
    && (forall id :: id in s.pending ==> id < s.nextId)
  }

  ghost predicate Inv(s: State) {
    && Tracked(s)
    && !(s.socket.Some? && s.source.Some?)
    && (s.retryTimer.Some? ==> s.socket.None? && s.source.None?)
    && (s.socket.Some? ==> s.probeTimer.None? && s.socket.value.attempt < WEBSOCKET_ATTEMPT_LIMIT)
    && (s.source.Some? ==> s.source.value.attempt < SSE_ATTEMPT_LIMIT && (s.probeTimer.Some? <==> s.source.value.isOpen))
    && (s.retryTimer.Some? ==>
          var task := s.pending[s.retryTimer.value];
          (task.mode.WebSocket? && task.attempt < WEBSOCKET_ATTEMPT_LIMIT) || (task.mode.Sse? && task.attempt < SSE_ATTEMPT_LIMIT))
    && (s.stopped ==> s.pending == map[] && s.socket.None? && s.source.None?)
    && (s.started && !s.stopped ==> s.socket.Some? || s.source.Some? || s.pending != map[])
    && (s.started && !s.stopped && s.socket.None? && s.source.None? && s.retryTimer.None? ==> s.mode.Polling? && s.phase.PollingPhase?)
    && (!s.started ==> s.pending == map[] && s.socket.None? && s.source.None?)
  }

  /** Connection failures left before polling: of WebSockets, and of event sources. */
  function WsLeft(s: State): int {
    if s.retryTimer.Some? && s.retryTimer.value in s.pending then
      var task := s.pending[s.retryTimer.value];
      if task.mode.WebSocket? then WEBSOCKET_ATTEMPT_LIMIT - task.attempt else 0
    else if s.socket.Some? then WEBSOCKET_ATTEMPT_LIMIT - s.socket.value.attempt
    else 0
  }

  function SseLeft(s: State): int {
    if s.retryTimer.Some? && s.retryTimer.value in s.pending then
      var task := s.pending[s.retryTimer.value];
      if task.mode.WebSocket? then SSE_ATTEMPT_LIMIT else SSE_ATTEMPT_LIMIT - task.attempt
    else if s.socket.Some? then SSE_ATTEMPT_LIMIT
    else if s.source.Some? then SSE_ATTEMPT_LIMIT - s.source.value.attempt
    else 0
  }

  /** No connection and no timer. */
  predicate Bare(s: State) { s.pending == map[] && s.retryTimer.None? && s.probeTimer.None? && s.socket.None? && s.source.None? }

  lemma ResetIsBare(s: State, mode: Mode, attempt: nat)
    requires Tracked(s)
    ensures Bare(Reset(s, mode, attempt)) && Bare(CloseCurrent(ClearTimers(s)))
  {
    assert ClearTimers(s).pending == map[];
  }

  /** Entering polling, from anywhere, leaves a probe timer and nothing else. */
  lemma PollingSound(s: State)
    requires Tracked(s) && s.started && !s.stopped
    ensures Inv(EnterPolling(s)) && WsLeft(EnterPolling(s)) == 0 && SseLeft(EnterPolling(s)) == 0
  {
    ResetIsBare(s, Polling, 0);
  }

  lemma SseSound(s: State, attempt: nat, env: Env)
    requires Tracked(s) && s.started && !s.stopped && attempt < SSE_ATTEMPT_LIMIT
    ensures var t := ConnectSse(s, attempt, env); Inv(t) && WsLeft(t) == 0 && SseLeft(t) <= SSE_ATTEMPT_LIMIT - attempt
  {
    var r := Reset(s, Sse, attempt);
    ResetIsBare(s, Sse, attempt);
    if !env.sse { PollingSound(r); }
  }

  /** A retry is scheduled next to nothing but, after an event source, its probe. */
  lemma RetrySound(s: State, mode: Mode, attempt: nat)
    requires Tracked(s) && s.started && !s.stopped && s.socket.None? && s.source.None? && s.retryTimer.None?
    requires (mode.WebSocket? && attempt < WEBSOCKET_ATTEMPT_LIMIT) || (mode.Sse? && attempt < SSE_ATTEMPT_LIMIT)
    ensures var t := ScheduleRetry(s, mode, attempt);
            && Inv(t) && WsLeft(t) == (if mode.WebSocket? then WEBSOCKET_ATTEMPT_LIMIT - attempt else 0)
            && SseLeft(t) == (if mode.WebSocket? then SSE_ATTEMPT_LIMIT else SSE_ATTEMPT_LIMIT - attempt)
  {}

  /** One failure less in its own column; a WebSocket failure never costs an event-source one. */
  lemma FailureSound(s: State, mode: Mode, attempt: nat, env: Env)
    requires Tracked(s) && s.started && !s.stopped && s.socket.None? && s.source.None? && s.retryTimer.None?
    requires (mode.WebSocket? && attempt < WEBSOCKET_ATTEMPT_LIMIT) || (mode.Sse? && attempt < SSE_ATTEMPT_LIMIT)
    ensures var t := HandleFailure(s, mode, attempt, env);
            && Inv(t)
            && (mode.WebSocket? ==> WsLeft(t) <= WEBSOCKET_ATTEMPT_LIMIT - attempt - 1 && SseLeft(t) <= SSE_ATTEMPT_LIMIT)
            && (mode.Sse? ==> WsLeft(t) == 0 && SseLeft(t) <= SSE_ATTEMPT_LIMIT - attempt - 1)
  {
    if mode.WebSocket? && attempt + 1 < WEBSOCKET_ATTEMPT_LIMIT { RetrySound(s, WebSocket, attempt + 1); }
    else if mode.WebSocket? && env.sse { SseSound(s, 0, env); }
    else if mode.Sse? && attempt + 1 < SSE_ATTEMPT_LIMIT { RetrySound(s, Sse, attempt + 1); }
    else { PollingSound(s); }
  }

  lemma ConnectSound(s: State, mode: Mode, attempt: nat, throws: bool, env: Env)
    requires Tracked(s) && s.started && !s.stopped
    requires (mode.WebSocket? && attempt < WEBSOCKET_ATTEMPT_LIMIT) || (mode.Sse? && attempt < SSE_ATTEMPT_LIMIT)
    ensures var t := Connect(s, mode, attempt, throws, env);
            && Inv(t)
            && (mode.WebSocket? ==>
                  WsLeft(t) <= WEBSOCKET_ATTEMPT_LIMIT - attempt - (if throws && env.socketUrl then 1 else 0) && SseLeft(t) <= SSE_ATTEMPT_LIMIT)
            && (mode.Sse? ==> WsLeft(t) == 0 && SseLeft(t) <= SSE_ATTEMPT_LIMIT - attempt)
  {
    if mode.WebSocket? {
      var r := Reset(s, WebSocket, attempt);
      ResetIsBare(s, WebSocket, attempt);
      if !env.socketUrl { PollingSound(r); }
      else if throws { FailureSound(r, WebSocket, attempt, env); }
    } else {
      SseSound(s, attempt, env);
    }
  }

  /** A fired timer leaves the others tracked, and a manager with a timer is started and not stopped. */
  lemma FireSound(s: State, timer: nat, throws: bool, env: Env)
    requires Inv(s) && timer in s.pending
    ensures var t := Fire(s, timer, throws, env);
            && Inv(t)
            && (!s.pending[timer].probe ==>
                  && WsLeft(t) <= WsLeft(s) - (if throws && env.socketUrl && s.pending[timer].mode.WebSocket? then 1 else 0)
                  && SseLeft(t) <= SseLeft(s))
  {
    var task := s.pending[timer];
    var s1 := s.(pending := s.pending - {timer});
    var s2 := if task.probe then s1.(probeTimer := None) else s1.(retryTimer := None);
    assert Tracked(s2);
    ConnectSound(s2, task.mode, task.attempt, throws, env);
  }

  lemma StepSound(s: State, e: Event, env: Env)
    requires Inv(s) && Legal(s, e)
    ensures Inv(Next(s, e, env))
  {
    match e
    case Start => ResetIsBare(s, WebSocket, 0);
    case Stop(phase) => ResetIsBare(s, Polling, 0);
    case RetryNow(throws) =>
      if !s.stopped {
        assert ClearTimers(s).pending == map[] by { ResetIsBare(s, WebSocket, 0); }
        ConnectSound(ClearTimers(s).(started := true), WebSocket, 0, throws, env);
      }
    case TimerFires(timer, throws) => FireSound(s, timer, throws, env);
    case SocketOpens(conn) =>
    case SocketCloses(conn) => if IsCurrent(s.socket, conn) { FailureSound(s.(socket := None), WebSocket, s.socket.value.attempt, env); }
    case SourceOpens(conn) =>
    case SourceErrors(conn) => if IsCurrent(s.source, conn) { FailureSound(s.(source := None), Sse, s.source.value.attempt, env); }
  }

  // ----- Runs -----

  ghost predicate IsRun(states: seq<State>, events: seq<Event>, env: Env) {
    && |states| == |events| + 1 && states[0] == CONSTRUCTED
    && forall i {:trigger events[i]} :: 0 <= i < |events| ==> Legal(states[i], events[i]) && states[i + 1] == Next(states[i], events[i], env)
  }

  /**
   * While started and not stopped, a connection or a timer is always there to make something happen next, and a
   * socket and an event source are never held together; once stopped, no connection and no timer is left.
   */
  lemma {:induction false} LadderNeverStalls(states: seq<State>, events: seq<Event>, env: Env, n: nat)
    requires IsRun(states, events, env) && n <= |events|
    ensures Inv(states[n])
    ensures states[n].started && !states[n].stopped ==> states[n].socket.Some? || states[n].source.Some? || states[n].pending != map[]
    ensures !(states[n].socket.Some? && states[n].source.Some?)
    ensures states[n].stopped ==> Bare(states[n])
  {
    if n > 0 {
      LadderNeverStalls(states, events, env, n - 1);
      assert Legal(states[n - 1], events[n - 1]);
      StepSound(states[n - 1], events[n - 1], env);
    }
  }

  /** Nothing in the step starts the ladder over: no start, stop or manual reconnect, and no probe. */
  predicate Climbs(s: State, e: Event) {
    match e
    case Start => false
    case Stop(_) => false
    case RetryNow(_) => false
    case TimerFires(timer, _) => timer in s.pending && !s.pending[timer].probe
    case _ => true
  }

  /** A WebSocket fails to be made, or drops; an event source drops. */
  predicate WsFails(s: State, e: Event, env: Env) {
    match e
    case TimerFires(timer, throws) => throws && env.socketUrl && !s.stopped && timer in s.pending && s.pending[timer].mode.WebSocket?
    case SocketCloses(conn) => IsCurrent(s.socket, conn) && !s.stopped
    case _ => false
  }

  predicate SseFails(s: State, e: Event) {
    e.SourceErrors? && IsCurrent(s.source, e.conn) && !s.stopped
  }

  lemma ClimbSound(s: State, e: Event, env: Env)
    requires Inv(s) && Legal(s, e) && Climbs(s, e)
    ensures var t := Next(s, e, env);
            && WsLeft(t) + (if WsFails(s, e, env) then 1 else 0) <= WsLeft(s)
            && SseLeft(t) + (if SseFails(s, e) then 1 else 0) <= SseLeft(s)
  {
    match e
    case TimerFires(timer, throws) => FireSound(s, timer, throws, env);
    case SocketCloses(conn) => if IsCurrent(s.socket, conn) { FailureSound(s.(socket := None), WebSocket, s.socket.value.attempt, env); }
    case SourceErrors(conn) => if IsCurrent(s.source, conn) { FailureSound(s.(source := None), Sse, s.source.value.attempt, env); }
    case _ =>
  }

  ghost function WsFailures(states: seq<State>, events: seq<Event>, env: Env, m: nat, n: nat): nat
    requires m <= n <= |events| < |states|
    decreases n
  {
    if n == m then 0 else WsFailures(states, events, env, m, n - 1) + (if WsFails(states[n - 1], events[n - 1], env) then 1 else 0)
  }

  ghost function SseFailures(states: seq<State>, events: seq<Event>, m: nat, n: nat): nat
    requires m <= n <= |events| < |states|
    decreases n
  {
    if n == m then 0 else SseFailures(states, events, m, n - 1) + (if SseFails(states[n - 1], events[n - 1]) then 1 else 0)
  }

  /** Without event sources the ladder has one rung less. */
  ghost predicate NoSse(s: State) {
    s.source.None? && (s.retryTimer.Some? && s.retryTimer.value in s.pending ==> s.pending[s.retryTimer.value].mode.WebSocket?)
  }

  lemma FailureWithoutSse(s: State, mode: Mode, attempt: nat, env: Env)
    requires !env.sse && s.source.None? && s.retryTimer.None? && mode.WebSocket?
    ensures NoSse(HandleFailure(s, mode, attempt, env))
  {}

  lemma StepWithoutSse(s: State, e: Event, env: Env)
    requires Inv(s) && Legal(s, e) && !env.sse && NoSse(s)
    ensures NoSse(Next(s, e, env))
  {
    match e
    case TimerFires(timer, throws) =>
      var task := s.pending[timer];
      assert task.mode.WebSocket?;
    case SocketCloses(conn) =>
      if IsCurrent(s.socket, conn) && !s.stopped { FailureWithoutSse(s.(socket := None), WebSocket, s.socket.value.attempt, env); }
    case _ =>
  }

  lemma {:induction false} RunWithoutSse(states: seq<State>, events: seq<Event>, env: Env, n: nat)
    requires IsRun(states, events, env) && n <= |events| && !env.sse
    ensures NoSse(states[n])
  {
    if n > 0 {
      RunWithoutSse(states, events, env, n - 1);
      LadderNeverStalls(states, events, env, n - 1);
      assert Legal(states[n - 1], events[n - 1]);
      StepWithoutSse(states[n - 1], events[n - 1], env);
    }
  }

  /**
   * Between restarts, at most three WebSockets and two event sources fail or drop, however long each was open; and
   * once as many have, or three WebSockets where event sources are unavailable, the manager is polling.
   */
  lemma {:induction false} LadderEndsInPolling(states: seq<State>, events: seq<Event>, env: Env, m: nat, n: nat)
    requires IsRun(states, events, env) && m <= n <= |events|
    requires forall i {:trigger events[i]} :: m <= i < n ==> Climbs(states[i], events[i])
    ensures WsFailures(states, events, env, m, n) + WsLeft(states[n]) <= WsLeft(states[m]) <= WEBSOCKET_ATTEMPT_LIMIT
    ensures SseFailures(states, events, m, n) + SseLeft(states[n]) <= SseLeft(states[m]) <= SSE_ATTEMPT_LIMIT
    ensures WsLeft(states[n]) >= 0 && SseLeft(states[n]) >= 0
    ensures states[n].started && !states[n].stopped && WsFailures(states, events, env, m, n) + SseFailures(states, events, m, n) >= 5 ==>
              states[n].mode.Polling? && states[n].phase.PollingPhase?
    ensures states[n].started && !states[n].stopped && !env.sse && WsFailures(states, events, env, m, n) >= 3 ==>
              states[n].mode.Polling? && states[n].phase.PollingPhase?
    decreases n
  {
    LadderNeverStalls(states, events, env, n);
    if !env.sse { RunWithoutSse(states, events, env, n); }
    if n > m {
      LadderEndsInPolling(states, events, env, m, n - 1);
      LadderNeverStalls(states, events, env, n - 1);
      assert Climbs(states[n - 1], events[n - 1]) && Legal(states[n - 1], events[n - 1]);
      ClimbSound(states[n - 1], events[n - 1], env);
    }
  }

  lemma FailuresBounded(states: seq<State>, events: seq<Event>, env: Env, m: nat, n: nat)
    requires IsRun(states, events, env) && m <= n <= |events|
    requires forall i {:trigger events[i]} :: m <= i < n ==> Climbs(states[i], events[i])
    ensures WsFailures(states, events, env, m, n) <= 3 && SseFailures(states, events, m, n) <= 2
  {
    LadderEndsInPolling(states, events, env, m, n);
  }

  // ----- One step of the ladder -----

  /** One retry is pending, for this mode and attempt, and no connection is held. */
  ghost predicate RetriesOnly(s: State, mode: Mode, attempt: nat) {
    && s.socket == None && s.source == None && s.retryTimer.Some? && s.retryTimer.value in s.pending
    && s.pending[s.retryTimer.value] == Task(false, mode, attempt)
  }

  /** One new event source, at its first attempt, and no timer. */
  ghost predicate SourceOnly(s: State) {
    s.source.Some? && s.source.value.attempt == 0 && !s.source.value.isOpen && s.socket == None && s.pending == map[] && s.retryTimer == None
  }

  /** Polling, with a WebSocket probe to come and nothing else. */
  ghost predicate PollsOnly(s: State) {
    && s.mode == Polling && s.phase == PollingPhase && s.attempt == 0 && s.socket == None && s.source == None && s.retryTimer == None
    && s.probeTimer.Some? && s.pending == map[s.probeTimer.value := Task(true, WebSocket, 0)]
  }

  /**
   * After a failed WebSocket comes another, up to the third; then an event source if there can be one, and polling
   * otherwise. After a failed event source comes a second one, and then polling.
   */
  lemma FailureLadder(s: State, mode: Mode, attempt: nat, env: Env)
    requires Tracked(s) && !s.stopped && s.socket == None && s.source == None && s.retryTimer == None
    ensures mode == WebSocket && attempt <= 1 ==> RetriesOnly(HandleFailure(s, mode, attempt, env), WebSocket, attempt + 1)
    ensures mode == WebSocket && attempt >= 2 && env.sse ==> SourceOnly(HandleFailure(s, mode, attempt, env))
    ensures mode == WebSocket && attempt >= 2 && !env.sse ==> PollsOnly(HandleFailure(s, mode, attempt, env))
    ensures mode == Sse && attempt == 0 ==> RetriesOnly(HandleFailure(s, mode, attempt, env), Sse, 1)
    ensures mode == Sse && attempt >= 1 ==> PollsOnly(HandleFailure(s, mode, attempt, env))
  {
    ResetIsBare(s, Sse, 0);
  }

  /** What a connect opens: the connection asked for, at that attempt, if its address is usable, and nothing else. */
  lemma ConnectOpens(s: State, mode: Mode, attempt: nat, env: Env)
    requires Tracked(s) && !s.stopped
    ensures var t := Connect(s, mode, attempt, false, env);
            && (mode == WebSocket && env.socketUrl ==>
                  t.socket == Some(Conn(s.nextId, attempt, false)) && t.source == None && t.pending == map[] && t.mode == WebSocket)
            && (mode == Sse && env.sse ==>
                  t.source == Some(Conn(s.nextId, attempt, false)) && t.socket == None && t.pending == map[] && t.mode == Sse)
            && ((mode == WebSocket && !env.socketUrl) || (mode == Sse && !env.sse) ==> PollsOnly(t))
  {
    ResetIsBare(s, WebSocket, attempt);
    ResetIsBare(s, Sse, attempt);
  }

  /** A start leaves one timer that connects by WebSocket, a manual reconnect opens a WebSocket, both at the first attempt; a stop leaves nothing. */
  lemma RestartExact(s: State, phase: Phase, env: Env)
    requires Tracked(s)
    ensures s.socket == None && s.source == None ==> RetriesOnly(StartUp(s), WebSocket, 0) && |StartUp(s).pending| == 1 && !StartUp(s).stopped
    ensures !s.stopped && env.socketUrl ==>
              var t := Reconnect(s, false, env); t.socket == Some(Conn(s.nextId, 0, false)) && t.source == None && t.pending == map[] && t.attempt == 0
    ensures s.stopped ==> Reconnect(s, false, env) == s
    ensures Bare(ShutDown(s, phase)) && ShutDown(s, phase).stopped && ShutDown(s, phase).phase == phase && ShutDown(s, phase).attempt == 0
  {
    ResetIsBare(s, WebSocket, 0);
    assert ClearTimers(s).pending == map[];
    var t := ClearTimers(s).(started := true);
    assert Tracked(t);
    if !s.stopped { ConnectOpens(t, WebSocket, 0, env); }
  }

  // ----- What is shown -----

  /** A connection shows as such, live with no attempt once open, connecting with its attempt before; and so does a scheduled retry. */
  ghost predicate StatusTrue(s: State) {
    && (s.socket.Some? ==> s.mode == WebSocket && ShowsConnection(s, s.socket.value))
    && (s.source.Some? ==> s.mode == Sse && ShowsConnection(s, s.source.value))
    && (s.retryTimer.Some? && s.retryTimer.value in s.pending && s.pending[s.retryTimer.value].attempt >= 1 ==>
          s.phase == Connecting && s.mode == s.pending[s.retryTimer.value].mode && s.attempt == s.pending[s.retryTimer.value].attempt)
  }

  predicate ShowsConnection(s: State, c: Conn) {
    if c.isOpen then s.phase == Live && s.attempt == 0 else s.phase == Connecting && s.attempt == c.attempt
  }

  lemma FailureShows(s: State, mode: Mode, attempt: nat, env: Env)
    requires Tracked(s) && s.socket == None && s.source == None && s.retryTimer == None
    ensures StatusTrue(HandleFailure(s, mode, attempt, env))
  {
    ResetIsBare(s, Sse, 0);
  }

  lemma ConnectShows(s: State, mode: Mode, attempt: nat, throws: bool, env: Env)
    requires Tracked(s) && !s.stopped
    ensures StatusTrue(Connect(s, mode, attempt, throws, env))
  {
    ResetIsBare(s, WebSocket, attempt);
    ResetIsBare(s, Sse, attempt);
    if mode.WebSocket? && throws { FailureShows(Reset(s, WebSocket, attempt), WebSocket, attempt, env); }
  }

  lemma StepShows(s: State, e: Event, env: Env)
    requires Inv(s) && Legal(s, e) && StatusTrue(s)
    ensures StatusTrue(Next(s, e, env))
  {
    match e
    case RetryNow(throws) =>
      if !s.stopped {
        assert Tracked(ClearTimers(s)) by { ResetIsBare(s, WebSocket, 0); }
        ConnectShows(ClearTimers(s).(started := true), WebSocket, 0, throws, env);
      }
    case TimerFires(timer, throws) => FireShows(s, timer, throws, env);
    case SocketCloses(conn) => if IsCurrent(s.socket, conn) { FailureShows(s.(socket := None), WebSocket, s.socket.value.attempt, env); }
    case SourceErrors(conn) => if IsCurrent(s.source, conn) { FailureShows(s.(source := None), Sse, s.source.value.attempt, env); }
    case _ =>
  }

  lemma FireShows(s: State, timer: nat, throws: bool, env: Env)
    requires Inv(s) && timer in s.pending
    ensures StatusTrue(Fire(s, timer, throws, env))
  {
    var task := s.pending[timer];
    var s1 := s.(pending := s.pending - {timer});
    var s2 := if task.probe then s1.(probeTimer := None) else s1.(retryTimer := None);
    assert Tracked(s2);
    ConnectShows(s2, task.mode, task.attempt, throws, env);
  }

  /** In every state of every run, the status shown agrees with the connection or retry there is. */
  lemma {:induction false} StatusIsTrue(states: seq<State>, events: seq<Event>, env: Env, n: nat)
    requires IsRun(states, events, env) && n <= |events|
    ensures StatusTrue(states[n])
  {
    if n > 0 {
      StatusIsTrue(states, events, env, n - 1);
      LadderNeverStalls(states, events, env, n - 1);
      assert Legal(states[n - 1], events[n - 1]);
      StepShows(states[n - 1], events[n - 1], env);
    }
  }

  /** A retry loses track of a timer exactly when another retry is already pending. */
  lemma RetryTracksIff(s: State, mode: Mode, attempt: nat)
    requires Tracked(s)
    ensures Tracked(ScheduleRetry(s, mode, attempt)) <==> s.retryTimer.None?
  {
    var t := ScheduleRetry(s, mode, attempt);
    if s.retryTimer.Some? { assert s.retryTimer.value in t.pending; }
  }

  /**
   * Starting a manager that still holds a connection loses a timer when that connection then drops, exactly if the
   * connection has a retry left; on its last attempt the drop moves down the ladder, which clears the timers first.
   */
  lemma SecondStartTracksIff(s: State, env: Env)
    requires Inv(s) && !s.stopped
    ensures s.socket.Some? ==>
              (Tracked(SocketClosed(StartUp(s), s.socket.value.id, env)) <==> s.socket.value.attempt + 1 >= WEBSOCKET_ATTEMPT_LIMIT)
    ensures s.source.Some? ==>
              (Tracked(SourceFailed(StartUp(s), s.source.value.id, env)) <==> s.source.value.attempt + 1 >= SSE_ATTEMPT_LIMIT)
  {
    var t := StartUp(s);
    assert Tracked(t) by { ResetIsBare(s, WebSocket, 0); }
    if s.socket.Some? {
      var n := s.socket.value.attempt;
      var u := t.(socket := None);
      if n + 1 < WEBSOCKET_ATTEMPT_LIMIT { RetryTracksIff(u, WebSocket, n + 1); }
      else if env.sse { SseSound(u, 0, env); }
      else { PollingSound(u); }
    }
    if s.source.Some? {
      var n := s.source.value.attempt;
      var u := t.(source := None);
      if n + 1 < SSE_ATTEMPT_LIMIT { RetryTracksIff(u, Sse, n + 1); } else { PollingSound(u); }
    }
  }

  /** A manager started again while connected, whose socket then closes: stopping it leaves a timer behind. */
  lemma SecondStartLeaksATimer()
    ensures var env := Env(true, true);
            var s1 := StartUp(CONSTRUCTED);
            var s2 := Fire(s1, 0, false, env);
            var s3 := StartUp(s2);
            var s4 := SocketClosed(s3, 1, env);
            Inv(s2) && s2.socket.Some? && ShutDown(s4, Paused).pending != map[]
  {
    var env := Env(true, true);
    var s1 := StartUp(CONSTRUCTED);
    var s2 := Fire(s1, 0, false, env);
    StepSound(CONSTRUCTED, Start, env);
    FireSound(s1, 0, false, env);
    var s4 := SocketClosed(StartUp(s2), 1, env);
    assert 2 in s4.pending && s4.retryTimer == Some(3);
    assert 2 in ShutDown(s4, Paused).pending;
  }
}
