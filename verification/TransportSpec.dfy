/** The dashboard's transport ladder: WebSocket, then server-sent events, then polling with a later probe. */
module TransportSpec {
  import opened Redis

  datatype Mode = WebSocket | Sse | Polling
  datatype Phase = Idle | Connecting | Live | PollingPhase | Paused

  const WEBSOCKET_ATTEMPT_LIMIT := 3
  const SSE_ATTEMPT_LIMIT := 2

  /** What a timer does when it fires: start over, retry, or probe; all of them connect. */
  datatype Task = Task(probe: bool, mode: Mode, attempt: nat)

  /** A socket or an event source, with the attempt its callbacks were created for. */
  datatype Conn = Conn(id: nat, attempt: nat, isOpen: bool)

  /** Whether the addresses are usable and the browser supports event sources. */
  datatype Env = Env(socketUrl: bool, sse: bool)

  /**
   * The manager's fields, the timers the browser really has pending, and `started`: whether the manager was ever
   * asked to connect, by a start or a manual reconnect.
   */
  datatype State = State(
    mode: Mode, phase: Phase, attempt: nat, started: bool, stopped: bool,
    pending: map<nat, Task>, retryTimer: Option<nat>, probeTimer: Option<nat>,
    socket: Option<Conn>, source: Option<Conn>, nextId: nat)

  const CONSTRUCTED := State(Polling, Idle, 0, false, false, map[], None, None, None, None, 0)

  function Cancel(pending: map<nat, Task>, timer: Option<nat>): map<nat, Task> {
    if timer.Some? then pending - {timer.value} else pending
  }

  function ClearTimers(s: State): State {
    s.(pending := Cancel(Cancel(s.pending, s.retryTimer), s.probeTimer), retryTimer := None, probeTimer := None)
  }

  function CloseCurrent(s: State): State { s.(socket := None, source := None) }

  function ScheduleRetry(s: State, mode: Mode, attempt: nat): State {
    s.(mode := mode, phase := Connecting, attempt := attempt,
       pending := s.pending[s.nextId := Task(false, mode, attempt)], retryTimer := Some(s.nextId), nextId := s.nextId + 1)
  }

  function ScheduleProbe(s: State): State {
    if s.stopped then s
    else s.(pending := s.pending[s.nextId := Task(true, WebSocket, 0)], probeTimer := Some(s.nextId), nextId := s.nextId + 1)
  }

  function EnterPolling(s: State): State {
    ScheduleProbe(CloseCurrent(ClearTimers(s)).(mode := Polling, phase := PollingPhase, attempt := 0))
  }

  function OpenEventSource(s: State, attempt: nat, env: Env): State {
    if !env.sse then EnterPolling(s)
    else s.(source := Some(Conn(s.nextId, attempt, false)), nextId := s.nextId + 1)
  }

  function Reset(s: State, mode: Mode, attempt: nat): State {
    CloseCurrent(ClearTimers(s)).(mode := mode, phase := Connecting, attempt := attempt)
  }

  function ConnectSse(s: State, attempt: nat, env: Env): State {
    if s.stopped then s else OpenEventSource(Reset(s, Sse, attempt), attempt, env)
  }

  function HandleFailure(s: State, mode: Mode, attempt: nat, env: Env): State {
    if s.stopped then s
    else if mode.WebSocket? then
      if attempt + 1 < WEBSOCKET_ATTEMPT_LIMIT then ScheduleRetry(s, WebSocket, attempt + 1)
      else if env.sse then ConnectSse(s, 0, env)
      else EnterPolling(s)
    else if attempt + 1 < SSE_ATTEMPT_LIMIT then ScheduleRetry(s, Sse, attempt + 1)
    else EnterPolling(s)
  }

  /** `throws` says whether this construction of a WebSocket throws. */
  function OpenWebSocket(s: State, attempt: nat, throws: bool, env: Env): State {
    if !env.socketUrl then EnterPolling(s)
    else if throws then HandleFailure(s, WebSocket, attempt, env)
    else s.(socket := Some(Conn(s.nextId, attempt, false)), nextId := s.nextId + 1)
  }

  function Connect(s: State, mode: Mode, attempt: nat, throws: bool, env: Env): State {
    if s.stopped then s
    else if mode.WebSocket? then OpenWebSocket(Reset(s, WebSocket, attempt), attempt, throws, env)
    else ConnectSse(s, attempt, env)
  }

  // ----- What can happen -----

  datatype Event =
    | Start
    | Stop(phase: Phase)
    | RetryNow(throws: bool)
    | TimerFires(timer: nat, throws: bool)
    | SocketOpens(conn: nat)
    | SocketCloses(conn: nat)
    | SourceOpens(conn: nat)
    | SourceErrors(conn: nat)

  predicate IsCurrent(c: Option<Conn>, id: nat) { c.Some? && c.value.id == id }

  /** Only pending timers fire, and a connection opens at most once. The manager is started when it has no connection. */
  predicate Legal(s: State, e: Event) {
    match e
    case Start => s.socket.None? && s.source.None?
    case TimerFires(timer, _) => timer in s.pending
    case SocketOpens(conn) => IsCurrent(s.socket, conn) ==> !s.socket.value.isOpen
    case SourceOpens(conn) => IsCurrent(s.source, conn) ==> !s.source.value.isOpen
    case _ => true
  }

  function StartUp(s: State): State {
    var s1 := ClearTimers(s.(stopped := false, started := true));
    s1.(pending := s1.pending[s1.nextId := Task(false, WebSocket, 0)], retryTimer := Some(s1.nextId), nextId := s1.nextId + 1)
  }

  function Reconnect(s: State, throws: bool, env: Env): State {
    if s.stopped then s else Connect(ClearTimers(s).(started := true), WebSocket, 0, throws, env)
  }

  function ShutDown(s: State, phase: Phase): State {
    CloseCurrent(ClearTimers(s.(stopped := true))).(phase := phase, attempt := 0)
  }

  /** A fired timer forgets its own handle, then connects. */
  function Fire(s: State, timer: nat, throws: bool, env: Env): State
    requires timer in s.pending
  {
    var task := s.pending[timer];
    var s1 := s.(pending := s.pending - {timer});
    var s2 := if task.probe then s1.(probeTimer := None) else s1.(retryTimer := None);
    Connect(s2, task.mode, task.attempt, throws, env)
  }

  function SocketOpened(s: State, conn: nat): State {
    if !IsCurrent(s.socket, conn) || s.stopped then s
    else s.(socket := Some(s.socket.value.(isOpen := true)), mode := WebSocket, phase := Live, attempt := 0)
  }

  function SocketClosed(s: State, conn: nat, env: Env): State {
    if !IsCurrent(s.socket, conn) || s.stopped then s
    else HandleFailure(s.(socket := None), WebSocket, s.socket.value.attempt, env)
  }

  function SourceOpened(s: State, conn: nat): State {
    if !IsCurrent(s.source, conn) || s.stopped then s
    else ScheduleProbe(s.(source := Some(s.source.value.(isOpen := true)), mode := Sse, phase := Live, attempt := 0))
  }

  function SourceFailed(s: State, conn: nat, env: Env): State {
    if !IsCurrent(s.source, conn) || s.stopped then s
    else HandleFailure(s.(source := None), Sse, s.source.value.attempt, env)
  }

  function Next(s: State, e: Event, env: Env): State
    requires Legal(s, e)
  {
    match e
    case Start => StartUp(s)
    case Stop(phase) => ShutDown(s, phase)
    case RetryNow(throws) => Reconnect(s, throws, env)
    case TimerFires(timer, throws) => Fire(s, timer, throws, env)
    case SocketOpens(conn) => SocketOpened(s, conn)
    case SocketCloses(conn) => SocketClosed(s, conn, env)
    case SourceOpens(conn) => SourceOpened(s, conn)
    case SourceErrors(conn) => SourceFailed(s, conn, env)
  }
}
