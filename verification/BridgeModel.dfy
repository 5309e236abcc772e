/**
 The start/stop protocol of AegisTorBridge as a transition system.

 A `Bridge` value holds the fields of the Objective-C object together with the
 AUTHENTICATE commands that have not been answered, the Tor threads and control
 connections ever created, and every call made to a completion block. A `World`
 adds the blocks handed to dispatch_after that have not run yet. No method hands
 over more than one block, so what a method does is an `Effect`.
 */
module BridgeModel {
  import opened Wrappers

  const POLL_MS: nat := 250
  const AUTH_MS: nat := 15_000
  const CIRCUIT_MS: nat := 60_000
  const MAX_POLLS: nat := 60
  const MAX_CONNECTS: nat := 8

  /** configuration.cookie, as read at the moment AUTHENTICATE is due. */
  datatype Cookie = NoCookie | WrongLength | FullCookie

  /** What the file system and Tor.framework answer while one block runs. */
  datatype Probe = Probe(
    dirCreated: bool,
    portFileFilled: bool,
    portFileParses: bool,
    isConnected: bool,
    connectSucceeds: bool,
    cookie: Cookie)

  /** A block handed to dispatch_after, with the generation it captured. */
  datatype Timer =
    | PollTimer(gen: nat, attempt: nat, due: nat)
    | ConnectTimer(gen: nat, attempt: nat, due: nat)
    | AuthWatchdog(gen: nat, due: nat)
    | CircuitWatchdog(gen: nat, due: nat)

  /** An AUTHENTICATE command in flight on connection `conn`. */
  datatype Auth = Auth(conn: nat, gen: nat)

  datatype Failure =
    | DirectoryError
    | PortFileMissing      // code 1
    | CookieMissing        // code 2
    | CookieLength         // code 4
    | AuthRejected         // code 5
    | PortFileUnreadable   // code 6
    | ConnectFailed        // code 7
    | AuthSilent           // code 8
    | NoCircuit            // code 9
    | AlreadyInFlight      // code 10
    | Stopped              // code 11

  datatype Outcome = Ready(port: int) | Failed(failure: Failure)

  /** The completion block of start call number `call` was run with `outcome`. */
  datatype Completion = Completion(call: nat, outcome: Outcome)

  datatype Bridge = Bridge(
    hasThread: bool,
    hasConfig: bool,
    controller: Option<nat>,
    running: bool,
    authed: bool,
    observing: bool,
    port: int,
    gen: nat,
    pending: Option<nat>,
    now: nat,
    auths: multiset<Auth>,
    threads: nat,
    connections: nat,
    observed: seq<nat>,
    calls: nat,
    startedAt: nat,
    completed: seq<Completion>)

  /** The fields after one method or block, and the block it armed. */
  datatype Effect = Effect(bridge: Bridge, armed: Option<Timer>)

  datatype World = World(bridge: Bridge, timers: multiset<Timer>)

  const INITIAL: World :=
    World(Bridge(false, false, None, false, false, false, 0, 0, None, 0, multiset{}, 0, 0, [], 0, 0, []),
          multiset{})

  // ---------------------------------------------------------------- methods

  /** Still the same attempt, or the same attempt settled: what every block keeps. */
  predicate SameAttempt(b: Bridge, c: Bridge) {
    && c.gen == b.gen && c.startedAt == b.startedAt && c.now == b.now && c.port == b.port
    && c.hasThread == b.hasThread && c.running == b.running && c.calls == b.calls
    && (c.pending == b.pending || c.pending.None?)
  }

  function Complete(b: Bridge, call: nat, outcome: Outcome): Bridge {
    b.(completed := b.completed + [Completion(call, outcome)])
  }

  /** settleWithSuccess:error:generation: -- generation 0 bypasses the guard. */
  function Settle(b: Bridge, failure: Option<Failure>, g: nat): (r: Bridge)
    ensures SameAttempt(b, r)
  {
    if g != 0 && g != b.gen then b
    else if b.pending.None? then b
    else
      Complete(b.(pending := None), b.pending.value,
               if failure.None? then Ready(b.port) else Failed(failure.value))
  }

  function Start(b: Bridge, port: int, p: Probe): Effect {
    var b1 := b.(calls := b.calls + 1);
    if b.running then Effect(Complete(b1, b.calls, Ready(port)), None)
    else if b.pending.Some? then Effect(Complete(b1, b.calls, Failed(AlreadyInFlight)), None)
    else
      var b2 := Begun(b, port);
      if b.hasThread then Poll(b2, b2.gen, 0, p)
      else if !p.dirCreated then Effect(Settle(b2, Some(DirectoryError), b2.gen), None)
      else Poll(Launched(b2), b2.gen, 0, p)
  }

  /** The bookkeeping of a start call that begins an attempt. */
  function Begun(b: Bridge, port: int): Bridge {
    b.(calls := b.calls + 1, port := port, pending := Some(b.calls), gen := b.gen + 1, startedAt := b.now)
  }

  function Launched(b: Bridge): Bridge {
    b.(hasConfig := true, hasThread := true, threads := b.threads + 1)
  }

  function Poll(b: Bridge, g: nat, attempt: nat, p: Probe): (f: Effect)
    ensures SameAttempt(b, f.bridge)
  {
    if g != b.gen then Effect(b, None)
    else if p.portFileFilled then Connect(b, g, 0, p)
    else if attempt > MAX_POLLS then Effect(Settle(b, Some(PortFileMissing), g), None)
    else Effect(b, Some(PollTimer(g, attempt + 1, b.now + POLL_MS)))
  }

  /** The controller is built once per connection and reused by every retry. */
  function EnsureController(b: Bridge): (r: Bridge)
    ensures SameAttempt(b, r)
  {
    if b.controller.Some? then b
    else b.(controller := Some(b.connections), connections := b.connections + 1)
  }

  function Connect(b: Bridge, g: nat, attempt: nat, p: Probe): (f: Effect)
    ensures SameAttempt(b, f.bridge)
  {
    if g != b.gen then Effect(b, None)
    else if b.controller.None? && !p.portFileParses then Effect(Settle(b, Some(PortFileUnreadable), g), None)
    else Connected(EnsureController(b), g, attempt, p)
  }

  function Connected(b: Bridge, g: nat, attempt: nat, p: Probe): (f: Effect)
    ensures SameAttempt(b, f.bridge)
  {
    if !p.isConnected && !p.connectSucceeds then
      if attempt < MAX_CONNECTS then Effect(b, Some(ConnectTimer(g, attempt + 1, b.now + POLL_MS)))
      else Effect(Settle(b, Some(ConnectFailed), g), None)
    else if b.authed then Effect(b, Some(CircuitWatchdog(g, b.now + CIRCUIT_MS)))
    else Authenticate(b, g, p.cookie)
  }

  function Authenticate(b: Bridge, g: nat, cookie: Cookie): (f: Effect)
    ensures SameAttempt(b, f.bridge)
  {
    match cookie
    case NoCookie => Effect(Settle(b, Some(CookieMissing), g), None)
    case WrongLength => Effect(Settle(b, Some(CookieLength), g), None)
    case FullCookie =>
      Effect(if b.controller.None? then b else b.(auths := b.auths + multiset{Auth(b.controller.value, g)}),
             Some(AuthWatchdog(g, b.now + AUTH_MS)))
  }

  function RegisterObservers(b: Bridge): (r: Bridge)
    ensures SameAttempt(b, r)
  {
    if b.observing || b.controller.None? then b
    else b.(observing := true, observed := b.observed + [b.controller.value])
  }

  function AuthReply(b: Bridge, a: Auth, success: bool): Effect {
    if !success then Effect(Settle(Replied(b, a), Some(AuthRejected), a.gen), None)
    else Effect(Accepted(Replied(b, a)), Some(CircuitWatchdog(a.gen, b.now + CIRCUIT_MS)))
  }

  function Replied(b: Bridge, a: Auth): Bridge {
    b.(auths := b.auths - multiset{a})
  }

  /** The assignment is unconditional: the connection is authenticated whoever is waiting. */
  function Accepted(b: Bridge): (r: Bridge)
    ensures SameAttempt(b, r)
  {
    RegisterObservers(b.(authed := true))
  }

  function CircuitReport(b: Bridge, established: bool): Bridge {
    if !established then b else Settle(b.(running := true), None, 0)
  }

  function Stop(b: Bridge): Bridge {
    Settle(b.(gen := b.gen + 1), Some(Stopped), 0)
      .(controller := None, authed := false, observing := false, running := false)
  }

  /** The body of a block that dispatch_after runs. */
  function Fire(b: Bridge, t: Timer, p: Probe): (f: Effect)
    ensures SameAttempt(b, f.bridge)
  {
    match t
    case PollTimer(g, k, _) => Poll(b, g, k, p)
    case ConnectTimer(g, k, _) => Connect(b, g, k, p)
    case AuthWatchdog(g, _) => Effect(Settle(b, Some(AuthSilent), g), None)
    case CircuitWatchdog(g, _) => Effect(if b.running then b else Settle(b, Some(NoCircuit), g), None)
  }

  // ---------------------------------------------------------------- runs

  datatype Event =
    | StartCalled(port: int, probe: Probe)
    | StopCalled
    | TimerFired(timer: Timer, fired: Probe)
    | AuthAnswered(auth: Auth, success: bool)
    | CircuitReported(conn: nat, established: bool)
    | TimePassed(ms: nat)

  function Act(b: Bridge, e: Event): Effect {
    match e
    case StartCalled(port, p) => Start(b, port, p)
    case StopCalled => Effect(Stop(b), None)
    case TimerFired(t, p) => Fire(b, t, p)
    case AuthAnswered(a, ok) => AuthReply(b, a, ok)
    case CircuitReported(_, up) => Effect(CircuitReport(b, up), None)
    case TimePassed(ms) => Effect(b.(now := b.now + ms), None)
  }

  function Armed(t: Option<Timer>): multiset<Timer> {
    if t.Some? then multiset{t.value} else multiset{}
  }

  function Left(timers: multiset<Timer>, e: Event): multiset<Timer> {
    if e.TimerFired? then timers - multiset{e.timer} else timers
  }

  function Step(w: World, e: Event): World {
    var f := Act(w.bridge, e);
    World(f.bridge, Left(w.timers, e) + Armed(f.armed))
  }

  /**
   What the environment may do next. An armed block may run at any time; an
   answer or an observer callback comes from the connection the bridge holds:
   a control connection makes no callback once it has been disconnected.
   */
  predicate Enabled(w: World, e: Event) {
    match e
    case StartCalled(_, _) => true
    case StopCalled => true
    case TimerFired(t, _) => t in w.timers
    case AuthAnswered(a, _) => a in w.bridge.auths && w.bridge.controller == Some(a.conn)
    case CircuitReported(c, _) => w.bridge.observing && w.bridge.controller == Some(c)
    case TimePassed(_) => true
  }

  function Run(w: World, es: seq<Event>): World
    decreases es
  {
    if es == [] then w else Run(Step(w, es[0]), es[1..])
  }

  predicate Legal(w: World, es: seq<Event>)
    decreases es
  {
    es == [] || (Enabled(w, es[0]) && Legal(Step(w, es[0]), es[1..]))
  }
}
