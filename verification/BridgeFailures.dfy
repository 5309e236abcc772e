/** Every way a start call can fail, and exactly when. */
module BridgeFailures {
  import opened Wrappers
  import opened BridgeModel
  import opened BridgeSafety

  /** The one completion added is a failure with f. */
  predicate FailsIn(before: seq<Completion>, after: seq<Completion>, f: Failure) {
    |after| == |before| + 1 && after[..|before|] == before && after[|before|].outcome == Failed(f)
  }

  /** The event failed a call with f. */
  predicate Fails(b: Bridge, d: Bridge, f: Failure) {
    FailsIn(b.completed, d.completed, f)
  }

  lemma Appended(before: seq<Completion>, c: Completion, f: Failure)
    ensures FailsIn(before, before + [c], f) <==> c.outcome == Failed(f)
  {
  }

  /** A dial after k failed ones fails its attempt with f. */
  predicate DialFails(p: Probe, held: bool, authed: bool, k: nat, f: Failure) {
    match f
    case PortFileUnreadable => !held && !p.portFileParses
    case ConnectFailed => (held || p.portFileParses) && !p.isConnected && !p.connectSucceeds && k >= 8
    case CookieMissing => (held || p.portFileParses) && (p.isConnected || p.connectSucceeds) && !authed && p.cookie == NoCookie
    case CookieLength => (held || p.portFileParses) && (p.isConnected || p.connectSucceeds) && !authed && p.cookie == WrongLength
    case _ => false
  }

  /** A probe for the port file, after k that found none, fails its attempt with f. */
  predicate PollFails(p: Probe, held: bool, authed: bool, k: nat, f: Failure) {
    if p.portFileFilled then DialFails(p, held, authed, 0, f) else f == PortFileMissing && k >= 61
  }

  /** The events that fail a call with f. */
  predicate Cause(b: Bridge, e: Event, f: Failure) {
    match e
    case StartCalled(_, p) =>
      && !b.running
      && if b.pending.Some? then f == AlreadyInFlight
         else if !b.hasThread && !p.dirCreated then f == DirectoryError
         else PollFails(p, b.controller.Some?, b.authed, 0, f)
    case StopCalled => b.pending.Some? && f == Stopped
    case TimerFired(PollTimer(g, k, _), p) => b.pending.Some? && g == b.gen && PollFails(p, b.controller.Some?, b.authed, k, f)
    case TimerFired(ConnectTimer(g, k, _), p) => b.pending.Some? && g == b.gen && DialFails(p, b.controller.Some?, b.authed, k, f)
    case TimerFired(AuthWatchdog(g, _), _) => b.pending.Some? && g == b.gen && f == AuthSilent
    case TimerFired(CircuitWatchdog(g, _), _) => b.pending.Some? && g == b.gen && f == NoCircuit
    case AuthAnswered(a, ok) => b.pending.Some? && !ok && a.gen == b.gen && f == AuthRejected
    case _ => false
  }

  lemma SettleFails(b: Bridge, o: Option<Failure>, g: nat, f: Failure)
    ensures Fails(b, Settle(b, o, g), f) <==> b.pending.Some? && (g == 0 || g == b.gen) && o == Some(f)
  {
    if b.pending.Some? {
      Appended(b.completed, Completion(b.pending.value, if o.None? then Ready(b.port) else Failed(o.value)), f);
    }
  }

  lemma ConnectedFails(b: Bridge, k: nat, p: Probe, f: Failure)
    requires b.controller.Some?
    ensures Fails(b, Connected(b, b.gen, k, p).bridge, f) <==> b.pending.Some? && DialFails(p, true, b.authed, k, f)
  {
    SettleFails(b, Some(ConnectFailed), b.gen, f);
    SettleFails(b, Some(CookieMissing), b.gen, f);
    SettleFails(b, Some(CookieLength), b.gen, f);
  }

  lemma ConnectFails(b: Bridge, k: nat, p: Probe, f: Failure)
    ensures Fails(b, Connect(b, b.gen, k, p).bridge, f) <==> b.pending.Some? && DialFails(p, b.controller.Some?, b.authed, k, f)
  {
    if b.controller.Some? || p.portFileParses {
      ConnectedFails(EnsureController(b), k, p, f);
    } else {
      SettleFails(b, Some(PortFileUnreadable), b.gen, f);
    }
  }

  lemma PollFailsExactly(b: Bridge, k: nat, p: Probe, f: Failure)
    ensures Fails(b, Poll(b, b.gen, k, p).bridge, f) <==> b.pending.Some? && PollFails(p, b.controller.Some?, b.authed, k, f)
  {
    ConnectFails(b, 0, p, f);
    SettleFails(b, Some(PortFileMissing), b.gen, f);
  }

  lemma StartFails(b: Bridge, port: int, p: Probe, f: Failure)
    ensures Fails(b, Start(b, port, p).bridge, f) <==> Cause(b, StartCalled(port, p), f)
  {
    if !b.running && b.pending.None? {
      PollFailsExactly(Begun(b, port), 0, p, f);
      PollFailsExactly(Launched(Begun(b, port)), 0, p, f);
      SettleFails(Begun(b, port), Some(DirectoryError), b.gen + 1, f);
    }
  }

  lemma FireFails(b: Bridge, t: Timer, p: Probe, f: Failure)
    requires 1 <= t.gen && RunningSettled(b)
    ensures Fails(b, Fire(b, t, p).bridge, f) <==> Cause(b, TimerFired(t, p), f)
  {
    match t {
      case PollTimer(g, k, _) => PollFailsExactly(b, k, p, f);
      case ConnectTimer(g, k, _) => ConnectFails(b, k, p, f);
      case AuthWatchdog(g, _) => SettleFails(b, Some(AuthSilent), g, f);
      case CircuitWatchdog(g, _) => SettleFails(b, Some(NoCircuit), g, f);
    }
  }

  /** An event fails a call with f exactly when it is one of the causes of f. */
  lemma FailureExactly(w: World, e: Event, f: Failure)
    requires WorldInv(w) && Enabled(w, e)
    ensures Fails(w.bridge, Act(w.bridge, e).bridge, f) <==> Cause(w.bridge, e, f)
  {
    var b := w.bridge;
    match e {
      case StartCalled(port, p) => StartFails(b, port, p, f);
      case StopCalled => SettleFails(b.(gen := b.gen + 1), Some(Stopped), 0, f);
      case TimerFired(t, p) => FireFails(b, t, p, f);
      case AuthAnswered(a, ok) => SettleFails(Replied(b, a), Some(AuthRejected), a.gen, f);
      case CircuitReported(_, up) => SettleFails(b.(running := true), None, 0, f);
      case TimePassed(_) =>
    }
  }
}
