/** What every legal run of the bridge keeps. */
module BridgeSafety {
  import opened Wrappers
  import opened BridgeModel

  function Calls(cs: seq<Completion>): seq<nat> {
    seq(|cs|, i requires 0 <= i < |cs| => cs[i].call)
  }

  lemma CallsAppend(cs: seq<Completion>, c: Completion)
    ensures Calls(cs + [c]) == Calls(cs) + [c.call]
  {
  }

  /** observersAdded == controllerAuthed ==> torController ==> torThread == torConfiguration. */
  ghost predicate Chain(b: Bridge) {
    && b.hasThread == b.hasConfig
    && b.threads == (if b.hasThread then 1 else 0)
    && (b.controller.Some? ==> b.hasThread)
    && (b.authed ==> b.controller.Some?)
    && b.observing == b.authed
  }

  /** Observers are registered at most once per control connection. */
  ghost predicate ObserversOnce(observed: seq<nat>, connections: nat, controller: Option<nat>, observing: bool) {
    && Distinct(observed)
    && (forall k :: 0 <= k < |observed| ==> observed[k] < connections)
    && (controller.Some? ==>
          controller.value < connections && (controller.value in observed <==> observing))
  }

  /** Every outstanding answer belongs to a past or present generation, never the bypass value 0. */
  ghost predicate AuthGenerations(auths: multiset<Auth>, gen: nat) {
    forall a :: a in auths ==> 1 <= a.gen <= gen
  }

  /** Each start call has been completed exactly once, except the one in flight. */
  ghost predicate Conserved(completed: seq<Completion>, calls: nat, pending: Option<nat>) {
    && Distinct(Calls(completed))
    && (forall c: nat :: c in Calls(completed) <==> c < calls && pending != Some(c))
    && |completed| + (if pending.Some? then 1 else 0) == calls
    && (pending.Some? ==> pending.value < calls)
  }

  /** A running Tor has nobody waiting for it. */
  ghost predicate RunningSettled(b: Bridge) {
    b.pending.Some? ==> b.hasThread && !b.running && 1 <= b.gen
  }

  ghost predicate Inv(b: Bridge) {
    && Chain(b)
    && ObserversOnce(b.observed, b.connections, b.controller, b.observing)
    && AuthGenerations(b.auths, b.gen)
    && Conserved(b.completed, b.calls, b.pending)
    && RunningSettled(b)
  }

  /** Armed blocks, too, captured a past or present generation, and imply a Tor thread. */
  ghost predicate TimerGenerations(timers: multiset<Timer>, gen: nat, hasThread: bool) {
    forall t :: t in timers ==> 1 <= t.gen <= gen && hasThread
  }

  ghost predicate WorldInv(w: World) {
    Inv(w.bridge) && TimerGenerations(w.timers, w.bridge.gen, w.bridge.hasThread)
  }

  /** An effect is sound when its fields are, and the block it arms carries a legitimate generation. */
  ghost predicate Sound(f: Effect) {
    Inv(f.bridge) && (f.armed.Some? ==> 1 <= f.armed.value.gen <= f.bridge.gen && f.bridge.hasThread)
  }

  lemma InitialInv()
    ensures WorldInv(INITIAL)
  {
  }

  /** One more completion, of a call that had none. */
  lemma CallsGrow(completed: seq<Completion>, c: Completion)
    requires Distinct(Calls(completed)) && c.call !in Calls(completed)
    ensures Distinct(Calls(completed + [c]))
    ensures forall k: nat :: k in Calls(completed + [c]) <==> k in Calls(completed) || k == c.call
  {
    CallsAppend(completed, c);
  }

  /** The pending call is completed. */
  lemma EndConserves(completed: seq<Completion>, calls: nat, pending: Option<nat>, o: Outcome)
    requires Conserved(completed, calls, pending) && pending.Some?
    ensures Conserved(completed + [Completion(pending.value, o)], calls, None)
  {
    assert pending.value !in Calls(completed);
    CallsGrow(completed, Completion(pending.value, o));
  }

  /** A new call is begun. */
  lemma BeginConserves(completed: seq<Completion>, calls: nat)
    requires Conserved(completed, calls, None)
    ensures Conserved(completed, calls + 1, Some(calls))
  {
    assert calls !in Calls(completed);
  }

  /** A new call is completed at once. */
  lemma AnswerConserves(completed: seq<Completion>, calls: nat, pending: Option<nat>, o: Outcome)
    requires Conserved(completed, calls, pending)
    ensures Conserved(completed + [Completion(calls, o)], calls + 1, pending)
  {
    assert calls !in Calls(completed);
    CallsGrow(completed, Completion(calls, o));
  }

  lemma SettleKeepsInv(b: Bridge, f: Option<Failure>, g: nat)
    requires Inv(b.(running := false))
    requires b.running && b.pending.Some? ==> g == 0
    ensures Inv(Settle(b, f, g))
  {
    var o := if f.None? then Ready(b.port) else Failed(f.value);
    if b.pending.Some? {
      EndConserves(b.completed, b.calls, b.pending, o);
    }
  }

  lemma AuthenticateSound(b: Bridge, g: nat, cookie: Cookie)
    requires Inv(b) && b.controller.Some? && 1 <= g == b.gen
    ensures Sound(Authenticate(b, g, cookie))
  {
    match cookie {
      case NoCookie => SettleKeepsInv(b, Some(CookieMissing), g);
      case WrongLength => SettleKeepsInv(b, Some(CookieLength), g);
      case FullCookie => assert AuthGenerations(b.auths + multiset{Auth(b.controller.value, g)}, b.gen);
    }
  }

  lemma EnsureControllerKeepsInv(b: Bridge)
    requires Inv(b) && b.hasThread
    ensures Inv(EnsureController(b))
  {
  }

  lemma ConnectSound(b: Bridge, g: nat, k: nat, p: Probe)
    requires Inv(b) && b.hasThread && 1 <= g
    ensures Sound(Connect(b, g, k, p))
  {
    if g != b.gen {
    } else if b.controller.None? && !p.portFileParses {
      SettleKeepsInv(b, Some(PortFileUnreadable), g);
    } else {
      EnsureControllerKeepsInv(b);
      ConnectedSound(EnsureController(b), g, k, p);
    }
  }

  lemma ConnectedSound(b: Bridge, g: nat, k: nat, p: Probe)
    requires Inv(b) && b.controller.Some? && 1 <= g == b.gen
    ensures Sound(Connected(b, g, k, p))
  {
    SettleKeepsInv(b, Some(ConnectFailed), g);
    AuthenticateSound(b, g, p.cookie);
  }

  lemma PollSound(b: Bridge, g: nat, k: nat, p: Probe)
    requires Inv(b) && b.hasThread && 1 <= g
    ensures Sound(Poll(b, g, k, p))
  {
    ConnectSound(b, g, 0, p);
    SettleKeepsInv(b, Some(PortFileMissing), g);
  }

  lemma BegunKeepsInv(b: Bridge, port: int)
    requires Inv(b) && !b.running && b.pending.None?
    ensures b.hasThread ==> Inv(Begun(b, port))
    ensures !b.hasThread ==> Inv(Launched(Begun(b, port)))
    ensures Inv(Settle(Begun(b, port), Some(DirectoryError), b.gen + 1))
  {
    BeginConserves(b.completed, b.calls);
    EndConserves(b.completed, b.calls + 1, Some(b.calls), Failed(DirectoryError));
    assert AuthGenerations(b.auths, b.gen + 1);
  }

  lemma StartSound(b: Bridge, port: int, p: Probe)
    requires Inv(b)
    ensures Sound(Start(b, port, p))
  {
    if b.running || b.pending.Some? {
      AnswerConserves(b.completed, b.calls, b.pending, if b.running then Ready(port) else Failed(AlreadyInFlight));
    } else {
      BegunKeepsInv(b, port);
      if b.hasThread {
        PollSound(Begun(b, port), b.gen + 1, 0, p);
      } else if p.dirCreated {
        PollSound(Launched(Begun(b, port)), b.gen + 1, 0, p);
      }
    }
  }

  lemma FireSound(b: Bridge, t: Timer, p: Probe)
    requires Inv(b) && b.hasThread && 1 <= t.gen <= b.gen
    ensures Sound(Fire(b, t, p))
  {
    match t {
      case PollTimer(g, k, _) => PollSound(b, g, k, p);
      case ConnectTimer(g, k, _) => ConnectSound(b, g, k, p);
      case AuthWatchdog(g, _) => SettleKeepsInv(b, Some(AuthSilent), g);
      case CircuitWatchdog(g, _) => SettleKeepsInv(b, Some(NoCircuit), g);
    }
  }

  lemma AcceptedKeepsInv(b: Bridge)
    requires Inv(b) && b.controller.Some?
    ensures Inv(Accepted(b))
  {
  }

  lemma AuthReplySound(b: Bridge, a: Auth, ok: bool)
    requires Inv(b) && a in b.auths && b.controller == Some(a.conn)
    ensures Sound(AuthReply(b, a, ok))
  {
    var b1 := Replied(b, a);
    assert AuthGenerations(b1.auths, b1.gen);
    assert Inv(b1);
    if ok {
      AcceptedKeepsInv(b1);
    } else {
      SettleKeepsInv(b1, Some(AuthRejected), a.gen);
    }
  }

  lemma StopKeepsInv(b: Bridge)
    requires Inv(b)
    ensures Inv(Stop(b))
  {
    assert AuthGenerations(b.auths, b.gen + 1);
    SettleKeepsInv(b.(gen := b.gen + 1), Some(Stopped), 0);
  }

  /** Generations only grow and the thread is never forgotten. */
  lemma ActMonotone(b: Bridge, e: Event)
    ensures b.gen <= Act(b, e).bridge.gen && (b.hasThread ==> Act(b, e).bridge.hasThread)
  {
    match e {
      case StartCalled(port, p) => StartMonotone(b, port, p);
      case StopCalled =>
      case TimerFired(_, _) =>
      case AuthAnswered(_, _) =>
      case CircuitReported(_, _) =>
      case TimePassed(_) =>
    }
  }

  lemma StartMonotone(b: Bridge, port: int, p: Probe)
    ensures b.gen <= Start(b, port, p).bridge.gen && (b.hasThread ==> Start(b, port, p).bridge.hasThread)
  {
    if !b.running && b.pending.None? {
      var b2 := Begun(b, port);
      assert SameAttempt(b2, Poll(b2, b2.gen, 0, p).bridge);
      assert SameAttempt(Launched(b2), Poll(Launched(b2), b2.gen, 0, p).bridge);
    }
  }

  /** Every event the environment may produce keeps the invariant. */
  lemma StepKeepsInv(w: World, e: Event)
    requires WorldInv(w) && Enabled(w, e)
    ensures WorldInv(Step(w, e))
  {
    var b := w.bridge;
    ActMonotone(b, e);
    assert Sound(Act(b, e)) by {
      match e {
        case StartCalled(port, p) => StartSound(b, port, p);
        case StopCalled => StopKeepsInv(b);
        case TimerFired(t, p) => FireSound(b, t, p);
        case AuthAnswered(a, ok) => AuthReplySound(b, a, ok);
        case CircuitReported(_, up) => SettleKeepsInv(b.(running := true), None, 0);
        case TimePassed(_) =>
      }
    }
  }

  /** The invariant holds after every legal run from a state that has it. */
  lemma {:induction false} RunKeepsInv(w: World, es: seq<Event>)
    requires WorldInv(w) && Legal(w, es)
    ensures WorldInv(Run(w, es))
    decreases es
  {
    if es != [] {
      StepKeepsInv(w, es[0]);
      RunKeepsInv(Step(w, es[0]), es[1..]);
    }
  }
}
