/** When Tor is running, and which calls succeed. */
module BridgeCircuit {
  import opened Wrappers
  import opened BridgeModel
  import opened BridgeSafety
  import opened BridgeReports
  import opened BridgeCommands

  // ---------------------------------------------------------------- running

  predicate Established(e: Event) {
    e.CircuitReported? && e.established
  }

  predicate Unstopped(es: seq<Event>) {
    forall k :: 0 <= k < |es| ==> !es[k].StopCalled?
  }

  /** A circuit was reported established, and no stop() came since. */
  predicate UpSince(es: seq<Event>) {
    exists k :: 0 <= k < |es| && Established(es[k]) && Unstopped(es[k + 1..])
  }

  lemma ActRunning(b: Bridge, e: Event)
    ensures Act(b, e).bridge.running == (if e.StopCalled? then false else b.running || Established(e))
  {
    match e {
      case StartCalled(port, p) => StartRunning(b, port, p);
      case StopCalled =>
      case TimerFired(t, p) => assert SameAttempt(b, Fire(b, t, p).bridge);
      case AuthAnswered(a, ok) => AuthReplyReports(b, a, ok);
      case CircuitReported(_, _) =>
      case TimePassed(_) =>
    }
  }

  lemma StartRunning(b: Bridge, port: int, p: Probe)
    ensures Start(b, port, p).bridge.running == b.running
  {
    if !b.running && b.pending.None? {
      assert SameAttempt(Begun(b, port), Poll(Begun(b, port), b.gen + 1, 0, p).bridge);
      assert SameAttempt(Launched(Begun(b, port)), Poll(Launched(Begun(b, port)), b.gen + 1, 0, p).bridge);
    }
  }

  lemma UpSinceFirst(e: Event, es: seq<Event>)
    ensures UpSince([e] + es) <==> UpSince(es) || (Established(e) && Unstopped(es))
    ensures Unstopped([e] + es) <==> !e.StopCalled? && Unstopped(es)
  {
    var all := [e] + es;
    if UpSince(es) {
      var k :| 0 <= k < |es| && Established(es[k]) && Unstopped(es[k + 1..]);
      assert all[k + 1] == es[k] && all[k + 2..] == es[k + 1..];
    }
    if Established(e) && Unstopped(es) {
      assert all[0] == e && all[1..] == es;
    }
    if UpSince(all) {
      var k :| 0 <= k < |all| && Established(all[k]) && Unstopped(all[k + 1..]);
      assert all[k + 1..] == es[k..];
      if k > 0 {
        assert es[k - 1] == all[k];
      }
    }
    if Unstopped(all) {
      assert all[0] == e && forall k :: 0 <= k < |es| ==> es[k] == all[k + 1];
    }
  }

  lemma {:induction false} RunRunning(w: World, es: seq<Event>)
    ensures Run(w, es).bridge.running <==> UpSince(es) || (w.bridge.running && Unstopped(es))
    decreases es
  {
    if es != [] {
      ActRunning(w.bridge, es[0]);
      RunRunning(Step(w, es[0]), es[1..]);
      UpSinceFirst(es[0], es[1..]);
      assert es == [es[0]] + es[1..];
    }
  }

  /** Tor counts as running exactly when a circuit was established since the last stop(). */
  lemma RunningExactly(es: seq<Event>)
    ensures Run(INITIAL, es).bridge.running <==> UpSince(es)
  {
    RunRunning(INITIAL, es);
  }

  /** A running Tor has an authenticated control connection with its observers. */
  ghost predicate RunningConnected(b: Bridge) {
    b.running ==> b.authed && b.observing && b.controller.Some?
  }

  lemma StepKeepsRunningConnected(w: World, e: Event)
    requires WorldInv(w) && RunningConnected(w.bridge) && Enabled(w, e)
    ensures RunningConnected(Step(w, e).bridge)
  {
    StepKeepsInv(w, e);
    ActRunning(w.bridge, e);
    ActAuthed(w.bridge, e);
  }

  /** Only stop() takes the authentication back. */
  lemma ActAuthed(b: Bridge, e: Event)
    ensures !e.StopCalled? && b.authed ==> Act(b, e).bridge.authed
  {
    if e.AuthAnswered? {
      AnswerAndStop(b, e.auth, e.success);
    } else if !Sends(b, e) && !e.StopCalled? {
      OthersSendNothing(b, e);
    }
  }

  lemma {:induction false} RunKeepsRunningConnected(w: World, es: seq<Event>)
    requires WorldInv(w) && RunningConnected(w.bridge) && Legal(w, es)
    ensures RunningConnected(Run(w, es).bridge)
    decreases es
  {
    if es != [] {
      StepKeepsInv(w, es[0]);
      StepKeepsRunningConnected(w, es[0]);
      RunKeepsRunningConnected(Step(w, es[0]), es[1..]);
    }
  }

  lemma RunningIsConnected(es: seq<Event>)
    requires Legal(INITIAL, es)
    ensures var b := Run(INITIAL, es).bridge; b.running ==> b.authed && b.observing && b.controller.Some? && b.hasThread
  {
    InitialInv();
    RunKeepsInv(INITIAL, es);
    RunKeepsRunningConnected(INITIAL, es);
  }

  // ---------------------------------------------------------------- success

  /** The event completed call c, as a success on port p. */
  predicate Succeeds(b: Bridge, d: Bridge, c: nat, p: int) {
    Grown(b, d) && d.completed[|b.completed|] == Completion(c, Ready(p))
  }

  /**
   A call succeeds in two ways only: it is made while Tor runs, and gets its own
   port; or it is waiting when a circuit is established.
   */
  lemma SuccessExactly(w: World, e: Event, c: nat, p: int)
    requires WorldInv(w) && Enabled(w, e)
    ensures Succeeds(w.bridge, Act(w.bridge, e).bridge, c, p) <==>
              || (e.StartCalled? && w.bridge.running && c == w.bridge.calls && p == e.port)
              || (Established(e) && w.bridge.pending == Some(c) && p == w.bridge.port)
  {
    var b, d := w.bridge, Act(w.bridge, e).bridge;
    ActReports(b, e);
    ActRunning(b, e);
    match e {
      case StartCalled(_, _) =>
      case StopCalled => StopFails(b);
      case TimerFired(t, q) => if b.running { FireCompletesPending(b, t, q); }
      case AuthAnswered(_, _) =>
      case CircuitReported(_, _) =>
      case TimePassed(_) =>
    }
  }

  lemma StopFails(b: Bridge)
    ensures Grown(b, Stop(b)) ==> Stop(b).completed[|b.completed|].outcome == Failed(Stopped)
  {
  }

  /** No call succeeds between a stop() and the next established circuit. */
  lemma SuccessNeedsCircuit(es: seq<Event>, e: Event, c: nat, p: int)
    requires Legal(INITIAL, es) && Enabled(Run(INITIAL, es), e)
    requires Succeeds(Run(INITIAL, es).bridge, Step(Run(INITIAL, es), e).bridge, c, p)
    ensures UpSince(es) || Established(e)
  {
    InitialInv();
    RunKeepsInv(INITIAL, es);
    SuccessExactly(Run(INITIAL, es), e, c, p);
    RunningExactly(es);
  }

  // ---------------------------------------------------------------- ports

  /** The ports of the start calls, in call order. */
  function Ports(es: seq<Event>): seq<int> {
    if es == [] then [] else (if es[0].StartCalled? then [es[0].port] else []) + Ports(es[1..])
  }

  /** Every success reports the port of its own call, and the pending call's port is the one held. */
  ghost predicate PortsRight(completed: seq<Completion>, pending: Option<nat>, port: int, ports: seq<int>) {
    && (pending.Some? ==> pending.value < |ports| && ports[pending.value] == port)
    && forall k :: 0 <= k < |completed| && completed[k].outcome.Ready? ==>
         completed[k].call < |ports| && completed[k].outcome.port == ports[completed[k].call]
  }

  lemma StartPort(b: Bridge, port: int, p: Probe)
    ensures var d := Start(b, port, p).bridge;
            && d.port == (if b.running || b.pending.Some? then b.port else port)
            && (b.running || b.pending.Some? ==> d.pending == b.pending)
            && (!b.running && b.pending.None? ==> d.pending.None? || d.pending == Some(b.calls))
  {
    if !b.running && b.pending.None? {
      assert SameAttempt(Begun(b, port), Poll(Begun(b, port), b.gen + 1, 0, p).bridge);
      assert SameAttempt(Launched(Begun(b, port)), Poll(Launched(Begun(b, port)), b.gen + 1, 0, p).bridge);
    }
  }

  lemma ActPort(b: Bridge, e: Event)
    requires !e.StartCalled?
    ensures Act(b, e).bridge.port == b.port && (Act(b, e).bridge.pending == b.pending || Act(b, e).bridge.pending.None?)
  {
    match e {
      case StopCalled => assert SameAttempt(b.(gen := b.gen + 1), Settle(b.(gen := b.gen + 1), Some(Stopped), 0));
      case TimerFired(t, p) => assert SameAttempt(b, Fire(b, t, p).bridge);
      case _ =>
    }
  }

  /** One more completion, and perhaps one more port. */
  lemma PortsGrow(before: seq<Completion>, after: seq<Completion>, pending: Option<nat>, port: int,
                  later: Option<nat>, newPort: int, ports: seq<int>, more: seq<int>)
    requires PortsRight(before, pending, port, ports) && ports <= more && before <= after && |after| <= |before| + 1
    requires |after| > |before| && after[|before|].outcome.Ready? ==>
               after[|before|].call < |more| && after[|before|].outcome.port == more[after[|before|].call]
    requires later.Some? ==> later.value < |more| && more[later.value] == newPort
    ensures PortsRight(after, later, newPort, more)
  {
    assert forall k :: 0 <= k < |before| ==> after[k] == before[k];
  }

  lemma NewCompletion(w: World, e: Event)
    requires WorldInv(w) && Enabled(w, e)
    ensures var b, d := w.bridge, Act(w.bridge, e).bridge;
            && b.completed <= d.completed && |d.completed| <= |b.completed| + 1
            && (|d.completed| > |b.completed| && d.completed[|b.completed|].outcome.Ready? ==>
                  var last := d.completed[|b.completed|];
                  || (e.StartCalled? && last.call == b.calls && last.outcome.port == e.port)
                  || (b.pending == Some(last.call) && last.outcome.port == b.port))
  {
    var b, d := w.bridge, Act(w.bridge, e).bridge;
    ActReports(b, e);
    if Grown(b, d) && d.completed[|b.completed|].outcome.Ready? {
      var last := d.completed[|b.completed|];
      assert last == Completion(last.call, Ready(last.outcome.port));
      SuccessExactly(w, e, last.call, last.outcome.port);
    }
  }

  /** The port list after the event. */
  function Noted(ports: seq<int>, e: Event): seq<int> {
    if e.StartCalled? then ports + [e.port] else ports
  }

  lemma StepKeepsPorts(w: World, e: Event, ports: seq<int>)
    requires WorldInv(w) && Enabled(w, e) && |ports| == w.bridge.calls
    requires PortsRight(w.bridge.completed, w.bridge.pending, w.bridge.port, ports)
    ensures |Noted(ports, e)| == Act(w.bridge, e).bridge.calls
    ensures var d := Act(w.bridge, e).bridge; PortsRight(d.completed, d.pending, d.port, Noted(ports, e))
  {
    var b, d := w.bridge, Act(w.bridge, e).bridge;
    ActCounts(b, e);
    NewCompletion(w, e);
    if e.StartCalled? {
      StartPort(b, e.port, e.probe);
    } else {
      ActPort(b, e);
    }
    PortsGrow(b.completed, d.completed, b.pending, b.port, d.pending, d.port, ports, Noted(ports, e));
  }

  lemma NotedFirst(ports: seq<int>, es: seq<Event>)
    ensures es != [] ==> Noted(ports, es[0]) + Ports(es[1..]) == ports + Ports(es)
    ensures es == [] ==> ports + Ports(es) == ports
  {
  }

  lemma {:induction false} RunKeepsPorts(w: World, es: seq<Event>, ports: seq<int>)
    requires WorldInv(w) && Legal(w, es) && |ports| == w.bridge.calls
    requires PortsRight(w.bridge.completed, w.bridge.pending, w.bridge.port, ports)
    ensures var d := Run(w, es).bridge; PortsRight(d.completed, d.pending, d.port, ports + Ports(es))
    decreases es
  {
    NotedFirst(ports, es);
    if es != [] {
      StepKeepsInv(w, es[0]);
      StepKeepsPorts(w, es[0], ports);
      RunKeepsPorts(Step(w, es[0]), es[1..], Noted(ports, es[0]));
    }
  }

  /** A success carries the port of its own start call. */
  lemma SuccessCarriesItsPort(es: seq<Event>, c: nat, p: int)
    requires Legal(INITIAL, es) && Completion(c, Ready(p)) in Run(INITIAL, es).bridge.completed
    ensures c < |Ports(es)| && Ports(es)[c] == p
  {
    InitialInv();
    RunKeepsPorts(INITIAL, es, []);
    assert [] + Ports(es) == Ports(es);
  }
}
