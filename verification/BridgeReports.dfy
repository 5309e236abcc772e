/** What one bridge event reports to its callers. */
module BridgeReports {
  import opened Wrappers
  import opened BridgeModel

  /** At most one completion was called; success only with Tor running; a dropped attempt was completed. */
  ghost predicate Reports(b: Bridge, c: Bridge) {
    && (c.completed == b.completed || Grown(b, c))
    && (Grown(b, c) && c.completed[|b.completed|].outcome.Ready? ==> c.running)
    && (b.pending.Some? && c.pending.None? ==> Grown(b, c))
  }

  predicate Grown(b: Bridge, c: Bridge) {
    |c.completed| == |b.completed| + 1 && c.completed[..|b.completed|] == b.completed
  }

  lemma SettleReports(b: Bridge, f: Option<Failure>, g: nat)
    requires f.None? ==> b.running
    ensures Reports(b, Settle(b, f, g))
  {
  }

  lemma ConnectReports(b: Bridge, g: nat, k: nat, p: Probe)
    ensures Reports(b, Connect(b, g, k, p).bridge)
  {
    var b1 := EnsureController(b);
    SettleReports(b, Some(PortFileUnreadable), g);
    ConnectedReports(b1, g, k, p);
  }

  lemma ConnectedReports(b: Bridge, g: nat, k: nat, p: Probe)
    ensures Reports(b, Connected(b, g, k, p).bridge)
  {
    SettleReports(b, Some(ConnectFailed), g);
    SettleReports(b, Some(CookieMissing), g);
    SettleReports(b, Some(CookieLength), g);
  }

  lemma PollReports(b: Bridge, g: nat, k: nat, p: Probe)
    ensures Reports(b, Poll(b, g, k, p).bridge)
  {
    ConnectReports(b, g, 0, p);
    SettleReports(b, Some(PortFileMissing), g);
  }

  /** A start call either leaves its attempt pending or completes one at once. */
  lemma StartReports(b: Bridge, port: int, p: Probe)
    ensures var c := Start(b, port, p).bridge;
            Reports(b, c) && (c.pending.Some? || Grown(b, c)) && (b.running ==> c.running)
  {
    if !b.running && b.pending.None? {
      var b2 := Begun(b, port);
      PollReports(b2, b2.gen, 0, p);
      PollReports(Launched(b2), b2.gen, 0, p);
      SettleReports(b2, Some(DirectoryError), b2.gen);
    }
  }

  lemma ActReports(b: Bridge, e: Event)
    ensures var c := Act(b, e).bridge; Reports(b, c) && (b.running && !e.StopCalled? ==> c.running)
  {
    match e {
      case StartCalled(port, p) => StartReports(b, port, p);
      case StopCalled => StopReports(b);
      case TimerFired(t, p) => FireReports(b, t, p);
      case AuthAnswered(a, ok) => AuthReplyReports(b, a, ok);
      case CircuitReported(_, up) => CircuitReports(b, up);
      case TimePassed(_) =>
    }
  }

  lemma StopReports(b: Bridge)
    ensures Reports(b, Stop(b))
  {
    SettleReports(b.(gen := b.gen + 1), Some(Stopped), 0);
  }

  lemma AuthReplyReports(b: Bridge, a: Auth, ok: bool)
    ensures Reports(b, AuthReply(b, a, ok).bridge) && AuthReply(b, a, ok).bridge.running == b.running
  {
    SettleReports(Replied(b, a), Some(AuthRejected), a.gen);
  }

  lemma CircuitReports(b: Bridge, up: bool)
    ensures Reports(b, CircuitReport(b, up)) && (b.running ==> CircuitReport(b, up).running)
  {
    SettleReports(b.(running := true), None, 0);
  }

  lemma FireReports(b: Bridge, t: Timer, p: Probe)
    ensures Reports(b, Fire(b, t, p).bridge)
  {
    match t {
      case PollTimer(g, k, _) => PollReports(b, g, k, p);
      case ConnectTimer(g, k, _) => ConnectReports(b, g, k, p);
      case AuthWatchdog(g, _) => SettleReports(b, Some(AuthSilent), g);
      case CircuitWatchdog(g, _) => SettleReports(b, Some(NoCircuit), g);
    }
  }

  // ---------------------------------------------------------------- which failures come from where

  /** None of the completions added has failed with f. */
  ghost predicate NoneAdded(f: Failure, before: seq<Completion>, after: seq<Completion>) {
    forall k :: |before| <= k < |after| ==> after[k].outcome != Failed(f)
  }

  /** Failures that no block reports. */
  predicate NotFromBlocks(f: Failure) {
    f == AuthRejected || f == AlreadyInFlight
  }

  lemma ConnectAdds(f: Failure, b: Bridge, g: nat, k: nat, p: Probe)
    requires NotFromBlocks(f)
    ensures NoneAdded(f, b.completed, Connect(b, g, k, p).bridge.completed)
  {
    if b.controller.Some? || p.portFileParses {
      ConnectedAdds(f, EnsureController(b), g, k, p);
    }
  }

  lemma ConnectedAdds(f: Failure, b: Bridge, g: nat, k: nat, p: Probe)
    requires NotFromBlocks(f)
    ensures NoneAdded(f, b.completed, Connected(b, g, k, p).bridge.completed)
  {
  }

  lemma PollAdds(f: Failure, b: Bridge, g: nat, k: nat, p: Probe)
    requires NotFromBlocks(f)
    ensures NoneAdded(f, b.completed, Poll(b, g, k, p).bridge.completed)
  {
    ConnectAdds(f, b, g, 0, p);
  }

  lemma FireAdds(f: Failure, b: Bridge, t: Timer, p: Probe)
    requires NotFromBlocks(f)
    ensures NoneAdded(f, b.completed, Fire(b, t, p).bridge.completed)
  {
    match t {
      case PollTimer(g, k, _) => PollAdds(f, b, g, k, p);
      case ConnectTimer(g, k, _) => ConnectAdds(f, b, g, k, p);
      case _ =>
    }
  }

  lemma StartAdds(f: Failure, b: Bridge, port: int, p: Probe)
    requires NotFromBlocks(f)
    ensures b.running || b.pending.None? || f != AlreadyInFlight ==> NoneAdded(f, b.completed, Start(b, port, p).bridge.completed)
  {
    if !b.running && b.pending.None? {
      PollAdds(f, Begun(b, port), b.gen + 1, 0, p);
      PollAdds(f, Launched(Begun(b, port)), b.gen + 1, 0, p);
    }
  }

  /** Only a failed reply completes a call as rejected. */
  lemma OnlyFailedReplyRejects(b: Bridge, e: Event)
    ensures !(e.AuthAnswered? && !e.success) ==> NoneAdded(AuthRejected, b.completed, Act(b, e).bridge.completed)
  {
    match e {
      case StartCalled(port, p) => StartAdds(AuthRejected, b, port, p);
      case TimerFired(t, p) => FireAdds(AuthRejected, b, t, p);
      case _ =>
    }
  }

  /** Only a start call made while an attempt is in flight is refused for that. */
  lemma OnlyOverlapRefuses(b: Bridge, e: Event)
    ensures !(e.StartCalled? && !b.running && b.pending.Some?) ==> NoneAdded(AlreadyInFlight, b.completed, Act(b, e).bridge.completed)
  {
    match e {
      case StartCalled(port, p) => StartAdds(AlreadyInFlight, b, port, p);
      case TimerFired(t, p) => FireAdds(AlreadyInFlight, b, t, p);
      case _ =>
    }
  }

  /** Only start calls are numbered. */
  lemma ActCounts(b: Bridge, e: Event)
    ensures Act(b, e).bridge.calls == b.calls + (if e.StartCalled? then 1 else 0)
  {
    match e {
      case StartCalled(port, p) => StartCounts(b, port, p);
      case StopCalled => assert SameAttempt(b.(gen := b.gen + 1), Settle(b.(gen := b.gen + 1), Some(Stopped), 0));
      case TimerFired(t, p) => assert SameAttempt(b, Fire(b, t, p).bridge);
      case _ =>
    }
  }

  lemma StartCounts(b: Bridge, port: int, p: Probe)
    ensures Start(b, port, p).bridge.calls == b.calls + 1
  {
    if !b.running && b.pending.None? {
      assert SameAttempt(Begun(b, port), Poll(Begun(b, port), b.gen + 1, 0, p).bridge);
      assert SameAttempt(Launched(Begun(b, port)), Poll(Launched(Begun(b, port)), b.gen + 1, 0, p).bridge);
    }
  }

  /** With nothing pending a block has nothing to complete. */
  lemma FireCompletesPending(b: Bridge, t: Timer, p: Probe)
    requires b.pending.None?
    ensures Fire(b, t, p).bridge.completed == b.completed
  {
  }
}
