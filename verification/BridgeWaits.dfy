/** Which attempts get the 60 s wait for a circuit, and which are cut short at 15 s. */
module BridgeWaits {
  import opened Wrappers
  import opened BridgeModel
  import opened BridgeSafety
  import opened BridgeReports
  import opened BridgeTiming
  import opened BridgeCommands

  // ---------------------------------------------------------------- the watchdog nobody disarms

  /** The attempt of call `c` is settled, or it is pending with `t` still armed. */
  ghost predicate Watched(w: World, c: nat, t: Timer) {
    && c < w.bridge.calls
    && (w.bridge.pending == Some(c) ==> t.gen == w.bridge.gen && t in w.timers)
  }

  lemma FireWatched(w: World, c: nat, t: Timer, u: Timer, p: Probe)
    requires WorldInv(w) && u in w.timers && t.AuthWatchdog? && Watched(w, c, t)
    ensures Watched(Step(w, TimerFired(u, p)), c, t)
  {
    var f := Fire(w.bridge, u, p);
    assert SameAttempt(w.bridge, f.bridge);
    if f.bridge.pending == Some(c) {
      assert u != t;
    }
  }

  lemma StepWatched(w: World, c: nat, t: Timer, e: Event)
    requires WorldInv(w) && Enabled(w, e) && t.AuthWatchdog? && Watched(w, c, t)
    ensures Watched(Step(w, e), c, t)
  {
    var b := w.bridge;
    match e {
      case StartCalled(port, p) => StartGuarded(b, port, p); StartIsANewCall(b, port, p);
      case StopCalled =>
      case TimerFired(u, p) => FireWatched(w, c, t, u, p);
      case AuthAnswered(_, _) =>
      case CircuitReported(_, _) =>
      case TimePassed(_) =>
    }
  }

  lemma StartIsANewCall(b: Bridge, port: int, p: Probe)
    ensures var f := Start(b, port, p);
            && f.bridge.calls == b.calls + 1
            && (b.running || b.pending.Some? || f.bridge.pending.None? || f.bridge.pending == Some(b.calls))
  {
    if !b.running && b.pending.None? {
      assert SameAttempt(Begun(b, port), Poll(Begun(b, port), b.gen + 1, 0, p).bridge);
      assert SameAttempt(Launched(Begun(b, port)), Poll(Launched(Begun(b, port)), b.gen + 1, 0, p).bridge);
    }
  }

  lemma {:induction false} RunWatched(w: World, c: nat, t: Timer, es: seq<Event>)
    requires WorldInv(w) && OnTime(w) && PunctualRun(w, es) && t.AuthWatchdog? && Watched(w, c, t)
    ensures OnTime(Run(w, es)) && Watched(Run(w, es), c, t)
    decreases es
  {
    if es != [] {
      StepKeepsInv(w, es[0]);
      StepOnTime(w, es[0]);
      StepWatched(w, c, t, es[0]);
      RunWatched(Step(w, es[0]), c, t, es[1..]);
    }
  }

  /**
   An attempt that had to send AUTHENTICATE is over within 15 s of sending it,
   whatever Tor answers: success of the command does not disarm its watchdog, so
   the 60 s wait for a circuit is only ever granted to re-attached attempts.
   */
  lemma FreshAttemptNeverGetsCircuitWait(w: World, e: Event, c: nat, due: nat, es: seq<Event>)
    requires WorldInv(w) && OnTime(w) && Punctual(w, e)
    requires Act(w.bridge, e).armed == Some(AuthWatchdog(Step(w, e).bridge.gen, due))
    requires Step(w, e).bridge.pending == Some(c)
    requires PunctualRun(Step(w, e), es) && Run(Step(w, e), es).bridge.pending == Some(c)
    ensures due == w.bridge.now + AUTH_MS
    ensures Run(Step(w, e), es).bridge.now <= w.bridge.now + AUTH_MS
  {
    var t := AuthWatchdog(Step(w, e).bridge.gen, due);
    StepKeepsInv(w, e);
    StepOnTime(w, e);
    assert t in Step(w, e).timers;
    ArmsExactly(w.bridge, e);
    SendingSends(w.bridge, e);
    RunWatched(Step(w, e), c, t, es);
  }

  // ---------------------------------------------------------------- the wait that is granted

  /** Call `c` has been completed with `o`. */
  predicate Completed(b: Bridge, c: nat, o: Outcome) {
    Completion(c, o) in b.completed
  }

  /** Call `c` succeeded, was stopped, or was failed for lack of a circuit no earlier than `until`. */
  ghost predicate Over(b: Bridge, c: nat, until: nat) {
    || (exists port :: Completed(b, c, Ready(port)))
    || Completed(b, c, Failed(Stopped))
    || (until <= b.now && Completed(b, c, Failed(NoCircuit)))
  }

  /** Call `c` waits on an authenticated connection with nothing but circuit watchdogs, due no earlier than `until`, to end it. */
  ghost predicate Waiting(w: World, c: nat, until: nat) {
    && w.bridge.pending == Some(c)
    && w.bridge.authed
    && NoCommandOf(w.bridge.auths, w.bridge.gen)
    && OnlyWatchdogs(w.timers, w.bridge.gen, until)
  }

  ghost predicate OnlyWatchdogs(timers: multiset<Timer>, gen: nat, until: nat) {
    forall t :: t in timers && t.gen == gen ==> t.CircuitWatchdog? && until <= t.due
  }

  lemma WaitingStep(w: World, e: Event, c: nat, until: nat)
    requires WorldInv(w) && Punctual(w, e) && Waiting(w, c, until)
    ensures Waiting(Step(w, e), c, until) || Over(Step(w, e).bridge, c, until)
  {
    var b := w.bridge;
    match e {
      case StartCalled(_, _) =>
      case StopCalled => SettledWith(b.(gen := b.gen + 1), Some(Stopped), 0);
      case TimerFired(t, p) => WaitingFire(w, t, p, c, until);
      case AuthAnswered(a, ok) => WaitingReply(w, a, ok, c, until);
      case CircuitReported(_, up) => SettledWith(b.(running := true), None, 0);
      case TimePassed(_) =>
    }
  }

  lemma SettledWith(b: Bridge, f: Option<Failure>, g: nat)
    requires b.pending.Some? && (g == 0 || g == b.gen)
    ensures Completed(Settle(b, f, g), b.pending.value, if f.None? then Ready(b.port) else Failed(f.value))
  {
  }

  lemma WaitingFire(w: World, t: Timer, p: Probe, c: nat, until: nat)
    requires WorldInv(w) && Punctual(w, TimerFired(t, p)) && Waiting(w, c, until)
    ensures Waiting(Step(w, TimerFired(t, p)), c, until) || Over(Step(w, TimerFired(t, p)).bridge, c, until)
  {
    if t.gen == w.bridge.gen {
      SettledWith(w.bridge, Some(NoCircuit), t.gen);
    } else {
      assert Fire(w.bridge, t, p) == Effect(w.bridge, None);
    }
  }

  lemma WaitingReply(w: World, a: Auth, ok: bool, c: nat, until: nat)
    requires WorldInv(w) && Enabled(w, AuthAnswered(a, ok)) && Waiting(w, c, until)
    ensures Waiting(Step(w, AuthAnswered(a, ok)), c, until)
  {
    AnswerAndStop(w.bridge, a, ok);
    ReplyAndAttempt(w.bridge, a, ok);
  }

  lemma ClockAdvances(b: Bridge, e: Event)
    ensures b.now <= Act(b, e).bridge.now
  {
    if !e.TimePassed? {
      ActKeepsClock(b, e);
    }
  }

  /** Completions are never taken back, and time does not run backwards. */
  lemma OverStays(b: Bridge, e: Event, c: nat, until: nat)
    requires Over(b, c, until)
    ensures Over(Act(b, e).bridge, c, until)
  {
    var d := Act(b, e).bridge;
    ActReports(b, e);
    ClockAdvances(b, e);
    assert b.completed <= d.completed;
    assert forall o :: Completed(b, c, o) ==> Completed(d, c, o);
  }

  lemma {:induction false} WaitingRun(w: World, c: nat, until: nat, es: seq<Event>)
    requires WorldInv(w) && PunctualRun(w, es)
    requires Waiting(w, c, until) || Over(w.bridge, c, until)
    ensures Waiting(Run(w, es), c, until) || Over(Run(w, es).bridge, c, until)
    decreases es
  {
    if es != [] {
      StepKeepsInv(w, es[0]);
      if Over(w.bridge, c, until) {
        OverStays(w.bridge, es[0], c, until);
      } else {
        WaitingStep(w, es[0], c, until);
      }
      WaitingRun(Step(w, es[0]), c, until, es[1..]);
    }
  }

  lemma ReattachStartsWait(w: World, e: Event, c: nat)
    requires WorldInv(w) && LoneRetry(w) && Enabled(w, e) && Reattaches(w.bridge, e)
    requires Step(w, e).bridge.pending == Some(c)
    ensures Waiting(Step(w, e), c, w.bridge.now + CIRCUIT_MS)
  {
    var b, f := w.bridge, Act(w.bridge, e);
    ReattachingWaits(b, e);
    match e {
      case StartCalled(port, p) => StartStage(b, port, p);
      case TimerFired(t, p) =>
        assert SameAttempt(b, f.bridge);
        LastOfAttempt(w.timers, t, b.auths);
    }
  }

  /** A lone retry block leaves nothing of its attempt behind. */
  lemma LastOfAttempt(timers: multiset<Timer>, t: Timer, auths: multiset<Auth>)
    requires Alone(timers, auths, t.gen) && t in timers && Retries(t)
    ensures NoCommandOf(auths, t.gen) && forall u :: u in timers - multiset{t} ==> u.gen != t.gen
  {
  }

  // ---------------------------------------------------------------- the wait that is cut short

  /** Tor accepts every command it answers. */
  predicate NeverRejected(es: seq<Event>) {
    forall k :: 0 <= k < |es| ==> !(es[k].AuthAnswered? && !es[k].success)
  }

  /** `t` is the first block of the current attempt to fall due, and will fail it. */
  ghost predicate NextToFail(w: World, c: nat, t: Timer) {
    && t.AuthWatchdog? && t in w.timers && t.gen == w.bridge.gen && w.bridge.pending == Some(c)
    && forall u :: u in w.timers && u.gen == t.gen ==> t.due <= u.due
  }

  /** Every legal state that time has not overrun. */
  ghost predicate Reached(w: World) {
    WorldInv(w) && LoneRetry(w) && OnTime(w)
  }

  lemma ReachedStep(w: World, e: Event)
    requires Reached(w) && Punctual(w, e)
    ensures Reached(Step(w, e))
  {
    StepKeepsInv(w, e);
    StepKeepsLoneRetry(w, e);
    StepOnTime(w, e);
  }

  lemma {:induction false} ReachedRun(w: World, es: seq<Event>)
    requires Reached(w) && PunctualRun(w, es)
    ensures Reached(Run(w, es))
    decreases es
  {
    if es != [] {
      ReachedStep(w, es[0]);
      ReachedRun(Step(w, es[0]), es[1..]);
    }
  }

  lemma PunctualFirst(w: World, e: Event, es: seq<Event>)
    requires Punctual(w, e) && PunctualRun(Step(w, e), es)
    ensures PunctualRun(w, [e] + es) && Run(w, [e] + es) == Run(Step(w, e), es)
  {
    assert ([e] + es)[1..] == es;
  }

  lemma RunFirst(w: World, e: Event, es: seq<Event>)
    requires Punctual(w, e) && PunctualRun(Step(w, e), es)
    requires NeverRejected(es) && !(e.AuthAnswered? && !e.success)
    ensures PunctualRun(w, [e] + es) && NeverRejected([e] + es) && Run(w, [e] + es) == Run(Step(w, e), es)
  {
    PunctualFirst(w, e, es);
  }

  lemma Strike(w: World, c: nat, t: Timer)
    requires NextToFail(w, c, t) && w.bridge.now == t.due
    ensures var e := TimerFired(t, ANSWERING);
            && Punctual(w, e)
            && Completed(Step(w, e).bridge, c, Failed(AuthSilent)) && Step(w, e).bridge.authed == w.bridge.authed
            && Step(w, e).bridge.now == t.due
  {
    SettledWith(w.bridge, Some(AuthSilent), t.gen);
  }

  /** A block of an earlier attempt that is due runs without effect. */
  lemma StaleRuns(w: World, c: nat, t: Timer, u: Timer)
    requires NextToFail(w, c, t) && u in w.timers && u.due <= w.bridge.now < t.due && 1 <= u.gen
    ensures var e := TimerFired(u, ANSWERING);
            Punctual(w, e) && Step(w, e) == World(w.bridge, w.timers - multiset{u}) && NextToFail(Step(w, e), c, t)
    ensures |w.timers - multiset{u}| < |w.timers|
  {
    assert Fire(w.bridge, u, ANSWERING) == Effect(w.bridge, None);
  }

  lemma Tick(w: World, c: nat, t: Timer)
    requires NextToFail(w, c, t) && forall u :: u in w.timers ==> w.bridge.now < u.due
    ensures var e := TimePassed(1);
            && Punctual(w, e) && NextToFail(Step(w, e), c, t)
            && Step(w, e).bridge.now == w.bridge.now + 1 && Step(w, e).bridge.authed == w.bridge.authed
  {
  }

  /** Let every block run when due: the watchdog then fails the attempt, authenticated or not. */
  lemma {:induction false} WatchdogStrikes(w: World, c: nat, t: Timer) returns (es: seq<Event>)
    requires Reached(w) && NextToFail(w, c, t)
    ensures PunctualRun(w, es) && NeverRejected(es)
    ensures var b := Run(w, es).bridge; Completed(b, c, Failed(AuthSilent)) && b.authed == w.bridge.authed && b.now == t.due
    decreases t.due - w.bridge.now, |w.timers|
  {
    if w.bridge.now == t.due {
      Strike(w, c, t);
      RunFirst(w, TimerFired(t, ANSWERING), []);
      assert [TimerFired(t, ANSWERING)] + [] == [TimerFired(t, ANSWERING)];
      return [TimerFired(t, ANSWERING)];
    }
    var e: Event;
    if u :| u in w.timers && u.due <= w.bridge.now {
      e := TimerFired(u, ANSWERING);
      StaleRuns(w, c, t, u);
    } else {
      e := TimePassed(1);
      Tick(w, c, t);
    }
    ReachedStep(w, e);
    var rest := WatchdogStrikes(Step(w, e), c, t);
    RunFirst(w, e, rest);
    es := [e] + rest;
  }

  lemma CompletedOnce(b: Bridge, c: nat, o: Outcome, p: Outcome)
    requires Distinct(Calls(b.completed)) && Completed(b, c, o) && Completed(b, c, p)
    ensures o == p
  {
    var i :| 0 <= i < |b.completed| && b.completed[i] == Completion(c, o);
    var j :| 0 <= j < |b.completed| && b.completed[j] == Completion(c, p);
    assert Calls(b.completed)[i] == Calls(b.completed)[j];
  }

  /** An attempt that sends AUTHENTICATE can be failed after 15 s although the command was accepted. */
  lemma AcceptedIsCutShort(w: World, e: Event, c: nat) returns (es: seq<Event>)
    requires Reached(w) && Punctual(w, e) && Sends(w.bridge, e) && Step(w, e).bridge.pending == Some(c)
    ensures PunctualRun(Step(w, e), es) && NeverRejected(es)
    ensures var b := Run(Step(w, e), es).bridge;
            b.authed && b.now == w.bridge.now + AUTH_MS && Completed(b, c, Failed(AuthSilent))
  {
    var v := Step(w, e);
    var sent := Auth(Held(w.bridge), v.bridge.gen);
    var t := AuthWatchdog(v.bridge.gen, w.bridge.now + AUTH_MS);
    OnlySender(w, e, t, sent);
    ReachedStep(w, e);
    ReachedStep(v, AuthAnswered(sent, true));
    AcceptedIsNext(v, sent, c, t);
    var rest := WatchdogStrikes(Step(v, AuthAnswered(sent, true)), c, t);
    RunFirst(v, AuthAnswered(sent, true), rest);
    es := [AuthAnswered(sent, true)] + rest;
  }

  lemma OnlySender(w: World, e: Event, t: Timer, sent: Auth)
    requires WorldInv(w) && LoneRetry(w) && Enabled(w, e) && Sends(w.bridge, e)
    requires t == AuthWatchdog(Step(w, e).bridge.gen, w.bridge.now + AUTH_MS)
    requires sent == Auth(Held(w.bridge), Step(w, e).bridge.gen)
    ensures t in Step(w, e).timers && forall u :: u in Step(w, e).timers && u.gen == t.gen ==> u == t
    ensures Enabled(Step(w, e), AuthAnswered(sent, true)) && Step(w, e).bridge.now == w.bridge.now
  {
    SendingSends(w.bridge, e);
    ActKeepsClock(w.bridge, e);
    match e {
      case StartCalled(port, p) => StartStage(w.bridge, port, p);
      case TimerFired(u, p) =>
        assert SameAttempt(w.bridge, Fire(w.bridge, u, p).bridge);
        LastOfAttempt(w.timers, u, w.bridge.auths);
    }
  }

  lemma AcceptedIsNext(v: World, sent: Auth, c: nat, t: Timer)
    requires t.AuthWatchdog? && t in v.timers && t.gen == v.bridge.gen == sent.gen && v.bridge.pending == Some(c)
    requires (forall u :: u in v.timers && u.gen == t.gen ==> u == t) && t.due <= v.bridge.now + CIRCUIT_MS
    ensures var w := Step(v, AuthAnswered(sent, true)); NextToFail(w, c, t) && w.bridge.authed
  {
  }

  /** A call failed for a silent AUTHENTICATE did not get its wait. */
  lemma SilentIsNotGranted(w: World, c: nat, until: nat)
    requires WorldInv(w) && Completed(w.bridge, c, Failed(AuthSilent))
    ensures !Granted(w, c, until)
  {
    var b := w.bridge;
    forall o | Completed(b, c, o)
      ensures o == Failed(AuthSilent)
    {
      CompletedOnce(b, c, o, Failed(AuthSilent));
    }
    var i :| 0 <= i < |b.completed| && b.completed[i] == Completion(c, Failed(AuthSilent));
    assert Calls(b.completed)[i] == c;
  }

  // ---------------------------------------------------------------- the exact condition

  /** Call `c` is still waited for, or ended as a full wait until `until` may end. */
  ghost predicate Granted(w: World, c: nat, until: nat) {
    w.bridge.pending == Some(c) || Over(w.bridge, c, until)
  }

  /** Whatever happens next, short of Tor rejecting a command, call `c` gets its wait. */
  ghost predicate WaitGuaranteed(w: World, c: nat, until: nat) {
    forall es :: PunctualRun(w, es) && NeverRejected(es) ==> Granted(Run(w, es), c, until)
  }

  /**
   An attempt that gets through to Tor is guaranteed the 60 s wait for a circuit
   exactly when the connection was authenticated before: then it ends early only
   by success or stop(). Otherwise the 15 s watchdog can end it, although Tor
   accepts the command.
   */
  lemma FullWaitExactlyWhenAuthed(before: seq<Event>, w: World, e: Event, c: nat)
    requires PunctualRun(INITIAL, before) && w == Run(INITIAL, before) && Punctual(w, e)
    requires (Sends(w.bridge, e) || Reattaches(w.bridge, e)) && Step(w, e).bridge.pending == Some(c)
    ensures w.bridge.authed <==> WaitGuaranteed(Step(w, e), c, w.bridge.now + CIRCUIT_MS)
  {
    IsReached(before, w);
    ExactlyWhenAuthed(w, e, c);
  }

  lemma IsReached(before: seq<Event>, w: World)
    requires PunctualRun(INITIAL, before) && w == Run(INITIAL, before)
    ensures Reached(w)
  {
    InitialInv();
    ReachedRun(INITIAL, before);
  }

  lemma ExactlyWhenAuthed(w: World, e: Event, c: nat)
    requires Reached(w) && Punctual(w, e) && (Sends(w.bridge, e) || Reattaches(w.bridge, e))
    requires Step(w, e).bridge.pending == Some(c)
    ensures w.bridge.authed <==> WaitGuaranteed(Step(w, e), c, w.bridge.now + CIRCUIT_MS)
  {
    if w.bridge.authed {
      ReattachedIsGranted(w, e, c);
    } else {
      var es := AcceptedIsCutShort(w, e, c);
      ReachedStep(w, e);
      ReachedRun(Step(w, e), es);
      SilentIsNotGranted(Run(Step(w, e), es), c, w.bridge.now + CIRCUIT_MS);
    }
  }

  /** The guarantee of a re-attached attempt holds whatever Tor answers. */
  lemma ReattachedIsGranted(w: World, e: Event, c: nat)
    requires WorldInv(w) && LoneRetry(w) && Enabled(w, e) && Reattaches(w.bridge, e)
    requires Step(w, e).bridge.pending == Some(c)
    ensures forall es :: PunctualRun(Step(w, e), es) ==> Granted(Run(Step(w, e), es), c, w.bridge.now + CIRCUIT_MS)
  {
    StepKeepsInv(w, e);
    ReattachStartsWait(w, e, c);
    forall es | PunctualRun(Step(w, e), es)
      ensures Granted(Run(Step(w, e), es), c, w.bridge.now + CIRCUIT_MS)
    {
      WaitingRun(Step(w, e), c, w.bridge.now + CIRCUIT_MS, es);
    }
  }

  /** No circuit for 15 s. */
  const OUTLASTED := [TimePassed(AUTH_MS)] + ([TimerFired(AuthWatchdog(1, AUTH_MS), ANSWERING)] + [])

  /** A first start whose AUTHENTICATE is accepted at once, and which no circuit follows. */
  const ACCEPTED := [StartCalled(1, ANSWERING)] + ([AuthAnswered(Auth(0, 1), true)] + OUTLASTED)

  /** The bridge is then authenticated, and the attempt has failed for Tor's silence. */
  lemma AcceptedAttemptTimesOut()
    ensures PunctualRun(INITIAL, ACCEPTED) && TimedOut(Run(INITIAL, ACCEPTED).bridge)
  {
    var w1, w2 := AfterAccepted();
    OutlastedRun(w2);
    TwoFirst(INITIAL, StartCalled(1, ANSWERING), AuthAnswered(Auth(0, 1), true), w1, w2, OUTLASTED);
  }

  lemma AfterAccepted() returns (w1: World, w2: World)
    ensures Punctual(INITIAL, StartCalled(1, ANSWERING)) && w1 == Step(INITIAL, StartCalled(1, ANSWERING))
    ensures Punctual(w1, AuthAnswered(Auth(0, 1), true)) && w2 == Step(w1, AuthAnswered(Auth(0, 1), true))
    ensures w2.timers == multiset{AuthWatchdog(1, AUTH_MS), CircuitWatchdog(1, CIRCUIT_MS)}
    ensures w2.bridge.authed && w2.bridge.gen == 1 && w2.bridge.now == 0
    ensures w2.bridge.pending == Some(0) && w2.bridge.completed == [] && !w2.bridge.running
  {
    w1 := FirstAttempt();
    w2 := Step(w1, AuthAnswered(Auth(0, 1), true));
    AcceptedFirst(w1, w2);
  }

  ghost predicate TimedOut(b: Bridge) {
    && b.authed && b.now == AUTH_MS && b.completed == [Completion(0, Failed(AuthSilent))]
    && b.pending.None? && !b.running
  }

  lemma TwoFirst(w: World, e1: Event, e2: Event, w1: World, w2: World, es: seq<Event>)
    requires Punctual(w, e1) && w1 == Step(w, e1) && Punctual(w1, e2) && w2 == Step(w1, e2) && PunctualRun(w2, es)
    ensures PunctualRun(w, [e1] + ([e2] + es)) && Run(w, [e1] + ([e2] + es)) == Run(w2, es)
  {
    PunctualFirst(w1, e2, es);
    PunctualFirst(w, e1, [e2] + es);
  }

  lemma AcceptedFirst(w: World, v: World)
    requires w.bridge == UNANSWERED.bridge.(pending := Some(0), completed := [], now := 0)
    requires w.timers == multiset{AuthWatchdog(1, AUTH_MS)} && v == Step(w, AuthAnswered(Auth(0, 1), true))
    ensures Punctual(w, AuthAnswered(Auth(0, 1), true))
    ensures v.timers == multiset{AuthWatchdog(1, AUTH_MS), CircuitWatchdog(1, CIRCUIT_MS)}
    ensures v.bridge.authed && v.bridge.gen == 1 && v.bridge.now == 0 && v.bridge.pending == Some(0) && v.bridge.completed == []
    ensures !v.bridge.running
  {
  }

  lemma OutlastedRun(w: World)
    requires w.timers == multiset{AuthWatchdog(1, AUTH_MS), CircuitWatchdog(1, CIRCUIT_MS)}
    requires w.bridge.authed && w.bridge.gen == 1 && w.bridge.now == 0 && w.bridge.pending == Some(0) && w.bridge.completed == []
    requires !w.bridge.running
    ensures PunctualRun(w, OUTLASTED) && TimedOut(Run(w, OUTLASTED).bridge)
  {
    var v := Step(w, TimePassed(AUTH_MS));
    var last := TimerFired(AuthWatchdog(1, AUTH_MS), ANSWERING);
    assert v == w.(bridge := w.bridge.(now := AUTH_MS));
    OutlastedStep(v);
    TwoFirst(w, TimePassed(AUTH_MS), last, v, Step(v, last), []);
  }

  lemma OutlastedStep(w: World)
    requires AuthWatchdog(1, AUTH_MS) in w.timers
    requires w.bridge.authed && w.bridge.gen == 1 && w.bridge.now == AUTH_MS && w.bridge.pending == Some(0) && w.bridge.completed == []
    requires !w.bridge.running
    ensures var last := TimerFired(AuthWatchdog(1, AUTH_MS), ANSWERING);
            Punctual(w, last) && TimedOut(Step(w, last).bridge)
  {
  }
}
