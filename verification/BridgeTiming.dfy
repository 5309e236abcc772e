/** How long an attempt can stay unsettled when dispatch_after runs its blocks on time. */
module BridgeTiming {
  import opened Wrappers
  import opened BridgeModel
  import opened BridgeSafety

  /** 61 polls, 8 connect retries, then the longer of the two watchdogs. */
  const POLLING_MS: nat := (MAX_POLLS + 1) * POLL_MS
  const CONNECTING_MS: nat := POLLING_MS + MAX_CONNECTS * POLL_MS
  const SETTLE_MS: nat := CONNECTING_MS + CIRCUIT_MS

  /** Blocks run when they are due: time never moves past an armed block, and no block runs early. */
  predicate Punctual(w: World, e: Event) {
    && Enabled(w, e)
    && (e.TimePassed? ==> forall t :: t in w.timers ==> w.bridge.now + e.ms <= t.due)
    && (e.TimerFired? ==> e.timer.due <= w.bridge.now)
  }

  predicate PunctualRun(w: World, es: seq<Event>)
    decreases es
  {
    es == [] || (Punctual(w, es[0]) && PunctualRun(Step(w, es[0]), es[1..]))
  }

  /** The n-th retry of a stage is due within n periods of the moment the stage could begin. */
  predicate OnSchedule(b: Bridge, t: Timer) {
    match t
    case PollTimer(_, k, due) => k <= MAX_POLLS + 1 && due <= b.startedAt + k * POLL_MS
    case ConnectTimer(_, k, due) => k <= MAX_CONNECTS && due <= b.startedAt + POLLING_MS + k * POLL_MS
    case AuthWatchdog(_, due) => due <= b.startedAt + CONNECTING_MS + AUTH_MS
    case CircuitWatchdog(_, due) => due <= b.startedAt + SETTLE_MS
  }

  /** `t` belongs to the current attempt and will either settle it or pass it on. */
  predicate Guards(b: Bridge, t: Timer) {
    t.gen == b.gen && OnSchedule(b, t)
  }

  /** The retry blocks of the current attempt are all on schedule. */
  ghost predicate RetriesOnSchedule(w: World) {
    forall t :: t in w.timers && t.gen == w.bridge.gen && (t.PollTimer? || t.ConnectTimer?) ==> OnSchedule(w.bridge, t)
  }

  ghost predicate OnTime(w: World) {
    && (forall t :: t in w.timers ==> w.bridge.now <= t.due)
    && (w.bridge.pending.Some? ==>
          && w.bridge.startedAt <= w.bridge.now
          && RetriesOnSchedule(w)
          && exists t :: t in w.timers && Guards(w.bridge, t))
  }

  /** A method that leaves an attempt pending has armed a block that guards it. */
  predicate Guarded(f: Effect) {
    f.bridge.pending.Some? ==> f.armed.Some? && Guards(f.bridge, f.armed.value)
  }

  predicate ArmsFuture(f: Effect) {
    f.armed.Some? ==> f.bridge.now <= f.armed.value.due
  }

  lemma ConnectGuarded(b: Bridge, k: nat, p: Probe)
    requires k <= MAX_CONNECTS && b.now <= b.startedAt + POLLING_MS + k * POLL_MS
    ensures Guarded(Connect(b, b.gen, k, p)) && ArmsFuture(Connect(b, b.gen, k, p))
  {
    if !(b.controller.None? && !p.portFileParses) {
      ConnectedGuarded(EnsureController(b), k, p);
    }
  }

  lemma ConnectedGuarded(b: Bridge, k: nat, p: Probe)
    requires k <= MAX_CONNECTS && b.now <= b.startedAt + POLLING_MS + k * POLL_MS
    ensures Guarded(Connected(b, b.gen, k, p)) && ArmsFuture(Connected(b, b.gen, k, p))
  {
  }

  lemma PollGuarded(b: Bridge, k: nat, p: Probe)
    requires k <= MAX_POLLS + 1 && b.now <= b.startedAt + k * POLL_MS
    ensures Guarded(Poll(b, b.gen, k, p)) && ArmsFuture(Poll(b, b.gen, k, p))
  {
    if p.portFileFilled {
      ConnectGuarded(b, 0, p);
    }
  }

  lemma StartGuarded(b: Bridge, port: int, p: Probe)
    ensures ArmsFuture(Start(b, port, p))
    ensures !b.running && b.pending.None? ==>
              var f := Start(b, port, p);
              Guarded(f) && f.bridge.gen == b.gen + 1 && f.bridge.startedAt == f.bridge.now == b.now
    ensures b.running || b.pending.Some? ==>
              var f := Start(b, port, p);
              f.armed.None? && f.bridge == b.(calls := f.bridge.calls, completed := f.bridge.completed)
  {
    if !b.running && b.pending.None? {
      PollGuarded(Begun(b, port), 0, p);
      PollGuarded(Launched(Begun(b, port)), 0, p);
    }
  }

  /** Firing a live retry block passes the guard on; firing a live watchdog settles. */
  lemma FireGuarded(b: Bridge, t: Timer, p: Probe)
    requires Inv(b) && t.gen >= 1 && b.now <= t.due
    requires t.gen == b.gen && b.pending.Some? && (t.PollTimer? || t.ConnectTimer?) ==> OnSchedule(b, t)
    ensures t.gen == b.gen && b.pending.Some? ==> Guarded(Fire(b, t, p)) && ArmsFuture(Fire(b, t, p))
    ensures t.gen != b.gen ==> Fire(b, t, p) == Effect(b, None)
  {
    if t.gen == b.gen && b.pending.Some? {
      match t {
        case PollTimer(_, k, _) => PollGuarded(b, k, p);
        case ConnectTimer(_, k, _) => ConnectGuarded(b, k, p);
        case AuthWatchdog(_, _) =>
        case CircuitWatchdog(_, _) =>
      }
    }
  }

  lemma FireArmsFuture(b: Bridge, t: Timer, p: Probe)
    ensures ArmsFuture(Fire(b, t, p))
  {
    match t {
      case PollTimer(g, k, _) => assert Poll(b, g, k, p).armed.Some? && !p.portFileFilled ==> Poll(b, g, k, p).armed.value.PollTimer?;
      case ConnectTimer(g, k, _) =>
      case _ =>
    }
  }

  lemma StepOnTime(w: World, e: Event)
    requires WorldInv(w) && OnTime(w) && Punctual(w, e)
    ensures OnTime(Step(w, e))
  {
    var b, v := w.bridge, Step(w, e);
    match e {
      case StartCalled(port, p) => StartOnTime(w, port, p);
      case StopCalled =>
      case TimerFired(t, p) => FireOnTime(w, t, p);
      case AuthAnswered(a, ok) => AnswerOnTime(w, a, ok);
      case CircuitReported(_, _) =>
      case TimePassed(ms) => PassingOnTime(w, ms);
    }
  }

  lemma PassingOnTime(w: World, ms: nat)
    requires OnTime(w) && Punctual(w, TimePassed(ms))
    ensures OnTime(Step(w, TimePassed(ms)))
  {
    var b, v := w.bridge, Step(w, TimePassed(ms));
    assert v.timers == w.timers;
    if b.pending.Some? {
      var t :| t in w.timers && Guards(b, t);
      assert t in v.timers && Guards(v.bridge, t);
    }
  }

  lemma StartOnTime(w: World, port: int, p: Probe)
    requires WorldInv(w) && OnTime(w)
    ensures OnTime(Step(w, StartCalled(port, p)))
  {
    var b, v := w.bridge, Step(w, StartCalled(port, p));
    StartGuarded(b, port, p);
    if b.running || b.pending.Some? {
      assert v.timers == w.timers;
      if b.pending.Some? {
        var t :| t in w.timers && Guards(b, t);
        assert t in v.timers && Guards(v.bridge, t);
      }
    } else if v.bridge.pending.Some? {
      var t := Start(b, port, p).armed.value;
      assert t in v.timers && Guards(v.bridge, t);
    }
  }

  lemma FireOnTime(w: World, t: Timer, p: Probe)
    requires WorldInv(w) && OnTime(w) && Punctual(w, TimerFired(t, p))
    ensures OnTime(Step(w, TimerFired(t, p)))
  {
    var b, v := w.bridge, Step(w, TimerFired(t, p));
    FireGuarded(b, t, p);
    FireArmsFuture(b, t, p);
    if b.pending.Some? {
      if t.gen == b.gen {
        if v.bridge.pending.Some? {
          var u := Fire(b, t, p).armed.value;
          assert u in v.timers && Guards(v.bridge, u);
        }
      } else {
        var u :| u in w.timers && Guards(b, u);
        assert u in v.timers && Guards(v.bridge, u);
      }
    }
  }

  lemma AnswerOnTime(w: World, a: Auth, ok: bool)
    requires WorldInv(w) && OnTime(w) && Punctual(w, AuthAnswered(a, ok))
    ensures OnTime(Step(w, AuthAnswered(a, ok)))
  {
    var b, v := w.bridge, Step(w, AuthAnswered(a, ok));
    if v.bridge.pending.Some? {
      var u :| u in w.timers && Guards(b, u);
      assert u in v.timers && Guards(v.bridge, u);
    }
  }

  lemma {:induction false} RunOnTime(w: World, es: seq<Event>)
    requires WorldInv(w) && OnTime(w) && PunctualRun(w, es)
    ensures WorldInv(Run(w, es)) && OnTime(Run(w, es))
    decreases es
  {
    if es != [] {
      StepKeepsInv(w, es[0]);
      StepOnTime(w, es[0]);
      RunOnTime(Step(w, es[0]), es[1..]);
    }
  }

  /** An attempt that is still pending has a live block, and began at most 77,250 ms ago. */
  lemma AttemptSettlesInTime(es: seq<Event>)
    requires PunctualRun(INITIAL, es)
    ensures SETTLE_MS == 77_250
    ensures var w := Run(INITIAL, es);
            w.bridge.pending.Some? ==>
              && (exists t :: t in w.timers && t.gen == w.bridge.gen)
              && w.bridge.now <= w.bridge.startedAt + SETTLE_MS
  {
    InitialInv();
    RunOnTime(INITIAL, es);
  }

  // ---------------------------------------------------------------- the clock

  lemma ActKeepsClock(b: Bridge, e: Event)
    requires !e.TimePassed?
    ensures Act(b, e).bridge.now == b.now
    ensures !e.StartCalled? ==> Act(b, e).bridge.startedAt == b.startedAt
  {
    match e {
      case StartCalled(port, p) => StartKeepsClock(b, port, p);
      case StopCalled =>
      case TimerFired(_, _) =>
      case AuthAnswered(_, _) =>
      case CircuitReported(_, _) =>
    }
  }

  lemma StartKeepsClock(b: Bridge, port: int, p: Probe)
    ensures var c := Start(b, port, p).bridge;
            && c.now == b.now
            && c.startedAt == (if b.running || b.pending.Some? then b.startedAt else b.now)
  {
    if !b.running && b.pending.None? {
      assert SameAttempt(Begun(b, port), Poll(Begun(b, port), b.gen + 1, 0, p).bridge);
      assert SameAttempt(Launched(Begun(b, port)), Poll(Launched(Begun(b, port)), b.gen + 1, 0, p).bridge);
    }
  }

  // ---------------------------------------------------------------- the retry chain ends

  function Stage(t: Timer): nat {
    match t
    case PollTimer(_, _, _) => 2
    case ConnectTimer(_, _, _) => 1
    case AuthWatchdog(_, _) => 0
    case CircuitWatchdog(_, _) => 0
  }

  function RetriesLeft(t: Timer): nat {
    match t
    case PollTimer(_, k, _) => if k <= MAX_POLLS then MAX_POLLS + 1 - k else 0
    case ConnectTimer(_, k, _) => if k < MAX_CONNECTS then MAX_CONNECTS - k else 0
    case AuthWatchdog(_, _) => 0
    case CircuitWatchdog(_, _) => 0
  }

  /** A block only ever arms one of a lower stage, or of its own stage with fewer retries left. */
  lemma RetryChainDescends(b: Bridge, t: Timer, p: Probe)
    ensures var f := Fire(b, t, p);
            f.armed.Some? ==>
              || Stage(f.armed.value) < Stage(t)
              || (Stage(f.armed.value) == Stage(t) && RetriesLeft(f.armed.value) < RetriesLeft(t))
  {
  }
}
