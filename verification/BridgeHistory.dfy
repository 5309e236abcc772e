/**
 The retry chain of one attempt against a reference: after a list of probes
 the chain is in a phase read off that list alone.
 */
module BridgeHistory {
  import opened Wrappers
  import opened BridgeModel
  import opened BridgeSafety
  import opened BridgeReports
  import opened BridgeTiming
  import opened BridgeCommands
  import opened BridgeWaits

  // ---------------------------------------------------------------- the reference

  /** Call `call` began attempt `gen` at time `start`; `held` tells whether there was a control connection. */
  datatype Try = Try(gen: nat, start: nat, call: nat, held: bool)

  datatype Phase =
    | Polling                 // no probe has found the control port file
    | Dialling(found: nat)    // probe number `found` has, and no connect has succeeded
    | Through                 // a connect has succeeded
    | Exhausted(failure: Failure)

  predicate Connectable(p: Probe) {
    p.isConnected || p.connectSucceeds
  }

  /** How many probes come before the first that finds the file. */
  function Found(ps: seq<Probe>): (m: nat)
    ensures m <= |ps|
    ensures forall i :: 0 <= i < m ==> !ps[i].portFileFilled
    ensures m < |ps| ==> ps[m].portFileFilled
  {
    if ps == [] || ps[0].portFileFilled then 0 else 1 + Found(ps[1..])
  }

  predicate SomeConnects(ps: seq<Probe>, m: nat) {
    exists i :: m <= i < |ps| && Connectable(ps[i])
  }

  /** 62 probes for the file, at 0 to 15,250 ms; nine for a connection from the one that found it. */
  function PhaseOf(ps: seq<Probe>, held: bool): Phase {
    var m := Found(ps);
    if m >= 62 then Exhausted(PortFileMissing)
    else if m == |ps| then Polling
    else if !held && !ps[m].portFileParses then Exhausted(PortFileUnreadable)
    else if SomeConnects(ps, m) then Through
    else if |ps| - m < 9 then Dialling(m)
    else Exhausted(ConnectFailed)
  }

  /** The retry block armed in a phase after n probes: probe number n is made n times 250 ms after the start. */
  function NextBlock(at: Try, n: nat, phase: Phase): Option<Timer> {
    match phase
    case Polling => Some(PollTimer(at.gen, n, at.start + n * 250))
    case Dialling(m) => if m <= n then Some(ConnectTimer(at.gen, n - m, at.start + n * 250)) else None
    case _ => None
  }

  /** The probe an event makes for attempt g. */
  function ProbeMade(g: nat, e: Event): seq<Probe> {
    if e.TimerFired? && Retries(e.timer) && e.timer.gen == g then [e.fired] else []
  }

  function Probes(g: nat, es: seq<Event>): seq<Probe> {
    if es == [] then [] else ProbeMade(g, es[0]) + Probes(g, es[1..])
  }

  // ---------------------------------------------------------------- one more probe

  lemma {:induction false} FoundMore(ps: seq<Probe>, p: Probe)
    ensures Found(ps + [p]) == if Found(ps) < |ps| then Found(ps) else if p.portFileFilled then |ps| else |ps| + 1
  {
    if ps == [] {
      assert [] + [p] == [p] && [p][1..] == [];
    } else if !ps[0].portFileFilled {
      assert (ps + [p])[1..] == ps[1..] + [p];
      FoundMore(ps[1..], p);
    }
  }

  lemma SomeConnectsMore(ps: seq<Probe>, p: Probe, m: nat)
    requires m <= |ps|
    ensures SomeConnects(ps + [p], m) <==> SomeConnects(ps, m) || Connectable(p)
  {
    var qs := ps + [p];
    assert qs[|ps|] == p;
    if SomeConnects(ps, m) {
      var i :| m <= i < |ps| && Connectable(ps[i]);
      assert Connectable(qs[i]);
    }
    if SomeConnects(qs, m) && !Connectable(p) {
      var i :| m <= i < |qs| && Connectable(qs[i]);
      assert ps[i] == qs[i];
    }
  }

  /** What a probe makes of a chain that is still going. */
  lemma PhaseMore(ps: seq<Probe>, p: Probe, held: bool)
    ensures var next := PhaseOf(ps + [p], held);
            match PhaseOf(ps, held)
            case Polling =>
              if !p.portFileFilled then next == (if |ps| < 61 then Polling else Exhausted(PortFileMissing))
              else if !held && !p.portFileParses then next == Exhausted(PortFileUnreadable)
              else if Connectable(p) then next == Through
              else next == Dialling(|ps|)
            case Dialling(m) =>
              && m < |ps|
              && next == (if Connectable(p) then Through else if |ps| - m < 8 then Dialling(m) else Exhausted(ConnectFailed))
            case _ => true
  {
    var m := Found(ps);
    var qs := ps + [p];
    FoundMore(ps, p);
    SomeConnectsMore(ps, p, m);
    assert qs[|ps|] == p;
    if m < |ps| {
      assert qs[m] == ps[m];
    }
  }

  // ---------------------------------------------------------------- the chain keeps to it

  /** The blocks of the attempt: the one retry block its phase calls for, and watchdogs only once through. */
  ghost predicate BlocksFit(timers: multiset<Timer>, at: Try, n: nat, phase: Phase) {
    && (forall t :: t in timers && t.gen == at.gen && Retries(t) ==> NextBlock(at, n, phase) == Some(t) && timers[t] == 1)
    && (NextBlock(at, n, phase).Some? ==> NextBlock(at, n, phase).value in timers)
    && (forall t :: t in timers && t.gen == at.gen && !Retries(t) ==> phase.Through?)
    && (forall t :: t in timers && t.gen == at.gen && t.AuthWatchdog? ==> t.due + 250 == at.start + n * 250 + 15_000)
  }

  ghost predicate CommandsFit(auths: multiset<Auth>, at: Try, phase: Phase) {
    !NoCommandOf(auths, at.gen) ==> phase.Through?
  }

  /** An outcome the attempt can have had, its phase being as it is. */
  predicate Fits(o: Outcome, phase: Phase) {
    match o
    case Ready(_) => true
    case Failed(f) =>
      if f in {PortFileMissing, PortFileUnreadable, ConnectFailed} then phase == Exhausted(f)
      else phase.Through? && f in {CookieMissing, CookieLength, AuthRejected, AuthSilent, NoCircuit}
  }

  /** The call is pending, unless the chain is exhausted, or was completed with an outcome that fits. */
  ghost predicate CallFits(completed: seq<Completion>, pending: Option<nat>, c: nat, phase: Phase) {
    && (pending.None? || pending == Some(c))
    && (pending.Some? ==> !phase.Exhausted?)
    && (pending.None? ==> exists o :: Completion(c, o) in completed && Fits(o, phase))
  }

  /** The attempt has made n probes and is in the phase given. */
  ghost predicate InPhase(w: World, at: Try, n: nat, phase: Phase) {
    var b := w.bridge;
    && 1 <= at.gen == b.gen && b.startedAt == at.start
    && BlocksFit(w.timers, at, n, phase)
    && CommandsFit(b.auths, at, phase)
    && CallFits(b.completed, b.pending, at.call, phase)
    && (phase.Polling? ==> b.controller.Some? == at.held)
    && (phase.Dialling? ==> b.controller.Some?)
  }

  ghost predicate History(w: World, at: Try, ps: seq<Probe>) {
    ps != [] && InPhase(w, at, |ps|, PhaseOf(ps, at.held))
  }

  lemma CallStillFits(before: seq<Completion>, after: seq<Completion>, pending: Option<nat>, c: nat, phase: Phase)
    requires CallFits(before, pending, c, phase) && before <= after
    ensures CallFits(after, pending, c, phase)
  {
    if pending.None? {
      var o :| Completion(c, o) in before && Fits(o, phase);
      assert Completion(c, o) in after;
    }
  }

  /** Settling with an outcome that fits. */
  lemma SettledFits(b: Bridge, f: Option<Failure>, g: nat, c: nat, phase: Phase)
    requires b.pending.None? || b.pending == Some(c)
    requires b.pending.None? ==> exists o :: Completion(c, o) in b.completed && Fits(o, phase)
    requires f.Some? ==> Fits(Failed(f.value), phase)
    requires g == 0 || g == b.gen
    ensures var d := Settle(b, f, g); CallFits(d.completed, d.pending, c, phase) && d.pending.None?
  {
    if b.pending.Some? {
      var o := if f.None? then Ready(b.port) else Failed(f.value);
      assert Completion(c, o) in Settle(b, f, g).completed;
    }
  }

  /** What one retry block does, in the words of the phases. */
  ghost predicate Advances(b: Bridge, f: Effect, at: Try, n: nat, phase: Phase) {
    && (NextBlock(at, n, phase).Some? ==> f.armed == NextBlock(at, n, phase))
    && (f.armed.Some? && Retries(f.armed.value) ==> f.armed == NextBlock(at, n, phase))
    && (f.armed.Some? && !Retries(f.armed.value) ==> phase.Through? && f.armed.value.gen == at.gen)
    && (f.armed.Some? && f.armed.value.AuthWatchdog? ==> f.armed.value.due == b.now + 15_000)
    && (!NoCommandOf(f.bridge.auths, at.gen) ==> phase.Through?)
    && CallFits(f.bridge.completed, f.bridge.pending, at.call, phase)
    && (phase.Polling? ==> f.bridge.controller.Some? == at.held)
    && (phase.Dialling? ==> f.bridge.controller.Some?)
  }

  /** The call before the probe: pending, or completed with a success. */
  ghost predicate Underway(b: Bridge, at: Try) {
    && b.gen == at.gen && 1 <= at.gen && NoCommandOf(b.auths, at.gen)
    && (b.pending.None? || b.pending == Some(at.call))
    && (b.pending.None? ==> exists port :: Completion(at.call, Ready(port)) in b.completed)
  }

  lemma ConnectedAdvances(b: Bridge, at: Try, m: nat, k: nat, p: Probe, n: nat, phase: Phase)
    requires Underway(b, at) && b.controller.Some? && m < n && k == n - 1 - m && b.now == at.start + (n - 1) * 250
    requires phase == (if Connectable(p) then Through else if k < 8 then Dialling(m) else Exhausted(ConnectFailed))
    ensures Advances(b, Connected(b, b.gen, k, p), at, n, phase)
  {
    ConnectedThrough(b, k, p);
    if !Connectable(p) && k < 8 {
      UnderwayFits(b, at, phase);
    } else if !Connectable(p) {
      SettledIfExhausted(b, Some(ConnectFailed), at, phase);
    } else if !b.authed {
      CookieAdvances(b, at, p, n, phase);
    } else {
      UnderwayFits(b, at, phase);
    }
  }

  lemma UnderwayFits(b: Bridge, at: Try, phase: Phase)
    requires Underway(b, at) && !phase.Exhausted?
    ensures CallFits(b.completed, b.pending, at.call, phase)
  {
    if b.pending.None? {
      var port :| Completion(at.call, Ready(port)) in b.completed;
      assert Fits(Ready(port), phase);
    }
  }

  lemma SettledIfExhausted(b: Bridge, f: Option<Failure>, at: Try, phase: Phase)
    requires Underway(b, at) && (f.Some? ==> Fits(Failed(f.value), phase))
    ensures var d := Settle(b, f, b.gen); CallFits(d.completed, d.pending, at.call, phase) && d.auths == b.auths && d.controller == b.controller
  {
    if b.pending.None? {
      var port :| Completion(at.call, Ready(port)) in b.completed;
      assert Fits(Ready(port), phase);
    }
    SettledFits(b, f, b.gen, at.call, phase);
  }

  lemma CookieAdvances(b: Bridge, at: Try, p: Probe, n: nat, phase: Phase)
    requires Underway(b, at) && b.controller.Some? && phase.Through?
    ensures Advances(b, Authenticate(b, b.gen, p.cookie), at, n, phase)
  {
    match p.cookie {
      case NoCookie => SettledIfExhausted(b, Some(CookieMissing), at, phase);
      case WrongLength => SettledIfExhausted(b, Some(CookieLength), at, phase);
      case FullCookie => UnderwayFits(b, at, phase);
    }
  }

  /** The first dial, made by the probe that finds the file. */
  lemma FirstDialAdvances(b: Bridge, at: Try, p: Probe, ps: seq<Probe>)
    requires Underway(b, at) && b.controller.Some? == at.held && b.now == at.start + |ps| * 250
    requires PhaseOf(ps, at.held).Polling? && p.portFileFilled
    ensures Advances(b, Connect(b, b.gen, 0, p), at, |ps| + 1, PhaseOf(ps + [p], at.held))
  {
    PhaseMore(ps, p, at.held);
    if !at.held && !p.portFileParses {
      SettledIfExhausted(b, Some(PortFileUnreadable), at, PhaseOf(ps + [p], at.held));
    } else {
      ConnectedAdvances(EnsureController(b), at, |ps|, 0, p, |ps| + 1, PhaseOf(ps + [p], at.held));
    }
  }

  lemma PollAdvances(b: Bridge, at: Try, p: Probe, ps: seq<Probe>)
    requires Underway(b, at) && b.controller.Some? == at.held && b.now == at.start + |ps| * 250
    requires PhaseOf(ps, at.held).Polling?
    ensures Advances(b, Poll(b, b.gen, |ps|, p), at, |ps| + 1, PhaseOf(ps + [p], at.held))
  {
    PhaseMore(ps, p, at.held);
    if p.portFileFilled {
      FirstDialAdvances(b, at, p, ps);
    } else if |ps| < 61 {
      UnderwayFits(b, at, PhaseOf(ps + [p], at.held));
    } else {
      SettledIfExhausted(b, Some(PortFileMissing), at, PhaseOf(ps + [p], at.held));
    }
  }

  lemma DialAdvances(b: Bridge, at: Try, p: Probe, ps: seq<Probe>, m: nat)
    requires Underway(b, at) && b.controller.Some? && b.now == at.start + |ps| * 250
    requires PhaseOf(ps, at.held) == Dialling(m) && m <= |ps|
    ensures Advances(b, Connect(b, b.gen, |ps| - m, p), at, |ps| + 1, PhaseOf(ps + [p], at.held))
  {
    PhaseMore(ps, p, at.held);
    ConnectedAdvances(b, at, m, |ps| - m, p, |ps| + 1, PhaseOf(ps + [p], at.held));
  }

  /** While the chain is going the call is pending, or was answered by a circuit. */
  lemma ChainUnderway(w: World, at: Try, n: nat, phase: Phase)
    requires InPhase(w, at, n, phase) && NextBlock(at, n, phase).Some?
    ensures Underway(w.bridge, at)
  {
    var b := w.bridge;
    if b.pending.None? {
      var o :| Completion(at.call, o) in b.completed && Fits(o, phase);
      assert o.Ready?;
    }
  }

  lemma RetryAdvances(w: World, at: Try, ps: seq<Probe>, t: Timer, p: Probe)
    requires History(w, at, ps) && NextBlock(at, |ps|, PhaseOf(ps, at.held)) == Some(t) && w.bridge.now == t.due
    ensures Advances(w.bridge, Fire(w.bridge, t, p), at, |ps| + 1, PhaseOf(ps + [p], at.held))
  {
    ChainUnderway(w, at, |ps|, PhaseOf(ps, at.held));
    match PhaseOf(ps, at.held) {
      case Polling => PollAdvances(w.bridge, at, p, ps);
      case Dialling(m) => DialAdvances(w.bridge, at, p, ps, m);
      case _ =>
    }
  }

  /** The one retry block of the attempt is replaced by what it armed. */
  lemma BlocksAdvance(timers: multiset<Timer>, t: Timer, b: Bridge, f: Effect, at: Try, n: nat, phase: Phase, next: Phase)
    requires BlocksFit(timers, at, n, phase) && NextBlock(at, n, phase) == Some(t)
    requires Advances(b, f, at, n + 1, next) && b.now == at.start + n * 250 && 1 <= at.gen
    ensures BlocksFit(timers - multiset{t} + Armed(f.armed), at, n + 1, next)
  {
    assert forall u :: u in timers - multiset{t} ==> u in timers;
    assert forall u :: u in timers && u.gen == at.gen ==> u == t;
  }

  lemma RetryKeepsPhase(w: World, t: Timer, f: Effect, at: Try, n: nat, phase: Phase, next: Phase)
    requires InPhase(w, at, n, phase) && NextBlock(at, n, phase) == Some(t) && w.bridge.now == at.start + n * 250
    requires SameAttempt(w.bridge, f.bridge) && Advances(w.bridge, f, at, n + 1, next)
    ensures InPhase(World(f.bridge, w.timers - multiset{t} + Armed(f.armed)), at, n + 1, next)
  {
    BlocksAdvance(w.timers, t, w.bridge, f, at, n, phase, next);
  }

  lemma RetryKeepsHistory(w: World, at: Try, ps: seq<Probe>, t: Timer, p: Probe)
    requires History(w, at, ps) && NextBlock(at, |ps|, PhaseOf(ps, at.held)) == Some(t)
    requires w.bridge.now == t.due
    ensures InPhase(Step(w, TimerFired(t, p)), at, |ps| + 1, PhaseOf(ps + [p], at.held))
  {
    var phase, next := PhaseOf(ps, at.held), PhaseOf(ps + [p], at.held);
    RetryAdvances(w, at, ps, t, p);
    RetryStep(w, t, p, at, |ps|, phase, next);
  }

  lemma RetryStep(w: World, t: Timer, p: Probe, at: Try, n: nat, phase: Phase, next: Phase)
    requires InPhase(w, at, n, phase) && NextBlock(at, n, phase) == Some(t) && w.bridge.now == t.due
    requires Advances(w.bridge, Fire(w.bridge, t, p), at, n + 1, next)
    ensures InPhase(Step(w, TimerFired(t, p)), at, n + 1, next)
  {
    var f := Fire(w.bridge, t, p);
    RetryKeepsPhase(w, t, f, at, n, phase, next);
  }

  // ---------------------------------------------------------------- everything else leaves the chain alone

  lemma StaleBlockKeepsHistory(w: World, at: Try, n: nat, phase: Phase, t: Timer, p: Probe)
    requires InPhase(w, at, n, phase) && t in w.timers && 1 <= t.gen != at.gen
    ensures InPhase(Step(w, TimerFired(t, p)), at, n, phase)
  {
    assert Fire(w.bridge, t, p) == Effect(w.bridge, None);
  }

  lemma WatchdogKeepsHistory(w: World, at: Try, n: nat, phase: Phase, t: Timer, p: Probe)
    requires InPhase(w, at, n, phase) && t in w.timers && t.gen == at.gen && !Retries(t) && RunningSettled(w.bridge)
    ensures InPhase(Step(w, TimerFired(t, p)), at, n, phase)
  {
    SettledFits(w.bridge, Some(AuthSilent), t.gen, at.call, phase);
    SettledFits(w.bridge, Some(NoCircuit), t.gen, at.call, phase);
  }

  /** What a reply does, as far as a phase can tell. */
  ghost predicate Replies(b: Bridge, f: Effect, a: Auth) {
    && f.bridge.gen == b.gen && f.bridge.startedAt == b.startedAt && f.bridge.controller == b.controller
    && f.bridge.auths == b.auths - multiset{a}
    && (f.armed.Some? ==> f.armed.value.CircuitWatchdog? && f.armed.value.gen == a.gen)
  }

  lemma AuthReplyReplies(b: Bridge, a: Auth, ok: bool)
    requires 1 <= a.gen
    ensures Replies(b, AuthReply(b, a, ok), a)
  {
  }

  lemma ReplyKeepsPhase(w: World, a: Auth, f: Effect, at: Try, n: nat, phase: Phase)
    requires InPhase(w, at, n, phase) && a in w.bridge.auths && Replies(w.bridge, f, a)
    requires CallFits(f.bridge.completed, f.bridge.pending, at.call, phase)
    ensures InPhase(World(f.bridge, w.timers + Armed(f.armed)), at, n, phase)
  {
    FewerCommands(w.bridge.auths, a, at, phase);
    WatchdogFits(w.timers, f.armed, at, n, phase);
  }

  lemma AnswerKeepsHistory(w: World, at: Try, n: nat, phase: Phase, a: Auth, ok: bool)
    requires InPhase(w, at, n, phase) && a in w.bridge.auths && 1 <= a.gen
    ensures InPhase(Step(w, AuthAnswered(a, ok)), at, n, phase)
  {
    FewerCommands(w.bridge.auths, a, at, phase);
    AuthReplyReplies(w.bridge, a, ok);
    AnswerFits(w.bridge, a, ok, at, phase);
    ReplyKeepsPhase(w, a, AuthReply(w.bridge, a, ok), at, n, phase);
  }

  lemma FewerCommands(auths: multiset<Auth>, a: Auth, at: Try, phase: Phase)
    requires CommandsFit(auths, at, phase) && a in auths
    ensures CommandsFit(auths - multiset{a}, at, phase) && (a.gen == at.gen ==> phase.Through?)
  {
  }

  lemma AnswerFits(b: Bridge, a: Auth, ok: bool, at: Try, phase: Phase)
    requires CallFits(b.completed, b.pending, at.call, phase) && b.gen == at.gen && 1 <= a.gen
    requires a.gen == at.gen ==> phase.Through?
    ensures var d := AuthReply(b, a, ok).bridge; CallFits(d.completed, d.pending, at.call, phase) && d.startedAt == b.startedAt
  {
    if !ok && a.gen == at.gen {
      SettledFits(Replied(b, a), Some(AuthRejected), a.gen, at.call, phase);
    }
  }

  lemma WatchdogFits(timers: multiset<Timer>, armed: Option<Timer>, at: Try, n: nat, phase: Phase)
    requires BlocksFit(timers, at, n, phase)
    requires armed.Some? ==> armed.value.CircuitWatchdog? && (armed.value.gen == at.gen ==> phase.Through?)
    ensures BlocksFit(timers + Armed(armed), at, n, phase)
  {
  }

  lemma CircuitKeepsHistory(w: World, at: Try, n: nat, phase: Phase, conn: nat, up: bool)
    requires InPhase(w, at, n, phase)
    ensures InPhase(Step(w, CircuitReported(conn, up)), at, n, phase)
  {
    var b := w.bridge.(running := true);
    if up && b.pending.Some? {
      assert Completion(at.call, Ready(b.port)) in Settle(b, None, 0).completed;
      assert Fits(Ready(b.port), phase);
    }
    SettleKeepsConnection(b, None, 0);
  }

  /** A start call that begins no attempt. */
  lemma RefusedStartKeepsHistory(w: World, at: Try, n: nat, phase: Phase, port: int, p: Probe)
    requires InPhase(w, at, n, phase) && (w.bridge.running || w.bridge.pending.Some?)
    ensures InPhase(Step(w, StartCalled(port, p)), at, n, phase)
  {
    var b, d := w.bridge, Start(w.bridge, port, p).bridge;
    assert b.completed <= d.completed;
    CallStillFits(b.completed, d.completed, b.pending, at.call, phase);
  }

  lemma NewAttempt(b: Bridge, e: Event)
    ensures e.StopCalled? || (e.StartCalled? && !b.running && b.pending.None?) ==> Act(b, e).bridge.gen == b.gen + 1
  {
    if e.StartCalled? && !b.running && b.pending.None? {
      assert SameAttempt(Begun(b, e.port), Poll(Begun(b, e.port), b.gen + 1, 0, e.probe).bridge);
      assert SameAttempt(Launched(Begun(b, e.port)), Poll(Launched(Begun(b, e.port)), b.gen + 1, 0, e.probe).bridge);
    }
  }

  lemma OthersKeepHistory(w: World, at: Try, n: nat, phase: Phase, e: Event)
    requires WorldInv(w) && InPhase(w, at, n, phase) && Enabled(w, e) && ProbeMade(at.gen, e) == []
    requires Act(w.bridge, e).bridge.gen == at.gen
    ensures InPhase(Step(w, e), at, n, phase)
  {
    NewAttempt(w.bridge, e);
    match e {
      case StartCalled(port, p) => RefusedStartKeepsHistory(w, at, n, phase, port, p);
      case TimerFired(t, p) =>
        if t.gen == at.gen {
          WatchdogKeepsHistory(w, at, n, phase, t, p);
        } else {
          StaleBlockKeepsHistory(w, at, n, phase, t, p);
        }
      case AuthAnswered(a, ok) => AnswerKeepsHistory(w, at, n, phase, a, ok);
      case CircuitReported(c, up) => CircuitKeepsHistory(w, at, n, phase, c, up);
      case TimePassed(_) =>
    }
  }

  lemma DueIsNext(w: World, at: Try, n: nat, phase: Phase, t: Timer)
    requires BlocksFit(w.timers, at, n, phase) && t in w.timers && t.gen == at.gen && Retries(t)
    requires OnTime(w) && t.due <= w.bridge.now
    ensures NextBlock(at, n, phase) == Some(t) && w.bridge.now == t.due
  {
  }

  lemma ProbeKeepsHistory(w: World, at: Try, ps: seq<Probe>, t: Timer, p: Probe)
    requires OnTime(w) && History(w, at, ps) && t in w.timers && t.gen == at.gen && Retries(t) && t.due <= w.bridge.now
    ensures History(Step(w, TimerFired(t, p)), at, ps + [p])
  {
    DueIsNext(w, at, |ps|, PhaseOf(ps, at.held), t);
    RetryKeepsHistory(w, at, ps, t, p);
    assert |ps + [p]| == |ps| + 1;
  }

  lemma StepKeepsHistory(w: World, at: Try, ps: seq<Probe>, e: Event)
    requires WorldInv(w) && OnTime(w) && History(w, at, ps) && Punctual(w, e) && Act(w.bridge, e).bridge.gen == at.gen
    ensures History(Step(w, e), at, ps + ProbeMade(at.gen, e))
  {
    if ProbeMade(at.gen, e) == [] {
      OthersKeepHistory(w, at, |ps|, PhaseOf(ps, at.held), e);
      assert ps + [] == ps;
    } else {
      ProbeKeepsHistory(w, at, ps, e.timer, e.fired);
    }
  }

  /** Generations never go back, so an attempt that is current at the end was current all along. */
  lemma {:induction false} RunMonotone(w: World, es: seq<Event>)
    ensures w.bridge.gen <= Run(w, es).bridge.gen
    decreases es
  {
    if es != [] {
      ActMonotone(w.bridge, es[0]);
      RunMonotone(Step(w, es[0]), es[1..]);
    }
  }

  lemma ProbesFirst(ps: seq<Probe>, g: nat, es: seq<Event>)
    ensures es == [] ==> ps + Probes(g, es) == ps
    ensures es != [] ==> ps + ProbeMade(g, es[0]) + Probes(g, es[1..]) == ps + Probes(g, es)
  {
  }

  lemma {:induction false} RunKeepsHistory(w: World, at: Try, ps: seq<Probe>, es: seq<Event>)
    requires Reached(w) && History(w, at, ps) && PunctualRun(w, es) && Run(w, es).bridge.gen == at.gen
    ensures History(Run(w, es), at, ps + Probes(at.gen, es))
    decreases es
  {
    ProbesFirst(ps, at.gen, es);
    if es != [] {
      var e := es[0];
      ActMonotone(w.bridge, e);
      RunMonotone(Step(w, e), es[1..]);
      StepKeepsHistory(w, at, ps, e);
      ReachedStep(w, e);
      RunKeepsHistory(Step(w, e), at, ps + ProbeMade(at.gen, e), es[1..]);
    }
  }

  // ---------------------------------------------------------------- main theorems

  /** The event is a start call that begins an attempt and gets as far as its first probe. */
  predicate BeginsProbing(b: Bridge, e: Event) {
    e.StartCalled? && !b.running && b.pending.None? && (b.hasThread || e.probe.dirCreated)
  }

  function TryOf(b: Bridge): Try {
    Try(b.gen + 1, b.now, b.calls, b.controller.Some?)
  }

  lemma FirstProbe(w: World, e: Event)
    requires WorldInv(w) && BeginsProbing(w.bridge, e)
    ensures History(Step(w, e), TryOf(w.bridge), [e.probe])
  {
    var b, at := w.bridge, TryOf(w.bridge);
    var b1 := if b.hasThread then Begun(b, e.port) else Launched(Begun(b, e.port));
    var f := Start(b, e.port, e.probe);
    assert f == Poll(b1, b1.gen, 0, e.probe);
    assert Found([]) == 0;
    PollAdvances(b1, at, e.probe, []);
    assert [] + [e.probe] == [e.probe];
    assert SameAttempt(b1, f.bridge);
    FirstBlocks(w.timers, b1, f, at, PhaseOf([e.probe], at.held));
  }

  lemma FirstBlocks(timers: multiset<Timer>, b: Bridge, f: Effect, at: Try, phase: Phase)
    requires (forall t :: t in timers ==> t.gen < at.gen) && b.now == at.start && Advances(b, f, at, 1, phase)
    ensures BlocksFit(timers + Armed(f.armed), at, 1, phase)
  {
  }

  /**
   However long an attempt goes on, in any punctual run: its phase is that of the
   probes it has made; the n-th is made n times 250 ms after the start, as long as
   the phase calls for one; and its call fails for a missing or unreadable port
   file, or for want of a connection, exactly in those phases.
   */
  lemma RetriesExactly(before: seq<Event>, w: World, e: Event, es: seq<Event>)
    requires PunctualRun(INITIAL, before) && w == Run(INITIAL, before) && BeginsProbing(w.bridge, e)
    requires PunctualRun(Step(w, e), es) && Run(Step(w, e), es).bridge.gen == w.bridge.gen + 1
    ensures History(Run(Step(w, e), es), TryOf(w.bridge), [e.probe] + Probes(w.bridge.gen + 1, es))
  {
    IsReached(before, w);
    FirstProbe(w, e);
    ReachedStep(w, e);
    RunKeepsHistory(Step(w, e), TryOf(w.bridge), [e.probe], es);
  }

  /** The probes of a chain that has just run out, and when it did. */
  ghost predicate RanOut(f: Failure, ps: seq<Probe>, at: Try, now: nat) {
    match f
    case PortFileMissing => |ps| == 62 && now == at.start + 15_250 && forall i :: 0 <= i < 62 ==> !ps[i].portFileFilled
    case ConnectFailed =>
      exists m: nat :: m < 62 && |ps| == m + 9 && now == at.start + m * 250 + 2_000
                       && ps[m].portFileFilled && (forall i :: 0 <= i < m ==> !ps[i].portFileFilled)
                       && (forall i :: m <= i < |ps| ==> !ps[i].isConnected && !ps[i].connectSucceeds)
    case _ => true
  }

  /**
   A call fails for a missing port file only 15,250 ms after its start, with none
   of its 62 probes having found one; and for want of a connection only after nine
   connects that failed, 250 ms apart, from the probe that found the file on.
   */
  lemma ChainRunsOut(before: seq<Event>, w: World, e: Event, es: seq<Event>, v: World, last: Event, f: Failure)
    requires PunctualRun(INITIAL, before) && w == Run(INITIAL, before) && BeginsProbing(w.bridge, e)
    requires PunctualRun(Step(w, e), es) && v == Run(Step(w, e), es) && v.bridge.pending == Some(w.bridge.calls)
    requires Punctual(v, last) && Completed(Act(v.bridge, last).bridge, w.bridge.calls, Failed(f))
    requires f == PortFileMissing || f == ConnectFailed
    ensures var g := w.bridge.gen + 1;
            RanOut(f, [e.probe] + Probes(g, es) + ProbeMade(g, last), TryOf(w.bridge), v.bridge.now)
  {
    PendingHistory(before, w, e, es, v);
    LastProbe(v, TryOf(w.bridge), [e.probe] + Probes(w.bridge.gen + 1, es), last, f);
  }

  lemma PendingHistory(before: seq<Event>, w: World, e: Event, es: seq<Event>, v: World)
    requires PunctualRun(INITIAL, before) && w == Run(INITIAL, before) && BeginsProbing(w.bridge, e)
    requires PunctualRun(Step(w, e), es) && v == Run(Step(w, e), es) && v.bridge.pending == Some(w.bridge.calls)
    ensures Reached(v) && History(v, TryOf(w.bridge), [e.probe] + Probes(w.bridge.gen + 1, es))
  {
    IsReached(before, w);
    ReachedStep(w, e);
    ReachedRun(Step(w, e), es);
    PendingIsCurrent(w, e, es);
    RetriesExactly(before, w, e, es);
  }

  lemma LastProbe(v: World, at: Try, ps: seq<Probe>, last: Event, f: Failure)
    requires Reached(v) && History(v, at, ps) && Punctual(v, last) && v.bridge.pending == Some(at.call)
    requires Completed(Act(v.bridge, last).bridge, at.call, Failed(f)) && (f == PortFileMissing || f == ConnectFailed)
    ensures RanOut(f, ps + ProbeMade(at.gen, last), at, v.bridge.now)
  {
    var qs := ps + ProbeMade(at.gen, last);
    NotStopped(v, at, last, f);
    StepKeepsHistory(v, at, ps, last);
    ReachedStep(v, last);
    OutcomeFits(Step(v, last), at, |qs|, PhaseOf(qs, at.held), f);
    ProbeWasDue(v, at, ps, last, f);
  }

  /** The event that exhausts a chain is the probe that was next. */
  lemma ProbeWasDue(v: World, at: Try, ps: seq<Probe>, last: Event, f: Failure)
    requires History(v, at, ps) && OnTime(v) && Punctual(v, last) && v.bridge.pending == Some(at.call)
    requires PhaseOf(ps + ProbeMade(at.gen, last), at.held) == Exhausted(f) && (f == PortFileMissing || f == ConnectFailed)
    ensures RanOut(f, ps + ProbeMade(at.gen, last), at, v.bridge.now)
  {
    assert ps + [] == ps;
    if ProbeMade(at.gen, last) != [] {
      ExhaustedBy(at, ps, last.fired, f);
    }
  }

  lemma OutcomeFits(w: World, at: Try, n: nat, phase: Phase, f: Failure)
    requires WorldInv(w) && InPhase(w, at, n, phase) && Completed(w.bridge, at.call, Failed(f))
    requires f == PortFileMissing || f == ConnectFailed
    ensures phase == Exhausted(f)
  {
    var b := w.bridge;
    if b.pending == Some(at.call) {
      NotYetCompleted(b, at.call, Failed(f));
    }
    var o :| Completion(at.call, o) in w.bridge.completed && Fits(o, phase);
    CompletedOnce(w.bridge, at.call, o, Failed(f));
  }

  /** stop() and a new start do not fail a call this way. */
  lemma NotStopped(v: World, at: Try, last: Event, f: Failure)
    requires WorldInv(v) && v.bridge.gen == at.gen && v.bridge.pending == Some(at.call)
    requires Completed(Act(v.bridge, last).bridge, at.call, Failed(f)) && f != Stopped
    ensures Act(v.bridge, last).bridge.gen == at.gen
  {
    var b := v.bridge;
    NotYetCompleted(b, at.call, Failed(f));
    match last {
      case StartCalled(_, _) =>
      case StopCalled => StopCompletes(b, at.call, Failed(f));
      case TimerFired(t, p) => assert SameAttempt(b, Fire(b, t, p).bridge);
      case _ =>
    }
  }

  lemma StopCompletes(b: Bridge, c: nat, o: Outcome)
    ensures Completion(c, o) in Stop(b).completed ==> Completion(c, o) in b.completed || o == Failed(Stopped)
  {
  }

  lemma NotYetCompleted(b: Bridge, c: nat, o: Outcome)
    requires Conserved(b.completed, b.calls, b.pending) && b.pending == Some(c)
    ensures Completion(c, o) !in b.completed
  {
    forall i | 0 <= i < |b.completed|
      ensures b.completed[i].call != c
    {
      assert Calls(b.completed)[i] in Calls(b.completed);
    }
  }

  lemma ExhaustedBy(at: Try, ps: seq<Probe>, p: Probe, f: Failure)
    requires NextBlock(at, |ps|, PhaseOf(ps, at.held)).Some? && PhaseOf(ps + [p], at.held) == Exhausted(f) && (f == PortFileMissing || f == ConnectFailed)
    ensures RanOut(f, ps + [p], at, at.start + |ps| * 250)
  {
    var qs := ps + [p];
    PhaseMore(ps, p, at.held);
    if f == ConnectFailed {
      var m := Found(qs);
      assert m < 62 && |qs| == m + 9;
      assert forall i :: m <= i < |qs| ==> !Connectable(qs[i]);
    }
  }

  /** While call c is pending its attempt is current. */
  ghost predicate CurrentWhilePending(b: Bridge, c: nat, g: nat) {
    c < b.calls && (b.pending == Some(c) ==> b.gen == g)
  }

  lemma StepKeepsCurrent(b: Bridge, e: Event, c: nat, g: nat)
    requires CurrentWhilePending(b, c, g)
    ensures CurrentWhilePending(Act(b, e).bridge, c, g)
  {
    ActCounts(b, e);
    match e {
      case StartCalled(port, p) => StartIsANewCall(b, port, p);
      case StopCalled =>
      case TimerFired(t, p) => assert SameAttempt(b, Fire(b, t, p).bridge);
      case _ =>
    }
  }

  lemma {:induction false} RunKeepsCurrent(w: World, es: seq<Event>, c: nat, g: nat)
    requires CurrentWhilePending(w.bridge, c, g)
    ensures CurrentWhilePending(Run(w, es).bridge, c, g)
    decreases es
  {
    if es != [] {
      StepKeepsCurrent(w.bridge, es[0], c, g);
      RunKeepsCurrent(Step(w, es[0]), es[1..], c, g);
    }
  }

  lemma PendingIsCurrent(w: World, e: Event, es: seq<Event>)
    requires BeginsProbing(w.bridge, e) && Run(Step(w, e), es).bridge.pending == Some(w.bridge.calls)
    ensures Run(Step(w, e), es).bridge.gen == w.bridge.gen + 1
  {
    NewAttempt(w.bridge, e);
    ActCounts(w.bridge, e);
    RunKeepsCurrent(Step(w, e), es, w.bridge.calls, w.bridge.gen + 1);
  }
}
