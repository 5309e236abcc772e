/** How tight the settlement bound is: shorter without an authenticated connection, and attained with one. */
module BridgeBounds {
  import opened Wrappers
  import opened BridgeModel
  import opened BridgeSafety
  import opened BridgeTiming
  import opened BridgeCommands
  import opened BridgeWaits

  // ---------------------------------------------------------------- before the connection is authenticated

  /** The longest an attempt can take before its connection is authenticated. */
  const UNAUTHED_MS: nat := CONNECTING_MS + AUTH_MS

  /** A pending attempt has a circuit watchdog only on an authenticated connection. */
  ghost predicate CircuitMeansAuthed(w: World) {
    forall t :: t in w.timers && t.CircuitWatchdog? && t.gen == w.bridge.gen && w.bridge.pending.Some? ==> w.bridge.authed
  }

  lemma StepKeepsCircuitMeansAuthed(w: World, e: Event)
    requires WorldInv(w) && CircuitMeansAuthed(w) && Enabled(w, e)
    ensures CircuitMeansAuthed(Step(w, e))
  {
    ArmsExactly(w.bridge, e);
    if Reattaches(w.bridge, e) {
      ReattachingWaits(w.bridge, e);
    }
    match e {
      case StartCalled(port, p) => StartKeepsAuthed(w.bridge, port, p);
      case StopCalled =>
      case TimerFired(t, p) => FireKeepsAuthed(w.bridge, t, p);
      case AuthAnswered(a, ok) => AnswerAndStop(w.bridge, a, ok); ReplyAndAttempt(w.bridge, a, ok);
      case CircuitReported(_, _) =>
      case TimePassed(_) =>
    }
  }

  lemma StartKeepsAuthed(b: Bridge, port: int, p: Probe)
    ensures var f := Start(b, port, p);
            && f.bridge.authed == b.authed
            && (f.bridge.pending.Some? ==> f.bridge.gen == b.gen + 1 || (f.bridge.gen == b.gen && b.pending.Some?))
  {
    StartStage(b, port, p);
    StartArms(b, port, p);
  }

  lemma FireKeepsAuthed(b: Bridge, t: Timer, p: Probe)
    ensures var f := Fire(b, t, p);
            f.bridge.authed == b.authed && f.bridge.gen == b.gen && (f.bridge.pending.Some? ==> b.pending.Some?)
  {
    match t {
      case PollTimer(g, k, _) => PollStage(b, k, p);
      case ConnectTimer(g, k, _) => ConnectThrough(b, k, p);
      case _ =>
    }
  }

  lemma {:induction false} RunKeepsCircuitMeansAuthed(w: World, es: seq<Event>)
    requires WorldInv(w) && OnTime(w) && CircuitMeansAuthed(w) && PunctualRun(w, es)
    ensures OnTime(Run(w, es)) && CircuitMeansAuthed(Run(w, es))
    decreases es
  {
    if es != [] {
      StepKeepsInv(w, es[0]);
      StepOnTime(w, es[0]);
      StepKeepsCircuitMeansAuthed(w, es[0]);
      RunKeepsCircuitMeansAuthed(Step(w, es[0]), es[1..]);
    }
  }

  /** While its connection is not authenticated, an attempt is at most 32,250 ms old. */
  lemma UnauthedSettlesInTime(es: seq<Event>)
    requires PunctualRun(INITIAL, es)
    ensures UNAUTHED_MS == 32_250
    ensures var b := Run(INITIAL, es).bridge;
            b.pending.Some? && !b.authed ==> b.now <= b.startedAt + UNAUTHED_MS
  {
    InitialInv();
    RunKeepsCircuitMeansAuthed(INITIAL, es);
    var w := Run(INITIAL, es);
    if w.bridge.pending.Some? && !w.bridge.authed {
      var t :| t in w.timers && Guards(w.bridge, t);
      assert !t.CircuitWatchdog?;
    }
  }

  // ---------------------------------------------------------------- the bound is attained

  /** Nothing of the attempt in flight is outstanding but t. */
  ghost predicate Only(w: World, t: Timer) {
    t in w.timers && t.gen == w.bridge.gen && forall u :: u in w.timers && u.gen == t.gen ==> u == t
  }

  /** An attempt that began at `start` and waits for t; `authed` tells whether its connection is authenticated. */
  ghost predicate Biding(w: World, start: nat, t: Timer, authed: bool) {
    Reached(w) && Only(w, t) && w.bridge.pending.Some? && w.bridge.startedAt == start && w.bridge.authed == authed
  }

  lemma BideStale(w: World, start: nat, t: Timer, authed: bool, u: Timer)
    requires Biding(w, start, t, authed) && u in w.timers && u.due <= w.bridge.now < t.due
    ensures var e := TimerFired(u, ANSWERING);
            Punctual(w, e) && Step(w, e) == World(w.bridge, w.timers - multiset{u}) && Biding(Step(w, e), start, t, authed)
    ensures |w.timers - multiset{u}| < |w.timers|
  {
    assert Fire(w.bridge, u, ANSWERING) == Effect(w.bridge, None);
    ReachedStep(w, TimerFired(u, ANSWERING));
  }

  lemma BideTick(w: World, start: nat, t: Timer, authed: bool)
    requires Biding(w, start, t, authed) && forall u :: u in w.timers ==> w.bridge.now < u.due
    ensures var e := TimePassed(1);
            Punctual(w, e) && Biding(Step(w, e), start, t, authed) && Step(w, e).bridge.now == w.bridge.now + 1
  {
    assert Punctual(w, TimePassed(1));
    ReachedStep(w, TimePassed(1));
  }

  /** Time passes, older blocks run, and nothing else happens until t is due. */
  lemma {:induction false} Await(w: World, start: nat, t: Timer, authed: bool) returns (es: seq<Event>)
    requires Biding(w, start, t, authed)
    ensures PunctualRun(w, es) && Biding(Run(w, es), start, t, authed) && Run(w, es).bridge.now == t.due
    decreases t.due - w.bridge.now, |w.timers|
  {
    if w.bridge.now == t.due {
      return [];
    }
    var e: Event;
    if u :| u in w.timers && u.due <= w.bridge.now {
      e := TimerFired(u, ANSWERING);
      BideStale(w, start, t, authed, u);
    } else {
      e := TimePassed(1);
      BideTick(w, start, t, authed);
    }
    var rest := Await(Step(w, e), start, t, authed);
    PunctualFirst(w, e, rest);
    es := [e] + rest;
  }

  /** The block arms u and leaves everything but the connection alone. */
  ghost predicate PassesOn(b: Bridge, f: Effect, u: Timer) {
    f.armed == Some(u) && u.gen == b.gen && f.bridge.pending == b.pending && f.bridge.authed == b.authed
  }

  /** A lone retry block, run when due, hands over to the block it arms. */
  lemma Hop(w: World, start: nat, t: Timer, authed: bool, p: Probe, u: Timer)
    requires Biding(w, start, t, authed) && w.bridge.now == t.due && Retries(t) && PassesOn(w.bridge, Fire(w.bridge, t, p), u)
    ensures Punctual(w, TimerFired(t, p)) && Biding(Step(w, TimerFired(t, p)), start, u, authed)
    ensures Step(w, TimerFired(t, p)).bridge.now == t.due
  {
    ReachedStep(w, TimerFired(t, p));
    Handover(w.timers, t, w.bridge, Fire(w.bridge, t, p), u);
  }

  lemma Handover(timers: multiset<Timer>, t: Timer, b: Bridge, f: Effect, u: Timer)
    requires Alone(timers, b.auths, t.gen) && t in timers && Retries(t) && t.gen == b.gen
    requires PassesOn(b, f, u) && SameAttempt(b, f.bridge)
    ensures Only(World(f.bridge, timers - multiset{t} + Armed(f.armed)), u)
  {
    LastOfAttempt(timers, t, b.auths);
  }

  lemma {:induction false} PunctualConcat(w: World, es: seq<Event>, fs: seq<Event>)
    requires PunctualRun(w, es) && PunctualRun(Run(w, es), fs)
    ensures PunctualRun(w, es + fs) && Run(w, es + fs) == Run(Run(w, es), fs)
    decreases es
  {
    if es == [] {
      assert es + fs == fs;
    } else {
      var e, rest := es[0], es[1..];
      assert Run(w, es) == Run(Step(w, e), rest);
      PunctualConcat(Step(w, e), rest, fs);
      PunctualFirst(w, e, rest + fs);
      HeadFirst(es, fs);
    }
  }

  lemma HeadFirst(es: seq<Event>, fs: seq<Event>)
    requires es != []
    ensures es + fs == [es[0]] + (es[1..] + fs)
  {
  }

  const NO_FILE := Probe(true, false, true, false, false, NoCookie)
  const NO_LISTENER := Probe(true, true, true, false, false, NoCookie)

  function NthPoll(gen: nat, start: nat, k: nat): Timer {
    PollTimer(gen, k, start + k * POLL_MS)
  }

  function NthConnect(gen: nat, start: nat, k: nat): Timer {
    ConnectTimer(gen, k, start + POLLING_MS + k * POLL_MS)
  }

  /** The watchdog armed at the last moment. */
  function Last(gen: nat, start: nat, authed: bool): Timer {
    if authed then CircuitWatchdog(gen, start + SETTLE_MS) else AuthWatchdog(gen, start + UNAUTHED_MS)
  }

  /** What a lone retry block arms when its probe comes out as badly as it may, and well at the very last. */
  function Next(t: Timer, start: nat, authed: bool): Timer
    requires Retries(t)
  {
    match t
    case PollTimer(g, k, _) => if k <= MAX_POLLS then NthPoll(g, start, k + 1) else NthConnect(g, start, 1)
    case ConnectTimer(g, k, _) => if k < MAX_CONNECTS then NthConnect(g, start, k + 1) else Last(g, start, authed)
  }

  function Worst(t: Timer): Probe {
    match t
    case PollTimer(_, k, _) => if k <= MAX_POLLS then NO_FILE else NO_LISTENER
    case ConnectTimer(_, k, _) => if k < MAX_CONNECTS then NO_LISTENER else ANSWERING
    case _ => ANSWERING
  }

  /** t is the k-th retry of its stage, due as late as it can be. */
  predicate Latest(t: Timer, start: nat, authed: bool) {
    match t
    case PollTimer(g, k, _) => k <= MAX_POLLS + 1 && t == NthPoll(g, start, k)
    case ConnectTimer(g, k, _) => k <= MAX_CONNECTS && t == NthConnect(g, start, k)
    case _ => t == Last(t.gen, start, authed)
  }

  lemma WorstArms(b: Bridge, start: nat, t: Timer, authed: bool)
    requires Retries(t) && Latest(t, start, authed) && b.now == t.due && b.gen == t.gen && b.authed == authed
    ensures PassesOn(b, Fire(b, t, Worst(t)), Next(t, start, authed)) && Latest(Next(t, start, authed), start, authed)
  {
  }

  /** Waiting for a lone retry block and running it. */
  lemma AwaitAndHop(w: World, start: nat, t: Timer, authed: bool) returns (es: seq<Event>)
    requires Biding(w, start, t, authed) && Retries(t) && Latest(t, start, authed)
    ensures PunctualRun(w, es) && Biding(Run(w, es), start, Next(t, start, authed), authed)
  {
    var wait := Await(w, start, t, authed);
    var v := Run(w, wait);
    var e := TimerFired(t, Worst(t));
    WorstArms(v.bridge, start, t, authed);
    Hop(v, start, t, authed, Worst(t), Next(t, start, authed));
    OneMore(w, wait, e);
    es := wait + [e];
  }

  lemma OneMore(w: World, es: seq<Event>, e: Event)
    requires PunctualRun(w, es) && Punctual(Run(w, es), e)
    ensures PunctualRun(w, es + [e]) && Run(w, es + [e]) == Step(Run(w, es), e)
  {
    PunctualFirst(Run(w, es), e, []);
    assert [e] + [] == [e];
    PunctualConcat(w, es, [e]);
  }

  /** Sixty-one polls find no port file, eight connects fail, and nothing is answered: the attempt is pending to the end. */
  lemma {:induction false} WaitsToTheEnd(w: World, start: nat, t: Timer, authed: bool) returns (es: seq<Event>)
    requires Biding(w, start, t, authed) && Latest(t, start, authed)
    ensures PunctualRun(w, es) && Biding(Run(w, es), start, Last(t.gen, start, authed), authed)
    ensures Run(w, es).bridge.now == Last(t.gen, start, authed).due
    decreases Stage(t), RetriesLeft(t)
  {
    if !Retries(t) {
      es := Await(w, start, t, authed);
      return;
    }
    var hop := AwaitAndHop(w, start, t, authed);
    var next := Next(t, start, authed);
    assert Stage(next) < Stage(t) || (Stage(next) == Stage(t) && RetriesLeft(next) < RetriesLeft(t));
    var rest := WaitsToTheEnd(Run(w, hop), start, next, authed);
    PunctualConcat(w, hop, rest);
    es := hop + rest;
  }

  /** From any idle punctual state an attempt can be pending for all of 77,250 ms, or 32,250 ms unauthenticated. */
  lemma BoundIsAttainedFrom(w: World) returns (es: seq<Event>)
    requires Reached(w) && !w.bridge.running && w.bridge.pending.None?
    ensures PunctualRun(w, es)
    ensures var v := Run(w, es);
            && v.bridge.pending.Some? && v.bridge.authed == w.bridge.authed
            && v.bridge.now == v.bridge.startedAt + (if w.bridge.authed then SETTLE_MS else UNAUTHED_MS)
  {
    var e := StartCalled(1, NO_FILE);
    var v := Step(w, e);
    var t := NthPoll(w.bridge.gen + 1, w.bridge.now, 1);
    StartBides(w);
    var rest := WaitsToTheEnd(v, w.bridge.now, t, w.bridge.authed);
    PunctualFirst(w, e, rest);
    es := [e] + rest;
  }

  lemma StartBides(w: World)
    requires Reached(w) && !w.bridge.running && w.bridge.pending.None?
    ensures Biding(Step(w, StartCalled(1, NO_FILE)), w.bridge.now, NthPoll(w.bridge.gen + 1, w.bridge.now, 1), w.bridge.authed)
  {
    ReachedStep(w, StartCalled(1, NO_FILE));
    StartPolls(w.bridge);
  }

  lemma StartPolls(b: Bridge)
    requires !b.running && b.pending.None?
    ensures Start(b, 1, NO_FILE) == Effect(if b.hasThread then Begun(b, 1) else Launched(Begun(b, 1)),
                                           Some(PollTimer(b.gen + 1, 1, b.now + POLL_MS)))
  {
  }

  /** A fresh process reaches an idle authenticated state, so the bound of `AttemptSettlesInTime` is attained. */
  lemma BoundIsAttained() returns (es: seq<Event>)
    ensures PunctualRun(INITIAL, es) && Run(INITIAL, es).bridge.pending.Some?
    ensures Run(INITIAL, es).bridge.now == Run(INITIAL, es).bridge.startedAt + 77_250
  {
    AcceptedAttemptTimesOut();
    IsReached(ACCEPTED, Run(INITIAL, ACCEPTED));
    var rest := BoundIsAttainedFrom(Run(INITIAL, ACCEPTED));
    PunctualConcat(INITIAL, ACCEPTED, rest);
    es := ACCEPTED + rest;
  }

  /** ... and its first attempt can attain the bound of `UnauthedSettlesInTime`. */
  lemma UnauthedBoundIsAttained() returns (es: seq<Event>)
    ensures PunctualRun(INITIAL, es)
    ensures var b := Run(INITIAL, es).bridge; b.pending.Some? && !b.authed && b.now == b.startedAt + 32_250
  {
    IsReached([], INITIAL);
    es := BoundIsAttainedFrom(INITIAL);
  }
}
