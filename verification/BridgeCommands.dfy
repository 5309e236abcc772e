/** AUTHENTICATE commands: exactly when one connection is sent a second before the first is answered. */
module BridgeCommands {
  import opened Wrappers
  import opened BridgeModel
  import opened BridgeSafety
  import opened BridgeReports

  // ---------------------------------------------------------------- when AUTHENTICATE is sent

  /** The event brings an attempt to the connect stage. */
  predicate Dials(b: Bridge, e: Event) {
    match e
    case StartCalled(_, p) => !b.running && b.pending.None? && (b.hasThread || p.dirCreated) && p.portFileFilled
    case TimerFired(PollTimer(g, _, _), p) => g == b.gen && p.portFileFilled
    case TimerFired(ConnectTimer(g, _, _), _) => g == b.gen
    case _ => false
  }

  predicate Reaches(b: Bridge, p: Probe) {
    (b.controller.Some? || p.portFileParses) && (p.isConnected || p.connectSucceeds)
  }

  /** The event brings an attempt past the connect stage. */
  predicate Connects(b: Bridge, e: Event) {
    && Dials(b, e)
    && Reaches(b, if e.StartCalled? then e.probe else e.fired)
  }

  /** The connection has yet to authenticate and the cookie is there. */
  predicate Sends(b: Bridge, e: Event) {
    Connects(b, e) && !b.authed && (if e.StartCalled? then e.probe else e.fired).cookie == FullCookie
  }

  /** The re-attach fast path. */
  predicate Reattaches(b: Bridge, e: Event) {
    Connects(b, e) && b.authed
  }

  /** The connection after an AUTHENTICATE sent by a bridge like b. */
  function Held(b: Bridge): nat {
    if b.controller.Some? then b.controller.value else b.connections
  }

  /** What connecting does when it gets through. */
  ghost predicate ThroughConnect(b: Bridge, f: Effect, p: Probe) {
    && (Reaches(b, p) && b.authed ==> f.bridge.auths == b.auths && f.armed == Some(CircuitWatchdog(b.gen, b.now + CIRCUIT_MS)))
    && (Reaches(b, p) && !b.authed && p.cookie == FullCookie ==>
          && f.bridge.auths == b.auths + multiset{Auth(Held(b), b.gen)}
          && f.bridge.controller == Some(Held(b))
          && f.armed == Some(AuthWatchdog(b.gen, b.now + AUTH_MS)))
    && (!(Reaches(b, p) && (b.authed || p.cookie == FullCookie)) ==>
          f.bridge.auths == b.auths && (f.armed.Some? ==> f.armed.value.ConnectTimer?))
    && (f.armed.Some? ==> f.armed.value.gen == b.gen && f.bridge.pending == b.pending)
  }

  /** Connections only get newer, and nothing but stop() and a reply touches `authed`. */
  ghost predicate SameConnection(b: Bridge, c: Bridge) {
    && c.authed == b.authed
    && b.connections <= c.connections
    && (c.controller == b.controller || (b.controller.None? && c.controller == Some(b.connections) && b.connections < c.connections))
  }

  lemma ConnectedThrough(b: Bridge, k: nat, p: Probe)
    requires b.controller.Some?
    ensures var f := Connected(b, b.gen, k, p); ThroughConnect(b, f, p) && SameConnection(b, f.bridge)
  {
    if !p.isConnected && !p.connectSucceeds {
      SettleKeepsConnection(b, Some(ConnectFailed), b.gen);
    } else if !b.authed {
      AuthenticateThrough(b, p);
    }
  }

  /** Settling an attempt is no business of the connection. */
  lemma SettleKeepsConnection(b: Bridge, f: Option<Failure>, g: nat)
    ensures SameConnection(b, Settle(b, f, g)) && Settle(b, f, g).auths == b.auths
  {
  }

  lemma AuthenticateThrough(b: Bridge, p: Probe)
    requires b.controller.Some? && !b.authed && Reaches(b, p)
    ensures var f := Authenticate(b, b.gen, p.cookie); ThroughConnect(b, f, p) && SameConnection(b, f.bridge)
  {
    match p.cookie {
      case NoCookie => SettleKeepsConnection(b, Some(CookieMissing), b.gen);
      case WrongLength => SettleKeepsConnection(b, Some(CookieLength), b.gen);
      case FullCookie =>
    }
  }

  lemma ConnectThrough(b: Bridge, k: nat, p: Probe)
    ensures var f := Connect(b, b.gen, k, p); ThroughConnect(b, f, p) && SameConnection(b, f.bridge)
  {
    if b.controller.Some? || p.portFileParses {
      ConnectedThrough(EnsureController(b), k, p);
    }
  }

  /** What one start call or one block of the current attempt does about AUTHENTICATE. */
  ghost predicate Dialing(b: Bridge, f: Effect, dials: bool, p: Probe) {
    && SameConnection(b, f.bridge)
    && (dials ==> ThroughConnect(b, f, p))
    && (!dials ==> f.bridge.auths == b.auths && (f.armed.Some? ==>
          f.armed.value.PollTimer? && f.armed.value.gen == b.gen && f.bridge.pending == b.pending))
  }

  lemma PollStage(b: Bridge, k: nat, p: Probe)
    ensures Dialing(b, Poll(b, b.gen, k, p), p.portFileFilled, p)
  {
    ConnectThrough(b, 0, p);
  }

  /** The attempt a start call begins, with its thread. */
  function Attempt(b: Bridge, port: int): Bridge {
    if b.hasThread then Begun(b, port) else Launched(Begun(b, port))
  }

  lemma StartStage(b: Bridge, port: int, p: Probe)
    ensures var f, b1 := Start(b, port, p), Attempt(b, port);
            if !b.running && b.pending.None? && (b.hasThread || p.dirCreated) then
              Dialing(b1, f, p.portFileFilled, p) && f.bridge.gen == b.gen + 1
            else
              f.armed.None? && f.bridge.auths == b.auths && SameConnection(b, f.bridge)
  {
    PollStage(Attempt(b, port), 0, p);
  }

  /** The watchdog an event arms tells which way the connect stage went. */
  lemma ArmsExactly(b: Bridge, e: Event)
    ensures var f := Act(b, e);
            && (Sends(b, e) <==> f.armed.Some? && f.armed.value.AuthWatchdog?)
            && (Reattaches(b, e) <==> f.armed.Some? && f.armed.value.CircuitWatchdog? && !e.AuthAnswered?)
  {
    match e {
      case StartCalled(port, p) => StartStage(b, port, p);
      case TimerFired(PollTimer(g, k, _), p) => PollStage(b, k, p);
      case TimerFired(ConnectTimer(g, k, _), p) => ConnectThrough(b, k, p);
      case _ =>
    }
  }

  /** Sending puts one command, of the current attempt, on the connection now held. */
  lemma SendingSends(b: Bridge, e: Event)
    requires Sends(b, e)
    ensures var c := Act(b, e).bridge;
            && c.auths == b.auths + multiset{Auth(Held(b), c.gen)}
            && c.controller == Some(Held(b))
            && !c.authed
            && Act(b, e).armed == Some(AuthWatchdog(c.gen, b.now + AUTH_MS))
            && SameConnection(b, c)
  {
    match e {
      case StartCalled(port, p) => StartStage(b, port, p);
      case TimerFired(PollTimer(g, k, _), p) => PollStage(b, k, p);
      case TimerFired(ConnectTimer(g, k, _), p) => ConnectThrough(b, k, p);
    }
  }

  /** Re-attaching only arms the circuit wait. */
  lemma ReattachingWaits(b: Bridge, e: Event)
    requires Reattaches(b, e)
    ensures var c := Act(b, e).bridge;
            c.auths == b.auths && c.authed && Act(b, e).armed == Some(CircuitWatchdog(c.gen, b.now + CIRCUIT_MS))
  {
    match e {
      case StartCalled(port, p) => StartStage(b, port, p);
      case TimerFired(PollTimer(g, k, _), p) => PollStage(b, k, p);
      case TimerFired(ConnectTimer(g, k, _), p) => ConnectThrough(b, k, p);
    }
  }

  /** Nothing else adds a command, and only a reply or stop() changes what is known of the connection. */
  lemma OthersSendNothing(b: Bridge, e: Event)
    requires !Sends(b, e) && !e.AuthAnswered? && !e.StopCalled?
    ensures var c := Act(b, e).bridge; c.auths == b.auths && SameConnection(b, c)
  {
    match e {
      case StartCalled(port, p) => QuietStart(b, port, p);
      case TimerFired(t, p) => QuietBlock(b, t, p);
      case CircuitReported(_, up) => SettleKeepsConnection(b.(running := true), None, 0);
      case TimePassed(_) =>
    }
  }

  lemma QuietStart(b: Bridge, port: int, p: Probe)
    requires !Sends(b, StartCalled(port, p))
    ensures var c := Start(b, port, p).bridge; c.auths == b.auths && SameConnection(b, c)
  {
    StartStage(b, port, p);
  }

  /** A reply takes its command away; stop() forgets the connection. */
  lemma AnswerAndStop(b: Bridge, a: Auth, ok: bool)
    ensures var c := AuthReply(b, a, ok).bridge;
            && c.auths == b.auths - multiset{a} && c.controller == b.controller && c.connections == b.connections
            && c.authed == (b.authed || ok)
    ensures var c := Stop(b);
            c.auths == b.auths && c.controller.None? && c.connections == b.connections && !c.authed
  {
    SettleKeepsConnection(Replied(b, a), Some(AuthRejected), a.gen);
    SettleKeepsConnection(b.(gen := b.gen + 1), Some(Stopped), 0);
  }

  lemma QuietBlock(b: Bridge, t: Timer, p: Probe)
    requires !Sends(b, TimerFired(t, p))
    ensures var c := Fire(b, t, p).bridge; c.auths == b.auths && SameConnection(b, c)
  {
    match t {
      case PollTimer(g, k, _) => PollStage(b, k, p);
      case ConnectTimer(g, k, _) => ConnectThrough(b, k, p);
      case AuthWatchdog(g, _) => SettleKeepsConnection(b, Some(AuthSilent), g);
      case CircuitWatchdog(g, _) => SettleKeepsConnection(b, Some(NoCircuit), g);
    }
  }

  // ---------------------------------------------------------------- one command per connection

  /** Some command on the connection held has not been answered. */
  ghost predicate Unanswered(b: Bridge) {
    exists a :: a in b.auths && b.controller == Some(a.conn)
  }

  /** At most one of the commands is on the connection held. */
  ghost predicate AtMostOne(auths: multiset<Auth>, controller: Option<nat>) {
    forall a, c :: a in auths && c in auths && controller == Some(a.conn) == Some(c.conn) ==> a == c && auths[a] == 1
  }

  /** At most one command is outstanding on the connection held, and none once it is authenticated. */
  ghost predicate OneCommand(b: Bridge) {
    AtMostOne(b.auths, b.controller) && (b.authed ==> !Unanswered(b))
  }

  /** The event sends AUTHENTICATE on a connection that still owes an answer. */
  ghost predicate Repeats(b: Bridge, e: Event) {
    Sends(b, e) && Unanswered(b)
  }

  /** Commands went to connections that exist. */
  ghost predicate Addressed(b: Bridge) {
    && (forall a :: a in b.auths ==> a.conn < b.connections)
    && (b.controller.Some? ==> b.controller.value < b.connections)
  }

  lemma StepKeepsAddressed(w: World, e: Event)
    requires Addressed(w.bridge) && Enabled(w, e)
    ensures Addressed(Step(w, e).bridge)
  {
    var b := w.bridge;
    if Sends(b, e) {
      SendingSends(b, e);
    } else if e.AuthAnswered? {
      AnswerAndStop(b, e.auth, e.success);
    } else if e.StopCalled? {
      AnswerAndStop(b, Auth(0, 0), false);
    } else {
      OthersSendNothing(b, e);
    }
  }

  /** Each event keeps to one command exactly when it does not repeat one. */
  lemma StepKeepsOneCommand(w: World, e: Event)
    requires Addressed(w.bridge) && OneCommand(w.bridge) && Enabled(w, e)
    ensures OneCommand(Step(w, e).bridge) <==> !Repeats(w.bridge, e)
  {
    var b, c := w.bridge, Act(w.bridge, e).bridge;
    if Sends(b, e) {
      SendingSends(b, e);
      SecondIsTooMany(b, c);
    } else if e.AuthAnswered? {
      AnswerAndStop(b, e.auth, e.success);
      AnswerKeepsOneCommand(b, c, e.auth);
    } else {
      assert c.auths == b.auths && (SameConnection(b, c) || c.controller.None?) by {
        if e.StopCalled? {
          AnswerAndStop(b, Auth(0, 0), false);
        } else {
          OthersSendNothing(b, e);
        }
      }
      OthersKeepOneCommand(b, c);
    }
  }

  lemma OthersKeepOneCommand(b: Bridge, c: Bridge)
    requires Addressed(b) && OneCommand(b) && c.auths == b.auths && (SameConnection(b, c) || c.controller.None?)
    ensures OneCommand(c)
  {
  }

  lemma AnswerKeepsOneCommand(b: Bridge, c: Bridge, a: Auth)
    requires OneCommand(b) && a in b.auths && b.controller == c.controller == Some(a.conn) && c.auths == b.auths - multiset{a}
    ensures OneCommand(c)
  {
    AnswerLeavesNone(b.auths, b.controller, a);
  }

  lemma SecondIsTooMany(b: Bridge, c: Bridge)
    requires Addressed(b) && OneCommand(b) && !c.authed
    requires c.controller == Some(Held(b)) && c.auths == b.auths + multiset{Auth(Held(b), c.gen)}
    ensures OneCommand(c) <==> !Unanswered(b)
  {
    var sent := Auth(Held(b), c.gen);
    assert sent in c.auths;
    if Unanswered(b) {
      var a :| a in b.auths && b.controller == Some(a.conn);
      assert a in c.auths;
      assert a == sent ==> c.auths[a] >= 2;
    }
  }

  lemma AnswerLeavesNone(auths: multiset<Auth>, controller: Option<nat>, a: Auth)
    requires a in auths && controller == Some(a.conn) && AtMostOne(auths, controller)
    ensures forall x :: x in auths - multiset{a} ==> controller != Some(x.conn)
  {
    forall x | x in auths - multiset{a}
      ensures controller != Some(x.conn)
    {
      assert x in auths;
    }
  }

  /** No event of the run sends AUTHENTICATE while a command on its connection is unanswered. */
  ghost predicate NeverRepeats(w: World, es: seq<Event>)
    decreases es
  {
    es == [] || (!Repeats(w.bridge, es[0]) && NeverRepeats(Step(w, es[0]), es[1..]))
  }

  /** After every event of the run there is at most one command outstanding on the connection held. */
  ghost predicate OneCommandThroughout(w: World, es: seq<Event>)
    decreases es
  {
    OneCommand(w.bridge) && (es == [] || OneCommandThroughout(Step(w, es[0]), es[1..]))
  }

  lemma {:induction false} OneCommandFrom(w: World, es: seq<Event>)
    requires Addressed(w.bridge) && OneCommand(w.bridge) && Legal(w, es)
    ensures OneCommandThroughout(w, es) <==> NeverRepeats(w, es)
    ensures NeverRepeats(w, es) ==> OneCommand(Run(w, es).bridge)
    ensures Addressed(Run(w, es).bridge)
    decreases es
  {
    if es != [] {
      var v := Step(w, es[0]);
      StepKeepsAddressed(w, es[0]);
      StepKeepsOneCommand(w, es[0]);
      if OneCommand(v.bridge) {
        OneCommandFrom(v, es[1..]);
      } else {
        StepsKeepAddressed(v, es[1..]);
      }
    }
  }

  lemma {:induction false} StepsKeepAddressed(w: World, es: seq<Event>)
    requires Addressed(w.bridge) && Legal(w, es)
    ensures Addressed(Run(w, es).bridge)
    decreases es
  {
    if es != [] {
      StepKeepsAddressed(w, es[0]);
      StepsKeepAddressed(Step(w, es[0]), es[1..]);
    }
  }

  /**
   A connection is sent one AUTHENTICATE at a time, and none once authenticated,
   in exactly the runs where no attempt reaches the connect stage, with a cookie,
   while an abandoned attempt's command is still unanswered.
   */
  lemma OneCommandExactly(es: seq<Event>)
    requires Legal(INITIAL, es)
    ensures OneCommandThroughout(INITIAL, es) <==> NeverRepeats(INITIAL, es)
  {
    OneCommandFrom(INITIAL, es);
  }

  /** In such a run no attempt is ever failed by a rejected command once the connection is authenticated. */
  lemma AuthedIsNeverRejected(es: seq<Event>, e: Event)
    requires Legal(INITIAL, es) && NeverRepeats(INITIAL, es) && Enabled(Run(INITIAL, es), e)
    ensures var b, c := Run(INITIAL, es).bridge, Step(Run(INITIAL, es), e).bridge;
            && (b.authed ==> !e.AuthAnswered?)
            && (c.authed ==> NoneAdded(AuthRejected, b.completed, c.completed))
  {
    OneCommandFrom(INITIAL, es);
    OnlyFailedReplyRejects(Run(INITIAL, es).bridge, e);
  }

  // ---------------------------------------------------------------- what goes wrong otherwise

  /** A block that may still retry on behalf of its attempt. */
  predicate Retries(t: Timer) {
    t.PollTimer? || t.ConnectTimer?
  }

  ghost predicate OnlyOne(timers: multiset<Timer>, t: Timer) {
    timers[t] == 1 && forall u :: u in timers && u.gen == t.gen ==> u == t
  }

  ghost predicate NoCommandOf(auths: multiset<Auth>, g: nat) {
    forall a :: a in auths ==> a.gen != g
  }

  /** While an attempt retries, nothing else of it is outstanding. */
  ghost predicate Alone(timers: multiset<Timer>, auths: multiset<Auth>, gen: nat) {
    forall t :: t in timers && t.gen == gen && Retries(t) ==> OnlyOne(timers, t) && NoCommandOf(auths, gen)
  }

  predicate Retrying(timers: multiset<Timer>, gen: nat) {
    exists t :: t in timers && t.gen == gen && Retries(t)
  }

  /** ... and it is unsettled, or has an authenticated connection. */
  ghost predicate LoneRetry(w: World) {
    Lone(w.timers, w.bridge.auths, w.bridge.gen, w.bridge.pending.Some? || w.bridge.authed)
  }

  ghost predicate Lone(timers: multiset<Timer>, auths: multiset<Auth>, gen: nat, alive: bool) {
    Alone(timers, auths, gen) && (Retrying(timers, gen) ==> alive)
  }

  /** A start call that arms a block does so for a new generation; one that does not leaves the current attempt alone or begins none that lasts. */
  lemma StartArms(b: Bridge, port: int, p: Probe)
    ensures var f := Start(b, port, p);
            && (f.armed.Some? ==>
                  && f.armed.value.gen == f.bridge.gen == b.gen + 1 && f.bridge.pending.Some?
                  && (Retries(f.armed.value) ==> f.bridge.auths == b.auths))
            && (f.armed.None? ==>
                  && f.bridge.auths == b.auths && f.bridge.authed == b.authed
                  && (f.bridge.gen == b.gen + 1 || (f.bridge.gen == b.gen && f.bridge.pending == b.pending)))
  {
    StartStage(b, port, p);
    assert SameAttempt(Begun(b, port), Settle(Begun(b, port), Some(DirectoryError), b.gen + 1));
  }

  lemma StartKeepsLoneRetry(w: World, port: int, p: Probe)
    requires TimerGenerations(w.timers, w.bridge.gen, w.bridge.hasThread) && AuthGenerations(w.bridge.auths, w.bridge.gen)
    requires LoneRetry(w)
    ensures LoneRetry(Step(w, StartCalled(port, p)))
  {
    var b, f := w.bridge, Start(w.bridge, port, p);
    StartArms(b, port, p);
    assert !Retrying(w.timers, b.gen + 1);
    if f.armed.Some? {
      NewGeneration(w.timers, f.bridge.auths, b.gen, f.armed.value);
    }
  }

  lemma NewGeneration(timers: multiset<Timer>, auths: multiset<Auth>, gen: nat, t: Timer)
    requires (forall u :: u in timers ==> u.gen <= gen) && t.gen == gen + 1
    requires Retries(t) ==> forall a :: a in auths ==> a.gen <= gen
    ensures Lone(timers + Armed(Some(t)), auths, gen + 1, true)
  {
  }

  /** Only a retry block arms another, and then it changes nothing else. */
  lemma RetryPassedOn(b: Bridge, t: Timer, p: Probe)
    ensures var f := Fire(b, t, p);
            f.armed.Some? && Retries(f.armed.value) ==>
              && Retries(t) && t.gen == b.gen == f.armed.value.gen
              && f.bridge.auths == b.auths && f.bridge.authed == b.authed && f.bridge.pending == b.pending
  {
    match t {
      case PollTimer(g, k, _) => PollStage(b, k, p);
      case ConnectTimer(g, k, _) => ConnectThrough(b, k, p);
      case _ =>
    }
  }

  /** A watchdog does nothing about the connection. */
  lemma WatchdogKeepsConnection(b: Bridge, t: Timer, p: Probe)
    requires 1 <= t.gen && (!Retries(t) || t.gen != b.gen)
    ensures var f := Fire(b, t, p);
            f.armed.None? && f.bridge.auths == b.auths && f.bridge.authed == b.authed && (t.gen != b.gen ==> f.bridge.pending == b.pending)
  {
  }

  lemma FireKeepsLoneRetry(w: World, t: Timer, p: Probe)
    requires LoneRetry(w) && t in w.timers && 1 <= t.gen
    ensures LoneRetry(Step(w, TimerFired(t, p)))
  {
    var b, f := w.bridge, Fire(w.bridge, t, p);
    assert SameAttempt(b, f.bridge);
    if Retries(t) && t.gen == b.gen {
      RetryPassedOn(b, t, p);
      RetryReplaced(w.timers, t, b.auths, f.armed);
    } else {
      WatchdogKeepsConnection(b, t, p);
      BlockDropped(w.timers, t, b.auths, b.gen);
    }
  }

  /** The lone retry block is replaced by the one it arms, or by a watchdog. */
  lemma RetryReplaced(timers: multiset<Timer>, t: Timer, auths: multiset<Auth>, armed: Option<Timer>)
    requires Alone(timers, auths, t.gen) && t in timers && Retries(t)
    ensures var rest := timers - multiset{t} + Armed(armed);
            && (armed.Some? && armed.value.gen == t.gen && Retries(armed.value) ==> Alone(rest, auths, t.gen))
            && (!(armed.Some? && Retries(armed.value)) ==> !Retrying(rest, t.gen))
  {
    assert forall u :: u in timers - multiset{t} ==> u.gen != t.gen;
  }

  /** With one block fewer, a retry is still alone. */
  lemma BlockDropped(timers: multiset<Timer>, t: Timer, auths: multiset<Auth>, gen: nat)
    requires Alone(timers, auths, gen) && t in timers && (t.gen == gen ==> !Retries(t))
    ensures Alone(timers - multiset{t}, auths, gen)
    ensures Retrying(timers - multiset{t}, gen) ==> Retrying(timers, gen) && t.gen != gen
  {
  }

  lemma AnswerKeepsLoneRetry(w: World, a: Auth, ok: bool)
    requires LoneRetry(w) && a in w.bridge.auths && 1 <= a.gen
    ensures LoneRetry(Step(w, AuthAnswered(a, ok)))
  {
    var b, f := w.bridge, AuthReply(w.bridge, a, ok);
    AnswerAndStop(b, a, ok);
    ReplyAndAttempt(b, a, ok);
    WatchdogAdded(w.timers, b.auths, f.bridge.auths, b.gen, a.gen, f.armed);
    assert Lone(w.timers + Armed(f.armed), f.bridge.auths, b.gen, f.bridge.pending.Some? || f.bridge.authed);
  }

  lemma ReplyAndAttempt(b: Bridge, a: Auth, ok: bool)
    requires 1 <= a.gen
    ensures var f := AuthReply(b, a, ok);
            && f.bridge.gen == b.gen && (a.gen != b.gen ==> f.bridge.pending == b.pending)
            && (f.armed.Some? ==> f.armed.value.CircuitWatchdog? && f.armed.value.gen == a.gen)
  {
  }

  /** A reply of the current attempt means it is past retrying; any other arms a watchdog of its own generation. */
  lemma WatchdogAdded(timers: multiset<Timer>, auths: multiset<Auth>, rest: multiset<Auth>, gen: nat, g: nat, armed: Option<Timer>)
    requires Alone(timers, auths, gen) && rest <= auths && !NoCommandOf(auths, g)
    requires armed.Some? ==> armed.value.CircuitWatchdog? && armed.value.gen == g
    ensures Alone(timers + Armed(armed), rest, gen)
    ensures Retrying(timers + Armed(armed), gen) ==> Retrying(timers, gen) && g != gen
  {
    if g == gen {
      assert !Retrying(timers, gen);
    }
  }

  /** stop() begins a generation with no blocks, and a circuit means the connection is authenticated. */
  lemma OthersKeepLoneRetry(w: World, e: Event)
    requires LoneRetry(w) && (w.bridge.observing ==> w.bridge.authed) && Enabled(w, e)
    requires forall t :: t in w.timers ==> t.gen <= w.bridge.gen
    requires e.StopCalled? || e.CircuitReported? || e.TimePassed?
    ensures LoneRetry(Step(w, e))
  {
    match e {
      case StopCalled =>
        assert Act(w.bridge, e).bridge.gen == w.bridge.gen + 1;
        assert !Retrying(w.timers, w.bridge.gen + 1);
      case CircuitReported(_, up) => SettleKeepsConnection(w.bridge.(running := true), None, 0);
      case TimePassed(_) =>
    }
  }

  lemma StepKeepsLoneRetry(w: World, e: Event)
    requires WorldInv(w) && LoneRetry(w) && Enabled(w, e)
    ensures LoneRetry(Step(w, e))
  {
    match e {
      case StartCalled(port, p) => StartKeepsLoneRetry(w, port, p);
      case TimerFired(t, p) => FireKeepsLoneRetry(w, t, p);
      case AuthAnswered(a, ok) => AnswerKeepsLoneRetry(w, a, ok);
      case _ => OthersKeepLoneRetry(w, e);
    }
  }

  lemma {:induction false} RunKeepsLoneRetry(w: World, es: seq<Event>)
    requires WorldInv(w) && LoneRetry(w) && Legal(w, es)
    ensures WorldInv(Run(w, es)) && LoneRetry(Run(w, es))
    decreases es
  {
    if es != [] {
      StepKeepsInv(w, es[0]);
      StepKeepsLoneRetry(w, es[0]);
      RunKeepsLoneRetry(Step(w, es[0]), es[1..]);
    }
  }

  lemma ReachableFacts(es: seq<Event>)
    requires Legal(INITIAL, es)
    ensures var w := Run(INITIAL, es); WorldInv(w) && LoneRetry(w) && Addressed(w.bridge)
  {
    InitialInv();
    RunKeepsLoneRetry(INITIAL, es);
    StepsKeepAddressed(INITIAL, es);
  }

  /**
   Whenever a command is repeated, a late success does not save the attempt that
   waits: the first command's reply authenticates the connection, and the
   rejection of the second then fails that attempt.
   */
  lemma RepeatedAuthenticateFailsHealthyAttempt(es: seq<Event>, e: Event, a: Auth)
    requires Legal(INITIAL, es) && Enabled(Run(INITIAL, es), e)
    requires var b := Run(INITIAL, es).bridge; Sends(b, e) && a in b.auths && b.controller == Some(a.conn)
    ensures var v := Step(Run(INITIAL, es), e);
            var second := Auth(a.conn, v.bridge.gen);
            var v1 := Step(v, AuthAnswered(a, true));
            var v2 := Step(v1, AuthAnswered(second, false));
            && a != second && v.bridge.pending.Some?
            && Enabled(v, AuthAnswered(a, true)) && Enabled(v1, AuthAnswered(second, false))
            && v2.bridge.authed && v2.bridge.pending.None?
            && v2.bridge.completed == v.bridge.completed + [Completion(v.bridge.pending.value, Failed(AuthRejected))]
  {
    var w := Run(INITIAL, es);
    var b := w.bridge;
    ReachableFacts(es);
    SenderWaits(w, e, a);
    SendingSends(b, e);
    var c := Act(b, e).bridge;
    var second := Auth(a.conn, c.gen);
    assert second in c.auths && a in c.auths;
    LateSuccess(c, a);
    var c1 := AuthReply(c, a, true).bridge;
    assert second in c1.auths;
    FailedReply(c1, second);
  }

  /** An attempt that sends AUTHENTICATE is waited for, and has sent none before. */
  lemma SenderWaits(w: World, e: Event, a: Auth)
    requires WorldInv(w) && LoneRetry(w) && Enabled(w, e) && Sends(w.bridge, e) && a in w.bridge.auths
    ensures Act(w.bridge, e).bridge.pending.Some? && a.gen < Act(w.bridge, e).bridge.gen
  {
    var b := w.bridge;
    match e {
      case StartCalled(port, p) => StartStage(b, port, p);
      case TimerFired(t, p) =>
        assert Retrying(w.timers, b.gen);
        ArmsExactly(b, e);
        assert a.gen != b.gen;
        match t {
          case PollTimer(g, k, _) => PollStage(b, k, p);
          case ConnectTimer(g, k, _) => ConnectThrough(b, k, p);
        }
    }
  }

  lemma LateSuccess(c: Bridge, a: Auth)
    ensures var r := AuthReply(c, a, true).bridge;
            && r.authed && r.gen == c.gen && r.pending == c.pending && r.completed == c.completed
            && r.controller == c.controller && r.auths == c.auths - multiset{a}
  {
  }

  lemma FailedReply(c: Bridge, a: Auth)
    requires c.pending.Some? && a.gen == c.gen
    ensures var r := AuthReply(c, a, false).bridge;
            && r.authed == c.authed && r.pending.None?
            && r.completed == c.completed + [Completion(c.pending.value, Failed(AuthRejected))]
  {
  }

  // ---------------------------------------------------------------- a run that repeats a command

  const ANSWERING := Probe(true, true, true, true, true, FullCookie)

  /** Attempt 1 has failed for lack of a reply. */
  const UNANSWERED := World(
    Bridge(true, true, Some(0), false, false, false, 1, 1, None, AUTH_MS,
           multiset{Auth(0, 1)}, 1, 1, [], 1, 0, [Completion(0, Failed(AuthSilent))]),
    multiset{})

  /** A start whose AUTHENTICATE is not answered for 15 s. */
  const SILENCE := [StartCalled(1, ANSWERING), TimePassed(AUTH_MS), TimerFired(AuthWatchdog(1, AUTH_MS), ANSWERING)]

  /** The start after a silent one repeats the command: the condition of `OneCommandExactly` can fail. */
  lemma RepeatIsReachable()
    ensures Legal(INITIAL, SILENCE) && Run(INITIAL, SILENCE) == UNANSWERED
    ensures Repeats(UNANSWERED.bridge, StartCalled(1, ANSWERING))
    ensures Legal(INITIAL, SILENCE + [StartCalled(1, ANSWERING)]) && !NeverRepeats(INITIAL, SILENCE + [StartCalled(1, ANSWERING)])
  {
    assert Auth(0, 1) in UNANSWERED.bridge.auths;
    RunOfFirst(UNANSWERED, StartCalled(1, ANSWERING), []);
    assert [StartCalled(1, ANSWERING)] + [] == [StartCalled(1, ANSWERING)];
    SilenceRun([]);
    SilenceRun([StartCalled(1, ANSWERING)]);
    assert SILENCE + [] == SILENCE;
  }

  lemma SilenceRun(es: seq<Event>)
    ensures Run(INITIAL, SILENCE + es) == Run(UNANSWERED, es)
    ensures Legal(INITIAL, SILENCE + es) <==> Legal(UNANSWERED, es)
    ensures NeverRepeats(INITIAL, SILENCE + es) ==> NeverRepeats(UNANSWERED, es)
  {
    var w1 := FirstAttempt();
    var w2 := Step(w1, SILENCE[1]);
    LastOfSilence(w2);
    assert SILENCE + es == [SILENCE[0]] + ([SILENCE[1]] + ([SILENCE[2]] + es));
    RunOfFirst(INITIAL, SILENCE[0], [SILENCE[1]] + ([SILENCE[2]] + es));
    RunOfFirst(w1, SILENCE[1], [SILENCE[2]] + es);
    RunOfFirst(w2, SILENCE[2], es);
  }

  lemma LastOfSilence(w: World)
    requires w == World(UNANSWERED.bridge.(pending := Some(0), completed := []), multiset{AuthWatchdog(1, AUTH_MS)})
    ensures Enabled(w, SILENCE[2]) && Step(w, SILENCE[2]) == UNANSWERED
  {
  }

  lemma FirstAttempt() returns (w: World)
    ensures w == Step(INITIAL, StartCalled(1, ANSWERING))
    ensures w == World(UNANSWERED.bridge.(pending := Some(0), completed := [], now := 0), multiset{AuthWatchdog(1, AUTH_MS)})
  {
    w := Step(INITIAL, StartCalled(1, ANSWERING));
    var b := Launched(Begun(INITIAL.bridge, 1));
    FirstAuthenticates(b);
    assert Start(INITIAL.bridge, 1, ANSWERING) == Poll(b, 1, 0, ANSWERING);
    assert INITIAL.timers + multiset{AuthWatchdog(1, AUTH_MS)} == multiset{AuthWatchdog(1, AUTH_MS)};
  }

  lemma FirstAuthenticates(b: Bridge)
    requires b.gen == 1 && b.now == 0 && b.connections == 0 && b.controller.None? && !b.authed && b.auths == multiset{}
    ensures Poll(b, 1, 0, ANSWERING)
            == Effect(b.(controller := Some(0), connections := 1, auths := multiset{Auth(0, 1)}), Some(AuthWatchdog(1, AUTH_MS)))
  {
    var c := EnsureController(b);
    assert Poll(b, 1, 0, ANSWERING) == Connected(c, 1, 0, ANSWERING);
    assert Connected(c, 1, 0, ANSWERING) == Authenticate(c, 1, FullCookie);
    assert multiset{} + multiset{Auth(0, 1)} == multiset{Auth(0, 1)};
  }

  lemma RunOfFirst(w: World, e: Event, es: seq<Event>)
    ensures Run(w, [e] + es) == Run(Step(w, e), es)
    ensures Legal(w, [e] + es) <==> Enabled(w, e) && Legal(Step(w, e), es)
    ensures NeverRepeats(w, [e] + es) <==> !Repeats(w.bridge, e) && NeverRepeats(Step(w, e), es)
  {
    assert ([e] + es)[0] == e && ([e] + es)[1..] == es;
  }
}
