/** The open sockets against the lifecycle: whether any can outlive Tor. */
module LogicSockets {
  import opened BridgeModel
  import opened BridgeSafety
  import opened BridgeReports
  import opened LogicModel
  import opened LogicSafety

  /** The lifecycle together with the ids of the open sockets. */
  datatype Session = Session(sys: System, open: set<string>)

  datatype Move =
    | Lifecycle(action: Action)
    | SioConnect(id: string)    // of an id whose URL parses; refused unless the state is on
    | SocketGone(id: string)    // closed by JavaScript, by the server, or by a failed receive

  predicate Allowed(s: Session, m: Move) {
    m.Lifecycle? ==> Possible(s.sys, m.action)
  }

  /** stop() closes every socket before it calls the bridge. */
  function Moved(s: Session, m: Move): Session
    requires Allowed(s, m)
  {
    match m
    case Lifecycle(a) => Session(Next(s.sys, a), if a.StopPressed? then {} else s.open)
    case SioConnect(id) => if s.sys.logic.mode.On? then s.(open := s.open + {id}) else s
    case SocketGone(id) => s.(open := s.open - {id})
  }

  predicate HasStop(queue: seq<Block>) {
    exists k :: 0 <= k < |queue| && queue[k].StopDone?
  }

  /** A socket is opened after stop() was called and before its block has run. */
  predicate ConnectsLate(s: Session, m: Move) {
    m.SioConnect? && s.sys.logic.mode.On? && HasStop(s.sys.logic.queue)
  }

  /** Some socket is open with the block of a stop() still queued, which will not close it. */
  predicate Doomed(s: Session) {
    s.open != {} && HasStop(s.sys.logic.queue)
  }

  /** A failure is never drained straight into the state on: a stop() block runs first. */
  predicate NoFailureWhileOn(mode: Mode, queue: seq<Block>)
    decreases queue
  {
    if queue == [] then true
    else
      match queue[0]
      case Drain(Ready(_)) => NoFailureWhileOn(On, queue[1..])
      case Drain(Failed(_)) => !mode.On? && NoFailureWhileOn(Off, queue[1..])
      case StopDone(_) => NoFailureWhileOn(Off, queue[1..])
  }

  ghost predicate SessionInv(s: Session) {
    SystemInv(s.sys) && NoFailureWhileOn(s.sys.logic.mode, s.sys.logic.queue)
  }

  /** Sockets are open only in the state on with no stop() under way. */
  predicate Tied(s: Session) {
    s.open != {} ==> s.sys.logic.mode.On? && !HasStop(s.sys.logic.queue)
  }

  // ---------------------------------------------------------------- failures while on

  lemma {:induction false} QueueOneMore(mode: Mode, q: seq<Block>, x: Block)
    requires NoFailureWhileOn(mode, q)
    requires x.Drain? && x.outcome.Failed? ==> !Projected(mode, q).On?
    ensures NoFailureWhileOn(mode, q + [x])
    decreases q
  {
    if q == [] {
      assert q + [x] == [x] && [x][1..] == [];
    } else {
      var next := match q[0] case Drain(Ready(_)) => On case _ => Off;
      assert (q + [x])[0] == q[0] && (q + [x])[1..] == q[1..] + [x];
      assert q[1..] != [] ==> q[1..][|q[1..]| - 1] == q[|q| - 1];
      QueueOneMore(next, q[1..], x);
    }
  }

  /** With Tor running nothing is pending, so nothing can be failed. */
  lemma FailureNeedsStopped(w: World, e: Event)
    requires WorldInv(w) && Enabled(w, e) && w.bridge.running
    ensures var b, c := w.bridge, Act(w.bridge, e).bridge;
            Grown(b, c) ==> c.completed[|b.completed|].outcome.Ready?
  {
    match e {
      case StartCalled(_, _) =>
      case StopCalled =>
      case TimerFired(t, p) => FireCompletesPending(w.bridge, t, p);
      case AuthAnswered(_, _) =>
      case CircuitReported(_, _) =>
      case TimePassed(_) =>
    }
  }

  lemma BridgeKeepsOrder(s: System, e: Event, mode: Mode)
    requires WorldInv(s.world) && Enabled(s.world, e) && NoFailureWhileOn(mode, s.logic.queue)
    requires Projected(mode, s.logic.queue).On? ==> s.world.bridge.running
    ensures NoFailureWhileOn(mode, BridgeDoes(s, e).logic.queue)
  {
    var b, c := s.world.bridge, Act(s.world.bridge, e).bridge;
    ActReports(b, e);
    var news := Drains(Fresh(b.completed, c.completed));
    if Grown(b, c) {
      var last := c.completed[|b.completed|].outcome;
      assert news == [Drain(last)];
      if b.running {
        FailureNeedsStopped(s.world, e);
      }
      QueueOneMore(mode, s.logic.queue, Drain(last));
    } else {
      assert s.logic.queue + news == s.logic.queue;
    }
  }

  lemma LifecycleKeepsOrder(s: System, a: Action)
    requires SystemInv(s) && Possible(s, a) && NoFailureWhileOn(s.logic.mode, s.logic.queue)
    ensures NoFailureWhileOn(Next(s, a).logic.mode, Next(s, a).logic.queue)
  {
    match a {
      case StartPressed(p) => StartKeepsOrder(s, p);
      case StopPressed =>
        BridgeKeepsOrder(s, StopCalled, s.logic.mode);
        QueueOneMore(s.logic.mode, BridgeDoes(s, StopCalled).logic.queue, StopDone(s.logic.stops));
      case MainBlockRun =>
      case BridgeActed(e) => BridgeKeepsOrder(s, e, s.logic.mode);
    }
  }

  lemma StartKeepsOrder(s: System, p: Probe)
    requires SystemInv(s) && NoFailureWhileOn(s.logic.mode, s.logic.queue)
    ensures NoFailureWhileOn(JsStart(s, p).logic.mode, JsStart(s, p).logic.queue)
  {
    if s.logic.mode.Off? {
      var l := s.logic.(issued := s.logic.issued + [s.world.bridge.now], waiting := s.logic.waiting + [|s.logic.issued|], mode := Starting);
      assert NoFailureWhileOn(Starting, s.logic.queue);
      assert Projected(Starting, s.logic.queue).On? ==> Projected(Off, s.logic.queue).On?;
      BridgeKeepsOrder(s.(logic := l), StartCalled(SOCKS_PORT, p), Starting);
    }
  }

  // ---------------------------------------------------------------- exactly when a socket outlives Tor

  lemma FreshSession()
    ensures SessionInv(Session(FRESH, {})) && Tied(Session(FRESH, {}))
  {
    FreshInv();
  }

  lemma MoveKeepsInv(s: Session, m: Move)
    requires SessionInv(s) && Allowed(s, m)
    ensures SessionInv(Moved(s, m))
  {
    if m.Lifecycle? {
      NextKeepsInv(s.sys, m.action);
      LifecycleKeepsOrder(s.sys, m.action);
    }
  }

  lemma BridgeQueuesNoStop(s: System, e: Event)
    requires !HasStop(s.logic.queue)
    ensures !HasStop(BridgeDoes(s, e).logic.queue)
  {
  }

  /** In the state on, with no stop() under way, no block that runs leaves it. */
  lemma OnStays(mode: Mode, queue: seq<Block>)
    requires NoFailureWhileOn(mode, queue) && mode.On? && !HasStop(queue) && queue != []
    ensures queue[0].Drain? && queue[0].outcome.Ready? && !HasStop(queue[1..])
  {
    forall k | 0 <= k < |queue[1..]|
      ensures !queue[1..][k].StopDone?
    {
      assert queue[1..][k] == queue[k + 1];
    }
  }

  lemma MoveKeepsTied(s: Session, m: Move)
    requires SessionInv(s) && Allowed(s, m) && Tied(s) && !ConnectsLate(s, m)
    ensures Tied(Moved(s, m))
  {
    if m.Lifecycle? && s.open != {} {
      match m.action {
        case StartPressed(_) =>
        case StopPressed =>
        case MainBlockRun => OnStays(s.sys.logic.mode, s.sys.logic.queue);
        case BridgeActed(e) => BridgeQueuesNoStop(s.sys, e);
      }
    }
  }

  predicate Course(s: Session, ms: seq<Move>)
    decreases ms
  {
    ms == [] || (Allowed(s, ms[0]) && Course(Moved(s, ms[0]), ms[1..]))
  }

  function Ends(s: Session, ms: seq<Move>): Session
    requires Course(s, ms)
    decreases ms
  {
    if ms == [] then s else Ends(Moved(s, ms[0]), ms[1..])
  }

  predicate NeverLate(s: Session, ms: seq<Move>)
    requires Course(s, ms)
    decreases ms
  {
    ms == [] || (!ConnectsLate(s, ms[0]) && NeverLate(Moved(s, ms[0]), ms[1..]))
  }

  predicate NeverDoomed(s: Session, ms: seq<Move>)
    requires Course(s, ms)
    decreases ms
  {
    !Doomed(s) && (ms == [] || NeverDoomed(Moved(s, ms[0]), ms[1..]))
  }

  lemma {:induction false} DoomedFrom(s: Session, ms: seq<Move>)
    requires SessionInv(s) && Tied(s) && Course(s, ms)
    ensures NeverDoomed(s, ms) <==> NeverLate(s, ms)
    ensures NeverLate(s, ms) ==> Tied(Ends(s, ms))
    decreases ms
  {
    if ms != [] {
      MoveKeepsInv(s, ms[0]);
      if ConnectsLate(s, ms[0]) {
        assert Doomed(Moved(s, ms[0]));
      } else {
        MoveKeepsTied(s, ms[0]);
        DoomedFrom(Moved(s, ms[0]), ms[1..]);
      }
    }
  }

  /**
   No socket is ever open while the block of a stop() is queued, in exactly the
   runs where no socket is connected between a stop() and its block.
   */
  lemma SocketsDoomedExactly(ms: seq<Move>)
    requires Course(Session(FRESH, {}), ms)
    ensures NeverDoomed(Session(FRESH, {}), ms) <==> NeverLate(Session(FRESH, {}), ms)
  {
    FreshSession();
    DoomedFrom(Session(FRESH, {}), ms);
  }

  /** In those runs sockets are open only while the state is on. */
  lemma SocketsNeedTor(ms: seq<Move>)
    requires Course(Session(FRESH, {}), ms) && NeverLate(Session(FRESH, {}), ms)
    ensures var s := Ends(Session(FRESH, {}), ms); s.open != {} ==> s.sys.logic.mode.On?
  {
    FreshSession();
    DoomedFrom(Session(FRESH, {}), ms);
  }

  /** And otherwise not: running the main queue up to that block leaves the state off and the socket open. */
  lemma {:induction false} DoomedOutlivesTor(s: Session) returns (ms: seq<Move>)
    requires SessionInv(s) && Doomed(s)
    ensures Course(s, ms) && Ends(s, ms).sys.logic.mode.Off? && Ends(s, ms).open == s.open
    ensures forall k :: 0 <= k < |ms| ==> ms[k] == Lifecycle(MainBlockRun)
    decreases |s.sys.logic.queue|
  {
    var run := Lifecycle(MainBlockRun);
    var q := s.sys.logic.queue;
    MoveKeepsInv(s, run);
    if q[0].StopDone? {
      assert Course(Moved(s, run), []);
      assert [run][1..] == [];
      return [run];
    }
    var k :| 0 <= k < |q| && q[k].StopDone?;
    assert q[1..][k - 1].StopDone?;
    var rest := DoomedOutlivesTor(Moved(s, run));
    ms := [run] + rest;
    assert ms[1..] == rest;
  }
}
