/** What every interleaving of JS calls, bridge events and main-queue blocks keeps. */
module LogicSafety {
  import opened Wrappers
  import opened BridgeModel
  import opened BridgeSafety
  import opened BridgeReports
  import opened LogicModel

  // ---------------------------------------------------------------- the invariant

  function Upto(n: nat): seq<nat> {
    seq(n, i => i)
  }

  function Promises(ss: seq<Settlement>): seq<nat> {
    seq(|ss|, i requires 0 <= i < |ss| => ss[i].promise)
  }

  function StopIds(queue: seq<Block>): seq<nat> {
    if queue == [] then []
    else (if queue[0].StopDone? then [queue[0].promise] else []) + StopIds(queue[1..])
  }

  predicate HasDrain(queue: seq<Block>) {
    exists k :: 0 <= k < |queue| && queue[k].Drain?
  }

  /** The mode once every queued block has run. */
  function Projected(mode: Mode, queue: seq<Block>): Mode {
    if queue == [] then mode
    else if queue[|queue| - 1].Drain? && queue[|queue| - 1].outcome.Ready? then On
    else Off
  }

  /** Promises are settled in the order they were issued; the rest are still listed. */
  ghost predicate InOrder(settled: seq<Settlement>, waiting: seq<nat>, issued: nat) {
    Promises(settled) + waiting == Upto(issued)
  }

  /** Somebody waits only while a bridge completion or a queued drain is outstanding. */
  ghost predicate Outstanding(l: Logic, pending: Option<nat>) {
    l.waiting != [] || l.mode.Starting? ==> pending.Some? || HasDrain(l.queue)
  }

  ghost predicate LogicInv(s: System) {
    var l, b := s.logic, s.world.bridge;
    && InOrder(l.settled, l.waiting, |l.issued|)
    && (l.mode.On? ==> l.waiting == [])
    && Outstanding(l, b.pending)
    && (Projected(l.mode, l.queue).On? ==> b.running)
    && l.stopped + StopIds(l.queue) == Upto(l.stops)
  }

  ghost predicate SystemInv(s: System) {
    WorldInv(s.world) && LogicInv(s)
  }

  lemma FreshInv()
    ensures SystemInv(FRESH)
  {
  }

  lemma {:induction false} StopIdsConcat(q: seq<Block>, r: seq<Block>)
    ensures StopIds(q + r) == StopIds(q) + StopIds(r)
    decreases q
  {
    if q == [] {
      assert q + r == r;
    } else {
      assert (q + r)[0] == q[0] && (q + r)[1..] == q[1..] + r;
      StopIdsConcat(q[1..], r);
      var head := if q[0].StopDone? then [q[0].promise] else [];
      assert StopIds(q + r) == head + (StopIds(q[1..]) + StopIds(r));
      assert head + (StopIds(q[1..]) + StopIds(r)) == (head + StopIds(q[1..])) + StopIds(r);
    }
  }

  lemma SettleAllInOrder(settled: seq<Settlement>, waiting: seq<nat>, a: Answer, issued: nat)
    requires InOrder(settled, waiting, issued)
    ensures InOrder(settled + Settlements(waiting, a), [], issued)
  {
    assert Promises(settled + Settlements(waiting, a)) == Promises(settled) + waiting;
  }

  /** What queueing the completions of one bridge event does to the main queue. */
  lemma QueueAfter(mode: Mode, q: seq<Block>, b: Bridge, c: Bridge)
    requires Reports(b, c)
    ensures var r := q + Drains(Fresh(b.completed, c.completed));
            && (Grown(b, c) || HasDrain(q) ==> HasDrain(r))
            && StopIds(r) == StopIds(q)
            && (Projected(mode, r).On? ==> c.running || Projected(mode, q).On?)
            && (c.completed == b.completed ==> r == q)
            && (Grown(b, c) ==> r != [])
  {
    var news := Drains(Fresh(b.completed, c.completed));
    StopIdsConcat(q, news);
    if Grown(b, c) {
      assert news == [Drain(c.completed[|b.completed|].outcome)];
      assert (q + news)[|q|] == news[0];
    } else {
      assert news == [];
    }
    if HasDrain(q) {
      var k :| 0 <= k < |q| && q[k].Drain?;
      assert (q + news)[k].Drain?;
    }
  }

  lemma BridgeEventKeepsInv(s: System, e: Event)
    requires SystemInv(s) && Possible(s, BridgeActed(e))
    ensures SystemInv(BridgeDoes(s, e))
  {
    StepKeepsInv(s.world, e);
    ActReports(s.world.bridge, e);
    QueueAfter(s.logic.mode, s.logic.queue, s.world.bridge, Act(s.world.bridge, e).bridge);
  }

  lemma UptoAppend(n: nat)
    ensures Upto(n + 1) == Upto(n) + [n]
  {
  }

  lemma JsStartKeepsInv(s: System, p: Probe)
    requires SystemInv(s)
    ensures SystemInv(JsStart(s, p))
  {
    var l, n := s.logic, |s.logic.issued|;
    UptoAppend(n);
    match l.mode {
      case On => assert Promises(l.settled + [Settlement(n, Status(On))]) == Promises(l.settled) + [n];
      case Starting => assert Promises(l.settled) + (l.waiting + [n]) == Promises(l.settled) + l.waiting + [n];
      case Off =>
        assert Promises(l.settled) + (l.waiting + [n]) == Promises(l.settled) + l.waiting + [n];
        var b := s.world.bridge;
        StepKeepsInv(s.world, StartCalled(SOCKS_PORT, p));
        StartReports(b, SOCKS_PORT, p);
        QueueAfter(Starting, l.queue, b, Start(b, SOCKS_PORT, p).bridge);
    }
  }

  lemma QueueStopDone(q: seq<Block>, stopped: seq<nat>, stops: nat, mode: Mode)
    requires stopped + StopIds(q) == Upto(stops)
    ensures var r := q + [StopDone(stops)];
            && stopped + StopIds(r) == Upto(stops + 1)
            && (HasDrain(q) ==> HasDrain(r))
            && Projected(mode, r) == Off
  {
    StopIdsConcat(q, [StopDone(stops)]);
    UptoAppend(stops);
    assert stopped + (StopIds(q) + [stops]) == stopped + StopIds(q) + [stops];
    if HasDrain(q) {
      var k :| 0 <= k < |q| && q[k].Drain?;
      assert (q + [StopDone(stops)])[k].Drain?;
    }
  }

  lemma JsStopKeepsInv(s: System)
    requires SystemInv(s)
    ensures SystemInv(JsStop(s))
  {
    var l, b := s.logic, s.world.bridge;
    StepKeepsInv(s.world, StopCalled);
    StopReports(b);
    QueueAfter(l.mode, l.queue, b, Stop(b));
    QueueStopDone(BridgeDoes(s, StopCalled).logic.queue, l.stopped, l.stops, l.mode);
  }

  lemma RunHeadKeepsInv(s: System)
    requires SystemInv(s) && s.logic.queue != []
    ensures SystemInv(s.(logic := RunHead(s.logic)))
  {
    var l := s.logic;
    HeadRemoved(l.mode, l.queue, l.stopped);
    match l.queue[0] {
      case Drain(Ready(_)) => SettleAllInOrder(l.settled, l.waiting, Status(On), |l.issued|);
      case Drain(Failed(f)) => SettleAllInOrder(l.settled, l.waiting, Rejected(f), |l.issued|);
      case StopDone(_) =>
    }
  }

  lemma HeadRemoved(mode: Mode, q: seq<Block>, stopped: seq<nat>)
    requires q != []
    ensures var head, rest := q[0], q[1..];
            && (head.StopDone? ==> stopped + [head.promise] + StopIds(rest) == stopped + StopIds(q))
            && (head.Drain? ==> StopIds(rest) == StopIds(q))
            && (head.StopDone? && HasDrain(q) ==> HasDrain(rest))
            && Projected(if head.Drain? && head.outcome.Ready? then On else Off, rest) == Projected(mode, q)
  {
    var head, rest := q[0], q[1..];
    assert rest != [] ==> rest[|rest| - 1] == q[|q| - 1];
    if head.StopDone? {
      assert stopped + ([head.promise] + StopIds(rest)) == stopped + [head.promise] + StopIds(rest);
      if HasDrain(q) {
        var k :| 0 <= k < |q| && q[k].Drain?;
        assert rest[k - 1].Drain?;
      }
    }
  }

  lemma NextKeepsInv(s: System, a: Action)
    requires SystemInv(s) && Possible(s, a)
    ensures SystemInv(Next(s, a))
  {
    match a {
      case StartPressed(p) => JsStartKeepsInv(s, p);
      case StopPressed => JsStopKeepsInv(s);
      case MainBlockRun => RunHeadKeepsInv(s);
      case BridgeActed(e) => BridgeEventKeepsInv(s, e);
    }
  }

  lemma {:induction false} AfterKeepsInv(s: System, acts: seq<Action>)
    requires SystemInv(s) && Interleaving(s, acts)
    ensures SystemInv(After(s, acts))
    decreases acts
  {
    if acts != [] {
      NextKeepsInv(s, acts[0]);
      AfterKeepsInv(Next(s, acts[0]), acts[1..]);
    }
  }

  // ---------------------------------------------------------------- main theorems

  /**
   In every interleaving: start promises are settled exactly once, first issued
   first settled, and the unsettled ones are exactly those still listed. Stop
   promises likewise. Once the main queue is empty, "on" means Tor is running
   and "starting", or a listed promise, means an attempt is in flight.
   */
  lemma StartPromisesSettleOnce(acts: seq<Action>)
    requires Interleaving(FRESH, acts)
    ensures var s := After(FRESH, acts);
            && Promises(s.logic.settled) + s.logic.waiting == Upto(|s.logic.issued|)
            && s.logic.stopped + StopIds(s.logic.queue) == Upto(s.logic.stops)
            && (s.logic.waiting != [] || s.logic.mode.Starting? ==>
                  s.world.bridge.pending.Some? || HasDrain(s.logic.queue))
            && (s.logic.queue == [] && s.logic.mode.On? ==> s.world.bridge.running)
  {
    FreshInv();
    AfterKeepsInv(FRESH, acts);
  }

  /** With nothing queued and no attempt in flight, nobody is left waiting. */
  lemma QuietMeansSettled(acts: seq<Action>)
    requires Interleaving(FRESH, acts)
    requires After(FRESH, acts).logic.queue == [] && After(FRESH, acts).world.bridge.pending.None?
    ensures var l := After(FRESH, acts).logic;
            && Promises(l.settled) == Upto(|l.issued|)
            && l.stopped == Upto(l.stops)
            && !l.mode.Starting?
  {
    FreshInv();
    AfterKeepsInv(FRESH, acts);
    var l := After(FRESH, acts).logic;
    assert Promises(l.settled) + [] == Promises(l.settled);
    assert l.stopped + [] == l.stopped;
  }
}
