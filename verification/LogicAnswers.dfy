/** What JavaScript is told, and where the main queue leads. */
module LogicAnswers {
  import opened BridgeModel
  import opened BridgeSafety
  import opened BridgeReports
  import opened BridgeCircuit
  import opened LogicModel
  import opened LogicSafety

  // ---------------------------------------------------------------- ports

  /** A resolved promise was told that Tor is on, at the SOCKS port. */
  ghost predicate ToldOn(settled: seq<Settlement>) {
    forall k :: 0 <= k < |settled| && settled[k].answer.Resolved? ==> settled[k].answer == Resolved(On, 39_050)
  }

  /** The bridge only ever succeeds on the SOCKS port. */
  ghost predicate OnPort(b: Bridge) {
    (b.pending.Some? ==> b.port == 39_050) && ReadyOnPort(b.completed)
  }

  ghost predicate ReadyOnPort(completed: seq<Completion>) {
    forall k :: 0 <= k < |completed| && completed[k].outcome.Ready? ==> completed[k].outcome.port == 39_050
  }

  lemma OneMoreOnPort(before: seq<Completion>, after: seq<Completion>)
    requires ReadyOnPort(before) && before <= after && |after| <= |before| + 1
    requires |after| > |before| && after[|before|].outcome.Ready? ==> after[|before|].outcome.port == 39_050
    ensures ReadyOnPort(after)
  {
    assert forall k :: 0 <= k < |before| ==> after[k] == before[k];
  }

  lemma EventKeepsPort(w: World, e: Event)
    requires WorldInv(w) && Enabled(w, e) && OnPort(w.bridge) && (e.StartCalled? ==> e.port == 39_050)
    ensures OnPort(Act(w.bridge, e).bridge)
  {
    var b, d := w.bridge, Act(w.bridge, e).bridge;
    NewCompletion(w, e);
    if e.StartCalled? {
      StartPort(b, e.port, e.probe);
    } else {
      ActPort(b, e);
    }
    OneMoreOnPort(b.completed, d.completed);
  }

  lemma NextKeepsTold(s: System, a: Action)
    requires SystemInv(s) && Possible(s, a) && ToldOn(s.logic.settled) && OnPort(s.world.bridge)
    ensures ToldOn(Next(s, a).logic.settled) && OnPort(Next(s, a).world.bridge)
  {
    match a {
      case StartPressed(p) => EventKeepsPort(s.world, StartCalled(SOCKS_PORT, p));
      case StopPressed => EventKeepsPort(s.world, StopCalled);
      case MainBlockRun =>
      case BridgeActed(e) => EventKeepsPort(s.world, e);
    }
  }

  lemma {:induction false} AfterKeepsTold(s: System, acts: seq<Action>)
    requires SystemInv(s) && Interleaving(s, acts) && ToldOn(s.logic.settled) && OnPort(s.world.bridge)
    ensures ToldOn(After(s, acts).logic.settled) && OnPort(After(s, acts).world.bridge)
    decreases acts
  {
    if acts != [] {
      NextKeepsInv(s, acts[0]);
      NextKeepsTold(s, acts[0]);
      AfterKeepsTold(Next(s, acts[0]), acts[1..]);
    }
  }

  /** In every interleaving, a resolved start promise was told the state on and port 39050, the port the bridge was ready on. */
  lemma ResolvedMeansOn(acts: seq<Action>)
    requires Interleaving(FRESH, acts)
    ensures ToldOn(After(FRESH, acts).logic.settled) && OnPort(After(FRESH, acts).world.bridge)
  {
    FreshInv();
    AfterKeepsTold(FRESH, acts);
  }

  // ---------------------------------------------------------------- the main queue

  /** n blocks of the main queue run, and nothing else happens. */
  function Blocks(n: nat): seq<Action> {
    if n == 0 then [] else [MainBlockRun] + Blocks(n - 1)
  }

  /**
   m is l once its queued blocks have run: the state is on if the last of them
   brought a success, or there was none and it was on before; it is off after any
   other block; and whoever was listed has been answered if there was a drain.
   */
  ghost predicate LeadsTo(l: Logic, m: Logic) {
    && m.queue == [] && m.issued == l.issued
    && m.mode == Projected(l.mode, l.queue)
    && m.waiting == (if HasDrain(l.queue) then [] else l.waiting)
    && Promises(m.settled) + m.waiting == Promises(l.settled) + l.waiting
    && m.stopped == l.stopped + StopIds(l.queue)
  }

  lemma LeadsOn(l: Logic, m: Logic)
    requires l.queue != [] && LeadsTo(RunHead(l), m)
    ensures LeadsTo(l, m)
  {
    HeadRuns(l);
  }

  lemma {:induction false} QueueLeadsTo(s: System)
    ensures Interleaving(s, Blocks(|s.logic.queue|))
    ensures var t := After(s, Blocks(|s.logic.queue|)); t.world == s.world && LeadsTo(s.logic, t.logic)
    decreases |s.logic.queue|
  {
    var n := |s.logic.queue|;
    if n > 0 {
      var next := Next(s, MainBlockRun);
      assert Blocks(n)[1..] == Blocks(n - 1);
      QueueLeadsTo(next);
      LeadsOn(s.logic, After(next, Blocks(n - 1)).logic);
    } else {
      assert s.logic.stopped + [] == s.logic.stopped;
    }
  }

  lemma HeadRuns(l: Logic)
    requires l.queue != []
    ensures var m := RunHead(l);
            && Projected(m.mode, m.queue) == Projected(l.mode, l.queue)
            && m.stopped + StopIds(m.queue) == l.stopped + StopIds(l.queue)
            && Promises(m.settled) + m.waiting == Promises(l.settled) + l.waiting
            && (if HasDrain(m.queue) then [] else m.waiting) == (if HasDrain(l.queue) then [] else l.waiting)
  {
    HeadRemoved(l.mode, l.queue, l.stopped);
    match l.queue[0] {
      case Drain(Ready(_)) => assert Promises(l.settled + Settlements(l.waiting, Status(On))) == Promises(l.settled) + l.waiting;
      case Drain(Failed(f)) => assert Promises(l.settled + Settlements(l.waiting, Rejected(f))) == Promises(l.settled) + l.waiting;
      case StopDone(_) => StopKeepsDrains(l.queue);
    }
  }

  lemma StopKeepsDrains(q: seq<Block>)
    requires q != [] && q[0].StopDone?
    ensures HasDrain(q[1..]) <==> HasDrain(q)
  {
    if HasDrain(q[1..]) {
      var k :| 0 <= k < |q[1..]| && q[1..][k].Drain?;
      assert q[k + 1].Drain?;
    }
    if HasDrain(q) {
      var k :| 0 <= k < |q| && q[k].Drain?;
      assert q[1..][k - 1].Drain?;
    }
  }

  // ---------------------------------------------------------------- coalescing

  /** How many start() calls of the run found the state off. */
  function FoundOff(s: System, acts: seq<Action>): nat
    requires Interleaving(s, acts)
    decreases acts
  {
    if acts == [] then 0
    else (if acts[0].StartPressed? && s.logic.mode.Off? then 1 else 0) + FoundOff(Next(s, acts[0]), acts[1..])
  }

  lemma {:induction false} CallsFrom(s: System, acts: seq<Action>)
    requires SystemInv(s) && Interleaving(s, acts)
    ensures After(s, acts).world.bridge.calls == s.world.bridge.calls + FoundOff(s, acts)
    decreases acts
  {
    if acts != [] {
      var a := acts[0];
      NextKeepsInv(s, a);
      match a {
        case StartPressed(p) => ActCounts(s.world.bridge, StartCalled(SOCKS_PORT, p));
        case StopPressed => ActCounts(s.world.bridge, StopCalled);
        case MainBlockRun =>
        case BridgeActed(e) => ActCounts(s.world.bridge, e);
      }
      CallsFrom(Next(s, a), acts[1..]);
    }
  }

  /** The bridge is called once for each start() that finds the state off, and the state is never off right after one. */
  lemma OnlyFirstCallersCall(acts: seq<Action>)
    requires Interleaving(FRESH, acts)
    ensures After(FRESH, acts).world.bridge.calls == FoundOff(FRESH, acts)
  {
    FreshInv();
    CallsFrom(FRESH, acts);
  }

  /** After start() the state is never off, so callers in a row share one bridge call. */
  lemma NextCallerJoins(s: System, p: Probe, q: Probe)
    ensures var t := Next(s, StartPressed(p));
            && !t.logic.mode.Off?
            && Next(t, StartPressed(q)).world == t.world
            && |Next(t, StartPressed(q)).logic.waiting| == |t.logic.waiting| + (if t.logic.mode.On? then 0 else 1)
  {
  }
}
