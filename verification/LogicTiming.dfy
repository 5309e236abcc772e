/** The settlement bound seen from JavaScript, across both layers. */
module LogicTiming {
  import opened BridgeModel
  import opened BridgeSafety
  import opened BridgeReports
  import opened BridgeTiming
  import opened LogicModel
  import opened LogicSafety

  /** Timers run on time, and the main queue is drained before time moves on. */
  predicate Prompt(s: System, a: Action) {
    && Possible(s, a)
    && (a.BridgeActed? ==> Punctual(s.world, a.event))
    && (a.BridgeActed? && a.event.TimePassed? ==> s.logic.queue == [])
  }

  predicate PromptRun(s: System, acts: seq<Action>)
    decreases acts
  {
    acts == [] || (Prompt(s, acts[0]) && PromptRun(Next(s, acts[0]), acts[1..]))
  }

  lemma {:induction false} PromptIsInterleaving(s: System, acts: seq<Action>)
    requires PromptRun(s, acts)
    ensures Interleaving(s, acts)
    decreases acts
  {
    if acts != [] {
      PromptIsInterleaving(Next(s, acts[0]), acts[1..]);
    }
  }

  /** Every listed promise was issued recently enough. */
  ghost predicate Recent(waiting: seq<nat>, issued: seq<nat>, now: nat) {
    forall k :: 0 <= k < |waiting| ==> waiting[k] < |issued| && now <= issued[waiting[k]] + SETTLE_MS
  }

  /** The attempt in flight began no later than any listed promise was issued. */
  ghost predicate Covered(waiting: seq<nat>, issued: seq<nat>, startedAt: nat) {
    forall k :: 0 <= k < |waiting| ==> waiting[k] < |issued| && startedAt <= issued[waiting[k]]
  }

  ghost predicate Deadlines(s: System) {
    var l, b := s.logic, s.world.bridge;
    && Recent(l.waiting, l.issued, b.now)
    && (!HasDrain(l.queue) ==> Covered(l.waiting, l.issued, b.startedAt))
    && (b.pending.Some? ==> b.startedAt <= b.now)
  }

  ghost predicate TimedInv(s: System) {
    SystemInv(s) && OnTime(s.world) && Deadlines(s)
  }

  lemma BridgeEventKeepsDeadlines(s: System, e: Event)
    requires TimedInv(s) && Prompt(s, BridgeActed(e))
    ensures Deadlines(BridgeDoes(s, e))
  {
    var b, c := s.world.bridge, Act(s.world.bridge, e).bridge;
    ActReports(b, e);
    QueueAfter(s.logic.mode, s.logic.queue, b, c);
    StepKeepsInv(s.world, e);
    StepOnTime(s.world, e);
    if e.TimePassed? {
      if s.logic.waiting != [] {
        var t :| t in s.world.timers && Guards(b, t);
        assert c.now <= t.due <= b.startedAt + SETTLE_MS;
      }
    } else {
      ActKeepsClock(b, e);
    }
  }

  lemma JsStartKeepsDeadlines(s: System, p: Probe)
    requires TimedInv(s)
    ensures Deadlines(JsStart(s, p))
  {
    if s.logic.mode.Off? {
      FirstStartKeepsDeadlines(s, p);
    }
  }

  lemma FirstStartKeepsDeadlines(s: System, p: Probe)
    requires Deadlines(s) && s.logic.mode.Off? && Outstanding(s.logic, s.world.bridge.pending)
    ensures Deadlines(JsStart(s, p))
  {
    var l, b, c := s.logic, s.world.bridge, Start(s.world.bridge, SOCKS_PORT, p).bridge;
    StartReports(b, SOCKS_PORT, p);
    StartKeepsClock(b, SOCKS_PORT, p);
    QueueAfter(Starting, l.queue, b, c);
    var t := JsStart(s, p).logic;
    assert t.waiting == l.waiting + [|l.issued|] && t.issued == l.issued + [b.now];
    assert Recent(t.waiting, t.issued, b.now);
    assert !HasDrain(t.queue) ==> Covered(t.waiting, t.issued, c.startedAt);
  }

  lemma JsStopKeepsDeadlines(s: System)
    requires TimedInv(s)
    ensures Deadlines(JsStop(s))
  {
    var l, b := s.logic, s.world.bridge;
    StopReports(b);
    ActKeepsClock(b, StopCalled);
    QueueAfter(l.mode, l.queue, b, Stop(b));
    var q := BridgeDoes(s, StopCalled).logic.queue;
    if HasDrain(q) {
      var k :| 0 <= k < |q| && q[k].Drain?;
      assert (q + [StopDone(l.stops)])[k].Drain?;
    }
  }

  lemma RunHeadKeepsDeadlines(s: System)
    requires TimedInv(s) && s.logic.queue != []
    ensures Deadlines(s.(logic := RunHead(s.logic)))
  {
    HeadRemoved(s.logic.mode, s.logic.queue, s.logic.stopped);
  }

  lemma NextKeepsTimedInv(s: System, a: Action)
    requires TimedInv(s) && Prompt(s, a)
    ensures TimedInv(Next(s, a))
  {
    NextKeepsInv(s, a);
    match a {
      case StartPressed(p) =>
        StepOnTime(s.world, StartCalled(SOCKS_PORT, p));
        JsStartKeepsDeadlines(s, p);
      case StopPressed =>
        StepOnTime(s.world, StopCalled);
        JsStopKeepsDeadlines(s);
      case MainBlockRun => RunHeadKeepsDeadlines(s);
      case BridgeActed(e) =>
        StepOnTime(s.world, e);
        BridgeEventKeepsDeadlines(s, e);
    }
  }

  lemma {:induction false} AfterKeepsTimedInv(s: System, acts: seq<Action>)
    requires TimedInv(s) && PromptRun(s, acts)
    ensures Interleaving(s, acts) && TimedInv(After(s, acts))
    decreases acts
  {
    PromptIsInterleaving(s, acts);
    if acts != [] {
      NextKeepsTimedInv(s, acts[0]);
      AfterKeepsTimedInv(Next(s, acts[0]), acts[1..]);
    }
  }

  /** If `promise` was issued it is settled, or listed and issued at most SETTLE_MS ago. */
  ghost predicate MeetsDeadline(s: System, promise: nat) {
    promise < |s.logic.issued| && promise !in Promises(s.logic.settled) ==>
      promise in s.logic.waiting && s.world.bridge.now <= s.logic.issued[promise] + SETTLE_MS
  }

  /**
   However start(), stop(), Tor and the main queue interleave, a start promise
   that is still unsettled was issued at most 77,250 ms ago.
   */
  lemma PromiseDeadline(acts: seq<Action>, promise: nat)
    requires PromptRun(FRESH, acts)
    ensures Interleaving(FRESH, acts) && MeetsDeadline(After(FRESH, acts), promise)
  {
    FreshTimedInv();
    DeadlineFrom(FRESH, acts, promise);
  }

  lemma DeadlineFrom(s: System, acts: seq<Action>, promise: nat)
    requires TimedInv(s) && PromptRun(s, acts)
    ensures Interleaving(s, acts) && MeetsDeadline(After(s, acts), promise)
  {
    AfterKeepsTimedInv(s, acts);
    UnsettledIsRecent(After(s, acts), promise);
  }

  lemma FreshTimedInv()
    ensures TimedInv(FRESH)
  {
    FreshInv();
  }

  lemma UnsettledIsRecent(s: System, promise: nat)
    requires TimedInv(s)
    ensures MeetsDeadline(s, promise)
  {
    var l := s.logic;
    assert Recent(l.waiting, l.issued, s.world.bridge.now);
    ListedOrSettled(l.settled, l.waiting, |l.issued|, promise);
    if promise in l.waiting {
      var k :| 0 <= k < |l.waiting| && l.waiting[k] == promise;
    }
  }

  lemma ListedOrSettled(settled: seq<Settlement>, waiting: seq<nat>, issued: nat, promise: nat)
    requires InOrder(settled, waiting, issued)
    ensures promise < issued && promise !in Promises(settled) ==> promise in waiting
  {
    if promise < issued {
      assert (Promises(settled) + waiting)[promise] == promise;
    }
  }
}
