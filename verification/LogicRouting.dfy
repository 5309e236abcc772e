/** Which bridge call answers which start promise, and when a promise gets another call's outcome. */
module LogicRouting {
  import opened Wrappers
  import opened BridgeModel
  import opened BridgeSafety
  import opened BridgeReports
  import opened LogicModel
  import opened LogicSafety

  // ---------------------------------------------------------------- the call a promise joins

  /** A promise makes its own call when it finds the state off, and joins the one before it while starting. */
  function Joining(s: System, joins: seq<Option<nat>>, a: Action): seq<Option<nat>> {
    if !a.StartPressed? then joins
    else
      match s.logic.mode
      case On => joins + [None]
      case Starting => joins + [if joins == [] then None else joins[|joins| - 1]]
      case Off => joins + [Some(s.world.bridge.calls)]
  }

  /** `joins[p]` after the run: the call start promise p joined, if any. */
  function Joined(s: System, joins: seq<Option<nat>>, acts: seq<Action>): seq<Option<nat>>
    requires Interleaving(s, acts)
    decreases acts
  {
    if acts == [] then joins else Joined(Next(s, acts[0]), Joining(s, joins, acts[0]), acts[1..])
  }

  /** start() finds the state off although earlier promises are still listed. */
  predicate Overlaps(s: System, a: Action) {
    a.StartPressed? && s.logic.mode.Off? && s.logic.waiting != []
  }

  predicate NeverOverlaps(s: System, acts: seq<Action>)
    requires Interleaving(s, acts)
    decreases acts
  {
    acts == [] || (!Overlaps(s, acts[0]) && NeverOverlaps(Next(s, acts[0]), acts[1..]))
  }

  function Outcomes(queue: seq<Block>): seq<Outcome> {
    if queue == [] then []
    else (if queue[0].Drain? then [queue[0].outcome] else []) + Outcomes(queue[1..])
  }

  /** The drain that runs next will answer a listed promise although it was queued for another call. */
  ghost predicate Misrouted(s: System, joins: seq<Option<nat>>) {
    var completed, n := s.world.bridge.completed, |Outcomes(s.logic.queue)|;
    && 0 < n <= |completed|
    && exists k :: 0 <= k < |s.logic.waiting| && s.logic.waiting[k] < |joins|
                   && joins[s.logic.waiting[k]] != Some(completed[|completed| - n].call)
  }

  ghost predicate NeverMisrouted(s: System, joins: seq<Option<nat>>, acts: seq<Action>)
    requires Interleaving(s, acts)
    decreases acts
  {
    !Misrouted(s, joins) && (acts == [] || NeverMisrouted(Next(s, acts[0]), Joining(s, joins, acts[0]), acts[1..]))
  }

  // ---------------------------------------------------------------- what one event does to the calls

  /** The event left the calls alone, or completed the pending one. */
  ghost predicate Ends(b: Bridge, c: Bridge) {
    || (c.completed == b.completed && c.pending == b.pending)
    || (b.pending.Some? && c.pending.None? && Grown(b, c) && c.completed[|b.completed|].call == b.pending.value)
  }

  /** The start call is in flight, or was completed at once. */
  ghost predicate Begins(b: Bridge, c: Bridge) {
    || (c.completed == b.completed && c.pending == Some(b.calls))
    || (c.pending.None? && Grown(b, c) && c.completed[|b.completed|].call == b.calls)
  }

  lemma GrownCalls(b: Bridge, c: Bridge)
    requires Grown(b, c)
    ensures Calls(c.completed) == Calls(b.completed) + [c.completed[|b.completed|].call]
  {
    assert c.completed == b.completed + [c.completed[|b.completed|]];
  }

  lemma NotBefore(s: seq<nat>, x: nat)
    requires Distinct(s + [x])
    ensures x !in s
  {
    forall k | 0 <= k < |s|
      ensures s[k] != x
    {
      assert (s + [x])[k] == s[k] && (s + [x])[|s|] == x;
    }
  }

  /** Counting calls and completions leaves no other possibility. */
  lemma ConservedEnds(b: Bridge, c: Bridge)
    requires Conserved(b.completed, b.calls, b.pending) && Conserved(c.completed, c.calls, c.pending) && Reports(b, c)
    ensures c.calls == b.calls ==> Ends(b, c)
    ensures c.calls == b.calls + 1 && b.pending.None? ==> Begins(b, c)
  {
    if Grown(b, c) {
      GrownCalls(b, c);
      var x := c.completed[|b.completed|].call;
      assert Calls(c.completed)[|b.completed|] == x;
      assert x in Calls(c.completed);
      NotBefore(Calls(b.completed), x);
    } else if c.pending.Some? {
      assert c.pending.value !in Calls(b.completed);
    }
  }

  lemma EventEnds(w: World, e: Event)
    requires WorldInv(w) && Enabled(w, e)
    ensures !e.StartCalled? ==> Ends(w.bridge, Act(w.bridge, e).bridge)
    ensures e.StartCalled? && w.bridge.pending.None? ==> Begins(w.bridge, Act(w.bridge, e).bridge)
  {
    StepKeepsInv(w, e);
    ActReports(w.bridge, e);
    ActCounts(w.bridge, e);
    ConservedEnds(w.bridge, Act(w.bridge, e).bridge);
  }

  // ---------------------------------------------------------------- one call at a time

  /** Call `c` is the one in flight, or the one whose drain is the only one queued. */
  ghost predicate Carries(b: Bridge, outs: seq<Outcome>, c: nat) {
    if b.pending.Some? then b.pending.value == c && outs == []
    else b.completed != [] && b.completed[|b.completed| - 1].call == c && outs == [b.completed[|b.completed| - 1].outcome]
  }

  ghost predicate AllJoined(waiting: seq<nat>, joins: seq<Option<nat>>, c: nat) {
    forall k :: 0 <= k < |waiting| ==> waiting[k] < |joins| && joins[waiting[k]] == Some(c)
  }

  /** Every listed promise joined the one call outstanding; with none listed, none is. */
  ghost predicate OneAtATime(waiting: seq<nat>, starting: bool, outs: seq<Outcome>, b: Bridge, joins: seq<Option<nat>>) {
    if waiting == [] then outs == [] && b.pending.None? && !starting
    else exists c: nat :: Carries(b, outs, c) && AllJoined(waiting, joins, c)
  }

  function AnswerOf(o: Outcome): Answer {
    match o
    case Ready(_) => Status(On)
    case Failed(f) => Rejected(f)
  }

  /** The promise was answered with the outcome of the call it joined, or found Tor on. */
  ghost predicate Right(st: Settlement, joins: seq<Option<nat>>, completed: seq<Completion>) {
    && st.promise < |joins|
    && match joins[st.promise]
       case None => st.answer == Status(On)
       case Some(c) => exists o :: Completion(c, o) in completed && st.answer == AnswerOf(o)
  }

  ghost predicate AllRight(settled: seq<Settlement>, joins: seq<Option<nat>>, completed: seq<Completion>) {
    forall k :: 0 <= k < |settled| ==> Right(settled[k], joins, completed)
  }

  ghost predicate Routed(s: System, joins: seq<Option<nat>>) {
    var l, b := s.logic, s.world.bridge;
    && |joins| == |l.issued|
    && OneAtATime(l.waiting, l.mode.Starting?, Outcomes(l.queue), b, joins)
    && AllRight(l.settled, joins, b.completed)
  }

  lemma {:induction false} OutcomesConcat(q: seq<Block>, r: seq<Block>)
    ensures Outcomes(q + r) == Outcomes(q) + Outcomes(r)
    decreases q
  {
    if q == [] {
      assert q + r == r;
    } else {
      assert (q + r)[0] == q[0] && (q + r)[1..] == q[1..] + r;
      OutcomesConcat(q[1..], r);
      var head := if q[0].Drain? then [q[0].outcome] else [];
      assert head + (Outcomes(q[1..]) + Outcomes(r)) == (head + Outcomes(q[1..])) + Outcomes(r);
    }
  }

  /** A bridge event queues the outcome of the call it completed. */
  lemma OutcomesQueued(q: seq<Block>, b: Bridge, c: Bridge)
    requires Reports(b, c)
    ensures var r := q + Drains(Fresh(b.completed, c.completed));
            Outcomes(r) == Outcomes(q) + (if Grown(b, c) then [c.completed[|b.completed|].outcome] else [])
  {
    var news := Drains(Fresh(b.completed, c.completed));
    OutcomesConcat(q, news);
    if Grown(b, c) {
      assert news == [Drain(c.completed[|b.completed|].outcome)];
      assert Outcomes(news) == [c.completed[|b.completed|].outcome] + Outcomes([]);
    } else {
      assert news == [];
    }
  }

  /** Right answers stay right as more promises and completions come. */
  lemma RightStays(settled: seq<Settlement>, joins: seq<Option<nat>>, more: seq<Option<nat>>, before: seq<Completion>, after: seq<Completion>)
    requires AllRight(settled, joins, before) && joins <= more && before <= after
    ensures AllRight(settled, more, after)
  {
    forall k | 0 <= k < |settled|
      ensures Right(settled[k], more, after)
    {
      assert Right(settled[k], joins, before);
    }
  }

  lemma EndsKeepsOne(waiting: seq<nat>, starting: bool, outs: seq<Outcome>, b: Bridge, c: Bridge, joins: seq<Option<nat>>)
    requires OneAtATime(waiting, starting, outs, b, joins) && Ends(b, c)
    ensures OneAtATime(waiting, starting, outs + (if Grown(b, c) then [c.completed[|b.completed|].outcome] else []), c, joins)
  {
    var rest := if Grown(b, c) then [c.completed[|b.completed|].outcome] else [];
    if waiting != [] {
      var call: nat :| Carries(b, outs, call) && AllJoined(waiting, joins, call);
      assert Carries(c, outs + rest, call);
    }
  }

  lemma BridgeEventKeepsRouted(s: System, joins: seq<Option<nat>>, e: Event)
    requires SystemInv(s) && Routed(s, joins) && Enabled(s.world, e) && !e.StartCalled?
    ensures Routed(BridgeDoes(s, e), joins)
  {
    var l, b, c := s.logic, s.world.bridge, Act(s.world.bridge, e).bridge;
    ActReports(b, e);
    EventEnds(s.world, e);
    OutcomesQueued(l.queue, b, c);
    EndsKeepsOne(l.waiting, l.mode.Starting?, Outcomes(l.queue), b, c, joins);
    RightStays(l.settled, joins, joins, b.completed, c.completed);
  }

  lemma StopKeepsRouted(s: System, joins: seq<Option<nat>>)
    requires SystemInv(s) && Routed(s, joins)
    ensures Routed(JsStop(s), joins)
  {
    BridgeEventKeepsRouted(s, joins, StopCalled);
    OutcomesConcat(BridgeDoes(s, StopCalled).logic.queue, [StopDone(s.logic.stops)]);
    assert Outcomes([StopDone(s.logic.stops)]) == [];
  }

  /** A queued drain is the outcome of the call the listed promises joined. */
  lemma QueuedCall(waiting: seq<nat>, starting: bool, outs: seq<Outcome>, b: Bridge, joins: seq<Option<nat>>) returns (call: nat)
    requires OneAtATime(waiting, starting, outs, b, joins) && outs != []
    ensures AllJoined(waiting, joins, call) && b.pending.None? && |outs| == 1 && Completion(call, outs[0]) in b.completed
  {
    call :| Carries(b, outs, call) && AllJoined(waiting, joins, call);
    assert b.completed[|b.completed| - 1] == Completion(call, outs[0]);
  }

  lemma HeadKeepsRouted(s: System, joins: seq<Option<nat>>)
    requires SystemInv(s) && Routed(s, joins) && s.logic.queue != []
    ensures Routed(s.(logic := RunHead(s.logic)), joins)
  {
    var l, b := s.logic, s.world.bridge;
    assert Outcomes(l.queue) == (if l.queue[0].Drain? then [l.queue[0].outcome] else []) + Outcomes(l.queue[1..]);
    if l.queue[0].Drain? {
      var call := QueuedCall(l.waiting, l.mode.Starting?, Outcomes(l.queue), b, joins);
      DrainAnswers(l.settled, l.waiting, joins, b.completed, Completion(call, l.queue[0].outcome));
    }
  }

  lemma DrainAnswers(settled: seq<Settlement>, waiting: seq<nat>, joins: seq<Option<nat>>, completed: seq<Completion>, c: Completion)
    requires AllRight(settled, joins, completed) && AllJoined(waiting, joins, c.call) && c in completed
    ensures AllRight(settled + Settlements(waiting, AnswerOf(c.outcome)), joins, completed)
  {
    forall k | 0 <= k < |waiting|
      ensures Right(Settlement(waiting[k], AnswerOf(c.outcome)), joins, completed)
    {
      assert c == Completion(c.call, c.outcome);
    }
  }

  lemma StartKeepsRouted(s: System, joins: seq<Option<nat>>, p: Probe)
    requires SystemInv(s) && Routed(s, joins) && !Overlaps(s, StartPressed(p))
    ensures Routed(JsStart(s, p), Joining(s, joins, StartPressed(p)))
  {
    var l, b, n := s.logic, s.world.bridge, |s.logic.issued|;
    var more := Joining(s, joins, StartPressed(p));
    RightStays(l.settled, joins, more, b.completed, b.completed);
    match l.mode {
      case On => assert Right(Settlement(n, Status(On)), more, b.completed);
      case Starting =>
        LastListed(l.settled, l.waiting, n);
        JoinsTheOthers(l.waiting, n, Outcomes(l.queue), b, joins, more);
      case Off => FirstKeepsRouted(s, joins, p);
    }
  }

  lemma LastListed(settled: seq<Settlement>, waiting: seq<nat>, issued: nat)
    requires InOrder(settled, waiting, issued) && waiting != []
    ensures waiting[|waiting| - 1] == issued - 1
  {
    assert (Promises(settled) + waiting)[issued - 1] == issued - 1;
  }

  lemma JoinsTheOthers(waiting: seq<nat>, n: nat, outs: seq<Outcome>, b: Bridge, joins: seq<Option<nat>>, more: seq<Option<nat>>)
    requires OneAtATime(waiting, true, outs, b, joins) && n == |joins|
    requires waiting != [] ==> 0 < n && waiting[|waiting| - 1] == n - 1
    requires 0 < n ==> more == joins + [joins[n - 1]]
    ensures OneAtATime(waiting + [n], true, outs, b, more)
  {
    var call: nat :| Carries(b, outs, call) && AllJoined(waiting, joins, call);
    assert joins[waiting[|waiting| - 1]] == Some(call);
    assert AllJoined(waiting + [n], more, call);
  }

  lemma FirstKeepsRouted(s: System, joins: seq<Option<nat>>, p: Probe)
    requires SystemInv(s) && Routed(s, joins) && s.logic.mode.Off? && s.logic.waiting == []
    ensures Routed(JsStart(s, p), joins + [Some(s.world.bridge.calls)])
  {
    var l, b, e := s.logic, s.world.bridge, StartCalled(SOCKS_PORT, p);
    var c := Act(b, e).bridge;
    ActReports(b, e);
    EventEnds(s.world, e);
    OutcomesQueued(l.queue, b, c);
    RightStays(l.settled, joins, joins + [Some(b.calls)], b.completed, c.completed);
    var outs := Outcomes(JsStart(s, p).logic.queue);
    assert Carries(c, outs, b.calls);
    assert AllJoined([|joins|], joins + [Some(b.calls)], b.calls);
    assert l.waiting + [|l.issued|] == [|joins|];
  }

  lemma NextKeepsRouted(s: System, joins: seq<Option<nat>>, a: Action)
    requires SystemInv(s) && Routed(s, joins) && Possible(s, a) && !Overlaps(s, a)
    ensures Routed(Next(s, a), Joining(s, joins, a))
  {
    match a {
      case StartPressed(p) => StartKeepsRouted(s, joins, p);
      case StopPressed => StopKeepsRouted(s, joins);
      case MainBlockRun => HeadKeepsRouted(s, joins);
      case BridgeActed(e) => BridgeEventKeepsRouted(s, joins, e);
    }
  }

  // ---------------------------------------------------------------- exactly when it goes wrong

  lemma RoutedIsNotMisrouted(s: System, joins: seq<Option<nat>>)
    requires Routed(s, joins)
    ensures !Misrouted(s, joins)
  {
  }

  /** Two promises of different calls are listed, and the drain of one of the calls runs next. */
  lemma TwoCallsListed(s: System, joins: seq<Option<nat>>, c1: nat, c2: nat)
    requires 0 < |Outcomes(s.logic.queue)| <= |s.world.bridge.completed|
    requires |s.logic.waiting| >= 2 && c1 != c2
    requires s.logic.waiting[0] < |joins| && joins[s.logic.waiting[0]] == Some(c1)
    requires var last := s.logic.waiting[|s.logic.waiting| - 1]; last < |joins| && joins[last] == Some(c2)
    ensures Misrouted(s, joins)
  {
  }

  /** An overlapping start leaves a queued drain that will answer somebody with another call's outcome. */
  lemma OverlapMisroutes(s: System, joins: seq<Option<nat>>, p: Probe)
    requires SystemInv(s) && Routed(s, joins) && Overlaps(s, StartPressed(p))
    ensures Misrouted(JsStart(s, p), Joining(s, joins, StartPressed(p)))
  {
    var l, b, e := s.logic, s.world.bridge, StartCalled(SOCKS_PORT, p);
    var c, t := Act(b, e).bridge, JsStart(s, p);
    var call: nat :| Carries(b, Outcomes(l.queue), call) && AllJoined(l.waiting, joins, call);
    CarriedIsEarlier(b, Outcomes(l.queue), call);
    ActReports(b, e);
    OutcomesQueued(l.queue, b, c);
    assert Outcomes(t.logic.queue) == Outcomes(l.queue) + (if Grown(b, c) then [c.completed[|b.completed|].outcome] else []);
    assert b.pending.Some? ==> Grown(b, c);
    assert t.logic.waiting == l.waiting + [|joins|];
    TwoCallsListed(t, joins + [Some(b.calls)], call, b.calls);
  }

  lemma CarriedIsEarlier(b: Bridge, outs: seq<Outcome>, call: nat)
    requires Conserved(b.completed, b.calls, b.pending) && Carries(b, outs, call)
    ensures call < b.calls && |outs| <= |b.completed|
  {
    if b.pending.None? {
      assert Calls(b.completed)[|b.completed| - 1] == call;
      assert call in Calls(b.completed);
    }
  }

  lemma {:induction false} CoalescingFrom(s: System, joins: seq<Option<nat>>, acts: seq<Action>)
    requires SystemInv(s) && Routed(s, joins) && Interleaving(s, acts)
    ensures NeverMisrouted(s, joins, acts) <==> NeverOverlaps(s, acts)
    ensures NeverOverlaps(s, acts) ==> Routed(After(s, acts), Joined(s, joins, acts))
    decreases acts
  {
    RoutedIsNotMisrouted(s, joins);
    if acts != [] {
      NextKeepsInv(s, acts[0]);
      if Overlaps(s, acts[0]) {
        OverlapMisroutes(s, joins, acts[0].probe);
      } else {
        NextKeepsRouted(s, joins, acts[0]);
        CoalescingFrom(Next(s, acts[0]), Joining(s, joins, acts[0]), acts[1..]);
      }
    }
  }

  /**
   A drain is never about to answer a promise with the outcome of a call it did
   not join in exactly the runs where no start() finds the state off with earlier
   promises still listed -- which takes a stop() block that runs after a restart.
   */
  lemma CoalescingExactly(acts: seq<Action>)
    requires Interleaving(FRESH, acts)
    ensures NeverMisrouted(FRESH, [], acts) <==> NeverOverlaps(FRESH, acts)
  {
    FreshInv();
    CoalescingFrom(FRESH, [], acts);
  }

  /** In those runs every settled promise has the outcome of the call it joined, or found Tor on. */
  lemma PromiseGetsItsAttempt(acts: seq<Action>)
    requires Interleaving(FRESH, acts) && NeverOverlaps(FRESH, acts)
    ensures var s := After(FRESH, acts);
            AllRight(s.logic.settled, Joined(FRESH, [], acts), s.world.bridge.completed)
  {
    FreshInv();
    CoalescingFrom(FRESH, [], acts);
  }

  // ---------------------------------------------------------------- the bridge's own guard

  /** start() finds the state off while the bridge has an attempt in flight. */
  predicate Clashes(s: System, a: Action) {
    a.StartPressed? && s.logic.mode.Off? && s.world.bridge.pending.Some?
  }

  predicate EverClashes(s: System, acts: seq<Action>)
    requires Interleaving(s, acts)
    decreases acts
  {
    acts != [] && (Clashes(s, acts[0]) || EverClashes(Next(s, acts[0]), acts[1..]))
  }

  predicate Refused(completed: seq<Completion>) {
    exists k :: 0 <= k < |completed| && completed[k].outcome == Failed(AlreadyInFlight)
  }

  lemma EventRefuses(w: World, e: Event)
    requires WorldInv(w)
    ensures Refused(Act(w.bridge, e).bridge.completed) <==>
              Refused(w.bridge.completed) || (e.StartCalled? && w.bridge.pending.Some?)
  {
    var b, c := w.bridge, Act(w.bridge, e).bridge;
    ActReports(b, e);
    assert b.completed <= c.completed;
    if e.StartCalled? && b.pending.Some? {
      assert c.completed[|b.completed|].outcome == Failed(AlreadyInFlight);
    } else {
      OnlyOverlapRefuses(b, e);
    }
    if Refused(b.completed) {
      var k :| 0 <= k < |b.completed| && b.completed[k].outcome == Failed(AlreadyInFlight);
      assert c.completed[k].outcome == Failed(AlreadyInFlight);
    }
  }

  lemma {:induction false} RefusedFrom(s: System, acts: seq<Action>)
    requires SystemInv(s) && Interleaving(s, acts)
    ensures Refused(After(s, acts).world.bridge.completed) <==> Refused(s.world.bridge.completed) || EverClashes(s, acts)
    decreases acts
  {
    if acts != [] {
      NextKeepsInv(s, acts[0]);
      match acts[0] {
        case StartPressed(p) => EventRefuses(s.world, StartCalled(SOCKS_PORT, p));
        case StopPressed => EventRefuses(s.world, StopCalled);
        case MainBlockRun =>
        case BridgeActed(e) => EventRefuses(s.world, e);
      }
      RefusedFrom(Next(s, acts[0]), acts[1..]);
    }
  }

  /**
   The bridge's guard against a second attempt, which coalescing was to make
   unreachable, refuses a call in exactly the runs where a start() finds the
   state off while an attempt is in flight.
   */
  lemma GuardIsReachedExactly(acts: seq<Action>)
    requires Interleaving(FRESH, acts)
    ensures Refused(After(FRESH, acts).world.bridge.completed) <==> EverClashes(FRESH, acts)
  {
    FreshInv();
    RefusedFrom(FRESH, acts);
  }

  const NO_PORT_FILE := Probe(true, false, false, false, false, NoCookie)

  /** The state is off and nothing is queued but, perhaps, the block of a stop(). */
  ghost predicate Idle(s: System) {
    s.logic.mode.Off? && !s.world.bridge.running && s.world.bridge.pending.None?
  }

  ghost predicate InFlight(s: System) {
    s.logic.mode.Starting? && !s.world.bridge.running && s.world.bridge.pending.Some?
  }

  lemma IdleStarts(s: System)
    requires Idle(s)
    ensures var t := Next(s, StartPressed(NO_PORT_FILE)); InFlight(t) && t.logic.queue == s.logic.queue
  {
    var b := s.world.bridge;
    var b1 := if b.hasThread then Begun(b, SOCKS_PORT) else Launched(Begun(b, SOCKS_PORT));
    assert Start(b, SOCKS_PORT, NO_PORT_FILE) == Poll(b1, b.gen + 1, 0, NO_PORT_FILE);
    assert b1.completed == b.completed;
    assert Drains([]) == [];
  }

  lemma InFlightStops(s: System)
    requires InFlight(s) && s.logic.queue == []
    ensures var t := Next(s, StopPressed);
            && !t.world.bridge.running && t.world.bridge.pending.None?
            && t.logic.queue == [Drain(Failed(Stopped)), StopDone(s.logic.stops)]
  {
    var b, c := s.world.bridge, Stop(s.world.bridge);
    assert c.completed == b.completed + [Completion(b.pending.value, Failed(Stopped))];
    assert Drains(Fresh(b.completed, c.completed)) == [Drain(Failed(Stopped))];
  }

  const RESTART: Action := StartPressed(NO_PORT_FILE)

  /** start(), stop() and the drain, then a restart before the block of stop() runs, and one after. */
  const RESTARTED := [RESTART] + ([StopPressed] + ([MainBlockRun] + ([RESTART] + ([MainBlockRun] + [RESTART]))))

  /** A stop() block that runs after a restart lets the next start() clash with it. */
  lemma ClashIsReachable()
    ensures Interleaving(FRESH, RESTARTED) && EverClashes(FRESH, RESTARTED) && !NeverOverlaps(FRESH, RESTARTED)
  {
    IdleStarts(FRESH);
    var s1 := Next(FRESH, RESTART);
    InFlightStops(s1);
    var s2 := Next(s1, StopPressed);
    var s3 := Next(s2, MainBlockRun);
    IdleStarts(s3);
    var s4 := Next(s3, RESTART);
    assert s4.logic.queue == [StopDone(s1.logic.stops)];
    StopOvertaken(s4);
    ClashLater(s3, RESTART, [MainBlockRun] + [RESTART]);
    ClashLater(s2, MainBlockRun, [RESTART] + ([MainBlockRun] + [RESTART]));
    ClashLater(s1, StopPressed, [MainBlockRun] + ([RESTART] + ([MainBlockRun] + [RESTART])));
    ClashLater(FRESH, RESTART, [StopPressed] + ([MainBlockRun] + ([RESTART] + ([MainBlockRun] + [RESTART]))));
  }

  lemma StopOvertaken(s: System)
    requires InFlight(s) && s.logic.waiting != [] && |s.logic.queue| == 1 && s.logic.queue[0].StopDone?
    ensures var acts := [MainBlockRun] + [RESTART];
            Interleaving(s, acts) && EverClashes(s, acts) && !NeverOverlaps(s, acts)
  {
    var t := Next(s, MainBlockRun);
    assert [RESTART][1..] == [];
    assert Interleaving(Next(t, RESTART), []);
    assert Clashes(t, RESTART) && Overlaps(t, RESTART);
    ClashLater(s, MainBlockRun, [RESTART]);
  }

  lemma ClashLater(s: System, a: Action, acts: seq<Action>)
    requires Possible(s, a) && Interleaving(Next(s, a), acts)
    requires EverClashes(Next(s, a), acts) && !NeverOverlaps(Next(s, a), acts)
    ensures Interleaving(s, [a] + acts) && EverClashes(s, [a] + acts) && !NeverOverlaps(s, [a] + acts)
  {
    assert ([a] + acts)[0] == a && ([a] + acts)[1..] == acts;
  }
}
