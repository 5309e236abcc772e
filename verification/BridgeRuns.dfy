/** Theorems about whole runs of the bridge: inert leftovers, a circuit that stays up, one thread. */
module BridgeRuns {
  import opened Wrappers
  import opened BridgeModel
  import opened BridgeSafety

  // ---------------------------------------------------------------- stale blocks are inert

  /** Equal except for blocks captured by generations older than the current one. */
  ghost predicate SameButStale(w: World, v: World) {
    && w.bridge == v.bridge
    && forall t: Timer :: w.bridge.gen <= t.gen ==> w.timers[t] == v.timers[t]
  }

  /** A block of an abandoned attempt, about to run. */
  predicate Stale(w: World, e: Event) {
    e.TimerFired? && e.timer.gen < w.bridge.gen
  }

  /** The events of a run without the firings that were stale when they happened. */
  function EraseStale(w: World, es: seq<Event>): seq<Event>
    decreases es
  {
    if es == [] then []
    else
      var rest := EraseStale(Step(w, es[0]), es[1..]);
      if Stale(w, es[0]) then rest else [es[0]] + rest
  }

  lemma StepAgrees(w: World, v: World, e: Event)
    requires SameButStale(w, v)
    ensures SameButStale(Step(w, e), Step(v, e))
    ensures Enabled(w, e) && !Stale(w, e) ==> Enabled(v, e)
  {
    ActMonotone(w.bridge, e);
  }

  /** One stale firing changes nothing but the bag of armed blocks it leaves. */
  lemma StaleStepStutters(w: World, e: Event)
    requires WorldInv(w) && Enabled(w, e) && Stale(w, e)
    ensures Step(w, e) == w.(timers := w.timers - multiset{e.timer})
    ensures SameButStale(Step(w, e), w)
  {
  }

  /**
   Erasing every stale firing from a legal run gives a legal run that ends in
   the same state: same fields, same completions, same live blocks.
   */
  lemma {:induction false} StaleFiringsAreInert(w: World, v: World, es: seq<Event>)
    requires WorldInv(w) && Legal(w, es) && SameButStale(w, v)
    ensures Legal(v, EraseStale(w, es))
    ensures SameButStale(Run(w, es), Run(v, EraseStale(w, es)))
    decreases es
  {
    if es != [] {
      var e, w1 := es[0], Step(w, es[0]);
      StepKeepsInv(w, e);
      if Stale(w, e) {
        StaleStepStutters(w, e);
        StaleFiringsAreInert(w1, v, es[1..]);
      } else {
        StepAgrees(w, v, e);
        StaleFiringsAreInert(w1, Step(v, e), es[1..]);
        assert EraseStale(w, es)[1..] == EraseStale(w1, es[1..]);
      }
    }
  }

  // ---------------------------------------------------------------- a late circuit is kept

  /** No stop() among the events. */
  predicate NeverStopped(es: seq<Event>) {
    forall k :: 0 <= k < |es| ==> !es[k].StopCalled?
  }

  lemma RunningSurvives(b: Bridge, e: Event)
    requires b.running && b.pending.None? && !e.StopCalled?
    ensures Act(b, e).bridge.running && Act(b, e).bridge.pending.None?
  {
    match e {
      case StartCalled(_, _) =>
      case TimerFired(_, _) =>
      case _ =>
    }
  }

  /**
   Once a circuit is up, with or without an attempt waiting for it, Tor stays
   usable until a stop: every later start completes at once with its own port,
   begins no attempt, and arms nothing.
   */
  lemma {:induction false} CircuitLastsUntilStop(w: World, es: seq<Event>, port: int, p: Probe)
    requires w.bridge.running && w.bridge.pending.None? && NeverStopped(es)
    ensures var c := Run(w, es).bridge;
            Start(c, port, p)
            == Effect(c.(calls := c.calls + 1, completed := c.completed + [Completion(c.calls, Ready(port))]), None)
    decreases es
  {
    if es != [] {
      RunningSurvives(w.bridge, es[0]);
      CircuitLastsUntilStop(Step(w, es[0]), es[1..], port, p);
    }
  }

  /** A circuit that lands after its attempt was failed makes every start before the next stop succeed. */
  lemma LateCircuitServesLaterStarts(w: World, conn: nat, es: seq<Event>, port: int, p: Probe)
    requires NeverStopped(es)
    ensures var c := Run(Step(w, CircuitReported(conn, true)), es).bridge;
            Start(c, port, p).bridge.completed == c.completed + [Completion(c.calls, Ready(port))]
  {
    CircuitLastsUntilStop(Step(w, CircuitReported(conn, true)), es, port, p);
  }

  // ---------------------------------------------------------------- from the initial state

  /** Whatever the process does, at most one Tor thread is ever allocated. */
  lemma OneThreadPerProcess(es: seq<Event>)
    requires Legal(INITIAL, es)
    ensures Run(INITIAL, es).bridge.threads <= 1
  {
    InitialInv();
    RunKeepsInv(INITIAL, es);
  }

  /** A control connection never has its observers registered twice. */
  lemma ObserversRegisteredOnce(es: seq<Event>, i: nat, j: nat)
    requires Legal(INITIAL, es)
    requires i < j < |Run(INITIAL, es).bridge.observed|
    ensures Run(INITIAL, es).bridge.observed[i] != Run(INITIAL, es).bridge.observed[j]
  {
    InitialInv();
    RunKeepsInv(INITIAL, es);
  }

  /** Start calls are conserved: each is completed exactly once or is the one in flight. */
  lemma AttemptsConserved(es: seq<Event>, call: nat)
    requires Legal(INITIAL, es)
    requires call < Run(INITIAL, es).bridge.calls
    ensures var b := Run(INITIAL, es).bridge;
            && |b.completed| + (if b.pending.Some? then 1 else 0) == b.calls
            && multiset(Calls(b.completed))[call] == (if b.pending == Some(call) then 0 else 1)
            && (b.running ==> b.pending.None?)
  {
    InitialInv();
    RunKeepsInv(INITIAL, es);
    DistinctCount(Calls(Run(INITIAL, es).bridge.completed), call);
  }

  lemma {:induction false} DistinctCount(s: seq<nat>, x: nat)
    requires Distinct(s)
    ensures multiset(s)[x] == if x in s then 1 else 0
    decreases s
  {
    if s != [] {
      var front := s[..|s| - 1];
      assert s == front + [s[|s| - 1]];
      DistinctCount(front, x);
    }
  }

  /**
   The assumption on disconnected connections is needed. Here an AUTHENTICATE
   reply is delivered after stop() released its connection: the unconditional
   assignment leaves the bridge authenticated with no controller and no observers.
   */
  lemma ReplyAfterDisconnectBreaksChain()
    ensures var filled := Probe(true, true, true, true, true, FullCookie);
            var w := Step(Step(INITIAL, StartCalled(1, filled)), StopCalled);
            Auth(0, 1) in w.bridge.auths && !Chain(AuthReply(w.bridge, Auth(0, 1), true).bridge)
  {
  }
}
