/**
 The start/stop half of the Swift class AegisTorLogic: JS promises coalesced on
 top of the bridge, with every state change that follows a bridge callback
 queued on the main dispatch queue.
 */
module LogicModel {
  import opened BridgeModel

  const SOCKS_PORT: int := 39_050

  datatype Mode = Off | Starting | On

  /** A block queued by DispatchQueue.main.async, run in FIFO order. */
  datatype Block =
    | Drain(outcome: Outcome)
    | StopDone(promise: nat)

  datatype Answer = Resolved(mode: Mode, socksPort: int) | Rejected(failure: Failure)

  /** Start promise number `promise` was resolved or rejected. */
  datatype Settlement = Settlement(promise: nat, answer: Answer)

  /** `issued[p]` is the time at which start promise `p` was created. */
  datatype Logic = Logic(
    mode: Mode,
    waiting: seq<nat>,
    queue: seq<Block>,
    issued: seq<nat>,
    settled: seq<Settlement>,
    stops: nat,
    stopped: seq<nat>)

  datatype System = System(logic: Logic, world: World)

  const FRESH: System := System(Logic(Off, [], [], [], [], 0, []), INITIAL)

  function Status(mode: Mode): Answer {
    Resolved(mode, if mode.On? then SOCKS_PORT else 0)
  }

  function Settlements(promises: seq<nat>, a: Answer): seq<Settlement> {
    seq(|promises|, i requires 0 <= i < |promises| => Settlement(promises[i], a))
  }

  function Drains(cs: seq<Completion>): seq<Block> {
    seq(|cs|, i requires 0 <= i < |cs| => Drain(cs[i].outcome))
  }

  /** The completions one bridge event added. */
  function Fresh(before: seq<Completion>, after: seq<Completion>): seq<Completion> {
    if |before| <= |after| then after[|before|..] else []
  }

  /** The bridge handles one event; each completion it calls queues a drain. */
  function BridgeDoes(s: System, e: Event): System {
    var v := Step(s.world, e);
    System(s.logic.(queue := s.logic.queue + Drains(Fresh(s.world.bridge.completed, v.bridge.completed))), v)
  }

  function JsStart(s: System, p: Probe): System {
    var l := s.logic.(issued := s.logic.issued + [s.world.bridge.now]);
    var promise := |s.logic.issued|;
    match s.logic.mode
    case On => s.(logic := l.(settled := l.settled + [Settlement(promise, Status(On))]))
    case Starting => s.(logic := l.(waiting := l.waiting + [promise]))
    case Off =>
      BridgeDoes(s.(logic := l.(waiting := l.waiting + [promise], mode := Starting)), StartCalled(SOCKS_PORT, p))
  }

  function JsStop(s: System): System {
    var s1 := BridgeDoes(s, StopCalled);
    s1.(logic := s1.logic.(queue := s1.logic.queue + [StopDone(s.logic.stops)], stops := s.logic.stops + 1))
  }

  function RunHead(l: Logic): Logic
    requires l.queue != []
  {
    match l.queue[0]
    case Drain(Ready(_)) =>
      l.(queue := l.queue[1..], mode := On, waiting := [], settled := l.settled + Settlements(l.waiting, Status(On)))
    case Drain(Failed(f)) =>
      l.(queue := l.queue[1..], mode := Off, waiting := [], settled := l.settled + Settlements(l.waiting, Rejected(f)))
    case StopDone(promise) =>
      l.(queue := l.queue[1..], mode := Off, stopped := l.stopped + [promise])
  }

  datatype Action =
    | StartPressed(probe: Probe)
    | StopPressed
    | MainBlockRun
    | BridgeActed(event: Event)

  /** The bridge's start and stop are called by this class only. */
  predicate Possible(s: System, a: Action) {
    match a
    case StartPressed(_) => true
    case StopPressed => true
    case MainBlockRun => s.logic.queue != []
    case BridgeActed(e) => !e.StartCalled? && !e.StopCalled? && Enabled(s.world, e)
  }

  function Next(s: System, a: Action): System
    requires Possible(s, a)
  {
    match a
    case StartPressed(p) => JsStart(s, p)
    case StopPressed => JsStop(s)
    case MainBlockRun => s.(logic := RunHead(s.logic))
    case BridgeActed(e) => BridgeDoes(s, e)
  }

  predicate Interleaving(s: System, acts: seq<Action>)
    decreases acts
  {
    acts == [] || (Possible(s, acts[0]) && Interleaving(Next(s, acts[0]), acts[1..]))
  }

  function After(s: System, acts: seq<Action>): System
    requires Interleaving(s, acts)
    decreases acts
  {
    if acts == [] then s else After(Next(s, acts[0]), acts[1..])
  }
}
