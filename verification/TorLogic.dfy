/**
 The Swift class AegisTorLogic, start/stop part, holding its AegisTorBridge.
 Each entry point is proved to be one step of `LogicModel` and to keep the
 invariant of `LogicSafety`.
 */
module TorLogic {
  import opened BridgeModel
  import opened BridgeReports
  import opened LogicModel
  import opened LogicSafety
  import TorBridge

  class AegisTorLogic {
    const bridge: TorBridge.AegisTorBridge
    var state: Mode
    var pendingStartResolvers: seq<nat>
    var mainQueue: seq<Block>
    // What JavaScript has asked for and been told.
    var issued: seq<nat>
    var settled: seq<Settlement>
    var stops: nat
    var stopped: seq<nat>

    function Fields(): Logic
      reads this
    {
      Logic(state, pendingStartResolvers, mainQueue, issued, settled, stops, stopped)
    }

    ghost function Sys(): System
      reads this, bridge
    {
      System(Fields(), bridge.State())
    }

    ghost predicate Valid()
      reads this, bridge
    {
      SystemInv(Sys())
    }

    constructor ()
      ensures Valid() && Sys() == FRESH && fresh(bridge)
    {
      bridge := new TorBridge.AegisTorBridge();
      state, pendingStartResolvers, mainQueue := Off, [], [];
      issued, settled, stops, stopped := [], [], 0, [];
      new;
      FreshInv();
    }

    /** The completion block: each call queues one drain on the main queue. */
    method QueueDrains(before: nat)
      requires before <= |bridge.completed|
      modifies this`mainQueue
      ensures Fields() == old(Fields()).(queue := old(mainQueue) + Drains(bridge.completed[before..]))
    {
      mainQueue := mainQueue + Drains(bridge.completed[before..]);
    }

    method BridgeHandles(e: Event)
      requires bridge.Valid() && Enabled(bridge.State(), e)
      modifies this`mainQueue, bridge
      ensures Sys() == BridgeDoes(old(Sys()), e)
    {
      var before := |bridge.completed|;
      ActReports(bridge.Fields(), e);
      bridge.Handle(e);
      QueueDrains(before);
    }

    method Resolve(promise: nat, a: Answer)
      modifies this`settled
      ensures settled == old(settled) + [Settlement(promise, a)]
    {
      settled := settled + [Settlement(promise, a)];
    }

    method Start(p: Probe)
      requires Valid()
      modifies this, bridge
      ensures Valid() && Sys() == Next(old(Sys()), StartPressed(p))
    {
      NextKeepsInv(Sys(), StartPressed(p));
      if state == On {
        Resolve(|issued|, Status(state));
        issued := issued + [bridge.now];
        return;
      }
      var first := state == Off;
      ListResolver();
      if first {
        BridgeHandles(StartCalled(SOCKS_PORT, p));
      }
    }

    /** A caller joins the resolvers; the first one also moves the state to starting. */
    method ListResolver()
      requires state != On
      modifies this
      ensures Fields() == old(Fields()).(issued := old(issued) + [bridge.now], mode := Starting,
                                         waiting := old(pendingStartResolvers) + [|old(issued)|])
    {
      pendingStartResolvers := pendingStartResolvers + [|issued|];
      issued := issued + [bridge.now];
      state := Starting;
    }

    method Stop()
      requires Valid()
      modifies this, bridge
      ensures Valid() && Sys() == Next(old(Sys()), StopPressed)
    {
      NextKeepsInv(Sys(), StopPressed);
      BridgeHandles(StopCalled);
      mainQueue := mainQueue + [StopDone(stops)];
      stops := stops + 1;
    }

    /** The main queue runs its oldest block. */
    method RunMainBlock()
      requires Valid() && mainQueue != []
      modifies this
      ensures Valid() && Sys() == Next(old(Sys()), MainBlockRun)
    {
      NextKeepsInv(Sys(), MainBlockRun);
      var block := mainQueue[0];
      mainQueue := mainQueue[1..];
      match block {
        case Drain(outcome) =>
          var resolvers := pendingStartResolvers;
          pendingStartResolvers := [];
          if outcome.Ready? {
            state := On;
            AnswerAll(resolvers, Status(state));
          } else {
            state := Off;
            AnswerAll(resolvers, Rejected(outcome.failure));
          }
        case StopDone(promise) =>
          state := Off;
          stopped := stopped + [promise];
      }
    }

    method AnswerAll(resolvers: seq<nat>, a: Answer)
      modifies this`settled
      ensures settled == old(settled) + Settlements(resolvers, a)
    {
      for i := 0 to |resolvers|
        invariant settled == old(settled) + Settlements(resolvers, a)[..i]
      {
        Resolve(resolvers[i], a);
      }
    }

    /** A block, callback or tick that reaches the bridge from the system. */
    method SystemEvent(e: Event)
      requires Valid() && Possible(Sys(), BridgeActed(e))
      modifies this, bridge
      ensures Valid() && Sys() == Next(old(Sys()), BridgeActed(e))
    {
      NextKeepsInv(Sys(), BridgeActed(e));
      BridgeHandles(e);
    }
  }
}
