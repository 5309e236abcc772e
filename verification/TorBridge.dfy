/**
 The Objective-C object AegisTorBridge. Every method is proved to do what
 `BridgeModel` says, and every event it handles keeps the invariant of
 `BridgeSafety`.
 */
module TorBridge {
  import opened Wrappers
  import opened BridgeModel
  import opened BridgeSafety

  class AegisTorBridge {
    // Properties of the Objective-C class.
    var torThread: bool
    var torConfiguration: bool
    var torController: Option<nat>
    var running: bool
    var controllerAuthed: bool
    var observersAdded: bool
    var boundSocksPort: int
    var attemptGeneration: nat
    var pendingCompletion: Option<nat>
    // The process around it: dispatch queue, control commands, allocations, completions called.
    var now: nat
    var armed: multiset<Timer>
    var inFlight: multiset<Auth>
    var threads: nat
    var connections: nat
    var observed: seq<nat>
    var calls: nat
    var startedAt: nat
    var completed: seq<Completion>

    function Fields(): Bridge
      reads this
    {
      Bridge(torThread, torConfiguration, torController, running, controllerAuthed, observersAdded,
             boundSocksPort, attemptGeneration, pendingCompletion, now, inFlight, threads, connections,
             observed, calls, startedAt, completed)
    }

    ghost function State(): World
      reads this
    {
      World(Fields(), armed)
    }

    /** The state is what effect `f` makes of the world `w`. */
    ghost predicate Does(w: World, f: Effect)
      reads this
    {
      Fields() == f.bridge && armed == w.timers + Armed(f.armed)
    }

    ghost predicate Valid()
      reads this
    {
      WorldInv(State())
    }

    constructor ()
      ensures Valid() && State() == INITIAL
    {
      torThread, torConfiguration, torController := false, false, None;
      running, controllerAuthed, observersAdded := false, false, false;
      boundSocksPort, attemptGeneration, pendingCompletion := 0, 0, None;
      now, armed, inFlight, threads, connections := 0, multiset{}, multiset{}, 0, 0;
      observed, calls, startedAt, completed := [], 0, 0, [];
    }

    method CallCompletion(call: nat, outcome: Outcome)
      modifies this`completed
      ensures Fields() == Complete(old(Fields()), call, outcome)
    {
      completed := completed + [Completion(call, outcome)];
    }

    method DispatchAfter(t: Timer)
      modifies this`armed
      ensures armed == old(armed) + multiset{t}
    {
      armed := armed + multiset{t};
    }

    method SettleWithSuccess(failure: Option<Failure>, generation: nat)
      modifies this
      ensures Fields() == Settle(old(Fields()), failure, generation) && armed == old(armed)
    {
      if generation != 0 && generation != attemptGeneration {
        return;
      }
      var completion := pendingCompletion;
      if completion.None? {
        return;
      }
      pendingCompletion := None;
      CallCompletion(completion.value, if failure.None? then Ready(boundSocksPort) else Failed(failure.value));
    }

    method StartWithSocksPort(socksPort: int, p: Probe)
      modifies this
      ensures Does(old(State()), Start(old(Fields()), socksPort, p))
    {
      if running || pendingCompletion.Some? {
        RefuseOrResolve(socksPort);
        return;
      }
      BeginAttempt(socksPort);
      var gen := attemptGeneration;
      if torThread {
        PollForControlPortFile(gen, 0, p);
        return;
      }
      if !p.dirCreated {
        SettleWithSuccess(Some(DirectoryError), gen);
        return;
      }
      LaunchThread();
      PollForControlPortFile(gen, 0, p);
    }

    method RefuseOrResolve(socksPort: int)
      requires running || pendingCompletion.Some?
      modifies this
      ensures var b := old(Fields());
              Fields() == Complete(b.(calls := b.calls + 1), b.calls,
                                   if b.running then Ready(socksPort) else Failed(AlreadyInFlight))
      ensures armed == old(armed)
    {
      calls := calls + 1;
      if running {
        CallCompletion(calls - 1, Ready(socksPort));
      } else {
        CallCompletion(calls - 1, Failed(AlreadyInFlight));
      }
    }

    method BeginAttempt(socksPort: int)
      modifies this
      ensures Fields() == Begun(old(Fields()), socksPort) && armed == old(armed)
    {
      boundSocksPort := socksPort;
      pendingCompletion, calls := Some(calls), calls + 1;
      attemptGeneration, startedAt := attemptGeneration + 1, now;
    }

    method LaunchThread()
      modifies this
      ensures Fields() == Launched(old(Fields())) && armed == old(armed)
    {
      torConfiguration := true;
      torThread := true;
      threads := threads + 1;
    }

    method PollForControlPortFile(gen: nat, attempt: nat, p: Probe)
      modifies this
      ensures Does(old(State()), Poll(old(Fields()), gen, attempt, p))
    {
      if gen != attemptGeneration {
        return;
      }
      if p.portFileFilled {
        ConnectAndAuthenticate(gen, 0, p);
        return;
      }
      if attempt > MAX_POLLS {
        SettleWithSuccess(Some(PortFileMissing), gen);
        return;
      }
      DispatchAfter(PollTimer(gen, attempt + 1, now + POLL_MS));
    }

    method ConnectAndAuthenticate(gen: nat, connectAttempt: nat, p: Probe)
      modifies this
      ensures Does(old(State()), Connect(old(Fields()), gen, connectAttempt, p))
    {
      if gen != attemptGeneration {
        return;
      }
      if torController.None? {
        if !p.portFileParses {
          SettleWithSuccess(Some(PortFileUnreadable), gen);
          return;
        }
      }
      OpenController();
      ConnectController(gen, connectAttempt, p);
    }

    method OpenController()
      modifies this`torController, this`connections
      ensures Fields() == EnsureController(old(Fields()))
    {
      if torController.None? {
        torController := Some(connections);
        connections := connections + 1;
      }
    }

    method ConnectController(gen: nat, connectAttempt: nat, p: Probe)
      requires torController.Some?
      modifies this
      ensures Does(old(State()), Connected(old(Fields()), gen, connectAttempt, p))
    {
      if !p.isConnected && !p.connectSucceeds {
        if connectAttempt < MAX_CONNECTS {
          DispatchAfter(ConnectTimer(gen, connectAttempt + 1, now + POLL_MS));
          return;
        }
        SettleWithSuccess(Some(ConnectFailed), gen);
        return;
      }
      if controllerAuthed {
        DispatchAfter(CircuitWatchdog(gen, now + CIRCUIT_MS));
        return;
      }
      SendAuthenticate(gen, p.cookie);
    }

    method SendAuthenticate(gen: nat, cookie: Cookie)
      requires torController.Some?
      modifies this
      ensures Does(old(State()), Authenticate(old(Fields()), gen, cookie))
    {
      if cookie.NoCookie? {
        SettleWithSuccess(Some(CookieMissing), gen);
        return;
      }
      if cookie.WrongLength? {
        SettleWithSuccess(Some(CookieLength), gen);
        return;
      }
      DispatchAfter(AuthWatchdog(gen, now + AUTH_MS));
      inFlight := inFlight + multiset{Auth(torController.value, gen)};
    }

    /** The completion block of authenticateWithData:. */
    method AuthenticateCompleted(a: Auth, success: bool)
      modifies this
      ensures Does(old(State()), AuthReply(old(Fields()), a, success))
    {
      TakeReply(a);
      if !success {
        SettleWithSuccess(Some(AuthRejected), a.gen);
      } else {
        AcceptReply(a.gen);
      }
    }

    method AcceptReply(gen: nat)
      modifies this
      ensures Does(old(State()), Effect(Accepted(old(Fields())), Some(CircuitWatchdog(gen, old(now) + CIRCUIT_MS))))
    {
      MarkAuthenticated();
      RegisterControlObservers();
      DispatchAfter(CircuitWatchdog(gen, now + CIRCUIT_MS));
    }

    method TakeReply(a: Auth)
      modifies this`inFlight
      ensures Fields() == Replied(old(Fields()), a)
    {
      inFlight := inFlight - multiset{a};
    }

    method MarkAuthenticated()
      modifies this`controllerAuthed
      ensures Fields() == old(Fields()).(authed := true)
    {
      controllerAuthed := true;
    }

    method RegisterControlObservers()
      modifies this`observersAdded, this`observed
      ensures Fields() == RegisterObservers(old(Fields()))
    {
      if observersAdded || torController.None? {
        return;
      }
      observersAdded := true;
      observed := observed + [torController.value];
    }

    method CircuitEstablished(established: bool)
      modifies this
      ensures Fields() == CircuitReport(old(Fields()), established) && armed == old(armed)
    {
      if !established {
        return;
      }
      running := true;
      SettleWithSuccess(None, 0);
    }

    method StopBridge()
      modifies this
      ensures Fields() == Stop(old(Fields())) && armed == old(armed)
    {
      attemptGeneration := attemptGeneration + 1;
      SettleWithSuccess(Some(Stopped), 0);
      ReleaseController();
    }

    /** The thread is deliberately kept: C-Tor cannot be started a second time in one process. */
    method ReleaseController()
      modifies this`torController, this`controllerAuthed, this`observersAdded, this`running
      ensures Fields() == old(Fields()).(controller := None, authed := false, observing := false, running := false)
    {
      torController := None;
      controllerAuthed := false;
      observersAdded := false;
      running := false;
    }

    /** The body of an armed block. */
    method RunBlock(t: Timer, p: Probe)
      modifies this
      ensures Does(old(State()), Fire(old(Fields()), t, p))
    {
      match t {
        case PollTimer(gen, attempt, _) => PollForControlPortFile(gen, attempt, p);
        case ConnectTimer(gen, attempt, _) => ConnectAndAuthenticate(gen, attempt, p);
        case AuthWatchdog(gen, _) => SettleWithSuccess(Some(AuthSilent), gen);
        case CircuitWatchdog(gen, _) =>
          if !running {
            SettleWithSuccess(Some(NoCircuit), gen);
          }
      }
    }

    method TakeBlock(t: Timer)
      modifies this`armed
      ensures Fields() == old(Fields()) && armed == old(armed) - multiset{t}
    {
      armed := armed - multiset{t};
    }

    method PassTime(ms: nat)
      modifies this`now
      ensures Fields() == old(Fields()).(now := old(now) + ms)
    {
      now := now + ms;
    }

    method Perform(e: Event)
      modifies this
      ensures Does(World(old(Fields()), Left(old(armed), e)), Act(old(Fields()), e))
    {
      match e {
        case StartCalled(port, p) => StartWithSocksPort(port, p);
        case StopCalled => StopBridge();
        case TimerFired(t, p) => TakeBlock(t); RunBlock(t, p);
        case AuthAnswered(a, success) => AuthenticateCompleted(a, success);
        case CircuitReported(_, established) => CircuitEstablished(established);
        case TimePassed(ms) => PassTime(ms);
      }
    }

    /** One atomic event: a method call, a callback or a block, in any order the environment allows. */
    method Handle(e: Event)
      requires Valid() && Enabled(State(), e)
      modifies this
      ensures Valid() && State() == Step(old(State()), e)
    {
      StepKeepsInv(State(), e);
      Perform(e);
    }
  }
}
