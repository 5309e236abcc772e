/** All sockets of the pipe at once: each behaves as its own session, and none disturbs another. */
module SocketIsolation {
  import opened Wrappers
  import opened WireText
  import opened SocketModel
  import opened SocketTheorems

  /** What was sent and forwarded for one id, in order. */
  function LogOf(log: seq<Entry>, id: string): seq<Output> {
    if log == [] then [] else (if log[0].id == id then [log[0].output] else []) + LogOf(log[1..], id)
  }

  lemma {:induction false} LogOfConcat(a: seq<Entry>, b: seq<Entry>, id: string)
    ensures LogOf(a + b, id) == LogOf(a, id) + LogOf(b, id)
  {
    if a == [] {
      assert a + b == b;
    } else {
      assert (a + b)[0] == a[0] && (a + b)[1..] == a[1..] + b;
      LogOfConcat(a[1..], b, id);
    }
  }

  lemma {:induction false} LogOfTagged(outs: seq<Output>, id: string, other: string)
    ensures LogOf(Tagged(id, outs), other) == if id == other then outs else []
  {
    if outs != [] {
      assert Tagged(id, outs)[1..] == Tagged(id, outs[1..]);
      LogOfTagged(outs[1..], id, other);
    }
  }

  /** The socket an id has, if any. */
  function SocketOf(p: Pipe, id: string): Option<Socket> {
    if id in p.sockets then Some(p.sockets[id]) else None
  }

  /** Nothing about `other` has changed. */
  ghost predicate Undisturbed(p: Pipe, q: Pipe, other: string) {
    SocketOf(q, other) == SocketOf(p, other) && LogOf(q.log, other) == LogOf(p.log, other)
  }

  /** What is logged for an id comes after what was logged before. */
  lemma LoggedNext(log: seq<Entry>, id: string, outs: seq<Output>, other: string)
    ensures LogOf(log + Tagged(id, outs), other) == LogOf(log, other) + (if id == other then outs else [])
  {
    LogOfConcat(log, Tagged(id, outs), other);
    LogOfTagged(outs, id, other);
  }

  /** A frame for an open socket is that session's reaction, logged after all that came before; other ids notice nothing. */
  lemma FrameIsLocal(lib: Library, p: Pipe, id: string, text: string, other: string)
    requires id in p.sockets && other != id
    ensures var q, r := HandleFrame(lib, p, id, text), React(p.sockets[id], p.listening, Classify(lib, text));
            && SocketOf(q, id) == r.socket && LogOf(q.log, id) == LogOf(p.log, id) + r.outs
            && q.listening == p.listening && p.log <= q.log
            && Undisturbed(p, q, other)
  {
    var r := React(p.sockets[id], p.listening, Classify(lib, text));
    LoggedNext(p.log, id, r.outs, id);
    LoggedNext(p.log, id, r.outs, other);
  }

  /** A frame for a socket already gone opens nothing. */
  lemma LateFrameIsLocal(lib: Library, p: Pipe, id: string, text: string, other: string)
    requires id !in p.sockets && other != id
    ensures var q := HandleFrame(lib, p, id, text);
            && q.sockets == p.sockets && q.listening == p.listening
            && LogOf(q.log, id) == LogOf(p.log, id) + ReactLate(p.listening, Classify(lib, text))
            && Undisturbed(p, q, other)
  {
    var outs := ReactLate(p.listening, Classify(lib, text));
    LoggedNext(p.log, id, outs, id);
    LoggedNext(p.log, id, outs, other);
  }

  /** An emit, too, is its own session's. */
  lemma EmitIsLocal(lib: Library, p: Pipe, id: string, event: string, payload: string, ackId: Option<string>, other: string)
    requires id in p.sockets && other != id
    ensures var r := Emit(lib, p.sockets[id], event, payload, ackId);
            var q := Applied(p, id, r);
            && SocketOf(q, id) == r.socket && LogOf(q.log, id) == LogOf(p.log, id) + r.outs
            && Undisturbed(p, q, other)
  {
    var r := Emit(lib, p.sockets[id], event, payload, ackId);
    LoggedNext(p.log, id, r.outs, id);
    LoggedNext(p.log, id, r.outs, other);
  }

  /** Closing takes away that socket alone, and logs nothing. */
  lemma CloseIsLocal(p: Pipe, id: string, other: string)
    requires other != id
    ensures var q := Closed(p, id);
            SocketOf(q, id).None? && q.log == p.log && q.listening == p.listening && Undisturbed(p, q, other)
  {
  }

  // ---------------------------------------------------------------- whole runs

  /** A frame or emit for one of the sockets. */
  datatype Move = Move(id: string, action: Action)

  function Moved(lib: Library, p: Pipe, m: Move): Pipe {
    match m.action
    case FrameIn(text, listening) => HandleFrame(lib, p.(listening := listening), m.id, text)
    case EmitOut(event, payload, ackId) =>
      if m.id in p.sockets then Applied(p, m.id, Emit(lib, p.sockets[m.id], event, payload, ackId)) else p
  }

  function Moves(lib: Library, p: Pipe, ms: seq<Move>): Pipe
    decreases ms
  {
    if ms == [] then p else Moves(lib, Moved(lib, p, ms[0]), ms[1..])
  }

  /** The moves of a run that are for one id. */
  function Mine(ms: seq<Move>, id: string): seq<Action> {
    if ms == [] then [] else (if ms[0].id == id then [ms[0].action] else []) + Mine(ms[1..], id)
  }

  /** A session on its own, from its first action to its end. */
  function Alone(lib: Library, s: Socket, acts: seq<Action>): Option<Socket>
    decreases acts
  {
    if acts == [] then Some(s)
    else
      var r := Perform(lib, s, acts[0]);
      if r.socket.None? then None else Alone(lib, r.socket.value, acts[1..])
  }

  function OutputsAlone(lib: Library, s: Socket, acts: seq<Action>): seq<Output>
    decreases acts
  {
    if acts == [] then []
    else
      var r := Perform(lib, s, acts[0]);
      if r.socket.None? then r.outs else r.outs + OutputsAlone(lib, r.socket.value, acts[1..])
  }

  lemma MoveOfAnother(lib: Library, p: Pipe, m: Move, id: string)
    requires m.id != id
    ensures Undisturbed(p, Moved(lib, p, m), id)
  {
    match m.action {
      case FrameIn(text, listening) =>
        var p1 := p.(listening := listening);
        if m.id in p.sockets {
          FrameIsLocal(lib, p1, m.id, text, id);
        } else {
          LateFrameIsLocal(lib, p1, m.id, text, id);
        }
      case EmitOut(event, payload, ackId) =>
        if m.id in p.sockets {
          EmitIsLocal(lib, p, m.id, event, payload, ackId, id);
        }
    }
  }

  lemma MoveOfMine(lib: Library, p: Pipe, m: Move)
    requires m.id in p.sockets
    ensures var q, r := Moved(lib, p, m), Perform(lib, p.sockets[m.id], m.action);
            SocketOf(q, m.id) == r.socket && LogOf(q.log, m.id) == LogOf(p.log, m.id) + r.outs
  {
    var other := m.id + "'";
    assert |other| != |m.id|;
    match m.action {
      case FrameIn(text, listening) => FrameIsLocal(lib, p.(listening := listening), m.id, text, other);
      case EmitOut(event, payload, ackId) => EmitIsLocal(lib, p, m.id, event, payload, ackId, other);
    }
  }

  /**
   Whatever the other sockets do, a socket that survives the run has sent,
   forwarded and become what its own frames and emits alone make of it.
   */
  lemma {:induction false} SocketsAreIndependent(lib: Library, p: Pipe, ms: seq<Move>, id: string)
    requires id in p.sockets && Alone(lib, p.sockets[id], Mine(ms, id)).Some?
    ensures var q := Moves(lib, p, ms);
            && SocketOf(q, id) == Alone(lib, p.sockets[id], Mine(ms, id))
            && LogOf(q.log, id) == LogOf(p.log, id) + OutputsAlone(lib, p.sockets[id], Mine(ms, id))
    decreases ms
  {
    if ms != [] {
      var m, q := ms[0], Moved(lib, p, ms[0]);
      if m.id == id {
        MoveOfMine(lib, p, m);
        assert Mine(ms, id)[0] == m.action && Mine(ms, id)[1..] == Mine(ms[1..], id);
      } else {
        MoveOfAnother(lib, p, m, id);
        assert Mine(ms, id) == Mine(ms[1..], id);
      }
      SocketsAreIndependent(lib, q, ms[1..], id);
    }
  }
}
