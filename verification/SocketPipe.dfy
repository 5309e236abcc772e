/**
 The socket half of the Swift class AegisTorLogic: six dictionaries keyed by the
 JS socket id. Every method is proved to act on them as `SocketModel` says, and
 to keep their key sets equal.
 */
module SocketPipe {
  import opened Wrappers
  import opened WireText
  import opened SocketModel
  import opened SocketTheorems

  datatype Result = Resolved | NotReady | BadUrl | NoSocket | EncodingFailed

  class AegisTorSockets {
    const lib: Library
    var hasListeners: bool
    var sessions: map<string, nat>
    var tasks: map<string, nat>
    var forwardEvents: map<string, set<string>>
    var authPayloads: map<string, string>
    var ackCounters: map<string, nat>
    var pendingAcks: map<string, map<nat, string>>
    // URLSession objects made so far, and everything sent or forwarded.
    var created: nat
    var log: seq<Entry>

    /** The six dictionaries always have the same keys. */
    ghost predicate Valid()
      reads this
    {
      sessions.Keys == tasks.Keys == forwardEvents.Keys == authPayloads.Keys == ackCounters.Keys == pendingAcks.Keys
    }

    ghost function Sockets(): map<string, Socket>
      reads this
      requires Valid()
    {
      Combine(tasks.Keys, forwardEvents, authPayloads, ackCounters, pendingAcks)
    }

    ghost function State(): Pipe
      reads this
      requires Valid()
    {
      Pipe(Sockets(), hasListeners, log)
    }

    constructor (lib: Library)
      ensures Valid() && State() == Pipe(map[], false, []) && this.lib == lib
    {
      this.lib := lib;
      hasListeners := false;
      sessions, tasks := map[], map[];
      forwardEvents, authPayloads, ackCounters, pendingAcks := map[], map[], map[], map[];
      created, log := 0, [];
    }

    method SetHasListeners(value: bool)
      requires Valid()
      modifies this`hasListeners
      ensures Valid() && State() == old(State()).(listening := value)
    {
      hasListeners := value;
    }

    /** `torOn` is the guard on the lifecycle state, `urlOk` the answer of webSocketURL. */
    method SioConnect(id: string, torOn: bool, urlOk: bool, authJson: string, eventsJson: string) returns (r: Result)
      requires Valid()
      modifies this
      ensures Valid()
      ensures r == if !torOn then NotReady else if !urlOk then BadUrl else Resolved
      ensures State() == if r == Resolved
                         then old(State()).(sockets := old(Sockets())[id := Opened(lib, authJson, eventsJson)])
                         else old(State())
    {
      if !torOn {
        return NotReady;
      }
      if !urlOk {
        return BadUrl;
      }
      Register(id, EventNames(lib, eventsJson), authJson);
      return Resolved;
    }

    /** A fresh session overwrites whatever the id held. */
    method Register(id: string, eventNames: set<string>, authJson: string)
      requires Valid()
      modifies this
      ensures Valid() && State() == old(State()).(sockets := old(Sockets())[id := Socket(eventNames, authJson, 0, map[])])
    {
      ghost var s := Socket(eventNames, authJson, 0, map[]);
      CombineWrite(tasks.Keys, forwardEvents, authPayloads, ackCounters, pendingAcks, id, s);
      sessions := sessions[id := created];
      tasks := tasks[id := created];
      assert tasks.Keys == old(tasks.Keys) + {id} && sessions.Keys == tasks.Keys;
      created := created + 1;
      WriteEntries(id, eventNames, authJson);
    }

    method WriteEntries(id: string, eventNames: set<string>, authJson: string)
      modifies this`forwardEvents, this`authPayloads, this`ackCounters, this`pendingAcks
      ensures forwardEvents == old(forwardEvents)[id := eventNames] && authPayloads == old(authPayloads)[id := authJson]
      ensures ackCounters == old(ackCounters)[id := 0] && pendingAcks == old(pendingAcks)[id := map[]]
    {
      forwardEvents := forwardEvents[id := eventNames];
      authPayloads := authPayloads[id := authJson];
      ackCounters := ackCounters[id := 0];
      pendingAcks := pendingAcks[id := map[]];
    }

    method Send(id: string, text: string)
      requires Valid()
      modifies this`log
      ensures Valid()
      ensures State() == old(State()).(log := old(log) + Tagged(id, if id in tasks then [Sent(text)] else []))
    {
      if id in tasks {
        log := log + [Entry(id, Sent(text))];
      }
    }

    method ForwardEvent(id: string, event: string, args: string)
      requires Valid()
      modifies this`log
      ensures Valid()
      ensures State() == old(State()).(log := old(log) + Tagged(id, Forward(hasListeners, event, args)))
    {
      if hasListeners {
        log := log + [Entry(id, Forwarded(event, args))];
      }
    }

    method CloseSocket(id: string)
      requires Valid()
      modifies this
      ensures Valid() && State() == Closed(old(State()), id)
      ensures tasks.Keys == old(tasks.Keys) - {id} && log == old(log) && hasListeners == old(hasListeners)
    {
      CombineRemove(tasks.Keys, forwardEvents, authPayloads, ackCounters, pendingAcks, id);
      tasks, sessions := tasks - {id}, sessions - {id};
      forwardEvents, authPayloads := forwardEvents - {id}, authPayloads - {id};
      ackCounters, pendingAcks := ackCounters - {id}, pendingAcks - {id};
      assert tasks.Keys == old(tasks.Keys) - {id};
    }

    method HandleEngineIOFrame(id: string, text: string)
      requires Valid()
      modifies this
      ensures Valid() && State() == HandleFrame(lib, old(State()), id, text)
    {
      if text == [] {
        Unchanged(State(), id);
        return;
      }
      var rest := text[1..];
      match text[0] {
        case '0' => AnswerOpen(id);
        case '1' => AnswerClose(id);
        case '2' => AnswerPing(id);
        case '4' => HandleSocketIOPacket(id, rest);
        case _ => Unchanged(State(), id);
      }
    }

    method AnswerOpen(id: string)
      requires Valid()
      modifies this
      ensures Valid() && State() == HandlePacket(old(State()), id, Open)
    {
      Send(id, "40" + if id in authPayloads then authPayloads[id] else "{}");
      SocketKept(old(State()), State(), id);
    }

    method AnswerClose(id: string)
      requires Valid()
      modifies this
      ensures Valid() && State() == HandlePacket(old(State()), id, Close)
    {
      Unchanged(State(), id);
      CloseSocket(id);
      assert id !in old(Sockets()) ==> old(Sockets()) - {id} == old(Sockets());
    }

    method AnswerPing(id: string)
      requires Valid()
      modifies this
      ensures Valid() && State() == HandlePacket(old(State()), id, Ping)
    {
      Send(id, "3");
      SocketKept(old(State()), State(), id);
    }

    method HandleSocketIOPacket(id: string, text: string)
      requires Valid()
      modifies this
      ensures Valid() && State() == HandlePacket(old(State()), id, ClassifyMessage(lib, text))
    {
      if text == [] {
        Unchanged(State(), id);
        return;
      }
      var rest := text[1..];
      match text[0] {
        case '0' => HandleConnected(id);
        case '1' => HandleDisconnected(id);
        case '2' => HandleEvent(id, rest);
        case '3' => HandleAck(id, rest);
        case '4' => HandleRefused(id, rest);
        case _ => Unchanged(State(), id);
      }
    }

    method HandleConnected(id: string)
      requires Valid()
      modifies this
      ensures Valid() && State() == HandlePacket(old(State()), id, Connected)
    {
      ForwardEvent(id, "connect", "[]");
      SocketKept(old(State()), State(), id);
    }

    method HandleDisconnected(id: string)
      requires Valid()
      modifies this
      ensures Valid() && State() == HandlePacket(old(State()), id, Disconnected)
    {
      ghost var before := State();
      ForwardEvent(id, "disconnect", "[]");
      CloseSocket(id);
      DisconnectedCloses(before, id);
    }

    method HandleRefused(id: string, detail: string)
      requires Valid()
      modifies this
      ensures Valid() && State() == HandlePacket(old(State()), id, Refused(detail))
    {
      ForwardEvent(id, "connect_error", ErrorArgs(detail));
      SocketKept(old(State()), State(), id);
    }

    method HandleEvent(id: string, rest: string)
      requires Valid()
      modifies this
      ensures Valid() && State() == HandlePacket(old(State()), id, ClassifyEvent(lib, rest[LeadingDigits(lib, rest)..]))
    {
      var _, jsonPart := SplitLeadingDigits(lib, rest);
      match lib.parse(jsonPart) {
        case Some(JArray(items)) =>
          if items == [] || !items[0].JString? {
            Unchanged(State(), id);
            return;
          }
          ForwardIfSubscribed(id, items[0].text, ArgsJson(lib, items[1..]));
        case _ => Unchanged(State(), id);
      }
    }

    method ForwardIfSubscribed(id: string, eventName: string, args: string)
      requires Valid()
      modifies this
      ensures Valid() && State() == HandlePacket(old(State()), id, EventPacket(eventName, args))
    {
      Unchanged(State(), id);
      SocketKept(State(), State(), id);
      if id in forwardEvents && eventName in forwardEvents[id] {
        ForwardEvent(id, eventName, args);
      }
    }

    method HandleAck(id: string, rest: string)
      requires Valid()
      modifies this
      ensures Valid() && State() == HandlePacket(old(State()), id, ClassifyAck(lib, rest))
    {
      var digits, jsonPart := SplitLeadingDigits(lib, rest);
      var wire := IntOf(digits);
      if wire.None? {
        Unchanged(State(), id);
        return;
      }
      TakeAck(id, wire.value, if jsonPart == [] then "[]" else jsonPart);
    }

    method TakeAck(id: string, wire: nat, args: string)
      requires Valid()
      modifies this
      ensures Valid() && State() == HandlePacket(old(State()), id, AckPacket(wire, args))
    {
      Unchanged(State(), id);
      if id !in pendingAcks || wire !in pendingAcks[id] {
        return;
      }
      var jsAckId := pendingAcks[id][wire];
      RemoveAck(id, wire);
      ForwardEvent(id, "__ack:" + jsAckId, args);
    }

    method RemoveAck(id: string, wire: nat)
      requires Valid() && id in tasks
      modifies this`pendingAcks
      ensures Valid()
      ensures var s := old(Sockets())[id];
              State() == old(State()).(sockets := old(Sockets())[id := s.(acks := s.acks - {wire})])
    {
      CombineAcks(tasks.Keys, forwardEvents, authPayloads, ackCounters, pendingAcks, id, ackCounters[id], pendingAcks[id] - {wire});
      pendingAcks := pendingAcks[id := pendingAcks[id] - {wire}];
      assert ackCounters[id := ackCounters[id]] == ackCounters;
    }

    method SioEmit(id: string, event: string, payload: string, ackId: Option<string>) returns (r: Result)
      requires Valid()
      modifies this
      ensures Valid()
      ensures id !in old(tasks) ==> r == NoSocket && State() == old(State())
      ensures id in old(tasks) ==>
                var s := old(Sockets())[id];
                && State() == Applied(old(State()), id, Emit(lib, s, event, payload, ackId))
                && r == if EmitText(lib, s, event, payload, ackId).None? then EncodingFailed else Resolved
    {
      if id !in tasks {
        return NoSocket;
      }
      var value := match lib.parse(payload) case Some(v) => v case None => JString(payload);
      var ackPrefix := if ackId.Some? then Decimal(ackCounters[id]) else "";
      RegisterAck(id, ackId);
      match lib.encode([JString(event), value]) {
        case None => return EncodingFailed;
        case Some(json) =>
          Send(id, "42" + ackPrefix + json);
          return Resolved;
      }
    }

    method RegisterAck(id: string, ackId: Option<string>)
      requires Valid() && id in tasks
      modifies this`ackCounters, this`pendingAcks
      ensures Valid()
      ensures State() == Applied(old(State()), id, Reply(Some(Registered(old(Sockets())[id], ackId)), []))
    {
      if ackId.None? {
        SocketKept(State(), State(), id);
      } else {
        var wireId := ackCounters[id];
        SocketKept(State(), State(), id);
        WriteAck(id, wireId + 1, pendingAcks[id][wireId := ackId.value]);
      }
    }

    method WriteAck(id: string, next: nat, pending: map<nat, string>)
      requires Valid() && id in tasks
      modifies this`ackCounters, this`pendingAcks
      ensures Valid()
      ensures State() == old(State()).(sockets := old(Sockets())[id := Socket(forwardEvents[id], authPayloads[id], next, pending)])
    {
      CombineAcks(tasks.Keys, forwardEvents, authPayloads, ackCounters, pendingAcks, id, next, pending);
      ackCounters := ackCounters[id := next];
      pendingAcks := pendingAcks[id := pending];
    }

    method SioDisconnect(id: string) returns (r: Result)
      requires Valid()
      modifies this
      ensures Valid() && r == Resolved && State() == Closed(old(State()), id)
    {
      CloseSocket(id);
      return Resolved;
    }

    /** The failure branch of the receive callback. */
    method ReceiveFailed(id: string, description: string)
      requires Valid()
      modifies this
      ensures Valid()
      ensures State() == Closed(old(State()).(log := old(log) + Tagged(id, Forward(hasListeners, "connect_error", ErrorArgs(description)))), id)
    {
      ForwardEvent(id, "connect_error", ErrorArgs(description));
      CloseSocket(id);
    }

    /** receiveLoop: each message re-arms the receive as long as the task is registered. */
    method ReceiveLoop(id: string, frames: seq<string>)
      requires Valid() && id in tasks
      modifies this
      ensures Valid()
      ensures var r := Received(lib, old(Sockets())[id], hasListeners, frames, |frames|);
              State() == Applied(old(State()), id, r)
    {
      var k := 0;
      ghost var s := Sockets()[id];
      SocketKept(State(), State(), id);
      while k < |frames| && id in tasks
        invariant 0 <= k <= |frames|
        invariant Valid() && hasListeners == old(hasListeners)
        invariant State() == Applied(old(State()), id, Received(lib, s, hasListeners, frames, k))
      {
        HandleEngineIOFrame(id, frames[k]);
        AppliedTwice(old(State()), id, Received(lib, s, hasListeners, frames, k),
                     React(Received(lib, s, hasListeners, frames, k).socket.value, hasListeners, Classify(lib, frames[k])));
        k := k + 1;
      }
      if k < |frames| {
        assert id !in State().sockets;
        ClosedStays(lib, s, hasListeners, frames, k, |frames|);
      }
    }

    /** The first lines of stop(): every open socket is closed. */
    method CloseAll()
      requires Valid()
      modifies this
      ensures Valid() && State() == old(State()).(sockets := map[])
    {
      ghost var listening, before := hasListeners, log;
      var ids := tasks.Keys;
      while ids != {}
        invariant Valid() && ids == tasks.Keys
        invariant hasListeners == listening && log == before
        decreases ids
      {
        var id :| id in ids;
        CloseSocket(id);
        ids := ids - {id};
      }
      assert Sockets() == map[];
    }
  }

  lemma Unchanged(p: Pipe, id: string)
    ensures HandlePacket(p, id, Ignored) == p
  {
    assert id in p.sockets ==> p.sockets[id := p.sockets[id]] == p.sockets;
    assert p.log + [] == p.log;
  }

  lemma DisconnectedCloses(p: Pipe, id: string)
    ensures HandlePacket(p, id, Disconnected)
            == Closed(p.(log := p.log + Tagged(id, Forward(p.listening, "disconnect", "[]"))), id)
  {
    assert id !in p.sockets ==> p.sockets - {id} == p.sockets;
  }

  /** Writing a socket back as it is changes no dictionary. */
  lemma SocketKept(p: Pipe, q: Pipe, id: string)
    requires q.sockets == p.sockets
    ensures id in p.sockets ==> p.sockets[id := p.sockets[id]] == q.sockets
    ensures p.log + [] == p.log
  {
  }

  lemma AppliedTwice(p: Pipe, id: string, r: Reply, next: Reply)
    requires r.socket.Some?
    ensures Applied(Applied(p, id, r), id, next) == Applied(p, id, Reply(next.socket, r.outs + next.outs))
  {
    assert p.log + Tagged(id, r.outs) + Tagged(id, next.outs) == p.log + Tagged(id, r.outs + next.outs);
    assert p.sockets[id := r.socket.value] - {id} == p.sockets - {id};
    assert next.socket.Some? ==>
        p.sockets[id := r.socket.value][id := next.socket.value] == p.sockets[id := next.socket.value];
  }
}
