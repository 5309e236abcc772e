/**
 The socket.io-over-SOCKS pipe of AegisTorLogic as functions on values: one
 session at a time, then all sessions by their JS id. Engine.IO protocol
 revision 4 and Socket.IO protocol revision 5, section "Packet encoding" in each.
 */
module SocketModel {
  import opened Wrappers
  import opened WireText

  /** What an inbound text frame means, before any session state is consulted. */
  datatype Packet =
    | Ignored
    | Open
    | Close
    | Ping
    | Connected
    | Disconnected
    | EventPacket(name: string, args: string)
    | AckPacket(wire: nat, args: string)
    | Refused(detail: string)

  function Classify(lib: Library, text: string): Packet {
    if text == [] then Ignored
    else if text[0] == '0' then Open
    else if text[0] == '1' then Close
    else if text[0] == '2' then Ping
    else if text[0] == '4' then ClassifyMessage(lib, text[1..])
    else Ignored
  }

  function ClassifyMessage(lib: Library, text: string): Packet {
    if text == [] then Ignored
    else
      var rest := text[1..];
      if text[0] == '0' then Connected
      else if text[0] == '1' then Disconnected
      else if text[0] == '2' then ClassifyEvent(lib, rest[LeadingDigits(lib, rest)..])
      else if text[0] == '3' then ClassifyAck(lib, rest)
      else if text[0] == '4' then Refused(rest)
      else Ignored
  }

  function ClassifyEvent(lib: Library, json: string): Packet {
    match lib.parse(json)
    case Some(JArray(items)) =>
      if items != [] && items[0].JString? then EventPacket(items[0].text, ArgsJson(lib, items[1..])) else Ignored
    case _ => Ignored
  }

  function ClassifyAck(lib: Library, rest: string): Packet {
    var n := LeadingDigits(lib, rest);
    match IntOf(rest[..n])
    case None => Ignored
    case Some(wire) => AckPacket(wire, if rest[n..] == [] then "[]" else rest[n..])
  }

  function ArgsJson(lib: Library, args: seq<Json>): string {
    match lib.encode(args)
    case Some(text) => text
    case None => "[]"
  }

  /** The per-socket entries of forwardEvents, authPayloads, ackCounters and pendingAcks. */
  datatype Socket = Socket(events: set<string>, auth: string, nextWire: nat, acks: map<nat, string>)

  /** A frame handed to the task, or an event handed to JavaScript. */
  datatype Output = Sent(text: string) | Forwarded(event: string, args: string)

  /** `socket` is None when the session was closed. */
  datatype Reply = Reply(socket: Option<Socket>, outs: seq<Output>)

  function Forward(listening: bool, event: string, args: string): seq<Output> {
    if listening then [Forwarded(event, args)] else []
  }

  function ErrorArgs(detail: string): string {
    "[\"" + JsonEscape(detail) + "\"]"
  }

  function React(s: Socket, listening: bool, packet: Packet): Reply {
    match packet
    case Ignored => Reply(Some(s), [])
    case Open => Reply(Some(s), [Sent("40" + s.auth)])
    case Close => Reply(None, [])
    case Ping => Reply(Some(s), [Sent("3")])
    case Connected => Reply(Some(s), Forward(listening, "connect", "[]"))
    case Disconnected => Reply(None, Forward(listening, "disconnect", "[]"))
    case EventPacket(name, args) =>
      Reply(Some(s), if name in s.events then Forward(listening, name, args) else [])
    case AckPacket(wire, args) =>
      if wire in s.acks then
        Reply(Some(s.(acks := s.acks - {wire})), Forward(listening, "__ack:" + s.acks[wire], args))
      else Reply(Some(s), [])
    case Refused(detail) => Reply(Some(s), Forward(listening, "connect_error", ErrorArgs(detail)))
  }

  /** A frame whose session is already gone can still forward the stateless events. */
  function ReactLate(listening: bool, packet: Packet): seq<Output> {
    match packet
    case Connected => Forward(listening, "connect", "[]")
    case Disconnected => Forward(listening, "disconnect", "[]")
    case Refused(detail) => Forward(listening, "connect_error", ErrorArgs(detail))
    case _ => []
  }

  /** The ack id is registered before the payload is encoded, and stays registered when that fails. */
  function Registered(s: Socket, ackId: Option<string>): Socket {
    if ackId.None? then s
    else s.(nextWire := s.nextWire + 1, acks := s.acks[s.nextWire := ackId.value])
  }

  function EmitText(lib: Library, s: Socket, event: string, payload: string, ackId: Option<string>): Option<string> {
    var value := match lib.parse(payload) case Some(v) => v case None => JString(payload);
    match lib.encode([JString(event), value])
    case None => None
    case Some(json) => Some("42" + (if ackId.Some? then Decimal(s.nextWire) else "") + json)
  }

  function Emit(lib: Library, s: Socket, event: string, payload: string, ackId: Option<string>): Reply {
    match EmitText(lib, s, event, payload, ackId)
    case None => Reply(Some(Registered(s, ackId)), [])
    case Some(text) => Reply(Some(Registered(s, ackId)), [Sent(text)])
  }

  // ---------------------------------------------------------------- all sessions

  datatype Entry = Entry(id: string, output: Output)

  datatype Pipe = Pipe(sockets: map<string, Socket>, listening: bool, log: seq<Entry>)

  function Tagged(id: string, outs: seq<Output>): seq<Entry> {
    seq(|outs|, i requires 0 <= i < |outs| => Entry(id, outs[i]))
  }

  function Applied(p: Pipe, id: string, r: Reply): Pipe {
    p.(sockets := if r.socket.Some? then p.sockets[id := r.socket.value] else p.sockets - {id},
       log := p.log + Tagged(id, r.outs))
  }

  function HandleFrame(lib: Library, p: Pipe, id: string, text: string): Pipe {
    HandlePacket(p, id, Classify(lib, text))
  }

  function HandlePacket(p: Pipe, id: string, packet: Packet): Pipe {
    if id in p.sockets then Applied(p, id, React(p.sockets[id], p.listening, packet))
    else p.(log := p.log + Tagged(id, ReactLate(p.listening, packet)))
  }

  /** closeSocket: all six entries go; nothing happens for an unknown id. */
  function Closed(p: Pipe, id: string): Pipe {
    p.(sockets := p.sockets - {id})
  }

  /** The event names of sioConnect: all of them must be strings. */
  function EventNames(lib: Library, eventsJson: string): set<string> {
    match lib.parse(eventsJson)
    case Some(JArray(items)) =>
      if forall i :: 0 <= i < |items| ==> items[i].JString? then
        set i | 0 <= i < |items| :: items[i].text
      else {}
    case _ => {}
  }

  function Opened(lib: Library, authJson: string, eventsJson: string): Socket {
    Socket(EventNames(lib, eventsJson), authJson, 0, map[])
  }

  // ---------------------------------------------------------------- six dictionaries, one map

  /** The sessions spelled out by the dictionaries of AegisTorLogic. */
  function Combine(keys: set<string>, events: map<string, set<string>>, auths: map<string, string>,
                   counters: map<string, nat>, acks: map<string, map<nat, string>>): map<string, Socket>
    requires keys == events.Keys == auths.Keys == counters.Keys == acks.Keys
  {
    map id | id in keys :: Socket(events[id], auths[id], counters[id], acks[id])
  }

  lemma CombineWrite(keys: set<string>, events: map<string, set<string>>, auths: map<string, string>,
                     counters: map<string, nat>, acks: map<string, map<nat, string>>, id: string, s: Socket)
    requires keys == events.Keys == auths.Keys == counters.Keys == acks.Keys
    ensures events[id := s.events].Keys == auths[id := s.auth].Keys == counters[id := s.nextWire].Keys
            == acks[id := s.acks].Keys == keys + {id}
    ensures Combine(keys + {id}, events[id := s.events], auths[id := s.auth], counters[id := s.nextWire], acks[id := s.acks])
            == Combine(keys, events, auths, counters, acks)[id := s]
  {
  }

  lemma CombineRemove(keys: set<string>, events: map<string, set<string>>, auths: map<string, string>,
                      counters: map<string, nat>, acks: map<string, map<nat, string>>, id: string)
    requires keys == events.Keys == auths.Keys == counters.Keys == acks.Keys
    ensures Combine(keys - {id}, events - {id}, auths - {id}, counters - {id}, acks - {id})
            == Combine(keys, events, auths, counters, acks) - {id}
  {
  }

  lemma CombineAcks(keys: set<string>, events: map<string, set<string>>, auths: map<string, string>,
                    counters: map<string, nat>, acks: map<string, map<nat, string>>, id: string, next: nat, pending: map<nat, string>)
    requires keys == events.Keys == auths.Keys == counters.Keys == acks.Keys && id in keys
    ensures counters[id := next].Keys == keys && acks[id := pending].Keys == keys
    ensures Combine(keys, events, auths, counters[id := next], acks[id := pending])
            == Combine(keys, events, auths, counters, acks)[id := Socket(events[id], auths[id], next, pending)]
  {
  }
}
