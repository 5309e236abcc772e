/** What each text on the wire is, and what a session makes of it: one law per packet kind. */
module SocketTexts {
  import opened Wrappers
  import opened WireText
  import opened SocketModel

  predicate Numerals(lib: Library, s: string) {
    forall i :: 0 <= i < |s| ==> lib.isNumber(s[i])
  }

  predicate NoNumeralFirst(lib: Library, s: string) {
    s == [] || !lib.isNumber(s[0])
  }

  /** The text forwarded for an argument list: its encoding, or an empty array when that fails. */
  ghost predicate Encodes(lib: Library, args: seq<Json>, text: string) {
    if lib.encode(args).Some? then text == lib.encode(args).value else text == "[]"
  }

  // ---------------------------------------------------------------- Engine.IO frames

  lemma FrameTexts(lib: Library, x: string)
    ensures Classify(lib, ['0'] + x) == Open
    ensures Classify(lib, ['1'] + x) == Close
    ensures Classify(lib, ['2'] + x) == Ping
    ensures Classify(lib, "") == Ignored && Classify(lib, "4") == Ignored
  {
  }

  lemma OtherFrames(lib: Library, c: char, x: string)
    requires c !in "0124"
    ensures Classify(lib, [c] + x) == Ignored
  {
    assert c != "0124"[0] && c != "0124"[1] && c != "0124"[2] && c != "0124"[3];
  }

  // ---------------------------------------------------------------- Socket.IO packets

  lemma MessageText(lib: Library, c: char, x: string)
    ensures Classify(lib, ['4'] + ([c] + x)) == ClassifyMessage(lib, [c] + x)
    ensures ([c] + x)[1..] == x
  {
    assert (['4'] + ([c] + x))[1..] == [c] + x;
  }

  lemma PacketTexts(lib: Library, x: string)
    ensures Classify(lib, ['4'] + (['0'] + x)) == Connected
    ensures Classify(lib, ['4'] + (['1'] + x)) == Disconnected
    ensures Classify(lib, ['4'] + (['4'] + x)) == Refused(x)
  {
    MessageText(lib, '0', x);
    MessageText(lib, '1', x);
    MessageText(lib, '4', x);
  }

  lemma OtherPackets(lib: Library, c: char, x: string)
    requires c !in "01234"
    ensures Classify(lib, ['4'] + ([c] + x)) == Ignored
  {
    MessageText(lib, c, x);
    assert c != "01234"[0] && c != "01234"[1] && c != "01234"[2] && c != "01234"[3] && c != "01234"[4];
  }

  /** 42, an optional id, then the JSON: the event its first element names, with the rest as arguments. */
  lemma EventText(lib: Library, id: string, json: string, name: string, args: seq<Json>, text: string)
    requires Numerals(lib, id) && NoNumeralFirst(lib, json)
    requires lib.parse(json) == Some(JArray([JString(name)] + args)) && Encodes(lib, args, text)
    ensures Classify(lib, ['4'] + (['2'] + (id + json))) == EventPacket(name, text)
  {
    MessageText(lib, '2', id + json);
    SplitIsUnique(lib, id, json);
    assert (id + json)[|id|..] == json;
    var items := [JString(name)] + args;
    assert items[0] == JString(name) && items[1..] == args;
  }

  /** ... and nothing when the JSON is no array that starts with a string. */
  lemma NoEventText(lib: Library, id: string, json: string)
    requires Numerals(lib, id) && NoNumeralFirst(lib, json)
    requires forall name, args :: lib.parse(json) != Some(JArray([JString(name)] + args))
    ensures Classify(lib, ['4'] + (['2'] + (id + json))) == Ignored
  {
    MessageText(lib, '2', id + json);
    SplitIsUnique(lib, id, json);
    assert (id + json)[|id|..] == json;
    if lib.parse(json).Some? && lib.parse(json).value.JArray? {
      HeadedByName(lib.parse(json).value.items);
    }
  }

  lemma HeadedByName(items: seq<Json>)
    ensures items != [] && items[0].JString? ==> items == [JString(items[0].text)] + items[1..]
  {
  }

  /** 43 and a text that is no number, or one too large, acknowledges nothing. */
  lemma NoAckText(lib: Library, id: string, rest: string)
    requires Numerals(lib, id) && NoNumeralFirst(lib, rest) && IntOf(id).None?
    ensures Classify(lib, ['4'] + (['3'] + (id + rest))) == Ignored
  {
    MessageText(lib, '3', id + rest);
    SplitIsUnique(lib, id, rest);
    assert (id + rest)[..|id|] == id;
  }

  // ---------------------------------------------------------------- what a session makes of them

  /** The session lives on, answering with these frames and events. */
  predicate Answers(r: Reply, s: Socket, outs: seq<Output>) {
    r == Reply(Some(s), outs)
  }

  /** Open is answered with the auth text, ping with pong; connect and its error reach a listener. */
  lemma SessionAnswersFrames(lib: Library, s: Socket, listening: bool, x: string)
    ensures Answers(React(s, listening, Classify(lib, ['0'] + x)), s, [Sent("40" + s.auth)])
    ensures Answers(React(s, listening, Classify(lib, ['2'] + x)), s, [Sent("3")])
    ensures Answers(React(s, listening, Classify(lib, ['4'] + (['0'] + x))), s,
                    if listening then [Forwarded("connect", "[]")] else [])
    ensures Answers(React(s, listening, Classify(lib, ['4'] + (['4'] + x))), s,
                    if listening then [Forwarded("connect_error", "[\"" + JsonEscape(x) + "\"]")] else [])
  {
    FrameTexts(lib, x);
    PacketTexts(lib, x);
  }

  /** Close ends the session silently, and a disconnect after telling a listener. */
  lemma SessionEnds(lib: Library, s: Socket, listening: bool, x: string)
    ensures React(s, listening, Classify(lib, ['1'] + x)) == Reply(None, [])
    ensures React(s, listening, Classify(lib, ['4'] + (['1'] + x)))
            == Reply(None, if listening then [Forwarded("disconnect", "[]")] else [])
  {
    FrameTexts(lib, x);
    PacketTexts(lib, x);
  }

  /** An event is forwarded, without its name among the arguments, exactly when it was subscribed to and somebody listens. */
  lemma SessionForwardsEvent(lib: Library, s: Socket, listening: bool, id: string, json: string,
                             name: string, args: seq<Json>, text: string)
    requires Numerals(lib, id) && NoNumeralFirst(lib, json)
    requires lib.parse(json) == Some(JArray([JString(name)] + args)) && Encodes(lib, args, text)
    ensures Answers(React(s, listening, Classify(lib, ['4'] + (['2'] + (id + json)))), s,
                    if listening && name in s.events then [Forwarded(name, text)] else [])
  {
    EventText(lib, id, json, name, args, text);
  }

  /** Frames that arrive once the session is gone send nothing, and tell a listener of connects, errors and disconnects only. */
  lemma LateTexts(lib: Library, listening: bool, x: string)
    ensures ReactLate(listening, Classify(lib, ['0'] + x)) == [] && ReactLate(listening, Classify(lib, ['2'] + x)) == []
    ensures ReactLate(listening, Classify(lib, ['1'] + x)) == []
    ensures ReactLate(listening, Classify(lib, ['4'] + (['0'] + x))) == if listening then [Forwarded("connect", "[]")] else []
    ensures ReactLate(listening, Classify(lib, ['4'] + (['1'] + x))) == if listening then [Forwarded("disconnect", "[]")] else []
    ensures ReactLate(listening, Classify(lib, ['4'] + (['4'] + x)))
            == if listening then [Forwarded("connect_error", "[\"" + JsonEscape(x) + "\"]")] else []
  {
    FrameTexts(lib, x);
    PacketTexts(lib, x);
  }

  lemma LateEventsAndAcks(lib: Library, listening: bool, id: string, rest: string)
    requires Numerals(lib, id) && NoNumeralFirst(lib, rest)
    ensures ReactLate(listening, Classify(lib, ['4'] + (['2'] + (id + rest)))) == []
    ensures ReactLate(listening, Classify(lib, ['4'] + (['3'] + (id + rest)))) == []
  {
    MessageText(lib, '2', id + rest);
    MessageText(lib, '3', id + rest);
  }

  // ---------------------------------------------------------------- from connecting on

  function Strings(names: seq<string>): seq<Json> {
    seq(|names|, i requires 0 <= i < |names| => JString(names[i]))
  }

  /** A socket connected with a list of names is subscribed to exactly those, and has nothing pending. */
  lemma OpenedSubscribes(lib: Library, authJson: string, eventsJson: string, names: seq<string>, name: string)
    requires lib.parse(eventsJson) == Some(JArray(Strings(names)))
    ensures var s := Opened(lib, authJson, eventsJson);
            (name in s.events <==> name in names) && s.auth == authJson && s.nextWire == 0 && s.acks == map[]
  {
    var items := Strings(names);
    if name in names {
      var i :| 0 <= i < |names| && names[i] == name;
      assert items[i].text == name;
    }
  }

  /** With anything but a list of names it is subscribed to nothing. */
  lemma OpenedSubscribesNothing(lib: Library, authJson: string, eventsJson: string)
    requires forall names :: lib.parse(eventsJson) != Some(JArray(Strings(names)))
    ensures Opened(lib, authJson, eventsJson).events == {}
  {
    if lib.parse(eventsJson).Some? && lib.parse(eventsJson).value.JArray? {
      AllStrings(lib.parse(eventsJson).value.items);
    }
  }

  lemma AllStrings(items: seq<Json>)
    ensures (forall i :: 0 <= i < |items| ==> items[i].JString?) ==> exists names :: items == Strings(names)
  {
    if forall i :: 0 <= i < |items| ==> items[i].JString? {
      var names := seq(|items|, i requires 0 <= i < |items| => items[i].text);
      assert items == Strings(names);
    }
  }

  /** A fresh socket: the open frame is answered with the auth text given, and exactly the events listed are forwarded. */
  lemma FreshSocketBehaves(lib: Library, authJson: string, eventsJson: string, names: seq<string>, x: string,
                           id: string, json: string, name: string, args: seq<Json>, text: string)
    requires lib.parse(eventsJson) == Some(JArray(Strings(names)))
    requires Numerals(lib, id) && NoNumeralFirst(lib, json)
    requires lib.parse(json) == Some(JArray([JString(name)] + args)) && Encodes(lib, args, text)
    ensures var s := Opened(lib, authJson, eventsJson);
            && React(s, true, Classify(lib, ['0'] + x)).outs == [Sent("40" + authJson)]
            && React(s, true, Classify(lib, ['4'] + (['2'] + (id + json)))).outs
               == if name in names then [Forwarded(name, text)] else []
  {
    var s := Opened(lib, authJson, eventsJson);
    OpenedSubscribes(lib, authJson, eventsJson, names, name);
    SessionAnswersFrames(lib, s, true, x);
    SessionForwardsEvent(lib, s, true, id, json, name, args, text);
  }

  // ---------------------------------------------------------------- the wire round trip of an emit

  /**
   A frame this pipe emits, with or without an ack id, is read by the same grammar
   as the event emitted, with the payload as its one argument: parsed when it is
   JSON, as a string when it is not.
   */
  lemma EmitReadsBack(lib: Library, s: Socket, event: string, payload: string, ackId: Option<string>, value: Json, text: string)
    requires Sane(lib) && s.nextWire <= INT_MAX
    requires lib.parse(payload) == Some(value) || (lib.parse(payload).None? && value == JString(payload))
    requires Encodes(lib, [value], text)
    requires lib.encode([JString(event), value]).Some?
    requires lib.parse(lib.encode([JString(event), value]).value) == Some(JArray([JString(event), value]))
    ensures var frame := EmitText(lib, s, event, payload, ackId);
            frame.Some? && Classify(lib, frame.value) == EventPacket(event, text)
  {
    var json := lib.encode([JString(event), value]).value;
    var id := if ackId.Some? then Decimal(s.nextWire) else "";
    DecimalReadsBack(s.nextWire);
    assert [JString(event)] + [value] == [JString(event), value];
    EventText(lib, id, json, event, [value], text);
    TypesBeforeId(id, json);
  }

  lemma TypesBeforeId(id: string, json: string)
    ensures "42" + id + json == ['4'] + (['2'] + (id + json))
  {
  }
}
