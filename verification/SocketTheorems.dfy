/** What a session does with a stream of frames and emits. */
module SocketTheorems {
  import opened Wrappers
  import opened WireText
  import opened SocketModel

  // ---------------------------------------------------------------- the stream as a filter and map

  /** The reply after the first `n` frames of a stream, frame by frame. */
  function Received(lib: Library, s: Socket, listening: bool, frames: seq<string>, n: nat): Reply
    requires n <= |frames|
  {
    if n == 0 then Reply(Some(s), [])
    else
      var r := Received(lib, s, listening, frames, n - 1);
      if r.socket.None? then r
      else
        var next := React(r.socket.value, listening, Classify(lib, frames[n - 1]));
        Reply(next.socket, r.outs + next.outs)
  }

  predicate Closes(packet: Packet) {
    packet.Close? || packet.Disconnected?
  }

  /** How many frames are handled: up to and including the first close or disconnect. */
  function Handled(lib: Library, frames: seq<string>): nat {
    if frames == [] then 0
    else if Closes(Classify(lib, frames[0])) then 1
    else 1 + Handled(lib, frames[1..])
  }

  predicate AckedBefore(lib: Library, frames: seq<string>, k: nat, wire: nat)
    requires k <= |frames|
  {
    exists j :: 0 <= j < k && Acks(Classify(lib, frames[j]), wire)
  }

  predicate Acks(packet: Packet, wire: nat) {
    packet.AckPacket? && packet.wire == wire
  }

  /** What frame `k` yields, from the session as it was before the stream and the frames alone. */
  function Yield(lib: Library, s: Socket, listening: bool, frames: seq<string>, k: nat): seq<Output>
    requires k < |frames|
  {
    match Classify(lib, frames[k])
    case Open => [Sent("40" + s.auth)]
    case Ping => [Sent("3")]
    case Connected => Forward(listening, "connect", "[]")
    case Disconnected => Forward(listening, "disconnect", "[]")
    case Refused(detail) => Forward(listening, "connect_error", ErrorArgs(detail))
    case EventPacket(name, args) => if name in s.events then Forward(listening, name, args) else []
    case AckPacket(wire, args) =>
      if wire in s.acks && !AckedBefore(lib, frames, k, wire) then
        Forward(listening, "__ack:" + s.acks[wire], args)
      else []
    case Ignored => []
    case Close => []
  }

  function Yields(lib: Library, s: Socket, listening: bool, frames: seq<string>, n: nat): seq<Output>
    requires n <= |frames|
  {
    if n == 0 then [] else Yields(lib, s, listening, frames, n - 1) + Yield(lib, s, listening, frames, n - 1)
  }

  lemma {:induction false} HandledMeans(lib: Library, frames: seq<string>)
    ensures Handled(lib, frames) <= |frames|
    ensures forall k :: 0 <= k < Handled(lib, frames) - 1 ==> !Closes(Classify(lib, frames[k]))
    ensures Handled(lib, frames) < |frames| ==>
              0 < Handled(lib, frames) && Closes(Classify(lib, frames[Handled(lib, frames) - 1]))
  {
    if frames != [] && !Closes(Classify(lib, frames[0])) {
      HandledMeans(lib, frames[1..]);
      var n := Handled(lib, frames[1..]);
      forall k | 0 <= k < n
        ensures !Closes(Classify(lib, frames[k]))
      {
        if k > 0 {
          assert frames[k] == frames[1..][k - 1];
        }
      }
    }
  }

  /** `now` is the session s with the acks of the first n frames taken, and nothing else changed. */
  ghost predicate OpenAfter(lib: Library, s: Socket, now: Socket, frames: seq<string>, n: nat)
    requires n <= |frames|
  {
    && now == s.(acks := now.acks)
    && (forall w :: w in now.acks <==> w in s.acks && !AckedBefore(lib, frames, n, w))
    && (forall w :: w in now.acks ==> now.acks[w] == s.acks[w])
  }

  /** While nothing has closed the session, only its pending acks have changed. */
  lemma {:induction false} ReceivedOpen(lib: Library, s: Socket, listening: bool, frames: seq<string>, n: nat)
    requires n <= |frames| && forall k :: 0 <= k < n ==> !Closes(Classify(lib, frames[k]))
    ensures var r := Received(lib, s, listening, frames, n);
            && r.outs == Yields(lib, s, listening, frames, n)
            && r.socket.Some? && OpenAfter(lib, s, r.socket.value, frames, n)
  {
    if n > 0 {
      ReceivedOpen(lib, s, listening, frames, n - 1);
      OneMoreFrame(lib, s, Received(lib, s, listening, frames, n - 1).socket.value, listening, frames, n - 1);
      ReceivedNext(lib, s, listening, frames, n - 1);
    }
  }

  lemma ReceivedNext(lib: Library, s: Socket, listening: bool, frames: seq<string>, k: nat)
    requires k < |frames| && Received(lib, s, listening, frames, k).socket.Some?
    ensures var r := Received(lib, s, listening, frames, k);
            var next := React(r.socket.value, listening, Classify(lib, frames[k]));
            Received(lib, s, listening, frames, k + 1) == Reply(next.socket, r.outs + next.outs)
  {
  }

  lemma ClosingFrame(lib: Library, s: Socket, listening: bool, frames: seq<string>, k: nat)
    requires k < |frames| && Closes(Classify(lib, frames[k]))
    requires forall j :: 0 <= j < k ==> !Closes(Classify(lib, frames[j]))
    ensures var r := Received(lib, s, listening, frames, k + 1);
            r.socket.None? && r.outs == Yields(lib, s, listening, frames, k + 1)
  {
    ReceivedOpen(lib, s, listening, frames, k);
    ReceivedNext(lib, s, listening, frames, k);
    YieldsReaction(lib, s, Received(lib, s, listening, frames, k).socket.value, listening, frames, k);
  }

  lemma OneMoreFrame(lib: Library, s: Socket, now: Socket, listening: bool, frames: seq<string>, k: nat)
    requires k < |frames| && OpenAfter(lib, s, now, frames, k) && !Closes(Classify(lib, frames[k]))
    ensures var r := React(now, listening, Classify(lib, frames[k]));
            && r.socket.Some? && OpenAfter(lib, s, r.socket.value, frames, k + 1)
            && r.outs == Yield(lib, s, listening, frames, k)
  {
    AckedOneMore(lib, frames, k + 1);
    OpenReacts(now, listening, Classify(lib, frames[k]));
    YieldsReaction(lib, s, now, listening, frames, k);
  }

  /** A packet that does not close the session takes at most the ack it answers. */
  lemma OpenReacts(s: Socket, listening: bool, packet: Packet)
    requires !Closes(packet)
    ensures var r := React(s, listening, packet).socket;
            && r.Some? && r.value == s.(acks := r.value.acks)
            && (forall w :: w in r.value.acks <==> w in s.acks && !Acks(packet, w))
            && (forall w :: w in r.value.acks ==> r.value.acks[w] == s.acks[w])
  {
  }

  /** The reaction of the session as it is now is what the frames before determine. */
  lemma YieldsReaction(lib: Library, s: Socket, now: Socket, listening: bool, frames: seq<string>, k: nat)
    requires k < |frames| && OpenAfter(lib, s, now, frames, k)
    ensures React(now, listening, Classify(lib, frames[k])).outs == Yield(lib, s, listening, frames, k)
  {
  }

  lemma AckedOneMore(lib: Library, frames: seq<string>, n: nat)
    requires 0 < n <= |frames|
    ensures forall w: nat :: AckedBefore(lib, frames, n, w) <==>
              AckedBefore(lib, frames, n - 1, w) || Acks(Classify(lib, frames[n - 1]), w)
  {
    forall w: nat
      ensures AckedBefore(lib, frames, n, w) <==> AckedBefore(lib, frames, n - 1, w) || Acks(Classify(lib, frames[n - 1]), w)
    {
      if AckedBefore(lib, frames, n - 1, w) {
        var j :| 0 <= j < n - 1 && Acks(Classify(lib, frames[j]), w);
        assert Acks(Classify(lib, frames[j]), w);
      }
    }
  }

  /**
   The pipe refines a pure function of the frames: the outputs are those of the
   frames up to the first close or disconnect, in order -- a pong per ping, the
   auth payload per open, subscribed events only, each pending ack once -- and
   nothing after it. The session survives exactly when there was none.
   */
  lemma StreamIsFilterMap(lib: Library, s: Socket, listening: bool, frames: seq<string>)
    ensures var r := Received(lib, s, listening, frames, |frames|);
            && Handled(lib, frames) <= |frames|
            && r.outs == Yields(lib, s, listening, frames, Handled(lib, frames))
            && (r.socket.None? <==> exists k :: 0 <= k < |frames| && Closes(Classify(lib, frames[k])))
  {
    HandledMeans(lib, frames);
    var n := Handled(lib, frames);
    if exists k :: 0 <= k < |frames| && Closes(Classify(lib, frames[k])) {
      var k :| 0 <= k < |frames| && Closes(Classify(lib, frames[k]));
      assert 0 < n && Closes(Classify(lib, frames[n - 1])) by {
        HandledReachesClose(lib, frames, k);
      }
      ClosingFrame(lib, s, listening, frames, n - 1);
      ClosedStays(lib, s, listening, frames, n, |frames|);
    } else {
      assert n == |frames|;
      ReceivedOpen(lib, s, listening, frames, n);
    }
  }

  lemma {:induction false} HandledReachesClose(lib: Library, frames: seq<string>, k: nat)
    requires k < |frames| && Closes(Classify(lib, frames[k]))
    ensures 0 < Handled(lib, frames) <= k + 1 && Handled(lib, frames) <= |frames|
    ensures Closes(Classify(lib, frames[Handled(lib, frames) - 1]))
  {
    if !Closes(Classify(lib, frames[0])) {
      HandledReachesClose(lib, frames[1..], k - 1);
    }
  }

  lemma {:induction false} ClosedStays(lib: Library, s: Socket, listening: bool, frames: seq<string>, n: nat, m: nat)
    requires n <= m <= |frames| && Received(lib, s, listening, frames, n).socket.None?
    ensures Received(lib, s, listening, frames, m) == Received(lib, s, listening, frames, n)
    decreases m - n
  {
    if n < m {
      ClosedStays(lib, s, listening, frames, n, m - 1);
    }
  }

  // ---------------------------------------------------------------- ack routing

  datatype Action =
    | FrameIn(text: string, listening: bool)
    | EmitOut(event: string, payload: string, ackId: Option<string>)

  function Perform(lib: Library, s: Socket, a: Action): Reply {
    match a
    case FrameIn(text, listening) => React(s, listening, Classify(lib, text))
    case EmitOut(event, payload, ackId) => Emit(lib, s, event, payload, ackId)
  }

  /** The session after the first `n` actions; None once closed. */
  function Session(lib: Library, s: Socket, acts: seq<Action>, n: nat): Option<Socket>
    requires n <= |acts|
  {
    if n == 0 then Some(s)
    else
      var before := Session(lib, s, acts, n - 1);
      if before.None? then None else Perform(lib, before.value, acts[n - 1]).socket
  }

  /** The JS ack ids of the first `n` actions, in emit order: position = wire id. */
  function AckIds(acts: seq<Action>, n: nat): seq<string>
    requires n <= |acts|
  {
    if n == 0 then []
    else
      var ids := AckIds(acts, n - 1);
      match acts[n - 1]
      case EmitOut(_, _, Some(ackId)) => ids + [ackId]
      case _ => ids
  }

  /** The wire id whose ack action `k` forwards, if it forwards one. */
  function Forwards(lib: Library, s: Socket, acts: seq<Action>, k: nat): Option<nat>
    requires k < |acts|
  {
    var before := Session(lib, s, acts, k);
    if before.None? || acts[k].EmitOut? then None
    else
      match Classify(lib, acts[k].text)
      case AckPacket(wire, _) => if wire in before.value.acks then Some(wire) else None
      case _ => None
  }

  /** Wire ids are handed out in order and pending keys name emits already made. */
  ghost predicate AcksNumbered(s: Socket, ids: seq<string>) {
    && s.nextWire == |ids|
    && forall w :: w in s.acks ==> w < |ids| && s.acks[w] == ids[w]
  }

  lemma PerformNumbers(lib: Library, s: Socket, a: Action, acts: seq<Action>, n: nat)
    requires n < |acts| && acts[n] == a && AcksNumbered(s, AckIds(acts, n))
    requires Perform(lib, s, a).socket.Some?
    ensures AcksNumbered(Perform(lib, s, a).socket.value, AckIds(acts, n + 1))
  {
  }

  lemma {:induction false} SessionNumbers(lib: Library, s: Socket, acts: seq<Action>, n: nat)
    requires n <= |acts| && s.nextWire == 0 && s.acks == map[]
    requires Session(lib, s, acts, n).Some?
    ensures AcksNumbered(Session(lib, s, acts, n).value, AckIds(acts, n))
  {
    if n > 0 {
      SessionNumbers(lib, s, acts, n - 1);
      PerformNumbers(lib, Session(lib, s, acts, n - 1).value, acts[n - 1], acts, n - 1);
    }
  }

  /**
   An acked emit is numbered by the emits before it, so within a session no wire
   id is used twice, and its frame carries that number.
   */
  lemma EmitCarriesItsNumber(lib: Library, s: Socket, acts: seq<Action>, k: nat)
    requires k < |acts| && s.nextWire == 0 && s.acks == map[]
    requires Session(lib, s, acts, k).Some? && acts[k].EmitOut? && acts[k].ackId.Some?
    ensures var before := Session(lib, s, acts, k).value;
            && before.nextWire == |AckIds(acts, k)|
            && before.nextWire !in before.acks
            && (forall m :: k < m <= |acts| ==> |AckIds(acts, m)| > |AckIds(acts, k)|)
  {
    SessionNumbers(lib, s, acts, k);
    forall m | k < m <= |acts|
      ensures |AckIds(acts, m)| > |AckIds(acts, k)|
    {
      AckIdsGrow(acts, k + 1, m);
    }
  }

  lemma {:induction false} AckIdsGrow(acts: seq<Action>, n: nat, m: nat)
    requires n <= m <= |acts|
    ensures AckIds(acts, n) <= AckIds(acts, m)
    decreases m - n
  {
    if n < m {
      AckIdsGrow(acts, n, m - 1);
    }
  }

  /** A forwarded ack carries the JS id of the emit its wire number names, made earlier in the session. */
  lemma AckGoesToItsEmit(lib: Library, s: Socket, acts: seq<Action>, k: nat, wire: nat)
    requires k < |acts| && s.nextWire == 0 && s.acks == map[]
    requires Forwards(lib, s, acts, k) == Some(wire)
    ensures var packet := Classify(lib, acts[k].text);
            && wire < |AckIds(acts, k)|
            && packet.AckPacket?
            && Perform(lib, Session(lib, s, acts, k).value, acts[k]).outs
               == Forward(acts[k].listening, "__ack:" + AckIds(acts, k)[wire], packet.args)
  {
    SessionNumbers(lib, s, acts, k);
  }

  /** Once forwarded, a wire id is never pending again. */
  lemma {:induction false} ForwardedIsGone(lib: Library, s: Socket, acts: seq<Action>, i: nat, j: nat, wire: nat)
    requires i < j <= |acts| && s.nextWire == 0 && s.acks == map[]
    requires Forwards(lib, s, acts, i) == Some(wire)
    ensures Session(lib, s, acts, j).Some? ==>
              wire !in Session(lib, s, acts, j).value.acks && wire < Session(lib, s, acts, j).value.nextWire
    decreases j - i
  {
    SessionNumbers(lib, s, acts, i);
    if i + 1 < j {
      ForwardedIsGone(lib, s, acts, i, j - 1, wire);
      if Session(lib, s, acts, j).Some? {
        GoneStaysGone(lib, Session(lib, s, acts, j - 1).value, acts[j - 1], wire);
      }
    }
  }

  lemma GoneStaysGone(lib: Library, s: Socket, a: Action, wire: nat)
    requires wire !in s.acks && wire < s.nextWire && Perform(lib, s, a).socket.Some?
    ensures wire !in Perform(lib, s, a).socket.value.acks && wire < Perform(lib, s, a).socket.value.nextWire
  {
  }

  /** Each registered ack is forwarded at most once. */
  lemma AckForwardedOnce(lib: Library, s: Socket, acts: seq<Action>, i: nat, j: nat)
    requires i < j < |acts| && s.nextWire == 0 && s.acks == map[]
    requires Forwards(lib, s, acts, i).Some?
    ensures Forwards(lib, s, acts, j) != Forwards(lib, s, acts, i)
  {
    ForwardedIsGone(lib, s, acts, i, j, Forwards(lib, s, acts, i).value);
  }

  /** Action k is an ack frame that reaches the JS callback `ackId`. */
  predicate Answers(lib: Library, s: Socket, acts: seq<Action>, k: nat, ackId: string)
    requires k < |acts|
  {
    var wire := Forwards(lib, s, acts, k);
    wire.Some? && Session(lib, s, acts, k).value.acks[wire.value] == ackId
  }

  /** When every emit brings its own JS ack id, no callback is reached twice. */
  lemma CallbackReachedOnce(lib: Library, s: Socket, acts: seq<Action>, i: nat, j: nat, ackId: string)
    requires i < |acts| && j < |acts| && s.nextWire == 0 && s.acks == map[]
    requires Distinct(AckIds(acts, |acts|))
    requires Answers(lib, s, acts, i, ackId) && Answers(lib, s, acts, j, ackId)
    ensures i == j
  {
    var v, w := Forwards(lib, s, acts, i).value, Forwards(lib, s, acts, j).value;
    NumberOfCallback(lib, s, acts, i, v, ackId);
    NumberOfCallback(lib, s, acts, j, w, ackId);
    var ids := AckIds(acts, |acts|);
    assert ids[v] == ids[w] == ackId;
    assert v == w;
    if i < j {
      AckForwardedOnce(lib, s, acts, i, j);
    } else if j < i {
      AckForwardedOnce(lib, s, acts, j, i);
    }
  }

  lemma NumberOfCallback(lib: Library, s: Socket, acts: seq<Action>, k: nat, wire: nat, ackId: string)
    requires k < |acts| && s.nextWire == 0 && s.acks == map[]
    requires Forwards(lib, s, acts, k) == Some(wire) && Answers(lib, s, acts, k, ackId)
    ensures wire < |AckIds(acts, |acts|)| && AckIds(acts, |acts|)[wire] == ackId
  {
    SessionNumbers(lib, s, acts, k);
    AckIdsGrow(acts, k, |acts|);
  }

  // ---------------------------------------------------------------- emits and frames in any order

  /** Action m is the acked emit that took wire id w. */
  predicate EmittedAt(acts: seq<Action>, m: nat, w: nat)
    requires m < |acts|
  {
    acts[m].EmitOut? && acts[m].ackId.Some? && |AckIds(acts, m)| == w
  }

  /** No ack frame for w came after action m and before action n. */
  ghost predicate Unacked(lib: Library, acts: seq<Action>, m: nat, n: nat, w: nat)
    requires n <= |acts|
  {
    forall k :: m < k < n && acts[k].FrameIn? ==> !Acks(Classify(lib, acts[k].text), w)
  }

  /** w was taken by one of the first n actions, and no ack frame for it came since. */
  ghost predicate Awaited(lib: Library, acts: seq<Action>, n: nat, w: nat)
    requires n <= |acts|
  {
    exists m :: 0 <= m < n && EmittedAt(acts, m, w) && Unacked(lib, acts, m, n, w)
  }

  lemma AwaitedAfterFrame(lib: Library, acts: seq<Action>, n: nat, w: nat)
    requires n < |acts| && acts[n].FrameIn?
    ensures Awaited(lib, acts, n + 1, w) <==> Awaited(lib, acts, n, w) && !Acks(Classify(lib, acts[n].text), w)
  {
    if Awaited(lib, acts, n, w) && !Acks(Classify(lib, acts[n].text), w) {
      var m :| 0 <= m < n && EmittedAt(acts, m, w) && Unacked(lib, acts, m, n, w);
      assert Unacked(lib, acts, m, n + 1, w);
    }
    if Awaited(lib, acts, n + 1, w) {
      var m :| 0 <= m < n + 1 && EmittedAt(acts, m, w) && Unacked(lib, acts, m, n + 1, w);
      assert Unacked(lib, acts, m, n, w);
    }
  }

  lemma AwaitedAfterEmit(lib: Library, acts: seq<Action>, n: nat, w: nat)
    requires n < |acts| && acts[n].EmitOut?
    ensures Awaited(lib, acts, n + 1, w) <==> Awaited(lib, acts, n, w) || EmittedAt(acts, n, w)
  {
    if Awaited(lib, acts, n, w) {
      var m :| 0 <= m < n && EmittedAt(acts, m, w) && Unacked(lib, acts, m, n, w);
      assert Unacked(lib, acts, m, n + 1, w);
    }
    if EmittedAt(acts, n, w) {
      assert Unacked(lib, acts, n, n + 1, w);
    }
    if Awaited(lib, acts, n + 1, w) && !EmittedAt(acts, n, w) {
      var m :| 0 <= m < n + 1 && EmittedAt(acts, m, w) && Unacked(lib, acts, m, n + 1, w);
      assert Unacked(lib, acts, m, n, w);
    }
  }

  /** What one action does to the pending acks, and to nothing else but the counter. */
  lemma AcksAfter(lib: Library, s: Socket, a: Action, w: nat)
    requires Perform(lib, s, a).socket.Some?
    ensures var t := Perform(lib, s, a).socket.value;
            && t.events == s.events && t.auth == s.auth
            && (w in t.acks <==>
                  match a
                  case FrameIn(text, _) => w in s.acks && !Acks(Classify(lib, text), w)
                  case EmitOut(_, _, ackId) => w in s.acks || (ackId.Some? && w == s.nextWire))
  {
  }

  /** A wire id is pending exactly when an emit took it and no ack frame for it came since, whatever else did. */
  lemma {:induction false} PendingExactly(lib: Library, s: Socket, acts: seq<Action>, n: nat, w: nat)
    requires n <= |acts| && s.nextWire == 0 && s.acks == map[] && Session(lib, s, acts, n).Some?
    ensures var now := Session(lib, s, acts, n).value;
            now.events == s.events && now.auth == s.auth && (w in now.acks <==> Awaited(lib, acts, n, w))
  {
    if n > 0 {
      PendingExactly(lib, s, acts, n - 1, w);
      SessionNumbers(lib, s, acts, n - 1);
      AcksAfter(lib, Session(lib, s, acts, n - 1).value, acts[n - 1], w);
      match acts[n - 1] {
        case FrameIn(_, _) => AwaitedAfterFrame(lib, acts, n - 1, w);
        case EmitOut(_, _, _) => AwaitedAfterEmit(lib, acts, n - 1, w);
      }
    }
  }

  /** What action k sends and forwards, read off the first session and the actions alone. */
  ghost function Produces(lib: Library, s: Socket, acts: seq<Action>, k: nat): seq<Output>
    requires k < |acts|
  {
    match acts[k]
    case EmitOut(event, payload, ackId) =>
      (match EmitJson(lib, event, payload)
       case None => []
       case Some(json) => [Sent("42" + (if ackId.Some? then Decimal(|AckIds(acts, k)|) else "") + json)])
    case FrameIn(text, listening) =>
      match Classify(lib, text)
      case AckPacket(wire, args) =>
        if Awaited(lib, acts, k, wire) && wire < |AckIds(acts, k)| then Forward(listening, "__ack:" + AckIds(acts, k)[wire], args)
        else []
      case packet => React(s, listening, packet).outs
  }

  /** With emits and frames in any order, and listeners coming and going, every output is determined by the actions before it. */
  lemma OutputsDetermined(lib: Library, s: Socket, acts: seq<Action>, k: nat)
    requires k < |acts| && s.nextWire == 0 && s.acks == map[] && Session(lib, s, acts, k).Some?
    ensures Perform(lib, Session(lib, s, acts, k).value, acts[k]).outs == Produces(lib, s, acts, k)
  {
    var now := Session(lib, s, acts, k).value;
    SessionNumbers(lib, s, acts, k);
    match acts[k] {
      case EmitOut(event, payload, ackId) =>
      case FrameIn(text, listening) =>
        var packet := Classify(lib, text);
        PendingExactly(lib, s, acts, k, if packet.AckPacket? then packet.wire else 0);
        if !packet.AckPacket? {
          SameReaction(now, s, listening, packet);
        }
    }
  }

  lemma SameReaction(now: Socket, s: Socket, listening: bool, packet: Packet)
    requires now.events == s.events && now.auth == s.auth && !packet.AckPacket?
    ensures React(now, listening, packet).outs == React(s, listening, packet).outs
  {
  }

  // ---------------------------------------------------------------- the wire round trip

  /** The frame of an acked emit decodes, by the pipe's own splitter, to its wire id and its JSON text. */
  lemma EmitFrameDecodes(lib: Library, s: Socket, event: string, payload: string, ackId: string)
    requires Sane(lib) && s.nextWire <= INT_MAX
    ensures match EmitText(lib, s, event, payload, Some(ackId))
            case None => true
            case Some(text) =>
              text[..2] == "42"
              && (var n := LeadingDigits(lib, text[2..]);
                  IntOf(text[2..][..n]) == Some(s.nextWire)
                  && Some(text[2..][n..]) == EmitJson(lib, event, payload))
  {
    match EmitJson(lib, event, payload) {
      case None =>
      case Some(json) =>
        IdSplitsBack(lib, s.nextWire, json);
        var text := EmitText(lib, s, event, payload, Some(ackId)).value;
        assert text[2..] == Decimal(s.nextWire) + json;
    }
  }

  function EmitJson(lib: Library, event: string, payload: string): Option<string> {
    lib.encode([JString(event), match lib.parse(payload) case Some(v) => v case None => JString(payload)])
  }

  /**
   Whenever an ack is pending, a server that answers with its wire id reaches
   exactly the JS callback that was registered, with the server's arguments, and
   no other pending ack is touched.
   */
  lemma AckReplyReachesItsCallback(lib: Library, s: Socket, wire: nat, args: string)
    requires Sane(lib) && wire in s.acks && wire <= INT_MAX && (args != [] ==> !lib.isNumber(args[0]))
    ensures React(s, true, Classify(lib, "43" + Decimal(wire) + args))
            == Reply(Some(s.(acks := s.acks - {wire})),
                     [Forwarded("__ack:" + s.acks[wire], if args == [] then "[]" else args)])
  {
    AckTextClassifies(lib, wire, args);
  }

  lemma AckTextClassifies(lib: Library, wire: nat, args: string)
    requires Sane(lib) && wire <= INT_MAX && (args != [] ==> !lib.isNumber(args[0]))
    ensures Classify(lib, "43" + Decimal(wire) + args) == AckPacket(wire, if args == [] then "[]" else args)
  {
    var digits := Decimal(wire) + args;
    AckDigitsClassify(lib, wire, args);
    MessageTypes(lib, digits);
    TypesFirst(Decimal(wire), args);
  }

  lemma TypesFirst(digits: string, args: string)
    ensures "43" + digits + args == ['4'] + (['3'] + (digits + args))
  {
  }

  lemma AckDigitsClassify(lib: Library, wire: nat, args: string)
    requires Sane(lib) && wire <= INT_MAX && (args != [] ==> !lib.isNumber(args[0]))
    ensures ClassifyAck(lib, Decimal(wire) + args) == AckPacket(wire, if args == [] then "[]" else args)
  {
    IdSplitsBack(lib, wire, args);
  }

  lemma MessageTypes(lib: Library, rest: string)
    ensures Classify(lib, ['4'] + (['3'] + rest)) == ClassifyAck(lib, rest)
  {
    assert (['4'] + (['3'] + rest))[1..] == ['3'] + rest;
    assert (['3'] + rest)[1..] == rest;
  }
}
