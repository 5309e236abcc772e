# AegisLink state machines in Dafny

A model, with proofs, of the stateful parts of AegisLink that keep promises over
whole runs rather than single calls:

- **Embedded Tor on iOS.** `AegisTorBridge` (Objective-C) is a start/stop state
  machine with generation-numbered attempts, one-shot completions, retry chains
  and watchdogs. `BridgeModel` states it as a transition system over atomic
  events, `BridgeSafety`, `BridgeReports` and `BridgeRuns` prove what every run
  keeps, `BridgeCircuit` and `BridgeFailures` when calls succeed and why they fail,
  `BridgeTiming` and `BridgeBounds` bound how long an attempt can take,
  `BridgeHistory` holds its retries to a reference on the list of probes made,
  `BridgeCommands` says exactly when AUTHENTICATE is sent twice on a connection,
  `BridgeWaits` which attempts get their full wait for a circuit, and the class in
  `TorBridge` is proved to do what the model says. `LogicModel`, `LogicSafety`,
  `LogicAnswers`, `LogicRouting`, `LogicSockets`, `LogicTiming` and the class in
  `TorLogic` put the Swift layer on top: JS promises coalesced over one bridge
  attempt, with a FIFO main queue between, and the sockets that must not outlive it.
- **The socket pipe.** `WireText`, `SocketModel`, `SocketTheorems`, `SocketTexts`,
  `SocketIsolation` and the class in `SocketPipe` cover the hand-written Engine.IO
  revision 4 and Socket.IO revision 5 text protocol, its six dictionaries and its
  ack table.
- **The deck.** `ChildList`, `DeckOrder`, `ThumbRail` and `DeckStage` cover the
  slide list as a filtered view of the child list, the cursor and derived
  attributes, and the in-place thumbnail reconciliation.
- **The design canvas.** `CanvasOrder`, `CanvasDrag`, `Viewport` and
  `SectionNav` cover persisted order, deletions scoped to a source revision,
  live drag, zoom and section navigation.
- **Smaller cores.** `Animations` (easings and keyframes over the reals) and
  `RandomFill` (chunked filling of byte views).

Each callback, timer block and method call is one atomic step. File-system and
framework answers are parameters of the step (`Probe`), and the only assumption
made about Tor.framework is written in `BridgeModel.Enabled`: a control
connection makes no callback after it has been disconnected.
`BridgeRuns.ReplyAfterDisconnectBreaksChain` shows that it is needed. Safety
holds for blocks run at any time; the time bounds assume blocks run when due and
`connect:` takes no time.

Where the code and its comments differ, the code is modelled:

- The comments speak of a 60 s wait for a circuit. The 15 s AUTHENTICATE watchdog
  is not disarmed by success, so an attempt that authenticates itself never gets
  more than 15 s; the 60 s are guaranteed exactly when the connection was
  authenticated before (`BridgeWaits.FullWaitExactlyWhenAuthed`).
- A comment has a late AUTHENTICATE reply save the next start from sending a second
  command. A start that comes before the reply does send it
  (`BridgeCommands.OneCommandExactly`, `RepeatedAuthenticateFailsHealthyAttempt`).
- The bridge's guard against a second attempt is called belt-and-braces because the
  Swift layer coalesces. It is reached when a stop() block runs after a restart
  (`LogicRouting.GuardIsReachedExactly`, `ClashIsReachable`).
- jsonEscape leaves control characters alone
  (`WireText.EscapeIsJsonUnlessControl` says exactly when its result is JSON).
- DCSection memoises its order under a key joined with a bar, which is not
  injective for ids that contain one (`CanvasOrder.MemoExactly`, `MemoGoesStale`);
  the same key decides whether a drag is committed (`CanvasDrag.BarHidesDrag`).
- The default canvas scale 1 is not clamped (`Viewport.ScaleWithinLimits`,
  `DefaultScaleEscapes`).
- A slotchange event that also reports a host change is dropped when a move or
  delete left the squelch flag set (`DeckStage.Deck.HostChange`,
  `DeckStage.HostChangeMissed`).
- Menu and drag keep a position across slot changes. A move from a position past the
  end, or before a slide that is gone, raises after the index has moved
  (`DeckStage.Deck.MoveSlide`, `MenuOutlivesSlide`, `MoveBeforeGone`), and a drop moves
  whichever slide the position names by then (`DeckStage.ThumbDrag.Drop`,
  `DragNamesAnother`).
- A socket connected between stop() and its queued block stays open with Tor off
  (`LogicSockets.SocketsDoomedExactly`, `DoomedOutlivesTor`).

`dafny verify dfyconfig.toml` verifies the project.

## Model

| member | source | states |
|---|---|---|
| BridgeSafety.StepKeepsInv | mobile/plugins/withTorEmbeddedIOS.js:252-615 | every method call, timer firing and framework callback keeps: observersAdded == controllerAuthed, which implies a controller, which implies thread and configuration; observers once per connection; every start call completed exactly once or in flight; running implies nobody pending |
| BridgeSafety.RunKeepsInv | mobile/plugins/withTorEmbeddedIOS.js:252-615 | the same invariant after every legal run, in any interleaving |
| BridgeRuns.OneThreadPerProcess | mobile/plugins/withTorEmbeddedIOS.js:291-294 | over any run of starts, failures, stops and restarts at most one Tor thread is allocated |
| BridgeRuns.ObserversRegisteredOnce | mobile/plugins/withTorEmbeddedIOS.js:553-555 | no control connection has its observers registered twice, however late authentication replies arrive |
| BridgeRuns.AttemptsConserved | mobile/plugins/withTorEmbeddedIOS.js:252-279 | starts = completions called + (1 if one is pending); each call is completed exactly once unless it is the pending one; a running Tor has nothing pending |
| BridgeRuns.StaleStepStutters | mobile/plugins/withTorEmbeddedIOS.js:366-425 | a block captured by an older generation changes nothing when it runs |
| BridgeRuns.StaleFiringsAreInert | mobile/plugins/withTorEmbeddedIOS.js:366-596 | erasing every stale firing from a run gives a legal run that ends with the same fields, completions and live blocks |
| BridgeRuns.CircuitLastsUntilStop | mobile/plugins/withTorEmbeddedIOS.js:264-267 | once running, every start before the next stop completes at once with its own port and arms nothing |
| BridgeRuns.LateCircuitServesLaterStarts | mobile/plugins/withTorEmbeddedIOS.js:576-582 | a circuit that establishes after its attempt timed out makes later starts succeed until a stop |
| BridgeCircuit.RunningExactly | mobile/plugins/withTorEmbeddedIOS.js:252-615 | Tor counts as running exactly when a circuit was reported established since the last stop() |
| BridgeCircuit.RunningIsConnected | mobile/plugins/withTorEmbeddedIOS.js:525-615 | a running Tor has an authenticated controller with its observers |
| BridgeCircuit.SuccessExactly | mobile/plugins/withTorEmbeddedIOS.js:252-283 | a call succeeds exactly when it is made while Tor runs, with its own port, or is pending when a circuit is established |
| BridgeCircuit.SuccessNeedsCircuit | mobile/plugins/withTorEmbeddedIOS.js:576-615 | no call succeeds between a stop() and the next established circuit |
| BridgeCircuit.SuccessCarriesItsPort | mobile/plugins/withTorEmbeddedIOS.js:252-283 | over every legal run, a success carries the port of its own start call |
| BridgeFailures.FailureExactly | mobile/plugins/withTorEmbeddedIOS.js:252-615 | an event fails a call with a given error exactly under that error's cause, for all eleven errors |
| BridgeRuns.ReplyAfterDisconnectBreaksChain | mobile/plugins/withTorEmbeddedIOS.js:533-539 | without the assumption that a disconnected connection is silent, the unconditional controllerAuthed assignment breaks the invariant: a concrete run |
| BridgeCommands.ArmsExactly | mobile/plugins/withTorEmbeddedIOS.js:361-541 | an event sends AUTHENTICATE, or takes the re-attach fast path, exactly when the guards on its way through the connect stage say so |
| BridgeCommands.OneCommandExactly | mobile/plugins/withTorEmbeddedIOS.js:472-541 | a connection is sent one AUTHENTICATE at a time, and none once authenticated, in exactly the runs where no attempt gets through the connect stage unauthenticated while a command on that connection is unanswered |
| BridgeCommands.AuthedIsNeverRejected | mobile/plugins/withTorEmbeddedIOS.js:524-540 | in those runs no attempt is failed as rejected on an authenticated connection, and no reply is outstanding there |
| BridgeCommands.RepeatedAuthenticateFailsHealthyAttempt | mobile/plugins/withTorEmbeddedIOS.js:524-540 | whenever a command is repeated, from any reachable state: the late success of the first and the rejection of the second fail the waiting attempt although the connection is authenticated |
| BridgeCommands.RepeatIsReachable | mobile/plugins/withTorEmbeddedIOS.js:515-541 | a start after 15 s of silence repeats the command: a concrete legal run |
| BridgeCommands.RunKeepsLoneRetry | mobile/plugins/withTorEmbeddedIOS.js:361-479 | while an attempt polls or retries it has one block, no command outstanding, and a caller waiting or an authenticated connection |
| BridgeTiming.AttemptSettlesInTime | mobile/plugins/withTorEmbeddedIOS.js:361-596 | with blocks run on time, a pending attempt has a live block of its generation and began at most 77,250 ms ago |
| BridgeHistory.RetriesExactly | mobile/plugins/withTorEmbeddedIOS.js:361-470 | in every punctual run an attempt is in the phase its list of probes calls for: it polls, dials, is through, or has failed for a missing or unreadable port file or for want of a connection; probe number n comes n times 250 ms after the start, and no other block of the attempt is armed |
| BridgeHistory.ChainRunsOut | mobile/plugins/withTorEmbeddedIOS.js:379-470 | a call fails for a missing port file only 15,250 ms after its start with 62 probes that found none, and for want of a connection only after nine failed connects 250 ms apart from the probe that found the file |
| BridgeBounds.BoundIsAttained | mobile/plugins/withTorEmbeddedIOS.js:361-596 | a punctual run from a fresh process in which an attempt is still pending after exactly 77,250 ms |
| BridgeBounds.UnauthedSettlesInTime | mobile/plugins/withTorEmbeddedIOS.js:361-541 | while its connection is not authenticated, a pending attempt is at most 32,250 ms old |
| BridgeBounds.UnauthedBoundIsAttained | mobile/plugins/withTorEmbeddedIOS.js:361-541 | a punctual run from a fresh process in which an unauthenticated attempt is pending after exactly 32,250 ms |
| BridgeWaits.FullWaitExactlyWhenAuthed | mobile/plugins/withTorEmbeddedIOS.js:472-596 | an attempt that gets through to Tor is guaranteed its 60 s, ending earlier only by success or stop(), exactly when the connection was authenticated before, even if Tor rejects no command |
| BridgeWaits.ReattachedIsGranted | mobile/plugins/withTorEmbeddedIOS.js:472-479 | a re-attached attempt stays pending, succeeds, is stopped, or fails for want of a circuit no earlier than 60 s, whatever Tor answers |
| BridgeWaits.AcceptedIsCutShort | mobile/plugins/withTorEmbeddedIOS.js:515-541 | every attempt that sends AUTHENTICATE has a punctual continuation in which the command is accepted and the attempt fails as silent after 15 s |
| BridgeWaits.FreshAttemptNeverGetsCircuitWait | mobile/plugins/withTorEmbeddedIOS.js:515-541 | an attempt that sent AUTHENTICATE is settled within 15 s of sending it in every punctual run |
| BridgeWaits.AcceptedAttemptTimesOut | mobile/plugins/withTorEmbeddedIOS.js:515-541 | the shortest such run from a fresh process |
| BridgeTiming.RetryChainDescends | mobile/plugins/withTorEmbeddedIOS.js:361-479 | every block only arms a block of a lower stage, or of its own stage with fewer retries left |
| TorBridge.AegisTorBridge.SettleWithSuccess | mobile/plugins/withTorEmbeddedIOS.js:252-258 | the one-shot, generation-guarded settlement |
| TorBridge.AegisTorBridge.StartWithSocksPort | mobile/plugins/withTorEmbeddedIOS.js:260-359 | refuses, resolves at once, re-attaches or launches the only thread, then polls |
| TorBridge.AegisTorBridge.PollForControlPortFile | mobile/plugins/withTorEmbeddedIOS.js:361-389 | the poll chain: inert when superseded, connect when the file has content, fail after attempt 60 |
| TorBridge.AegisTorBridge.ConnectAndAuthenticate | mobile/plugins/withTorEmbeddedIOS.js:420-541 | controller reuse, eight connect retries, re-attach fast path, cookie checks, AUTHENTICATE with its watchdog |
| TorBridge.AegisTorBridge.AuthenticateCompleted | mobile/plugins/withTorEmbeddedIOS.js:524-540 | failure settles its own generation; success marks the connection, registers observers, arms the circuit wait |
| TorBridge.AegisTorBridge.RegisterControlObservers | mobile/plugins/withTorEmbeddedIOS.js:553-583 | registers once per connection and only with a controller |
| TorBridge.AegisTorBridge.CircuitEstablished | mobile/plugins/withTorEmbeddedIOS.js:576-582 | running is set whoever waits, and any pending attempt gets the success |
| TorBridge.AegisTorBridge.RunBlock | mobile/plugins/withTorEmbeddedIOS.js:385-596 | the four kinds of dispatch_after block |
| TorBridge.AegisTorBridge.StopBridge | mobile/plugins/withTorEmbeddedIOS.js:598-615 | supersedes and fails the attempt, releases the controller, keeps the thread |
| TorBridge.AegisTorBridge.Handle | mobile/plugins/withTorEmbeddedIOS.js:252-615 | the object handles any enabled event as the transition system does and keeps the invariant |
| LogicSafety.StartPromisesSettleOnce | mobile/plugins/withTorEmbeddedIOS.js:693-741 | in every interleaving, settled start promises followed by listed ones are exactly the issued ones in order; the same for stop; a listed promise or state starting means an attempt or drain is outstanding; with an empty main queue, on means running |
| LogicSafety.QuietMeansSettled | mobile/plugins/withTorEmbeddedIOS.js:704-722 | with an empty main queue and no attempt in flight every promise is settled and the state is not starting |
| LogicSafety.NextKeepsInv | mobile/plugins/withTorEmbeddedIOS.js:693-741 | each JS call, bridge event or main-queue block keeps the two-layer invariant |
| LogicAnswers.QueueLeadsTo | mobile/plugins/withTorEmbeddedIOS.js:704-740 | once the queued blocks have run the state is on if the last brought a success, or there was none and it was on; off after any other; everybody listed is answered if there was a drain |
| LogicAnswers.ResolvedMeansOn | mobile/plugins/withTorEmbeddedIOS.js:686-722 | in every interleaving a resolved start promise is told the state on and port 39050, and the bridge is ready on that port only |
| LogicAnswers.OnlyFirstCallersCall | mobile/plugins/withTorEmbeddedIOS.js:695-702 | the bridge is called once for each start() that finds the state off |
| LogicAnswers.NextCallerJoins | mobile/plugins/withTorEmbeddedIOS.js:695-702 | after a start() the state is not off, so the next caller joins without a bridge call |
| LogicRouting.CoalescingExactly | mobile/plugins/withTorEmbeddedIOS.js:693-741 | no queued outcome is about to answer a promise that joined another bridge call, in exactly the interleavings where no start() finds the state off with earlier promises still listed |
| LogicRouting.PromiseGetsItsAttempt | mobile/plugins/withTorEmbeddedIOS.js:704-722 | in those interleavings every settled promise has the outcome of the call it joined, or found Tor on |
| LogicRouting.GuardIsReachedExactly | mobile/plugins/withTorEmbeddedIOS.js:267-274 | the bridge refuses a call as already in flight in exactly the interleavings where a start() finds the state off while an attempt is pending |
| LogicRouting.ClashIsReachable | mobile/plugins/withTorEmbeddedIOS.js:730-741 | a stop() block that runs after a restart makes the next start() do so: a concrete interleaving |
| LogicTiming.PromiseDeadline | mobile/plugins/withTorEmbeddedIOS.js:361-741 | with timers and main queue prompt, an unsettled start promise is listed and was issued at most 77,250 ms ago |
| LogicSockets.SocketsDoomedExactly | mobile/plugins/withTorEmbeddedIOS.js:730-741 | no socket is open while a stop() block is queued, in exactly the runs where none is connected between a stop() and its block |
| LogicSockets.SocketsNeedTor | mobile/plugins/withTorEmbeddedIOS.js:730-779 | in those runs sockets are open only while the state is on |
| LogicSockets.DoomedOutlivesTor | mobile/plugins/withTorEmbeddedIOS.js:730-741 | otherwise running the main queue leaves the state off and the socket open |
| TorLogic.AegisTorLogic.Start | mobile/plugins/withTorEmbeddedIOS.js:693-723 | resolve at once when on, otherwise join the resolvers, and only the first caller starts the bridge |
| TorLogic.AegisTorLogic.Stop | mobile/plugins/withTorEmbeddedIOS.js:730-741 | bridge stop first, then the queued state change that resolves the promise |
| TorLogic.AegisTorLogic.RunMainBlock | mobile/plugins/withTorEmbeddedIOS.js:708-740 | a drain answers every listed promise with the outcome; the stop block sets off and resolves |
| SocketTheorems.StreamIsFilterMap | mobile/plugins/withTorEmbeddedIOS.js:806-889 | for any inbound frames, what is sent and forwarded is that of the frames up to the first close or disconnect, each determined by the frames and the session before them; the session ends exactly when there is one |
| SocketTheorems.ReceivedOpen | mobile/plugins/withTorEmbeddedIOS.js:836-889 | until a close only the pending acks change, and a pending ack is gone exactly when a frame has answered it |
| SocketTheorems.EmitCarriesItsNumber | mobile/plugins/withTorEmbeddedIOS.js:914-920 | a wire ack id is the number of acked emits before it, is free when taken and never taken again |
| SocketTheorems.AckGoesToItsEmit | mobile/plugins/withTorEmbeddedIOS.js:879-884 | a forwarded ack carries the JS id of the earlier emit its wire id names, with the frame's arguments |
| SocketTheorems.AckForwardedOnce | mobile/plugins/withTorEmbeddedIOS.js:879-884 | no wire ack id is forwarded twice in a session |
| SocketTheorems.CallbackReachedOnce | mobile/plugins/withTorEmbeddedIOS.js:879-884 | with distinct JS ack ids among the emits, no callback is reached by two ack frames |
| SocketTheorems.PendingExactly | mobile/plugins/withTorEmbeddedIOS.js:836-928 | with emits and frames in any order, a wire id is pending exactly when an emit took it and no ack frame for it came since |
| SocketTheorems.OutputsDetermined | mobile/plugins/withTorEmbeddedIOS.js:836-928 | with emits and frames in any order and listeners coming and going, every frame sent and event forwarded is determined by the first session and the actions so far |
| SocketIsolation.SocketsAreIndependent | mobile/plugins/withTorEmbeddedIOS.js:836-928 | with any number of sockets, one that survives a run has sent, forwarded and become what its own frames and emits alone make of it |
| SocketIsolation.CloseIsLocal | mobile/plugins/withTorEmbeddedIOS.js:1091-1100 | closing takes one socket away, logs nothing and disturbs no other |
| SocketTexts.FrameTexts | mobile/plugins/withTorEmbeddedIOS.js:836-851 | texts starting 0, 1 and 2 are open, close and ping; an empty text and a bare 4 are nothing |
| SocketTexts.OtherFrames | mobile/plugins/withTorEmbeddedIOS.js:836-851 | any other first character is ignored |
| SocketTexts.PacketTexts | mobile/plugins/withTorEmbeddedIOS.js:859-889 | texts starting 40, 41 and 44 are connect, disconnect and connect error with the rest as detail |
| SocketTexts.EventText | mobile/plugins/withTorEmbeddedIOS.js:867-878 | 42, an optional id and a JSON array [name, args] is the event of that name with the encoding of args, or an empty array |
| SocketTexts.NoEventText | mobile/plugins/withTorEmbeddedIOS.js:867-873 | JSON that is no array starting with a string is ignored |
| SocketTexts.NoAckText | mobile/plugins/withTorEmbeddedIOS.js:879-881 | 43 and no readable number is ignored |
| SocketTexts.SessionAnswersFrames | mobile/plugins/withTorEmbeddedIOS.js:836-889 | what a session sends and forwards for open, ping, connect and connect error texts, and that it lives on |
| SocketTexts.SessionEnds | mobile/plugins/withTorEmbeddedIOS.js:841-866 | what ends a session and what is forwarded then |
| SocketTexts.SessionForwardsEvent | mobile/plugins/withTorEmbeddedIOS.js:867-878 | an event is forwarded, without its name among the arguments, exactly when subscribed to and somebody listens |
| SocketTexts.LateTexts | mobile/plugins/withTorEmbeddedIOS.js:836-893 | what frames after the end of a session still forward |
| SocketTexts.OpenedSubscribes | mobile/plugins/withTorEmbeddedIOS.js:779-800 | a connected socket is subscribed to exactly the names listed, with the auth text given and nothing pending |
| SocketTexts.OpenedSubscribesNothing | mobile/plugins/withTorEmbeddedIOS.js:779-785 | an event list that is no list of strings subscribes to nothing |
| SocketTexts.FreshSocketBehaves | mobile/plugins/withTorEmbeddedIOS.js:779-878 | after connecting, the open frame is answered with that auth text and exactly the listed events are forwarded |
| SocketTexts.EmitReadsBack | mobile/plugins/withTorEmbeddedIOS.js:896-928 | a frame this pipe emits reads back, by the same grammar, as the event emitted with its payload as the one argument |
| SocketTheorems.EmitFrameDecodes | mobile/plugins/withTorEmbeddedIOS.js:914-927 | the frame 42 + id + [...] splits back to the same id and JSON text |
| SocketTheorems.AckReplyReachesItsCallback | mobile/plugins/withTorEmbeddedIOS.js:879-884 | a reply 43 + id reaches exactly the registered callback and touches no other pending ack |
| WireText.SplitLeadingDigits | mobile/plugins/withTorEmbeddedIOS.js:853-857 | the index loop cuts at the first non-numeric character |
| WireText.IdSplitsBack | mobile/plugins/withTorEmbeddedIOS.js:853-882 | a printed id followed by text that starts with no numeral is cut apart and read back |
| WireText.PrintedReadsBack | mobile/plugins/withTorEmbeddedIOS.js:881-914 | a printed number reads back up to Int.max and not beyond |
| WireText.NoOtherNumeral | mobile/plugins/withTorEmbeddedIOS.js:853-881 | text with another character than 0-9, or none, is no wire id |
| WireText.EscapeIsJsonUnlessControl | mobile/plugins/withTorEmbeddedIOS.js:828-830 | the escaped text is a JSON string body (section 7 of RFC 8259) standing for the input exactly when the input has no control character |
| WireText.LineFeedIsNotEscaped | mobile/plugins/withTorEmbeddedIOS.js:828-830 | a line feed in an error description gives text that is no JSON string body |
| SocketPipe.AegisTorSockets.SioConnect | mobile/plugins/withTorEmbeddedIOS.js:771-804 | guards, then all six entries written for the id with counter 0 and no pending acks |
| SocketPipe.AegisTorSockets.HandleEngineIOFrame | mobile/plugins/withTorEmbeddedIOS.js:836-851 | the frame branches act on the six dictionaries as the session model says and keep their key sets equal |
| SocketPipe.AegisTorSockets.HandleSocketIOPacket | mobile/plugins/withTorEmbeddedIOS.js:859-889 | the packet branches, likewise |
| SocketPipe.AegisTorSockets.HandleAck | mobile/plugins/withTorEmbeddedIOS.js:879-884 | an ack is taken from its table and forwarded to its JS id, or ignored |
| SocketPipe.AegisTorSockets.ReceiveLoop | mobile/plugins/withTorEmbeddedIOS.js:806-826 | the chain of receives handles frames until the task is gone |
| SocketPipe.AegisTorSockets.ReceiveFailed | mobile/plugins/withTorEmbeddedIOS.js:821-824 | a receive failure is forwarded and closes the socket |
| SocketPipe.AegisTorSockets.SioEmit | mobile/plugins/withTorEmbeddedIOS.js:896-928 | registers the ack before encoding, sends one frame, and reports a missing socket or an encoding failure |
| SocketPipe.AegisTorSockets.CloseSocket | mobile/plugins/withTorEmbeddedIOS.js:1091-1100 | removes all six entries of the id and nothing else |
| SocketPipe.AegisTorSockets.CloseAll | mobile/plugins/withTorEmbeddedIOS.js:731-732 | stop() closes every open socket |
| ThumbRail.Rail.Render | prototype/deck-stage.js:1357-1385 | after the reconcile the rail's children are exactly the new thumbs in slide order, each entry knows its position, surviving slides keep their entry, new ones get a new element, no orphan is left |
| ThumbRail.Rail.PlaceThumbs | prototype/deck-stage.js:1376-1384 | the insertBefore loop turns any arrangement of the reused thumbs into slide order |
| ThumbRail.PlaceOne | prototype/deck-stage.js:1376-1379 | one insertBefore extends the ordered part by one and loses nothing |
| DeckOrder.MoveCommutes | prototype/deck-stage.js:1715-1729 | moving a slide among all children, with text, style and script nodes between, is remove-then-insert at j in the slide list; every other child keeps its relative place |
| DeckOrder.MoveKeepsActive | prototype/deck-stage.js:1721-1724 | the index arithmetic keeps the same slide active |
| DeckOrder.DeleteCommutes | prototype/deck-stage.js:1684-1686 | deleting a slide node deletes exactly it from the slide list |
| DeckOrder.DeleteKeepsActive | prototype/deck-stage.js:1681-1682 | the active slide stays active unless deleted; then its successor, or its predecessor at the end |
| DeckOrder.DropLandsBesideTarget | prototype/deck-stage.js:1475-1482 | a drop on another thumb lands immediately before or after that slide |
| DeckOrder.DropOnItself | prototype/deck-stage.js:1475-1482 | a drop on the dragged thumb itself moves nothing |
| DeckOrder.LandingIsNearest | prototype/deck-stage.js:1326-1334 | the search passes only skipped slides and ends on one that is not, or off the deck |
| DeckOrder.StepAndBack | prototype/deck-stage.js:1326-1334 | a successful step from a slide that is not skipped is undone by the opposite step |
| DeckStage.Deck.CollectSlides | prototype/deck-stage.js:1026-1051 | the filtered view, position numbers, clamped index, last-visible mark and rail are rebuilt from the children |
| DeckStage.Deck.MarkLastVisible | prototype/deck-stage.js:1056-1063 | the mark is on exactly the last slide that is not skipped |
| DeckStage.Deck.ApplyIndex | prototype/deck-stage.js:1088-1106 | exactly the slide and the thumb at the index are marked |
| DeckStage.Deck.OnSlotChange | prototype/deck-stage.js:1015-1024 | a squelched event changes nothing else; any other restores the whole invariant from any state: #k makes the k-th slide active, otherwise the index stays, or the last slide is active if it was past the end |
| DeckStage.Deck.HostMutates | prototype/deck-stage.js:1015-1033 | a host change not yet reported leaves index, marks, labels and rail consistent with the slide list |
| DeckStage.Deck.HostChange | prototype/deck-stage.js:1015-1033 | after a host change is reported the slide list is up to date exactly when the event was not squelched or the slides did not change; index, marks and labels fit the slide list in either case |
| DeckStage.AppendUnseen | prototype/deck-stage.js:1015-1020 | in any deck left to squelch an event, a slide the host appends is not shown |
| DeckStage.HostChangeMissed | prototype/deck-stage.js:1015-1020 | a slide added by the host after a deletion, before its event, is not shown: a concrete deck |
| DeckStage.Deck.Go | prototype/deck-stage.js:1312-1321 | from any deck, up to date or not: slide i becomes active, the first below 0 and the last past the end; keeps the view, and restores the marks whenever the index changes |
| DeckStage.Deck.Advance | prototype/deck-stage.js:1326-1334 | from any deck: terminates, lands on the nearest slide that is not skipped in its direction, or stays, and keeps the view |
| DeckStage.Deck.SkippedIndices | prototype/deck-stage.js:1707-1713 | the strictly increasing list of exactly the skipped positions |
| DeckStage.Deck.ToggleSkip | prototype/deck-stage.js:1690-1705 | from any deck: flips one slide's flag, keeps the last-visible mark and thumb mark right, ignores a bad index |
| DeckStage.Deck.DeleteSlide | prototype/deck-stage.js:1678-1688 | from any deck: removes that node, restores the whole invariant, refuses the last slide; on an up-to-date deck the rest keeps its order and the right slide becomes active |
| DeckStage.Deck.MoveSlide | prototype/deck-stage.js:1715-1730 | for every source position and any deck: raises exactly when there is no such slide or insertBefore's reference is gone, then leaves the view intact exactly when the index did not move (for a position past the end: exactly when the index was below j); otherwise the whole invariant holds; on an up-to-date deck the slide ends at j and the same slide stays active |
| DeckOrder.CurrentRef | prototype/deck-stage.js:1715-1729 | on an up-to-date list the reference is a child, so an existing slide's move never raises |
| DeckOrder.RefusesExactly | prototype/deck-stage.js:1715-1726 | on any slide list insertBefore raises exactly when the target is no child and the move is backwards or that node has a next sibling elsewhere |
| DeckStage.MenuOutlivesSlide | prototype/deck-stage.js:1715-1726 | Move up from a menu opened before the host removed the last slide: raises with the index past the only slide and the squelch flag set |
| DeckStage.MoveBeforeGone | prototype/deck-stage.js:1715-1726 | a move before a slide the host has just removed raises with the index moved and the mark behind |
| DeckStage.ThumbDrag.DragStart | prototype/deck-stage.js:1454-1459 | takes the position of the thumb, which then names the grabbed slide |
| DeckStage.ThumbDrag.Drop | prototype/deck-stage.js:1472-1483 | on an up-to-date deck the slide grabbed lands beside the target exactly when the position taken at dragstart still names it; raises exactly when the position is past the end and the target is not; the active slide stays active otherwise |
| DeckStage.PrependDuringDrag | prototype/deck-stage.js:1454-1483 | a slide the host puts first during a drag makes it name another slide |
| DeckStage.DragNamesAnother | prototype/deck-stage.js:1454-1483 | such a drag moves the new slide instead of the grabbed one: a concrete run |
| CanvasOrder.DcFlatten | prototype/design-canvas.jsx:114-121 | fragments are unwrapped at every depth |
| CanvasOrder.FlattenInPlace | prototype/design-canvas.jsx:114-121 | unwrapping a fragment puts its flattened children in its place and touches nothing else |
| CanvasOrder.FlattenKeepsChildren | prototype/design-canvas.jsx:114-121 | every child that is no fragment occurs as often in the flattened list as anywhere in the tree |
| CanvasOrder.IdWinsOverLabel | prototype/design-canvas.jsx:183-188 | the id wins over the label, even an empty one; an artboard without a name has no slot |
| CanvasOrder.CanvasIds | prototype/design-canvas.jsx:183-188 | the push loop of DesignCanvas gives the ids DCSection filters out |
| CanvasOrder.CanvasSlotIds | prototype/design-canvas.jsx:189-204 | DesignCanvas's list is the order DCSection computes, for any children and saved record |
| CanvasOrder.MergeCounts | prototype/design-canvas.jsx:199-203 | how often each id occurs in the merged order, for any lists |
| CanvasOrder.MergePermutes | prototype/design-canvas.jsx:199-203 | with duplicate-free lists the merged order is a permutation of the visible ids |
| CanvasOrder.MergeOrder | prototype/design-canvas.jsx:508-511 | saved ids first in saved order, then the others in source order |
| CanvasOrder.MergeIdempotent | prototype/design-canvas.jsx:508-511 | merging the merged order again changes nothing |
| CanvasOrder.JoinInjective | prototype/design-canvas.jsx:189-192 | joined keys of non-empty, separator-free ids are equal exactly when the lists are |
| CanvasOrder.DeletionsAreScoped | prototype/design-canvas.jsx:503-541 | over any run of deletions, what is hidden from a source list is what was deleted since the source last differed |
| CanvasOrder.ShownUnlessDeleted | prototype/design-canvas.jsx:189-204 | an artboard is shown exactly when listed by the source and not deleted from that list |
| CanvasOrder.MemoExactly | prototype/design-canvas.jsx:508-511 | for every saved order the memo gives the merged order exactly when the source list is unchanged or its joined key is not |
| CanvasOrder.MemoAgrees | prototype/design-canvas.jsx:508-511 | with ids free of bars the memoised order is the merged order |
| CanvasOrder.MemoGoesStale | prototype/design-canvas.jsx:508-511 | replacing artboard a&#124;b by artboards a and b leaves the stale order in place |
| CanvasDrag.Drag.Move | prototype/design-canvas.jsx:724-738 | the live order is the start order with the dragged id moved to the first nearest slot, the others keeping their order |
| CanvasDrag.Drag.Up | prototype/design-canvas.jsx:740-750 | the committed order is a duplicate-free permutation; with bar-free ids it is committed exactly when it changed |
| CanvasDrag.BarHidesDrag | prototype/design-canvas.jsx:740-750 | dragging x past x&#124;x leaves the joined form, so the change is not committed |
| CanvasDrag.DragPlaces | prototype/design-canvas.jsx:733-736 | the dragged id stands at its slot |
| CanvasDrag.DragKeepsOthers | prototype/design-canvas.jsx:733-736 | any two ids other than the dragged one stand in the same order in the live order as at the start |
| CanvasDrag.DragTakenOut | prototype/design-canvas.jsx:733-736 | taking the dragged id out of a live order gives the start order without it |
| CanvasDrag.DragPermutes | prototype/design-canvas.jsx:733-736 | every live order is a duplicate-free permutation of the start order |
| CanvasDrag.OrdersStayDistinct | prototype/design-canvas.jsx:700-750 | however grips, delayed commits and deletions fall between one another, persisted and captured orders stay duplicate-free and every shown order is a permutation of the visible ids |
| CanvasDrag.CommitShowsVisible | prototype/design-canvas.jsx:740-750 | a delayed commit neither hides an artboard nor brings back one deleted since the grip |
| CanvasDrag.CommitExactly | prototype/design-canvas.jsx:740-747 | with bar-free ids a commit persists the live order exactly when the drag changed the captured one, whatever happened since |
| CanvasDrag.CommitShowsDrag | prototype/design-canvas.jsx:740-747 | with nothing deleted since the grip the section then shows the live order |
| Viewport.DCViewport.ZoomAt | prototype/design-canvas.jsx:307-330 | rescales about the cursor by the factor and clamps the scale |
| Viewport.ZoomedFixesPoint | prototype/design-canvas.jsx:326-329 | each zoom, clamped or not, keeps the world point under the cursor |
| Viewport.ZoomAtLimitIsIdentity | prototype/design-canvas.jsx:311-329 | zooming past a limit changes nothing |
| Viewport.ZoomScales | prototype/design-canvas.jsx:311-329 | a zoom multiplies the scale by the factor within the limits and stops at the limit beyond them |
| Viewport.PanMovesWorld | prototype/design-canvas.jsx:292-293 | a pan moves everything shown by its two distances and keeps the scale |
| Viewport.PansCompose | prototype/design-canvas.jsx:292-293 | pans add up and the opposite pan undoes one |
| Viewport.ZoomAndBack | prototype/design-canvas.jsx:311-329 | unclamped zooms by f and 1/f at one cursor cancel |
| Viewport.ScaleWithinLimits | prototype/design-canvas.jsx:258-329 | after any run the scale is within its limits exactly when it began there or there was a zoom |
| Viewport.DefaultScaleEscapes | prototype/design-canvas.jsx:258-293 | with limits 2 and 8 the default scale stays below the minimum while only panning |
| SectionNav.WrapInRange | prototype/design-canvas.jsx:835 | the double remainder is in range for every integer |
| SectionNav.GoSection | prototype/design-canvas.jsx:830-839 | focuses the cyclically nearest non-empty other section, if there is one |
| SectionNav.ThereAndBack | prototype/design-canvas.jsx:830-839 | one way and back from a non-empty section returns to it |
| SectionNav.GoThereAndBack | prototype/design-canvas.jsx:830-839 | two calls, one each way, end at the section they began at |
| Animations.EaseIsPowerCurve | prototype/animations.jsx:19-35 | each polynomial formula is the power curve of its shape and degree |
| Animations.EaseMonotone | prototype/animations.jsx:18-35 | on [0,1] every polynomial easing is monotone and stays in [0,1] |
| Animations.EaseFixesEnds | prototype/animations.jsx:18-35 | every polynomial easing fixes 0 and 1 |
| Animations.Interpolate | prototype/animations.jsx:85-100 | the scan answers with the end outputs or the first segment holding t |
| Animations.SegmentsUseTheirOwn | prototype/animations.jsx:85-97 | with one easing per segment, segment i uses the i-th, and those beyond the list are linear |
| Animations.OtherSegmentsUnchanged | prototype/animations.jsx:85-97 | another easing on one segment changes no other |
| Animations.SegmentBlends | prototype/animations.jsx:90-97 | a fraction k into a segment the value is the eased blend of its two outputs |
| Animations.HitsKeyframes | prototype/animations.jsx:85-100 | over increasing inputs every keyframe gets exactly its output |
| Animations.SegmentStaysBetween | prototype/animations.jsx:90-96 | a segment's values stay between its two outputs |
| Animations.InterpolationMonotone | prototype/animations.jsx:85-100 | with non-decreasing outputs the interpolation is monotone across segments |
| Animations.AnimateIsOneSegment | prototype/animations.jsx:104-111 | the single tween is interpolation over two keyframes |
| RandomFill.FillRandom | mobile/cryptoSetup.ts:22-29 | indices 0 to n-1 are assigned once each, in order, from consecutive positions of the random tape; nothing else changes; requests are full chunks and a remainder |
| RandomFill.ChunksFit | mobile/cryptoSetup.ts:23-26 | every request is between 1 and 1024 bytes, they total n, and there are no more than needed |
| RandomFill.GetRandomValues | mobile/cryptoSetup.ts:39-44 | fills exactly the typed array's window of the underlying buffer |

## Left out

- TorBridge.AegisTorBridge.ConnectAndAuthenticate: whether the control port file parses, the connection state and the cookie are answers of the step; the text of PORT=host:port and cookie bytes are not modelled.
- TorLogic.AegisTorLogic.Stop: the object does not hold the sockets, which live in their own class (`SocketPipe.AegisTorSockets.CloseAll`); `LogicSockets` has stop() close them on values; status and bootstrap progress events are not modelled.
- TorLogic.AegisTorLogic.Start: completions of one bridge call are queued when the call returns rather than inside it; the call is atomic and the order is the same.
- SocketPipe.AegisTorSockets.SioConnect: the state it asks for is an answer here, tied to the lifecycle in `LogicSockets`; URL rewriting and URLSession set-up are one yes/no answer; a live id is overwritten as in the source, and closing its old task is not modelled.
- SocketTheorems.EmitFrameDecodes: the wire id is at most Int.max, where Swift would stop the app before printing a larger one; the same holds for SocketTheorems.AckReplyReachesItsCallback.
- WireText.SplitLeadingDigits: text is a sequence of code points, while Swift walks grapheme clusters; which code points are numerals, and JSON parsing and printing, are parameters.
- WireText.EscapeIsJsonUnlessControl: the hexadecimal escape form, which the escaper never writes, is not decoded.
- DeckStage.Deck.MoveSlide: the source position is one some thumb has had, so never negative; slides are children of the element or detached or elsewhere, not nested in a slotted slot.
- DeckStage.Deck.DeleteSlide: listeners of the deckchange event, which run before the slides are collected again, make no calls of their own.
- DeckStage.Deck.ApplyIndex: posts no slidechange event or host message; thumbnails' contents, scrolling and animation are not modelled.
- CanvasDrag.Drag.Up: release and commit are one step of the object; the delay between them is in `CanvasDrag.Edited`.
- Viewport.DCViewport.ZoomAt: no correction for layout drift, and reals instead of floating point.
- SectionNav.GoSection: sections are distinct and the focused one is among them.
- Animations.EaseMonotone: exponential, sine, back and elastic easings are not modelled.
- RandomFill.FillRandom: the generator is an unknown tape of bytes.
- Data races between native queues, the http calls over Tor, Android, the other build plugins, rendering and persistence files are not modelled.
