# A verified model of an MQTT 3.1.1 / 5.0 framework

This project models the protocol core of an asynchronous MQTT client and server framework
and proves what that core is for. `dafny verify dfyconfig.toml` checks all of it.

The model follows the program's parts.

- **Dispatching** (`Reorder`, `OrderedAnswers`, `IoDispatcher`, `IoDelivery`, `IoDispatcherObject`). Requests are dispatched in
  arrival order, complete in any order and are answered in arrival order. The buffer that
  restores the order is addressed by a wrapping counter; around it runs the
  Processing / Stop / Shutdown machine that reads the stream and drains the answers.
- **Sending** (`PacketIds`, `Sink`, `SinkRuns`, `SinkQueue`, `SinkClosing`, `FlowControl`, `Waiters`,
  `SinkLeaks`, `FreshIds`, `SinkObject`). The in-flight
  table, the order of expected acknowledgements, the queue of waiting senders, the credit
  check and the cyclic packet-identifier generator, for both protocol versions.
- **Both ends** (`Connection`, `ConnectionSafety`, `ConnectionHistory`). A client sink, two FIFO links, the server's
  dispatcher and its reorder buffer as one transition system.
- **Receiving** (`V5Inbound`, `V5Calls`, `V5InboundObject`). Identifiers in use, receive maximum, topic
  aliases, and what an MQTT 5.0 server asks its publish and control services.
- **Codecs** (`Bytes`, `VarInt`, `PacketTypes`, `Frames`, `V3*`, `Props`, `PropGrammar`, `LimitedProps`, `PropBlocks`, `V5*`,
  `ListLoops`, `Version`). Framing, all packets of both versions, the language each decoder accepts, the
  two-pass encoder that cuts optional properties to a size limit, and protocol version detection.
- **Topic filters** (`Topic`). Parser, printer and matcher.

State that the program updates in place is a class whose methods are proved equal to a step
function (`SinkObject.MqttShared`, `Reorder.DispatcherState`, `IoDispatcherObject.Dispatcher`,
`V5InboundObject.Dispatcher`, `Frames.Codec`, `V5CodecObject.Codec`); the theorems are about
every run of those step functions. Future polling, tasks and channels are events of a run;
the clock, the socket and user handlers are the free choices of those events.

Machine words are written out: indices and the reorder base wrap at 2^64, sizes at 2^32, as in
an optimised build. A byte is an integer below 256, a string a byte sequence that is valid UTF-8.

## Where the code falls short of what it promises

The model follows the code. Each of these has an exact condition, for all inputs, and an input.

- A fresh send can take the credit of a sender that was woken but has not gone on, so a sink can
  exceed its limit, and its server then refuses a packet (`FlowControl.WithinCapIff`,
  `FlowControl.FreshSendCanOvercommit`, `ConnectionSafety.PolitenessIsNeeded`).
- A waiting sender can be left behind although there is credit: when a woken sender is dropped, when
  it finds its identifier in use, and in MQTT 5.0 when an acknowledgement has the wrong type
  (`Waiters.NobodyStrandedIff`, `Waiters.DroppedWakeUpStrands`).
- A CONNACK without a receive maximum, which section 3.2.2.3.3 of MQTT 5.0 reads as 65535, gives an
  MQTT 5.0 client a limit of zero, under which it never sends anything that is acknowledged
  (`Waiters.FirstSendWaitsIff`, `Waiters.ZeroCapNeverSends`).
- The peer's maximum packet size, which section 3.2.2.3.6 of MQTT 5.0 puts on whole packets, is held
  against the content without the fixed header, so packets that are read back can be up to five bytes
  too long (`V5Wire.RawLimitExceededIff`, `V5Wire.RawLimitExceeded`); those with subscription
  identifiers are longer still, by up to three bytes for each in a PUBLISH and four in a SUBSCRIBE
  (`V5Wire.RawLimitIff`). The builder takes five bytes off before, which is enough for all packets but the latter (`V5Wire.BuilderLimitIff`,
  `V5Wire.BuilderLimitExceeded`).
- Under a limit of four to six bytes a PUBACK, PUBREC, PUBREL or PUBCOMP with optional properties is
  refused instead of cut, although its bare form fits, because an unsigned subtraction wraps around
  (`V5LimitedRoundTrip.WithinLimitedIff`, `V5Wire.TightAckRefused`).
- In MQTT 5.0 an acknowledgement with the wrong identifier takes the expected one from the order and
  leaves it in flight for good; when these fill the limit, the sink is dead (`SinkLeaks.LeaksGrow`,
  `SinkLeaks.LeaksKill`, `SinkLeaks.WrongAckKills`). Before that, the generator comes round to such an
  identifier and a send fails with PacketIdInUse, however few are outstanding
  (`FreshIds.CollidesIff`, `FreshIds.LeakedIdCollides`).
- A SUBSCRIBE with a subscription identifier or user properties, an UNSUBSCRIBE with user
  properties, a PUBLISH with subscription identifiers and a CONNECT whose will has properties are
  not read back (`SubscribeIff`, `UnsubscribeIff`, `PublishIff` and `ConnectIff` of
  `V5PlainRoundTrip`). The peer waits for bytes that were never written (`SubscribeWithUser`,
  `UnsubscribeWithUser` and `ConnectWithWillProperty` of `V5Misread`), refuses the packet
  (`SubscribeWithId`, `PublishWithId`), or takes it for another one (`SubscribeMisread`,
  `PublishMisread`); `SubscribeIdOutcome`, `PublishIdOutcome` and, for every PUBLISH, `PublishOutcome`
  say when.
- The filter `+` matches `$SYS`, and a wildcard after the first level is not matched right against
  every name (`Topic.FaithfulIff`, `Topic.LonePlus`).
- An inbound packet identifier whose handler failed without an acknowledgement is never released
  (`V5Inbound.LostGrows`, `V5Inbound.LostNeverAccepted`, `V5Inbound.FailedPublishLoses`).

## Model

| member | source | states |
|---|---|---|
| `Reorder.WritesAreAnsweredPrefix` | src/io.rs:195-228 | For every interleaving of calls and completions, the writer has been given exactly the answers of the longest answered prefix of the calls, in call order, each once |
| `Reorder.OwnersDistinct` | src/io.rs:372-420 | Every unfinished response future has an index that is in bounds modulo 2^64 and leads to a pending cell that no other future leads to |
| `Reorder.FrontNeverReady` | src/io.rs:203-228 | A non-empty queue never starts with a result that could have been written |
| `Reorder.EmptyIffAllWritten` | src/io.rs:195-228 | The queue is empty exactly if no future is unfinished, exactly if every call has been answered on the wire, and then with its own result |
| `Reorder.NextKeeps` | src/io.rs:372-420 | Every call and completion (inline, slot, spawned) keeps the one-cell-per-future invariant |
| `OrderedAnswers.Refines` | src/io.rs:195-228 | The buffer with its wrapping base and indices can do exactly what a form without queue, base and indices can do, event by event over every run, ends with the same unfinished calls and answers, and has written the same |
| `Reorder.ReadyPrefix` | src/io.rs:213-220 | What a drain takes from the front: exactly the results before the first pending cell |
| `Reorder.DispatcherState.WriteReady` | src/io.rs:213-220 | The drain loop writes the longest ready prefix in order and moves the wrapping base by its length |
| `Reorder.DispatcherState.HandleResult` | src/io.rs:195-228 | The in-place method computes the buffer, the writes and the wake-up of the specification, for front and non-front indices |
| `IoDispatcher.DrainedBeforeShutdown` | src/io.rs:459-471 | The transport is shut down only when every call has its answer handed to the writer |
| `IoDispatcher.NoLostWakeup` | src/io.rs:203-228 | A task asleep in the Stop phase with nothing left to drain has been woken |
| `IoDispatcher.PhasesAdvance` | src/io.rs:263-491 | A step keeps the phase or moves it to the very next of Processing, Stop, Shutdown, and no call is made after Processing |
| `IoDispatcher.NothingTakenBack` | src/io.rs:371-426 | Items dispatched and results written are only ever extended |
| `IoDispatcher.StreamDispatched` | src/io.rs:285-318 | When the dispatcher was told to stop, the dispatched packets are exactly the complete packets of all bytes received by then, in order; after a decoding error they are those before the error and the error was reported; while processing they are a prefix |
| `IoDispatcher.ErrorReportedIff` | src/io.rs:301-318 | The service is told of a decoding error if and only if the dispatcher stopped because of it; once it was told to stop, such an error is swallowed |
| `IoDispatcher.NextKeeps` | src/io.rs:238-493 | Every arrival, poll, completion and stop request keeps the dispatcher invariant |
| `IoDelivery.PollOutcome` | src/io.rs:264-426 | One iteration of the Processing loop in every reachable state: the next packet of the unread bytes is dispatched whatever the response slot holds, else a decoding error is reported and ends the phase, else a dispatcher told to stop leaves with the report of the recorded error, else nothing happens; with how each call is answered |
| `IoDelivery.AnswerOutcome` | src/io.rs:246-261 | A finished slot or spawned future leaves the unfinished calls with its answer, answers nothing else, and the writer then has the answers of the longest answered prefix of the calls |
| `IoDelivery.EveryPacketDispatched` | src/io.rs:319-369 | However polls and completions are interleaved, each poll that finds the service ready and bytes to read dispatches one more packet until all packets of all bytes received are dispatched |
| `IoDelivery.StopObeyed` | src/io.rs:285-318 | After a stop request the dispatcher leaves the Processing phase with exactly the ready poll that follows those dispatching the missing packets |
| `IoDelivery.ErrorsOwed` | src/io.rs:203-228 | An answer that cannot be written, an IO error and an expired keep-alive timer make the corresponding report due |
| `IoDelivery.ErrorsReported` | src/io.rs:82-103 | A report that is due and not replaced is the last item of a dispatcher that was told to stop |
| `IoDelivery.FailureReturned` | src/io.rs:429-448 | An error of the service stays recorded to the end unless a later answer brings another |
| `IoDelivery.StopPolled` | src/io.rs:459-471 | A poll in the Stop phase shuts the transport down if no future is unfinished and otherwise registers the waker, and calls nothing |
| `IoDispatcherObject.Dispatcher.Enqueue` | src/io.rs:372-420 | Placing a response future follows the reorder step of its call: written at once, queued ready, slot or spawned |
| `IoDispatcherObject.Dispatcher.PollSlot` | src/io.rs:246-261 | Completion of the slot future follows its step |
| `IoDispatcherObject.Dispatcher.SpawnDone` | src/io.rs:410-419 | Completion of a spawned future follows its step, including the wake-up |
| `IoDispatcherObject.Dispatcher.PollProcessing` | src/io.rs:264-426 | One iteration of the Processing loop follows its step |
| `IoDispatcherObject.Dispatcher.WindDown` | src/io.rs:285-318 | The told-to-stop branch: one more packet, or Stop with the pending error report |
| `IoDispatcherObject.Dispatcher.ReadNext` | src/io.rs:319-369 | The reading branch: a packet, nothing yet, or Stop with the decoding error |
| `IoDispatcherObject.Dispatcher.PollStop` | src/io.rs:459-471 | Shuts down exactly if the queue is empty, else registers the waker |
| `PacketIds.NextIdGenerates` | src/v3/shared.rs:79-88 | The counter yields the cyclic sequence 1..65535 |
| `PacketIds.GeneratedRepeats` | src/v5/shared.rs:66-76 | Two results are equal exactly if their positions differ by a multiple of 65535, so any 65535 consecutive ones are distinct |
| `PacketIds.GeneratedCovers` | src/v3/shared.rs:79-88 | Any 65535 consecutive results contain every identifier |
| `SinkRuns.OrderNamesInflight` | src/v5/sink.rs:102-148 | The in-flight inconsistency branch is unreachable while the sink is open |
| `SinkRuns.AcceptsOldest` | src/v3/sink.rs:103-147 | Until an acknowledgement fails, the in-flight identifiers are the expected ones, and an acknowledgement is accepted if and only if it has the identifier and type of the oldest unacknowledged registration |
| `SinkRuns.DeliveriesTyped` | src/v5/shared.rs:129-160 | In every run a sender gets at most one acknowledgement, with its own identifier and type, so the panicking accessors are never hit |
| `SinkRuns.ResolvedInOrder` | src/v5/sink.rs:102-148 | Until an acknowledgement fails, senders are resolved in registration order |
| `SinkRuns.NextKeeps` | src/v3/sink.rs:103-147 | Every send, resumption, drop, acknowledgement and close keeps the bookkeeping invariant |
| `SinkQueue.Refines` | src/v3/sink.rs:103-147 | Table, order, channel queue and generator cell are, over every run of both versions, one queue of expected acknowledgements, one queue of living waiters and a running number: open after the same runs and with the same expected, waiting and woken senders, registrations and deliveries |
| `SinkQueue.AnswersAgree` | src/v5/sink.rs:270-342 | Every send, resumption and acknowledgement on an open sink answers as that queue does, including which identifier is used and which error is given |
| `SinkClosing.ClosedEmpty` | src/v3/sink.rs:49-69 | Right after a close, or a failed MQTT 3.1.1 acknowledgement, nothing is in flight or queued, exactly the woken senders can go on, every acknowledgement is a PacketIdMismatch, and the order still holds what was expected |
| `SinkClosing.WokenGoesOn` | src/v5/sink.rs:270-294 | A sender woken before the close does go on and sends its packet |
| `SinkClosing.ClosingIsFinal` | src/v5/sink.rs:57-100 | Whatever follows a close, no sender registered before it is acknowledged or in flight, nobody is woken, every new send is refused, and at most the senders woken before register anything |
| `SinkClosing.OpenIff` | src/v3/sink.rs:103-147 | A sink is closed by exactly a close or, in MQTT 3.1.1, a failed acknowledgement, and never opens again |
| `FlowControl.StepWithinCap` | src/v5/shared.rs:62-64 | One event keeps in-flight plus woken-not-resumed within the limit exactly if it is not a fresh send that takes a woken sender's credit |
| `FlowControl.WithinCapIff` | src/v5/sink.rs:270-342 | A run stays within the limit throughout if and only if no fresh send in it overcommits |
| `FlowControl.CreditIsExact` | src/v5/shared.rs:62-64 | In such a run the unsigned subtraction of the credit check never underflows |
| `FlowControl.ResumingFirstSuffices` | src/v5/sink.rs:270-294 | Every run whose fresh sends all find no woken sender waiting never overcommits and stays within the limit throughout |
| `FlowControl.FreshSendCanOvercommit` | src/v3/sink.rs:206-228 | A reachable state in which a fresh send exceeds the limit |
| `Waiters.StepStrands` | src/v5/sink.rs:102-148 | From an open state in which nobody is left behind, an event leaves a live waiter behind with free credit if and only if somebody waits, the committed credit is within the limit and the event is a drop of a woken sender, a resumption whose identifier is in use, or in MQTT 5.0 an acknowledgement of the expected identifier with the wrong type |
| `Waiters.NobodyStrandedIff` | src/v3/sink.rs:206-265 | In no state of a run is a live waiter left behind with free credit if and only if no event of the run is such a one |
| `Waiters.WaitingMeansCommitted` | src/v5/sink.rs:270-294 | In such a run whoever waits does so while the whole limit is committed to identifiers in flight and woken senders |
| `Waiters.DroppedWakeUpStrands` | src/v3/sink.rs:122-127 | A reachable state with nothing in flight, nobody woken and a live waiter queued |
| `Waiters.ZeroCapNeverSends` | src/v5/client/connector.rs:281 | With a limit of zero no run ever registers an identifier |
| `Waiters.FirstSendWaitsIff` | src/v5/shared.rs:62-64 | The first send of a sink waits, and registers nothing, if and only if its limit is zero |
| `SinkLeaks.LeaksGrow` | src/v5/sink.rs:102-148 | While a sink stays open, the identifiers in flight whose acknowledgement is no longer expected grow by exactly the expected one of a mismatched MQTT 5.0 acknowledgement |
| `SinkLeaks.LeakedForever` | src/v5/sink.rs:102-148 | Such an identifier is never released while the sink is open |
| `SinkLeaks.DeadForever` | src/v5/sink.rs:102-148 | A sink whose whole limit is in flight with nothing expected and nobody woken registers and acknowledges nothing more, whatever happens short of a close |
| `SinkLeaks.LeaksKill` | src/v5/shared.rs:62-64 | Once as many identifiers are leaked as the limit, a run that never overcommitted never sends again |
| `SinkLeaks.WrongAckKills` | src/v5/sink.rs:111-117 | A reachable state: one send under a limit of one, and an acknowledgement of another identifier |
| `SinkLeaks.V3OpenNotFailed` | src/v3/sink.rs:143-146 | An MQTT 3.1.1 sink that is open has not seen a failed acknowledgement |
| `SinkLeaks.V3OrderIsInflight` | src/v3/sink.rs:103-147 | In every open state of an MQTT 3.1.1 sink the order and the in-flight table name the same identifiers |
| `FreshIds.CollidesIff` | src/v5/sink.rs:296-315 | In every open run of either version with generated identifiers only and never 65535 outstanding, the next generated identifier is in use if and only if it was leaked or the run ends with all 65535 outstanding |
| `FreshIds.GeneratedIdsStayFresh` | src/v3/sink.rs:234-250 | As long as nothing is leaked, the outstanding identifiers of such a run are a contiguous cyclic window and the next one is in use only if all 65535 are outstanding |
| `FreshIds.V3IdsStayFresh` | src/v3/sink.rs:234-250 | In MQTT 3.1.1 that holds in every open run with generated identifiers only and never 65535 outstanding, so PacketIdInUse is never returned |
| `FreshIds.LeakedIdCollides` | src/v5/sink.rs:102-148 | An MQTT 5.0 run under a limit of two: one send, an acknowledgement of another identifier and 65534 rounds of send and acknowledgement later, a send fails with PacketIdInUse although one identifier is outstanding |
| `SinkObject.MqttShared.NextId` | src/v3/shared.rs:79-88 | The counter cell follows the generator |
| `SinkObject.MqttShared.SendInner` | src/v3/sink.rs:230-265 | Registration: identifier in use, or the new table, order and counter |
| `SinkObject.MqttShared.Send` | src/v3/sink.rs:206-228 | A send with credit registers, one without queues its waiter, one on a closed sink fails |
| `SinkObject.MqttShared.WakeWaiter` | src/v3/sink.rs:122-127 | Pops waiters up to and including the first that can still be reached |
| `SinkObject.MqttShared.SettleAck` | src/v3/sink.rs:117-136 | Delivers to the registered sender if the type matches and wakes one waiter, else reports the mismatch |
| `SinkObject.MqttShared.PktAckV3` | src/v3/sink.rs:103-147 | The MQTT 3.1.1 acknowledgement handling equals its step function |
| `SinkObject.MqttShared.PktAckV5` | src/v5/sink.rs:102-148 | The MQTT 5.0 acknowledgement loop equals its step function |
| `SinkObject.MqttShared.Close` | src/v3/sink.rs:49-57 | Closing clears the tables and waiters |
| `ConnectionSafety.ExpectedIsInTransit` | src/v3/sink.rs:103-147 | Conservation in every run of both ends: the client's expected identifiers with types are those on the way back, then those queued at the server, then those on the way forward |
| `ConnectionSafety.AckNeverRejected` | src/v3/client/dispatcher.rs:134-161 | The client's strict order check succeeds on every acknowledgement that arrives |
| `ConnectionSafety.NeverDuplicate` | src/v3/dispatcher.rs:133-242 | The server never finds an identifier it already has in flight |
| `ConnectionSafety.NeverExceedsReceiveMaximum` | src/v5/dispatcher.rs:167-195 | If the client's limit is within the server's receive maximum and no fresh send takes a woken sender's credit, every packet that arrives is accepted |
| `ConnectionSafety.ResumingFirstIsPolite` | src/v5/sink.rs:270-294 | A run of both ends in which every fresh send finds no woken sender waiting satisfies the condition of that theorem |
| `ConnectionSafety.PolitenessIsNeeded` | src/v5/dispatcher.rs:170-184 | Without the condition it fails: a run with the limit equal to the receive maximum that ends in ReceiveMaximumExceeded |
| `ConnectionSafety.QuiescentMeansAcknowledged` | src/v3/sink.rs:230-265 | When nothing is in transit or unanswered, each registered sender has got its own acknowledgement |
| `ConnectionSafety.QuiescenceReachable` | src/v3/dispatcher.rs:133-242 | From every state of a run that satisfies the condition of the receive-maximum theorem, receipts, handler answers and acknowledgements alone lead to a state in which every registered sender has got its acknowledgement |
| `ConnectionSafety.DeliveryWorks` | src/io.rs:195-228 | Each receipt, handler answer and acknowledgement makes the remaining work smaller, so every order of them ends there |
| `ConnectionSafety.DeliveryPossible` | src/v5/dispatcher.rs:167-195 | In such a run one of them is possible unless nothing is in transit or unanswered |
| `ConnectionSafety.NextKeeps` | src/io.rs:195-228 | Every send, receipt, handler answer and acknowledgement keeps the conservation invariant |
| `ConnectionHistory.RunComposed` | src/v3/dispatcher.rs:133-242 | Every run of both ends is a run of the client sink and a run of the server reorder buffer; packets dispatched then packets on the way are all packets sent in order; acknowledgements delivered then those on the way back are all that were written in order |
| `ConnectionHistory.SeenIsUnanswered` | src/v3/dispatcher.rs:133-242 | An identifier is in flight at the server exactly if a request with it has no answer from its handler yet |
| `ConnectionSafety.PublishAgrees` | src/v5/dispatcher.rs:167-195 | On a publish without an alias the composed system admits, finds duplicate and refuses as the inbound dispatcher does |
| `ConnectionSafety.SubscribeAgrees` | src/v5/dispatcher.rs:251-272 | On a subscription it admits exactly what the inbound dispatcher registers |
| `V5Inbound.HandlersDistinct` | src/v5/dispatcher.rs:159-294 | In every run no two running publish, subscribe or unsubscribe handlers share a packet identifier |
| `V5Calls.CallsLive` | src/v5/dispatcher.rs:159-294 | In every run each call is where its fate on arrival and the answers it got put it, and the publish service, the control service and the senders of duplicates have been told exactly what follows from the events, in order: every AUTH, PINGREQ, DISCONNECT and fault once, every SUBSCRIBE and UNSUBSCRIBE with a free identifier once, every refused publish once, the first error of a call that was not one before once more, and nothing else |
| `V5Calls.AnswerAdvances` | src/v5/dispatcher.rs:353-401 | An answer takes a future to the next stage of its life, and the control service is asked about exactly the first error that was not one before |
| `V5Inbound.WithinReceiveMaximum` | src/v5/dispatcher.rs:167-195 | Running identified publishes never exceed a non-zero receive maximum |
| `V5Inbound.AliasesAreRegistered` | src/v5/dispatcher.rs:197-220 | An alias is known exactly if a handled message with a topic registered it, and lies within 1 and the maximum |
| `V5Inbound.EmptyTopicIntroduced` | src/v5/dispatcher.rs:197-220 | A message without a topic that reaches the handler has no alias either, or an earlier one with a topic registered its alias |
| `V5Inbound.NamelessMessageHandled` | src/v5/dispatcher.rs:197-231 | A message with neither topic nor alias does reach the handler |
| `V5Inbound.InflightIsHeldOrLost` | src/v5/dispatcher.rs:353-401 | Identifiers in use are those of running handlers and those lost on an error path, and never both |
| `V5Inbound.RefusalsExact` | src/v5/dispatcher.rs:167-195 | A publish exceeds the receive maximum exactly if that many futures have an identifier registered; an accepted identifier was registered by none |
| `V5Inbound.LostGrows` | src/v5/dispatcher.rs:449-472 | The lost identifiers grow by exactly those of an alias error, of a publish error that is no acknowledgement, and of a nested control error |
| `V5Inbound.LostNeverAccepted` | src/v5/dispatcher.rs:159-195 | A lost identifier is refused in every continuation of the run |
| `V5Inbound.LossesExhaust` | src/v5/dispatcher.rs:170-184 | Once as many identifiers are lost as the receive maximum allows, no identified publish is accepted again |
| `V5Inbound.FailedPublishLoses` | src/v5/dispatcher.rs:358-385 | A run that loses an identifier: a first message whose handler error converts to no acknowledgement |
| `V5Inbound.UnknownAliasLoses` | src/v5/dispatcher.rs:197-208 | A run that loses an identifier: a first message with an unknown alias |
| `V5Inbound.OneFailureExhausts` | src/v5/dispatcher.rs:170-184 | With a receive maximum of one, that first failure refuses every later identified message |
| `V5InboundObject.Dispatcher.TakeId` | src/v5/dispatcher.rs:169-195 | The receive-maximum check, then the insertion that detects an identifier in use |
| `V5InboundObject.Dispatcher.TakeAlias` | src/v5/dispatcher.rs:197-220 | The alias checks and the registration of a new alias |
| `V5InboundObject.Dispatcher.CallPublish` | src/v5/dispatcher.rs:163-231 | The publish arm of the call follows its step |
| `V5InboundObject.Dispatcher.Call` | src/v5/dispatcher.rs:159-322 | Every arm of the call follows its step |
| `V5InboundObject.Dispatcher.PollPublish` | src/v5/dispatcher.rs:353-401 | A publish answer releases and acknowledges the identifier, or hands its error to the control service |
| `V5InboundObject.Dispatcher.PollControl` | src/v5/dispatcher.rs:449-472 | A control answer releases the identifier; the first error asks the control service again, a nested one ends the future |
| `Bytes.StrRoundTrip` | src/utils.rs:118-132 | Length-prefixed strings read back as written, whatever follows |
| `Bytes.U32RoundTrip` | src/utils.rs:97-111 | Big-endian words read back as written, also the non-zero kind |
| `VarInt.GetLoop` | src/utils.rs:150-164 | The cursor loop computes the recursive reader |
| `VarInt.Unfold` | src/utils.rs:150-164 | The reader byte by byte: at most four, missing bytes and a fifth group are different errors |
| `VarInt.RoundTrip` | src/utils.rs:283-306 | Reading inverts writing for every length up to 268435455, whatever follows |
| `VarInt.Stable` | src/utils.rs:140-148 | An answer other than missing bytes is unchanged by further bytes |
| `VarInt.LenIsWritten` | src/v5/codec/encode.rs:213-230 | The computed length of a length is the number of bytes written for it |
| `VarInt.Table64IsLen` | src/v5/codec/encode.rs:213-230 | The leading-zeros table counts the groups of seven bits of every 64-bit word |
| `VarInt.Table32IsLen` | src/v5/codec/encode.rs:232-239 | The leading-zeros table counts the groups of seven bits of every 32-bit word |
| `VarInt.FromSizeInverts` | src/v5/codec/encode.rs:241-246 | A length is recovered from itself plus the length of its encoding, for every length up to 268435455 |
| `Frames.FragmentationIndependent` | src/v3/codec/codec.rs:58-104 | However a byte stream is cut into chunks, the codec yields the packets, the first error or the residue of the one-shot parse |
| `Frames.ChunkingsAgree` | src/v5/codec/codec.rs:91-148 | Two ways of cutting the same stream give the same packets, error and unread bytes |
| `Frames.DecodeRefines` | src/v5/codec/codec.rs:91-148 | One call of the framing machine does what the one-shot parse does with the pending bytes |
| `Frames.DrainRefines` | src/v3/codec/codec.rs:58-104 | Decoding until more bytes are needed equals the one-shot parse |
| `Frames.ParseMore` | src/v3/codec/codec.rs:58-104 | Parsing a stream in two parts, keeping the residue, equals parsing it whole; an error is final |
| `Frames.FrameRoundTrip` | src/v3/codec/codec.rs:58-104 | A framed body is parsed off the front of any stream |
| `Frames.TooLargeRefused` | src/v5/codec/codec.rs:91-148 | With a maximum set, a frame that announces more is refused with MaxSizeExceeded as soon as its header is there, whatever follows, and any other is treated as without a maximum |
| `Frames.SizeLimitCuts` | src/v3/codec/codec.rs:58-104 | Over whole streams the maximum cuts the unlimited parse before the first frame that announces more, with MaxSizeExceeded there, and changes nothing otherwise |
| `Frames.HeaderKinds` | src/utils.rs:140-164 | Which streams start with a whole fixed header, with part of one, or with one that cannot be read |
| `Frames.Codec.DecodeNext` | src/v5/codec/codec.rs:91-148 | The in-place decode loop computes one step of the machine |
| `V3RoundTrip.BodyRoundTrip` | src/v3/codec/decode.rs:12-163 | The body of every encodable packet decodes to it, except a CONNECT without identifier and clean session, which is rejected |
| `V3RoundTrip.SizeIsWritten` | src/v3/codec/encode.rs:9-63 | The announced size is the number of bytes written after the fixed header |
| `V3RoundTrip.DecodedSize` | src/v3/codec/decode.rs:12-163 | An accepted packet never encodes to more bytes than it was read from |
| `V3RoundTrip.RoundTripsIff` | src/v3/codec/encode.rs:65-219 | Encoding then decoding gives a packet back, with nothing left over, if and only if it is well formed |
| `V3RoundTrip.StreamRoundTrip` | src/v3/codec/encode.rs:65-219 | Decoding the concatenated encodings of well-formed packets gives the list back |
| `V3Grammar.AcceptsIff` | src/v3/codec/decode.rs:12-163 | The decoder takes exactly the encoding of a packet, apart from named ignored bits and trailing bytes, for that packet, and refuses every other byte string |
| `V3Grammar.ConnectLanguage` | src/v3/codec/decode.rs:49-97 | The bytes accepted as a CONNECT: name, level, clear reserved flag, flags that agree with the fields, and an identifier where one is demanded |
| `V3RoundTrip.EncodeErrors` | src/v3/codec/encode.rs:65-101 | Each reason for which a packet is refused: missing identifier, size, field length, superfluous identifier |
| `ListLoops.ReadFiltersV3` | src/v3/codec/decode.rs:130-141 | The loop over topic filters computes the recursive reader |
| `ListLoops.DecodeSubscribeV3` | src/v3/codec/decode.rs:130-141 | The SUBSCRIBE decoder as the source runs it |
| `ListLoops.DecodeSubscribeAckV3` | src/v3/codec/decode.rs:143-154 | The SUBACK decoder as the source runs it |
| `ListLoops.DecodeUnsubscribeV3` | src/v3/codec/decode.rs:156-163 | The UNSUBSCRIBE decoder as the source runs it |
| `ListLoops.DecodeSubscribeV5` | src/v5/codec/packet/subscribe.rs:100-128 | The MQTT 5.0 SUBSCRIBE decoder as the source runs it |
| `ListLoops.WriteFiltersV5` | src/v5/codec/packet/subscribe.rs:188-201 | The filter loop of the encoder, with the error of a text that is too long |
| `V5Writer.CountUsers` | src/v5/codec/encode.rs:249-255 | The loop that counts user properties |
| `V5Writer.WriteUsers` | src/v5/codec/encode.rs:256-262 | The loop that appends user properties, with the error of a text that is too long |
| `V5Writer.WriteIds` | src/v5/codec/packet/publish.rs:183-188 | The loop that appends subscription identifiers |
| `V5Writer.SizePass` | src/v5/codec/encode.rs:16-34 | The size pass of every packet |
| `V5Writer.WriteLimited` | src/v5/codec/packet/connack.rs:214-254 | The write pass of the size-limited packets: the length and the optional properties are recovered from the size alone |
| `V5Writer.WritePublish` | src/v5/codec/packet/publish.rs:142-191 | The write pass of PUBLISH, with its identifier and length errors |
| `V5Writer.WriteConnect` | src/v5/codec/packet/connect.rs:272-334 | The write pass of CONNECT |
| `V5Writer.WriteSubscribe` | src/v5/codec/packet/subscribe.rs:188-201 | The write pass of SUBSCRIBE |
| `V5Writer.WriteUnsubscribe` | src/v5/codec/packet/subscribe.rs:267-276 | The write pass of UNSUBSCRIBE |
| `V5Writer.WritePass` | src/v5/codec/encode.rs:36-118 | The write pass of every packet, behind what the buffer holds |
| `Props.ReadProps` | src/v5/codec/packet/connack.rs:105-157 | The property loop computes the recursive reader |
| `Props.AcceptedProps` | src/utils.rs:62-138 | An accepted block repeats no single-valued property and stands for no more bytes than were declared |
| `Props.PropsRoundTrip` | src/utils.rs:62-138 | Written properties read back in order, whatever follows |
| `Props.BlockRoundTrip` | src/utils.rs:133-138 | A block with its length reads back and leaves the rest of the packet untouched |
| `Props.OrderIrrelevant` | src/v5/codec/packet/connect.rs:106-190 | Two accepted blocks with the same properties in any order give every single-valued property the same value |
| `PropGrammar.PropsLanguage` | src/utils.rs:62-138 | A property loop accepts exactly the properties of its table one after the other, each value of its kind and each single-valued property once |
| `PropGrammar.BlockLanguage` | src/utils.rs:62-138 | A block is accepted exactly if it announces as many bytes as such properties take |
| `LimitedProps.EncodedSizeOptProps` | src/v5/codec/encode.rs:120-143 | The size loop computes the size of what fits |
| `LimitedProps.EncodeOptProps` | src/v5/codec/encode.rs:145-171 | The write loop writes what it is told to, or fails on the first string that is too long |
| `LimitedProps.KeptCountIsLongest` | src/v5/codec/encode.rs:120-143 | The kept user properties are the longest prefix within the limit |
| `LimitedProps.ReachesKept` | src/v5/codec/encode.rs:145-171 | The write pass fails if and only if a string kept by the size pass is too long |
| `LimitedProps.WritePassRecovers` | src/v5/codec/encode.rs:120-171 | Told the size pass's byte count, the write pass writes exactly that many bytes, namely the kept user properties and the reason string if it was kept |
| `PropBlocks.BlockTwoPass` | src/v5/codec/packet/mod.rs:116-171 | Told the size of the whole block, the write pass writes exactly that many bytes and a reader gets the fixed properties, the kept user properties and the kept reason string |
| `PropBlocks.BlockLookup` | src/v5/codec/packet/connack.rs:105-181 | A reader finds every written property, the user properties in order and the reason string |
| `V5LimitedRoundTrip.TwoPass` | src/v5/codec/packet/connack.rs:183-254 | For CONNACK, PUBACK, PUBREC, PUBREL, PUBCOMP, SUBACK, UNSUBACK, DISCONNECT and AUTH: encoding at the computed size writes exactly that many bytes and decodes to the packet with its user properties cut to those that fit and its reason string kept only if all of them and it fit |
| `V5LimitedRoundTrip.WritesIff` | src/v5/codec/packet/mod.rs:134-151 | Encoding at the computed size succeeds if and only if every kept field fits its length bytes |
| `V5LimitedRoundTrip.TruncatedKeepsAll` | src/v5/codec/packet/disconnect.rs:118-148 | A packet goes out whole if and only if all its optional properties fit what the limit leaves after the mandatory part (less four bytes for PUBACK, PUBREC, PUBREL and PUBCOMP), the wrap-around below it included |
| `V5LimitedRoundTrip.WhatIsKept` | src/v5/codec/encode.rs:120-171 | Under every limit and for all nine packet types the cut packet keeps every other field, the longest prefix of user properties that fits those spare bytes, and the reason string exactly if it fits after all of them |
| `V5LimitedRoundTrip.WithinLimitedIff` | src/v5/codec/packet/pubacks.rs:98-133 | A packet comes out within its limit if and only if its bare form does and, under a limit that does not hold the mandatory part, the size pass keeps no optional property |
| `V5LimitedRoundTrip.OthersCutAll` | src/v5/codec/encode.rs:265-270 | For all but PUBACK, PUBREC, PUBREL and PUBCOMP that second condition always holds: whatever does not fit is cut |
| `V5PlainRoundTrip.SubscribeIff` | src/v5/codec/packet/subscribe.rs:177-202 | SUBSCRIBE is read back if and only if it has neither a subscription identifier nor user properties, and then the size is the bytes written |
| `V5PlainRoundTrip.UnsubscribeIff` | src/v5/codec/packet/subscribe.rs:259-276 | UNSUBSCRIBE is read back if and only if it has no user properties, and then the size is the bytes written |
| `V5PlainRoundTrip.PublishIff` | src/v5/codec/packet/publish.rs:65-191 | PUBLISH is read back if and only if it has no subscription identifiers, and then the size is the bytes written |
| `V5PlainRoundTrip.ConnectIff` | src/v5/codec/packet/connect.rs:254-334 | CONNECT is read back if and only if its will has no properties and it has an identifier or a clean start; without will properties the size is the bytes written |
| `V5PlainRoundTrip.WillPlainMeans` | src/v5/codec/packet/connect.rs:59-69 | A will's property length is zero exactly if all its optional fields are absent |
| `V5Streams.RoundTripsIff` | src/v5/codec/codec.rs:155-197 | Of the packets that can be encoded, exactly those that survive are read back as sent: stripped of declined problem information, cut to the size limit |
| `V5Streams.EncodableIff` | src/v5/codec/codec.rs:155-197 | A packet is encoded if and only if its content is within 268435455 bytes and the limit, its written fields fit their length bytes, and a PUBLISH has an identifier exactly for quality 1 and 2 |
| `V5Streams.EncodeErrors` | src/v5/codec/packet/publish.rs:142-157 | Each reason for which a packet within the limits is refused |
| `V5Streams.OnlyProblemInfoStripped` | src/v5/codec/codec.rs:155-189 | Before encoding, user properties and reason string are taken from exactly the listed packet types if problem information was declined, and nothing else is changed |
| `V5Streams.SentKeeps` | src/v5/codec/codec.rs:155-197 | What arrives differs from the packet at most in user properties and reason string, and is the packet if none was declined and all of them fit |
| `V5Grammar.AcceptsIff` | src/v5/codec/decode.rs:8-29 | The decoder takes exactly the forms of a packet for that packet: properties in any order around the fields as encoded, the short forms of acknowledgements, DISCONNECT and AUTH; every other byte string is refused |
| `V5LimitedGrammar.LimitedLanguage` | src/v5/codec/packet/connack.rs:105-180 | The same for CONNACK, PUBACK, PUBREC, PUBREL, PUBCOMP, SUBACK, UNSUBACK, DISCONNECT and AUTH |
| `V5PlainGrammar.ConnectLanguage` | src/v5/codec/packet/connect.rs:106-252 | The bytes accepted as a CONNECT, with the properties of connection and will in any order |
| `V5PlainGrammar.PublishLanguage` | src/v5/codec/packet/publish.rs:66-131 | The bytes accepted as a PUBLISH |
| `V5Wire.SizeIsWritten` | src/v5/codec/encode.rs:15-118 | For packets that survive, the size pass counts exactly the bytes after the fixed header; the limit of the codec bounds these alone |
| `V5Wire.WireLength` | src/v5/codec/codec.rs:189-196 | The length of every encoding: fixed header, counted content, and the bytes that the packet writes beyond or short of it |
| `V5Wire.WithinLimitIff` | src/v5/codec/codec.rs:189-194 | A surviving packet keeps a non-zero limit on the wire if and only if its content leaves room for the fixed header |
| `V5Wire.BuilderLimitIff` | src/v5/codec/codec.rs:55-62 | A maximum above five set through the builder is kept on the wire if and only if what the packet writes beyond its content fits what the content leaves, and so by every packet that writes no more than it counts |
| `V5Wire.RawLimitIff` | src/v5/codec/codec.rs:76-78 | A maximum set as it is is kept by a packet if and only if what it writes beyond its content fits what content and fixed header leave |
| `V5Wire.RawLimitExceededIff` | src/v5/codec/codec.rs:76-78 | A maximum set as it is, as on receipt of CONNECT and CONNACK, is exceeded by exactly the surviving packets whose content lies within a fixed header of it |
| `V5Wire.SettersAgreeIff` | src/v5/codec/codec.rs:55-78 | Both ways of setting the maximum are the same exactly up to five |
| `V5Wire.RawLimitExceeded` | src/v5/codec/codec.rs:189-196 | A PUBLISH of 22 bytes under a maximum of 20 |
| `V5Wire.BuilderLimitExceeded` | src/v5/codec/packet/publish.rs:167-187 | A PUBLISH with two subscription identifiers of 16 bytes under a builder maximum of 13 |
| `V5Wire.TightAckRefused` | src/v5/codec/packet/pubacks.rs:99-106 | Under a limit of six a bare PUBACK is encoded and one with a user property is refused |
| `V5Misread.NegativeExcessStalls` | src/v5/codec/codec.rs:130-133 | A packet that writes less than it counts: the peer reads nothing and waits |
| `V5Misread.NegativeExcessSwallows` | src/v5/codec/codec.rs:130-133 | Once enough follows, the first following bytes are taken for the rest of that packet |
| `V5Misread.PublishIdsFault` | src/v5/codec/packet/publish.rs:90-119 | A PUBLISH whose first subscription identifier is below 2^24 and that writes no less than it counts is refused as malformed |
| `V5Misread.PublishOutcome` | src/v5/codec/packet/publish.rs:65-131 | What the peer makes of every PUBLISH: it waits if less is written than counted; otherwise the announced part of the written properties decides, by error or by what it describes, and what was written beyond is read as the next packets |
| `V5Misread.SubscribeIdOutcome` | src/v5/codec/packet/subscribe.rs:100-128 | What the peer makes of every SUBSCRIBE with an identifier: with user properties it waits; without, it reads another identifier if and only if the four written bytes form a non-zero variable byte integer, and refuses the packet otherwise |
| `V5Misread.ReadAsOther` | src/v5/codec/packet/subscribe.rs:109-113 | An identifier that is taken for another is above 268435455, and what it is taken for is not |
| `V5Misread.PublishIdOutcome` | src/v5/codec/packet/publish.rs:90-131 | What the peer makes of every PUBLISH with one identifier and no user properties: from 2^28 on it waits, below 2^24 it refuses, in between it reads another message if and only if the last three bytes of the identifier hold a property that the message does not have, and refuses otherwise |
| `V5Misread.InsteadDiffers` | src/v5/codec/packet/publish.rs:90-131 | The message read instead has the first byte of the identifier as its identifier |
| `V5Misread.SubscribeMisread` | src/v5/codec/packet/subscribe.rs:188-201 | A subscription to one filter with identifier 0x80808001 is read as one with identifier 2097152 |
| `V5Misread.PublishMisread` | src/v5/codec/packet/publish.rs:174-191 | A message with identifier 0x01230005 is read as one with identifier 1 and topic alias 5 |
| `V5Misread.SubscribeWithId` | src/v5/codec/packet/subscribe.rs:188-201 | A subscription with identifier 1 is refused |
| `V5Misread.SubscribeWithUser` | src/v5/codec/packet/subscribe.rs:188-201 | A subscription with one user property keeps the peer waiting |
| `V5Misread.UnsubscribeWithUser` | src/v5/codec/packet/subscribe.rs:267-276 | An UNSUBSCRIBE with one user property keeps the peer waiting |
| `V5Misread.PublishWithId` | src/v5/codec/packet/publish.rs:174-191 | A message with subscription identifier 1 is refused |
| `V5Misread.ConnectWithWillProperty` | src/v5/codec/packet/connect.rs:319-325 | A CONNECT whose will has a delay keeps the server waiting |
| `V5Streams.StreamRoundTrip` | src/v5/codec/decode.rs:8-29 | Decoding concatenated encodings gives all packets as sent, in order, with nothing left over |
| `V5Streams.ProblemInfoWithheld` | src/v5/codec/codec.rs:157-189 | Once the last decoded CONNECT declined problem information, the peer reads no reason string or user property outside CONNECT, PUBLISH, CONNACK and DISCONNECT |
| `V5CodecObject.Codec.DecodeNext` | src/v5/codec/codec.rs:91-148 | Decoding keeps the problem-information flag that of the last CONNECT |
| `V5CodecObject.Codec.Encode` | src/v5/codec/codec.rs:155-197 | The encoder, run through the counting and the appending loops: the bytes it appends are, on their own, read by the peer as the packet as sent if and only if the packet survives, and its errors are those of the specification |
| `Version.SniffStable` | src/version.rs:23-58 | An answer or error is unchanged by any further bytes |
| `Version.SniffExact` | src/version.rs:23-58 | Every answer: more bytes are asked for exactly until the seventh byte behind the fixed header of a CONNECT or the end of any other header, then name and level decide |
| `Version.SniffAgrees` | src/version.rs:23-58 | For a whole CONNECT frame of at least ten bytes the answer names exactly the decoder that does not reject the protocol, and there is none exactly if both do |
| `Version.ChosenNeverRefuses` | src/v3/codec/decode.rs:49-57 | Whatever follows, the chosen decoder never rejects the first frame for its protocol name or level |
| `Version.RecognisesV3` | src/version.rs:23-58 | Every encoded MQTT 3.1.1 CONNECT is recognised, and every prefix of it gives no other answer |
| `Version.RecognisesV5` | src/v5/codec/packet/connect.rs:106-114 | Every encoded MQTT 5.0 CONNECT is recognised, and every prefix of it gives no other answer |
| `Topic.PrintParse` | src/topic.rs:247-295 | Printing the parse of an accepted string gives the string back |
| `Topic.ParsePrintIff` | src/topic.rs:247-295 | Parsing a printed filter gives it back if and only if it is valid, non-empty and its texts are non-empty and slash-free |
| `Topic.ParseAcceptsIff` | src/topic.rs:225-266 | The accepted strings, level by level |
| `Topic.ParseErrors` | src/topic.rs:225-266 | A refusal is InvalidLevel exactly if a level mixes a wildcard with other text, and InvalidTopic otherwise |
| `Topic.Display` | src/topic.rs:279-295 | The printing loop joins the level texts with slashes |
| `Topic.MatchesStr` | src/topic.rs:84-142 | The matching loop, with its early exits, computes the recursive matcher |
| `Topic.MatchesIff` | src/topic.rs:84-142 | The matcher agrees with the relation of section 4.7 of MQTT 3.1.1 on a filter and a name if and only if no wildcard it reaches meets a '$' level where the two differ |
| `Topic.MatchesOrdinaryNames` | src/topic.rs:214-223 | They agree for names without a '$' level, and for a leading one under a filter that does not start with a single-level wildcard |
| `Topic.FaithfulIff` | src/topic.rs:84-107 | A parsed filter is matched as the standard says for every name if and only if it has no wildcard after the first level and is not a lone single-level wildcard |
| `Topic.LonePlus` | src/topic.rs:84-107 | The filter "+" matches the name "$SYS" |

## Left out

- ntex internals (read and write tasks, timers, pools, back pressure): flags, logs and free choices of the events that a run consists of.
- Keep-alive clocks and timeouts: a keep-alive expiry is an event that may happen at any poll.
- Runs in which encoding an outgoing packet fails: the sink model covers successful encodes, since a failed one leaves its entry registered.
- The bytes a failed encode leaves in the buffer: encoders are modelled by their result.
- Arithmetic checks of an unoptimised build, which panics where the model wraps: 32-bit subtractions of PUBACK and SUBACK limits, the credit check, the reorder base.
- Which error a refused packet body gives, apart from protocol, level and size errors: the acceptance theorems say what is refused.
- Reorder.Enabled: a call needs fewer than 2^64 - 1 queued cells, which no memory holds.
- Connection.Enabled: handlers answer every request they accept and nobody closes the connection; closing is covered for the sink alone by `SinkClosing`.
- `MqttSink::ready`: waiting is modelled through the send paths.
- `Topic::matches` on parsed names, where a blank level matches anything; `Topic.MatchesStr` covers names as strings.
- `write_topic` on byte writers: the same loop as `Topic.Display`.
- The MQTT 5.0 client dispatcher, a near copy of the server's, and both routers.
- The MQTT 3.1.1 dispatchers' error paths: their admission and release of identifiers are part of `Connection`.
- Servers, selectors, handshakes, connectors and service builders.
- QoS 2 exchanges: PUBREC, PUBREL and PUBCOMP are encoded and decoded only.
- V5InboundObject.Dispatcher.Call: futures live in one list of the object, so sharing of the in-flight set between separate future objects is not modelled.
