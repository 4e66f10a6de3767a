# ClimateNode: a Dafny model of the relay, the sessions, the commands and the wire

ClimateNode is two microcontroller nodes. The gateway samples a sensor, speaks MQTT to a
broker over two sessions (one per node identity) and relays a peer node that has only a CAN
bus. The peer samples its own sensor, beats once a second and answers commands over ISO-TP.
This project models the code in which those parts have to agree, and proves what they promise
one another.

Two forms are used. Code that one thread runs on state of its own is written as Dafny classes
and methods with the source's loops and branches, each proved against a specification of the
state it leaves. Code that several threads and interrupts share is written twice: as a state
machine whose events are the atomic actions (`Exec` runs a list of events, so a statement about
every event list is a statement about every interleaving), and as the threads' own
straight-line bodies, which take those actions one by one while everybody else may run in
between (`RelayThreads`, `HeartbeatThread`, `MailboxReader`, `StatusThread`).

| file | subject |
|---|---|
| `RoundTrip.dfy`, `RelayThreads.dfy` | a command's round trip: queue, TX thread, link, peer, RX thread, semaphore |
| `Downward.dfy` | which forwarded commands reach the peer whole, and what comes back for the others |
| `PeerHistory.dfy` | the FIFO relay joined to the peer's duplicate suppression |
| `AckDelivery.dfy` | the round trip joined to the latest-wins ack channel |
| `Liveness.dfy`, `HeartbeatThread.dfy` | the ONLINE/OFFLINE decision, its queue, its clock |
| `Mailbox.dfy`, `MailboxReader.dfy` | a latest-wins channel with a counting eventfd |
| `StatusAgreement.dfy`, `StatusThread.dfy` | the peer's retained status topic |
| `Upward.dfy` | the opaque relay of the peer's payloads |
| `Sessions.dfy`, `SessionRuns.dfy` | the MQTT session loop, its deadlines and backoff |
| `Inbound.dfy` | an MQTT PUBLISH arriving at the gateway |
| `PeerNode.dfy`, `PeerLink.dfy` | the peer's command handling, heartbeat schedule, link backoff, beats in flight |
| `Dispatch.dfy`, `SensorBus.dfy`, `Sensor.dfy` | duplicate suppression, the validated command channel, the sampling loop |
| `Protobuf.dfy`, `TelemetrySchema.dfy`, `CommandSchema.dfy`, `AckSchema.dfy`, `Protocol.dfy`, `Heartbeat.dfy` | the wire formats |
| `WireBytes.dfy` | the same messages as literal bytes |
| `Basics.dfy` | shared vocabulary |

## Where the code does less than its comments say

The model follows the code. Each of these is proved, with a concrete run where something fails.

- `gateway/src/relay.cpp:342-345`: resetting the semaphore discards only gives made before the
  reset. "One ack per command, under its own sequence, before the next command" holds in every
  interleaving if and only if no wait expires with its ack still on the way, no send fails
  after delivering, no stray ack arrives and no accepted command is longer than 20 bytes
  (`OneAckEachIffNoLapse`). With any of these the weaker accounting of
  `NoRoundTripEndsSilently` still holds.
- `gateway/src/relay.h:99-104`: one round trip at a time does not keep acks apart on their way to
  main. Even with no lapse at all two commands can be answered before main drains the channel,
  and the first ack is never read (`TwoAcksCollapse`). Every ack is read, once and in order,
  exactly in those runs in which none is published while the eventfd is up or main is inside
  its handler and no channel read fails (`EveryAckIsReadIff`).
- `shared/can_link.h:187-189`: two lost beats are tolerated on the 1000 ms grid, not three
  (`TwoLostBeatsAreTolerated`). The exact rule is that the longest gap between beats and the
  longest delay between reading the clock and emptying the queue add up to less than 3500 ms,
  and that the queue never holds four frames that do not unpack (`NeverFalseAlarmIff`). At
  exactly 3500 a beat can arrive in the same millisecond as, but after, the step that misses
  it. The two arguments of `liveness_step` at `gateway/src/relay.cpp:294` have no specified
  order; the rule is the same for both.
- `gateway/src/relay.cpp:227-230`: a dropped beat loses nothing as long as one that unpacks is
  queued. It is hidden exactly when the queue is full and nothing in it unpacks
  (`BeatIsHiddenIff`), which can happen exactly when four such frames can be queued at once
  (`EveryBeatCountsIff`). Then a peer that beats on time is declared offline, however short its
  period (`JunkFalseAlarm`).
- `gateway/src/main.cpp:655-656`: the backoff is doubled before use, so the first retry of a
  session that never connected waits 2000 ms (`FirstRetryWaitsTwiceTheMinimum`). What resets it
  is having been serving before the input that failed, and nothing else
  (`InputFailureResetsIffServing`): a session whose CONNACK arrived in that same input doubles
  as well (`LateConnackStillDoubles`).
- `gateway/src/main.cpp:227-234`: the branch that cannot happen can, at every length from 25 to
  128 (`TooLargeToRelayIsReachable`). `peer-node/src/main.cpp:450` takes 21 bytes while the
  gateway forwards payloads of up to 24 behind a type byte, so longer commands arrive in pieces:
  every command of a given length comes back as one ack under its own sequence exactly when that
  length is at most 20 (`LengthsAnsweredInKindIff`). A single longer command does if and only if
  its first 20 bytes end where a record ends and already hold its sequence, or it is numbered
  0, those bytes do not decode and the rest does not begin like a command
  (`AnsweredInKindIff`); otherwise it may be acknowledged under 0 or under another command's
  sequence (`LongCommandIsAnsweredAsAnother`).
- `gateway/src/main.cpp:516-525`: the counter is cleared before the channel is read, so one
  message can be published twice. That happens as often as a signal lands between those two
  steps, and no oftener (`RepeatsBoundedIff`); the next read repeats exactly when the number of the
  last message read equals counts taken plus counts pending (`NextReadRepeatsIff`).
- `gateway/src/main.cpp:702` ignores the result of its publish, a failed read is ignored there
  and at `gateway/src/main.cpp:631-634`, and a failed status write at
  `gateway/src/relay.cpp:151-155`. The retained status agrees with what the relay decided in
  every quiescent state if and only if none of these four failures is possible
  (`AlwaysAgreesIffNoLapse`); the next successful write, read and publish end the disagreement
  (`RetainedStatusAgrees`).
- `gateway/src/sensor.cpp:139`: readings are numbered in ascending order for exactly 2^32
  samples (`NumbersAscendIff`).

## Assumptions

Zephyr, the MQTT library, ISO-TP and nanopb are not part of this model; these contracts stand
in for them. A zbus publish copies the message and runs its listeners under the channel lock; a
read returns the whole newest message or fails. A message subscriber is a FIFO of copies. A
semaphore of limit 1 saturates. A reset takes effect at one instant. An ISO-TP transfer arrives
whole or not at all, in order; a receive takes a bufferful of it and leaves the rest to the
next. `zvfs_eventfd_read` returns the count and clears it. A publish on the ack channel gets
its lock. The clock never runs backwards. The broker delivers a topic only on the session
subscribed to it and only after SUBSCRIBE. The nanopb encoder writes fields in number order;
the decoder refuses wire types other than 0, 1, 2 and 5, field numbers outside 1 to 2^29-1, a
declared field with the wrong wire type, and a varint that does not fit its uint32 field. Byte
shifts and masks are written as arithmetic by powers of 256.

## Model

| member | source | states |
|---|---|---|
| RoundTrip.OneAckEachIffNoLapse | gateway/src/relay.cpp:322-367 | every interleaving gives each finished command exactly one ack publish attempt, with its own sequence, in acceptance order, none outstanding when the next is fetched, if and only if none of four lapses is possible: an overdue ack, a delivered send reported as failed, a stray ack, a command longer than 20 bytes |
| RoundTrip.NoRoundTripEndsSilently | gateway/src/relay.cpp:320-368 | with no assumption at all: accepted = completed + in flight + queued in order; successful waits <= gives <= peer-ack attempts; completions = successful waits + synthetic acks; a wait succeeds only on a give after its own reset |
| RoundTrip.LateAckReleasesNextWait | gateway/src/relay.cpp:342-345 | a run in which command b completes on a's late ack and no ack ever carries b's sequence |
| RoundTrip.FailedDeliveryAcksTwice | gateway/src/relay.cpp:354-358 | a run in which a send that fails after delivering gets its command acked twice |
| RoundTrip.LongCommandIsAnsweredUnderZero | peer-node/src/main.cpp:450-454 | for every length from 21 to 24 a run in which a command completes on an ack under sequence 0 |
| PeerHistory.PeerExecutesEachBlockOnce | peer-node/src/main.cpp:367-382 | whatever acks and sends go wrong, what the peer handled since it booted is an ordered selection of what main accepted, decoded alike, and of a redelivered block it executes at most the first copy to arrive |
| AckDelivery.EveryAckIsReadIff | gateway/src/relay.h:99-104 | once main has drained the channel it has read every ack attempt, once and in order, exactly when none was published over an eventfd still up or a handler still under way and no read failed |
| AckDelivery.TwoAcksCollapse | gateway/src/main.cpp:589-601 | a run without any lapse of the round trip in which two commands are answered and main reads only the second ack |
| AckDelivery.OneAckReachesMainPerCommand | gateway/src/main.cpp:580-616 | with no lapse on either side, main reads exactly one ack per finished command, under its sequence, in order |
| RelayThreads.Shared.TxIteration | gateway/src/relay.cpp:322-367 | one iteration of the TX thread, others running in between, completes exactly the command it fetched; its own actions are exactly fetch, reset, the send's result, and then either a successful wait or, after an expired wait or a failed send, one synthetic ack under that sequence; it waits exactly when the command was delivered and the link reported so |
| RelayThreads.Shared.RxAck | gateway/src/relay.cpp:179-185 | the RX thread publishes the ack it received and gives the semaphore as its last action, after that publish, once each |
| Liveness.PeerLiveness.Step | gateway/src/relay.h:154-171 | the new state and time of evidence, and that it returns true exactly when the state changed |
| Liveness.NeverFalseAlarmIff | gateway/src/relay.cpp:279-297 | whatever the processing delays and queue overflows, a peer once seen is never declared offline exactly when the gap between arriving beats, dropped ones included, plus the clock-to-drain window is under 3500 ms and fewer than four frames that do not unpack can be queued at once; for either argument order |
| Liveness.TwoLostBeatsAreTolerated | shared/can_link.h:187-194 | for runs whose beats all lie on the exact 1000 ms grid, k consecutive lost beats are tolerated if and only if 1000(k+1) plus the window between reading the clock and emptying the queue is under 3500 ms and the queue cannot fill with frames that do not unpack; with a window under 500 ms the first condition is k <= 2 |
| Liveness.OfflineIsPrompt | gateway/src/relay.h:166-170 | OFFLINE is published at the first step 3500 ms or more after the last evidence, so within 3500 ms plus one iteration, and no such step leaves another state |
| Liveness.RunKeepsStatusHistory | gateway/src/relay.cpp:294-296 | published statuses strictly alternate, agree with the state, and UNKNOWN is never re-entered |
| Liveness.EveryBeatCountsIff | gateway/src/relay.cpp:223-232 | queue overflow never costs evidence, in any run, exactly when fewer than four frames that do not unpack can be queued at once |
| Liveness.BeatIsHiddenIff | gateway/src/relay.cpp:223-232 | in every reachable state an arriving beat is hidden exactly when the queue is full and nothing in it unpacks |
| Liveness.JunkHidesBeat | gateway/src/relay.cpp:208-213 | from any empty queue a run to a state in which every beat is dropped and leaves no trace in the queue |
| Liveness.JunkFalseAlarm | gateway/src/relay.cpp:208-232 | for every gap between beats a run in which hidden beats get a punctual peer declared offline |
| HeartbeatThread.FrameQueue.Put | gateway/src/relay.cpp:223-232 | a full queue drops the frame, exactly as the liveness model's interrupt does |
| HeartbeatThread.FrameQueue.Drain | gateway/src/relay.cpp:199-220 | empties the queue and reports whether any frame in it was understood |
| HeartbeatThread.ReceiveLoop.Iteration | gateway/src/relay.cpp:281-297 | with interrupts anywhere, a beat waiting at the start is seen, and a status is published exactly on a change of state, once, with the new state |
| Mailbox.NoLostWakeup | gateway/src/main.cpp:498-544 | counts taken + pending = publishes; a read returns exactly that message; messages are read in order; with no failed read, nothing pending means the newest was read |
| Mailbox.RepeatsBoundedIff | gateway/src/main.cpp:513-525 | runs in which at most c signals land between the clearing of the counter and the channel read repeat at most r messages if and only if c <= r; with none, every read is newer than the last |
| Mailbox.NextReadRepeatsIff | gateway/src/main.cpp:513-525 | the next read returns the message read last exactly when that one's number is counts taken plus counts pending |
| Mailbox.SameMessageReadTwice | gateway/src/main.cpp:513-525 | the shortest run in which one message is read twice and the one before it never |
| MailboxReader.Shared.TakeNewest | gateway/src/main.cpp:580-616 | takes all pending counts, returns the newest message even if it arrived meanwhile, and reads nothing when nothing is pending |
| StatusAgreement.AlwaysAgreesIffNoLapse | gateway/src/main.cpp:687-710 | whenever the peer session serves, its counter is zero and nobody is mid-step, the last value published equals what the relay last decided: in every run, if and only if no status write, greeting read, greeting publish or handler read can fail |
| StatusAgreement.RetainedStatusAgrees | gateway/src/main.cpp:620-638 | with any failures, such a state agrees as soon as the latest status write, read and publish succeeded; nothing was ever published while nothing is decided |
| StatusAgreement.RetainedStatusIsPeerState | gateway/src/relay.cpp:279-297 | joined to any run of the receive loop: without failures the retained value is the peer's state in every such moment, and an unknown peer has never been announced |
| StatusAgreement.FailedWriteDisagrees | gateway/src/relay.cpp:144-157 | a run in which a decision never reaches the channel and the disagreement stays |
| StatusAgreement.FailedGreetingDisagrees | gateway/src/main.cpp:698-704 | runs in which the greeting's read or publish fails and the session serves on in disagreement |
| StatusAgreement.FailedHandlerReadDisagrees | gateway/src/main.cpp:628-634 | a run in which the handler's read fails after it cleared the counter, and the disagreement stays |
| StatusAgreement.EarlyBeliefIsStillAnnounced | gateway/src/main.cpp:698-704 | a belief formed before the eventfds exist is announced by the greeting alone |
| StatusThread.Shared.SessionServing | gateway/src/main.cpp:687-710 | the greeting announces the belief of the moment it reads the channel, and nothing while there is none |
| StatusThread.Shared.PublishRelayedStatus | gateway/src/main.cpp:620-638 | the handler announces the belief of the moment it reads, and only a failed publish costs the session |
| Upward.UpwardRelayIsOpaque | gateway/src/relay.cpp:167-195 | every payload published on node/2/telemetry is byte for byte one the peer sent as telemetry, and every one on node/2/ack one the peer sent as an ack, a synthetic ack, or one main wrote itself; the peer's keep their sending order, never mixed between topics |
| Upward.ReceivedReachesItsChannel | gateway/src/relay.cpp:167-195 | in every reachable state, a message received with the bus free is on the channel of its own kind, byte for byte, and nowhere else |
| Upward.OwnAcksReachTheirTopic | gateway/src/main.cpp:223-251 | a synthetic ack gets to node/2/ack over the channel, an ack of main's own at once and past the channel |
| Upward.NothingIsWithheld | gateway/src/main.cpp:580-616 | without losses both topics carry exactly what the peer sent of their kind, each message once and in order |
| Upward.Relay.HandleRelayed | gateway/src/relay.cpp:167-195 | the payload goes untouched to the channel its first byte names, the semaphore is given exactly for acks, publish_up never refuses, and the channels stay those of the interleaved model |
| Upward.Relay.PublishUp | gateway/src/relay.cpp:120-142 | refuses exactly what exceeds 160 bytes and otherwise replaces only the channel it was given |
| Upward.Relay.SendSyntheticAck | gateway/src/relay.cpp:309-318 | never refused; what is published decodes as a FAILED ack under the command's sequence |
| Upward.BuildFrame | peer-node/src/main.cpp:200-225 | the frame is the byte 1 or 2 in front of the payload and routes back to exactly that type and payload; larger payloads than an ack are refused |
| RoundTrip.LongCommandIsAnsweredAsAnother | peer-node/src/main.cpp:450-454 | for any two different sequences, the second under 128, a run in which a command numbered with the second completes on an ack under the first |
| Downward.AnsweredInKindIff | peer-node/src/main.cpp:450-454 | payload by payload: a forwarded command comes back as exactly one ack under its own sequence if and only if it has at most 20 bytes, or its first 20 decode to that sequence, or its sequence is 0, they do not decode, and the rest does not begin like a command |
| Downward.AnotherCommandIsAcknowledged | peer-node/src/main.cpp:450-454 | for any first sequence and any last under 128 a forwarded command that is acknowledged under the first alone |
| Downward.LengthsAnsweredInKindIff | peer-node/src/main.cpp:450-454 | every forwarded command of a given length is answered by exactly one ack under its own sequence, all pieces of the transfer considered, if and only if that length is at most 20 |
| Sessions.Gateway.RunPass | gateway/src/main.cpp:797-954 | a pass of the loop takes every session through exactly its own step, described by ConnectingEnds, ServingEnds and IdleOnlyConnects, and polls with the nearest deadline |
| Sessions.Gateway.NextDeadline | gateway/src/main.cpp:717-753 | the minimum of the live deadlines, overdue ones as zero, -1 exactly when there is none |
| SessionRuns.PublishesOnlyWhileServingAndBacksOff | gateway/src/main.cpp:797-954 | over every run of passes: nothing is published on a session that is not serving; serving means backoff 1000; after k drops without serving it is min(1000*2^k, 30000); attempts are at least that far apart; at most 5000 ms are left to a pending CONNACK |
| SessionRuns.ConnectingEnds | gateway/src/main.cpp:868-895 | a session awaiting CONNACK ends the pass serving, subscribed, greeted and with the backoff reset exactly when input succeeded and the broker's last word was an acceptance; idle with the backoff doubled exactly when input failed, or without an acceptance it was refused or overdue; otherwise it goes on waiting |
| SessionRuns.ServingEnds | gateway/src/main.cpp:897-953 | a serving session stops exactly on failed input, a disconnect as last word, failed keepalive or a failed publish, then retries after 1000 ms; it publishes its answers and, unless dropped before, its handlers' messages up to the first failure |
| SessionRuns.IdleOnlyConnects | gateway/src/main.cpp:800-807 | an idle session does nothing before its time and makes exactly one attempt when it has come; while poll fails nothing else happens to any session |
| SessionRuns.RunIsSettled | gateway/src/main.cpp:797-954 | between the passes of any run the callback's flags agree with the phase, so those three descriptions cover every pass |
| SessionRuns.InputFailureResetsIffServing | gateway/src/main.cpp:876-878 | after failed input the retry comes after 1000 ms if and only if the session was serving before that input, whatever the input brought |
| SessionRuns.LateConnackStillDoubles | gateway/src/main.cpp:645-656 | a CONNACK accepted in the input that then fails does not reset the backoff: it doubles |
| SessionRuns.FirstRetryWaitsTwiceTheMinimum | gateway/src/main.cpp:655-659 | a session that fails its first attempt retries after 2000 ms |
| SessionRuns.OverdueConnectLeaves | gateway/src/main.cpp:886-895 | a session whose CONNACK deadline has come leaves CONNECTING in the same pass |
| SessionRuns.IdleContributesPositive | gateway/src/main.cpp:803-807 | after the connect loop an idle session's deadline is strictly in the future |
| SessionRuns.ZeroTimeoutMakesProgress | gateway/src/main.cpp:858-915 | a zero poll timeout means a PINGREQ is due or an overdue attempt ends in this pass: the loop cannot spin |
| SessionRuns.WakesByEveryDeadline | gateway/src/main.cpp:862-866 | the loop wakes by every session's deadline plus the time spent connecting in that pass; it waits for ever exactly when there is no deadline, and otherwise for one session's deadline and no less |
| Inbound.Gateway.HandlePublish | gateway/src/main.cpp:260-339 | removes exactly the payload from the stream whatever its length, then sends exactly one ack or forwards exactly one command byte for byte, with the right topic, sequence, status and device information |
| Inbound.Gateway.AnswerOwn | gateway/src/main.cpp:332-338 | a command of the node's own is acknowledged under its sequence with the status its contents deserve, OK for a repeat; device information goes out exactly with a request for it that is no repeat |
| Inbound.Gateway.TakePayload | gateway/src/main.cpp:263-292 | keeps the first min(len, 128) bytes intact, drains the rest, flags oversize exactly above 128 |
| Inbound.Gateway.ForwardToPeer | gateway/src/main.cpp:223-251 | forwards what fits when the relay has room, otherwise answers FAILED on the peer's ack topic |
| Inbound.TooLargeToRelayIsReachable | gateway/src/main.cpp:227-234 | for every length from 25 to 128 some payload reaches that branch |
| PeerNode.Peer.HandleIncoming | peer-node/src/main.cpp:332-383 | one ack frame per command, under its sequence or 0 if it does not decode, executed unless it repeats the last, with device information exactly in answer to a request for it that is no repeat |
| PeerNode.Peer.ReceiveTransfer | peer-node/src/main.cpp:450-454 | a transfer of any length, received piece by piece, is answered by exactly the acks the model of the way down says, in order |
| PeerNode.Peer.RoundTrip | peer-node/src/main.cpp:367-382 | for every forwarded command of at most 20 bytes the ack that reaches the gateway's channel carries the sequence the gateway read out of it |
| PeerLink.Schedule.Turn | peer-node/src/main.cpp:429-451 | next_beat = t0 + 1000n; slots used at a wait = floor((now - t0)/1000) + 1; the wait is in (0, 1000]; slots are at most 1000 + stall apart |
| PeerLink.Schedule.CatchUp | peer-node/src/main.cpp:427-445 | after a stall the loop catches up slot by slot and comes to wait again exactly when, after some number of beats, their total cost plus the lateness is under a period each; then every slot whose time has come is used |
| PeerLink.StallTolerance | shared/can_link.h:187-194 | a peer whose loop is never more than D late, whatever gaps that schedule can leave between its beats, is never falsely offline exactly when D plus the gateway's window is under 2500 ms and the queue cannot fill with frames that do not unpack |
| PeerLink.Link.Note | peer-node/src/main.cpp:139-162 | link_up exactly when the backoff is 0; after k failures in a row it is min(2000*2^(k-1), 30000) |
| PeerLink.Link.MaySendTelemetry | peer-node/src/main.cpp:507-512 | telemetry goes out only after a noted success or once the full current backoff has passed since the last failure, so never while beats keep failing every second |
| BeatsInFlight.CountIsExactAtTheVerdict | peer-node/src/main.cpp:270-328 | under every placement of the interrupt the count loaded equals accepted minus completed, dips to -1 only between acceptance and increment, and "up" means at most one frame unfinished |
| BeatsInFlight.JudgedUpIff | peer-node/src/main.cpp:317-327 | under every placement of the interrupt the link is judged up exactly when the frame was accepted, the last completed beat had reported no error when that was loaded, and at most one beat was unfinished when the count was |
| BeatsInFlight.CountDipsBelowZero | peer-node/src/main.cpp:300-304 | the dip does occur |
| Dispatch.CommandHandler.Handle | shared/commands.cpp:93-111 | the commands attempted on the sensor bus are always those of the deliveries with each run of equal sequences collapsed to its first; a repeat is answered OK without effect; anything else is carried out as CarriedOut says: an interval is refused exactly outside 1000 to 300000 and otherwise becomes the period, a trigger stays a trigger and leaves the period alone, device information is promised exactly when asked for |
| Dispatch.CommandHandler.Apply | shared/commands.cpp:52-89 | the same for each arm of the oneof, in the bus's own values |
| Dispatch.CommandHandler.Forward | shared/commands.cpp:28-48 | the bus outcome as an ack status: rejected, failed or stored |
| Dispatch.CollapseKeepsOpenings | shared/commands.cpp:100-110 | collapse keeps exactly the commands whose predecessor has another sequence, once each and in order |
| Dispatch.BlockExecutesOnce | shared/commands.cpp:18-22 | of any surviving copies of one redelivered command exactly the first executes, unless it repeats the previous command |
| Dispatch.RedeliveryIsInvisible | shared/commands.cpp:18-22 | redelivering a command any number of times changes nothing about any later command |
| SensorBus.Bus.Publish | gateway/src/sensor.cpp:51-58 | the validator rejects exactly intervals outside 1000 to 300000 and unknown kinds, and a rejected or refused command changes nothing |
| SensorBus.PeriodBounded | shared/app_channels.h:137-148 | after any accepted commands the period is within [1000, 300000] |
| Sensor.SensorThread.WaitOut | gateway/src/sensor.cpp:157-212 | the period is the last interval consumed; a trigger ends the wait the moment it is handed over and nothing else cuts it short; the wait never runs past 300000 ms after its sample, ended or not; commands are consumed one a turn, in order, and what arrives meanwhile is kept; it does end if no two commands are handed over in the same millisecond |
| Sensor.SensorThread.Iterate | peer-node/src/sensor.cpp:107-168 | one iteration publishes one reading, numbered one past the last, then waits within those bounds, cut short by a trigger and by nothing else |
| Sensor.NumbersAscendIff | gateway/src/sensor.cpp:133-151 | however many publishes fail, the numbers that reach the channel ascend strictly for exactly 2^32 samples |
| Sensor.ReadingsArriveInOrder | gateway/src/main.cpp:509-544 | up to that wrap, in every interleaving of sensor and main thread the numbers read never descend, and strictly ascend unless a signal crossed a read |
| Protobuf.VarintRoundTrip | proto/node.proto:7-14 | every 64-bit value is recovered from its varint in front of any bytes |
| Protobuf.RecordsRoundTrip | proto/node.proto:16-23 | every list of tagged records is recovered from what it prints |
| WireBytes.VarintBytes | proto/node.proto:7-14 | a varint is its value in groups of seven bits, least significant first, with the top bit set in every byte but the last, and without empty groups |
| WireBytes.TelemetryBytes | proto/node.proto:43-90 | the bytes of a Telemetry with literal tags 8, 16, 24, 32, 45, 53, 56 and 64 |
| WireBytes.OldTelemetryBytes | tests/protocol/src/main.cpp:291-321 | the bytes of the previous Telemetry, the same tags without 64 and zeros left out |
| WireBytes.CommandBytes | proto/node.proto:96-122 | the bytes of a Command with literal tags 8, 16 and 82, 90 or 98 |
| WireBytes.AckBytes | proto/node.proto:149-170 | the bytes of an Ack with literal tags 8, 16, 24, 34 and 42, its DeviceInfo under 10, 18 and 26 |
| TelemetrySchema.TelemetryRoundTrip | proto/node.proto:43-90 | every Telemetry, presence flags included, is recovered from what it prints |
| TelemetrySchema.TelemetryFits | shared/protocol.cpp:63-67 | no Telemetry exceeds 42 bytes |
| TelemetrySchema.OldReaderReadsNewTelemetry | tests/protocol/src/main.cpp:291-321 | for every byte string a current reader accepts, a reader of the previous schema reads the same message without presence and pressure |
| TelemetrySchema.NewReaderReadsOldTelemetry | tests/protocol/src/main.cpp:323-357 | every old message is read by a current reader with zeros as absences |
| CommandSchema.CommandRoundTrip | proto/node.proto:107-122 | every Command is recovered from what it prints |
| CommandSchema.LastOneWins | proto/node.proto:107-122 | two Commands printed one behind the other decode as the second laid over the first, equal arms of the oneof merging and another arm replacing it |
| CommandSchema.RefusedIff | shared/protocol.cpp:104-121 | a payload is no Command exactly when it is no list of records or holds a declared field with the wrong wire type, an oversized number or an unreadable submessage |
| CommandSchema.CommandFits | gateway/src/relay.h:51-60 | no Command exceeds 20 bytes |
| CommandSchema.UnknownFieldsAreSkipped | proto/node.proto:19-19 | a newer host's extra fields, before or after, do not change the Command read |
| CommandSchema.LongPayloadsDecode | gateway/src/main.cpp:227-234 | every Command has payloads of every length from 25 to 128 that decode as it |
| AckSchema.AckRoundTrip | proto/node.proto:149-170 | every Ack the node can build is recovered, an empty DeviceInfo kept apart from none |
| AckSchema.AckFits | gateway/src/relay.cpp:36-36 | no Ack the node can build exceeds 140 bytes |
| Protocol.EncodeTelemetry | shared/protocol.cpp:14-74 | what is written is the reading byte by byte, with literal tags and status values, and decodes to exactly what it says; it fails exactly when the buffer is too small and never at 42 bytes |
| Protocol.EncodeAck | shared/protocol.cpp:76-102 | what is written is the ack asked for byte by byte, with literal tags and status values and its detail cut at 47 characters, and decodes to it; it fails exactly when the buffer is too small and never at 140 bytes |
| Protocol.DecodeCommandInto | shared/protocol.cpp:104-121 | filling in place gives the same result as decoding at once, and any failure or oversize leaves a zeroed command |
| Heartbeat.Pack | shared/can_link.h:152-162 | the frame says exactly the beat, byte by byte, in literal values, closed by 0xFF |
| Heartbeat.Unpack | shared/can_link.h:170-185 | accepts exactly 8-byte frames of version 1 and state at most 3, which are those that say some beat, returns that beat, and otherwise leaves the output untouched |
| Heartbeat.UnderstoodIffSaysSomething | shared/can_link.h:164-177 | the length, version and state checks accept exactly the frames that say a beat |
| Heartbeat.FrameAndBeatDetermineEachOther | shared/can_link.h:149-185 | two frames agree on bytes 0 to 6 exactly when they say the same beat |
| Heartbeat.RoundTrip | shared/can_link.h:152-185 | unpacking a packed beat returns it, whatever the output held before |
| Heartbeat.Repack | shared/can_link.h:152-185 | packing an unpacked frame reproduces its bytes 0 to 6 |

## Left out

- Zephyr, the MQTT client, sockets, zbus's buffer pool, ISO-TP segmentation, CAN drivers, nanopb's engine: replaced by the contracts under "Assumptions".
- Bus physics, bus-off recovery and arbitration: whether the bus can transmit is an input.
- The CAN identifier map: four peers, a finite check.
- Sensor drivers and unit conversion; measurements and IEEE-754 values are opaque.
- The text of acks' `detail` (any text is allowed) and of device information, and logging.
- MQTT packet identifiers, PINGREQ timing and the broker's publication of wills.
- Thread priorities: every interleaving is allowed.
- How the peer's heartbeat follows its latest reading (state byte, low sequence byte): two assignments beside the telemetry send.
- The peer's telemetry semaphore between its sensor thread and its main loop, which is the same latest-wins mechanism with a count saturating at one.
- Peer.RoundTrip: covers commands of at most 20 bytes, because longer ones reach the peer in pieces; what becomes of those is in ReceiveTransfer and LengthsAnsweredInKindIff.
- Bus.Publish: one other publisher at a time; a full subscriber queue and a busy channel are the same outcome.
- WaitOut: time between two clock readings is bounded by a slack that the wait's upper bound includes; commands handed over in the same millisecond without end would keep the source's loop waiting too, and only that case is not shown to end.
- EveryAckIsReadIff: a publish on the ack channel that cannot get the lock within 50 ms is not an attempt here.
