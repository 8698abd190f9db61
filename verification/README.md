# LiteMQTT, modelled and proved in Dafny

LiteMQTT is a small MQTT 3.1.1 client: a packet codec, a connection that frames and deframes a byte
stream, a client that keeps a window of unacknowledged exchanges, and a helper that reconnects. This
project models that protocol code and proves what its documentation promises of it, over every run.

`dafny verify dfyconfig.toml` checks the whole project.

## How it is built

- **Codec.** `Bytes`, `RemainingLength`, `Buffers`, `Packets`: the octets each packet is written as, the
  packet any byte string is parsed into, and exactly when the one undoes the other. The writer and the
  cursor reader are classes with the loops of the source, proved against those functions. `Octets` says in
  plain numbers where each field stands and which octet comes first.
- **Stream.** `Framing` (the read chains of the connection), `WriteQueue` (its serialized writer, with
  handlers that may call close() while they are being run), `BrokerFraming` (the two chunked deframers of
  the stress tools), `Cutting` (what each deframer accepts and rejects, in plain numbers), `EndToEnd`
  (publishes through all of it).
- **Session.** `Session` defines one step per io-thread handler on the three maps, with the history of
  calls, callbacks and queued frames; write completions, timers and packets may come at any time, for any
  id, also stale ones, and the broker may send anything. `Client` is the object: the same handlers,
  updating fields in place, each proved to be its step. `PacketIds` is the search for a free id. `Effects`
  says once more, by octets and not by handlers, what each event sends, reports and changes, and what follows
  over runs: every transport connect sends CONNECT, and a PUBCOMP ends its exchange for good.
- **What a run keeps.** `Accounting` (each publish is reported exactly once or still waits), `Contract`
  (which calls are taken; success means acknowledged; nothing is sent after its report), `Transmissions`
  and `Pubrels` (budgets, DUP, order), `Ownership` (packet ids), `Coverage` (every publish keeps a retry
  wait, exactly when not, and a drained session stays drained), `Endings` (what ends a session, what
  answers a publish, what is sent again on the next one), `SilentBroker` (a measure: everything is answered
  without the broker's help), `Delivery` (from the calls to what a broker reads), `Epoch` (client and
  connection together: QoS 0 exactly once), `Outcomes` (which write handlers are told of success: QoS 0 is
  reported as sent if and only if it was written).
- **Reconnecting.** `Reconnect` is the helper's policy, as a state machine and as an object; `Supervision` puts
  client and helper together and proves that the helper is never silently dead.

## Where the code and its documentation differ

The model follows the code. The lemmas named with a difference give its exact condition or a concrete run.

- `acquire_packet_id` is said to fail when all 65535 ids are in use. It fails when all ids other than the one
  at the cursor are, so 65534 suffice (`PacketIds.ExhaustedIff`, `Ownership.ExhaustedWithAFreeId`).
- callback(true) is documented as PUBACK at QoS 1 and PUBCOMP at QoS 2. The handlers accept either for
  either (`Contract.DocumentedAckIff`, `Contract.Qos2SucceedsOnPuback`).
- A disconnect is documented to fail everything in flight, with nothing sent again on the next session. A
  refusing CONNACK and the connect timeout close a session without failing what is in its window
  (`Endings.WindowSurvivesIff`), and the retry timers still running send it again on the next session, exactly
  the entries with a wait outstanding and an attempt left (`Endings.NothingResentIff`,
  `Endings.ResentOnTheNextSession`).
- A failed publish is documented as ending in a report. A failed PUBREL write, or a PUBREL exchange that ends
  on a session marked closed but not drained, leaves the publish without a wait (`Coverage.CoverageLostIff`,
  `Coverage.StrandedWithoutAnyFailure`); what still answers it is in `Endings.AnsweredIff`.
- PUBREL is documented with 3 attempts; 4 are sent for a PUBREC that stays unanswered, and a repeated PUBREC
  starts afresh (`Pubrels.FourthPubrelIff`, `Endings.FourPubrelsAreSent`).
- QoS 1 is documented to give up after the third attempt; it closes the session as well, and with it fails the
  whole window, as QoS 2 does (`Endings.ExpiryClosesIff`).
- A limit above 1000000 reconnect attempts is never reached (`Reconnect.GivesUpIffLimitIsReachable`).
- "One retry at a time" fails when a re-arm task overtakes a backoff wait (`Reconnect.FlagIsTheWaitIffNoRace`,
  `Supervision.RearmRace`).
- A publish too long for its length fields is not rejected: a topic above 65535 octets or a body above
  268435455 does not come through (`EndToEnd.EndToEndIdentity`).
- The broker of the probe treats a length field without an end after four digits as unfinished and waits for
  ever (`BrokerFraming.ProbeWaitsForEver`); that of the stress test calls it nonsense. After nonsense both
  drop the rest of the buffer, so the outcome depends on the chunks (`BrokerFraming.ChunkIndependenceIff`).
- A CONNACK that is too short counts as accepted (`Endings.ConnackOpensIff`, `Endings.EmptyConnackOpens`).
- The comment on close() says that it drains the window; no close handler is installed, so the model rests
  every drain on notify_closed_once.

## Model

| member | source | states |
|---|---|---|
| Accounting.PublishAccounting | inc/litemqtt/client.hpp:578-652 | After every run of calls, packets, write completions and timers, stale ones included, each publish call of QoS 1 or 2 and each rejected call has been reported exactly once, unless it is in the window, and then not at all; a QoS 0 frame has been reported each time its write handler ran; every report carries the topic and QoS of its call |
| Accounting.StepKeepsAccounts | inc/litemqtt/client.hpp:447-525 | No single handler breaks the accounting: acknowledgements, timers, failed writes, the drain and rejected calls each move a call from waiting to reported, once; a write handler reports whenever it runs |
| Accounting.DrainSettlesTheWindow | inc/litemqtt/client.hpp:893-933 | One drain reports every publish of the window exactly once, as failed, and no other call; in ascending packet id, each with the values it was entered with; it empties the three maps, leaves the link disconnected and gives one close notification |
| Epoch.Qos0ReportedOnce | inc/litemqtt/client.hpp:610-623 | QoS 0, with the write handlers run by the connection: in every state of every epoch, begun after any run, a call of the epoch has been reported exactly once unless its frame is in flight, queued or waiting for its rejection, and then not at all; exactly once when the connection is closed and its rejections have run |
| Epoch.HandlersLink | inc/litemqtt/connection.hpp:318-358 | The handlers that the connection runs, in its order, report the QoS 0 calls they belong to, one report for each invocation |
| Epoch.EpochIsRead | inc/litemqtt/connection.hpp:261-346 | Client and connection together, PINGREQ and the like in between: of the octets of the writes begun a peer reads exactly the publishes of a prefix of the frames the client queued in the epoch, first transmissions in call order |
| Contract.SuccessMeansAcknowledged | README.md:320-324 | callback(true) is earned: the step of the run that adds the report is, at QoS 1 and 2, an acknowledgement for its packet id at a moment when the call holds that id in the window; at QoS 0 the successful write of its frame. No acknowledgement justifies a second report |
| Contract.StepIsEarned | inc/litemqtt/client.hpp:447-525 | The same for one step: it takes no report back, and adds success only for what it itself acknowledges |
| Contract.AcknowledgementAnswers | inc/litemqtt/client.hpp:447-462 | The octets of a PUBACK or PUBCOMP, parsed and dispatched, remove exactly the publish they name and report it as delivered; for an unknown id they report nothing |
| Contract.DocumentedAckIff | README.md:323-324 | PUBACK means QoS 1 and PUBCOMP means QoS 2 exactly as long as the broker does not send the wrong kind: the handlers do not look at the QoS |
| Contract.Qos2SucceedsOnPuback | inc/litemqtt/client.hpp:447-462 | A concrete run in which a PUBACK reports a QoS 2 publish as delivered |
| Contract.TakenIff | inc/litemqtt/client.hpp:586-652 | A call waits for an answer if and only if its QoS is valid, the session is connected and not closed, and at QoS 1 and 2 the window has room and an id is left; otherwise it is reported as failed at once, with packet id 0, and sends nothing; unless the ids ran out the session is undisturbed |
| Contract.ReportedIsNeverSentAgain | inc/litemqtt/client.hpp:742-850 | Once a call was reported, no later step, also of a later session, queues another PUBLISH for it; at QoS 1 and 2 it is not reported again either |
| Transmissions.RetransmissionBudget | inc/litemqtt/client.hpp:742-757 | A publish in the window has been queued exactly as often as its attempts say, 1 to 3 times; any call at most 3 times, once at QoS 0; always with the content of the call, one packet id (none at QoS 0), and DUP on all but the first |
| Transmissions.RetransmissionsAreByteIdentical | inc/litemqtt/client.hpp:827-850 | The octets of a retransmission differ from those of the first transmission in bit 3 of the first octet, and in nothing else |
| Transmissions.FirstTransmissionsInCallOrder | inc/litemqtt/client.hpp:586-652 | In every stretch of the queued frames the first transmissions come in the order of the calls |
| Transmissions.StepKeepsBudget | inc/litemqtt/client.hpp:742-850 | Every step keeps the transmission budget |
| Transmissions.StepIsQuiet | inc/litemqtt/client.hpp:447-525 | Only a publish call and a publish timer queue a PUBLISH or change the attempts of an entry |
| Pubrels.PubrelsAreBounded | inc/litemqtt/client.hpp:464-481 | A live PUBREL exchange has queued attempts + 1 PUBRELs, at most 4; PUBRELs for an id number at most 4 times the PUBRECs accepted for it, over every run |
| Pubrels.PubrelSentIff | inc/litemqtt/client.hpp:464-481 | Exactly an accepted PUBREC and an expiry with attempts left send a PUBREL, one each |
| Pubrels.FourthPubrelIff | inc/litemqtt/client.hpp:808-824 | A fourth PUBREL is sent if and only if the wait of an exchange that has repeated its PUBREL twice expires |
| Pubrels.StepKeepsPubrels | inc/litemqtt/client.hpp:776-825 | Every step keeps the PUBREL budget; a repeated PUBREC pays for the new budget it opens |
| Ownership.PacketIdOwnership | inc/litemqtt/client.hpp:720-740 | For any broker: no exchange has id 0, no subscribe shares an id with a publish or its PUBREL exchange, at most 1000 publishes are pending |
| Ownership.PublishNeverOverwrites | inc/litemqtt/client.hpp:625-651 | A publish enters the window under an id that no map holds, and leaves every live entry as it is |
| Ownership.SubscribeNeverOverwrites | inc/litemqtt/client.hpp:674-685 | The same for a subscribe |
| Ownership.ExhaustedWithAFreeId | inc/litemqtt/client.hpp:717-733 | A reachable run in which 65534 exchanges are outstanding, the id at the cursor is free, and the next subscribe closes the session for want of an id |
| Coverage.CoverageLostIff | inc/litemqtt/client.hpp:776-825 | A step leaves a publish without an outstanding wait exactly when the write of its PUBREL fails, or its PUBREL attempts run out on a session already marked closed, while its own wait is not outstanding |
| Coverage.NoStrandedPublish | inc/litemqtt/client.hpp:742-851 | In every state of every run without such a step, each publish of the window has a wait outstanding, its own or that of its PUBREL exchange |
| Coverage.StrandedWithoutAnyFailure | inc/litemqtt/client.hpp:364-386 | A reachable state without any failed write, read or connect in which a publish is in the window, unreported and without a wait: an unsolicited refusing CONNACK marks the session closed without a drain, and the last PUBREL expiry comes after it |
| Coverage.InertStaysInert | inc/litemqtt/client.hpp:893-933 | A drained session is inert: no packet, timer, completion or call but a new connect or an accepted CONNACK fills a map or closes it a second time; a publish is rejected at once |
| Coverage.FailureSettlesTheSession | README.md:328-331 | After any run that leaves the session open, one session failure and then anything but a reopening: every QoS 1 and 2 call made before has been reported exactly once, the maps are empty, the close notification went out once more |
| Endings.FailureSettlesIff | inc/litemqtt/client.hpp:893-933 | After any run a session failure reports every open call of QoS 1 and 2 if and only if the session is not marked closed already, or its window is empty |
| Endings.ClosesIff | inc/litemqtt/client.hpp:893-933 | Exactly which steps close an open session: the drains, which empty the three maps, and a refusing CONNACK or the connect timeout, which leave them as they are (the failed write handlers that close() runs then are steps of their own, and retire entries whose PUBLISH is being written) |
| Endings.WindowSurvivesIff | inc/litemqtt/client.hpp:374-384 | A window that is not empty survives the step that closes its session if and only if that step is a refusing CONNACK or the connect timeout; of its entries the failed write handlers that close() runs next, as steps of their own, retire those whose PUBLISH is queued or in flight |
| Endings.AnsweredIff | inc/litemqtt/client.hpp:447-525 | What answers a publish of the window, stranded or not: its callback runs, once, exactly in the steps that acknowledge it, fail its write, find it expired after the third attempt, or drain an open session; until then it stays |
| Endings.StrandedIsAnsweredByReopening | inc/litemqtt/client.hpp:893-933 | Whatever is left in the window is reported exactly once by a connect and the next session failure |
| Endings.ResentOnTheNextSession | inc/litemqtt/client.hpp:374-384 | A reachable run without any failed write, read or connect in which a publish of a refused session is sent again on the next one |
| Endings.NothingResentIff | inc/litemqtt/client.hpp:835-850 | At any point of any run, so also when a session has just come up: no later run sends a PUBLISH for a call already made if and only if no entry with a wait outstanding has an attempt left. Later runs are those in which a publish expiry finds its wait outstanding and no write completion arms an entry whose wait was cancelled |
| Endings.SpentIsNotResent | inc/litemqtt/client.hpp:844-847 | If no entry at all has an attempt left, no later run whatever, stale timers and late writes included, sends a PUBLISH for a call already made |
| Endings.StepPasses | inc/litemqtt/client.hpp:827-850 | Only the expiry of an entry with attempts left sends a PUBLISH for a call already made, no other step changes attempts, and only a successful PUBLISH write arms a wait again |
| Endings.PubrelPhaseIsNotResent | inc/litemqtt/client.hpp:468-481 | A reachable publish in its PUBREL phase, with attempts left, that nothing sends again |
| Endings.SpentWindowIsNotResent | inc/litemqtt/client.hpp:844-847 | A reachable session that has just come up with a window that is not empty and from which no run sends anything again: its only entry has no attempt left |
| Endings.ExpiryClosesIff | inc/litemqtt/client.hpp:835-850 | An expiry that finds its publish on an open session closes it if and only if it had three attempts, at QoS 1 as at QoS 2, and then reports every publish of the window; before, it sends one PUBLISH more and touches nothing else |
| Endings.ConnackOpensIff | inc/litemqtt/client.hpp:364-386 | A CONNACK opens the session if and only if its return code is 0 or missing; any other closes it |
| Endings.EmptyConnackOpens | inc/litemqtt/connection.hpp:230-237 | The two-octet CONNACK is delivered by the deframer and opens the session |
| Endings.FourPubrelsAreSent | inc/litemqtt/client.hpp:800-825 | A reachable run without any failure in which four PUBRELs are sent for one PUBREC |
| SilentBroker.SilentStep | inc/litemqtt/client.hpp:800-850 | With a silent broker and successful writes every expiry that finds its exchange takes at least one from the budget of the window |
| SilentBroker.SilentBrokerAnswersEverything | README.md:323-324 | From any open state of a run without a stranding step, in any run of expiries and successful writes: at most as many effective expiries as the budget of the window (3 per PUBLISH phase, 4 per PUBREL phase); while a publish is unanswered a wait is outstanding; once the budget is used up, or no wait is outstanding, every QoS 1 and 2 call has been reported exactly once |
| SilentBroker.TimersAnswerEverything | inc/litemqtt/client.hpp:800-850 | From any open state of a run without a stranding step there is a run of nothing but outstanding waits expiring, no longer than the budget, after which every QoS 1 and 2 call has been reported exactly once |
| SilentBroker.EveryOrderAnswers | inc/litemqtt/client.hpp:800-850 | From such a state, in whatever order the outstanding waits expire: no more expiries than the budget, and when none is left every QoS 1 and 2 call has been reported exactly once |
| SilentBroker.EachPublishIsBounded | README.md:323-324 | From any open state, in any run of expiries and successful writes: with n attempts behind it a publish takes at most 4 - n expiries of its own, and its PUBREL exchange at most 4 - n of its; with the last of either the whole window has been answered |
| Delivery.EveryFrameTellsItsCall | inc/litemqtt/client.hpp:742-757 | Every PUBLISH queued in any run carries topic, payload and QoS of its call, and a packet id exactly if the QoS is not 0 |
| Delivery.BrokerReadsTheCallsInOrder | inc/litemqtt/client.hpp:586-652 | From the octets of the writes begun on a connection a peer reads exactly the publishes of a prefix of the frames queued for it, of all if all were begun, whatever other packets go between: each says what its call said, first transmissions in call order |
| Effects.StepSends | inc/litemqtt/client.hpp:291-850 | Every step sends exactly what the octets and the state call for: CONNECT for a transport connect that finds the session open, the first PUBLISH or the SUBSCRIBE of a call that is taken, PUBLISH again below three attempts, PUBREL for a PUBREC and below three repetitions, PUBACK for QoS 1, PUBREC for QoS 2, PUBCOMP for PUBREL, and nothing else |
| Effects.FramesFollowTheEvents | inc/litemqtt/client.hpp:291-850 | Over every run, what the client has sent is what its events called for, in their order: acknowledgements in the order of the packets, each call with its own arguments |
| Effects.ConnectPerDial | inc/litemqtt/client.hpp:260-312 | Over every run the CONNECT frames number exactly the transport connects that succeeded and found the session not closed |
| Effects.StepConnects | inc/litemqtt/client.hpp:260-312 | The same for one step: one CONNECT for such a connect, none otherwise |
| Effects.StepHears | inc/litemqtt/client.hpp:859-933 | Every step runs exactly these callbacks in this order: success for the entry that a PUBACK (type 4) or PUBCOMP (type 7) names, failure for the entry whose write failed or that had three attempts and then for the rest of the window in id order, failure with id 0 for a rejected call, the outcome of its write at QoS 0; each with the packet id, topic and QoS of its entry |
| Effects.StepTurns | inc/litemqtt/client.hpp:236-386 | Every step says exactly this and leaves the link exactly there: on_close and disconnected for a drain, on_connect(true) and connected for a CONNACK of code 0, on_connect(false) for any other, for a failed transport connect, resolve or timeout of an attempt that is still wanted; handshaking once the transport is connected |
| Effects.NoPublishBeforeConnack | inc/litemqtt/client.hpp:586-608 | In every run without an accepting CONNACK no PUBLISH is sent at any QoS and the window stays empty |
| Effects.PubcompEndsTheExchange | inc/litemqtt/client.hpp:503-525 | After any run: once the octets of a PUBCOMP (112 2 a b) were handled, no later run that takes no new PUBREC for that id sends another PUBREL for it, and every expiry of its timer changes nothing, so closes no session |
| Effects.RecWaitIff | inc/litemqtt/client.hpp:776-825 | A PUBREL exchange ends exactly with the octets of its PUBCOMP, a failed PUBREL write or a drain, not with a PUBACK; its wait is outstanding exactly after its write, after a repetition, or as before, and not after the fourth expiry |
| Effects.RecStartsIff | inc/litemqtt/client.hpp:464-489 | An exchange begins under an id without one exactly if a PUBREC finds a publish there |
| Effects.StepAccepts | inc/litemqtt/client.hpp:464-489 | A PUBREC that finds a publish starts its exchange afresh, with no repetition counted and its wait outstanding, whatever was there; no other step takes one |
| Effects.PubWaitIff | inc/litemqtt/client.hpp:742-850 | The retry wait of a publish that stays is outstanding exactly after its write or its retry, or if it was before and no PUBREC came for it |
| Effects.StepSubs | inc/litemqtt/client.hpp:661-707 | The subscribe table after any event: an entry is gone exactly after its SUBACK, its failed write or a drain; a call that is taken adds its topic, QoS and callback under the first free id; all else is untouched |
| Effects.StepCursor | inc/litemqtt/client.hpp:625-740 | The cursor moves exactly for a publish of QoS 1 or 2 or a subscribe for which an id is left, to the first free one after it, also if the full window then rejects the publish; below 1000 entries the publish enters under that id, with one attempt and its wait outstanding, and its first PUBLISH carries that id |
| Effects.ReopensIff | inc/litemqtt/client.hpp:236-386 | Only a connect or a CONNACK of code 0 opens a session that is marked closed |
| Session.HandlerKeeps | inc/litemqtt/client.hpp:236-525 | No handler of the io thread makes a call, moves the id cursor or gives an id to a publish or subscribe; it hands an id on only from a publish to its PUBREL exchange, and a session that becomes closed is announced once |
| Session.StepIsSound | inc/litemqtt/client.hpp:586-740 | The id cursor is never 0, and a QoS 0 completion belongs to a call, after every step |
| Client.MqttClient.NotifyClosedOnce | inc/litemqtt/client.hpp:893-933 | In place: a no-op on a closed session, else the drain, in ascending id order, and one on_close |
| Client.MqttClient.FailPublishes | inc/litemqtt/client.hpp:904-913 | The drain loop: one failed report for each entry of the map, in ascending packet id |
| Client.MqttClient.FinishPublishFailure | inc/litemqtt/client.hpp:875-891 | Reports the entry as failed if it is still there, then closes the session |
| Client.MqttClient.RetirePublish | inc/litemqtt/client.hpp:859-873 | Takes one entry out and runs its callback with the values it held |
| Client.MqttClient.AcquirePacketId | inc/litemqtt/client.hpp:720-740 | The first free id after the cursor, or 0 and a closed session |
| Client.MqttClient.MoveCursor | inc/litemqtt/client.hpp:720-740 | The loop itself, wrap-around and skipped 0 included, finds the id that the search function names; without a free id the cursor is back where it was |
| Client.MqttClient.AsyncPublish | inc/litemqtt/client.hpp:586-652 | All rejections in order, the QoS 0 path and the window, as the step function has them |
| Client.MqttClient.EnterWindow | inc/litemqtt/client.hpp:625-651 | An exhausted id space closes the session and rejects; a full window rejects but keeps the moved cursor; else the entry is added and sent |
| Client.MqttClient.SendPublishEntry | inc/litemqtt/client.hpp:742-760 | Arms the wait and queues the frame, DUP from the second attempt on |
| Client.MqttClient.OnPublishWritten | inc/litemqtt/client.hpp:760-773 | A failed write fails the publish and closes the session; a successful one re-arms the wait |
| Client.MqttClient.OnQos0Written | inc/litemqtt/client.hpp:618-621 | Reports a QoS 0 publish when its write completes or fails |
| Client.MqttClient.OnPublishTimer | inc/litemqtt/client.hpp:835-850 | Ignored without an entry; at 3 attempts the publish fails and the session closes; else one more attempt |
| Client.MqttClient.SendPubrel | inc/litemqtt/client.hpp:776-783 | Arms the wait and queues a PUBREL |
| Client.MqttClient.HandlePubrec | inc/litemqtt/client.hpp:464-489 | For a publish in the window, also a repeated PUBREC: its wait is cancelled and the PUBREL exchange starts afresh; otherwise nothing |
| Client.MqttClient.OnPubrelWritten | inc/litemqtt/client.hpp:783-797 | A failed write drops the exchange without a report; a successful one re-arms the wait |
| Client.MqttClient.OnPubrecTimer | inc/litemqtt/client.hpp:808-824 | Ignored without an exchange; at 3 repetitions the session closes; else one more PUBREL |
| Client.MqttClient.HandlePubcomp | inc/litemqtt/client.hpp:503-525 | Ends the PUBREL exchange, and reports the publish if it is in the window; what that means over runs is Effects.PubcompEndsTheExchange |
| Client.MqttClient.HandlePuback | inc/litemqtt/client.hpp:447-462 | Reports the publish if it is in the window, whatever its QoS |
| Client.MqttClient.AsyncSubscribe | inc/litemqtt/client.hpp:661-707 | Rejections, id, entry and frame of a subscribe |
| Client.MqttClient.OnSubscribeWritten | inc/litemqtt/client.hpp:688-706 | A failed write removes the entry |
| Client.MqttClient.HandleSuback | inc/litemqtt/client.hpp:418-444 | Removes the entry; too few return codes close the session if a callback is installed |
| Client.MqttClient.HandlePublish | inc/litemqtt/client.hpp:388-416 | QoS 3 closes the session; QoS 1 is answered with PUBACK and QoS 2 with PUBREC |
| Client.MqttClient.HandleConnack | inc/litemqtt/client.hpp:364-386 | Return code 0 opens the session, any other closes it without a drain; both are reported |
| Client.MqttClient.HandlePacket | inc/litemqtt/client.hpp:326-362 | Parses and dispatches the octets of a packet; unknown types and empty packets do nothing |
| Client.MqttClient.HandleAck | inc/litemqtt/client.hpp:447-525 | The four acknowledgements, parsed from their octets |
| Client.MqttClient.AsyncConnect | inc/litemqtt/client.hpp:236-260 | A new attempt clears what the last failure left in closed_ |
| Client.MqttClient.OnTcpDone | inc/litemqtt/client.hpp:261-272 | The connection notes the outcome first; then a timed-out attempt stays quiet, a failure is reported, a success queues CONNECT; over runs Effects.ConnectPerDial counts them |
| Client.MqttClient.OnResolveFailed | inc/litemqtt/client.hpp:261-269 | A failed resolve is reported unless the attempt has timed out |
| Client.MqttClient.HandleConnectTimeout | inc/litemqtt/client.hpp:275-289 | Closes and reports the attempt once |
| Client.MqttClient.Handle | inc/litemqtt/client.hpp:236-935 | One turn of the io thread: whatever the event, the object does the step of the session |
| Client.Serve | inc/litemqtt/client.hpp:236-935 | The object over whole runs: after any sequence of events it is in the state the run leads to, and its callbacks have run as the contract says, a call of QoS 1 or 2 exactly once unless it is in the window |
| PacketIds.FirstFreeIsFirst | inc/litemqtt/client.hpp:720-740 | The id found is the first in cyclic order after the cursor, without 0, that is not in use; every id passed over is in use |
| PacketIds.ExhaustedIff | inc/litemqtt/client.hpp:727-733 | The search fails exactly when every nonzero id other than the cursor is in use |
| PacketIds.ExhaustionNeedsAlmostAll | inc/litemqtt/client.hpp:717-733 | Failure takes at least 65534 distinct outstanding ids (pigeonhole) |
| PacketIds.CursorIsNeverTried | inc/litemqtt/client.hpp:717-733 | 65534 are enough, not 65535 as the comment has it: the id at the cursor is never tried, so the search can fail while it is free |
| PacketIds.FoundIsFree | inc/litemqtt/client.hpp:734-738 | A found id is unused and not the cursor |
| WriteQueue.EveryHandlerRunsOnce | inc/litemqtt/connection.hpp:261-390 | In every state of an epoch, for each frame handed over, told apart by its place: its handler has run exactly once, or not at all and the frame is in flight, queued or waiting for its rejection, in one place only; once the connection is closed and its rejections have run, exactly once, also if a handler called close() |
| WriteQueue.WritesStartInOrder | inc/litemqtt/connection.hpp:272-346 | writing_ holds iff a frame is in flight; writes begin one at a time in the order of acceptance; a waiting frame has a write or a posted failure ahead of it |
| WriteQueue.ConservationNeedsNoDeferredTask | inc/litemqtt/connection.hpp:301-311 | An epoch loses no handler if and only if it begins without an outstanding deferred failure task |
| WriteQueue.PeerSeesTheFramesInOrder | inc/litemqtt/connection.hpp:313-346 | Deframing the octets of the writes begun gives those frames, a prefix of the accepted ones |
| WriteQueue.StepSettles | inc/litemqtt/connection.hpp:272-390 | Every event of an epoch keeps conservation and the structure of the queue |
| WriteQueue.Connection.Invoke | inc/litemqtt/connection.hpp:328-332 | Runs one handler, which may close the connection it is called from |
| WriteQueue.Connection.FailPendingWrites | inc/litemqtt/connection.hpp:348-358 | Takes the queue over first, then runs its handlers in order, re-entrant close included |
| WriteQueue.Connection.CloseConnection | inc/litemqtt/connection.hpp:364-390 | Idempotent; queued handlers fail first, the one in flight last |
| WriteQueue.Connection.StartWrite | inc/litemqtt/connection.hpp:293-317 | Starts the oldest frame, or posts a failure task on a socket that cannot make progress |
| WriteQueue.Connection.EnqueueWrite | inc/litemqtt/connection.hpp:272-291 | A closed connection posts the rejection; else the frame is queued and started if none is in flight |
| WriteQueue.Connection.OnWriteCompleted | inc/litemqtt/connection.hpp:318-345 | Quiet if close() took the frame over; else its handler runs with the outcome of the write, then the rest is failed or the next write begins |
| WriteQueue.Connection.OnDeferredTask | inc/litemqtt/connection.hpp:305-309 | The posted task fails whatever is queued when it runs |
| WriteQueue.Connection.OnRejectedTask | inc/litemqtt/connection.hpp:278-285 | Runs the handler of a rejected frame |
| WriteQueue.Connection.MarkConnected | inc/litemqtt/connection.hpp:360-362 | The link becomes connected; queue and handlers are untouched |
| WriteQueue.Connection.Handle | inc/litemqtt/connection.hpp:261-390 | Whatever the event, the object does the step of the epoch |
| Outcomes.SuccessIsACompletedWrite | inc/litemqtt/connection.hpp:318-345 | In every state of an epoch: a handler is told of success exactly if it is the first one run by a completion without an error that finds its frame in flight; every other handler that runs, by a failed completion, a close, a deferred task or a rejection, is told of a failure |
| Outcomes.StepRunsHandlers | inc/litemqtt/connection.hpp:261-390 | Exactly the handlers that an event runs, in their order: that of the frame in flight with the outcome of its write, then the queue if the write failed or the handler closes; on close() the queue first and the frame in flight last |
| Outcomes.StepLeaves | inc/litemqtt/connection.hpp:318-390 | The connection becomes closed exactly by close(), from outside or from a handler that runs; the socket is given up and the link down exactly with that or with a failed write |
| Outcomes.Qos0SuccessIff | inc/litemqtt/client.hpp:610-623 | After any run, in every state of every epoch of client and connection: a QoS 0 call of the epoch was reported as sent if and only if the write of its own frame completed without an error |
| WriteQueue.Serve | inc/litemqtt/connection.hpp:261-390 | The object over a whole epoch: no handler runs twice, and none is lost once it is closed and its rejections have run |
| Framing.DeframeInvertsConcatenation | inc/litemqtt/connection.hpp:147-259 | Deframing undoes concatenation for any list of well-formed packets, whatever follows them |
| Framing.DeframeConserves | inc/litemqtt/connection.hpp:147-259 | On any stream, the delivered packets and the undelivered rest are the stream, octet for octet, and each delivered packet is complete |
| Framing.DeliveredLengthIsExact | inc/litemqtt/connection.hpp:168-172 | The length field of a delivered packet announces exactly the octets behind it, when the parser reads it again |
| Framing.FrameReader.AsyncReadPacket | inc/litemqtt/connection.hpp:143-149 | Starts a chain; a call while one is under way is dropped |
| Framing.FrameReader.Complete | inc/litemqtt/connection.hpp:151-258 | A completed read goes on without posting or posts exactly once, resets the depth, and what it posts is what the octets read so far are |
| Framing.FrameReader.OnFixedHeader | inc/litemqtt/connection.hpp:151-174 | Rejects an invalid type after two octets, else starts on the length |
| Framing.FrameReader.OnLengthDigit | inc/litemqtt/connection.hpp:190-228 | One more digit at a time; a fifth one is rejected |
| Framing.FrameReader.ReadPacketBody | inc/litemqtt/connection.hpp:230-238 | A packet without a body is posted at once, any other waits for its body |
| Framing.FrameReader.Abort | inc/litemqtt/connection.hpp:155-159 | A failed read ends the chain with one error |
| Framing.FrameReader.ReadOne | inc/litemqtt/connection.hpp:147-259 | One chain against any stream delivers the packet at its front, or the reason why there is none |
| Framing.FrameReader.ReadLoop | inc/litemqtt/connection.hpp:143-259 | The read loop delivers exactly the packets of the stream in order and then one error; delivered, partial and unread octets are the stream |
| RemainingLength.GatheredTurn | inc/litemqtt/connection.hpp:190-228 | The step-by-step decoder of the connection, which sees one octet at a time, agrees with the field decoder for every continuation |
| RemainingLength.GatheredFull | inc/litemqtt/connection.hpp:207-216 | A fifth digit is rejected by both |
| RemainingLength.AccumulateTurn | inc/litemqtt/buffer_reader.hpp:69-84 | One turn of the accumulating decoder keeps the value below the multiplier and leads to the value of the field, non-minimal forms included |
| RemainingLength.AccumulatedStuck | inc/litemqtt/buffer_reader.hpp:69-84 | Without an end after the last octet or the fourth digit the field is truncated or too long |
| RemainingLength.AccumulatorFits | inc/litemqtt/buffer_reader.hpp:69-84 | Multiplier and terms stay below 2^32 |
| RemainingLength.DecodeEncode | inc/litemqtt/buffer_writer.hpp:74-87 | Decoding an encoded length, whatever follows, returns the length and its byte count, or reports it as too long exactly if it has more digits than the decoder takes |
| RemainingLength.EncodeIsShortest | inc/litemqtt/buffer_writer.hpp:74-87 | No accepted form of a value is shorter than the encoded one, and only that one is as short |
| RemainingLength.EncodedSize | inc/litemqtt/buffer_writer.hpp:74-87 | A length takes at most k digits if and only if it is below 128^k |
| RemainingLength.DecodedValueFits | inc/litemqtt/buffer_reader.hpp:69-84 | A decoded value is below 128 to the number of its digits, at most 268435455 |
| RemainingLength.DecodeFewerDigits | tools/reconnect_stress.cc:368-381 | A decoder with a smaller digit limit is determined by the one with the larger limit |
| Cutting.FrameIff | inc/litemqtt/connection.hpp:151-257 | In plain octets: the connection takes a packet of n octets from the front of a stream if and only if its first octet is 16 to 239, one to four length digits follow, the last one alone below 128, and their sum weighted by powers of 128 says how many octets come behind; it rejects exactly the types 0 and 15, and four digits followed by a fifth octet that all announced another |
| Cutting.CutIff | tools/reconnect_probe.cc:266-304 | The same for the two brokers: the probe takes four digits and up to 16777216 octets, more is nonsense; the stress test takes three digits, a fourth is nonsense, and hangs up on a first octet of 224 to 239 |
| Octets.DecodeIsPositional | inc/litemqtt/buffer_reader.hpp:69-84 | What a decoder reads is the sum of the digits weighted by powers of 128, up to the first digit below 128 |
| Octets.EncodeIsPositional | inc/litemqtt/buffer_writer.hpp:74-87 | What the encoder writes are digits that weigh the length, all but the last of 128 or more |
| Buffers.BufferWriter.WriteUint16 | inc/litemqtt/buffer_writer.hpp:46-50 | Appends two octets of which the first times 256 plus the second is the value |
| Buffers.BufferWriter.WriteString | inc/litemqtt/buffer_writer.hpp:60-66 | Appends the length cut to 16 bits and the uncut string |
| Buffers.BufferWriter.WriteRemainingLength | inc/litemqtt/buffer_writer.hpp:74-87 | The digit loop appends exactly the encoding of the length cut to 32 bits |
| Buffers.BufferReader.ReadUint8 | inc/litemqtt/buffer_reader.hpp:25-29 | Reads one octet or fails and leaves the cursor |
| Buffers.BufferReader.ReadUint16 | inc/litemqtt/buffer_reader.hpp:31-37 | Reads two octets or fails and leaves the cursor |
| Buffers.BufferReader.ReadString | inc/litemqtt/buffer_reader.hpp:49-60 | Fails on a length beyond the buffer with the two length octets consumed; otherwise value and rest are those of the field |
| Buffers.BufferReader.ReadBytes | inc/litemqtt/buffer_reader.hpp:62-67 | Reads exactly the octets asked for, or none |
| Buffers.BufferReader.ReadRemainingLength | inc/litemqtt/buffer_reader.hpp:69-84 | On every octet string: value and cursor are those of the field; a surplus digit is consumed and rejected; no 32-bit overflow |
| Buffers.TakeStringBack | inc/litemqtt/buffer_reader.hpp:49-60 | A written string of at most 65535 octets is read back with the rest untouched |
| Buffers.AfterLengthBack | inc/litemqtt/buffer_reader.hpp:69-84 | The reader finds the body behind any length the writer emits, also behind a rejected five-digit one |
| Octets.FieldOctets | inc/litemqtt/buffer_writer.hpp:60-66 | A string field of any length: first octet times 256 plus second is the length cut to 16 bits, then the whole string |
| Octets.PublishOctets | inc/litemqtt/packets.hpp:138-161 | The octets of PUBLISH in plain numbers: 48 plus twice the QoS plus 8 for DUP, a length field that weighs the body, topic length high octet first, topic, packet id high octet first at QoS 1 and 2, payload |
| Octets.ConnectOctets | inc/litemqtt/packets.hpp:24-59 | The octets of CONNECT: 16, length, 0 4 M Q T T 4, flags of 2, 64 and 128, keepalive high octet first, client id, then the user name and password that are not empty |
| Octets.SubscribeOctets | inc/litemqtt/packets.hpp:197-214 | The octets of SUBSCRIBE with one topic filter: 130, length, packet id and topic length high octet first, topic, QoS |
| Octets.SubackOctets | inc/litemqtt/packets.hpp:221-236 | The octets of SUBACK: 144, length, packet id high octet first, return codes |
| Octets.AckOctets | inc/litemqtt/packets.hpp:286-293 | The four octets of an acknowledgement: its head, 2, the packet id high octet first |
| Octets.PublishRead | inc/litemqtt/packets.hpp:163-190 | Behind any length field of up to four digits, a PUBLISH is read from the bits of its first octet, topic length, topic, and, at QoS 1 to 3 only, the packet id, high octet first |
| Octets.AckBodyRead | inc/litemqtt/packets.hpp:295-304 | Behind any length field of up to four digits, the packet id read from an acknowledgement is 256 times the first octet plus the second |
| Octets.ShortAckRead | inc/litemqtt/packets.hpp:295-304 | An acknowledgement that is too short has packet id 0, also with one octet of it there |
| Octets.SubackRead | inc/litemqtt/packets.hpp:238-257 | The packet id of a SUBACK, high octet first, and its return codes |
| Octets.ConnackRead | inc/litemqtt/packets.hpp:114-128 | The two octets of a CONNACK are session-present and return code, in this order |
| Packets.PublishRoundTrip | inc/litemqtt/packets.hpp:131-191 | parse(serialize(p)) == p if and only if the QoS fits two bits, a QoS 0 packet has id 0, and the topic has at most 65535 octets; the payload does not matter |
| Packets.DupIsOneBit | inc/litemqtt/packets.hpp:138-161 | Setting DUP changes bit 3 of the first octet and nothing else |
| Packets.ConnectRoundTrip | inc/litemqtt/packets.hpp:24-95 | CONNECT survives the round trip if and only if its three strings have at most 65535 octets, for every combination of empty and non-empty credentials |
| Packets.SubackRoundTrip | inc/litemqtt/packets.hpp:221-257 | SUBACK survives the round trip with any list of return codes |
| Packets.ConnackRoundTrip | inc/litemqtt/packets.hpp:98-128 | CONNACK survives the round trip if and only if session-present is a bit |
| Packets.AckRoundTrip | inc/litemqtt/packets.hpp:286-304 | The packet id of PUBACK, PUBREC, PUBREL and PUBCOMP is read back, whatever the first octet |
| Packets.SerializePublish | inc/litemqtt/packets.hpp:138-161 | The writer calls produce the octets of the packet |
| Packets.ParsePublish | inc/litemqtt/packets.hpp:163-190 | The cursor calls yield the fields of any byte string, well formed or not |
| Packets.SerializeConnect | inc/litemqtt/packets.hpp:24-59 | The same for CONNECT |
| Packets.ParseConnect | inc/litemqtt/packets.hpp:61-95 | The same for CONNECT, on any byte string |
| Packets.SerializeSuback | inc/litemqtt/packets.hpp:221-236 | The loop over the return codes appends exactly them |
| Packets.ParseSuback | inc/litemqtt/packets.hpp:238-257 | The packet id and then every octet left, on any byte string |
| Packets.ReadCodes | inc/litemqtt/packets.hpp:250-254 | The loop until the reader is empty returns exactly the unread octets |
| Packets.SerializeAck | inc/litemqtt/packets.hpp:286-293 | The four octets of an acknowledgement |
| Packets.ParseAck | inc/litemqtt/packets.hpp:295-304 | The packet id of an acknowledgement; 0 if the packet is too short |
| Packets.ParseConnack | inc/litemqtt/packets.hpp:114-128 | The two octets after the header, each 0 if it is missing |
| Packets.ConnackCodeIff | inc/litemqtt/packets.hpp:114-128 | The return code is taken for 0 if and only if it is 0 or missing |
| EndToEnd.EndToEndIdentity | inc/litemqtt/packets.hpp:131-191 | Serialize, concatenate, deframe, parse: the same list of publishes, if and only if each has QoS below 4, id 0 at QoS 0, a topic of at most 65535 octets and a body of at most 268435455 |
| EndToEnd.FirstComesThrough | inc/litemqtt/connection.hpp:218-257 | The first publish of a stream is delivered and parsed back exactly if it meets those conditions |
| EndToEnd.OverlongIsRejected | inc/litemqtt/connection.hpp:207-216 | A publish whose length needs a fifth digit ends the reading of the stream |
| BrokerFraming.ChunkIndependenceIff | tools/reconnect_probe.cc:243-304 | For both brokers: every way to cut a stream into chunks gives the packets, errors and leftover of one pass over the whole, if and only if no proper prefix of the stream parses into nonsense |
| BrokerFraming.ParseInTwo | tools/reconnect_stress.cc:360-391 | What the first part of a buffer settles, packets, nonsense or hangup, stays settled when more arrives |
| BrokerFraming.CutBehindNonsense | tools/reconnect_probe.cc:284-288 | Where the condition fails, the cut right behind the nonsense gives another session than the whole |
| BrokerFraming.BrokersAgree | tools/reconnect_stress.cc:360-391 | On a buffer in which the chaos broker meets no nonsense and no DISCONNECT, the two brokers take the same packets and keep the same rest |
| BrokerFraming.BrokerHandlesTheFrames | tools/reconnect_probe.cc:266-304 | A stream of packets that a broker takes (up to 16 MiB; at most 3 length digits and no DISCONNECT), in any chunks and with an unfinished end, yields exactly those packets, the very ones that the deframer of the connection delivers |
| BrokerFraming.ProbeWaitsForEver | tools/reconnect_probe.cc:274-283 | After four length digits without an end the probe takes no packet any more, whatever arrives |
| BrokerFraming.FramingBroker.ParseBuffer | tools/reconnect_probe.cc:266-304 | The scan with a cursor and one erasure leaves packets, buffer and error count of the recursive parser |
| BrokerFraming.FramingBroker.TakePackets | tools/reconnect_probe.cc:267-302 | The scan loop hands over the complete packets in order and says where and why it stopped |
| BrokerFraming.FramingBroker.Inspect | tools/reconnect_probe.cc:268-290 | Whether a packet starts at the cursor, is unfinished, or is nonsense |
| BrokerFraming.FramingBroker.ReadLength | tools/reconnect_probe.cc:270-282 | The shift loop decodes the length field of at most four digits |
| BrokerFraming.ChaosBroker.Process | tools/reconnect_stress.cc:360-391 | Erasing packet by packet leaves packets, buffer, error count and session state of the recursive parser |
| BrokerFraming.ChaosBroker.Inspect | tools/reconnect_stress.cc:362-383 | Whether a packet starts the buffer, is unfinished, or is nonsense |
| BrokerFraming.ChaosBroker.ReadLength | tools/reconnect_stress.cc:364-381 | The multiplier loop decodes the length field; a fourth digit is nonsense |
| Reconnect.BackoffIsCappedDoubling | inc/litemqtt/mqtt_helper.hpp:593-603 | For every attempt and every 32-bit base the capped shift is min(base * 2^n, 30000), never decreases in n, and its product fits in 64 bits; in unlimited mode the delay is the base |
| Reconnect.ActKeepsConsistent | inc/litemqtt/mqtt_helper.hpp:570-642 | After every step the pending flag implies an outstanding wait, the counter is the number of waits armed since its reset (up to 1000000), and the limit is not exceeded |
| Reconnect.WaitsAreLimited | inc/litemqtt/mqtt_helper.hpp:570-612 | After any run the attempt counter is the number of waits announced since the last success or re-arm, counted on the list of what happened (up to 1000000); a limit up to 1000000 is never exceeded |
| Reconnect.SuccessRestoresTheAttempts | inc/litemqtt/mqtt_helper.hpp:523-612 | With a limit m of 0 to 1000000, in every state between two attempts that any run leads to: after a successful connect, and after a re-arm, m failures in a row are each answered by a wait, the k-th after k others of min(base * 2^k, 30000), and by a connect, and the next failure gives up |
| Reconnect.NoConnectAfterStop | inc/litemqtt/mqtt_helper.hpp:287-293 | stop() cancels the wait, and no action whatever after it, a re-arm included, starts a connect |
| Reconnect.RearmBringsBack | inc/litemqtt/mqtt_helper.hpp:370-410 | A re-arm of a helper that gave up connects once, with every attempt restored and no wait left |
| Reconnect.ActMoves | inc/litemqtt/mqtt_helper.hpp:370-642 | Field by field, which actions change each flag and each counter of what is outstanding, in every state |
| Reconnect.GivesUpIffLimitIsReachable | inc/litemqtt/mqtt_helper.hpp:584-612 | The helper can give up if and only if the configured limit is not -1 and at most 1000000: above that the saturating counter never reaches it |
| Reconnect.NoConnectAfterGivingUp | inc/litemqtt/mqtt_helper.hpp:370-410 | After giving up, no step starts a connect until it is re-armed |
| Reconnect.SyncLostIff | inc/litemqtt/mqtt_helper.hpp:570-642 | One step: the flag holds iff the one wait is outstanding, and every step keeps that, if and only if it is not a re-arm task that overtakes a wait |
| Reconnect.FlagIsTheWaitIffNoRace | inc/litemqtt/mqtt_helper.hpp:570-642 | Whole runs from start() to stop(): the flag says in every state whether the one wait is outstanding, if and only if no re-arm task of the run overtakes a wait |
| Reconnect.ReportsCostOneAttempt | inc/litemqtt/mqtt_helper.hpp:575-610 | Any number of reports of a failure, in any mixture and on either side of the expiry, arm one wait, cost one attempt and lead to one connect; then the helper is where it was, one attempt on |
| Reconnect.ReconnectHelper.constructor | inc/litemqtt/mqtt_helper.hpp:258-285 | start() with a normalised configuration: every flag and counter reset, the first connect begun |
| Reconnect.ReconnectHelper.Reconnect | inc/litemqtt/mqtt_helper.hpp:570-629 | In place: ignored, absorbed, given up, or one wait armed with the delay of the formula |
| Reconnect.ReconnectHelper.OnClosed | inc/litemqtt/mqtt_helper.hpp:511-521 | A close is a failure report while retrying |
| Reconnect.ReconnectHelper.OnConnected | inc/litemqtt/mqtt_helper.hpp:523-545 | A failed connect is a failure report; a successful one resets the counter |
| Reconnect.ReconnectHelper.OnWaitCompleted | inc/litemqtt/mqtt_helper.hpp:629-641 | The flag is cleared also for a cancelled wait; only an expired one connects |
| Reconnect.ReconnectHelper.ClaimRearm | inc/litemqtt/mqtt_helper.hpp:370-385 | Refused when stopped, idempotent when armed, else the flag is claimed |
| Reconnect.ReconnectHelper.PostRearm | inc/litemqtt/mqtt_helper.hpp:387-396 | The counter is reset and the task posted |
| Reconnect.ReconnectHelper.OnRearmTask | inc/litemqtt/mqtt_helper.hpp:396-408 | Cancels the wait, clears the flag and connects, unless stop() won |
| Reconnect.ReconnectHelper.StopReconnecting | inc/litemqtt/mqtt_helper.hpp:287-293 | Flags cleared, wait cancelled |
| Reconnect.ReconnectHelper.Perform | inc/litemqtt/mqtt_helper.hpp:370-642 | Whatever the action, the object does the step of the policy |
| Reconnect.Serve | inc/litemqtt/mqtt_helper.hpp:258-642 | The object over whole runs: the wait limit holds, and the flag is never set without a wait |
| Supervision.NeverSilentlyDead | inc/litemqtt/mqtt_helper.hpp:511-554 | Client and helper together, after every run: while the helper says it will reconnect, a wait is outstanding, a re-arm is under way, or a connect attempt or session is whose end it will hear of |
| Supervision.RearmRace | inc/litemqtt/mqtt_helper.hpp:396-408 | A reachable run of client and helper in which a slow resolve makes a re-arm overtake a wait, and the handler of the cancelled wait clears the flag of the wait after it |
| Supervision.RetryIsAlwaysUnderWay | inc/litemqtt/mqtt_helper.hpp:570-642 | ... and at most four failing completions of what is outstanding bring the next connect or the give-up |
| Supervision.HappeningKeepsHealthy | inc/litemqtt/client.hpp:236-324 | Every step of client, connection and helper keeps that; the CONNECT writes under way are the CONNECT frames that the client queued minus those whose write completed |
| Supervision.EveryTopicIsRestored | inc/litemqtt/mqtt_helper.hpp:547-553 | On a successful connect every subscription is asked for again, in order, with its topic and QoS, unless the ids run out, which closes the session |
| Supervision.HearingLeavesAWait | inc/litemqtt/mqtt_helper.hpp:570-612 | A failure that the helper hears of leaves a wait outstanding or ends the retrying; nothing it hears starts the retrying again |
| Supervision.StepSays | inc/litemqtt/client.hpp:893-935 | Whatever the event, a session that becomes closed tells the helper, in the same step and once; and no success is announced by a closed session |

## Left out

- Accounting.PublishAccounting: subscribe callbacks are not counted; one runs on the successful write and again on SUBACK or close, and the code promises no number.
- Contract.SuccessMeansAcknowledged: the acknowledgement comes while the call holds the packet id; that the broker sent it for this very transmission cannot be seen, and an id can be used again.
- WriteQueue.EveryHandlerRunsOnce: holds within one epoch, from a connected socket with an empty queue and no deferred failure task up to the next connect; WriteQueue.ConservationNeedsNoDeferredTask says that this cannot be dropped.
- Delivery.BrokerReadsTheCallsInOrder: is about one such epoch; of CONNECT and the packets that are not modelled it knows the type only.
- Epoch.Qos0ReportedOnce: only the QoS 0 handlers are tied to the connection; the events of the other handlers stay free, which allows every order the code has, and more.
- Endings.NothingResentIff: leaves out the later runs in which a PUBLISH that was being written when its PUBREC came arms its entry again, or in which a cancelled wait completes; Endings.SpentIsNotResent covers those runs, with a stronger condition.
- SilentBroker.SilentBrokerAnswersEverything: from an open session and a run without a stranding step; Coverage.CoverageLostIff says what a stranding step is, and Endings.FailureSettlesIff what a closed session misses.
- Supervision.NeverSilentlyDead: takes for granted that what is outstanding completes some time: a transport connect, the write of CONNECT, a read, a wait, a posted task. For the write that is the epoch condition of WriteQueue.
- Client.MqttClient.NotifyClosedOnce: the link is always disconnected afterwards; the connection ignores a second close() and keeps its state then, which no step can see before the next connect or CONNACK sets it.
- Framing.FrameReader.OnLengthDigit: the four-octet array for the length digits is a scalar accumulator here, so the fifth digit that is read before it is rejected has no place to be written to.
- asio: the io thread runs one handler at a time, posted tasks in order, exact-length reads that succeed or fail, writes that complete or fail, timers whose completions may come late. User callbacks are taken to post work only, not to re-enter close() or async_connect(). Posting a frame to the queue and queueing it are one step.
- Threads, locks, shared_ptr lifetimes and leaks, io_.stop() and join(): of start(), stop() and rearm_reconnect() only the effects on flags, counters, timer and posted task are modelled. rearm_reconnect() is two steps, since it runs on the caller's thread; other calls from user threads are posted and so are steps.
- The clock: how long timers run, keepalive and the ping exchange. A missed ping or a failed ping write is a SessionFailure step.
- Callbacks that are not installed are callbacks that do nothing, except where the code looks at one (a short SUBACK).
- Inbound messages: what on_message is told, and QoS 2 de-duplication, of which the code does none. The acknowledgements it sends are modelled.
- Outcomes.StepRunsHandlers: assumes the structure that every state of an epoch has (WriteQueue.StepSettles); Outcomes.Qos0SuccessIff needs no such assumption.
- Octets.SubscribeOctets: one topic filter, which is all that the client ever sends; the loop over several is not modelled.
- UNSUBSCRIBE, UNSUBACK, PINGREQ, PINGRESP and DISCONNECT packets, 32-bit fields, skip(), the second reader class and the writer over a foreign buffer: easy or unused members.
- The brokers' own replies and their counters for publishes, acknowledgements and short publishes; only their framing is modelled. Bit operations are written as arithmetic.
- Session steps inside conn_->close(): the failing write handlers that close() runs are separate steps, before or after the drain, and the drain reports in id order as the map does.
