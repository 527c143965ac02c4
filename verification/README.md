# Viscous transport: a formal model

Viscous carries many byte streams over several UDP paths at once. This project models its
protocol stack and proves what the stack promises its users.

- **Channels** (`SeqNum`, `SenderModel`, `SenderLaws`, `ReceiverModel`, `ChannelSystem`,
  `ChannelProofs`, `ChannelTheorems`, `SenderEffects`, `SenderRuns`, `Marks`, `AckBatch`,
  `RoundTrips`, `StaleAck`, `Unanswered`, `WrongMark`). One path is a sender with a
  65536-slot buffer, selective acks and NewReno recovery, a receiver with a 65536-bit map, and a
  network that loses, repeats and reorders. Each packet and ack carries its true unbounded number;
  the wire value is that number modulo 65536.
- **The channel objects** (`SendBuffer`, `SenderRounds`, `ChannelSender`, `BitField`,
  `ChannelReceiver`). Classes with the 16-bit fields, arrays, loops and the ordered timer index of
  the source; each method is proved to do what the functions on true numbers say.
- **Flows** (`FlowModel`, `FlowHandler`, `Multiplexer`). Reordering, duplicate removal and credits
  of one flow; read reports over any number of flows.
- **Scheduler** (`Scheduler`). Four queues, the semaphore that counts them and the scheduling
  thread, in steps fine enough for every interleaving with producers and dying channels.
- **The whole system** (`ChannelEnds`, `World`, `WorldProofs`, `WorldData`, `WorldTheorems`,
  `WorldCounts`, `Delivery`). Flows, scheduler and any number of channels in one step system, with
  channel death and migration.
- **Wire format and utilities** (`PacketCodec`, `PacketLayout`, `PacketAccept`, `AppLLQueue`,
  `CircularBuffer`, `LinuxMath`, `RttBound`, `Checksum`).

What the network owes is written in `ChannelSystem.Enabled` and `World.CanStep`: data is delivered
while expectedSeq is at most 2^15 past it; an ack arrives less than 2^15 behind lastAcked, not
before the time stamp it echoes, and is drained less than 2^15 behind the largest queued number; a
packet that comes up is at most 16383 behind what its flow has read; a read report is fewer than
65036 behind the newest. The queue of received data packets (`dataRecvQueue`) is part of the
reordering network. Clocks are parameters: a reading for each slot, positive, and in a timeout sweep
not before the time of the sweep.

Where the code departs from what it is meant to do, the model follows the code:

- The scan for the largest ack of a batch has no half-window test. One ack older than lastAcked
  makes the batch pass over the newer ones, and the mark of the answered packet keeps timeouts from
  sending it again. Only an ack that answers a packet sent again, between the newest old ack and
  lastAcked, still gets through. `AckBatch.BatchExact` says exactly when the batch falls short, and
  `AckBatch.HeadHiddenExactly` exactly when the packet a drain leaves at the head is hidden so:
  `StaleAck.StaleAckRun` is a run that hides the head it had, `StaleAck.UncoveredRun` one that moves
  on to a head hidden by the same batch.
- recv() marks the slot of `origAckNo` whatever packet it holds by then. The mark lands on the packet
  the ack answers exactly when no unmarked packet in flight shares its field (`Marks.MarkLands`);
  with at most 16384 packets in flight that always holds (`Marks.SuppressedIsReceived`), and with
  16385 a run marks a packet that was never received (`WrongMark.WrongMarkRun`).
- The retransmit branch of MULTI_RECOVERY tests for an empty slot right after a loop that stops at
  a full one; it is never taken (`ChannelSender.NewChannelHandler.SkipFreed`).
- A packet sent again 16384 or more below expectedSeq gets no answer, and with all acks of a flight
  lost a run comes to that (`ChannelTheorems.RetransmissionAnswered`,
  `Unanswered.RetransmissionIgnored`).
- A single ack exactly 32768 old passes for new (`AckBatch.SingleAckTest`).
- The scheduler ignores the result of `sendPacket`: a packet handed to a channel that died after it
  was chosen is lost (`WorldTheorems.LostExactlyOnDeath`, `WorldTheorems.LostPacketRun`).
- The count `sendData` returns adds 2048 for each 1300-byte packet (`FlowHandlers.CountOverstates`).
- `encodeHeader` asks for sizeof(PacketHeader), 32 bytes with alignment, although the header takes
  28 on the wire; with 16 optional headers the 4-bit count wraps (`PacketCodec.RoundTrip`).
- The assertion rto < 15 s can fail for samples of 64/15 s, about 4.267 s, and more: one such sample
  and two very short ones (`RttBound.Exact`).
- `(flag|FLAG_CSN) == 0` in `sendPacket` is never true, so its branch is not in the model.
- The move to the front in `CircularBuffer` uses memcpy on stretches that may overlap; the model
  moves bytes as memmove does.

## Model

| member | source | states |
|---|---|---|
| `WorldTheorems.EndToEnd` | src/TunnelLib/FlowHandler/NewFlowHandler.cc:61-186 | In every run of the whole system (lossy, repeating, reordering channels, any scheduling, channels dying and packets moving) what readData returned is a prefix of what the application wrote to the flow, by pieces and by bytes, one piece for each read; the end of the flow comes only after all of it and only if the application closed the flow; readData and the scheduling thread always find the packet the source asserts |
| `WorldData.SentStep` | src/TunnelLib/FlowHandler/NewFlowHandler.cc:157-186 | A step sends, as the last packet of its flow, exactly the data and the end mark the application gives in it, and no other step sends anything |
| `Deliveries.EverythingCanArrive` | src/TunnelLib/FlowHandler/NewFlowHandler.cc:61-186 | Whatever pieces of data are written to a flow before it is closed, a run of the whole system exists in which all of them are read, in order, and then the end |
| `WorldTheorems.NothingVanishes` | src/TunnelLib/ChannelScheduler/NewChannelScheculer.cc:278-326 | In every run each packet a flow has sent is with the scheduler, in the buffer of a live channel, taken by the receiving end, or was refused at a handoff |
| `WorldCounts.ExactlyOnePlace` | src/TunnelLib/ChannelScheduler/NewChannelScheculer.cc:278-326 | In every run each sent packet is in at most one place of the sending side (queue, hand, one live channel, lost), and in none only once the receiving end has taken it |
| `WorldTheorems.QuietMeansArrived` | src/TunnelLib/FlowHandler/NewFlowHandler.cc:90-104 | Scheduler empty, live channels idle and nothing of the flow lost: everything the flow has sent is there to be read |
| `WorldTheorems.LostExactlyOnDeath` | src/TunnelLib/ChannelScheduler/NewChannelScheculer.cc:302-326 | The handoff, whose result is ignored, drops a packet exactly when the channel has died since it was chosen; it is never dropped because the channel is full |
| `WorldTheorems.LostPacketRun` | src/TunnelLib/ChannelScheduler/NewChannelScheculer.cc:302-326 | A reachable run that loses the only packet of a flow: channel chosen, channel dies, packet handed over |
| `WorldProofs.WorldStepKeeps` | src/TunnelLib/ChannelScheduler/NewChannelScheculer.cc:339-398 | Every step of applications, scheduler, network and channels keeps the invariant of the whole system |
| `WorldProofs.TakeStep` | src/TunnelLib/ChannelScheduler/NewChannelScheculer.cc:302-322 | At any interleaving with producers and dying channels the scheduling thread finds a packet to take |
| `WorldProofs.DeathStep` | src/TunnelLib/ChannelScheduler/NewChannelScheculer.cc:278-300 | When a channel dies each packet it was given has been received or is queued again |
| `WorldProofs.UpTakes` | src/TunnelLib/FlowHandler/NewFlowHandler.cc:61-111 | An accepted packet goes to the flow it names and to no other |
| `WorldCounts.DeathCounts` | src/TunnelLib/ChannelHandler/NewChannelHandler.cc:107-131 | Migration creates no second copy of a packet |
| `WorldCounts.HandOverCounts` | src/TunnelLib/ChannelScheduler/NewChannelScheculer.cc:302-326 | A handoff moves the packet into one channel or loses it, and copies nothing |
| `ChannelTheorems.ExactlyOnce` | src/TunnelLib/ChannelHandler/NewChannelHandler.cc:222-266 | In every run, over any number of wraps of the 16-bit numbers, each packet is accepted at most once; expectedSeq is the first number not accepted; the bit map holds exactly what is accepted beyond it |
| `ChannelTheorems.WireCarriesSubmission` | src/TunnelLib/ChannelHandler/NewChannelHandler.cc:626-640 | Every transmission under a number, first or repeated, carries the packet submitted under that number |
| `ChannelTheorems.NothingStalls` | src/TunnelLib/ChannelHandler/NewChannelHandler.cc:58-94 | In every run, if anything is buffered and not cumulatively acked, the lowest such packet is held, sent, and has a running timer |
| `ChannelTheorems.AcksSpareHead` | src/TunnelLib/ChannelHandler/SackNewRenoChannelHandler.cc:47-190 | No ack ever sent, handled while it is less than 2^15 behind lastAcked, can take the head of the flight out of the buffer: after it the lowest packet in flight is held, sent, and has a running timer |
| `ChannelTheorems.HeadFreedOnlyWhenIdle` | src/TunnelLib/ChannelHandler/NewChannelHandler.cc:626-632 | The slot above lastAcked is empty exactly when nothing is in flight or buffered, so the -42 of sendSeq is never returned for it |
| `ChannelTheorems.HalfWindow` | src/TunnelLib/ChannelHandler/BasicChannelHandler.hh:197-203 | At most 32768 numbers are outstanding, the slot a new packet takes is empty, and what the receiver has not got it will take as new |
| `ChannelTheorems.RetransmissionAnswered` | src/TunnelLib/ChannelHandler/NewChannelHandler.cc:246-264 | A packet in flight that arrives, first or again, is answered exactly when it lies fewer than 16384 below expectedSeq, always with at most 16383 in flight; the ack covers it when it is not above expectedSeq, and above a gap names the number before the gap and answers the packet |
| `Unanswered.RetransmissionIgnored` | src/TunnelLib/ChannelHandler/NewChannelHandler.cc:261-264 | A reachable run in which a timeout sends the head again and the copy, 16384 below expectedSeq, is neither accepted nor answered and changes nothing |
| `ChannelTheorems.RecoveryInRange` | src/TunnelLib/ChannelHandler/SackNewRenoChannelHandler.cc:107-186 | In every run 1 <= cwnd <= 32768, 2 <= ssthresh <= 16384, and in recovery 0 < recover = recoverIndex - lastAcked <= flight (sections 3.1 and 3.2 of RFC 2581, section 3 of RFC 2582) |
| `ChannelTheorems.SentWithinWindow` | src/TunnelLib/ChannelHandler/NewChannelHandler.cc:139-152 | sendNext opens no more flight than the window allows |
| `ChannelTheorems.AckSendsWithinWindow` | src/TunnelLib/ChannelHandler/BasicChannelHandler.hh:175-180 | An ack lets new packets out only up to the smaller of the advertised window and the rounded cwnd |
| `ChannelProofs.StepKeeps` | src/TunnelLib/ChannelHandler/NewChannelHandler.cc:154-187 | The joint invariant of sender, network and receiver is kept by every step |
| `ChannelProofs.NewAckCross` | src/TunnelLib/ChannelHandler/NewChannelHandler.cc:534-548 | For any two acks (a1,o1), (a2,o2) ever sent, o2 = a1 + 1 implies a2 >= o2 |
| `ChannelProofs.AckIsUsable` | src/TunnelLib/ChannelHandler/NewChannelHandler.cc:314-349 | An ack of the joint invariant meets everything ackRecv relies on |
| `ChannelProofs.DeliveredInWindow` | src/TunnelLib/ChannelHandler/NewChannelHandler.cc:246-247 | A delivered packet lies within half the number space of expectedSeq on either side |
| `ChannelProofs.ProcessKeeps` | src/TunnelLib/ChannelHandler/NewChannelHandler.cc:284-300 | Draining a batch keeps the invariant of the sending side, acks handed on or passed over; lastAcked never falls and never passes the largest queued number |
| `ChannelEnds.HeldOrReceived` | src/TunnelLib/ChannelHandler/NewChannelHandler.cc:345-380 | A live channel frees a slot only when the receiver has the packet |
| `ChannelEnds.InternalOutside` | src/TunnelLib/ChannelHandler/NewChannelHandler.cc:222-266 | Seen from outside, a step of a channel passes up at most the delivered packet, and exactly when it is new |
| `ChannelEnds.UndeliveredExact` | src/TunnelLib/ChannelHandler/NewChannelHandler.cc:107-131 | getUndeliveredPackets moves the packet of each full slot exactly once, in order, start markers excepted |
| `SenderEffects.ThirdDuplicate` | src/TunnelLib/ChannelHandler/NewChannelHandler.cc:432-462 | The third duplicate ack puts the head on the wire again, and nothing else, and restarts its timer; outside recovery the threshold becomes half the flight, at least 2, the window three more, and recovery covers the flight (section 3.2 of RFC 2581) |
| `SenderEffects.OtherDuplicate` | src/TunnelLib/ChannelHandler/NewChannelHandler.cc:418-462 | Any other duplicate opens the window by one in recovery, and lets out one new packet if the window has room |
| `SenderEffects.FullAckEffect` | src/TunnelLib/ChannelHandler/NewChannelHandler.cc:381-391 | A full ack grows the window by one up to the threshold, by its inverse above, ends recovery, and lets out as many new packets as the window, the buffer and twice the acked count allow (section 3.1 of RFC 2581) |
| `SenderEffects.FirstPartialEffect` | src/TunnelLib/ChannelHandler/NewChannelHandler.cc:393-410 | The first partial ack puts the packet above it on the wire again, restarts the timers of the rest of recovery and keeps the window (section 3 of RFC 2582) |
| `SenderEffects.NextPartialEffect` | src/TunnelLib/ChannelHandler/NewChannelHandler.cc:393-416 | A later partial ack lets out at most one new packet, shrinks the window by what was acked less one and restarts the timers |
| `SenderEffects.OldAckEffect` | src/TunnelLib/ChannelHandler/NewChannelHandler.cc:325-341 | An ack older than lastAcked, or for nothing in flight, changes nothing but the advertised window |
| `SenderEffects.SubmitEffect` | src/TunnelLib/ChannelHandler/NewChannelHandler.cc:58-94 | A packet is refused exactly when 32768 are buffered; otherwise it is buffered under the next number and the first unsent packet goes out exactly when the window has room |
| `SenderEffects.TimeoutEffect` | src/TunnelLib/ChannelHandler/NewChannelHandler.cc:466-532 | A sweep puts exactly the expired unmarked packets on the wire again, restarts their timers and counts the retry; if there was one the window falls to 1 and the threshold to half the window, at least 2, and neither changes otherwise |
| `SenderEffects.WindowExact` | src/TunnelLib/ChannelHandler/BasicChannelHandler.hh:175-180 | The window is the largest number within the advertised window and cwnd + 1/2 |
| `SenderRuns.HeadTimesOut` | src/TunnelLib/ChannelHandler/NewChannelHandler.cc:466-532 | In every run, once the timer of the lowest unacked packet has run out, a sweep sends it again as it was submitted unless it is marked |
| `SenderRuns.NothingNewAfterTimeout` | src/TunnelLib/ChannelHandler/NewChannelHandler.cc:524-527 | In every run, after a sweep that sent something again no packet goes out for the first time until acks are drained |
| `AckBatch.BatchReachesMax` | src/TunnelLib/ChannelHandler/NewChannelHandler.cc:268-300 | If no queued ack is older than lastAcked, draining ends with lastAcked at the largest queued number |
| `AckBatch.EachHandedOn` | src/TunnelLib/ChannelHandler/NewChannelHandler.cc:284-300 | In a batch of acks that all name one number, such as duplicates, every ack is handled, one after the other |
| `AckBatch.HandedOnInOrder` | src/TunnelLib/ChannelHandler/NewChannelHandler.cc:284-300 | Without older acks those are handed on that name the largest number or answer a packet further beyond lastAcked than it |
| `AckBatch.DrainLands` | src/TunnelLib/ChannelHandler/NewChannelHandler.cc:268-312 | Where draining leaves lastAcked, for every batch: at the largest queued number without an older ack; with one, where a walk ends that hands on only acks which answer a packet just below lastAcked, no further down than the newest old ack was at first |
| `AckBatch.BatchExact` | src/TunnelLib/ChannelHandler/NewChannelHandler.cc:274-281 | For every batch, draining reaches the largest queued number if and only if the batch holds no ack older than lastAcked, or none newer, or one with the largest number is handed on when its turn comes |
| `AckBatch.OldAckBlocksBatch` | src/TunnelLib/ChannelHandler/NewChannelHandler.cc:274-281 | For every batch, draining moves lastAcked if and only if some queued ack ahead is not passed over; with an older ack, whose number the scan takes for the largest, every ack ahead is, except one that answers a packet between the newest old ack and lastAcked |
| `AckBatch.HeadHiddenExactly` | src/TunnelLib/ChannelHandler/NewChannelHandler.cc:485-489 | For every batch: the packet a drain leaves right above lastAcked is held, marked and never sent again by a timeout, with its acks spent, exactly when it was held and marked before the drain; which packet that is DrainLands reads off the queue |
| `AckBatch.HeadStaysHidden` | src/TunnelLib/ChannelHandler/NewChannelHandler.cc:485-489 | A marked head is still the head after a drain, and hidden, exactly when every queued ack ahead is passed over; otherwise the drain moves lastAcked past it |
| `AckBatch.OldAckHidesHead` | src/TunnelLib/ChannelHandler/NewChannelHandler.cc:485-489 | After such a batch the packet in flight stays marked and no later timeout sends it again |
| `AckBatch.CleanKept` | src/TunnelLib/ChannelHandler/NewChannelHandler.cc:154-168 | While no older ack arrives, each marked slot is answered by a queued ack or one lastAcked has caught up with |
| `AckBatch.MarkedHeadIsCovered` | src/TunnelLib/ChannelHandler/NewChannelHandler.cc:485-489 | Then, while the head is marked, an ack that covers it is queued |
| `Marks.MarkLands` | src/TunnelLib/ChannelHandler/NewChannelHandler.cc:164-166 | An arriving ack marks the packet it answers, or nothing once that packet is freed, exactly when no unmarked packet in flight shares its field |
| `Marks.SuppressionExact` | src/TunnelLib/ChannelHandler/NewChannelHandler.cc:485-489 | In every state of a run each packet a timeout passes over has been received, exactly when no ack of the run marked a packet in flight that the receiver did not have |
| `Marks.SuppressedIsReceived` | src/TunnelLib/ChannelHandler/NewChannelHandler.cc:164-166 | In every run with never more than 16384 packets in flight each ack marks the packet it answers, and a timeout passes over a packet only if the receiver has it |
| `WrongMark.WrongMarkRun` | src/TunnelLib/ChannelHandler/NewChannelHandler.cc:164-166 | A reachable run with 16385 packets in flight in which a late ack marks a packet that was never received, and no timeout sends it again |
| `AckBatch.SingleAckTest` | src/TunnelLib/ChannelHandler/NewChannelHandler.cc:325-341 | The test of a single ack tells new from old except for an ack exactly 32768 old, which passes for new |
| `StaleAck.NeverHidden` | src/TunnelLib/ChannelHandler/NewChannelHandler.cc:268-300 | In every run without older acks, whenever the head is marked the next drain moves lastAcked past it, and the head that the drain leaves is not hidden |
| `StaleAck.HiddenExactly` | src/TunnelLib/ChannelHandler/NewChannelHandler.cc:268-300 | In every state of every run: exactly when the head that a drain leaves is hidden |
| `StaleAck.StaleAckRun` | src/TunnelLib/ChannelHandler/NewChannelHandler.cc:274-281 | A reachable run in which a late duplicate of an old ack costs the sender its newest ack for good |
| `StaleAck.UncoveredRun` | src/TunnelLib/ChannelHandler/NewChannelHandler.cc:274-281 | A reachable run in which a batch moves lastAcked, spends the ack of the next packet, and leaves that packet at the head, marked and never sent again |
| `ChannelSystem.MaxNorm` | src/TunnelLib/ChannelHandler/NewChannelHandler.cc:273-281 | The first loop of the batch finds the largest 16-bit distance |
| `SenderLaws.AckRecvKeeps` | src/TunnelLib/ChannelHandler/NewChannelHandler.cc:314-464 | Every usable ack keeps the sender in order and frees exactly the packets it covers and the one it answers |
| `SenderLaws.SubmitKeeps` | src/TunnelLib/ChannelHandler/NewChannelHandler.cc:58-94 | sendPacket keeps the sender in order |
| `SenderLaws.TimeoutKeeps` | src/TunnelLib/ChannelHandler/NewChannelHandler.cc:466-532 | A timeout sweep keeps the sender in order |
| `SenderLaws.SendNextKeeps` | src/TunnelLib/ChannelHandler/NewChannelHandler.cc:139-152 | sendNext keeps what is buffered and, with an open window, leaves nothing stalled |
| `SenderLaws.NewAckKeeps` | src/TunnelLib/ChannelHandler/NewChannelHandler.cc:381-391 | Also when the doubled count truncates to 0, a full ack leaves nothing stalled |
| `SenderLaws.CountedKeeps` | src/TunnelLib/ChannelHandler/NewChannelHandler.cc:325-341 | Counting a fresh ack keeps the recovery machine in range |
| `SendBuffer.MirrorsSlide` | src/TunnelLib/ChannelHandler/BasicChannelHandler.hh:74-94 | The 65536 slots hold a moving window of true numbers without aliasing |
| `SendBuffer.IndexedKeep` | src/TunnelLib/ChannelHandler/BasicChannelHandler.hh:95-104 | No key in the timer index changes while it is there |
| `SendBuffer.SendingBuffer.Add` | src/TunnelLib/ChannelHandler/BasicChannelHandler.hh:197-203 | addBuffer: the new packet takes the next number; its slot was empty |
| `SendBuffer.SendingBuffer.StartTimer` | src/TunnelLib/ChannelHandler/BasicChannelHandler.hh:114-121 | startTimer adds the entry of a slot that has none |
| `SendBuffer.SendingBuffer.StopTimer` | src/TunnelLib/ChannelHandler/BasicChannelHandler.hh:122-129 | stopTimer removes exactly the entry of the slot |
| `SendBuffer.SendingBuffer.RestartTimer` | src/TunnelLib/ChannelHandler/BasicChannelHandler.hh:130-137 | restartTimer replaces the entry of the slot by one with the new time |
| `SendBuffer.SendingBuffer.Begin` | src/TunnelLib/ChannelHandler/BasicChannelHandler.hh:95-104 | The first entry of the index has the earliest deadline of all running timers |
| `ChannelSender.NewChannelHandler.constructor` | src/TunnelLib/ChannelHandler/NewChannelHandler.cc:40-52 | The fields start as the initial state of the model |
| `ChannelSender.NewChannelHandler.SendPacket` | src/TunnelLib/ChannelHandler/NewChannelHandler.cc:58-94 | sendPacket refines the submission of the model, with its three answers |
| `ChannelSender.NewChannelHandler.SendNext` | src/TunnelLib/ChannelHandler/NewChannelHandler.cc:139-152 | The loop sends exactly as many packets as the window, the buffer and the count allow |
| `ChannelSender.NewChannelHandler.SendSeq` | src/TunnelLib/ChannelHandler/NewChannelHandler.cc:626-640 | sendSeq sends a full slot and starts its timer; an empty one is refused with -42 |
| `ChannelSender.NewChannelHandler.UpdateCwnd` | src/TunnelLib/ChannelHandler/NewChannelHandler.cc:642-674 | updateCwnd changes and clamps the window and reports its growth |
| `ChannelSender.NewChannelHandler.UpdateRtt` | src/TunnelLib/ChannelHandler/NewChannelHandler.cc:606-624 | updateRtt applies the two filters |
| `ChannelSender.NewChannelHandler.OrigSlot` | src/TunnelLib/ChannelHandler/NewChannelHandler.cc:344-349 | The slot an ack answers is found through its 16-bit number also when it lies behind lastAcked |
| `ChannelSender.NewChannelHandler.FreeOriginal` | src/TunnelLib/ChannelHandler/NewChannelHandler.cc:344-349 | The answered packet is freed when the ack does not name it; its timer runs |
| `ChannelSender.NewChannelHandler.FreeAcked` | src/TunnelLib/ChannelHandler/NewChannelHandler.cc:369-380 | The loop frees every slot the ack covers |
| `ChannelSender.NewChannelHandler.RestartRange` | src/TunnelLib/ChannelHandler/NewChannelHandler.cc:393-400 | The loop restarts the timer of each packet left in recovery |
| `ChannelSender.NewChannelHandler.SkipFreed` | src/TunnelLib/ChannelHandler/NewChannelHandler.cc:420-430 | The scan of MULTI_RECOVERY ends; after it the retransmit branch is never taken |
| `ChannelSender.NewChannelHandler.OnDuplicate` | src/TunnelLib/ChannelHandler/NewChannelHandler.cc:418-462 | Duplicate acks refine the model; the third one hands the head to the interface again |
| `ChannelSender.NewChannelHandler.AckRecv` | src/TunnelLib/ChannelHandler/NewChannelHandler.cc:314-464 | ackRecv in 16-bit arithmetic refines the model for every usable ack |
| `ChannelSender.NewChannelHandler.AckRecvBatch` | src/TunnelLib/ChannelHandler/NewChannelHandler.cc:268-312 | The batch refines the model and returns how far lastAcked moved |
| `ChannelSender.NewChannelHandler.Recv` | src/TunnelLib/ChannelHandler/NewChannelHandler.cc:154-168 | Any arriving ack is queued and marks the slot its origAckNo stands for if a packet was sent from it, and no other |
| `ChannelSender.NewChannelHandler.TimeoutEvent` | src/TunnelLib/ChannelHandler/NewChannelHandler.cc:466-532 | The sweep ends, sends each expired unmarked packet exactly once, leaves none expired, closes the window to 1 and halves the threshold if it sent any, and kills the channel only for field 0 after more than two retries |
| `ChannelSender.NewChannelHandler.GetUndeliveredPackets` | src/TunnelLib/ChannelHandler/NewChannelHandler.cc:107-131 | The loop returns the undelivered packets of the model and empties the buffer |
| `SenderRounds.SweepEnds` | src/TunnelLib/ChannelHandler/NewChannelHandler.cc:478-521 | When no running timer has expired, the sweep has dealt with every packet that had |
| `ReceiverModel.PktRecvKeeps` | src/TunnelLib/ChannelHandler/NewChannelHandler.cc:222-266 | One packet adds exactly its number to what is received, is accepted exactly when new, and expectedSeq never passes a gap |
| `ReceiverModel.SkipReceived` | src/TunnelLib/ChannelHandler/NewChannelHandler.cc:250-253 | The advance loop stops at the first number not received |
| `ChannelReceiver.ReceivingBuffer.Recv` | src/TunnelLib/ChannelHandler/NewChannelHandler.cc:222-266 | pktRecv over 16-bit fields and the bit map refines the unbounded received set |
| `ChannelReceiver.ReceivingBuffer.SkipBits` | src/TunnelLib/ChannelHandler/NewChannelHandler.cc:250-253 | The advance loop clears the bits it passes and ends |
| `ChannelReceiver.DistanceTests` | src/TunnelLib/ChannelHandler/NewChannelHandler.cc:246-261 | The two distance tests tell packets ahead from those just behind |
| `BitFields.BitField.SetBit` | src/util/BitField.hh:50-55 | setBit sets its bit and no other |
| `BitFields.BitField.ResetBit` | src/util/BitField.hh:56-61 | resetBit clears its bit and no other |
| `FlowModel.ReadsPrefix` | src/TunnelLib/FlowHandler/NewFlowHandler.cc:113-144 | What a flow has returned is a prefix of what was sent; the end only after all of it |
| `FlowModel.CreditBounds` | src/TunnelLib/FlowHandler/NewFlowHandler.cc:146-155 | Credits and unreported packets make 500; every unread packet lies within 500 of readUpto; readSem counts packets that are all present |
| `FlowModel.DuplicateTest` | src/TunnelLib/FlowHandler/NewFlowHandler.cc:74-79 | The 16-bit distance says duplicate exactly for the 16383 numbers behind; when the assertion on it holds; unread packets are below 500 |
| `FlowModel.ReportTest` | src/TunnelLib/FlowHandler/NewFlowHandler.cc:225-234 | A late read report is told from a new one exactly while it is fewer than 65036 behind |
| `FlowModel.TakeKeeps` | src/TunnelLib/FlowHandler/NewFlowHandler.cc:61-111 | Taking a genuine packet keeps the flow in order |
| `FlowModel.ReadKeeps` | src/TunnelLib/FlowHandler/NewFlowHandler.cc:113-144 | A counted packet is there when it is read |
| `FlowModel.SendKeeps` | src/TunnelLib/FlowHandler/NewFlowHandler.cc:146-155 | Sending spends a credit |
| `FlowModel.ReportKeeps` | src/TunnelLib/FlowHandler/NewFlowHandler.cc:225-234 | A read report, new or late, keeps the credit sum |
| `FlowModel.SendEffect` | src/TunnelLib/FlowHandler/NewFlowHandler.cc:146-155 | Sending appends one packet with the data given under the next number, for one credit |
| `FlowModel.ReportEffect` | src/TunnelLib/FlowHandler/NewFlowHandler.cc:225-234 | A report of new reads gives back one credit for each and is remembered; any other changes nothing |
| `FlowModel.ReadEffect` | src/TunnelLib/FlowHandler/NewFlowHandler.cc:113-144 | A read returns the data of the next packet as it was sent, or the end |
| `FlowModel.TakeEffect` | src/TunnelLib/FlowHandler/NewFlowHandler.cc:61-111 | A new packet is held and availableUpTo moves to the last packet before a gap or to the end, with a post of readSem for each; any other packet changes nothing |
| `FlowModel.Contiguous` | src/TunnelLib/FlowHandler/NewFlowHandler.cc:90-104 | availableUpTo moves to the last packet before a gap, or to the end of the flow |
| `FlowHandlers.NewFlowHandler.RecvPacketFrom` | src/TunnelLib/FlowHandler/NewFlowHandler.cc:61-111 | recvPacketFrom over the 65536-cell array refines the model; its assertion is proved for packets at most 16383 behind |
| `FlowHandlers.NewFlowHandler.Advance` | src/TunnelLib/FlowHandler/NewFlowHandler.cc:90-104 | The loop moves availableUpTo, posts readSem once a packet and stops behind the end marker |
| `FlowHandlers.NewFlowHandler.ReadData` | src/TunnelLib/FlowHandler/NewFlowHandler.cc:113-144 | readData returns the next packet; both assertions are proved |
| `FlowHandlers.NewFlowHandler.SendData` | src/TunnelLib/FlowHandler/NewFlowHandler.cc:157-186 | The bytes go out in packets of 1300 and a last shorter one whose data, joined, are the bytes taken; the count returned adds 2048 a full packet |
| `FlowHandlers.CountOverstates` | src/TunnelLib/FlowHandler/NewFlowHandler.cc:171 | The count equals the bytes exactly when there was no full packet |
| `FlowHandlers.NewFlowHandler.SendClosePacket` | src/TunnelLib/FlowHandler/NewFlowHandler.cc:212-218 | The end marker takes the next number and a credit |
| `FlowHandlers.NewFlowHandler.RecvAck` | src/TunnelLib/FlowHandler/NewFlowHandler.cc:225-234 | recvAck posts one credit for each packet newly reported, and none for an older report |
| `FlowHandlers.JoinedIsBytes` | src/TunnelLib/FlowHandler/NewFlowHandler.cc:157-186 | The bytes handed to the scheduler are those the receiving end is to return |
| `Multiplexers.CreditsReturn` | src/TunnelLib/multiplexer.cc:167-183 | In every run unreported reads of all flows come to at most 400, and a sender whose packets have all been read holds at least 100 credits or is brought there by the newest report, which it can still get |
| `Multiplexers.ReportArrives` | src/TunnelLib/FlowHandler/NewFlowHandler.cc:225-234 | In every run a report that arrives gives one credit for each newly reported read; the newest one, with everything read, leaves at least 100 |
| `Multiplexers.EveryFlowInOrder` | src/TunnelLib/multiplexer.cc:167-183 | Each of many flows returns a prefix of its data and keeps its credit sum |
| `Multiplexers.MuxStepKeeps` | src/TunnelLib/multiplexer.cc:267-289 | Every step keeps the count of unreported reads |
| `Multiplexers.UnreportedPart` | src/TunnelLib/multiplexer.cc:267-280 | No flow hides more unreported reads than all together |
| `Multiplexers.Multiplexer.GetReceiverStatus` | src/TunnelLib/multiplexer.cc:267-280 | The report holds readUpto of every flow, the last flow first |
| `Multiplexers.Multiplexer.ReadData` | src/TunnelLib/multiplexer.cc:167-183 | The answer is the data of the next packet, the end, or the error of the size test; no other flow changes; the read is counted, and past 400 a report for every flow goes out and counting starts again |
| `SchedulerModel.ThreadKeeps` | src/TunnelLib/ChannelScheduler/NewChannelScheculer.cc:367-398 | Packets queued equal those counted, about to be counted, or held as a token, at every step of the thread |
| `SchedulerModel.ProducersKeep` | src/TunnelLib/ChannelScheduler/NewChannelScheculer.cc:73-99 | The same for producers and dying channels; a replaced control packet is not counted again |
| `SchedulerModel.TakeMoves` | src/TunnelLib/ChannelScheduler/NewChannelScheculer.cc:302-322 | Taking a packet changes its place and nothing else |
| `SchedulerModel.FirstInFirstOut` | src/TunnelLib/ChannelScheduler/NewChannelScheculer.cc:302-326 | At any time what came into a queue is what was taken from it, in order, followed by what it holds |
| `SchedulerModel.ThreadRound` | src/TunnelLib/ChannelScheduler/NewChannelScheculer.cc:367-398 | Giving the token back undoes wait(); one round of the thread brings the packet due first to the channel chosen and takes it and its count, and nothing else, from the scheduler |
| `SchedulerModel.TakesFirst` | src/TunnelLib/ChannelScheduler/NewChannelScheculer.cc:302-322 | The control packet goes first, then the packets of dead channels, the ends of flows and the rest, each from the front of its queue |
| `ChannelSchedulers.NewChannelScheculer.SendPacketTo` | src/TunnelLib/ChannelScheduler/NewChannelScheculer.cc:73-99 | sendPacketTo queues by kind and posts once |
| `ChannelSchedulers.NewChannelScheculer.NotifyDeadChannel` | src/TunnelLib/ChannelScheduler/NewChannelScheculer.cc:278-300 | The packets of a dead channel are queued and counted one by one |
| `ChannelSchedulers.NewChannelScheculer.Pick` | src/TunnelLib/ChannelScheduler/NewChannelScheculer.cc:373-392 | The choice is the first channel with space of the lowest round-trip time, none exactly when none has space |
| `ChannelSchedulers.NewChannelScheculer.SendNextPacketUsingCh` | src/TunnelLib/ChannelScheduler/NewChannelScheculer.cc:302-326 | Control, undelivered, closing, outgoing: the first packet in that order is taken |
| `PacketLayouts.HeaderLayout` | src/TunnelLib/Packet.cc:266-300 | The fixed header byte by byte, 16-bit fields high byte first |
| `PacketLayouts.OptLayout` | src/TunnelLib/Packet.cc:210-265 | Each kind of optional header byte by byte: kind, pad byte, length, fields, and the entries of a read report in list order |
| `PacketLayouts.PacketLayout` | src/TunnelLib/Packet.cc:266-310 | Fixed header, optional headers in list order without gaps, payload |
| `PacketLayouts.Digit` | src/TunnelLib/Packet.cc:266-310 | Byte i from the end of a 32- or 64-bit number is v >> 8 i |
| `PacketAcceptance.DecodeExact` | src/TunnelLib/Packet.cc:171-209 | decodeHeader accepts exactly the encodings of packets with four-bit fields and at most 15 optional headers, and reads each as that packet with its lists reversed |
| `PacketCodec.RoundTrip` | src/TunnelLib/Packet.cc:171-310 | Decoding an encoded packet gives back header and payload and the optional headers and read lists reversed, using all bytes, if and only if the three small fields fit four bits and there are at most 15 optional headers |
| `PacketCodec.TwoRoundTrips` | src/TunnelLib/Packet.cc:171-310 | A second round trip restores all orders |
| `PacketCodec.OptRoundTrip` | src/TunnelLib/Packet.cc:141-168 | One optional header comes back, its pad byte ignored, using exactly its length |
| `PacketCodec.InfosRoundTrip` | src/TunnelLib/Packet.cc:365-398 | A list of read reports comes back reversed |
| `PacketCodec.DecodedAbove15` | src/TunnelLib/Packet.cc:271-276 | With 16 or more headers the count that travels is too small |
| `PacketCodec.EncodeHeader` | src/TunnelLib/Packet.cc:266-310 | encodeHeader writes the encoding at the front of the buffer and leaves the rest, or writes nothing into less than sizeof(PacketHeader) |
| `PacketCodec.DecodeHeader` | src/TunnelLib/Packet.cc:171-209 | decodeHeader with its assertions refines the decoding function |
| `PacketCodec.ReadInfos` | src/TunnelLib/Packet.cc:365-380 | The loop puts entries in front of the list |
| `PacketCodec.WriteInfos` | src/TunnelLib/Packet.cc:382-398 | The loop writes the entries in list order |
| `Queues.AppLLQueue.Add` | src/util/AppLLQueue.hh:107-118 | add links the node behind the last |
| `Queues.AppLLQueue.AddLLToQueue` | src/util/AppLLQueue.hh:91-105 | A whole list is appended in order and counted |
| `Queues.AppLLQueue.AddToQueue` | src/util/AppLLQueue.hh:120-127 | addToQueue takes one free slot of a bounded queue |
| `Queues.AppLLQueue.GetFromQueue` | src/util/AppLLQueue.hh:129-147 | The first node leaves alone and frees its slot |
| `Queues.AppLLQueue.GetAllFromQueue` | src/util/AppLLQueue.hh:159-175 | The whole list leaves in order and all slots are free |
| `Queues.Splice` | src/util/AppLLQueue.hh:91-174 | Draining one queue into another keeps every node and the order |
| `CircularBuffers.CircularBuffer.Write` | src/util/CircularBuffer.hh:83-119 | What waits to be read stays the rest of what was written, through append, move to front and growth |
| `CircularBuffers.CircularBuffer.Read` | src/util/CircularBuffer.hh:138-169 | A read returns the next bytes written, through shrinking |
| `CircularBuffers.CircularBuffer.Grow` | src/util/CircularBuffer.hh:105-113 | The doubling loop ends with enough room |
| `LinuxMath.Fls` | src/util/LinuxMath.cc:30-57 | 2^(r-1) <= x < 2^r |
| `LinuxMath.Fls64` | src/util/LinuxMath.cc:59-65 | The same for 64 bits |
| `LinuxMath.Div64` | src/util/LinuxMath.cc:67-83 | The quotient or one more, exactly the quotient for a divisor below 2^32 |
| `LinuxMath.ByShift` | src/util/LinuxMath.cc:71-79 | The shifted divisor is not 0 and fits 32 bits, and its quotient is at most one too large |
| `LinuxMath.OneTooMany` | src/util/LinuxMath.cc:71-79 | One too many does occur |
| `RttBound.TimeoutBounded` | src/TunnelLib/ChannelHandler/NewChannelHandler.cc:606-624 | Samples in [0, M] keep srtt and rttvar in [0, M] and, once measured, rto in [200 ms, M + max(200 ms, 4 M)] (section 2 of RFC 6298) |
| `RttBound.Exact` | src/TunnelLib/ChannelHandler/NewChannelHandler.cc:606-624 | For all sequences of samples in [0, m] the assertion rto < 15 s holds if and only if m is below 64/15 s |
| `RttBound.TimeoutPeak` | src/TunnelLib/ChannelHandler/NewChannelHandler.cc:617-622 | Samples in [0, M] keep rto at or below the largest of 225/64 M, M + 200 ms and the initial second |
| `RttBound.PeakReached` | src/TunnelLib/ChannelHandler/NewChannelHandler.cc:617-622 | From M = 0.1 s on, the samples M, 0, 0 bring rto to 225/64 M |
| `RttBound.FirstSample` | src/TunnelLib/ChannelHandler/NewChannelHandler.cc:613-617 | On the first sample the assertion holds exactly for samples below 5 s |
| `Checksums.Compute` | src/TunnelLib/InterfaceController/SendThroughInterface.cc:162-191 | The loops compute the checksum; the sum stays below 2^32 up to IP_MAXPACKET bytes and the fold ends |
| `Checksums.FoldKeeps` | src/TunnelLib/InterfaceController/SendThroughInterface.cc:183-185 | Folding keeps the sum modulo 65535 and gives 0 only for 0 |
| `Checksums.FilledChecks` | src/TunnelLib/InterfaceController/SendThroughInterface.cc:331-333 | A buffer whose zeroed aligned field is filled with its checksum checks to 0 (sections 1 and 2 of RFC 1071) |
| `Checksums.Udp4Checksum` | src/TunnelLib/InterfaceController/SendThroughInterface.cc:194-261 | The buffer holds pseudo-header, header, payload and padding in that layout |
| `Checksums.Layout` | src/TunnelLib/InterfaceController/SendThroughInterface.cc:194-261 | The covered bytes in order: addresses, zero, protocol, length, ports, length, zero checksum, payload, padding |
| `Checksums.UdpChecks` | src/TunnelLib/InterfaceController/SendThroughInterface.cc:341-342 | A datagram with the checksum in place checks to 0 |

## Left out

- Closing: `closed`, FLAG_CHF packets, `initShutdown`, `shutDown`, `closeFlow` from this end and the shutdown handshakes; one writer and one reader per flow, up to the end marker.
- FlowHandlers.NewFlowHandler.RecvPacketFrom: the reply to the peer's end marker, which the source sends while it holds the read lock and may have to wait for a credit for, is a call of its own, `SendClosePacket`.
- FlowHandlers.NewFlowHandler.SendData: a wait for a credit is the return of the bytes not yet sent, with which the waiting writer goes on.
- ChannelSender.NewChannelHandler.UpdateRtt: the filters are exact reals, without the integer truncation of the source; the assertion on rto is in `RttBound`.
- ChannelSender.NewChannelHandler.UpdateCwnd: cwnd is a real, without floating-point rounding.
- ChannelSender.NewChannelHandler.AckRecvBatch: the acks of a batch are less than 2^15 behind its largest number, as the network owes; on older ones the 16-bit tests of the source take old for new.
- ChannelSender.NewChannelHandler.Recv: cloning of packets and notification of the worker thread.
- LinuxMath.Fls: the mask tests are comparisons and the shifts multiplications; `LinuxMath.Masks` relates the tests.
- PacketCodec.DecodeHeader: a failed assertion and a read past the end of the buffer are both the result `Err`.
- PacketCodec.EncodeHeader: an output buffer of 32 bytes or more must hold the whole packet; the source writes past it otherwise.
- ChannelSchedulers.NewChannelScheculer.Pick: the round-trip times and free space of the channels are read once, as a list.
- Start markers (FLAG_CSN): `sendCSNPacket` is not modelled; migration drops packets that carry the flag, as in the source.
- The start flag `started` of `spaceInCwnd`, interface change packets, and adding or removing remote addresses.
- Arrival of read reports: they may take any time; the reverse path that carries them is not modelled as a channel.
- `BasicChannelHandler` and `SackNewRenoChannelHandler` as channels of their own (chosen by an environment variable); their parts that `NewChannelHandler` uses are modelled.
- `StreamHandler`, `CubicChannelHandler`, `InterfaceScheduler`, `CongestionHandler`: alternatives outside the default path.
- Sockets, interface discovery, address resolution, threads, locks and pools: foreign calls and lifetime plumbing; each lock-protected handler is one step.
- Statistics counters, logging and profiling.
