# Transport logic of a multipath QUIC stack, in Dafny

This project models the transport core of `rlmp-quic` (a multipath QUIC server and client) and proves what
its state machines promise. Objects that the Go code updates in place are Dafny classes, its loops are loops
with invariants, and each method is specified by a function or relation on values; the properties are lemmas
about those, most of them over whole runs of a state machine.

* `Frames` (with small shared definitions), `Sorter`, `Stream`, `Delivery`: a byte stream is cut into frames, frames
  are split again for retransmission, a network loses, reorders and duplicates them, and the sorter puts the bytes
  back in order.
* `FlowControl`, `FlowLedger`, `FlowProtocol`: stream and connection windows, the accounts behind them, and two
  parties that exchange data, resets and WINDOW_UPDATEs.
* `ReceivedHistory`, `AckFrames`, `AckReceiver`, `AckSender`, `SentPacketHandlers`, `AckProtocol`: the received
  ranges, the ACKs made from them, the merge of an ACK with the packet history, loss detection and alarms, and
  the protocol of the two ends of a path.
* `WaterFilling`: the split of a stream's volume over paths.
* `Framer`, `Packer`: filling packets with retransmissions, new data and control frames.
* `CertCompression`: certificate chains, with zlib as a pair of inverse functions.
* `StreamsMap`, `StreamPaths`: stream ids, the round-robin order and the stream/path indices.
* `Cubic`, `Olia`: the two congestion controllers, and `Champions`: what a loop can end with that keeps the better of
  two candidates.
* `AckEffects`, `AckTiming`, `AckWaits`, `FlowEffects`, `FramerEffects`, `FrameLengths`, `PackerEffects`,
  `CertEffects`, `StreamRounds`, `PathEffects`, `CubicEffects`, `OliaEffects`: what the operations achieve, stated on the
  state before and after them, or over runs, and not by the functions that specify them.

Conventions. 64-bit counters are unbounded integers unless a row below says otherwise; offsets of received
frames are required not to wrap. Clocks, round-trip times, the choices of map iteration and of the learning
agent are parameters. Floating-point numbers are reals. Goroutines and locks are left out: a handler call is one
step.

Where the code does not do what its comments or names promise, the code is modelled and the exact condition is
proved:

* The sorter stores an empty FIN frame under its offset even if a frame with data is queued there
  (`Sorter.EmptyFinKeepsValid`). At the read position it hides received data (`Sorter.EmptyFinAtHead`,
  `Sorter.EmptyFinCanHideData`).
* A STOP_WAITING limit is harmless exactly while it stays below the largest observed packet
  (`AckReceiver.LimitKeepsOk`, `AckReceiver.HighLimitExample`); a sender of this code always keeps to that
  (`AckProtocol.DueAckIsExact`).
* A late STOP_WAITING lowers the limit again. A number up to an earlier limit is then recorded exactly if it arrives
  while a lower one is in force (`AckReceiver.OldLimitIsForgotten`, `AckReceiver.LateLimitExample`).
* `choosePaths` stops at the first pair of equal delays and then shares the rest with all paths. The result is
  optimal exactly when nothing spills over (`WaterFilling.ChoosePaths`), and it can spill
  (`WaterFilling.SpillExample`).
* A CLOSE_PATH leaves packets in flight that are beyond the largest number acknowledged before; none are left
  exactly if there are none of those (`AckSender.ClosePathLeaves`, `AckSender.ClosePathExample`).
* The own stream id that is to be opened next is reported closed although it never was open; otherwise exactly the
  removed ids and 0 are (`StreamsMap.ClosedIsExact`).
* A client tests the number of its own streams against the limit for the peer's and the other way round
  (`StreamsMap.RefusalsAreExact`). The limits are kept in all runs exactly on a server, or where they are zero
  (`StreamsMap.PeerIsLimitedOnServer`, `StreamsMap.OwnIsLimitedOnServer`).
* A PING is dropped while a STOP_WAITING is pending. Otherwise it is sent alone and the pending ACK is lost, which
  happens in no other case (`Packer.PacketPacker.PackPacket`).
* The number of a path's streams leaves out streams 1 and 3 when they are assigned but not when they finish. The
  four indices agree after a stream has finished exactly if it is another one or was on no path
  (`StreamPaths.ForgetKeepsInv`, `StreamPaths.HeaderStreamExample`, over runs `StreamPaths.NumbersAgree`).
* Closing a path does not clear the path's own list, so that the indices agree afterwards exactly if it was empty
  (`StreamPaths.CloseKeepsInv`, `StreamPaths.ClosedPathExample`).
* CUBIC's target is the curve's value, and at least the window at the start of the epoch, exactly at certain times
  (`Cubic.TargetsFollowCurve`). An application-limited period that began before the epoch makes it too early
  (`Cubic.LateEpochExample`), and after about four and a half minutes the 64-bit product overflows
  (`Cubic.LongEpochExample`). The returned window is never below the start, because the estimate of a TCP window
  is not (`Cubic.AcksStayAboveStart`).
* OLIA's search for the best path compares 64-bit products that overflow for common values (`Olia.WrapExample`), and
  a path with neither a round-trip time nor bytes between losses, as a new one, counts as good as any
  (`Olia.BlankExample`). The loop can end exactly with the paths from which a chain of comparisons leads to every
  other (`Champions.WinnersReachAll`), so it finds a best path in every order exactly if all of these are best
  (`Olia.BestIffWinnersAre`). The corrections cancel out all the same (`Olia.EpsilonsCancel`).
* A chain that names a cached certificate is refused by the decompressor; all others come back unchanged
  (`CertCompression.RoundTrip`).

## Model

| member | source | states |
|---|---|---|
| Sorter.StreamFrameSorter.constructor | rlmp-quic/stream_frame_sorter.go:23-30 | nothing is received: one gap from 0 to the largest offset, and the state is valid |
| Sorter.StreamFrameSorter.Push | rlmp-quic/stream_frame_sorter.go:32-144 | a frame adds exactly its byte range to the received set; gaps stay sorted, non-empty and non-adjacent, frames stay chained through every received run, a duplicate changes nothing, and each error has its exact condition |
| Sorter.StreamFrameSorter.FindGap | rlmp-quic/stream_frame_sorter.go:54-68 | finds the gap of the first missing byte at or after the start, or that all of the range is covered |
| Sorter.StreamFrameSorter.WalkToEndGap | rlmp-quic/stream_frame_sorter.go:78-94 | ends at the gap that holds the last missing byte, having removed the gaps in between and the frames behind them; fails only at the largest offset |
| Sorter.StreamFrameSorter.CloseGap | rlmp-quic/stream_frame_sorter.go:104-130 | leaves of the two end gaps exactly the parts outside the filled range |
| Sorter.StreamFrameSorter.FillGaps | rlmp-quic/stream_frame_sorter.go:78-130 | the in-place edits of the gap list amount to filling one range, and the data is cut where it is already known |
| Sorter.StreamFrameSorter.PushUnknown | rlmp-quic/stream_frame_sorter.go:51-144 | the same, once the prefix known from a queued frame is cut off |
| Sorter.StreamFrameSorter.PushAtGap | rlmp-quic/stream_frame_sorter.go:70-144 | the same, once the gap of the first missing byte is known |
| Sorter.StreamFrameSorter.PushFromGap | rlmp-quic/stream_frame_sorter.go:78-144 | the same, once the first missing byte is known |
| Sorter.StreamFrameSorter.Pop | rlmp-quic/stream_frame_sorter.go:146-153 | returns the head, advances past it and keeps the state valid |
| Sorter.Head | rlmp-quic/stream_frame_sorter.go:155-161 | there is a head with data exactly when the next byte has been received |
| Sorter.FillKeepsGapsOk | rlmp-quic/stream_frame_sorter.go:104-130 | filling keeps the gap list canonical |
| Sorter.FillRemovesRange | rlmp-quic/stream_frame_sorter.go:104-130 | after filling, a byte is missing iff it was missing and lies outside the range |
| Sorter.FillKeepsRuns | rlmp-quic/stream_frame_sorter.go:78-144 | every received run is still covered by a chain of queued frames |
| Sorter.StoreIsValid | rlmp-quic/stream_frame_sorter.go:96-144 | storing the cut piece keeps the whole state valid |
| Sorter.PopKeepsValid | rlmp-quic/stream_frame_sorter.go:146-153 | popping the head keeps the state valid |
| Sorter.EmptyFinKeepsValid | rlmp-quic/stream_frame_sorter.go:33-37 | storing an empty FIN keeps the state valid iff no run's chain passes through a frame with data at that offset |
| Sorter.EmptyFinAtHead | rlmp-quic/stream_frame_sorter.go:33-37 | after an empty FIN the head has data exactly if the next byte was received and the FIN is not at the read position |
| Sorter.EmptyFinCanHideData | rlmp-quic/stream_frame_sorter.go:33-37 | an empty FIN at the start leaves a head without data although the next byte was received |
| Stream.NextFrame | rlmp-quic/stream_framer.go:393-475 | a frame never exceeds its allowance and is non-empty or ends the stream; otherwise nothing changes |
| Stream.StreamObject.GetDataForWriting | rlmp-quic/stream.go:318-337 | the data taken is the longest allowed prefix of the pending bytes, and the write offset counts it |
| Stream.StreamObject.PopFrame | rlmp-quic/stream_framer.go:403-475 | the visit of a stream makes the frame that `NextFrame` specifies |
| Stream.StreamObject.AddStreamFrame | rlmp-quic/stream.go:366-381 | hands the frame to the sorter |
| Stream.StreamObject.ReadHead | rlmp-quic/stream.go:213-242 | one round of the copy loop |
| Stream.StreamObject.Read | rlmp-quic/stream.go:155-246 | returns queued bytes in order and stops early only at a missing byte or at a frame that ends the stream |
| Stream.ReadRoundReads | rlmp-quic/stream.go:213-242 | a round reads the bytes at the read offset, makes progress or reaches the end, and keeps the receiver valid |
| Delivery.ReadsArePrefixOfWrites | rlmp-quic/stream.go:155-246 | in every run, whatever the network does, the bytes read are a prefix of the bytes written |
| Delivery.ReadReturnsWhatArrived | rlmp-quic/stream.go:167-243 | in every run, a read fills its buffer, stops at a byte that has not arrived, or ends a stream that the sender closed |
| Delivery.HeadIsNextByte | rlmp-quic/stream_frame_sorter.go:155-161 | in every run, a frame holding the next unread byte is at the head iff that byte has arrived |
| Delivery.EmitKeepsInv | rlmp-quic/stream_framer.go:393-475 | cutting a frame off the pending bytes keeps the protocol invariant |
| Delivery.SplitKeepsInv | rlmp-quic/stream_framer.go:559-576 | splitting a frame for retransmission keeps the protocol invariant |
| Delivery.DeliverKeepsInv | rlmp-quic/stream_frame_sorter.go:32-144 | delivering any copy of any frame keeps the protocol invariant |
| FlowControl.FlowController.constructor | rlmp-quic/internal/flowcontrol/flow_controller.go:40-60 | the initial windows |
| FlowControl.FlowController.UpdateSendWindow | rlmp-quic/internal/flowcontrol/flow_controller.go:94-100 | the window is raised, never lowered, and the result says whether it changed |
| FlowControl.FlowController.UpdateHighestReceived | rlmp-quic/internal/flowcontrol/flow_controller.go:120-130 | the highest offset is raised by the increment returned; a smaller offset is reported |
| FlowControl.FlowController.AddBytesRead | rlmp-quic/internal/flowcontrol/flow_controller.go:138-145 | read bytes are added and the first read starts the clock |
| FlowControl.FlowController.MaybeUpdateWindow | rlmp-quic/internal/flowcontrol/flow_controller.go:150-169 | an update happens iff less than half an increment is left, and reports the new window and a changed increment |
| FlowControl.FlowController.MaybeAdjustWindowIncrement | rlmp-quic/internal/flowcontrol/flow_controller.go:172-206 | the increment doubles up to its maximum iff updates follow too quickly |
| FlowControl.FlowController.EnsureMinimumWindowIncrement | rlmp-quic/internal/flowcontrol/flow_controller.go:211-216 | the increment is raised to the demand, up to its maximum |
| FlowControl.UpdateWidens | rlmp-quic/internal/flowcontrol/flow_controller.go:150-216 | an update never shrinks window or increment, widens the window when needed, and leaves at least half an increment |
| FlowControl.FlowControlManager.NewStream | rlmp-quic/internal/flowcontrol/flow_control_manager.go:44-53 | a new controller for an unknown stream only |
| FlowControl.FlowControlManager.RemoveStream | rlmp-quic/internal/flowcontrol/flow_control_manager.go:56-60 | the stream's controller is gone and nothing else |
| FlowControl.FlowControlManager.ResetStream | rlmp-quic/internal/flowcontrol/flow_control_manager.go:65-90 | a final offset behind received data is an error, otherwise it counts as received |
| FlowEffects.ResetsAreChecked | rlmp-quic/internal/flowcontrol/flow_control_manager.go:65-90 | a final offset below what was received is refused and changes nothing |
| FlowControl.FlowControlManager.UpdateHighestReceived | rlmp-quic/internal/flowcontrol/flow_control_manager.go:95-130 | stream and connection advance by the same increment, and either violation is reported exactly when it occurs |
| FlowEffects.ViolationsAreFound | rlmp-quic/internal/flowcontrol/flow_control_manager.go:95-130 | an error is reported iff the stream's or the connection's window is exceeded, and which |
| FlowControl.FlowControlManager.AddBytesRead | rlmp-quic/internal/flowcontrol/flow_control_manager.go:133-148 | reads are booked on the stream and, if it contributes, on the connection |
| FlowEffects.ReadsAreBooked | rlmp-quic/internal/flowcontrol/flow_control_manager.go:133-148 | bytes read count for the stream and, if it contributes, for the connection; the first ones start the clock |
| FlowControl.FlowControlManager.AddBytesSent | rlmp-quic/internal/flowcontrol/flow_control_manager.go:188-203 | sends are booked on the stream and, if it contributes, on the connection |
| FlowControl.FlowControlManager.SendWindowSize | rlmp-quic/internal/flowcontrol/flow_control_manager.go:250-265 | the smaller of what stream and connection allow |
| FlowEffects.WindowsCanBeUsedUp | rlmp-quic/internal/flowcontrol/flow_control_manager.go:250-265 | sending all that is available uses up the stream's or the connection's window and exceeds none |
| FlowControl.FlowControlManager.UpdateWindow | rlmp-quic/internal/flowcontrol/flow_control_manager.go:275-291 | raises the window of the stream or, for id 0, of the connection |
| FlowEffects.UpdateOpensWindow | rlmp-quic/internal/flowcontrol/flow_control_manager.go:275-291 | the window that is named, and no other, is raised to at least the offset |
| FlowControl.FlowControlManager.GetWindowUpdates | rlmp-quic/internal/flowcontrol/flow_control_manager.go:150-169 | whatever the order of the map, all windows are updated once and the connection last, with its increment raised by the streams' demands |
| FlowControl.InOrderUpdatesStreams | rlmp-quic/internal/flowcontrol/flow_control_manager.go:150-169 | every stream's window is updated as if it were alone |
| FlowControl.InOrderReturnsUpdates | rlmp-quic/internal/flowcontrol/flow_control_manager.go:150-169 | the updates returned are exactly those that were necessary or forced |
| FlowControl.InOrderRaisesConnection | rlmp-quic/internal/flowcontrol/flow_control_manager.go:155-162 | the connection's increment becomes the largest demand, up to its maximum, in any order |
| FlowControl.WindowUpdatesWiden | rlmp-quic/internal/flowcontrol/flow_control_manager.go:150-169 | a call never shrinks a window and every update carries the window it announces |
| FlowEffects.UpdatesHaveEffect | rlmp-quic/internal/flowcontrol/flow_control_manager.go:150-169 | every stream and the connection have at least half an increment left; a window grows iff less was left, to the bytes read plus the increment; each is announced once with its new value iff that happened or all were asked for, the connection as stream 0; the connection's increment is raised to the largest demand of a stream and no further than its maximum |
| FlowEffects.UpdateHasEffect | rlmp-quic/internal/flowcontrol/flow_controller.go:150-206 | the same for one controller; the increment doubles, up to its maximum, iff the last update was less than two round trips ago |
| FlowLedger.Conservation | rlmp-quic/internal/flowcontrol/flow_control_manager.go:95-203 | in every error-free run the connection's sent, read and received totals are the sums over contributing streams, removed ones included, and read is at most received is at most the window at both levels |
| FlowLedger.WindowsNeverShrink | rlmp-quic/internal/flowcontrol/flow_controller.go:150-216 | in every error-free run receive windows never shrink |
| FlowLedger.CallKeepsInv | rlmp-quic/internal/flowcontrol/flow_control_manager.go:44-203 | every call keeps the accounts balanced |
| FlowProtocol.SenderWindowsAreGranted | rlmp-quic/internal/flowcontrol/flow_controller.go:66-109 | in every run of two parties, sent bytes are within the sender's window and that within the receiver's, for each stream and the connection |
| FlowProtocol.NoViolation | rlmp-quic/internal/flowcontrol/flow_control_manager.go:95-130 | in every run of two parties, no data and no reset that arrives makes the receiver report an error |
| FlowProtocol.GetDataKeepsInv | rlmp-quic/internal/flowcontrol/flow_control_manager.go:95-130 | data that was sent fits the receiver's windows, and receiving it keeps the invariant |
| FlowProtocol.GetResetKeepsInv | rlmp-quic/internal/flowcontrol/flow_control_manager.go:65-90 | the same for resets |
| FlowProtocol.GetUpdateKeepsInv | rlmp-quic/internal/flowcontrol/flow_control_manager.go:275-291 | an old or duplicated WINDOW_UPDATE keeps the invariant |
| FlowProtocol.SendUpdatesKeepInv | rlmp-quic/internal/flowcontrol/flow_control_manager.go:150-169 | announcing new windows keeps the invariant |
| ReceivedHistory.ReceivedPacketHistory.ReceivedPacket | rlmp-quic/ackhandler/received_packet_history.go:28-75 | adds exactly one number, keeps the list canonical, and fails only when too many ranges are tracked |
| ReceivedHistory.ReceivedPacketHistory.DeleteUpTo | rlmp-quic/ackhandler/received_packet_history.go:78-93 | removes exactly the numbers up to the limit and keeps the list canonical |
| ReceivedHistory.ReplaceAdds | rlmp-quic/ackhandler/received_packet_history.go:40-71 | extending, merging or inserting ranges around a number adds that number only |
| ReceivedHistory.DropDeletes | rlmp-quic/ackhandler/received_packet_history.go:78-93 | dropping and cutting ranges deletes the numbers up to the limit only |
| ReceivedHistory.CanonicalIsUnique | rlmp-quic/ackhandler/received_packet_history.go:10-16 | a set of numbers has one canonical list of ranges |
| ReceivedHistory.HistoryRefinesSet | rlmp-quic/ackhandler/received_packet_history.go:28-93 | after any mix of inserts and deletions the list is canonical and holds the numbers that were inserted and not deleted since |
| ReceivedHistory.HistoryIsDetermined | rlmp-quic/ackhandler/received_packet_history.go:28-93 | two runs that leave the same set leave the same list |
| AckFrames.FrameForIsExact | rlmp-quic/ackhandler/received_packet_handler.go:125-148 | the frame made from the ranges passes the frame validation and acknowledges exactly the recorded numbers |
| AckFrames.TruncatedAcksLess | rlmp-quic/internal/wire/ack_frame.go:414-441 | a frame that is cut when written stays well-formed and acknowledges exactly the numbers of the ranges that are kept |
| AckReceiver.ReceivedPacketHandler.ReceivedPacket | rlmp-quic/ackhandler/received_packet_handler.go:46-68 | records the number, queues an ACK or sets the alarm, and returns each error exactly in its case |
| AckReceiver.ReceivedPacketHandler.SetLowerLimit | rlmp-quic/ackhandler/received_packet_handler.go:72-75 | deletes up to the limit |
| AckReceiver.ReceivedPacketHandler.MaybeQueueAck | rlmp-quic/ackhandler/received_packet_handler.go:77-123 | when an ACK becomes due at once, or with a delay |
| AckReceiver.ReceivedPacketHandler.GetAckFrame | rlmp-quic/ackhandler/received_packet_handler.go:125-148 | returns a frame iff one is due; it acknowledges exactly the recorded numbers, and the counters restart |
| AckReceiver.ReceiveKeepsOk | rlmp-quic/ackhandler/received_packet_handler.go:46-68 | the largest observed number stays recorded |
| AckReceiver.LimitKeepsOk | rlmp-quic/ackhandler/received_packet_handler.go:72-75 | a limit keeps the largest observed number recorded iff it is below that number |
| AckReceiver.HighLimitExample | rlmp-quic/ackhandler/received_packet_handler.go:70-75 | a limit at the largest number observed leaves an ACK due and nothing to acknowledge |
| AckReceiver.OldLimitIsForgotten | rlmp-quic/ackhandler/received_packet_handler.go:44-75 | in every run, a number up to an earlier limit is recorded iff it was received since under a lower limit and no limit has reached it again |
| AckReceiver.LimitsAreKept | rlmp-quic/ackhandler/received_packet_handler.go:70-75 | in every run, no number up to a limit is recorded while the limit is not lowered |
| AckReceiver.LateLimitExample | rlmp-quic/ackhandler/received_packet_handler.go:70-75 | packet 4 is recorded although the limit was 5 |
| AckTiming.AckIsDueInTime | rlmp-quic/ackhandler/received_packet_handler.go:77-148 | in every run, from 25 milliseconds after a recorded packet that asks for an ACK one is due until it is sent |
| AckTiming.TwoAreEnough | rlmp-quic/ackhandler/received_packet_handler.go:109-122 | in every run, the second packet that asks for an ACK makes one due at once |
| AckTiming.TwentyAreEnough | rlmp-quic/ackhandler/received_packet_handler.go:89-96 | in every run of a version before 39, twenty packets of any kind do |
| AckTiming.NewsAreDueAtOnce | rlmp-quic/ackhandler/received_packet_handler.go:84-107 | so do the first packet, one that the last ACK reported missing, and one beyond a hole |
| AckTiming.DueOnlyIfReceived | rlmp-quic/ackhandler/received_packet_handler.go:125-148 | after an ACK none is due until another packet is recorded |
| AckTiming.DueOnlyWithReason | rlmp-quic/ackhandler/received_packet_handler.go:77-123 | in every run from version 39 on, after an ACK another is due only once a recorded packet asked for one, was reported missing or left a hole |
| AckSender.DetermineNewlyAcked | rlmp-quic/ackhandler/sent_packet_handler.go:303-377 | one pass over history and ranges returns exactly the packets that the frame acknowledges, and the wrong-packet error cannot occur |
| AckSender.CheckPacket | rlmp-quic/ackhandler/sent_packet_handler.go:311-335 | with the lower ranges left behind, one range decides about a packet |
| AckSender.AdvanceTo | rlmp-quic/ackhandler/sent_packet_handler.go:320-325 | moves to the first range that does not end before the packet |
| AckSender.MergeStep | rlmp-quic/ackhandler/sent_packet_handler.go:319-332 | a packet is acknowledged iff the range reached contains it |
| AckSender.WithoutPart | rlmp-quic/ackhandler/sent_packet_handler.go:517-522 | removing selected packets one by one leaves exactly the others |
| AckSender.SendKeepsOk | rlmp-quic/ackhandler/sent_packet_handler.go:135-183 | sending keeps the history ascending and the bytes in flight equal to its lengths |
| AckSender.AckKeepsOk | rlmp-quic/ackhandler/sent_packet_handler.go:185-262 | an ACK, with the losses it reveals, keeps them |
| AckSender.ClosePathKeepsOk | rlmp-quic/ackhandler/sent_packet_handler.go:264-301 | closing a path keeps them |
| AckSender.AlarmKeepsOk | rlmp-quic/ackhandler/sent_packet_handler.go:479-511 | loss timers, tail loss probes and retransmission timeouts keep them |
| SentPacketHandlers.SentPacketHandler.SentPacket | rlmp-quic/ackhandler/sent_packet_handler.go:135-183 | numbers must ascend, skipped ones are remembered, retransmittable packets enter the history |
| AckEffects.SendIs | rlmp-quic/ackhandler/sent_packet_handler.go:135-183 | numbers must ascend and at most so many packets are tracked; a retransmittable packet is the last of the history and its bytes are in flight; the numbers left out are remembered |
| AckEffects.SkippedAreLatest | rlmp-quic/ackhandler/sent_packet_handler.go:144-150 | of all numbers left out, the latest are remembered |
| SentPacketHandlers.SentPacketHandler.AcknowledgePackets | rlmp-quic/ackhandler/sent_packet_handler.go:224-241 | removing the acknowledged packets one by one leaves the others, and the bytes in flight never underflow |
| SentPacketHandlers.SentPacketHandler.ReceivedAck | rlmp-quic/ackhandler/sent_packet_handler.go:185-262 | the state and the error of every case, in the order of the tests, and the effect of `AckEffects.AckHasEffect` |
| AckEffects.AckHasEffect | rlmp-quic/ackhandler/sent_packet_handler.go:124-262 | an ACK is processed iff it reaches the oldest packet in flight, or is above the largest acknowledged number if there is none; exactly the acknowledged packets leave the history for good, exactly the others up to its largest number that were sent too long ago join the queue in order, the next loss time is that of the oldest one left, and the counters, the skipped numbers and the STOP_WAITING number follow |
| AckEffects.NothingAckedIsLeft | rlmp-quic/ackhandler/sent_packet_handler.go:185-262 | once an ACK has been handled, nothing that it acknowledges is in flight |
| SentPacketHandlers.SentPacketHandler.ReceivedClosePath | rlmp-quic/ackhandler/sent_packet_handler.go:264-301 | the same for CLOSE_PATH, with the effect of `AckEffects.ClosePathHasEffect` |
| AckEffects.ClosePathHasEffect | rlmp-quic/ackhandler/sent_packet_handler.go:264-301 | the acknowledged packets leave, exactly the others up to the largest number acknowledged before join the queue, and the rest stays |
| AckSender.ClosePathLeaves | rlmp-quic/ackhandler/sent_packet_handler.go:264-301 | exactly the packets that it does not acknowledge and that are beyond the largest acknowledged number stay in flight, so the history is empty iff there are none |
| AckSender.ClosePathExample | rlmp-quic/ackhandler/sent_packet_handler.go:264-301 | the first of two packets stays in flight when CLOSE_PATH acknowledges the second |
| SentPacketHandlers.FindOverdue | rlmp-quic/ackhandler/sent_packet_handler.go:423-448 | finds exactly the overdue packets and when the next one will be |
| SentPacketHandlers.SentPacketHandler.DetectLostPackets | rlmp-quic/ackhandler/sent_packet_handler.go:423-455 | exactly the overdue packets move to the retransmission queue |
| SentPacketHandlers.SentPacketHandler.SetInflightAsLost | rlmp-quic/ackhandler/sent_packet_handler.go:457-477 | exactly the packets up to the largest acknowledged one move to the queue |
| SentPacketHandlers.SentPacketHandler.QueuePackets | rlmp-quic/ackhandler/sent_packet_handler.go:599-605 | packets move from history to queue in order, with their bytes |
| SentPacketHandlers.SentPacketHandler.OnAlarm | rlmp-quic/ackhandler/sent_packet_handler.go:479-511 | which packets each kind of alarm queues, as in `AckEffects.AlarmHasEffect` |
| AckEffects.AlarmHasEffect | rlmp-quic/ackhandler/sent_packet_handler.go:479-511 | an alarm queues the late packets if a loss time is set, else the last packet for each of the first probes, else all packets of a failed path or the two oldest ones, and counts probes and timeouts |
| SentPacketHandlers.SentPacketHandler.RetransmitTLP | rlmp-quic/ackhandler/sent_packet_handler.go:562-566 | the newest packet is queued |
| SentPacketHandlers.SentPacketHandler.RetransmitAllPackets | rlmp-quic/ackhandler/sent_packet_handler.go:568-573 | the loop over the oldest packet empties the history into the queue |
| SentPacketHandlers.SentPacketHandler.DequeuePacketForRetransmission | rlmp-quic/ackhandler/sent_packet_handler.go:524-536 | the oldest queued packet leaves the queue |
| AckWaits.DequeueIsFirst | rlmp-quic/ackhandler/sent_packet_handler.go:524-536 | packets are retransmitted in the order in which they were queued |
| SentPacketHandlers.SentPacketHandler.SkippedPacketsAcked | rlmp-quic/ackhandler/sent_packet_handler.go:634-650 | true iff the frame acknowledges a skipped number |
| SentPacketHandlers.SentPacketHandler.GarbageCollectSkippedPackets | rlmp-quic/ackhandler/sent_packet_handler.go:652-661 | which skipped numbers are forgotten |
| SentPacketHandlers.SentPacketHandler.GetStopWaitingFrame | rlmp-quic/ackhandler/stop_waiting_manager.go:16-37 | which least unacked number is announced, and when |
| AckEffects.StopWaitingIs | rlmp-quic/ackhandler/stop_waiting_manager.go:16-37 | the least number still waited for is announced once after it has grown, and the same again only on demand |
| AckWaits.AlarmWaits | rlmp-quic/ackhandler/stop_waiting_manager.go:45-49 | the number for STOP_WAITING becomes the least one above all packets that an alarm queues, and no more |
| AckWaits.ClosePathWaits | rlmp-quic/ackhandler/stop_waiting_manager.go:45-49 | the same for a CLOSE_PATH |
| AckProtocol.AckedWereRecorded | rlmp-quic/ackhandler/sent_packet_handler.go:185-262 | in every run over a lossy, reordering path, each packet dropped as acknowledged was recorded by the peer |
| AckProtocol.NoAckErrors | rlmp-quic/ackhandler/sent_packet_handler.go:185-230 | in every run, no ACK or CLOSE_PATH frame is taken for one of an unsent or skipped packet |
| AckProtocol.DueAckIsExact | rlmp-quic/session.go:590-593 | in every run, STOP_WAITING numbers lie between 1 and their packet's number, the largest observed packet stays recorded, and a due ACK has a range and describes exactly the recorded set |
| AckProtocol.PacketsAreAccountedFor | rlmp-quic/ackhandler/sent_packet_handler.go:135-605 | in every run, the bytes in flight are the lengths in the ascending history, and each retransmittable packet is in exactly one of history, acknowledged, queued and dequeued |
| WaterFilling.ChoosePaths | rlmp-quic/scheduler.go:923-1090 | the volumes are non-negative and sum to the total; no split has an earlier latest finish, and all used paths finish at one time, iff nothing spills over |
| WaterFilling.BandwidthUpTo | rlmp-quic/scheduler.go:979-985 | adds up the bandwidths of the paths so far |
| WaterFilling.CloseGap | rlmp-quic/scheduler.go:994-1015 | all paths so far work for the gap's time, and the inner loop never runs out of volume |
| WaterFilling.ShareOut | rlmp-quic/scheduler.go:1016-1024 | the volume is shared in proportion to bandwidth and used up |
| WaterFilling.Advance | rlmp-quic/scheduler.go:993-1015 | one step of the walk reaches the stage of the next delay |
| WaterFilling.Exhaust | rlmp-quic/scheduler.go:1016-1039 | the last step ends at one common finish time |
| WaterFilling.ShareRest | rlmp-quic/scheduler.go:1054-1073 | what is left is shared by all paths, optimally iff they had all been reached |
| WaterFilling.FilledIsOptimal | rlmp-quic/scheduler.go:923-1090 | a split with one common finish time, not before an unused path's delay, has the smallest latest finish of all splits of its volume |
| WaterFilling.SpilledIsNotOptimal | rlmp-quic/scheduler.go:1049-1051 | a split that spills over to later paths can be improved |
| WaterFilling.DistinctDelaysDoNotSpill | rlmp-quic/scheduler.go:1049-1051 | with pairwise different delays, or at most two paths, nothing spills over |
| WaterFilling.SpillExample | rlmp-quic/scheduler.go:1049-1051 | three paths and a volume for which it does |
| Framer.StreamFramer.MaybeSplitOffFrame | rlmp-quic/stream_framer.go:559-576 | the first bytes become a frame of their own without FIN, the rest keeps its place |
| Framer.StreamFramer.MaybePopFramesForRetransmission | rlmp-quic/stream_framer.go:179-311 | the loop that cuts frames out of the queue, with its index held back, takes what the reference function takes, and counts its bytes |
| Framer.PoppingConserves | rlmp-quic/stream_framer.go:179-311 | every byte and every FIN of the queue is in the popped frames or in the rest, as often as before |
| Framer.PoppingKeepsOthers | rlmp-quic/stream_framer.go:216-311 | frames of other streams stay as they are and in their order, and only selected ones are popped |
| Framer.PoppingFits | rlmp-quic/stream_framer.go:179-311 | headers and data fit, and no room is left that the next selected frame could use |
| Framer.PoppingKeepsSendable | rlmp-quic/stream_framer.go:179-311 | no empty frame without FIN arises |
| Framer.StreamFramer.VisitStream | rlmp-quic/stream_framer.go:393-475 | the callback of a round: the frame, the accounts, the BLOCKED frames, the path's volume and whether to go on |
| FramerEffects.VisitHasEffect | rlmp-quic/stream_framer.go:393-475 | from pending bytes, windows, volume and room: whether a stream sends, exactly which bytes and FIN, what is counted against the windows and the path's volume, who is reported blocked and whether the round goes on |
| FramerEffects.VolumeSteers | rlmp-quic/stream_framer.go:413-449 | a stream with data, open windows and room sends all that these allow; with several paths iff its volume is positive or all its data fits; its volume drops by the bytes sent |
| Framer.StreamFramer.MaybePopNormalFrames | rlmp-quic/stream_framer.go:313-556 | a round visits the streams in order until there is no room |
| Framer.StreamFramer.PopStreamFrames | rlmp-quic/stream_framer.go:47-62 | retransmissions first, new data in what they leave |
| Framer.NewFramesFit | rlmp-quic/stream_framer.go:313-556 | the new frames fit and can be written |
| Framer.NewFramesTakePending | rlmp-quic/stream_framer.go:313-556 | each stream's frames carry the next of its pending bytes at consecutive offsets, and exactly these are booked as sent |
| Framer.NewFramesStayWithin | rlmp-quic/stream_framer.go:402-449 | every stream and the connection stay within the windows the peer granted |
| FramerEffects.RoundUsesRoom | rlmp-quic/stream_framer.go:313-556 | after a round no visited stream has something left that it may send, unless there is no room for one of them |
| Framer.AllFramesFit | rlmp-quic/stream_framer.go:47-62 | retransmissions and new frames together fit and can be written |
| FrameLengths.StreamIdLenIsLeast | rlmp-quic/internal/wire/stream_frame.go:153-162 | a stream id takes the fewest bytes that hold it |
| FrameLengths.OffsetLenIsLeast | rlmp-quic/internal/wire/stream_frame.go:164-187 | an offset takes none if it is zero and else the fewest bytes that hold it, at least two |
| FramerEffects.AllFramesUseRoom | rlmp-quic/stream_framer.go:47-62 | the same for retransmissions and new data together |
| Packer.PacketPacker.PopControlFrames | rlmp-quic/packet_packer.go:418-430 | takes control frames from the end of the queue while they fit |
| Packer.TakenControlsFit | rlmp-quic/packet_packer.go:418-430 | the frames taken are the end of the queue backwards, they fit, and the next one does not |
| PackerEffects.ControlsAreTaken | rlmp-quic/packet_packer.go:400-430 | STOP_WAITING and ACK come first, then as many control frames as fit, from the end of the queue; the others stay |
| Packer.PacketPacker.ComposeNextPacket | rlmp-quic/packet_packer.go:392-460 | the payload never exceeds the limit although the framer may exceed it by two bytes; it fails iff STOP_WAITING and ACK alone are too large; BLOCKED frames are queued |
| PackerEffects.PacketUsesRoom | rlmp-quic/packet_packer.go:440-453 | no stream is left with something that it may send, unless the packet has no room for a byte behind one's header |
| PackerEffects.BlockedAreAnnounced | rlmp-quic/packet_packer.go:455-457 | each report of a blocked stream becomes a queued BLOCKED frame, in order; if new data has used up the connection's window, one of them is for the connection |
| Packer.StreamsFit | rlmp-quic/packet_packer.go:440-448 | omitting the last length saves the two bytes |
| Packer.PacketPacker.WriteAndSealPacket | rlmp-quic/packet_packer.go:694-727 | when a packet is too large or holds a frame that cannot be written |
| Framer.StreamFramer.PopCryptoStreamFrame | rlmp-quic/stream_framer.go:165-177 | the longest prefix of the crypto stream's pending bytes that fits leaves the stream |
| Packer.PacketPacker.PackCryptoPacket | rlmp-quic/packet_packer.go:368-390 | a packet with the next bytes of the crypto stream alone, at least 50 bytes below the maximum |
| Packer.PacketPacker.PackPacket | rlmp-quic/packet_packer.go:128-185 | neither of these errors occurs and a packet has at most the maximum size; crypto data goes first and alone, a PING is sent iff no STOP_WAITING is pending, other packets hold STOP_WAITING, ACK, control and STREAM frames in this order, and a pending ACK is lost iff a PING is sent |
| CertCompression.CompressChain | rlmp-quic/internal/crypto/cert_compression.go:29-90 | the loops write the entry list, the length and the deflated certificates |
| CertCompression.BuildEntries | rlmp-quic/internal/crypto/cert_compression.go:197-228 | cached first, then the first known common set that holds the certificate, else compressed |
| CertCompression.FindInSets | rlmp-quic/internal/crypto/cert_compression.go:208-223 | the first set and the first position that hold the certificate |
| CertCompression.BuildZlibDict | rlmp-quic/internal/crypto/cert_compression.go:230-243 | the known certificates in reverse order, then the fixed dictionary |
| CertCompression.ReadHashes | rlmp-quic/internal/crypto/cert_compression.go:245-255 | eight bytes per hash, or an error for other lengths |
| CertCompression.DecompressChain | rlmp-quic/internal/crypto/cert_compression.go:92-195 | the reading loops compute the decompressed chain or the first error |
| CertCompression.ReadEntries | rlmp-quic/internal/crypto/cert_compression.go:99-142 | the entry list, with its errors; the end of the data ends it |
| CertCompression.FillCerts | rlmp-quic/internal/crypto/cert_compression.go:163-191 | certificates go to the next entry that needs one, with a 32-bit sum |
| CertCompression.EntriesAreNamed | rlmp-quic/internal/crypto/cert_compression.go:197-228 | a common entry names its certificate, and an entry is cached iff the peer listed the hash |
| CertEffects.EntryIsExact | rlmp-quic/internal/crypto/cert_compression.go:197-228 | a certificate is sent as cached iff the peer has it, else by its first place in the first named set that holds it, and in full iff no named set does |
| CertEffects.CommonIsFirst | rlmp-quic/internal/crypto/cert_compression.go:208-223 | the set is the first that holds the certificate and the place the first in it; there is none iff no named set holds it |
| CertCompression.ParsedList | rlmp-quic/internal/crypto/cert_compression.go:99-142 | the written list is read back with the certificates it names |
| CertCompression.SameDictionary | rlmp-quic/internal/crypto/cert_compression.go:230-243 | both sides build the same dictionary |
| CertCompression.FilledRestores | rlmp-quic/internal/crypto/cert_compression.go:163-191 | filling in the inflated certificates restores the chain |
| CertCompression.RoundTrip | rlmp-quic/internal/crypto/cert_compression.go:29-195 | decompressing a compressed chain gives the chain, unless it holds a certificate listed as cached, and then the error for that |
| StreamsMap.Streams.GetOrOpenStream | rlmp-quic/streams_map.go:158-221 | the loop opens the peer's ids up to the one asked for, until one fails |
| StreamsMap.Streams.OpenRemoteStream | rlmp-quic/streams_map.go:346-370 | limits, counters and the new stream |
| StreamsMap.Streams.OpenStreamImpl | rlmp-quic/streams_map.go:418-436 | the next own id is opened unless the limit is reached |
| StreamsMap.Streams.PutStream | rlmp-quic/streams_map.go:922-937 | a new id is added to map and list, an existing one is refused |
| StreamsMap.Streams.RemoveStream | rlmp-quic/streams_map.go:941-982 | the id leaves map and list, and counters and indices follow |
| StreamsMap.Streams.RoundRobinIterate | rlmp-quic/streams_map.go:664-697 | visits streams in round order, stops exactly when the callback says so, and moves the index by the number of visits other than to 1 and 3 |
| StreamsMap.NextRoundGoesOn | rlmp-quic/streams_map.go:681-694 | the next round starts as many places later in the list |
| StreamRounds.RemoveKeepsRounds | rlmp-quic/streams_map.go:955-968 | removing a stream leaves the order of the next round, and of the next round of sending, as it was for all others |
| StreamsMap.RoundVisitsAllOnce | rlmp-quic/streams_map.go:664-697 | the round order contains each live stream exactly once |
| StreamsMap.PeerIdsOpenInOrder | rlmp-quic/streams_map.go:158-221 | in every run, the peer's ids are opened once each, in order and without holes, up to the highest |
| StreamsMap.RemovedStaysRemoved | rlmp-quic/streams_map.go:941-982 | in every run, a removed stream never becomes live again |
| StreamsMap.ListAndCountersAgree | rlmp-quic/streams_map.go:346-436 | in every run, the list holds exactly the live ids without repetition, the counters are the numbers of even and odd live streams, and a round visits each once |
| StreamsMap.AnswersAreRight | rlmp-quic/streams_map.go:158-221 | in every run, a live id is returned, an id that was removed, is 0 or is the next own one is reported closed, a later own id is invalid, and any other is opened or refused; the test for ids far behind never fails |
| StreamsMap.ClosedIsExact | rlmp-quic/streams_map.go:173-195 | in every run, an id is reported closed iff it was removed, is 0, or is the own id to be opened next, which is neither live nor removed |
| StreamsMap.ServerKeepsLimits | rlmp-quic/streams_map.go:346-370 | in every run, a server has at most the allowed streams of either kind |
| StreamsMap.RefusalsAreExact | rlmp-quic/streams_map.go:346-436 | in every run, a server refuses a new id of the peer iff opening all ids up to it exceeds the limit, a client iff it has as many odd streams, its own; opening a stream fails iff there are as many even streams as allowed |
| StreamsMap.ClientOpensAny | rlmp-quic/streams_map.go:346-370 | a run in which a client opens any given number of the server's streams |
| StreamsMap.PeerIsLimitedOnServer | rlmp-quic/streams_map.go:346-370 | the peer's live streams keep to their limit in all runs iff this is a server or the limit is zero |
| StreamsMap.OwnIsLimitedOnServer | rlmp-quic/streams_map.go:418-436 | our own live streams keep to their limit in all runs iff this is a server or the limit is zero |
| StreamPaths.StreamToPath.Find | rlmp-quic/streamToPath.go:30-45 | whether a path is listed for a stream |
| StreamPaths.StreamToPath.Add | rlmp-quic/streamToPath.go:13-27 | appends the path unless it is listed |
| StreamPaths.StreamToPath.DeleteOne | rlmp-quic/streamToPath.go:60-87 | the loop with its index rollback removes exactly that path and keeps the order of the others |
| StreamPaths.StreamToPath.Delete | rlmp-quic/streamToPath.go:90-101 | removes the stream's entry |
| StreamPaths.Session.AssignPath | rlmp-quic/scheduler.go:155-225 | an unassigned stream is put on the selected paths in all four places |
| StreamPaths.Session.CollectStream | rlmp-quic/session.go:1229-1272 | a finished stream is taken out of all four places |
| StreamPaths.Session.ClosePath | rlmp-quic/session.go:820-869 | the path is taken from its streams one by one until one does not have it, its number is deleted and its list is kept; a second time nothing changes |
| StreamPaths.AssignKeepsStreams | rlmp-quic/scheduler.go:155-244 | a stream that was on no path is then on the given ones in order, and what is listed for a stream has a volume and is listed for the path |
| StreamPaths.AssignKeepsPath | rlmp-quic/scheduler.go:155-244 | every path still lists each of its streams once and no others, and its number counts them |
| PathEffects.AssignHasEffect | rlmp-quic/scheduler.go:155-244 | exactly the given paths get the stream at the end of their lists, a volume of zero and, unless it is 1 or 3, one more in their number; other streams and paths stay |
| StreamPaths.ForgetKeepsInv | rlmp-quic/session.go:1229-1272 | the four places agree after a stream has finished iff it is not 1 or 3 or was on no path |
| StreamPaths.HeaderStreamExample | rlmp-quic/session.go:1263 | a path whose only stream was the header stream ends with the number 2^64 - 1 |
| StreamPaths.CloseKeepsInv | rlmp-quic/session.go:820-869 | the four places agree after a path was closed iff it had no stream |
| StreamPaths.ClosedPathExample | rlmp-quic/session.go:841-869 | a closed path still lists the stream that was taken from it |
| StreamPaths.ClosingSucceeds | rlmp-quic/session.go:820-869 | in every run, closing an open path meets no error, and then no stream lists the path or has a volume on it |
| StreamPaths.IndicesAgree | rlmp-quic/scheduler.go:155-244 | in every run of assignments, finished streams and closed paths, a path is in a stream's list iff there is a volume for it, and for a path that is not closed iff the stream is in the path's list, without repetition |
| StreamPaths.NumbersAgree | rlmp-quic/session.go:1229-1272 | in every run, the number of an open path counts its streams other than 1 and 3 iff no stream 1 or 3 has finished on it, up to multiples of 2^64 |
| Cubic.CubicObject.CongestionWindowAfterAck | rlmp-quic/congestion/cubic.go:146-223 | the state and window after an ACK, with 64-bit wrap-around of both products and of the target |
| Cubic.CubicObject.CongestionWindowAfterPacketLoss | rlmp-quic/congestion/cubic.go:130-140 | the reduced window, which is smaller, and the remembered maximum |
| Cubic.LossShrinks | rlmp-quic/congestion/cubic.go:130-140 | a loss shrinks a positive window and aims the curve at most at the window before it, and lower if the last maximum was not reached |
| Cubic.CubicObject.OnApplicationLimited | rlmp-quic/congestion/cubic.go:112-125 | the start of the first such period is kept |
| Cubic.CubicObject.UpdateEstimate | rlmp-quic/congestion/cubic.go:203-211 | the loop of the TCP estimate ends, and with too few ACKs for another step |
| Cubic.CurveGrows | rlmp-quic/congestion/cubic.go:184-199 | the target never decreases with time |
| Cubic.CurveStaysAboveStart | rlmp-quic/congestion/cubic.go:163-199 | from the start of the epoch on, the target is at least the window of that time, so the subtraction does not underflow |
| Cubic.CurveIsAtLeast | rlmp-quic/congestion/cubic.go:184-199 | the curve is at least the start window iff the time is within a reach of the origin point |
| Cubic.ProductFits | rlmp-quic/congestion/cubic.go:193 | the scaled cube fits a signed 64-bit number iff the offset is at most 282294 |
| Cubic.MachineIsExact | rlmp-quic/congestion/cubic.go:186-199 | 64-bit arithmetic yields the curve's value iff this is an unsigned 64-bit number and the overflows of the product cancel out |
| Cubic.TargetsFollowCurve | rlmp-quic/congestion/cubic.go:146-214 | in every run, with any clock and delays, the target that an ACK computes is the curve's value and at least the epoch's start window iff the time is in reach and the product does not overflow |
| Cubic.TimelyAcksFollowCurve | rlmp-quic/congestion/cubic.go:146-214 | in every run, this holds within 282294 time units of the origin point if neither the clock nor an application-limited period goes back before the epoch |
| Cubic.AcksStayAboveStart | rlmp-quic/congestion/cubic.go:146-223 | in every run, an ACK within an epoch never returns less than the epoch's start window |
| CubicEffects.ResultIsLarger | rlmp-quic/congestion/cubic.go:146-223 | in every run, an ACK returns the larger of the target and the estimate, whether these are computed anew or not |
| CubicEffects.TimelyAcksReturnCurve | rlmp-quic/congestion/cubic.go:146-223 | in every run, a timely ACK returns at least the value of the curve |
| CubicEffects.EpochIs | rlmp-quic/congestion/cubic.go:157-179 | an epoch starts at its first ACK and aims at the larger of the window and the last maximum; the curve stands still while the application is limited |
| CubicEffects.UpdatesAreSpaced | rlmp-quic/congestion/cubic.go:150-155 | only the count changes if the window is the same as at the last update, 30 milliseconds ago or less |
| CubicEffects.AppLimitedIs | rlmp-quic/congestion/cubic.go:112-125 | the start of an application-limited period is kept |
| CubicEffects.ElapsedIs | rlmp-quic/congestion/cubic.go:181-184 | the time since the epoch plus a round trip, in fractions of 1024 of a second, rounded down |
| CubicEffects.CurveIs | rlmp-quic/congestion/cubic.go:186-199 | the curve lies below the origin point before it and above it afterwards, by the scaled cube of the time between |
| CubicEffects.EstimateIsExact | rlmp-quic/congestion/cubic.go:203-211 | all ACKs are spent on growth but those that do not suffice for another step |
| CubicEffects.RequiredIs | rlmp-quic/congestion/cubic.go:205 | a step takes as many ACKs as the estimate holds multiples of alpha |
| CubicEffects.AlphaIs | rlmp-quic/congestion/cubic.go:94-110 | the growth factor follows from the factor of a loss |
| CubicEffects.TimeIsExact | rlmp-quic/congestion/cubic.go:167 | where the product fits, the time to the origin point is the exact integer cube root |
| CubicEffects.LossIsExact | rlmp-quic/congestion/cubic.go:130-140 | a loss leaves the emulated connections' share, rounded down, and the curve is then aimed at the window before it or at 85 percent of that |
| Cubic.LateEpochExample | rlmp-quic/congestion/cubic.go:170-199 | two ACKs after a period that began before the epoch put the curve below zero and the target above 2^63 |
| Cubic.LongEpochExample | rlmp-quic/congestion/cubic.go:186-199 | five minutes into an epoch the target is above 2^63 although the curve is not |
| Olia.GetMaxCwnd | rlmp-quic/congestion/olia_sender.go:124-131 | the largest window |
| Olia.GetBest | rlmp-quic/congestion/olia_sender.go:165-172 | what the loop finds in the order of the map; no path is better if that holds of all paths that can win, as it does if products fit and no path is blank, or if all are equal |
| Champions.WinnersReachAll | rlmp-quic/congestion/olia_sender.go:165-172 | for any total comparison, the loop can end with a candidate in some order iff a chain of comparisons leads from it to every other |
| Olia.BestIffWinnersAre | rlmp-quic/congestion/olia_sender.go:165-172 | with 64-bit products, the loop finds a best path in every order iff no path is better than one from which a chain of comparisons leads to all |
| Olia.TopIffWinnersTell | rlmp-quic/congestion/olia_sender.go:164-187 | with 64-bit products, the paths that count as best are in every order those that none is better than iff this holds against every path that can win |
| Olia.BestNextToBlank | rlmp-quic/congestion/olia_sender.go:165-172 | with a path that has zero bytes and zero round-trip time, the loop finds a best path in every order iff all paths are equally good |
| Olia.BestUnlessBlank | rlmp-quic/congestion/olia_sender.go:165-172 | where products fit, it does so iff no path is blank, or all paths are equally good |
| Olia.BlankExample | rlmp-quic/congestion/olia_sender.go:165-172 | an order in which a blank path hides the best one |
| Olia.WrapExample | rlmp-quic/congestion/olia_sender.go:165-172 | at 50 milliseconds, a path with 4000 bytes between losses loses against one with 3000 in either order |
| Olia.CountPaths | rlmp-quic/congestion/olia_sender.go:174-187 | how many paths have the largest window, and how many of the others are best, with counters of eight bits |
| Olia.BytesAreEnough | rlmp-quic/congestion/olia_sender.go:159-187 | with at most 256 paths the wrap-around of these counters never matters |
| OliaEffects.BytesAre | rlmp-quic/congestion/olia.go:49-51 | the larger of the bytes since the last loss and of those between the last two |
| Olia.OliaSenders.GetEpsilon | rlmp-quic/congestion/olia_sender.go:150-211 | every sender's correction |
| Olia.EpsilonsCancel | rlmp-quic/congestion/olia_sender.go:150-211 | the signed corrections of all paths sum to exactly zero and have positive denominators, whatever the comparison of paths says |
| OliaEffects.EpsilonMovesTraffic | rlmp-quic/congestion/olia_sender.go:174-211 | epsilon is positive exactly for best paths without the largest window, negative for those with it if there is such a path, and each side shares equally |
| Olia.AsGoodIsBest | rlmp-quic/congestion/olia_sender.go:164-187 | where products fit and no path is blank, the paths that count as best are in every order those that none is better than |
| Olia.GetRate | rlmp-quic/congestion/olia_sender.go:133-148 | the same square of the weighted sum of windows in any order of the map, with wrap-around |
| OliaEffects.RateIsExact | rlmp-quic/congestion/olia_sender.go:133-148 | where products fit, the rate is the square of one more than the weighted windows of all paths, in any order |
| Olia.CongestionWindowAfterAck | rlmp-quic/congestion/olia.go:63-92 | window and counter after an ACK, with 64-bit wrap-around |
| Olia.OliaSenders.MaybeIncreaseCwnd | rlmp-quic/congestion/olia_sender.go:213-232 | slow start, or the corrections, the rate of all senders and then the window |
| OliaEffects.IncreaseIs | rlmp-quic/congestion/olia_sender.go:213-232 | slow start adds a packet; a window that is not used or at its maximum stays; else all corrections are set and only this path's window moves |
| Olia.AckMovesByOne | rlmp-quic/congestion/olia.go:63-92 | an ACK moves the window by at most one packet, within 1 and its maximum, and leaves the counter strictly between -1023 and 1023 |
| OliaEffects.AckIsExact | rlmp-quic/congestion/olia.go:63-92 | where products fit, the window is raised by one iff the counter plus the increment, in exact integers, reaches 1023 and it is below its maximum, and lowered by one iff the sum reaches -1023 and it is above 1 |
| OliaEffects.LoweredOnlyIfNegative | rlmp-quic/congestion/olia.go:63-92 | where products fit, a window is lowered only with a negative epsilon, and only if the square of the scaled window is below the rate |
| OliaEffects.SinglePathExample | rlmp-quic/congestion/olia.go:63-92 | one path with window 10 gains a tenth of a packet |
| Olia.IncreaseKeepsOk | rlmp-quic/congestion/olia_sender.go:213-232 | an ACK on one path leaves the other windows alone and all senders in order |
| Olia.LossKeepsOk | rlmp-quic/congestion/olia_sender.go:248-288 | a loss never raises the window above the larger of itself and the minimum |
| OliaEffects.LossIs | rlmp-quic/congestion/olia_sender.go:248-288 | a loss leaves the emulated connections' share, or one packet less in slow start with large reduction, but at least two |
| OliaEffects.LostAgainIs | rlmp-quic/congestion/olia_sender.go:251-264 | a further loss of a cutback with large reduction takes a packet, down to two, and the threshold follows the window |
| OliaEffects.TimeoutIs | rlmp-quic/congestion/olia_sender.go:296-305 | a timeout starts over with the smallest window and half the old one as threshold |
| Olia.WindowsStayInBounds | rlmp-quic/congestion/olia_sender.go:213-305 | in every run of ACKs, losses and timeouts over any set of paths, windows and counters stay in bounds |

## Left out

- End-of-stream timing: the sorter keeps the FIN on a frame whose end it cuts, so only bytes are claimed, not when the end is reported.
- `stream_tree.go`: its weights are added and removed by different amounts and keep no invariant.
- Reset, cancellation and deadlines of streams; a blocking `Read` or `Write` is a sequence of calls that do not wait.
- Packets that hold only a CONNECTION_CLOSE or an ACK.
- Wire encodings, packet-number inference, and parsing; lengths of control frames are given and are what the frames write.
- Monotonicity of the least unacked number: a later ACK may lower the largest acknowledged one.
- `DuplicatePacket`, round-trip estimation and the hooks from the sent-packet handler into congestion control.
- `GetClosePathFrame` on a path that has received nothing, where the Go code indexes an empty list.
- Handshake, encryption, sockets, timers and goroutines.
- `getRetransmissionOfPath`, which hands the frames of dequeued packets to the framer; both ends of that hand-over are modelled.
- The learning agent and its middleware: which paths it names is a parameter.
- Path selection by priority (`PriorityIteratePopOfPath`, `findPath`): the order in which streams are visited is a parameter.
- The variants of a function that differ only in creating a stream with a priority or size.
- 32-bit wrap-around of stream ids and packet numbers.
- Framer.StreamFramer.VisitStream: flow controllers and streams are held as values here, so sharing them with other objects is not captured.
- Framer.StreamFramer.PopStreamFrames: the counters of retransmitted bytes are not modelled.
- Framer.StreamFramer.MaybePopFramesForRetransmission: the counters of retransmitted bytes are not modelled.
- Stream.StreamObject.AddStreamFrame: the flow-control update that precedes it is modelled in `FlowControl` and `FlowProtocol`, not here.
- Stream.StreamObject.ReadHead: booking the bytes with flow control is modelled in `FlowControl` and `FlowProtocol`, not here.
- Stream.StreamObject.Read: does not wait, and has no deadline or error.
- SentPacketHandlers.SentPacketHandler.SentPacket: does not model the alarm or the hook of congestion control.
- SentPacketHandlers.SentPacketHandler.ReceivedAck: does not model round-trip estimation, the alarm or the hooks of congestion control.
- SentPacketHandlers.SentPacketHandler.ReceivedClosePath: does not model the hooks of congestion control.
- SentPacketHandlers.SentPacketHandler.OnAlarm: does not model the hooks of congestion control; whether the path has failed is a parameter.
- CertCompression.RoundTrip: is stated for less than 2^32 bytes of certificates to send, because the length field has 32 bits, and reads from zlib are taken to be complete.
- Cubic.CubicObject.CongestionWindowAfterAck: the cube root and the quotient of the estimate are exact, while the Go code rounds them to floating-point numbers.
- Cubic.LossShrinks: the factors are real numbers; with 32-bit floating point a window above 2^24 is rounded.
- Olia.LossKeepsOk: the factor is a real number; the Go code rounds it to 32 bits.
- StreamPaths.NumbersAgree: says nothing of a closed path, whose number is deleted and whose list is stale.
- Delivery.ReadReturnsWhatArrived: does not bound when a lost frame is sent again.
