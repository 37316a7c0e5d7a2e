# Verification of the SB device protocol

A model, in Dafny, of a vehicle ADAS/DMS unit that talks to its host over the SB byte protocol, and
proofs of what the unit keeps over whole byte streams, whole runs and all interleavings of its
threads. Check it with `dafny verify dfyconfig.toml`.

| file | models |
|---|---|
| `Bytes.dfy` | bytes, big-endian fields, byte sums, sequence identities |
| `Stuffing.dfy`, `Deframing.dfy` | byte stuffing (the rule of section 4.4.2 of JT/T 808-2011) in place, and the stream decoder |
| `Frames.dfy`, `Receiving.dfy` | frame layout, additive checksum, dispatch, replies built in the receive buffer |
| `Serials.dfy` | the two serial counters |
| `SendQueue.dfy`, `Sending.dfy`, `StopAndWait.dfy` | the bounded queue, the semaphore protocol and the stop-and-wait sender |
| `MediaTransfer.dfy`, `MediaHost.dfy` | upload of media files in 64 KiB chunks, and what a host makes of it |
| `MediaRequests.dfy` | the receive loop and the upload together |
| `Params.dfy` | the parameter stores |
| `WarningReports.dfy` | media ids, recorder jobs, report building and file retention |
| `AdasAlerts.dfy`, `DmsAlerts.dfy` | the two alarm machines |
| `AdasRuns.dfy`, `DmsRuns.dfy` | what they report over a run, on the raw bytes |
| `Heartbeat.dfy` | the watchdog |
| `Upgrade.dfy` | reception of an upgrade image |

Each component has the same shape: a pure step function on a state, runs as sequences of events,
lemmas over all runs, and a class or in-place method, written like the code, that is proved to take
exactly that step. Concurrent parts are interleavings of atomic steps; a step that is not enabled
changes nothing, so every sequence of steps is a run.

## What the code does not keep

Some laws one would expect are false of the code. The model follows the code; a lemma names a failing
case and another gives the exact condition.

- **First frame after noise.** A restart on an early mark keeps the escape flag (process.cpp:2936-2943),
  so the frame after line noise may be misread (`StaleEscapeLosesFrame`). `FirstFrameKept` is the exact
  condition; every later frame is received (`OneFrameSynchronises`, `SelfSynchronises`).
- **Factory reset.** After replying, the handler reads the device id from the buffer that now holds the
  escaped reply (process.cpp:2689-2692). If a byte of the serial is 0x7D or 0x7E the id has moved and
  nothing is reset (`FactoryResetTakesEffect`).
- **Serial bytes are not under the checksum** (`AlteredByteDetected`).
- **Own serials need not rise above those in use.** They do as long as the counter has not wrapped
  (`OwnSerialAboveReceived`); after a wrap they may not (`BelowUsedAfterWrap`).
- **A link check that fails burns a permit** and can strand a message (`DownCheckStrands`). The sender can
  empty the queue if and only if permits and outstanding posts cover it (`DrainableExactly`), which holds
  if no check failed since the queue was last empty (`NothingStranded`).
- **A stray acknowledgement notice releases the next message** (`StrayNoticeReleases`). A pending notice
  is exactly what keeps a transmitted message from being sent again or given up
  (`PendingNoticeExactly`, `PendingNoticeReleases`); with none pending, an acknowledgement is fresh
  (`AcknowledgementIsFresh`).
- **A full send queue loses a media chunk.** The result of the push is ignored and the chunk counted as
  sent (process.cpp:812, 2305), so the transfer waits for an acknowledgement that cannot come
  (`FullQueueLosesChunk`, `RefusedChunkStalls`). The host gets the whole file if and only if no push was
  refused (`QueuedExactly`, `HostRecoversFile`).
- **An acknowledgement of another media file counts.** Only its index is compared (process.cpp:2222): a
  late one from a given-up transfer advances the next (`LateAckAdvances`). `AckAdvances` is the exact
  condition; within one transfer each index advances once (`OneAdvancePerChunk`).
- **Every BEGIN has an END** is intended by the comment at process.cpp:2033, but the jumps at
  process.cpp:1949 and 1973 skip the headway branch and still store the new level
  (`SpeedFilterLosesEnd`). BEGIN and END alternate in every run that takes no such jump while leaving
  RED (`BeginEndAlternate`), which is the only way the invariant breaks (`OpenIsRedStep`), and after
  such a jump the next close approach can repeat the BEGIN (`LostEndRepeatsBegin`); `AlternatesExactly`
  is the exact condition.
- **Watchdog patience is not always renewed by connecting.** A receive error reconnects without marking
  the link down (process.cpp:2884-2895), so quiet checks counted before still count
  (`ReconnectInheritsCount`); `ConnectPatience` is the exact condition, and it always holds for a link
  that was marked down.
- **A second upgrade session inherits offset and sum** (`TotalsRunOn`). It is refused and misplaced even
  if honest (`RepeatedImageRefused`), except exactly as `SessionRebuilds` and `HonestSessionInstalls` say.
- **A clean command within a session** empties the file but not the running sum, so a damaged image can
  be installed (`CleanedSessionInstalls`).

## Model

| member | source | states |
|---|---|---|
| `Stuffing.StuffShape` | process.cpp:710-737 | stuffed text holds no raw 0x7E and is longer than its source by exactly the number of 0x7E and 0x7D bytes |
| `Stuffing.EscapedShape` | process.cpp:710-737 | head and tail survive, no mark is left between them, and the length is the old one plus the special interior bytes, at most 2*(len-2)+2 |
| `Stuffing.StuffOne` | process.cpp:717-734 | one turn of the memmove loop replaces the byte at `i` by its code and moves exactly the rest of the message up |
| `Stuffing.EscapeInPlace` | process.cpp:710-737 | the in-place loop computes the byte-by-byte stuffing map, for every message whose result fits the buffer, and touches nothing beyond the result |
| `Deframing.RunConcat` | process.cpp:2914-2973 | decoding a concatenation is decoding its parts one after the other, so state carries over and output is appended |
| `Deframing.FrameReceived` | process.cpp:2914-2973 | from idle, or just after a head mark, an encoded frame of 7 to `limit` bytes is delivered exactly and the decoder ends idle |
| `Deframing.StaleBody` | process.cpp:2936-2943 | after a restart that keeps the escape flag, only the first body byte is misread: the exact buffer then held, with the rest of the frame as sent, and the exact case in which it overflows |
| `Deframing.StaleEscapeLosesFrame` | process.cpp:2936-2968 | after a lone head mark and escape byte, the next frame is delivered if and only if its checksum byte is none of 0x01, 0x02, 0x7D and 0x7E |
| `Deframing.OneFrameSynchronises` | process.cpp:2904-2973 | from every decoder state one encoded frame leaves it synchronised with at most one delivery, and the frame itself is delivered if and only if `FirstFrameKept` holds |
| `Deframing.StreamRoundTrip` | process.cpp:2904-2973 | any number of encoded frames decode to exactly those frames, in order |
| `Deframing.SelfSynchronises` | process.cpp:2904-2973 | from any state and after any noise, every well-formed frame but possibly the first is delivered, in order, with nothing after them and the decoder idle |
| `Deframing.ReadBoundariesInvisible` | process.cpp:2751-2780 | cutting the stream into reads in any way changes neither the deliveries nor the final state |
| `Deframing.SplitStreamRoundTrip` | process.cpp:2751-2780 | however an encoded stream is split into reads, exactly its frames come out |
| `Deframing.DeliveredShape` | process.cpp:2934-2953 | from any state, every delivered frame has 7 to `limit` bytes and ends in a mark |
| `Deframing.Deframer.Unescape` | process.cpp:2914-2973 | the byte-at-a-time decoder over its buffer refines the pure step: next state, and the frame now at the start of the buffer exactly when one is delivered |
| `Frames.BuiltFrameAccepted` | process.cpp:739-806 | every built frame passes the receiver's checksum and parses back to its serial, device, command and payload |
| `Frames.MessageCrossesLine` | process.cpp:739-806 | built, escaped, decoded and parsed, a message arrives unchanged and alone |
| `Frames.AlteredByteDetected` | process.cpp:692-709 | one altered byte is rejected if and only if it is the checksum or lies between the vendor id and the tail; head, tail and serial are unprotected |
| `Frames.DispatchExactly` | process.cpp:2665-2748 | a built message is handled by its command, 0x2F to 0x38 or 0x50 to 0x52, if and only if it is addressed to this device or to all; a frame that fails its checksum is not |
| `Frames.NoHandlerOnShortFrame` | process.cpp:2650-2749 | no command handler runs on a delivered frame of fewer than 9 bytes, whatever the stream |
| `Frames.ShortFrameNotAddressed` | process.cpp:2665-2677 | a delivered frame of 7 bytes has its tail mark where the device id is read and so is never addressed to the device, although the code tests no length |
| `Frames.CalcSum` | process.cpp:692-709 | the 32-bit accumulation loop returns the covered bytes' sum modulo 256 |
| `Frames.BuildMessage` | process.cpp:739-806 | filling the header, copying the payload, patching the checksum and escaping in place leaves the encoded frame of the message at the front of the buffer |
| `Receiving.FactoryResetTakesEffect` | process.cpp:2689-2692 | a factory reset order resets this device if and only if neither byte of its serial number is 0x7D or 0x7E; otherwise it is acknowledged and nothing is reset |
| `Receiving.OutboxOfAnswered` | process.cpp:2682-2732 | for any stream of commands to any device, the replies built in place are the encoded answers to the queries, resets and successful media requests, in order, and the resets done are those whose serial needs no stuffing |
| `Receiving.CountersAfter` | process.cpp:2679-2680 | after any stream of commands the serial counters are those of one receipt per message for this device, answered or not |
| `Receiving.ConversationAnswered` | process.cpp:2650-2780 | a host that decodes the joined replies to any stream of commands reads exactly one frame per query, reset and successful media request, in order, each with its command's serial |
| `Receiving.Receiver.OnCmd` | process.cpp:2650-2749 | address filter, serial recording and the replies written over the command, as one step on the station's state; the verdict on each media request may depend on all that went before |
| `Receiving.Receiver.ProtParse` | process.cpp:2751-2780 | one read leaves the decoder and the handled commands a function of the byte stream alone, although replies are built inside the receive buffer |
| `Serials.OwnSerialsClosedForm` | process.cpp:656-682 | the k-th own serial with no receipt in between, across the 0xFF and 0xFFFF wraps |
| `Serials.OwnSerialsDistinct` | process.cpp:656-682 | any 256 consecutive own messages with no receipt in between have pairwise distinct serials |
| `Serials.OwnSerialsRepeat` | process.cpp:656-682 | 256 is tight: the 257th repeats the first once the counter is below 0x100 |
| `Serials.ReplySerial` | process.cpp:781-786 | a reply carries the serial of the command received last, whatever was sent in between |
| `Serials.OwnSerialAboveReceived` | process.cpp:656-682 | in every run in which the counter has not wrapped yet, the next own serial exceeds all serials sent and received so far if and only if the counter is not at a wrap |
| `Serials.BelowUsedAfterWrap` | process.cpp:656-682 | after a wrap it can fail away from any wrap: a run whose next own serial is 6 although 0xFD was used before |
| `Serials.SerialNumbers.GetNextSendNum` | process.cpp:656-682 | the next own serial, including the branch at 0xFF that leaves the caller's 0 standing |
| `Serials.SerialNumbers.RecordRecvNum` | process.cpp:656-682 | receipt of a command records its serial and raises the send counter to it |
| `SendQueue.FirstInFirstOut` | common.cpp:53-164 | in every run of pushes and pops, what was popped followed by what is queued is what was accepted, clamped to a slot, and at most 16 wait |
| `SendQueue.SixteenFit` | common.cpp:53-109 | of any number of pushes the queue takes exactly the first sixteen |
| `SendQueue.SlotRoundTrip` | common.cpp:96-157 | a message goes through a slot into a user buffer unharmed if and only if it fits both |
| `SendQueue.PtrQueue.PtrQueuePush` | common.cpp:53-109 | a push is refused when 16 wait or memory is short, else appends the node with its bytes clamped |
| `SendQueue.PtrQueue.PtrQueuePop` | common.cpp:112-164 | a pop fails on an empty queue, else removes the oldest node and copies as many bytes as slot and user buffer allow, leaving the rest of the buffer; without a buffer only the header is handed out |
| `Sending.NothingLost` | process.cpp:811-815 | conservation: in every interleaving at most 16 messages wait, and each accepted push is queued, in the sender's hands, transmitted or drained by a reset |
| `Sending.PushExactly` | common.cpp:62-67 | a push is queued behind all others if and only if fewer than sixteen wait |
| `Sending.PermitInvariant` | process.cpp:1722-1745 | in every interleaving the queue is covered by semaphore, held permit, outstanding posts and permits burnt by failed link checks since it was last empty |
| `Sending.PermitsConserved` | process.cpp:811-815 | in every interleaving, permits, outstanding posts and permits taken add up to the pushes, accepted or refused, and exit requests |
| `Sending.ClearQueue` | process.cpp:270-280 | draining the queue when the link is set up again empties it, and all it held is accounted as drained |
| `Sending.NothingStranded` | process.cpp:1722-1818 | if no link check failed since the queue was last empty, the queue is at most semaphore plus held permit plus outstanding posts; with all three zero it is empty |
| `Sending.DownCheckStrands` | process.cpp:1732-1735 | a single link check that fails strands a queued message, even once the link is back |
| `Sending.SenderDrains` | process.cpp:1722-1818 | from any covered state with the link up, the sender's own steps, even without any acknowledgement, empty the queue and transmit everything in it |
| `Sending.DrainableExactly` | process.cpp:1722-1818 | with the link up, outstanding posts and the sender's own steps can empty the queue if and only if it is covered by semaphore, held permit and outstanding posts |
| `Sending.QueuedIsEventuallySent` | process.cpp:1722-1818 | hence after any interleaving that leaves the queue covered, in particular if no check failed since it was last empty, everything queued can still be sent |
| `StopAndWait.LogDisciplined` | process.cpp:1722-1791 | every interleaving keeps the send log disciplined and the sender's position in agreement with it |
| `StopAndWait.TransmissionsInOrder` | process.cpp:1752-1791 | transmissions follow enqueue order, a message is sent at most three times with rising count, and the next one starts only after the previous was acknowledged or given up |
| `StopAndWait.ClosedOnlyWhenDue` | process.cpp:1758-1788 | a message given up was sent a first, a second and a third time before, an acknowledged one at least once, and from its first transmission to its closing the log holds only its own transmissions and notices |
| `StopAndWait.OneNoticeOneRelease` | process.cpp:531-537 | between two acknowledged messages there is a notice: one notice releases at most one message |
| `StopAndWait.AcknowledgementIsFresh` | process.cpp:1764-1778 | an acknowledged message was noticed after its first transmission, provided no notice was pending when that began |
| `StopAndWait.PendingNoticeReleases` | process.cpp:1764-1778 | a message transmitted while a notice was pending is, in every interleaving, never transmitted again and never given up |
| `StopAndWait.PendingNoticeExactly` | process.cpp:1764-1778 | in every reachable state just after a transmission: a notice is pending if and only if no continuation resends or gives up the message, and if and only if it can be acknowledged without a further notice |
| `StopAndWait.NoticeReleasesExactly` | process.cpp:1768-1783 | in every reachable state with the sender about to look or inside its timed wait: a notice is pending if and only if the message can be acknowledged as the very next event, without a further notice or transmission |
| `StopAndWait.StrayNoticeReleases` | process.cpp:1764-1778 | without that proviso, after any run that leaves the sender at rest with nothing queued, a stray notice releases the next message straight after its first transmission |
| `MediaTransfer.TransferSafe` | process.cpp:2133-2318 | over every run of requests, acknowledgements, give-ups, resets and file changes: index never exceeds total, the chunks offered to the queue are numbered 0, 1, 2, ... without gap or repeat, and a complete set from an unchanged file concatenates to the file |
| `MediaTransfer.QueuedExactly` | process.cpp:811-815 | what the send queue took over every run: the reply if it found room, then in order exactly the chunks that found room; all chunks offered, without a gap, if and only if every chunk push found room |
| `MediaTransfer.RefusedChunkStalls` | process.cpp:2300-2306 | after any run whose last chunk was refused by a full queue: until an acknowledgement of it, a give-up or a reset, the transfer waits, nothing more is queued and every request is refused |
| `MediaTransfer.FullQueueLosesChunk` | process.cpp:2300-2306 | for every stored file, a request that finds room for its reply but not for chunk 0 leaves such a state |
| `MediaTransfer.WaitingEnds` | process.cpp:1785-1789 | a waiting transfer stops waiting if and only if the last chunk is acknowledged, the sender gives up or the link is set up again, and accepts no request before |
| `MediaTransfer.OldAcksIgnored` | process.cpp:2222-2242 | once an acknowledgement has advanced the transfer, that one and all earlier ones, of this or any other media id, repeated in any order, change nothing |
| `MediaTransfer.AckAdvances` | process.cpp:2205-2246 | an acknowledgement advances by one chunk if and only if it reports success, carries the awaited index and a chunk is left to read, whatever its media id; the last one ends the transfer |
| `MediaTransfer.OneAdvancePerChunk` | process.cpp:2205-2246 | over every run, two acknowledgements that advance on the same chunk index have an accepted request or a reset between them |
| `MediaTransfer.LateAckAdvances` | process.cpp:2221-2222 | the media id is not compared: after a given-up transfer of one file, its late first acknowledgement sends the second chunk of the next file |
| `MediaTransfer.RepeatNoticed` | process.cpp:2222-2232 | a repeat of the acknowledgement just taken gives the sender a second notice if and only if the first one did not advance, as after the last chunk |
| `MediaTransfer.RequestBegins` | process.cpp:2133-2189 | an accepted request pushes its reply and then chunk 0 of the file with the file's chunk count; each enters the queue if and only if there is room, and the transfer counts chunk 0 as sent in either case |
| `MediaTransfer.TransferCompletes` | process.cpp:2133-2318 | for every file up to 2^31-65536 bytes, a request and one acknowledgement per chunk, with room in the queue, end the transfer with exactly the file offered and nothing refused |
| `MediaTransfer.ChunkCount` | process.cpp:2174 | the chunk count is the least that covers the file and fits 15 bits, so neither it nor an offset overflows |
| `MediaHost.MediaFrameFits` | process.cpp:2263-2301 | every media frame, even fully escaped, has at most 131106 bytes, fits its build buffer and a queue slot, and is popped byte for byte |
| `MediaHost.ChunkRoundTrip` | process.cpp:2287-2297 | the packed chunk header and data parse back to the chunk |
| `MediaHost.HostRecoversFile` | process.cpp:2248-2318 | the queued chunks of a finished transfer of an unchanged file, framed, escaped, retransmitted any number of times and mixed with any other traffic, are decoded by the host with headers intact: it keeps every chunk offered, joining to the file, if and only if none was refused, and otherwise never gets past a refused one |
| `MediaRequests.RepliesAreAnswers` | process.cpp:2682-2732 | the receive loop and the upload together: in every run the replies built in place are one per query, factory reset and media request the upload accepts |
| `MediaRequests.UploadFollows` | process.cpp:2650-2749 | within the joint run the upload is the transfer machine on the media requests for this device and its own events |
| `MediaRequests.MediaRequestAnswered` | process.cpp:2133-2189 | after any run a media request for this device is answered if and only if the transfer machine, run on the requests and events so far, accepts it |
| `MediaRequests.OneTransferAtATime` | process.cpp:2143-2187 | between two media requests that are answered, the first transfer was acknowledged to its last chunk, given up or reset; a request before that gets no reply |
| `MediaRequests.RequestRoundTrip` | process.cpp:2154-2157 | a request names the media type in its first payload byte and the id in the next four, high byte first |
| `MediaTransfer.MediaSender.SendMmReqAck` | process.cpp:2133-2189 | the request handler with its refusals is the transfer machine's request step |
| `MediaTransfer.MediaSender.RecvAckAndSendImage` | process.cpp:2205-2246 | the acknowledgement handler is the transfer machine's acknowledgement step |
| `MediaTransfer.MediaSender.SampleSendImage` | process.cpp:2248-2318 | reads at the packet's offset and offers one chunk, or nothing when the file is gone or exhausted |
| `MediaTransfer.MediaSender.DoStatReset` | process.cpp:2791-2796 | setting up the link again forgets the transfer |
| `MediaTransfer.ResetForgets` | process.cpp:687-690 | after any run and a reset the transfer record is as at the start, and until the next accepted request no acknowledgement is taken, nothing is queued and no notice is given |
| `MediaTransfer.FilesFollow` | process.cpp:2077-2096 | in every run the upload reads the files as last stored and removed |
| `Params.ParaStore.MergeInto` | para.cpp:35-95 | the word writes and the byte loop that jumps over the 16-bit fields implement the field-level rule: 0xFF, or 0xFFFF for a 16-bit field, keeps the stored value, anything else replaces it |
| `Params.CheckRepairs` | para.cpp:323-522 | the range checks put every checked field in range and leave a record alone if and only if it was in range |
| `Params.RangesAre` | para.cpp:323-522 | the admissible range of every field of the ADAS record |
| `Params.KeptOrFactory` | para.cpp:323-522 | each byte of a checked record is the stored one or its factory value |
| `Params.WriteEndsInRange` | para.cpp:35-95 | every ADAS write, from any state and with any input, ends with all checked fields in range |
| `Params.PhotoCountsAlwaysBounded` | para.cpp:323-522 | in every reachable ADAS store the photo counts are at most 10 |
| `Params.GetThenSet` | process.cpp:2348-2444 | feeding a parameter reply back leaves the DMS store unchanged always, and the ADAS store if and only if it is in range |
| `Params.WordsOnTheWire` | process.cpp:2348-2444 | the 16-bit fields travel high byte first: what a payload stores in each, with the 0xFFFF rule and the ADAS limits, and what a reply carries |
| `Params.PeriodExample` | process.cpp:2348-2394 | 0x07, 0x08 at bytes 3 and 4 of a payload stores the period 1800 |
| `Params.BytesOnTheWire` | process.cpp:2348-2394 | every single-byte field is taken from its own place of the payload, kept on 0xFF, and a payload of another length changes nothing |
| `Params.RoundTripAfterWrite` | process.cpp:2348-2444 | hence after any write the ADAS reply fed back changes nothing |
| `Params.SetTwice` | process.cpp:2348-2394 | repeating a set-parameter command has no further effect |
| `Params.FactoryDefaults` | para.cpp:524-624 | a factory reset restores every byte whatever the store held, and the factory values are in range |
| `Params.FactoryRecords` | para.cpp:524-624 | the factory records byte by byte |
| `Params.ParaStore.MergeBytes` | para.cpp:54-64 | the byte loop that jumps over the 16-bit fields copies exactly the other bytes that are not 0xFF |
| `Params.ParaStore.AdasParaCheck` | para.cpp:323-522 | checking field after field in place yields the checked record |
| `Params.ParaStore.WriteDevPara` | para.cpp:35-95 | the word writes and the byte loop implement the field-level rule, followed by the checks for ADAS, and leave the other store alone |
| `WarningReports.ReportAndRecorderAgree` | process.cpp:1268-1340 | the media list of a report and the recorder jobs name exactly the next consecutive ids, in the same order and number |
| `WarningReports.AdasMedia` | process.cpp:1268-1340 | how many photos and videos each ADAS report lists, on the bytes of the parameter record |
| `WarningReports.DmsMedia` | process.cpp:1390-1455 | the same for each driver-monitoring report |
| `WarningReports.JobsRecordTheList` | process.cpp:1268-1340 | each photo listed is recorded as a photo and each video as a video, the second video by the other camera |
| `WarningReports.EveryIdRecorded` | process.cpp:630-653 | until a restart the recorder is asked for every id assigned, once and in order |
| `WarningReports.AdasReportFits` | process.cpp:854-914 | from every reachable parameter state an ADAS report lists at most 11 media and its escaped frame takes at most 188 of 512 bytes |
| `WarningReports.BuildKeepsWindow` | process.cpp:1166-1206 | building any report keeps all stored ids within the last thousand |
| `WarningReports.RetentionWindow` | process.cpp:1166-1206 | after any run of reports, timely file writes and restarts, stored ids lie in (last-1000, last] and at most 1000 files remain |
| `WarningReports.ReportRemovesExactly` | process.cpp:1166-1206 | from any state a report removes exactly the files that carry one of its new ids or lie a thousand below one |
| `WarningReports.RestartExactly` | process.cpp:111-148 | after any run a restart takes up the largest stored id, or 0, keeps the files and forgets jobs and the remembered list |
| `WarningReports.KeptExactly` | process.cpp:1166-1206 | after any timely run, a stored file survives further timely reports, writes and restarts if and only if no id a thousand above its own is assigned meanwhile |
| `WarningReports.LateFileLeavesWindow` | process.cpp:1166-1206 | a written file keeps the window if and only if it is written before a thousand further ids are assigned |
| `WarningReports.MaxId` | process.cpp:111-148 | the id recomputed at start is the largest stored one, or 0 |
| `WarningReports.Reporter.GetNextIds` | process.cpp:630-653 | hands out consecutive fresh ids |
| `WarningReports.Reporter.ClearOldMediaFile` | process.cpp:1166-1206 | removes the files a thousand ids back and the namesakes of the new ids, nothing else |
| `WarningReports.Reporter.BuildAdasWarnFrame` | process.cpp:1242-1357 | fills the media list without gaps, offers the jobs, clears old files, remembers a BEGIN's media and repeats it for an END |
| `WarningReports.Reporter.BuildDmsWarnFrame` | process.cpp:1363-1470 | the same for a driver-monitoring report |
| `AdasAlerts.FieldsAreMaskedBits` | process.cpp:1905-1934 | the compared fields are exactly the bits the warning masks let through |
| `AdasAlerts.EndAnswersBegin` | process.cpp:1998-2050 | in every run, with any other reports in between, an END follows a BEGIN not yet ended and announces exactly that BEGIN's media |
| `AdasAlerts.OpenIsRedStep` | process.cpp:1944-2058 | a step keeps "an open alarm was last seen RED" if and only if it does not lose an END to the speed filter of another warning |
| `AdasAlerts.BeginEndAlternate` | process.cpp:1936-2058 | in every run that loses no END, BEGIN and END strictly alternate |
| `AdasAlerts.SpeedOkLosesNothing` | process.cpp:1011-1038 | no END is lost when the speed filter passes every lane departure and collision warning |
| `AdasAlerts.SpeedFilterLosesEnd` | process.cpp:1949-1953 | a concrete run in which the speed filter swallows an END and two BEGINs follow each other |
| `AdasAlerts.LostEndRepeatsBegin` | process.cpp:1944-2058 | after any run and any frame that loses an END, the next close approach once the filter time is over reports a second BEGIN |
| `AdasAlerts.AlternatesExactly` | process.cpp:1936-2058 | after a run that alternated so far, every continuation that loses no END alternates if and only if no alarm is open away from RED |
| `AdasAlerts.ReportsFit` | process.cpp:1242-1357 | every report of every run, END reports with the remembered list included, names at most 11 media and its escaped frame takes at most 188 of 512 bytes |
| `AdasAlerts.HeadwayReportedExactly` | process.cpp:1985-2052 | a BEGIN is reported exactly on entering RED with both filters passing, an unfiltered END exactly on leaving RED with the alarm open, each only if no trigger cut the frame off |
| `AdasAlerts.TriggersReportedExactly` | process.cpp:1941-1983 | exactly which new triggers are reported as lane departure and collision, including the cut after a slow lane departure |
| `AdasRuns.MachineFollows` | process.cpp:2055-2060 | over every run the stored frame is the last one received, and the three filter clocks and the start flag are those the run's raw bytes, clocks and parameters determine |
| `AdasRuns.ReportedExactly` | process.cpp:1936-2060 | after any run, exactly when the next frame reports a lane departure, a collision, a headway BEGIN or END, on the CAN bytes of this frame and the one before, the clocks and the parameter bytes |
| `AdasRuns.ReportCount` | process.cpp:1936-2060 | the frame adds exactly one report for each of these that is due |
| `AdasRuns.RepeatReportsNothing` | process.cpp:1936-1938 | a frame that repeats the masked bits of the one before reports nothing, whatever the clocks say |
| `AdasRuns.ReportsList` | process.cpp:1268-1340 | in every run each report but an END lists the photos and videos its own parameter bytes ask for, with ids that go on where the reports before it stopped |
| `AdasRuns.SnapReported` | process.cpp:1835-1862 | a snapshot is reported at once and by itself, and moves none of the machine's variables |
| `AdasAlerts.ReportsSpaced` | process.cpp:981-1009 | with a monotone clock, lane departure, collision and headway BEGIN reports keep their own parameter byte (29, 33, 41) plus the configured extra, in seconds, from every earlier one of their kind, for headway also from every END |
| `AdasAlerts.AdasMonitor.DealWsiAdasCan700` | process.cpp:1876-2060 | the handler with its static variables and early exits is the alarm machine's step |
| `DmsAlerts.FieldsAreMaskedBits` | process.cpp:1491-1537 | the compared fields are exactly the masked alert bytes, two bits each |
| `DmsAlerts.WarningCaused` | process.cpp:1555-1611 | each warning of the five classes is caused by a rising edge of its class against the previous frame |
| `DmsAlerts.WarningsSpaced` | process.cpp:981-999 | two warnings of a class are at least its own parameter byte (25, 35, 29, 32 or 38) plus the configured extra apart |
| `DmsAlerts.EdgeReportedExactly` | process.cpp:1555-1611 | a class reports exactly when its edge rises, no class of higher or equal priority is held back by speed, and its last report is the filter time away |
| `DmsAlerts.OthersReportedExactly` | process.cpp:1613-1630 | a change of driver is reported exactly on its rising edge, the end of an absence exactly on its falling edge with no driver recognised and both filters passing, unless the call was stopped before |
| `DmsRuns.WarningsCaused` | process.cpp:1555-1611 | in every run each warning is caused by a rise of its own two-bit fields: fatigue by either eye or yawning, distraction by looking around or bowing, calling by the phone, smoking by smoking, abnormal by absence |
| `DmsRuns.WarningsExactly` | process.cpp:1555-1611 | after any run, exactly when the next frame raises each of the five warnings, on the raw bytes of this frame and the one before, the speed checks in order of priority, and the parameter bytes |
| `DmsRuns.OthersExactly` | process.cpp:1613-1630 | the same for driver change and end of absence, the latter at least ten seconds after its last report |
| `DmsRuns.FrameReportsOneEach` | process.cpp:1555-1630 | a frame makes at most one report of each warning |
| `DmsRuns.ReportsList` | process.cpp:1390-1455 | in every run each report lists the photos and videos its own parameter bytes ask for, with ids that go on where the reports before it stopped |
| `DmsAlerts.DmsMonitor.DealWsiDmsInfo` | process.cpp:1474-1635 | the handler is the driver-monitoring machine's step, including driver change and end of absence |
| `Heartbeat.ClosedOnlyAfterSilence` | process.cpp:1125-1150 | the link is closed only after the configured number of due checks in a row that found no speed message, none arriving in between |
| `Heartbeat.SilenceIsPunished` | process.cpp:1125-1150 | no such row of quiet checks leaves the link open |
| `Heartbeat.MarkedExactly` | process.cpp:1125-1150 | after any run a check counts if and only if the link is up and the last check that counted was at least a second ago, and counts as heard if and only if a speed message arrived since |
| `Heartbeat.QuietUntilConnected` | process.cpp:1125-1135 | before the first connection no check counts |
| `Heartbeat.GraceLeft` | process.cpp:1125-1150 | a silent link survives exactly the quiet checks its count leaves it |
| `Heartbeat.ConnectPatience` | process.cpp:2864-2895 | after any run, a new connection has the full patience if and only if no quiet check was counted before or a speed message is waiting, which always holds if the link was marked down |
| `Heartbeat.ReconnectInheritsCount` | process.cpp:2884-2895 | a reconnection after a receive error, with the link still marked up, starts one check short |
| `Heartbeat.Watchdog.LimitRecordTime` | process.cpp:1040-1051 | a check is due when the period has passed, and only then moves the time mark |
| `Heartbeat.Watchdog.SpeedInfo` | process.cpp:2694-2697 | a speed message marks the link alive |
| `Heartbeat.Watchdog.CheckHeartBeat` | process.cpp:1125-1150 | the watchdog function is the machine's check step, or nothing when disabled |
| `Upgrade.SessionFile` | process.cpp:2582-2616 | an image sent in order lands behind the bytes of earlier sessions, which read as zeros; an image of no bytes leaves the file empty |
| `Upgrade.CleanedSessionInstalls` | process.cpp:2556-2616 | a clean command within a first session: the image is installed if and only if the sum is that of the whole image, yet the file is the image if and only if the part lost was all zeros |
| `Upgrade.EndInstallsMeans` | process.cpp:2616-2637 | a run ends in an installation if and only if its last packet is numbered as the last and passes the sum check in the state it meets |
| `Upgrade.OnlyLastDecides` | process.cpp:2616-2637 | the packets of a session one by one: only the last can install the image or be answered with a refusal |
| `Upgrade.FirstSessionRebuilds` | process.cpp:2582-2616 | the first session of a process rebuilds the image exactly |
| `Upgrade.FirstSessionInstalls` | process.cpp:2616-2637 | its last packet installs the image if and only if the announced sum is the image's byte sum modulo 2^32 |
| `Upgrade.SessionRebuilds` | process.cpp:2608-2616 | after any packets received since the process started, a session rebuilds its image if and only if the image is empty or their data bytes number zero modulo 2^32 |
| `Upgrade.TotalsRunOn` | process.cpp:2582-2616 | over every run of packets, the running sum and the write offset are the sum and the number of all data bytes since the process started, modulo 2^32 |
| `Upgrade.RunStartsAnew` | process.cpp:2563-2577 | a run command starts a new process, which finds the image file as it was left |
| `Upgrade.UnannouncedImage` | process.cpp:2616-2637 | an image never announced is installed if and only if its bytes sum to zero modulo 2^32 |
| `Upgrade.HonestSessionInstalls` | process.cpp:2616-2637 | after any packets, an honest session is installed if and only if their data bytes sum to zero modulo 2^32 |
| `Upgrade.SecondSession` | process.cpp:2582-2637 | after one honest session a second honest one is installed if and only if the first image's byte sum is zero, and rebuilds its image if and only if one of the two is empty |
| `Upgrade.RepeatedImageRefused` | process.cpp:2582-2637 | the same one-byte image sent twice is refused the second time and lies behind a zero byte in the file |
| `Upgrade.GetSum` | process.cpp:2519-2529 | the byte sum modulo 2^32 |
| `Upgrade.UpgradeReceiver.RecvUpgradeFile` | process.cpp:2530-2648 | the handler with its start, clean, run and transfer messages and its status byte is the receive step; an unknown message gets no reply |

## Left out

- Sockets, UART and termios: received bytes are arbitrary sequences, sending appends to a log.
- msgpack, JSON and websocket code: the 8-byte CAN and alert payloads are inputs.
- Camera, JPEG, MP4 and thread pool code: a file with an assigned id may appear (`FileWritten`).
- Heap allocation: queue nodes are values, allocation success is an input, `clear_queue` is a step that drains one node at a time.
- The size of the allocated receive buffer against the length limit passed to the decoder: bounds are stated against the limit.
- Clock and speed filter: what each call reads is an input; the parameters are read once per alarm frame.
- The filter times are unbounded sums: the configured extra seconds are a non-negative number.
- DMS photo counts above 10: the DMS store is never range-checked, so reports assume a count of at most 10.
- 32-bit wrap-around of media ids, and a media directory that cannot be opened at start.
- Media files larger than 2^31-65536 bytes, whose size computation overflows.
- Which pushes of the upload find the send queue full: an input of each event, since other threads fill the queue too.
- Contents of a warning report other than its media list (position, speed, time), logging, filenames and BCD time.
- Receiving.Receiver.OnCmd: replies built in a separate buffer (device info, status, parameters, snapshot, upgrade) are not in the outbox, since they leave the receive buffer alone.
- Receiving.Receiver.ProtParse: whether the k-th media request is answered is an arbitrary sequence of verdicts; `MediaRequests` puts the transfer machine in their place, on the level of messages.
- Upgrade frames too short for their fields, for which the code computes a negative data length.
- Upgrade.SessionFile: assumes every write to the image file succeeds and the session's own writes do not cross offset 2^32.
- Upgrade.SessionRebuilds: the same assumption; earlier sessions may have wrapped the offset.
- Params.ParaStore.AdasParaCheck: the straight-line list of range checks is written as one pass over a table of ranges.
- DmsAlerts.DmsMonitor.DealWsiDmsInfo: the five similar class branches are written as one pass over the classes in order of priority.
- DmsRuns.OthersExactly: snapshots taken on command or by the timer are not events of a driver-monitoring run.
- The disabled variants of the watchdog and the driver-monitoring handler.
