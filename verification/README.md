# The PAMF demultiplexer, the audio hand-off and the IO map in Dafny

A Dafny model of the parts of the PS3 firmware emulation (`ps3fw/`) that move media data between threads and memory,
with proofs of what they keep in every run.

| file | what it models |
|---|---|
| `OutputQueue.dfy` | the byte ring of one elementary stream, in which every access unit is contiguous |
| `Parsers.dfy`, `Packets.dfy` | the parsers that cut AVC, AC-3 and ATRAC3plus streams into access units, call by call and packet by packet |
| `Tracking.dfy`, `Framing.dfy`, `AudioFraming.dfy` | the same cuts, defined over the whole stream without packets |
| `ElementaryStream.dfy`, `Demuxing.dfy` | the machine with four states that processes packets and can be refused, and whole streams |
| `StreamTables.dfy`, `CommandProtocol.dfy`, `FlushProgress.dfy` | commands to the SPU thread, the two tables of enabled streams, throttling by the event queue, the event thread, the end of a flush |
| `Delivery.dfy` | the thread that passes events on to the application |
| `AuRing.dfy` | the ring of access units between demultiplexer and application |
| `PcmHandoff.dfy`, `LpcmClose.dfy`, `AtracxClose.dfy` | the output of the audio decoders, and the end of their threads |
| `ChannelReorder.dfy` | reordering of channels in place |
| `IoMap.dfy` | the offset tables of the graphics processor |

Objects that the code updates in place are classes (`OutputQueue`, `ElementaryStream`, `AuQueue`, `OffsetTables`), in-place
loops are methods on arrays. Where a proof is about many steps, the class has a value that describes its state, its methods
say which function of the old value the new one is, and lemmas are about these functions. Protocols between threads are
transition systems: a state, one function for each atomic step of a thread, an invariant, and theorems about `Run`, the
state after any sequence of steps. A check in the code that must never fail sets a flag in the state; the theorems say that
the flag is never set.

Constants are those of the code: four bytes of AVC delimiter (access unit delimiter of ITU-T H.264, section 7.3.2.4, with the
start code of its Annex B), the AC-3 sync word and frame sizes (sections 5.3.1 and 5.4.1 of ATSC A/52), queues of 1, 1 and 132
entries to and from the SPU thread, 64 streams, 4 commands and 4 entries in the audio queues, tables of 0xC00 and 512 pages.

Properties that turned out not to hold of the code are kept as they are. For each there is the exact condition under which
the code meets it, and an input or a run from the start that does not:

- A video delimiter that is spread over three or more packets is not found, and if it is the first one, bytes are lost
  (`Framing.AvcSplitExact`, `Framing.AvcSplitsAtSeen`; `Framing.HiddenDelimiter`).
- An audio packet of one to three bytes that lies within a frame and does not end it makes the parser read on behind the packet
  (`AudioFraming.FramesComeOut`; `AudioFraming.ShortPacketStrays`).
- Wrapping the output queue around while it is empty breaks it (`OutputQueues.Ring.WrapOk`; `OutputQueues.EmptyWrapBreaks`). While
  access units start with enough room behind them, preparing for the next one is never refused
  (`ElementaryStreams.ElementaryStream.PrepareNextAu`), although the code handles a refusal.
- The two tables of streams can disagree about stream ids of more than 8 bits (`StreamTables.FindIffOpen`;
  `StreamTables.WideIdsDisagree`).
- A flush that waits for room in the event queue can deadlock with the thread that empties it: when that thread waits for a
  release, for the mutex, or for the answer to a command of its own (`FlushProgress.FlushEndsExactly`;
  `FlushProgress.CanDeadlockAsleep`, `FlushProgress.CanDeadlockPeeking`, `FlushProgress.CanDeadlockResetting`,
  `FlushProgress.CanDeadlockResuming`).
- A stream that is disabled after the event thread has decided to call its callback and before it reads the callback makes the
  thread call null (`Delivery.CalledNullExactly`; `Delivery.CanCallNull`).
- A stream that is disabled right after its callback had no room makes the event thread wait for another stream
  (`Delivery.RacedExactly`, `Delivery.SleepsOnlyWhileFull`; `Delivery.CanSleepOnDisabled`).
- A reset of the access unit ring while the producer fills a slot loses the access unit (`AuRing.Ring.CommitOk`;
  `AuRing.ResetDuringProduction`).
- A comment in the source says that a slot kept free makes flushing always succeed. A flush is refused while all slots are in
  use, which only another flush can have brought about (`AuRing.Ring.FlushHasRoom`; `AuRing.SecondFlushRefused`).
- The list of decoded frames is only a list while no more than two frames are in it (`PcmHandoff.Links.UnlinkOk`;
  `PcmHandoff.StaleIndexCuts`); the hand-off keeps it so.
- A frame that was delivered is marked as not in use before its indices are cleared. If it is taken and linked again in between
  and another frame is linked behind it, unlinking it fails (`PcmHandoff.HandoffIsCorrect`; `PcmHandoff.ReuseCanFail`).
- A frame whose decode command is refused, because of a full queue or an unknown format, stays in use for good
  (`PcmHandoff.RefusedFrameIsLost`, `PcmHandoff.LostForever`; `PcmHandoff.AllCanBeLost`, `PcmHandoff.FullQueueLoses`).
- Mapping pages that are mapped already leaves the offset tables inverse only under a condition (`IoMap.Tables.MapInverse`;
  `IoMap.RemappingBreaks`), the search for free IO pages can leave its table (`IoMap.FirstFit`; `IoMap.SearchCanLeave`),
  and so do unmapping an IO page that is not mapped (`IoMap.OffsetTables.UnmapIoAddress`) and translating an address that is neither
  in local nor in main memory (`IoMap.AddressRoundTrip`).

## Model

| member | source | states |
|---|---|---|
| `OutputQueues.Ring.PushOk` | ps3fw/cellDmuxPamf.cpp:96-124 | a chunk that fits is appended to the unfinished access unit and no byte of any queued access unit is overwritten |
| `OutputQueues.Ring.TrimOk` | ps3fw/cellDmuxPamf.cpp:63-67 | popping bytes of the unfinished access unit from the back leaves all queued access units where they are |
| `OutputQueues.Ring.SealOk` | ps3fw/cellDmuxPamf.cpp:263-271 | a finished access unit becomes the newest unit of the FIFO, at the address reported for it |
| `OutputQueues.Ring.TailOk` | ps3fw/cellDmuxPamf.cpp:82-94 | releasing the oldest unit leaves exactly the others, also when the queue unwraps in the middle of an access unit |
| `OutputQueues.Ring.TakeOk` | ps3fw/cellDmuxPamf.cpp:69-80 | popping back to the address of a queued unit removes that unit and all newer ones, and nothing else |
| `OutputQueues.Ring.WrapOk` | ps3fw/cellDmuxPamf.cpp:126-142 | wrapping around keeps the queue in order if and only if it is not empty or nothing moves |
| `OutputQueues.Ring.Contiguous` | ps3fw/cellDmuxPamf.cpp:61-142 | every queued unit lies in one piece in the buffer and holds its bytes |
| `OutputQueues.Ring.ContentsInOrder` | ps3fw/cellDmuxPamf.cpp:61-142 | the bytes from front to back, or from front to the wrap position and then from 0 to back, are the units in FIFO order and the unfinished one |
| `OutputQueues.EmptyWrapBreaks` | ps3fw/cellDmuxPamf.cpp:126-142 | after wrapping around an empty queue the checks of pop_front refuse the next release |
| `OutputQueues.OutputQueue.PopBack` | ps3fw/cellDmuxPamf.cpp:63-67 | refines `Trim`; the check never fails for a size within the unfinished access unit |
| `OutputQueues.OutputQueue.PopBackAddr` | ps3fw/cellDmuxPamf.cpp:69-80 | refines `Take` in every case but one: wrapped around, with back and address both at the start of the buffer |
| `OutputQueues.OutputQueue.PopFront` | ps3fw/cellDmuxPamf.cpp:82-94 | refines `Tail`; neither of its checks fails when access units are released in order |
| `OutputQueues.OutputQueue.Push` | ps3fw/cellDmuxPamf.cpp:103-124 | refines `Ring.Push` or changes nothing; exactly when it is full and when the chunk is too large |
| `OutputQueues.OutputQueue.PushUnchecked` | ps3fw/cellDmuxPamf.cpp:96-101 | writes both parts of a chunk in place, one after the other |
| `OutputQueues.OutputQueue.PrepareNextAu` | ps3fw/cellDmuxPamf.cpp:126-142 | refuses only a second wrap around; stays in order if and only if it does not wrap an empty queue around |
| `OutputQueues.OutputQueue.Clear` | ps3fw/include/rpcsx/fw/ps3/cellDmuxPamf.h:347 | leaves an empty queue in order |
| `Parsers.ParseAvc` | ps3fw/cellDmuxPamf.cpp:290-369 | the search through the kept bytes in a padded buffer and then through the section does what one scan over both does |
| `Parsers.SearchAudio` | ps3fw/cellDmuxPamf.cpp:440-497 | the search in the kept bytes, the jump, and the search in the section do what one scan does followed by the jump; the search leaves the section exactly if it has fewer than four bytes, a frame of known size is in progress, and it needs more bytes than the section has |
| `Parsers.ParseAudio` | ps3fw/cellDmuxPamf.cpp:404-515 | for every section, the parser of AC-3 and ATRAC3plus does what the scan over kept bytes and section does, or leaves the section |
| `Parsers.SkipAhead` | ps3fw/cellDmuxPamf.cpp:467-471 | no scan stops within the part that is jumped over |
| `Parsers.PaddedSync` | ps3fw/cellDmuxPamf.cpp:298-302 | the padding of the buffer never looks like part of a delimiter, and no delimiter in it is missed |
| `Packets.ParseFacts` | ps3fw/cellDmuxPamf.cpp:354-368 | bytes put out and bytes kept are the bytes read, at most three are kept, and every call makes progress |
| `Packets.Run` | ps3fw/cellDmuxPamf.cpp:202-288 | all parser calls for one packet; terminates and keeps what the parsers rely on |
| `Tracking.RunTracks` | ps3fw/cellDmuxPamf.cpp:202-369 | all parser calls for a packet together are one walk of an automaton over the kept bytes and the packet, one byte at a time, unless the parser leaves the packet; exactly when it does |
| `Tracking.ScanTracks` | ps3fw/cellDmuxPamf.cpp:307-352 | one parser call is a part of that walk |
| `Framing.AvcSplitsAtSeen` | ps3fw/cellDmuxPamf.cpp:290-369 | for every cut of a stream that starts with a delimiter into non-empty packets: access units start exactly at the delimiters that lie within two neighbouring packets and nothing is lost; if the first delimiter does not, bytes are lost |
| `Framing.AvcSplitExact` | ps3fw/cellDmuxPamf.cpp:290-369 | for every such stream and cut, the access units are the pieces between delimiters if and only if every delimiter lies within two neighbouring packets |
| `Framing.FirstPacketLost` | ps3fw/cellDmuxPamf.cpp:309-333 | if the first delimiter is spread over three packets, the first packet is given up for good |
| `Framing.AvcIndependentOfPackets` | ps3fw/cellDmuxPamf.cpp:290-369 | with packets of three bytes or more the access units are the pieces between delimiters, however the stream was cut |
| `Framing.SplitUnique` | ps3fw/cellDmuxPamf.cpp:290-369 | there is only one such split, so two ways of cutting give the same access units |
| `Framing.HiddenDelimiter` | ps3fw/cellDmuxPamf.cpp:309-333 | a small stream in which a delimiter over three packets is not found: its access units are not the pieces between delimiters |
| `AudioFraming.FramesComeOut` | ps3fw/cellDmuxPamf.cpp:404-515 | for every sequence of frames whose header states their length and every cut, empty packets included: the parser leaves a packet if and only if one of one to three bytes lies within a frame behind its header without ending it; otherwise exactly these frames come out, and the last one stays pending |
| `AudioFraming.LacksIffStrays` | ps3fw/cellDmuxPamf.cpp:467-471 | the jump leaves a short packet if and only if the packet lies within a frame behind its header without ending it |
| `AudioFraming.ShortPacketStrays` | ps3fw/cellDmuxPamf.cpp:467-471 | a frame of 16 bytes and a packet of three that the parser leaves |
| `AudioFraming.FramesAreSound` | ps3fw/cellDmuxPamf.cpp:459-463 | in such a stream no size mismatch is ever found, although sync words may occur within frames |
| `AudioFraming.AllPackets` | ps3fw/cellDmuxPamf.cpp:404-515 | after every packet the parser has left one, which it has if and only if one strays, or is where the automaton is that reads the stream without packets |
| `ElementaryStreams.Stage.ParsedOk` | ps3fw/cellDmuxPamf.cpp:210-229 | parsing keeps the outcome of the packet and the accounting of the current access unit, and comes closer to the end |
| `ElementaryStreams.Stage.PushedOk` | ps3fw/cellDmuxPamf.cpp:232-243 | so does pushing the chunk |
| `ElementaryStreams.Stage.StartedOverOk` | ps3fw/cellDmuxPamf.cpp:245-258 | so does starting over after a size mismatch, one byte further on |
| `ElementaryStreams.Stage.AnnouncedOk` | ps3fw/cellDmuxPamf.cpp:263-271 | so does reporting the access unit, which then is one of those reported |
| `ElementaryStreams.Stage.PreparedOk` | ps3fw/cellDmuxPamf.cpp:273-285 | so does going on to the next access unit |
| `ElementaryStreams.Stage.InQueue` | ps3fw/cellDmuxPamf.cpp:175-180 | the bytes of the current access unit in the queue are its accumulated size without the chunk still to be pushed |
| `ElementaryStreams.ElementaryStream.ParseStream` | ps3fw/cellDmuxPamf.cpp:210-229 | refines `Stage.Parsed`; everything reported stays reported |
| `ElementaryStreams.ElementaryStream.PushChunk` | ps3fw/cellDmuxPamf.cpp:232-243 | refines `Stage.Pushed` or changes nothing; a chunk is too large only if the access unit is larger than the declared maximum |
| `ElementaryStreams.ElementaryStream.StartOver` | ps3fw/cellDmuxPamf.cpp:245-258 | takes exactly the current access unit out of the queue |
| `ElementaryStreams.ElementaryStream.NotifyAuFound` | ps3fw/cellDmuxPamf.cpp:263-271 | reports a complete access unit where it lies in the queue, once, or changes nothing when the event is refused |
| `ElementaryStreams.ElementaryStream.PrepareNextAu` | ps3fw/cellDmuxPamf.cpp:273-285 | is never refused, and leaves room for an access unit of the maximum size |
| `ElementaryStreams.ElementaryStream.ProcessPesPacketData` | ps3fw/cellDmuxPamf.cpp:202-288 | whatever is refused, the outcome of the packet stays the same and reported access units are only added to; the queue is full only while there is an access unit to be released, an event is refused only when as many were reported as there was room for, and a unit is too large only if it is larger than declared or a frame had the wrong size |
| `ElementaryStreams.ElementaryStream.SetPacket` | ps3fw/include/rpcsx/fw/ps3/cellDmuxPamf.h:401 | the outcome becomes that of the new packet |
| `ElementaryStreams.ElementaryStream.ReleaseAu` | ps3fw/include/rpcsx/fw/ps3/cellDmuxPamf.h:412 | releasing at any time does not change what comes out of the stream |
| `ElementaryStreams.ElementaryStream.DiscardAccessUnit` | ps3fw/cellDmuxPamf.cpp:175-180 | removes exactly the current access unit; all those reported stay |
| `ElementaryStreams.Demux` | ps3fw/cellDmuxPamf.cpp:202-288 | over all packets, with refusals and releases at any time, the access units reported are those of a run without any refusal |
| `ElementaryStreams.FeedReady` | ps3fw/cellDmuxPamf.cpp:202-288 | every refusal can be cured: if everything is released before each attempt and there is room for an event, processing a packet ends, and not with a refusal; the packet is consumed, or a unit is larger than declared, a frame has the wrong size, or the parser has left the packet |
| `ElementaryStreams.DemuxReady` | ps3fw/cellDmuxPamf.cpp:202-288 | so are all packets of such a stream: refusals are cured |
| `Demuxing.DemuxAvc` | ps3fw/cellDmuxPamf.cpp:202-369 | if no delimiter is spread over three packets and no unit is larger than declared, all pieces between delimiters of an AVC stream are reported, and nothing else |
| `Demuxing.DemuxAudio` | ps3fw/cellDmuxPamf.cpp:404-515 | if no packet strays and no frame is larger than declared, all frames of an audio stream but the last are reported, and nothing else |
| `Demuxing.LongPacketsDoNotStray` | ps3fw/cellDmuxPamf.cpp:467-471 | packets of four bytes or more never stray |
| `Demuxing.WhereReported` | ps3fw/cellDmuxPamf.cpp:263-271 | until it is released, an access unit lies in the buffer where its event says |
| `StreamTables.FindEs` | ps3fw/cellDmuxPamf.cpp:1199-1206 | finds a stream with the ids if there is one |
| `StreamTables.FindIffOpen` | ps3fw/cellDmuxPamf.cpp:1199-1206 | for all ids: what the PPU side finds, and that it agrees with the SPU side if and only if the channel is not enabled or a slot has ids with the same upper halves; always with ids of 8 bits |
| `StreamTables.FindsExactly` | ps3fw/cellDmuxPamf.cpp:38-58 | two pairs of ids of one channel are taken for the same if and only if their upper halves agree |
| `StreamTables.WideIdsDisagree` | ps3fw/cellDmuxPamf.cpp:38-58 | two ids that the PPU side tells apart and the SPU side does not |
| `StreamTables.FindFree` | ps3fw/cellDmuxPamf.cpp:2559-2560 | while fewer streams than slots are enabled, the search for a free slot ends within the table, at the first free one, no further on than there are streams |
| `StreamTables.OpenEnable` | ps3fw/cellDmuxPamf.cpp:2559-2579 | filling a free slot adds exactly this stream to the table that goes with the slots |
| `StreamTables.OpenDisable` | ps3fw/cellDmuxPamf.cpp:2671-2672 | clearing a slot removes exactly its stream |
| `CommandProtocol.SendOk` | ps3fw/cellDmuxPamf.cpp:1174-1182 | the command queue is empty when a command is put into it |
| `CommandProtocol.TakeReplyOk` | ps3fw/cellDmuxPamf.cpp:1183-1197 | a caller that wakes up finds a reply, and it has the right value |
| `CommandProtocol.UpdateOk` | ps3fw/cellDmuxPamf.cpp:2559-2579 | enabling finds a free slot and disabling a stream to count down; both tables agree afterwards as before; a release, a disabling and a reset wake up the event thread |
| `CommandProtocol.ReplyOk` | ps3fw/cellDmuxPamf.cpp:935-941 | the reply queue is empty when a reply is put into it |
| `CommandProtocol.ExecuteOk` | ps3fw/cellDmuxPamf.cpp:943-954 | a command that was acknowledged takes effect on the SPU side, and the limit on events follows the number of streams within 8 bits; a flush then reports its end |
| `CommandProtocol.TryFlushOk` | ps3fw/cellDmuxPamf.cpp:144-160 | an access unit that is not reported for lack of room makes the SPU thread wait after the flush, and the end of the flush is tried again without stopping; neither leaves it waiting for good |
| `CommandProtocol.TakeStreamOk` | ps3fw/cellDmuxPamf.cpp:992-1001 | there is a stream info whenever the SPU thread takes one |
| `CommandProtocol.EventSide.NextOk` | ps3fw/cellDmuxPamf.cpp:1325-1686 | every step of the event thread leads where the event at the head of the queue and the reset under way demand, and announces the resume command exactly at two events |
| `CommandProtocol.ConsumeOk` | ps3fw/cellDmuxPamf.cpp:1325-1686 | the event queue is never empty when an event is popped; looking for exactly two events after each pop is enough never to leave the SPU thread waiting |
| `CommandProtocol.AcceptedAfter` | ps3fw/cellDmuxPamf.cpp:552-590 | a command that has passed the checks of the PPU side does the same to both tables |
| `CommandProtocol.ProtocolIsSafe` | ps3fw/cellDmuxPamf.cpp:888-941 | in every run no check fails, of the four queues between the threads and of the counters; at most one command or reply is outstanding, and a caller gets the reply to its own command |
| `CommandProtocol.TablesAgree` | ps3fw/cellDmuxPamf.cpp:2495-2579 | in every run the tables of both sides agree up to the one command acknowledged and not executed; the number of streams is that of the slots in use; the limit on events is 4 and two for each stream |
| `CommandProtocol.NeverStuck` | ps3fw/cellDmuxPamf.cpp:1643-1684 | in every run the SPU thread waits for the event queue, be it because of a flush, only while there are more than two events or a command is on its way |
| `FlushProgress.FlushEndsExactly` | ps3fw/cellDmuxPamf.cpp:144-160 | in every run, when a flush tries to report its end: there is a way for it to succeed if and only if there is no deadlock, that is: if a caller that waits for the SPU thread keeps the mutex, one event that needs no mutex any more is enough to make room; else the event thread neither sleeps, nor is going to sleep, for a release, is not about to send the resume command, and none of the events it has to pop belongs to a stream that a reset has marked |
| `FlushProgress.StepFate` | ps3fw/cellDmuxPamf.cpp:1209-1686 | no step of the event thread changes whether it gets stuck in this sense, except that a callback without room may make it so |
| `FlushProgress.DeadlockForever` | ps3fw/cellDmuxPamf.cpp:157-160 | in a deadlock no sequence of steps ends the flush or gets a command answered |
| `FlushProgress.NoRoomIsDeadlock` | ps3fw/cellDmuxPamf.cpp:1518-1523 | a callback that has no room while a flush waits and nothing was released or reset is a deadlock |
| `FlushProgress.CanDeadlockAsleep` | ps3fw/cellDmuxPamf.cpp:1225-1247 | a run from the start that ends with the event thread asleep for a release that cannot be answered |
| `FlushProgress.CanDeadlockPeeking` | ps3fw/cellDmuxPamf.cpp:1441-1447 | one that ends with an event that needs the mutex, kept by a caller that cannot be answered |
| `FlushProgress.CanDeadlockResetting` | ps3fw/cellDmuxPamf.cpp:1463-1482 | one that ends with an event for which a reset makes the event thread send a command |
| `FlushProgress.CanDeadlockResuming` | ps3fw/cellDmuxPamf.cpp:1643-1684 | one in which the event queue fills up again before the resume command is sent, and a flush begins |
| `Delivery.LockOk` | ps3fw/cellDmuxPamf.cpp:1208-1223 | entering the wait keeps the invariant |
| `Delivery.CheckOk` | ps3fw/cellDmuxPamf.cpp:1225-1253 | going to sleep, or clearing all bits and going on, loses no wakeup |
| `Delivery.PeekOk` | ps3fw/cellDmuxPamf.cpp:1350-1420 | the second look for a reset before the end of the stream clears bits only when no stream is waited for |
| `Delivery.ReadCallbackOk` | ps3fw/cellDmuxPamf.cpp:1512-1518 | reading the callback, after the mutex has been returned, finds it or finds that the stream has been disabled |
| `Delivery.CallOk` | ps3fw/cellDmuxPamf.cpp:1518-1527 | the callback accepts the event once, or leaves it at the head of the queue with the reason for waiting |
| `Delivery.RememberOk` | ps3fw/cellDmuxPamf.cpp:1518-1523 | the bit remembered is that of the stream, or the stream has been disabled |
| `Delivery.UserMarkOk` | ps3fw/cellDmuxPamf.cpp:2363-2367 | a bit that is set while the thread sleeps is followed by a signal |
| `Delivery.ExactlyOnce` | ps3fw/cellDmuxPamf.cpp:1325-1686 | in every run each event is handled at most once, in the order of sending, and the others are in the queue; it is dropped only if its stream is disabled or a reset is under way; a thread that has called a cleared callback did so for a stream that is disabled |
| `Delivery.CalledNullExactly` | ps3fw/cellDmuxPamf.cpp:1512-1518 | for every event that the thread passes on, whatever the other threads do in between: it calls a cleared callback if and only if the stream is disabled after the mutex was returned and before the callback is read |
| `Delivery.CalledNullForever` | ps3fw/cellDmuxPamf.cpp:1518 | after that no event is handled |
| `Delivery.CanCallNull` | ps3fw/cellDmuxPamf.cpp:2662-2672 | a run that gets there, for every capacity of the ring |
| `Delivery.NothingLost` | ps3fw/cellDmuxPamf.cpp:1439-1528 | in every run the access units accepted for an enabled stream are those in its ring and those released |
| `Delivery.NoLostWakeup` | ps3fw/cellDmuxPamf.cpp:1208-1255 | in every run the thread does not sleep while a bit it waits for is set or a reset is requested, unless a signal is coming |
| `Delivery.SleepsOnlyWhileFull` | ps3fw/cellDmuxPamf.cpp:1208-1255 | in every run the thread sleeps only while the ring of the stream it waits for is full or being released from; with the one exception |
| `Delivery.RacedExactly` | ps3fw/cellDmuxPamf.cpp:1518-1523 | for every event that the callback has no room for: the thread waits for the wrong bit if and only if the stream has not number 0 and is disabled before its number is read |
| `Delivery.DisabledTooEarly` | ps3fw/cellDmuxPamf.cpp:1518-1523 | from every such state, disabling the stream makes the thread sleep for stream 0 |
| `Delivery.CanSleepOnDisabled` | ps3fw/cellDmuxPamf.cpp:2662-2680 | for every capacity of the ring, a run from the start in which the thread sleeps, with no signal coming, for a stream that is disabled and whose bit is set |
| `AuRing.Ring.ReserveOk` | ps3fw/cellDmux.cpp:183-196 | the slot reserved is not in use |
| `AuRing.Ring.FlushHasRoom` | ps3fw/cellDmux.cpp:183-184 | an access unit of a flush is refused if and only if all slots are in use, which takes an earlier flush since the last reset |
| `AuRing.Ring.WriteOk` | ps3fw/cellDmux.cpp:203-204 | writing the slot outside of any critical section overwrites no slot in use |
| `AuRing.Ring.CommitOk` | ps3fw/cellDmux.cpp:206-229 | what is committed is what was written if and only if there was no reset in between, or slot 0 was written after it |
| `AuRing.Ring.ReadOk` | ps3fw/cellDmux.cpp:1055-1080 | the slot read holds the oldest unread access unit |
| `AuRing.Ring.ReleaseOk` | ps3fw/cellDmux.cpp:1133-1187 | each call to the core carries the address of the oldest unreported access unit and the bytes of all retired since; when a call succeeds, all of them are reported |
| `AuRing.Ring.ResetOk` | ps3fw/cellDmux.cpp:1010-1032 | a reset leaves an empty ring in order, also while the producer has a slot |
| `AuRing.Run.AfterOk` | ps3fw/cellDmux.cpp:183-229 | every step of producer and application keeps the ring, the order of reading and the accounting |
| `AuRing.AnyRun` | ps3fw/cellDmux.cpp:183-229 | in every run: the relations between sizes and indices, the slots in use hold what was produced last, reading is in order of production, bytes reported and to be reported are the bytes retired |
| `AuRing.SecondFlushRefused` | ps3fw/cellDmux.cpp:183-196 | for every size of the ring, a run with two flushes and no release whose second flush is refused |
| `AuRing.ResetDuringProduction` | ps3fw/cellDmux.cpp:1010-1032 | a reset between writing and committing always loses the access unit |
| `AuRing.ProductionCanBeReset` | ps3fw/cellDmux.cpp:183-229 | a run that leads there |
| `AuRing.AuQueue.NotifyReserve` | ps3fw/cellDmux.cpp:172-202 | refines `Reserve`, or says why not |
| `AuRing.AuQueue.NotifyWrite` | ps3fw/cellDmux.cpp:203-204 | refines `Write` |
| `AuRing.AuQueue.NotifyCommit` | ps3fw/cellDmux.cpp:206-229 | refines `Commit`, or drops the access unit of a disabled stream |
| `AuRing.AuQueue.PopAu` | ps3fw/cellDmux.cpp:1037-1080 | gives the oldest unread access unit, if any; a peek changes nothing |
| `AuRing.AuQueue.ReleaseAu` | ps3fw/cellDmux.cpp:1110-1190 | refines `Release`, including the call to the core |
| `AuRing.AuQueue.ResetEs` | ps3fw/cellDmux.cpp:1010-1032 | refines `Reset`, slot by slot |
| `PcmHandoff.Links.LinkOk` | ps3fw/cellAdec.cpp:1092-1124 | linking, store by store, appends a frame to the list, whatever its length |
| `PcmHandoff.Links.UnlinkOk` | ps3fw/cellAdec.cpp:1126-1176 | unlinking the head succeeds if and only if it is the only frame or its `prev` is an index; then the rest stays a list if and only if at most one frame is left or this index does not point into it |
| `PcmHandoff.StaleIndexCuts` | ps3fw/cellAdec.cpp:1126-1176 | three linked frames of which unlinking the first cuts the list |
| `PcmHandoff.LinkFrameOk` | ps3fw/cellAdec.cpp:1375-1378 | the frame linked is in use and not in the list |
| `PcmHandoff.CopyOk` | ps3fw/cellAdec.cpp:1963-1985 | what is copied is the output of the frame taken from the queue, read from its entry after it was taken |
| `PcmHandoff.GiveBackOk` | ps3fw/cellAdec.cpp:741-756 | the output is given back by the thread that was passed it |
| `PcmHandoff.UnlinkFrameOk` | ps3fw/cellAdec.cpp:1992-1997 | the frame unlinked is the head of the list, even if another one was linked in the meantime; unlinking fails if and only if one was and the predecessor of the head had been cleared |
| `PcmHandoff.ReleaseOk` | ps3fw/cellAdec.cpp:1178-1185 | marking the frame as not in use hands it over to whoever takes it next, while the list stays as it is |
| `PcmHandoff.ClearPrevOk` | ps3fw/cellAdec.cpp:1178-1185 | clearing its predecessor hits the list if and only if the frame has been linked again; then it is the only one in it |
| `PcmHandoff.HandoffIsCorrect` | ps3fw/cellAdec.cpp:1092-1185 | in every run, whichever free frames are taken: an operation fails if and only if a frame is unlinked behind which another one has been linked and whose predecessor was cleared after it had been linked again; the data delivered for each handle is the decode of its access unit in order of request; at most two frames are linked, in order of delivery |
| `PcmHandoff.ReuseCanFail` | ps3fw/cellAdec.cpp:1178-1185 | with two or more frames, a run from the start that fails |
| `PcmHandoff.RefusedFrameIsLost` | ps3fw/cellAdec.cpp:1905-1935 | a frame taken for a command is lost if and only if the format is unknown or the command queue is full |
| `PcmHandoff.LostForever` | ps3fw/cellAdec.cpp:1014-1027 | a lost frame stays lost in every run from there on |
| `PcmHandoff.AllCanBeLost` | ps3fw/cellAdec.cpp:1912-1932 | for every number of frames, a run in which all are lost to unknown formats |
| `PcmHandoff.FullQueueLoses` | ps3fw/cellAdec.cpp:1905-1935 | with more than four frames, a run in which one is lost to a full command queue |
| `LpcmClose.WorkOk` | ps3fw/cellAdec.cpp:245-333 | the decoder never takes from an empty semaphore or queue, although it looks at the semaphore only once |
| `LpcmClose.CloseOk` | ps3fw/cellAdec.cpp:862-903 | turning all commands into close commands keeps semaphore and queue in agreement |
| `LpcmClose.QueueIsSafe` | ps3fw/cellAdec.cpp:701-756 | in every run the length of the queue is the value of the semaphore, plus one if the decoder has acquired a command and not popped it, plus one if a command was put in and not yet counted; nothing underflows; at most one access unit is decoded after closing has begun; output given back by closing stays so |
| `LpcmClose.CloseTerminates` | ps3fw/cellAdec.cpp:245-333 | once closing has given the output back, seven steps of the decoder suffice for it to exit without its mutex, whatever the others do |
| `LpcmClose.OutputMutexComesFree` | ps3fw/cellAdec.cpp:262-299 | the decoder gives the mutex of the output back within three steps |
| `AtracxClose.WorkOk` | ps3fw/cellAtracXdec.cpp:290-434 | the decoder never executes a close command or pops from an empty queue |
| `AtracxClose.CloseOk` | ps3fw/cellAtracXdec.cpp:818-844 | closing leaves the decoder a command or has stopped it |
| `AtracxClose.QueueIsSafe` | ps3fw/cellAtracXdec.cpp:674-719 | in every run no wakeup is lost although signals are sent without a mutex; at most the access unit being decoded is decoded after closing has begun |
| `AtracxClose.CloseTerminates` | ps3fw/cellAtracXdec.cpp:818-844 | once closing waits for the decoder, four steps of the decoder suffice for it to exit without a mutex, whatever the others do; if the decoder slept and a sender had not signalled, it sleeps until the first signal, and four steps after that suffice |
| `AtracxClose.SignalMissing` | ps3fw/cellAtracXdec.cpp:674-719 | in that case there is a signal to come |
| `AtracxClose.JoinsASleeper` | ps3fw/cellAtracXdec.cpp:674-719 | a run that gets there |
| `ChannelReorder.BodyOrder` | ps3fw/cellAdec.cpp:450-517 | one round of the loop for each layout writes the channels of its frame in the documented order |
| `ChannelReorder.BodyFrame` | ps3fw/cellAdec.cpp:450-517 | and changes nothing of what is done or still to be read |
| `ChannelReorder.RoundOk` | ps3fw/cellAdec.cpp:450-517 | such rounds add up, also where a store goes beyond its frame |
| `ChannelReorder.Reorder` | ps3fw/cellAdec.cpp:466-517 | for every number of samples, each frame of the output is the frame of the input in the documented order without the dummy channel |
| `ChannelReorder.ReorderMono` | ps3fw/cellAdec.cpp:452-459 | the same for mono, four frames at a time |
| `IoMap.Tables.MapInverse` | ps3fw/cellGcmSys.cpp:1041-1051 | mapping keeps the tables inverse if and only if no page outside of the block was mapped to a page inside |
| `IoMap.Tables.MapOk` | ps3fw/cellGcmSys.cpp:1041-1052 | mapping free pages keeps the tables inverse and every mapped page in exactly one block |
| `IoMap.RemappingBreaks` | ps3fw/cellGcmSys.cpp:1041-1051 | two mappings after which the tables are not inverse |
| `IoMap.Tables.UnmapOk` | ps3fw/cellGcmSys.cpp:1153-1170 | so does unmapping a block |
| `IoMap.UnmapUndoesMap` | ps3fw/cellGcmSys.cpp:1153-1170 | unmapping a block that was just mapped gives the tables back |
| `IoMap.AddressRoundTrip` | ps3fw/cellGcmSys.cpp:962-993 | an address that is not in local memory has an offset if and only if it is in main memory and its page is mapped, and the offset leads back to it; the table is left if and only if it is not in main memory |
| `IoMap.OffsetRoundTrip` | ps3fw/cellGcmSys.cpp:100-117 | an offset of a mapped page leads to an address other than 0, unless it is address 0, and the address leads back |
| `IoMap.FirstFit` | ps3fw/cellGcmSys.cpp:1104-1129 | finds the lowest start with enough free pages; leaves the table if and only if there is none, but all pages from some start on are free |
| `IoMap.SearchCanLeave` | ps3fw/cellGcmSys.cpp:1104-1129 | tables reached by one mapping, and a size, for which it does |
| `IoMap.OffsetTables.MapEaIoAddress` | ps3fw/cellGcmSys.cpp:1028-1053 | exactly when it succeeds; what becomes of the tables; when they stay inverse |
| `IoMap.OffsetTables.UnmapIoAddress` | ps3fw/cellGcmSys.cpp:1153-1173 | for every address and answer of the kernel: unmaps a whole block from its first page; fails anywhere else in a block, and if the kernel refuses, and changes nothing; leaves the tables if and only if the page is not mapped or outside of the IO space |
| `IoMap.OffsetTables.UnmapEaIoAddress` | ps3fw/cellGcmSys.cpp:1175-1197 | succeeds if and only if a block starts at the page and the kernel agrees |
| `IoMap.OffsetTables.MapMainMemory` | ps3fw/cellGcmSys.cpp:1094-1130 | the pages chosen were free and no lower start had enough of them; exactly when there are none, and when the search leaves the table |

## Left out

- Save states: every blocking call is one atomic step that succeeds, and the labels to resume at are not modelled.
- Failing system calls and the fatal error notifications that follow them.
- `flush_es` on the byte queue; the slot that the ring keeps for it and the reports to the event queue are modelled.
- MPEG-2 video, LPCM and user data streams, PES headers, time stamps, packs, and what the parsers do with bytes before the first delimiter.
- AVC streams that do not start with a delimiter, and audio streams with a wrong size in a header: the machine is modelled for them, the split into access units is not stated.
- What follows once an audio parser has left its section: the model stops there, with the state `OutOfSection`.
- ElementaryStreams.ElementaryStream.ProcessPesPacketData: an access unit without bytes, which takes a frame of the wrong size, ends the model.
- Closing the demultiplexer: streams, tables and threads are modelled while it is open.
- CommandProtocol.MayEnter: a handle of a stream that was disabled is not used any more once its ids have been enabled anew, nor to release an access unit, and streams are enabled with ids of no more than 8 bits.
- FlushProgress.FlushEndsExactly: is about the core (`cellDmuxPamf`) and any threads that call it, with callbacks that return. Those of `cellDmux` wait for mutexes which its own operations hold while they call the core; `cellDmux` in turn flushes only after the end of a stream.
- Delivery.CalledNullExactly: a stream is not enabled anew in the memory of one that was just disabled before the callback is read; the callback read would be that of the new stream.
- Delivery.RacedExactly: the same for the number of the stream.
- `cellDmuxResetStreamAndWaitDone`: its wait for the end of the stream.
- Demultiplexer threads make progress: only that nothing blocks them is shown for sleeping, not fairness.
- AuRing.Ring.ReleaseOk: the counters of failed calls and bytes are unbounded numbers; the code wraps them around at 32 bits.
- The queue of PCM items that `cellAdecGetPcmItem` reads, time stamps of PCM items, and more than one thread that requests decoding or takes output.
- What the decoders compute: the output of an access unit stands for its decode.
- LpcmClose.QueueIsSafe: commands sent after closing has begun are excluded, as the code does not handle them.
- ChannelReorder.Reorder: the loops of the eight layouts share one loop head in the model; conversion to floating point and vector instructions are not modelled.
- IoMap.OffsetTables.MapMainMemory: what the code reads and writes outside of its tables; the model ends there, with `LeftTables`.
- The tables that the kernel keeps for the same mapping; its refusals are a parameter.
- Everything else in the firmware: graphics commands, audio output, file systems, fonts, cameras and stub modules.
