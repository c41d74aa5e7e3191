# Kernels of lxdream, modelled and proved in Dafny

lxdream emulates the Dreamcast. This project models the small stateful kernels on which the rest
of the emulator leans, and proves what each of them promises. `dafny verify dfyconfig.toml` checks
all of it.

Wherever the source updates a structure in place, the model is a class whose methods follow the
statements of the source and are proved against a specification function or predicate; the
theorems about all inputs, runs and reachable states are lemmas about that specification.

| file | models |
|---|---|
| MessageRing, QueueProtocol | the message queue between the emulator thread and the UI thread: the ring, and the protocol around it as a transition system over every interleaving |
| EventSchedule, EventTiming, EventRuns, EventNodes, EventQueue | the timer queue: what its two lists mean against an absolute clock, when events fire, what becomes of every event over whole runs, the linked nodes as values, and the code that relinks them |
| Scrambler, ScrambleSeeds | the boot-binary scrambler and its inverse; the generator behind it |
| Asic, AsicEvents | the interrupt multiplexer: pending words, cascade bits, three CPU lines; the same event by event |
| IdeDevice, IdeTransfers, IdePackets, IdeInterrupts, IdePort | the GD-ROM drive behind its IDE registers: the state machine, whole transfers and runs, packet commands from the packet to the data, when it asks for an interrupt and what the host finds then, and the code over its registers and its data buffer |
| GdbFraming | the framing of the GDB remote protocol |
| ArmBanks | the banked registers of the ARM7 core, exception entry and return |
| ArmBlockTransfer | load and store multiple on sound RAM |
| AudioRing, Resampler, SampleClock | the three output buffers, the position of a channel in its source, and the number of samples per time slice |
| Paths | escaping and expanding configured paths |

## What the code does not do

Where a law of the code has exceptions, the exact condition is proved, with a run or an input that
shows it.

- Message queue: a reachable state is a deadlock exactly when the consumer waits for a message
  inside the callback of the one whose sender waits (`QueueProtocol.NeverDeadlocks`). A call of
  `tqueue_process_wait` can end there exactly when it is made inside such a callback
  (`QueueProtocol.NestedWaitDeadlocks`), and a run that does is shown
  (`QueueProtocol.DeadlockReached`).
- Timer queue: an event whose 32-bit deadline comes out as the value that marks a node as not
  scheduled is linked in but looks unscheduled; every operation keeps the queue well formed exactly
  when that is not so (`EventSchedule.PerformKeeps`, `EventQueue.Queues.ScheduleEvent`; an input is
  in `EventSchedule.SentinelDeadline`). It keeps every event on time exactly when the 32-bit sum does
  not wrap around (`EventTiming.PerformKeepsTime`, `EventTiming.WrappedDeadline`).
- Audio ring: no sample is ever lost, but when every buffer has been filled and the driver empties
  all of them before the mixer runs again, it moves past the writer. A read keeps the ring in order
  exactly when it does not do that (`AudioRing.ReadTakesOldest`); after every one that does, later
  samples can reach the driver before earlier ones (`AudioRing.OvertakingReorders`), and for buffers
  of any size there is a run that comes to it (`AudioRing.EmptyingOvertakes`).
- Sound clock: the total is exact after a batch that was run in full, and short otherwise
  (`SampleClock.LastBatchDecides`, `SampleClock.ShortBatch`). The 32-bit counter gives what is to do
  exactly while that is less than 2^32 samples (`SampleClock.CountedRight`).
- PIO reads bring the bytes of a DMA read exactly when every sector has an even, non-zero size
  (`IdePackets.PioLikeDma`, `IdePackets.OddSector`).
- MODE SELECT changes the first ten bytes of the mode table only (`IdePackets.ModeRoundTrip`).
- Frames with an empty payload, or with a hash in it, are not parsed back
  (`GdbFraming.FramesRoundTrip`). The reply to an unsupported command is such an empty frame
  (`GdbFraming.EmptyFrameRefused`). A payload with a NUL is not sent as its frame at all; what is sent
  brings the payload back exactly if it has none of these (`GdbFraming.SentComesBack`).
- ARM exceptions: the guest finds the status word of the architecture on entry exactly when T was
  clear, and F as well unless the exception is a fast interrupt (`ArmBanks.EntryAsArchitected`). A
  software interrupt with F set, and one with T set, are in `ArmBanks.EntryDiffers`.
- Paths: one that needs escapes and has PATH_MAX - 1 characters or more is not read back
  (`Paths.EscapeRoundTrip`, `Paths.LongPathLost`). The expander reads past the terminator exactly when the input ends in
  an odd number of backslashes, leaves no variable open, and the text before the last backslash fits
  (`Paths.OverrunExactly`, `Paths.LoneBackslashOverruns`).

## Model

| member | source | states |
|---|---|---|
| MessageRing.Ring.Occupancy | src/tqueue.c:43-44 | The empty and full tests are right, and the ring never holds more than 63 entries. |
| MessageRing.Ring.PutAppends | src/tqueue.c:46-55 | Queueing an entry appends it to the contents if and only if the ring was not full. |
| MessageRing.Ring.DropRemovesOldest | src/tqueue.c:96-103 | Taking an entry removes the oldest one and leaves the ring not full. |
| MessageRing.MessageQueue.Enqueue | src/tqueue.c:46-55 | The array after an enqueue holds the old contents and then the entry; needs the ring not full, as the assertion does. |
| MessageRing.MessageQueue.Dequeue | src/tqueue.c:96-107 | Gives the oldest entry, keeps the others in order, and tells whether 63 were held. |
| QueueProtocol.ProducerKeepsInv | src/tqueue.c:60-90 | Every statement of a post or a send keeps the invariant of the protocol. |
| QueueProtocol.ConsumerKeepsInv | src/tqueue.c:95-143 | Every statement of the processing functions keeps it, callbacks in progress included. |
| QueueProtocol.ConsumerKeepsFrames | src/tqueue.c:95-117 | Each message taken has one callback, later ones nested inside earlier ones, and a result only once it has returned. |
| QueueProtocol.ConsumerKeepsSync | src/tqueue.c:76-117 | At most one synchronous message is outstanding: the last one queued, whose sender waits. |
| QueueProtocol.ConsumerKeepsSender | src/tqueue.c:84-115 | The message of a waiting sender stays in the ring or in a callback until its result has been published. |
| QueueProtocol.ConsumerKeepsReplies | src/tqueue.c:86-115 | The result a woken sender is about to read is that of its own callback. |
| QueueProtocol.FirstInFirstOut | src/tqueue.c:46-117 | In every reachable state the messages queued are those called, then the one in hand, then the ring, in that order; the assertion never fails. |
| QueueProtocol.EveryCallQueued | src/tqueue.c:57-90 | Over every run, the messages of all calls made, in order and each marked as what it is, are those called back, the one in hand, those in the ring, and that of the call under way; a call that has returned has none under way. |
| QueueProtocol.LeavesNothing | src/tqueue.c:119-143 | A processing call leaves with the ring empty and every message called back. |
| QueueProtocol.WaitProcesses | src/tqueue.c:135-143 | `tqueue_process_wait` does not leave before it has taken a message. |
| QueueProtocol.WaitsOnlyWhenAsked | src/tqueue.c:119-143 | Nobody waits for a message who has not called it. |
| QueueProtocol.SendReturnsOwnResult | src/tqueue.c:76-90 | Every send that has returned gave the result of the callback of its own message. |
| QueueProtocol.EverySendAnswered | src/tqueue.c:76-90 | Over every run, the sends have their replies in order, but for the one that has not returned. |
| QueueProtocol.ResultsReturned | src/tqueue.c:109-115 | A result is one that a callback has returned in the run. |
| QueueProtocol.BothBlocked | src/tqueue.c:60-143 | Both threads wait for a signal exactly when the consumer waits inside the callback of the message whose sender waits. |
| QueueProtocol.NeverDeadlocks | src/tqueue.c:60-143 | In every reachable state but those, some thread can go on, a blocked producer leaves the consumer a step or a call to make, and a waiting consumer leaves the producer one. |
| QueueProtocol.OutermostWaitsAreSafe | src/tqueue.c:135-143 | A client whose callbacks never call `tqueue_process_wait` never comes to one of them. |
| QueueProtocol.LeavingUnblocks | src/tqueue.c:95-143 | When an outermost processing call leaves, no producer is blocked any more. |
| QueueProtocol.ProducerAdvances | src/tqueue.c:60-90 | Every step of a post or a send brings it nearer to its end, and nothing the consumer does takes it farther away. |
| QueueProtocol.CallsEnd | src/tqueue.c:60-90 | Over every run, no call takes more than eight steps of the producer. |
| QueueProtocol.WorkDecreases | src/tqueue.c:95-117 | Every step of the consumer and every return of a callback uses up some of the work left. |
| QueueProtocol.ProcessingEnds | src/tqueue.c:95-117 | A run of consumer steps and returning callbacks alone is no longer than the work there was. |
| QueueProtocol.AloneCanGoOn | src/tqueue.c:95-143 | And the consumer has such a step until it waits or is outside of all callbacks, unless the producer holds the mutex. |
| QueueProtocol.ProcessingUnblocks | src/tqueue.c:95-143 | When such a run from a reachable state leaves an outermost processing call, no producer is blocked. |
| QueueProtocol.WaitKeepsSender | src/tqueue.c:135-143 | While a call of `tqueue_process_wait` has found no message, no sender comes to wait for a callback in progress. |
| QueueProtocol.NestedWaitDeadlocks | src/tqueue.c:135-143 | Such a call can end in a deadlock before it finds a message if and only if it is made while the sender of a message waits whose callback is in progress. |
| QueueProtocol.DeadlockReached | src/tqueue.c:76-143 | A send, and a wait in its callback, lead to a reachable state in which nothing can happen. |
| EventSchedule.InsertKeepsSorted | src/eventq.c:86-102 | Enqueueing keeps the short list in the order of deadlines, and of arrival on ties. |
| EventSchedule.RemoveKeeps | src/eventq.c:190-203 | Cancelling keeps the lists well formed, and the event is on neither of them. |
| EventSchedule.AddShortKeeps | src/eventq.c:152-168 | Scheduling keeps the lists well formed if and only if the deadline is not the sentinel. |
| EventSchedule.AddLongKeeps | src/eventq.c:170-188 | The same for the long list. |
| EventSchedule.PerformKeeps | src/eventq.c:152-203 | Any of the three operations keeps the queue well formed exactly when its wrapped deadline is not the sentinel. |
| EventSchedule.SentinelDeadline | src/eventq.c:152-168 | An input whose deadline is the sentinel. |
| EventSchedule.ScanStepKeeps | src/eventq.c:292-313 | One step of the scan, at any position, keeps both lists in order and apart. |
| EventSchedule.ScanStepEquation | src/eventq.c:292-313 | Taking the steps one by one ends where the whole scan does, each long event losing one second once. |
| EventSchedule.ScanKeeps | src/eventq.c:292-313 | A scan carried on from any position keeps the queue well formed. |
| EventSchedule.RunSliceKeeps | src/eventq.c:320-340 | A slice keeps the queue well formed. |
| EventSchedule.PopKeeps | src/eventq.c:209-212 | Taking the first event off keeps the queue well formed, with the event on neither list. |
| EventTiming.InTimeExact | src/eventq.c:152-188 | A deadline sum below the sentinel is put in the node as it is. |
| EventTiming.PerformKeepsTime | src/eventq.c:152-203 | Cancelling keeps every event on time; scheduling does if and only if the unsigned sum in the node does not wrap around. |
| EventTiming.WrappedDeadline | src/eventq.c:152-168 | An event asked for in four seconds that is due at once. |
| EventTiming.ScanKeepsTime | src/eventq.c:292-313 | A scan keeps that sum for every long event, and one that is moved to the short list is late by less than a slice. |
| EventTiming.RunSliceKeepsTime | src/eventq.c:320-340 | A slice, with or without a scan, keeps every event on time. |
| EventTiming.FiredAfter | src/eventq.c:206-219 | What comes before every short event comes before everything fired from then on. |
| EventTiming.FiringOrder | src/eventq.c:206-219 | Whatever callbacks schedule and cancel, events fire in the order of their deadlines, first come first on ties, none early, and every short event left is strictly later. |
| EventTiming.DueEventsFire | src/eventq.c:206-219 | Every event due at the call fires, wrapped deadlines or not, unless a callback before it has named it. |
| EventTiming.FiringEnds | src/eventq.c:206-219 | When callbacks schedule only with a positive delay, no more events fire than were due. |
| EventTiming.EveryEventPunctual | src/eventq.c:152-340 | Over any run without wrap-around, no event fires before the absolute time asked for and its deadline is late by less than one slice, however many scans it has been through. |
| EventRuns.SlicePasses | src/eventq.c:320-336 | A slice moves the clock on by its length and the countdown back by it, with one period added exactly when nothing is left. |
| EventRuns.SliceMoves | src/eventq.c:292-336 | Every event is there after a slice, as what the slice makes of it, and there is no other. |
| EventRuns.PerformMoves | src/eventq.c:152-203 | An operation leaves every other event as it is, and queues its own for the time asked for. |
| EventRuns.TimePasses | src/eventq.c:206-340 | Over any run the clock is the sum of the slices, and every event fires at the slices before its call and the part of a slice given. |
| EventRuns.NothingIsLost | src/eventq.c:152-340 | An event that nobody names any more stays queued until it fires. |
| EventRuns.EveryEventFires | src/eventq.c:206-340 | Once the time asked for has passed by a slice, the next `event_execute` fires it, unless one before has. |
| EventNodes.LinkInKeepsChain | src/eventq.c:88-101 | Relinking for an insertion at any position spells out the list with the event put in there. |
| EventNodes.LinkOutKeepsChain | src/eventq.c:104-145 | Relinking for a removal spells out the list without the event. |
| EventNodes.PositionByNodes | src/eventq.c:88-95 | Comparing the counters of the nodes finds the place that the absolute deadlines give. |
| EventNodes.RemoveNodes | src/eventq.c:190-203 | Unmarking a node leaves the nodes agreeing with the lists without that event. |
| EventNodes.OnOneList | src/eventq.c:193-201 | The seconds kept in a scheduled node tell which list it is on. |
| EventNodes.AdvanceNodes | src/eventq.c:322-330 | Nodes decremented by the slice, down to zero, hold the deadlines counted from its end. |
| EventNodes.ScanStepNodes | src/eventq.c:292-313 | Decrementing the seconds of one long node is one step of the scan. |
| EventQueue.Queues.constructor | src/eventq.c:226-242 | The queue starts valid and empty, with the CPU informed. |
| EventQueue.Queues.UpdatePending | src/eventq.c:59-72 | The CPU then knows whether and when the next event is due. |
| EventQueue.Queues.Enqueue | src/eventq.c:86-102 | Links a node into the short list behind every node due no later, and touches the long list nowhere. |
| EventQueue.Queues.Dequeue | src/eventq.c:104-124 | Unlinks an event of the short list, whichever place it has. |
| EventQueue.Queues.DequeueLong | src/eventq.c:126-145 | The same for the long list. |
| EventQueue.Queues.CancelEvent | src/eventq.c:190-203 | Takes the event off whichever list it is on and marks it; nothing else changes. |
| EventQueue.Queues.ScheduleEvent | src/eventq.c:152-168 | Reschedules the event in the short list, with the wrapped sum in its node; the queue stays valid exactly when the deadline is not the sentinel. |
| EventQueue.Queues.ScheduleLongEvent | src/eventq.c:170-188 | The same for long delays, zero seconds included. |
| EventQueue.Queues.Callback | src/eventq.c:215 | A callback may make any calls of the three operations. |
| EventQueue.Queues.Pop | src/eventq.c:210-212 | Takes the first event off and marks it before its callback. |
| EventQueue.Queues.ExecuteDue | src/eventq.c:206-219 | Fires what the specification of the loop fires, ends with its queue, and informs the CPU. |
| EventQueue.Queues.AdvanceShort | src/eventq.c:322-330 | Decrements every short node once: the clock moves on by the slice. |
| EventQueue.Queues.ScanHead | src/eventq.c:294-298 | One round of the first loop of the scan. |
| EventQueue.Queues.ScanNext | src/eventq.c:303-311 | One round of the second loop. |
| EventQueue.Queues.ScanLong | src/eventq.c:292-313 | Both loops together are one scan of the whole long list. |
| EventQueue.Queues.AdvanceSlice | src/eventq.c:320-340 | The clock and the countdown move by the slice; nodes of short events come nearer by it, down to zero, those of long ones lose a second with a scan; the queue is that of the specification and the CPU is informed. |
| Scrambler.PickBelow | src/bootstrap.c:145-161 | The 32-bit product never wraps, and the index picked is below the one visited. |
| ScrambleSeeds.NextSeedIs | src/bootstrap.c:145 | The next seed is the one below 2^15 in the linear congruence. |
| ScrambleSeeds.DrawIs | src/bootstrap.c:145 | The draw is the seed moved by 0xC000 modulo 2^16. |
| ScrambleSeeds.PickScales | src/bootstrap.c:161 | The index picked is the part of the range the draw lies in, out of i equal ones. |
| ScrambleSeeds.PicksReached | src/bootstrap.c:145-161 | Which indices below i can be picked at all: those of the first and the last quarter of the range. |
| ScrambleSeeds.FullPeriod | src/bootstrap.c:145 | The generator comes back to a seed after every 2^15 steps and no earlier. |
| ScrambleSeeds.AllDifferent | src/bootstrap.c:145 | So as many steps in a row give as many different seeds. |
| ScrambleSeeds.EightChunks | src/bootstrap.c:156-164 | The table of the eight chunks of a file of 256 bytes. |
| ScrambleSeeds.SmallFile | src/bootstrap.c:147-175 | And the order its chunks come in when it is scrambled. |
| Scrambler.TableIsPermutation | src/bootstrap.c:157-164 | The table is always a permutation of the chunks. |
| Scrambler.VisitedIsFinal | src/bootstrap.c:160-165 | An entry once visited is never changed again. |
| Scrambler.TableIsOneCycle | src/bootstrap.c:157-164 | The table of every block is one single cycle over all its chunks. |
| Scrambler.NoFixedChunk | src/bootstrap.c:157-164 | So in a block of two chunks or more none stays where it is. |
| Scrambler.PositionsOnto | src/bootstrap.c:154-174 | The blocks tile the file: every byte has exactly one place. |
| Scrambler.TailStays | src/bootstrap.c:172-174 | The bytes after the last whole chunk are copied where they are. |
| Scrambler.UnscrambleAfterScramble | src/bootstrap.c:147-205 | Unscrambling a scrambled file gives the file, for every length. |
| Scrambler.ScrambleAfterUnscramble | src/bootstrap.c:147-205 | And the other way round. |
| Scrambler.ShuffleStep | src/bootstrap.c:161-164 | One swap of the table is one step of the shuffle, and makes the visited entry final. |
| Scrambler.ScrambleBlock | src/bootstrap.c:156-167 | Writes the chunks of a block in the order of its final table, and nothing outside the block. |
| Scrambler.UnscrambleBlock | src/bootstrap.c:186-197 | Puts each chunk back at the place the same table gives it. |
| Scrambler.Scramble | src/bootstrap.c:147-175 | The destination is the scrambled source, and nothing beyond its length is written. |
| Scrambler.Unscramble | src/bootstrap.c:177-205 | The destination is the unscrambled source. |
| Asic.RaisedEvents | src/asic.c:212-229 | Raising an event makes it and its cascade bit pending and touches no other. |
| Asic.ClearedEvents | src/asic.c:231-248 | Clearing an event takes away that event and no other source. |
| Asic.RaisedKeepsCascades | src/asic.c:212-229 | The cascade bits stay right unless somebody raises one of them by itself over an empty word. |
| Asic.ClearedKeepsCascades | src/asic.c:231-248 | Or clears one of them by itself over a word that is not empty. |
| Asic.Acknowledged0Keeps | src/asic.c:488-492 | A guest write to the first pending word clears no cascade bit and sets nothing. |
| Asic.Acknowledged2Keeps | src/asic.c:493-501 | A guest write to the third word clears its cascade bit exactly with the last event. |
| AsicEvents.EventPlace | src/asic.c:212-215 | An event is bit number & 31 of word number / 32. |
| AsicEvents.AcknowledgedFirst | src/asic.c:488-492 | A write to the first pending register takes away exactly the events of the first word written with a one, but for the cascade bits. |
| AsicEvents.AcknowledgedSecond | src/asic.c:486-487 | A write to the second does nothing. |
| AsicEvents.AcknowledgedThird | src/asic.c:493-501 | A write to the third takes away exactly those of the third word, and the cascade bit when none is left. |
| AsicEvents.SelectedEvents | src/asic.c:247-263 | A mask selects what is pending if and only if it has the bit of a pending event. |
| AsicEvents.EveryEventTracked | src/asic.c:212-513 | Over any run, a source is pending if and only if it was or has been raised, and has not been cleared or acknowledged since. |
| Asic.Multiplexer.RaiseEvent | src/asic.c:212-229 | Keeps each CPU line up exactly when a pending event is selected for it, looking only at the words it has changed. |
| Asic.Multiplexer.ClearEvent | src/asic.c:231-245 | The same for clearing. |
| Asic.Multiplexer.CheckCleared | src/asic.c:247-263 | Letting lines go is enough once pending bits have only been taken away. |
| Asic.Multiplexer.MaskChanged | src/asic.c:265-287 | After a change of a mask all three lines are recomputed. |
| Asic.Multiplexer.Write | src/asic.c:482-513 | Guest writes to pending and mask registers keep lines and cascade bits right, and change only what they may. |
| Asic.Multiplexer.Perform | src/asic.c:212-287 | Any operation keeps them right, so they are in every reachable state. |
| Asic.SecondWordStays | src/asic.c:486-501 | An event of the second word stays pending, with its cascade bit, over any run that does not clear it. |
| IdeDevice.RaiseInterrupt | src/gdrom/ide.c:264-271 | The request is up afterwards, the event pending exactly when the control register lets it through, and nothing else changes. |
| IdeDevice.ReadNextSector | src/gdrom/ide.c:451-466 | A sector leaves one less to read, or the transfer ends with an error. |
| IdeInterrupts.OtherEventsStay | src/gdrom/ide.c:264-280 | Raising and clearing the request touch no event of another device. |
| IdeInterrupts.StatusTakesBack | src/gdrom/ide.c:288-293 | A status read takes the request and the event back if and only if the drive is not busy. |
| IdeInterrupts.RegisterAccess | src/asic.c:576-629 | Through the registers: the status read is that one, and writes to feature and command are ignored while the drive is busy, but for NOP. |
| IdeInterrupts.Commands | src/gdrom/ide.c:389-439 | NOP and SET FEATURE interrupt at once, and what the host then finds in the registers. |
| IdeInterrupts.PacketWanted | src/gdrom/ide.c:202-210 | PACKET takes the interrupt back and waits for twelve bytes. |
| IdeInterrupts.ResetSigns | src/gdrom/ide.c:137-158 | RESET takes it back and leaves the signature of a packet device. |
| IdeInterrupts.CommandKept | src/gdrom/ide.c:389-391 | The command is kept, and an unknown one only takes the interrupt back. |
| IdeInterrupts.WriteStarts | src/gdrom/ide.c:233-248 | Data is asked for by an interrupt and the byte count, or by DMA. |
| IdeInterrupts.ReceivedBusy | src/gdrom/ide.c:354-363 | A drive that has its packet is busy with it. |
| IdeInterrupts.Acknowledgements | src/gdrom/ide.c:489-599 | TEST READY and SPIN UP only interrupt; PLAY AUDIO also tells what came of it. |
| IdeInterrupts.Reports | src/gdrom/ide.c:497-631 | Commands that report something give their answer, refuse with an interrupt, or find a wrong field without one. |
| IdeInterrupts.NextIs | src/gdrom/ide.c:461-462 | Sector numbers and counts wrap around at 32 bits. |
| IdeInterrupts.Refusals | src/gdrom/ide.c:482-486 | After a reset, without a disc, and for unknown commands, the packet ends in an interrupt with the error in the registers and the sense bytes. |
| IdeInterrupts.SectorOffered | src/gdrom/ide.c:451-466 | A sector is offered to the host, with its size in the registers and with an interrupt unless it goes by DMA; or there is an interrupt with the error. |
| IdeInterrupts.ReadInterrupts | src/gdrom/ide.c:586-592 | The same from a READ SECTOR packet on. |
| IdeInterrupts.DrainEnds | src/gdrom/ide.c:295-313 | A transfer by words ends in an interrupt, done or failed as its sectors say. |
| IdeInterrupts.DmaEnds | src/gdrom/ide.c:325-352 | So does one by DMA. |
| IdeInterrupts.TransferInterrupts | src/gdrom/ide.c:264-592 | From the READ SECTOR packet to the end of its transfer, in either mode: the request is up, the registers tell how it ended, and the next status read takes the request back. |
| IdeInterrupts.AskingReachesLine | src/asic.c:217-222 | What is asked for and let through selects the line of every mask that has the bit of the drive. |
| IdeTransfers.ForeignKeepsMirror | src/asic.c:482-513 | Other events and guest writes never touch the event of the drive. |
| IdeTransfers.InterruptMirrored | src/gdrom/ide.c:264-439 | Over any sequence of accesses the event of the drive is pending exactly when its interrupt request is up and the control register lets it through; no access leaves the buffer. |
| IdeTransfers.DmaAdds | src/gdrom/ide.c:325-352 | Reading a bytes and then b by DMA is reading a + b: same bytes, same device, same interrupt state. |
| IdeTransfers.DmaDelivers | src/gdrom/ide.c:325-352 | A DMA read brings the rest of the sector and then the sectors to come, up to the first that cannot be read. |
| IdeTransfers.DrainDelivers | src/gdrom/ide.c:295-313 | Reading words to the end brings the same when all sectors have even sizes. |
| IdeTransfers.DrainCounts | src/gdrom/ide.c:295-313 | And how many bytes it brings in any case. |
| IdePackets.WordsStored | src/gdrom/ide.c:354-376 | As many words as the drive waits for end up in its buffer in order, and the last one sets off the command or ends the write. |
| IdePackets.PacketGetsThrough | src/gdrom/ide.c:354-404 | A packet sent to a drive that is not busy is carried out on its twelve bytes, with the other registers as they were. |
| IdePackets.PioLikeDma | src/gdrom/ide.c:586-592 | A READ SECTOR packet brings by DMA the sectors it asks for, up to the first that cannot be read; by PIO the same bytes if and only if every one of them has an even, non-zero size. |
| IdePackets.OddSector | src/gdrom/ide.c:295-313 | A sector of one byte, of which PIO gives two. |
| IdePackets.ReplyComesBack | src/gdrom/ide.c:250-255 | What a command answers with comes back as it is, by DMA or by PIO. |
| IdePackets.DmaTells | src/gdrom/ide.c:325-352 | A DMA read that runs into a sector that cannot be read leaves the error and the number of that sector in the sense bytes. |
| IdePackets.DrainTells | src/gdrom/ide.c:295-313 | So does reading by words. |
| IdePackets.FailureComesBack | src/gdrom/ide.c:548-592 | From the READ SECTOR packet to the answer of SENSE: it tells the error and the number of the first sector that could not be read. |
| IdePackets.ModeSelected | src/gdrom/ide.c:536-547 | A MODE SELECT packet and its data change the part of the table they name, up to the tenth byte. |
| IdePackets.ModeSensed | src/gdrom/ide.c:524-535 | A MODE SENSE packet brings back the part of the table it names. |
| IdePackets.ModeRoundTrip | src/gdrom/ide.c:524-547 | What MODE SELECT has written there, MODE SENSE brings back, and every other byte as it was. |
| IdePort.StoreAdds | src/gdrom/ide.c:334-336 | Copying in pieces to consecutive addresses leaves the same memory. |
| IdePort.Port.InterruptReachesCpu | src/gdrom/ide.c:264-271 | A drive interrupt that is up, let through and masked in asserts the CPU line. |
| IdePort.Port.constructor | src/gdrom/ide.c:137-158 | The drive starts idle, with its interrupt down. |
| IdePort.Port.RaiseInterrupt | src/gdrom/ide.c:264-271 | The request is up, the event pending exactly when the control register lets it through, and no other register changes. |
| IdePort.Port.ClearInterrupt | src/gdrom/ide.c:273-280 | Takes both back. |
| IdePort.Port.WriteControl | src/gdrom/ide.c:378-387 | Raises or clears the event when the enable bit changes under a pending request. |
| IdePort.Port.ReadStatus | src/gdrom/ide.c:288-293 | Clears the interrupt unless the drive is busy. |
| IdePort.Port.SetPacketResult | src/gdrom/ide.c:183-197 | Sense bytes, error and state as the specification has them, with an interrupt on errors only. |
| IdePort.Port.StartRead | src/gdrom/ide.c:216-231 | Starts a transfer by DMA, or by PIO with an interrupt. |
| IdePort.Port.StartWrite | src/gdrom/ide.c:233-248 | The same for writing. |
| IdePort.Port.ReadNextSector | src/gdrom/ide.c:451-466 | The buffer holds the sector, or the sense bytes its address. |
| IdePort.Port.ReadDataPio | src/gdrom/ide.c:295-313 | The word read and the device afterwards are those of the specification, at the end of a sector too. |
| IdePort.Port.TransferRound | src/gdrom/ide.c:328-350 | One round of the DMA loop moves the bytes it says and makes progress. |
| IdePort.Port.ReadDataDma | src/gdrom/ide.c:325-352 | The loop ends; memory holds the bytes of the specification at the address, and their number is returned. |
| IdePort.Port.CarryOut | src/gdrom/ide.c:489-631 | The packet commands leave the device as specified. |
| IdePort.Port.PacketCommand | src/gdrom/ide.c:473-633 | With the checks before them, and the first byte of the buffer remembered after them. |
| IdePort.Port.StoreMode | src/gdrom/ide.c:635-649 | MODE SELECT data replaces its part of the first ten bytes of the table. |
| IdePort.Port.WriteDataPio | src/gdrom/ide.c:354-376 | Words written are stored in place, and the last one starts the command or ends the transfer. |
| IdePort.Port.Reset | src/gdrom/ide.c:137-158 | A reset takes the interrupt back and leaves the control register alone. |
| IdePort.Port.WriteCommand | src/gdrom/ide.c:389-439 | Commands leave the device as specified. |
| GdbFraming.HexRoundTrip | src/gdbserver.c:87-122 | Memory written as digits is read back, and the digits hold no hash. |
| GdbFraming.DigitForms | src/gdbserver.c:112-122 | Digits are read in either case, and a sign before a single one. |
| GdbFraming.NoOtherDigit | src/gdbserver.c:112-122 | No other character is a digit. |
| GdbFraming.NoNumber | src/gdbserver.c:112-122 | A pair that begins with neither a digit nor a sign before one is no number. |
| GdbFraming.ParseAppend | src/gdbserver.c:417-466 | What a stream called for before its last bytes came it still calls for, and the rest is decided by what was carried over. |
| GdbFraming.RestStays | src/gdbserver.c:460-465 | What is carried over calls for nothing by itself. |
| GdbFraming.OutsideFrames | src/gdbserver.c:420-433 | Outside of frames, every control-C stops the machine, and nothing else does anything. |
| GdbFraming.Unfinished | src/gdbserver.c:434-465 | A frame without its whole checksum calls for nothing and is carried over. |
| GdbFraming.FirstAction | src/gdbserver.c:434-457 | A text between dollar and hash is handled if and only if it can be sent and has the checksum behind it; otherwise it is refused. |
| GdbFraming.ChecksumAdds | src/gdbserver.c:66-74 | The checksum is nothing on nothing, a byte on that byte, and adds up modulo 256. |
| GdbFraming.AnswerFrame | src/gdbserver.c:76-81 | The frame of OK, byte by byte. |
| GdbFraming.ChunksDoNotMatter | src/gdbserver.c:417-466 | However a stream is cut, the actions and the bytes left over are the same. |
| GdbFraming.FrameFirst | src/gdbserver.c:434-457 | The first action of a frame is to handle its payload if and only if that is not empty and has no hash. |
| GdbFraming.FramesRoundTrip | src/gdbserver.c:76-81 | Frames one after another are parsed back into their payloads if and only if all of them are such. |
| GdbFraming.MemoryRoundTrip | src/gdbserver.c:87-122 | A block of memory sent behind a prefix comes through whole. |
| GdbFraming.ComputeChecksum | src/gdbserver.c:66-74 | The sum of the bytes modulo 256. |
| GdbFraming.EmptyFrameRefused | src/gdbserver.c:445-449 | A frame with nothing in it is refused. |
| GdbFraming.SendFrame | src/gdbserver.c:76-81 | The bytes sent are the frame of the payload if and only if it has no NUL; otherwise it is cut off there and followed by stack bytes up to the length of the frame. |
| GdbFraming.SentComesBack | src/gdbserver.c:76-81 | The first action on the bytes sent is to handle the payload if and only if it is not empty and has neither a hash nor a NUL. |
| GdbFraming.CutOffFrame | src/gdbserver.c:76-81 | It is to handle the part before the NUL if and only if that part can be sent and has the checksum of the whole payload. |
| GdbFraming.SendHexData | src/gdbserver.c:87-107 | The bytes sent are the frame of the prefix and the digits. |
| GdbFraming.ReadHexData | src/gdbserver.c:112-122 | Pairs of digits are read one by one; one that is no number gives what the variable held. |
| GdbFraming.ScanFrame | src/gdbserver.c:434-457 | A hash with two bytes behind it ends the frame that the parser is inside of, and no earlier one did. |
| GdbFraming.Server.ProcessBuffer | src/gdbserver.c:417-466 | The actions taken and the bytes kept, in the buffer itself, are those of the meaning of the stream. |
| GdbFraming.Server.Receive | src/gdbserver.c:468-475 | New bytes are processed behind those carried over. |
| ArmBanks.PsrKeepsMode | src/aica/armcore.c:158-168 | Writing the flags back changes neither the mode nor, the second time, anything. |
| ArmBanks.PsrOfFlags | src/aica/armcore.c:252-263 | A status word taken apart into flags and put together is the same word. |
| ArmBanks.NestedExceptions | src/aica/armcore.c:239-263 | Exceptions nested into pairwise distinct banks and undone in reverse restore every bank not used, r0 to r12 and the status word, whatever the handlers do to their own registers, the flags and the bits that mask interrupts. |
| ArmBanks.InterruptedProgram | src/aica/armcore.c:239-263 | So the interrupted program finds every register but r15, and its status word, as they were. |
| ArmBanks.Core.constructor | src/aica/armcore.c:143-151 | A reset core is in supervisor mode, with the control byte the architecture gives it. |
| ArmBanks.Core.GetCpsr | src/aica/armcore.c:158-168 | Returns the status word with the flags in it, and changes no register. |
| ArmBanks.Core.SaveBank | src/aica/armcore.c:278-319 | The active registers go to the save area of their bank, and no bank changes. |
| ArmBanks.Core.LoadBank | src/aica/armcore.c:321-362 | The registers of the new bank come out of its area, and no bank changes. |
| ArmBanks.Core.SetMode | src/aica/armcore.c:272-363 | Between any two of the seven modes, no register of any bank changes once the mode bits are set. |
| ArmBanks.Core.EnterHandler | src/aica/armcore.c:244-249 | The link register, the saved status word and r15 are set in the new bank alone. |
| ArmBanks.EntryStatus | src/aica/armcore.c:246-248 | The status word put together on entry is that of the architecture if and only if F was clear or the exception is a fast interrupt. |
| ArmBanks.EntryAsArchitected | src/aica/armcore.c:239-250 | The guest finds it so if and only if T was clear as well. |
| ArmBanks.EntryDiffers | src/aica/armcore.c:239-250 | A software interrupt with F set and one with T set, and the words they give. |
| ArmBanks.Entries | src/aica/armcore.c:239-250 | Where each exception goes, and into which bank. |
| ArmBanks.ReturnResumes | src/aica/armcore.c:244-263 | A handler that returns to its link register less four resumes the program where it was. |
| ArmBanks.StatusWritten | src/aica/armcore.c:196-217 | What the guest reads after writing the status register, part by part. |
| ArmBanks.Core.RaiseException | src/aica/armcore.c:239-250 | Is exception entry with one register set per bank and the status word as the source has it. |
| ArmBanks.Core.RestoreCpsr | src/aica/armcore.c:252-263 | Is exception return, in a mode that has a saved status word naming one of the seven modes. |
| ArmBanks.Core.SetCpsr | src/aica/armcore.c:196-217 | Changes the control byte in privileged modes only, and no register of any bank. |
| ArmBlockTransfer.CountOrder | src/aica/armcore.c:1282-1300 | Lower registers have lower places in the block. |
| ArmBlockTransfer.Addresses | src/aica/armcore.c:1231-1435 | The address of each register listed and the base afterwards, in each of the four modes. |
| ArmBlockTransfer.BaseIs | src/aica/armcore.c:393 | r15 as a base is read four bytes on. |
| ArmBlockTransfer.UndoMeets | src/aica/armcore.c:1231-1435 | The undoing mode starts at the same address and ends at the base. |
| ArmBlockTransfer.StoreThenLoad | src/aica/armcore.c:1231-1435 | Each store followed by its undoing load, with write-back, gives back every register listed and the base, for lists without r15 and the base. |
| ArmBlockTransfer.PushThenPop | src/aica/armcore.c:1227-1435 | The two instructions with write-back one after the other give back the base and every register listed, and leave the others. |
| ArmBlockTransfer.LowestByteFirst | src/aica/armmem.c:158-163 | Words lie in memory with their lowest byte first. |
| ArmBlockTransfer.BlockGrows | src/aica/armmem.c:158-163 | One more word at either end of the block disturbs none of those in place. |
| ArmBlockTransfer.Core.Write | src/aica/armmem.c:158-179 | Four bytes of sound or scratch RAM change. |
| ArmBlockTransfer.Core.Read | src/aica/armmem.c:120-144 | Four bytes make the word that was written. |
| ArmBlockTransfer.Core.StoreUp | src/aica/armcore.c:1282-1293 | Exactly four bytes per register listed are written, lower registers lower, r15 last and eight on. |
| ArmBlockTransfer.Core.StoreDown | src/aica/armcore.c:1232-1243 | The same from the top down. |
| ArmBlockTransfer.Core.LoadUp | src/aica/armcore.c:1294-1301 | Each register listed gets the word at its place, the others keep theirs. |
| ArmBlockTransfer.Core.LoadDown | src/aica/armcore.c:1344-1351 | The same from the top down. |
| ArmBlockTransfer.Core.StoreMultiple | src/aica/armcore.c:1227-1435 | A store by any of the four modes, with the base written back last. |
| ArmBlockTransfer.Core.LoadMultiple | src/aica/armcore.c:1227-1435 | A load by any of them, the write-back going over a loaded base. |
| AudioRing.PutAppends | src/aica/audio.c:442-445 | A sample put in is the last of the stream in the ring, whether the driver has overtaken the writer or not. |
| AudioRing.ReadTakesOldest | src/aica/audio.c:248-269 | The driver takes the first samples of the stream and leaves the others; it leaves a ring that is in order so exactly when it has not emptied the buffer the writer is blocked on. |
| AudioRing.FilledKeeps | src/aica/audio.c:224-228 | Marking a buffer full keeps every sample, and their order in a ring that is in order. |
| AudioRing.AdvanceKeeps | src/aica/audio.c:233-241 | The writer goes on to a buffer that is not full or stays, and no sample moves. |
| AudioRing.Marks | src/aica/audio.c:233-266 | A buffer read is empty and starts again, the next one to be read from its beginning, and the one gone on to is marked as being written to. |
| AudioRing.WriteKeeps | src/aica/audio.c:224-242 | Closing a buffer keeps every sample, in order if the ring is, whatever the driver answers. |
| AudioRing.MixKeeps | src/aica/audio.c:413-475 | After a call of the mixer the samples taken and those in the ring are those before and the ones accepted, in order if the ring was. |
| AudioRing.MixAccepts | src/aica/audio.c:413-475 | Samples are dropped only when the next buffer is full. |
| AudioRing.NothingLost | src/aica/audio.c:224-475 | Over every run, nothing is lost, repeated or written over. |
| AudioRing.PlaysInOrder | src/aica/audio.c:224-475 | Over any run in which the driver does not overtake, samples are taken in the order in which they went in. |
| AudioRing.OvertakingReorders | src/aica/audio.c:224-475 | After every read that overtakes, the second buffer mixed from then on reaches the driver while the first is still in the ring. |
| AudioRing.EmptyingOvertakes | src/aica/audio.c:224-475 | A run that comes to such a read, for any size of buffer. |
| AudioRing.AudioState.constructor | src/aica/audio.c:202-214 | The ring starts in order and empty. |
| AudioRing.AudioState.NextReadBuffer | src/aica/audio.c:248-269 | Empties the buffer read and returns the next one if it is full. |
| AudioRing.AudioState.NextWriteBuffer | src/aica/audio.c:224-242 | Marks, asks the driver only about the buffer to be read, and goes on if it can. |
| AudioRing.AudioState.MixSamples | src/aica/audio.c:413-475 | The loop leaves the ring as specified, in every state the code can reach, and says how many samples went in. |
| Resampler.DistanceIsFirst | src/aica/audio.c:338-341 | The distance of a channel to its end, all round the 32-bit positions if need be, is the first place where it meets it. |
| Resampler.TravelArrives | src/aica/audio.c:336-350 | Step by step, round the loop and round 32 bits, the position is that of one formula; without a loop a channel stops exactly at that distance. |
| Resampler.StepsAdd | src/aica/audio.c:335-338 | Dividing after every output sample loses nothing against dividing once. |
| Resampler.StepsIs | src/aica/audio.c:335-338 | What an output sample adds is so many whole output rates and a rest. |
| Resampler.RoundIs | src/aica/audio.c:341-343 | Going round a loop takes away whole loops. |
| Resampler.MoveOn | src/aica/audio.c:335-350 | One output sample moves the channel by that many source samples, for all values of its registers. |
| Resampler.Play | src/aica/audio.c:329-351 | The source sample played at every output sample is the one for the whole time since the start, so the pitch never drifts; a channel falls silent after the one that brings it to its end. |
| SampleClock.SliceCatchesUp | src/aica/aica.c:96-113 | A slice asks for what is due and not yet done, and catches up on everything missed when it is run in full. |
| SampleClock.CountersAddUp | src/aica/aica.c:105-112 | Nothing is lost when the counters roll over. |
| SampleClock.DueIs | src/aica/aica.c:101 | The samples due are those that are over at 44100 in a second. |
| SampleClock.TotalIs | src/aica/aica.c:96-114 | In figures: up to date exactly when 10^9 times the total is at most 44100 times the time, and 10^9 times one more is above it. |
| SampleClock.SecondsCounted | src/aica/aica.c:108-112 | The time of day has moved on by the seconds that are over, each counted once it has been passed. |
| SampleClock.NoDrift | src/aica/aica.c:96-114 | The total never exceeds the samples due for the time run, and equals them exactly when the counters agree. |
| SampleClock.LastBatchDecides | src/aica/aica.c:96-114 | It is exact if and only if the last batch was run in full. |
| SampleClock.ShortBatch | src/aica/aica.c:96-114 | A batch that stops one sample early, and the total it leaves. |
| SampleClock.WordDifference | src/aica/aica.c:101 | The unsigned counter gives the right request if and only if less than 2^32 samples are missing. |
| SampleClock.SignedIs | src/aica/aica.c:101-103 | The signed number the mixer is told is the same word. |
| SampleClock.CountedRight | src/aica/aica.c:101-106 | A slice on the counter is the slice as specified if and only if that is so, or the processor stops before the difference shows. |
| SampleClock.Aica.constructor | src/aica/aica.c:80-89 | The clock starts up to date. |
| SampleClock.Aica.RunTimeSlice | src/aica/aica.c:96-114 | A slice on the wrapping counter; the mixer is told its samples if and only if they are fewer than 2^31. |
| Paths.MeaningGrows | src/lxpaths.c:88-151 | The text of an input only ever grows. |
| Paths.BracedVariable | src/lxpaths.c:94-114 | A variable in braces brings its value, whatever comes behind. |
| Paths.PlainVariable | src/lxpaths.c:116-134 | One without braces does, up to the first character that is no part of a name. |
| Paths.SingleCharacters | src/lxpaths.c:119-150 | A lone dollar, an escaped character, a quote and any other character. |
| Paths.ExpandMeans | src/lxpaths.c:74-157 | The buffer changes only whether anything comes out: shorter texts always do, longer ones never. |
| Paths.EndOfInput | src/lxpaths.c:88-151 | An input has a variable left open if and only if there is an opening after an even run of backslashes with no closing brace behind it; otherwise its end is passed if and only if it ends in an odd run of backslashes. |
| Paths.OverrunExactly | src/lxpaths.c:137-144 | The expander reads past the terminator if and only if its input ends in an odd number of backslashes, leaves no variable open, and the text before fits. |
| Paths.BodyExpands | src/lxpaths.c:88-151 | The inside of an escaped path and its closing quote give back the path while it fits. |
| Paths.EscapeRoundTrip | src/lxpaths.c:50-157 | Reading back an escaped path gives the path, whatever the environment, if and only if it needed no escapes or is shorter than PATH_MAX - 1. |
| Paths.PathNeedsEscaping | src/lxpaths.c:37-48 | Some character is none of those left alone. |
| Paths.PlainRanges | src/lxpaths.c:37-48 | The characters left alone, by their codes. |
| Paths.BodyIs | src/lxpaths.c:58-66 | Only the four special characters get a backslash. |
| Paths.GetEscapedPath | src/lxpaths.c:50-72 | The buffer is large enough, and holds the escaped path. |
| Paths.ReadPiece | src/lxpaths.c:92-150 | One variable, escape, quote or character, and how far it reaches. |
| Paths.GetExpandedPath | src/lxpaths.c:74-157 | Every write stays in the buffer, terminators included, and the outcome is the specified one. |

## Left out

- Message queue: several producers, spurious wakeups, and callbacks that post. The waits of the source are not tested again, so the invariants are those of one producer thread and one consumer thread. Condition variables are signals to the one thread that can wait on them.
- Timer queue: `event_reset`, saving and loading, and registering callbacks. Callbacks are lists of calls of the three operations, fixed before the call. A slice is at most one second long, as a longer one would need more than one scan.
- EventTiming.EveryEventPunctual: deadlines that wrap around 32 bits are excluded; what they do is in EventSchedule.PerformKeeps.
- Interrupt controller: a line is up or down; priorities and lines masked by priority zero are not part of this model, nor are the DMA, PVR and Maple registers of the ASIC.
- IDE: the disc is a function from sector address and mode to at most 2352 bytes or an error, and does not change during a run; a failed read leaves the buffer alone. The answers of the commands that only report something (drive status, table of contents, session, status, 0x71) are a parameter, given the packet and the registers, and with them the bytes of a table beyond the length asked for. Memory is a plain array; the enable bit of the interface and the register file of the task registers other than feature are left out.
- IdePackets.PioLikeDma: a block count of zero, which the drive takes as 2^32, is excluded.
- GDB server: command dispatch, growing the buffer, binary data and sockets. The checksum field is exactly the two bytes behind the hash; white space that `sscanf` would skip counts as no digit, and so does a prefix 0x. What is on the stack before a payload with a NUL is printed is a parameter.
- ARM: data processing, addressing modes, user-bank transfers, condition codes and Thumb. Modes other than the seven are only kept from doing harm to the invariant. The saved status words are fields of their own beside the saved r8 to r14.
- ArmBlockTransfer.Core.StoreMultiple: the block lies in sound RAM or in scratch RAM; what device registers do, and addresses with no memory, are left out.
- ArmBlockTransfer.Core.LoadMultiple: the same.
- ArmBlockTransfer.Core.Write: the same.
- ArmBlockTransfer.Core.Read: the same.
- ArmBlockTransfer.Core.StoreUp: the same.
- ArmBlockTransfer.Core.StoreDown: the same.
- ArmBlockTransfer.Core.LoadUp: the same.
- ArmBlockTransfer.Core.LoadDown: the same.
- Audio: volume, panning, ADPCM decoding, conversion to the format of the driver, and the channel registers. Samples are numbers already in that format; mixer and driver calls are atomic.
- Resampler.Play: the remainder a channel starts with is below 2^31; it is never above the output rate.
- Resampler: rates are below 2^31, as those the frequency registers and the drivers give are.
- Paths: NULL inputs, and letters outside ASCII, which the C locale does not count as alphanumeric.
- Everything that is a foreign call or I/O: GUI, GL, audio back ends, files, plugins, the SH4, PVR2 and Maple.
