# An asynchronous logger, modelled and proved

The system is a logging library. Any number of threads call `log`. An entry goes into a bounded
ticket queue, or into an overflow ring when the queue refuses it; a background writer woken by a
semaphore, or the overflowing thread itself, drains both buffers into a file; a file manager rotates
the file and keeps the newest few. A small C bridge writes to the file manager directly and is the
only caller that rotates: `AsyncLogger` itself never asks for a rotation.

The project has four linked parts. Concurrent behaviour is a transition system whose steps are the
source's atomic operations, and each theorem is about every state of every run; code that updates
objects in place is a class whose methods are proved against functions on values.

**The ticket queue.** `TicketQueue` is the protocol: producers with a program point for each load of
tail and head, the compare-exchange (which may fail spuriously), the wait, the fill, the publication
and the count, and one consumer inside `popAll`. `TicketQueueSafety` proves the invariant,
`TicketQueueResults` what follows from it, `TicketQueueCalls` what single calls come to, and
`TicketQueueDrain` that draining ends. `AsyncQueue` is the same code as an object over an array, for
one caller at a time, against `BoundedFifo`.

**The overflow ring.** `RingBuffer` holds the object and, in module `BuffersAgree`, the equality of
queue and ring for any sequence of calls. `RingPushers` is the protocol of pushers that race between
two drains, with the size word that overshoots and is rolled back.

**The logger.** `LoggerProtocol` composes queue, ring, semaphore, writer and shutdown. A flush is not
one step: its two drains and each write are. `LoggerSafety` and `LoggerOrder` treat single steps,
`LoggerResults`, `LoggerCalls`, `LoggerLiveness` and `LoggerShutdown` hold the theorems about runs,
`LoggerAlone` those about undisturbed calls, and `LoggerLimits` has the runs that show they cannot be
stronger. `AsyncLogger` is the object over the real buffers and the file manager.

**The files.** `FileNames` models the names character by character, with `find`, `find_last_of`,
`substr` and `stoi` as the C++ standard library defines them, wrap-around included; `FileNamesExact`
characterises what they come to for any name. `LogVolume` is the file manager on values: a directory
is a map from names to bytes, and what the operating system decides (success of a rename, an open, a
write or a flush, the order of a listing) is a parameter. `LogRotation` treats single calls in any
directory, `LogRetention` and `LogHistory` follow whole runs with a listing that finds the numbered
files, `LogListing` runs with one that does not. `FileManager` and `Bridge` are the objects.

The listing compares bare file names with the base name. A base with a directory part is what the
code uses, since it makes every base absolute first; such a base matches no file. A bare base is what
is meant: the base's file name, compared in the base's own directory. Both are cases of one model,
and `SoundIffSane` says which bases the theorems about retained content, numbering and disk use serve.

Four promises are false of the code as it stands, and are replaced by what exactly holds:

* *`tryPush` returns false only when the queue is full.* It also does when head has passed the tail
  the producer read, and for no other reason: `RefusedOnlyWhen`, and `RefusedThoughEmpty` for a run.
* *Each thread's messages reach the file in program order.* Once everything accepted is written, the
  file is in order if and only if no ring drain found a thread with messages in both queue and ring:
  `FileOrderIffQuietDrains`. A push to the queue between the two drains of a flush brings that about:
  `OverflowOvertakes` for a run.
* *All messages are in the file when `deinitialize` returns.* They are if at some moment between the
  stop request and the last flush no thread has a message in hand and none logs afterwards:
  `ShutdownLosesNothing`. A message in hand at any time after the request, logged before or since,
  can be left behind: `MessageInHandMayBeLeftBehind`, and `LeftBehind` for two runs.
* *Rotated files are kept up to the retention count.* Exactly when the base has no directory part and
  does not contain `.log`, or at most one file has been closed: `RetentionIffListed`. The code makes
  every base absolute, so it keeps one, the last, under number 1: `AbsoluteBaseKeepsOne`,
  `BlindRunKeepsLastOnly`.

Where the specification documents differ from the code the model follows the code. Rotation does not
renumber `A.1.log` to `A.2.log`; the newest file has the highest number. A process that started under
its own name writes to the shared live file after a rotation. After a failed rotation `Initialize`
still reports success. A numbered file whose number exceeds `int` counts as the oldest of all.

## Model

| member | source | states |
|---|---|---|
| TicketQueueSafety.SlotAlreadyFree | src/src/async_queue.cpp:46-53 | the slot of a won ticket already shows that ticket's number |
| TicketQueueSafety.StepKeepsInv | src/src/async_queue.cpp:30-114 | every atomic step of any producer or the consumer keeps the invariant on counters, slots, producers, history and size word |
| TicketQueueSafety.RunKeepsInv | src/src/async_queue.cpp:30-114 | the invariant holds in every state of every run, for any capacity and any set of producers |
| TicketQueueResults.CapacityNeverExceeded | src/src/async_queue.cpp:34-45 | in every reachable state head <= tail <= head + capacity, although the two are read at different moments |
| TicketQueueResults.TicketsAreExclusive | src/src/async_queue.cpp:42-48 | two live tickets never share a slot and two producers never hold the same ticket |
| TicketQueueResults.SlotShowsPhase | src/src/async_queue.cpp:47-59 | number and contents of every slot in the window are determined by how far its ticket has come, capacity 1 included |
| TicketQueueResults.ProducerNeverSpins | src/src/async_queue.cpp:50-53 | a producer that holds a ticket always has an enabled step: its wait is over at the first test |
| TicketQueueResults.DeliveredInTicketOrder | src/src/async_queue.cpp:75-114 | what `popAll` has returned is the entries of tickets 0..head-1 in ticket order, and per thread a prefix of its pushes in push order |
| TicketQueueResults.NothingLostAtRest | src/src/async_queue.cpp:30-114 | once the queue is drained, an idle thread's delivered entries are exactly the pushes that returned true |
| TicketQueueResults.StepRefinesFifo | src/src/async_queue.cpp:30-114 | every atomic step is a step of a bounded FIFO whose `popAll` is atomic: winning a ticket appends that producer's entry below capacity, the load of tail takes all that waits, no other step is seen |
| TicketQueueResults.ReturnsWhatItClaimed | src/src/async_queue.cpp:79-113 | what `popAll` returns is, in order, exactly what it took at its load of tail |
| TicketQueueResults.RefusesExactlyWhen | src/src/async_queue.cpp:34-40 | `tryPush` refuses if and only if the queue is full at the load of head or head has passed the tail it read |
| TicketQueueResults.RefusedThoughEmpty | src/src/async_queue.cpp:34-40 | a concrete run of two producers ends with an empty queue refusing a push |
| TicketQueueCalls.RefusedOnlyWhen | src/src/async_queue.cpp:33-67 | over every reachable step that ends a call of `tryPush` without success: it is the producer's own, the queue is full at that moment or head has passed the tail that was read; a lost or failed exchange refuses nothing |
| TicketQueueCalls.AloneReturns | src/src/async_queue.cpp:33-67 | from any point of a call in any state, if nobody else moves it returns; refused exactly when the queue is full or head has passed the tail read, otherwise its entry is the next ticket's and success is reported |
| TicketQueueCalls.AloneAlways | src/src/async_queue.cpp:33-67 | and every undisturbed run of the call has that outcome |
| TicketQueueCalls.CallAlone | src/src/async_queue.cpp:30-68 | a whole undisturbed call is refused if and only if tail - head is the capacity, otherwise tail is one higher and the entry is reported pushed |
| TicketQueueCalls.PopAllBringsAllThere | src/src/async_queue.cpp:75-114 | when a call of `popAll` has returned, every entry whose ticket was won before the call has been delivered, in ticket order |
| TicketQueueResults.SizeAccounting | src/src/async_queue.cpp:58-62 | the size word is counted minus discounted entries modulo 2^64, dips below zero by at most the producers in flight, and is tail - head when nobody is inside |
| TicketQueueDrain.AwaitedTicketIsInGoodHands | src/src/async_queue.cpp:93-97 | whenever `popAll` waits, exactly one producer holds the awaited ticket unpublished, and it can step |
| TicketQueueDrain.HelperHelps | src/src/async_queue.cpp:89-110 | the awaited step, the consumer's own or that producer's, lowers a measure of the drain |
| TicketQueueDrain.OthersDoNotHurt | src/src/async_queue.cpp:89-110 | any other step leaves the measure and the awaited step as they are |
| TicketQueueDrain.DrainCompletes | src/src/async_queue.cpp:75-114 | on every infinite run that is weakly fair, every call of `popAll` returns |
| TicketQueueDrain.PopAllAlone | src/src/async_queue.cpp:75-114 | an undisturbed call on a queue of published entries begins, returns, and leaves the queue empty with every entry delivered in order |
| BoundedFifo.Conservation | src/src/async_queue.cpp:30-114 | over any sequence of calls, entries handed out followed by entries left are the initial entries followed by the accepted ones |
| BoundedFifo.NeverOverfull | src/src/async_queue.cpp:37-40 | no sequence of calls makes the queue exceed its capacity |
| AsyncQueueClass.AsyncQueue.constructor | src/src/async_queue.cpp:5-14 | every slot is free for the ticket of its own index and nothing waits |
| AsyncQueueClass.AsyncQueue.TryPush | src/src/async_queue.cpp:30-68 | alone, accepts if and only if not full, appends the entry, and never spins |
| AsyncQueueClass.AsyncQueue.PopAll | src/src/async_queue.cpp:75-114 | returns all waiting entries in order, empties the queue and frees each slot for its next ticket |
| AsyncQueueClass.AsyncQueue.Size | src/src/async_queue.cpp:120-122 | alone, the size word is the number of waiting entries |
| RingBufferClass.RingBuffer.TryPush | src/src/log_buffer.cpp:15-42 | alone, accepts if and only if not full and appends, head growing without bound while tail is reduced |
| RingBufferClass.RingBuffer.PopAll | src/src/log_buffer.cpp:44-69 | returns all waiting entries in order and leaves the ring empty |
| BuffersAgree.AskBoth | src/src/log_buffer.cpp:15-77 | for any sequence of calls queue and ring of one capacity give the same answers, those of the bounded FIFO |
| RingPushers.StepKeepsInv | src/src/log_buffer.cpp:15-42 | every atomic step of any pusher keeps the invariant on size word, head, slots and accepted entries |
| RingPushers.AcceptedFits | src/src/log_buffer.cpp:19-32 | accepted entries never exceed the capacity, and the size word overshoots it by at most the number of pushers |
| RingPushers.SizeWordNeverWraps | src/src/log_buffer.cpp:25-32 | while capacity plus pushers is below 2^64 - 1 the fetch-add and the roll-back are exact on machine words |
| RingPushers.RefusedExactlyWhenFull | src/src/log_buffer.cpp:19-32 | at either size test a pusher is turned away if and only if `cap` entries are in the ring or have their place granted, despite overshoot in flight |
| RingPushers.CallAlone | src/src/log_buffer.cpp:15-42 | an undisturbed call, whatever overshoot others have in flight, is refused by a look at the size alone if all places are taken or granted, and otherwise stores its entry in the slot of head |
| RingPushers.PlacesAreExclusive | src/src/log_buffer.cpp:34-39 | pushers about to store use different slots, none of them a waiting entry's |
| RingPushers.QuietAgain | src/src/log_buffer.cpp:15-42 | once all pushers are done the ring holds the waiting entries followed by the accepted ones, and size and head agree again |
| LoggerSafety.StepKeepsInv | src/src/async_logger.cpp:97-164 | every step of loggers, flushes, writer and shutdown keeps the invariant on ring owners, messages, wakeups and shutdown |
| LoggerResults.FewThreadsDropNothing | src/src/async_logger.cpp:118-131 | with at most `queue_size` logging threads no message is dropped, in any interleaving and even if the queue refuses when not full |
| LoggerLimits.OneThreadTooManyCanDrop | src/src/async_logger.cpp:118-131 | with any larger number of threads, whatever the capacity, some run drops a message |
| LoggerResults.EachMessageInOnePlace | src/src/async_logger.cpp:97-148 | in every state a message that passed the level check is in exactly one of: its thread's hands, queue, ring, a flusher's batch, file, dropped |
| LoggerResults.NoLostWakeup | src/src/async_logger.cpp:118-164 | while entries wait in the queue the semaphore is positive, or a thread is about to release it, or the writer is on its way; a blocked writer is about to be released |
| LoggerCalls.ReleasesMatchPushes | src/src/async_logger.cpp:118-130 | over every run each thread releases the semaphore exactly once per entry it put in the queue, and never for a flush or an overflow |
| LoggerCalls.PermitsAccounted | src/src/async_logger.cpp:150-164 | permits rise by releases only and fall by the writer's acquire only, which waits for one |
| LoggerCalls.BuffersFit | src/src/async_logger.cpp:25-26 | queue and ring never hold more than their capacity, nor the semaphore more than its maximum |
| LoggerCalls.FlushWritesAll | src/src/async_logger.cpp:133-164 | whoever begins a flush - a caller, an overflowing thread, the writer with a permit, `deinitialize` - when it is through every message accepted before it began is in the file, whatever the others did meanwhile |
| LoggerCalls.CalledFlushWritesAll | src/src/async_logger.cpp:133-148 | when `flush` has returned, every message accepted when it was called is in the file |
| LoggerCalls.OverflowIsWritten | src/src/async_logger.cpp:122-130 | when `log` has returned for a message that went to the ring, it and all accepted before it are in the file |
| LoggerCalls.ClosingWritesAll | src/src/async_logger.cpp:67-82 | when `deinitialize` has returned, every message accepted by its stop request is in the file, whatever goes on around it |
| LoggerAlone.FlushAlone | src/src/async_logger.cpp:133-148 | an idle thread can always call `flush`; undisturbed it writes all that waits, queue first, and changes nothing else |
| LoggerAlone.LogQueues | src/src/async_logger.cpp:97-121 | until `deinitialize` has returned an idle thread can call `log`; undisturbed and with room, the message is queued and the writer signalled once |
| LoggerAlone.LogOverflows | src/src/async_logger.cpp:122-131 | refused by the queue it goes to the ring and everything is written, it last; with a full ring it is dropped and nothing else happens |
| LoggerLiveness.AcceptedIsWritten | src/src/async_logger.cpp:118-164 | on every infinite run that is weakly fair to writer, flushes and releases, and in which nobody asks to stop, each message that entered queue or ring reaches the file, whatever the other threads do meanwhile |
| LoggerOrder.SwapKeepsOrder | src/src/async_logger.cpp:133-142 | writing ring entries before queued ones keeps per-thread order if and only if no thread has entries in both |
| LoggerOrder.DisorderStays | src/src/async_logger.cpp:97-148 | once some thread's messages are out of order no step puts them right |
| LoggerResults.OrderIffQuietDrains | src/src/async_logger.cpp:97-148 | after n steps every thread's messages, written and waiting, stand in program order if and only if each ring drain so far found no thread in both queue and ring |
| LoggerResults.FileOrderIffQuietDrains | src/src/async_logger.cpp:97-148 | once everything accepted is written, the file itself is in program order per thread under exactly that condition |
| LoggerResults.AtomicFlushesKeepFileOrder | src/src/async_logger.cpp:133-148 | if no push lands in the queue between a flush's two drains, the file has each thread's messages in program order, overflowed ones included |
| LoggerLimits.OverflowOvertakes | src/src/async_logger.cpp:133-148 | a concrete run writes one thread's three messages as first, third, second |
| LoggerShutdown.WriterLeaves | src/src/async_logger.cpp:150-164 | after the stop request the writer acquires at most once more, is never blocked once the release has happened, and is gone when the join returns |
| LoggerShutdown.ShutdownIsBounded | src/src/async_logger.cpp:67-82 | without new calls every schedule from a stop request ends within a number of steps computed from its first state, wherever the calls in progress stand |
| LoggerShutdown.MaximalRunsClose | src/src/async_logger.cpp:67-82 | a run that cannot go on without a new call has returned from `deinitialize` and from every call that was in progress |
| LoggerShutdown.ShutdownLosesNothing | src/src/async_logger.cpp:67-82 | if at some moment from the stop request until the last flush no message is in hand, and none is logged later, then after `deinitialize` both buffers are empty and each undropped message is in the file once, by either exit of the loop |
| LoggerShutdown.MessageInHandMayBeLeftBehind | src/src/async_logger.cpp:67-82 | conversely, from any moment after the stop request with a message in hand, logged before it or since, some continuation closes the logger without writing that message |
| LoggerLimits.LeftBehind | src/src/async_logger.cpp:67-82 | two concrete runs, logging before and after the stop request, end closed with the message in no file |
| AsyncLoggerClass.AsyncLogger.WriteEntries | src/src/async_logger.cpp:43-49 | hands all entries to the file in order; the live file gains exactly the bytes of those whose write succeeds, for any formatting function and any pattern of failures |
| LogBytes.AllLanded | src/src/async_logger.cpp:43-49 | if no write fails the file has every entry's bytes |
| AsyncLoggerClass.AsyncLogger.Flush | src/src/async_logger.cpp:133-148 | queue entries and then ring entries are handed to the file, both buffers end empty |
| AsyncLoggerClass.AsyncLogger.Log | src/src/async_logger.cpp:97-131 | alone, filtered and uninitialised calls change nothing and any other entry is accepted; one the queue refuses has been handed to the file, behind all earlier ones, on return |
| AsyncLoggerClass.AsyncLogger.WriterTurn | src/src/async_logger.cpp:150-164 | one turn of the writer's loop takes one permit, empties the queue into the file, and goes on if and only if stop was not requested |
| AsyncLoggerClass.AsyncLogger.Deinitialize | src/src/async_logger.cpp:67-82 | whichever exit the writer takes, every accepted entry has been handed to the file once and in order, and the live file is its first bytes followed by those whose write succeeded |
| FileNames.ExtractReadsBack | src/src/file_manager.cpp:44-63 | the number read back from a numbered name is the number it was made from, for every base and 0 <= n <= 2^31-1 |
| FileNames.RecognisedIffNoInnerExtension | src/src/file_manager.cpp:462-490 | a numbered name is taken for a historical file if and only if the base does not contain `.log` |
| FileNames.ListedIffBare | src/src/file_manager.cpp:443-460 | a base's numbered file is listed if and only if the base has no directory part and does not contain `.log` |
| FileNames.LiveNameNotHistorical | src/src/file_manager.cpp:424-432 | the live file is never taken for a historical one |
| FileNames.PidNameNotHistorical | src/src/file_manager.cpp:424-432 | nor is a file named after a process |
| FileNames.NamesDiffer | src/src/file_manager.cpp:434-441 | different numbers give different names, none of them the live one |
| FileNamesExact.ProcessNamesDiffer | src/src/file_manager.cpp:424-432 | processes that are not first get a name each, and none the first one's |
| FileNamesExact.RecognisedExactly | src/src/file_manager.cpp:462-490 | any name is taken for a historical file if and only if it is the base, a dot, digits and a dot, with its first `.log` at its end - or three characters long |
| FileNamesExact.RecognisedIffNumbered | src/src/file_manager.cpp:462-490 | for every base that is not empty the extension is required |
| FileNamesExact.RecognisedWithoutExtension | src/src/file_manager.cpp:465-467 | for the empty base `.1.` is recognised, because the length minus four wraps |
| FileNamesExact.StoiExactly | src/src/file_manager.cpp:58-62 | spaces, a sign, digits and a rest give the signed value, or an exception without digits or outside `int` |
| FileNamesExact.ValueDecimal | src/src/file_manager.cpp:58-62 | digits without a zero in front are the numeral of their value |
| FileNamesExact.ReadBetweenDots | src/src/file_manager.cpp:44-63 | of a name with two dots or more the number is read between the last two |
| FileNamesExact.ReadWithoutDots | src/src/file_manager.cpp:44-63 | with fewer dots there is none, except that a lone dot in front counts twice |
| FileNamesExact.HugeNumberIsOldest | src/src/file_manager.cpp:58-62 | a number beyond `int` reads as -1 |
| FileNamesExact.AbsoluteKeepsName | src/src/file_manager.cpp:224-231 | making a path absolute keeps its bare name |
| LogRetention.SoundIffSane | src/src/file_manager.cpp:443-490 | numbered names are listed and read back, and the live one is not listed, exactly for those bases |
| LogVolume.Highest | src/src/file_manager.cpp:369-384 | an upper bound of the listed numbers that is one of them or 0 |
| LogVolume.LowestAmong | src/src/file_manager.cpp:402-410 | the first position of a lowest number |
| LogRetention.ListingShowsRange | src/src/file_manager.cpp:443-460 | for a bare base: in whatever order the directory is read, the listing shows each retained number once and nothing else |
| LogRetention.PruneKeepsNewest | src/src/file_manager.cpp:386-400 | the deletion loop leaves exactly the newest `keep` files with their contents, touching no other name |
| LogRotation.PruneAny | src/src/file_manager.cpp:386-400 | in any directory and listing order the deletion loop removes listed files only, lowest numbers first, until `keep` are left, and changes no content |
| LogRotation.RotationOfAny | src/src/file_manager.cpp:336-384 | a successful rotation in any directory takes one past the highest listed number, at least 1, puts the current bytes there, and apart from that only prunes |
| LogRotation.RotationSparesOthers | src/src/file_manager.cpp:336-400 | succeeding or failing, it spares every file that is not listed, but for the current one and the names it writes |
| LogRotation.FailedReopenKeepsBytes | src/src/file_manager.cpp:350-363 | a rotation that fails at the reopening has kept the bytes under the new number, has no live file, and is closed |
| LogRotation.InitializeOpensOwnFile | src/src/file_manager.cpp:239-253 | a successful `Initialize` of any process opens its own file, tracks its length, and leaves every other file unchanged |
| LogRotation.ProcessesKeepApart | src/src/file_manager.cpp:239-242 | processes with different ids that are not first never share a file with each other or with the first |
| LogRotation.FailedInitializeLeavesNoTrace | src/src/file_manager.cpp:217-254 | a failed `Initialize` makes no file and the next attempt comes out as if it were the first |
| LogRetention.RotationOfTidy | src/src/file_manager.cpp:336-367 | one successful rotation moves the live bytes to an unused number one past the newest, drops only the oldest beyond `keep`, and starts an empty live file |
| LogHistory.RecordIsComplete | src/src/file_manager.cpp:294-367 | the reference record, closed files followed by the live one, is all bytes written |
| LogHistory.InitializeIsClean | src/src/file_manager.cpp:217-254 | for a bare base: initialising the first process in a directory without historical files is a clean start on the bytes already in the live file |
| LogHistory.RunAgreesWithRecord | src/src/file_manager.cpp:294-400 | for a bare base: after any run of writes and rotations from a clean start the directory holds the record's live file and its last `keep` closed files under their numbers |
| LogHistory.RetainedIsSuffixOfHistory | src/src/file_manager.cpp:294-400 | for a bare base: the retained files in increasing order and then the live file are all bytes ever written, minus whole oldest files |
| LogHistory.RetentionKeepsNewest | src/src/file_manager.cpp:369-410 | for a bare base: with keep >= 1, number n names a file if and only if it is among the newest min(keep, total), and there is no other historical file |
| LogHistory.RotationTakesFreshNumber | src/src/file_manager.cpp:369-384 | for a bare base: with keep >= 1 a rotation takes the count of rotations plus one, and no file has that name |
| LogHistory.KeepingNoneReusesOne | src/src/file_manager.cpp:369-400 | for a bare base: with keep = 0 no historical file survives and the next rotation takes number 1 again |
| LogHistory.DiskBound | cbridge/speckit_logger.cpp:60-71 | for a bare base: after every line the tracked size is the live length and below M, every rotated file has M to M-1+L bytes, and all files together at most k*(M-1+L)+M-1 |
| LogHistory.FailedRotationIsFinal | src/src/file_manager.cpp:336-363 | once a rotation has failed, at whatever point, and whatever calls follow with whatever luck, the handle stays closed and no file changes, every write, flush and rotation fails, and only `Initialize` reports success |
| LogHistory.RotationLeavesPidName | src/src/file_manager.cpp:357-365 | a process under its own name is on the shared live file after a rotation, behind the bytes others wrote there; its tracked size is right if and only if there were none |
| LogListing.UnsoundBaseIsBlind | src/src/file_manager.cpp:447-468 | for any other base no file whatever is listed |
| LogListing.BlindRotationOverwrites | src/src/file_manager.cpp:336-384 | then every rotation takes number 1 and overwrites the previous rotated file, whatever the retention count |
| LogListing.BlindRunKeepsLastOnly | src/src/file_manager.cpp:294-400 | after any run of writes and rotations the directory is then the initial one with the live file and, of all that was rotated, only the last closed file, under number 1 |
| LogListing.InitializeIsFresh | src/src/file_manager.cpp:217-254 | initialising a first process in an empty directory is a start of the runs of the next two rows, for every base |
| LogListing.RetentionIffListed | src/src/file_manager.cpp:294-460 | after any run from a directory in which nothing is listed and no file has the last number by chance, the last `keep` closed files are there under their numbers if and only if the base has no directory part and does not contain `.log`, or at most one file was closed |
| LogListing.AbsoluteBaseKeepsOne | src/src/file_manager.cpp:224-231 | for the absolute base the code uses, if and only if at most one file was closed |
| FileManagerClass.FileManager.Initialize | src/src/file_manager.cpp:217-292 | on success the file is base.log or base_PID.log and its length is tracked, no file loses a byte; on every failure path the new state is that of the description on values |
| FileManagerClass.FileManager.Write | src/src/file_manager.cpp:294-314 | all of the data or nothing, with the size; true unless closed, failed, or at a whole megabyte with a failed flush |
| FileManagerClass.FileManager.GetHistoricalFiles | src/src/file_manager.cpp:443-460 | a listing of exactly the files whose bare name matches the base as it stands, each once, in any order |
| FileManagerClass.FileManager.CalculateNextSequenceNumber | src/src/file_manager.cpp:369-384 | the maximum loop computes one past the highest listed number, 1 on an empty listing |
| FileManagerClass.FileManager.FindOldestHistoricalFile | src/src/file_manager.cpp:402-410 | the scan finds the first file with the lowest number |
| FileManagerClass.FileManager.DeleteOldestFiles | src/src/file_manager.cpp:386-400 | the loop ends and leaves what pruning a listing of the directory leaves; whatever is not base, dot, digits, dot is untouched |
| FileManagerClass.FileManager.Rotate | src/src/file_manager.cpp:336-367 | true, and open on an empty-sized base.log, if and only if the handle was open and rename and open succeed; for some listing orders the new state is that of the rotation on values; whatever is not numbered, current or written by name is untouched |
| BridgeClass.SpeckitLogger.Log | cbridge/speckit_logger.cpp:46-72 | a null message is an error, a disabled tag or a level below the tag's writes nothing and succeeds, any other message is one line written and a rotation tried if and only if that made it due |
| BridgeClass.GoodLineIsStep | cbridge/speckit_logger.cpp:60-71 | with all I/O succeeding such a line is a step of the disk-bound runs |
| BridgeClass.LinesFailWhenClosed | cbridge/speckit_logger.cpp:64-65 | after a failed rotation every accepted line is answered with a file error |
| BridgeClass.FirstMessage | cbridge/speckit_logger.cpp:28-72 | a fresh bridge writes every message of level 0 to 127, whatever its tag, as one line behind its process's file, and does nothing else |
| BridgeClass.AtTheThreshold | cbridge/speckit_logger.cpp:55-58 | after a level n is set for a tag, a message at n - 1 changes nothing and one at n is written |
| BridgeClass.SwitchedOff | cbridge/speckit_logger.cpp:52-53 | a tag switched off writes nothing at any level |

## Left out

- Weak memory. Interleavings are sequentially consistent; the acquire/release pairs are not examined, and `min_level_` and `initialized_` are plain state.
- More than one consumer of the queue. Two overlapping `popAll` calls can hang on each other, so one consumer is a condition of every queue theorem; the logger does not enforce it (an overflowing thread and the writer may both flush), and the logger protocol assumes flushes exclude one another.
- `popAll` of the ring overlapping `tryPush`: the exchange can swallow a transient overshoot and read a slot that is not filled, so no property is claimed there. The logger protocol takes single operations of queue and ring as atomic.
- Ticket counts of 2^64 minus the capacity and more: `Step` stops there, and so do the calls of the queue object.
- A queue of capacity 0, which the queue's constructor asserts against.
- RingPushers.AcceptedFits: head is an unbounded integer in this protocol; fewer than 2^64 pushes in all are assumed.
- RingBufferClass.RingBuffer.TryPush: the roll-back branch cannot be reached by a single caller and is modelled in `RingPushers` instead.
- AsyncQueueClass.AsyncQueue.TryPush: the retry after a failed compare-exchange cannot happen to a single caller and is modelled, with spurious failures, in `TicketQueue`.
- The semaphore's release beyond its maximum, which `counting_semaphore<1>` forbids and the code does not guard: the protocol saturates at any maximum of at least 1, the object counts without bound.
- Lifetime of `string_view` text inside entries: entries are values, their text survives until it is written.
- `formatLogEntry`: an arbitrary function from entries to bytes.
- AsyncLoggerClass.AsyncLogger.WriteEntries: a write succeeds or leaves the file as it was; partial writes are not modelled.
- LogRetention.ListingShowsRange: the intended listing, like the five members named next; for the absolute base the code uses, `AbsoluteBaseKeepsOne` says what remains of them.
- LogHistory.RunAgreesWithRecord: needs a listing that finds the numbered files (a bare base).
- LogHistory.RetainedIsSuffixOfHistory: likewise.
- LogHistory.RetentionKeepsNewest: likewise.
- LogHistory.RotationTakesFreshNumber: likewise.
- LogHistory.DiskBound: likewise; with a base that lists nothing there are only the live file and one rotated one.
- The directory is one map of names; that the code lists only the working directory is not modelled apart from that, and a directory part means a slash, as on POSIX systems.
- FileManagerClass.FileManager.Initialize: the base name is constant, so making it absolute (src/src/file_manager.cpp:224-231) is the caller's choice of base.
- Detection of the first process through a named mutex or semaphore, and failure to create the parent directory, are inputs of `Initialize`.
- Partial `fwrite`, a failing removal in the deletion loop, and the durability meant by "flush every 1MB", which the code attempts only at exact multiples of 1MB.
- Sequence numbers beyond 2^31-1, where `int` overflows: theorems about runs stop there.
- Content theorems for a process that is not the first: after a rotation it shares the live file.
- The logger object exists only once its file is open: `create` returns nothing otherwise.
- Level names, the bridge's stubs, ZIP archiving, crash signals, the monitor thread and `emergencyFlush` from a handler: trivial maps, missing implementation, or operating system behaviour.
