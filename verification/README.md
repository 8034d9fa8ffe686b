# Verified model of SiLog's core

A Dafny model of five parts of SiLog, an on-device logging service, and proofs about them:

- the lock-free many-producer, one-consumer ring queue (`MpscQueue` as a class; `MpscProtocol`, `MpscInvariant`,
  `MpscWrap`, `MpscAccepted`, `MpscFifo`, `MpscCalls`, `MpscTickets`, `MpscOverlap`, `MpscSingleSlot` as a step relation
  with one step per atomic operation);
- the remote log protocol: the fixed-size codec (`RemoteCodec`), partial sends and reassembly (`Framing`,
  `RemoteStream`) and the table of clients under concurrent accept and broadcast (`RemoteClients`);
- the log file manager: write, rotate, flush and clean up over a file system (`FileManagerModel`, `FileManagerRuns`,
  `FileManagerLaws`, `FileManager`), and asynchronous compression on top of the ring queue (`CompressPipeline`);
- the binary-heap priority queue (`PQueue`) and the deletion of surplus log files that uses it (`LogCleanup`);
- the in-place tokenizer `strtok_s` (`Strtok`).

`Words` holds bytes, 32-bit arithmetic and the masking trick, `ErrorCodes` the return codes.

State machines are step functions; an event whose thread is not at that point changes nothing, so every sequence of
events is a run and every interleaving is such a sequence. The classes hold the code as written, proved against the
functions that the run theorems speak about. What the kernel, the C library and the file system decide is a parameter.

Where the code departs from what its comments or names promise, the model follows the code and the exact extent is
proved:

- The rollback of a full push (`silog_mpsc.c:82`) is only safe while no push that will be accepted draws its ticket
  between the fetch-add and the fetch-sub of a push that will be turned away. `Clean` says this of a run; it holds for
  one producer, for pushes under a mutex, and for runs in which no push finds the queue full.
- Capacity 1 passes Init (`silog_mpsc.c:14-20`), but there the marker of a claimed slot is that of a ready one, so the
  consumer takes an element before it was copied in; the queue is first in, first out exactly from capacity 2 on.
- The timestamp decoder shifts wrongly (`silog_remote.c:668-671`): it is right exactly when bits 8 to 47 are zero.
- A send that would block part-way (`silog_remote.c:387-390`) leaves part of an entry on the wire, and the next
  entry follows it; delivery is in order exactly when the bytes from there on do not complete a frame.
- `SiftDown` compares children with the slot, not with the saved element (`silog_pqueue.c:129-143`), so on a root
  with heap subtrees it sinks one level at most.
- The cleanup comparator puts the newest file on top (`silog_file_manager.c:144-155`), so the first file deleted is a
  newest one, and an oldest one exactly when all are equally old.
- With all ten candidate names taken the tenth is used all the same (`silog_file_manager.c:297-326`) and rename
  replaces that file, unless compression removed it in between.
- A second caller of Deinit finds the running flag cleared and returns before the queue is drained
  (`silog_file_manager.c:487-500`); the guarantee is that of the caller that cleared it.
- After a rename that worked and a reopen that failed (`silog_file_manager.c:346-350`), `currentSize` keeps its value.

## Model

| member | source | states |
|---|---|---|
| `Words.PowerOfTwoMeaning` | silog_comm/src/silog_mpsc.c:18-20 | the bit test of Init accepts exactly the powers of two |
| `Words.MaskIsMod` | silog_comm/src/silog_mpsc.c:86 | for such a capacity, masking a position is reduction modulo the capacity |
| `Words.MaskAfterWrap` | silog_comm/src/silog_mpsc.c:86 | a counter that wrapped at 2^32 still selects the slot of the unbounded position |
| `MpscQueue.Queue.Init` | silog_comm/src/silog_mpsc.c:12-49 | succeeds exactly for a positive element size and a power of two, and leaves an empty queue |
| `MpscQueue.Queue.Push` | silog_comm/src/silog_mpsc.c:66-106 | run alone: QUEUE_FULL exactly when capacity elements are held, and then no change; otherwise appends, for any capacity and wherever the counters have wrapped |
| `MpscQueue.Queue.Pop` | silog_comm/src/silog_mpsc.c:108-138 | run alone: QUEUE_EMPTY exactly when nothing is held; otherwise removes and returns the oldest element |
| `MpscWrap.FullTestWraps` | silog_comm/src/silog_mpsc.c:77-81 | in every state of the invariant the unsigned `write - read` test agrees with the true distance |
| `MpscWrap.MarkersDifferIff` | silog_comm/src/silog_mpsc.c:89-103 | the free, claimed and ready markers of a position differ in 32 bits if and only if the capacity is at least 2 |
| `MpscWrap.ReadyTestWraps` | silog_comm/src/silog_mpsc.c:118-123 | the 32-bit ready test agrees with the unbounded one |
| `MpscWrap.StepWraps` | silog_comm/src/silog_mpsc.c:66-138 | every step of the 32-bit queue is the wrapped step of the queue with unbounded counters |
| `MpscProtocol.SerialisedIsClean` | silog_comm/src/silog_mpsc.c:77-84 | one reservation window at a time meets the condition of the theorems |
| `MpscProtocol.OneProducerIsSerialised` | silog_dae/src/silog_daemon.c:64-67 | a single producer meets it in every run |
| `MpscProtocol.NeverFullIsClean` | silog_comm/src/silog_mpsc.c:77-84 | so does any number of producers in a run where no push finds the queue full |
| `MpscFifo.CleanPrefix` | silog_comm/src/silog_mpsc.c:66-138 | at every point of every clean run the invariant holds, and the 32-bit queue is in the wrapped state of the unbounded one |
| `MpscAccepted.AcceptedAreListed` | silog_comm/src/silog_mpsc.c:77-84 | over every run, clean or not, the list of accepted elements in ticket order names every accepted element and nothing else |
| `MpscAccepted.AcceptedAreGenuine` | silog_comm/src/silog_mpsc.c:77-103 | over every run, an accepted element numbered k of its producer carries the data that producer's k-th push was given |
| `MpscFifo.Fifo` | silog_comm/src/silog_mpsc.c:66-138 | at every point of every clean interleaved run: popped is a prefix of accepted in ticket order, that list is complete, each element carries the data of its push, at most capacity accepted elements wait, each producer's elements keep their order, each slot has one owner, and the claiming compare-exchange finds its ticket |
| `MpscFifo.DrainDeliversAll` | silog_comm/src/silog_mpsc.c:108-138 | whenever no call is under way, enough pops deliver every accepted element once, in ticket order |
| `MpscFifo.EmptyMeansDrained` | silog_comm/src/silog_mpsc.c:118-125 | with no push under way, QUEUE_EMPTY means that every accepted element was delivered |
| `MpscCalls.UncontendedPush` | silog_comm/src/silog_mpsc.c:66-106 | wherever nobody is inside in a clean run, a push of any producer is accepted and its element becomes the last one if and only if fewer than capacity elements wait; otherwise the queue stays as it was |
| `MpscCalls.UncontendedPop` | silog_comm/src/silog_mpsc.c:108-138 | and a pop returns the element that has waited longest, or nothing when none waits |
| `MpscFifo.FullIffCapacityOutstanding` | silog_comm/src/silog_mpsc.c:77-84 | in serialised runs a push is turned away if and only if capacity positions were outstanding when it loaded readPos |
| `MpscTickets.TicketsInPlaceIffClean` | silog_comm/src/silog_mpsc.c:77-84 | over every run of the 32-bit queue, the reservations not turned away hold the tickets 0, 1, 2, … (modulo 2^32) in order if and only if the run is clean |
| `MpscTickets.TicketsExactIffClean` | silog_comm/src/silog_mpsc.c:77-84 | with unbounded counters that is: each of the tickets 0, 1, 2, … is drawn exactly once |
| `MpscOverlap.OverlappingWindowsDuplicateTicket` | silog_comm/src/silog_mpsc.c:77-84 | for every capacity of at least 2 and two or more producers there is a run from the initial state in which two accepted pushes hold the same ticket |
| `MpscOverlap.OneOwnerIffOneProducer` | silog_comm/src/silog_mpsc.c:77-103 | so without any discipline on the windows slots have one owner in every run if and only if there is one producer |
| `MpscSingleSlot.SingleSlotPopsEarly` | silog_comm/src/silog_mpsc.c:89-125 | with capacity 1 there is a clean run of one producer in which Pop returns what lay in the buffer before the push |
| `MpscSingleSlot.InOrderIffTwoSlots` | silog_comm/src/silog_mpsc.c:14-20 | of the capacities Init accepts, exactly those of at least 2 deliver in order in all clean runs |
| `RemoteCodec.Serialize` | silog_comm/src/silog_remote.c:317-375 | writes exactly the encoding and nothing behind it; too small a buffer is left alone |
| `RemoteCodec.TimestampIff` | silog_comm/src/silog_remote.c:668-671 | the decoded timestamp is the encoded one if and only if bits 8 to 47 are zero |
| `RemoteCodec.TerminatedText` | silog_comm/src/silog_remote.c:697-711 | forcing the last character to NUL keeps a text if and only if it contained a NUL |
| `RemoteCodec.RoundTrip` | silog_comm/src/silog_remote.c:655-717 | decode after encode: pid (negative ones too), tid and line always; level, ts and each text, each with its exact condition; msgLen is the length of the decoded text |
| `RemoteCodec.WireLayout` | silog_comm/src/silog_remote.c:325-374 | which field lies at which offset of an encoded entry |
| `RemoteCodec.Big64Spells` | silog_comm/src/silog_remote.c:326-333 | eight bytes spell their number most significant first |
| `RemoteCodec.Big32Spells` | silog_comm/src/silog_remote.c:347-360 | and so do four |
| `RemoteCodec.PidSpells` | silog_comm/src/silog_remote.c:335-344 | a pid goes out as 64 bits with its sign filling the upper half |
| `RemoteCodec.DecodeLayout` | silog_comm/src/silog_remote.c:665-716 | what the decoder makes of any 377 bytes, field by field, the wrong timestamp included |
| `RemoteStream.SendFull` | silog_comm/src/silog_remote.c:381-402 | in terms of the outcomes of send alone: OK if they accept all bytes, else the bytes they accepted before the first that accepts none, with TIMEOUT exactly if that one would block and FILE_ERROR otherwise |
| `RemoteStream.SendVerdict` | silog_comm/src/silog_remote.c:381-402 | the same from any point of the loop |
| `RemoteStream.FrameCount` | silog_comm/src/silog_remote.c:761-801 | after k bytes: k div 377 frames, k mod 377 pending bytes, and the blocks followed by the pending bytes are the stream |
| `RemoteStream.Client.Connect` | silog_comm/src/silog_remote.c:581-631 | starts an empty stream, or changes nothing |
| `RemoteStream.Client.Disconnect` | silog_comm/src/silog_remote.c:633-648 | drops the connection and what was pending |
| `RemoteStream.Client.Receive` | silog_comm/src/silog_remote.c:719-804 | however the stream is chunked, the callback has seen exactly the frames of the bytes received and the buffer holds the rest; the frame loop runs at most once and never moves leftovers; every error path |
| `RemoteStream.DeliveryIff` | silog_comm/src/silog_remote.c:381-462 | whatever the entries hold and however far the bytes have arrived, clients see a prefix of the confirmed entries in order if and only if the bytes from the first partial send on do not complete a frame |
| `RemoteStream.EndToEnd` | silog_comm/src/silog_remote.c:437-462 | in particular if every send that returned TIMEOUT had transferred nothing |
| `Framing.BlocksPartition` | silog_comm/src/silog_remote.c:784-801 | blocks and leftover concatenate to the stream |
| `Framing.BlocksGrow` | silog_comm/src/silog_remote.c:782-801 | a chunk within the current block extends the leftover or completes exactly one block |
| `Framing.ShortTailInOrder` | silog_comm/src/silog_remote.c:381-462 | if the tail from the first partial frame is short, the blocks that arrived are a prefix of the frames sent whole |
| `Framing.LongTailShows` | silog_comm/src/silog_remote.c:387-390 | otherwise a block starts with the first byte of a frame that was not sent whole |
| `RemoteClients.Server.FindFreeSlot` | silog_comm/src/silog_remote.c:73-81 | the first inactive slot, or -1 |
| `RemoteClients.Server.CloseClientInternal` | silog_comm/src/silog_remote.c:86-109 | frees the slot, closes its descriptor, lowers the count only for an active slot |
| `RemoteClients.Server.AdmitClient` | silog_comm/src/silog_remote.c:265-304 | the critical section of Accept with its three ways to refuse |
| `RemoteClients.Server.ScanFrom` | silog_comm/src/silog_remote.c:437-444 | the next client a broadcast sends to |
| `RemoteClients.SomeSlotFree` | silog_comm/src/silog_remote.c:268-287 | below the limit a slot is free |
| `RemoteClients.AcceptEffect` | silog_comm/src/silog_remote.c:256-265 | a new connection is open and held by the thread that accepted it |
| `RemoteClients.AdmitEffect` | silog_comm/src/silog_remote.c:265-304 | a connection is stored in the first free slot if and only if there is room and the socket could be made non-blocking; otherwise the table stays and it is to be closed |
| `RemoteClients.CloseRejectedEffect` | silog_comm/src/silog_remote.c:269-294 | a connection that was not stored is closed |
| `RemoteClients.SendDoneEffect` | silog_comm/src/silog_remote.c:449-461 | a send that fails outright frees the slot and closes its descriptor; one that succeeds or would block changes nothing |
| `RemoteClients.HappenKeeps` | silog_comm/src/silog_remote.c:265-304 | each critical section, accept, send and close keeps the invariant of the table |
| `RemoteClients.TableStaysConsistent` | silog_comm/src/silog_remote.c:437-462 | under every interleaving of any number of accepting threads with one broadcaster: clientCount is the number of active slots, active slots hold different open descriptors, the no-free-slot branch is not reached, the slot closed after a failed send holds the descriptor that failed, no descriptor is closed twice, sent to after closing, or leaked |
| `RemoteClients.BroadcastReachesAll` | silog_comm/src/silog_remote.c:437-462 | whatever threads accept meanwhile, a broadcast sends to every client connected at its start exactly once, in slot order, at the descriptor it had |
| `RemoteClients.BroadcastEnds` | silog_comm/src/silog_remote.c:437-462 | and it ends: each completed send moves it on |
| `FileManagerModel.Probe` | silog_dae/src/silog_file_manager.c:296-315 | all names before the chosen one are taken, and the chosen one only if it is the last |
| `FileManagerRuns.CleanUpSparesCurrent` | silog_dae/src/silog_file_manager.c:158-217 | cleanup never deletes the current log |
| `FileManagerLaws.CleanUpLaw` | silog_dae/src/silog_file_manager.c:209-213 | cleanup deletes what it chose and may delete, and leaves every other file |
| `FileManagerLaws.RotationDeletesSurplus` | silog_dae/src/silog_file_manager.c:345-356 | a rotation that succeeds deletes max(0, min(N, 128) - maxFileCount) different files of the N that its scan finds |
| `FileManagerLaws.NamesDiffer` | silog_dae/src/silog_file_manager.c:296-305 | two candidate names of equally long time stamps are equal only if stamp and number are |
| `FileManagerLaws.HistoryIsFound` | silog_dae/src/silog_file_manager.c:183-189 | cleanup recognises every name that rotation gives, and what gzip makes of it |
| `FileManagerLaws.RotateLaw` | silog_dae/src/silog_file_manager.c:662-675 | an explicit rotation in terms of whether the log exists, a rename works and the reopen works |
| `FileManagerLaws.CompressLaw` | silog_dae/src/silog_file_manager.c:220-232 | gzip replaces the file by its compressed form or changes nothing |
| `FileManagerLaws.BackgroundTakes` | silog_dae/src/silog_file_manager.c:239-254 | the thread takes tasks in order, one for each run |
| `FileManagerLaws.BackgroundCompresses` | silog_dae/src/silog_file_manager.c:239-254 | and its i-th run compresses the i-th task's file |
| `FileManagerLaws.DeinitCompresses` | silog_dae/src/silog_file_manager.c:486-495 | the tasks left at Deinit are compressed too |
| `FileManagerLaws.RotationSubmits` | silog_dae/src/silog_file_manager.c:260-284 | a rotation queues the file it rotated out, or compresses it at once |
| `FileManagerRuns.RenamesIff` | silog_dae/src/silog_file_manager.c:322-334 | a file is rotated out if and only if it exists and one of the first rotateRetryCount renames works |
| `FileManagerRuns.RotationShape` | silog_dae/src/silog_file_manager.c:287-357 | each outcome of a rotation: what is archived, what the current file holds, the return code, which counters are reset |
| `FileManagerRuns.HistoryHoldsContent` | silog_dae/src/silog_file_manager.c:322-355 | after a rotation that renamed, whatever the history name holds is what the current file held, and it is missing only if a compression ran before the return or cleanup deleted it |
| `FileManagerRuns.RotationOverwritesIff` | silog_dae/src/silog_file_manager.c:296-326 | a rotation replaces a file if and only if it renames, all ten names were taken at the probe, and no compression removed the last of them before the rename |
| `FileManagerRuns.CrowdedRenameOverwrites` | silog_dae/src/silog_file_manager.c:296-326 | in particular with all ten names taken, if the last is not waiting to be compressed or the compression thread is idle |
| `FileManagerRuns.OverwritesIff` | silog_dae/src/silog_file_manager.c:296-326 | over every run a file is replaced if and only if some operation rotates in that situation |
| `FileManagerRuns.NeverOverwrites` | silog_dae/src/silog_file_manager.c:296-326 | over every run in which not all ten names are taken at a rotation, rename never replaces a file, even with the compression thread at work between the probe and the rename |
| `FileManagerRuns.ConservationIff` | silog_dae/src/silog_file_manager.c:287-357 | over every run: rotated files in order, then the current file, are the initial content plus every record whose write succeeded, if and only if no failed write left bytes behind; failed renames, retries and failed reopens do not matter |
| `FileManagerRuns.NoRecordSplit` | silog_dae/src/silog_file_manager.c:608-660 | the records fall into consecutive groups, one for each file, so none is split |
| `FileManagerRuns.StepSizeIff` | silog_dae/src/silog_file_manager.c:335-353 | an operation makes currentSize wrong if and only if it tears a write, or strands a log whose size was not 0 |
| `FileManagerRuns.SizeStaysExact` | silog_dae/src/silog_file_manager.c:395-401 | over every run without those, currentSize is the length of the open file modulo 2^32 |
| `FileManagerRuns.WriteBounded` | silog_dae/src/silog_file_manager.c:622-639 | after a successful write currentSize is below the limit or the file is exactly that record; the file's length too while it fits 32 bits |
| `FileManagerLaws.WriteLaw` | silog_dae/src/silog_file_manager.c:608-637 | a write appends without rotating if the record leaves the file below the limit; otherwise the log is rotated out first if and only if one of the first rotateRetryCount renames works; every return code |
| `FileManagerLaws.CountLaw` | silog_dae/src/silog_file_manager.c:639-656 | size, buffered bytes, flush and flush time after a successful write, exactly |
| `FileManagerRuns.FlushStaysBounded` | silog_dae/src/silog_file_manager.c:641-656 | over every run without torn writes, across mode switches and failed rotations, the bytes since the last real flush are at most asyncBufferSize, which never wraps |
| `FileManagerRuns.AsyncWriteBounded` | silog_dae/src/silog_file_manager.c:645-656 | after a successful asynchronous write all is flushed, or the buffered bytes are below the limit and the modular elapsed time below the interval |
| `FileManagerRuns.SyncWriteFlushed` | silog_dae/src/silog_file_manager.c:642-644 | after a successful synchronous write all is flushed |
| `FileManagerRuns.RunFromStart` | silog_dae/src/silog_file_manager.c:82-90 | the conservation, flush, size and no-overwrite results for every run from the manager's initial state, over whatever log it finds |
| `FileManager.Manager.FindHistoryPath` | silog_dae/src/silog_file_manager.c:296-315 | the probe loop computes the model's target |
| `FileManager.Manager.RenameWithRetry` | silog_dae/src/silog_file_manager.c:322-334 | the retry loop computes the model's renames |
| `FileManager.Manager.RotateFile` | silog_dae/src/silog_file_manager.c:287-357 | the code refines the model's rotation |
| `FileManager.Manager.Write` | silog_dae/src/silog_file_manager.c:608-660 | the code does what WriteLaw says, refines the model's write and keeps the invariant |
| `FileManager.Manager.RotateNow` | silog_dae/src/silog_file_manager.c:662-675 | the code does what RotateLaw says and keeps the invariant |
| `FileManager.Manager.FlushNow` | silog_dae/src/silog_file_manager.c:677-688 | the same for Flush; no file changes and nothing is left unflushed |
| `FileManager.Manager.Start` | silog_dae/src/silog_file_manager.c:360-431 | the same for Init, with each way to fail; the log keeps its content, and on success its size is known |
| `FileManager.Manager.Shutdown` | silog_dae/src/silog_file_manager.c:474-501 | the same for Deinit |
| `CompressPipeline.LeavesDrained` | silog_dae/src/silog_file_manager.c:250-256 | when the worker leaves its last loop, every accepted task has been popped |
| `CompressPipeline.EveryTaskExecuted` | silog_dae/src/silog_file_manager.c:235-284 | under every interleaving of writers, worker and callers of Deinit over the atomic steps of the queue: executed tasks are a prefix of the accepted ones in push order, each as it was submitted, and all of them, once each, when the worker has left, before which the Deinit that stopped it does not return |
| `CompressPipeline.DeinitCanReturn` | silog_dae/src/silog_file_manager.c:486-492 | from every state reached after Deinit stopped the worker, some continuation lets it return |
| `CompressPipeline.SecondDeinitReturnsEarly` | silog_dae/src/silog_file_manager.c:487-500 | a second caller of Deinit may return while an accepted task is not yet executed |
| `CompressPipeline.HappenKeeps` | silog_dae/src/silog_file_manager.c:474-501 | each event keeps the invariant behind it, the critical section of Deinit included |
| `PQueue.Heap.SiftUp` | silog_comm/src/silog_pqueue.c:75-106 | the loop computes the rise of the element from its slot |
| `PQueue.Heap.SiftDown` | silog_comm/src/silog_pqueue.c:109-157 | the loop computes the descent, comparing as the code does |
| `PQueue.Heap.Push` | silog_comm/src/silog_pqueue.c:160-180 | BUSY exactly when full and then no change; otherwise the pushed heap |
| `PQueue.Heap.Pop` | silog_comm/src/silog_pqueue.c:183-209 | QUEUE_EMPTY exactly when empty; otherwise returns the root and leaves the popped heap |
| `PQueue.Heap.Peek` | silog_comm/src/silog_pqueue.c:212-226 | the root, or QUEUE_EMPTY |
| `PQueue.Heap.Clear` | silog_comm/src/silog_pqueue.c:43-48 | empties the queue |
| `PQueue.Heap.Reserve` | silog_comm/src/silog_pqueue.c:229-246 | grows the capacity and keeps the contents; refuses to shrink |
| `PQueue.UpFollowsPath` | silog_comm/src/silog_pqueue.c:89-104 | on any array and for any comparator: the element climbs along parents it is above, to the root or to one it is not above; those move down one place, all else stays |
| `PQueue.DownFollowsPath` | silog_comm/src/silog_pqueue.c:124-155 | on any array: the way down goes to the child the code prefers, slot by slot, to one with no child above it; those move up one place, the element goes to the end, all else stays |
| `PQueue.PushShape` | silog_comm/src/silog_pqueue.c:172-177 | Push starts the climb in the new last slot |
| `PQueue.PopShape` | silog_comm/src/silog_pqueue.c:195-206 | Pop starts the descent of the last element in the root |
| `PQueue.RunConserves` | silog_comm/src/silog_pqueue.c:160-209 | over every run of Push, Pop, Clear and Reserve, for every comparator, pushed = held + popped + cleared as multisets |
| `PQueue.PushKeepsHeap` | silog_comm/src/silog_pqueue.c:75-106 | for a total preorder Push preserves heap order |
| `PQueue.FirstOutIsMaximal` | silog_comm/src/silog_pqueue.c:160-226 | after any push-only run Peek and the first Pop give a maximal pushed element |
| `PQueue.SiftDownSinksOnce` | silog_comm/src/silog_pqueue.c:109-157 | on a root with heap subtrees the sift is the identity or one swap with the larger child |
| `PQueue.PopKeepsHeapIff` | silog_comm/src/silog_pqueue.c:183-209 | Pop leaves a heap if and only if the moved element is at least each child of the slot it sinks to |
| `PQueue.SmallPopKeepsHeap` | silog_comm/src/silog_pqueue.c:183-209 | with at most three elements left it always does |
| `PQueue.PopCanBreakHeap` | silog_comm/src/silog_pqueue.c:183-209 | for every n of at least four there is a heap whose Pop leaves n elements that are not a heap |
| `PQueue.SmallExactly` | silog_comm/src/silog_pqueue.c:183-209 | so Pop is sure to leave a heap of n elements exactly when n is at most three |
| `LogCleanup.CleanOldFiles` | silog_dae/src/silog_file_manager.c:158-217 | scan, queue and drain unlink exactly the victims of the queue's order |
| `LogCleanup.IsHistoryIff` | silog_dae/src/silog_file_manager.c:183-189 | history files are exactly the names that start with the base name and an underscore and end in .log or .gz |
| `LogCleanup.CandidatesExact` | silog_dae/src/silog_file_manager.c:181-202 | the scan queues exactly the history files that stat finds, with path and time |
| `LogCleanup.VictimAt` | silog_dae/src/silog_file_manager.c:209-213 | the i-th file unlinked is the root of the queue after i pops |
| `LogCleanup.CleanupUnlinksSurplus` | silog_dae/src/silog_file_manager.c:178-214 | with N matching files: max(0, min(N, 128) - maxFileCount) different scanned paths are unlinked |
| `LogCleanup.FirstVictimIsNewest` | silog_dae/src/silog_file_manager.c:145-155 | the first file unlinked has the latest mtime |
| `LogCleanup.OldestGoesFirstIff` | silog_dae/src/silog_file_manager.c:144-155 | the first file unlinked has the earliest mtime if and only if all queued files have the same |
| `Strtok.StrtokS` | silog_comm/src/silog_securec.c:362-407 | one call on the buffer: token, new context, and the one byte it may overwrite |
| `Strtok.SpansAreMaximalRuns` | silog_comm/src/silog_securec.c:381-398 | the tokens are exactly the maximal delimiter-free runs of the string |
| `Strtok.SpansInOrder` | silog_comm/src/silog_securec.c:381-398 | and come in order |
| `Strtok.CallsYieldSpans` | silog_comm/src/silog_securec.c:362-407 | n calls return the first n tokens, NULL for ever after the last, and cut the buffer behind each |
| `Strtok.OnlyDelimsOverwritten` | silog_comm/src/silog_securec.c:400-405 | only delimiters of the string are overwritten, by NUL |
| `Strtok.TokensKeepTheirText` | silog_comm/src/silog_securec.c:391-407 | after all calls each token reads as a C string as its run of the original |
| `Strtok.ContextAdvances` | silog_comm/src/silog_securec.c:381-405 | each call moves the context past its token or ends it |

## Left out

- Sockets, fcntl, select, scandir, stat, gzip, pthreads: their outcomes are parameters; accept returns a descriptor not in use, rename moves content, stat tells whether a path exists.
- NULL-pointer arguments, failed allocations, the overflow of `elementSize * capacity`.
- Weak memory: the code uses sequentially consistent atomics.
- The daemon's start-up and loops, the client logger, `silog_ipc`, `silog_cat`, `silog_exe`, `silog_prelog`, `silog_utils`: no hard property of their own, or none that holds.
- The other wrappers of `silog_securec.c`, formatting, and local time: the rotation time stamp is a string parameter.
- Setters of the file manager are one operation that replaces the configuration; those for directory and base name are refused while initialized, so a run keeps both.
- MpscFifo.Fifo: for capacities of at least 2, as MpscSingleSlot.InOrderIffTwoSlots shows to be necessary, and for fewer than 2^32 minus capacity producers.
- MpscTickets.TicketsExactIffClean: for unbounded counters, where tickets do not repeat; MpscTickets.TicketsInPlaceIffClean is the 32-bit statement.
- RemoteClients.TableStaysConsistent: the sent count of a broadcast is not modelled, and there is no concurrent Init or Deinit.
- CompressPipeline.EveryTaskExecuted: what gzip does to a file is in FileManagerModel, with failure allowed at each run; no Init runs during Deinit, and the worker thread was created.
- FileManagerModel: fflush and fclose are taken to succeed.
- Strtok.StrtokS: delimiters are a set of bytes; pointers are indices into one buffer.
