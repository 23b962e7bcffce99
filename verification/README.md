# Systems cores, modelled and proved

Dafny models of the cores of three operating-systems projects, each proved for all inputs and all runs:

* a **demand pager** with second-chance replacement over frames and disk, and the memory unit's page
  copies (`Clock`, `PagerState`, `PagerSteps`, `PagerRuns`, `PagerCounts`, `PagerFifo`, `PagerStale`,
  `PagerDrive`, `PagerFaults`, `FlatMemory`, `Pager`, `Arith`);
* the **message protocol** between the memory unit and its clients (`Protocol`, `ProtocolSafety`,
  `ProtocolProgress`, `ProtocolSession`);
* a **user-level thread scheduler** and the doubly linked list under its queues (`DList`, `Scheduling`,
  `SchedulingRuns`, `Scheduler`);
* an **on-disk block allocator** with root directories and their listing on top (`FsBlocks`, `FsRuns`,
  `FsTree`, `FileSystem`);
* the **size-based rotation** of a log (`Rotation`, `RotationRuns`, `Cyclic`).

`Options` and `Sequences` are shared.

Each core has a specification of pure functions on a state, lemmas about whole runs of it, and a class
with the source's own fields, loops and order of updates that is proved to do what the functions say.
`dafny verify dfyconfig.toml` checks everything.

## How the source is read

**Pager.** A fault is served in pieces, one for each call into the memory unit; before every piece other
processes may store to whatever they have mapped for writing. A page is identified by its process and
index; in the source, frames point into an array that `realloc` may move while pages of it are resident
(`pager.c:312`), and the pointer that `swap` then follows (`pager.c:162-163`) is stale. The results on flat
memory and isolation are about runs in which that array stays where it is. `blocks[].page` and
`reference_bit`, which the source leaves unset, start as no page and 0, and so do the fields of a new
page. The first table with a pid is the one found, and tables of dead processes stay: a pid that comes
back finds its old, empty table. A block stays marked as written after its owner dies, so a new page may
start with old bytes: `mmu.h` asks for zeroes, `PagerRuns.FreshPageZeroIff` says exactly when they are there, and
`PagerStale.StalePage` is a run in which they are not. All frames are protected only when the victim
is frame 0, as in the source; a cleared reference bit therefore says nothing about a mapping's protection.
A fault is for an address of one of the process's own pages.

**Protocol.** Every client has a main thread, its `uvm_thread`, and the server thread of its socket; one
step is what a thread does between two points at which others can be seen. Channels are FIFO. The pager
is any sequence of at most `maxCalls` calls, for clients that own pages. A client that exits does
not run user code afterwards; unlocking its mutex in `uvm_exit` has no effect but to free it.

**Scheduler.** A sleep timer repeats until the sleeper runs again (`dccthread.c:306-307`), and its handler
pushes the thread whether or not it is still asleep (`dccthread.c:284-285`): both are modelled as written.
That each timer fires once for a sleep is an assumption that the code breaks as soon as a woken thread
queues for longer than the interval, and `SchedulingRuns.ReadyTwice` is such a run. The results that need
it say so (`Inv`, `FiresOnce`); `Scheduling.WokenInvIff` says exactly when a firing keeps it, and the
safety of waiting, the order of turns and the end of the program do without it. A thread that ended and is
given control again may take any step. The loop's guard also passes when everybody
sleeps, and then the result of an empty pop is used: that is a state of its own, `Crashed`, and
`SchedulingRuns.CrashesIffAllSleep` says when it is reached.

**File system.** A block is what was last written to it, as one of the source's structures. The free page
that formatting writes, through a pointer that is never set, is taken to be a proper buffer. The comment
on `fs_mkdir` asks for errors when a directory exists or no space is left; the code reports success in
both cases. `FsTree.UniqueNamesIff` and `FsTree.MkdirWorksIff` say exactly what it then leaves, and
`FsTree.SameNameTwice` and `FsTree.FourteenFill` that both are reached from a new file system. What a
listing reads past the end of the image leaves its buffers as they were; before the first entry they are
taken to hold nothing.
Room for the link in the root's block is a demand on the caller. `fs_open` goes on with the descriptor that
it reads from block 0; the model has one image and no descriptors.

**Log.** A file is the list of lines written to it, one for each call. Renamings of files that exist
succeed; opening a file may fail. `nbackups - 2` is computed without sign in 32 bits and stored signed,
so with more than 2^31 + 1 backups no file is ever moved. The number a file is renamed to wraps around in
the same way: with 2^31 + 1 backups the file numbered 2^31 - 1 moves to -2^31, and so out of the log.

## Model

| member | source | states |
|---|---|---|
| `PagerRuns.LoadGivesLastByte` | TP 2/src/pager.c:150-243 | after any interleaving of creates, extends, destroys, faults served piece by piece, loads and stores, a permitted load returns the last byte its process stored at that address, or what the page started with: eviction, disk and reload never show |
| `PagerRuns.LoadGivesLastOrZero` | TP 2/src/pager.c:150-243 | from an initial pager and without a destroy, a permitted load returns the last byte stored there, read off the actions alone, or '0' |
| `PagerRuns.ContentIsLastByte` | TP 2/src/pager.c:150-230 | the same for every page, mapped or not: the logical content found in frame, block or zero fill is the one read off the history of stores |
| `PagerRuns.Isolation` | TP 2/src/pager.c:150-230 | a run in which nobody stores to a page and its process does not die leaves every byte of it as it was, whatever other processes do, even between two calls inside one fault |
| `PagerRuns.NextOk` | TP 2/src/pager.c:197-243 | one action changes the flat memory only as its own meaning says: a store one byte, an extend one new page, a destroy one process's pages, and a piece of a fault nothing |
| `PagerSteps.AdvanceOk` | TP 2/src/pager.c:161-230 | every piece of a fault keeps the invariant (clean resident frame equals its block or zeroes; writable mapping only on a resident dirty page or one being granted) and every page's content |
| `PagerSteps.FaultStartOk` | TP 2/src/pager.c:233-243 | starting a fault keeps the invariant and all contents, and starts no mapping of its own |
| `PagerSteps.StoreOk` | TP 2/src/mmu.c:502-529 | a permitted user store, at any moment of a fault, changes exactly that byte of that page and is not lost |
| `PagerSteps.LoadSeesContent` | TP 2/src/mmu.c:434-471 | a permitted load reads the page's logical content through the process's own mapping |
| `PagerSteps.ExtendOk` | TP 2/src/pager.c:296-324 | a new page gets an unowned block, starts with that block's backing, and disturbs no other page |
| `PagerSteps.DestroyOk` | TP 2/src/pager.c:382-388 | destroying a process removes its pages and leaves every other page's content |
| `PagerRuns.FreshPagesAreZero` | TP 2/src/mmu.h:30-33 | the documented promise that new memory reads as '0', kept in every run without a destroy |
| `PagerRuns.FreshPageZeroIff` | TP 2/src/pager.c:77-86 | exactly when it is kept in general: the block taken was never written, or happens to hold zeroes |
| `PagerStale.StalePage` | TP 2/src/pager.c:82 | a run of 17 actions after which a new process's first page would start with the byte another process left |
| `PagerCounts.BlocksConserved` | TP 2/src/pager.c:99-106 | in every reachable state the owned blocks number the sum of all tables' page counts |
| `PagerCounts.ExtendFailsIffFull` | TP 2/src/pager.c:296-303 | an extend finds no block exactly when that sum is the number of blocks |
| `PagerCounts.FramesAreResidentPages` | TP 2/src/pager.c:205-230 | occupied frames and resident pages correspond one to one |
| `PagerCounts.DestroyGivesBack` | TP 2/src/pager.c:68-86 | a destroy frees exactly the frames and blocks of that process's pages |
| `PagerCounts.AmortisedClock` | TP 2/src/pager.c:129-147 | over any run the iterations of the second-chance loop, plus the potential left, are at most evictions plus faults plus the potential at the start |
| `PagerCounts.AmortisedClockFromStart` | TP 2/src/pager.c:129-147 | from an initial pager: iterations are at most evictions plus faults |
| `PagerFifo.Fifo` | TP 2/src/pager.c:129-147 | without destroys and faults on resident pages, eviction k takes frame k modulo the number of frames and removes the page of fault k |
| `Clock.SweepTakesNearestClear` | TP 2/src/pager.c:129-147 | with a clear bit, the victim is the clear bit nearest ahead of the hand, and exactly the bits passed over are cleared |
| `Clock.SweepAllSet` | TP 2/src/pager.c:129-147 | with all bits set the hand's own frame is taken after size + 1 iterations, and all bits are clear |
| `Clock.SweepBound` | TP 2/src/pager.c:129-147 | the search ends within size + 1 iterations |
| `PagerDrive.DriveIsRun` | TP 2/src/pager.c:233-243 | serving one whole fault, with any stores by other processes before each piece, is a run of pieces and permitted stores, so what is proved of runs holds of it |
| `PagerFaults.ResidentFault` | TP 2/src/pager.c:197-202 | a whole fault on a resident page makes it dirty, writable and referenced; no other page, mapping or reference bit, and nothing on disk, changes |
| `PagerFaults.FaultWithRoom` | TP 2/src/pager.c:205-230 | a whole fault with a frame free takes the lowest one, maps it for reading only, and takes nothing from any other page |
| `PagerFaults.FaultWhenFull` | TP 2/src/pager.c:150-230 | a whole fault with all frames taken: the clock's victim loses its frame and its access; all other resident pages lose access if and only if the victim is in frame 0; the disk is written only at the victim's block, and only if the victim is dirty |
| `PagerFaults.AccessAfterFault` | TP 2/src/pager.c:197-230 | after a fault, whatever others store meanwhile, the page can be read everywhere, and written if and only if it was resident before |
| `PagerFaults.NoAccessAfterEviction` | TP 2/src/pager.c:161-164 | a page that made room for another one can neither be read nor written |
| `PagerFaults.ReferencedAfterFault` | TP 2/src/pager.c:129-218 | the page that faulted, for the first or second time, is referenced, and is not the next victim while another frame is not |
| `PagerFaults.SparedUntilReached` | TP 2/src/pager.c:129-147 | over any run a referenced frame stays so, and is spared, until the hand comes to it |
| `Pager.Pager.constructor` | TP 2/src/pager.c:249-267 | sets up free frames and blocks in a state that satisfies the invariant |
| `Pager.Pager.Create` | TP 2/src/pager.c:271-287 | adds an empty table; for a pid that has one, a second table that is never found, so nothing changes |
| `Pager.Pager.Extend` | TP 2/src/pager.c:296-324 | the new address and state, no space, or an unknown pid; the order of the two checks is the code's |
| `Pager.Pager.Fault` | TP 2/src/pager.c:338-343 | on the arrays and flat buffers, serving a fault reaches the state of the piece-by-piece specification for any stores of other processes in between |
| `Pager.Pager.HandleValidPage` | TP 2/src/pager.c:197-202 | a second fault on a resident page grants writing, then sets the reference bit and marks the page dirty, in that order |
| `Pager.Pager.HandleInvalidPage` | TP 2/src/pager.c:205-230 | a first fault finds or frees a frame, fills it, and maps it last |
| `Pager.Pager.Swap` | TP 2/src/pager.c:150-171 | with frame 0 as victim every frame is protected first; then the victim is unmapped before it is saved |
| `Pager.Pager.Evict` | TP 2/src/pager.c:161-170 | unmap, then write back a page that was ever writable |
| `Pager.Pager.FindFrameToSwap` | TP 2/src/pager.c:129-147 | the loop over the bit array computes the sweep, with its count of iterations |
| `Pager.Pager.FindFreeFrame` | TP 2/src/pager.c:89-96 | the first free frame, or none |
| `Pager.Pager.FindFreeBlock` | TP 2/src/pager.c:99-106 | the first block without a page, or none |
| `Pager.Pager.FindPageTable` | TP 2/src/pager.c:109-116 | the first table with the pid, or none |
| `Pager.Pager.GetPage` | TP 2/src/pager.c:119-126 | the page with the address, or none |
| `Pager.Pager.FreePageList` | TP 2/src/pager.c:77-86 | from the last page down, gives back exactly that table's blocks and frames |
| `Pager.Pager.Destroy` | TP 2/src/pager.c:382-388 | the destroyed state, or nothing for an unknown pid |
| `Pager.Pager.Load` | TP 2/src/uvm.c:293-346 | a load through the mapping that the process was last told to make returns the page's byte; it is refused exactly when there is no mapping, or one without access, or the offset is past the page |
| `Pager.Pager.MmuDiskRead` | TP 2/src/mmu.c:531-539 | copies one block into one frame of the flat buffer and nothing else |
| `Pager.Pager.MmuDiskWrite` | TP 2/src/mmu.c:541-549 | copies one frame into one block of the flat buffer and nothing else |
| `Pager.Pager.MmuZeroFill` | TP 2/src/mmu.c:427-432 | fills one frame of the flat buffer with '0' and nothing else |
| `FlatMemory.CopyPage` | TP 2/src/mmu.c:531-549 | copying within flat buffers replaces exactly one page of the destination |
| `ProtocolSafety.Safety` | TP 2/src/mmu.c:212-257 | over all interleavings of any number of clients, every assertion after a peek holds, a signalled waiter is the one expected, and at most one request and one acknowledgement are in flight each way per client |
| `ProtocolSafety.AssertsHold` | TP 2/src/mmu.c:434-529 | in a state satisfying the invariant, whichever step is possible finds the message it peeked at |
| `ProtocolSafety.NextInv` | TP 2/src/uvm.c:162-203 | every step of every thread keeps the invariant: an outstanding request is in exactly one place, an awaited command or its acknowledgement too, and the mutex has one holder |
| `ProtocolSafety.CallReturnsApplied` | TP 2/src/mmu.h:26-28 | when a call into the memory unit returns, the process has applied every mapping it was told to make |
| `ProtocolSafety.CommandHandled` | TP 2/src/uvm.c:293-346 | a process that handles a remap has that address in the given frame with the given protection, and one that handles a change of protection has it in the same frame; no other address is touched, and the acknowledgement is the command's own |
| `ProtocolSafety.CommandArrives` | TP 2/src/mmu.c:434-529 | from a call of the pager to its return, whatever all threads do in between, exactly that has become of the mappings the process had |
| `ProtocolSafety.MappingsAgree` | TP 2/src/mmu.c:434-529 | outside such a call a process's mappings are those the pager asked for, as the pager's model assumes |
| `ProtocolProgress.NeverStuck` | TP 2/src/uvm.c:227-255 | whenever a client is blocked, some step that serves the clients is possible |
| `ProtocolProgress.RequestGoesOn` | TP 2/src/mmu.c:458-466 | a request ahead of an awaited acknowledgement can be consumed: its server thread is not in the pager |
| `ProtocolProgress.HolderGoesOn` | TP 2/src/mmu.c:458-524 | the holder of the pager mutex, or a step it waits for, can go on |
| `ProtocolProgress.ThreadGoesOn` | TP 2/src/uvm.c:162-203 | a message for a client's thread gets handled, its mutex being free or held by a thread of the same client that can go on |
| `ProtocolProgress.StepWorks` | TP 2/src/uvm.c:132-256 | every serving step lowers a measure of the work left |
| `ProtocolProgress.ServingIsBounded` | TP 2/src/uvm.c:132-256 | so any run without new requests is at most that long |
| `ProtocolProgress.MaximalRunServesAll` | TP 2/src/uvm.c:132-256 | and one that cannot go on has left no client blocked |
| `ProtocolSession.Session` | TP 2/src/uvm.c:72-256 | from the boot of any number of clients there is a run in which any one of them starts, extends its memory and faults, and goes on with the page where the pager put it |
| `ProtocolSession.RequestServed` | TP 2/src/uvm.c:132-157 | from any quiet state an extend, syslog or fault request can be played through to its reply, and leaves the client as it was |
| `ProtocolSession.FaultServed` | TP 2/src/uvm.c:227-346 | so can a fault in which the pager calls the client, which goes on with the command applied |
| `ProtocolSession.Ends` | TP 2/src/uvm.c:205-225 | and an exit, with the client's thread and server thread |
| `Scheduling.OnePlace` | TP 1/dccthread.c:172-192 | as long as each sleep timer fires once: a thread is in exactly one of running, ready, waiting and gone |
| `Scheduling.StepKeepsPlaces` | TP 1/dccthread.c:208-326 | no step loses a thread, and the only one that puts a thread in a second place is a timer firing for a thread not asleep |
| `Scheduling.NextInv` | TP 1/dccthread.c:172-326 | every step keeps each thread in one place, if timers fire for sleepers only |
| `Scheduling.NextAlive` | TP 1/dccthread.c:172-326 | every step, however often timers fire, keeps exactly the created threads somewhere, and a waiting thread from running |
| `Scheduling.WokenInvIff` | TP 1/dccthread.c:281-286 | the handler keeps every thread in one place if and only if the thread it wakes was asleep |
| `SchedulingRuns.WaitIsSafe` | TP 1/dccthread.c:256-271 | a thread that waits for another one runs again only when that one has exited or returned, over any run and however often the timers fire |
| `SchedulingRuns.RunInv` | TP 1/dccthread.c:172-326 | over any run in which timers fire for sleepers only, every thread is in exactly one place |
| `SchedulingRuns.ReadyTwice` | TP 1/dccthread.c:281-310 | a run of nine steps in which a timer fires a second time and a thread is in ready twice |
| `SchedulingRuns.EndedThreadRuns` | TP 1/dccthread.c:281-310 | six steps later a thread that has exited is given control |
| `SchedulingRuns.SelfWaitResumes` | TP 1/dccthread.c:172-192 | a wait for oneself is over at the next turn |
| `SchedulingRuns.EndsWithNobodyLeft` | TP 1/dccthread.c:172-206 | the program ends only when every thread created has ended, however often timers fire |
| `SchedulingRuns.EndsIffQueuesEmpty` | TP 1/dccthread.c:172 | the loop ends exactly when both queues are empty, however often timers fire |
| `SchedulingRuns.EndsIffAllGone` | TP 1/dccthread.c:172-206 | with every thread in one place, the program ends exactly when every thread created has ended |
| `SchedulingRuns.ExitAloneEnds` | TP 1/dccthread.c:172-254 | a main thread that exits ends the program |
| `SchedulingRuns.ControlPasses` | TP 1/dccthread.c:172-326 | only the manager gives the processor to a thread, only its loop ends the program, and which calls give it back to the manager |
| `SchedulingRuns.SleepsUntilWoken` | TP 1/dccthread.c:312-326 | over any run a sleeper is neither ready nor running until its timer fires |
| `SchedulingRuns.SleepAloneWakes` | TP 1/dccthread.c:172-192 | a lone sleeper whose timer fires while the manager has control goes on |
| `SchedulingRuns.FinishedIsExited` | TP 1/dccthread.c:244-254 | over any run the finished list gets exactly the threads that exit, in order, and none that return |
| `SchedulingRuns.WaitForNothing` | TP 1/dccthread.c:262 | a wait for nothing changes nothing |
| `SchedulingRuns.CrashesIffAllSleep` | TP 1/dccthread.c:172-179 | with every thread in one place, the manager uses the result of an empty pop exactly when all threads left are asleep |
| `SchedulingRuns.SleepAloneCrashes` | TP 1/dccthread.c:312-326 | a main thread that only sleeps reaches that state |
| `SchedulingRuns.TurnComes` | TP 1/dccthread.c:172-192 | the thread at place k of ready is popped after exactly k other pops, whatever else happens |
| `SchedulingRuns.FirstUnblockedRuns` | TP 1/dccthread.c:172-192 | the first ready thread that is not blocked gets control after exactly its place plus one iterations |
| `SchedulingRuns.ProgressIffUnblocked` | TP 1/dccthread.c:172-192 | while no timer fires, a thread gets control within as many iterations as threads are ready if and only if some ready thread is not blocked, and otherwise after no number of them |
| `SchedulingRuns.FirstToRunWasAsleep` | TP 1/dccthread.c:172-192 | and while timers do fire, once per sleep: if every ready thread is blocked, the first one to get control was asleep |
| `SchedulingRuns.AcyclicProgress` | TP 1/dccthread.c:172-192 | without a cycle of waits and with nobody asleep, some thread gets control within as many iterations as threads are ready |
| `Scheduler.Scheduler.ManagerIteration` | TP 1/dccthread.c:172-192 | one turn of the loop over the linked queues does the specified step |
| `Scheduler.Scheduler.CreateThread` | TP 1/dccthread.c:208-231 | appends a new thread to ready |
| `Scheduler.Scheduler.YieldThread` | TP 1/dccthread.c:233-242 | to the end of ready, and back to the manager |
| `Scheduler.Scheduler.ExitThread` | TP 1/dccthread.c:244-254 | to finished, and back to the manager |
| `Scheduler.Scheduler.WaitFor` | TP 1/dccthread.c:256-271 | records the target and yields; waiting for nothing returns at once |
| `Scheduler.Scheduler.SleepThread` | TP 1/dccthread.c:312-326 | sets the timer, goes to the end of waiting, and back to the manager |
| `Scheduler.Scheduler.WakeThread` | TP 1/dccthread.c:281-286 | from waiting, if there, to the end of ready, in any case |
| `Scheduler.Scheduler.IsInList` | TP 1/dccthread.c:86-103 | true exactly for the members of the queue |
| `DList.DList.Empty` | TP 1/dlist.c:104-115 | true exactly for the empty sequence, the asserted agreement of head, tail and count proved on the way |
| `DList.DList.PushRight` | TP 1/dlist.c:67-83 | appends; links stay mutual inverses |
| `DList.DList.PopLeft` | TP 1/dlist.c:25-44 | takes the first element, none from an empty list |
| `DList.DList.PopRight` | TP 1/dlist.c:46-65 | takes the last element, none from an empty list |
| `DList.DList.FindRemove` | TP 1/dlist.c:85-102 | removes and returns exactly the first present match |
| `DList.DList.GetIndex` | TP 1/dlist.c:117-129 | the element at a place counted from either end, none out of range |
| `DList.DList.SetIndex` | TP 1/dlist.c:131-143 | replaces exactly that element, nothing out of range |
| `DList.DList.Destroy` | TP 1/dlist.c:16-23 | hands every element over once, from the left |
| `DList.FirstMatch` | TP 1/dlist.c:85-102 | a place that matches with none before it, or nothing matches |
| `DList.PlaceFromRight` | TP 1/dlist.c:117-143 | index -1 is the last element and -k the k-th from the right |
| `FsRuns.FreeListIntegrity` | TP 3/fs.c:222-289 | after formatting and any run of gets, puts, writes to held blocks and reopenings: the chain has exactly freeblks different blocks and ends in 0, and it and the held blocks partition 3 to blks - 1 |
| `FsRuns.GetGivesNew` | TP 3/fs.c:222-249 | a get returns 0 exactly when the user holds every block, and otherwise one it does not hold |
| `FsRuns.Conserved` | TP 3/fs.c:222-289 | held blocks and freeblks add up to blks - 3 |
| `FsRuns.Persistence` | TP 3/fs.c:180-195 | closing and opening anywhere in a run, whatever memory then holds, changes neither the blocks handed out nor the final state |
| `FsRuns.GeometryIsStored` | TP 3/fs.c:70-87 | after formatting and any run, block 0 holds the number and size of blocks that were asked for |
| `FsRuns.Drain` | TP 3/fs.c:222-249 | taking all free blocks gives the free list in order and then 0 |
| `FsRuns.DrainNew` | TP 3/fs.c:150-159 | on a new file system: every block from 3 on once, in order, then 0 |
| `FsRuns.DrainAndRefill` | TP 3/fs.c:258-289 | putting them all back in any order restores freeblks |
| `FsRuns.Refill` | TP 3/fs.c:258-289 | blocks put back come to the head of the list, last one first |
| `FsRuns.UndoGets` | TP 3/fs.c:222-289 | n gets are undone to the last byte by putting the blocks back in opposite order |
| `FsBlocks.GetOk` | TP 3/fs.c:222-249 | a get takes the head, keeps the rest and the invariant, and writes only block 0 |
| `FsBlocks.PutOk` | TP 3/fs.c:258-289 | a put of a block that is not free makes it the head and keeps the invariant |
| `FsBlocks.PutOkIff` | TP 3/fs.c:258-289 | the free list stays sound exactly when the block put back is none of the first three and not free already, which the code does not check |
| `FsBlocks.PutUndoesGet` | TP 3/fs.c:222-289 | a put after a get restores superblock and disk |
| `FsBlocks.GetUndoesPut` | TP 3/fs.c:222-289 | a get after a put returns that block, and only its contents have changed |
| `FsBlocks.PutNeedsMagic` | TP 3/fs.c:260-264 | without the magic number a put changes nothing |
| `FsBlocks.ReopenFromDisk` | TP 3/fs.c:180-195 | opening restores the whole allocator from block 0 alone |
| `FsBlocks.FormatOk` | TP 3/fs.c:110-162 | a new file system satisfies the invariant and has blocks 3 to blks - 1 free, in order |
| `FsTree.MkdirOk` | TP 3/fs.c:756-781 | with two blocks free and room: one directory more at the end, earlier entries unchanged, the first two free blocks used, and every used block untouched |
| `FsTree.MkdirListing` | TP 3/fs.c:933-957 | the listing grows by a space, if it was not empty, and the name with a slash |
| `FsTree.MkdirWorksIff` | TP 3/fs.c:756-781 | a directory appears, and the tree stays sound, if and only if two blocks were free; success is reported either way |
| `FsTree.MkdirFull` | TP 3/fs.c:756-781 | with fewer, the new link is 0, which is the superblock and no directory |
| `FsTree.UniqueNamesIff` | TP 3/fs.c:756-781 | names stay different if and only if they were and the new one was the name of no entry; the code does not look |
| `FsTree.SameNameTwice` | TP 3/fs.c:700-789 | on every new file system the same directory can be made twice |
| `FsTree.DiskFillsUp` | TP 3/fs.c:700-789 | after as many mkdirs as there are pairs of free blocks, and with room for a link, the next one breaks the tree |
| `FsTree.FourteenFill` | TP 3/fs.c:700-789 | fourteen mkdirs on 32 blocks of 512 bytes leave one block, and the next mkdir breaks the tree |
| `FsTree.ListingOfAll` | TP 3/fs.c:890-965 | after any series of mkdirs in an empty root, splitting the listing at its spaces gives the names with their slashes, in order |
| `FsTree.EntryIsOwn` | TP 3/fs.c:24-37 | a sound entry is read whole, whatever an earlier one left in the buffers |
| `FsTree.ListingOnDisk` | TP 3/fs.c:907-964 | for a root of files and directories, on the disk's blocks: splitting the listing gives each entry's name, followed by a slash exactly when its inode's mode word is 2 |
| `FsTree.FormatRoot` | TP 3/fs.c:89-144 | the root is a directory named /, its own parent, where the superblock says |
| `FsTree.MkdirBlocks` | TP 3/fs.c:756-781 | what each of the six blocks holds afterwards, the new inode being its own parent; no other block changes |
| `FsTree.TokensSplit` | TP 3/fs.c:315-327 | a separator anywhere splits the components |
| `FsTree.TokensAreWords` | TP 3/fs.c:315-327 | no component is empty or holds a separator |
| `FsTree.FormatTree` | TP 3/fs.c:110-162 | a new file system has an empty root, and space for n directories exactly when their links fit in a block and their blocks on the disk |
| `FsTree.TokensOfJoin` | TP 3/fs.c:315-327 | splitting undoes joining |
| `FsTree.OneComponent` | TP 3/fs.c:315-327 | the path of one component names that component |
| `FileSystem.FileSystem.Format` | TP 3/fs.c:110-162 | which error, in which order; otherwise the specified image, with the block size asked for and as many blocks as fit the file |
| `FileSystem.FileSystem.Open` | TP 3/fs.c:167-196 | busy, bad magic, or the superblock read back from block 0 |
| `FileSystem.FileSystem.Close` | TP 3/fs.c:201-216 | closes unless the magic is wrong |
| `FileSystem.FileSystem.GetBlock` | TP 3/fs.c:222-249 | returns and leaves what the specification says |
| `FileSystem.FileSystem.PutBlock` | TP 3/fs.c:258-289 | returns and leaves what the specification says |
| `FileSystem.FileSystem.Mkdir` | TP 3/fs.c:700-789 | for a path of one component leaves what the specification says, and returns success |
| `FileSystem.FileSystem.SearchInode` | TP 3/fs.c:24-37 | the inode a link leads to, through a child inode if need be, and its metadata; what lies past the end of the image leaves the buffer as the entry before left it |
| `FileSystem.FileSystem.ListDir` | TP 3/fs.c:890-965 | for the root, the loop computes the specified listing, which gives each entry's name, with a slash exactly for inodes of mode 2 |
| `FileSystem.SubfoldersToVector` | TP 3/fs.c:315-327 | the components of a path |
| `Rotation.KeepsSuffix` | TP 2/src/cyc.c:219-245 | over any run, with failing opens and locks, the kept files from oldest to newest are an unbroken end of what was there and was written |
| `RotationRuns.AlwaysSuffixIff` | TP 2/src/cyc.c:228-236 | files numbered below nbackups have that property in all runs if and only if nbackups is at most 2^31 |
| `RotationRuns.OneBackupTooMany` | TP 2/src/cyc.c:228-236 | at 2^31 + 1 a run in which a file is renamed to a negative number, below one that stays |
| `RotationRuns.TooManyBackups` | TP 2/src/cyc.c:228 | above that no file is moved, and a run in which the last line but one is lost |
| `Rotation.ShiftLoses` | TP 2/src/cyc.c:228-238 | with fewer places than 2^31, a rotation loses exactly the oldest file, and that only if the one below is there to replace it |
| `Rotation.ShiftLossless` | TP 2/src/cyc.c:228-238 | it loses nothing while the last place is empty |
| `Rotation.ShiftOverflows` | TP 2/src/cyc.c:228-238 | with 2^31 places the file with the largest number leaves the log, and the one above it stays |
| `RotationRuns.ShiftIs` | TP 2/src/cyc.c:228-238 | the descending renamings move all files at once: where each file came from, the overflow of the largest number included |
| `RotationRuns.SizesFromStart` | TP 2/src/cyc.c:184-188 | every file is one that was there before, carried along with its contents, or is the open one or larger than maxsize and, without the file lock, below maxsize + 1024 bytes |
| `RotationRuns.LockKeepsFile` | TP 2/src/cyc.c:154-175 | under the file lock all lines go to the same file and no other file changes |
| `RotationRuns.LockedRunKeepsFile` | TP 2/src/cyc.c:154-175 | from the taking of the lock, with a file open, until it is given up, all lines go to that file |
| `RotationRuns.UnlockLetsRotate` | TP 2/src/cyc.c:162-188 | once it is given up, the next line to a file that has grown too large starts a new one |
| `RotationRuns.KeepsEnough` | TP 2/src/cyc.c:219-245 | starting with no files: every line is kept, or more than maxsize bytes for each slot but one |
| `RotationRuns.LastLineKept` | TP 2/src/cyc.c:123-138 | a written line is the last one kept |
| `Rotation.First` | TP 2/src/cyc.c:228 | where the renaming starts, with 32-bit wrap-around |
| `Rotation.Line` | TP 2/src/cyc.c:125-131 | a message is cut to exactly its first 1023 characters, and a shorter one is kept |
| `Cyclic.Cyclic.OpenFilesize` | TP 2/src/cyc.c:219-252 | the renaming loop, with the overflow of its target, and the opening do what the specification says |
| `Cyclic.Cyclic.CheckOpenFile` | TP 2/src/cyc.c:173-196 | rotates exactly when one is due, and tells whether a file is open |
| `Cyclic.Cyclic.Printf` | TP 2/src/cyc.c:103-138 | writes the cut line at the end of the open file, or nothing if none could be opened |
| `Cyclic.Cyclic.FileLock` | TP 2/src/cyc.c:154-160 | sets the flag that holds off rotation |
| `Cyclic.Cyclic.FileUnlock` | TP 2/src/cyc.c:162-168 | clears it |
| `Cyclic.InitFilesize` | TP 2/src/cyc.c:63-88 | no log for a size of zero |

## Left out

- The pager's `pager_syslog` output and `print_page_bytes`: they ignore the offset within a page and do not bring pages in.
- `fs_write_file`, `fs_unlink`, `fs_rmdir`, and `fs_mkdir` and `fs_list_dir` on deeper paths: they use values that are never set.
- FileSystem.FileSystem.Mkdir: a path of one component only, and a root with room for the link; for other paths the source reads, and for a full root it writes, past what it has set.
- FileSystem.FileSystem.ListDir: the root only, for the same reason.
- FileSystem.FileSystem.Format: the bytes after the last whole block, and words of a block that the source does not set, are not modelled.
- Pager.Pager.Extend: a table that was destroyed is empty but still found; the source frees its pages, and extending it again has no meaning there.
- Pager.Pager.Destroy: an unknown pid ends the whole program in the source; here the method says so and changes nothing.
- Scheduler.Scheduler.WaitFor: waiting for nothing returns in the source with signals still blocked; signals are not modelled.
- Cyclic.Cyclic.Printf: the number that `fputs` returns is not modelled, only whether the line was written.
- Cyclic.Cyclic.FileLock: that a second holder waits is not modelled; what is, is the flag that the lock protects.
- Cyclic.Cyclic.FileUnlock: likewise, that it lets a waiting holder go on.
- FileSystem.FileSystem.Open: the descriptor that the source takes from block 0, of the process that formatted the image, is not modelled.
- FileSystem.FileSystem.PutBlock: a block past the end of the image, which the source would write, making the image longer.
- DList: lists are not shared between owners, and freeing memory is not modelled.
- Addresses in the pager are unbounded integers, and its lists of tables and pages have no largest size.
- Sockets, signals, timers, `ucontext`, `mmap` and pthread internals: only their effect on the state.
- Spurious wakeups, socket errors, disconnection and shutdown.
- Failing `malloc`, lengths of string buffers, failing reads and writes of the image.
- Periodic rotation, which depends on the clock, and `log.c`.
- `dccthread_nwaiting` and `dccthread_nexited`: plain counts.
