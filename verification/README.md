# Models of the jasOS kernel

jasOS is a uniprocessor hybrid kernel in C. This project models its six cores and proves what they keep over every
run. Locks are step boundaries: a kernel call runs to completion, or to the point where it gives up the processor.

| files | what they model |
|---|---|
| `Vads`, `VadEdits`, `VadOperations` | the unsorted 64-entry array of regions and its cuts, joins and removals, page by page |
| `FlatMemory`, `MemoryRefinement`, `AddressSpaces` | user memory as a flat map with a history, and the calls that implement it with lazily filled shadow arrays (the host build) |
| `HardwareSpaces` | the same calls with page-table entries and physical frames (the hardware build), on top of the frame allocator |
| `Buddies`, `PhysicalMemory` | the buddy allocator: frame table, linked free lists, start-up, alloc, free |
| `KernelState`, `KernelInvariant`, `KernelSteps`, `KernelRuns`, `KernelOperations`, `KernelSafety`, `KernelWaits`, `KernelEvents`, `KernelRoster`, `ReadyMask`, `Dispatcher` | threads, wait lists, mutexes, ready queues and their mask, the process table, timeouts, kill, exit and donation |
| `HandleSpace`, `HandleOperations`, `HandleCopies`, `HandleTables`, `Pipes`, `PipeRuns` | generation-tagged handles, the two reference counts, byte pipes |
| `InitialStack` | the first stack of a process and its reader |
| `Paths`, `Vnodes`, `FileSystem`, `FileNames`, `FileRuns` | path normalisation, the name tree, open files and vnode lifetime |

Each core has a value model, on which the theorems are stated, and a class whose methods edit fields and arrays in
place with the source's loops. A method is tied to the value model by its `ensures`, and the theorems then hold of it.

How to read the main results:

* **Memory.** `AddressSpace.Valid` says that the regions, shadow arrays and heap blocks mean exactly what replaying the
  history of calls on a flat map means; every call keeps it. `ReadsLastWrite` says what that history means for one byte.
  Whether the k-th heap request is granted is a parameter, so every pattern of failures is covered.
* **Hardware.** `HardwareSpace.Valid` says that exactly the mapped pages have entries and ties each to its region; `Others`
  (what the frame allocator has handed out and is in no entry of this space) is the same after every call: no frame is
  lost, shared or given back twice.
* **Frames.** `Pmm.Valid` holds the partition, the lists, the counter and full merging. `AllocThenFree` follows because a
  fully merged table is determined by its set of free frames.
* **Dispatcher.** `Good` is inductive over all operations; `EveryRun` reads the promises off it. Fields `base` (priority at
  creation) and `pending` (the wait a thread has not returned from) exist only in the model. `KernelWaits` states what each
  call does, refusals included, and `EventAccount` balances the sets of an auto-reset event against its waits over every run.
* **Handles.** `Valid` counts slots over all tables. A slot's `bumps` (how often its generation moved) exists only in the
  model; `StaleHandle` gives the exact condition for a stale handle to resolve again.
* **Stack.** `Decodes` is the start-up code's reading of memory; it is unique and it is what the writer establishes.
* **Files.** `Inv` equates each vnode's reference count with its name and its open files; `frees` lists what was given back,
  and every vnode ever made is in memory or in that list, once. `OpenFileReadsTheSame` and `VnodeLife` speak of whole runs.
  `FileNames` states where every path leads after a call. `NormIsOnly` says that the laws of '.', '..' and names that
  `NormObeys` proves determine path normalisation.

Where the code and its documentation differ, the model follows the code: a protect does walk a hole-free run of mixed
regions (the header of `kernel/mm/vmm.c` and ARCHITECTURE.md say it does not), the region array is not sorted (MEMORY.md
says it is), and the generation is 32 bits wide (OBJECT_MODEL.md first says 16).

Properties that had to be stated with care: the thread dispatched is maximal among the queued ones only, because the
outgoing thread is queued after the choice; an abandoned mutex keeps its flag after the hand-over, so the flag does not say
that the present owner's predecessor died; a read of zero bytes from a pipe reports end of file at once; a stale handle
does resolve again, after exactly a whole number of double generation cycles; the region array stays aligned and free of
empty regions exactly as long as granted allocations are for whole pages, because alloc does not round its base and the
size it rounds can wrap (`AllocUser`, with two such requests in `NotWholeButGranted`); a write past the end of a file does
not zero the gap; an open that may create goes on after a failed walk with variables that were never set, so the file
system's invariant holds exactly for opens that their walk settles (`OpenSafeExactly`), and the theorems about runs are
about those; a timed wait ends in time exactly if its process is in the table of 64 (`EveryTick`, `NeverListed`); a legal
protection is writable and executable at once exactly if it combines read-write with an execute flag (`WriteOrExecute`).

Integers are unbounded where the source cannot overflow in practice; 64-bit wrap-around is written out in the range checks
of alloc, free and protect, and 32-bit wrap-around in generations and thread counts.

## Model

| member | source | states |
|---|---|---|
| `FlatMemory.ReadsLastWrite` | kernel/mm/vmm.c:1281-1342 | over every history of alloc, free, protect and write, the page-by-page memory holds at each address the byte of the last write, zero if the page was allocated since, nothing if it was freed; and each page's protection is that of the last alloc or protect over it |
| `FlatMemory.WriteInPieces` | kernel/mm/vmm.c:1286-1301 | a write split at any point is the same as the whole write, which is what copying page by page relies on |
| `VadOperations.ProtectCells` | kernel/mm/vmm.c:1435-1546 | cutting one region in three and retargeting the middle changes the protection of exactly the pages of the range; every page keeps its type, commit state and shadow slot |
| `VadOperations.ProtectKeepsOthers` | kernel/mm/vmm.c:1428-1432 | a protect of one range leaves every other range that lay inside one region inside one region, which is why later clips still find theirs |
| `VadOperations.ProtectPages` | kernel/mm/vmm.c:1435-1546 | the split keeps the number of mapped pages and adds one entry per cut |
| `VadOperations.ProtectStarts` | kernel/mm/vmm.c:1505-1546 | a protect begins no region except where an end of its range splits one |
| `VadOperations.ReleaseCells` | kernel/mm/vmm.c:1212-1251 | freeing unmaps exactly the pages of the range in all four cut cases, including swap-with-last removal; other pages keep attributes and slot |
| `VadOperations.ReleasePages` | kernel/mm/vmm.c:1212-1260 | the mapped pages drop by exactly the size of the range, never below zero |
| `VadOperations.CutsCount` | kernel/mm/vmm.c:1443-1447 | the pieces cut off a region are the ends of the range that split one |
| `VadOperations.MergeCells` | kernel/mm/vmm.c:138-170 | joining two adjacent equal regions changes no page's attributes or slot, whichever of the two arrays exist |
| `VadOperations.MergeKeepsOthers` | kernel/mm/vmm.c:113-181 | coalescing never takes a range out of the one region it lies in |
| `VadOperations.MergeStarts` | kernel/mm/vmm.c:113-181 | coalescing begins no region anywhere |
| `MemoryRefinement.ProtectRefines` | kernel/mm/vmm.c:1505-1546 | at the level of pages and heap blocks a protect is the flat-memory protect, and every block keeps the one page it backs |
| `MemoryRefinement.ReleaseRefines` | kernel/mm/vmm.c:1162-1177 | a free is the flat-memory free; the blocks that go are exactly those of the freed pages |
| `MemoryRefinement.AllocRefines` | kernel/mm/vmm.c:981-993 | an alloc is the flat-memory alloc: the new pages read zero |
| `MemoryRefinement.FillRefines` | kernel/mm/vmm.c:879-884 | giving a page its zeroed block is invisible to readers and gives each block exactly one home |
| `MemoryRefinement.StoreRefines` | kernel/mm/vmm.c:1295-1297 | copying bytes into a page's block is the flat-memory write on that page only |
| `AddressSpaces.AddressSpace.VadLookup` | kernel/mm/vmm.c:38-46 | finds a region over the address if and only if there is one |
| `AddressSpaces.AddressSpace.VadContainsRange` | kernel/mm/vmm.c:49-57 | finds a region that contains the whole non-empty range if and only if there is one |
| `AddressSpaces.AddressSpace.VadRunCovers` | kernel/mm/vmm.c:62-79 | succeeds exactly when the range is non-empty and has no hole; the bound of 64 steps is never what stops it; fewer than two steps means one region holds the range |
| `AddressSpaces.AddressSpace.SnapshotClips` | kernel/mm/vmm.c:1406-1426 | the clips tile the range in order and each lies inside one region; the table of 64 clips never overflows |
| `AddressSpaces.AddressSpace.VadCoalesce` | kernel/mm/vmm.c:113-181 | changes no page, keeps every range that lay in one region, and leaves no adjacent equal pair unless an allocation failed |
| `AddressSpaces.AddressSpace.PopulatePage` | kernel/mm/vmm.c:863-885 | refused exactly for unmapped, no-access or (for writes) read-only pages; otherwise the page gets a block and no reader can tell |
| `AddressSpaces.AddressSpace.WriteAspace` | kernel/mm/vmm.c:1281-1302 | writes exactly a prefix of the bytes, all of them on success; stops only at an inaccessible page or a failed allocation |
| `AddressSpaces.AddressSpace.ReadAspace` | kernel/mm/vmm.c:1321-1342 | each byte delivered is the last one the history put there, or zero; reading changes nothing that can be read |
| `AddressSpaces.AddressSpace.AllocUser` | kernel/mm/vmm.c:949-996 | the status is decided by size, range, the 64-entry and 32 MiB caps and overlap with regions, for every base and size; failure changes nothing; for whole pages success maps exactly the new pages as zero. The invariant survives exactly when a granted request is for whole pages: the call does not round its base, and a size near 2^64 rounds to none |
| `AddressSpaces.TakenIsMapped` | kernel/mm/vmm.c:975-980 | for whole pages, the comparison of addresses finds a conflict exactly when some page of the range is mapped |
| `AddressSpaces.NotWholeButGranted` | kernel/mm/vmm.c:951-980 | two requests that are granted although they are not for whole pages |
| `AddressSpaces.AddressSpace.FreeUser` | kernel/mm/vmm.c:1023-1279 | the status is exact: out of range, no region for the range, a region cut in the middle with a full table, or success; out of memory only when a piece of a touched region remains and the heap refuses. Success unmaps exactly the rounded range or the whole region and gives back each of its blocks once; a failed free changes nothing; the clamp to zero is dead code |
| `AddressSpaces.WholeRegionFrees` | kernel/mm/vmm.c:1023-1093 | to free a whole region can never be refused |
| `AddressSpaces.AddressSpace.ProtectContained` | kernel/mm/vmm.c:1435-1558 | the contained path: exactly the range changes; a full table refuses it exactly when the pieces that are cut off do not fit; no adjacent equal regions remain unless the heap refused; a failure changes nothing |
| `AddressSpaces.AddressSpace.ProtectUser` | kernel/mm/vmm.c:1375-1559 | over any hole-free run exactly the pages of the rounded range change and the first page's old protection is reported; each refusal is exact for parameters, protection and holes; a full table refuses only when the regions that the two ends split do not fit, surely when the near end's does not, and exactly when they do not fit unless the range spans several regions and its far end splits one, where joins on the way can make room; a later failure leaves a prefix of the range changed |
| `AddressSpaces.AddressSpace.ProtectClips` | kernel/mm/vmm.c:1428-1433 | the loop over clips: each later clip is still inside one region; regions begin only where one began before or where an end of the range splits one, so no more entries are ever needed; what is changed is a prefix |
| `AddressSpaces.MappedCount` | kernel/mm/vmm.c:971-993 | committed_pages equals the number of mapped pages |
| `AddressSpaces.LaterClips` | kernel/mm/vmm.c:1392-1434 | protecting a clip leaves every later clip inside one region |
| `HardwareSpaces.HardwareSpace.Populate` | kernel/mm/vmm.c:863-941 | refused exactly for inaccessible pages; out of memory exactly when the page is not yet present and no frame is free or its tables are missing and cannot be had; the frame taken is in exactly one entry afterwards or back with the allocator; no other entry changes |
| `HardwareSpaces.HardwareSpace.ApplyProt` | kernel/mm/vmm.c:694-712 | every entry of the range with a frame gets exactly the new protection's flags, or is parked out of reach for no-access; untouched entries stay |
| `HardwareSpaces.HardwareSpace.CollectClear` | kernel/mm/vmm.c:437-452 | clears the first n or cap entries and lists exactly the frames they held, in address order |
| `HardwareSpaces.HardwareSpace.ClearRange` | kernel/mm/vmm.c:1184-1209 | in one go or in 16-page batches: the stretch is empty afterwards and each of its frames went back to the allocator exactly once |
| `HardwareSpaces.HardwareSpace.FreeAll` | kernel/mm/vmm.c:1262-1265 | every frame of the list is accepted by the allocator, which never panics on it |
| `HardwareSpaces.HardwareSpace.FreeUser` | kernel/mm/vmm.c:1023-1265 | entries and regions lose exactly the same pages; the status is exactly that of the regions; what others hold of the frame allocator is unchanged; failure changes nothing |
| `HardwareSpaces.HardwareSpace.ProtectUser` | kernel/mm/vmm.c:1375-1559 | entries and regions change protection on exactly the same pages, also after a partial failure; refusals, a full table included, and the reported old protection are those of the regions; never out of memory |
| `HardwareSpaces.HardwareSpace.AllocUser` | kernel/mm/vmm.c:949-1021 | succeeds exactly when the regions allow it and every table can be had; then exactly the pages of the range get untouched entries; when a table cannot be had the region and all its entries are gone again |
| `HardwareSpaces.HardwareSpace.MarkCommitted` | kernel/mm/vmm.c:998-1016 | marks exactly the pages up to the first whose tables cannot be had |
| `HardwareSpaces.HardwareSpace.Unmap` | kernel/mm/vmm.c:1000-1012 | taking the new region away again cannot be refused and restores memory and entries |
| `HardwareSpaces.TableFlags` | kernel/mm/vmm.c:184-191 | over all combinations of the six protection flags, a present entry is writable exactly with a writing flag and executable exactly with an execute flag |
| `HardwareSpaces.WriteOrExecute` | kernel/mm/vmm.c:184-191 | under a legal protection an entry is writable and executable at once exactly if read-write is combined with an execute flag |
| `HardwareSpaces.TableGrants` | kernel/mm/vmm.c:863-941 | the processor can write to a present page exactly if the kernel may write to it on the user's behalf |
| `AddressSpaces.LegalFlags` | kernel/mm/vmm.c:1366-1373 | over all combinations of the six flags, legal is what has some flag but not execute-read-write |
| `AddressSpaces.Rounds` | kernel/include/jasos/config.h:14-15 | rounding yields the nearest page boundary below, and above unless the 64-bit sum wraps, when it yields zero |
| `AddressSpaces.OutOfRangeExactly` | kernel/mm/vmm.c:1379-1383 | with 64-bit wrap-around, the test refuses exactly the ranges that do not lie in the user half |
| `HardwareSpaces.ProtectMirrors` | kernel/mm/vmm.c:694-712 | present entries still carry exactly the flags of their region's protection and no-access pages are still not present |
| `HardwareSpaces.RetaggedFrames` | kernel/mm/vmm.c:701-709 | a change of protection moves no frame, parked ones included |
| `Buddies.XorIsBuddy` | kernel/mm/pmm.c:262-263 | pfn ^ (1 << order) is the start of the other half of the enclosing block |
| `Buddies.RunInBlock` | kernel/mm/pmm.c:224-229 | when no two free buddies are left apart, every naturally aligned run of free frames lies inside one free block |
| `Buddies.RunIffBlock` | kernel/mm/pmm.c:219-229 | a block of sufficient order is free exactly when an aligned run of that many free frames exists |
| `Buddies.FreeBlocksDetermined` | kernel/mm/pmm.c:261-271 | two tables with the same set of free frames and no free buddies apart have the same free blocks |
| `Buddies.AllocThenFree` | kernel/mm/pmm.c:219-274 | allocating a block and freeing it brings back exactly the same free blocks |
| `Buddies.Partition` | kernel/mm/pmm.c:89-99 | every frame is reserved or in exactly one block, free or handed out |
| `Buddies.SplitKeeps` | kernel/mm/pmm.c:231-237 | halving a free block keeps the tiling, the free frames and what is handed out |
| `Buddies.JoinKeeps` | kernel/mm/pmm.c:266-269 | merging two free buddies keeps the tiling, the free frames and what is handed out |
| `Buddies.GreedyMerged` | kernel/mm/pmm.c:188-211 | building the largest aligned block at each free frame leaves no two free buddies |
| `PhysicalMemory.Pmm.ListPush` | kernel/mm/pmm.c:62-66 | the frame becomes the head of its list; the other lists are unchanged |
| `PhysicalMemory.Pmm.ListPop` | kernel/mm/pmm.c:68-75 | takes the head of the list, or reports that it is empty |
| `PhysicalMemory.Pmm.ListRemove` | kernel/mm/pmm.c:77-88 | the pointer walk removes exactly the given frame, wherever it is in the list |
| `PhysicalMemory.Pmm.MarkBlock` | kernel/mm/pmm.c:90-99 | marks exactly the frames of the block |
| `PhysicalMemory.Pmm.Build` | kernel/mm/pmm.c:188-211 | from any set of available frames: a valid allocator whose free frames are exactly those, largest blocks first |
| `PhysicalMemory.Pmm.AllocBlock` | kernel/mm/pmm.c:219-247 | fails exactly when the order is too large or no aligned run of free frames exists; otherwise hands out an aligned block taken from the free frames and keeps partition, lists, counter and full merging |
| `PhysicalMemory.Pmm.FreeBlock` | kernel/mm/pmm.c:249-274 | panics exactly for what is not an allocated head; otherwise returns exactly the block's frames to the free set, merged as far as possible |
| `PhysicalMemory.Pmm.constructor` | kernel/mm/pmm.c:159-211 | start-up establishes the whole invariant |
| `KernelSafety.EveryRun` | kernel/ke/wait.c:79-178 | after every legal run of waits, releases, events, kills, exits, ticks and creations: each thread is in exactly one place, mask bits match queues, every mutex is free or held by one live thread and on its list only, no signalled object has waiters, donations are unwound, and the running thread has no kill pending |
| `KernelSafety.GoodIsSafe` | kernel/ke/sched.c:38-137 | the inductive invariant implies those five properties |
| `KernelSafety.AcquireMakesOwner` | kernel/ke/wait.c:79-132 | a wait on a mutex that returns success or abandoned, at once or after blocking, leaves the caller its owner, whatever happened in between |
| `KernelSafety.AutoResetReleasesOne` | kernel/ob/object.c:249-263 | setting an unsignalled auto-reset event with waiters releases exactly the first of them and changes no other thread |
| `KernelSafety.SignalReleasesAll` | kernel/ob/object.c:249-263 | setting any other event, or a thread's or process's end, releases every waiter and keeps the signal |
| `KernelSafety.ReleaseHandsOver` | kernel/ke/wait.c:150-178 | the last release hands the mutex to the first waiter, with success and unmarked |
| `KernelSafety.AbandonHandsOver` | kernel/ke/wait.c:38-56 | when the owner dies the first waiter owns the mutex and is told it was abandoned; without waiters it is free; it is marked either way |
| `KernelSafety.TableTimeoutsFire` | kernel/ke/sched.c:345-385 | after a tick's scan no timed waiter of a listed process is past its deadline |
| `KernelRoster.EveryTick` | kernel/ke/sched.c:339-385 | at every tick of every run from start-up, once the timers have fired, a timed wait past its time survives the scan exactly when the process of the waiter is not in the table |
| `KernelRoster.NeverListed` | kernel/ke/sched.c:577-580 | a process that finds the table of 64 full when it is created is not in it after any run, so its timed waits never end by time |
| `KernelRoster.StepRoster` | kernel/ke/sched.c:270-324 | every operation keeps each thread on its process's list and each count equal to the threads that have not ended; the table gains only a new process that finds room and loses only one without threads |
| `KernelRoster.LeaveRoster` | kernel/ke/sched.c:291-321 | the end of a thread lowers the count of its own process by one, and the last one takes the process out of the table |
| `KernelRoster.LastThreadUnlists` | kernel/ke/sched.c:310-319 | a process other than the first two leaves the table exactly with its last thread, and no other process leaves then, though the last entry moves into its place |
| `KernelRoster.ListedLives` | kernel/ke/sched.c:270-324 | in every state the kernel reaches from start-up, every listed process but the first two has a thread that has not ended, or has had none so far |
| `KernelWaits.WaitOutcome` | kernel/ke/wait.c:79-132 | a wait returns at once exactly if the object is signalled, is a mutex the caller owns, or the timeout is zero; each status has its exact condition, abandonment included |
| `KernelWaits.WaitConsumes` | kernel/ke/wait.c:107-108 | a satisfied wait on anything but a mutex clears an auto-reset event or a timer, leaves a manual-reset event, a thread and a process signalled, and changes no thread and no other object |
| `KernelWaits.WaitTakesMutex` | kernel/ke/wait.c:88-104 | an owned mutex is owned once more; a free one is taken once, is on the caller's list and forgets that it was abandoned; nothing else changes |
| `KernelWaits.WaitBlocks` | kernel/ke/wait.c:111-125 | a wait that blocks puts the caller last in the object's list, waiting, with exactly the deadline asked for; no other object changes |
| `KernelWaits.WaitDonates` | kernel/ke/wait.c:58-67 | after a wait on a mutex that another thread holds, the holder's priority is the higher of the two; a holder that was lifted remembers its base priority and is in the queue of the new one; no other priority changes |
| `KernelWaits.ReleaseRefuses` | kernel/ke/wait.c:150-160 | a release is refused exactly to a thread that is not the owner, and then changes nothing |
| `KernelWaits.ReleaseCountsDown` | kernel/ke/wait.c:150-178 | a release of a mutex owned more than once only counts down |
| `KernelWaits.ReleaseFrees` | kernel/ke/wait.c:150-178 | the last release without waiters leaves the mutex free and takes exactly it off the caller's list; no other object or thread changes |
| `KernelWaits.KillMarks` | kernel/ke/sched.c:123-137 | a kill marks the thread with its status; a waiting one is on no wait list any more and is ready; no other thread changes |
| `KernelWaits.KilledForGood` | kernel/ke/sched.c:123-137 | over every run, a killed thread never runs again and keeps the exit status of its last kill |
| `KernelWaits.PickedEnds` | kernel/ke/sched.c:226-263 | a killed thread that is picked has ended after the dispatch, with the status of its kill |
| `KernelWaits.PickedStarts` | kernel/ke/sched.c:226-246 | a thread that takes over the processor runs with a whole quantum, and the request to reschedule is gone |
| `KernelWaits.LeaveTells` | kernel/ke/sched.c:270-324 | an exit signals the thread, and with the last thread of a process other than the first the process, and nobody is left waiting for either; the process ends with the status of its last thread; the kernel panics exactly with the end of the first |
| `KernelWaits.ReadyAtTail` | kernel/ke/sched.c:59-73 | a thread that becomes ready is last in the queue of its priority; a reschedule is asked for exactly if it outranks the current thread |
| `KernelWaits.BoostAsks` | kernel/ke/sched.c:75-100 | a change of priority asks for a reschedule exactly if it puts another thread above the current one or lowers that one |
| `KernelWaits.ExpiryTells` | kernel/ke/sched.c:373-383 | a wait whose time has come ends with a timeout: off the list, in the ready queue, and a reschedule is asked for |
| `KernelWaits.TickSpends` | kernel/ke/sched.c:386-391 | a tick takes one from the quantum of a thread below the real-time priorities and asks for a reschedule exactly with the last |
| `KernelWaits.NewThreadIs` | kernel/ke/sched.c:460-529 | a new thread has the priority and process asked for and a whole quantum, and is ready unless suspended |
| `KernelWaits.NewMutexIs` | kernel/ob/object.c:278-293 | a new mutex belongs to its creator, once and on its list, or is free |
| `KernelEvents.EventAccount` | kernel/ob/object.c:249-263 | over every run, what an auto-reset event had to give and every set of it, by a call or a timer, equals the waits that succeeded, the grants that have not returned, the signals still there and those cleared: no set is lost or serves twice |
| `KernelEvents.SuccessesBounded` | kernel/ke/wait.c:79-132 | from its creation on, at most as many waits on an auto-reset event succeed as it had signals and was set |
| `KernelSteps.PickInv` | kernel/ke/sched.c:226-246 | dispatch runs the head of the highest non-empty queue, or idle if all are empty, and keeps the invariant although the outgoing thread is queued only afterwards |
| `KernelSteps.PopShape` | kernel/ke/sched.c:44-57 | the pop takes the head of the highest non-empty queue and keeps mask and queues in step |
| `KernelSteps.AttemptInv` | kernel/ke/wait.c:87-127 | every branch of a wait, including donation before the zero-timeout check, keeps the invariant |
| `KernelSteps.KillInv` | kernel/ke/sched.c:123-137 | killing a thread in any state keeps the invariant; a waiting one leaves its list and becomes ready |
| `KernelSteps.ExpireInv` | kernel/ke/sched.c:372-383 | a timeout takes the thread off its wait list and readies it, keeping the invariant |
| `KernelSteps.LeaveInv` | kernel/ke/sched.c:270-323 | exit abandons every owned mutex, ends the thread, signals it and, for the last thread, its process, keeping the invariant |
| `KernelInvariant.ReleaseInv` | kernel/ke/wait.c:150-178 | release, hand-over and return to base priority keep the invariant |
| `KernelInvariant.DonateInv` | kernel/ke/wait.c:58-67 | donation keeps the invariant: the base priority is remembered once and the owner's queue follows its priority |
| `KernelInvariant.HandOverInv` | kernel/ob/object.c:219-242 | handing an ownerless mutex to its first waiter restores the mutex invariant |
| `KernelInvariant.SignalInv` | kernel/ob/object.c:249-263 | signalling restores 'signalled implies no waiters' for every kind of object but a mutex |
| `KernelInvariant.BoostInv` | kernel/ke/sched.c:75-100 | a change of priority moves a ready thread to the right queue and keeps the mask |
| `KernelInvariant.AbandonAllInv` | kernel/ke/wait.c:38-56 | abandoning a dying thread's mutexes one by one empties its list and keeps every other thread's |
| `KernelRuns.Dispatch` | kernel/ke/sched.c:226-263 | reschedule with killed threads exiting as they are switched to: it terminates, and ends with a running thread without pending kill unless the kernel panicked |
| `KernelRuns.LeaveLive` | kernel/ke/sched.c:270-294 | an exit ends exactly one thread and no other |
| `KernelRuns.NewThreadInv` | kernel/ke/sched.c:460-529 | creating a thread, suspended or not, keeps the invariant |
| `KernelRuns.NewMutexInv` | kernel/ob/object.c:278-293 | a new mutex, owned by its creator or free, satisfies the invariant |
| `KernelRuns.TickedInv` | kernel/ke/sched.c:339-391 | a tick with any timers due keeps the invariant |
| `ReadyMask.TopIsHighest` | kernel/ke/sched.c:46-47 | 31 - clz of the mask word is the highest priority with its bit set |
| `ReadyMask.EditBit` | kernel/ke/sched.c:41-55 | setting or clearing a bit of the word changes that priority and no other |
| `Dispatcher.Kernel.PopReady` | kernel/ke/sched.c:44-57 | computes the pop of the value model from the mask word and its highest set bit |
| `Dispatcher.Kernel.MakeReady` | kernel/ke/sched.c:59-73 | takes the ready step of the value model |
| `Dispatcher.Kernel.Boost` | kernel/ke/sched.c:75-100 | takes the boost step of the value model |
| `Dispatcher.Kernel.DispWakeOne` | kernel/ob/object.c:219-242 | takes the wake step: first waiter out, mutex handed over |
| `Dispatcher.Kernel.DispWakeAll` | kernel/ob/object.c:244-247 | the loop wakes exactly the waiters of the value model, in order |
| `Dispatcher.Kernel.DispSignal` | kernel/ob/object.c:249-263 | takes the signal step, both loops included |
| `Dispatcher.Kernel.MutexDonate` | kernel/ke/wait.c:58-67 | takes the donation step, of which `WaitDonates` speaks |
| `Dispatcher.Kernel.ReleaseMutex` | kernel/ke/wait.c:150-178 | takes the release step and returns its status; see `ReleaseRefuses`, `ReleaseCountsDown`, `ReleaseFrees` and `ReleaseHandsOver` |
| `Dispatcher.Kernel.AbandonOwned` | kernel/ke/wait.c:38-56 | the loop terminates because nobody hands a mutex back, and abandons the owned mutexes in list order |
| `Dispatcher.Kernel.LeaveThread` | kernel/ke/sched.c:270-324 | performs the exit of the value model up to the reschedule |
| `Dispatcher.Kernel.Switch` | kernel/ke/sched.c:226-246 | performs the dispatch choice of the value model |
| `Dispatcher.Kernel.Reschedule` | kernel/ke/sched.c:226-263 | performs the whole dispatch, exits included |
| `Dispatcher.Kernel.KillThread` | kernel/ke/sched.c:123-137 | takes the kill step, of which `KillMarks` and `KilledForGood` speak; killing oneself is an exit |
| `Dispatcher.Kernel.WaitObject` | kernel/ke/wait.c:79-132 | takes the wait step up to its return or to the next thread's turn, with the value model's status; `WaitOutcome`, `WaitConsumes`, `WaitTakesMutex`, `WaitBlocks` and `WaitDonates` say what that is |
| `Dispatcher.Kernel.OnTick` | kernel/ke/sched.c:339-393 | takes the tick step: timers, timeout scan, quantum, reschedule |
| `HandleSpace.Encoded` | kernel/include/jasos/config.h:42-44 | index and generation survive the round trip through the handle value, whose low two bits stay zero |
| `HandleSpace.BumpIs` | kernel/ob/handle.c:58-60 | the generation counter that skips zero runs through the cycle 1 .. 2^32 - 1 |
| `HandleSpace.MappedBits` | kernel/ob/object.c:74-82 | with masks of specific rights, each generic right asked for becomes its mask, specific rights asked for stay, nothing else is granted and no generic right is left |
| `HandleSpace.MappedAsIs` | kernel/ob/object.c:74-82 | an access without generic rights is granted as it is |
| `HandleSpace.FillValid` | kernel/ob/handle.c:50-66 | opening keeps the counts: handle count is the slots naming the object over all tables, pointer count that plus kernel references, pipe ends the slots with that access |
| `HandleSpace.ClearValid` | kernel/ob/handle.c:121-133 | closing keeps the counts, and deletes the object exactly with its last reference |
| `HandleSpace.DereferenceValid` | kernel/ob/object.c:112-121 | dropping a reference keeps the counts; no slot ever names a deleted object |
| `HandleOperations.InsertResolves` | kernel/ob/handle.c:45-72 | the handle returned resolves to the object with the mapped access and the inherit and protect flags asked for, through a slot that was empty |
| `HandleOperations.InsertKeeps` | kernel/ob/handle.c:45-72 | opening disturbs no handle of any table that resolved before |
| `HandleOperations.LookupExactly` | kernel/ob/handle.c:79-104 | a lookup is refused exactly, in this order, for a handle that does not resolve, a required right bit that the slot lacks, and an object of another kind; otherwise it yields the slot's object and rights and takes exactly one reference; a refusal changes nothing |
| `HandleOperations.NeverMoreThanGranted` | kernel/ob/handle.c:45-104 | a lookup through the handle an open returned succeeds exactly for rights within the mapped access it was opened with |
| `HandleOperations.CloseExactly` | kernel/ob/handle.c:106-134 | a close is refused exactly for a handle that does not resolve or is protected; otherwise the object has one handle less, and is gone exactly with its last handle if nobody refers to it and it is not permanent; every other object is as it was |
| `HandleOperations.CloseEnds` | kernel/ob/handle.c:106-134 | a successful close ends that handle and no other |
| `HandleOperations.StaleHandle` | kernel/ob/handle.c:87-90 | a handle resolves exactly when its slot has moved on by a whole number of double generation cycles since |
| `HandleOperations.ClosedStaysClosed` | kernel/ob/handle.c:106-134 | no run makes a closed handle resolve again until its slot has been reused 2^32 - 1 times |
| `HandleOperations.EveryRun` | kernel/ob/handle.c:11-189 | in every run each object's two counts are exactly the slots and references that name it, and no slot names a deleted object |
| `HandleOperations.ClosedMeansNoWriter` | kernel/ob/pipe.c:39-65 | a pipe is closed exactly when it had a writer and no slot of any table can write to it; its writer count is the number of such slots |
| `HandleOperations.Duplicate` | kernel/ob/handle.c:136-147 | keeps all counts, and gives back the reference it takes, on failure too |
| `HandleOperations.Inherit` | kernel/ob/handle.c:165-189 | keeps all counts, and gives back every reference it takes, however many insertions fail |
| `HandleOperations.ClearFrom` | kernel/ob/handle.c:11-38 | empties the table and keeps the counts of everything it named |
| `HandleCopies.DuplicateResolves` | kernel/ob/handle.c:136-147 | refused exactly for a handle that does not resolve or a full target table; otherwise the new handle resolves there to the same object, through a slot that was empty, with the old or the requested access mapped; no other slot changes |
| `HandleCopies.InheritGives` | kernel/ob/handle.c:165-189 | as many inheritable slots as the child's table has room for, lowest first, get a slot of their own there that names the same object with the mapped access; succeeds exactly when that is all of them; no other slot of any table changes |
| `HandleCopies.InsertAllPlaces` | kernel/ob/handle.c:180-188 | a list of insertions fills as many empty slots as there are, in order, and succeeds exactly when it fits |
| `HandleTables.ObjectManager.InsertEx` | kernel/ob/handle.c:45-72 | takes the open step: first empty slot, both counts, open hook |
| `HandleTables.ObjectManager.LookupEx` | kernel/ob/handle.c:79-104 | takes the lookup step, with the checks in the source's order; `LookupExactly` says when each of them fails |
| `HandleTables.ObjectManager.CloseHandle` | kernel/ob/handle.c:106-134 | takes the close step; a protected handle is refused |
| `HandleTables.ObjectManager.DuplicateHandle` | kernel/ob/handle.c:136-147 | takes the duplicate step |
| `HandleTables.ObjectManager.InheritTable` | kernel/ob/handle.c:165-189 | takes the inherit step: all references first, then all insertions, the first failure reported |
| `HandleTables.ObjectManager.DestroyTable` | kernel/ob/handle.c:11-38 | the loop that restarts its scan after every close empties the table as the value model does |
| `Pipes.Pipe.ReadRound` | kernel/ob/pipe.c:110-130 | one round of a read takes the bytes at the front of the pipe, as many as fit, across wrap-around; end of file only when closed and empty (or nothing was asked for); sleeps only when open and empty |
| `Pipes.Pipe.WriteRound` | kernel/ob/pipe.c:140-159 | one round of a write: the next bytes of the request are accepted in order across wrap-around; sleeps only when full |
| `Pipes.ReadPipe` | kernel/ob/pipe.c:105-133 | end of file reaches a request for at least one byte only when no handle in any table can write and every accepted byte has been delivered |
| `PipeRuns.EveryRun` | kernel/ob/pipe.c:105-162 | over every run of any number of reads and writes, in any order of rounds, with handles opened, duplicated, inherited and closed meanwhile: bytes leave in the order in which they were accepted, at most 4096 are on the way, each write's accepted bytes are a prefix of its data and each read has exactly the bytes delivered to it, in order |
| `PipeRuns.EndOfFileMeansDrained` | kernel/ob/pipe.c:112-117 | a round that reports end of file finds no handle anywhere that can write and everything delivered |
| `InitialStack.DecodeUnique` | user/crt0.S:9-11 | what the start-up code reads from a stack pointer is unique: one argv and one envp |
| `InitialStack.WriteInitialStack` | kernel/ke/exec.c:126-179 | a non-zero stack pointer lies in the stack region and decodes to exactly the stored arguments and environment; nothing at or above the start is touched; zero only if a page is missing or the heap refuses |
| `InitialStack.StartStack` | kernel/ke/exec.c:214-220 | once the stack region is mapped, only a refusal of the kernel heap can keep the arguments from being read back |
| `InitialStack.WriteStrings` | kernel/ke/exec.c:138-158 | the strings are in place, zero-terminated, at the recorded addresses, and stay there |
| `InitialStack.WriteVector` | kernel/ke/exec.c:159-173 | the words and the null word after them are in place, first word lowest |
| `InitialStack.CopyArguments` | kernel/ke/exec.c:79-97 | as for the environment, and an empty vector is replaced by the image name, or 'unknown' without one |
| `InitialStack.CopyVector` | kernel/ke/exec.c:100-113 | refuses more than 16 strings; what it stores is cut to 127 bytes and always fits the stack writer's limits |
| `InitialStack.NumberOfBytes` | kernel/ke/exec.c:174-176 | eight little-endian bytes read back as the word that was written |
| `Paths.PathNorm` | kernel/fs/vfs.c:99-135 | the parser computes the normalisation of the full path, which `NormObeys` and `NormIsOnly` characterise; only a stack deeper than 32 is refused |
| `Paths.NormAdds` | kernel/fs/vfs.c:112-126 | a proper name after a path is added to what the path normalises to; refused exactly when that is 32 deep |
| `Paths.NormGoesBack` | kernel/fs/vfs.c:112-126 | '..' after a name takes the name away again |
| `Paths.NormOfRoot` | kernel/fs/vfs.c:112-126 | '..' in the root stays there |
| `Paths.NormSkips` | kernel/fs/vfs.c:112-126 | '.' and an empty component change nothing |
| `Paths.NormObeys` | kernel/fs/vfs.c:99-135 | normalisation obeys these laws, takes a path without a slash in the root, and depends only on what the part before the last slash normalises to |
| `Paths.NormIsOnly` | kernel/fs/vfs.c:99-135 | any function on strings that obeys the laws is normalisation, on every input |
| `Paths.NormIsClean` | kernel/fs/vfs.c:127-133 | the result is absolute and has no empty, '.' or '..' component |
| `Paths.NormNotLonger` | kernel/fs/vfs.c:99-135 | an absolute path never gets longer |
| `Paths.NormTwice` | kernel/fs/vfs.c:99-135 | normalising twice changes nothing |
| `Paths.NormInSteps` | kernel/fs/vfs.c:103-126 | norm(norm(a)/b) equals norm(a/b) whenever the latter succeeds |
| `Paths.RelativeIsWhole` | kernel/fs/vfs.c:103-108 | a relative path against a normalised directory resolves as the whole path does |
| `Paths.ResultFits` | kernel/fs/vfs.c:127-132 | with an absolute working directory nothing is cut off the result |
| `Paths.PrintInto` | kernel/fs/vfs.c:127-133 | appending component by component into a bounded buffer is one cut of the whole result |
| `Vnodes.ReleaseInv` | kernel/fs/vfs.c:77-89 | the vnode is given back, and recorded as given back, exactly when it has neither a name nor an open file |
| `Vnodes.AttachInv` | kernel/fs/vfs.c:56-60 | attaching under a new name keeps references, sibling names and the absence of cycles |
| `Vnodes.DetachInv` | kernel/fs/vfs.c:443-450 | taking away a name keeps the invariant: every vnode ever made is in memory or was given back, once |
| `Vnodes.OpenInv` | kernel/fs/vfs.c:262-272 | an open file adds exactly one reference |
| `Vnodes.CloseInv` | kernel/fs/vfs.c:91-97 | closing drops exactly that reference |
| `Vnodes.WalkStays` | kernel/fs/vfs.c:137-175 | a walk ends in a named directory, and its leaf is that directory's entry of that name |
| `FileRuns.OpenFileReadsTheSame` | kernel/fs/vfs.c:191-452 | over every run of calls, with opens that their walk settles, that does not close the file, move its position or write its vnode, an open file reads the same bytes; unlinking its name included |
| `FileRuns.EveryRun` | kernel/fs/vfs.c:191-452 | the invariant holds in every state of every run of mkdir, open, unlink, close, read, write and positioning; opens are those whose directory resolves or that ask for an existing file |
| `FileRuns.VnodeLife` | kernel/fs/vfs.c:77-97 | in every state of every such run each vnode ever made is in memory with a name or an open file, or was given back exactly once |
| `FileRuns.GivenBackForGood` | kernel/fs/vfs.c:77-89 | in such a run a vnode that was given back never returns |
| `FileSystem.UnlinkRefusesFull` | kernel/fs/vfs.c:443-446 | a directory with entries, and the root, are never unlinked |
| `FileNames.UnlinkExactly` | kernel/fs/vfs.c:425-452 | an unlink succeeds exactly for a path to an entry that is neither a device nor a directory with entries; then the directory has no such entry, every path that does not ask for the name leads where it led, and the vnode is in memory exactly if a file is open on it; a refusal changes nothing |
| `FileNames.MkdirExactly` | kernel/fs/vfs.c:191-213 | each refusal is exact and changes nothing; otherwise the path leads to a new empty directory and every path that does not ask for the name leads where it led |
| `FileNames.OpenFindsEntry` | kernel/fs/vfs.c:237-272 | an open that finds an entry succeeds exactly if it is of the kind asked for, need not be new and there is memory; it opens that vnode at the start with the rights asked for and changes no name and no byte |
| `FileNames.OpenMakesEntry` | kernel/fs/vfs.c:241-257 | an open that finds a directory without the entry succeeds exactly if it may create, the name is not empty and there is memory; the path then leads to a new empty vnode of the kind asked for; other paths lead where they led; the new name stays when only the file object cannot be had |
| `FileNames.OpenAstray` | kernel/fs/vfs.c:234-267 | after a failed walk an open of an existing file is refused; one that may create opens the entry its unset variables name, but no vnode whose name is gone |
| `FileNames.WriteStarts` | kernel/fs/vfs.c:357-381 | an appending file's contents are the old ones and the new bytes, wherever its position was; any other file has the bytes at its position; the position is behind them and the size exact |
| `FileNames.WrittenIsRead` | kernel/fs/vfs.c:281-386 | bytes written are read back from where they went |
| `FileNames.OthersUnwritten` | kernel/fs/vfs.c:357-381 | every other byte of the file stays |
| `FileNames.ReadExactly` | kernel/fs/vfs.c:281-326 | a read of a file is refused exactly without read access, for a directory, and at the end; otherwise it delivers the bytes from the position on, as many as were asked for or are left |
| `FileSystem.WriteSplices` | kernel/fs/vfs.c:357-381 | with or without growing the buffer, a write places its bytes over the old contents; one that starts past the end leaves in between whatever the allocation held |
| `FileSystem.Vfs.Resolve` | kernel/fs/vfs.c:425-434 | yields the components of the normalised path |
| `FileSystem.Vfs.WalkTo` | kernel/fs/vfs.c:137-175 | the loop computes the walk of the value model |
| `FileSystem.Vfs.MakeDirectory` | kernel/fs/vfs.c:191-213 | takes the mkdir step, of which `MkdirExactly` speaks, and keeps the invariant |
| `FileSystem.Vfs.OpenFile` | kernel/fs/vfs.c:228-274 | takes the open step, with its refusals in the source's order; after a failed walk a creating open goes on with whatever its variables held; the invariant is kept when the walk settles the open |
| `FileSystem.OpenSafeExactly` | kernel/fs/vfs.c:234-272 | the invariant survives an open, whatever existing vnodes its unset variables point to, exactly when the walk settles it or there are no vnodes but named directories |
| `FileSystem.CreateInMissingDirectory` | kernel/fs/vfs.c:234-257 | creating /a/b without a directory /a can attach a vnode to a regular file |
| `FileSystem.WalkAgrees` | kernel/fs/vfs.c:246-267 | after a walk that found its directory the checks made again under the lock agree with it |
| `FileSystem.Vfs.UnlinkFile` | kernel/fs/vfs.c:425-452 | takes the unlink step, of which `UnlinkExactly` speaks, and keeps the invariant |
| `FileSystem.Vfs.CloseFile` | kernel/fs/vfs.c:91-97 | drops the file and its reference, freeing the vnode with the last |
| `FileSystem.Vfs.ReadFile` | kernel/fs/vfs.c:313-326 | delivers the bytes from the file's position and moves it by what was read |
| `FileSystem.Vfs.WriteFile` | kernel/fs/vfs.c:329-386 | each refusal is exact: no write access, not a regular file, a larger buffer needed and not granted; a failed write changes nothing; a successful one takes the write step and moves the position of that file only |

## Left out

- Concurrency inside a call: the re-checks after a dropped lock are not modelled where they cannot fail in one step (`kernel/mm/vmm.c:900-935`, `1098-1121`, `1140-1160`; `kernel/fs/vfs.c:205-209`, `439-442`).
- Preemption between marking a thread as waiting and the reschedule, and the context switch itself.
- HardwareSpaces.HardwareSpace.FreeUser: the region is cut before the entries are cleared, the source clears first; in one step the result is the same. Bytes in frames are not modelled on this path.
- HardwareSpaces.HardwareSpace.ProtectUser: entries are changed after the whole run instead of clip by clip, with the same result.
- HardwareSpaces.HardwareSpace.AllocUser: a granted request must be for whole pages, so that a page number stands for a page. The frames of the page tables themselves are not taken from the modelled allocator; whether a table can be had is a parameter.
- HardwareSpaces.HardwareSpace.Populate: the branches for an entry that is already present but read-only, and for a parked frame on an accessible page, are dead under the invariant and not written out.
- The 4-level table walk, address-space teardown (`kernel/mm/vmm.c:714-770`), probing and user copies.
- PhysicalMemory.Pmm.AllocBlock: works on frame numbers; physical addresses, zeroing and the parsing of the memory map are not modelled. Frame counts are at most 2^32 - 1 - 2^18, so that frame arithmetic does not wrap.
- PhysicalMemory.Pmm.FreeBlock: requires the order the block was allocated with, which the source does not check. A frame's `next` link is kept in an array beside the table.
- The blocking part of waiting for several objects, whose own comments accept races.
- Dispatcher.Kernel.WaitObject: timeouts are natural numbers, so the 64-bit sum of tick and timeout does not wrap; the signal count does not overflow; the caller is not idle and the object exists.
- Dispatcher.Kernel.LeaveThread: the teardown of the address space and the handle table of a dying process is not part of the step; the host's jump back to boot code is not modelled.
- Dispatcher.Kernel.OnTick: the timers that are due are a parameter; their list is not modelled. Idle is created ready and queued, as at boot.
- Dispatcher.Kernel.PopReady: the ready queues are sequences; their links are not modelled.
- The named-object directory, object types other than their kind and generic mask, and the `used` counter of a handle table.
- Pipes.Pipe.ReadRound: which sleeper a transfer wakes is not modelled; a pipe wakes one per transfer.
- InitialStack.WriteInitialStack: at most 16 stored strings of fewer than 128 bytes each, which is what the process structure can hold.
- Paths.PathNorm: the working directory is not empty.
- FileSystem.Vfs.OpenFile: after a failed walk the unset pointers of a creating open are taken to point to existing vnodes; wild pointers are not modelled.
- FileRuns.EveryRun: opens that may create and whose directory does not resolve are not part of a run; after one the code promises nothing.
- FileSystem.Vfs.WriteFile: the 64-bit sum of position and length does not wrap; reads and writes of devices are not modelled.
- FileSystem.Vfs.WalkTo: takes components; those of 64 characters or more, which the source cuts, are not modelled. Directory listing and file metadata.
- The heap, ELF loading, system-call marshalling, I/O requests, sections, tokens, hardware abstraction and user programs.
