# A verified model of the jo12bar_os kernel core

This project models, in Dafny 4.11, three cores of the jo12bar_os kernel and
proves what each keeps over every run:

- **The heap.** The hole-list allocator, which keeps an address-sorted list of
  free ranges inside the free memory itself, and the fixed-size block allocator
  on top of it, which is the kernel's global allocator. `HoleLists` and
  `FixedSizeBlocks` are the pointer code on word-addressed memory; `HeapModel`
  and `FixedSizeModel` are what that code is proved to compute; `HeapTheorems` and
  `FixedSizeTheorems` hold the theorems about the two.
- **The locks.** The ticket lock with 64-bit wrapping tickets (`TicketLocks`),
  each core's interrupt flag, 64-bit disable count and nested contexts with their
  guards (`CoreLocals`), cores and ticket locks composed over any number of locks
  and up to 256 cores (`Kernels`), getting in and letting go on that machine
  (`LockRounds`), undisturbed rounds (`CoreRounds`), the reader-writer lock
  (`RwLocks`) and its composition with any number of cores (`RwKernels`), the runs
  of a core under a policy of which locks its thread and its handlers take and
  read (`CoreRuns`), what read guards do to the interrupt state (`ReadGuards`),
  handlers that wait for their own core (`Stalls`), and the boot hand-off
  (`BootOrder`).
- **The executor** together with the keyboard stream (`Executors`), with
  interrupts firing at every point where the flag is on.

`dafny verify dfyconfig.toml` checks the whole project.

## How the model is built

Memory is a map from word addresses to words. A hole header is two words (size,
next) inside the hole, a free-list node is one word inside the cached block, and
the stub node of the list sits at an address outside the heap. A pointer of 0 is
`None`. The list a piece of memory stands for is a ghost field, and the methods
are proved to change memory and that list together. Assertions, debug assertions
and `expect`s of the allocator are `assert` statements in the methods, so they
are proved never to fire; panics a caller can provoke (a layout too large to
round up, a heap region too small, extending an uninitialized heap) are results.

The central fact is `Spans.Unique`: a list of ranges in which no two touch is
determined by the bytes it covers. With the tiling invariant (each heap byte is
in exactly one hole or block) it makes the hole list a function of the bounds
and the live blocks. Undo, commuting frees and history independence follow.

Addresses are 64-bit with explicit wrap-around; the heap lies in the lower half
of the address space, as `HEAP_START` does. `Rem` is the remainder by repeated
subtraction (`Alignment.RemIsMod` ties it to `%`).

The concurrent parts are state machines whose transitions are the single atomic
operations and instructions of the code, interleaved in any order; a theorem
over runs quantifies over all sequences of enabled transitions.

Five points where the code and what one would expect of it differ:

- A read guard of a non-preemptable reader-writer lock is entered without
  counting but left with a decrement. Over all runs from boot, interrupts are
  never left off if and only if every lock that is ever read is preemptable
  (`ReadGuards.FlagComesBackExactly`), and a holder is never interrupted if and only
  if that holds or all locks that threads take are preemptable
  (`ReadGuards.HoldersSafeExactly`). `ReadGuards.ReachExposed` and
  `ReadGuards.ReachSwitchedOff` are the runs that break the two promises.
- `read` is allowed in a handler whatever the lock, and neither `read` nor `lock` of a
  reader-writer lock looks for a deadlock. Over all runs from boot, no handler
  waits to read a lock that its own core owns if and only if handlers read nothing
  that threads lock, and nothing non-preemptable that handlers lock
  (`Stalls.ReadersMoveExactly`). Preemptability of the lock does not help: a
  handler that reads a non-preemptable lock first unbalances the disable count and
  then finds its owner interrupted. In the mirror case no handler waits to own
  a lock that its own core reads if and only if no non-preemptable lock that handlers
  lock is ever read (`Stalls.WritersMoveExactly`). Such a handler waits for ever,
  whatever the other cores do (`RwKernels.StuckForEver`).
- `try_lock` of a ticket lock tests `owner` and then calls `lock`, so it can wait. A
  try that passes the test waits if and only if a ticket is outstanding
  (`Kernels.TryLockWaitsExactly`; with other events in between,
  `Kernels.FirstPollWaits`), and such a run exists (`Kernels.TryLockCanWait`).
- `try_lock` of a reader-writer lock is built the same way and waits if and only if
  more guards are taken than dropped after its test (`RwLocks.TryWaitsExactly`). A
  writer that waits has no bound on its wait (`RwLocks.WriterCanStarve`).
- A key that arrives after the keyboard task has registered its waker, but before
  its poll ends, leaves one entry more in the ready queue
  (`Executors.LateKeyGrows`). From every start such keys alone can fill the queue
  and panic in the handler (`Executors.KeyboardCanOverflow`);
  `Executors.NoOverflow` bounds the runs in which that cannot happen.

## Model

| member | source | states |
|---|---|---|
| `Alignment.AlignUpLeast` | jo12bar-os-kernel/src/mem/allocator/linked_list.rs:911-916 | rounding up gives the least multiple of the alignment at or above the address, wherever it cannot wrap |
| `Alignment.AlignLayoutShape` | jo12bar-os-kernel/src/mem/allocator/linked_list.rs:496-511 | a block is a multiple of 8, at least 16 bytes, holds the request and keeps the alignment |
| `Alignment.AlignLayoutLeast` | jo12bar-os-kernel/src/mem/allocator/linked_list.rs:504-511 | no smaller block size would do, and the rounding panics only if no block size gives a valid layout |
| `Alignment.AlignLayoutIdempotent` | jo12bar-os-kernel/src/mem/allocator/linked_list.rs:551-557 | rounding a rounded layout changes nothing, so release and allocation agree on the block size |
| `Spans.Unique` | jo12bar-os-kernel/src/mem/allocator/linked_list.rs:325-379 | two fully coalesced lists covering the same bytes are equal |
| `Spans.InsertSeparated` | jo12bar-os-kernel/src/mem/allocator/linked_list.rs:539-543 | inserting a freed range keeps the list sorted, without touching neighbours |
| `Spans.InsertCovers` | jo12bar-os-kernel/src/mem/allocator/linked_list.rs:539-543 | inserting adds exactly the freed bytes |
| `Spans.CarveCovers` | jo12bar-os-kernel/src/mem/allocator/linked_list.rs:163-240 | a split removes exactly the bytes of the block |
| `Spans.InsertUndoesCarve` | jo12bar-os-kernel/src/mem/allocator/linked_list.rs:539-557 | putting a block back restores the list exactly |
| `HeapModel.PlaceComplete` | jo12bar-os-kernel/src/mem/allocator/linked_list.rs:92-160 | if any aligned address in a hole leaves usable remainders, the one address tried works and is the lowest |
| `HeapModel.PlaceExact` | jo12bar-os-kernel/src/mem/allocator/linked_list.rs:72-161 | a hole is refused exactly when it has no placement at all |
| `HeapModel.SplitArithmetic` | jo12bar-os-kernel/src/mem/allocator/linked_list.rs:100-124 | the wrapping pointer arithmetic of a split never wraps and its alignment test is exact |
| `HeapModel.FirstFitComplete` | jo12bar-os-kernel/src/mem/allocator/linked_list.rs:521-537 | over the whole list, the search succeeds at or below any possible placement |
| `HeapModel.AllocatedInv` | jo12bar-os-kernel/src/mem/allocator/linked_list.rs:163-244 | handing out a block keeps tiling, disjointness, coalescing and accounting |
| `HeapModel.FreedInv` | jo12bar-os-kernel/src/mem/allocator/linked_list.rs:618-669 | releasing a block keeps them |
| `HeapModel.ExtendedInv` | jo12bar-os-kernel/src/mem/allocator/linked_list.rs:564-602 | extending keeps them, carries over fewer than 16 bytes and loses none |
| `HeapModel.InitialInv` | jo12bar-os-kernel/src/mem/allocator/linked_list.rs:463-494 | a fresh heap satisfies them and owns every byte up to the end it was given |
| `HeapTheorems.ChosenFits` | jo12bar-os-kernel/src/mem/allocator/linked_list.rs:513-523 | a successful allocation is aligned, large enough and free |
| `HeapTheorems.RunInv` | jo12bar-os-kernel/src/mem/allocator/linked_list.rs:463-669 | after any legal sequence of allocations, releases and extensions holes and blocks tile the heap and the books balance |
| `HeapTheorems.RunTop` | jo12bar-os-kernel/src/mem/allocator/linked_list.rs:829-836 | in every run the top is the original end plus all extensions, and less than 16 bytes are pending |
| `HeapTheorems.ExtendExact` | jo12bar-os-kernel/src/mem/allocator/linked_list.rs:585-601 | an extension grows the heap exactly when with the bytes carried over it makes up 16; then exactly the bytes above the old top become holes and fewer than 8 are carried over, otherwise only the carry changes |
| `HeapTheorems.Canonical` | jo12bar-os-kernel/src/mem/allocator/linked_list.rs:640-669 | the hole list depends on the bounds and live blocks only |
| `HeapTheorems.HistoryIndependence` | jo12bar-os-kernel/src/mem/allocator/linked_list.rs:523-602 | any two runs that end with the same live blocks and top end in the same heap |
| `HeapTheorems.AllocFreeUndo` | jo12bar-os-kernel/src/mem/allocator/linked_list.rs:523-557 | allocating and releasing restores the heap exactly |
| `HeapTheorems.FreesCommute` | jo12bar-os-kernel/src/mem/allocator/linked_list.rs:553-557 | two releases commute |
| `HeapTheorems.Drained` | jo12bar-os-kernel/src/mem/allocator/linked_list.rs:539-543 | with nothing live the heap is one hole from bottom to top, whatever the history |
| `HeapTheorems.FirstFitExact` | jo12bar-os-kernel/src/mem/allocator/linked_list.rs:513-537 | an allocation fails exactly when no hole has a placement, else it gets the lowest possible address in the heap |
| `HeapTheorems.FreeBytes` | jo12bar-os-kernel/src/mem/allocator/linked_list.rs:838-846 | in every run the free count never underflows and is the sum of the hole sizes |
| `HeapTheorems.InitialMinimum` | jo12bar-os-kernel/src/mem/allocator/linked_list.rs:448-470 | the documented minimum size: 23 bytes always suffice, fewer than 16 never |
| `HoleMemory.SpliceLinked` | jo12bar-os-kernel/src/mem/allocator/linked_list.rs:166-240 | pointer surgery that writes the new nodes, redirects the node in front and leaves other headers intact yields the spliced list |
| `HoleMemory.EdgesInert` | jo12bar-os-kernel/src/mem/allocator/linked_list.rs:382-415 | releasing a live block never leaves a gap at either end of the heap that an edge merge would fill |
| `HoleMemory.InsertedTouching` | jo12bar-os-kernel/src/mem/allocator/linked_list.rs:645-664 | a linked-in node can only touch its two neighbours |
| `HoleMemory.MergePairKeeps` | jo12bar-os-kernel/src/mem/allocator/linked_list.rs:359-373 | one merge keeps order, coverage and end, and leaves one possible touching pair fewer |
| `HoleMemory.MergedIsInsert` | jo12bar-os-kernel/src/mem/allocator/linked_list.rs:666-669 | a merged list is exactly the abstract insertion |
| `HoleLists.AlignStart` | jo12bar-os-kernel/src/mem/allocator/linked_list.rs:92-119 | computes the start of the block and the hole in front of it |
| `HoleLists.PadBack` | jo12bar-os-kernel/src/mem/allocator/linked_list.rs:121-160 | accepts exactly the blocks that fit with usable remainders and computes the hole behind |
| `HoleLists.PlanSplit` | jo12bar-os-kernel/src/mem/allocator/linked_list.rs:72-161 | the wrapping arithmetic of a split computes the reference placement and its paddings |
| `HoleLists.HoleList.Stitch` | jo12bar-os-kernel/src/mem/allocator/linked_list.rs:163-240 | the four cases of surgery replace the node by the paddings and write nowhere else |
| `HoleLists.HoleList.SplitCurrent` | jo12bar-os-kernel/src/mem/allocator/linked_list.rs:69-244 | splits the hole or leaves everything unchanged |
| `HoleMemory.WriteElsewhere` | jo12bar-os-kernel/src/mem/allocator/linked_list.rs:605-616 | making a hole out of memory that is in no hole leaves the list in memory intact |
| `HoleLists.HoleList.CheckMergeTop` | jo12bar-os-kernel/src/mem/allocator/linked_list.rs:382-401 | grows the node exactly when too little room is left below the top |
| `HoleLists.HoleList.CheckMergeBottom` | jo12bar-os-kernel/src/mem/allocator/linked_list.rs:403-415 | for a node at or above the bottom, moves it to the bottom with the bytes in between exactly when they are too few for a hole |
| `HoleLists.HoleList.TryInsertBack` | jo12bar-os-kernel/src/mem/allocator/linked_list.rs:246-278 | links the node in front of the list exactly when it lies below it, and the returned cursor is the linked node |
| `HoleLists.HoleList.TryInsertAfter` | jo12bar-os-kernel/src/mem/allocator/linked_list.rs:280-322 | links the node behind the cursor exactly when it belongs there; no aliasing assertion fires |
| `HoleLists.HoleList.TryMergeNextN` | jo12bar-os-kernel/src/mem/allocator/linked_list.rs:324-379 | `n` attempts coalesce fully a list that can touch at `n` places from the cursor on, and keep its bytes |
| `HoleLists.HoleList.MergeWithNext` | jo12bar-os-kernel/src/mem/allocator/linked_list.rs:359-373 | the surgery of one merge |
| `HoleLists.HoleList.LinkAfter` | jo12bar-os-kernel/src/mem/allocator/linked_list.rs:651-663 | the walk finds the place of the node; the end of the list is never reached without it |
| `HoleLists.HoleList.Link` | jo12bar-os-kernel/src/mem/allocator/linked_list.rs:640-664 | links the node in and says how many merges are due |
| `HoleLists.HoleList.FreeRegion` | jo12bar-os-kernel/src/mem/allocator/linked_list.rs:618-669 | memory then holds the abstract insertion, and words outside the holes are untouched |
| `HoleLists.HoleList.InitWithHole` | jo12bar-os-kernel/src/mem/allocator/linked_list.rs:463-494 | builds the initial heap or panics exactly when the usable size is below 16 |
| `HoleLists.HoleList.Search` | jo12bar-os-kernel/src/mem/allocator/linked_list.rs:525-537 | the cursor loop computes first fit and carves the block out |
| `HoleLists.HoleList.AllocateFirstFit` | jo12bar-os-kernel/src/mem/allocator/linked_list.rs:513-537 | the heap afterwards and the result are those of the model, and live blocks are untouched |
| `HoleLists.HoleList.Deallocate` | jo12bar-os-kernel/src/mem/allocator/linked_list.rs:539-557 | the heap afterwards is that of the model, and live blocks are untouched |
| `HoleLists.HoleList.Extend` | jo12bar-os-kernel/src/mem/allocator/linked_list.rs:564-602 | the heap afterwards is that of the model, no layout unwrap on the way fails; an uninitialized heap panics |
| `HoleLists.HoleList.StoreWord` | jo12bar-os-kernel/src/mem/allocator/linked_list.rs:20-27 | an aligned write by the owner of a block leaves the list intact |
| `HoleLists.LinkedListAllocator.Init` | jo12bar-os-kernel/src/mem/allocator/linked_list.rs:690-701 | initializes the heap and the count of used bytes |
| `HoleLists.LinkedListAllocator.AllocateFirstFit` | jo12bar-os-kernel/src/mem/allocator/linked_list.rs:784-793 | keeps the used count equal to the bytes of the live blocks |
| `HoleLists.LinkedListAllocator.Deallocate` | jo12bar-os-kernel/src/mem/allocator/linked_list.rs:795-810 | keeps it too |
| `HoleLists.LinkedListAllocator.Extend` | jo12bar-os-kernel/src/mem/allocator/linked_list.rs:848-870 | extends the heap, or panics before initialization |
| `HoleLists.LinkedListAllocator.FreeBytes` | jo12bar-os-kernel/src/mem/allocator/linked_list.rs:820-846 | the difference of bounds and used count is the sum of the holes |
| `FixedSizeModel.ListIndexLeast` | jo12bar-os-kernel/src/mem/allocator/fixed_size_block.rs:30-36 | the class is the smallest whose size covers size and alignment; none means above 2048 |
| `FixedSizeModel.ClassServes` | jo12bar-os-kernel/src/mem/allocator/fixed_size_block.rs:21-36 | any block of a class meets the size and alignment of every layout of that class |
| `FixedSizeModel.AllocStepInv` | jo12bar-os-kernel/src/mem/allocator/fixed_size_block.rs:83-106 | an allocation keeps the two-layer invariant |
| `FixedSizeModel.DeallocStepInv` | jo12bar-os-kernel/src/mem/allocator/fixed_size_block.rs:108-133 | a release keeps it |
| `FixedSizeModel.AllocSuits` | jo12bar-os-kernel/src/mem/allocator/fixed_size_block.rs:83-106 | a block handed out is not in use, aligned as asked and large enough, popped or carved |
| `FixedSizeModel.RunInv` | jo12bar-os-kernel/src/mem/allocator/fixed_size_block.rs:82-134 | the invariant holds after every legal run |
| `FixedSizeModel.TwoLayerTiling` | jo12bar-os-kernel/src/mem/allocator/fixed_size_block.rs:82-134 | each heap byte is in exactly one of: a hole, a client's block, one cached block of one class |
| `FixedSizeModel.CountSplit` | jo12bar-os-kernel/src/mem/allocator/fixed_size_block.rs:87-124 | the blocks carved for a class are those live plus those cached |
| `FixedSizeModel.HighWaterMark` | jo12bar-os-kernel/src/mem/allocator/fixed_size_block.rs:85-131 | the number of blocks carved for a class is the peak number live at once |
| `FixedSizeModel.UsedBytes` | jo12bar-os-kernel/src/mem/allocator/fixed_size_block.rs:93-131 | the fallback's used bytes are carved counts times block bytes plus the live large blocks |
| `FixedSizeTheorems.RefusedExactly` | jo12bar-os-kernel/src/mem/allocator/fixed_size_block.rs:83-106 | a request is refused exactly when no block of its class is idle and no hole has room for a new one; an idle block is handed out with the heap untouched, else the block is at the lowest possible address |
| `FixedSizeTheorems.AllocExact` | jo12bar-os-kernel/src/mem/allocator/fixed_size_block.rs:83-106 | an allocation gives the client one block not in use: its bytes come from the cache of the class if a block is idle there, from a hole otherwise, and every other byte stays where it was |
| `FixedSizeTheorems.ReleaseExact` | jo12bar-os-kernel/src/mem/allocator/fixed_size_block.rs:108-133 | a release takes exactly that block from the client: its bytes go to the cache of its class, or to the holes if it is large, every other byte stays, and the used count drops exactly for large blocks |
| `FixedSizeTheorems.ReleasedIsNext` | jo12bar-os-kernel/src/mem/allocator/fixed_size_block.rs:87-124 | the next request of the same class, whatever its layout, gets the released block back, and nothing else has changed then |
| `FixedSizeTheorems.AllocReleaseUndo` | jo12bar-os-kernel/src/mem/allocator/fixed_size_block.rs:83-133 | releasing what was just allocated restores the pool exactly, unless a block was carved for a class: it is then the one cached block |
| `FixedSizeBlocks.FixedSizeBlockAllocator.Init` | jo12bar-os-kernel/src/mem/allocator/fixed_size_block.rs:57-71 | an initialized allocator is the fresh pool |
| `FixedSizeBlocks.FixedSizeBlockAllocator.FallbackAlloc` | jo12bar-os-kernel/src/mem/allocator/fixed_size_block.rs:73-79 | the fallback allocates and every free list in memory survives |
| `FixedSizeBlocks.FixedSizeBlockAllocator.Pop` | jo12bar-os-kernel/src/mem/allocator/fixed_size_block.rs:87-91 | takes the first block off a list threaded through memory |
| `FixedSizeBlocks.FixedSizeBlockAllocator.Push` | jo12bar-os-kernel/src/mem/allocator/fixed_size_block.rs:111-124 | threads a block onto its list without disturbing the heap |
| `FixedSizeBlocks.FixedSizeBlockAllocator.Alloc` | jo12bar-os-kernel/src/mem/allocator/fixed_size_block.rs:83-106 | state and result are those of the model |
| `FixedSizeBlocks.FixedSizeBlockAllocator.Dealloc` | jo12bar-os-kernel/src/mem/allocator/fixed_size_block.rs:108-133 | the state is that of the model |
| `TicketLocks.StepQueue` | mem-util/src/sync/ticket_lock.rs:102-153 | every atomic step keeps the queue behind the counters: consecutive tickets, one critical caller at its head, a truthful owner |
| `TicketLocks.MutualExclusion` | mem-util/src/sync/ticket_lock.rs:102-112 | at most one caller is past the spin loop, across wrap-around |
| `TicketLocks.TicketWindow` | mem-util/src/sync/ticket_lock.rs:32-35 | outstanding tickets are distinct and lie in the cyclic window from current to next |
| `TicketLocks.OwnerIsHolder` | mem-util/src/sync/ticket_lock.rs:112-153 | the owner field names the core of the holder and is clear exactly when nobody holds |
| `TicketLocks.PanicIsExact` | mem-util/src/sync/ticket_lock.rs:104-110 | the owner check reports a deadlock if and only if a call of the same core holds the lock at that moment |
| `TicketLocks.HolderBlocks` | mem-util/src/sync/ticket_lock.rs:104-110 | while one caller is past the loop no other can leave it |
| `TicketLocks.Fifo` | mem-util/src/sync/ticket_lock.rs:102-110 | in every run callers are admitted in the order they took tickets |
| `TicketLocks.BoundedWaiting` | mem-util/src/sync/ticket_lock.rs:102-153 | a waiter is served after exactly as many releases as its ticket is ahead of current |
| `TicketLocks.FirstPollWaits` | mem-util/src/sync/ticket_lock.rs:102-110 | the first look at the counters after taking a ticket spins if and only if not all calls outstanding before it have been released meanwhile |
| `TicketLocks.NewTicketDistance` | mem-util/src/sync/ticket_lock.rs:102-104 | a new ticket is ahead of current by the number of calls outstanding, and there are some exactly when current and next differ |
| `TicketLocks.OneHead` | mem-util/src/sync/ticket_lock.rs:102-104 | someone is first in line if and only if anyone is in line, and only one call is |
| `TicketLocks.PollIsExact` | mem-util/src/sync/ticket_lock.rs:104 | a look at the counters lets a caller out of the loop if and only if it is first in line |
| `TicketLocks.HeadIsUnopposed` | mem-util/src/sync/ticket_lock.rs:104-110 | the owner check of the caller first in line never reports a deadlock and sends it back to the counters |
| `TicketLocks.ReleaseHandsOver` | mem-util/src/sync/ticket_lock.rs:151-153 | a drop clears the owner, then removes the call, moves the turn on by one and brings everyone else one closer |
| `CoreLocals.StepOk` | jo12bar-os-kernel/src/core_locals.rs:200-278 | every step of thread or handler, read guards of non-preemptable locks aside, keeps flag, 64-bit disable count, depth and open sections in agreement |
| `CoreLocals.HandlersNeverPreemptHolder` | jo12bar-os-kernel/src/core_locals.rs:451-471 | in every run whose read guards are on preemptable locks, flag on means the thread runs and holds or wants no non-preemptable lock |
| `CoreLocals.FlagComesBack` | jo12bar-os-kernel/src/core_locals.rs:211-231 | in every such run, with all sections closed and no restore under way the flag is on, and the count is the number of open sections |
| `CoreLocals.OnlyHandlersAreRefused` | mem-util/src/sync/ticket_lock.rs:92-95 | in every run, whatever is read, the assertion of `lock` never stops a thread, and handlers hold non-preemptable locks only |
| `CoreLocals.HandlersDoNotNest` | jo12bar-os-kernel/src/core_locals.rs:216-230 | in every run, whatever is read, a handler runs with the flag off, so handlers never interrupt handlers |
| `ReadGuards.DropKeepsCount` | mem-util/src/sync/ticket_lock.rs:340-351 | in thread or handler, dropping a read guard leaves the disable count equal to the number of open sections if and only if the lock is preemptable |
| `ReadGuards.DropEndsOnlySection` | mem-util/src/sync/ticket_lock.rs:340-351 | a thread that drops a non-preemptable read guard turns interrupts on exactly when one section is open; if that is a lock it holds, the holder can be interrupted |
| `ReadGuards.ReachUnbalanced` | mem-util/src/sync/ticket_lock.rs:244-351 | from boot, if some lock that is read is not preemptable: a run, of the thread or a handler, to interrupts on with nothing open and the count wrapped below zero |
| `ReadGuards.ReachExposed` | mem-util/src/sync/ticket_lock.rs:244-351 | from there a run to a thread that holds any given non-preemptable lock it takes and can be interrupted |
| `ReadGuards.ReachSwitchedOff` | mem-util/src/sync/ticket_lock.rs:244-351 | from there a run to a thread with nothing open and interrupts off |
| `ReadGuards.HoldersSafeExactly` | mem-util/src/sync/ticket_lock.rs:244-351 | over all runs under a usage policy, holders of non-preemptable locks are never interrupted if and only if every lock that is read is preemptable or every lock that threads take is |
| `ReadGuards.FlagComesBackExactly` | mem-util/src/sync/ticket_lock.rs:244-351 | over all runs under a usage policy, interrupts are never left off if and only if every lock that is read is preemptable |
| `CoreRuns.ReachedUses` | jo12bar-os-kernel/src/core_locals.rs:200-278 | over all runs under a usage policy, every guard and every wait of thread and handler is one the policy allows |
| `Stalls.ReachStuckReader` | mem-util/src/sync/ticket_lock.rs:244-275 | for each lock that threads take and handlers read, preemptable or not, a run from boot to a handler that waits to read what the interrupted thread owns |
| `Stalls.ReachStuckWriter` | mem-util/src/sync/ticket_lock.rs:285-311 | for each non-preemptable lock that handlers take and anyone reads, a run from boot to a handler that passes the assertion and waits to own what its core reads |
| `Stalls.ReadersMoveExactly` | mem-util/src/sync/ticket_lock.rs:244-275 | over all runs under a usage policy, no handler waits to read what its core owns if and only if handlers read nothing that threads take, nor anything non-preemptable that handlers take |
| `Stalls.WritersMoveExactly` | mem-util/src/sync/ticket_lock.rs:285-311 | over all runs under a usage policy, no handler waits to own what its core reads if and only if no non-preemptable lock that handlers take is read |
| `Stalls.NoPolicy` | mem-util/src/sync/ticket_lock.rs:244-275 | without a policy on who takes which lock, handlers never wait to read what their core owns if and only if nothing is ever read |
| `Stalls.StuckWriterStays` | mem-util/src/sync/ticket_lock.rs:285-311 | in every continuation a handler that waits to own what its core reads has not got it, and the thread below has not moved |
| `Kernels.StepInv` | mem-util/src/sync/ticket_lock.rs:89-160 | every event of every core, on ticket locks and reader-writer locks, keeps contexts and lock calls in agreement |
| `Kernels.OneHolder` | mem-util/src/sync/ticket_lock.rs:91-118 | over all cores and contexts a lock has one guard |
| `Kernels.DeadlockMeansReentrant` | mem-util/src/sync/ticket_lock.rs:104-110 | the owner check of a context reports a deadlock if and only if that very context is the holder |
| `Kernels.TryLockExact` | mem-util/src/sync/ticket_lock.rs:120-127 | `try_lock` gives up, changing nothing, exactly when some context holds the lock at that moment |
| `LockRounds.TurnAcquires` | mem-util/src/sync/ticket_lock.rs:104-118 | a context first in line gets the guard by its own steps alone, from wherever it is in the loop |
| `LockRounds.DropReleases` | mem-util/src/sync/ticket_lock.rs:138-160 | dropping a guard is always possible: after its first event no context of any core holds the lock, after its second the call is gone, the turn is one further and all others are one closer |
| `LockRounds.DropHandsOver` | mem-util/src/sync/ticket_lock.rs:138-160 | after a drop a spinning context of another core is let in at its next look if and only if it was next in line, and someone is next |
| `CoreRounds.CoreRound` | mem-util/src/sync/ticket_lock.rs:91-160 | an undisturbed `lock` and `unlock`, by thread or handler, runs through on the core: in between the guard is held with interrupts off unless the lock is preemptable, and in the end flag, disable count and contexts are exactly as before |
| `CoreRounds.LockRound` | mem-util/src/sync/ticket_lock.rs:102-153 | on a free lock such a round is granted at once and in the end only the two ticket counters have moved |
| `Kernels.LockRuns` | mem-util/src/sync/ticket_lock.rs:89-160 | seen from one ticket lock, every run of the whole machine is a run of that lock alone |
| `Kernels.FirstPollWaits` | mem-util/src/sync/ticket_lock.rs:102-110 | in every interleaving a caller's first look at the counters spins if and only if not all calls outstanding at its ticket have been released |
| `Kernels.TryLockWaitsExactly` | mem-util/src/sync/ticket_lock.rs:120-127 | an undisturbed try that is not refused spins if and only if some ticket is outstanding, that is, current and next differ |
| `Kernels.TryLockCanWait` | mem-util/src/sync/ticket_lock.rs:120-127 | from boot, a run in which a second core's try passes the test and has to spin |
| `Kernels.ReentrantNeverAcquires` | mem-util/src/sync/ticket_lock.rs:91-118 | a re-entrant caller spins or panics in every continuation |
| `Kernels.PreemptionIsSafe` | jo12bar-os-kernel/src/core_locals.rs:451-471 | in every run of every number of cores, flag on means no context of the core holds a non-preemptable ticket lock or the write guard of a non-preemptable reader-writer lock |
| `RwLocks.StepInv` | mem-util/src/sync/ticket_lock.rs:244-385 | every load, compare-exchange and drop keeps the signed 64-bit count and the guards in agreement |
| `RwLocks.TryWaitsExactly` | mem-util/src/sync/ticket_lock.rs:318-324 | a try that saw the lock free fails its first compare-exchange if and only if more guards are taken than dropped in between, else it owns the lock |
| `RwLocks.ReaderGetsIn` | mem-util/src/sync/ticket_lock.rs:253-275 | while no writer has the lock a reader gets in by its own steps alone, whatever count it saw last |
| `RwLocks.WriterCanStarve` | mem-util/src/sync/ticket_lock.rs:297-310 | from every state in which a writer waits for a free lock, and for every n, one reader that comes and goes makes it fail n times and leaves the state as it was |
| `RwKernels.StepInv` | mem-util/src/sync/ticket_lock.rs:244-385 | every event of every core keeps contexts and reader-writer locks in agreement, read guards of non-preemptable locks included |
| `RwKernels.OneWriter` | mem-util/src/sync/ticket_lock.rs:187-193 | over all cores and contexts two write guards on a lock are the same guard |
| `RwKernels.WriterAlone` | mem-util/src/sync/ticket_lock.rs:187-193 | over all cores and contexts a write guard and a read guard never exist together |
| `RwKernels.OneWriterOrReaders` | mem-util/src/sync/ticket_lock.rs:187-193 | in every run of every number of cores the guards of all contexts are one writer with the count at -1, or readers as many as the count says |
| `RwKernels.TryWriteExact` | mem-util/src/sync/ticket_lock.rs:318-324 | `try_lock` gives up, changing nothing, exactly when some context of some core has a guard on the lock |
| `RwKernels.FreeExactly` | mem-util/src/sync/ticket_lock.rs:297-310 | a writer finds the count at 0 if and only if no context of any core has a guard |
| `RwKernels.OpenExactly` | mem-util/src/sync/ticket_lock.rs:253-258 | a reader finds the count open if and only if no context of any core owns the lock |
| `RwKernels.StuckForEver` | mem-util/src/sync/ticket_lock.rs:244-311 | a handler that waits for a lock its own core has waits in every continuation, whatever the other cores do |
| `RwKernels.LockRuns` | mem-util/src/sync/ticket_lock.rs:244-385 | seen from one reader-writer lock, every run of the whole machine is a run of that lock alone |
| `RwLocks.ReaderWriterExclusion` | mem-util/src/sync/ticket_lock.rs:187-193 | in every run the count is -1 with one writer alone or the number of readers, it never overflows, and no assertion fires |
| `BootOrder.StepOrdered` | jo12bar-os-kernel/src/core_locals.rs:315-425 | every boot step keeps cores, ids, slots and boot lock in order |
| `BootOrder.BootHandOff` | jo12bar-os-kernel/src/core_locals.rs:315-425 | for up to 255 cores: one core in the boot section, ids in drawing order, each slot filled by its own core, ready <= boot lock <= started, no assertion fires |
| `BootOrder.TurnEnters` | jo12bar-os-kernel/src/core_locals.rs:333-363 | the waiting core whose turn it is leaves the spin loop and owns the boot section |
| `BootOrder.TurnStores` | jo12bar-os-kernel/src/core_locals.rs:402-411 | in the section it publishes its locals, in its own slot and no other |
| `BootOrder.TurnPasses` | jo12bar-os-kernel/src/core_locals.rs:417-424 | it then leaves the section and the turn is one further |
| `BootOrder.BootCanFinish` | jo12bar-os-kernel/src/core_locals.rs:315-425 | after any run, all cores started so far can come up: some continuation ends with each in its own slot and ready, boot lock and started equal |
| `Executors.StepInv` | jo12bar-os-kernel/src/task/executor.rs:57-102 | every operation and interrupt keeps the keyboard task queued, being polled, or parked with its waker set and nothing to read |
| `Executors.NoLostWakeup` | jo12bar-os-kernel/src/task/executor.rs:87-102 | in every run a halted core has empty queues, everything delivered, the waker set and interrupts on |
| `Executors.TasksInOrder` | jo12bar-os-kernel/src/task/executor.rs:41-65 | in every run the ids taken off the ready queue followed by those in it are those spawned followed by those woken, in order |
| `Executors.PolledExactly` | jo12bar-os-kernel/src/task/executor.rs:65-84 | in every run a task is polled each time its id is taken off the queue, and only then, if it still exists |
| `Executors.TasksStayUntilDone` | jo12bar-os-kernel/src/task/executor.rs:76-83 | in every run exactly the tasks that have completed are gone |
| `Executors.SettlesWithEveryTaskPolled` | jo12bar-os-kernel/src/task/executor.rs:57-102 | left alone from any reachable state the executor polls every queued task that still exists, in order, before it halts |
| `Executors.HaltedKeyIsDelivered` | jo12bar-os-kernel/src/task/executor.rs:87-102 | an interrupt wakes a halted core, and a key that does so is delivered |
| `Executors.SleepsOnlyWhenIdle` | jo12bar-os-kernel/src/task/executor.rs:87-102 | interrupts go off only after an empty ready queue was seen, and the core halts only with an empty one |
| `Executors.NoOverflow` | jo12bar-os-kernel/src/task/executor.rs:124-126 | the ready queue never overflows in a run whose spawned tasks, wakeups by tasks and late keys number at most its capacity |
| `Executors.LateKeyGrows` | jo12bar-os-kernel/src/task/keyboard.rs:86-106 | a key between registering and the second pop leaves the task where it was with one queue entry more, and panics exactly when the queue is full |
| `Executors.KeyboardCanOverflow` | jo12bar-os-kernel/src/task/keyboard.rs:54-64 | from every start some run of keys and executor steps alone ends in the panic of a full ready queue |
| `Executors.DeliveredInOrder` | jo12bar-os-kernel/src/task/keyboard.rs:54-106 | in every run scancodes are delivered exactly once and in order |
| `Executors.SettlesWithEverythingDelivered` | jo12bar-os-kernel/src/task/executor.rs:49-102 | left alone from any reachable state the executor delivers everything accepted and then halts |

## Left out

- The bump allocator, which moves one pointer down through its memory and takes back the last block, or everything once nothing is live.
- Page tables and frame allocation, which walk the boot loader's memory map and call the `x86_64` crate.
- Graphics, fonts, terminal colours and logging, which turn text and pixels into framebuffer and serial-port writes.
- The runner and the build script, which make disk images and start an emulator.
- `UnwrapLockCell`, `force_unlock` from the panic handler, and the data inside a lock.
- Weak memory orderings: atomic operations interleave sequentially consistently.
- The internals of `ArrayQueue` and `AtomicWaker`, GS and model-specific registers, the interrupt controller and port I/O: single steps or not modelled.
- Exceptions and their handlers, which do not count as interrupts.
- Heaps in the upper half of the address space.
- CoreLocals.StepOk: assumes fewer than 2^64 nested sections, without which the 64-bit count cannot tell them apart, and that a handler drops its guards before it returns.
- Kernels.StepInv: of a reader-writer lock it has what the cores do (sections, guards, interrupt state) and lets them in at any time; who gets in is `RwKernels`, which in turn lets cores into ticket locks at any time. Each thus speaks of more runs than the kernel has, except that `Kernels` has no read guards of non-preemptable locks.
- TicketLocks.StepQueue: assumes fewer than 2^64 outstanding tickets, without which tickets cannot be distinct.
- RwLocks.StepInv: assumes fewer than 2^63 callers at a time, without which the count cannot stay positive.
- Executors.StepInv: the keyboard handler is one step because a handler runs with the flag off (`CoreLocals.HandlersDoNotNest`), and tasks other than the keyboard task leave the interrupt state as they found it.
- Executors.NoLostWakeup: a full ready queue panics, as in the code, and ends the run (see `NoOverflow`); `spawn_task` is only the starting state, and cached wakers are identified with their task.
- BootOrder.BootHandOff: a core leaves the boot section with its critical sections balanced, as the assertions of the next core demand.
- The concurrent parts are state machines on values rather than objects with methods, because their steps interleave.
