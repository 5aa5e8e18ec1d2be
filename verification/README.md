# Goldfish pipe (v2) guest driver — a Dafny model

This project models the guest side of the Android emulator's "goldfish pipe"
device driver, `drivers/platform/goldfish/goldfish_pipe_v2.c`. A process in
the guest opens a pipe and reads from it, writes to it or polls it. The driver
gives each pipe a slot in a growable pipe table. It turns every read and write
into commands that list the user buffer's pinned physical pages as merged
(address, length) descriptors, and it translates the host's status codes into
errnos. A pipe can also carry a DMA region that user space creates, maps and
locks through ioctl and mmap.

The host signals pipes through an interrupt. Its top half stores each reported
pipe and its events in an intrusive, doubly linked LIFO list. A bottom half
later drains that list and clears the pipes' wake bits.

Modules, in dependency order:

- `PipeAbi`: the constants the driver shares with the host, the errno values, the page arithmetic, and how a blocking wait ends (`Wait`).
- `Wrappers`: `Option`.
- `HostErrors`: host status to errno.
- `Poll`: the POLL command and the translation of its status into a poll event mask (`bv32`).
- `ScatterGather`: `pin_user_pages` and `populate_rw_params`. The descriptor builder is a method that fills the command's `ptrs`/`sizes` arrays in place. It is proved against the function `Merge`, and `Merge` is proved to produce one descriptor per maximal run of adjacent pages, covering the buffer exactly.
- `ReadWrite`: `transfer_max_buffers` and the read/write loop. The host and the kernel calls are a finite trace of rounds. The loop is a method proved against a recursive specification function.
- `DmaRegion`: the per-pipe DMA context, its page-multiple check (a bitwise AND proved equal to `% PAGE_SIZE == 0`), lazy allocation and release, and the device's DMA byte counter.
- `PipeState`: one pipe as a value, the bottom half's wake-flag update, and the DMA lock operations.
- `DmaOps`: the DMA ioctl and mmap as functions of a pipe.
- `SignalQueue`: the signalled list, kept as `prev`/`next` ids in a table of optional pipes.
  - Each list operation is a function on the table.
  - Its effect is stated against a ghost sequence `L` through the predicate `Linked(q, L)`, which says the links thread exactly `L`.
  - It also covers the drain of the bottom half.
- `PipeDevice`: the device object (`class Device`). Its pipe table is an `array<Option<Pipe>>` that doubles when full, and its fields are the head of the signalled list, the DMA byte counter and a ghost copy of the list. Its methods update these in place. Its invariant `Valid()` says that the links thread the ghost list.

Pipe ids are indices into the table, so a pointer to a pipe is its id and a
null pointer is `NIL` (-1). A pipe's `flags` and `signalled_flags` words are
sets of bit numbers: the driver only sets, clears, tests and ORs whole bits in
them.

The kernel and the host are parameters:

- the result of `get_user_pages_fast`;
- whether a mutex wait was interrupted;
- the status and `consumed_size` the host writes;
- how a wait for the host ends;
- whether an allocation or a copy to or from user space succeeds;
- the physical address `dma_alloc_coherent` returns.

Where the code and its written description differ, the model follows the code:

- A blocking write that has moved bytes and then receives `PIPE_ERROR_AGAIN` returns the bytes moved so far. It does not wait for the rest (`ReadWrite.AgainAfterPartialWrite`).
- A failed POLL command is returned as the unsigned value of `-ERESTARTSYS`. That value is a mask with no poll event set (`Poll.FailedPollHasNoEvents`).
- `goldfish_pipe_open` returns a negative host status of the OPEN command as it is, without converting it to an errno (`PipeDevice.Device.Open`).

## Model

| member | source | states |
|---|---|---|
| HostErrors.ErrorConvert | drivers/platform/goldfish/goldfish_pipe_v2.c:248-260 | the result is negative; it is -EAGAIN, -ENOMEM or -EIO exactly for PIPE_ERROR_AGAIN, _NOMEM or _IO, and -EINVAL exactly for every other status |
| ScatterGather.RequestedPages | drivers/platform/goldfish/goldfish_pipe_v2.c:267-270 | between 1 and MAX_BUFFERS_PER_COMMAND (336) pages are requested; never more than the pages spanned, and fewer only when capped at 336 |
| ScatterGather.PinUserPages | drivers/platform/goldfish/goldfish_pipe_v2.c:262-283 | a pin result <= 0 is -EFAULT; otherwise the pinned count is returned; the last page is used in full when the request was capped or fewer pages were pinned, and has the buffer's own last-page size when every spanned page was pinned |
| ScatterGather.PinnedWithinCap | drivers/platform/goldfish/goldfish_pipe_v2.c:262-283 | a successful pin pins between 1 and 336 pages |
| ScatterGather.PageBytes | drivers/platform/goldfish/goldfish_pipe_v2.c:313-320 | one byte count per pinned page: the first page from the buffer's offset, the last page the last-page size, every other page a full page |
| ScatterGather.Merge | drivers/platform/goldfish/goldfish_pipe_v2.c:318-330 | merging n pages yields between 1 and n descriptors |
| ScatterGather.RunStarts | drivers/platform/goldfish/goldfish_pipe_v2.c:318-330 | the run starts are strictly increasing page indices below n, beginning with page 0 |
| ScatterGather.RunStartsAreBreaks | drivers/platform/goldfish/goldfish_pipe_v2.c:321-327 | a page after the first starts a run exactly when its address is not the previous page's address plus PAGE_SIZE |
| ScatterGather.MergeIsRuns | drivers/platform/goldfish/goldfish_pipe_v2.c:309-330 | buffers_count is the number of maximal runs of adjacent pages; descriptor k starts where run k starts (the first at the buffer's in-page offset) and its size is the sum of its run's byte counts |
| ScatterGather.MergeKeepsBytes | drivers/platform/goldfish/goldfish_pipe_v2.c:309-330 | the descriptor sizes add up to the pinned pages' byte counts |
| ScatterGather.WholeBufferBytes | drivers/platform/goldfish/goldfish_pipe_v2.c:412-415 | when all pages from first_page through last_page are pinned, the per-page byte counts add up to address_end - address |
| ScatterGather.DescriptorsCoverBuffer | drivers/platform/goldfish/goldfish_pipe_v2.c:309-331 | for a fully pinned buffer the first descriptor starts at the first pinned page's physical address plus the buffer's in-page offset, and the descriptor sizes add up to exactly the buffer's length |
| ScatterGather.PopulateRwParams | drivers/platform/goldfish/goldfish_pipe_v2.c:298-331 | returns buffers_count, the number of merged descriptors; the first buffers_count entries of ptrs/sizes hold exactly the merged descriptors; the entries after them are unchanged |
| ScatterGather.AddPage | drivers/platform/goldfish/goldfish_pipe_v2.c:318-329 | one loop pass moves the arrays from the merge of i pages to the merge of i + 1 pages and touches no entry after the current descriptor |
| ScatterGather.ExtendLast | drivers/platform/goldfish/goldfish_pipe_v2.c:321-322 | an adjacent page's bytes are added to the current descriptor's size; no other size changes |
| ScatterGather.OpenNext | drivers/platform/goldfish/goldfish_pipe_v2.c:323-327 | a non-adjacent page opens the next descriptor with its address and size; no other entry changes |
| ReadWrite.PinnedPages | drivers/platform/goldfish/goldfish_pipe_v2.c:339-345 | the pages a transfer pins: what get_user_pages_fast pinned, none on a fault |
| ReadWrite.TransferMaxBuffersAsWritten | drivers/platform/goldfish/goldfish_pipe_v2.c:333-366 | a failed pin is -EFAULT with nothing pinned; an interrupted mutex wait is -ERESTARTSYS with every pinned page still pinned; otherwise the host's status and consumed_size are returned and all pinned pages released |
| ReadWrite.AsWrittenLeaksPages | drivers/platform/goldfish/goldfish_pipe_v2.c:348-349 | a transfer whose mutex wait is interrupted after pinning 2 pages returns -ERESTARTSYS and releases none of them |
| ReadWrite.TransferMaxBuffers | drivers/platform/goldfish/goldfish_pipe_v2.c:333-366 | the same outcome and pins as the code, and every pinned page is released on every path |
| ReadWrite.EarlyExits | drivers/platform/goldfish/goldfish_pipe_v2.c:401-410 | a pipe closed by the host gives -EIO, then a zero length gives 0, then a failed access check gives -EFAULT, each before any round |
| ReadWrite.LoopKeepsProgress | drivers/platform/goldfish/goldfish_pipe_v2.c:417-466 | the count never decreases; the loop returns a positive value exactly when bytes were moved, and then that value is the count |
| ReadWrite.ReadWriteKeepsProgress | drivers/platform/goldfish/goldfish_pipe_v2.c:393-467 | the whole call returns a positive value exactly when bytes were moved, and then that value is the byte count |
| ReadWrite.HostStatusDecides | drivers/platform/goldfish/goldfish_pipe_v2.c:430-436 | in any round that reaches the host, a positive status runs the next round from the state advanced by the consumed bytes, and status 0 ends the call with the count so far (0 when nothing moved) |
| ReadWrite.ErrorAfterProgress | drivers/platform/goldfish/goldfish_pipe_v2.c:425-447 | once bytes have moved, before or in this round, a negative host status ends the call with the count including this round's consumed bytes, whatever the error and the mode |
| ReadWrite.FailureWithoutProgressConverted | drivers/platform/goldfish/goldfish_pipe_v2.c:454-456 | in any round, a host failure with nothing moved so far returns ErrorConvert(status) when it is not AGAIN or the file is non-blocking; AGAIN in non-blocking mode gives -EAGAIN |
| ReadWrite.AgainWithoutProgressWaits | drivers/platform/goldfish/goldfish_pipe_v2.c:459-461 | in any round of a blocking call, AGAIN with nothing moved so far waits: an interrupted wait gives -ERESTARTSYS, a close by the host -EIO, and a wake-up runs the next round from the same address |
| ReadWrite.FirstFailureConverted | drivers/platform/goldfish/goldfish_pipe_v2.c:454-456 | the first round of a call, as a corollary: a host failure returns ErrorConvert(status) when it is not AGAIN or the file is non-blocking |
| ReadWrite.BlockingAgainWaits | drivers/platform/goldfish/goldfish_pipe_v2.c:459-461 | the first round of a blocking call, as a corollary: AGAIN waits, and the wait decides between -ERESTARTSYS, -EIO and the second round |
| ReadWrite.AgainAfterPartialWrite | drivers/platform/goldfish/goldfish_pipe_v2.c:425-448 | a 5000-byte write of which the host takes 2000 bytes and then answers AGAIN returns 2000 |
| ReadWrite.WokenThenCompleted | drivers/platform/goldfish/goldfish_pipe_v2.c:417-466 | a blocking write that first sees AGAIN, is woken and then has all 5000 bytes taken returns 5000 |
| ReadWrite.ReadWriteCall | drivers/platform/goldfish/goldfish_pipe_v2.c:393-467 | the loop returns what the recursive specification ReadWriteSpec returns for the trace, and releases every page it pins |
| Poll.PipeCmd | drivers/platform/goldfish/goldfish_pipe_v2.c:234-242 | an interrupted mutex wait gives PIPE_ERROR_IO; otherwise the host's status |
| Poll.PollMask | drivers/platform/goldfish/goldfish_pipe_v2.c:484-507 | a negative status gives the 32-bit value of -ERESTARTSYS; otherwise only poll event bits are set, POLLIN/POLLRDNORM exactly for PIPE_POLL_IN, POLLOUT/POLLWRNORM exactly for PIPE_POLL_OUT, POLLHUP exactly for PIPE_POLL_HUP, and POLLERR exactly when the pipe was closed by the host |
| Poll.FailedPollHasNoEvents | drivers/platform/goldfish/goldfish_pipe_v2.c:492-495 | a failed POLL command gives a non-zero mask with no poll event set |
| DmaRegion.IsPageSizeMultiple | drivers/platform/goldfish/goldfish_pipe_v2.c:858-860 | `sz & (PAGE_SIZE - 1)` is zero exactly when sz is a multiple of PAGE_SIZE |
| DmaRegion.AndLowMask | drivers/platform/goldfish/goldfish_pipe_v2.c:858-860 | masking with 2^k - 1 keeps the remainder modulo 2^k |
| DmaRegion.NewRegion | drivers/platform/goldfish/goldfish_pipe_v2.c:946-963 | a new context has the requested size, no buffer and is unlocked |
| DmaRegion.DmaAllocLocked | drivers/platform/goldfish/goldfish_pipe_v2.c:862-899 | nothing changes once the buffer exists; otherwise the buffer is allocated at the given address and its size is added to dma_alloc_total; size and lock are kept |
| DmaRegion.DmaReleaseGuestLocked | drivers/platform/goldfish/goldfish_pipe_v2.c:773-787 | dma_alloc_total drops by the region's size exactly when the buffer was allocated |
| DmaRegion.DmaReleaseHostLocked | drivers/platform/goldfish/goldfish_pipe_v2.c:758-771 | the region is unlocked and nothing else about it changes |
| DmaRegion.AllocIdempotent | drivers/platform/goldfish/goldfish_pipe_v2.c:870-872 | a second allocation changes neither the context nor the counter |
| DmaRegion.ReleaseUndoesAlloc | drivers/platform/goldfish/goldfish_pipe_v2.c:777-786 | releasing a region allocated from scratch gives the counter back its old value |
| PipeState.NewPipe | drivers/platform/goldfish/goldfish_pipe_v2.c:693-700 | a new pipe has no flags, no pending events, null links, is not closing and has no DMA context |
| PipeState.DmaClearLock | drivers/platform/goldfish/goldfish_pipe_v2.c:569-578 | unless the pipe is closing or has no DMA context, the wait-on-unlock bit is cleared and the region unlocked; no other bit and no other field changes |
| PipeState.WakePipe | drivers/platform/goldfish/goldfish_pipe_v2.c:588-597 | a close event sets the flags to exactly the closed-on-host bit; otherwise each event clears only its own wake bit (the DMA unlock only when the pipe is not closing and has a DMA context), every other bit is kept, and the lock is cleared exactly then |
| PipeState.WakePipeIdempotent | drivers/platform/goldfish/goldfish_pipe_v2.c:588-597 | delivering the same events twice is delivering them once |
| PipeState.DmaAcquireLockAsWritten | drivers/platform/goldfish/goldfish_pipe_v2.c:965-978 | a closing pipe gives 0 with no change, a missing region -EINVAL, an unlocked region is locked with 0; on a locked region the caller sets the wait-for-unlock bit: an interrupted wait gives -ERESTARTSYS with the bit set, a close by the host gives -EIO with only the closed bit, and a woken caller gets -EIO if the pipe is closed on the host and 0 otherwise, with the bit cleared, the other flags kept and the region left unlocked |
| PipeState.AcquireAfterWaitLeavesUnlocked | drivers/platform/goldfish/goldfish_pipe_v2.c:969-975 | for every pipe with a locked region and no host close, a caller woken from the wait is told it holds the lock while the region stays unlocked, so a second caller succeeds whatever its wait would have done |
| PipeState.AcquireAfterWaitExample | drivers/platform/goldfish/goldfish_pipe_v2.c:969-975 | the same on one concrete pipe: a 4096-byte locked region, a woken first caller and a second caller whose wait would be interrupted both get 0 |
| PipeState.DmaAcquireLock | drivers/platform/goldfish/goldfish_pipe_v2.c:965-978 | the same results as the code on the closing, missing and unlocked paths, and on the locked path for an interrupted wait and a close by the host; a woken caller gets -EIO with the region unlocked if the pipe is closed on the host, and otherwise 0 with the region locked again; whenever it returns 0 on a pipe that is not closing the region is locked; the result is 0, -EINVAL, -ERESTARTSYS or -EIO |
| PipeState.AcquiredLockExcludesOthers | drivers/platform/goldfish/goldfish_pipe_v2.c:965-978 | once a caller holds the lock, a second caller succeeds only after an unlock wakes it |
| DmaOps.CreateRegion | drivers/platform/goldfish/goldfish_pipe_v2.c:946-963 | with the context allocated the pipe gets a fresh region of the requested size, replacing the old one; otherwise nothing changes |
| DmaOps.Ioctl | drivers/platform/goldfish/goldfish_pipe_v2.c:980-1037 | a closing pipe gives -ENOTTY and a failed argument copy -EFAULT; otherwise each command's result is stated exactly: CREATE_REGION gives -EINVAL with nothing changed for a size that is not a page multiple, else 0 with the region created; UNLOCK gives 0 with the lock cleared; GETOFF copies out exactly the region's physical base with 0, or gives -EFAULT; any other command gives -ENOTTY with nothing changed; LOCK gives the acquire's result, which is 0 only with the region locked; no command changes the links, pending events or closing flag |
| DmaOps.Mmap | drivers/platform/goldfish/goldfish_pipe_v2.c:904-944 | a closing pipe or a size that is not a page multiple gives -EINVAL and changes nothing; otherwise the region becomes the allocated one (a fresh buffer at the address dma_alloc_coherent returned, or the existing buffer unchanged; size and lock kept), the counter grows only if there was no buffer, and the result is 0, or -EAGAIN when the remap fails; only the DMA context changes |
| DmaOps.MmapAllocatesOnce | drivers/platform/goldfish/goldfish_pipe_v2.c:870-887 | a second mmap allocates nothing more |
| DmaOps.MmapThenReleaseBalances | drivers/platform/goldfish/goldfish_pipe_v2.c:773-787 | releasing after the first mmap restores dma_alloc_total |
| DmaOps.CreateRegionAfterMmapKeepsCount | drivers/platform/goldfish/goldfish_pipe_v2.c:960 | CREATE_REGION after mmap drops the allocated buffer without freeing it: a later release leaves dma_alloc_total higher by that buffer's size |
| SignalQueue.InListIff | drivers/platform/goldfish/goldfish_pipe_v2.c:521-523 | on a well-linked list, the driver's "already in the list" test (a link is set or the pipe is the head) holds exactly for listed pipes |
| SignalQueue.Add | drivers/platform/goldfish/goldfish_pipe_v2.c:509-529 | the table keeps its size and occupied slots, and the head stays a valid link |
| SignalQueue.AddSpec | drivers/platform/goldfish/goldfish_pipe_v2.c:509-529 | adding keeps the list well linked: unchanged for an empty slot or a listed pipe, otherwise the pipe is the new head (LIFO) |
| SignalQueue.AddSignals | drivers/platform/goldfish/goldfish_pipe_v2.c:516-519 | the flags are OR'ed into that pipe's pending events only; no pipe's body changes; an empty slot drops the event |
| SignalQueue.PushFront | drivers/platform/goldfish/goldfish_pipe_v2.c:524-528 | linking an unlisted pipe in front of the head gives the list with the pipe first |
| SignalQueue.PopFront | drivers/platform/goldfish/goldfish_pipe_v2.c:543-567 | the table keeps its occupied slots; a pipe is popped exactly when the list is not empty |
| SignalQueue.PopSpec | drivers/platform/goldfish/goldfish_pipe_v2.c:543-567 | an empty list pops nothing and changes nothing; otherwise the head is popped with its pending events, which are cleared, the rest of the list stays linked in order, and no other pipe changes |
| SignalQueue.DropFront | drivers/platform/goldfish/goldfish_pipe_v2.c:559-562 | nulling the head's links and the new head's back link leaves the rest of the list well linked |
| SignalQueue.Remove | drivers/platform/goldfish/goldfish_pipe_v2.c:531-541 | the table keeps its occupied slots and the removed pipe's links are null |
| SignalQueue.RemoveSpec | drivers/platform/goldfish/goldfish_pipe_v2.c:531-541 | removing a pipe from any position leaves the list well linked without it, with neighbours and head fixed; the list is unchanged for an unlisted pipe |
| SignalQueue.RemoveSignals | drivers/platform/goldfish/goldfish_pipe_v2.c:531-541 | removing changes only links: every pipe's body and pending events stay |
| SignalQueue.Unlink | drivers/platform/goldfish/goldfish_pipe_v2.c:533-540 | relinking the neighbours of position k gives the list with position k cut out |
| SignalQueue.StopIndex | drivers/platform/goldfish/goldfish_pipe_v2.c:585-587 | the position of the first closing pipe in the list (its length if none) |
| SignalQueue.Drain | drivers/platform/goldfish/goldfish_pipe_v2.c:580-604 | the drain keeps the table's size |
| SignalQueue.DrainList | drivers/platform/goldfish/goldfish_pipe_v2.c:580-604 | after the drain the list is well linked and holds exactly the pipes after the first closing one, in order |
| SignalQueue.DrainWakes | drivers/platform/goldfish/goldfish_pipe_v2.c:588-597 | every pipe popped before the first closing one gets the WakePipe update for its pending events |
| SignalQueue.DrainPipes | drivers/platform/goldfish/goldfish_pipe_v2.c:580-604 | no other pipe changes, apart from links and pending events |
| SignalQueue.DrainSignals | drivers/platform/goldfish/goldfish_pipe_v2.c:580-604 | the drain clears the pending events of exactly the pipes it pops, the first closing one included |
| SignalQueue.DrainStep | drivers/platform/goldfish/goldfish_pipe_v2.c:585-597 | one round that does not stop pops the head, updates it, clears its events and leaves the remaining drain unchanged |
| SignalQueue.DrainStop | drivers/platform/goldfish/goldfish_pipe_v2.c:585-587 | a closing head ends the drain after being popped, leaving the rest of the list queued |
| SignalQueue.AddAll | drivers/platform/goldfish/goldfish_pipe_v2.c:640-643 | adding the first n entries keeps the table's occupied slots and a valid head |
| SignalQueue.AddAllSignals | drivers/platform/goldfish/goldfish_pipe_v2.c:640-643 | after the top half each live pipe's pending events are its old ones plus every event reported for it; no body changes; empty slots stay without events |
| SignalQueue.AddAllListsSignalled | drivers/platform/goldfish/goldfish_pipe_v2.c:640-643 | every pipe listed before, and every live pipe named by an entry, is listed afterwards |
| SignalQueue.InstallKeepsList | drivers/platform/goldfish/goldfish_pipe_v2.c:724-725 | storing an unlinked pipe in an empty slot keeps the list |
| SignalQueue.ClearKeepsList | drivers/platform/goldfish/goldfish_pipe_v2.c:806-807 | clearing the slot of an unlisted pipe keeps the list |
| SignalQueue.GrowKeepsList | drivers/platform/goldfish/goldfish_pipe_v2.c:661-669 | appending empty slots to the table keeps the list |
| SignalQueue.WithoutDrops | drivers/platform/goldfish/goldfish_pipe_v2.c:531-541 | the list without x holds exactly the other members, still distinct |
| PipeDevice.FreeId | drivers/platform/goldfish/goldfish_pipe_v2.c:654-656 | the lowest empty slot: every slot before it is occupied; the table length when there is none |
| PipeDevice.Grown | drivers/platform/goldfish/goldfish_pipe_v2.c:659-669 | the doubled table: the old entries unchanged, the new slots empty |
| PipeDevice.SignalledCount | drivers/platform/goldfish/goldfish_pipe_v2.c:637-638 | the count is clamped to MAX_SIGNALLED_PIPES (64) |
| PipeDevice.FreeIsLowest | drivers/platform/goldfish/goldfish_pipe_v2.c:654-656 | a scan that passes only occupied slots stops at the first empty one |
| PipeDevice.ReleaseKeepsOthers | drivers/platform/goldfish/goldfish_pipe_v2.c:805-807 | unlinking and clearing the released slot leaves every other pipe's body and pending events unchanged |
| PipeDevice.Device.constructor | drivers/platform/goldfish/goldfish_pipe_v2.c:1077-1079 | INITIAL_PIPES_CAPACITY empty slots, an empty list and no DMA bytes |
| PipeDevice.Device.SignalledAdd | drivers/platform/goldfish/goldfish_pipe_v2.c:509-529 | the device's table and head become Add of the old state; the list becomes the pushed list; the invariant holds |
| PipeDevice.Device.SignalledRemove | drivers/platform/goldfish/goldfish_pipe_v2.c:531-541 | the table and head become Remove of the old state; the list loses the pipe |
| PipeDevice.Device.SignalledPopFront | drivers/platform/goldfish/goldfish_pipe_v2.c:543-567 | the result and new state are PopFront of the old state; the list loses its head |
| PipeDevice.Device.Interrupt | drivers/platform/goldfish/goldfish_pipe_v2.c:620-649 | the interrupt is handled exactly when it is ours and the count is not 0; then at most 64 entries are added in order; otherwise nothing changes |
| PipeDevice.Device.AddEntries | drivers/platform/goldfish/goldfish_pipe_v2.c:640-643 | the loop adds the first n entries in order, keeping the invariant |
| PipeDevice.Device.AddEntry | drivers/platform/goldfish/goldfish_pipe_v2.c:641-643 | one pass adds entry i |
| PipeDevice.Device.InterruptTask | drivers/platform/goldfish/goldfish_pipe_v2.c:580-604 | the device's new state is the Drain of the old one, and the list holds what is left after the first closing pipe |
| PipeDevice.Device.DeliverHead | drivers/platform/goldfish/goldfish_pipe_v2.c:582-601 | one pass of the drain loop shortens the list and keeps what the drain will end with |
| PipeDevice.Device.GetFreePipeId | drivers/platform/goldfish/goldfish_pipe_v2.c:651-672 | returns the lowest empty slot; with none, -ENOMEM when the allocation fails, otherwise the old capacity after doubling the table; a returned id is an empty slot inside the table |
| PipeDevice.Device.FindFree | drivers/platform/goldfish/goldfish_pipe_v2.c:654-656 | the scan returns FreeId of the table |
| PipeDevice.Device.Grow | drivers/platform/goldfish/goldfish_pipe_v2.c:658-670 | the table is replaced by a fresh doubled copy and the old capacity is returned |
| PipeDevice.Device.Open | drivers/platform/goldfish/goldfish_pipe_v2.c:685-756 | failed allocations give -ENOMEM with the table unchanged; otherwise the pipe takes the lowest free id (after growing if needed) and the open command's negative status is returned with the slot emptied again; the result is 0 exactly when every step succeeds |
| PipeDevice.Device.Install | drivers/platform/goldfish/goldfish_pipe_v2.c:724-749 | the new pipe is stored in the slot, and removed again when the host rejects the open |
| PipeDevice.Device.Release | drivers/platform/goldfish/goldfish_pipe_v2.c:789-828 | the slot is emptied, the pipe leaves the signalled list, other pipes are unchanged, and dma_alloc_total drops by the pipe's allocated DMA bytes |
| PipeDevice.Device.MarkClosing | drivers/platform/goldfish/goldfish_pipe_v2.c:797-802 | the pipe is marked closing and its DMA region is unlocked |
| PipeDevice.Device.Unregister | drivers/platform/goldfish/goldfish_pipe_v2.c:805-807 | the pipe is removed from the signalled list and its slot cleared |
| PipeDevice.Device.ClearSlot | drivers/platform/goldfish/goldfish_pipe_v2.c:806-806 | the slot of an unlisted pipe is emptied |
| PipeDevice.Device.DmaIoctl | drivers/platform/goldfish/goldfish_pipe_v2.c:980-1037 | the pipe in the table becomes what Ioctl returns, and so do the return value and offset |
| PipeDevice.Device.DmaMmap | drivers/platform/goldfish/goldfish_pipe_v2.c:904-944 | the pipe and dma_alloc_total become what Mmap returns |

## Left out

- Register I/O, the probe and version handshake, and device init and teardown. The host is a parameter: the statuses and `consumed_size` values it writes.
- Locks, wait queues, the tasklet and atomic bit operations. Every operation is modelled as one sequential step. The race between the interrupt and `release` is therefore not modelled.
- A wait for the host (`goldfish_pipe_wait_event`, `wait_for_host_signal`) is modelled only by how it ends (`Wait`).
- `get_user_pages_fast`, `access_ok`, the copies from and to user space, `kzalloc`/`kcalloc`, `dma_alloc_coherent` and `remap_pfn_range` are parameters that give their results.
- Pinned pages are their physical addresses. `set_page_dirty` and `put_page` are only counted, as pages pinned and released.
- The host commands that map and unmap a DMA buffer, and the CLOSE command of `release`, are not modelled: their status is ignored by the driver.
- `ReadWrite.ReadWriteCall`: the host is a finite trace of rounds. When the trace runs out before the call returns, the result is `None`. A host that never ends a call is outside the model.
- `PipeDevice.Device.GetFreePipeId`: the capacity is unbounded, so the 32-bit overflow of doubling `pipes_capacity` is not modelled.
- `Poll.PollMask`: the poll-wait registration (`poll_wait`) is not modelled, only the returned mask.
- `PipeDevice.Device.Release`: the pipe is taken off the signalled list before its slot is cleared. The code clears the slot first, and the order makes no difference because the removal goes through the pipe's own links.
- `PipeDevice.Device.InterruptTask`: the drain loop pops until the list is empty or a closing pipe is met. The code's `first_signalled_pipe != NULL` test inside `pop_front` is the same condition.
- Loop bodies are factored into helper methods with their own contracts: `AddPage`, `AddEntry` and `DeliverHead`.
- `SignalQueue.AddAll`: there is no lemma that the top half's list is `PushedAll` on its own. That fact is kept as the invariant of `PipeDevice.Device.AddEntries`.
- `DmaOps.Ioctl` and `DmaOps.Mmap` require a DMA region where GETOFF or mmap would read one. Without a region the code dereferences a null context.
- `DmaOps.Ioctl`: LOCK calls the corrected `PipeState.DmaAcquireLock`, which takes the lock after a successful wait. The code returns 0 without taking it; see "## Findings".
- `SignalQueue.Add`, `SignalQueue.AddAll` and `PipeDevice.Device.Interrupt`: the `BUG_ON(id >= dev->pipes_capacity)` of `signalled_pipes_add_locked` is a precondition (`id < |q.table|`, `IdsInRange`). The kernel crash on an out-of-range id from the host is not modelled.
- `ReadWrite.Loop`, `ReadWrite.Advance` and `ReadWrite.ReadWriteCall`: `count` (a C `int`) and `consumed_size` (`s32`) are unbounded integers, so their 32-bit overflow is not modelled.
- The ioctl command numbers come from a header that is not part of this model. `DmaOps.IoctlCmd` names the commands instead.
- Errors of the DMA allocation are not modelled: a failure of `dma_alloc_coherent` is a kernel BUG in the code.

## Findings

| source | as written | input that shows it | evidently intended | confidence | as-written member | corrected member |
|---|---|---|---|---|---|---|
| drivers/platform/goldfish/goldfish_pipe_v2.c:348-349 | when `mutex_lock_interruptible` is interrupted, `transfer_max_buffers` returns -ERESTARTSYS without releasing the pages `pin_user_pages` just pinned | a round that pins 2 pages and then has its mutex wait interrupted: 2 pages pinned, 0 released | release the pinned pages on that path too | not executed; medium | ReadWrite.TransferMaxBuffersAsWritten, ReadWrite.AsWrittenLeaksPages | ReadWrite.TransferMaxBuffers (used by ReadWrite.Loop; ReadWrite.ReadWriteCall proves pinned == released) |
| drivers/platform/goldfish/goldfish_pipe_v2.c:969-975 | `goldfish_pipe_dma_acquire_lock` waits for a locked region to be unlocked and then returns 0 without locking it again | a locked region, a first caller woken by the unlock, then a second caller whose wait would be interrupted: both get 0 and the region stays unlocked | take the lock after the wait, so that success means the region is locked | not executed; medium | PipeState.DmaAcquireLockAsWritten, PipeState.AcquireAfterWaitLeavesUnlocked, PipeState.AcquireAfterWaitExample | PipeState.DmaAcquireLock with PipeState.AcquiredLockExcludesOthers (used by DmaOps.Ioctl) |
