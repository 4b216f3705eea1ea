# Krypton kernel: a verified model

Krypton is a small x86 kernel in the manner of the Amiga's Exec: priority threads with
message ports, a memory manager that stores its free list in the frames it manages, a
coalescing kernel heap, and a printf-style formatter on a text screen.  This project models
these parts and proves properties of them with Dafny.  `dafny verify dfyconfig.toml` checks
everything.

## How it is laid out

| file | what it holds |
|---|---|
| `Common.dfy` | machine words and a few notions shared by the other files |
| `Lists.dfy` | the intrusive lists of `list.c` over flat word memory; the header really is two overlapping sentinel nodes that share the NULL word |
| `ListWords.dfy` | the same lists as the words of `common.h` |
| `Scheduler.dfy` | the abstract scheduler state and every kernel step: timer and key interrupts, system calls, `schedule()`, the dispatcher, the idle loop |
| `SchedulerInvariant.dfy`, `SchedulerSteps.dfy` | what every step keeps, and theorems about one kernel entry |
| `SchedulerRuns.dfy` | theorems about whole runs from boot |
| `SchedulerReach.dfy` | what runs can come to: the race between a post and a wait, and the wait that links its caller twice |
| `SchedulerEffects.dfy` | what each event does to a state at rest, written out without the nesting counter, the handlers and the dispatcher |
| `SchedulerLatency.dfy` | when ticks alone give a more urgent thread the processor, and a run in which they never do |
| `KernelLayout.dfy`, `KernelImage.dfy`, `Kernel.dfy` | the same steps in place: a class over thread descriptors and one word memory with both queues and all ports as linked lists, each method proved to do the step of `Scheduler.dfy` |
| `Paging.dfy` | two-level page tables edited through a self-map (Intel SDM volume 3A, section 4.3) |
| `Frames.dfy`, `Pmm.dfy` | the frame allocator: its bookkeeping, and the class that keeps the free stack in mapped frames |
| `Chunks.dfy`, `HeapLinks.dfy`, `HeapPages.dfy`, `Heap.dfy` | the kernel heap: rows of chunks, headers in memory, the pages behind them, and the class with `kmalloc()` and `kfree()` |
| `HeapWords.dfy`, `HeapRights.dfy` | the headers byte by byte beside the bytes of blocks, and who may use the pages |
| `Numbers.dfy`, `Printf.dfy` | `number()` and `vsprintf()` |
| `PrintfText.dfy` | what they write, character by character |
| `Monitor.dfy` | the scrolling screen |

Methods carry the loops and stores of the C code; the functions they are proved against
have their own properties proved as lemmas.  Sets of bit numbers stand for signal bit sets
and one bool a bit for flag words.  Counters that wrap in C wrap here (`k_reenter`,
`num_msg`, `free_pages`).  Memory addresses are word indices in the list model and byte
addresses in the paging and heap models.  Results the code does not promise are stated as
what it does:

- `wait()` made while a reschedule is pending that would preempt the caller links the
  caller into both queues.  `SchedulerSteps.OnePlaceIff` shows this is the only event that
  breaks the partition of threads.  A run meets it only if a thread is created while a
  reschedule is pending, which is between a thread's waking from the idle loop and the next
  entry: `SchedulerReach.DoubleLinkFromBoot` is such a run, and in every run without such a
  creation each thread has one place however threads block.  Threads that block only through
  `msg_retrieve()` never do it at all.
- `split_chunk()` writes the new header over the next chunk's header.  `kmalloc()` keeps
  the heap well formed if and only if the guard of `split_chunk()` is false, and a few calls
  reach a heap where it is true (`Chunks.SplitIsReached`).  A variant
  that puts the header at `chunk + len` and relinks it is proved to work; it is not what
  the code does.
- A reschedule is asked for at two ticks of a quantum only, and a request made while
  multitasking is forbidden is cleared unserved; after that ticks never give a more urgent
  ready thread the processor (`SchedulerLatency`).
- `remove_tail()` on an empty list hands out the header and leaves no list behind.
- `get_prev()` returns the next link; it agrees with its name only on a first node.
- `pm_free()` excludes kernel frames with a strict bound, so the frame at 1 MiB gets past.
- `num_msg` counts posts modulo 256 and never goes down.
- A `*` width or precision takes an argument, but the format pointer stays on the `*`, which
  is then printed as an unknown conversion.
- Stores through NULL in the heap code go to a cell at address 0 that is no chunk.

Where comments and code disagree, the code is modelled: `enqueue()` says a new node goes
before nodes of lower priority, but puts it before its equals too (list.c:135-139);
`kmalloc()` says best fit, but takes the first fit (pmm.c:185-194); the comment in
`scroll()` speaks of the default colours, but scrolled-in cells have attribute 0x0F and
written ones 0x07 (monitor.c:34-36, 67-76).

## Model

| member | source | states |
|---|---|---|
| Lists.NewList | list.c:79-83 | three stores make an empty list whose two sentinels share one NULL word, and no other list of the memory changes |
| Lists.AddHead | list.c:12-18 | the node becomes the first of the list; all other lists stay as they were |
| Lists.AddTail | list.c:27-33 | the node becomes the last of the list; all other lists stay as they were |
| Lists.RemoveHead | list.c:42-57 | the first node comes off and is in no list any more; an empty list gives NULL and no store |
| Lists.RemoveTail | list.c:59-72 | the last node comes off a non-empty list; on an empty one the header is returned and no list is left at it |
| Lists.Remove | list.c:74-77 | a node is unlinked from whichever list holds it, at an end or inside, without naming the list |
| Lists.GetHead | list.c:105-115 | first node, or NULL for an empty list or a NULL list |
| Lists.GetTail | list.c:117-127 | last node, or NULL for an empty list or a NULL list |
| Lists.GetNext | list.c:85-93 | the following node, NULL at the end |
| Lists.GetPrev | list.c:95-103 | what it returns for every position, and that it is the previous node exactly on a first node |
| Lists.Enqueue | list.c:129-165 | the node goes before the first node whose priority is at most its own; all other lists stay |
| Lists.SlotKeepsDescending | list.c:133-153 | insertion at that place keeps a list sorted by descending priority |
| Lists.SpliceStealsNode | list.c:141-146 | linking a node that another list still holds always wrecks that other list |
| Lists.SpliceWorld | list.c:12-33 | for every list, position and unlinked node: after the four stores that list has the node there and every other list is untouched |
| Lists.BypassWorld | list.c:74-77 | the same for unlinking; the node is then free of every list |
| ListWords.ListIffWords | common.h:35-51 | memory holds a list at a header if and only if its three words and the link words of its nodes, five words each and apart, are these: head, 0, tail; next, prev |
| ListWords.SlotByFourthWord | list.c:133-153 | the signed word at offset 3 of the nodes alone decides where enqueue puts a node |
| SchedulerInvariant.StepInv | thread.c:45-152 | every event but the double-linking wait keeps: one place per thread, both queues sorted, flags in step with places, counters at rest |
| SchedulerInvariant.PostCore | message.c:6-27 | posting, with the wake-up it may cause, keeps places, order and flags |
| SchedulerInvariant.NestedIs | idt.c:154-180 | a nested interrupt comes back to the halted processor with only its handler's effect: it neither schedules nor switches |
| SchedulerSteps.OnePlaceIff | thread.c:45-107 | an event keeps every thread in exactly one place if and only if it is not a wait under a pending reschedule that would preempt |
| SchedulerReach.NobodyToScheduleStep | thread.c:125-143 | every event but a create_thread under a pending reschedule keeps: in user mode with a reschedule pending nobody is ready, so no wait links twice |
| SchedulerReach.EveryRestfulRunPartitions | thread.c:45-152 | in every run from boot without such a creation each thread is in exactly one place, however threads block |
| SchedulerReach.CreateThenDoubleLink | thread.c:37-53 | a more urgent thread created while a reschedule is pending makes the next wait put a thread into two places |
| SchedulerReach.DoubleLinkFromBoot | thread.c:45-107 | a run from boot that ends so |
| SchedulerSteps.PendingMeansIdled | thread.c:118-139 | in user mode a reschedule is pending exactly when the last dispatch idled |
| SchedulerSteps.NestingDepth | idt.c:132-180 | for interrupts, nested ones of the idle loop and system calls: k_reenter is the number of entries in progress less one, modulo 2^32 |
| SchedulerSteps.ForbidKeepsRunner | thread.c:80-81 | while multitasking is forbidden only its own wait takes the processor from the runner |
| SchedulerSteps.HighestPriorityRuns | thread.c:92-107 | an entry with multitasking permitted, other than the double-linking wait, returns with no ready thread above the runner, if it was so before |
| SchedulerSteps.RescheduleRestoresHighest | thread.c:92-107 | an interrupt that finds a reschedule pending establishes it from any state |
| SchedulerSteps.QuantumCount | timer.c:14-26 | after t ticks the count is max(q - t, -2); expiry is requested at ticks q+1 and q+2 and at no other |
| SchedulerSteps.TickKeepsRunner | thread.c:100-107 | a tick never rotates threads: the expired runner is dispatched again with a new quantum, the ready order unchanged |
| SchedulerSteps.TicksNeverRotate | timer.c:14-26 | the same for any number of ticks |
| SchedulerLatency.StaleTicks | timer.c:17-25 | once both requests of a quantum are spent and none is pending, any number of ticks changes nothing but the saved frame |
| SchedulerLatency.TicksDecide | timer.c:14-26 | with multitasking permitted, after one tick more than the quantum has left no ready thread is above the runner if and only if none was before, or a reschedule is pending, or the quantum still has a request to make |
| SchedulerLatency.NeverByTicks | idt.c:175-179 | a run from boot after which a ready, more urgent thread is never run by ticks: the requests came while multitasking was forbidden and were cleared unserved |
| SchedulerRuns.EveryRunPartitions | thread.c:45-152 | in every run from boot each thread is in exactly one place and whoever waits for messages is in the wait queue |
| SchedulerRuns.EveryRunKeepsContexts | idt_s.asm:189-239 | in every run the runner continues from the frame of its last entry, or from its entry point if it never ran |
| SchedulerRuns.EveryRunConservesMail | message.c:19-25 | in every run and for every port: posts in order are the cycled messages followed by the queue, and num_msg is their number modulo 256 |
| SchedulerRuns.EveryRunBlocksExactly | message.c:34-42 | in every run a blocked thread has a message exactly if a post landed between its empty retrieve and its wait |
| SchedulerReach.RaceHappens | message.c:34-42 | such a run exists from every state without a pending reschedule whose runner is about to retrieve from an empty port, whatever else is ready |
| SchedulerReach.RaceFromBoot | message.c:34-42 | and from boot: the keyboard thread is created, gets the processor when the kernel thread's quantum ends, and blocks on a message |
| SchedulerRuns.PostWakes | message.c:68-83 | a post to a thread blocked on messages readies it in the same step |
| SchedulerRuns.OnlyPostWakes | message.c:68-83 | no other event wakes it or changes its port |
| SchedulerRuns.CycleTakesRetrieved | message.c:55-66 | after a successful retrieve, whatever is posted meanwhile, the cycle removes the message retrieved |
| SchedulerSteps.CreateHighest | thread.c:37-38 | a new thread leaves the runner on top if and only if its priority is at most the runner's |
| SchedulerRuns.RunKeepsHighest | thread.c:92-107 | along any run in which no entry comes while multitasking is forbidden and no thread is created above the runner, a state without a ready thread above the runner leads to another |
| SchedulerRuns.AdvanceGood | message.c:30-45 | every call of threads that block as msg_retrieve() does keeps all run invariants |
| SchedulerEffects.InterruptEffect | idt.c:154-180 | an interrupt in user mode is its handler's effect, written out with the numbers of the source, followed by the way out of the kernel |
| SchedulerEffects.IdleEffect | thread.c:118-152 | an interrupt at the halt is its handler's effect and nothing else, unless a thread is ready: then that one runs, the reschedule still pending |
| SchedulerEffects.CallEffect | kernel_main.c:221-231 | a call other than wait takes at most the head message of the caller's port, and only for uid 0 |
| SchedulerEffects.WaitEffect | thread.c:45-53 | the caller joins the wait queue by priority with its signals, its frame is saved, and the first ready thread runs with a new quantum, or the processor halts |
| SchedulerEffects.ExitEffect | thread.c:71-152 | the way out of the kernel from any state, the TB_SIGNAL branch included: who gives way, where it queues, what is saved, what runs and with which flags |
| SchedulerEffects.KeyReleaseIsQuiet | kernel_main.c:216-218 | a key release changes nothing but the saved frame, and nothing at all at the halt |
| SchedulerEffects.NothingToDo | message.c:9-11 | nor do data over 128 bytes, calls by another uid, and calls with nothing to take |
| SchedulerEffects.PostOnly | message.c:19-26 | up to 128 bytes posted to a thread that waits for no message are appended to its port and counted modulo 256, and nothing else changes |
| SchedulerEffects.PostPreempts | message.c:68-83 | posted to a more urgent waiting thread they give it the processor at once, the runner's frame saved |
| SchedulerEffects.TickInside | timer.c:14-26 | a tick inside the quantum takes one off the count and changes nothing else |
| SchedulerEffects.CreateEffect | thread.c:13-42 | every field of a new thread, its place in the ready queue, and that nothing else changes |
| SchedulerEffects.ForbidThenPermit | thread.c:63-69 | the two count by one and undo each other |
| SchedulerEffects.BootState | kernel_main.c:113-147 | every field of the state init leaves, quantum 10 and k_reenter 2^32 - 1 among them |
| SchedulerEffects.BootQuantum | timer.c:17-25 | of the ticks after boot exactly the 11th and the 12th ask for a reschedule |
| Kernel.Kernel.constructor | kernel_main.c:125-147 | two empty queues, the kernel thread running, and the state the run theorems start from |
| Kernel.Kernel.TimerCallback | timer.c:14-26 | the fields end as the abstract tick says |
| Kernel.Kernel.MsgPost | message.c:6-27 | over linked lists in memory: rejects oversized data, else appends a message with that text and signals |
| Kernel.Kernel.MsgRetrieve | message.c:55-57 | the head node of the runner's port, which holds the first message, or NULL exactly for an empty port |
| Kernel.Kernel.MsgCycle | message.c:59-66 | the head node of the runner's port leaves the list and is the last of the free blocks; an empty port changes nothing |
| Kernel.Kernel.SignalThread | message.c:68-83 | a thread waiting for one of the signals moves from the wait queue to its place in the ready queue |
| Kernel.Kernel.WaitForFlags | thread.c:45-53 | the runner enters the wait queue by priority with its flags set |
| Kernel.Kernel.CreateThread | thread.c:10-43 | a new descriptor enters the ready queue by priority; the three words of its empty port |
| Kernel.Kernel.Schedule | thread.c:71-108 | preempts exactly when permitted and the head is more urgent, or the quantum over with a thread ready |
| Kernel.Kernel.SwitchThreads | thread.c:114-152 | the idle loop over any sequence of nested interrupts ends where the recursive definition of idling does |
| Kernel.Kernel.Dispatch | idt_s.asm:189-239 | switches only at depth one with a switch asked for; saves, resumes or launches as the abstract dispatch |
| Kernel.Kernel.IrqHandler | idt.c:154-180 | enters, handles, and schedules only at the outermost level |
| Kernel.Kernel.IdtHandler | idt.c:132-146 | the same for system calls; a retrieve hands out the head node of the caller's port |
| Kernel.Kernel.SystemCall | kernel_main.c:221-231 | dispatches on the call number for uid 0 and does nothing for others |
| Kernel.Kernel.HandleIrq | kernel_main.c:209-219 | the handlers in place have the effect written out in `SchedulerEffects.dfy`: a key press posts its scan code, a release does nothing |
| Kernel.Kernel.Interrupt | idt_s.asm:135-152 | a whole hardware interrupt with the idle time after it is the abstract step followed by idling, and keeps the invariant; a key release leaves all but the frame as it was |
| Kernel.Kernel.IsrStub | idt_s.asm:189-239 | a whole system call likewise, if it is not the double-linking wait; the reply to a retrieve is the head node the caller's port had |
| Kernel.IdleInv | thread.c:125-139 | any number of interrupts taken in the idle loop keep the invariant |
| KernelImage.EnqueueImage | thread.c:104-106 | queue stores in memory change no thread, priority or message |
| KernelImage.PostImage | message.c:19-25 | linking a message appends its text to one port and changes no other |
| Paging.Windows | pmm.c:240-246 | the addresses the code computes reach, by the processor's walk, exactly the directory and the tables |
| Paging.MapChangesOnePage | pmm.c:255-287 | mm_map maps its page, a new table leaves its 1023 other pages unmapped, and nothing else changes except through slots sharing the table and the window slot |
| Paging.MapThenTranslate | pmm.c:279-279 | afterwards every address of the page translates to the given frame with the same offset |
| Paging.UnmapRemovesOnePage | pmm.c:289-303 | mm_unmap removes that page in every slot sharing its table, and nothing else |
| Paging.EntryFor | pmm.c:279-279 | whatever the flags, the entry is present and keeps the frame |
| Paging.EntryFlags | pmm.c:279-279 | bit by bit, the low twelve bits are those of the flags and the present bit |
| Paging.EntryRights | pmm.h:15-17 | entries made with PAGE_WRITE and with PAGE_WRITE and PAGE_USER, and what the processor lets ring 3 do through them |
| Pmm.FirstAddressSpace | pmm.c:76-90 | the tables translate the first 4 MiB to themselves, 3 GiB onward to the same memory, and nothing else outside the window |
| Pmm.FirstRights | pmm.c:76-90 | ring 3 may read and write both maps of the first 4 MiB and nothing of the window, which the kernel may write |
| Pmm.StackRights | pmm.c:135-136 | the free stack's pages are writable for the kernel and closed to ring 3 |
| Pmm.Pmm.InitPaging | pmm.c:63-90 | the loop and the three stores build exactly those tables; for every address what it then reaches and who may use it |
| Pmm.Pmm.GetPhysaddr | pmm.c:236-253 | returns what the processor's own walk gives, 0 for a missing page |
| Pmm.Pmm.MmMap | pmm.c:255-287 | the memory afterwards, with or without a new table, frame bookkeeping included |
| Pmm.Pmm.MmUnmap | pmm.c:289-303 | clears one entry, and keeps the free stack intact |
| Pmm.Pmm.PmAlloc | pmm.c:419-430 | pops the frame stored on top of the stack in mapped memory, or takes the next one above the mark |
| Pmm.Pmm.PmFree | pmm.c:432-447 | from 0x20000 to 64 KiB below the mark, outside the kernel, pushes the frame or, on a full stack, extends the stack with it; drops any other; never needs a page table |
| Pmm.Pmm.Fill | pmm.c:146-165 | the boot loops put on the stack exactly the usable frames whose address pm_free accepts and whose number among the usable pages is below 0xA0000 |
| Pmm.Pmm.constructor | pmm.c:114-168 | after boot the manager is sound, exactly those frames are on the stack, free_pages is its depth, and only the identity map, the kernel's map, the stack and the window are mapped |
| Pmm.AllocSound | pmm.c:419-430 | an allocated frame is no page table and no part of the stack |
| Pmm.FreeSound | pmm.c:432-447 | pm_free keeps the stack's words, its mapping and all page tables |
| Pmm.ClientMap | pmm.c:255-287 | mapping a page leaves all other pages outside the window, those of the stack included |
| Pmm.ClientFree | pmm.c:432-447 | freeing a frame changes no mapping outside the stack |
| Frames.EveryRunOneOwner | pmm.c:419-447 | in every run of allocations and frees each frame ever seen has exactly one owner: held, free, storage or dropped |
| Frames.EveryRunKeepsStorage | pmm.c:438-441 | stack storage and dropped frames are never handed out again |
| Frames.AllocInv | pmm.c:419-430 | a frame taken above the mark was never seen before; the geometry of the stack and the free count hold |
| Frames.FreeInv | pmm.c:432-447 | the same for pm_free: peak depth between 1024(s-1) and 1024s, free_pages equal to depth minus bump allocations |
| Frames.FreeThenAlloc | pmm.c:419-447 | freeing and allocating again gives the same frame and the same pool |
| Frames.StackFitsWindow | pmm.c:438-440 | distinct frames bound the stack inside its 4 MiB window, so a full stack always has a slot for one more frame |
| Frames.FreeTakes | pmm.c:432-447 | pm_free as a function of the address in numbers: pushed, made storage, or dropped, and nothing else changed |
| Frames.OneRegionLimit | pmm.c:155-157 | of one region from 0 on, exactly the first 0x9FFFF frames are offered |
| Frames.BootMarks | pmm.c:116-132 | the first mark and the kernel's end, from mem_upper and the linker's symbol |
| Frames.FirstKernelFrameNotRefused | pmm.c:434-436 | of the frames the kernel occupies exactly the first is not refused |
| Chunks.MallocBlocks | pmm.c:182-220 | kmalloc adds one block of sufficient size where none was and changes no other block |
| Chunks.ReleaseBlocks | pmm.c:226-233 | kfree removes exactly its block |
| Chunks.ReleaseTidy | pmm.c:358-377 | after coalescing no two neighbours are free and the last chunk is in use |
| Chunks.RunKeepsBlocks | pmm.c:182-233 | over any run without a taken split the heap stays tidy, and blocks not freed keep address and length |
| Chunks.RunKeepsBlocksApart | pmm.c:182-233 | at the end of any such run blocks in use lie in the heap and do not overlap |
| Chunks.MallocThenRelease | pmm.c:182-233 | freeing a block that extended the heap leaves the heap as before |
| Chunks.SplitIsReached | pmm.c:396-399 | kmalloc(100), kmalloc(1) and kfree of the first, from the empty heap, lead to a heap where kmalloc(1) meets the guard of split_chunk |
| HeapLinks.SplitBreaksHeap | pmm.c:396-408 | once the guard of split_chunk holds, the headers describe no row of chunks whatever |
| HeapLinks.RelinkedSplitKeepsHeap | pmm.c:396-408 | a variant that writes the header at chunk + len and relinks it splits the row correctly |
| HeapLinks.MergeLinks | pmm.c:360-373 | the three stores of either half of glue_chunk merge two chunks, the NULL store touching no chunk |
| HeapLinks.TruncateLinks | pmm.c:379-384 | free_chunk's stores remove the last chunk |
| HeapLinks.HeadersOutsideBlocks | pmm.c:182-233 | no header, at whatever boundary of the row, reaches into a block in use behind that block's own header |
| HeapWords.HeaderReads | pmm.h:23-28 | a header of three words, the last a bit field, is read back as stored, and one twelve bytes away is untouched |
| HeapWords.HeaderBytesOutsideBlocks | pmm.c:182-220 | no byte of the three words of a header, at any boundary of the row, lies in a block that kmalloc returned |
| HeapWords.BlockStoresKeepRow | pmm.c:182-220 | whatever is written into the bytes of blocks in use, the row's headers stay |
| HeapWords.HeaderStoreKeepsOthers | pmm.c:358-377 | a store to one header of the row changes no other |
| HeapPages.GrowBacked | pmm.c:410-416 | one more page gets one more frame of its own, all others keep theirs |
| HeapPages.ShrinkBacked | pmm.c:387-393 | the last page's frame goes to pm_free and its page is unmapped, all others keep theirs |
| HeapRights.RightsMapped | pmm.c:410-416 | a further heap page is writable and open to ring 3, and the stack stays closed |
| HeapRights.RightsShrunk | pmm.c:387-393 | giving pages back keeps both |
| HeapRights.HeapAccess | pmm.c:410-416 | each address below sh_heap_max translates into the frame that backs its page, and ring 3 may read and write it |
| Heap.Heap.Kmalloc | pmm.c:182-220 | well formed afterwards if and only if the chunk taken is at most 24 bytes longer than asked for; the headers a taken split leaves; first fit or growth, 12 bytes behind the header, 0xC040000C at first; the size of the new block, all old ones, and that ring 3 may read and write every byte of it; stores only to headers at boundaries and to NULL |
| Heap.Heap.Kfree | pmm.c:226-233 | removes exactly its block, keeps the heap well formed and backed, gives exactly the frames above the new end to pm_free, and stores only to headers at boundaries and to NULL |
| Heap.Heap.GlueChunk | pmm.c:358-377 | coalesces with both neighbours and gives up a last chunk |
| Heap.Heap.FreeChunk | pmm.c:379-394 | drops the last chunk, unmaps exactly the pages above the new end and hands their frames to pm_free |
| Heap.Heap.AllocChunk | pmm.c:410-416 | sh_heap_max becomes the least page boundary at or above the new end, frames below it unchanged |
| Heap.Heap.FreePages | pmm.c:387-393 | sh_heap_max becomes the least page boundary at or above the freed chunk, and pm_free gets exactly the frames of the pages above, the last taken first |
| Numbers.Number | vsprintf.c:35-85 | the loops of number() write sign, prefix, padding and digits in the layout of the reference text |
| Numbers.NumberReadsBack | vsprintf.c:35-85 | for every 32-bit value, base, width, precision and flags the text reads back as the value |
| Numbers.NumberWidth | vsprintf.c:52-83 | the text is exactly max(size, sign + prefix + max(digits, precision)) characters |
| Numbers.NumberPlace | vsprintf.c:63-83 | where sign, prefix and digits stand for each kind of padding, and what the prefix is |
| PrintfText.NumberLayout | vsprintf.c:42-84 | the whole text, sign, prefix, filling and digits, for every value, base, width, precision and flags |
| PrintfText.DigitAt | vsprintf.c:59-60 | the i-th digit from the right is the remainder of the value divided i times, as a character; there is no leading zero |
| PrintfText.NumberCase | vsprintf.c:39-42 | with SMALL no capital is written, without it no small letter |
| PrintfText.NumberDefined | vsprintf.c:44-45 | number gives up exactly on a base outside 2 to 36 |
| Numbers.AtMost32Digits | vsprintf.c:56-60 | tmp never holds more than 32 characters |
| Numbers.ValueOfDigits | vsprintf.c:59-60 | the digits of a number in any base evaluate to it |
| Numbers.WriteDec | monitor.c:170-192 | prints what number() prints in base 10 without width |
| Printf.SkipAtoi | vsprintf.c:13-20 | reads a run of digits and stops behind it |
| Printf.ReadDirective | vsprintf.c:108-152 | flags, width, precision and qualifier as the parse of the format gives them |
| Printf.PutDirective | vsprintf.c:154-228 | prints the text of the directive, known conversion or not, as `PrintfText.dfy` and the rows here describe it |
| Printf.Vsprintf | vsprintf.c:87-232 | for every format without %n: the text of its pieces in order, its length returned, also when the format ends inside a directive |
| Printf.StringWidth | vsprintf.c:164-179 | a string directive is max(width, shown) wide, the shown part at one edge and spaces for the rest |
| Printf.DirectiveShowsNumber | vsprintf.c:181-213 | every integer conversion shows its argument in its base, signed for d and i only, at least as wide as asked |
| PrintfText.CharShows | vsprintf.c:155-162 | %c prints the low byte of its argument at one edge of the width and spaces for the rest |
| PrintfText.OthersShow | vsprintf.c:220-227 | %% prints one percent sign, an unknown conversion the percent sign and itself |
| PrintfText.NumberDirective | vsprintf.c:181-213 | base, width and flags number gets for each conversion: small letters for %x alone, eight places with zeros for a bare %p |
| PrintfText.ArgumentTaken | vsprintf.c:154-228 | how many arguments each directive takes |
| PrintfText.FlagsRead | vsprintf.c:108-118 | each flag character sets its own flag, in any order and number, and the first other one ends the run |
| PrintfText.SmallFormats | vsprintf.c:120-152 | a point without digits, the qualifiers, a star, and a lone percent sign |
| Printf.FormatsCompose | vsprintf.c:102-229 | the text of one format behind another is one text behind the other, unless the first ends inside a directive |
| Printf.ParseSpelled | vsprintf.c:108-152 | every list of spelled directives and characters is read back exactly |
| Monitor.Screen.PutChar | monitor.c:66-112 | the screen shows the last 25 rows of an endless paper on which the character was put, attribute 7; the cursor stays inside; the one cell that changes, and the blank row of a scroll |
| Monitor.Screen.Scroll | monitor.c:33-55 | the overlapping copy moves every row up by one and blanks the last |
| Monitor.Screen.Clear | monitor.c:116-127 | all cells zero, cursor home |
| Monitor.Screen.Write | monitor.c:145-148 | the same for every sequence of characters |
| Monitor.ControlMoves | monitor.c:78-95 | where each control character moves the cursor, and that none writes |
| Monitor.PlainText | monitor.c:97-107 | plain text fills the paper cell by cell, wrapping at the edge, and changes nothing else |
| Monitor.RowsAboveStay | monitor.c:38-53 | what scrolled off is never written again |

## Left out

- Interrupt stack frames, registers and the order they are saved in: a context is a token.
- Interrupts between the end of the idle loop and the return of `switch_threads()`: the code leaves them enabled there; the model takes nested interrupts only at the halt.
- `find_thread()`: the target thread of a key press is given directly; `strcmp()` ignores a difference in the last character.
- The kernel thread's own message port: its header is initialised at the wrong address; the model gives it an empty port.
- The rest of the kernel thread's descriptor: `init()` does not clear it; the model takes its `sig_wait`, `sig_recvd` and unset flags as empty.
- `TB_SIGNAL` is never set by the code; the branch is modelled but no run reaches it.
- The list of message ports, thread names, stacks and page directories of threads.
- What lists look like after the double-linking wait: the abstract queues still show the thread twice, while the links in memory are wrecked as `Lists.SpliceStealsNode` says.
- Kernel.Kernel.MsgPost: needs a free block, so running out of memory while posting (a panic in the code) is not modelled; nor is the empty branch for a full port.
- Kernel.Kernel.CreateThread: gets its memory as an argument instead of from `kmalloc()`, and does not link the port into the list of ports.
- Kernel.Kernel.SystemCall: call 1 writes to the screen in the code and does nothing here; the screen is modelled apart from the kernel, in `Monitor.dfy`.
- Kernel.Kernel.SwitchThreads: the interrupts of the idle time are a given sequence; with none left the processor stays halted.
- Pmm.Pmm.constructor: a memory map whose usable regions are not whole frames, overlap, or reach the last frame of the address space.
- Heap.Heap.Kmalloc: sizes that wrap around 32 bits with the header, or need 31 bits or more, are excluded, and so is growth past the heap's window or out of physical memory.
- Bytes inside heap blocks, and code that writes outside its block.
- Port I/O, the TLB, `cr3` loads, the interrupt controller and timer hardware, descriptor tables, the VGA cursor.
- `clone_actual_directory()` is never called; a second address space is not modelled.
- Numbers.Number: widths and precisions that overflow an int.
- Printf.Vsprintf: `%n`, unterminated strings and mismatched arguments.
- `strcat()`, `memcpy()` and other library code, the ELF lookup, panic, and the hexadecimal printer.
