# FeOS kernel verification

Dafny models of the hard parts of the FeOS kernel, each proved against what the code is for.

- **The kernel heap** (`dlmalloc.c` over `ksbrk.c`). The arena is a memory of 32-bit words; boundary tags, bin links and
  tree links are words in it, written in the order in which the code writes them. Beside the memory stand ghost values:
  the chunks that tile the arena, the lists in the small bins, and the tries in the 32 tree bins. `Malloc.Heap` is the
  allocator; its invariant is the one that the allocator's own debugging checks spell out, and every branch that the
  code takes for corruption or misuse is proved unreachable for correct callers. Underneath, `Ring`, `Trie`,
  `TrieLinks`, `TrieUnlink` and `TrieStores` treat the linked structures, `TreeIndex` and `BinMap` the bit tricks,
  `BestFit` and `BestFitWalk` the search, `Heap*` the steps on tags and bins. `Placement` says which chunk a request
  takes, and when a chunk can grow where it is, from the chunks alone; `Client` is any run of requests.
- **Inflate** (`tinfl.c`). `Canonical` is the canonical Huffman code of section 3.2.2 of RFC 1951, `Huffman` the table
  builder, `Deflate` an abstract machine for raw streams that takes one step for each thing the format says, and
  `Inflate.Decompressor` the coroutine with its bit buffer, fast and slow decoding loops and copy loops. Every stretch
  of the coroutine is proved to take the machine's steps. `Encoding` is an encoder written from RFC 1951 with formulas
  of its own over `BitLists`; `RoundTrip` proves that the machine decodes what it writes, `Acceptance` that the machine
  accepts nothing else, and `Conformance` brings both to the decompressor. `Adler` is the checksum.
- **The page allocator** (`memory.c`). `Chains` has the intrusive lists, `Pages` the arithmetic of aligned blocks,
  `PairBits` the bitmaps, `FreeLists` and `Buddy` the allocator, `BuddyRuns` its runs with any number of threads.
- **The scheduler** (`thread.c`, `thread.h`). `ThreadQueues` has the linked queues, `SchedulerSpec` the scheduler as a
  machine whose queues are sequences, and `Scheduler` the code, proved to do what the machine does; `SchedulerRuns` has
  runs of both, what every run keeps and the bound on the wait; `SchedulerLaws` says what each event does without the
  machine's own functions, and what follows for runs: round robin, first come first served, the permits.

Assumptions:

- Heap: the configuration of the 32-bit target: 8-byte alignment, chunks of 16 bytes or more, no footers, no mmap, one
  heap. `sbrk` is called by the heap only; how many pages the page mapper can supply is part of its state. Callers pass
  addresses that they got and have not given back. Addresses and sizes are integers with the wrap-around of 32-bit
  arithmetic written out where the code relies on it; the bin maps are 32-bit vectors. The bin headers are static data
  at 0xE0000000 and the arena is above them: so top is never as large as 2^31, and the clamp in `sys_trim`
  (`dlmalloc.c:3368-3369`) is proved unreachable. For alignments above 2^31 the doubling loop of `internal_memalign`
  (`dlmalloc.c:3931-3936`) does not end; the method's result `ends` says so, and what it returns then stands for no
  return of the code.
- Inflate: raw streams, without the zlib header and trailer; an output buffer that does not wrap; and streams in which
  the machine never meets a symbol that no valid stream has (a code that is missing from an incomplete table, length
  symbols 286 and 287, distance symbols 30 and 31) and comes to an end. Streams that fail in the ways the code looks
  for are covered, and truncated ones as far as the zero bytes that the code puts behind them lead to an end: one that
  goes on for ever over these zeros is excluded. The bit buffer is a 32-bit word, and a shift loses what does not fit.
- Page allocator: the page records start zeroed, because the code never ends the last list itself
  (`memory.c:61-68`); the test of the order at `memory.c:91` is made before the read at `memory.c:88`, which would be
  beyond the array. Each stretch under the mutex is one atomic step.
- Scheduler: each call is one atomic step: marking the current thread blocked, queueing it and looking for the next one
  belong together, although the code enables interrupts in between (`thread.c:334-337`). Priorities are 0 to 15, and a
  thread waits on a controller that exists (the code has no check for the -1 that `thread.h:32` mentions). While the
  processor waits for an interrupt with the lock held, a semaphore without waiting threads may be raised; with waiting
  threads the code would spin on the lock for ever (`thread.c:309-311`), and the model has no step for that.

Pointer arithmetic on 16-byte page records is arithmetic on page numbers; `1 << o`, `q >> o` and `p ^ (1 << o)` are the
functions `Pow`, `At` and `FlipBit`. Macros of the heap and of inflate are methods. What `dlfree` and `dispose_chunk`
have in common is one method, and so is what `ThrYield` and `ThrReschedule` have in common. The place at which the
inflate coroutine resumes is the field `state`.

## Model

| member | source | states |
|---|---|---|
| Client.Run | kernel/source/dlmalloc.c:3583-4305 | for every sequence of malloc, calloc, memalign, realloc, free and byte stores from an empty heap, request by request: each one that the client may make does what it is for, or fails with the record and the size of the heap as they were, no free chunk and not top large enough, and the pages too few for it; a new chunk is the one that is due, and the heap is not enlarged for what it can meet; realloc neither fails nor moves when it shrinks or when the bytes can be had in place; at every moment the client's own record (which addresses it has, aligned and disjoint, and every byte it stored) is what the heap holds; realloc keeps the first bytes, calloc gives zeros, memalign a multiple of the alignment rounded up to a power of two |
| Malloc.Heap.Malloc | kernel/source/dlmalloc.c:3583-3718 | a new live chunk, 8-aligned, apart from all others, whose words are untouched: the least free one that fits, but the victim when it fits and the other is not within eight bytes (a small request) or not smaller than the victim (a large one), and top only when no free chunk fits; what is left over is given back when it makes a chunk, and becomes the victim; the system is asked only when nothing there is large enough, and for the least number of whole pages; it fails only when besides the pages left do not suffice, and then nothing has changed |
| Placement.OneWay | kernel/source/dlmalloc.c:3612-3687 | a request that passes the bins finds nothing in them that it would take: the ways in which a chunk is found exclude each other |
| Malloc.Heap.Free | kernel/source/dlmalloc.c:3721-3828 | exactly this chunk is live no more; every other live chunk keeps its place, size and words; it goes into top exactly when it was next to it, the victim grows or goes when it was a neighbour, and top is trimmed exactly when it has come above the threshold, down to the padding and one unit at most; the invariant holds after it |
| Malloc.Heap.Realloc | kernel/source/dlmalloc.c:4224-4267 | in place exactly when the chunk has the bytes, or has them together with top or the free chunk behind it, so that shrinking never fails and never moves; otherwise the old chunk is replaced by the one that malloc would give, which holds the first min(old usable, new) bytes, or nothing has changed, no free chunk and not top is large enough and the pages left do not suffice |
| Malloc.Heap.TryReallocChunk | kernel/source/dlmalloc.c:3849-3926 | resizing in place succeeds exactly when the chunk is large enough, or with top of which something stays, or with a free neighbour behind it, the victim or a binned one; the rest is given back when it makes a chunk; no other live chunk is touched, and a refusal changes nothing |
| Malloc.Heap.Calloc | kernel/source/dlmalloc.c:3830-3844 | the bytes asked for, count times size without overflow, are zero, in the chunk that malloc gives; on failure no free chunk and not top is large enough and the pages left do not suffice for them |
| Malloc.Heap.Memalign | kernel/source/dlmalloc.c:4300-4305 | the address is a multiple of the alignment rounded up to a power of two; one new live chunk, at most 16 bytes larger than needed, and nothing else changes; it fails only when no free chunk and not top is large enough for the aligned part and the pages do not suffice, and ends exactly for alignments up to 2^31 |
| Malloc.Heap.InternalMemalign | kernel/source/dlmalloc.c:3928-3999 | the same for alignments above 8: the first aligned spot of the chunk that malloc gives, with room for a chunk in front of it when it is not the start; the lead and the tail are given back |
| Malloc.Heap.AlignmentFor | kernel/source/dlmalloc.c:3931-3936 | the least power of two that is large enough, for alignments up to 2^31 and for these alone; above, no number of doublings reaches the alignment, so that the loop does not end |
| Malloc.Heap.TmallocLarge | kernel/source/dlmalloc.c:3475-3543 | best fit: the chunk it takes has the least size of all tree chunks that fit and is smaller than a fitting victim; it takes none exactly when none fits or no smaller one than a fitting victim |
| Malloc.Heap.TmallocSmall | kernel/source/dlmalloc.c:3546-3581 | the chunk it takes is the smallest tree chunk; what is left over, when it makes a chunk, becomes the victim, which otherwise stays |
| Malloc.Heap.FindBestFit | kernel/source/dlmalloc.c:3475-3521 | the walk with the deepest untaken right subtree, and the next bin's least chunk after it, find the least size that fits over all 32 tries |
| Malloc.Heap.InsertLargeChunk | kernel/source/dlmalloc.c:2727-2776 | the loop by size bits and the stores put exactly this chunk into its trie: links, bin index, tree order and bin map hold again |
| Malloc.Heap.UnlinkLargeChunk | kernel/source/dlmalloc.c:2795-2864 | exactly this chunk leaves its trie, from a chain of equal sizes or replaced by the rightmost leaf below it; no corruption branch is taken |
| Malloc.Heap.InsertSmallChunk | kernel/source/dlmalloc.c:2649-2665 | exactly this chunk joins the small bin for its size, and the bin map says so |
| Malloc.Heap.UnlinkSmallChunk | kernel/source/dlmalloc.c:2668-2691 | exactly this chunk leaves its small bin, whose mark goes with the last one |
| Malloc.Heap.UnlinkFirstSmallChunk | kernel/source/dlmalloc.c:2694-2710 | a marked bin has a chunk of its size, which leaves it |
| Malloc.Heap.DisposeChunk | kernel/source/dlmalloc.c:3404-3470 | a chunk in use becomes free and is merged with its free neighbours, into top exactly when it was next to it, and with the victim when that was a neighbour, so that no two free chunks are neighbours |
| Malloc.Heap.SysAlloc | kernel/source/dlmalloc.c:3104-3299 | the arena stays one segment that ends at the break: growing appends to top the least number of whole pages that is missing, and a failed growth changes nothing; it fails only when the pages do not suffice |
| Malloc.Heap.SysTrim | kernel/source/dlmalloc.c:3351-3399 | whole units of top go back, as many as leave the padding and one unit at most behind it, and the system gets exactly what top loses; the threshold for the next trimming is reset, or put out of reach when nothing could be given back; live chunks keep their words, and the segment still ends at the break |
| Malloc.Heap.Accounted | kernel/source/dlmalloc.c:2535-2563 | chunks in use, free chunks, top and the foot make up the footprint, which is what the system gave, all of it mapped |
| Malloc.Heap.Checked | kernel/source/dlmalloc.c:2331-2593 | for every chunk what the checking functions look at: tags of the chunk and of its neighbour agree, no two free neighbours, a free chunk that is not the victim is in exactly the bin for its size, bin maps are set exactly for non-empty bins |
| TrieStores.LinkCorrect | kernel/source/dlmalloc.c:2727-2776 | the stores of an insertion turn the memory form of a trie into that of the trie with the chunk, and write only link words of it |
| TrieStores.DropCorrect | kernel/source/dlmalloc.c:2795-2864 | the stores of a removal turn the memory form of a trie into that of the trie without the chunk, and write only link words of it |
| Trie.HeightBounded | kernel/source/dlmalloc.c:1556-1560 | a path has at most one node more than the bits that tell the sizes of the bin apart |
| Trie.LeftBelowRight | kernel/source/dlmalloc.c:1544-1545 | all sizes below a node's left child are smaller than all below its right child |
| TreeIndex.TreeIndexCorrect | kernel/source/dlmalloc.c:2029-2060 | the three comparisons by subtraction put every size into the bin whose range it is in |
| TreeIndex.BinsAdjoin | kernel/source/dlmalloc.c:2053-2060 | the range of one bin, as wide as its shift says, ends where the next one starts |
| BestFit.LeastCorrect | kernel/source/dlmalloc.c:1547-1553 | the least size of a trie is found on the path that goes left and right only where there is no left child |
| BinMap.SmallPick | kernel/source/dlmalloc.c:3617-3645 | the shifts and masks on the map find the first marked small bin from an index on, and whether it is this one or the next |
| BinMap.Bit2IdxCorrect | kernel/source/dlmalloc.c:2115-2126 | the index computed from a single bit is its position |
| Ksbrk.Sbrk.Move | kernel/source/ksbrk.c:19-72 | growing succeeds exactly when the pages suffice, shrinking exactly when there is that much; a failed call leaves the range as it was; after shrinking less than a page is unused |
| Canonical.CompleteIsKraft | kernel/source/tinfl.c:176-177 | the running total is 65536 exactly when the Kraft sum of the code lengths is 1 |
| Canonical.OneMatch | kernel/source/tinfl.c:181-184 | no bit string starts with the codes of two symbols |
| Canonical.SomeMatch | kernel/source/tinfl.c:176-177 | with a complete code every bit string starts with a code |
| Canonical.CodeIsTaken | kernel/source/tinfl.c:172-184 | the codes follow one another without gaps, shorter ones first and those of one length in the order of the symbols: each is the number of strings of its length that start with codes before it |
| HuffSteps.RoomForNames | kernel/source/tinfl.c:186-193 | the tree entries of a complete code stay inside the table |
| Huffman.HuffTable.Build | kernel/source/tinfl.c:172-194 | building fails exactly when there is more than one code and the lengths do not fill the room; otherwise the look-up and the walk give, for every bit buffer that starts with a code, its symbol and its length |
| Huffman.HuffTable.DecodesAll | kernel/source/tinfl.c:84-88 | the tables of a complete code decode every bit buffer, to the one symbol whose code it starts with |
| Inflate.Decompressor.Fill | kernel/source/tinfl.c:56-69 | at the end of the input another byte is taken only when the bits at hand do not hold the whole code; entered again in the middle it goes on as if it had not been left |
| Inflate.Decompressor.BufferFits | kernel/source/tinfl.c:48-69 | at every place of the coroutine, and so between any two calls, the bit buffer is below 2^num_bits and num_bits is at most 32: no refill, one byte or two, shifts a bit out of the word |
| Inflate.Decompressor.HuffDecode | kernel/source/tinfl.c:75-88 | the symbol is the one whose code comes next in the stream, and exactly its bits are used up |
| Inflate.Decompressor.TwoSymbols | kernel/source/tinfl.c:229-259 | the fast loop does what decoding symbol by symbol does, literals and the symbol that ends them, and its two refills stay within the word |
| Inflate.Decompressor.CopyThrees | kernel/source/tinfl.c:287-300 | three bytes at a time, overlapping or not, all of the counted bytes are produced, and the output is that of the byte-serial copy of section 3.2.3 of RFC 1951 |
| Inflate.Decompressor.CopyOn | kernel/source/tinfl.c:278-286 | byte by byte the same, stopping where the room ends with the rest still to be copied, and going on from there in a later call |
| Inflate.Decompressor.StepCodes | kernel/source/tinfl.c:195-211 | one code length or repeat command as section 3.2.7 of RFC 1951 has it, with the failures the code looks for |
| Inflate.Decompressor.Step | kernel/source/tinfl.c:119-303 | from every place the coroutine takes at least one step of the machine, or stops for want of input or room |
| Inflate.Decompressor.Decompress | kernel/source/tinfl.c:90-312 | one call with any piece of the input and any room: it ends done or failed when the machine has; it asks for input only when all of it is used up and the machine's next step needs a byte that has not come, and for room only when there is none for the byte that comes next |
| Inflate.SplitIndependent | kernel/source/tinfl.c:25-50 | two runs over one stream, however input and room are cut up among the calls, end with the same output and the same status |
| Inflate.InflateInPieces | kernel/source/tinfl.c:90-312 | whatever the pieces, the result is the machine's output; with some input and room in every call, calls enough and room for the output it is reached, and for a failure with a byte of room more |
| Deflate.OneOutcome | kernel/source/tinfl.c:119-308 | a stream has at most one outcome |
| Deflate.FixedComplete | kernel/source/tinfl.c:158-163 | the fixed codes are complete |
| Encoding.RangesAdjoin | kernel/source/tinfl.c:92-95 | in the tables each range of lengths and of distances starts where the one before it ends; the lengths are 3 to 258, of which the last has a symbol of its own, and the distances 1 to 32768 |
| Encoding.FixedTable | kernel/source/tinfl.c:158-163 | the fixed code of every symbol is the one that the table of section 3.2.6 of RFC 1951 gives |
| Encoding.OrderTable | kernel/source/tinfl.c:96 | the order of the code lengths, in closed form, has every symbol in it once |
| Encoding.CopiedLaw | kernel/source/tinfl.c:270-300 | however long a copy is and however near it starts, every byte of it is the one that distance before, and what was there stays |
| RoundTrip.Decodes | kernel/source/tinfl.c:119-308 | a stream that starts with an encoding of any list of stored, fixed and dynamic blocks, with any usable codes and any spelling of their lengths, is decoded to the text of the blocks, bit by bit to the end of the encoding, whatever follows it |
| RoundTrip.RoundTrip | kernel/source/tinfl.c:119-308 | decoding what the encoder writes gives the text back |
| Acceptance.OnlyEncodings | kernel/source/tinfl.c:119-308 | a stream that is decoded to its end is an encoding of some list of blocks, with the output as their text: a reserved block type, a stored length without its complement, a run without a length before it, lengths that do not add up, codes that do not fill the room and distances before the start of the output are never accepted |
| Acceptance.Exactly | kernel/source/tinfl.c:119-308 | the streams decoded without bits from behind their end are exactly those that start with an encoding, and each has one text |
| Conformance.Sound | kernel/source/tinfl.c:90-308 | when the decompressor is done, in however many calls, its input is an encoding and its output the text of it |
| Conformance.Rejected | kernel/source/tinfl.c:90-308 | when it has failed, its input does not start with an encoding |
| Conformance.Decode | kernel/source/tinfl.c:90-312 | a list of blocks encoded, cut into any pieces and decompressed with any room never fails and gives their text when it ends, and it ends when every call has some input and some room and there is room for the text |
| Adler.FitsWord | kernel/source/tinfl.c:317-325 | over 5552 bytes the unreduced sums stay below 2^32 |
| Adler.ClosedForm | kernel/source/tinfl.c:314-328 | the checksum is the sum of the bytes plus one, and the sum of the bytes weighted with their distance from the end plus their number, each modulo 65521, as section 8.2 of RFC 1950 has it |
| Adler.Update | kernel/source/tinfl.c:314-328 | the blocked sums give the checksum of section 8.2 of RFC 1950 of all output so far, and the loop ends although the first block may be empty |
| Adler.UpdateAll | kernel/source/tinfl.c:314-328 | checksumming call by call is checksumming the concatenation |
| Buddy.PageAllocator.MemAllocPage | kernel/source/memory.c:86-134 | fails exactly when no aligned run of that size is free throughout, and then nothing has changed; otherwise takes the first block of the lowest order that fits, and exactly its pages are no longer free |
| Buddy.PageAllocator.RefillOrder | kernel/source/memory.c:86-111 | succeeds exactly when some list from the order on has a block, which is cut down to the order with its right halves on the lists between |
| Buddy.PageAllocator.FreeSection | kernel/source/memory.c:136-179 | one stretch under the mutex: the block goes on its list unless its twin is free, and then the two go on as one block of the next order; the pair bit alone decides it rightly |
| Buddy.PageAllocator.MemFreePage | kernel/source/memory.c:136-179 | all stretches together: exactly the block's pages become free |
| Buddy.PageAllocator.ToggleBit | kernel/source/memory.c:16-21 | the bit of this pair of this order is turned around, the bits of all other pairs of all orders stay, and the result is the new bit |
| Buddy.PageAllocator.MemInit | kernel/source/memory.c:39-69 | every megabyte behind the records and bitmaps is free at order 8 |
| PairBits.ToggledBit | kernel/source/memory.c:16-21 | what toggling does to the bit of any pair of any order |
| Pages.InOneBlock | kernel/source/memory.c:113-134 | a wholly free aligned run lies inside a single free block |
| Pages.Canonical | kernel/source/memory.c:136-179 | a block is on a list exactly when all its pages are free and those of the block around it are not |
| Pages.SamePagesSameBlocks | kernel/source/memory.c:136-179 | the free blocks depend on the free pages alone, whatever order things happened in |
| BuddyRuns.Interleave | kernel/source/memory.c:113-179 | over every interleaving of allocations and sections of frees, act by act: an allocation takes a wholly free aligned run and exactly its pages, and nothing when there is none; a section lists its block or goes on with its parent; at every moment free blocks, allocated blocks and blocks on their way partition the managed pages, and no twins are free together |
| BuddyRuns.Quiescent | kernel/source/memory.c:113-179 | at any moment of such a run at which every block is back the free blocks are the initial ones |
| BuddyRuns.OutApart | kernel/source/memory.c:113-134 | blocks that are out at the same time do not overlap |
| BuddyRuns.AllocateAndFree | kernel/source/memory.c:113-179 | an allocation and the free of its result leave the same free blocks |
| Scheduler.SchedulerInfo.QueueAdd | kernel/source/thread.h:44-54 | after the stores the pointers are those of the same queues with the thread behind the last one of its queue, and no other queue has changed |
| Scheduler.SchedulerInfo.QueuePop | kernel/source/thread.h:56-69 | the result is the first thread of the queue, none exactly when it is empty, and the pointers are those of the same queues without it |
| Scheduler.SchedulerInfo.QueueRemove | kernel/source/thread.h:71-90 | the pointers are those of the same queues without the thread, wherever it was in its queue; the others keep their order |
| Scheduler.SchedulerInfo.WakeUpIRQ | kernel/source/thread.c:233-259 | exactly the threads whose interrupt has come are moved, in their order, to the ends of their queues in the active array, with all their time again; the others wait on in their order; the result is the highest priority among the woken |
| Scheduler.SchedulerInfo.Schedule | kernel/source/thread.c:261-298 | picks the oldest thread of the highest priority in the active array, or in the other one when that is empty; none exactly when no thread is ready; the last return is unreachable |
| Scheduler.SchedulerInfo.Yield | kernel/source/thread.c:87-150 | the picked thread runs and the current one is at the end of its queue in the array that is not active |
| Scheduler.SchedulerInfo.IdleRound | kernel/source/thread.c:110-123 | a blocked thread's wait ends exactly when some thread is ready, which then runs, be it the blocked one itself |
| Scheduler.SchedulerInfo.Reschedule | kernel/source/thread.c:203-231 | preempts only when asked to, and then as a yield does, without looking at interrupts again |
| Scheduler.SchedulerInfo.TimerISR | kernel/source/thread.c:175-201 | the machine's tick (SchedulerLaws.TickLaw says what that is), which gives ticks, queues, time and the wish for a switch; nothing but the count changes while the lock is held |
| Scheduler.SchedulerInfo.WaitForIRQ | kernel/source/thread.c:152-162 | the current thread waits at the end of the interrupt queue and the next one is picked |
| Scheduler.SchedulerInfo.SemaphoreUp | kernel/source/thread.c:300-323 | without waiting threads a permit is added; otherwise the machine's step that hands it to the one that has waited longest (SchedulerLaws.UpLaw says what that is) |
| Scheduler.SchedulerInfo.SemaphoreDown | kernel/source/thread.c:325-338 | takes a permit, or waits at the end of the semaphore's queue |
| Scheduler.SchedulerInfo.CreateThread | kernel/source/thread.c:55-85 | the new thread is at the end of its queue in the active array and runs at once when its priority is higher |
| SchedulerRuns.Conservation | kernel/source/thread.h:92-106 | in every state that can be reached every thread is the current one or on exactly one queue, once; the counts are the lengths of the queues; ready threads are on the queue of their priority; a semaphore with permits has no waiting threads, and its permits are those put in less those handed out |
| SchedulerRuns.Run | kernel/source/thread.c:55-338 | every sequence of yields, timer ticks, preemptions, waits, wake-ups, semaphore calls and thread creations leads, event by event, through the moments of the machine over sequences, and all of that is conserved at its end |
| SchedulerRuns.Happen | kernel/source/thread.c:55-338 | one event on the pointers does what the machine does on its queues, threads and semaphores, time and flags included |
| SchedulerRuns.CalmNearer | kernel/source/thread.c:87-338 | every event that makes no thread ready, and gives the processor to another thread, brings a ready thread nearer by its rank, also when the arrays change roles; any other such event leaves it as near |
| SchedulerRuns.NoStarvation | kernel/source/thread.c:87-231 | in every run of the machine in which no thread becomes ready, with a threads in the active array and e in the other one at its start, a ready thread of any priority runs by the time the processor has been given away 2a + e times, however the threads yield, are preempted by the timer, block, or use semaphores |
| SchedulerRuns.GivenAway | kernel/source/thread.c:87-150 | with a thread ready, every yield, every preemption asked for and every first round of a wait gives the processor away, so that these are what the bound counts |
| SchedulerLaws.WakesLaw | kernel/source/thread.c:233-259 | exactly the waiting threads whose interrupt has come go, in their order, behind the ready threads of their priority in the active array, with all their time again; the others wait on in their order, and no other queue changes |
| SchedulerLaws.YieldLaw | kernel/source/thread.c:87-150 | after the look at the interrupts the thread that has been ready longest among those of the highest priority runs, from the active array or, when that is empty, from the other one, which is active then; the current thread is last of its priority in the array that is not, with all its time again |
| SchedulerLaws.RoundLaw | kernel/source/thread.c:110-123 | a wait is over exactly when a thread is ready after the look at the interrupts; the one picked runs, and the one that waited stays on its queue |
| SchedulerLaws.LeaveLaw | kernel/source/thread.c:203-231 | on the way out of an interrupt the processor passes on exactly when that has been asked for |
| SchedulerLaws.TickLaw | kernel/source/thread.c:175-201 | at a tick in user mode with the lock free and no woken thread of higher priority, a current thread of priority 12 or more keeps its time and no switch is asked for; one below 12 has one less, and a switch is asked for when none is left; with a woken thread of higher priority the time stays and a switch is asked for |
| SchedulerLaws.TimeLaw | kernel/source/thread.c:175-201 | over every run in which a thread stays the current one and nothing outranks it, its time is less by the number of ticks when its priority is below 12, and the same from 12 on; when the ticks come to its time the last one asks for a switch |
| SchedulerLaws.TimeUp | kernel/source/thread.c:175-231 | a thread below 12 that has run through its time gives the processor away at the next leaving of an interrupt when another thread is ready |
| SchedulerLaws.UpLaw | kernel/source/thread.c:300-323 | raising a semaphore adds a permit, or takes the thread that has waited longest off its queue and puts it behind the ready ones of its priority in the active array; when it has a higher priority than the current thread a switch is asked for in an interrupt, and made otherwise |
| SchedulerLaws.HandedRuns | kernel/source/thread.c:311-321 | outside interrupts a thread that gets a permit runs at once when it outranks the current thread, all that are ready in the active array and all that wake |
| SchedulerLaws.CreateLaw | kernel/source/thread.c:55-85 | a new thread is last of its priority in the active array with all its time; with a higher priority than the current thread it makes the processor pass on, but not in an interrupt |
| SchedulerLaws.CreatedRuns | kernel/source/thread.c:55-85 | a new thread that outranks the current thread, all that are ready in the active array and all that wake runs at once |
| SchedulerLaws.WaitLaw | kernel/source/thread.c:152-162 | a thread that waits for an interrupt is last of those that do, with its controller and its mask, and the wait begins |
| SchedulerLaws.DownLaw | kernel/source/thread.c:325-338 | lowering a semaphore takes a permit, or puts the thread last of those that wait for one |
| SchedulerLaws.SemaphoreLaw | kernel/source/thread.c:300-338 | over every run the permits of a semaphore less the threads waiting for it are what they were, plus the raises and less the lowerings, modulo 2^32 |
| SchedulerLaws.FirstComeFirst | kernel/source/thread.c:261-298 | in every run in which no thread becomes ready, of two ready threads of one priority and array the one that came first runs first |

## Left out

- Threads that exit: the code puts them on a queue of finished threads and then on a ready queue again (`thread.c:37-53`, `thread.c:125-131`), so they are on two queues.
- Context and process switches, caches, interrupt controllers and the stacks of threads: a switch is a change of the current thread.
- Sleeping for a time (`thread.c:165-173`): a loop over waits for the timer's interrupt.
- The heap's locks, mmap, mspaces, footers, statistics, bulk and independent allocation, posix_memalign, valloc and the release of unused segments: not used in this configuration, or wrappers.
- Further segments: `add_segment` and `prepend_alloc` are proved unreachable, and so are the corruption and usage-error actions.
- `memcpy` and `memset` in the heap: loops over words.
- The zlib header and trailer, output buffers that wrap, and what inflate does with symbols that no valid stream has.
- Client.Run: makes no request for an alignment above 2^31, from which the code does not return; Malloc.Heap.Memalign says that.
- Inflate.Decompressor.Decompress: does not say how many bytes behind the end of a stream are read; the fast loop may read ahead.
- Adler.Update: is about the checksum alone; the comparison with the trailer is not modelled.
- Acceptance.Exactly: says nothing of streams that end in zero bits left off, which the code decodes as if they were there; Acceptance.OnlyEncodings covers them.
- Buddy.PageAllocator.MemInit: starts from zeroed page records; the MMU and the initial ramdisk are not modelled.
- The address-space allocator (`vspace.c`) and the archive writer (`farbuild.cpp`): lists and offsets with easier claims.
- Page tables (`vmm.c`, `initpt.c`), devices, consoles, timers, drivers and the executable converter.
