# Verified models of a small libc and of concurrent programs

The repository holds a small C library (klibc, with a few local changes), a collection of concurrent
programs used as benchmarks, and the RealtimeKit daemon.  This project models their hardest parts in
Dafny and proves what they promise, for all inputs, all runs and all interleavings.

`dafny verify dfyconfig.toml` checks everything.

## What is modelled

**The heap of klibc** (`Arena*.dfy`).  `malloc` and `free` thread two circular doubly-linked lists
through the headers of the blocks: all blocks in address order, and the free ones.  There are two
levels.  `ArenaModel` describes an arena as a value (the list of blocks and the order of the free
chain), says what each operation does to it, and proves the invariant.  `ArenaRuns` follows whole runs:
live requests, bytes mapped, bytes given back, blocks moved by `realloc`.  `ArenaHeap` is the code itself: a class whose memory is
a map from addresses to 32-byte cells, whose methods perform the stores of the C code one by one, and
whose contracts say that memory still represents the arena that `ArenaModel` computes and that no live
payload has changed.  `ArenaMemory` and `ArenaRefinement` hold the reasoning about linked cells.  The
keys of the memory are the mapped cells, and every load and store is proved to be of a mapped cell.
`ArenaRealloc` is `realloc`, `ArenaClient` drives the heap through any legal run of the three, and `ArenaContents`
adds the client's own stores: what a client finds in its blocks is what it last stored there, however often they were
moved.  `ArenaExact` says in plain numbers what each operation hands out, maps, keeps and gives back.

**The static heap** (`StaticHeap.dfy`): the bump allocator that the library is configured with, its
`realloc`, which copies as many bytes as the *new* size whatever the old one was, and the forward
`memcpy` this depends on.

**Printing and reading numbers** (`NumberText`, `Printf`, `FormatMachine`, `Vsnprintf`, `FormatMeaning`,
`FormatOverrun`, `Conversions`, `Strntoumax`, `Reading`, `RoundTrip`, `TickText`).  `NumberText` says what an integer conversion prints and what
`strntoumax` reads.  `Printf` is `format_int` on a buffer, with its left-to-right padding and its right-to-left digit
loop.  `FormatMachine` is the state machine of `vsnprintf` with an output of unlimited length, and `Vsnprintf` the real
thing with its bound.  `FormatMeaning` takes any string apart into literal text and directives and says what each
directive asks for; `FormatOverrun` says for which formats and arguments a string is copied past its end.
`Conversions` says what every directive prints in the terms of the C standard, and `Reading` what `strntoumax` makes of
every text, each without naming what the code computes on the way.

**Sorting and searching** (`SortModel`, `CombSort`, `Memmem`): the comb sort behind `qsort`, on
elements that are runs of bytes swapped by `memswap`, and the "Not So Naive" search of `memmem`.

**Concurrent programs** (`Lamport`, `ParallelGcd`, `FileSystem`, `BoundedQueue` with `FindMax`,
`RacingFib`).  Each is a step system: a state, and what each thread does next, one shared access at a
time; a run is any sequence of scheduled threads.  The benchmarks' constants (threads, inodes, blocks,
queue size, rounds, inputs) are parameters.

**The registry of RealtimeKit** (`RegistryModel`, `RegistryRuns`, `NodeMemory`, `RegistryMemory`, `RegistrySteps`,
`RegistryGrowth`, `Sweeps`, `Registry`, `RegistryClient`, `Entries`, `Collection`, `BurstLimiter`, `BurstService`): users, their processes and their threads in
three levels of linked lists with redundant counters, garbage collection in place, and the limit on bursts of requests.
`RegistryModel` has the registry as a value and says what each operation does to it, and `RegistryRuns` follows whole
runs.  `Registry` is the code itself: its memory maps the addresses that malloc has given out to nodes, its methods walk
and relink the lists and free nodes store by store, and its contracts tie memory to the value.  `Valid()` says that the
lists do not share nodes and that every node in memory is in one of them; every load and store is proved to be of a node
that is allocated.  `NodeMemory` and `RegistryMemory` say how lists lie in memory, `RegistrySteps` and `RegistryGrowth`
what the stores do to them, and `Sweeps` follows a list that is swept in place.  `Entries` and `Collection` say who is
in the registry after a call, and `BurstService` which requests of a burst are granted.  The clock, what malloc answers and the
system's view of a thread are parameters of the operations.

`Collections` and `Arithmetic` hold what several of these need.

## Results that are not a plain yes

- `realloc` of the block heap copies to NULL when the inner `malloc` fails.  `ArenaRealloc.Realloc` says
  exactly when: the block is not already of a good size, no free block fits and the kernel gives none.
  `ArenaRealloc.FaultReached` gets there in two calls.
- The indices sorted by `findmax` are a permutation exactly when at most one source value is zero: a
  zero does not change when it is negated, so the first zero is picked again and again
  (`FindMax.PermutationIff`, `FindMax.TwoZeros`).
- `vsnprintf` copies a string past its end if and only if the format has a `%s` or `%c` whose last precision `*` takes a
  negative argument and is followed by digits that are not all nines (`FormatOverrun.OverrunExactly`;
  `FormatOverrun.DigitAfterStar` and `FormatOverrun.NineAfterStar` are one format on each side).
- The burst bound holds for every run if and only if the burst time is at least one second or no user is allowed at all
  (`RegistryRuns.BoundExactly`, `RegistryRuns.NoBoundAtZero`).  The option parser rejects zero (rtkit-daemon.c:2169-2173),
  so a burst time of zero is reached only when a larger value is cut to `unsigned`.
- A printed number reads back, up to its end, if and only if it has no tick in it, that is without the tick flag or with
  no more digits than a group has: the tick is an underscore, and reading stops there.  Its value alone reads back also
  when it is zero (`TickText.ReadsBackExactly`, `TickText.TickStopsReading`).  With the ticks taken out every number reads
  back (`TickText.TickedReadsBack`).
- `format_int2` stores its terminator right after the whole text, so at or past `n` exactly when the text has `n`
  characters or more (`Printf.FormatInt2`).
- `memmem` never finds an empty needle; the model follows the code.

## Model

| member | source | states |
|---|---|---|
| ArenaModel.CarveInv | libc/src/malloc.c:65-101 | handing out a free block, split or whole, keeps both chains exact, the block list sorted and disjoint, sizes header multiples of at least two headers, and no two free blocks adjacent |
| ArenaModel.FreeBlockInv | libc/src/malloc.c:103-141 | releasing a block, with coalescing on both sides, keeps the same invariant |
| ArenaModel.FreeBlockIndex | libc/src/malloc.c:103-141 | the block returned by a release is free, listed in the free chain and contains the released one |
| ArenaModel.GrownInv | libc/src/malloc.c:178-199 | a chunk linked in at the place found by the backward search keeps the invariant |
| ArenaModel.FirstFit | libc/src/malloc.c:155-161 | the first block of the free chain that is large enough, or none exactly when no listed block is |
| ArenaModel.InsertionPoint | libc/src/malloc.c:184-199 | the place found by the backward search: everything after it is at or above the address, the block before it is below |
| ArenaModel.KeptPortionIsBlock | libc/src/malloc.c:277-288 | what stays at an end of a returned range is nothing or at least two headers, and reaches a page boundary |
| ArenaModel.ReturnedRange | libc/src/malloc.c:271-295 | a range worth returning is page-aligned, a whole number of pages, at least a chunk, and inside the coalesced free block |
| ArenaModel.TrimInv | libc/src/malloc.c:294-321 | cutting the range out, with any head and tail kept as free blocks, keeps the invariant |
| ArenaModel.MallocInv | libc/src/malloc.c:143-206 | every malloc keeps the whole invariant, whatever mmap answers |
| ArenaModel.FreeInv | libc/src/malloc.c:245-324 | every free of a live block keeps the whole invariant |
| ArenaRuns.MallocTally | libc/src/malloc.c:143-206 | malloc fails exactly when nothing fits and the kernel gives nothing; otherwise it adds one live block at a fresh address, of at least the request and a header and less than four headers more than the request, and the list gains exactly the bytes mapped |
| ArenaRuns.FreeTally | libc/src/malloc.c:245-324 | free removes exactly the freed block from the live ones, and the list loses exactly the bytes returned |
| ArenaRuns.ReturnedPages | libc/src/malloc.c:270-322 | what a free returns is nothing or at least a chunk of whole pages; when it is how much, ArenaExact.FreeReturns says |
| ArenaRuns.StepKeeps | libc/src/malloc.c:143-324 | one call of a run, of malloc, free or realloc, keeps the invariant, backs every live request and balances mapped against returned bytes |
| ArenaRuns.MovedKeeps | libc/src/realloc.c:39-49 | moving a block keeps all of that: the new block backs the request and the old one is gone |
| ArenaRuns.AnswerHeld | libc/src/realloc.c:15-51 | after a call the client holds what the call returned, and no longer what it gave up |
| ArenaRuns.After | libc/src/malloc.c:143-324 | after every legal run: the invariant, every live request backed by a large enough block, block sizes adding up to bytes mapped minus bytes returned |
| ArenaRuns.LivePayloadsDisjoint | libc/src/malloc.c:143-324 | in every run the bytes of distinct live requests are disjoint, with a header between them |
| ArenaExact.FreeReturns | libc/src/malloc.c:245-324 | free unmaps the pages in the middle of the coalesced span, keeping at either end what lies off a page boundary, with one page more if that is under 64 bytes, exactly if at least 65536 bytes are left between: the list shrinks by exactly those bytes and no block is left there; otherwise the whole span is one free block |
| ArenaExact.MallocFromChain | libc/src/malloc.c:65-101 | malloc takes the first block of the free chain that is large enough, whole, or just what it needs if 64 bytes or more are left over; nothing is mapped |
| ArenaExact.MallocFromKernel | libc/src/malloc.c:163-205 | with no such block the least multiple of 65536 bytes that holds the request and its header is asked for and added, and malloc fails exactly if it is not given |
| ArenaExact.Reused | libc/src/malloc.c:103-161 | a freed block that joins nothing in front of it, and of which nothing is unmapped, is what the next malloc returns that it is large enough for, whatever else is free |
| ArenaExact.ResizeStays | libc/src/realloc.c:35-37 | realloc returns the pointer it was given if and only if the block is large enough and a quarter of it is not too large |
| ArenaMemory.RingInsert | libc/src/malloc.c:84-94 | the four stores of an insertion keep a circular doubly-linked chain |
| ArenaMemory.RingRemove | libc/src/malloc.c:37-57 | the two stores of a removal keep a circular doubly-linked chain |
| ArenaRefinement.SplitRefines | libc/src/malloc.c:74-94 | after the stores of a split, memory represents the carved arena |
| ArenaRefinement.MarkRefines | libc/src/malloc.c:119-127 | after the stores that put a block in front of the free chain, memory represents the new arena |
| ArenaRefinement.JoinLeftRefines | libc/src/malloc.c:109-118 | after a merge to the left, memory represents the merged arena |
| ArenaRefinement.AbsorbRefines | libc/src/malloc.c:130-138 | after a merge to the right, memory represents the merged arena |
| ArenaRefinement.GrowRefines | libc/src/malloc.c:178-199 | after mapping and linking a chunk, memory represents the grown arena |
| ArenaRefinement.TailRefines | libc/src/malloc.c:298-313 | after the tail header is made and linked into both chains, memory represents the arena with the tail cut off |
| ArenaRefinement.ShrinkRefines | libc/src/malloc.c:315-320 | after shrinking to the head and unmapping, memory represents the shrunk arena |
| ArenaRefinement.DropRefines | libc/src/malloc.c:317-320 | after unlinking the whole block and unmapping, memory represents the arena without it |
| ArenaHeap.Heap.constructor | libc/src/malloc.c:16-28 | the head node alone represents the empty arena |
| ArenaHeap.Heap.Unlink | libc/src/malloc.c:37-57 | exactly the two links around a node change |
| ArenaHeap.Heap.MallocFromBlock | libc/src/malloc.c:65-101 | memory represents the carved arena, the pointer is the block's payload, live payloads unchanged |
| ArenaHeap.Heap.ReleaseBlock | libc/src/malloc.c:103-141 | memory represents the arena with the block released and coalesced, other live payloads unchanged |
| ArenaHeap.Heap.FindFit | libc/src/malloc.c:155-161 | walking the free chain finds the first fit of the model |
| ArenaHeap.Heap.FindPlace | libc/src/malloc.c:184-193 | walking the block list backwards finds the insertion point of the model |
| ArenaHeap.Heap.UnmapRange | libc/src/malloc.c:320 | asked only for whole pages at a page boundary, removes exactly those cells |
| ArenaHeap.Heap.Malloc | libc/src/malloc.c:143-206 | memory and result are those of the model's malloc, and no live payload is written |
| ArenaHeap.Heap.ReturnPages | libc/src/malloc.c:270-322 | memory represents the trimmed arena, live payloads unchanged; what goes to munmap is a whole number of pages at a page boundary, by ArenaExact.FreeReturns exactly the pages of the middle |
| ArenaHeap.Heap.Free | libc/src/malloc.c:245-324 | memory represents the model's arena after free, which ArenaExact.FreeReturns gives in numbers, and only the freed payload may change |
| ArenaRealloc.Move | libc/src/realloc.c:39-49 | the first bytes, as many as both blocks have, arrive in the new block and no other live block changes; it faults exactly when the inner malloc fails |
| ArenaRealloc.Resize | libc/src/realloc.c:29-50 | a pointer and a size that are not null: the block stays if it is of a good size, and otherwise the arena is that of malloc followed by free |
| ArenaRealloc.Realloc | libc/src/realloc.c:15-51 | every branch: null pointer, size zero, good size, move; contents preserved, other live blocks unchanged, the arena afterwards, the exact condition of the fault |
| ArenaRealloc.TooLarge | libc/src/realloc.c:35-46 | after malloc(1) in a chunk of its own, a realloc to a million bytes finds neither the block nor any other large enough |
| ArenaRealloc.FaultReached | libc/src/realloc.c:45-46 | a client of those two calls reaches the fault when the kernel gives no more memory |
| ArenaClient.Execute | libc/src/malloc.c:143-324 | one call of malloc, free or realloc in memory follows one step of a run and returns the model's pointer; a resized block holds the first bytes of the old one, as many as both requests have |
| ArenaClient.Continue | libc/src/malloc.c:143-324 | any stretch of any legal run, in memory: the final memory represents the model's arena, every pointer returned is the model's, and the payload of a block that the stretch does not free or resize is unchanged |
| ArenaContents.DoKeeps | libc/src/malloc.c:143-324 | what the client has stored lies inside the requests that it holds, through calls and stores |
| ArenaContents.CallReflected | libc/src/realloc.c:39-49 | after any call, memory still holds in every block of the client what the client stored, in the new block if it was moved |
| ArenaContents.Put | libc/src/malloc.c:143-324 | a store of the client into one of its blocks changes nothing it has in others and leaves the heap intact |
| ArenaContents.ServeAll | libc/src/malloc.c:143-324 | any run of calls and stores: pointers as in the model, and every block that the client holds has in it what the client last stored there |
| ArenaContents.ServeFromStart | libc/src/malloc.c:16-28 | the same from a new heap |
| StaticHeap.RepeatIsRemainder | libc/src/memcpy.c:26-28 | byte k of an overlapping forward copy is byte k modulo the distance of the source |
| StaticHeap.Memcpy | libc/src/memcpy.c:8-32 | the closed form of a forward byte copy, whichever area is above and however they overlap; nothing else changes |
| StaticHeap.Heap.Malloc | libc/src/malloc.c:208-222 | fails exactly when the request and all earlier blocks, each rounded up to 16 bytes, do not fit in 64 MB; otherwise the block is right behind them, and less than 16 bytes are lost |
| StaticHeap.OldArrives | libc/src/realloc.c:53-61 | copying new-size bytes upwards from a possibly shorter, possibly overlapping block brings over its first min(old, new) bytes |
| StaticHeap.Heap.Realloc | libc/src/realloc.c:53-61 | the old contents arrive, every earlier byte is unchanged, and all reads and writes stay in the array |
| Lamport.Preserved | benchmarks/concur15/poet/lamport.c:14-76 | every step of either thread keeps the invariant of the fast and the slow path |
| Lamport.MutualExclusion | benchmarks/concur15/poet/lamport.c:14-76 | in every reachable state of every interleaving the threads are not both in the critical section, a thread that is checking the mark finds its own, and neither failure is reachable |
| Lamport.Served | benchmarks/concur15/poet/lamport.c:14-76 | a thread that is done has been in its critical section |
| Lamport.Finished | benchmarks/concur15/poet/lamport.c:42-43 | when both are done, y is free and both flags are down |
| Lamport.NoDeadlock | benchmarks/concur15/poet/lamport.c:14-76 | in every run that is not over some thread has a step that is not one more round of a spin loop |
| Lamport.EveryRunEnds | benchmarks/concur15/poet/lamport.c:14-76 | in every run, through all restarts, at most 64 steps are not one more round of a spin loop |
| ParallelGcd.SubtractKeeps | benchmarks/tacas16/svcomp16/gcd_true-unreach-call_true-termination.c:107-108 | subtracting one number from the other keeps all common divisors |
| ParallelGcd.RightKept | benchmarks/tacas16/svcomp16/gcd_true-unreach-call_true-termination.c:97-129 | every step keeps the copies good and the larger number with the thread past its comparison, both numbers positive, and a + b plus the number of stores does not grow |
| ParallelGcd.Safe | benchmarks/tacas16/svcomp16/gcd_true-unreach-call_true-termination.c:97-129 | for all positive inputs and interleavings: never both past the comparison, both numbers positive, common divisors invariant, at most a + b - 2 stores |
| ParallelGcd.FinallyGcd | benchmarks/tacas16/svcomp16/gcd_true-unreach-call_true-termination.c:97-129 | when both threads have left, both numbers are the greatest common divisor |
| ParallelGcd.RoundCounts | benchmarks/tacas16/svcomp16/gcd_true-unreach-call_true-termination.c:97-129 | a stretch in which each thread has five turns, in any order, stores something or sees both threads leave |
| ParallelGcd.FairRunsEnd | benchmarks/tacas16/svcomp16/gcd_true-unreach-call_true-termination.c:97-129 | termination: after a + b - 1 such stretches both threads have left with the greatest common divisor |
| ParallelGcd.TwelveAndThirty | benchmarks/tacas16/svcomp16/gcd_true-unreach-call_true-termination.c:162-177 | the benchmark's assertion: 12 and 30 end as 6 |
| FileSystem.Preserved | benchmarks/basic/file_system.c:14-38 | every step of any thread keeps the whole invariant of locks, inodes, blocks and probes |
| FileSystem.BlocksDistinct | benchmarks/basic/file_system.c:14-38 | in every run no two inodes hold the same block, and an inode entry names a busy block |
| FileSystem.ExactlyOneOwner | benchmarks/basic/file_system.c:14-38 | a busy block has exactly one owning inode, except while the thread holding its lock is between its two writes, when no entry names it yet |
| FileSystem.AllServed | benchmarks/basic/file_system.c:14-38 | a finished thread's inode has a block |
| FileSystem.NoDeadlock | benchmarks/basic/file_system.c:20-35 | while some thread is not done, some thread can move |
| FileSystem.SomeBlockFree | benchmarks/basic/file_system.c:22-33 | pigeonhole: with no more inodes in use than blocks, a thread still looking leaves a block free |
| FileSystem.ProbeBound | benchmarks/basic/file_system.c:22-33 | under that condition no thread finds as many as `blocks` busy blocks, so it goes through its loop at most that often, whatever others take meanwhile |
| FileSystem.FirstFreeBlock | benchmarks/basic/file_system.c:22-33 | in every run the block of inode i is 2 * i + k modulo the number of blocks, for some k, and all of 2 * i to 2 * i + k - 1 are busy |
| FileSystem.HomeTaken | benchmarks/basic/file_system.c:22-33 | an inode that did not get block 2 * i lost it to another inode in use |
| FileSystem.AloneGetsHome | benchmarks/basic/file_system.c:18-33 | threads that all use one inode, whatever their number and order, give it block 2 * (tid % inodes) modulo the number of blocks |
| FileSystem.EveryRunEnds | benchmarks/basic/file_system.c:14-38 | under that condition all threads together take at most threads * (3 * blocks + 5) steps that are not waiting |
| BoundedQueue.ProducerKeeps | benchmarks/basic/findmax.c:22-40 | every step of an insertion keeps: taken followed by queued equals inserted |
| BoundedQueue.ConsumerMoves | benchmarks/basic/findmax.c:42-62 | every step of an extraction, the shifting loop included, moves items without losing, duplicating or reordering any |
| BoundedQueue.InOrder | benchmarks/basic/findmax.c:22-62 | in every interleaving, whenever the mutex is free, taken followed by q[0..qsiz) equals what was inserted, and the size stays within bounds |
| BoundedQueue.AllDelivered | benchmarks/basic/findmax.c:88-107 | when the consumer has finished it has stored exactly the produced items, in order |
| BoundedQueue.CanFinish | benchmarks/basic/findmax.c:22-107 | with a capacity of at least one, every run, wherever it has got to, can be continued so that everything is delivered |
| BoundedQueue.NoRoom | benchmarks/basic/findmax.c:27-35 | with a capacity of zero nothing ever is |
| FindMax.FindMaxIdx | benchmarks/basic/findmax.c:72-83 | returns the first index of a largest value and negates exactly that value |
| FindMax.Produce | benchmarks/basic/findmax.c:88-97 | the producer's loop picks what the model picks |
| FindMax.PicksDescend | benchmarks/basic/findmax.c:72-97 | the picks list the original values in nonincreasing order |
| FindMax.PermutationIff | benchmarks/basic/findmax.c:72-97 | for nonnegative values the picks are a permutation of the indices if and only if at most one value is zero |
| FindMax.TwoZeros | benchmarks/basic/findmax.c:72-83 | two zeros: the first is picked twice, the second never |
| FindMax.Sorts | benchmarks/basic/findmax.c:22-107 | end to end, in every interleaving: the stored indices list the values in nonincreasing order and are a permutation exactly under that condition |
| RacingFib.Preserved | benchmarks/tacas16/fib-safe.c:10-35 | every step keeps: after n stores both values are at most Fib(n + 2), their sum at most Fib(n + 3), and stale copies are no larger |
| RacingFib.Bounded | benchmarks/tacas16/fib-safe.c:10-50 | for every number of rounds and every interleaving neither value exceeds Fib(2 * rounds + 2) |
| RacingFib.BoundIsTight | benchmarks/tacas16/fib-unsafe.c:9-45 | the strictly alternating run finishes exactly at the bound |
| RacingFib.FiveRounds | benchmarks/tacas16/fib-safe.c:49-50 | five rounds never exceed 144, and some run reaches it |
| Printf.Emit | libc/src/vsnprintf.c:42 | one more character of output, stored only if it fits |
| Printf.Pad | libc/src/vsnprintf.c:107-113 | a padding loop emits exactly the missing characters |
| Printf.LoopIsGrouped | libc/src/vsnprintf.c:88-158 | the right-to-left loop that interleaves digits and ticks writes the digits in groups |
| Printf.TicksCount | libc/src/vsnprintf.c:95-96 | the number of ticks counted in advance is the number written |
| Printf.WriteNumber | libc/src/vsnprintf.c:136-158 | the right-to-left loop leaves in the buffer exactly the part of the number that fits |
| Printf.FormatInt | libc/src/vsnprintf.c:45-167 | the result is the length of the whole text whatever the bound; the buffer shows exactly what fits of it and nothing else changes |
| Printf.FormatInt2 | libc/src/vsnprintf.c:501-509 | the unpadded number, cut at n, and a terminator right after the whole text |
| Vsnprintf.EmitField | libc/src/vsnprintf.c:415-444 | a string conversion emits the cut and padded string, or finds that the copy would not stop at the end of the string |
| Vsnprintf.EndDirective | libc/src/vsnprintf.c:287-485 | the character that ends a directive performs its conversion, or runs over; the conversions are those of the Conversions rows |
| Vsnprintf.ScanDirective | libc/src/vsnprintf.c:207-286 | a character inside a directive changes the directive as the machine does, or is looked at again in a later state |
| Vsnprintf.Terminate | libc/src/vsnprintf.c:490-494 | the terminator goes after the output or into the last cell |
| Vsnprintf.Vsnprintf | libc/src/vsnprintf.c:169-497 | for every format, argument list and bound: the result, what %n stores and whether a copy runs past its string do not depend on the bound; the buffer holds the first min(n - 1, length) characters and a terminator; nothing else is written |
| FormatMeaning.SpelledMeans | libc/src/vsnprintf.c:193-297 | every directive, with flags in any order and number, digits and stars for width and precision, and any length modifiers, performs exactly the conversion it spells, with the arguments its stars take; what is then printed, the Conversions rows say |
| FormatMeaning.FormatPrints | libc/src/vsnprintf.c:193-488 | a whole format of literal text and directives prints the text as it is and every directive as spelled, each with the next arguments, up to an overrun |
| FormatMeaning.PiecesWrite | libc/src/vsnprintf.c:193-488 | any string without a terminator is literal text and directives: taken apart and written down again it is the same |
| FormatMeaning.EveryFormat | libc/src/vsnprintf.c:193-488 | for every format and any arguments the machine does what the pieces of the format say |
| FormatMeaning.CanonicalMeans | libc/src/vsnprintf.c:207-286 | every set of flags, width, precision and rank is the meaning of some directive |
| FormatMeaning.PrintedReadsBack | libc/src/vsnprintf.c:169-497 | an argument printed with any integer directive, of any rank, reads back as what the directive fetches of it, with reading stopping right behind the number, if and only if the number has no tick in it |
| Conversions.IntegerPrinted | libc/src/vsnprintf.c:45-167 | every %d, %i, %u, %o, %x, %X, %p and %P with any flags, width, precision and one length modifier prints the number congruent to its argument modulo 2^8, 2^16, 2^32 or 2^64 that lies in the range of its signed or unsigned type: sign, prefix, digits of base 10, 8 or 16 (as many as the precision asks, no other zeros in front), groups and padding |
| Conversions.IntegerReadsBack | libc/src/vsnprintf.c:299-394 | without ticks that number reads back in base 10, 8 or 16 |
| Conversions.UnpaddedIs | libc/src/vsnprintf.c:501-509 | format_int2 prints the value in the base asked for, with a minus sign if it is told the value is signed and it is negative, and without zeros in front |
| Conversions.GroupedAt | libc/src/vsnprintf.c:88-158 | ticks stand after every third or fourth digit counted from the right, and nowhere else |
| Conversions.WidthSpelled | libc/src/vsnprintf.c:234-263 | a width or precision in decimal digits is that number |
| Conversions.StarSpelled | libc/src/vsnprintf.c:237-258 | a star takes the next argument: its magnitude as a width, left-justified if it is negative; as a precision itself, or none if it is negative |
| Conversions.TextPrinted | libc/src/vsnprintf.c:403-445 | %s and %c print the string, (null) or the character, cut to the precision and padded to the width, unless the precision is below -1 |
| Conversions.FloatPrinted | libc/src/vsnprintf.c:396-402 | %f takes an argument and prints (float) |
| Conversions.CountStored | libc/src/vsnprintf.c:447-480 | %n stores how many characters were printed before it, in an integer of the type that the modifier names, and prints nothing |
| Conversions.OtherPrinted | libc/src/vsnprintf.c:482-484 | any other character that ends a directive, such as a percent sign, prints itself and takes no argument |
| FormatOverrun.SinksExactly | libc/src/vsnprintf.c:252-263 | a precision ends below -1 if and only if its last star takes a negative argument and the digits after it are not all nines |
| FormatOverrun.OverrunExactly | libc/src/vsnprintf.c:415-436 | a copy runs past the end of its string if and only if the format has a %s or %c with such a precision |
| FormatOverrun.FormatDefined | libc/src/vsnprintf.c:252-263 | a format in which no star is followed by a digit never does |
| FormatOverrun.DigitAfterStar | libc/src/vsnprintf.c:252-263 | %.*5s does when its first argument is negative |
| FormatOverrun.NineAfterStar | libc/src/vsnprintf.c:252-263 | %.*9s does not, and prints the whole string |
| RoundTrip.FoldDigits | libc/src/vsnprintf.c:152-158 | the printed digits, after any zeros, are worth the value |
| RoundTrip.PrintThenParse | libc/src/strntoumax.c:12-77 | for every 64-bit value, base 8, 10 or 16, and any width, precision and flags but tick, reading the output with the same base gives the value and stops right after the last digit |
| TickText.ErasedGrouped | libc/src/vsnprintf.c:88-158 | taking the ticks out of a grouped number gives back its digits |
| TickText.ErasedFormatted | libc/src/vsnprintf.c:45-167 | a ticked number without its ticks is the plain number in a field narrower by as many characters |
| TickText.TickedReadsBack | libc/src/strntoumax.c:12-77 | with the tick flag too, the value reads back once the ticks are taken out, and reading stops right after the last digit |
| TickText.GroupedFirst | libc/src/vsnprintf.c:88-158 | a number of more than one group starts with its first group and a tick |
| TickText.ReadsToTick | libc/src/strntoumax.c:12-77 | of a number with a tick, the digits before the first tick are read and reading stops at it |
| TickText.ReadsBackExactly | libc/src/strntoumax.c:12-77 | a printed number reads back, value and end, if and only if it has no tick; the value alone if and only if it has no tick or is zero |
| TickText.TickStopsReading | libc/src/strntoumax.c:12-77 | 1234 with the tick flag is printed as 1_234 and reads back as 1 |
| TickText.FormattedWidth | libc/src/vsnprintf.c:98-164 | an integer is printed exactly as wide as asked, or as wide as it needs |
| TickText.FieldWidth | libc/src/vsnprintf.c:415-444 | a string conversion whose copy ends is the first characters of the string, as many as the precision allows, padded on the right or the left to the width |
| NumberText.Digit | libc/src/vsnprintf.c:51-60 | the digit tables: decimal digits, then letters of the asked case |
| Strntoumax.ReadDigits | libc/src/strntoumax.c:67-71 | the digit loop accumulates the leading digits modulo 2^64 and stops at the first other character |
| Strntoumax.Strntoumax | libc/src/strntoumax.c:25-77 | value and end position are those of the text: spaces, sign, prefix and digits |
| Reading.NumberRead | libc/src/strntoumax.c:25-77 | white space, a sign, a prefix and digits: base 0 reads 0x in base 16, 0 in base 8 and anything else in base 10, base 16 skips 0x, and the value is that of the digits, in either case, modulo 2^64, negated after a minus sign; reading stops at the first character that is no digit of the base |
| SortModel.NewGap | libc/src/qsort.c:12-21 | the new gap is ten thirteenths of the old one, rounded down, but 11 instead of 9 or 10 and never less than one; it is smaller than any gap of two or more |
| SortModel.InversionRemoved | libc/src/qsort.c:40-43 | swapping two neighbours in the wrong order removes exactly one inversion |
| SortModel.NothingToSwap | libc/src/qsort.c:34-45 | a pass with gap one that swaps nothing has found the array sorted |
| CombSort.Memswap | libc/src/memswap.c:10-24 | the two areas exchange their bytes and nothing else changes |
| CombSort.ElemsExchanged | libc/src/memswap.c:10-24 | exchanging the bytes of two elements swaps the elements and leaves the others alone |
| CombSort.CompareSwap | libc/src/qsort.c:38-43 | two elements are swapped exactly when they compare greater |
| CombSort.Pass | libc/src/qsort.c:36-44 | a pass permutes; without a swap the array is ordered across the gap; with gap one a swap removes inversions |
| CombSort.Qsort | libc/src/qsort.c:23-46 | for every array and every total preorder: it terminates and leaves a sorted permutation of the elements, touching nothing else |
| Memmem.Memcmp | libc/src/memcmp.c:7-19 | zero exactly when the bytes agree, otherwise the first difference |
| Memmem.SkipSafe | libc/src/memmem.c:24-42 | the positions skipped after a look at the second byte hold no occurrence |
| Memmem.SearchLong | libc/src/memmem.c:24-43 | the leftmost occurrence of a needle of two bytes or more, or none exactly when there is none |
| Memmem.Search | libc/src/memmem.c:14-52 | the leftmost occurrence of a nonempty needle, or none exactly when there is none; never an empty needle |
| RegistryModel.AddUserOk | benchmarks/debian/rtkit-0.10/rtkit-daemon.c:380-395 | a new user keeps counters, limits and unique keys |
| RegistryModel.AddProcessOk | benchmarks/debian/rtkit-0.10/rtkit-daemon.c:410-425 | a new process keeps counters, limits and unique keys |
| RegistryModel.AddThreadOk | benchmarks/debian/rtkit-0.10/rtkit-daemon.c:440-454 | a new thread keeps counters, limits and unique keys |
| RegistryModel.SelectFilters | benchmarks/debian/rtkit-0.10/rtkit-daemon.c:516-594 | what a collection keeps is an order-preserving filter: the kept places in increasing order, and all of them |
| RegistryModel.CollectedOk | benchmarks/debian/rtkit-0.10/rtkit-daemon.c:516-594 | collecting keeps counters exact, limits and unique keys at every level |
| Collection.ThreadsCollected | benchmarks/debian/rtkit-0.10/rtkit-daemon.c:516-541 | a thread is in the registry after a collection if and only if it was there and is relevant |
| Collection.ProcessesCollected | benchmarks/debian/rtkit-0.10/rtkit-daemon.c:543-569 | a process is if and only if it has a relevant thread |
| Collection.UsersCollected | benchmarks/debian/rtkit-0.10/rtkit-daemon.c:571-594 | a user is, with the same burst record, if and only if the user has a relevant thread or is in a burst |
| Collection.UsersInOrder | benchmarks/debian/rtkit-0.10/rtkit-daemon.c:571-594 | the users left are in the order in which they were |
| Collection.ThreadsInOrder | benchmarks/debian/rtkit-0.10/rtkit-daemon.c:516-541 | so are the threads left of a process |
| Entries.UserEntered | benchmarks/debian/rtkit-0.10/rtkit-daemon.c:371-399 | of all other calls only a lookup adds a user: the one asked for, if there are fewer than the limit and memory is given |
| Entries.ProcessEntered | benchmarks/debian/rtkit-0.10/rtkit-daemon.c:401-429 | the same for a process, in the list of the user it was asked for |
| Entries.ThreadEntered | benchmarks/debian/rtkit-0.10/rtkit-daemon.c:431-458 | the same for a thread, in the list of the process it was asked for |
| NodeMemory.ListPushed | benchmarks/debian/rtkit-0.10/rtkit-daemon.c:391-392 | a new node whose successor is the old head is in front of the list |
| NodeMemory.ListCut | benchmarks/debian/rtkit-0.10/rtkit-daemon.c:525-529 | freeing a node and storing its successor in its predecessor, or in the head, leaves the list without it |
| RegistryMemory.ProcessRewritten | benchmarks/debian/rtkit-0.10/rtkit-daemon.c:446-452 | rewriting one process in its node leaves every other process and its threads as they were |
| RegistryMemory.UserRewritten | benchmarks/debian/rtkit-0.10/rtkit-daemon.c:416-424 | the same for a user and everything below the others |
| RegistrySteps.ThreadCut | benchmarks/debian/rtkit-0.10/rtkit-daemon.c:525-535 | the stores that drop a thread: the list without it, only its predecessor or the process and the user's counter changed |
| RegistrySteps.ProcessCut | benchmarks/debian/rtkit-0.10/rtkit-daemon.c:553-563 | the stores that drop a process without threads: the list without it and nothing outside the user changed |
| RegistrySteps.UserCut | benchmarks/debian/rtkit-0.10/rtkit-daemon.c:581-588 | the stores that drop a user without processes: memory holds the registry without the user and nothing else |
| RegistrySteps.AfterUser | benchmarks/debian/rtkit-0.10/rtkit-daemon.c:577-578 | sweeping one user's processes leaves memory holding the registry with that user swept |
| RegistryGrowth.ProcessAdded | benchmarks/debian/rtkit-0.10/rtkit-daemon.c:416-425 | the stores of a new process: memory holds the registry with it in front of the user's list |
| RegistryGrowth.ThreadAdded | benchmarks/debian/rtkit-0.10/rtkit-daemon.c:446-454 | the stores of a new thread: memory holds the registry with it in front of the process's list |
| Sweeps.SweepNext | benchmarks/debian/rtkit-0.10/rtkit-daemon.c:521-537 | dropping an element, or replacing it by what is kept of it, moves a sweep in place one element on |
| Sweeps.CollectingNext | benchmarks/debian/rtkit-0.10/rtkit-daemon.c:576-590 | the same for the registry and its counters, one user at a time |
| Registry.Registry.FindUser | benchmarks/debian/rtkit-0.10/rtkit-daemon.c:371-399 | walking the list finds the existing user's node; otherwise -EBUSY, or -ENOMEM, with nothing stored, or a new node in front in the memory malloc gave |
| Registry.Registry.FindProcess | benchmarks/debian/rtkit-0.10/rtkit-daemon.c:401-429 | the same for a process of a user, in the user's list |
| Registry.Registry.FindThread | benchmarks/debian/rtkit-0.10/rtkit-daemon.c:431-458 | the same for a thread of a process, in the process's list |
| Registry.Registry.VerifyBurst | benchmarks/debian/rtkit-0.10/rtkit-daemon.c:352-369 | grants exactly if the user's burst is over or has had fewer grants than the limit, says at which reading of the clock, and stores only into the user's burst record: a new burst, or one more grant |
| Registry.Registry.FreeProcess | benchmarks/debian/rtkit-0.10/rtkit-daemon.c:324-333 | exactly the process's node and the nodes of its threads are freed |
| Registry.Registry.FreeUser | benchmarks/debian/rtkit-0.10/rtkit-daemon.c:335-344 | exactly the user's node and everything below it is freed |
| Registry.Registry.DropThread | benchmarks/debian/rtkit-0.10/rtkit-daemon.c:525-535 | the thread's node is freed and its neighbours relinked |
| Registry.Registry.DropProcess | benchmarks/debian/rtkit-0.10/rtkit-daemon.c:553-563 | the same for a process |
| Registry.Registry.DropUser | benchmarks/debian/rtkit-0.10/rtkit-daemon.c:581-588 | the same for a user |
| Registry.Registry.ThreadGc | benchmarks/debian/rtkit-0.10/rtkit-daemon.c:516-541 | in the list of a process exactly the relevant threads are left, in order, the others freed; the process's pointer and both counters follow, nothing else changes |
| Registry.Registry.ProcessGc | benchmarks/debian/rtkit-0.10/rtkit-daemon.c:543-569 | in the list of a user the processes with relevant threads are left, in order, the others freed; nothing outside the user changes, counters exact, and the assertions hold; Collection.ProcessesCollected names them |
| Registry.Registry.UserGc | benchmarks/debian/rtkit-0.10/rtkit-daemon.c:571-594 | memory afterwards holds the filtered registry and no other node: threads, then empty processes, then idle users; everything kept is in the node where it was, no node is new, counters exact, and the assertions hold; the Collection rows say who is left |
| Registry.Registry.Release | benchmarks/debian/rtkit-0.10/rtkit-daemon.c:2373-2376 | at exit every node is freed, and freed once |
| RegistryRuns.StepOk | benchmarks/debian/rtkit-0.10/rtkit-daemon.c:352-594 | every call keeps counters, limits and unique keys |
| RegistryRuns.AlwaysOk | benchmarks/debian/rtkit-0.10/rtkit-daemon.c:352-594 | after any sequence of calls, for any answers of the system, all counters equal the real lengths and sums, limits are respected, keys are unique |
| RegistryRuns.RecordCollected | benchmarks/debian/rtkit-0.10/rtkit-daemon.c:576-591 | collecting keeps a user's burst record or drops it outside its burst |
| RegistryRuns.BurstBound | benchmarks/debian/rtkit-0.10/rtkit-daemon.c:346-399 | with a nondecreasing clock a user is granted at most 2 * (max + 1) requests in any closed interval of the burst time, even when the record is collected and made again |
| RegistryRuns.NoBoundAtZero | benchmarks/debian/rtkit-0.10/rtkit-daemon.c:346-359 | with a burst time of zero and room for a user there is a run that exceeds the bound |
| RegistryRuns.BoundExactly | benchmarks/debian/rtkit-0.10/rtkit-daemon.c:346-399 | the bound holds for every run, user and window if and only if the burst time is at least one second or no user is allowed |
| BurstService.BurstServed | benchmarks/debian/rtkit-0.10/rtkit-daemon.c:346-399 | in every run, of the requests that a user makes in a burst, the first ones are granted, as many as the limit allows, and no others, whatever other users do and however often the registry is collected; a burst starts when the user is entered or asks after the last one, and that request is granted too |
| RegistryClient.Perform | benchmarks/debian/rtkit-0.10/rtkit-daemon.c:352-594 | a call on the registry in memory is the model's step, wherever malloc finds memory, and grants what the model grants |
| RegistryClient.PerformAll | benchmarks/debian/rtkit-0.10/rtkit-daemon.c:352-594 | any run on the registry in memory, with any allocator, follows the model and grants exactly the model's requests |
| RegistryClient.PerformBounded | benchmarks/debian/rtkit-0.10/rtkit-daemon.c:346-399 | so what is granted in memory is bounded in every window |
| BurstLimiter.Verified | benchmarks/debian/rtkit-0.10/rtkit-daemon.c:352-369 | granting or denying keeps the limiter's invariant, in particular the bound on every window; BurstService.BurstServed says which requests are granted |
| BurstLimiter.Created | benchmarks/debian/rtkit-0.10/rtkit-daemon.c:385-393 | a new record keeps the limiter's invariant |
| BurstLimiter.Removed | benchmarks/debian/rtkit-0.10/rtkit-daemon.c:580-588 | dropping a record outside its burst keeps the limiter's invariant |

## Left out

- The system is not modelled: system calls, stdio, signals, D-Bus, polkit and reading `/proc` have no logic here or are not shown; mmap, the clock, the thread oracle and the availability of memory are parameters.
- `lookup_client` of RealtimeKit: its parentheses turn a failed `find_user` into success; the lookups it calls are modelled one by one.
- sbrk mode, the debug marking of blocks, and `calloc`.
- Integer widths: sizes, widths, precisions, counters and lengths are unbounded, so nothing is said where the C code's own arithmetic on them would overflow; uintmax_t values, their wrap-around and the narrowing of arguments by rank are modelled exactly.
- ArenaHeap.Heap.Malloc: memory is a map of 32-byte cells, the unit in which headers and sizes are counted; bytes inside a payload cell are not told apart.
- ArenaContents.ServeAll: the client's stores are of whole cells, at multiples of the cell size from the pointer.
- ArenaRealloc.Realloc: copies cell by cell, which is exact because the code rounds the size to whole cells before copying.
- Vsnprintf.Vsnprintf: what a copy past the end of a string reads is not modelled, only that it happens; the stores of %n are returned as a list and are assumed not to alias the buffer; a floating-point argument is consumed and printed as "(float)", as the code does.
- Conversions.IntegerPrinted: length modifiers are none, hh, h, l, ll, j, z, t, L or q; of other sequences, such as hl, FormatMeaning.SpelledMeans says what they add up to.
- Printf.FormatInt: bases are 2 to 16, which is what the digit tables hold.
- FindMax.Sorts: sources are nonnegative, as the program itself asserts.
- BoundedQueue.InOrder: a statement on data that the mutex protects is one step; spinning is allowed, so it says nothing about how long an insertion takes.
- Lamport.EveryRunEnds: counts steps that are not spinning; how long a thread spins is up to the scheduler.
- FileSystem.ProbeBound: starts from free locks and zero arrays; the program's own initialisation loop is not modelled.
- `vsscanf` (disabled in the code), `fnmatch`, the environment functions, `strstr`, `indexer.c` and the small benchmarks (Dekker, Peterson, Szymanski and the like): outside this project, which is about the two heaps, printing and reading numbers, sorting and searching, the concurrent programs above and the registry.
