# A verified model of the distributed operating system simulator

Four programs simulate an operating system: `cpu` with its TLB, `memoria` with paged memory, `kernel`
with the scheduler, and `entradasalida` with the interfaces, one of which keeps the DialFS file system.
This project models their stateful cores in Dafny and proves what they are for: that paged memory is a
flat array per process, that the file system keeps every byte, that the scheduler loses no process and
no place, and that the byte streams between the programs carry what they were given.

Each core that the programs change in place is a class whose methods follow the C routine step by step
and are proved against a function of the state before; the lemmas are about those functions. Where the
code does not do what it is meant to do, the model does what the code does, a lemma gives an input on
which it goes wrong, and another lemma says exactly when it goes right.

| part | modules |
|---|---|
| arithmetic | `Arith` |
| paged memory | `Paging` and `Tiling` (ranges and segments), `TlbPolicy` (FIFO and LRU as lists), `Mmu` (the TLB and the translation), `Frames` and `FrameSizes` (frame allocation), `FlatMemory` (bytes), `UserMemory` (memoria's state), `Wire` (cpu-memoria streams), `Layout` (where the fields of all streams lie), `Instructions` (MOV_IN, MOV_OUT, COPY_STRING, end to end), `PagedMachine` (whole programs without a TLB in their meaning), `FlatMachine` (the same on flat arrays), `StaleEntries` (where the TLB falls short) |
| DialFS | `Bits`, `FileSystem` (the invariant), `FileOps` (create, delete, shrink, grow, move), `FileData` (contents), `FileOrder`, `Memmoves`, `Compaction`, `Repacking` (compaction), `Truncation`, `Placement` and `DiskBytes` (where TRUNCATE leaves the file, the bitmap and every byte), `FsRuns`, `FreeBlocks` (when there is room), `FileMap` (the disk as a volume of names and bytes), `DialFs` (the handlers), `DiskRuns` (runs of them) |
| scheduler | `Kernel` (the routines), `KernelInvariant`, `KernelRuns` (steps and runs), `KernelAdmission` (the two waits of the long-term thread), `KernelOrder`, `KernelEffects` (what an end gives back), `KernelBystanders` (what a step leaves alone), `KernelOutcomes` (what becomes of the process of a step), `KernelDegree`, `KernelLimits`, `Scheduler` (the routines in place) |
| relayed requests | `Relay` |

Reading notes.

- A frame list, a bitmap and the blocks are arrays; a `t_list` or a queue is a sequence that is reassigned;
  the records in a list (processes, files, PCBs, resources) are values.
- The clock, the network, logs, sleeps, `malloc` and the configuration are parameters or are not there.
  A handler is one atomic step; the interfaces answer over FIFO channels, one request at a time.
- `cpu` and `memoria` use the same page size. TAM_MEMORIA is a C `int`, so physical addresses and sizes stay below
  2^31 and the 32-bit sums of the translation do not wrap for ranges that lie within a process.
- DialFS: BLOCK_COUNT is a multiple of 8, and BLOCK_SIZE * BLOCK_COUNT fits an `int`. A bit past the end of the
  bitmap is whatever lies in the mapped page: the parameter `beyond`. Marking such a bit changes no block.
- An empty file is meant to keep one block (`obtener_bloques_ocupados`); the file-system invariant `FsOk` says so.
- Scheduler: a resource or an interface is its position in its list, and interface names are distinct.
  `Account` holds what the proofs keep track of and no routine reads.

## Model

| member | source | states |
|---|---|---|
| `Paging.CountPages` | cpu/src/tlb.c:279-302 | the counting loop answers the number of pages that the range touches, for an empty range too |
| `Paging.PageCountFormula` | cpu/src/tlb.c:279-302 | for a range of at least one byte that number is `(la+n-1)/ps - la/ps + 1` |
| `Paging.CountInFrame` | cpu/src/tlb.c:138-144 | the hit branch counts the bytes up to the end of the frame or of the range |
| `Paging.RunInFrame` | cpu/src/tlb.c:167-172 | the miss branch stops at the same byte |
| `Paging.SegmentsCover` | cpu/src/tlb.c:107-277 | laid out byte by byte, the segments are the images of the logical bytes, in order, each once |
| `Paging.SegmentsFit` | cpu/src/tlb.c:107-277 | each segment lies inside one frame, is not empty unless the range is, and there is one per page touched |
| `Paging.InRangeIsWithinSize` | cpu/src/tlb.c:107-277 | a range is translatable exactly when its last byte is below the bytes of the page table |
| `TlbPolicy.LruHoldsMostRecent` | cpu/src/tlb.c:61-105 | after any lookups LRU holds exactly the k most recently used keys, in order of use |
| `TlbPolicy.LruMembership` | cpu/src/tlb.c:61-105 | a key is held if and only if it was used and fewer than k others were used since |
| `TlbPolicy.LruInclusion` | cpu/src/tlb.c:61-105 | a larger LRU TLB holds everything that a smaller one holds |
| `TlbPolicy.LruMissesShrink` | cpu/src/tlb.c:61-105 | a larger LRU TLB never misses more often than a smaller one |
| `TlbPolicy.FifoHoldsLastMisses` | cpu/src/tlb.c:46-59 | FIFO holds exactly the last k missed keys, in miss order |
| `Mmu.Tlb.Search` | cpu/src/tlb.c:31-44 | a hit exactly when the key is held, with the frame of the page table; a hit is one LRU use and no FIFO step, and under a clock that never goes back the stamps stay in the order of use |
| `Mmu.Tlb.ReplaceFifo` | cpu/src/tlb.c:46-59 | the shift drops the oldest key and appends the new one |
| `Mmu.Tlb.FindVictim` | cpu/src/tlb.c:61-78 | the scan finds the first slot with the least stamp |
| `Mmu.VictimIsOldest` | cpu/src/tlb.c:61-78 | under a strictly increasing clock that slot is the least recently used key |
| `Mmu.HitIsLruStep` | cpu/src/tlb.c:31-44 | restamping a slot is one LRU step |
| `Mmu.ReplaceIsLruStep` | cpu/src/tlb.c:61-78 | overwriting the victim is one LRU step |
| `Mmu.Tlb.ReplaceLru` | cpu/src/tlb.c:61-78 | replacement takes the slot of the leftmost least stamp and keeps the entries right, under a strictly increasing clock the LRU order, and under one that never goes back the order of the stamps |
| `Mmu.Tlb.Update` | cpu/src/tlb.c:80-105 | insertion keeps the keys distinct and the entries right; FIFO order is kept whatever the clock does, LRU order under one that increases; a full LRU TLB loses the leftmost key with the least stamp under any clock |
| `Mmu.Tlb.Obtain` | cpu/src/tlb.c:121-160 | through the TLB or around it, the frame is that of the page table; a hit exactly when the key was held |
| `Mmu.Tlb.FirstSegment` | cpu/src/tlb.c:116-181 | the part before the loop yields the first segment and one lookup |
| `Mmu.Tlb.Pass` | cpu/src/tlb.c:189-256 | one pass of the outer loop adds the next segment if one is missing, with one lookup, and otherwise nothing |
| `Mmu.Tlb.Passes` | cpu/src/tlb.c:187-258 | the loop ends with the range covered and one lookup for each further page |
| `Mmu.Tlb.Translate` | cpu/src/tlb.c:107-277 | the segment list is the tiling of the range for every TLB size, policy and clock; each page is looked up once, in order; entries of live processes stay right; a FIFO TLB holds the last missed keys in miss order whatever the clock does, an LRU one the most recent keys if the clock increases, and stamps in the order of use if it never goes back |
| `StaleEntries.ShrunkAgreesIff` | memoria/src/manejo_memoria.c:122-150 | after a shrink the TLB is still right exactly when it holds none of the pages that the old table, the old size and the new one say are released |
| `StaleEntries.StaleEntryMisleads` | memoria/src/manejo_memoria.c:122-150 | a process grows, is looked up, shrinks, another one grows and it grows again: the entry, right when made, now sends an address in range to a frame of the other process |
| `StaleEntries.StaleFrameIsFree` | memoria/src/manejo_memoria.c:122-150 | the frame of an entry left over is free for another process |
| `StaleEntries.EvictsLeastRecentIff` | cpu/src/tlb.c:61-78 | under a clock that may stand still, the victim is the least recently used key exactly when no slot before that one has its stamp |
| `StaleEntries.EvictsMostRecent` | cpu/src/tlb.c:31-105 | three lookups within one tick of the clock leave a TLB whose victim is the most recently used key |
| `Frames.AddPagesEffect` | memoria/src/manejo_memoria.c:95-106 | growth keeps the ownership invariant and changes one table only |
| `Frames.AddPagesAppends` | memoria/src/manejo_memoria.c:95-106 | growth appends that many frames to the table, all of them free before |
| `Frames.AddPagesLowest` | memoria/src/manejo_memoria.c:177-191 | first fit: page i of a growth is the free frame with exactly i free frames before it |
| `Frames.DropPagesEffect` | memoria/src/manejo_memoria.c:122-150 | shrinking keeps the invariant, changes one table only and frees that many frames |
| `Frames.DropPagesTail` | memoria/src/manejo_memoria.c:122-150 | the frames that stay are the first ones of the table |
| `Frames.DropAllEffect` | memoria/src/manejo_memoria.c:10-34 | termination empties the table and frees all its frames |
| `Frames.TagsArePages` | memoria/src/manejo_memoria.c:153-198 | as many frames are tagged with a process as its table has entries |
| `Frames.FramesConserved` | memoria/src/manejo_memoria.c:153-198 | free frames and the lengths of all tables add up to the number of frames |
| `Frames.RunKeepsOwned` | memoria/src/manejo_memoria.c:10-198 | over any run of starts, resizes and finishes: a frame is tagged with p exactly if it is in the table of p, once, and frames are conserved |
| `FrameSizes.GrownSize` | memoria/src/manejo_memoria.c:80-116 | growth answers OUT_OF_MEMORY exactly when fewer frames are free than it computes, and then changes nothing |
| `FrameSizes.ResizedAnswers` | memoria/src/manejo_memoria.c:51-63 | the answer is MISMO_TAMANIO exactly for an equal size, OUT_OF_MEMORY exactly if the size grows and fewer frames are free than the difference takes, else RESIZE_OK, for a shrink that finds the pages it needs; only RESIZE_OK changes anything: the size, and the number of pages by the difference in pages |
| `FrameSizes.ShrunkSize` | memoria/src/manejo_memoria.c:122-150 | shrinking cuts the computed number of pages off the end of one table |
| `FrameSizes.GrownCovers` | memoria/src/manejo_memoria.c:80-116 | growth keeps the pages enough for the size |
| `FrameSizes.GrownTightIff` | memoria/src/manejo_memoria.c:80-116 | growth gives no page too many exactly when the slack of the old size and of the difference stay below a page |
| `FrameSizes.GrowthWastesPages` | memoria/src/manejo_memoria.c:80-116 | a new process that grows to 1 and then to 2 bytes has two pages |
| `FrameSizes.ShrunkCoversIff` | memoria/src/manejo_memoria.c:122-150 | a shrunk process keeps enough pages exactly under the corresponding condition on its new size |
| `FrameSizes.ShrinkLosesBytes` | memoria/src/manejo_memoria.c:128-128 | from 40 to 33 bytes with 32-byte pages, one page is left for two |
| `FrameSizes.WholeRun` | memoria/src/manejo_memoria.c:51-150 | with sizes that are multiples of the page, no release runs out of pages, and every table has exactly the pages of its size, over any run |
| `FrameSizes.GrowingRunCovers` | memoria/src/manejo_memoria.c:51-116 | over any run that never shrinks a process, every table has at least the pages of its size |
| `FrameSizes.ShrinkRunsOut` | memoria/src/manejo_memoria.c:122-150 | a new process of one page that shrinks byte by byte asks at the second byte for a page of an empty table |
| `UserMemory.UserMemory.constructor` | memoria/src/main.c:60-87 | all frames free, memory zeroed |
| `UserMemory.UserMemory.CountFree` | memoria/src/manejo_memoria.c:153-171 | counts the free frames |
| `UserMemory.UserMemory.FindFree` | memoria/src/manejo_memoria.c:177-191 | finds the first free frame, and one is there when the count is not zero |
| `UserMemory.UserMemory.Release` | memoria/src/manejo_memoria.c:193-198 | frees one frame |
| `UserMemory.UserMemory.Grow` | memoria/src/manejo_memoria.c:80-116 | the loop yields the grown state and its answer; the frame search never fails inside it |
| `UserMemory.UserMemory.Shrink` | memoria/src/manejo_memoria.c:122-150 | the loop yields the shrunk state, or takes a page from an empty table, exactly when the difference in pages exceeds the table |
| `UserMemory.UserMemory.ResizeProcess` | memoria/src/manejo_memoria.c:51-63 | the same answers, and a crash exactly if a shrink needs more pages than there are, with size and page count told without the state that the branches describe; cpu gets its RESIZE answers from here, both ways |
| `UserMemory.UserMemory.StartProcess` | memoria/src/manejo_memoria.c:3-8 | a new process has no pages |
| `UserMemory.UserMemory.FinishProcess` | memoria/src/manejo_memoria.c:10-34 | the loop frees all frames of the process |
| `UserMemory.UserMemory.Write` | memoria/src/utils_memoria.c:556-588 | the loop scatters the bytes over the segments, in order, cuts off what they do not hold, and touches nothing else |
| `UserMemory.UserMemory.Read` | memoria/src/utils_memoria.c:590-631 | the loop gathers the bytes of the segments, zeros behind them |
| `UserMemory.UserMemory.ReadParts` | memoria/src/utils_memoria.c:590-631 | the second result holds the bytes of each segment, each padded with zeros up to the register size |
| `FlatMemory.FlatAt` | memoria/src/utils_memoria.c:556-631 | byte a of the flat array of a process is the byte of memory at the image of a |
| `FlatMemory.ReadIsSlice` | memoria/src/utils_memoria.c:590-631 | a translated read is a slice of the flat array |
| `FlatMemory.WriteIsSplice` | memoria/src/utils_memoria.c:556-588 | a translated write changes exactly that slice |
| `FlatMemory.WriteElsewhere` | memoria/src/utils_memoria.c:556-588 | a translated write changes no byte of a process that shares no frame |
| `FlatMemory.FlatGrows` | memoria/src/manejo_memoria.c:95-106 | growth keeps the bytes of a process at the front of its array |
| `Wire.MovOutRoundTrip` | cpu/src/instrucciones.c:784-839 | decoding MOV_OUT recovers addresses, width, value and pid for every list length, though the count is derived from the stream size alone |
| `Wire.MovInRoundTrip` | cpu/src/instrucciones.c:753-774 | decoding MOV_IN recovers addresses and pid |
| `Wire.CopyRoundTrip` | cpu/src/instrucciones.c:849-896 | decoding COPY_STRING recovers both lists, size and pid |
| `Wire.ReplyRoundTrip` | cpu/src/instrucciones.c:906-964 | the answer to MOV_IN recovers the pieces and the value |
| `Layout.MovOutLayout` | cpu/src/instrucciones.c:784-839 | byte for byte: each range as address and size, the flag that is 1 for one byte, the value, the pid, and no more |
| `Layout.MovInLayout` | cpu/src/instrucciones.c:753-774 | byte for byte: the ranges and the pid |
| `Layout.CopyLayout` | cpu/src/instrucciones.c:849-896 | byte for byte: the counted list to write to, the counted list to read from, the size and the pid |
| `Layout.ReplyLayout` | utils/src/utils/IO.c:1890-1944 | byte for byte: the number of pieces, each piece as long as its range, in order, and the value |
| `Wire.SerializeMovOut` | cpu/src/instrucciones.c:784-839 | the serializer writes that stream, piece by piece |
| `Wire.DeserializeMovOut` | memoria/src/utils_memoria.c:386-430 | the decoder reads it |
| `Wire.SerializeMovIn` | cpu/src/instrucciones.c:753-774 | the serializer of MOV_IN writes that stream |
| `Wire.DeserializeMovIn` | memoria/src/utils_memoria.c:439-457 | the decoder of MOV_IN reads it |
| `Instructions.Translate` | cpu/src/instrucciones.c:34-34 | translation against the tables of memoria leaves the two programs in agreement |
| `Instructions.MovOut` | cpu/src/instrucciones.c:82-135 | MOV_OUT, from register to memory, writes exactly [la, la+width) of its process and no other byte of any process |
| `Instructions.MovIn` | cpu/src/instrucciones.c:19-78 | MOV_IN, from memory to register, brings exactly those bytes |
| `Instructions.AnswerMovIn` | memoria/src/comunicaciones.c:105-125 | memoria answers a MOV_IN with the bytes of the range |
| `Instructions.ServeCopy` | memoria/src/comunicaciones.c:158-179 | memoria reads the whole source before it writes |
| `Instructions.CopyString` | cpu/src/instrucciones.c:286-312 | COPY_STRING is memmove on the flat array: the destination gets what the source held before, and no other byte of any process changes |
| `Instructions.StoreInput` | memoria/src/comunicaciones.c:181-200 | input lands at the front of the range, as much of it as the range holds |
| `Instructions.Extend` | memoria/src/manejo_memoria.c:80-116 | growth needs no flush of the TLB: what is cached stays right |
| `Instructions.GrowProcess` | memoria/src/manejo_memoria.c:80-116 | growth keeps all bytes of all processes |
| `Instructions.StartProcess` | memoria/src/manejo_memoria.c:3-8 | a pid that was never used finds no entry of its own in the TLB |
| `Instructions.FinishProcess` | memoria/src/manejo_memoria.c:10-34 | the end of a process leaves the entries of all others right and their bytes alone, though its own stay in the TLB |
| `PagedMachine.Execute` | cpu/src/instrucciones.c:82-312 | what an instruction, a RESIZE either way or the start or end of a process answers and leaves in memory is a function of the memory before it and of the pages translated so far, in which the TLB does not occur |
| `PagedMachine.RunProgram` | cpu/src/tlb.c:107-277 | the same for a whole program of several processes that start, grow, shrink by pages never translated, and end |
| `PagedMachine.RunBoth` | cpu/src/tlb.c:107-277 | two machines with the same memory and any two TLBs agree in every answer, RESIZE included, and end with the same memory |
| `PagedMachine.WaitingKeepsSegments` | kernel/src/planificador.c:719-825 | while a process waits, whatever the others do, its pages stay and the segments translated for it stay its segments |
| `PagedMachine.StoreInputLater` | memoria/src/comunicaciones.c:181-200 | input for segments that were translated before others ran lands at the front of the range of the process, in the memory that the others have left |
| `FlatMachine.LegalIff` | cpu/src/tlb.c:107-277 | an instruction stays within the page table exactly when it stays within the flat array, and a shrink must release no translated page besides |
| `FlatMachine.TurnIsFlat` | cpu/src/instrucciones.c:82-312 | every instruction on paged memory is that instruction on one flat array per process: a RESIZE upwards fails exactly when fewer pages are free than the difference takes and otherwise appends exactly those, one downwards cuts exactly the pages of the difference off the end |
| `FlatMachine.ProgramIsFlat` | cpu/src/instrucciones.c:82-312 | every program on paged memory is a run of the flat machine with the same answers |
| `FlatMachine.RunsAlike` | cpu/src/instrucciones.c:259-281 | what RESIZE answers, the sizes, the lengths and the free pages never depend on the bytes in memory |
| `Bits.SetBit` | entradasalida/src/instrucciones_io.c:108-111 | setting a bit of a byte sets that block and no other |
| `Bits.ClearBit` | entradasalida/src/instrucciones_io.c:171-174 | clearing a bit frees that block and no other |
| `Bits.SetRange` | entradasalida/src/instrucciones_io.c:376-382 | the marking loop sets exactly those blocks, as far as the bitmap reaches |
| `Bits.ClearRange` | entradasalida/src/instrucciones_io.c:365-373 | the freeing loop clears exactly those blocks |
| `Bits.CountFree` | entradasalida/src/dialfs.c:285-298 | counts the free blocks |
| `Bits.FindOne` | entradasalida/src/dialfs.c:216-238 | finds the first free block, or none if there is none |
| `Bits.FindRun` | entradasalida/src/dialfs.c:551-573 | the counting scan finds the leftmost run of n free blocks, and fails exactly when there is none |
| `Bits.ScanAnswers` | entradasalida/src/dialfs.c:551-573 | stopping at the first full run, or at the end, answers the leftmost run or none |
| `FileSystem.ResettledOk` | entradasalida/src/instrucciones_io.c:404-408 | giving a file an extent of free or own blocks, with the bits to match, keeps the file system sound |
| `FileSystem.ResettledOkFits` | entradasalida/src/instrucciones_io.c:404-408 | conversely, a sound result took only such blocks |
| `FileOps.ShrunkOkIff` | entradasalida/src/instrucciones_io.c:228-243 | shrinking keeps the file system sound exactly when the new size is not 0 |
| `FileOps.ResizedOk` | entradasalida/src/instrucciones_io.c:410-415 | a truncate to as many blocks keeps it sound |
| `FileOps.InPlaceOkIff` | entradasalida/src/dialfs.c:520-537 | growth in place, which the late-starting scan has accepted, is sound exactly when the block after the file is free and the new extent is on the disk |
| `FileOps.InPlaceOverlaps` | entradasalida/src/dialfs.c:520-537 | a file of two blocks grows over the file behind it |
| `FileOps.RelocatedOk` | entradasalida/src/instrucciones_io.c:349-391 | wherever the second scan puts a file, the file system stays sound |
| `FileOps.CreatedOkIff` | entradasalida/src/instrucciones_io.c:70-131 | CREATE keeps it sound exactly when the name is taken or a block is free |
| `FileOps.DeletedOk` | entradasalida/src/instrucciones_io.c:133-186 | DELETE keeps it sound |
| `FileData.ShrinkKeeps` | entradasalida/src/instrucciones_io.c:228-243 | a shrunk file keeps its remaining bytes, the others all of theirs |
| `FileData.ShrinkWipes` | entradasalida/src/instrucciones_io.c:231-238 | the blocks that a shrink frees are zeroed |
| `FileData.RelocationKeeps` | entradasalida/src/instrucciones_io.c:349-391 | relocation, overlapping or not, keeps the bytes of the file and of all others |
| `FileData.WriteKeeps` | entradasalida/src/dialfs.c:443-462 | a write within the blocks of a file changes no other file |
| `FileData.WriteContent` | entradasalida/src/dialfs.c:443-462 | within its size, it changes those bytes of its content |
| `FileData.WriteHarmlessIff` | entradasalida/src/dialfs.c:443-462 | wherever a write goes, another file is unharmed for every text exactly when its bytes are missed |
| `FileData.WithinMisses` | entradasalida/src/dialfs.c:443-462 | a write within the blocks of one file misses the bytes of every other |
| `FileOrder.Sorted` | entradasalida/src/dialfs.c:390-396 | the list is sorted by first block |
| `FileOrder.SortedSame` | entradasalida/src/dialfs.c:390-396 | sorting is a permutation |
| `FileOrder.ArrangedSame` | entradasalida/src/dialfs.c:388-417 | sorting and moving the truncated file to the end is a permutation |
| `FileOrder.ArrangedLast` | entradasalida/src/dialfs.c:398-416 | the truncated file ends up last, the others stay sorted |
| `FileOrder.ExtentsSame` | entradasalida/src/dialfs.c:388-417 | a permuted list still has disjoint extents on the disk |
| `FileOrder.NamesSame` | entradasalida/src/dialfs.c:388-417 | a permuted list still agrees with the metadata |
| `Memmoves.MovedArrives` | entradasalida/src/instrucciones_io.c:272-285 | a pass of downward moves to consecutive places brings every byte: none is overwritten before it is moved |
| `Compaction.SortedAllAhead` | entradasalida/src/instrucciones_io.c:272-285 | sorted disjoint files never have to move up |
| `Compaction.PackedContent` | entradasalida/src/instrucciones_io.c:272-285 | after the pass the bytes of every file are where the separately computed list says |
| `Repacking.BlocksConserved` | entradasalida/src/dialfs.c:285-298 | free blocks and the blocks of all files make up the disk |
| `Repacking.GuardFits` | entradasalida/src/instrucciones_io.c:250-251 | `libres + ocupados >= necesarios` guarantees that the grown file fits behind the others |
| `Repacking.RestartedOk` | entradasalida/src/dialfs.c:419-441 | rewriting the first blocks keeps list and metadata in agreement |
| `Repacking.CompactedOkIff` | entradasalida/src/instrucciones_io.c:250-335 | compaction leaves a sound file system exactly when no other file is empty and ceil(sum of sizes / BLOCK_SIZE) reaches the blocks of the others |
| `Repacking.CompactedWholeOk` | entradasalida/src/instrucciones_io.c:250-335 | compaction leaves a sound file system when all other sizes are positive multiples of the block size |
| `Repacking.CompactionKeeps` | entradasalida/src/instrucciones_io.c:264-293 | compaction keeps name, size and every byte of every other file, whatever the bitmap becomes |
| `Repacking.CompactionKeepsOwn` | entradasalida/src/instrucciones_io.c:266-288 | compaction keeps the bytes of the truncated file, which come from its saved copy |
| `Truncation.TruncatedOkIff` | entradasalida/src/instrucciones_io.c:194-431 | TRUNCATE leads from a sound file system to a sound one exactly in the safe cases of each branch |
| `Truncation.TruncateKeepsOthers` | entradasalida/src/instrucciones_io.c:194-431 | no branch, safe or not, loses another file or one of its bytes |
| `Truncation.TruncateKeepsOwn` | entradasalida/src/instrucciones_io.c:194-431 | the truncated file keeps the bytes that both sizes have |
| `Truncation.TruncatedEntry` | entradasalida/src/instrucciones_io.c:404-408 | the list then has the file at its place with the new size, unless there was no room and nothing changed |
| `Truncation.CompactionUnmarks` | entradasalida/src/instrucciones_io.c:309-318 | three one-byte files on blocks 0, 2 and 4: growing the first compacts, and marks one block for the two that the others take |
| `Placement.TruncatedWhere` | entradasalida/src/instrucciones_io.c:194-408 | told from bits, first block and block counts alone: the file stays if it needs no more blocks or if the bits start+own+1 .. start+need are clear (own is 0 for one block); else it goes to the leftmost run of blocks that are clear or its own; only if there is none are the files packed, and only if the free blocks and its own suffice; the bitmap and all entries for each case |
| `Placement.CompactedEntries` | entradasalida/src/instrucciones_io.c:250-335 | after packing, every other file starts behind the blocks of those that started before it, and the truncated one behind all; the bits that are set are the first ceil(sum of sizes / BLOCK_SIZE) and those of the new extent |
| `Placement.OneBlockMoves` | entradasalida/src/instrucciones_io.c:220-222 | a one-block file with its neighbour behind it is not grown in place: it moves to block 2 |
| `Placement.CreatedWhere` | entradasalida/src/instrucciones_io.c:70-131 | a new empty file takes the leftmost clear block |
| `DiskBytes.TruncatedBytes` | entradasalida/src/instrucciones_io.c:224-408 | every byte of the disk after TRUNCATE, in the same cases: freed blocks read zero, a moved file takes all bytes of its blocks along, a file that stays or finds no room changes no byte |
| `DiskBytes.CompactedDisk` | entradasalida/src/instrucciones_io.c:264-293 | after packing, the whole blocks of every other file are at its new place, the own bytes of the truncated file behind them, and all behind that is as before |
| `FsRuns.StepOkIff` | entradasalida/src/instrucciones_io.c:70-431 | each operation keeps the file system sound exactly when it is safe |
| `FsRuns.RunOkIff` | entradasalida/src/instrucciones_io.c:70-431 | all states of a run are sound exactly when each of its operations is safe where it happens |
| `FsRuns.RunsFromFormatted` | entradasalida/src/dialfs.c:50-119 | from a fresh disk, all states of a run are sound exactly when each operation is safe where it happens |
| `FsRuns.StepPreserves` | entradasalida/src/instrucciones_io.c:70-464 | an operation on another file, a WRITE only if it misses the bytes of this one, leaves a file its bytes |
| `FsRuns.OwnWriteSpares` | entradasalida/src/dialfs.c:443-462 | a WRITE within the blocks of its own file spares every other file |
| `FsRuns.RunPreserves` | entradasalida/src/instrucciones_io.c:70-464 | over any run of operations that spare it, compactions included, a file keeps every byte |
| `FreeBlocks.NoRoomIff` | entradasalida/src/instrucciones_io.c:194-347 | a safe TRUNCATE finds no room exactly when the free blocks and its own are fewer than the new size needs, however they are scattered |
| `FreeBlocks.StepFree` | entradasalida/src/instrucciones_io.c:70-431 | after a safe operation the free blocks are those that the sizes say |
| `FileMap.StepRefines` | entradasalida/src/instrucciones_io.c:70-464 | an operation that is safe on the disk, and writes on no other file, is that operation on a map from names to bytes |
| `FileMap.StepServes` | entradasalida/src/instrucciones_io.c:194-464 | it is that request to a volume of names, bytes and a number of free blocks; only a TRUNCATE is not answered, exactly when the free blocks and its own are fewer than the new size needs |
| `FileMap.RunRefines` | entradasalida/src/instrucciones_io.c:70-464 | a run of such operations, compactions included, is a run of the volume with the same answers |
| `FileMap.RunsAlike` | entradasalida/src/instrucciones_io.c:194-431 | which requests are answered, and all names, sizes and free blocks after them, depend on the names, sizes and free blocks before and on nothing else |
| `FileMap.ReadAfterWrite` | entradasalida/src/instrucciones_io.c:433-491 | after a WRITE within its file, a READ there brings the text, whatever safe operations on other files, and on this one beside the range, run in between |
| `DialFs.DialFs.constructor` | entradasalida/src/dialfs.c:50-119 | a fresh disk is sound |
| `DialFs.DialFs.Create` | entradasalida/src/instrucciones_io.c:70-131 | CREATE takes the first free block, or leaves a blank metadata file on a full disk |
| `DialFs.DialFs.Delete` | entradasalida/src/instrucciones_io.c:133-186 | DELETE frees the blocks that the metadata names, and keeps the file system sound |
| `DialFs.DialFs.WriteText` | entradasalida/src/dialfs.c:443-462 | the block-wise loop writes the whole string in one piece |
| `DialFs.DialFs.Write` | entradasalida/src/instrucciones_io.c:433-464 | WRITE puts the string at the pointer from the place in the list, and changes nothing else |
| `DialFs.DialFs.Read` | entradasalida/src/instrucciones_io.c:466-491 | READ, though it takes the place from the metadata, sees the bytes at the place in the list |
| `DialFs.DialFs.SearchTop` | entradasalida/src/dialfs.c:507-573 | answers the own place if the first scan accepts, else the leftmost run that is free or own, else none |
| `DialFs.DialFs.WipeBlocks` | entradasalida/src/instrucciones_io.c:231-238 | frees and zeroes exactly those blocks |
| `DialFs.DialFs.PackFiles` | entradasalida/src/instrucciones_io.c:272-285 | the loop performs the pass of moves, each rounded up to whole blocks, and answers where they end |
| `DialFs.DialFs.Restart` | entradasalida/src/dialfs.c:419-441 | the loop computes the packed places, in list and metadata, by its own rounding |
| `DialFs.DialFs.Compact` | entradasalida/src/instrucciones_io.c:250-335 | bitmap, list, metadata and blocks after the compaction |
| `DialFs.DialFs.Truncate` | entradasalida/src/instrucciones_io.c:194-431 | each branch runs when its plan says so and leaves the state and the blocks of `Truncated` and `TruncatedDisk`, which `Placement.TruncatedWhere` and `DiskBytes.TruncatedBytes` describe in bits, places and bytes; only a truncate without room is not answered |
| `DiskRuns.Serve` | entradasalida/src/comunicaciones.c:28-47 | each handler does its step on the value and on the blocks, answers unless TRUNCATE finds no room, and leaves a sound disk exactly when the operation was safe |
| `DiskRuns.ServeAll` | entradasalida/src/comunicaciones.c:28-47 | a run of requests ends in the disk, the blocks and the answers that the run describes |
| `DiskRuns.ServeVolume` | entradasalida/src/comunicaciones.c:28-47 | on the mapped files themselves, a safe run of requests is a run of the volume with these answers |
| `DiskRuns.WriteAndRead` | entradasalida/src/instrucciones_io.c:433-491 | on the mapped files themselves: after a WRITE and any run of requests that keeps its text, READ brings the text |
| `KernelInvariant.MakeReadyKeeps` | kernel/src/planificador.c:477-492 | proceso_listo keeps the invariant |
| `KernelInvariant.WaitOnKeeps` | kernel/src/planificador.c:642-653 | WAIT keeps the invariant, whether it takes an instance or blocks |
| `KernelInvariant.ReleaseKeeps` | kernel/src/planificador.c:679-696 | liberar_recurso keeps the invariant, waking the first waiter |
| `KernelInvariant.ReleaseFromKeeps` | kernel/src/planificador.c:698-707 | the loop that removes from the list that it walks keeps the invariant |
| `KernelInvariant.FinishKeeps` | kernel/src/planificador.c:521-533 | finishing gives back exactly one place |
| `KernelInvariant.SendToKeeps` | kernel/src/planificador.c:821-825 | a request extends the queue of the interface and its channel together |
| `KernelInvariant.ResumeKeeps` | kernel/src/planificador.c:557-585 | unblocking keeps the invariant: the quantum loses what is charged, and some of it is left |
| `KernelRuns.AnswerNamesHead` | kernel/src/comunicaciones.c:54-159 | the process named by an answer is the head of the queue of the interface, and is blocked there |
| `KernelRuns.CompleteKeeps` | kernel/src/comunicaciones.c:54-159 | handling an answer keeps the invariant |
| `KernelRuns.AdmitKeeps` | kernel/src/planificador.c:93-111 | an admission keeps the invariant, the process taking one place of the degree, or finds NEW empty and ends the kernel, which needs a unit of semNew that a kill has left |
| `KernelRuns.DispatchKeeps` | kernel/src/planificador.c:154-184 | dispatch keeps the invariant, from either ready queue or from none |
| `KernelRuns.EvictKeeps` | kernel/src/planificador.c:274-328 | eviction for any known reason keeps the invariant |
| `KernelRuns.KillNewKeeps` | kernel/src/consola.c:210-264 | killing a process in NEW frees no place |
| `KernelRuns.KillReadyKeeps` | kernel/src/consola.c:210-264 | killing a process in READY frees one place |
| `KernelRuns.StepKeeps` | kernel/src/planificador.c:44-328 | every step keeps the invariant, but for the admission that finds NEW empty and has no state after it |
| `KernelRuns.ReachableIsSound` | kernel/src/planificador.c:408-454 | in every reachable state, the last one before an admission that finds NEW empty included: each process is in exactly one queue, the one of its `estado`; at most one runs; semNew and semReady are the processes that wait for them plus what kills left over; the degree is kept; each waiting queue is the blocked queue restricted to it; each interface queue is answers, request in service, requests; instances are accounted for and not negative; each quantum lies in (0, QUANTUM] and what is missing is what was charged |
| `KernelEffects.FinishGives` | kernel/src/planificador.c:698-707 | over any list of holdings: those at odd positions stay held, as a multiset; each resource gets as many instances back as it has places at even positions, and loses as many waiters from the front |
| `KernelEffects.FirstAndThird` | kernel/src/planificador.c:698-707 | a process that holds A, B and C and ends gives back A and C and keeps B |
| `KernelBystanders.StepStands` | kernel/src/planificador.c:557-585 | whatever a step does, every process that it is not about keeps its PCB, or is woken: READY, under VRR with what is left of its quantum and in the priority queue, otherwise with the quantum it had and in READY |
| `KernelBystanders.RunStaysWaiting` | kernel/src/planificador.c:719-825 | over any run, a process waits for its interface with its PCB untouched until its answer comes |
| `KernelOrder.StepIsFifo` | kernel/src/planificador.c:154-184 | no step lets a process overtake another in NEW, READY or the priority queue, and under VRR the priority queue goes first |
| `KernelOrder.KillKeepsOrder` | kernel/src/consola.c:210-264 | a console kill, in NEW or in READY, takes the killed process out of its queue and leaves the order of all others |
| `KernelOutcomes.AnswerOutcome` | kernel/src/comunicaciones.c:54-159 | the process of an answer is the head of the queue of the interface, leaves the blocked queue, and is then the last of a ready queue, the priority queue exactly when VRR finds quantum left over, and keeps just that; all other queues, the resources and the other interfaces are as before |
| `KernelOutcomes.EvictOutcome` | kernel/src/planificador.c:274-328 | for every known reason: under VRR the time used is noted, else the old one stays; a used-up quantum is renewed, and the process is the last of READY, not of the priority queue; WAIT takes an instance, or blocks exactly when none is left; SIGNAL adds one to that resource only, its first waiter is woken into the queue that its quantum demands, and the process comes behind it; a request reaches its interface; all other reasons end the process, which keeps its odd holdings |
| `KernelOutcomes.KillOutcome` | kernel/src/consola.c:210-264 | a kill in NEW or READY ends the process, which keeps its odd holdings; only the one from READY has a place to give back |
| `KernelOutcomes.QuantumLeft` | kernel/src/planificador.c:274-302 | over a run: a process that asks an interface for something after `used` of its quantum has, under VRR, the rest of it when its answer has come, at the end of the priority queue, whatever all others do in between |
| `KernelDegree.SetDegreeOutcome` | kernel/src/consola.c:320-340 | MULTIPROGRAMACION n makes the degree n: an increase posts the difference, a decrease leaves the difference to be waited for, and nothing else changes |
| `KernelDegree.AdmittedWithinDegree` | kernel/src/consola.c:320-340 | after any run: places left, and processes admitted and not ended, add up to the degree that was last asked for and what a decrease still waits for; so, once it waits for nothing, no more than that degree are admitted |
| `KernelDegree.FromTwoToFive` | kernel/src/consola.c:320-340 | from degree 2, MULTIPROGRAMACION 5 makes three more places |
| `KernelDegree.StepAccount` | kernel/src/consola.c:210-264 | only a kill in NEW or READY leaves a unit of its semaphore over, only an idle turn takes one, and only a SIGNAL without a holding makes an instance more than there were |
| `KernelLimits.FinishReleasesAllIff` | kernel/src/planificador.c:698-707 | finishing leaves half of the holdings, rounded down, in place: all are released exactly when there was at most one |
| `KernelLimits.InstanceIsLost` | kernel/src/planificador.c:698-707 | from the start, a process that waits twice for a resource of two instances and ends keeps one for good |
| `KernelLimits.WokenHoldsNothing` | kernel/src/planificador.c:679-696 | a woken waiter holds what it held before and joins the queue that its quantum demands; the count is one up all the same, and those behind it go on waiting for a free resource |
| `KernelLimits.UnknownIsLost` | kernel/src/planificador.c:322-325 | a process returned for an unknown reason is in no queue |
| `KernelAdmission.CandidateKeptIff` | kernel/src/planificador.c:61-111 | a step keeps a process for the long-term thread to admit exactly when it is not a kill of the only process in NEW between its two waits |
| `KernelAdmission.AdmissionsFindIff` | kernel/src/planificador.c:61-111 | over every run from the start, the long-term thread always has a process to admit exactly when no such kill occurs, and then no admission pops an empty NEW |
| `KernelAdmission.EmptyAdmission` | kernel/src/consola.c:233-245 | a create, a kill between the two waits, and the long-term thread pops an empty list |
| `Scheduler.Scheduler.constructor` | kernel/src/planificador.c:408-454 | the invariant holds of the start state |
| `Scheduler.Scheduler.ReleaseAll` | kernel/src/planificador.c:698-707 | the loop, removing while it walks, keeps the holdings at odd positions and gives back those at even ones, each to its resource |
| `Scheduler.Scheduler.Evict` | kernel/src/planificador.c:274-328 | popping EXEC and the switch by reason take a sound state to a sound one, that of the step, with the process in the state that its reason demands and, under VRR, the time it used noted |
| `Scheduler.Scheduler.CreateProcess` | kernel/src/planificador.c:44-59 | keeps the invariant, and the last of NEW is a process whose pid nobody had |
| `Scheduler.Scheduler.TakeNext` | kernel/src/planificador.c:61-91 | keeps the invariant, and goes on to the second wait exactly when NEW is not empty |
| `Scheduler.Scheduler.AdmitNext` | kernel/src/planificador.c:93-111 | ends the kernel exactly when NEW has been emptied; else keeps the invariant, and the last of READY is the former head of NEW |
| `Scheduler.Scheduler.DispatchNext` | kernel/src/planificador.c:154-190 | keeps the invariant, and the one process that runs is the former head of the priority queue under VRR, else of READY |
| `Scheduler.Scheduler.HandleAnswer` | kernel/src/comunicaciones.c:54-159 | keeps the invariant; the process of the answer, looked up by pid, is the one that is popped, and is blocked no more |
| `Scheduler.Scheduler.KillFromConsole` | kernel/src/consola.c:210-280 | keeps the invariant and ends exactly the processes in NEW and READY; one in the priority queue is not found |
| `Scheduler.Scheduler.ChangeDegree` | kernel/src/consola.c:320-340 | the degree is n; the posts of an increase, in a loop, or the waits left of a decrease are exactly the difference; keeps the invariant |
| `Scheduler.Scheduler.LowerDegree` | kernel/src/consola.c:320-340 | keeps the invariant: one place and one of those waits fewer, and the degree as it was |
| `Relay.FsRoundTrip` | utils/src/utils/IO.c:160-231 | the kernel decodes what cpu encoded, for every list length and string |
| `Relay.DeviceRoundTrip` | utils/src/utils/IO.c:30-151 | the interface decodes what the kernel encoded |
| `Layout.FsLayout` | utils/src/utils/IO.c:160-231 | byte for byte, what cpu sends: pid, PCB, interface, file, counted addresses, size, pointer and operation |
| `Layout.DeviceLayout` | utils/src/utils/IO.c:30-151 | byte for byte, what the kernel sends on: pid, file, interface, size, counted addresses and pointer |
| `Relay.Mailbox.PassOn` | kernel/src/planificador.c:768-804 | one request through the kernel: its list of addresses is sent whole and cleaned, or kept when the interface is not connected |
| `Relay.DeliveredIff` | utils/src/utils/IO.c:30-328 | interface, file, size and pointer always arrive; the address list arrives exactly if the list of the kernel was empty |
| `Relay.ArrivesWholeIff` | kernel/src/planificador.c:768-804 | over any run of requests, one that is sent arrives with its own addresses exactly when every request since the one sent before it carried none |
| `Relay.StrayAddresses` | kernel/src/planificador.c:768-804 | a request to an interface that is gone leaves its addresses to the next one that is sent |
| `Relay.PassAll` | kernel/src/planificador.c:768-804 | the kernel sends in a run what `Delivered` says of each request |

## Left out

- Console kill of a BLOCKED process: its resource or interface queue keeps it, and a later answer finishes it a second time; the laws above do not cover it.
- Pausing and resuming the planners, the concurrent use of `interfaz_aux`, and other races inside a handler: handlers are atomic steps.
- Mutual exclusion through resources, and freedom from deadlock: the code provides neither (`KernelLimits.WokenHoldsNothing`).
- A WAIT or SIGNAL on a resource that does not exist dereferences a null pointer in a log line before it is checked (kernel/src/planificador.c:632), and an interface of unknown type leaves the process in no queue; the steps need an existing resource.
- Interfaces that connect or disconnect during a run, and interfaces that never answer: a DialFS truncate without room sends no answer (entradasalida/src/instrucciones_io.c:338-347).
- PagedMachine.RunProgram: its programs stay within their pages and release none that has been translated; `StaleEntries` says exactly when any other shrink leaves a given TLB right, and an access outside the table has no answer in memoria.
- What a crash does: an access outside the page table, a pop of an empty NEW and a page taken from an empty table have no state after them.
- Register arithmetic, the script parser, the fixed part of the PCB in the packets (60 bytes, carried unread apart from the pid), enum-to-string tables: only easy members.
- `compactar_dialfs` and `encontrar_bloques_libres_contiguos` in dialfs.c: no handler calls them.
- Reloading the file list from the metadata files at start, and the order of the files in it.
- `list_sort`, `memmove`, `memcpy`, `strlen`, `atoi`: their meaning is taken as given; `memmove` is one simultaneous assignment.
- Process, file and PCB records are values in maps and sequences, so aliases of one record in several lists are not modelled: a queue holds pids.
- DialFs.DialFs.Truncate: asks that the new size plus BLOCK_SIZE does not exceed 2^32, because beyond that the sum in the source wraps; sizes in the file system are otherwise unbounded.
- DialFs.DialFs.Write: asks that the write ends within bloques.dat; nothing in the source checks it.
- DialFs.DialFs.Read: asks the same of the read.
- FsRuns.StepOkIff: asks that a WRITE ends within bloques.dat, and that TRUNCATE and WRITE name a file; the handlers take the file as given.
- KernelRuns.ReachableIsSound: the steps are those of `Possible`, which leave out the kills of blocked processes and the eviction for an unknown reason; an admission that pops an empty NEW (`Crashes`) is the last step of its run.
- Scheduler.Scheduler.KillFromConsole: asks that the process is not BLOCKED, for the reason of the first line of this list.
- CREATE and DELETE of "bitmap.dat" and "bloques.dat", which lie in the directory of the metadata files: the source takes them for existing files, the model for names like any other.
