# The Octeon simple executive, in Dafny

This project models the parts of the Octeon simple executive that manage shared resources, and
proves that they do what they are for:

- **Boot memory** (`Word64`, `FreeList`, `AllocMeaning`, `FreeMeaning`, `Headers`, `NamedBlocks`,
  `Answers`, `BootMemory`, `Contents`): a first-fit allocator whose list nodes lie inside the free
  blocks, with the table of named blocks on top. `BootMem` is the imperative allocator on memory words;
  the other modules hold its specification on lists, the meaning of that specification in bytes, what
  each call answers, and what every run of calls leaves alone.
- **The boot memory lock** (`Lock`): the LL/SC spinlock instruction by instruction, and the calls
  inside it statement by statement. Concurrent calls are serialisable.
- **The DFA command queue** (`DfaQueue`): cores that synchronise through one packed 64-bit register
  whose ticket wraps at 8 bits and whose ticket total carries into the base address.
- **The core barrier** (`Barrier`) and **the start-up rendezvous** (`Startup`), with the LL/SC
  counter loop, as interleaved steps of many cores or processes. `Bits` holds mask arithmetic.
- **The circular log** (`LogFormat`, `Log`): four chained buffers, writer, reader, entry formats.
- **The flash writer** (`Flash`), **the check code of low-latency memory** (`Ecc`) and **the buffer
  pools** (`Fpa`, `PoolRuns`, `PoolUnit`), the last built on boot memory: runs mix pool set-ups,
  boot memory operations and buffers taken and given back, and `PoolUnit` is the code in place.

Protocols are state machines: `Enabled` and `Apply` give the steps, `Record` keeps the history that
the statements speak of, and no step reads the history except to note it. Steps interleave freely
and are sequentially consistent. Code that updates a structure in place is a class whose methods
are proved against functions on values.

Callers' obligations are those the code states or cannot do without: alignments are 0 or powers of
two, a size above 2^64-16, which rounds to 0, must find no entry to take 0 bytes from, a freed block is
one that the caller holds, only members call a barrier with a mask, at most 256 cores use the DFA queue with at most
256 commands to a chunk. Entries of the free list end at or below 2^63, because the code forms
addresses by setting bit 63.

Where comments and code differ, the model follows the code:

- Comments speak of 8-byte rounding of boot memory; the code rounds to 16 bytes.
- `address_max` is described as inclusive; the code treats it as the end of the range.
- The log's comments give maxima of 31 and 30 words; the code cuts at 255 and 254.
- A minimum address is lost, not refused, when rounding it up wraps: the effective minimum is 0
  (`MinimumKept` says exactly when, `MinimumLost` gives a request).
- The pool set-up helper ignores the result of `cvmx_fpa_setup_pool`.
- `cvmx_flash_write` reads source data up to the end of the last block, beyond the given length.

## Model

| member | source | states |
|---|---|---|
| `Word64.MaskIsRoundDown` | executive/cvmx-bootmem-shared.c:172 | Masking a 64-bit word with the complement of a power of two less one, defined bit by bit, rounds it down to a multiple of that power. |
| `FreeList.MaskUpExact` | executive/cvmx-bootmem-shared.c:132-206 | The round-up expression gives the least multiple of the alignment at or above its argument whenever that fits in 64 bits. |
| `FreeList.MaskUpWraps` | executive/cvmx-bootmem-shared.c:132 | Above 2^64 less the alignment the same expression wraps to 0: sizes over 2^64-16 and minima near the top lose their value. |
| `FreeList.FitsSound` | executive/cvmx-bootmem-shared.c:206-214 | When the entry test accepts and the base does not exceed the maximum, the block really lies inside the entry and the range, whatever the wrapping subtraction did. |
| `FreeList.FitsComplete` | executive/cvmx-bootmem-shared.c:206-214 | Every feasible position in an entry makes the test accept that entry, with a base not above the position. |
| `FreeList.WalkBeyond` | executive/cvmx-bootmem-shared.c:192-265 | Entries at or above the maximum are passed over: no allocation and the list as it was. |
| `FreeList.WalkSplitTaken` | executive/cvmx-bootmem-shared.c:255-264 | A split followed by the next turn of the loop equals carving the block out of the entry in one go. |
| `FreeList.WalkSplitWasted` | executive/cvmx-bootmem-shared.c:206-264 | With the base at or above the maximum the wrapped test can let a split happen; it is the only change, the result is 0 and nothing else fits. |
| `AllocMeaning.WalkShape` | executive/cvmx-bootmem-shared.c:192-268 | Closed form of the whole walk: the first accepted entry decides; it is cut at the base or split once in vain; with no such entry the list is unchanged. |
| `AllocMeaning.AllocLeast` | executive/cvmx-bootmem-shared.c:101-269 | Sound, complete and lowest: a nonzero result is aligned, in the effective range and inside one free entry; with a 16-aligned minimum and nonzero size it is the least such address and 0 is returned only if there is none; otherwise 0 and no change. |
| `AllocMeaning.AllocBytes` | executive/cvmx-bootmem-shared.c:101-269 | The free bytes afterwards are those before less exactly the rounded block returned, and the same bytes on failure. |
| `AllocMeaning.AllocList` | executive/cvmx-bootmem-shared.c:101-269 | The list stays sorted, its total drops by the rounded size, and it stays canonical when the allocation succeeds. |
| `AllocMeaning.FailureSplitsAtMostOnce` | executive/cvmx-bootmem-shared.c:206-261 | A failing walk leaves the list as it was if and only if no entry is one the test wastes a split on; else exactly one entry is split in two. |
| `AllocMeaning.AlignedMaximumWastesNothing` | executive/cvmx-bootmem-shared.c:206-261 | With the minimum not above the maximum, and the maximum unlimited or a multiple of the alignment, no entry is wasteful. |
| `AllocMeaning.WastefulRequest` | executive/cvmx-bootmem-shared.c:206-264 | Wasteful entries occur: 16 bytes aligned to 0x1000 below 0x1800 are refused by an entry at 0x1400, which is left split at 0x2000. |
| `AllocMeaning.OversizeOutcome` | executive/cvmx-bootmem-shared.c:132-264 | A size above 2^64-16 rounds to 0: the request is refused if and only if every entry's base lies at or above its end or the maximum; otherwise it is given an address that stays free. No byte leaves the list either way. |
| `AllocMeaning.OversizeTakesHead` | executive/cvmx-bootmem-shared.c:132-244 | Without bounds every such request is given the start of the list, whatever the list. |
| `FreeMeaning.MinimumKept` | executive/cvmx-bootmem-shared.c:172-206 | An address returned is at or above the minimum if and only if minimum and alignment add up to at most 2^64, that is, rounding the minimum up does not wrap. |
| `FreeMeaning.MinimumLost` | executive/cvmx-bootmem-shared.c:172-206 | Otherwise it is lost: minimum 2^64-16 and alignment 0x1000 give address 0x1000. |
| `FreeMeaning.InsertList` | executive/cvmx-bootmem-shared.c:286-386 | Freeing a block clear of the list keeps the list sorted, and canonical if it was, through every merge case. |
| `FreeMeaning.InsertBytes` | executive/cvmx-bootmem-shared.c:286-386 | Freeing adds exactly the bytes of the block. |
| `FreeMeaning.InsertTotal` | executive/cvmx-bootmem-shared.c:286-434 | Freeing raises the available memory by exactly the size of the block. |
| `FreeMeaning.CanonicalUnique` | executive/cvmx-bootmem-shared.c:286-386 | Two canonical lists with the same free bytes are the same list. |
| `FreeMeaning.AllocThenFree` | executive/cvmx-bootmem-shared.c:101-386 | Allocating and then freeing the rounded block gives back the very list of addresses and sizes. |
| `FreeMeaning.FreeOrderIrrelevant` | executive/cvmx-bootmem-shared.c:286-386 | Freeing a collection of disjoint blocks in any order ends in the same list. |
| `Headers.TakeBottom` | executive/cvmx-bootmem-shared.c:221-244 | Writing the two headers and the pointer before the entry turns the linked list in memory into the list with the bottom of the entry taken. |
| `Headers.TakeWhole` | executive/cvmx-bootmem-shared.c:234-244 | Relinking the predecessor, or the head, removes exactly the entry. |
| `Headers.SplitEntry` | executive/cvmx-bootmem-shared.c:255-259 | The four header writes of a split leave a linked list with the entry in two parts. |
| `Headers.Place` | executive/cvmx-bootmem-shared.c:307-380 | Writing a header into the freed block and linking its predecessor inserts it between its neighbours, absorbing the entries in between. |
| `Headers.Grow` | executive/cvmx-bootmem-shared.c:359-366 | Enlarging a header over the entries that follow merges them. |
| `Headers.MergedIsInsert` | executive/cvmx-bootmem-shared.c:328-384 | The in-place result at the found position, with the merges it makes, is the specification of freeing. |
| `BootMemory.BootMem.constructor` | executive/cvmx-bootmem.c:176-250 | Attaching to a chain of headers and a table in any state that partitions some initial memory, live named blocks included, establishes the whole invariant. |
| `BootMemory.BootMem.AllocBlock` | executive/cvmx-bootmem-shared.c:101-269 | On in-band headers the allocator returns the address and leaves the list of the specification, and writes only words that were free at entry; sizes that round to 0 included, if they are harmless. |
| `BootMemory.BootMem.FirstFit` | executive/cvmx-bootmem-shared.c:191-268 | The loop computes the walk of the specification and terminates, although a split lengthens the list. |
| `BootMemory.BootMem.VisitEntry` | executive/cvmx-bootmem-shared.c:194-261 | One turn of the loop: pass, split or take, as the specification does at this entry. |
| `BootMemory.BootMem.TakeFrom` | executive/cvmx-bootmem-shared.c:220-245 | Taking the bottom of an entry cuts exactly those bytes out, header and neighbours updated. |
| `BootMemory.BootMem.SplitAt` | executive/cvmx-bootmem-shared.c:248-260 | Splitting leaves both parts as entries of the list. |
| `BootMemory.BootMem.FreeBlock` | executive/cvmx-bootmem-shared.c:286-386 | Freeing on in-band headers gives the result and list of the specification for every case, refusals included, and writes only free bytes and the block itself. |
| `BootMemory.FreeAnswer` | executive/cvmx-bootmem-shared.c:286-386 | A free is refused, with the list as it was, if and only if the block is empty or runs into a free entry; otherwise exactly its bytes are free in addition, and the list is sorted and canonical if it was. |
| `BootMemory.BootMem.InFront` | executive/cvmx-bootmem-shared.c:305-326 | Freeing in front of the head: merged with it, or a new head. |
| `BootMemory.BootMem.LinkIn` | executive/cvmx-bootmem-shared.c:335-384 | Freeing behind an entry: merged below, above, with both or neither, at the end or in the middle. |
| `BootMemory.BootMem.AvailableMem` | executive/cvmx-bootmem-shared.c:434-447 | Walking the headers adds up the sizes of the entries of at least the given size. |
| `BootMemory.TotalCounts` | executive/cvmx-bootmem-shared.c:434-447 | That sum is the number of different free bytes that lie in entries of at least the given size. |
| `BootMemory.BootMem.FindSlot` | executive/cvmx-bootmem-shared.c:462-500 | The scan of the table finds the first live slot of the name, or the first unused slot; none for another descriptor version. |
| `BootMemory.BootMem.NamedBlockAlloc` | executive/cvmx-bootmem-shared.c:599-652 | Reserving a name on the real structures is the specified step and writes only free memory; an address got is the least one aligned, in range and with room, and exactly its bytes leave the free list. |
| `BootMemory.BootMem.NamedBlockFree` | executive/cvmx-bootmem-shared.c:527-552 | Freeing by name on the real structures is the specified step; it writes only free bytes and the bytes of the block it frees, and nothing when no slot is found. |
| `BootMemory.BootMem.AllocRange` | executive/cvmx-bootmem.c:118-129 | The locked entry point returns the least address that is aligned, within minimum and maximum and has room inside one entry, 0 just if there is none, and takes exactly those bytes from the free list; it is the specified step and writes only free memory. A harmless size that rounds to 0 is refused and keeps the partition. |
| `BootMemory.OversizeBreaksList` | executive/cvmx-bootmem-shared.c:132-244 | A harmful one reaches an entry of the list, and the writes there make its header link to itself, so that memory spells out the list no more. |
| `Contents.LiveContentsKept` | executive/cvmx-bootmem-shared.c:101-652 | Any operation but the freeing of its own name leaves a live named block its slot and every byte. |
| `Contents.LiveContentsInRun` | executive/cvmx-bootmem-shared.c:101-652 | So does every run in which its name, as far as names are compared, is not freed. |
| `Contents.HandedContentsInRun` | executive/cvmx-bootmem-shared.c:101-652 | Every run leaves every byte of a block handed out without a name as it was. |
| `NamedBlocks.StepKeeps` | executive/cvmx-bootmem-shared.c:434-652 | Each operation keeps: free entries, live named blocks and blocks handed out partition the initial memory, names are distinct in the compared characters, and the byte counts add up. |
| `NamedBlocks.InitialPartition` | executive/cvmx-bootmem.c:176-250 | A sorted list and a table without live slots partition the memory of the list. |
| `NamedBlocks.RunPartitions` | executive/cvmx-bootmem-shared.c:434-652 | Over every run, from any state whose blocks partition some memory, they partition it still, and available memory plus what is out is what it was. |
| `NamedBlocks.FindFindsOwn` | executive/cvmx-bootmem-shared.c:462-525 | In every such state looking up a live name finds its own block. |
| `NamedBlocks.ReserveThenFree` | executive/cvmx-bootmem-shared.c:527-652 | After a successful reservation the name finds the block with its rounded size, and freeing it restores the free list exactly. |
| `Answers.AnonymousAnswer` | executive/cvmx-bootmem.c:118-129 | An allocation without a name answers with the least address that is aligned, in range and has room, 0 just if there is none; its bytes and no others leave the list and it is recorded as handed out. |
| `Answers.FindAnswer` | executive/cvmx-bootmem-shared.c:462-500 | The lookup finds the first slot whose name agrees character by character in the compared length, or the first unused slot, and fails just if there is none. |
| `Answers.TruncAgrees` | executive/cvmx-bootmem-shared.c:485 | Comparing cut names is comparing as strncmp does: the same characters up to the length or to a common end. |
| `Answers.LookupAnswer` | executive/cvmx-bootmem-shared.c:514-525 | A locked lookup changes nothing; it gives the slot of the live block with that name, and 0 just if no live block has it. |
| `Answers.ReserveRefused` | executive/cvmx-bootmem-shared.c:599-632 | Nothing is reserved, and nothing changes, for a taken name, a full table or no name. |
| `Answers.ReserveAnswer` | executive/cvmx-bootmem-shared.c:599-652 | Otherwise the answer is the least wanted address, or 0 just if there is none; a block got fills the first unused slot with its address, its rounded size and the name cut to the compared length, and no other slot changes. |
| `Answers.ReserveOversize` | executive/cvmx-bootmem-shared.c:599-652 | A size that rounds to 0 is refused and changes nothing. |
| `Answers.ReleaseAnswer` | executive/cvmx-bootmem-shared.c:527-552 | Freeing by name fails, changing nothing, just if no live block has the name; otherwise exactly its bytes become free, its slot unused, and no other slot changes. |
| `Answers.ReleaseNothing` | executive/cvmx-bootmem-shared.c:527-552 | Freeing no name finds an unused slot, if there is one, and changes nothing. |
| `Lock.MicroKeeps` | executive/cvmx-bootmem-shared.c:519-652 | Inside the lock each statement leaves the rest of the call to do what the whole call does at once. |
| `Lock.MutualExclusion` | executive/cvmx-bootmem-shared.h:127-230 | At most one core is between a successful store-conditional and the unlocking store. |
| `Lock.MoveKeeps` | executive/cvmx-bootmem-shared.h:127-230 | Every instruction of the lock, lost reservations included, and every statement inside keeps the invariant. |
| `Lock.DoneIsSerial` | executive/cvmx-bootmem-shared.c:519-652 | A call that is about to return has the result and the state of the serial run. |
| `Lock.Serialisable` | executive/cvmx-bootmem-shared.h:127-230 | In every interleaving there is one order of the calls, that of taking the lock: each core's calls in it are those of its own call moves, in order, but for at most one that still waits; each return so far goes to its caller with the result of making the calls one after another; a free lock means the serial state with the partition of memory intact; at most one core holds the lock. |
| `Lock.EveryCallCanReturn` | executive/cvmx-bootmem-shared.h:127-230 | No run gets stuck: whatever reservations were lost, it can be continued, without new calls, to where every call made has returned. |
| `DfaQueue.DecodePacked` | executive/cvmx-dfa.h:406-442 | Base, ticket, turn and index decode from the packed register whether or not the ticket total has carried into the low bit of the base. |
| `DfaQueue.PackedTake` | executive/cvmx-dfa.h:565 | Adding a ticket to the packed register adds one to the total and disturbs no other field. |
| `DfaQueue.PackedRebase` | executive/cvmx-dfa.h:593-594 | The 32-bit base write replaces the base and clears the carry. |
| `DfaQueue.PackedPass` | executive/cvmx-dfa.h:606-607 | The 16-bit write sets turn and index; the carry of the ticket is lost. |
| `DfaQueue.TurnIsMine` | executive/cvmx-dfa.h:566-574 | A core whose 8-bit ticket equals the turn it saw really has the turn, with current index and base: the wrap cannot mislead it. |
| `DfaQueue.BaseDecodes` | executive/cvmx-dfa.h:406-442 | In every state of the invariant the decoded base is the current chunk and turn and ticket are the true ones modulo 256. |
| `DfaQueue.MutualExclusion` | executive/cvmx-dfa.h:574-607 | At most one core is between seeing its turn, the copy of its command included, and passing the turn on; it holds the ticket being served. |
| `DfaQueue.TakeTicketKeeps` | executive/cvmx-dfa.h:563-566 | Taking a ticket keeps the invariant. |
| `DfaQueue.CopyKeeps` | executive/cvmx-dfa.h:577-587 | Copying the command to its slot appends it to the log of the current chunk and keeps the invariant. |
| `DfaQueue.AllocChunkKeeps` | executive/cvmx-dfa.h:588 | A chunk from the pool is in use nowhere else; the invariant is kept. |
| `DfaQueue.WriteLinkKeeps` | executive/cvmx-dfa.h:591 | Writing the next pointer behind the last command keeps the invariant. |
| `DfaQueue.RebaseKeeps` | executive/cvmx-dfa.h:593-600 | Rewriting the base makes the new chunk the current one and keeps the invariant. |
| `DfaQueue.RingDoorbellKeeps` | executive/cvmx-dfa.h:602 | Ringing once for the written command keeps the invariant. |
| `DfaQueue.PassTurnKeeps` | executive/cvmx-dfa.h:606-607 | Passing the turn on keeps the invariant. |
| `DfaQueue.HardwareFetchKeeps` | executive/cvmx-dfa.c:76-90 | The hardware fetching a command, following the link and freeing a consumed chunk keeps the invariant. |
| `DfaQueue.StepKeeps` | executive/cvmx-dfa.h:556-608 | Every step of every core and of the hardware keeps the invariant while chunk allocation succeeds. |
| `DfaQueue.ConsumedInOrder` | executive/cvmx-dfa.h:556-608 | The hardware has consumed a prefix of the commands in ticket order, and doorbells never exceed written commands. |
| `DfaQueue.LinkBeforeDoorbell` | executive/cvmx-dfa.h:587-602 | Every chunk in use whose last doorbell has been rung has its link to the next chunk in place. |
| `DfaQueue.QuietMeansDone` | executive/cvmx-dfa.h:556-608 | With no busy core and no open doorbell every command has been consumed exactly once, in ticket order. |
| `DfaQueue.TurnIsHeld` | executive/cvmx-dfa.h:569-574 | While tickets are outstanding some core holds exactly the next one, and the register shows it its turn. |
| `DfaQueue.ChunkConserved` | executive/cvmx-dfa.h:587-600 | No step, failing allocation included, loses or invents a chunk. |
| `DfaQueue.InitialInv` | executive/cvmx-dfa.c:63-93 | Initialisation establishes the invariant. |
| `DfaQueue.RunsAreSafe` | executive/cvmx-dfa.h:556-608 | All of this over every run from initialisation: exclusion from the copy to the passing of the turn, base decoding for any number of commands, what the hardware fetched from memory a prefix of the commands the cores submitted, links in place, chunks conserved. |
| `DfaQueue.ShutdownReturnsAll` | executive/cvmx-dfa.c:99-119 | When all is quiet, the hardware has fetched exactly the submitted commands in order, and the base that shutdown decodes is the one chunk not in the pool; freeing it restores the pool. |
| `DfaQueue.EveryCommandCanBeFetched` | executive/cvmx-dfa.h:556-608 | With two chunks or more to start with, every run that has not run out of chunks can be continued, never finding the pool empty, to where all calls have returned and the hardware has fetched exactly the commands submitted, in ticket order. |
| `DfaQueue.StarvedBreaksLinks` | executive/cvmx-dfa.h:596-602 | One failed chunk allocation is enough to end that: after the next doorbell all commands of the last chunk are rung for and it has no successor. |
| `DfaQueue.StarvedReusesChunk` | executive/cvmx-dfa.h:596-607 | The base stays and the index goes back to 0, for the next turn to decode. |
| `DfaQueue.StarvedOverwrites` | executive/cvmx-dfa.h:577-602 | The core whose turn is next writes over the first command of the full chunk, and hardware that stood before it consumes the other command in its place. |
| `Barrier.BarrierSafe` | executive/cvmx-coremask.c:93-130 | For members of a mask: a core has left at most as many rounds as any member has entered, and entered rounds run at most two ahead of left ones. |
| `Barrier.NobodyLeavesEarly` | executive/cvmx-coremask.c:93-130 | Over every run in which only members call: no core leaves round k before every member has entered it, and each mask has one entry. |
| `Barrier.CallsBeforeReturns` | executive/cvmx-coremask.c:93-130 | Said of the moves of a run alone: for every mask, if a core has come back k times from calls with it, every core in that mask has called with it at least k times. |
| `Barrier.NoLostWakeup` | executive/cvmx-coremask.c:111-121 | When all members have entered a waiter's round and the lock is free, the exit counter equals its target. |
| `Barrier.ReleasedExactly` | executive/cvmx-coremask.c:111-121 | A waiter may go exactly when its round is complete; the counter never runs past its target, across the 32-bit wrap. |
| `Barrier.ReleasedStays` | executive/cvmx-coremask.c:116-121 | No step of another core, for this or another mask, takes away a waiter's permission to go. |
| `Barrier.HolderMoves` | executive/cvmx-coremask.c:100-129 | The holder of the lock always has a next step, and each brings it nearer to the release. |
| `Barrier.FailsJustWhenFull` | executive/cvmx-coremask.c:102-129 | A call past its search has run into the overflow error if and only if all twenty entries are taken by other masks, and those are twenty different ones. |
| `Barrier.EntriesStay` | executive/cvmx-coremask.c:104-107 | An entry once taken for a mask stays that mask's through every run. |
| `Barrier.ScanKeeps` | executive/cvmx-coremask.c:102-111 | Searching and claiming an entry keeps the invariant. |
| `Barrier.CheckInKeeps` | executive/cvmx-coremask.c:113 | Checking in keeps the invariant. |
| `Barrier.CompareKeeps` | executive/cvmx-coremask.c:114-115 | The comparison and the clearing of the check-ins keep the invariant. |
| `Barrier.SignalKeeps` | executive/cvmx-coremask.c:116 | Setting the exit counter completes the round for all members and keeps the invariant. |
| `Barrier.SpinKeeps` | executive/cvmx-coremask.c:120-123 | Polling and leaving keep the invariant. |
| `Barrier.StepKeeps` | executive/cvmx-coremask.c:93-130 | Every step keeps the invariant. |
| `Startup.LoopEnds` | executive/cvmx-app-init-linux.c:439-462 | The fork loop ends at the last CPU of the mask if all its CPUs are below sixteen, and behind the loop otherwise. |
| `Startup.LoopKeeps` | executive/cvmx-app-init-linux.c:439-462 | The parent's loop keeps: children are exactly those of the CPUs passed. |
| `Startup.ForkKeeps` | executive/cvmx-app-init-linux.c:449-460 | A fork adds one child for the current CPU and no CPU twice. |
| `Startup.CounterMoves` | executive/cvmx-atomic.h:73-91 | An LL/SC loop that stores adds its increment to the counter as it is at that moment, no other reservation survives, and no other step touches the counter. |
| `Startup.CountStore` | executive/cvmx-atomic.h:73-91 | A store whose value is the loaded one plus its increment keeps the count of processes right. |
| `Startup.CountKeeps` | executive/cvmx-app-init-linux.c:438-474 | The counter is the number of processes not yet counted off, the one about to be forked included. |
| `Startup.MaskKeeps` | executive/cvmx-app-init-linux.c:473 | The core mask has exactly the bits of the registered processes. |
| `Startup.ZeroMeansAll` | executive/cvmx-app-init-linux.c:473-480 | The counter is zero only after the parent has forked every child and every process has set its bit. |
| `Startup.SameMaskEverywhere` | executive/cvmx-app-init-linux.c:438-482 | In every interleaving each process reaches the barrier with the same mask, its own CPU in it, all processes counted: the affinity mask, if that is not 0 and lies below CPU 16, and otherwise its CPUs below 16 with CPU 16 added. |
| `Startup.AllCountedMeansZero` | executive/cvmx-app-init-linux.c:480 | Once every process has counted itself off the counter is zero: nobody spins in vain. |
| `Startup.EverybodyCanArrive` | executive/cvmx-app-init-linux.c:438-482 | No run gets stuck: as long as no fork and no pinning has failed, whatever reservations were lost, it can be continued to where every process is at the barrier. |
| `LogFormat.HeaderDecodes` | executive/cvmx-log.c:174-182 | Type, size and 53-bit cycle decode from the header word. |
| `LogFormat.ParseRecovers` | executive/cvmx-log.c:458-531 | The display loop recovers exactly the entries written to its part of the stream, wherever they lie. |
| `LogFormat.NothingZeroShown` | executive/cvmx-log.c:468-470 | Whatever is in the buffers, nothing with a zero time stamp is shown. |
| `LogFormat.RecoversJust` | executive/cvmx-log.c:458-531 | The display recovers the entries written, whole, if and only if none has a zero time stamp. |
| `LogFormat.ZeroCycleIsSkipped` | executive/cvmx-log.c:468-470 | The header of any entry with a zero time stamp is skipped, and its data are taken for headers. |
| `LogFormat.AnyHeader` | executive/cvmx-log.c:458-531 | What is shown for any word met as a header, however it got there, by arithmetic on its three fields: how many words are read behind it for each type and size, the entry shown, illegal sizes and unknown types, which read nothing more. |
| `LogFormat.NoHeader` | executive/cvmx-log.c:458-470 | A word without a time is passed over, and nothing is shown from the write position on. |
| `Log.StoreHolds` | executive/cvmx-log.c:192-219 | A stored word is appended to what the chain holds. |
| `Log.RotateHolds` | executive/cvmx-log.c:151-162 | Reusing the head buffer drops exactly its words; the rest is still the end of the history. |
| `Log.Log.Initialize` | executive/cvmx-log.c:112-124 | The buffers are chained and the pointers set up for an empty log. |
| `Log.Log.FullProcess` | executive/cvmx-log.c:151-162 | The head buffer becomes the last of the chain, ready to be written, history unchanged. |
| `Log.Log.Write` | executive/cvmx-log.c:192-219 | Every write appends one word to the history and keeps the chain and its contents in order. |
| `Log.Log.ContentsAreLatest` | executive/cvmx-log.c:112-219 | What can be read is the latest part of the history: all of it if and only if it fits in four buffers, and more than three full buffers otherwise. |
| `Log.Log.LogPc` | executive/cvmx-log.c:229-234 | Appends exactly the encoded entry. |
| `Log.Log.LogPrintf` | executive/cvmx-log.c:244-324 | Appends the encoded entry for zero to four arguments. |
| `Log.Log.LogData` | executive/cvmx-log.c:335-343 | Appends the encoded entry, cut to 255 words. |
| `Log.Log.LogStructure` | executive/cvmx-log.c:361-373 | Appends the encoded entry, cut to 254 words; a negative size counts as huge. |
| `Log.Log.LogPerf` | executive/cvmx-log.c:401-415 | Appends the encoded entry with both control words in one. |
| `Log.Log.Read` | executive/cvmx-log.c:424-452 | Returns the next word of the chain, 0 once behind its end, and a NULL dereference after that. |
| `Log.Log.Display` | executive/cvmx-log.c:458-531 | The loop shows what the parser makes of the words from the head to the write position, and ends in a NULL dereference exactly when that does. |
| `Log.Log.DisplayShowsContents` | executive/cvmx-log.c:458-531 | If what is left in the log encodes whole entries, the display shows exactly those, after reuse too, if and only if none has a zero time stamp. |
| `Log.Log.DisplayRecovers` | executive/cvmx-log.c:458-531 | Until the first reuse the display recovers exactly the entries logged, if and only if none has a zero time stamp. |
| `Flash.BuildRegions` | executive/cvmx-flash.c:213-235 | The computed start offsets lay the regions end to end over as many bytes as the query table describes; a size field n > 0 means blocks of 256 n bytes, 0 means 128, and a count field n means n + 1 blocks. |
| `Flash.BlocksApart` | executive/cvmx-flash.c:369-370 | Two blocks of the chip are the same or do not overlap. |
| `Flash.CoveredToUnique` | executive/cvmx-flash.c:648-667 | Where a write ends is determined by where its data end. |
| `Flash.AlignedJust` | executive/cvmx-flash.c:632-646 | An offset starts a block if and only if the block found by division starts there. |
| `Flash.Flash.EraseBlock` | executive/cvmx-flash.c:361-472 | Success sets the block to ones, failure disturbs at most the block, an unknown vendor changes nothing. |
| `Flash.Flash.WriteBlock` | executive/cvmx-flash.c:484-600 | Success programs each byte, failure disturbs at most the block, an unknown vendor changes nothing. |
| `Flash.Flash.FindChip` | executive/cvmx-flash.c:614-625 | The first chip whose range holds the whole write, if any. |
| `Flash.Flash.FindRegion` | executive/cvmx-flash.c:630-636 | The region that contains the address; the search ends. |
| `Flash.Flash.RegionSearchEnds` | executive/cvmx-flash.c:632-636 | The search stops inside its table if and only if the address lies before the end of the chip. |
| `Flash.Flash.RewriteBlock` | executive/cvmx-flash.c:651-656 | Erase and program leave the data whatever was there before. |
| `Flash.Flash.Write` | executive/cvmx-flash.c:608-670 | Success: the bytes up to the end of the block holding the last byte equal the data and no other byte changed, over regions of different block sizes. Failure: a run of whole blocks is written and at most one more is disturbed. Without a device error an aligned write to a supported chip succeeds; an unaligned one, or one to an unsupported chip, is refused untouched. |
| `Ecc.EccLinear` | executive/cvmx-llm.h:157-193 | The code is linear over exclusive or for values of any width. |
| `Ecc.EccBits` | executive/cvmx-llm.h:157-193 | Bit i of the code is the parity of the value under the i-th mask of the table, and the code has seven bits. |
| `Ecc.EccBit` | executive/cvmx-llm.h:157-193 | The code of a single bit has the marks of exactly the masks that contain it. |
| `Ecc.ColumnWeight` | executive/cvmx-llm.h:160-167 | Each of the 29 data bits goes into exactly three code bits. |
| `Ecc.ColumnsDiffer` | executive/cvmx-llm.h:160-167 | No two data bits go into the same three code bits. |
| `Ecc.MinimumWeight` | executive/cvmx-llm.h:157-193 | A nonzero 29-bit value and its code have at least four ones together. |
| `Ecc.MinimumDistance` | executive/cvmx-llm.h:157-193 | The 36-bit words of different values differ in at least four bits. |
| `Ecc.SingleErrorCorrectable` | executive/cvmx-llm.h:157-193 | A word with at most one wrong bit comes from one value only. |
| `Ecc.DoubleErrorDetectable` | executive/cvmx-llm.h:157-193 | A word with two wrong bits is within one bit of no code word. |
| `Fpa.LegalIsBuffer` | executive/cvmx-fpa.c:149-150 | The address test of shutdown accepts exactly the buffers put in at set-up. |
| `Fpa.ShutdownCountsMissing` | executive/cvmx-fpa.c:134-193 | Without foreign or duplicate buffers shutdown returns the number missing, or 0 within the tolerance of pools 0 and 1. |
| `Fpa.ShutdownValidates` | executive/cvmx-fpa.c:134-193 | For other pools, duplicates aside, the result is 0 if and only if the pool holds exactly its buffers. |
| `Fpa.ShutdownZero` | executive/cvmx-fpa.c:134-193 | For any contents of any pool, up to counts that would wrap a 64-bit word, the result is 0 if and only if every buffer is one of the pool's, there are no more of them than were put in, and no more are missing than is tolerated. |
| `Fpa.ShutdownValue` | executive/cvmx-fpa.c:134-193 | The result for any contents: 2^64 less the number of foreign buffers as soon as there is one; else 2^64 less the surplus if there are more than were put in; else what is missing, or 0 if at most 96 are missing from pool 0 or 64 from pool 1. |
| `Fpa.ZeroIsWhole` | executive/cvmx-fpa.c:134-193 | For a pool without tolerance a zero result means that it holds exactly its buffers, each once, if and only if no buffer came back twice. |
| `Fpa.DuplicateHidesLoss` | executive/cvmx-fpa.c:134-193 | The smallest case: one of two buffers returned twice makes up for the other in the count. |
| `Fpa.ReturnedEach` | executive/cvmx-helper.h:306-325 | Each pool gets its own buffers of the packet back, once each and in chain order. |
| `Fpa.PacketConserves` | executive/cvmx-helper.h:306-325 | Freeing a packet restores the contents of the pools its buffers were taken from. |
| `Fpa.StartOfBuffer` | executive/cvmx-helper.h:318-319 | From any address in a buffer, with the number of cache lines back to its start, the computation finds that start. |
| `PoolUnit.Pools.SetupPool` | executive/cvmx-fpa.c:83-122 | A valid set-up records the pool and puts each of its buffers in once; an invalid one changes nothing. |
| `PoolUnit.Pools.ShutdownPool` | executive/cvmx-fpa.c:134-193 | Draining in any order empties the pool and returns the specified result. |
| `PoolUnit.Pools.FreePacketData` | executive/cvmx-helper.h:306-325 | The walk gives back the start of every buffer of the chain, found from data address and cache lines back, although the hardware overwrites each buffer as it is freed. |
| `Fpa.ClaimFacts` | executive/cvmx-helper.c:138-144 | The memory for a pool is cache-line aligned, handed out as a block of its own, and the partition of boot memory is kept. |
| `Fpa.PoolAnswer` | executive/cvmx-helper.c:126-146 | One set-up: skipped for no buffers or a pool in use; else -1 just if boot memory has no place for size times count bytes at a cache line; else 0, and the pool has its buffers one behind the other from the least such address, or, below 128 bytes, stays empty with the memory taken. Other pools do not change. |
| `Fpa.InitPoolsAnswer` | executive/cvmx-helper.c:149-198 | All set-ups: 0, and then every pool wanted with buffers of at least 128 bytes has some; or -1 because one set-up, those before it done, finds no room, and no pool changes after that. A pool in use keeps its contents. |
| `PoolRuns.SetUpKeeps` | executive/cvmx-helper.c:126-146 | A set-up keeps: every set-up has a block of its own, what a pool holds and what is out of it are the buffers put in, and boot memory is partitioned. |
| `PoolRuns.BootKeeps` | executive/cvmx-bootmem-shared.c:101-652 | So does every operation of boot memory. |
| `PoolRuns.EventKeeps` | executive/cvmx-helper.c:126-146 | So does every event, buffers taken from pools and given back included. |
| `PoolRuns.PoolsInEveryRun` | executive/cvmx-helper.c:126-198 | Over every run from empty pools no two buffers ever made overlap, each of their bytes is initial memory that is neither free nor named, and each buffer is in its pool or out, once. |
| `PoolRuns.ShutdownAfterRun` | executive/cvmx-fpa.c:134-193 | After every run, shutting down a pool that was set up once returns the number of its buffers still out, or 0 within the tolerance. |
| `PoolRuns.InitPoolsIsRun` | executive/cvmx-helper.c:149-198 | The helper's set-ups in turn are such a run, also when one fails, and leave each pool empty or with all buffers of its description. |
| `PoolRuns.InitializedPoolsDisjoint` | executive/cvmx-helper.c:149-198 | After the helper's set-ups no two entries of pools that were empty before overlap, and their bytes are initial memory that is neither free nor named, whatever other pools hold. |
| `PoolUnit.Pools.InitializePool` | executive/cvmx-helper.c:126-146 | The helper's set-up on real boot memory is the specified one; a buffer size below 128 takes the memory, returns 0 and leaves the pool empty, and one negative factor asks for more than any memory has and fails. |
| `PoolUnit.Pools.InitializeAll` | executive/cvmx-helper.c:149-198 | Five set-ups in turn, pools with a negative number skipped, ending at the first failure; afterwards the buffers of all pools that were empty on entry lie apart from one another and from all memory that is free or named. |

## Left out

- BootMemory.BootMem.AllocBlock: does not cover a size above 2^64-16 for which some entry's base lies below its end and the maximum; OversizeBreaksList says that the list is destroyed then. NamedBlockAlloc, which rounds before it allocates, has no such condition.
- BootMemory.BootMem.AllocRange: leaves out the same requests, for the same reason.
- BootMemory.BootMem.FreeBlock: does not say what a double free or a wrong size in the middle of the list does to it; the code makes that the caller's business. A block that runs into the first entry is covered: it is refused.
- The bounded addressing of N32 Linux programs and its memory maps, all printing, and the list order check that only reports a corrupted list.
- `BootMem` keeps the named table in a field of its own: that the table lies in memory the allocator never manages is taken from the boot loader. Names are strings without a terminator.
- Memory ordering instructions: steps are sequentially consistent. Spinlocks other than that of boot memory are atomic.
- Lock.EveryCallCanReturn: says that a core can get the lock, not that it will: LL/SC makes no such promise. The same holds for EverybodyCanArrive and the increments of the start-up counter.
- DfaQueue.StepKeeps: does not cover the step in which no chunk can be had, which the source reports as leading to crashes; StarvedBreaksLinks and StarvedOverwrites show that nothing like it could hold there.
- DfaQueue: the polling delay, and memory contents of a chunk other than its command slots and next pointer.
- Barrier.NobodyLeavesEarly: does not cover callers outside their own mask, whose check-in never completes a round. Assertions are taken as enabled, so a full table ends the call.
- Startup: parsing of system information, shared memory set-up and the program's own main function. Failures of fork and of pinning are steps; the system calls behind them are not.
- Log.Log.Write: does not model a debugger that empties the log when it is full; the assembly shortcut for program counters is not modelled, it falls back on the C function when fewer than two words are left.
- Log.Log.Display: shows entries as values; C's order of evaluating the arguments of printf is taken as format first, then arguments in order.
- Flash.Flash.Write: does not cover a write of no bytes, or of a negative length, whose chip ends at or before the address: by RegionSearchEnds the source then reads past its region table.
- Flash.Flash.EraseBlock: does not model status polling and time-outs: an erase or a byte succeeds or fails.
- Flash: the query commands themselves; BuildRegions starts from the values read. A region table larger than eight entries, which the source would write past, is excluded.
- Ecc: the layout of the fields of a node, apart from the code lying above the 29 bits it covers. cvmx_llm_parity, whose result is a population count and not a single bit, has no statement of its own.
- PoolUnit.Pools.InitializePool: does not cover a negative size together with a negative count, for which the source would free close to 2^64 buffers, nor a product of -1 to -15 bytes, which is the destructive size of AllocBlock.
- PoolUnit.Pools.InitializeAll: leaves out the same requests.
- PoolUnit.Pools.FreePacketData: does not cover chains that are not well formed.
- PoolRuns: the owner of a buffer gives it back to the pool it came from, once; what shutdown makes of a buffer given back twice is ZeroIsWhole.
- Fpa: the reading of hardware counters by which the helper sees that a pool is in use is the length of the pool's contents; enabling the unit and names of pools are not modelled.
- The wrappers in executive/cvmx-bootmem.c that only fill in default arguments.
- Register-level set-up of interfaces, interrupts and timers: no invariant beyond the values written.
