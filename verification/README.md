# Reloaded.Memory.Buffers: a verified model

The library hands out permanent, shared memory buffers that lie between two addresses. Buffers are registered in a
chain of *locators*: a locator is a 4096-byte header with a fixed number of item slots, and an item is an address range
with a write position and a lock. A request takes the first unlocked item that serves it; if there is none, fresh memory
is placed near the wanted address and registered; if the locator is full, the next one is used or created.

The project models the Rust code (and the C# chunking loop, see below) and proves what the library promises: buffers are
*static* (nothing moves or is overwritten), *concurrent* (any number of users at the same time) and placed where they were
asked for.

| part | files |
|---|---|
| word arithmetic, ranges | `Machine.dfy` |
| the four candidate addresses of a free region | `Placement.dfy`, `Placeability.dfy` |
| free regions and the three region walks, over an operating system given by contracts | `Os.dfy`, `MapParser.dfy`, `AllocatorLinux.dfy`, `AllocatorWindows.dfy`, `GranulePass.dfy`, `AllocatorOsx.dfy`, `BufferAllocator.dfy` |
| settings | `Settings.dfy` |
| items, headers, the chain, as objects changed in place | `LocatorItems.dfy`, `LocatorHeaders.dfy`, `Buffers.dfy` |
| what a request means on one flat list; where everything lies; aligned and proximity requests; whole sequential runs | `Replies.dfy`, `Layout.dfy`, `Alignment.dfy`, `Proximity.dfy`, `Runs.dfy` |
| the registration protocol: any number of agents, every interleaving | `Protocol.dfy`, `ProtocolInvariant.dfy`, `ProtocolSteps.dfy`, `ProtocolRuns.dfy`, `ProtocolProgress.dfy`, `ProtocolRace.dfy` |
| how the threads of a process agree on the first locator | `Finder.dfy` |

## Results that are false as one would expect them

Each is kept as the code has it, with a concrete case and the exact condition.

- **The chunks of the Rust initialiser alias.** Its loop does not advance the address, so all chunks of a granule begin
  at the same byte, against its own documentation. They are disjoint if and only if there is at most one, that is, for
  granules of at most 20480 bytes (`ChunksApart`); with 64 KiB there are four (`RustChunksExample`). The C# loop does
  advance; exactly for those granules the two loops agree. The chain and the protocol are modelled with it, and what
  they say about disjoint memory is about it.
- **The overflow cap hides an overrun.** A candidate may end past the last word when both ranges reach it
  (`CapHidesOverrunExample`); `CandidatesSound` shows that this is the only shape in which a candidate does not fit.
- **A sanitized size collapses to zero** exactly when the rounded size no longer fits 32 bits (`SanitizedSize`,
  `SizeCollapsesExample`).
- **Linux misses exact fits**: a gap ends at an inclusive address that placement treats as exclusive
  (`ExactFitMissedExample`). `Placeable` states the byte of slack that is needed, and `AllocateLinux` succeeds exactly
  when such a place exists.
- **The brute-force pass of Windows alone can miss a place**: it steps by granules from wherever the search starts, so it
  may never look at the region that has room (`GranulePassMissesExample`). It misses nothing, in any map, if and only if
  it starts in the first page of a granule or no whole granule is left above its start (`GranulePassExact`).
- **An aligned request can return too little room** when `size + alignment - 1` does not fit 32 bits; `EnlargedExact`
  shows that this condition is exact whenever any item can be found. The position may even leave the buffer
  (`WrappedSumLeavesBuffer`); it stays inside if and only if the next aligned address does (`AlignedItemExact`).
- **The room left may shrink between the check and the lock.** `can_use` is evaluated before the item's lock is tried.
  `RoomMayShrink` is a run in which a request for 4096 bytes gets an item with 4095 left. The limits on the place always
  hold (`HeldWithinLimits`). The request is still served exactly if no more was used up in between than was to spare, and
  only other agents that held the item can have used it (`LockedAsChecked`). An item that the request itself registered
  always serves it (`FreshItemServes`). So an append of just the bytes that were asked for need not fit,
  against what `append_bytes` documents (`AppendOfRequestMayOverrun`).
- **After that race an aligned request may move the position past the end of its buffer**, which nothing checks
  (`AlignedMoveMayLeave`). It stays inside if and only if the next aligned address does (`AlignedMoveExact`); every power of
  two up to the documented maximum of 4096 is safe in every interleaving, because buffers end where pages do
  (`RegularMoveIsSafe`).
- **A locator can be used before it is set up.** The cached address of the first locator and the next pointer of a full
  one are stored before the new header is initialised, and both are read without a lock. A call that found an address
  in the cache can return a locator that nobody has initialised yet (`ReturnedTooEarly`); it is initialised exactly
  when nobody is still at that step, and always for a call that found the cache empty (`ReturnedIsReady`). Who works on
  such a locator can get an item that the initialisation then frees for somebody else (`EnteredTooEarly`).
- **What the protocol promises rests on three things that the code does not check**: a locator is entered only when it
  is set up, appended data fits in the bytes left, and an aligned move goes to an address in the buffer or has a
  regular alignment. `CareIsExact` shows that a possible step keeps the invariant and moves nothing shared if and only
  if it is careful in this sense; runs of the protocol consist of careful steps.
- **In the private build two overlapping first calls create two locators**, because the cache is not checked again under
  the lock (`PrivateFindsDiffer`); all calls agree exactly if at most one found the cache empty (`PrivateFindsAgree`).

## Model

| member | source | states |
|---|---|---|
| Machine.RoundUpMeaning | src-rust/src/utilities/mathematics.rs:7-19 | Rounding up on words gives the least multiple not below the number, unless that is no word; then the wrapped result falls below the number. |
| Machine.CeilToIsLeast | src-rust/src/utilities/mathematics.rs:7-19 | The rounded-up number is aligned, less than one step above, and not above any other aligned number that is large enough. |
| Machine.RoundDownIsGreatest | src-rust/src/utilities/mathematics.rs:27-39 | The rounded-down number is aligned and the greatest aligned one that is not above the number. |
| Placement.GetPossibleBufferAddresses | src-rust/src/internal/buffer_allocator.rs:29-113 | The in-place result array holds exactly the specified candidates, in the order in which they are tried. |
| Placement.CandidatesSound | src-rust/src/internal/buffer_allocator.rs:60-112 | Every candidate is aligned and fits in both ranges if and only if the ranges are not the one shape in which the overflow cap hides an overrun. |
| Placement.CandidatesComplete | src-rust/src/internal/buffer_allocator.rs:29-113 | If any aligned address fits, the candidates contain the lowest and the highest one that fit; early exits and wrapped rounding lose none. |
| Placement.CapHidesOverrunExample | src-rust/src/internal/buffer_allocator.rs:90-99 | A candidate whose block runs past the end of the address space. |
| Placeability.SomeCandidateIsFree | src-rust/src/internal/buffer_allocator.rs:29-113 | If a non-null block fits in a free region, one of the candidates is an address at which the system can serve it. |
| MapParser.GetFreeRegions | src-rust/src/utilities/map_parser_utilities.rs:49-73 | The result is sorted and disjoint, meets no mapping, contains every unmapped address up to the last one, and each region ends just below a mapping or at the last address. |
| AllocatorLinux.CurrentGaps | src-rust/src/internal/buffer_allocator_linux.rs:18-20 | The gaps read from the map are unmapped, in order, as wide as possible, and cover all unmapped addresses. |
| AllocatorLinux.TryAllocateBuffer | src-rust/src/internal/buffer_allocator_linux.rs:40-77 | Success maps exactly one block that lies in the gap and in the limits; failure undoes a mapping placed elsewhere and leaves the map alone; a granting system fails only when the gap has no room. |
| AllocatorLinux.AllocateLinux | src-rust/src/internal/buffer_allocator_linux.rs:15-38 | Success maps exactly one acceptable block, failure changes nothing; under a granting system and with a retry it succeeds if and only if the map has a place, so the early break loses nothing. |
| AllocatorLinux.PlaceableInGap | src-rust/src/internal/buffer_allocator_linux.rs:19-23 | Every placeable block has room in one of the gaps, which starts below the highest address asked for. |
| Placeability.ExactFitMissedExample | src-rust/src/utilities/map_parser_utilities.rs:53-59 | A map with exactly one acceptable block, which the Linux walk cannot find. |
| Placeability.PlacedOnPages | src-rust/src/internal/buffer_allocator.rs:60-112 | Placed blocks begin and end at multiples of 4096. |
| AllocatorWindows.TryAllocateBuffer | src-rust/src/internal/buffer_allocator_windows.rs:244-283 | Success maps exactly one block inside the region; failure leaves the map alone; a granting system fails only if the region is taken or has no room. |
| AllocatorWindows.StepOverRegion | src-rust/src/internal/buffer_allocator_windows.rs:198-213 | Adding the region size keeps the offset in the page and skips no placeable block, whatever the offset is. |
| AllocatorWindows.StepOverGranule | src-rust/src/internal/buffer_allocator_windows.rs:219-236 | A step of one granule from the first page of a granule skips no placeable block. |
| AllocatorWindows.WalkRegions | src-rust/src/internal/buffer_allocator_windows.rs:194-214 | The walk ends; under a granting system it finds nothing only when nothing is placeable. |
| AllocatorWindows.BruteForce | src-rust/src/internal/buffer_allocator_windows.rs:219-236 | The granule-by-granule pass is exact when it starts in the first page of a granule, and never does harm. |
| GranulePass.GranulePassExact | src-rust/src/internal/buffer_allocator_windows.rs:219-236 | The pass alone looks at a region with room in every map that has a place if and only if it starts in the first page of a granule or no whole granule is left above its start. |
| GranulePass.GranulePassMissesExample | src-rust/src/internal/buffer_allocator_windows.rs:219-236 | A map with a place that the pass from one page into a granule never looks at. |
| AllocatorWindows.AllocateFast | src-rust/src/internal/buffer_allocator_windows.rs:187-242 | Success maps exactly one acceptable block, failure changes nothing; under a granting system with a retry, or with brute force from the first page of a granule, success if and only if a place exists. |
| AllocatorOsx.WalkGaps | src-rust/src/internal/buffer_allocator_osx.rs:33-93 | The gaps offered are unmapped, maximal within the search and in order; a walk that finds nothing has offered every free address of the search, and then nothing is placeable. |
| AllocatorOsx.AllocateOsx | src-rust/src/internal/buffer_allocator_osx.rs:17-100 | Success maps exactly one acceptable block, failure changes nothing; under a granting system success if and only if a place exists. |
| BufferAllocator.Allocate | src-rust/src/internal/buffer_allocator.rs:10-27 | The settings are sanitized; success gives a block for the sanitized settings in previously unmapped memory, and failure under a granting system means there is none. |
| Settings.SanitizedSize | src-rust/src/structs/params/buffer_allocator_settings.rs:75-86 | The sanitized size is a whole number of granules, covers the request exactly when the rounded size fits 32 bits, and is zero exactly when it does not. |
| Settings.SizeCollapsesExample | src-rust/src/structs/params/buffer_allocator_settings.rs:82-85 | A request for almost four gigabytes of which nothing is left. |
| LocatorItems.CanUseServes | src-rust/src/structs/internal/locator_item.rs:111-126 | The test with wrapping and saturating arithmetic is true exactly when the bytes asked for are left and all that is left lies between the limits. |
| LocatorItems.TryLock | src-rust/src/structs/internal/locator_item.rs:69-72 | The lock is taken in any case; the caller gets it exactly if it was free; nothing else changes. |
| LocatorItems.AppendBytes | src-rust/src/structs/internal/locator_item.rs:181-192 | The data is written at the write position, whose address is returned; only the position of that item and those bytes change. |
| LocatorItems.SafeLocatorItem.Drop | src-rust/src/structs/safe_locator_item.rs:77-84 | Dropping the token frees the lock of its item and changes nothing else. |
| LocatorHeaders.MaxItemCount | src-rust/src/structs/internal/locator_header.rs:32-33 | 255 items fit with 4-byte pointers and 203 with 8-byte pointers. |
| LocatorHeaders.SlotsBeforeBuffers | src-rust/src/structs/internal/locator_header.rs:32-33 | A slot index is allowed exactly when the slot ends before the first buffer begins. |
| LocatorHeaders.ChunksPartition | src/Reloaded.Memory.Buffers/Structs/Internal/LocatorHeader.cs:99-112 | The chunks are contiguous, sum to the tail, all but the last have 16384 bytes, and their number is the quotient rounded up. |
| LocatorHeaders.ChunksApart | src-rust/src/structs/internal/locator_header.rs:91-107 | The chunks of the C# loop never share a byte; those of the Rust loop do not, and are those of the C# loop, if and only if there is at most one. |
| LocatorHeaders.RustChunksAlias | src-rust/src/structs/internal/locator_header.rs:91-107 | All chunks of the Rust loop have one address. |
| LocatorHeaders.RustChunksExample | src-rust/src/structs/internal/locator_header.rs:91-107 | With granules of 64 KiB, four overlapping buffers. |
| LocatorHeaders.LocatorHeader.Initialize | src/Reloaded.Memory.Buffers/Structs/Internal/LocatorHeader.cs:92-115 | The header ends unlocked, without successor, with exactly the chunks of its tail registered. |
| LocatorHeaders.LocatorHeader.GetFirstAvailableItemLocked | src-rust/src/structs/internal/locator_header.rs:222-245 | The first unlocked item that serves the request is locked, and nothing else changes; none is returned exactly when there is none. |
| LocatorHeaders.LocatorHeader.TryAllocateItem | src-rust/src/structs/internal/locator_header.rs:271-318 | One locked item in previously unmapped memory is added behind the others, or header and map are unchanged; the two errors are told apart exactly, and the header ends unlocked. |
| LocatorHeaders.LocatorHeader.GetNextLocator | src/Reloaded.Memory.Buffers/Structs/Internal/LocatorHeader.cs:238-261 | An existing successor is returned unchanged; otherwise one that is not full is created in fresh memory and linked, or nothing changes; the header ends unlocked. |
| Layout.TidyLocator | src/Reloaded.Memory.Buffers/Structs/Internal/LocatorHeader.cs:92-115 | A new locator in a fresh granule leaves all header and buffer ranges mapped and pairwise disjoint. |
| Layout.TidyRegistered | src-rust/src/structs/internal/locator_header.rs:293-310 | So does a buffer registered in fresh memory. |
| Replies.ScannedPart | src-rust/src/structs/internal/locator_header.rs:222-245 | Scanning one locator is scanning its stretch of the flat list. |
| Replies.PassedThenReply | src-rust/src/buffers.rs:215-222 | Answering from the next locator on, after a full one with nothing usable, is answering on the whole list; at most one locator is created, after the last one and only when it is full. |
| Buffers.BufferLocators.TryLocator | src-rust/src/buffers.rs:190-213 | One locator answers for the whole list unless it is full and has nothing usable, and then nothing has changed. |
| Buffers.BufferLocators.NextLocator | src-rust/src/buffers.rs:215-222 | Goes to the successor, or links one new locator behind the last, which was full; the chain invariant is kept. |
| Buffers.BufferLocators.GetBufferRecursive | src-rust/src/buffers.rs:186-225 | Ends, visiting every locator at most once; the answer is that of the flat list; all locators stay linked in order, full if they have a successor, unlocked, and all memory ranges stay disjoint. |
| Buffers.BufferLocators.GetBuffer | src-rust/src/buffers.rs:114-118 | The first unlocked usable item of the whole list is locked; fresh memory is registered only if no item of any locator is usable; on error no lock, position or item has changed; the map changes by exactly the granule of a new locator and the block of a new item; the placement error is honest under a granting system. The call is a step of the recorded run. |
| Buffers.BufferLocators.GetBufferAligned | src-rust/src/buffers.rs:70-93 | For every size and alignment, the enlarged request is answered as above and then the item found is moved as the code computes it, also when that leaves the buffer. If the next aligned address lies in the buffer, all stays valid and both steps are recorded; it does, with the requested bytes left behind it, if the enlarged size fits 32 bits. |
| Buffers.BufferLocators.AlignItem | src-rust/src/buffers.rs:81-91 | The exact new item, also when the move leaves the buffer; otherwise the move is a recorded step that keeps the chain valid. |
| Buffers.BufferLocators.AppendBytes | src-rust/src/structs/safe_locator_item.rs:50-52 | An append to a held item is a recorded step on the flat list: bytes written, position moved, all else unchanged. |
| Buffers.BufferLocators.Release | src-rust/src/structs/safe_locator_item.rs:77-84 | A release is a recorded step on the flat list: one lock freed, all else unchanged. |
| Buffers.BufferLocators.AllSound | src-rust/src/structs/internal/locator_item.rs:111-126 | In every valid state of the object, every item of every locator lies in the address space, and all that a caller can see is valid. |
| Buffers.BufferLocators.StaticSoFar | README.md:34-40 | After any sequence of calls on the object, no buffer has moved or changed its size since any earlier call, and no byte handed out by then has changed. |
| Buffers.BufferLocators.ReadableNow | README.md:34-40 | Whatever any earlier call on the object appended can be read in memory now. |
| Alignment.AlignedServes | src-rust/src/buffers.rs:75-92 | For any alignment, the next write address is the least aligned one, the requested bytes remain, and the rest lies between the limits. |
| Alignment.AlignedItemExact | src-rust/src/buffers.rs:81-91 | In all cases, with all wrapping, the new position lies between the old one and the end if and only if the next aligned address lies in the buffer, and then it is that address. |
| Alignment.RegularStaysInside | src-rust/src/buffers.rs:48-48 | In a buffer that ends where a page does, an alignment that divides 4096 never leaves the buffer. |
| Alignment.EnlargedExact | src-rust/src/buffers.rs:75-79 | Every item found for the enlarged request serves the original one after the move if and only if the sum fits 32 bits or no item can be found, for all limits. |
| Alignment.WrappedSumLeavesBuffer | src-rust/src/buffers.rs:75-91 | An item that is moved past its end when the sum wraps. |
| Runs.AnsweredKeeps | src-rust/src/buffers.rs:186-225 | An answered request keeps every item at its index with its address, size and position, and takes at most one lock, which was free. |
| Runs.RunKeeps | README.md:34-40 | Over any sequence of requests, aligned moves, appends and releases no item changes index, address or size, no position goes back, and no byte behind a position changes. |
| Runs.AppendedStays | README.md:34-40 | What was appended can be read back at its address at any later time. |
| Proximity.AppendedIsNear | src-rust/src/structs/params/buffer_search_settings.rs:38-44 | Whatever item answers a request from a proximity, every byte appended to it later lies within the proximity of the target; the requested bytes are there exactly when their number fits 32 bits. |
| Proximity.AllocatedIsNear | src-rust/src/structs/params/buffer_allocator_settings.rs:65-86 | A private block for settings from a proximity lies within the proximity of the target as a whole, and has the requested bytes exactly when their number fits 32 bits. |
| ProtocolSteps.StepKeeps | src-rust/src/structs/internal/locator_header.rs:222-360 | Every careful atomic step of every agent keeps the invariant of the protocol and moves nothing that is shared. |
| ProtocolSteps.WritingStep | src-rust/src/structs/internal/locator_header.rs:300-306 | The slot written is the first one after those in use: a slot is written once. |
| ProtocolSteps.LinkedOk | src/Reloaded.Memory.Buffers/Structs/Internal/LocatorHeader.cs:238-261 | Linking a new locator, not yet set up, to the last one keeps all locators in order and all ranges owned by one header or slot. |
| ProtocolSteps.NewHeaderOk | src/Reloaded.Memory.Buffers/Structs/Internal/LocatorHeader.cs:92-115 | Once it is set up, the header and each chunk of a new locator own their own bytes, and a slot is left. |
| ProtocolInvariant.CopiedKept | src-rust/src/structs/internal/locator_item.rs:181-192 | Data that was copied stays, whatever another agent does that holds another item. |
| ProtocolRuns.RunInv | src-rust/src/structs/internal/locator_header.rs:148-360 | The invariant holds in every state of every run of any number of agents, from the setting up of the first locator on. |
| ProtocolRuns.RunGrows | README.md:34-40 | Over any stretch of a run, locators and buffers stay where they are with their sizes, counts and positions do not go back, a successor is set once, and the log of appends only grows. |
| ProtocolRuns.MutualExclusion | src-rust/src/structs/internal/locator_item.rs:69-98 | No two agents hold the same item, are in the critical section of the same locator, or set up the same locator. |
| ProtocolProgress.RunOwned | src-rust/src/structs/internal/locator_header.rs:148-190 | In every reachable state every lock that is taken, of a locator or of an item, has an owner, and every locator not set up has an agent that is about to do it. |
| ProtocolProgress.OwnerMovesOn | src-rust/src/structs/internal/locator_header.rs:271-360 | Whatever the system answers, each step of the owner of a locator's lock brings it closer to giving the lock back, in at most five steps. |
| ProtocolProgress.NeverStuck | src-rust/src/structs/internal/locator_header.rs:222-360 | Every agent can move on in the code, waits for a lock whose owner is another agent that can, or is about to enter a locator that another agent can set up now. |
| ProtocolRuns.Disjoint | src/Reloaded.Memory.Buffers/Structs/Internal/LocatorHeader.cs:92-261 | All headers and all registered buffers of the whole chain are pairwise disjoint in every reachable state. |
| ProtocolRuns.AppendsDisjoint | src-rust/src/structs/internal/locator_item.rs:181-192 | No two appends of a run share a byte, whichever agents made them. |
| ProtocolRuns.AppendedStays | README.md:34-40 | Every append lies in its buffer and can be read back in every later state, while others allocate, append and release. |
| ProtocolRuns.Registration | src-rust/src/structs/internal/locator_header.rs:277-310 | A locator that is set up never has more items than it has room for, all its slots are initialised, and whoever is about to write a slot writes one that was never written. |
| ProtocolRuns.Publication | src-rust/src/structs/internal/locator_header.rs:297-310 | An item becomes visible only through the agent that wrote it, one at a time, already locked and held by that agent, and serves its whole request. |
| ProtocolRuns.FreshItemServes | src-rust/src/structs/internal/locator_header.rs:303-309 | A request answered with an item it has registered is served in full, whatever the others do. |
| ProtocolRuns.Chain | docs/specification/buffer-locator.md:45-45 | A locator has a successor exactly when a later one exists; it is the one created next; only a full locator has one; only the last one may still have to be set up. |
| ProtocolRuns.Creation | src-rust/src/structs/internal/locator_header.rs:326-360 | A locator is created only behind the last one, from no successor to one, by the agent in its critical section, which goes on to set it up. |
| ProtocolRuns.SetUp | src/Reloaded.Memory.Buffers/Structs/Internal/LocatorHeader.cs:92-115 | A locator is set up by the agent that created it: unlocked, without successor, not full, with exactly the chunks of its granule. |
| ProtocolRace.HeldWithinLimits | src-rust/src/structs/internal/locator_header.rs:230-240 | Whoever holds an item can write only within the limits of its request. |
| ProtocolRace.PositionMovesByHolder | src-rust/src/structs/internal/locator_item.rs:181-192 | A step of an agent that does not hold an item leaves its position. |
| ProtocolRace.LockedAsChecked | src-rust/src/structs/internal/locator_header.rs:230-240 | The item served the request when it was checked, and still does when it is locked if and only if its position has moved by no more than was to spare; any move was made by another agent that held it. |
| ProtocolRace.RoomMayShrink | src-rust/src/structs/internal/locator_header.rs:230-240 | A run in which a request gets an item with fewer bytes than it asked for. |
| ProtocolRace.AppendOfRequestMayOverrun | src-rust/src/structs/safe_locator_item.rs:35-52 | A run after which an append of just the requested number of bytes goes past the end of the buffer. |
| ProtocolRace.AlignedMoveMayLeave | src-rust/src/buffers.rs:81-91 | A run after which an aligned request, whose enlarged size was there when it was checked, moves the position past the end of the buffer. |
| ProtocolRace.AlignedMoveExact | src-rust/src/buffers.rs:81-91 | In every interleaving the move leaves the item in order if and only if the next aligned address lies in its buffer. |
| ProtocolRace.RegularMoveIsSafe | src-rust/src/buffers.rs:48-48 | In every interleaving an alignment that divides 4096 stays in the buffer and keeps the invariant. |
| ProtocolRace.CareIsExact | src-rust/src/structs/internal/locator_header.rs:148-360 | From a state with the invariant, a step that the code can take keeps the invariant and moves nothing shared if and only if it enters a locator that is set up, appends what fits, and aligns within the buffer. |
| ProtocolRace.EnteredTooEarly | src-rust/src/internal/locator_header_finder.rs:170-182 | A run in which an agent enters the first locator before it is set up, and two agents then hold one item. |
| Finder.FindsAgree | src-rust/src/internal/locator_header_finder.rs:39-56 | All calls of all threads return the same address and at most one locator is created: that one is returned, or the address in a file that was there before. |
| Finder.SharedStep | src-rust/src/internal/locator_header_finder.rs:156-182 | Each step of the search under the lock, in any interleaving, keeps the agreement. |
| Finder.PrivateFindsAgree | src-rust/src/internal/locator_header_finder.rs:185-206 | In the private build all finished calls agree if and only if at most one of them found the cache empty. |
| Finder.PrivateFindsDiffer | src-rust/src/internal/locator_header_finder.rs:39-56 | A run of two overlapping calls of the private build that return different locators. |
| Finder.ReturnedIsReady | src-rust/src/internal/locator_header_finder.rs:39-56 | In both builds, without a file left over, a returned locator is initialised exactly when nobody is still initialising it, and always for a call that found the cache empty. |
| Finder.ReturnedTooEarly | src-rust/src/internal/locator_header_finder.rs:170-182 | A run in which a call returns the cached address of a locator that is not initialised yet. |

## Left out

- Real system calls, page permissions and instruction caches: the system is a set of mapped addresses with contracts; a *granting* one serves every request it could serve. Its last word is never mapped.
- `/proc` parsing, the memory-mapped file's creation and its clean-up: the model starts from a sorted map and from a file that exists or not.
- Windows: a block placed elsewhere is leaked, since `VirtualFree` with a size is refused; that needs the null address, which sanitizing rules out. Allocating in another process is not part of this model.
- The chain and the protocol with the Rust chunking loop, whose aliasing is stated above; the macOS aarch64 initialiser, which makes empty headers without filling any.
- C# `Append<T>` does not advance the position; the Rust append functions are modelled.
- Items are values in the slot array of their header and a token is a slot, as in memory; a header is an object with its slots, not bytes.
- Setting up a locator is one step of the protocol, though others can find it before that; reads of one that is only half set up are not modelled.
- Weak memory orderings and fairness of the spin locks: steps are sequentially consistent, and a waiting agent may be overtaken for ever.
- Buffers.BufferLocators.AppendBytes: requires that the data fits, which the original demands of its callers without a check.
- Buffers.BufferLocators.GetBufferAligned: follows a release build, in which the enlarged size wraps; a debug build panics there. So it is with rounding up and with the sizes in the settings.
- The private finder unwraps the result of allocating the first locator; the panic when that fails is not part of this model.
- ProtocolRuns.AppendsDisjoint: is about runs of careful steps, that is, a locator is entered only when it is set up, every append is at most the bytes left at that moment, and every alignment divides 4096 or the next aligned address lies in the buffer; `CareIsExact` shows that each of the three is needed.
- ProtocolRuns.AppendedStays: as for `AppendsDisjoint`.
- Buffers.BufferLocators.StaticSoFar: counts the calls on one object, one after the other; nobody else maps memory or writes its bytes in between. A recorded run ends when an aligned move leaves its buffer.
- Finder.FindsAgree: is about one copy of the library in a process; several copies share only the file, whose creation and initialisation are not atomic between them.
- A granule whose chunks would fill the header (over 3 MiB) is excluded (`RoomBesideChunks`): the original does not check for it; a new locator would be full at once, and with more chunks its slots would run into the buffers.
- Memory that the heap hands out for a new locator counts as newly mapped.
- The C export layer, private allocations, error texts, header version bits, and the code overwriting helpers: thin wrappers.
