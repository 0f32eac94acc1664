# A model of the per-thread pool allocator, in Dafny

MemAlloc is a C++ allocator that replaces the global `operator new` and `operator delete`. Every
thread has seven pools of equal blocks (16 to 1024 bytes) and a bump arena; a pool that runs dry
borrows a 64 KiB chunk from one shared central heap. The free lists live inside the free blocks, in
the same memory that clients write to, and `operator delete` has to find out from an address alone
where it came from.

This project models that program over one explicit memory and proves what it is built to guarantee:
no byte is ever handed out twice, the in-memory lists are exactly the blocks that are not in use
whatever clients write, delete by address does what a delete that knew the origin would do, the
statistics agree with the lists, and no thread can block itself on the heap mutex or touch an
allocator that has been torn down. Where the program does not meet a promise, the exact condition
and a run that breaks it are proved instead. It needs nothing but Dafny 4.11:

    dafny verify dfyconfig.toml

## How it is built

**Values** (`Bits`, `FreeList`, `Pool`, `SizeClass`, `Arena`, `Stats`, `Allocator`, `Routing`,
`Books`). Memory is a map from word addresses to words. A pool is a head and a list of regions; its
invariant `PoolOk(p, m, live)` says that following the next words in `m` from the head ends at null
and meets exactly the managed blocks outside `live`, each once. Block size and block count stay
symbolic. The arena works on 64-bit machine words, wrap-around and bit masks included.

**Threads as steps** (`Machine`, `Safety`, `Steps`, `SharedSteps`, `Exits`, `Objects`, `Deletion`,
`Accounts`, `Runs`, `History`, `ChunkRuns`, `StaleRuns`). Any number of threads share one memory and
one central heap. The events are: building an allocator pool by pool, popping a block, acquiring a
chunk under the mutex and linking it later as a separate step, arena requests, frees, deletes by
address from any thread, the malloc fallbacks, late stores to their registry, switching the heap on,
thread exit, and clients writing anything into live objects. Objects that outlive their thread stay in
the state: those cut from chunks as live objects like any other, those from a slab or the arena as
addresses whose memory malloc has back. The theorems range over every run of these events in any order;
`StaleRuns` holds the runs that end badly.

**Classes** (`Heap`, `ThreadState`, `Footprint`, `BlockPool`, `BumpArena`, `StatsRegistry`,
`ThreadAllocator`, `FallbackRegistry`, `NewDelete`, `EventRing`). The objects the program updates in
place, as classes with the same fields, loops and branches. Their methods are proved equal to the operations on
values, and carry the same invariant: `SingleThreadAllocator.InOrder` (in order, with exactly the
blocks and ranges handed out, on bytes that malloc gave out) holds after construction and is kept by
every method, in `Runtime.Valid` for as long as clients honour their contract. What a client gets from
operator new, what a delete leaves and what the global statistics report is also stated field by field.
`Footprints` shows that two allocators stay apart and in order whatever either does.

**Control** (`Reentrancy`). Each thread's calls as a stack with the guard flags, the heap mutex, the
mutex and the vectors of the statistics registry and teardown, under any interleaving of calls and returns.

## Assumptions

- malloc is a trusted step: it returns null or a region that overlaps nothing outstanding. In
  `Machine` this is the predicate `FreshRegion`, in the class layer the contract of `Heap.Memory`, which
  counts its refusals. Whether it has room for a record of the fallback registry is a parameter.
- `NotReissued`: malloc does not issue an address that was ever recorded as a fallback pointer,
  whether the registry shows it now or not, inside a later slab, arena, chunk or over-aligned region.
  It is not enough to speak of what the registry shows when the address is issued: a store can bring a
  lost entry back, and `StaleRuns.LostThenBack` is a run in which that gives a live block to free.
  `Deletion.OutOfReachHarmlessIff` says, without any such assumption, exactly when a stale entry does
  harm, and `StaleRuns.StaleRegistration`
  is a run in which it does.
- Clients keep the free contract: they free only what is live, directly only on the owning thread
  and in the block's own class. Deleting by address is allowed from any thread, for every live
  object and for every object that outlived its thread, save where `Deletion.DeleteNothingIff` says
  that memory given back at exit has been issued to something the deletion would hit.
- Clients do not write to an object whose memory exit gave back.
- Arena requests in `Machine` are those whose bounds check does not wrap, and over-aligned fallback
  requests those whose sum of size and alignment stays below 2^64; `Arenas.GrantRightIff` and
  `NewDelete.Runtime.BootstrapAlignedNew` cover all the others.
- User code does not call `instance()` on a thread whose allocator has been destroyed: it has no test
  for that, unlike operator new and delete.
- Sequential consistency; a mutex section is one step. In the fallback registry load and store are
  separate steps. In `Machine` the events `MallocNew` and `Publish` leave it with any part of what was
  ever recorded, so stores may lose entries and bring lost ones back; `Runs.PushIsEvent` derives that
  bound from the pushes themselves.

## Where the code and its comments disagree

The model follows the code.

- Blocks carved from a chunk are aligned to min(class, 64), not to their class
  (`include/central_heap.hpp:73-75`); `Routing.BlockAlignment`.
- A refill links min(256, 65472 / class) blocks, so 255, 127 and 63 for the three largest classes,
  not always a slab's worth (`include/single_thread_alloc.hpp:190-199`).
- Deletes from other threads are said to be leaked, never to corrupt
  (`include/thread_pool_alloc.hpp:21-22`, `src/new_delete.cpp:9-10`). That holds while the owning thread
  runs, and for good of blocks cut from chunks (`ChunkRuns.RunOrphanSafe`). Thread exit gives slabs and
  arena back to malloc (`Exits.ExitReleases`); when that memory is issued to the deleting thread's own
  pool, the delete pushes a block, and it keeps the lists in order if and only if the block is handed
  out (`Deletion.OrphanDeleteIff`, `Deletion.PoolDeleteKeepsIff`). `StaleRuns.DoublePush` is a run of two
  threads that ends with one block given out twice.
- The arena's bounds check adds on machine words and can wrap, and then grants bytes that are live
  (`include/arena.hpp:50`): `Arenas.GrantRightIff` has the exact condition,
  `Arenas.WrappedRequestOverlaps` a request that does it.
- The over-aligned fallback adds size and alignment on machine words
  (`src/new_delete.cpp:122`): the region holds the object if and only if that sum does not wrap;
  `NewDelete.WrappedAlignedNew` has a request where it does not.
- The fallback registry is called lock-free, but its push is a load and a separate store
  (`src/new_delete.cpp:78-79`): a push loses entries if and only if the head moved in between
  (`FallbackRegistries.StoreKeepsAllIff`), and brings lost ones back if and only if the head it loaded
  has itself been lost since (`FallbackRegistries.StoreBringsBackIff`, `FallbackRegistries.BroughtBack`).
- Stale entries in that registry are said to be harmless (`src/new_delete.cpp:64-65`):
  `StaleRuns.StaleRegistration` and `StaleRuns.LostThenBack` are runs in which one is not.
- `snapshot()` is said to be oldest first, but keeps a start found before the lock was given up
  (`include/viz_hook.hpp:53-75`): `EventRings.SnapshotOrderedIff` says exactly when it is,
  `EventRings.MisorderedSnapshot` shows one that is not.
- Deleting by class records the class, not the request, as requested bytes
  (`include/single_thread_alloc.hpp:99-106`): the counters agree with a direct free if and only if the
  request filled its block.
- Retiring statistics that were never registered changes the totals
  (`include/stats.hpp:108-119`): `StatsRegistries.UnlistedRetire` says exactly when.
- The fallback `operator new` returns and registers null when malloc fails
  (`src/new_delete.cpp:141-143`).
- The guard is said to keep construction from being re-entered (`include/thread_pool_alloc.hpp:33-39`).
  It does for `operator new`; a delete made by the constructor's own containers (the registry's
  vectors grow in `register_stats`) does call `instance()` again once the heap is ready. If it is made
  inside `register_stats`, which it can be if and only if the heap is ready and the vector is full and not
  empty (`Reentrancy.RegistrationDeadlocksIff`), the thread then waits for a mutex it holds, for ever
  (`Reentrancy.RunSelfWaitIff`, `Reentrancy.SelfWaitForEver`); `Reentrancy.ReachesDeadlock` is a run from
  the start into that state.

## Model

| member | source | states |
|---|---|---|
| `FreeList.ListIsWalk` | include/block_pool.hpp:220-226 | the recursive list predicate holds exactly when the walk along the next words reaches null, repeats no block, and visits exactly the given set |
| `FreeList.LinkedRun` | include/block_pool.hpp:149-161 | linking n blocks in front of any list yields the list of the run followed by that list |
| `FreeList.BlockTest` | include/block_pool.hpp:248-263 | inside the region at a multiple of the size if and only if it is one of the region's block starts |
| `Pools.NewKeeps` | include/block_pool.hpp:101-120 | a fresh pool's list is exactly its slab's blocks |
| `Pools.FrameKeeps` | include/block_pool.hpp:131-172 | a pool survives every change of memory outside its free blocks |
| `Pools.PopKeeps` | include/block_pool.hpp:131-138 | a pop hands out a managed block that was not live, or null exactly when all are live, and keeps the list exact |
| `Pools.PushKeeps` | include/block_pool.hpp:167-172 | freeing a live block keeps the list exact, one block longer |
| `Pools.PushUndoesPop` | include/block_pool.hpp:131-172 | pushing a popped block restores head, regions and every word of memory |
| `Pools.PopUndoesPush` | include/block_pool.hpp:131-172 | popping after a push returns that block and restores the pool |
| `Pools.PushIff` | include/block_pool.hpp:163-172 | pushing a managed block keeps the list exact if and only if the block was live; a free block pushed again closes a ring that no walk gets out of |
| `Pools.LinkKeeps` | include/block_pool.hpp:149-161 | linking an unowned region adds exactly its blocks, all free, disjoint from the others |
| `Pools.PoolBlocksApart` | include/block_pool.hpp:101-161 | two blocks of a pool never overlap, whichever regions they are in |
| `Pools.ContainingBlockIs` | include/block_pool.hpp:197-217 | for every byte of a block, the first region hit rounds down to the start of that block |
| `Pools.FreeCount` | include/block_pool.hpp:220-242 | free blocks and live blocks add up to the total |
| `BlockPools.BlockPool.constructor` | include/block_pool.hpp:101-120 | the linking loop builds the fresh pool in memory |
| `BlockPools.BlockPool.Allocate` | include/block_pool.hpp:131-138 | pops in place as the value operation does |
| `BlockPools.BlockPool.AddExternalSlab` | include/block_pool.hpp:149-161 | the linking loop equals linking the region on values, and the region is remembered last |
| `BlockPools.BlockPool.Deallocate` | include/block_pool.hpp:167-172 | pushes in place as the value operation does |
| `BlockPools.BlockPool.InRegions` | include/block_pool.hpp:179-192 | true if and only if the byte is in a region of the pool |
| `BlockPools.BlockPool.DeallocateContaining` | include/block_pool.hpp:197-217 | the scan finds the containing block and pushes it |
| `BlockPools.BlockPool.FreeCount` | include/block_pool.hpp:220-226 | the walk terminates and counts total blocks less live ones |
| `BlockPools.BlockPool.CountTotal` | include/block_pool.hpp:236-242 | the number of blocks of all regions |
| `BlockPools.BlockPool.OwnsBlock` | include/block_pool.hpp:248-263 | true if and only if the address is a managed block start |
| `Heap.Memory.AllocateSlab` | include/block_pool.hpp:45-70 | null, or an aligned stretch inside one new region with the pointer that frees it, on both toolchain paths |
| `SizeClasses.SizeClassIndex` | include/size_class.hpp:23-33 | the table scan returns the first class that holds n, or the sentinel exactly above the limit |
| `SizeClasses.FitIsTight` | include/size_class.hpp:23-46 | a small request gets the least class that holds it, and from 9 bytes on less than twice its size |
| `SizeClasses.ClassRoundTrip` | include/size_class.hpp:12-46 | a class size routes to its own class |
| `SizeClasses.RefillFits` | include/single_thread_alloc.hpp:190-199 | a refill is the largest number of blocks, up to 256, that fit the 65472 bytes of a chunk body; at least one, and no other number is |
| `Bits.MaskDownIsFloor` | include/central_heap.hpp:131-135 | for every power of two a, masking with ~(a-1) bit by bit gives the greatest multiple of a not above x |
| `Bits.CeilIsLeast` | include/arena.hpp:48 | the ceiling is the least multiple not below x |
| `Bits.AlignUpIsCeil` | include/arena.hpp:47-49 | the wrapped mask expression is that ceiling for every power of two, 2^64 appearing as 0, and the padding is right even then |
| `Arenas.GrantRightIff` | include/arena.hpp:45-57 | for every state and request, the arena does what a bump arena promises if and only if its bounds check does not wrap |
| `Arenas.WrappedRequestOverlaps` | include/arena.hpp:50-56 | a concrete request that wraps, is granted, and makes the next one overlap live bytes |
| `Arenas.OrdinaryRequest` | include/arena.hpp:50 | size, capacity and alignment together below 2^64 never wrap |
| `Arenas.GrantKeeps` | include/arena.hpp:45-57 | a grant is aligned, behind the cursor, in bounds; ranges stay disjoint and the counters differ by the total padding |
| `Arenas.ArenaRun` | include/arena.hpp:45-65 | all of that after any run of requests and resets |
| `BumpArenas.BumpArena.Allocate` | include/arena.hpp:45-57 | grants in place as the value operation does |
| `BumpArenas.BumpArena.Reset` | include/arena.hpp:61-65 | rewinds cursor and counters to zero, keeps the region |
| `Arenas.RewoundServes` | include/arena.hpp:61-65 | after a reset a request is granted at the base, rounded up to its alignment, if and only if it fits there |
| `BumpArenas.BumpArena.InUse` | include/arena.hpp:83-87 | true if and only if the byte is below the cursor |
| `Allocators.PopFromKeeps` | include/single_thread_alloc.hpp:65-70 | popping one pool keeps all seven pools and the arena, and changes nobody's regions |
| `Allocators.PushToKeeps` | include/single_thread_alloc.hpp:87-94 | pushing onto one pool keeps all seven pools and the arena |
| `Allocators.RefillKeeps` | include/single_thread_alloc.hpp:190-199 | linking a chunk body nobody owns keeps every pool and the arena, and makes its first block available |
| `Allocators.FromBumpKeeps` | include/single_thread_alloc.hpp:54-64 | an arena request keeps every pool; the recorded size is the growth of the used bytes |
| `Allocators.AllocateKeeps` | include/single_thread_alloc.hpp:54-85 | null and nothing changed (small: every block was out and no chunk came), or exactly one more block or range held |
| `Routing.ClassifyIsExact` | include/single_thread_alloc.hpp:121-126 | a pool is named if and only if the byte is in it, the arena if and only if below its cursor; the last-wins fold cannot disagree with another order |
| `Routing.HeldBlockClass` | include/single_thread_alloc.hpp:236-247 | every byte of a held block classifies to its pool and resolves to its start |
| `Routing.InteriorRoundTrip` | include/single_thread_alloc.hpp:87-106 | deleting through any interior byte with the reported class leaves pools, arena and memory as a direct free would; counters agree too if and only if the request filled the block |
| `Routing.AllocateThenDelete` | include/single_thread_alloc.hpp:54-106 | allocate then delete through any interior byte restores every list and word to what they were, or to what the refill made them if one was needed |
| `Routing.BlockAlignment` | include/central_heap.hpp:73-75 | every block is min(class, 64)-aligned, slab or chunk |
| `ThreadAllocators.SingleThreadAllocator.AddSlab` | include/block_pool.hpp:101-120 | one more pool over a fresh slab keeps the pools built so far in good standing on memory given out since construction began, and all other memory as it was |
| `ThreadAllocators.SingleThreadAllocator.Build` | include/single_thread_alloc.hpp:46-47 | an allocator in order with an empty 4 MiB arena, nothing handed out and no statistics, owning only bytes malloc gave out meanwhile, others' memory as it was; or bad_alloc, after malloc has refused something, with everything given back |
| `ThreadAllocators.SingleThreadAllocator.PoolAddChunk` | include/single_thread_alloc.hpp:189-199 | links the largest refill that the chunk and the cap of 256 allow, remembers that region last, and equals the refill on values |
| `ThreadAllocators.SingleThreadAllocator.Allocate` | include/single_thread_alloc.hpp:54-85 | routing, refill and retry equal allocate on values for the chunk the heap answered with; a small request fails only if malloc refused the chunk; an allocator in order stays so with the object handed out; it writes and claims nothing others had from malloc |
| `ThreadAllocators.SingleThreadAllocator.Deallocate` | include/single_thread_alloc.hpp:87-94 | records and pushes as on values; freeing a block that is handed out keeps the allocator in order and others' memory as it was |
| `ThreadAllocators.SingleThreadAllocator.DeallocateContaining` | include/single_thread_alloc.hpp:99-106 | records and pushes the containing block as on values; in order afterwards if that block was handed out |
| `ThreadAllocators.SingleThreadAllocator.AllocateAligned` | include/single_thread_alloc.hpp:133-140 | bumps and records the used-delta as on values, and stays in order unless the bounds check wraps |
| `ThreadAllocators.SingleThreadAllocator.Classify` | include/single_thread_alloc.hpp:235-247 | the fold over the pools encodes the classification on values |
| `ThreadAllocators.SingleThreadAllocator.Occupancy` | include/single_thread_alloc.hpp:158-164 | per class, free plus handed out is the capacity reported |
| `ThreadAllocators.CentralHeap.AcquireChunk` | include/central_heap.hpp:103-126 | a fresh 64 KiB-aligned chunk inside a new region that is recorded and counted, its header written and nothing else; or bad_alloc, after malloc refused, and no change; the chunk list grows under the guard, which is restored |
| `Footprints.AllocateSound` | include/single_thread_alloc.hpp:54-85 | allocate keeps an allocator in order on bytes that malloc gave out, chunk and object included |
| `Footprints.AllocateElsewhere` | include/single_thread_alloc.hpp:54-85 | allocate writes no word of memory given out to others before, and claims only what was not given out |
| `Footprints.PushSound` | include/single_thread_alloc.hpp:87-94 | freeing a held block keeps the allocator in order and writes none of the others' memory |
| `Footprints.OtherStaysSound` | include/thread_pool_alloc.hpp:17-25 | another thread's allocator that was apart and in order is so after whatever such step this one takes |
| `NewDelete.ThreadPoolAlloc.Allocate` | include/thread_pool_alloc.hpp:53-72 | allocate under the guard, which is restored: in order before, in order after, and no vector of the allocator has grown with the guard down |
| `NewDelete.ThreadPoolAlloc.AllocateAligned` | include/thread_pool_alloc.hpp:75-78 | the arena path under the guard, which is restored |
| `NewDelete.ThreadPoolAlloc.Destroy` | include/thread_pool_alloc.hpp:143-158 | dying and gone are set, the statistics move from live to retired under the guard, the global totals do not change |
| `NewDelete.Runtime.Instance` | include/thread_pool_alloc.hpp:32-43 | the existing instance untouched, or a new one in order with nothing handed out, on memory nobody had, its statistics registered under the guard; a failure only if malloc refused something; flag restored |
| `NewDelete.Runtime.DoNew` | src/new_delete.cpp:134-157 | what the client gets: malloc is asked for max(size, 1) bytes and the pointer is registered if there is room for the record, exactly if not ready, nested or gone; otherwise a block of the least class that holds the request, not handed out before, or for large requests a range of that length; null only if malloc refused something or the arena has no room; the allocator does exactly allocate, in order before and after while the contract is honoured |
| `NewDelete.Runtime.ServedGives` | src/new_delete.cpp:151-156 | whatever allocate hands out under a request of n bytes holds n bytes |
| `NewDelete.Runtime.BootstrapAlignedNew` | src/new_delete.cpp:121-132 | malloc is asked for size + alignment modulo 2^64; an aligned payload with its raw pointer stashed; the region holds the object if and only if the sum does not wrap |
| `NewDelete.Runtime.DoAlignedNew` | src/new_delete.cpp:159-183 | which of the four paths serves the request, and on each what the client gets: a region, block or range of max(size, 1) bytes, or null and why; the result has the alignment asked for, on the pool path while the contract is honoured |
| `NewDelete.AlignedNewIsAligned` | src/new_delete.cpp:159-183 | on the pool, chunk and arena paths the result has the alignment asked for, for requests that wrap too |
| `NewDelete.WrappedAlignedNew` | src/new_delete.cpp:121-132 | a size and an alignment whose sum wraps: 16 bytes are asked for, and the object runs past them |
| `NewDelete.CarrySafe` | src/new_delete.cpp:189-257 | every action delete can decide on keeps the allocator in order, if what is pushed was handed out and what is freed is none of its own regions |
| `NewDelete.DecidedIsRight` | src/new_delete.cpp:189-257 | the decision taken from the address has, field by field, the effect that a deletion should have: see DoDelete |
| `NewDelete.Runtime.FreeIfStashed` | src/new_delete.cpp:193-203 | frees the raw pointer of the first entry with this payload and erases it, or changes nothing |
| `NewDelete.Runtime.DoDelete` | src/new_delete.cpp:189-257 | for every address: a stashed payload loses its first entry and its raw region; on a thread that may ask its allocator, the block that holds the byte goes to the head of its list and out of the hands of clients, and an address below the arena cursor changes nothing; any other pointer is freed if and only if it is registered; nothing else is different; the allocator stays in order if the client kept its contract; flag restored |
| `NewDelete.Runtime.InitAllocator` | src/new_delete.cpp:293-296 | the allocator exists before the heap is switched on; if it cannot be built nothing is switched on |
| `NewDelete.Runtime.ExitThread` | include/thread_pool_alloc.hpp:143-158 | on any thread with an allocator: afterwards every operator new falls back, and the global totals are what they were |
| `Safety.SteppedCore` | include/single_thread_alloc.hpp:54-106 | a step that claims only unowned bytes and writes only its own keeps the whole invariant, other threads and chunk headers included |
| `Steps.BuildPoolKeeps` | include/block_pool.hpp:101-120 | building a pool over a fresh slab keeps the invariant of all threads |
| `Steps.BuildArenaKeeps` | include/arena.hpp:23-32 | building the arena completes an allocator and keeps the invariant |
| `Steps.PopBlockKeeps` | include/single_thread_alloc.hpp:65-70 | a pop on one thread keeps the invariant of all |
| `Steps.BumpKeeps` | include/single_thread_alloc.hpp:133-140 | an arena request on one thread keeps the invariant of all |
| `Steps.FreeKeeps` | include/single_thread_alloc.hpp:87-94 | a free on the owning thread keeps the invariant of all |
| `Steps.LinkChunkKeeps` | include/single_thread_alloc.hpp:75-82 | linking an acquired chunk, however late, and popping keeps the invariant of all |
| `Exits.ExitKeeps` | include/thread_pool_alloc.hpp:143-158 | thread exit keeps the invariant: objects cut from chunks that clients hold stay live and apart from everything |
| `Exits.ExitHandsOver` | include/thread_pool_alloc.hpp:19-25 | every block and arena range that clients hold at exit stays in their hands, and is a live object afterwards if and only if its bytes lie in a chunk |
| `Exits.ExitReleases` | include/block_pool.hpp:122 | of the bytes a thread owns, exit gives malloc back exactly those in no chunk, held by a client or not |
| `SharedSteps.AcquireKeeps` | include/central_heap.hpp:103-126 | acquiring a chunk keeps the invariant: its header intact, its body reserved for the acquiring thread |
| `SharedSteps.MallocKeeps` | src/new_delete.cpp:138-144 | a fallback allocation keeps the invariant whichever of the pointers ever recorded the registry then shows, lost or brought back; the object is live with exactly its bytes |
| `SharedSteps.PublishKeeps` | src/new_delete.cpp:78-79 | so does a store of a push that began any number of steps before |
| `SharedSteps.MallocAlignedKeeps` | src/new_delete.cpp:121-132 | an over-aligned fallback keeps the invariant: stash and regions correspond one to one; the object is live, its payload aligned and long enough |
| `Objects.LiveDisjoint` | include/thread_pool_alloc.hpp:53-72 | no byte belongs to two live objects of any threads and kinds, objects of exited threads included |
| `Objects.WriteKeeps` | include/block_pool.hpp:80-82 | whatever clients write into live objects, lists, headers and the invariant stay |
| `Deletion.DecisionIsRight` | src/new_delete.cpp:189-257 | from the address alone delete picks the action right for the object's origin |
| `Deletion.DeleteRefinesTagged` | src/new_delete.cpp:189-257 | delete by address equals a delete that is told the origin, for every thread and every live object, of running threads and of exited ones |
| `Deletion.OutOfReachHarmlessIff` | src/new_delete.cpp:61-65 | with no assumption on the registry, deleting a foreign or late object is harmless if and only if its address is not registered |
| `Deletion.DeleteNothingIff` | src/new_delete.cpp:189-257 | for every address whatsoever, a delete changes nothing if and only if it is no stashed payload of the thread, not registered, and in none of the thread's pools |
| `Deletion.OrphanDeleteIff` | src/new_delete.cpp:7-13 | an object of an exited thread, deleted by any thread: nothing changes if it was cut from a chunk, otherwise if and only if its address is none of those things |
| `Deletion.PoolDeleteKeepsIff` | src/new_delete.cpp:254-256 | deleting an address in one's own pool keeps the invariant if and only if the block it lies in is handed out |
| `Deletion.HeadDeleted` | include/block_pool.hpp:131-172 | deleting the free block at the head of a list makes the next two requests of its class return the same block |
| `Deletion.OwnBlockFreed` | src/new_delete.cpp:254-256 | a live block of the calling thread really is freed: the next request of its class gets it |
| `Deletion.DeleteKeeps` | src/new_delete.cpp:189-257 | every delete keeps the invariant, so nothing is freed that malloc did not give out |
| `Runs.StepKeeps` | include/thread_pool_alloc.hpp:53-101 | every step of every thread keeps the invariant |
| `Runs.RunSafe` | include/thread_pool_alloc.hpp:53-158 | every state of every interleaving satisfies the invariant and has its accounts in order |
| `Runs.RunDisjoint` | include/thread_pool_alloc.hpp:53-72 | in every reachable state live objects are pairwise disjoint and nothing foreign was ever freed |
| `Runs.RunLists` | include/block_pool.hpp:110-172 | in every reachable state each in-memory list ends, repeats nothing, and is exactly the blocks not live |
| `Runs.RunChunks` | include/single_thread_alloc.hpp:65-84 | in every reachable state the chunks linked are fixed by the demand recorded for the pool: 256 blocks, and the largest refill for every chunk |
| `Runs.RunConserves` | include/stats.hpp:29-49 | in every reachable state the live counter is class sizes times (total less free) plus arena bytes, never negative, and allocations less frees are the objects out |
| `Runs.ChunkLinkedOnce` | include/central_heap.hpp:60-66 | in every state, a chunk is in at most one pool of one thread, once |
| `ChunkRuns.RunLinksOnce` | include/central_heap.hpp:60-66 | over every run, exits included, no chunk is linked twice |
| `ChunkRuns.RunOrphanSafe` | include/thread_pool_alloc.hpp:19-25 | in every state after the exit of its thread, an object cut from a chunk shares no byte with another live object, and any thread deleting it changes nothing |
| `StaleRuns.DoublePush` | include/block_pool.hpp:122 | a run of two threads: allocate, hand over, exit; the slab is issued to the other thread, which deletes the object; one block is then given out twice |
| `StaleRuns.StaleRegistration` | src/new_delete.cpp:61-65 | a run in which a registered pointer is freed, issued again inside a slab, and another thread's live block is given to free |
| `StaleRuns.LostThenBack` | src/new_delete.cpp:61-80 | a run in which malloc reissues nothing that is registered at the time: an entry is lost, its address becomes a slab, a late store brings the entry back, and a live block of another thread is given to free |
| `Runs.PushIsEvent` | src/new_delete.cpp:72-80 | under every interleaving of loads and stores, each registry reached is one that the event for the malloc or for the store allows |
| `ChunkRuns.RunOrphanHeader` | include/central_heap.hpp:128-135 | in every state after the exit of its thread, masking any byte of an object cut from a chunk reaches a header whose two words both hold its size |
| `Runs.LookupsAgree` | include/central_heap.hpp:128-135 | for every byte of every chunk-carved block, masking reaches an intact header naming the class the region search reports |
| `Runs.StepSparesLive` | include/block_pool.hpp:131-172 | no allocator step changes a word of an object live before and after it |
| `Runs.SplitRefillIsAllocate` | include/single_thread_alloc.hpp:73-82 | acquire and link with nothing in between are one call of allocate |
| `Runs.PopIsAllocate` | include/single_thread_alloc.hpp:65-70 | the pop step is a call of allocate that needs no chunk |
| `Runs.BumpIsAllocate` | include/single_thread_alloc.hpp:55-64 | the arena step at the default alignment is a call of allocate |
| `Runs.BumpIsAligned` | include/single_thread_alloc.hpp:54-64 | the arena step at any alignment is one request to the arena, and changes nothing else |
| `Runs.FreeIsDeallocate` | include/single_thread_alloc.hpp:87-94 | the free step is possible for every held block and every large size, is a call of deallocate, and takes exactly that block from the clients |
| `Runs.UpActs` | include/single_thread_alloc.hpp:54-85 | a thread with nothing in flight pops if and only if a block of the class is not held, may acquire a chunk otherwise, uses the arena unless the check wraps, and may exit |
| `Runs.MayDelete` | src/new_delete.cpp:189-257 | every live object may be deleted by every such thread, blocks and ranges by any of their bytes |
| `Runs.OthersAct` | src/new_delete.cpp:121-144 | wherever malloc has room the two fallbacks can serve, and clients may write any word of a live object |
| `Runs.BuiltServes` | include/single_thread_alloc.hpp:46-85 | an allocator just built serves a small request of any size without a chunk |
| `Runs.BuiltServesLarge` | include/single_thread_alloc.hpp:34-64 | an allocator just built serves a large request at the base of its arena if and only if it fits 4 MiB |
| `Books.BooksPush` | include/stats.hpp:44-49 | at every free of a held block the live counter is at least the class, so the subtraction cannot underflow |
| `Books.ObservedIsHeld` | include/block_pool.hpp:220-242 | bytes off the lists, summed over classes, equal class times (total less list length) |
| `Books.DemandRefill` | include/single_thread_alloc.hpp:71-82 | a refill happens with every block out, so the block it hands out sets a new peak |
| `Books.ChunksFromPeak` | include/single_thread_alloc.hpp:190-199 | c chunks if and only if the peak is in the c-th band: the first ends at 256 blocks, each other is as wide as the largest refill |
| `Accounts.StepAccounts` | include/stats.hpp:29-49 | every step keeps every thread's books and demand bounds |
| `History.StepBills` | include/stats.hpp:29-49 | every step changes a thread's counters by exactly what the event asked for and took or gave back, field by field |
| `History.RunCounters` | include/stats.hpp:14-49 | over every run, the requested bytes are the sum of what the thread's requests and frees asked for, the allocated bytes of what they took or gave back, the live bytes the difference, and the counts their numbers |
| `History.RunPeak` | include/stats.hpp:29-37 | the recorded peak is the maximum over the whole run of the bytes outstanding |
| `History.RunChunkUse` | include/single_thread_alloc.hpp:65-84 | for every run, a pool has linked c chunks if and only if the most blocks ever simultaneously off its list exceed 256 + (c-1)m and not 256 + cm, where m is the largest number up to 256 of blocks that fit 65472 bytes |
| `History.RunTight` | include/stats.hpp:51-58 | over any run whose requests and direct frees are of at least 9 bytes, with alignments of at most 16 or at most the request, on arenas that malloc aligns to 16, lifetime fragmentation stays below one half; what one arena request skips is charged to the one before |
| `Arenas.GrantAmortised` | include/arena.hpp:45-57 | what such a request takes and leaves the next to skip is less than twice its size and what it was left |
| `StatsRegistries.StatsCell.Alloc` | include/stats.hpp:29-37 | each counter: requested grows by the request, allocated and live by the block, the peak to the larger, one more allocation |
| `StatsRegistries.StatsCell.Free` | include/stats.hpp:44-49 | each counter: requested and allocated grow, live shrinks by the block, one more free, the peak stays |
| `StatsRegistries.MoveKeepsSum` | include/stats.hpp:108-119 | moving any entry from the live list to the end of the retired list changes no total and no peak |
| `StatsRegistries.UnlistedRetire` | include/stats.hpp:108-119 | retiring an unregistered entry leaves the totals alone if and only if it shows nothing in them |
| `StatsRegistries.AlwaysPaired` | include/stats.hpp:100-119 | over any order of registrations and retirements the two lists keep equal length and pair each entry with its owner |
| `StatsRegistries.StatsRegistry.Register` | include/stats.hpp:100-104 | appends exactly this entry and its owner; the vectors grow under the guard if it is up |
| `StatsRegistries.StatsRegistry.Retire` | include/stats.hpp:108-119 | appends the snapshot and strikes the first match, and nothing else, from both lists; a registered entry leaves the global statistics as they were |
| `StatsRegistries.StatsRegistry.GlobalStats` | include/stats.hpp:149-169 | every counter is the plain sum of that counter over live and retired entries, and the peak the largest of theirs |
| `FallbackRegistries.FallbackRegistry.Record` | src/new_delete.cpp:72-80 | adds exactly this pointer, or nothing when there is no memory for the record |
| `FallbackRegistries.FallbackRegistry.IsRegistered` | src/new_delete.cpp:82-90 | terminates, and is true if and only if the pointer is in the chain |
| `FallbackRegistries.PushRunSound` | src/new_delete.cpp:72-90 | under every interleaving of loads and stores the chain is acyclic and holds only recorded pointers |
| `FallbackRegistries.Lookup` | src/new_delete.cpp:82-90 | a lookup terminates whatever other threads push between its reads, and is true if and only if the pointer was registered when it loaded the head |
| `FallbackRegistries.StoreKeepsAllIff` | src/new_delete.cpp:78-79 | a push loses no entry if and only if the head it loaded is still the head |
| `FallbackRegistries.StoreBringsBackIff` | src/new_delete.cpp:78-79 | a store adds nothing but its own record if and only if the head it loaded is null or still in the chain; otherwise that record, published before and lost since, is back |
| `FallbackRegistries.LostEntry` | src/new_delete.cpp:78-79 | two pushes of which the first is lost |
| `FallbackRegistries.BroughtBack` | src/new_delete.cpp:78-79 | three pushes after which a pointer that was registered and lost is registered again |
| `EventRings.EventRing.Push` | include/viz_hook.hpp:44-51 | the buffer stays the end of the history, one event longer |
| `EventRings.EventRing.SnapshotTail` | include/viz_hook.hpp:82-103 | exactly the last events of the history at the second lock, in order, as many as asked for and present at the first, whatever was pushed between |
| `EventRings.EventRing.Snapshot` | include/viz_hook.hpp:58-75 | entry by entry, which event of the history is shown, whatever was pushed between |
| `EventRings.SnapshotUnfilled` | include/viz_hook.hpp:58-75 | if everything still fits, the history at the first lock |
| `EventRings.SnapshotRotated` | include/viz_hook.hpp:58-75 | on a full ring with k pushes between, the last events rotated by k modulo the capacity |
| `EventRings.SnapshotOrderedIff` | include/viz_hook.hpp:53-75 | oldest first if and only if a condition on the counts at the two locks; always when nothing was pushed between |
| `EventRings.MisorderedSnapshot` | include/viz_hook.hpp:53-75 | capacity 2, two events, one pushed between the locks: the newest comes first |
| `Reentrancy.ControlRun` | include/central_heap.hpp:45-56 | every state of every interleaving has well-nested guards, at most one acquisition per thread, and both mutexes held by who they say |
| `Reentrancy.NoSelfDeadlock` | include/central_heap.hpp:96-106 | the holder of the mutex has its flag up, so operator new on it falls back; it never acquires again |
| `Reentrancy.HolderMoves` | include/central_heap.hpp:103-126 | whoever holds the mutex can return |
| `Reentrancy.GuardsNest` | include/central_heap.hpp:45-56 | the flag is up exactly while a guarded call is in progress; returning restores what was there |
| `Reentrancy.NothingAfterTeardown` | src/new_delete.cpp:204-238 | once gone is set no call enters the allocator and only the retirement of its statistics is left to call; a delete past that test never sees a dying one |
| `Reentrancy.OnlyDeleteReenters` | include/thread_pool_alloc.hpp:32-43 | in every run, construction is re-entered only by a delete and only once the heap is ready |
| `Reentrancy.RunSelfWaitIff` | include/stats.hpp:100-119 | in every run, a thread waits for a mutex it holds if and only if a registration has re-entered itself through a delete, and then the heap is ready and a vector of the registry full; acquisition and retirement never do |
| `Reentrancy.SelfWaitForEver` | include/stats.hpp:100-104 | a thread that waits for itself does so in every later state of the run |
| `Reentrancy.RegistrationDeadlocksIff` | include/stats.hpp:100-104 | inside its registration a constructor can make a call if and only if the heap is ready and the vector it pushes onto next is full and not empty; then the call is a delete, and three calls bring it to wait for itself |
| `Reentrancy.StatsHolderMovesIff` | include/stats.hpp:100-119 | whoever holds the statistics mutex can go on, by a push_back or a return, if and only if it does not wait for itself |
| `Reentrancy.ReachesDeadlock` | include/thread_pool_alloc.hpp:132-141 | a run from the start in which the main thread registers and switches the heap on, and the first operator new of a second thread ends in that wait, as the vector with one entry grows |
| `Reentrancy.CallsIff` | include/thread_pool_alloc.hpp:32-101 | once the heap is on, exactly which calls a thread can make from each call it is in, until teardown |
| `Reentrancy.ExitBegins` | include/thread_pool_alloc.hpp:143-158 | a thread in user code with an allocator can always begin its teardown: destructor, gone flag, retirement |
| `Reentrancy.ExitGoes` | include/stats.hpp:108-119 | and finish it once the registry mutex is free: its entry struck from both vectors, the mutex free, the guard down |

## Left out

- The visualizer, benchmark, fragmentation report and build files; `include/frag_detect.hpp` and
  `for_each_live`, which only read.
- Recording events from allocate, deallocate and chunk acquisition, the on/off switch of the ring,
  timestamps and thread ids: the ring itself is modelled, its callers do not change it otherwise.
- Real malloc, aligned_alloc and free, and the debug check of heap pointers before a free.
- C++ memory ordering and torn reads; reading another thread's live statistics or occupancy while it runs.
- The destructors' own frees of slabs, arena and chunks: at thread exit the model returns those bytes
  to malloc in one step; chunks stay with the central heap for good.
- Exceptions: bad_alloc is a null result, or false where there is no pointer to return.
- The two call counters of the thread front end, which count failed allocations and ignored frees too.
- Ratios in floating point: fragmentation is stated by cross-multiplication.
- Wrap-around of the lifetime counters of the statistics at 2^64; the arena's own counters do wrap.
- Double frees, uses after free and direct frees in the wrong class: excluded by precondition.
- Where `global_stats` and `for_each_live` take the statistics mutex: they are called by user code, and what
  they run under it calls nothing of the allocator.
- The end of the stash: it is a thread-local of its own, and a delete that arrives on the thread after the
  stash has been destroyed still scans it; the model keeps the stash for good, so its regions are not
  leaked at exit either.
- Compile-time tables and tuples: the seven pools are a sequence indexed by class.
- Deletes during the construction of a thread's allocator once the heap is ready: `Reentrancy` proves when
  they happen and where they lead, `Machine` has no event for them; what C++ does when the construction
  of a thread-local is re-entered is undefined, and `Reentrancy` has the second call run the constructor.
- NewDelete.Runtime.DoNew: does not model a registration that loses another thread's entries or brings lost ones
  back, because it runs on one thread; `FallbackRegistries` and `Machine` have the interleaved form.
