/** The front end of a thread's allocator and the global operator new and delete. */
module NewDelete {
  import opened FreeList
  import opened Bits
  import opened SizeClasses
  import opened Pools
  import opened Arenas
  import opened Allocators
  import opened Routing
  import opened Machine
  import opened Heap
  import opened Footprints
  import opened StatsRegistries
  import opened FallbackRegistries
  import opened ThreadAllocators
  import opened ThreadStates

  /** The per-thread front end. */
  class ThreadPoolAlloc {
    const alloc: SingleThreadAllocator
    const flags: ThreadFlags
    var dying: bool

    ghost predicate Valid()
      reads this, alloc, alloc.pools
    {
      alloc.Valid() && alloc.flags == flags && !dying
    }

    constructor (alloc: SingleThreadAllocator, flags: ThreadFlags)
      ensures this.alloc == alloc && this.flags == flags && !dying
    {
      this.alloc, this.flags, dying := alloc, flags, false;
    }

    /** The guard covers the whole call and is restored to what it was. */
    method Allocate(n: nat) returns (p: nat, ghost body: nat)
      requires Valid() && alloc.mem.Valid() && alloc.heap.mem == alloc.mem
      modifies alloc.Parts(), alloc.mem, alloc.heap, flags`active, flags`exposed
      ensures Valid() && alloc.mem.Valid() && alloc.pools == old(alloc.pools)
      ensures alloc.arena == old(alloc.arena) && alloc.stats == old(alloc.stats)
      ensures (alloc.View(), alloc.mem.words, p)
              == Allocators.Allocate(old(alloc.View()), old(alloc.mem.words), n, body)
      ensures |old(alloc.Held()).blocks| == NUM_CLASSES
      ensures alloc.Held() == Handed(old(alloc.View()), old(alloc.Held()), n, p)
      ensures alloc.mem.refusals >= old(alloc.mem.refusals)
      ensures p == 0 && n <= MAX_SMALL ==> alloc.mem.refusals > old(alloc.mem.refusals)
      ensures body != 0 ==> ChunkGiven(old(alloc.mem.regions), alloc.mem.regions, body)
      ensures body == 0 ==> alloc.mem.regions == old(alloc.mem.regions)
      ensures Grown(old(alloc.mem.regions), alloc.mem.regions)
      ensures flags.active == old(flags.active) && flags.exposed == old(flags.exposed)
      ensures alloc.mem.corrupt == old(alloc.mem.corrupt)
      ensures (old(alloc.InOrder()) && n < WORD_MOD
               && (n > MAX_SMALL ==> !CheckWraps(old(alloc.View()).arena, n, MAX_ALIGN))) ==> alloc.InOrder()
      ensures SparesOthers(old(alloc.View()), old(alloc.mem.words), alloc.mem.words, old(alloc.mem.regions))
      ensures ClaimsFresh(old(alloc.View()), alloc.View(), old(alloc.mem.regions))
    {
      hide Allocators.Allocate, Handed, Sound, Grown, ChunkGiven, SparesOthers, ClaimsFresh, Memory.Valid, CheckWraps;
      var prev := flags.active;
      flags.active := true;
      ghost var al, held := alloc.View(), alloc.Held();
      assert alloc.View().pools == old(alloc.View()).pools && alloc.Held().blocks == old(alloc.Held()).blocks;
      p, body := alloc.Allocate(n);
      ghost var al1, held1 := alloc.View(), alloc.Held();
      flags.active := prev;
      assert alloc.View().pools == al1.pools && alloc.Held().blocks == held1.blocks;
    }

    method AllocateAligned(n: nat, align: nat) returns (p: nat)
      requires Valid() && 0 < align <= WORD_MOD
      modifies alloc.arena, alloc.stats, flags`active
      ensures Valid() && (alloc.View(), p) == FromBump(old(alloc.View()), n, align)
      ensures |old(alloc.Held()).blocks| == NUM_CLASSES
      ensures alloc.Held() == TakeRange(old(alloc.View()), old(alloc.Held()), n, align)
      ensures flags.active == old(flags.active) && flags.exposed == old(flags.exposed)
      ensures old(alloc.InOrder()) && n < WORD_MOD && IsPow2(align)
              && !CheckWraps(old(alloc.View()).arena, n, align) ==>
                alloc.InOrder()
    {
      hide FromBump, TakeRange, Sound, CheckWraps, IsPow2;
      var prev := flags.active;
      flags.active := true;
      assert alloc.View().pools == old(alloc.View()).pools && alloc.Held().blocks == old(alloc.Held()).blocks;
      p := alloc.AllocateAligned(n, align);
      ghost var al1, held1 := alloc.View(), alloc.Held();
      flags.active := prev;
      assert alloc.View().pools == al1.pools && alloc.Held().blocks == held1.blocks;
    }

    /** The destructor: the dying mark, the sticky gone flag, then the snapshot for the registry. */
    method Destroy(registry: StatsRegistry)
      requires Valid() && registry.Valid() && alloc.stats in registry.live
      modifies this`dying, flags, registry
      ensures dying && flags.gone && flags.active == old(flags.active) && flags.exposed == old(flags.exposed)
      ensures registry.Valid() && registry.Global() == old(registry.Global())
      ensures (registry.live, registry.liveAllocators)
              == Strike(old(registry.live), old(registry.liveAllocators), alloc.stats)
      ensures registry.retired == old(registry.retired) + [alloc.stats.View()]
    {
      dying := true;
      flags.gone := true;
      var prev := flags.active;
      flags.active := true;
      registry.Retire(alloc.stats, flags);
      flags.active := prev;
    }
  }

  // ---------------------------------------------------------------------------
  // What delete looks at and changes

  datatype Scene = Scene(al: Allocator, held: Holdings, words: Words, regions: map<nat, nat>, corrupt: bool,
                         stash: seq<Stashed>)

  /** The thread's allocator is in order with exactly `held` handed out. */
  ghost predicate Safe(c: Scene) {
    Sound(c.al, c.words, c.regions, c.held)
  }

  /** Giving a pointer to free. */
  ghost function FreeIn(c: Scene, p: nat): Scene {
    c.(regions := c.regions - {p}, corrupt := c.corrupt || p !in c.regions)
  }

  /** The effect of a decision of delete. */
  ghost function Carry(c: Scene, a: Action, p: nat): Scene
    requires a.FreeStashed? ==> a.i < |c.stash|
    requires a.PushBlock? ==> a.k < NUM_CLASSES && Sized(c.al) && |c.held.blocks| == NUM_CLASSES
  {
    match a
    case Nothing => c
    case FreeStashed(i) => FreeIn(c.(stash := Erase(c.stash, i)), c.stash[i].raw)
    case FreePointer => FreeIn(c, p)
    case PushBlock(k) =>
      var (al, m) := DeallocateContaining(c.al, c.words, p, ClassSize(k));
      c.(al := al, words := m, held := Drop(c.held, k, ContainingBlock(c.al.pools[k], p)))
  }

  /** The region at `r`, if there is one, holds no byte of the allocator. */
  ghost predicate Foreign(c: Scene, r: nat) {
    r in c.regions ==> forall x: nat :: r <= x < r + c.regions[r] ==> !Owns(c.al, x)
  }

  /** The client kept its contract: a block that is pushed was handed out, and a pointer that is given
      to free is none of the allocator's own regions. */
  ghost predicate Proper(c: Scene, a: Action, p: nat)
    requires a.FreeStashed? ==> a.i < |c.stash|
    requires a.PushBlock? ==> a.k < NUM_CLASSES && Sized(c.al) && |c.held.blocks| == NUM_CLASSES
  {
    match a
    case Nothing => true
    case FreeStashed(i) => Foreign(c, c.stash[i].raw)
    case FreePointer => Foreign(c, p)
    case PushBlock(k) => ContainingBlock(c.al.pools[k], p) in c.held.blocks[k]
  }

  /** A deletion that keeps the contract keeps the allocator in order. */
  lemma CarrySafe(c: Scene, a: Action, p: nat)
    requires a.FreeStashed? ==> a.i < |c.stash|
    requires a.PushBlock? ==> a.k < NUM_CLASSES && Sized(c.al) && |c.held.blocks| == NUM_CLASSES
    requires Safe(c) && Proper(c, a, p)
    ensures Safe(Carry(c, a, p))
  {
    hide Sound, Owns, ContainingBlock;
    match a
    case Nothing =>
    case FreeStashed(i) => FreeSound(c.al, c.words, c.regions, c.held, c.stash[i].raw);
    case FreePointer => FreeSound(c.al, c.words, c.regions, c.held, p);
    case PushBlock(k) =>
      ClassRoundTrip(k);
      PushSound(c.al, c.words, c.regions, c.held, k, ContainingBlock(c.al.pools[k], p), ClassSize(k));
  }

  lemma CarryNothing(c: Scene, p: nat)
    ensures Carry(c, Nothing, p) == c
  {
  }

  // ---------------------------------------------------------------------------
  // What the client sees of a deletion and of an allocation

  /** The address was stashed. */
  ghost predicate InStash(c: Scene, p: nat) {
    exists i :: 0 <= i < |c.stash| && c.stash[i].payload == p
  }

  ghost predicate InPools(c: Scene, p: nat) {
    exists k :: 0 <= k < |c.al.pools| && Contains(c.al.pools[k], p)
  }

  ghost predicate BelowCursor(c: Scene, p: nat) {
    c.al.arena.base <= p < c.al.arena.base + c.al.arena.used
  }

  /** The first stash entry with this payload has gone, its raw region has been freed, and nothing else
      is different. */
  ghost predicate EntryFreed(c: Scene, c': Scene, p: nat) {
    exists i :: 0 <= i < |c.stash| && c.stash[i].payload == p
      && (forall j :: 0 <= j < i ==> c.stash[j].payload != p)
      && c' == c.(stash := c.stash[..i] + c.stash[i + 1..], regions := c.regions - {c.stash[i].raw},
                  corrupt := c.corrupt || c.stash[i].raw !in c.regions)
  }

  /** The region at this address has been freed, and nothing else is different. */
  ghost predicate PointerFreed(c: Scene, c': Scene, p: nat) {
    c' == c.(regions := c.regions - {p}, corrupt := c.corrupt || p !in c.regions)
  }

  /** The block is at the head of its list, in front of what was there, and in nobody's hands; of the
      other lists, the arena, the other words and the regions nothing is different. */
  ghost predicate BlockFreed(c: Scene, c': Scene, k: nat, b: nat)
    requires k < |c.al.pools| && k < |c.held.blocks|
  {
    && c'.al.pools == c.al.pools[k := c.al.pools[k].(head := b)] && c'.al.arena == c.al.arena
    && c'.words == c.words[b := c.al.pools[k].head]
    && c'.held == c.held.(blocks := c.held.blocks[k := c.held.blocks[k] - {b}])
    && c'.regions == c.regions && c'.corrupt == c.corrupt && c'.stash == c.stash
  }

  /** Whatever block of the allocator holds the byte, it has been freed; and the allocator is in order
      if that block was handed out. */
  ghost predicate HolderFreed(c: Scene, c': Scene, p: nat) {
    && |c.al.pools| == NUM_CLASSES == |c.held.blocks|
    && forall k, b: nat :: 0 <= k < NUM_CLASSES && b in Blocks(c.al.pools[k]) && b <= p < b + SIZE_CLASSES[k] ==>
         BlockFreed(c, c', k, b) && (b in c.held.blocks[k] ==> Safe(c'))
  }

  /** What a deletion of `p` leaves, said without the decision it takes. */
  ghost predicate Deleted(c: Scene, c': Scene, asked: bool, registered: bool, p: nat) {
    if p == 0 then c' == c
    else if InStash(c, p) then EntryFreed(c, c', p)
    else if asked && InPools(c, p) then Safe(c) ==> HolderFreed(c, c', p)
    else if asked && BelowCursor(c, p) then c' == c
    else if registered then PointerFreed(c, c', p)
    else c' == c
  }

  lemma DecidedIsRight(c: Scene, ready: bool, up: bool, registered: set<nat>, p: nat)
    requires |c.al.pools| <= NUM_CLASSES
    requires var a := Decide(c.stash, ready, up, c.al, registered, p);
             a.PushBlock? ==> a.k < NUM_CLASSES && Sized(c.al) && |c.held.blocks| == NUM_CLASSES
    ensures var a := Decide(c.stash, ready, up, c.al, registered, p);
            && (a.FreeStashed? ==> a.i < |c.stash|)
            && Deleted(c, Carry(c, a, p), ready && up, p in registered, p)
  {
    hide Safe, Contains, HolderFreed, DeallocateContaining, ContainingBlock, Sized;
    LastHitIs(c.al.pools, p, |c.al.pools|);
    var a := Decide(c.stash, ready, up, c.al, registered, p);
    if a.FreeStashed? {
      assert c.stash[a.i].payload == p;
    } else if a.PushBlock? && Safe(c) {
      PushFreesHolder(c, a.k, p);
    }
  }

  lemma PushFreesHolder(c: Scene, k: nat, p: nat)
    requires Safe(c) && k < NUM_CLASSES && Sized(c.al) && |c.held.blocks| == NUM_CLASSES
    requires Contains(c.al.pools[k], p)
    ensures HolderFreed(c, Carry(c, PushBlock(k), p), p)
  {
    hide Contains, Sound, Owns, Blocks, ContainingBlock;
    ClassRoundTrip(k);
    var c' := Carry(c, PushBlock(k), p);
    forall j, b: nat | 0 <= j < NUM_CLASSES && b in Blocks(c.al.pools[j]) && b <= p < b + SIZE_CLASSES[j]
      ensures BlockFreed(c, c', j, b) && (b in c.held.blocks[j] ==> Safe(c'))
    {
      HolderIs(c, k, j, b, p);
      if b in c.held.blocks[j] {
        CarrySafe(c, PushBlock(k), p);
      }
    }
  }

  /** The block that holds a byte is the one that the region search finds. */
  lemma HolderIs(c: Scene, k: nat, j: nat, b: nat, p: nat)
    requires Safe(c) && k < NUM_CLASSES && Sized(c.al) && Contains(c.al.pools[k], p)
    requires j < NUM_CLASSES && b in Blocks(c.al.pools[j]) && b <= p < b + SIZE_CLASSES[j]
    ensures j == k && ContainingBlock(c.al.pools[k], p) == b
  {
    hide Contains, Owns, Blocks, ContainingBlock, ListOf, RangesOk;
    assert ClassOk(c.al.pools[j], j) && PoolOk(c.al.pools[j], c.words, c.held.blocks[j]);
    BlockContained(c.al.pools[j], b, p);
    AllocatorSeparate(c.al, c.words, c.held);
    ContainingBlockIs(c.al.pools[j], b, p);
  }

  /** What the client holds now and did not hold before: `n` bytes at `p`, in a block of the least class
      that is long enough, or in the arena if `n` is above the classes. */
  ghost predicate Gives(c: Scene, c': Scene, n: nat, p: nat) {
    if n > 1024 then GivesRange(c, c', n, p)
    else exists k :: GivesBlock(c, c', n, p, k)
  }

  ghost predicate GivesBlock(c: Scene, c': Scene, n: nat, p: nat, k: nat) {
    && k < NUM_CLASSES == |c.held.blocks|
    && n <= SIZE_CLASSES[k] && (forall j :: 0 <= j < k ==> SIZE_CLASSES[j] < n)
    && c'.held == c.held.(blocks := c.held.blocks[k := c.held.blocks[k] + {p}])
    && (Safe(c) ==> p !in c.held.blocks[k])
    && (Safe(c') ==> |c'.al.pools| == NUM_CLASSES && p in Blocks(c'.al.pools[k]))
  }

  ghost predicate GivesRange(c: Scene, c': Scene, n: nat, p: nat) {
    && |c'.held.ranges| == |c.held.ranges| + 1
    && c'.held == c.held.(ranges := c.held.ranges + [c'.held.ranges[|c.held.ranges|]])
    && c'.held.ranges[|c.held.ranges|].lo == p && c'.held.ranges[|c.held.ranges|].hi == p + n
  }

  /** The arena of an allocator in order has no room for the request, provided that its bounds check does
      not wrap. */
  ghost predicate OutOfRoom(c: Scene, n: nat, align: nat) {
    Safe(c) && align > 0 && !CheckWraps(c.al.arena, n, align) ==> EndOffset(c.al.arena, n, align) > c.al.arena.capacity
  }

  /** One thread's view of the process: its thread-locals and the shared objects. */
  class Runtime {
    const mem: Memory
    const heap: CentralHeap
    const flags: ThreadFlags
    const registry: FallbackRegistry
    const statsRegistry: StatsRegistry
    var ready: bool
    var stash: seq<Stashed>
    var instance: ThreadPoolAlloc?
    /** So far every deletion kept the contract, and no request made the arena's bounds check wrap. */
    ghost var honoured: bool

    /** While its allocator is in use, its statistics are registered, and as long as the contract was
        honoured it is in order. */
    ghost predicate Valid()
      reads this, mem, registry, statsRegistry, flags`gone
      reads if instance == null then {} else {instance, instance.alloc, instance.alloc.arena, instance.alloc.stats}
      reads if instance == null then {} else set k | 0 <= k < |instance.alloc.pools| :: instance.alloc.pools[k]
    {
      Wired() && (instance != null && !flags.gone && honoured ==> Safe(Look()))
    }

    /** The objects belong together. */
    ghost predicate Wired()
      reads this, mem`regions, mem`brk, mem`refusals, mem`asked, registry, statsRegistry, flags`gone
      reads if instance == null then {} else {instance, instance.alloc}
      reads if instance == null then {} else set k | 0 <= k < |instance.alloc.pools| :: instance.alloc.pools[k]
    {
      && mem.Valid() && registry.Valid() && statsRegistry.Valid() && heap.mem == mem
      && (instance == null ==> !flags.gone)
      && (instance != null ==>
            && (flags.gone <==> instance.dying) && instance.flags == flags
            && instance.alloc.Valid() && instance.alloc.flags == flags
            && instance.alloc.mem == mem && instance.alloc.heap == heap)
      && (instance != null && !flags.gone ==> instance.alloc.stats in statsRegistry.live)
    }

    constructor (mem: Memory, heap: CentralHeap, flags: ThreadFlags, registry: FallbackRegistry,
                 statsRegistry: StatsRegistry)
      requires mem.Valid() && registry.Valid() && statsRegistry.Valid() && heap.mem == mem && !flags.gone
      ensures Valid() && instance == null && stash == [] && !ready && honoured
      ensures this.mem == mem && this.heap == heap && this.flags == flags
    {
      this.mem, this.heap, this.flags, this.registry, this.statsRegistry := mem, heap, flags, registry, statsRegistry;
      ready, stash, instance, honoured := false, [], null, true;
    }

    /** The objects owned by this thread's allocator. */
    ghost function Own(): set<object>
      reads this
      reads if instance == null then {} else {instance, instance.alloc}
    {
      if instance == null then {} else instance.alloc.Parts()
    }

    /** The allocator's parts are none of the shared objects. */
    lemma OwnApart()
      ensures {this, mem, heap, flags, registry, statsRegistry} !! Own()
    {
    }

    ghost function Look(): Scene
      reads this, mem
      reads if instance == null then {} else {instance, instance.alloc, instance.alloc.arena, instance.alloc.stats}
      reads if instance == null then {} else set k | 0 <= k < |instance.alloc.pools| :: instance.alloc.pools[k]
    {
      Scene(if instance == null then NO_ALLOCATOR else instance.alloc.View(),
            if instance == null then Holdings([], []) else instance.alloc.Held(),
            mem.words, mem.regions, mem.corrupt, stash)
    }

    lemma LookSized()
      requires instance != null && instance.alloc.Valid()
      ensures Sized(Look().al) && |Look().held.blocks| == NUM_CLASSES
    {
    }

    /** The thread-local instance, built under the guard on first use; false for bad_alloc.  A new
        allocator is in order with nothing handed out and registered, on memory nobody else had. */
    method Instance() returns (ok: bool)
      requires Valid() && !flags.gone
      modifies this`instance, mem, flags`active, flags`exposed, statsRegistry
      ensures Valid() && flags.active == old(flags.active) && flags.exposed == old(flags.exposed)
      ensures ok <==> instance != null
      ensures ok ==> instance.alloc.stats in statsRegistry.live
      ensures old(instance) != null ==> ok && instance == old(instance) && Look() == old(Look()) && Own() == old(Own())
      ensures old(instance) == null && ok ==> fresh(instance) && fresh(Own())
      ensures old(instance) == null && ok ==>
        && Safe(Look()) && Look().held == NOTHING_HELD
        && ClaimsFresh(NOBODY, Look().al, old(mem.regions))
        && SparesOthers(NOBODY, old(mem.words), mem.words, old(mem.regions))
      ensures Grown(old(mem.regions), mem.regions) && (!ok ==> mem.regions == old(mem.regions))
      ensures if ok then mem.refusals >= old(mem.refusals) else mem.refusals > old(mem.refusals)
      ensures Look().stash == stash == old(stash) && Look().corrupt == mem.corrupt == old(mem.corrupt)
    {
      hide Safe, ClaimsFresh, SparesOthers, Memory.Valid;
      var prev := flags.active;
      flags.active := true;
      if instance == null {
        Construct();
      }
      flags.active := prev;
      ok := instance != null;
    }

    /** Builds the thread's allocator and enters it in the statistics registry, under the guard. */
    method Construct()
      requires Valid() && instance == null
      modifies this`instance, mem, flags`exposed, statsRegistry
      ensures flags.active ==> flags.exposed == old(flags.exposed)
      ensures Valid() && mem.corrupt == old(mem.corrupt)
      ensures instance != null ==> fresh(instance) && fresh(Own())
      ensures instance != null ==>
        && Safe(Look()) && Look().held == NOTHING_HELD
        && ClaimsFresh(NOBODY, Look().al, old(mem.regions))
        && SparesOthers(NOBODY, old(mem.words), mem.words, old(mem.regions))
      ensures Grown(old(mem.regions), mem.regions) && (instance == null ==> mem.regions == old(mem.regions))
      ensures if instance == null then mem.refusals > old(mem.refusals) else mem.refusals >= old(mem.refusals)
    {
      hide Sound, ClaimsFresh, SparesOthers, Memory.Valid, FallbackRegistry.Valid, StatsRegistry.Valid, ClassSize,
           SingleThreadAllocator.View, SingleThreadAllocator.Held;
      var alloc := SingleThreadAllocator.Build(mem, heap, flags);
      if alloc != null {
        Install(alloc);
      }
    }

    /** The front end over a new allocator, entered in the statistics registry. */
    method Install(alloc: SingleThreadAllocator)
      requires Wired() && instance == null && alloc.InOrder()
      requires alloc.mem == mem && alloc.heap == heap && alloc.flags == flags
      modifies this`instance, flags`exposed, statsRegistry
      ensures Valid() && instance != null && fresh(instance) && instance.alloc == alloc
      ensures flags.active ==> flags.exposed == old(flags.exposed)
      ensures Look().al == old(alloc.View()) && Look().held == old(alloc.Held())
    {
      hide Sound, Memory.Valid, FallbackRegistry.Valid, ClassSize;
      ghost var al, held := alloc.View(), alloc.Held();
      var t := new ThreadPoolAlloc(alloc, flags);
      statsRegistry.Register(alloc.stats, t, flags);
      instance := t;
      assert alloc.View().pools == al.pools && alloc.Held().blocks == held.blocks;
    }

    /** Stashed over-aligned pointers: the first entry with this payload goes, with its region. */
    method FreeIfStashed(p: nat) returns (hit: bool)
      requires Valid()
      modifies this`stash, this`honoured, mem`regions, mem`corrupt
      ensures Valid()
      ensures var i := FindStash(old(stash), p, 0);
              && (hit <==> i < |old(stash)|)
              && Look() == (if hit then Carry(old(Look()), FreeStashed(i), p) else old(Look()))
              && honoured == (old(honoured) && (hit ==> Proper(old(Look()), FreeStashed(i), p)))
    {
      hide Safe, Carry, Proper, Memory.Valid;
      ghost var c := Look();
      var i := 0;
      while i < |stash|
        invariant i <= |stash| && Look() == c && Valid() && honoured == old(honoured)
        invariant FindStash(stash, p, 0) == FindStash(stash, p, i)
      {
        if stash[i].payload == p {
          FreeEntry(i, p);
          return true;
        }
        i := i + 1;
      }
      hit := false;
    }

    /** The region of an entry goes back to malloc, and the entry goes. */
    method FreeEntry(i: nat, ghost p: nat)
      requires Valid() && i < |stash|
      modifies this`stash, this`honoured, mem`regions, mem`corrupt
      ensures Valid()
      ensures Look() == Carry(old(Look()), FreeStashed(i), p)
      ensures honoured == (old(honoured) && Proper(old(Look()), FreeStashed(i), p))
    {
      hide Safe, Foreign, Memory.Valid, FindStash, SingleThreadAllocator.View, SingleThreadAllocator.Held,
           SingleThreadAllocator.Valid, StatsRegistry.Valid, FallbackRegistry.Valid;
      ghost var c := Look();
      honoured := honoured && Proper(c, FreeStashed(i), p);
      mem.Free(stash[i].raw);
      stash := stash[..i] + stash[i + 1..];
      assert Look() == Carry(c, FreeStashed(i), p);
      if Safe(c) && Proper(c, FreeStashed(i), p) {
        CarrySafe(c, FreeStashed(i), p);
      }
    }

    /** What delete does with a pointer that is not this allocator's. */
    method FreeIfRegistered(p: nat)
      requires Valid()
      modifies this`honoured, mem`regions, mem`corrupt
      ensures Valid()
      ensures var a := if p in registry.Registered() then FreePointer else Nothing;
              && Look() == Carry(old(Look()), a, p)
              && honoured == (old(honoured) && Proper(old(Look()), a, p))
    {
      hide Safe, Foreign, Memory.Valid, SingleThreadAllocator.View, SingleThreadAllocator.Held,
           SingleThreadAllocator.Valid,
           StatsRegistry.Valid;
      ghost var c := Look();
      var known := registry.IsRegistered(p);
      if known {
        honoured := honoured && Proper(c, FreePointer, p);
        mem.Free(p);
        assert Look() == Carry(c, FreePointer, p);
        if Safe(c) && Proper(c, FreePointer, p) {
          CarrySafe(c, FreePointer, p);
        }
      }
    }

    /** operator delete.  `mid` is the scene once the thread's allocator exists; the decision is taken
        from the address alone and carried out, and a client that kept its contract finds the
        allocator in order afterwards.  False stands for a failure to build the allocator on a
        thread that had none. */
    method DoDelete(p: nat) returns (ok: bool, ghost mid: Scene)
      requires Valid()
      modifies this`stash, this`instance, this`honoured, mem, flags`active, flags`exposed, statsRegistry, Own()
      ensures Valid() && flags.active == old(flags.active) && flags.exposed == old(flags.exposed)
      ensures old(instance) != null || flags.gone || !ready ==> ok && mid == old(Look())
      ensures ok && mid != old(Look()) ==> Safe(mid) && mid.held == NOTHING_HELD
      ensures mid.stash == old(stash) && mid.corrupt == old(mem.corrupt)
      ensures if ok then mem.refusals >= old(mem.refusals) else mem.refusals > old(mem.refusals)
      ensures ok ==> Deleted(mid, Look(), ready && !flags.gone, p in registry.Registered(), p)
      ensures !ok ==> honoured == old(honoured)
      ensures ok ==>
        var a := Decide(mid.stash, ready, !flags.gone, mid.al, registry.Registered(), p);
        && (a.FreeStashed? ==> a.i < |mid.stash|)
        && (a.PushBlock? ==> a.k < NUM_CLASSES && Sized(mid.al) && |mid.held.blocks| == NUM_CLASSES)
        && Look() == Carry(mid, a, p)
        && honoured == (old(honoured) && Proper(mid, a, p))
    {
      hide Carry, Proper, Safe, Allocators.Classify, Memory.Valid, Deleted, Decide;
      ok, mid := DeleteDecided(p);
      if ok {
        DecidedIsRight(mid, ready, !flags.gone, registry.Registered(), p);
      }
    }

    method DeleteDecided(p: nat) returns (ok: bool, ghost mid: Scene)
      requires Valid()
      modifies this`stash, this`instance, this`honoured, mem, flags`active, flags`exposed, statsRegistry, Own()
      ensures Valid() && flags.active == old(flags.active) && flags.exposed == old(flags.exposed)
      ensures old(instance) != null || flags.gone || !ready ==> ok && mid == old(Look())
      ensures ok && mid != old(Look()) ==> Safe(mid) && mid.held == NOTHING_HELD
      ensures mid.stash == old(stash) && mid.corrupt == old(mem.corrupt) && |mid.al.pools| <= NUM_CLASSES
      ensures if ok then mem.refusals >= old(mem.refusals) else mem.refusals > old(mem.refusals)
      ensures !ok ==> honoured == old(honoured)
      ensures ok ==>
        var a := Decide(mid.stash, ready, !flags.gone, mid.al, registry.Registered(), p);
        && (a.FreeStashed? ==> a.i < |mid.stash|)
        && (a.PushBlock? ==> a.k < NUM_CLASSES && Sized(mid.al) && |mid.held.blocks| == NUM_CLASSES)
        && Look() == Carry(mid, a, p)
        && honoured == (old(honoured) && Proper(mid, a, p))
    {
      hide Carry, Proper, Safe, Allocators.Classify, Memory.Valid;
      ok, mid := true, Look();
      CarryNothing(mid, p);
      NothingIsProper(mid, p);
      if p == 0 {
        return;
      }
      var hit := FreeIfStashed(p);
      if hit {
        return;
      }
      if !ready || flags.gone {
        FreeIfRegistered(p);
        return;
      }
      ok, mid := DeleteGuarded(p);
    }

    static lemma NothingIsProper(c: Scene, p: nat)
      ensures Proper(c, Nothing, p)
    {
    }

    /** The rest of delete, under the guard: make sure of the allocator, then let it decide. */
    method DeleteGuarded(p: nat) returns (ok: bool, ghost mid: Scene)
      requires Valid() && !flags.gone && ready && p != 0 && FindStash(stash, p, 0) == |stash|
      modifies this`instance, this`honoured, mem, flags`active, flags`exposed, statsRegistry, Own()
      ensures Valid() && flags.active == old(flags.active) && flags.exposed == old(flags.exposed)
      ensures old(instance) != null ==> ok && mid == old(Look())
      ensures old(instance) == null && ok ==> Safe(mid) && mid.held == NOTHING_HELD
      ensures mid.stash == old(stash) && mid.corrupt == old(mem.corrupt) && |mid.al.pools| <= NUM_CLASSES
      ensures if ok then mem.refusals >= old(mem.refusals) else mem.refusals > old(mem.refusals)
      ensures !ok ==> honoured == old(honoured)
      ensures ok ==>
        var a := Decide(mid.stash, ready, !flags.gone, mid.al, registry.Registered(), p);
        && !a.FreeStashed?
        && (a.PushBlock? ==> a.k < NUM_CLASSES && Sized(mid.al) && |mid.held.blocks| == NUM_CLASSES)
        && Look() == Carry(mid, a, p)
        && honoured == (old(honoured) && Proper(mid, a, p))
    {
      hide Carry, Proper, Safe, Allocators.Classify, Decide, FindStash, Look, Own, Memory.Valid;
      var prev := flags.active;
      flags.active := true;
      ok := Instance();
      mid := Look();
      SevenPools();
      if ok {
        // The allocator of a thread that is not gone is never dying, so the source's test for
        // that finds nothing to do.
        assert !instance.dying;
        OwnApart();
        DeleteClassified(p);
      }
      flags.active := prev;
    }

    /** The part of delete behind the guard: classify, then free, ignore or push. */
    method DeleteClassified(p: nat)
      requires Valid() && instance != null && !flags.gone && p != 0
      requires FindStash(stash, p, 0) == |stash|
      modifies this`honoured, mem`words, mem`regions, mem`corrupt, Own()
      ensures Valid()
      ensures var a := Decide(old(stash), true, true, old(Look()).al, registry.Registered(), p);
              && !a.FreeStashed?
              && (a.PushBlock? ==>
                   a.k < NUM_CLASSES && Sized(old(Look()).al) && |old(Look()).held.blocks| == NUM_CLASSES)
              && Look() == Carry(old(Look()), a, p)
              && honoured == (old(honoured) && Proper(old(Look()), a, p))
    {
      hide Allocators.DeallocateContaining, Allocators.Classify, Contains, Memory.Valid, StatsRegistry.Valid,
           FallbackRegistry.Valid, ContainingBlock, Carry, Proper, Safe;
      ghost var c := Look();
      ghost var o := Allocators.Classify(c.al, p);
      HitContains(c.al, p);
      LookSized();
      var cls := instance.alloc.Classify(p);
      Decoded(o, cls);
      hide Encode;
      if cls == 0 {
        FreeIfRegistered(p);
        return;
      }
      if cls == WORD_MOD - 1 {
        CarryNothing(c, p);
        NothingIsProper(c, p);
        return;
      }
      PushBack(p, o.k, cls);
    }

    /** The block that holds `p` goes back to its pool. */
    method PushBack(p: nat, ghost k: nat, cls: nat)
      requires Valid() && instance != null && !flags.gone
      requires k < NUM_CLASSES && cls == ClassSize(k)
      requires |Look().al.pools| == NUM_CLASSES && Contains(Look().al.pools[k], p)
      modifies this`honoured, mem`words, Own()
      ensures Valid()
      ensures Sized(old(Look()).al) && |old(Look()).held.blocks| == NUM_CLASSES
      ensures Look() == Carry(old(Look()), PushBlock(k), p)
      ensures honoured == (old(honoured) && Proper(old(Look()), PushBlock(k), p))
    {
      hide Carry, Proper, Safe, Sized, ContainingBlock, Contains, SingleThreadAllocator.View,
           SingleThreadAllocator.Held;
      ghost var c := Look();
      OwnApart();
      HandBack(p, k, cls);
      honoured := honoured && Proper(c, PushBlock(k), p);
      if Safe(c) && Proper(c, PushBlock(k), p) {
        CarrySafe(c, PushBlock(k), p);
      }
    }

    method HandBack(p: nat, ghost k: nat, cls: nat)
      requires Wired() && instance != null && !flags.gone
      requires k < NUM_CLASSES && cls == ClassSize(k)
      requires |Look().al.pools| == NUM_CLASSES && Contains(Look().al.pools[k], p)
      modifies mem`words, Own()
      ensures Wired()
      ensures Sized(old(Look()).al) && |old(Look()).held.blocks| == NUM_CLASSES
      ensures Look() == Carry(old(Look()), PushBlock(k), p)
    {
      hide Allocators.DeallocateContaining, Contains, Memory.Valid, StatsRegistry.Valid, FallbackRegistry.Valid,
           ContainingBlock, ClassIndex, Sound, SparesOthers;
      ghost var c := Look();
      ClassRoundTrip(k);
      LookSized();
      assert c.al.pools[k] == instance.alloc.pools[k].View();
      instance.alloc.DeallocateContaining(p, cls);
    }

    static lemma Decoded(o: Origin, cls: nat)
      requires (o.FromPool? ==> o.k < NUM_CLASSES) && cls == Encode(o)
      ensures cls == 0 <==> o.NotOurs?
      ensures cls == WORD_MOD - 1 <==> o.FromArena?
      ensures o.FromPool? ==> cls == ClassSize(o.k)
    {
    }

    static lemma HitContains(al: Allocator, p: nat)
      ensures var o := Allocators.Classify(al, p);
              o.FromPool? ==> o.k < |al.pools| && Contains(al.pools[o.k], p)
    {
      LastHitIs(al.pools, p, |al.pools|);
    }

    /** Whether operator new must stay away from the allocator: too early, nested, or too late. */
    predicate MustFallBack()
      reads this`ready, flags
    {
      !ready || flags.active || flags.gone
    }

    /** The malloc path of operator new.  The pointer is returned even when it is null, and whatever
        it is it is registered if there is `room` for the record. */
    method FallbackNew(n: nat, room: bool) returns (p: nat)
      requires Valid()
      modifies mem`regions, mem`brk, mem`refusals, mem`asked, registry
      ensures Valid()
      ensures p == 0 ==> mem.regions == old(mem.regions)
      ensures mem.asked == n && mem.refusals == old(mem.refusals) + if p == 0 then 1 else 0
      ensures p != 0 ==> p % 16 == 0 && Memory.Fresh(old(mem.regions), p, n) && p !in old(mem.regions)
                         && mem.regions == old(mem.regions)[p := n]
      ensures registry.Registered() == if room then old(registry.Registered()) + {p} else old(registry.Registered())
    {
      hide Sound, Memory.Valid, Memory.Fresh;
      ghost var c := Look();
      p := mem.Malloc(n);
      SafeGrown(c, Look());
      registry.Record(p, room);
    }

    /** More regions from malloc do not concern the allocator. */
    static lemma SafeGrown(c: Scene, c': Scene)
      requires c'.al == c.al && c'.held == c.held && c'.words == c.words
      requires Grown(c.regions, c'.regions)
      ensures Safe(c) ==> Safe(c')
    {
      hide Sound;
      if Safe(c) {
        Growing(c.al, c.words, c.regions, c'.regions, c.held);
      }
    }

    /** The request that operator new serves: at least one byte. */
    static function AtLeastOne(size: nat): nat {
      if size == 0 then 1 else size
    }

    /** What the allocator does with a request, from the scene `mid`: exactly allocate, with the chunk
        `body` if it was given one; what is handed out grows by the object; others are spared. */
    static ghost predicate Served(mid: Scene, now: Scene, n: nat, body: nat, p: nat) {
      && |mid.al.pools| == NUM_CLASSES == |mid.held.blocks|
      && (now.al, now.words, p) == Allocators.Allocate(mid.al, mid.words, n, body)
      && now.held == Handed(mid.al, mid.held, n, p)
      && now.corrupt == mid.corrupt && now.stash == mid.stash
      && (body != 0 ==> ChunkGiven(mid.regions, now.regions, body))
      && (body == 0 ==> now.regions == mid.regions)
      && Grown(mid.regions, now.regions)
      && SparesOthers(mid.al, mid.words, now.words, mid.regions)
      && ClaimsFresh(mid.al, now.al, mid.regions)
    }

    /** The arena's bounds check, should the request come to it, does not wrap. */
    static predicate Bounded(mid: Scene, n: nat) {
      n > MAX_SMALL ==> !CheckWraps(mid.al.arena, n, MAX_ALIGN)
    }

    /** operator new.  `fell` says that malloc served the request; otherwise the thread's allocator
        did, starting from the scene `mid`, in order if the contract was honoured so far, with `body`
        the chunk it was given if it asked for one.  The object holds `size` bytes, and at least one.
        Null stands for bad_alloc except on the malloc path; it means that malloc refused something,
        or that the arena has no room for a large request.  `room` says that malloc has memory for
        the record of a pointer. */
    method DoNew(size: nat, room: bool) returns (p: nat, fell: bool, ghost mid: Scene, ghost body: nat)
      requires Valid() && size < WORD_MOD
      modifies this`instance, this`honoured, mem, heap, registry, flags`active, flags`exposed, statsRegistry, Own()
      ensures Valid() && flags.active == old(flags.active) && flags.exposed == old(flags.exposed) && stash == old(stash)
      ensures fell <==> old(!ready || flags.active || flags.gone)
      ensures fell ==> instance == old(instance) && Look().al == old(Look()).al && mem.words == old(mem.words)
      ensures fell ==> honoured == old(honoured)
      ensures fell ==> mem.asked == if size == 0 then 1 else size
      ensures fell && p == 0 ==> mem.regions == old(mem.regions) && mem.refusals > old(mem.refusals)
      ensures fell && p != 0 ==>
        && p % 16 == 0 && Memory.Fresh(old(mem.regions), p, if size == 0 then 1 else size)
        && mem.regions == old(mem.regions)[p := if size == 0 then 1 else size]
      ensures fell ==>
        registry.Registered() == if room then old(registry.Registered()) + {p} else old(registry.Registered())
      ensures !fell && |mid.al.pools| == NUM_CLASSES && size <= 1024 ==> honoured == old(honoured)
      ensures !fell && p != 0 ==> Gives(mid, Look(), if size == 0 then 1 else size, p)
      ensures !fell && p == 0 ==> mem.refusals > old(mem.refusals) || (size > 1024 && OutOfRoom(mid, size, 16))
      ensures !fell ==> registry.Registered() == old(registry.Registered())
      ensures !fell && old(instance) != null ==> mid == old(Look())
      ensures !fell && |mid.al.pools| == NUM_CLASSES && (old(honoured) || old(instance) == null) ==> Safe(mid)
      ensures !fell && old(instance) == null && |mid.al.pools| == NUM_CLASSES ==> mid.held == NOTHING_HELD
      ensures mem.corrupt == old(mem.corrupt)
      ensures !fell ==> if |mid.al.pools| != NUM_CLASSES then p == 0 && honoured == old(honoured)
                        else Served(mid, Look(), AtLeastOne(size), body, p)
                             && honoured == (old(honoured) && Bounded(mid, AtLeastOne(size)))
    {
      hide Served, Safe, Memory.Valid, Memory.Fresh, Gives, OutOfRoom, CheckWraps;
      var n := AtLeastOne(size);
      fell, mid, body := MustFallBack(), Look(), 0;
      if fell {
        p := FallbackNew(n, room);
        return;
      }
      p, mid, body := GuardedNew(n);
    }

    /** The part of operator new under the guard. */
    method GuardedNew(n: nat) returns (p: nat, ghost mid: Scene, ghost body: nat)
      requires Valid() && !flags.gone && n < WORD_MOD
      modifies this`instance, this`honoured, mem, heap, flags`active, flags`exposed, statsRegistry, Own()
      ensures Valid() && flags.active == old(flags.active) && flags.exposed == old(flags.exposed) && stash == old(stash)
      ensures old(instance) != null ==> mid == old(Look())
      ensures |mid.al.pools| == NUM_CLASSES && (old(honoured) || old(instance) == null) ==> Safe(mid)
      ensures old(instance) == null && |mid.al.pools| == NUM_CLASSES ==> mid.held == NOTHING_HELD
      ensures mem.corrupt == old(mem.corrupt)
      ensures if |mid.al.pools| != NUM_CLASSES then p == 0 && honoured == old(honoured)
              else Served(mid, Look(), n, body, p) && honoured == (old(honoured) && Bounded(mid, n))
      ensures if p != 0 then Gives(mid, Look(), n, p)
              else mem.refusals > old(mem.refusals) || (n > 1024 && OutOfRoom(mid, n, 16))
    {
      hide Served, Bounded, Safe, Own, Look, Memory.Valid, Gives, OutOfRoom;
      var prev := flags.active;
      flags.active := true;
      var ok := Instance();
      mid, body, p := Look(), 0, 0;
      NoInstance();
      if ok {
        OwnApart();
        p, body := NewFromInstance(n);
      }
      flags.active := prev;
    }

    lemma SevenPools()
      requires instance != null ==> instance.alloc.Valid()
      ensures |Look().al.pools| <= NUM_CLASSES
    {
    }

    lemma NoInstance()
      ensures instance == null ==> Look().al == NO_ALLOCATOR
      ensures mem.corrupt == Look().corrupt && stash == Look().stash
      ensures mem.words == Look().words && mem.regions == Look().regions
    {
    }

    method NewFromInstance(n: nat) returns (p: nat, ghost body: nat)
      requires Valid() && !flags.gone && instance != null && n < WORD_MOD
      modifies this`honoured, mem, heap, flags`active, flags`exposed, Own()
      ensures Valid() && Own() == old(Own()) && mem.corrupt == old(mem.corrupt)
      ensures flags.active == old(flags.active) && flags.exposed == old(flags.exposed)
      ensures |old(Look()).al.pools| == NUM_CLASSES
      ensures Served(old(Look()), Look(), n, body, p)
      ensures honoured == (old(honoured) && Bounded(old(Look()), n))
      ensures mem.refusals >= old(mem.refusals)
      ensures if p != 0 then Gives(old(Look()), Look(), n, p)
              else mem.refusals > old(mem.refusals) || (n > 1024 && OutOfRoom(old(Look()), n, 16))
    {
      hide Served, Bounded, Gives, OutOfRoom, Safe, Memory.Valid;
      ghost var c := Look();
      p, body := AllocateFromInstance(n);
      if p != 0 {
        ServedGives(c, Look(), n, body, p);
      } else if n > 1024 {
        ServedNull(c, Look(), n, body);
      }
    }

    method AllocateFromInstance(n: nat) returns (p: nat, ghost body: nat)
      requires Valid() && !flags.gone && instance != null && n < WORD_MOD
      modifies this`honoured, mem, heap, flags`active, flags`exposed, Own()
      ensures Valid() && Own() == old(Own()) && mem.corrupt == old(mem.corrupt)
      ensures flags.active == old(flags.active) && flags.exposed == old(flags.exposed)
      ensures |old(Look()).al.pools| == NUM_CLASSES
      ensures Served(old(Look()), Look(), n, body, p)
      ensures honoured == (old(honoured) && Bounded(old(Look()), n))
      ensures mem.refusals >= old(mem.refusals)
      ensures p == 0 && n <= MAX_SMALL ==> mem.refusals > old(mem.refusals)
    {
      hide Allocators.Allocate, Handed, Sound, Grown, ChunkGiven, SparesOthers, ClaimsFresh, CheckWraps, Memory.Valid,
           StatsRegistry.Valid, FallbackRegistry.Valid, ClassSize;
      LookSized();
      honoured := honoured && Bounded(Look(), n);
      p, body := instance.Allocate(n);
    }

    /** The object that was handed out. */
    static lemma ServedGives(c: Scene, c': Scene, n: nat, body: nat, p: nat)
      requires Served(c, c', n, body, p) && p != 0 && n < WORD_MOD
      ensures Gives(c, c', n, p)
    {
      hide Allocators.Allocate, Sound, SparesOthers, ClaimsFresh, ChunkGiven, Grown, ClassIndex, ClassSize;
      if n <= MAX_SMALL {
        FitIsTight(n);
        var k := ClassIndex(n);
        LeastClass(n);
        if Safe(c) {
          NotHeldBefore(c, c', n, body, p);
        }
        if Safe(c') {
          HeldIsManaged(c', k, p);
        }
        assert GivesBlock(c, c', n, p, k);
      } else {
        AllocateLarge(c.al, c.words, n, body);
      }
    }

    static lemma LeastClass(n: nat)
      requires n <= MAX_SMALL
      ensures ClassIndex(n) < NUM_CLASSES && n <= SIZE_CLASSES[ClassIndex(n)]
      ensures forall j :: 0 <= j < ClassIndex(n) ==> SIZE_CLASSES[j] < n
    {
      FitIsTight(n);
      forall j | 0 <= j < ClassIndex(n)
        ensures SIZE_CLASSES[j] < n
      {
        assert ClassSize(j) < ClassSize(ClassIndex(n));
      }
    }

    static lemma HeldIsManaged(c: Scene, k: nat, p: nat)
      requires Safe(c) && k < NUM_CLASSES && k < |c.held.blocks| && p in c.held.blocks[k]
      ensures |c.al.pools| == NUM_CLASSES && p in Blocks(c.al.pools[k])
    {
      hide Owns, Blocks, RangesOk, Contains, ListOf;
      assert PoolOk(c.al.pools[k], c.words, c.held.blocks[k]);
    }

    static lemma NotHeldBefore(c: Scene, c': Scene, n: nat, body: nat, p: nat)
      requires Safe(c) && Served(c, c', n, body, p) && p != 0 && n <= MAX_SMALL && ClassIndex(n) < NUM_CLASSES
      ensures p !in c.held.blocks[ClassIndex(n)]
    {
      hide AllocatorOk, Owns, Handed, Allocators.Allocate, Grown, SparesOthers, ClaimsFresh, Taken, Memory.Fresh,
           IsPow2, ClassIndex;
      ChunkUnowned(c.al, c.words, c.regions, c.held, body, c'.regions);
      SixteenIsPow2();
      AllocateKeeps(c.al, c.words, c.held, n, body);
    }

    static lemma AllocateLarge(al: Allocator, m: Words, n: nat, body: nat)
      requires |al.pools| == NUM_CLASSES && n > MAX_SMALL
      ensures Allocators.Allocate(al, m, n, body).2 == Grant(al.arena, n, MAX_ALIGN).1
    {
      hide Grant;
    }

    /** A large request that the arena refused. */
    static lemma ServedNull(c: Scene, c': Scene, n: nat, body: nat)
      requires Served(c, c', n, body, 0) && 1024 < n < WORD_MOD
      ensures OutOfRoom(c, n, 16)
    {
      hide Allocators.Allocate, Handed, Grown, SparesOthers, ClaimsFresh, ChunkGiven, Owns, PoolsOk, CheckWraps, Grant;
      AllocateLarge(c.al, c.words, n, body);
      SixteenIsPow2();
      if Safe(c) && !CheckWraps(c.al.arena, n, 16) {
        GrantKeeps(c.al.arena, c.held.ranges, n, 16);
      }
    }

    /** Over-aligned fallback: the payload is the first aligned address of a larger region, and the
        region holds the whole object if and only if the sum of size and alignment does not wrap. */
    method BootstrapAlignedNew(size: nat, align: nat) returns (p: nat, raw: nat)
      requires Valid() && 0 < size < WORD_MOD && IsPow2(align) && align > 0
      modifies this`stash, mem`regions, mem`brk, mem`refusals, mem`asked
      ensures Valid()
      ensures raw == 0 ==> p == 0 && stash == old(stash) && mem.regions == old(mem.regions)
      ensures mem.refusals == old(mem.refusals) + if raw == 0 then 1 else 0
      ensures mem.asked == (size + align) % 0x1_0000_0000_0000_0000
      ensures raw != 0 ==> mem.regions == old(mem.regions)[raw := (size + align) % 0x1_0000_0000_0000_0000]
      ensures raw != 0 ==>
        && stash == old(stash) + [Stashed(raw, p)] && p % align == 0
        && raw in mem.regions && raw !in old(mem.regions)
        && (raw <= p && p + size <= raw + mem.regions[raw] <==> size + align < WORD_MOD)
    {
      hide Wrap, AlignUp, Sound, Memory.Valid, Memory.Fresh;
      ghost var c := Look();
      WrappedSum(size + align);
      raw := mem.Malloc(Wrap(size + align));
      SafeGrown(c, Look());
      if raw == 0 {
        return 0, 0;
      }
      p := AlignUp(raw, align);
      StashRegion(raw, size, align);
      stash := stash + [Stashed(raw, p)];
    }

    static lemma WrappedSum(x: nat)
      requires x < 2 * WORD_MOD
      ensures Wrap(x) == x % 0x1_0000_0000_0000_0000
    {
    }

    /** Rounding up inside a region of `size + align` bytes, that sum taken on machine words. */
    static lemma StashRegion(raw: nat, size: nat, align: nat)
      requires 0 < size < WORD_MOD && IsPow2(align) && align > 0 && raw + Wrap(size + align) < WORD_MOD
      ensures AlignUp(raw, align) % align == 0
      ensures raw <= AlignUp(raw, align) && AlignUp(raw, align) + size <= raw + Wrap(size + align)
         <==> size + align < WORD_MOD
    {
      AlignUpIsCeil(raw, align);
      CeilIsLeast(raw, align);
      hide AlignUp;
      assert Wrap(size + align) == if size + align < WORD_MOD then size + align else size + align - WORD_MOD;
      assert 0 % align == 0;
    }

    /** Aligned operator new: default alignments ride on operator new, the others on the arena.  The
        result has the alignment asked for on every path, for the pools as long as the contract was
        honoured. */
    method DoAlignedNew(size: nat, align: nat, room: bool)
      returns (p: nat, path: NewPath, ghost mid: Scene, ghost body: nat)
      requires Valid() && size < WORD_MOD && IsPow2(align) && align > 0
      modifies this`instance, this`stash, this`honoured, mem, heap, registry, flags`active, flags`exposed
      modifies statsRegistry, Own()
      ensures Valid() && flags.active == old(flags.active) && flags.exposed == old(flags.exposed)
      ensures path == if old(!ready || flags.active || flags.gone) then (if align <= 16 then ByMalloc else ByStash)
                      else (if align <= 16 then ByAllocator else ByArena)
      ensures path != ByAllocator || old(honoured) ==> p % align == 0
      ensures path == ByMalloc && p != 0 ==>
        && Memory.Fresh(old(mem.regions), p, if size == 0 then 1 else size)
        && mem.regions == old(mem.regions)[p := if size == 0 then 1 else size]
      ensures path == ByMalloc ==>
        registry.Registered() == if room then old(registry.Registered()) + {p} else old(registry.Registered())
      ensures path == ByMalloc ==> mem.asked == if size == 0 then 1 else size
      ensures path == ByStash ==> mem.asked == ((if size == 0 then 1 else size) + align) % 0x1_0000_0000_0000_0000
      ensures path in {ByMalloc, ByStash} && p == 0 && stash == old(stash) ==> mem.refusals > old(mem.refusals)
      ensures path == ByStash && stash == old(stash) ==> p == 0
      ensures path == ByStash && stash != old(stash) ==>
        && |stash| == |old(stash)| + 1 && stash[..|old(stash)|] == old(stash) && stash[|old(stash)|].payload == p
        && var raw, n := stash[|old(stash)|].raw, if size == 0 then 1 else size;
           && raw !in old(mem.regions)
           && mem.regions == old(mem.regions)[raw := (n + align) % 0x1_0000_0000_0000_0000]
           && (raw <= p && p + n <= raw + mem.regions[raw] <==> n + align < 0x1_0000_0000_0000_0000)
      ensures path == ByAllocator && p != 0 ==> Gives(mid, Look(), if size == 0 then 1 else size, p)
      ensures path == ByAllocator && p == 0 ==>
        mem.refusals > old(mem.refusals) || (size > 1024 && OutOfRoom(mid, size, 16))
      ensures path == ByArena && p != 0 ==> GivesRange(mid, Look(), if size == 0 then 1 else size, p)
      ensures path == ByArena && p == 0 ==>
        mem.refusals > old(mem.refusals) || OutOfRoom(mid, if size == 0 then 1 else size, align)
      ensures path != ByStash ==> stash == old(stash)
      ensures path in {ByMalloc, ByStash} ==> honoured == old(honoured)
      ensures path in {ByAllocator, ByArena} && old(instance) != null ==> mid == old(Look())
      ensures path in {ByAllocator, ByArena} && |mid.al.pools| == NUM_CLASSES
              && (old(honoured) || old(instance) == null) ==>
        Safe(mid)
      ensures path in {ByAllocator, ByArena} && |mid.al.pools| != NUM_CLASSES ==> p == 0 && honoured == old(honoured)
      ensures path == ByAllocator && |mid.al.pools| == NUM_CLASSES ==>
        Served(mid, Look(), AtLeastOne(size), body, p) && honoured == (old(honoured) && Bounded(mid, AtLeastOne(size)))
      ensures path == ByArena && |mid.al.pools| == NUM_CLASSES ==>
        && (Look().al, p) == FromBump(mid.al, AtLeastOne(size), align)
        && Look().held == TakeRange(mid.al, mid.held, AtLeastOne(size), align)
        && mem.words == mid.words && mem.regions == mid.regions
        && honoured == (old(honoured) && !CheckWraps(mid.al.arena, AtLeastOne(size), align))
    {
      hide Served, Bounded, Safe, FromBump, TakeRange, CheckWraps, Memory.Valid, Memory.Fresh, Gives, GivesRange,
           OutOfRoom;
      var n := AtLeastOne(size);
      mid, body := Look(), 0;
      if align <= MAX_ALIGN {
        var fell;
        p, fell, mid, body := DoNew(n, room);
        path := if fell then ByMalloc else ByAllocator;
        SmallPow2Divides(align);
        if fell {
          MultipleOfMultiple(p, 16, align);
        } else if old(honoured) && |mid.al.pools| == NUM_CLASSES {
          ServedAligned(mid, Look(), n, body, p, align);
        }
        MultipleMod(align, 0);
        return;
      }
      if MustFallBack() {
        var raw;
        p, raw := BootstrapAlignedNew(n, align);
        MultipleMod(align, 0);
        return p, ByStash, mid, body;
      }
      path := ByArena;
      p, mid := GuardedAligned(n, align);
      MultipleMod(align, 0);
      if |mid.al.pools| == NUM_CLASSES {
        BumpAligned(mid.al, n, align);
      }
    }

    static lemma ServedAligned(mid: Scene, now: Scene, n: nat, body: nat, p: nat, align: nat)
      requires Safe(mid) && Served(mid, now, n, body, p) && n < WORD_MOD && IsPow2(align) && 0 < align <= MAX_ALIGN
      ensures p % align == 0
    {
      hide AllocatorOk, Owns, Handed, Allocators.Allocate, Grown, SparesOthers, ClaimsFresh, Taken, Memory.Fresh,
           IsPow2;
      ChunkUnowned(mid.al, mid.words, mid.regions, mid.held, body, now.regions);
      AlignedNewIsAligned(mid.al, mid.words, mid.held, n, align, body);
    }

    method GuardedAligned(n: nat, align: nat) returns (p: nat, ghost mid: Scene)
      requires Valid() && !flags.gone && n < WORD_MOD && IsPow2(align) && 0 < align < WORD_MOD
      modifies this`instance, this`honoured, mem, flags`active, flags`exposed, statsRegistry, Own()
      ensures Valid() && flags.active == old(flags.active) && flags.exposed == old(flags.exposed) && stash == old(stash)
      ensures old(instance) != null ==> mid == old(Look())
      ensures |mid.al.pools| == NUM_CLASSES && (old(honoured) || old(instance) == null) ==> Safe(mid)
      ensures if |mid.al.pools| != NUM_CLASSES then p == 0 && honoured == old(honoured)
              else && (Look().al, p) == FromBump(mid.al, n, align)
                   && Look().held == TakeRange(mid.al, mid.held, n, align)
                   && mem.words == mid.words && mem.regions == mid.regions
                   && honoured == (old(honoured) && !CheckWraps(mid.al.arena, n, align))
      ensures if p != 0 then GivesRange(mid, Look(), n, p)
              else mem.refusals > old(mem.refusals) || OutOfRoom(mid, n, align)
    {
      hide FromBump, TakeRange, Safe, CheckWraps, IsPow2, Own, Look, Memory.Valid, GivesRange, OutOfRoom;
      var prev := flags.active;
      flags.active := true;
      var ok := Instance();
      mid, p := Look(), 0;
      NoInstance();
      if ok {
        OwnApart();
        p := AlignedFromInstance(n, align);
        NoInstance();
      }
      flags.active := prev;
    }

    method AlignedFromInstance(n: nat, align: nat) returns (p: nat)
      requires Valid() && !flags.gone && instance != null && n < WORD_MOD && IsPow2(align) && 0 < align < WORD_MOD
      modifies this`honoured, flags`active, Own()
      ensures Valid() && flags.active == old(flags.active) && flags.exposed == old(flags.exposed)
      ensures |old(Look()).al.pools| == NUM_CLASSES
      ensures (Look().al, p) == FromBump(old(Look()).al, n, align)
      ensures Look().held == TakeRange(old(Look()).al, old(Look()).held, n, align)
      ensures Look().words == old(Look()).words && Look().regions == old(Look()).regions
      ensures honoured == (old(honoured) && !CheckWraps(old(Look()).al.arena, n, align))
      ensures if p != 0 then GivesRange(old(Look()), Look(), n, p) else OutOfRoom(old(Look()), n, align)
    {
      hide FromBump, TakeRange, Sound, CheckWraps, IsPow2, Memory.Valid, StatsRegistry.Valid,
           FallbackRegistry.Valid, ClassSize;
      LookSized();
      honoured := honoured && !CheckWraps(Look().al.arena, n, align);
      ghost var c := Look();
      p := instance.AllocateAligned(n, align);
      BumpGives(c, Look(), n, align, p);
    }

    static lemma BumpGives(c: Scene, c': Scene, n: nat, align: nat, p: nat)
      requires n < WORD_MOD && IsPow2(align) && 0 < align <= WORD_MOD
      requires (c'.al, p) == FromBump(c.al, n, align) && c'.held == TakeRange(c.al, c.held, n, align)
      ensures if p != 0 then GivesRange(c, c', n, p) else OutOfRoom(c, n, align)
    {
      hide Grant, Owns, PoolsOk, CheckWraps;
      if p == 0 && Safe(c) && !CheckWraps(c.al.arena, n, align) {
        GrantKeeps(c.al.arena, c.held.ranges, n, align);
      }
    }

    /** Warms the heap, then lets operator new and delete use it. */
    method InitAllocator() returns (ok: bool)
      requires Valid() && !flags.gone
      modifies this`instance, this`ready, mem, flags`active, flags`exposed, statsRegistry
      ensures Valid() && flags.active == old(flags.active) && flags.exposed == old(flags.exposed)
      ensures ok ==> ready && instance != null
      ensures ok && old(instance) == null ==> Safe(Look()) && Look().held == NOTHING_HELD
      ensures old(instance) != null ==> ok && instance == old(instance) && Look() == old(Look())
      ensures !ok ==> ready == old(ready) && mem.regions == old(mem.regions) && mem.refusals > old(mem.refusals)
    {
      hide Safe, Memory.Valid;
      ok := Instance();
      if ok {
        ready := true;
      }
    }

    /** Thread exit, on any thread that has an allocator: the destructor runs, the global statistics are
        what they were, and nothing reaches the allocator afterwards. */
    method ExitThread()
      requires Valid() && instance != null && !flags.gone
      modifies flags, instance`dying, statsRegistry
      ensures Valid() && flags.gone && MustFallBack() && instance.dying
      ensures statsRegistry.Global() == old(statsRegistry.Global())
    {
      instance.Destroy(statsRegistry);
    }
  }

  /** How an aligned request was served. */
  datatype NewPath = ByMalloc | ByAllocator | ByStash | ByArena

  /** On the allocator's paths too the result has the alignment asked for, whatever the request: pool
      blocks are 16-aligned, and the arena honours any power of two even where its bounds check
      wraps. */
  lemma AlignedNewIsAligned(al: Allocator, m: Words, h: Holdings, n: nat, align: nat, body: nat)
    requires AllocatorOk(al, m, h) && n < WORD_MOD && IsPow2(align)
    requires body >= HEADER_BYTES ==>
      && body % 64 == 0
      && forall a :: body - HEADER_BYTES <= a < body + (CHUNK_SIZE - HEADER_BYTES) ==> !Owns(al, a)
    ensures align > 0
    ensures align <= MAX_ALIGN ==> Allocate(al, m, n, body).2 % align == 0
    ensures FromBump(al, n, align).1 % align == 0
  {
    BumpAligned(al, n, align);
    if align <= MAX_ALIGN {
      AllocateAligned16(al, m, h, n, body);
      SmallPow2Divides(align);
      MultipleOfMultiple(Allocate(al, m, n, body).2, 16, align);
    }
  }

  lemma BumpAligned(al: Allocator, n: nat, align: nat)
    requires IsPow2(align)
    ensures 0 < align <= WORD_MOD && FromBump(al, n, align).1 % align == 0
  {
    PowDividesWord(align);
    MaskDownIsFloor(Wrap(Wrap(al.arena.base + al.arena.used) + align - 1), align);
    MultipleMod(align, 0);
  }

  lemma SixteenIsPow2()
    ensures IsPow2(MAX_ALIGN)
  {
    assert Pow2(4) == 16;
  }

  lemma AllocateAligned16(al: Allocator, m: Words, h: Holdings, n: nat, body: nat)
    requires AllocatorOk(al, m, h) && n < WORD_MOD
    requires body >= HEADER_BYTES ==>
      && body % 64 == 0
      && forall a :: body - HEADER_BYTES <= a < body + (CHUNK_SIZE - HEADER_BYTES) ==> !Owns(al, a)
    ensures Allocate(al, m, n, body).2 % 16 == 0
  {
    SixteenIsPow2();
    if n > MAX_SMALL {
      BumpAligned(al, n, MAX_ALIGN);
    } else {
      AllocateKeeps(al, m, h, n, body);
      var (al', m', p) := Allocate(al, m, n, body);
      if p != 0 {
        BlockAlignment(al', m', Take(h, ClassIndex(n), p), ClassIndex(n), p);
      }
    }
  }

  /** A size and an alignment whose sum is 2^64 + 16: malloc is asked for 16 bytes, and the object
      that is returned runs far past them. */
  lemma WrappedAlignedNew()
    ensures IsPow2(32)
    ensures var size, align, raw := WORD_MOD - 16, 32, 64;
            && size < WORD_MOD && Wrap(size + align) == 16
            && AlignUp(raw, align) == raw
            && AlignUp(raw, align) + size > raw + Wrap(size + align)
  {
    assert Pow2(5) == 32;
    AlignUpIsCeil(64, 32);
    assert CeilMultiple(64, 32) == 64;
  }

  lemma SmallPow2Divides(a: nat)
    requires IsPow2(a) && a <= 16
    ensures a > 0 && 16 % a == 0
  {
    var k :| a == Pow2(k);
    assert Pow2(5) == 32;
    if k >= 5 {
      Pow2Mono(5, k);
    }
    assert Pow2(0) == 1 && Pow2(1) == 2 && Pow2(2) == 4 && Pow2(3) == 8 && Pow2(4) == 16;
  }
}
