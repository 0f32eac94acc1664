/** What holds in every state of every run of any number of threads. */
module Runs {
  import opened FreeList
  import opened Bits
  import opened SizeClasses
  import opened Pools
  import opened Arenas
  import opened Allocators
  import opened Routing
  import opened Books
  import opened Machine
  import opened Steps
  import opened SharedSteps
  import opened Exits
  import opened Objects
  import opened Deletion
  import opened Accounts
  import Registry = FallbackRegistries

  /** One step of one thread, or of malloc, or of a client, keeps the invariant. */
  lemma StepKeeps(s: State, e: Event)
    requires Inv(s) && Enabled(s, e)
    ensures Inv(Apply(s, e))
  {
    hide Inv, DoDelete, CanDelete, CanWrite, CanLink, DoLink, CanPop, DoPop, CanBump, DoBump, CanBuildPool, DoBuildPool,
         CanBuildArena, DoBuildArena, CanAcquire, DoAcquire, CanFree, DoFree, CanMalloc, DoMalloc,
         CanPublish, DoPublish, CanMallocAligned, DoMallocAligned, CanBegin, DoBegin, CanExit, DoExit;
    match e
    case Begin(t) => BeginKeeps(s, t);
    case BuildPool(t, slab) => BuildPoolKeeps(s, t, slab);
    case BuildArena(t, base) => BuildArenaKeeps(s, t, base);
    case PopBlock(t, n) => PopBlockKeeps(s, t, n);
    case AcquireChunk(t, n, base) => AcquireKeeps(s, t, n, base);
    case LinkChunk(t) => LinkChunkKeeps(s, t);
    case Bump(t, n, align) => BumpKeeps(s, t, n, align);
    case Free(t, p, n) => FreeKeeps(s, t, p, n);
    case Delete(t, p) => DeleteKeeps(s, t, p);
    case MallocNew(t, base, n, kept) => MallocKeeps(s, t, base, n, kept);
    case Publish(kept) => PublishKeeps(s, kept);
    case MallocAligned(t, raw, n, align) => MallocAlignedKeeps(s, t, raw, n, align);
    case MakeReady => ReadyKeeps(s);
    case Exit(t) => ExitKeeps(s, t);
    case ClientWrites(m) => WriteKeeps(s, m);
  }

  lemma ReadyKeeps(s: State)
    requires Inv(s)
    ensures Inv(s.(ready := true))
  {
    var s' := s.(ready := true);
    assert forall c :: 0 <= c < |s.chunks| ==> ChunkOk(s, s.chunks[c]) && ChunkOk(s', s.chunks[c]);
    LayoutKeeps(s, s');
  }

  lemma InitialOk(s: State)
    requires Initial(s)
    ensures Inv(s) && AccountsOk(s)
  {
    forall t, a
      ensures !ThreadOwns(s, t, a)
    {
    }
    assert forall t :: 0 <= t < |s.threads| ==> ThreadOk(s.threads[t], s.mem);
  }

  /** Safety over whole runs: under every interleaving, each state satisfies the invariant and
      every thread's accounts are in order. */
  lemma {:induction false} RunSafe(states: seq<State>, events: seq<Event>, i: nat)
    requires IsRun(states, events) && i < |states|
    ensures Inv(states[i]) && AccountsOk(states[i])
  {
    hide Inv, AccountsOk, Possible, Placed, Apply, Initial;
    if i == 0 {
      InitialOk(states[0]);
    } else {
      RunSafe(states, events, i - 1);
      StepKeeps(states[i - 1], events[i - 1]);
      StepAccounts(states[i - 1], events[i - 1]);
    }
  }

  /** In every reachable state no byte belongs to two live objects, and nothing was ever freed
      that malloc had not given out. */
  lemma RunDisjoint(states: seq<State>, events: seq<Event>, i: nat, x: Item, y: Item, a: nat)
    requires IsRun(states, events) && i < |states|
    requires Covers(states[i], x, a) && Covers(states[i], y, a)
    ensures x == y && !states[i].corrupt
  {
    RunSafe(states, events, i);
    LiveDisjoint(states[i], x, y, a);
  }

  /** In every reachable state, whatever clients wrote: following the in-memory next words of any
      pool from its head terminates, visits no block twice, and visits exactly the managed
      blocks that are not live. */
  lemma RunLists(states: seq<State>, events: seq<Event>, i: nat, t: nat, k: nat) returns (fs: seq<nat>)
    requires IsRun(states, events) && i < |states|
    requires t < |states[i].threads| && states[i].threads[t].phase == Up && k < NUM_CLASSES
    ensures var th := states[i].threads[t];
            && |th.al.pools| == NUM_CLASSES == |th.held.blocks|
            && Linked(states[i].mem, th.al.pools[k].head, fs) && NoRepeats(fs)
            && Elements(fs) == Blocks(th.al.pools[k]) - th.held.blocks[k]
            && |fs| + |th.held.blocks[k]| == TotalBlocks(th.al.pools[k])
  {
    var th := states[i].threads[t];
    RunSafe(states, events, i);
    assert ThreadOk(th, states[i].mem);
    hide Inv, Blocks, AccountsOk, IsRun, Contains;
    assert PoolOk(th.al.pools[k], states[i].mem, th.held.blocks[k]);
    fs := WalkOf(states[i].mem, th.al.pools[k].head, Blocks(th.al.pools[k]) - th.held.blocks[k]);
    FreeCount(th.al.pools[k], states[i].mem, th.held.blocks[k]);
  }

  /** Chunk use is determined by peak demand: a pool has linked c chunks if and only if the most
      blocks ever off its list at once lies in the c-th band. */
  lemma RunChunks(states: seq<State>, events: seq<Event>, i: nat, t: nat, k: nat, c: nat, m: nat)
    requires IsRun(states, events) && i < |states| && k < NUM_CLASSES && LargestRefill(m, SIZE_CLASSES[k])
    requires t < |states[i].threads| && states[i].threads[t].phase == Up
    ensures var th := states[i].threads[t];
            && |th.al.pools| == NUM_CLASSES == |th.peaks|
            && (|th.al.pools[k].regions| - 1 == c
                <==> th.peaks[k] <= 256 + c * m && (c >= 1 ==> 256 + (c - 1) * m < th.peaks[k]))
  {
    RunSafe(states, events, i);
    var th := states[i].threads[t];
    assert ThreadAccounts(th);
    hide DemandOk, Inv, RefillCount, LargestRefill;
    ChunksFromPeak(th.al.pools[k], k, |th.held.blocks[k]|, th.peaks[k], c, m);
  }

  /** Conservation of bytes and counts: the live counter of every allocator equals the class sizes
      times the blocks off each list plus the arena's used bytes; it never underflowed; and
      allocations less frees are the objects outstanding. */
  lemma RunConserves(states: seq<State>, events: seq<Event>, i: nat, t: nat)
    requires IsRun(states, events) && i < |states|
    requires t < |states[i].threads| && states[i].threads[t].phase == Up
    ensures var th := states[i].threads[t];
            && |th.al.pools| == NUM_CLASSES == |th.held.blocks|
            && th.al.stats.live == ObservedBytes(th.al, FreeCounts(th.al, th.held), |th.al.pools|)
            && 0 <= th.al.stats.live <= th.al.stats.peak
            && th.al.stats.allocs - th.al.stats.frees
               == HeldCount(th.held.blocks, |th.held.blocks|) + |th.held.ranges|
  {
    var th := states[i].threads[t];
    RunSafe(states, events, i);
    assert ThreadAccounts(th) && ThreadOk(th, states[i].mem);
    hide Inv, AccountsOk, IsRun, Contains, PoolsOk, RangesOk;
    ObservedIsHeld(th.al, states[i].mem, th.held, |th.al.pools|);
  }

  // ---------------------------------------------------------------------------
  // Chunks

  /** Every chunk is linked into at most one pool of one thread, and once. */
  lemma ChunkLinkedOnce(s: State, t: nat, k: nat, i: nat, u: nat, j: nat, l: nat)
    requires Inv(s) && t < |s.threads| && u < |s.threads|
    requires k < NUM_CLASSES && k < |s.threads[t].al.pools| && 1 <= i < |s.threads[t].al.pools[k].regions|
    requires j < NUM_CLASSES && j < |s.threads[u].al.pools| && 1 <= l < |s.threads[u].al.pools[j].regions|
    requires s.threads[t].al.pools[k].regions[i].base == s.threads[u].al.pools[j].regions[l].base
    ensures t == u && k == j && i == l
  {
    var b := s.threads[t].al.pools[k].regions[i].base;
    RegionBase(s, t, k, i);
    RegionBase(s, u, j, l);
    OwnerOf(s, t, u, b);
    SamePool(s, t, k, i, j, l, b);
  }

  lemma RegionBase(s: State, t: nat, k: nat, i: nat)
    requires Core(s) && t < |s.threads| && k < NUM_CLASSES && k < |s.threads[t].al.pools|
    requires 1 <= i < |s.threads[t].al.pools[k].regions|
    ensures var p := s.threads[t].al.pools[k];
            && InRegion(p.regions[i], p.size, p.regions[i].base) && Contains(p, p.regions[i].base)
            && ThreadOwns(s, t, p.regions[i].base) && s.threads[t].phase in {Building, Up}
  {
    hide OwnersApart, ChunksOk, PendingsOk, BlobsOk, StashOk, OrphansOk, CarvedOk, RangesOk, PoolOk, RefillCount;
    var th := s.threads[t];
    assert ThreadOk(th, s.mem) && ClassOk(th.al.pools[k], k);
    RefillFits(k);
  }

  lemma OwnerOf(s: State, t: nat, u: nat, a: nat)
    requires Core(s) && ThreadOwns(s, t, a) && ThreadOwns(s, u, a)
    ensures t == u
  {
    hide ThreadOk, ChunksOk, PendingsOk, BlobsOk, StashOk, OrphansOk, CarvedOk, Owns;
  }

  lemma SamePool(s: State, t: nat, k: nat, i: nat, j: nat, l: nat, a: nat)
    requires Core(s) && t < |s.threads| && s.threads[t].phase in {Building, Up}
    requires k < NUM_CLASSES && k < |s.threads[t].al.pools| && i < |s.threads[t].al.pools[k].regions|
    requires j < NUM_CLASSES && j < |s.threads[t].al.pools| && l < |s.threads[t].al.pools[j].regions|
    requires InRegion(s.threads[t].al.pools[k].regions[i], s.threads[t].al.pools[k].size, a)
    requires InRegion(s.threads[t].al.pools[j].regions[l], s.threads[t].al.pools[j].size, a)
    ensures k == j && i == l
  {
    hide OwnersApart, ChunksOk, PendingsOk, BlobsOk, StashOk, OrphansOk, CarvedOk, RangesOk, ListOf, Blocks, ClassOk;
    var th := s.threads[t];
    assert ThreadOk(th, s.mem);
    assert Contains(th.al.pools[k], a) && Contains(th.al.pools[j], a);
    assert PoolOk(th.al.pools[k], s.mem, th.held.blocks[k]);
    hide Contains, InRegion;
  }

  /** The chunk header as the central heap finds it: the address with its low bits masked off. */
  function HeaderFor(p: nat): nat {
    MaskDown(p, CHUNK_SIZE)
  }

  /** Two independent lookups agree: for every byte of every chunk-carved block, masking the
      address reaches the header of its chunk, which still holds the class that the region
      search on the owning thread reports. */
  lemma LookupsAgree(s: State, t: nat, k: nat, i: nat, x: nat)
    requires Inv(s) && t < |s.threads| && s.threads[t].phase == Up
    requires k < NUM_CLASSES && k < |s.threads[t].al.pools|
    requires var p := s.threads[t].al.pools[k]; 1 <= i < |p.regions| && InRegion(p.regions[i], ClassSize(k), x)
    ensures Classify(s.threads[t].al, x) == FromPool(k)
    ensures HeaderFor(x) + HEADER_BYTES == s.threads[t].al.pools[k].regions[i].base
    ensures Load(s.mem, HeaderFor(x)) == ClassSize(k) && Load(s.mem, HeaderFor(x) + 8) == ClassSize(k)
  {
    hide OwnersApart, CarvedOk, PendingsOk, BlobsOk, StashOk, OrphansOk, RegistryOk, PoolsOk, RangesOk, Contains,
         Classify,
         InRegion, MaskDown;
    var c := CarvedByte(s, t, k, i, x);
    var th := s.threads[t];
    assert ChunkOk(s, s.chunks[c]);
    MaskToBase(s.chunks[c].base, x);
    assert ThreadOk(th, s.mem);
    AllocatorSeparate(th.al, s.mem, th.held);
    ClassifyIsExact(th.al, x);
  }

  lemma MaskToBase(base: nat, x: nat)
    requires base % CHUNK_SIZE == 0 && base <= x < base + CHUNK_SIZE && base + CHUNK_SIZE < WORD_MOD
    ensures MaskDown(x, CHUNK_SIZE) == base
  {
    Pow2Split(8, 16);
    assert Pow2(8) == 256;
    assert IsPow2(CHUNK_SIZE);
    MaskDownIsFloor(x, CHUNK_SIZE);
  }

  // ---------------------------------------------------------------------------
  // What the allocator leaves alone

  /** Bytes of live objects are not unused, and not in a chunk body that is being linked. */
  lemma LiveIsUsed(s: State, it: Item, w: nat)
    requires Core(s) && Covers(s, it, w)
    ensures !Unused(s, w)
  {
    ItemOwner(s, it, w);
    hide Core, Owns;
  }

  lemma LiveNotPending(s: State, it: Item, t: nat, w: nat)
    requires Core(s) && Covers(s, it, w)
    ensures !InPending(s, t, w)
  {
    ItemOwner(s, it, w);
    hide ThreadOk, OwnersApart, CarvedOk, ChunksOk, StashOk, OrphansOk, Owns;
    if InPending(s, t, w) && it.Malloced? {
      PendingInChunk(s, t, w);
    }
  }

  /** The word `w` reads the same in both memories. */
  ghost predicate SameWord(m: Words, m': Words, w: nat) {
    w in m ==> w in m' && m'[w] == m[w]
  }

  /** No step of the allocator changes a word of an object that is live before and after it. */
  lemma StepSparesLive(s: State, e: Event, it: Item, w: nat)
    requires Inv(s) && Enabled(s, e) && !e.ClientWrites?
    requires Covers(s, it, w) && Live(Apply(s, e), it)
    ensures SameWord(s.mem, Apply(s, e).mem, w)
  {
    LiveIsUsed(s, it, w);
    hide Inv, Unused, Live, Covers, CanDelete, DoDelete, CanLink, DoLink, CanFree, DoFree, CanBuildPool, DoBuildPool,
         CanPop, DoPop, CanBump, DoBump, CanAcquire, DoAcquire;
    match e
    case BuildPool(t, slab) => BuildPoolSpares(s, t, slab, w);
    case AcquireChunk(t, n, base) => AcquireSpares(s, t, n, base, w);
    case LinkChunk(t) => LinkChunkSpares(s, t, it, w);
    case Free(t, p, n) => FreeSpares(s, t, p, n, it, w);
    case Delete(t, p) => DeleteSpares(s, t, p, it, w);
    case PopBlock(t, n) => PopSpares(s, t, n);
    case Bump(t, n, align) => BumpSpares(s, t, n, align);
    case _ =>
  }

  lemma AcquireSpares(s: State, t: nat, n: nat, base: nat, w: nat)
    requires CanAcquire(s, t, n, base) && !Unused(s, w)
    ensures SameWord(s.mem, DoAcquire(s, t, n, base).mem, w)
  {
    hide Unused;
  }

  lemma PopSpares(s: State, t: nat, n: nat)
    requires CanPop(s, t, n)
    ensures DoPop(s, t, n).mem == s.mem
  {
  }

  lemma BumpSpares(s: State, t: nat, n: nat, align: nat)
    requires CanBump(s, t, n, align)
    ensures DoBump(s, t, n, align).mem == s.mem
  {
    hide FromBump, TakeRange, CheckWraps;
  }

  lemma BuildPoolSpares(s: State, t: nat, slab: nat, w: nat)
    requires CanBuildPool(s, t, slab) && !Unused(s, w)
    ensures SameWord(s.mem, DoBuildPool(s, t, slab).mem, w)
  {
    if w in s.mem {
      hide Unused, LinkBlocks, Span;
      SlabWrites(s.mem, slab, BLOCKS_PER_SLAB, ClassSize(|s.threads[t].al.pools|), 0, w);
    }
  }

  lemma LinkChunkSpares(s: State, t: nat, it: Item, w: nat)
    requires Inv(s) && CanLink(s, t) && Covers(s, it, w)
    ensures SameWord(s.mem, DoLink(s, t).mem, w)
  {
    LiveNotPending(s, it, t, w);
    hide Inv, Covers, LinkBlocks, Span, RefillCount, PopFrom;
    var th := s.threads[t];
    RefillFits(th.pending.k);
    LinkSize(s, t);
    if w in s.mem {
      SlabWrites(s.mem, th.pending.body, RefillCount(th.pending.k), ClassSize(th.pending.k),
                 th.al.pools[th.pending.k].head, w);
    }
  }

  lemma FreeSpares(s: State, t: nat, p: nat, n: nat, it: Item, w: nat)
    requires Inv(s) && CanFree(s, t, p, n) && Covers(s, it, w) && Live(DoFree(s, t, p, n), it)
    ensures SameWord(s.mem, DoFree(s, t, p, n).mem, w)
  {
    if n <= MAX_SMALL {
      FreedGone(s, t, ClassIndex(n), p, it, w);
    }
    hide Inv;
  }

  lemma DeleteSpares(s: State, t: nat, p: nat, it: Item, w: nat)
    requires Inv(s) && CanDelete(s, t, p) && Covers(s, it, w) && Live(DoDelete(s, t, p), it)
    ensures SameWord(s.mem, DoDelete(s, t, p).mem, w)
  {
    hide Inv, DoDelete, Spared, Lo, Hi;
    if p == 0 {
      NullDelete(s, t);
    } else if that :| Names(s, that, p) {
      DeleteRefinesTagged(s, t, that, p);
      if that.Block? && s.ready && that.t == t && s.threads[t].phase == Up {
        FreedGone(s, t, that.k, that.a, it, w);
      }
    } else {
      DeleteNothingIff(s, t, p);
    }
  }

  lemma LinkSize(s: State, t: nat)
    requires Inv(s) && CanLink(s, t)
    ensures var th := s.threads[t]; th.al.pools[th.pending.k].size == ClassSize(th.pending.k)
  {
    var th := s.threads[t];
    assert ThreadOk(th, s.mem) && ClassOk(th.al.pools[th.pending.k], th.pending.k);
  }

  /** The word a push writes belongs to the freed block alone. */
  lemma FreedGone(s: State, t: nat, k: nat, a: nat, it: Item, w: nat)
    requires Inv(s) && Live(s, Block(t, k, a)) && Covers(s, it, w)
    ensures it == Block(t, k, a) || w != a
  {
    if w == a {
      assert Covers(s, Block(t, k, a), a);
      LiveDisjoint(s, it, Block(t, k, a), a);
    }
  }

  // ---------------------------------------------------------------------------
  // The steps are the operations

  /** A push onto the registry, load and store apart, as events: whatever registry an interleaving of
      pushes leads to is one that the event allows.  The load comes with the malloc, the store is an
      event of its own. */
  lemma PushIsEvent(states: seq<Registry.Shared>, steps: seq<Registry.PushStep>, n: nat, s: State)
    requires Registry.IsPushRun(states, steps) && n < |steps|
    ensures Registry.SharedOk(states[n]) && Registry.SharedOk(states[n + 1])
    ensures var now := Registry.Pointers(states[n].recs, states[n].first);
            var next := Registry.Pointers(states[n + 1].recs, states[n + 1].first);
            s.registered == now && s.recorded == Registry.Recorded(steps, n) ==>
              match steps[n]
              case StoreHead(u) =>
                CanPublish(s, next) && Registers(DoPublish(s, next), next, Registry.Recorded(steps, n + 1))
              case LoadHead(u, p) =>
                forall t: nat, len: nat :: t < |s.threads| && len > 0 && FreshRegion(s, p, len) ==>
                  && CanMalloc(s, t, p, len, next)
                  && Registers(DoMalloc(s, t, p, len, next), next, Registry.Recorded(steps, n + 1))
  {
    Registry.PushRunSound(states, steps, n);
    Registry.PushRunSound(states, steps, n + 1);
    hide Registry.SharedOk, FreshRegion;
  }

  ghost predicate Registers(s: State, registered: set<nat>, recorded: set<nat>) {
    s.registered == registered && s.recorded == recorded
  }

  /** A refill split into acquiring under the mutex and linking afterwards is, when nobody else
      moves in between, exactly one call of allocate. */
  lemma SplitRefillIsAllocate(s: State, t: nat, n: nat, base: nat)
    requires Inv(s) && CanAcquire(s, t, n, base)
    ensures CanLink(DoAcquire(s, t, n, base), t)
    ensures var s2 := DoLink(DoAcquire(s, t, n, base), t);
            && (s2.threads[t].al, s2.mem)
               == (var (al, m, p) := Allocate(s.threads[t].al, s.mem, n, base + HEADER_BYTES); (al, m))
            && Allocate(s.threads[t].al, s.mem, n, base + HEADER_BYTES).2 != 0
            && Live(s2, Block(t, ClassIndex(n), Allocate(s.threads[t].al, s.mem, n, base + HEADER_BYTES).2))
  {
    hide Core, RegistryOk, FreshRegion, Link, RefillCount;
    AcquirePops(s, t, n, base);
  }

  lemma AcquirePops(s: State, t: nat, n: nat, base: nat)
    requires Inv(s) && CanAcquire(s, t, n, base)
    ensures var (al, m) := Refill(s.threads[t].al, HeaderWritten(s.mem, base, ClassSize(ClassIndex(n))),
                                  ClassIndex(n), base + HEADER_BYTES);
            Pop(al.pools[ClassIndex(n)], m).1 == base + HEADER_BYTES
  {
  }

  /** The fast path and the large path are calls of allocate that ask for no chunk. */
  lemma PopIsAllocate(s: State, t: nat, n: nat, body: nat)
    requires CanPop(s, t, n)
    ensures var (al, m, p) := Allocate(s.threads[t].al, s.mem, n, body);
            && DoPop(s, t, n).threads[t].al == al && m == s.mem && p != 0
            && Live(DoPop(s, t, n), Block(t, ClassIndex(n), p))
  {
  }

  /** An allocator that has just been built serves a small request of any size on the spot. */
  lemma BuiltServes(s: State, t: nat, base: nat, n: nat)
    requires Inv(s) && CanBuildArena(s, t, base) && n <= MAX_SMALL
    ensures CanPop(DoBuildArena(s, t, base), t, n)
  {
    var th := s.threads[t];
    assert ThreadOk(th, s.mem);
    FitIsTight(n);
    var p := th.al.pools[ClassIndex(n)];
    assert ClassOk(p, ClassIndex(n)) && PoolOk(p, s.mem, {});
    PopKeeps(p, s.mem, {});
    FreeCount(p, s.mem, {});
    hide Inv, Contains, ListOf, FreshRegion, NotReissued, RegionsDisjoint, ClassIndex;
    BlocksPositive(p.regions, |p.regions|);
  }

  /** And a large one if and only if it fits into 4 MiB: the first object lies at the base of the arena. */
  lemma BuiltServesLarge(s: State, t: nat, base: nat, n: nat)
    requires Inv(s) && CanBuildArena(s, t, base) && base % 16 == 0 && 1024 < n < WORD_MOD
    requires !CheckWraps(NewArena(base, ARENA_CAPACITY), n, 16)
    ensures var s1 := DoBuildArena(s, t, base);
            && CanBump(s1, t, n, 16)
            && DoBump(s1, t, n, 16).threads[t].held.ranges == if n <= 4194304 then [Range(base, base + n, 0)] else []
    ensures n <= 4194304 ==> Live(DoBump(DoBuildArena(s, t, base), t, n, 16), Bumped(t, 0))
  {
    BuiltIsIdle(s, t, base);
    Sixteen();
    var ar := NewArena(base, ARENA_CAPACITY);
    var q := CeilNear(base, 16);
    CeilIsLeast(base, 16);
    GrantRightIff(ar, n, 16);
    hide Inv, FreshRegion, Grant, CeilMultiple, IsPow2, CheckWraps;
  }

  lemma BuiltIsIdle(s: State, t: nat, base: nat)
    requires Inv(s) && CanBuildArena(s, t, base)
    ensures Idle(DoBuildArena(s, t, base), t) && base > 0 && base + ARENA_CAPACITY < WORD_MOD
    ensures s.threads[t].held.ranges == []
  {
    hide OwnersApart, ChunksOk, CarvedOk, BlobsOk, StashOk, OrphansOk, RegistryOk, Contains, PoolOk;
    var th := s.threads[t];
    assert ThreadOk(th, s.mem);
    assert forall k :: 0 <= k < NUM_CLASSES ==> ClassOk(th.al.pools[k], k);
  }

  lemma {:induction false} BlocksPositive(rs: seq<Region>, n: nat)
    requires 0 < n <= |rs| && rs[0].count > 0
    ensures SumCounts(rs, n) > 0
  {
    if n > 1 {
      BlocksPositive(rs, n - 1);
    }
  }

  /** The arena step at any alignment is a call of allocate_aligned. */
  lemma BumpIsAligned(s: State, t: nat, n: nat, align: nat)
    requires CanBump(s, t, n, align)
    ensures align <= WORD_MOD
    ensures var s', al := DoBump(s, t, n, align), FromBump(s.threads[t].al, n, align).0;
            && s' == s.(threads := s.threads[t := s'.threads[t]])
            && s'.threads[t].al == al
            && s'.threads[t].held.blocks == s.threads[t].held.blocks
            && s'.threads[t].held.ranges == Granted(s.threads[t].al.arena, s.threads[t].held.ranges, n, align)
  {
    hide FromBump, Granted, CheckWraps;
  }

  /** A client may free every block it holds, by any size of its class, and anything by a size above the
      classes; the step is a call of deallocate, and the block is nobody's afterwards. */
  lemma FreeIsDeallocate(s: State, t: nat, p: nat, n: nat)
    requires Idle(s, t)
    requires n <= 1024 ==> ClassIndex(n) < NUM_CLASSES && p in s.threads[t].held.blocks[ClassIndex(n)]
    ensures CanFree(s, t, p, n)
    ensures var s' := DoFree(s, t, p, n);
            && |s'.threads| == |s.threads|
            && (s'.threads[t].al, s'.mem) == Deallocate(s.threads[t].al, s.mem, p, n)
            && s' == s.(threads := s.threads[t := s'.threads[t]], mem := s'.mem)
            && (n <= 1024 ==> forall it :: Live(s', it) <==> Live(s, it) && it != Block(t, ClassIndex(n), p))
            && (n > 1024 ==> s' == s)
  {
    hide PushTo, ClassIndex;
    if n <= 1024 {
      var s' := DoFree(s, t, p, n);
      forall it
        ensures Live(s', it) <==> Live(s, it) && it != Block(t, ClassIndex(n), p)
      {
      }
    }
  }

  /** A thread in use with nothing in flight: a small request takes a block if and only if one of its class
      is not held, and may acquire a chunk otherwise; a large or over-aligned one goes to the arena
      unless the bounds check wraps; and the thread may exit. */
  lemma UpActs(s: State, t: nat)
    requires Inv(s) && AccountsOk(s) && t < |s.threads| && s.threads[t].phase == Up && s.threads[t].pending == NoChunk
    ensures Idle(s, t) && CanExit(s, t)
    ensures forall n: nat :: n <= 1024 ==>
              && ClassIndex(n) < NUM_CLASSES
              && var full := s.threads[t].held.blocks[ClassIndex(n)] == Blocks(s.threads[t].al.pools[ClassIndex(n)]);
                 && (CanPop(s, t, n) <==> !full)
                 && (full ==> forall base: nat :: base % 65536 == 0 && FreshRegion(s, base, 65536) ==>
                       CanAcquire(s, t, n, base))
    ensures forall n: nat, align: nat :: n < WORD_MOD && IsPow2(align) && align > 0 ==>
              (CanBump(s, t, n, align) <==> !CheckWraps(s.threads[t].al.arena, n, align))
  {
    var th := s.threads[t];
    UpAllocatorOk(s, t);
    assert ThreadAccounts(th);
    hide Inv, FreshRegion, CheckWraps, BooksOk, DemandOk, Owns, RangesOk, Contains, Blocks, ListOf;
    assert forall k :: 0 <= k < NUM_CLASSES ==> ClassOk(th.al.pools[k], k);
    forall n: nat | n <= 1024
      ensures ClassIndex(n) < NUM_CLASSES
      ensures CanPop(s, t, n) <==>
                th.held.blocks[ClassIndex(n)] != Blocks(th.al.pools[ClassIndex(n)])
    {
      FitIsTight(n);
      var k := ClassIndex(n);
      assert PoolOk(th.al.pools[k], s.mem, th.held.blocks[k]);
      PopKeeps(th.al.pools[k], s.mem, th.held.blocks[k]);
    }
  }

  /** Wherever malloc has room, the fallbacks can serve; and clients may write any word of a live object. */
  lemma OthersAct(s: State, t: nat, base: nat, n: nat, align: nat, it: Item, w: nat, v: nat)
    requires t < |s.threads| && n > 0
    ensures FreshRegion(s, base, n) ==> CanMalloc(s, t, base, n, s.registered * s.recorded + {base})
    ensures FreshRegion(s, base, n + align) && IsPow2(align) && align > 0 ==> CanMallocAligned(s, t, base, n, align)
    ensures Live(s, it) && Lo(s, it) <= w < Hi(s, it) ==> CanWrite(s, s.mem[w := v])
  {
    if Live(s, it) && Lo(s, it) <= w < Hi(s, it) {
      assert Covers(s, it, w) && InLive(s, w);
    }
    hide FreshRegion, Lo, Hi, Live;
  }

  /** Any thread with nothing in flight may delete any live object, by any of its addresses if it is a block
      or a range; once the heap is on only a thread that has or had an allocator. */
  lemma MayDelete(s: State, t: nat, it: Item, p: nat)
    requires Inv(s) && AccountsOk(s) && t < |s.threads| && s.threads[t].pending == NoChunk
    requires Live(s, it) && Lo(s, it) <= p < Hi(s, it)
    requires it.Malloced? ==> p == if s.blobs[it.b].Over? then s.blobs[it.b].payload else it.b
    requires s.ready ==> s.threads[t].phase in {Up, Gone}
    ensures CanDelete(s, t, p)
  {
    assert Names(s, it, p);
    if s.threads[t].phase == Up {
      UpActs(s, t);
    }
    hide Inv, Names;
  }

  lemma BumpIsAllocate(s: State, t: nat, n: nat, body: nat)
    requires CanBump(s, t, n, MAX_ALIGN) && n > MAX_SMALL
    ensures Allocate(s.threads[t].al, s.mem, n, body).0 == DoBump(s, t, n, MAX_ALIGN).threads[t].al
    ensures Allocate(s.threads[t].al, s.mem, n, body).1 == s.mem
  {
  }
}
