/** The per-thread classes: guard flags, the central heap, the routing allocator and its front end. */
module ThreadAllocators {
  import opened FreeList
  import opened Bits
  import opened SizeClasses
  import opened Pools
  import opened Arenas
  import opened StatsModel
  import opened Allocators
  import opened Heap
  import opened BlockPools
  import opened BumpArenas
  import opened StatsRegistries
  import opened ThreadStates
  import opened Steps
  import opened Footprints

  /** The shared source of chunks. */
  class CentralHeap {
    const mem: Memory
    var chunks: seq<nat>
    var total: nat

    constructor (mem: Memory)
      ensures this.mem == mem && chunks == [] && total == 0
    {
      this.mem, chunks, total := mem, [], 0;
    }

    /** A fresh chunk with its header written; the body address, or 0 for bad_alloc.  The guard flag
        is up for the whole section and restored afterwards. */
    method AcquireChunk(size: nat, flags: ThreadFlags) returns (body: nat)
      requires mem.Valid()
      modifies this`chunks, this`total, mem, flags`active, flags`exposed
      ensures mem.Valid() && mem.corrupt == old(mem.corrupt)
      ensures flags.active == old(flags.active) && flags.exposed == old(flags.exposed)
      ensures if body == 0 then mem.refusals > old(mem.refusals) else mem.refusals >= old(mem.refusals)
      ensures body == 0 ==> mem.words == old(mem.words) && mem.regions == old(mem.regions)
      ensures body == 0 ==> chunks == old(chunks) && total == old(total)
      ensures body != 0 ==>
        && body >= HEADER_BYTES && (body - HEADER_BYTES) % CHUNK_SIZE == 0
        && Memory.Fresh(old(mem.regions), body - HEADER_BYTES, CHUNK_SIZE)
        && mem.words == HeaderWritten(old(mem.words), body - HEADER_BYTES, size)
        && mem.words == old(mem.words)[body - 64 := size][body - 56 := size]
        && total == old(total) + 1
        && |chunks| == |old(chunks)| + 1 && chunks[..|old(chunks)|] == old(chunks)
        && var raw := chunks[|old(chunks)|];
           && raw !in old(mem.regions) && raw in mem.regions
           && mem.regions == old(mem.regions)[raw := mem.regions[raw]]
           && raw <= body - HEADER_BYTES && body - HEADER_BYTES + CHUNK_SIZE <= raw + mem.regions[raw]
    {
      var prev := flags.active;
      flags.active := true;
      ChunkSizeIsPow2();
      var hasAlignedAlloc := *;
      var base, raw := mem.AllocateSlab(CHUNK_SIZE, CHUNK_SIZE, hasAlignedAlloc);
      if base == 0 {
        flags.active := prev;
        return 0;
      }
      mem.words := mem.words[base := size];
      mem.words := mem.words[base + WORD_BYTES := size];
      flags.VectorGrows();
      chunks := chunks + [raw];
      total := total + 1;
      body := base + HEADER_BYTES;
      flags.active := prev;
    }
  }

  lemma ChunkSizeIsPow2()
    ensures IsPow2(CHUNK_SIZE)
  {
    Pow2Split(8, 16);
    assert Pow2(8) == 256;
  }

  lemma ClassSizeIsPow2(k: nat)
    requires k < NUM_CLASSES
    ensures IsPow2(ClassSize(k))
  {
    assert Pow2(4) == 16;
    Pow2Split(4, 4 + k);
    assert Pow2(0) == 1 && Pow2(1) == 2 && Pow2(2) == 4 && Pow2(3) == 8;
    assert Pow2(4) == 16 && Pow2(5) == 32 && Pow2(6) == 64;
    assert ClassSize(k) == Pow2(4) * Pow2(k);
  }

  /** An allocator that owns nothing. */
  const NOBODY := Allocator([], Arena(0, 0, 0, 0, 0), NO_STATS)

  /** What `classify` returns: 0, the largest size_t for the arena, or a class size. */
  function Encode(o: Origin): nat
    requires o.FromPool? ==> o.k < NUM_CLASSES
  {
    match o
    case NotOurs => 0
    case FromArena => WORD_MOD - 1
    case FromPool(k) => ClassSize(k)
  }

  class SingleThreadAllocator {
    const mem: Memory
    const heap: CentralHeap
    const flags: ThreadFlags
    var pools: seq<BlockPool>
    var arena: BumpArena
    var stats: StatsCell

    ghost predicate Valid()
      reads this, pools
    {
      && heap.mem == mem
      && |pools| == NUM_CLASSES
      && (forall k :: 0 <= k < NUM_CLASSES ==>
            pools[k].size == ClassSize(k) && pools[k].perSlab == BLOCKS_PER_SLAB && pools[k].mem == mem)
      && (forall j, k :: 0 <= j < k < NUM_CLASSES ==> pools[j] != pools[k])
    }

    /** The objects the allocator updates. */
    ghost function Parts(): set<object>
      reads this
    {
      {arena, stats} + set k | 0 <= k < |pools| :: pools[k]
    }

    ghost function View(): Allocator
      reads this, pools, arena, stats
    {
      Allocator(seq(|pools|, k requires 0 <= k < |pools| reads this, pools => pools[k].View()),
                arena.View(), stats.View())
    }

    /** What is handed out. */
    ghost function Held(): Holdings
      reads this, pools, arena
    {
      Holdings(seq(|pools|, k requires 0 <= k < |pools| reads this, pools => pools[k].live), arena.ranges)
    }

    /** In order, with exactly `Held` handed out, on bytes that malloc gave out. */
    ghost predicate InOrder()
      reads this, pools, arena, stats, mem
    {
      Valid() && Sound(View(), mem.words, mem.regions, Held())
    }

    constructor (mem: Memory, heap: CentralHeap, flags: ThreadFlags, pools: seq<BlockPool>, arena: BumpArena)
      ensures this.mem == mem && this.heap == heap && this.flags == flags && this.pools == pools && this.arena == arena
      ensures fresh(stats) && stats.View() == NO_STATS
    {
      this.mem, this.heap, this.flags, this.pools, this.arena := mem, heap, flags, pools, arena;
      stats := new StatsCell();
    }

    static ghost function Views(pools: seq<BlockPool>): seq<Pool>
      reads pools
    {
      seq(|pools|, k requires 0 <= k < |pools| reads pools => pools[k].View())
    }

    static ghost function Empties(n: nat): seq<set<nat>> {
      seq(n, k => {})
    }

    /** The pools built so far: sized, distinct, and freeing their slabs last first undoes the mallocs. */
    static ghost predicate Stacked(mem: Memory, pools: seq<BlockPool>, snaps: seq<map<nat, nat>>)
      reads mem
    {
      && |pools| <= NUM_CLASSES && |snaps| == |pools| + 1 && snaps[|pools|] == mem.regions
      && (forall k :: 0 <= k < |pools| ==>
            pools[k].size == ClassSize(k) && pools[k].perSlab == BLOCKS_PER_SLAB && pools[k].mem == mem)
      && (forall j, k :: 0 <= j < k < |pools| ==> pools[j] != pools[k])
      && (forall k :: 0 <= k < |pools| ==> Pushed(snaps[k], snaps[k + 1], pools[k].raw))
    }

    static ghost predicate Pushed(r: map<nat, nat>, r': map<nat, nat>, raw: nat) {
      raw !in r && raw in r' && r' == r[raw := r'[raw]]
    }

    /** The byte was given out since malloc's regions were `before`. */
    static ghost predicate TakenSince(before: map<nat, nat>, regions: map<nat, nat>, x: nat) {
      Taken(regions, x) && !Taken(before, x)
    }

    /** The pools built so far are in good standing with nothing handed out, inside what malloc gave
        out since construction began; all other memory is as it was then. */
    static ghost predicate Standing(mem: Memory, pools: seq<BlockPool>, before: map<nat, nat>, words: Words)
      reads mem, pools
    {
      && PoolsOk(Views(pools), mem.words, Empties(|pools|))
      && (forall k :: 0 <= k < |pools| ==> pools[k].live == {})
      && (forall k, x: nat :: 0 <= k < |pools| && Contains(pools[k].View(), x) ==> TakenSince(before, mem.regions, x))
      && Grown(before, mem.regions)
      && forall x: nat :: Taken(before, x) && x in words ==> x in mem.words && mem.words[x] == words[x]
    }

    /** One more pool over a slab from malloc; false for bad_alloc. */
    static method AddSlab(mem: Memory, pools: seq<BlockPool>, ghost snaps: seq<map<nat, nat>>, ghost words: Words)
      returns (ok: bool, pools': seq<BlockPool>, ghost snaps': seq<map<nat, nat>>)
      requires mem.Valid() && |pools| < NUM_CLASSES && Stacked(mem, pools, snaps)
      requires Standing(mem, pools, snaps[0], words)
      modifies mem
      ensures mem.Valid() && mem.corrupt == old(mem.corrupt) && Stacked(mem, pools', snaps')
      ensures snaps'[0] == snaps[0]
      ensures if ok then mem.refusals >= old(mem.refusals) else mem.refusals > old(mem.refusals)
      ensures !ok ==> pools' == pools
      ensures ok ==> |pools'| == |pools| + 1 && pools'[..|pools|] == pools && fresh(pools'[|pools|])
      ensures ok ==> Standing(mem, pools', snaps[0], words)
    {
      hide LinkBlocks, Span, TakenSince, Taken, Grown, PoolsOk, Memory.Valid, Memory.Fresh, Pow2;
      var k := |pools|;
      var size := SIZE_CLASSES[k];
      ClassSizeIsPow2(k);
      var hasAlignedAlloc := *;
      SpanIsProduct(BLOCKS_PER_SLAB, size);
      ghost var m, regions, views := mem.words, mem.regions, Views(pools);
      var slab, raw := mem.AllocateSlab(BLOCKS_PER_SLAB * size, size, hasAlignedAlloc);
      if raw == 0 {
        return false, pools, snaps;
      }
      var pool := new BlockPool(mem, size, BLOCKS_PER_SLAB, slab, raw);
      ok, pools', snaps' := true, pools + [pool], snaps + [mem.regions];
      assert Pushed(snaps[k], mem.regions, raw);
      assert Stacked(mem, pools', snaps');
      assert forall j, x: nat :: 0 <= j < k && Contains(views[j], x) ==> Contains(pools[j].View(), x);
      SlabStands(views, m, Empties(k), snaps[0], regions, mem.regions, slab, raw, size);
      SlabKeeps(m, words, snaps[0], regions, mem.regions, slab, raw, size);
      PoolJoins(mem, pools, pool, NewPool(slab, BLOCKS_PER_SLAB, size), views, snaps[0], words);
    }

    /** A pool joins the pools in good standing. */
    static lemma PoolJoins(mem: Memory, pools: seq<BlockPool>, pool: BlockPool, p: Pool, views: seq<Pool>,
                           before: map<nat, nat>, words: Words)
      requires views == Views(pools) && pool.View() == p && pool.live == {}
      requires forall k :: 0 <= k < |pools| ==> pools[k].live == {}
      requires PoolsOk(views + [p], mem.words, Empties(|pools|) + [{}])
      requires forall k, x: nat :: 0 <= k < |views| && Contains(views[k], x) ==> TakenSince(before, mem.regions, x)
      requires forall x: nat :: Contains(p, x) ==> TakenSince(before, mem.regions, x)
      requires Grown(before, mem.regions)
      requires forall x: nat :: Taken(before, x) && x in words ==> x in mem.words && mem.words[x] == words[x]
      ensures Standing(mem, pools + [pool], before, words)
    {
      hide Contains, TakenSince, Taken, Grown, PoolsOk;
      var pools' := pools + [pool];
      assert Views(pools') == views + [p];
      assert Empties(|pools'|) == Empties(|pools|) + [{}];
      forall j, x: nat | 0 <= j < |pools'| && Contains(pools'[j].View(), x)
        ensures TakenSince(before, mem.regions, x)
      {
        assert Contains(Views(pools')[j], x);
        assert j < |pools| ==> Contains(views[j], x);
      }
    }

    /** The value-level part of AddSlab. */
    static lemma SlabStands(views: seq<Pool>, words: Words, blocks: seq<set<nat>>, before: map<nat, nat>,
                            regions: map<nat, nat>, regions': map<nat, nat>, slab: nat, raw: nat, size: nat)
      requires |views| < NUM_CLASSES && PoolsOk(views, words, blocks) && size == ClassSize(|views|)
      requires forall k, x: nat :: 0 <= k < |views| && Contains(views[k], x) ==> TakenSince(before, regions, x)
      requires Pushed(regions, regions', raw) && Grown(before, regions)
      requires slab % size == 0 && 0 < raw <= slab && slab + Span(BLOCKS_PER_SLAB, size) <= raw + regions'[raw]
      requires Memory.Fresh(regions, slab, Span(BLOCKS_PER_SLAB, size))
      ensures PoolsOk(views + [NewPool(slab, BLOCKS_PER_SLAB, size)],
                      LinkBlocks(words, slab, BLOCKS_PER_SLAB, size, 0), blocks + [{}])
      ensures forall k, x: nat :: 0 <= k < |views| && Contains(views[k], x) ==> TakenSince(before, regions', x)
      ensures forall x: nat :: Contains(NewPool(slab, BLOCKS_PER_SLAB, size), x) ==> TakenSince(before, regions', x)
    {
      hide PoolsOk, Contains, LinkBlocks, Span, Memory.Fresh, ClassSize, Taken;
      assert Grown(regions, regions');
      forall k, x: nat | 0 <= k < |views| && Contains(views[k], x)
        ensures !(slab <= x < slab + Span(BLOCKS_PER_SLAB, size))
      {
        assert TakenSince(before, regions, x);
        TakenOutside(regions, slab, Span(BLOCKS_PER_SLAB, size), x);
      }
      forall k, x: nat | 0 <= k < |views| && Contains(views[k], x)
        ensures TakenSince(before, regions', x)
      {
        assert TakenSince(before, regions, x);
        TakenGrown(regions, regions', x);
      }
      AddPool(views, words, blocks, slab);
      NewContains(slab, BLOCKS_PER_SLAB, size);
      forall x: nat | slab <= x < slab + Span(BLOCKS_PER_SLAB, size)
        ensures TakenSince(before, regions', x)
      {
        TakenNow(regions, regions', raw, x);
        NotBefore(before, regions, slab, Span(BLOCKS_PER_SLAB, size), x);
      }
    }

    static lemma NotBefore(before: map<nat, nat>, regions: map<nat, nat>, p: nat, n: nat, x: nat)
      requires Grown(before, regions) && Memory.Fresh(regions, p, n) && p <= x < p + n
      ensures !Taken(before, x)
    {
      hide Memory.Fresh, Taken;
      FreshNotTaken(regions, p, n, x);
      if Taken(before, x) {
        TakenGrown(before, regions, x);
      }
    }

    /** A new slab changes nothing that was there before. */
    static lemma SlabKeeps(m: Words, words: Words, before: map<nat, nat>, regions: map<nat, nat>,
                           regions': map<nat, nat>, slab: nat, raw: nat, size: nat)
      requires size > 0 && Pushed(regions, regions', raw) && Grown(before, regions)
      requires Memory.Fresh(regions, slab, Span(BLOCKS_PER_SLAB, size))
      requires forall x: nat :: Taken(before, x) && x in words ==> x in m && m[x] == words[x]
      ensures Grown(before, regions')
      ensures var m' := LinkBlocks(m, slab, BLOCKS_PER_SLAB, size, 0);
              forall x: nat :: Taken(before, x) && x in words ==> x in m' && m'[x] == words[x]
    {
      hide LinkBlocks, Span, Memory.Fresh, Taken;
      forall x: nat | Taken(before, x) && x in words
        ensures var m' := LinkBlocks(m, slab, BLOCKS_PER_SLAB, size, 0); x in m' && m'[x] == words[x]
      {
        TakenGrown(before, regions, x);
        TakenOutside(regions, slab, Span(BLOCKS_PER_SLAB, size), x);
        SlabWrites(m, slab, BLOCKS_PER_SLAB, size, 0, x);
      }
    }

    static lemma TakenNow(regions: map<nat, nat>, regions': map<nat, nat>, raw: nat, x: nat)
      requires Pushed(regions, regions', raw) && raw <= x < raw + regions'[raw]
      ensures Taken(regions', x)
    {
    }

    /** The value-level part of the arena's construction. */
    static lemma ArenaStands(views: seq<Pool>, words: Words, before: map<nat, nat>, regions: map<nat, nat>,
                             regions': map<nat, nat>, base: nat)
      requires |views| == NUM_CLASSES && PoolsOk(views, words, Empties(|views|))
      requires forall k, x: nat :: 0 <= k < |views| && Contains(views[k], x) ==> TakenSince(before, regions, x)
      requires 0 < base && base + ARENA_CAPACITY < WORD_MOD && Memory.Fresh(regions, base, ARENA_CAPACITY)
      requires base !in regions && regions' == regions[base := ARENA_CAPACITY] && Grown(before, regions)
      ensures Grown(before, regions')
      ensures var al := Allocator(views, NewArena(base, ARENA_CAPACITY), NO_STATS);
              && Sound(al, words, regions', NOTHING_HELD)
              && forall x: nat :: Owns(al, x) ==> TakenSince(before, regions', x)
    {
      hide Contains, PoolsOk, Taken, Memory.Fresh;
      var al := Allocator(views, NewArena(base, ARENA_CAPACITY), NO_STATS);
      assert Empties(|views|) == NOTHING_HELD.blocks;
      assert Grown(regions, regions');
      forall k, x: nat | 0 <= k < NUM_CLASSES && Contains(views[k], x)
        ensures !(base <= x < base + ARENA_CAPACITY)
      {
        assert TakenSince(before, regions, x);
        TakenOutside(regions, base, ARENA_CAPACITY, x);
      }
      forall k, x: nat | 0 <= k < NUM_CLASSES && Contains(views[k], x)
        ensures TakenSince(before, regions', x)
      {
        assert TakenSince(before, regions, x);
        TakenGrown(regions, regions', x);
      }
      forall x: nat | base <= x < base + ARENA_CAPACITY
        ensures TakenSince(before, regions', x)
      {
        TakenNow(regions, regions', base, x);
        NotBefore(before, regions, base, ARENA_CAPACITY, x);
      }
      forall x: nat | Owns(al, x)
        ensures Taken(regions', x) && TakenSince(before, regions', x)
      {
        if !InArena(al.arena, x) {
          var k :| 0 <= k < NUM_CLASSES && Contains(views[k], x);
          assert TakenSince(before, regions', x);
        } else {
          assert TakenSince(before, regions', x);
        }
      }
      assert AllocatorOk(al, words, NOTHING_HELD);
    }

    /** The seven pools, each over a slab from malloc; on failure everything obtained is given back. */
    static method BuildPools(mem: Memory) returns (ok: bool, pools: seq<BlockPool>, ghost snaps: seq<map<nat, nat>>)
      requires mem.Valid()
      modifies mem
      ensures mem.Valid() && mem.corrupt == old(mem.corrupt)
      ensures if ok then mem.refusals >= old(mem.refusals) else mem.refusals > old(mem.refusals)
      ensures !ok ==> mem.regions == old(mem.regions)
      ensures ok ==> |pools| == NUM_CLASSES && Stacked(mem, pools, snaps)
      ensures ok ==> snaps[0] == old(mem.regions) && Standing(mem, pools, old(mem.regions), old(mem.words))
      ensures ok ==> forall k :: 0 <= k < |pools| ==> fresh(pools[k])
    {
      hide Memory.Valid, TakenSince, Taken, Pushed, Contains, ClassSize, PoolsOk, Grown;
      ok, pools, snaps := true, [], [mem.regions];
      NoPools(mem, pools);
      while |pools| < NUM_CLASSES
        invariant mem.Valid() && mem.corrupt == old(mem.corrupt) && mem.refusals >= old(mem.refusals)
        invariant Stacked(mem, pools, snaps) && snaps[0] == old(mem.regions)
        invariant Standing(mem, pools, old(mem.regions), old(mem.words))
        invariant forall k :: 0 <= k < |pools| ==> fresh(pools[k])
        decreases NUM_CLASSES - |pools|
      {
        ghost var earlier := pools;
        ok, pools, snaps := AddSlab(mem, pools, snaps, old(mem.words));
        if !ok {
          Release(mem, pools, snaps);
          return;
        }
        assert forall k :: 0 <= k < |earlier| ==> pools[k] == earlier[k];
      }
    }

    static lemma NoPools(mem: Memory, pools: seq<BlockPool>)
      requires pools == []
      ensures Standing(mem, pools, mem.regions, mem.words)
    {
    }

    /** Construction: seven slabs and an arena from malloc, each linked as it arrives.  Null stands
        for bad_alloc, and then everything obtained has been given back.  The new allocator is in
        order with nothing handed out; it owns only what malloc gave out meanwhile, and all memory
        that others had is as it was. */
    static method Build(mem: Memory, heap: CentralHeap, flags: ThreadFlags) returns (a: SingleThreadAllocator?)
      requires mem.Valid() && heap.mem == mem
      modifies mem
      ensures mem.Valid() && mem.corrupt == old(mem.corrupt)
      ensures if a == null then mem.refusals > old(mem.refusals) else mem.refusals >= old(mem.refusals)
      ensures a == null ==> mem.regions == old(mem.regions)
      ensures a != null ==> fresh(a) && a.mem == mem && a.heap == heap && a.flags == flags
      ensures a != null ==> fresh(set k | 0 <= k < |a.pools| :: a.pools[k]) && fresh(a.arena) && fresh(a.stats)
      ensures a != null ==> a.InOrder() && a.Held() == NOTHING_HELD && a.View().stats == NO_STATS
      ensures a != null ==> a.View().arena.capacity == 4194304 && a.View().arena.used == 0
      ensures a != null ==> Grown(old(mem.regions), mem.regions)
      ensures a != null ==> ClaimsFresh(NOBODY, a.View(), old(mem.regions))
      ensures a != null ==> SparesOthers(NOBODY, old(mem.words), mem.words, old(mem.regions))
    {
      hide Memory.Valid, TakenSince, Taken, Pushed, AllocatorOk, Sound, Contains, ClassSize, PoolsOk, Grown;
      var ok, pools;
      ghost var snaps;
      ok, pools, snaps := BuildPools(mem);
      if !ok {
        return null;
      }
      ghost var regions, words := mem.regions, mem.words;
      assert forall k :: 0 <= k < |pools| ==> Views(pools)[k] == pools[k].View();
      var base := mem.Malloc(ARENA_CAPACITY);
      if base == 0 {
        Release(mem, pools, snaps);
        return null;
      }
      ArenaStands(Views(pools), words, old(mem.regions), regions, mem.regions, base);
      var arena := new BumpArena(base, ARENA_CAPACITY);
      a := new SingleThreadAllocator(mem, heap, flags, pools, arena);
      assert a.View().pools == Views(pools);
      assert a.Held().blocks == NOTHING_HELD.blocks;
      BuiltFrom(a.View(), old(mem.regions), mem.regions, old(mem.words), mem.words);
    }

    static lemma BuiltFrom(al: Allocator, before: map<nat, nat>, regions: map<nat, nat>, words: Words, words': Words)
      requires forall x: nat :: Owns(al, x) ==> TakenSince(before, regions, x)
      requires forall x: nat :: Taken(before, x) && x in words ==> x in words' && words'[x] == words[x]
      ensures ClaimsFresh(NOBODY, al, before) && SparesOthers(NOBODY, words, words', before)
    {
      hide Owns, Taken;
    }

    /** Gives back the slabs of a construction that failed, last first. */
    static method Release(mem: Memory, pools: seq<BlockPool>, ghost snaps: seq<map<nat, nat>>)
      requires mem.Valid() && Stacked(mem, pools, snaps)
      modifies mem`regions, mem`corrupt
      ensures mem.Valid() && mem.regions == snaps[0] && mem.corrupt == old(mem.corrupt)
    {
      var k: nat := |pools|;
      while k > 0
        invariant k <= |pools| && mem.Valid() && mem.regions == snaps[k] && mem.corrupt == old(mem.corrupt)
      {
        k := k - 1;
        assert Pushed(snaps[k], snaps[k + 1], pools[k].raw);
        mem.Free(pools[k].raw);
        assert mem.regions == snaps[k];
      }
    }

    /** Pops from one pool and records the allocation. */
    method PoolAllocate(k: nat, n: nat) returns (p: nat)
      requires Valid() && k < NUM_CLASSES
      modifies pools[k], stats
      ensures Valid() && pools == old(pools) && arena == old(arena) && stats == old(stats)
      ensures (View(), p) == PopFrom(old(View()), mem.words, k, n)
      ensures p == 0 ==> View() == old(View())
      ensures |old(Held()).blocks| == NUM_CLASSES
      ensures Held() == if p == 0 then old(Held()) else Take(old(Held()), k, p)
    {
      ghost var before, held := View(), Held();
      p := pools[k].Allocate();
      if p != 0 {
        stats.Alloc(n, SIZE_CLASSES[k]);
      }
      assert View().pools == before.pools[k := pools[k].View()];
      assert Held().blocks == held.blocks[k := pools[k].live];
    }

    /** Links as many blocks of the chunk as the slab size and the chunk allow. */
    method PoolAddChunk(k: nat, body: nat)
      requires Valid() && k < NUM_CLASSES
      modifies pools[k], mem`words, flags`exposed
      ensures Valid() && pools == old(pools) && arena == old(arena) && stats == old(stats)
      ensures flags.exposed == (old(flags.exposed) || !flags.active)
      ensures (View(), mem.words) == Refill(old(View()), old(mem.words), k, body)
      ensures Held() == old(Held())
      ensures exists m :: LargestRefill(m, SIZE_CLASSES[k])
                          && pools[k].external == old(pools[k].external) + [Region(body, m)]
    {
      ghost var before, held := View(), Held();
      var fit := BlocksPerChunk(SIZE_CLASSES[k]);
      RefillFits(k);
      assert LargestRefill(RefillCount(k), SIZE_CLASSES[k]);
      flags.VectorGrows();
      pools[k].AddExternalSlab(body, if pools[k].perSlab < fit then pools[k].perSlab else fit);
      assert View().pools == before.pools[k := pools[k].View()];
      assert Held().blocks == held.blocks;
    }

    /** The routing entry point.  Null for a small request means that malloc refused a chunk.  `body` is
        the chunk the central heap answered with, if it was asked.  An allocator in order stays so, the
        request handed out, unless the arena's bounds check wraps; what others had from malloc is neither
        written nor claimed. */
    method Allocate(n: nat) returns (p: nat, ghost body: nat)
      requires Valid() && mem.Valid()
      modifies Parts(), mem, heap, flags`active, flags`exposed
      ensures Valid() && mem.Valid() && pools == old(pools) && arena == old(arena) && stats == old(stats)
      ensures (View(), mem.words, p) == Allocators.Allocate(old(View()), old(mem.words), n, body)
      ensures |old(Held()).blocks| == NUM_CLASSES && Held() == Handed(old(View()), old(Held()), n, p)
      ensures mem.refusals >= old(mem.refusals)
      ensures p == 0 && n <= MAX_SMALL ==> mem.refusals > old(mem.refusals)
      ensures body != 0 ==> ChunkGiven(old(mem.regions), mem.regions, body)
      ensures body == 0 ==> mem.regions == old(mem.regions)
      ensures Grown(old(mem.regions), mem.regions)
      ensures flags.active == old(flags.active) && mem.corrupt == old(mem.corrupt)
      ensures flags.active ==> flags.exposed == old(flags.exposed)
      ensures old(InOrder()) && n < WORD_MOD && (n > MAX_SMALL ==> !CheckWraps(old(View()).arena, n, MAX_ALIGN)) ==>
                InOrder()
      ensures SparesOthers(old(View()), old(mem.words), mem.words, old(mem.regions))
      ensures ClaimsFresh(old(View()), View(), old(mem.regions))
    {
      hide Allocators.Allocate, Handed, Sound, Grown, ChunkGiven, SparesOthers, ClaimsFresh, Memory.Valid, CheckWraps;
      ghost var al, m, regions, held := View(), mem.words, mem.regions, Held();
      ViewSized();
      p, body := Route(n);
      AllocateElsewhere(al, m, regions, n, body, mem.regions);
      if Sound(al, m, regions, held) && n < WORD_MOD && (n > MAX_SMALL ==> !CheckWraps(al.arena, n, MAX_ALIGN)) {
        AllocateSound(al, m, regions, held, n, body, mem.regions);
      }
    }

    lemma ViewSized()
      requires Valid()
      ensures Sized(View())
    {
    }

    /** By size to a pool or the arena, with one refill when the pool is dry. */
    method Route(n: nat) returns (p: nat, ghost body: nat)
      requires Valid() && mem.Valid()
      modifies Parts(), mem, heap, flags`active, flags`exposed
      ensures Valid() && mem.Valid() && pools == old(pools) && arena == old(arena) && stats == old(stats)
      ensures (View(), mem.words, p) == Allocators.Allocate(old(View()), old(mem.words), n, body)
      ensures |old(Held()).blocks| == NUM_CLASSES && Held() == Handed(old(View()), old(Held()), n, p)
      ensures mem.refusals >= old(mem.refusals)
      ensures p == 0 && n <= MAX_SMALL ==> mem.refusals > old(mem.refusals)
      ensures body != 0 ==> ChunkGiven(old(mem.regions), mem.regions, body)
      ensures body == 0 ==> mem.regions == old(mem.regions)
      ensures Grown(old(mem.regions), mem.regions)
      ensures flags.active == old(flags.active) && mem.corrupt == old(mem.corrupt)
      ensures flags.active ==> flags.exposed == old(flags.exposed)
    {
      hide PopFrom, Refill, FromBump, TakeRange, Memory.Valid, Memory.Fresh, Taken, ClassIndex;
      body := 0;
      if n > MAX_SMALL {
        p := AllocateAligned(n, MAX_ALIGN);
        return;
      }
      FitIsTight(n);
      var k := SizeClassIndex(n);
      ghost var v, held := View(), Held();
      p := PoolAllocate(k, n);
      if p != 0 {
        return;
      }
      assert View() == v && Held() == held;
      p, body := FromChunk(k, n);
    }

    /** The slow path: a chunk from the central heap, linked, and the retry. */
    method FromChunk(k: nat, n: nat) returns (p: nat, ghost body: nat)
      requires Valid() && mem.Valid() && k < NUM_CLASSES
      modifies pools[k], stats, mem, heap, flags`active, flags`exposed
      ensures Valid() && mem.Valid() && pools == old(pools) && arena == old(arena) && stats == old(stats)
      ensures mem.refusals >= old(mem.refusals)
      ensures p == 0 ==> mem.refusals > old(mem.refusals)
      ensures body == 0 ==> p == 0 && View() == old(View()) && mem.words == old(mem.words) && Held() == old(Held())
      ensures body == 0 ==> mem.regions == old(mem.regions)
      ensures |old(Held()).blocks| == NUM_CLASSES
      ensures body != 0 ==>
        && ChunkGiven(old(mem.regions), mem.regions, body)
        && var m0 := HeaderWritten(old(mem.words), body - HEADER_BYTES, ClassSize(k));
           var (al, m) := Refill(old(View()), m0, k, body);
           && |al.pools| == NUM_CLASSES && (View(), p) == PopFrom(al, m, k, n) && mem.words == m
           && Held() == if p == 0 then old(Held()) else Take(old(Held()), k, p)
      ensures Grown(old(mem.regions), mem.regions)
      ensures flags.active == old(flags.active) && mem.corrupt == old(mem.corrupt)
      ensures flags.active ==> flags.exposed == old(flags.exposed)
    {
      hide PopFrom, Refill, Memory.Valid, Memory.Fresh, Taken;
      ghost var v, held, m := View(), Held(), mem.words;
      var chunk := heap.AcquireChunk(SIZE_CLASSES[k], flags);
      assert View() == v && Held() == held by {
        assert View().pools == v.pools && Held().blocks == held.blocks;
      }
      p, body := 0, chunk;
      if chunk != 0 {
        ChunkIsTaken(mem.regions, heap.chunks[|heap.chunks| - 1], body);
        PoolAddChunk(k, chunk);
        p := PoolAllocate(k, n);
        RefilledServes(v, HeaderWritten(m, body - HEADER_BYTES, ClassSize(k)), k, body, n);
      }
    }

    /** A pool that has just been refilled is not dry. */
    static lemma RefilledServes(al: Allocator, m: Words, k: nat, body: nat, n: nat)
      requires k < NUM_CLASSES == |al.pools| && body != 0
      ensures var (al', m') := Refill(al, m, k, body); |al'.pools| == NUM_CLASSES && PopFrom(al', m', k, n).1 == body
    {
    }

    static lemma ChunkIsTaken(regions: map<nat, nat>, raw: nat, body: nat)
      requires raw in regions && body >= HEADER_BYTES
      requires raw <= body - HEADER_BYTES && body - HEADER_BYTES + CHUNK_SIZE <= raw + regions[raw]
      ensures forall x: nat :: body - HEADER_BYTES <= x < body - HEADER_BYTES + CHUNK_SIZE ==> Taken(regions, x)
    {
    }

    method Deallocate(p: nat, n: nat)
      requires Valid()
      modifies Parts(), mem`words
      ensures Valid() && pools == old(pools) && arena == old(arena) && stats == old(stats)
      ensures (View(), mem.words) == Allocators.Deallocate(old(View()), old(mem.words), p, n)
      ensures |old(Held()).blocks| == NUM_CLASSES && (n <= MAX_SMALL ==> ClassIndex(n) < NUM_CLASSES)
      ensures Held() == if n > MAX_SMALL then old(Held()) else Drop(old(Held()), ClassIndex(n), p)
      ensures old(InOrder()) && (n <= MAX_SMALL ==> p in old(Held()).blocks[ClassIndex(n)]) ==>
                InOrder() && SparesOthers(old(View()), old(mem.words), mem.words, mem.regions)
    {
      hide Sound;
      if n > MAX_SMALL {
        return;
      }
      FitIsTight(n);
      var k := SizeClassIndex(n);
      ghost var before, held, m := View(), Held(), mem.words;
      stats.Free(n, SIZE_CLASSES[k]);
      pools[k].Deallocate(p);
      assert View().pools == before.pools[k := pools[k].View()];
      assert Held().blocks == held.blocks[k := pools[k].live];
      if Sound(before, m, mem.regions, held) && p in held.blocks[k] {
        PushSound(before, m, mem.regions, held, k, p, n);
      }
    }

    method DeallocateContaining(p: nat, n: nat)
      requires Valid()
      requires n <= MAX_SMALL ==> ClassIndex(n) < NUM_CLASSES && Contains(pools[ClassIndex(n)].View(), p)
      modifies Parts(), mem`words
      ensures Valid() && pools == old(pools) && arena == old(arena) && stats == old(stats)
      ensures Sized(old(View())) && |old(Held()).blocks| == NUM_CLASSES
      ensures (View(), mem.words) == Allocators.DeallocateContaining(old(View()), old(mem.words), p, n)
      ensures Held() == if n > MAX_SMALL then old(Held())
                        else Drop(old(Held()), ClassIndex(n), ContainingBlock(old(View()).pools[ClassIndex(n)], p))
      ensures old(InOrder())
              && (n <= MAX_SMALL ==>
                    ContainingBlock(old(View()).pools[ClassIndex(n)], p) in old(Held()).blocks[ClassIndex(n)])
              ==> InOrder() && SparesOthers(old(View()), old(mem.words), mem.words, mem.regions)
    {
      hide Sound, ContainingBlock, Contains;
      if n > MAX_SMALL {
        return;
      }
      FitIsTight(n);
      var k := SizeClassIndex(n);
      ghost var before, held, m := View(), Held(), mem.words;
      ghost var b := ContainingBlock(before.pools[k], p);
      stats.Free(n, SIZE_CLASSES[k]);
      pools[k].DeallocateContaining(p);
      assert View().pools == before.pools[k := pools[k].View()];
      assert Held().blocks == held.blocks[k := pools[k].live];
      if Sound(before, m, mem.regions, held) && b in held.blocks[k] {
        PushSound(before, m, mem.regions, held, k, b, n);
      }
    }

    method AllocateAligned(n: nat, align: nat) returns (p: nat)
      requires Valid() && 0 < align <= WORD_MOD
      modifies arena, stats
      ensures Valid() && pools == old(pools) && arena == old(arena) && stats == old(stats)
      ensures (View(), p) == FromBump(old(View()), n, align)
      ensures |old(Held()).blocks| == NUM_CLASSES && Held() == TakeRange(old(View()), old(Held()), n, align)
      ensures old(InOrder()) && n < WORD_MOD && IsPow2(align) && !CheckWraps(old(View()).arena, n, align) ==> InOrder()
    {
      hide Sound, CheckWraps, IsPow2;
      ghost var before, held := View(), Held();
      var used: int := arena.used;
      p := arena.Allocate(n, align);
      if p != 0 {
        stats.Alloc(n, Wrap(arena.used - used));
      }
      assert View().pools == before.pools;
      assert Held().blocks == held.blocks;
      if Sound(before, mem.words, mem.regions, held) && n < WORD_MOD && IsPow2(align)
         && !CheckWraps(before.arena, n, align) {
        BumpSound(before, mem.words, mem.regions, held, n, align);
      }
    }

    /** Probes every pool, the last hit winning, then the arena. */
    method Classify(p: nat) returns (cls: nat)
      requires Valid()
      ensures var o := Allocators.Classify(View(), p);
              (o.FromPool? ==> o.k < NUM_CLASSES) && cls == Encode(o)
    {
      if p == 0 {
        return 0;
      }
      var found := 0;
      ghost var v := View();
      for k := 0 to NUM_CLASSES
        invariant LastHit(v.pools, p, k) == 0 ==> found == 0
        invariant LastHit(v.pools, p, k) > 0 ==> found == ClassSize(LastHit(v.pools, p, k) - 1)
      {
        var hit := pools[k].InRegions(p);
        assert v.pools[k] == pools[k].View();
        if hit {
          found := SIZE_CLASSES[k];
        }
      }
      if found != 0 {
        return found;
      }
      var inArena := arena.InUse(p);
      return if inArena then WORD_MOD - 1 else 0;
    }

    /** Per class, the blocks on the free list and the blocks managed; and the arena's bytes.  With the
        blocks handed out as a witness: free is total less handed out, class by class. */
    method Occupancy(ghost h: Holdings) returns (free: seq<nat>, cap: seq<nat>, arenaUsed: nat, arenaCap: nat)
      requires Valid() && AllocatorOk(View(), mem.words, h)
      ensures |free| == |cap| == NUM_CLASSES
      ensures forall k :: 0 <= k < NUM_CLASSES ==> free[k] + |h.blocks[k]| == cap[k] == TotalBlocks(View().pools[k])
      ensures arenaUsed == View().arena.used && arenaCap == View().arena.capacity
    {
      hide PoolOk, Contains, RangesOk;
      arenaUsed, arenaCap, free, cap := arena.used, arena.capacity, [], [];
      for k := 0 to NUM_CLASSES
        invariant |free| == |cap| == k
        invariant forall j :: 0 <= j < k ==> free[j] + |h.blocks[j]| == cap[j] == TotalBlocks(View().pools[j])
      {
        assert PoolOk(View().pools[k], mem.words, h.blocks[k]) && View().pools[k] == pools[k].View();
        var n := pools[k].FreeCount(h.blocks[k]);
        var total := pools[k].CountTotal();
        free, cap := free + [n], cap + [total];
      }
    }
  }
}
