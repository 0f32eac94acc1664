/** Recovering the owner of a pointer: classification by region search, interior pointers, and
    the alignment of blocks. */
module Routing {
  import opened FreeList
  import opened SizeClasses
  import opened Pools
  import opened Arenas
  import opened Allocators

  lemma {:induction false} LastHitIs(pools: seq<Pool>, a: nat, n: nat)
    requires n <= |pools|
    ensures var r := LastHit(pools, a, n);
            && (r == 0 <==> forall k :: 0 <= k < n ==> !Contains(pools[k], a))
            && (r > 0 ==> Contains(pools[r - 1], a))
  {
    if n > 0 {
      LastHitIs(pools, a, n - 1);
    }
  }

  /** No byte is in two of the allocator's regions, and none of them holds the null address. */
  ghost predicate Separate(al: Allocator) {
    && (forall j, k, a :: 0 <= j < k < |al.pools| && Contains(al.pools[j], a) ==> !Contains(al.pools[k], a))
    && (forall k, a :: 0 <= k < |al.pools| && Contains(al.pools[k], a) ==> !ArenaContains(al.arena, a))
    && (forall k, a :: 0 <= k < |al.pools| && Contains(al.pools[k], a) ==> a > 0)
    && al.arena.base > 0
  }

  lemma AllocatorSeparate(al: Allocator, m: Words, h: Holdings)
    requires AllocatorOk(al, m, h)
    ensures Separate(al)
  {
    forall k, a | 0 <= k < |al.pools| && Contains(al.pools[k], a)
      ensures !ArenaContains(al.arena, a) && a > 0
    {
      assert !InArena(al.arena, a);
      assert PoolOk(al.pools[k], m, h.blocks[k]);
    }
  }

  /** Classification is exact: a pool is named if and only if the byte is in a region of that
      pool, the arena if and only if it is below the arena's cursor, and otherwise neither. The
      fold that lets later hits win cannot disagree with any other search order. */
  lemma ClassifyIsExact(al: Allocator, a: nat)
    requires Separate(al)
    ensures match Classify(al, a)
            case FromPool(k) => k < |al.pools| && Contains(al.pools[k], a)
            case FromArena => al.arena.base <= a < al.arena.base + al.arena.used
            case NotOurs => !ArenaContains(al.arena, a) && forall k :: 0 <= k < |al.pools| ==> !Contains(al.pools[k], a)
    ensures forall k :: 0 <= k < |al.pools| && Contains(al.pools[k], a) ==> Classify(al, a) == FromPool(k)
    ensures al.arena.base <= a < al.arena.base + al.arena.used ==> Classify(al, a) == FromArena
  {
    if al.arena.base <= a < al.arena.base + al.arena.used {
      assert ArenaContains(al.arena, a);
    }
    LastHitIs(al.pools, a, |al.pools|);
  }

  /** Every byte of a held block classifies to the class of the block. */
  lemma HeldBlockClass(al: Allocator, m: Words, h: Holdings, k: nat, a: nat, off: nat)
    requires AllocatorOk(al, m, h) && k < NUM_CLASSES && a in h.blocks[k] && off < ClassSize(k)
    ensures Classify(al, a + off) == FromPool(k)
    ensures ContainingBlock(al.pools[k], a + off) == a
  {
    hide Blocks, ContainingBlock, Contains, LastHit, RangesOk, ListOf;
    var p := al.pools[k];
    assert ClassOk(p, k) && PoolOk(p, m, h.blocks[k]);
    BlockContained(p, a, a + off);
    ContainingBlockIs(p, a, a + off);
    AllocatorSeparate(al, m, h);
    ClassifyIsExact(al, a + off);
  }

  /** Deleting through any interior pointer, with the class that classification reports, does to
      pools and memory exactly what the direct free of the block does; the statistics agree too
      if and only if the request was exactly as large as its block. */
  lemma InteriorRoundTrip(al: Allocator, m: Words, h: Holdings, n: nat, a: nat, off: nat)
    requires AllocatorOk(al, m, h) && n <= MAX_SMALL
    requires ClassIndex(n) < NUM_CLASSES && a in h.blocks[ClassIndex(n)] && off < BlockFor(n)
    ensures Classify(al, a + off) == FromPool(ClassIndex(n))
    ensures var (al1, m1) := DeallocateContaining(al, m, a + off, BlockFor(n));
            var (al2, m2) := Deallocate(al, m, a, n);
            && al1.pools == al2.pools && al1.arena == al2.arena && m1 == m2
            && (al1 == al2 <==> n == BlockFor(n))
  {
    var k := ClassIndex(n);
    HeldBlockClass(al, m, h, k, a, off);
    ClassRoundTrip(k);
  }

  /** The allocator and the memory that a block of class `k` is taken from: as they are, or, when the
      pool is dry and the heap answers `body`, after the refill. */
  function Ready(al: Allocator, m: Words, k: nat, body: nat): (Allocator, Words)
    requires k < NUM_CLASSES == |al.pools|
  {
    if al.pools[k].head != 0 || body < HEADER_BYTES then (al, m)
    else Refill(al, HeaderWritten(m, body - HEADER_BYTES, ClassSize(k)), k, body)
  }

  /** Allocating and freeing through any interior pointer restores every free list and every word of
      memory to what they were before, or, when a refill was needed, to what the refill made them. */
  lemma AllocateThenDelete(al: Allocator, m: Words, h: Holdings, n: nat, body: nat, off: nat)
    requires AllocatorOk(al, m, h) && n <= MAX_SMALL && off < BlockFor(n)
    requires body >= HEADER_BYTES ==>
      && body % 64 == 0
      && forall a :: body - HEADER_BYTES <= a < body + (CHUNK_SIZE - HEADER_BYTES) ==> !Owns(al, a)
    ensures ClassIndex(n) < NUM_CLASSES
    ensures var (al0, m0) := Ready(al, m, ClassIndex(n), body);
            var (al1, m1, p) := Allocate(al, m, n, body);
            && |al1.pools| == NUM_CLASSES
            && (p != 0 ==>
                 && Classify(al1, p + off) == FromPool(ClassIndex(n))
                 && Sized(al1)
                 && DeallocateContaining(al1, m1, p + off, BlockFor(n)).0.pools == al0.pools
                 && DeallocateContaining(al1, m1, p + off, BlockFor(n)).1 == m0)
  {
    hide AllocatorOk, Classify, ContainingBlock, ClassSize, DeallocateContaining, Owns, Refill, HeaderWritten, Sized;
    FitIsTight(n);
    var k := ClassIndex(n);
    PoolCount(al, m, h);
    var (al0, m0) := Ready(al, m, k, body);
    ReadyKeeps(al, m, h, k, body);
    AllocateFromReady(al, m, n, body);
    if PopFrom(al0, m0, k, n).1 != 0 {
      TakeThenDelete(al0, m0, h, n, off);
    }
  }

  lemma PoolCount(al: Allocator, m: Words, h: Holdings)
    requires AllocatorOk(al, m, h)
    ensures |al.pools| == NUM_CLASSES
  {
  }

  lemma ReadyKeeps(al: Allocator, m: Words, h: Holdings, k: nat, body: nat)
    requires AllocatorOk(al, m, h) && k < NUM_CLASSES
    requires body >= HEADER_BYTES ==>
      && body % 64 == 0
      && forall a :: body - HEADER_BYTES <= a < body + (CHUNK_SIZE - HEADER_BYTES) ==> !Owns(al, a)
    ensures var (al0, m0) := Ready(al, m, k, body);
            |al0.pools| == NUM_CLASSES && AllocatorOk(al0, m0, h)
  {
    if al.pools[k].head == 0 && body >= HEADER_BYTES {
      var m1 := HeaderWritten(m, body - HEADER_BYTES, ClassSize(k));
      UnownedWrites(al, m, m1, h);
      hide Owns, AllocatorOk;
      RefillKeeps(al, m1, h, k, body);
    }
  }

  /** A small request is a pop from the pool once it is ready. */
  lemma AllocateFromReady(al: Allocator, m: Words, n: nat, body: nat)
    requires |al.pools| == NUM_CLASSES && n <= MAX_SMALL && ClassIndex(n) < NUM_CLASSES
    ensures var (al0, m0) := Ready(al, m, ClassIndex(n), body);
            && |al0.pools| == NUM_CLASSES
            && Allocate(al, m, n, body)
               == (PopFrom(al0, m0, ClassIndex(n), n).0, m0, PopFrom(al0, m0, ClassIndex(n), n).1)
  {
    hide Link, RefillCount, HeaderWritten, ClassIndex;
  }

  /** Popping a block and deleting it by any of its bytes. */
  lemma TakeThenDelete(al: Allocator, m: Words, h: Holdings, n: nat, off: nat)
    requires AllocatorOk(al, m, h) && n <= MAX_SMALL && off < BlockFor(n) && ClassIndex(n) < NUM_CLASSES
    requires PopFrom(al, m, ClassIndex(n), n).1 != 0
    ensures var (al1, p) := PopFrom(al, m, ClassIndex(n), n);
            && |al1.pools| == NUM_CLASSES
            && Classify(al1, p + off) == FromPool(ClassIndex(n))
            && Sized(al1)
            && DeallocateContaining(al1, m, p + off, BlockFor(n)).0.pools == al.pools
            && DeallocateContaining(al1, m, p + off, BlockFor(n)).1 == m
  {
    hide PoolOk, RangesOk, Contains, Blocks, Classify, ContainingBlock, ClassSize;
    var k := ClassIndex(n);
    PopFromKeeps(al, m, h, k, n);
    var (al1, p) := PopFrom(al, m, k, n);
    TakenIn(h, k, p);
    InteriorRoundTrip(al1, m, Take(h, k, p), n, p, off);
    PoppedBack(al, m, h, k, n);
    ClassRoundTrip(k);
    hide ClassIndex, PopFrom, AllocatorOk;
  }

  lemma TakenIn(h: Holdings, k: nat, a: nat)
    requires k < |h.blocks|
    ensures a in Take(h, k, a).blocks[k]
  {
  }

  /** Pushing a block straight back restores pools and memory. */
  lemma PoppedBack(al: Allocator, m: Words, h: Holdings, k: nat, n: nat)
    requires AllocatorOk(al, m, h) && k < NUM_CLASSES
    ensures var (al1, p) := PopFrom(al, m, k, n);
            && |al1.pools| == NUM_CLASSES && Sized(al1)
            && (p != 0 ==> PushTo(al1, m, k, p, n).0.pools == al.pools && PushTo(al1, m, k, p, n).1 == m)
  {
    hide RangesOk, Contains, Blocks;
    assert forall j :: 0 <= j < NUM_CLASSES ==> ClassOk(al.pools[j], j);
    var (al1, p) := PopFrom(al, m, k, n);
    if p != 0 {
      PushUndoesPop(al.pools[k], m, h.blocks[k]);
      assert al1.pools[k := al.pools[k]] == al.pools;
    }
  }

  /** Blocks are aligned to min(class, 64), whether they come from the constructor slab or from a chunk. */
  lemma BlockAlignment(al: Allocator, m: Words, h: Holdings, k: nat, a: nat)
    requires AllocatorOk(al, m, h) && k < NUM_CLASSES && a in Blocks(al.pools[k])
    ensures a % (if SIZE_CLASSES[k] < 64 then SIZE_CLASSES[k] else 64) == 0 && a % 16 == 0
  {
    var p := al.pools[k];
    var i := HomeOf(p, a);
    var r, g := p.regions[i], Granule(ClassSize(k));
    GranuleFacts(k);
    if i > 0 {
      MultipleOfMultiple(r.base, 64, g);
    }
    BlocksAligned(r.base, r.count, p.size, g, a);
    MultipleOfMultiple(a, g, 16);
  }

  lemma MultipleOfMultiple(x: nat, big: nat, g: nat)
    requires g > 0 && big > 0 && x % big == 0 && big % g == 0
    ensures x % g == 0
  {
    var q, r := x / big, big / g;
    assert x == big * q && big == g * r;
    assert g * (r * q) == (g * r) * q;
    MultipleMod(g, r * q);
  }
}
