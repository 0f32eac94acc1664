/** One thread's allocator: seven pools, an arena and statistics, over the shared memory. */
module Allocators {
  import opened FreeList
  import opened Bits
  import opened SizeClasses
  import opened Pools
  import opened Arenas
  import opened StatsModel

  datatype Allocator = Allocator(pools: seq<Pool>, arena: Arena, stats: Stats)

  /** The blocks of each pool that are handed out, and the arena ranges handed out. */
  datatype Holdings = Holdings(blocks: seq<set<nat>>, ranges: seq<Range>)

  const NOTHING_HELD := Holdings([{}, {}, {}, {}, {}, {}, {}], [])
  const ARENA_CAPACITY: nat := 4194304

  /** What `classify` answers for a pointer. */
  datatype Origin = NotOurs | FromArena | FromPool(k: nat)

  // ---------------------------------------------------------------------------
  // Operations

  /** Seven pools, one a class. */
  predicate Sized(al: Allocator) {
    |al.pools| == NUM_CLASSES && forall k :: 0 <= k < NUM_CLASSES ==> al.pools[k].size == ClassSize(k)
  }

  function WithPool(al: Allocator, k: nat, p: Pool): Allocator
    requires k < |al.pools|
  {
    al.(pools := al.pools[k := p])
  }

  /** Pops from pool `k` and records the allocation of `n` bytes; null leaves all unchanged. */
  function PopFrom(al: Allocator, m: Words, k: nat, n: nat): (Allocator, nat)
    requires k < |al.pools| == NUM_CLASSES
  {
    var (p, a) := Pop(al.pools[k], m);
    if a == 0 then (al, 0)
    else (WithPool(al, k, p).(stats := RecordAlloc(al.stats, n, ClassSize(k))), a)
  }

  /** Links the body of a fresh chunk into pool `k`, as many blocks as a refill takes. */
  function Refill(al: Allocator, m: Words, k: nat, body: nat): (Allocator, Words)
    requires k < |al.pools| == NUM_CLASSES
  {
    var (p, m') := Link(al.pools[k], m, body, RefillCount(k));
    (WithPool(al, k, p), m')
  }

  function FromBump(al: Allocator, n: nat, align: nat): (Allocator, nat)
    requires 0 < align <= WORD_MOD
  {
    var (ar, p) := Grant(al.arena, n, align);
    if p == 0 then (al.(arena := ar), 0)
    else (al.(arena := ar, stats := RecordAlloc(al.stats, n, Wrap(ar.used - al.arena.used))), p)
  }

  /** Memory after the central heap has written the header of a chunk. */
  function HeaderWritten(m: Words, base: nat, size: nat): Words {
    m[base := size][base + WORD_BYTES := size]
  }

  /** `allocate(n)` where the central heap, if it is asked, answers `body` (0: no chunk to be had). */
  function Allocate(al: Allocator, m: Words, n: nat, body: nat): (Allocator, Words, nat)
    requires |al.pools| == NUM_CLASSES
  {
    if n > MAX_SMALL then
      var (al', p) := FromBump(al, n, MAX_ALIGN); (al', m, p)
    else
      FitIsTight(n);
      var k := ClassIndex(n);
      var (al1, p) := PopFrom(al, m, k, n);
      if p != 0 || body < HEADER_BYTES then (al1, m, p)
      else
        var (al2, m2) := Refill(al, HeaderWritten(m, body - HEADER_BYTES, ClassSize(k)), k, body);
        var (al3, q) := PopFrom(al2, m2, k, n);
        (al3, m2, q)
  }

  /** Pushes the block `a` back onto pool `k`, recording a free of `n` requested bytes. */
  function PushTo(al: Allocator, m: Words, k: nat, a: nat, n: nat): (Allocator, Words)
    requires k < |al.pools| == NUM_CLASSES
  {
    var (p, m') := Push(al.pools[k], m, a);
    (WithPool(al, k, p).(stats := RecordFree(al.stats, n, ClassSize(k))), m')
  }

  function Deallocate(al: Allocator, m: Words, p: nat, n: nat): (Allocator, Words)
    requires |al.pools| == NUM_CLASSES
  {
    if n > MAX_SMALL then (al, m)
    else FitIsTight(n); PushTo(al, m, ClassIndex(n), p, n)
  }

  /** Like Deallocate for a pointer anywhere inside the block; `n` only selects the pool. */
  function DeallocateContaining(al: Allocator, m: Words, p: nat, n: nat): (Allocator, Words)
    requires Sized(al)
  {
    if n > MAX_SMALL then (al, m)
    else FitIsTight(n); PushTo(al, m, ClassIndex(n), ContainingBlock(al.pools[ClassIndex(n)], p), n)
  }

  /** The fold over the pools: later hits overwrite earlier ones. */
  function LastHit(pools: seq<Pool>, a: nat, k: nat): (r: nat)
    requires k <= |pools|
    ensures r <= k
  {
    if k == 0 then 0
    else if Contains(pools[k - 1], a) then k
    else LastHit(pools, a, k - 1)
  }

  function Classify(al: Allocator, a: nat): Origin {
    if a == 0 then NotOurs
    else
      var hit := LastHit(al.pools, a, |al.pools|);
      if hit > 0 then FromPool(hit - 1)
      else if ArenaContains(al.arena, a) then FromArena
      else NotOurs
  }

  // ---------------------------------------------------------------------------
  // Validity

  ghost predicate InArena(ar: Arena, a: nat) {
    ar.base <= a < ar.base + ar.capacity
  }

  /** The byte belongs to one of the allocator's regions. */
  ghost predicate Owns(al: Allocator, a: nat) {
    InArena(al.arena, a) || exists k :: 0 <= k < |al.pools| && Contains(al.pools[k], a)
  }

  /** The standing of one pool of class `k`. */
  ghost predicate ClassOk(p: Pool, k: nat)
    requires k < NUM_CLASSES
  {
    && p.size == ClassSize(k)
    && p.regions != []
    && p.regions[0].count == BLOCKS_PER_SLAB
    && p.regions[0].base % Granule(p.size) == 0
    && forall i :: 1 <= i < |p.regions| ==>
         p.regions[i].base % 64 == 0 && p.regions[i].count == RefillCount(k)
  }

  ghost predicate PoolsOk(pools: seq<Pool>, m: Words, blocks: seq<set<nat>>) {
    && |pools| == |blocks| <= NUM_CLASSES
    && (forall k :: 0 <= k < |pools| ==> ClassOk(pools[k], k) && PoolOk(pools[k], m, blocks[k]))
    && (forall j, k, a :: 0 <= j < k < |pools| && Contains(pools[j], a) ==> !Contains(pools[k], a))
  }

  ghost predicate AllocatorOk(al: Allocator, m: Words, h: Holdings) {
    && |al.pools| == NUM_CLASSES
    && PoolsOk(al.pools, m, h.blocks)
    && RangesOk(al.arena, h.ranges)
    && (forall k, a :: 0 <= k < NUM_CLASSES && Contains(al.pools[k], a) ==> !InArena(al.arena, a))
  }

  ghost function Take(h: Holdings, k: nat, a: nat): Holdings
    requires k < |h.blocks|
  {
    h.(blocks := h.blocks[k := h.blocks[k] + {a}])
  }

  ghost function Drop(h: Holdings, k: nat, a: nat): Holdings
    requires k < |h.blocks|
  {
    h.(blocks := h.blocks[k := h.blocks[k] - {a}])
  }

  // ---------------------------------------------------------------------------
  // Preservation

  /** Replacing pool `k` by a pool in good standing that may also cover bytes nobody owned,
      with memory changed nowhere else in the allocator, keeps the allocator. */
  lemma SwapPool(al: Allocator, m: Words, h: Holdings, k: nat, p: Pool, m': Words, live: set<nat>)
    requires AllocatorOk(al, m, h) && k < NUM_CLASSES
    requires ClassOk(p, k) && PoolOk(p, m', live)
    requires forall a :: Contains(p, a) ==> Contains(al.pools[k], a) || !Owns(al, a)
    requires forall a :: Owns(al, a) && !Contains(al.pools[k], a) && a in m ==> a in m' && m'[a] == m[a]
    ensures AllocatorOk(WithPool(al, k, p), m', h.(blocks := h.blocks[k := live]))
  {
    var al' := WithPool(al, k, p);
    forall j | 0 <= j < NUM_CLASSES && j != k
      ensures PoolOk(al.pools[j], m', h.blocks[j])
    {
      SwapSpares(al, m, h, k, j, m');
    }
    forall i, j, a | 0 <= i < j < NUM_CLASSES && Contains(al'.pools[i], a)
      ensures !Contains(al'.pools[j], a)
    {
      if i != k {
        assert Contains(al.pools[i], a) && Owns(al, a);
      } else if Contains(al.pools[j], a) {
        assert Owns(al, a);
      }
    }
    forall j, a | 0 <= j < NUM_CLASSES && Contains(al'.pools[j], a)
      ensures !InArena(al.arena, a)
    {
      assert Contains(al.pools[j], a) || !Owns(al, a);
    }
  }

  lemma SwapSpares(al: Allocator, m: Words, h: Holdings, k: nat, j: nat, m': Words)
    requires AllocatorOk(al, m, h) && k < NUM_CLASSES && j < NUM_CLASSES && j != k
    requires forall a :: Owns(al, a) && !Contains(al.pools[k], a) && a in m ==> a in m' && m'[a] == m[a]
    ensures PoolOk(al.pools[j], m', h.blocks[j])
  {
    forall a | a in Blocks(al.pools[j])
      ensures Owns(al, a) && !Contains(al.pools[k], a)
    {
      BlockContained(al.pools[j], a, a);
    }
    FrameKeeps(al.pools[j], m, m', h.blocks[j]);
  }

  /** Swapping in a pool over the same bytes changes nobody's ownership. */
  lemma SwapOwns(al: Allocator, k: nat, p: Pool)
    requires k < |al.pools| && forall a :: Contains(p, a) <==> Contains(al.pools[k], a)
    ensures forall a :: Owns(WithPool(al, k, p), a) <==> Owns(al, a)
  {
    var al' := WithPool(al, k, p);
    assert forall j, a :: 0 <= j < |al.pools| ==> (Contains(al'.pools[j], a) <==> Contains(al.pools[j], a));
  }

  lemma PopFromKeeps(al: Allocator, m: Words, h: Holdings, k: nat, n: nat)
    requires AllocatorOk(al, m, h) && k < NUM_CLASSES
    ensures var (al', a) := PopFrom(al, m, k, n);
            && (a == 0 <==> h.blocks[k] == Blocks(al.pools[k]))
            && (a == 0 ==> al' == al)
            && (a != 0 ==> a in Blocks(al.pools[k]) - h.blocks[k] && AllocatorOk(al', m, Take(h, k, a)))
            && (forall x :: Owns(al', x) <==> Owns(al, x))
  {
    var (p, a) := Pop(al.pools[k], m);
    PopKeeps(al.pools[k], m, h.blocks[k]);
    assert forall x :: Contains(p, x) <==> Contains(al.pools[k], x);
    SwapOwns(al, k, p);
    if a != 0 {
      SwapPool(al, m, h, k, p, m, h.blocks[k] + {a});
    }
  }

  lemma PushToKeeps(al: Allocator, m: Words, h: Holdings, k: nat, a: nat, n: nat)
    requires AllocatorOk(al, m, h) && k < NUM_CLASSES && a in h.blocks[k]
    ensures var (al', m') := PushTo(al, m, k, a, n);
            AllocatorOk(al', m', Drop(h, k, a)) && (forall x :: Owns(al', x) <==> Owns(al, x))
  {
    var (p, m') := Push(al.pools[k], m, a);
    PushKeeps(al.pools[k], m, h.blocks[k], a);
    assert forall x :: Contains(p, x) <==> Contains(al.pools[k], x);
    SwapOwns(al, k, p);
    BlockContained(al.pools[k], a, a);
    SwapPool(al, m, h, k, p, m', h.blocks[k] - {a});
  }

  /** A refill of one pool of class `k`. */
  lemma RefillPool(p: Pool, m: Words, live: set<nat>, k: nat, body: nat)
    requires k < NUM_CLASSES && ClassOk(p, k) && PoolOk(p, m, live)
    requires body > 0 && body % 64 == 0
    requires forall a :: body <= a < body + (CHUNK_SIZE - HEADER_BYTES) ==> !Contains(p, a)
    ensures var (p', m') := Link(p, m, body, RefillCount(k));
            && ClassOk(p', k) && PoolOk(p', m', live)
            && Blocks(p') == Blocks(p) + BlockSet(body, RefillCount(k), p.size)
            && body in Blocks(p') - live && body !in Blocks(p)
            && TotalBlocks(p') == TotalBlocks(p) + RefillCount(k)
            && (forall a :: Contains(p', a) <==> Contains(p, a) || InRegion(Region(body, RefillCount(k)), p.size, a))
  {
    RefillFits(k);
    var n := RefillCount(k);
    LinkKeeps(p, m, live, body, n);
    assert body in BlockSet(body, n, p.size);
    forall a
      ensures Contains(Link(p, m, body, n).0, a) <==> Contains(p, a) || InRegion(Region(body, n), p.size, a)
    {
      LinkContains(p, m, body, n, a);
    }
  }

  /** Linking a chunk body whose bytes nobody in this allocator owns. */
  lemma RefillKeeps(al: Allocator, m: Words, h: Holdings, k: nat, body: nat)
    requires AllocatorOk(al, m, h) && k < NUM_CLASSES
    requires body > 0 && body % 64 == 0
    requires forall a :: body <= a < body + (CHUNK_SIZE - HEADER_BYTES) ==> !Owns(al, a)
    ensures var (al', m') := Refill(al, m, k, body);
            && AllocatorOk(al', m', h)
            && Blocks(al'.pools[k]) == Blocks(al.pools[k]) + BlockSet(body, RefillCount(k), ClassSize(k))
            && body in Blocks(al'.pools[k]) - h.blocks[k]
            && TotalBlocks(al'.pools[k]) == TotalBlocks(al.pools[k]) + RefillCount(k)
  {
    RefillFits(k);
    var dry := al.pools[k];
    var (p, m') := Link(dry, m, body, RefillCount(k));
    forall a | body <= a < body + (CHUNK_SIZE - HEADER_BYTES)
      ensures !Contains(dry, a)
    {
      assert !Owns(al, a);
    }
    RefillPool(dry, m, h.blocks[k], k, body);
    forall a | Owns(al, a) && a in m
      ensures a in m' && m'[a] == m[a]
    {
      LinkSpares(al, m, k, body, a);
    }
    SwapPool(al, m, h, k, p, m', h.blocks[k]);
    assert h.(blocks := h.blocks[k := h.blocks[k]]) == h;
  }

  /** Linking unowned bytes changes no word of the allocator. */
  lemma LinkSpares(al: Allocator, m: Words, k: nat, body: nat, a: nat)
    requires k < NUM_CLASSES == |al.pools| && al.pools[k].size == ClassSize(k)
    requires forall x :: body <= x < body + (CHUNK_SIZE - HEADER_BYTES) ==> !Owns(al, x)
    requires Owns(al, a) && a in m
    ensures var m' := Refill(al, m, k, body).1; a in m' && m'[a] == m[a]
  {
    RefillFits(k);
    if a in BlockSet(body, RefillCount(k), ClassSize(k)) {
      BlockInside(body, RefillCount(k), ClassSize(k), a);
    }
    LinkFrame(m, body, RefillCount(k), ClassSize(k), al.pools[k].head, a);
  }

  /** The bytes owned after a refill. */
  lemma RefillOwns(al: Allocator, m: Words, k: nat, body: nat)
    requires k < NUM_CLASSES == |al.pools| && al.pools[k].size == ClassSize(k)
    ensures forall x: nat :: Owns(Refill(al, m, k, body).0, x)
                   <==> Owns(al, x) || body <= x < body + Span(RefillCount(k), ClassSize(k))
  {
    var al' := Refill(al, m, k, body).0;
    forall x: nat
      ensures Owns(al', x) <==> Owns(al, x) || body <= x < body + Span(RefillCount(k), ClassSize(k))
    {
      LinkContains(al.pools[k], m, body, RefillCount(k), x);
      assert forall j :: 0 <= j < NUM_CLASSES && j != k ==> al'.pools[j] == al.pools[j];
      assert Contains(al'.pools[k], x) ==> Owns(al', x);
    }
  }

  /** The next ranges after one bump request. */
  ghost function TakeRange(al: Allocator, h: Holdings, n: nat, align: nat): Holdings
    requires 0 < align <= WORD_MOD
  {
    h.(ranges := Granted(al.arena, h.ranges, n, align))
  }

  lemma SwapArena(al: Allocator, m: Words, h: Holdings, al': Allocator, rs: seq<Range>)
    requires AllocatorOk(al, m, h) && al'.pools == al.pools
    requires RangesOk(al'.arena, rs)
    requires al'.arena.base == al.arena.base && al'.arena.capacity == al.arena.capacity
    ensures AllocatorOk(al', m, h.(ranges := rs))
    ensures forall x :: Owns(al', x) <==> Owns(al, x)
  {
    assert PoolsOk(al'.pools, m, h.blocks);
    forall k, a | 0 <= k < NUM_CLASSES && Contains(al'.pools[k], a)
      ensures !InArena(al'.arena, a)
    {
      assert !InArena(al.arena, a);
    }
  }

  lemma FromBumpKeeps(al: Allocator, m: Words, h: Holdings, n: nat, align: nat)
    requires AllocatorOk(al, m, h) && n < WORD_MOD && IsPow2(align)
    requires align > 0 && !CheckWraps(al.arena, n, align)
    ensures var (al', p) := FromBump(al, n, align);
            && AllocatorOk(al', m, TakeRange(al, h, n, align))
            && (forall x :: Owns(al', x) <==> Owns(al, x))
            && al'.pools == al.pools
            && al.arena.used <= al'.arena.used
            && (p == 0 ==> al' == al)
            && (p != 0 ==> p % align == 0 && al'.stats == RecordAlloc(al.stats, n, al'.arena.used - al.arena.used))
  {
    GrantKeeps(al.arena, h.ranges, n, align);
    var (ar, p) := Grant(al.arena, n, align);
    var rs := Granted(al.arena, h.ranges, n, align);
    assert RangesOk(ar, rs) && ar.base == al.arena.base && ar.capacity == al.arena.capacity;
    assert Wrap(ar.used - al.arena.used) == ar.used - al.arena.used;
    SwapArena(al, m, h, FromBump(al, n, align).0, rs);
  }

  /** What is left of the invariant when `allocate` returns: null and nothing changed, or one
      more block or range held.  Null for a small request means that every block of the class
      was out and no chunk was to be had. */
  lemma AllocateKeeps(al: Allocator, m: Words, h: Holdings, n: nat, body: nat)
    requires AllocatorOk(al, m, h) && n < WORD_MOD && IsPow2(MAX_ALIGN)
    requires n > MAX_SMALL ==> !CheckWraps(al.arena, n, MAX_ALIGN)
    requires body >= HEADER_BYTES ==>
      && body % 64 == 0
      && forall a :: body - HEADER_BYTES <= a < body + (CHUNK_SIZE - HEADER_BYTES) ==> !Owns(al, a)
    ensures var (al', m', p) := Allocate(al, m, n, body);
            && |al'.pools| == NUM_CLASSES
            && (p == 0 ==> al' == al && m' == m)
            && (p == 0 && n <= MAX_SMALL ==>
                  && ClassIndex(n) < NUM_CLASSES && body < HEADER_BYTES
                  && h.blocks[ClassIndex(n)] == Blocks(al.pools[ClassIndex(n)]))
            && (p != 0 && n <= MAX_SMALL ==>
                  && ClassIndex(n) < NUM_CLASSES
                  && p in Blocks(al'.pools[ClassIndex(n)]) - h.blocks[ClassIndex(n)]
                  && AllocatorOk(al', m', Take(h, ClassIndex(n), p)))
            && (n > MAX_SMALL ==> m' == m && AllocatorOk(al', m', TakeRange(al, h, n, MAX_ALIGN)))
  {
    if n > MAX_SMALL {
      FromBumpKeeps(al, m, h, n, MAX_ALIGN);
    } else {
      FitIsTight(n);
      var k := ClassIndex(n);
      PopFromKeeps(al, m, h, k, n);
      if PopFrom(al, m, k, n).1 == 0 && body >= HEADER_BYTES {
        var m1 := HeaderWritten(m, body - HEADER_BYTES, ClassSize(k));
        UnownedWrites(al, m, m1, h);
        RefillKeeps(al, m1, h, k, body);
        var (al2, m2) := Refill(al, m1, k, body);
        PopFromKeeps(al2, m2, h, k, n);
      }
    }
  }

  /** Writes outside the allocator's regions do not concern it. */
  lemma UnownedWrites(al: Allocator, m: Words, m': Words, h: Holdings)
    requires AllocatorOk(al, m, h)
    requires forall a :: Owns(al, a) && a in m ==> a in m' && m'[a] == m[a]
    ensures AllocatorOk(al, m', h)
  {
    forall k | 0 <= k < NUM_CLASSES
      ensures PoolOk(al.pools[k], m', h.blocks[k])
    {
      hide Blocks, Contains, RangesOk, ListOf;
      assert PoolOk(al.pools[k], m, h.blocks[k]);
      forall a | a in Blocks(al.pools[k])
        ensures Owns(al, a)
      {
        BlockContained(al.pools[k], a, a);
      }
      FrameKeeps(al.pools[k], m, m', h.blocks[k]);
    }
  }
}
