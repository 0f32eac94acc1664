/** The counters of an allocator against its free lists: conservation of bytes and counts,
    fragmentation, and how many chunks a pool uses. */
module Books {
  import opened FreeList
  import opened Bits
  import opened SizeClasses
  import opened Pools
  import opened Arenas
  import opened Allocators

  /** Bytes off the free lists of the first `n` pools. */
  function HeldBytes(blocks: seq<set<nat>>, n: nat): nat
    requires n <= |blocks| && n <= NUM_CLASSES
  {
    if n == 0 then 0 else HeldBytes(blocks, n - 1) + Span(|blocks[n - 1]|, ClassSize(n - 1))
  }

  function HeldCount(blocks: seq<set<nat>>, n: nat): nat
    requires n <= |blocks|
  {
    if n == 0 then 0 else HeldCount(blocks, n - 1) + |blocks[n - 1]|
  }

  /** Everything outstanding: pool blocks and the arena up to its cursor. */
  function Outstanding(al: Allocator, h: Holdings): nat
    requires |h.blocks| == NUM_CLASSES
  {
    HeldBytes(h.blocks, |h.blocks|) + al.arena.used
  }

  ghost predicate BooksOk(al: Allocator, h: Holdings) {
    && |h.blocks| == NUM_CLASSES
    && al.stats.live == Outstanding(al, h)
    && al.stats.peak >= al.stats.live
    && al.stats.allocs - al.stats.frees == HeldCount(h.blocks, |h.blocks|) + |h.ranges|
  }

  lemma {:induction false} HeldUpdate(blocks: seq<set<nat>>, n: nat, k: nat, s: set<nat>)
    requires n <= |blocks| && n <= NUM_CLASSES && k < |blocks|
    ensures var blocks' := blocks[k := s];
            if k < n then
              && HeldBytes(blocks', n) + Span(|blocks[k]|, ClassSize(k))
                 == HeldBytes(blocks, n) + Span(|s|, ClassSize(k))
              && HeldCount(blocks', n) + |blocks[k]| == HeldCount(blocks, n) + |s|
            else HeldBytes(blocks', n) == HeldBytes(blocks, n) && HeldCount(blocks', n) == HeldCount(blocks, n)
  {
    if n > 0 {
      HeldUpdate(blocks, n - 1, k, s);
    }
  }

  lemma BooksPop(al: Allocator, m: Words, h: Holdings, k: nat, n: nat)
    requires AllocatorOk(al, m, h) && BooksOk(al, h) && k < NUM_CLASSES
    ensures var (al', a) := PopFrom(al, m, k, n);
            a != 0 ==>
              && BooksOk(al', Take(h, k, a))
              && Outstanding(al', Take(h, k, a)) == Outstanding(al, h) + ClassSize(k)
  {
    hide PoolsOk, RangesOk, Blocks;
    var (al', a) := PopFrom(al, m, k, n);
    PopFromKeeps(al, m, h, k, n);
    HeldUpdate(h.blocks, |h.blocks|, k, h.blocks[k] + {a});
  }

  /** Freeing a held block: the live counter is large enough, so the unsigned subtraction of the
      source never wraps. */
  lemma BooksPush(al: Allocator, m: Words, h: Holdings, k: nat, a: nat, n: nat)
    requires AllocatorOk(al, m, h) && BooksOk(al, h) && k < NUM_CLASSES && a in h.blocks[k]
    ensures al.stats.live >= ClassSize(k)
    ensures var (al', m') := PushTo(al, m, k, a, n);
            BooksOk(al', Drop(h, k, a)) && Outstanding(al', Drop(h, k, a)) == Outstanding(al, h) - ClassSize(k)
  {
    hide PoolsOk, RangesOk;
    var s := h.blocks[k] - {a};
    assert h.blocks[k] == s + {a};
    HeldUpdate(h.blocks, |h.blocks|, k, s);
    assert Span(|s| + 1, ClassSize(k)) == ClassSize(k) + Span(|s|, ClassSize(k));
  }

  lemma BooksRefill(al: Allocator, m: Words, h: Holdings, k: nat, body: nat)
    requires AllocatorOk(al, m, h) && BooksOk(al, h) && k < NUM_CLASSES
    ensures BooksOk(Refill(al, m, k, body).0, h)
  {
  }

  lemma BooksBump(al: Allocator, m: Words, h: Holdings, n: nat, align: nat)
    requires AllocatorOk(al, m, h) && BooksOk(al, h) && n < WORD_MOD && IsPow2(align)
    requires align > 0 && !CheckWraps(al.arena, n, align)
    ensures var al' := FromBump(al, n, align).0; BooksOk(al', TakeRange(al, h, n, align))
  {
    FromBumpKeeps(al, m, h, n, align);
    GrantKeeps(al.arena, h.ranges, n, align);
  }

  /** The counters in terms of what can be observed: total blocks less the length of each
      free list, weighted by class, plus the arena's used bytes. */
  function ObservedBytes(al: Allocator, free: seq<nat>, n: nat): int
    requires |al.pools| == NUM_CLASSES == |free| && n <= NUM_CLASSES
  {
    if n == 0 then al.arena.used
    else ObservedBytes(al, free, n - 1) + ClassSize(n - 1) * (TotalBlocks(al.pools[n - 1]) - free[n - 1])
  }

  ghost function FreeCounts(al: Allocator, h: Holdings): seq<nat>
    requires |al.pools| == NUM_CLASSES == |h.blocks|
  {
    seq(NUM_CLASSES, k requires 0 <= k < NUM_CLASSES => |Blocks(al.pools[k]) - h.blocks[k]|)
  }

  lemma {:induction false} ObservedIsHeld(al: Allocator, m: Words, h: Holdings, n: nat)
    requires AllocatorOk(al, m, h) && n <= NUM_CLASSES
    ensures ObservedBytes(al, FreeCounts(al, h), n) == HeldBytes(h.blocks, n) + al.arena.used
  {
    hide Blocks, RangesOk, Span, PoolOk, Contains, ClassSize, ClassOk, TotalBlocks;
    if n > 0 {
      ObservedIsHeld(al, m, h, n - 1);
      assert FreeCounts(al, h)[n - 1] == |Blocks(al.pools[n - 1]) - h.blocks[n - 1]|;
      PoolBytes(al.pools[n - 1], m, h.blocks[n - 1], ClassSize(n - 1));
    }
  }

  lemma PoolBytes(p: Pool, m: Words, live: set<nat>, size: nat)
    requires PoolOk(p, m, live)
    ensures size * (TotalBlocks(p) - |Blocks(p) - live|) == Span(|live|, size)
  {
    hide PoolOk, Blocks;
    FreeCount(p, m, live);
    SpanIsProduct(|live|, size);
  }

  // ---------------------------------------------------------------------------
  // Chunks follow peak demand

  /** With `peak` the most blocks ever off the list and `live` those off it now. */
  ghost predicate DemandOk(p: Pool, k: nat, live: nat, peak: nat)
    requires k < NUM_CLASSES
  {
    var chunks := |p.regions| - 1;
    && live <= peak
    && chunks >= 0
    && TotalBlocks(p) == BLOCKS_PER_SLAB + chunks * RefillCount(k)
    && peak <= TotalBlocks(p)
    && (chunks >= 1 ==> TotalBlocks(p) - RefillCount(k) < peak)
  }

  /** The bound in the terms of the design: c chunks if and only if the peak is in the c-th band, which
      begins with the 256 blocks of the slab and is as wide as the largest refill. */
  lemma ChunksFromPeak(p: Pool, k: nat, live: nat, peak: nat, c: nat, m: nat)
    requires k < NUM_CLASSES && DemandOk(p, k, live, peak) && LargestRefill(m, SIZE_CLASSES[k])
    ensures |p.regions| - 1 == c <==> peak <= 256 + c * m && (c >= 1 ==> 256 + (c - 1) * m < peak)
  {
    RefillFits(k);
    Bands(m, |p.regions| - 1, c, peak);
  }

  lemma Bands(r: nat, d: nat, c: nat, peak: nat)
    requires r > 0 && peak <= BLOCKS_PER_SLAB + d * r
    requires d >= 1 ==> BLOCKS_PER_SLAB + d * r - r < peak
    ensures d == c <==> peak <= BLOCKS_PER_SLAB + c * r && (c >= 1 ==> BLOCKS_PER_SLAB + (c - 1) * r < peak)
  {
    assert (c - 1) * r == c * r - r;
    if d < c {
      MulMono(r, d, c - 1);
    } else if c < d {
      MulMono(r, c, d - 1);
      assert (d - 1) * r == d * r - r;
    }
  }

  lemma DemandPop(p: Pool, m: Words, k: nat, live: set<nat>, peak: nat)
    requires k < NUM_CLASSES && PoolOk(p, m, live) && DemandOk(p, k, |live|, peak)
    ensures var (p', a) := Pop(p, m);
            a != 0 ==> DemandOk(p', k, |live + {a}|, if |live + {a}| > peak then |live + {a}| else peak)
  {
    PopKeeps(p, m, live);
    FreeCount(p, m, live);
    var a := Pop(p, m).1;
    if a != 0 {
      FreeCount(Pop(p, m).0, m, live + {a});
    }
  }

  /** A refill happens only when every block is out, so the block popped next sets a new peak. */
  lemma DemandRefill(p: Pool, m: Words, k: nat, live: set<nat>, peak: nat, body: nat)
    requires k < NUM_CLASSES && ClassOk(p, k) && PoolOk(p, m, live) && DemandOk(p, k, |live|, peak)
    requires p.head == 0 && body > 0 && body % 64 == 0
    requires forall a :: body <= a < body + (CHUNK_SIZE - HEADER_BYTES) ==> !Contains(p, a)
    ensures var (p1, m1) := Link(p, m, body, RefillCount(k));
            var (p2, a) := Pop(p1, m1);
            a != 0 && DemandOk(p2, k, |live + {a}|, |live + {a}|)
  {
    hide PoolOk, Contains, Blocks, ClassOk, RefillCount, SumCounts;
    var (p1, m1) := Link(p, m, body, RefillCount(k));
    RefillCounts(p, m, live, k, body);
    PopKeeps(p1, m1, live);
    var (p2, a) := Pop(p1, m1);
    var r, c := RefillCount(k), |p.regions| - 1;
    assert |p2.regions| - 1 == c + 1 && TotalBlocks(p2) == TotalBlocks(p1);
    assert (c + 1) * r == c * r + r;
    assert |live + {a}| == |live| + 1;
  }

  lemma RefillCounts(p: Pool, m: Words, live: set<nat>, k: nat, body: nat)
    requires k < NUM_CLASSES && ClassOk(p, k) && PoolOk(p, m, live) && p.head == 0 && body > 0 && body % 64 == 0
    requires forall a :: body <= a < body + (CHUNK_SIZE - HEADER_BYTES) ==> !Contains(p, a)
    ensures var (p1, m1) := Link(p, m, body, RefillCount(k));
            && PoolOk(p1, m1, live) && p1.head != 0 && RefillCount(k) > 0
            && |live| == TotalBlocks(p) && TotalBlocks(p1) == TotalBlocks(p) + RefillCount(k)
  {
    hide Blocks, Contains, RefillCount;
    PopKeeps(p, m, live);
    FreeCount(p, m, live);
    RefillPool(p, m, live, k, body);
    RefillFits(k);
  }
}
