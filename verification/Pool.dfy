/** A pool of equal blocks over the shared memory: its state as a value, its operations, and
    the invariant that ties the in-memory free list to the set of blocks handed out. */
module Pools {
  import opened FreeList

  /** A run of `count` blocks at `base`. */
  datatype Region = Region(base: nat, count: nat)

  /** `regions[0]` is the constructor slab, the others are borrowed chunk bodies, in link order. */
  datatype Pool = Pool(size: nat, regions: seq<Region>, head: nat)

  const WORD_BYTES: nat := 8

  predicate InRegion(r: Region, size: nat, a: nat) {
    r.base <= a < r.base + Span(r.count, size)
  }

  /** The byte `a` lies inside a region the pool manages. */
  predicate Contains(p: Pool, a: nat) {
    exists i :: 0 <= i < |p.regions| && InRegion(p.regions[i], p.size, a)
  }

  /** The block starts of the first `n` regions. */
  ghost function RegionBlocks(rs: seq<Region>, size: nat, n: nat): set<nat>
    requires n <= |rs|
  {
    if n == 0 then {}
    else RegionBlocks(rs, size, n - 1) + BlockSet(rs[n - 1].base, rs[n - 1].count, size)
  }

  /** Every block start of the pool, free or handed out. */
  ghost function Blocks(p: Pool): set<nat> {
    RegionBlocks(p.regions, p.size, |p.regions|)
  }

  function SumCounts(rs: seq<Region>, n: nat): nat
    requires n <= |rs|
  {
    if n == 0 then 0 else SumCounts(rs, n - 1) + rs[n - 1].count
  }

  /** The number of blocks the pool manages. */
  function TotalBlocks(p: Pool): nat {
    SumCounts(p.regions, |p.regions|)
  }

  ghost predicate RegionsDisjoint(rs: seq<Region>, size: nat) {
    forall i, j, a :: 0 <= i < j < |rs| && InRegion(rs[i], size, a) ==> !InRegion(rs[j], size, a)
  }

  ghost predicate ShapeOk(p: Pool) {
    && p.size >= WORD_BYTES
    && |p.regions| > 0
    && (forall i :: 0 <= i < |p.regions| ==> p.regions[i].base > 0)
    && RegionsDisjoint(p.regions, p.size)
  }

  /** `live` are blocks of the pool, and the list from `head` is exactly the other blocks. */
  ghost predicate PoolOk(p: Pool, m: Words, live: set<nat>) {
    && ShapeOk(p)
    && live <= Blocks(p)
    && ListOf(m, p.head, Blocks(p) - live)
  }

  // ---------------------------------------------------------------------------
  // Operations

  /** A fresh pool over one slab, every block linked in address order. */
  function NewPool(slab: nat, n: nat, size: nat): Pool {
    Pool(size, [Region(slab, n)], slab)
  }

  /** The list head leaves the list; null when the pool is exhausted. */
  function Pop(p: Pool, m: Words): (Pool, nat) {
    if p.head == 0 then (p, 0) else (p.(head := Load(m, p.head)), p.head)
  }

  function Push(p: Pool, m: Words, a: nat): (Pool, Words) {
    (p.(head := a), m[a := p.head])
  }

  function Link(p: Pool, m: Words, base: nat, n: nat): (Pool, Words) {
    (p.(head := base, regions := p.regions + [Region(base, n)]), LinkBlocks(m, base, n, p.size, p.head))
  }

  /** Index of the first region that contains the byte, scanning in order. */
  function FirstHit(p: Pool, a: nat, i: nat): (j: nat)
    requires i <= |p.regions|
    ensures i <= j <= |p.regions|
    ensures j < |p.regions| ==> InRegion(p.regions[j], p.size, a)
    ensures forall k :: i <= k < j ==> !InRegion(p.regions[k], p.size, a)
    decreases |p.regions| - i
  {
    if i == |p.regions| || InRegion(p.regions[i], p.size, a) then i else FirstHit(p, a, i + 1)
  }

  /** The start of the block containing the byte, by the first region hit; null if there is none. */
  function ContainingBlock(p: Pool, a: nat): nat
    requires p.size > 0
  {
    var j := FirstHit(p, a, 0);
    if j == |p.regions| then 0 else BlockStart(p.regions[j].base, p.size, a)
  }

  // ---------------------------------------------------------------------------
  // Blocks and bytes

  lemma {:induction false} InRegionBlocks(rs: seq<Region>, size: nat, n: nat, a: nat)
    requires n <= |rs|
    ensures a in RegionBlocks(rs, size, n)
       <==> exists i :: 0 <= i < n && a in BlockSet(rs[i].base, rs[i].count, size)
  {
    if n > 0 {
      InRegionBlocks(rs, size, n - 1, a);
    }
  }

  lemma {:induction false} PrefixRegions(rs: seq<Region>, more: seq<Region>, size: nat, n: nat)
    requires n <= |rs|
    ensures RegionBlocks(rs + more, size, n) == RegionBlocks(rs, size, n)
    ensures SumCounts(rs + more, n) == SumCounts(rs, n)
  {
    if n > 0 {
      PrefixRegions(rs, more, size, n - 1);
    }
  }

  /** The region a block lies in. */
  lemma HomeOf(p: Pool, a: nat) returns (i: nat)
    requires a in Blocks(p)
    ensures i < |p.regions| && a in BlockSet(p.regions[i].base, p.regions[i].count, p.size)
  {
    InRegionBlocks(p.regions, p.size, |p.regions|, a);
    i :| 0 <= i < |p.regions| && a in BlockSet(p.regions[i].base, p.regions[i].count, p.size);
  }

  lemma IsBlock(p: Pool, i: nat, a: nat)
    requires i < |p.regions| && a in BlockSet(p.regions[i].base, p.regions[i].count, p.size)
    ensures a in Blocks(p)
  {
    InRegionBlocks(p.regions, p.size, |p.regions|, a);
  }

  /** Every byte of a block is a byte the pool contains, and blocks are not at null. */
  lemma BlockContained(p: Pool, a: nat, x: nat)
    requires ShapeOk(p) && a in Blocks(p) && a <= x < a + p.size
    ensures Contains(p, x) && a > 0
  {
    var i := HomeOf(p, a);
    BlockInside(p.regions[i].base, p.regions[i].count, p.size, a);
    assert InRegion(p.regions[i], p.size, x);
  }

  /** Two blocks of a pool never overlap. */
  lemma PoolBlocksApart(p: Pool, x: nat, y: nat)
    requires ShapeOk(p) && x in Blocks(p) && y in Blocks(p) && x < y
    ensures x + p.size <= y
  {
    var i := HomeOf(p, x);
    var j := HomeOf(p, y);
    var rx, ry := p.regions[i], p.regions[j];
    BlockInside(rx.base, rx.count, p.size, x);
    BlockInside(ry.base, ry.count, p.size, y);
    if i == j {
      BlocksApart(rx.base, rx.count, p.size, x, y);
    } else {
      assert InRegion(ry, p.size, y);
      assert !InRegion(rx, p.size, y);
    }
  }

  /** Interior pointers: the first region hit is the only one, and rounding down in it gives
      the one block whose extent holds the byte. */
  lemma ContainingBlockIs(p: Pool, a: nat, x: nat)
    requires ShapeOk(p) && a in Blocks(p) && a <= x < a + p.size
    ensures ContainingBlock(p, x) == a
  {
    BlockContained(p, a, x);
    var j := FirstHit(p, x, 0);
    var r := p.regions[j];
    BlockStartIsBlock(r.base, r.count, p.size, x);
    var b := BlockStart(r.base, p.size, x);
    IsBlock(p, j, b);
    if a < b {
      PoolBlocksApart(p, a, b);
    } else if b < a {
      PoolBlocksApart(p, b, a);
    }
  }

  /** A contained byte is in the extent of exactly the block that ContainingBlock computes. */
  lemma ContainedByteHasBlock(p: Pool, x: nat)
    requires ShapeOk(p) && Contains(p, x)
    ensures ContainingBlock(p, x) in Blocks(p)
    ensures ContainingBlock(p, x) <= x < ContainingBlock(p, x) + p.size
  {
    var j := FirstHit(p, x, 0);
    var r := p.regions[j];
    BlockStartIsBlock(r.base, r.count, p.size, x);
    IsBlock(p, j, BlockStart(r.base, p.size, x));
  }

  lemma {:induction false} BlocksCount(rs: seq<Region>, size: nat, n: nat)
    requires size > 0 && RegionsDisjoint(rs, size) && n <= |rs|
    ensures |RegionBlocks(rs, size, n)| == SumCounts(rs, n)
  {
    if n > 0 {
      BlocksCount(rs, size, n - 1);
      BlockCount(rs[n - 1].base, rs[n - 1].count, size);
      RegionAddsBlocks(rs, size, n);
    }
  }

  lemma RegionAddsBlocks(rs: seq<Region>, size: nat, n: nat)
    requires size > 0 && RegionsDisjoint(rs, size) && 0 < n <= |rs|
    ensures RegionBlocks(rs, size, n - 1) !! BlockSet(rs[n - 1].base, rs[n - 1].count, size)
  {
    var r := rs[n - 1];
    forall a | a in BlockSet(r.base, r.count, size)
      ensures a !in RegionBlocks(rs, size, n - 1)
    {
      OtherRegion(rs, size, n - 1, a);
    }
  }

  lemma OtherRegion(rs: seq<Region>, size: nat, n: nat, a: nat)
    requires size > 0 && RegionsDisjoint(rs, size) && n < |rs|
    requires a in BlockSet(rs[n].base, rs[n].count, size)
    ensures a !in RegionBlocks(rs, size, n)
  {
    hide RegionBlocks, BlockSet;
    BlockInside(rs[n].base, rs[n].count, size, a);
    InRegionBlocks(rs, size, n, a);
    assert InRegion(rs[n], size, a);
    if i :| 0 <= i < n && a in BlockSet(rs[i].base, rs[i].count, size) {
      assert !InRegion(rs[i], size, a);
      BlockInside(rs[i].base, rs[i].count, size, a);
    }
  }

  // ---------------------------------------------------------------------------
  // What every operation keeps

  /** A pool survives any change of memory outside its free blocks: clients may write
      whatever they like into live blocks, and others into what is theirs. */
  lemma FrameKeeps(p: Pool, m: Words, m': Words, live: set<nat>)
    requires PoolOk(p, m, live) && Agree(m, m', Blocks(p) - live)
    ensures PoolOk(p, m', live)
  {
    ListFrame(m, m', p.head, Blocks(p) - live);
  }

  lemma NewKeeps(m: Words, slab: nat, n: nat, size: nat)
    requires slab > 0 && n > 0 && size >= WORD_BYTES
    ensures PoolOk(NewPool(slab, n, size), LinkBlocks(m, slab, n, size, 0), {})
    ensures Blocks(NewPool(slab, n, size)) == BlockSet(slab, n, size)
  {
    var p := NewPool(slab, n, size);
    LinkedRun(m, slab, n, size, 0, {});
    assert RegionBlocks(p.regions, size, 1) == RegionBlocks(p.regions, size, 0) + BlockSet(slab, n, size);
    assert BlockSet(slab, n, size) + {} == Blocks(p) - {};
  }

  /** Popping hands out a managed block that was not live; null comes back exactly when every
      block is live. */
  lemma PopKeeps(p: Pool, m: Words, live: set<nat>)
    requires PoolOk(p, m, live)
    ensures var (p', a) := Pop(p, m);
            && Blocks(p') == Blocks(p)
            && (a == 0 <==> live == Blocks(p))
            && (a == 0 ==> p' == p)
            && (a != 0 ==> a in Blocks(p) - live && a in m && PoolOk(p', m, live + {a}))
  {
    var free := Blocks(p) - live;
    if p.head != 0 {
      assert free - {p.head} == Blocks(p) - (live + {p.head});
    } else {
      assert forall a :: a in Blocks(p) ==> a !in free ==> a in live;
    }
  }

  lemma PushKeeps(p: Pool, m: Words, live: set<nat>, a: nat)
    requires PoolOk(p, m, live) && a in live
    ensures var (p', m') := Push(p, m, a);
            Blocks(p') == Blocks(p) && PoolOk(p', m', live - {a})
  {
    var (p', m') := Push(p, m, a);
    BlockContained(p, a, a);
    var free := Blocks(p) - live;
    ListFrame(m, m', p.head, free);
    assert Blocks(p) - (live - {a}) == free + {a};
    assert (free + {a}) - {a} == free;
  }

  /** A list that is followed in a memory changed at one of its own blocks still meets that block. */
  lemma {:induction false} StillMeets(m: Words, h: nat, s: set<nat>, a: nat, v: nat, ys: set<nat>)
    requires ListOf(m, h, s) && a in s && ListOf(m[a := v], h, ys)
    ensures a in ys
    decreases s
  {
    if h != a {
      StillMeets(m, m[h], s - {h}, a, v, ys - {h});
    }
  }

  /** Pushing a managed block keeps the pool in order if and only if the block was live.  A block that
      is free already closes a ring: whatever the list is said to hold, it never ends. */
  lemma PushIff(p: Pool, m: Words, live: set<nat>, a: nat)
    requires PoolOk(p, m, live) && a in Blocks(p)
    ensures var (p', m') := Push(p, m, a);
            && (PoolOk(p', m', live - {a}) <==> a in live)
            && (a !in live ==> forall xs :: !ListOf(m', a, xs))
  {
    var (p', m') := Push(p, m, a);
    if a in live {
      PushKeeps(p, m, live, a);
    } else {
      BlockContained(p, a, a);
      forall xs
        ensures !ListOf(m', a, xs)
      {
        if ListOf(m', a, xs) {
          StillMeets(m, p.head, Blocks(p) - live, a, p.head, xs - {a});
        }
      }
    }
  }

  /** Pushing a popped block back restores head and blocks; memory changes at most in the
      link word of that block. */
  lemma PushUndoesPop(p: Pool, m: Words, live: set<nat>)
    requires PoolOk(p, m, live) && p.head != 0
    ensures var (p1, a) := Pop(p, m);
            Push(p1, m, a) == (p, m)
  {
    assert m[p.head := m[p.head]] == m;
  }

  lemma PopUndoesPush(p: Pool, m: Words, a: nat)
    requires a != 0
    ensures var (p1, m1) := Push(p, m, a);
            Pop(p1, m1) == (p, a)
  {
  }

  /** The blocks of a run nobody manages are none of the pool's. */
  lemma RunApart(p: Pool, base: nat, n: nat)
    requires ShapeOk(p)
    requires forall a :: InRegion(Region(base, n), p.size, a) ==> !Contains(p, a)
    ensures Blocks(p) !! BlockSet(base, n, p.size)
  {
    hide Blocks, BlockSet, Contains;
    forall a | a in BlockSet(base, n, p.size)
      ensures a !in Blocks(p)
    {
      BlockInside(base, n, p.size, a);
      assert InRegion(Region(base, n), p.size, a);
      if a in Blocks(p) {
        BlockContained(p, a, a);
      }
    }
  }

  lemma NewRegionApart(p: Pool, r: Region)
    requires ShapeOk(p)
    requires forall a :: InRegion(r, p.size, a) ==> !Contains(p, a)
    ensures RegionsDisjoint(p.regions + [r], p.size)
  {
    hide InRegion;
    var rs := p.regions + [r];
    forall i, j, a | 0 <= i < j < |rs| && InRegion(rs[i], p.size, a)
      ensures !InRegion(rs[j], p.size, a)
    {
      assert rs[i] == p.regions[i];
      assert Contains(p, a);
    }
  }

  lemma LinkBlocksOf(p: Pool, base: nat, n: nat)
    ensures RegionBlocks(p.regions + [Region(base, n)], p.size, |p.regions| + 1)
            == Blocks(p) + BlockSet(base, n, p.size)
    ensures SumCounts(p.regions + [Region(base, n)], |p.regions| + 1) == TotalBlocks(p) + n
  {
    hide BlockSet;
    PrefixRegions(p.regions, [Region(base, n)], p.size, |p.regions|);
  }

  lemma LinkKeeps(p: Pool, m: Words, live: set<nat>, base: nat, n: nat)
    requires PoolOk(p, m, live) && base > 0 && n > 0
    requires forall a :: InRegion(Region(base, n), p.size, a) ==> !Contains(p, a)
    ensures var (p', m') := Link(p, m, base, n);
            && Blocks(p') == Blocks(p) + BlockSet(base, n, p.size)
            && Blocks(p) !! BlockSet(base, n, p.size)
            && PoolOk(p', m', live)
            && TotalBlocks(p') == TotalBlocks(p) + n
  {
    hide RegionBlocks, BlockSet, SumCounts, RegionsDisjoint, Contains, InRegion, ListOf, LinkBlocks;
    var (p', m') := Link(p, m, base, n);
    var run := BlockSet(base, n, p.size);
    RunApart(p, base, n);
    NewRegionApart(p, Region(base, n));
    LinkBlocksOf(p, base, n);
    LinkedRun(m, base, n, p.size, p.head, Blocks(p) - live);
    assert run + (Blocks(p) - live) == Blocks(p') - live;
  }

  lemma LinkContains(p: Pool, m: Words, base: nat, n: nat, a: nat)
    ensures Contains(Link(p, m, base, n).0, a) <==> Contains(p, a) || InRegion(Region(base, n), p.size, a)
  {
    var p' := Link(p, m, base, n).0;
    if i :| 0 <= i < |p.regions| && InRegion(p.regions[i], p.size, a) {
      assert p'.regions[i] == p.regions[i];
    }
    if InRegion(Region(base, n), p.size, a) {
      assert p'.regions[|p.regions|] == Region(base, n);
    }
  }

  /** Length of the free list: total blocks less live ones. */
  lemma FreeCount(p: Pool, m: Words, live: set<nat>)
    requires PoolOk(p, m, live)
    ensures |Blocks(p) - live| + |live| == |Blocks(p)| == TotalBlocks(p)
  {
    BlocksCount(p.regions, p.size, |p.regions|);
    assert Blocks(p) == (Blocks(p) - live) + live;
  }
}
