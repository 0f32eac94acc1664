/** Preservation by the steps a thread takes on its own allocator. */
module Steps {
  import opened FreeList
  import opened SizeClasses
  import opened Pools
  import opened Arenas
  import opened Allocators
  import opened Routing
  import opened Machine
  import opened Safety

  // ---------------------------------------------------------------------------
  // Construction of a thread's allocator

  lemma BeginKeeps(s: State, t: nat)
    requires Inv(s) && CanBegin(s, t)
    ensures Inv(DoBegin(s, t))
  {
    var th' := s.threads[t].(phase := Building);
    assert ThreadOk(s.threads[t], s.mem);
    assert LocalStep(s, t, th', s.mem);
    SteppedCore(s, t, th', s.mem);
    SteppedRegistry(s, t, th', s.mem);
  }

  /** A fresh slab becomes one more pool. */
  lemma AddPool(pools: seq<Pool>, m: Words, blocks: seq<set<nat>>, slab: nat)
    requires PoolsOk(pools, m, blocks) && |pools| < NUM_CLASSES
    requires slab > 0 && slab % ClassSize(|pools|) == 0
    requires forall k, a: nat :: 0 <= k < |pools| && Contains(pools[k], a) ==>
               !(slab <= a < slab + Span(BLOCKS_PER_SLAB, ClassSize(|pools|)))
    ensures var size := ClassSize(|pools|);
            PoolsOk(pools + [NewPool(slab, BLOCKS_PER_SLAB, size)],
                    LinkBlocks(m, slab, BLOCKS_PER_SLAB, size, 0), blocks + [{}])
  {
    hide ListOf, Blocks;
    var n, size := |pools|, ClassSize(|pools|);
    var p, m' := NewPool(slab, BLOCKS_PER_SLAB, size), LinkBlocks(m, slab, BLOCKS_PER_SLAB, size, 0);
    var pools', blocks' := pools + [p], blocks + [{}];
    GranuleFacts(n);
    MultipleOfMultiple(slab, size, Granule(size));
    NewKeeps(m, slab, BLOCKS_PER_SLAB, size);
    NewSpares(pools, m, blocks, slab, size);
    NewContains(slab, BLOCKS_PER_SLAB, size);
    forall k | 0 <= k < |pools'|
      ensures ClassOk(pools'[k], k) && PoolOk(pools'[k], m', blocks'[k])
    {
      if k < n {
        assert ClassOk(pools[k], k) && PoolOk(pools[k], m', blocks[k]);
      }
    }
    assert forall j, k, a :: 0 <= j < k < |pools'| && Contains(pools'[j], a) ==> !Contains(pools'[k], a);
  }

  lemma NewContains(slab: nat, n: nat, size: nat)
    ensures forall a: nat :: Contains(NewPool(slab, n, size), a) <==> slab <= a < slab + Span(n, size)
  {
    var p := NewPool(slab, n, size);
    forall a: nat
      ensures Contains(p, a) <==> slab <= a < slab + Span(n, size)
    {
      assert InRegion(p.regions[0], size, a) <==> slab <= a < slab + Span(n, size);
    }
  }

  lemma NewSpares(pools: seq<Pool>, m: Words, blocks: seq<set<nat>>, slab: nat, size: nat)
    requires PoolsOk(pools, m, blocks) && size > 0
    requires forall k, a: nat :: 0 <= k < |pools| && Contains(pools[k], a) ==>
               !(slab <= a < slab + Span(BLOCKS_PER_SLAB, size))
    ensures PoolsOk(pools, LinkBlocks(m, slab, BLOCKS_PER_SLAB, size, 0), blocks)
  {
    hide PoolsOk, BlockSet, LinkBlocks, Span;
    var m' := LinkBlocks(m, slab, BLOCKS_PER_SLAB, size, 0);
    forall k, a | 0 <= k < |pools| && Contains(pools[k], a) && a in m
      ensures a in m' && m'[a] == m[a]
    {
      if a in BlockSet(slab, BLOCKS_PER_SLAB, size) {
        BlockInside(slab, BLOCKS_PER_SLAB, size, a);
      }
      LinkFrame(m, slab, BLOCKS_PER_SLAB, size, 0, a);
    }
    PoolsFrame(pools, m, m', blocks);
  }

  /** Linking a slab writes only bytes of the slab. */
  lemma SlabWrites(m: Words, slab: nat, n: nat, size: nat, tail: nat, a: nat)
    requires size > 0 && !(slab <= a < slab + Span(n, size)) && a in m
    ensures var m' := LinkBlocks(m, slab, n, size, tail); a in m' && m'[a] == m[a]
  {
    if a in BlockSet(slab, n, size) {
      BlockInside(slab, n, size, a);
    }
    LinkFrame(m, slab, n, size, tail, a);
  }

  lemma UnusedClaimable(s: State, t: nat, a: nat)
    requires Core(s) && Unused(s, a)
    ensures Claimable(s, t, a)
  {
    hide ThreadOk, OwnersApart, ChunksOk, CarvedOk, BlobsOk, StashOk, Owns;
    forall c
      ensures !InHeader(s, c, a)
    {
      assert !InChunk(s, c, a);
    }
    forall u
      ensures !InPending(s, u, a)
    {
      if InPending(s, u, a) {
        PendingInChunk(s, u, a);
      }
    }
    forall o
      ensures !InOrphan(s, o, a)
    {
      assert InOrphan(s, o, a) ==> SomeChunk(s, a);
    }
  }

  lemma PendingInChunk(s: State, u: nat, a: nat)
    requires Core(s) && InPending(s, u, a)
    ensures exists c :: InChunk(s, c, a)
  {
    hide ThreadOk, OwnersApart, ChunksOk, CarvedOk, BlobsOk, StashOk, OrphansOk, Owns;
    var th := s.threads[u];
    var c :| 0 <= c < |s.chunks| && s.chunks[c].base + HEADER_BYTES == th.pending.body;
    assert InChunk(s, c, a);
  }

  lemma BuildPoolKeeps(s: State, t: nat, slab: nat)
    requires Inv(s) && CanBuildPool(s, t, slab)
    requires NotReissued(s, slab, Span(BLOCKS_PER_SLAB, ClassSize(|s.threads[t].al.pools|)))
    ensures Inv(DoBuildPool(s, t, slab))
  {
    var s', th := DoBuildPool(s, t, slab), s.threads[t];
    var th', m' := s'.threads[t], s'.mem;
    BuildPoolLocal(s, t, slab);
    SteppedCore(s, t, th', m');
    BuildPoolOwns(s, t, slab);
    hide Core, LocalStep, Owns;
    forall r | r in s.recorded
      ensures !Owns(th'.al, r)
    {
      assert !ThreadOwns(s, t, r);
    }
    SteppedRegistry(s, t, th', m');
  }

  lemma BuildPoolOwns(s: State, t: nat, slab: nat)
    requires CanBuildPool(s, t, slab)
    ensures var th := s.threads[t];
            forall a: nat :: Owns(DoBuildPool(s, t, slab).threads[t].al, a)
                   <==> Owns(th.al, a) || slab <= a < slab + Span(BLOCKS_PER_SLAB, ClassSize(|th.al.pools|))
  {
    var th := s.threads[t];
    var n, size := |th.al.pools|, ClassSize(|th.al.pools|);
    var al' := DoBuildPool(s, t, slab).threads[t].al;
    NewContains(slab, BLOCKS_PER_SLAB, size);
    hide Contains, NewPool, Span;
    assert al'.pools[n] == NewPool(slab, BLOCKS_PER_SLAB, size);
    assert forall k :: 0 <= k < n ==> al'.pools[k] == th.al.pools[k];
  }

  lemma BuildPoolLocal(s: State, t: nat, slab: nat)
    requires Core(s) && CanBuildPool(s, t, slab)
    ensures var s' := DoBuildPool(s, t, slab);
            LocalStep(s, t, s'.threads[t], s'.mem)
  {
    var s', th := DoBuildPool(s, t, slab), s.threads[t];
    var th', m' := s'.threads[t], s'.mem;
    var size := ClassSize(|th.al.pools|);
    BuildPoolThread(s, t, slab);
    BuildPoolOwns(s, t, slab);
    hide Owns, ThreadOk, Contains, BlobsOk, ChunksOk, PendingsOk, StashOk, OrphansOk, OwnersApart;
    forall a | slab <= a < slab + Span(BLOCKS_PER_SLAB, size)
      ensures Claimable(s, t, a)
    {
      UnusedClaimable(s, t, a);
    }
    forall a | a in s.mem && !Owns(th'.al, a)
      ensures a in m' && m'[a] == s.mem[a]
    {
      SlabWrites(s.mem, slab, BLOCKS_PER_SLAB, size, 0, a);
    }
    BuildPoolCarved(s, t, slab);
  }

  lemma BuildPoolCarved(s: State, t: nat, slab: nat)
    requires Core(s) && CanBuildPool(s, t, slab)
    ensures var al' := DoBuildPool(s, t, slab).threads[t].al; Borrowed(s, al') && HomeApart(s, al')
  {
    hide ThreadOk, ChunksOk, PendingsOk, BlobsOk, StashOk, OrphansOk, OwnersApart, Span, LinkBlocks, HasChunk;
    var al, al' := s.threads[t].al, DoBuildPool(s, t, slab).threads[t].al;
    var n := |al.pools|;
    assert Borrowed(s, al) && HomeApart(s, al);
    assert forall k :: 0 <= k < n ==> al'.pools[k] == al.pools[k];
    forall c, a: nat | InHome(al', a)
      ensures !InChunk(s, c, a)
    {
      assert InHome(al, a) || Unused(s, a);
    }
  }

  lemma BuildPoolThread(s: State, t: nat, slab: nat)
    requires Core(s) && CanBuildPool(s, t, slab)
    ensures var s' := DoBuildPool(s, t, slab); ThreadOk(s'.threads[t], s'.mem) && s'.threads[t].pending == NoChunk
  {
    hide Contains, PoolsOk, NewPool, LinkBlocks, Span, BlobsOk, ChunksOk, CarvedOk, StashOk, OrphansOk, OwnersApart;
    var th := s.threads[t];
    var size := ClassSize(|th.al.pools|);
    assert ThreadOk(th, s.mem);
    forall k, a: nat | 0 <= k < |th.al.pools| && Contains(th.al.pools[k], a)
      ensures !(slab <= a < slab + Span(BLOCKS_PER_SLAB, size))
    {
      assert Owns(th.al, a) && ThreadOwns(s, t, a) && !Unused(s, a);
    }
    AddPool(th.al.pools, s.mem, th.held.blocks, slab);
  }

  lemma BuildArenaLocal(s: State, t: nat, base: nat)
    requires Core(s) && CanBuildArena(s, t, base)
    ensures LocalStep(s, t, DoBuildArena(s, t, base).threads[t], s.mem)
    ensures forall a: nat :: Owns(DoBuildArena(s, t, base).threads[t].al, a)
                   <==> Owns(s.threads[t].al, a) || base <= a < base + ARENA_CAPACITY
  {
    hide Contains;
    var th := s.threads[t];
    var th' := DoBuildArena(s, t, base).threads[t];
    assert ThreadOk(th, s.mem);
    forall a | base <= a < base + ARENA_CAPACITY
      ensures Claimable(s, t, a) && !Owns(th.al, a)
    {
      assert Unused(s, a) && !ThreadOwns(s, t, a);
      UnusedClaimable(s, t, a);
    }
    forall k, a | 0 <= k < NUM_CLASSES && Contains(th.al.pools[k], a)
      ensures !InArena(th'.al.arena, a)
    {
      assert Owns(th.al, a);
    }
    assert th'.held.ranges == [] && th'.al.arena == NewArena(base, ARENA_CAPACITY);
    BuildArenaCarved(s, t, base);
  }

  lemma BuildArenaCarved(s: State, t: nat, base: nat)
    requires Core(s) && CanBuildArena(s, t, base)
    ensures var al' := DoBuildArena(s, t, base).threads[t].al; Borrowed(s, al') && HomeApart(s, al')
  {
    hide ThreadOk, ChunksOk, PendingsOk, BlobsOk, StashOk, OrphansOk, OwnersApart, Span, HasChunk;
    var al, al' := s.threads[t].al, DoBuildArena(s, t, base).threads[t].al;
    assert Borrowed(s, al) && HomeApart(s, al) && al'.pools == al.pools;
    forall c, a: nat | InHome(al', a)
      ensures !InChunk(s, c, a)
    {
      assert InHome(al, a) || Unused(s, a);
    }
  }

  lemma BuildArenaKeeps(s: State, t: nat, base: nat)
    requires Inv(s) && CanBuildArena(s, t, base) && NotReissued(s, base, ARENA_CAPACITY)
    ensures Inv(DoBuildArena(s, t, base))
  {
    hide LocalStep, Owns, ThreadOk;
    var th' := DoBuildArena(s, t, base).threads[t];
    BuildArenaLocal(s, t, base);
    SteppedCore(s, t, th', s.mem);
    forall r | r in s.recorded
      ensures !Owns(th'.al, r)
    {
      assert !ThreadOwns(s, t, r);
    }
    SteppedRegistry(s, t, th', s.mem);
  }

  // ---------------------------------------------------------------------------
  // Allocation and free on the owning thread

  /** A step that leaves ownership alone. */
  lemma SameBytesLocal(s: State, t: nat, th': Thread, m': Words)
    requires Inv(s) && t < |s.threads| && ThreadOk(th', m')
    requires th'.stash == s.threads[t].stash && th'.pending == NoChunk
    requires forall a :: Owns(th'.al, a) <==> Owns(s.threads[t].al, a)
    requires forall a :: a in s.mem && !Owns(s.threads[t].al, a) ==> a in m' && m'[a] == s.mem[a]
    requires Borrowed(s, th'.al) && HomeApart(s, th'.al)
    ensures LocalStep(s, t, th', m')
    ensures Inv(Stepped(s, t, th', m'))
  {
    hide Owns, ThreadOk, PendingsOk, BlobsOk, ChunksOk, StashOk, OrphansOk, OwnersApart;
    assert LocalStep(s, t, th', m');
    SteppedCore(s, t, th', m');
    forall r | r in s.recorded
      ensures !Owns(th'.al, r)
    {
      assert !ThreadOwns(s, t, r);
    }
    SteppedRegistry(s, t, th', m');
  }

  /** The same slabs and borrowed regions, and an arena over the same bytes. */
  ghost predicate SameShape(al: Allocator, al': Allocator) {
    && |al'.pools| == |al.pools|
    && al'.arena.base == al.arena.base && al'.arena.capacity == al.arena.capacity
    && forall k :: 0 <= k < |al.pools| ==>
         al'.pools[k].regions == al.pools[k].regions && al'.pools[k].size == al.pools[k].size
  }

  lemma SameShapeCarved(s: State, t: nat, al: Allocator)
    requires Core(s) && t < |s.threads| && SameShape(s.threads[t].al, al)
    ensures Borrowed(s, al) && HomeApart(s, al)
  {
    hide ThreadOk, ChunksOk, PendingsOk, BlobsOk, StashOk, OrphansOk, OwnersApart, HasChunk, InRegion, InChunk;
    assert CarvedOk(s);
    assert forall a :: InHome(al, a) <==> InHome(s.threads[t].al, a);
  }

  lemma PopBlockKeeps(s: State, t: nat, n: nat)
    requires Inv(s) && CanPop(s, t, n)
    ensures Inv(DoPop(s, t, n))
  {
    var th := s.threads[t];
    var k := ClassIndex(n);
    assert ThreadOk(th, s.mem);
    PopFromKeeps(th.al, s.mem, th.held, k, n);
    var (al, a) := PopFrom(th.al, s.mem, k, n);
    SameShapeCarved(s, t, al);
    SameBytesLocal(s, t, Hand(th, al, k, a), s.mem);
  }

  lemma BumpKeeps(s: State, t: nat, n: nat, align: nat)
    requires Inv(s) && CanBump(s, t, n, align)
    ensures Inv(DoBump(s, t, n, align))
  {
    var th := s.threads[t];
    var th' := DoBump(s, t, n, align).threads[t];
    assert ThreadOk(th, s.mem);
    FromBumpKeeps(th.al, s.mem, th.held, n, align);
    hide FromBump, Core;
    SameShapeCarved(s, t, th'.al);
    SameBytesLocal(s, t, th', s.mem);
  }

  lemma PushKeepsInv(s: State, t: nat, k: nat, a: nat, n: nat)
    requires Inv(s) && Idle(s, t) && k < NUM_CLASSES && a in s.threads[t].held.blocks[k]
    ensures var (al, m) := PushTo(s.threads[t].al, s.mem, k, a, n);
            Inv(Stepped(s, t, s.threads[t].(al := al, held := Drop(s.threads[t].held, k, a)), m))
  {
    hide Inv, Core, AllocatorOk, Owns;
    var th := s.threads[t];
    InvCore(s);
    UpAllocatorOk(s, t);
    PushToKeeps(th.al, s.mem, th.held, k, a, n);
    var (al, m) := PushTo(th.al, s.mem, k, a, n);
    HeldOwned(th.al, s.mem, th.held, k, a);
    SameShapeCarved(s, t, al);
    SameBytesLocal(s, t, th.(al := al, held := Drop(th.held, k, a)), m);
  }

  lemma UpAllocatorOk(s: State, t: nat)
    requires Core(s) && t < |s.threads| && s.threads[t].phase == Up
    ensures AllocatorOk(s.threads[t].al, s.mem, s.threads[t].held)
  {
    hide OwnersApart, ChunksOk, CarvedOk, PendingsOk, BlobsOk, StashOk, OrphansOk, AllocatorOk;
    assert ThreadOk(s.threads[t], s.mem);
  }

  lemma HeldOwned(al: Allocator, m: Words, h: Holdings, k: nat, a: nat)
    requires AllocatorOk(al, m, h) && k < NUM_CLASSES && a in h.blocks[k]
    ensures Owns(al, a)
  {
    assert PoolOk(al.pools[k], m, h.blocks[k]);
    BlockContained(al.pools[k], a, a);
  }

  lemma FreeKeeps(s: State, t: nat, p: nat, n: nat)
    requires Inv(s) && CanFree(s, t, p, n)
    ensures Inv(DoFree(s, t, p, n))
  {
    if n <= MAX_SMALL {
      PushKeepsInv(s, t, ClassIndex(n), p, n);
    }
  }

  // ---------------------------------------------------------------------------
  // Refill: link the acquired chunk, then pop

  lemma PendingBody(s: State, t: nat)
    requires Core(s) && t < |s.threads| && s.threads[t].pending.Acquired?
    ensures var th := s.threads[t];
            && th.pending.k < NUM_CLASSES && th.pending.body > 0 && th.pending.body % 64 == 0
            && HasChunk(s, th.pending.body, ClassSize(th.pending.k))
            && (forall a: nat :: th.pending.body <= a < th.pending.body + BODY_BYTES ==>
                  !Owns(th.al, a) && Claimable(s, t, a) && SomeChunk(s, a))
  {
    hide ThreadOk, BlobsOk, StashOk, OrphansOk, OwnersApart, Owns, CarvedOk;
    var th := s.threads[t];
    assert HasChunk(s, th.pending.body, ClassSize(th.pending.k));
    var c :| 0 <= c < |s.chunks| && s.chunks[c].base + HEADER_BYTES == th.pending.body;
    assert ChunkOk(s, s.chunks[c]);
    ChunkBodyAligned(s.chunks[c].base);
    forall a: nat | th.pending.body <= a < th.pending.body + BODY_BYTES
      ensures !Owns(th.al, a) && Claimable(s, t, a) && SomeChunk(s, a)
    {
      assert InPending(s, t, a) && InChunk(s, c, a);
      assert !ThreadOwns(s, t, a);
      PendingClaimable(s, t, c, a);
    }
  }

  lemma ChunkBodyAligned(base: nat)
    requires base % CHUNK_SIZE == 0
    ensures (base + HEADER_BYTES) % 64 == 0
  {
    MultipleOfMultiple(base, CHUNK_SIZE, 64);
    ModAdd(base, HEADER_BYTES, 64);
  }

  lemma PendingClaimable(s: State, t: nat, c: nat, a: nat)
    requires Core(s) && InPending(s, t, a) && InChunk(s, c, a) && !InHeader(s, c, a)
    ensures Claimable(s, t, a)
  {
    hide ThreadOk, StashOk, OwnersApart, Owns, CarvedOk;
    assert forall d :: InHeader(s, d, a) ==> InChunk(s, d, a);
  }

  lemma LinkChunkLocal(s: State, t: nat)
    requires Inv(s) && CanLink(s, t)
    ensures var s' := DoLink(s, t); LocalStep(s, t, s'.threads[t], s'.mem)
    ensures forall a: nat :: Owns(DoLink(s, t).threads[t].al, a) ==>
              Owns(s.threads[t].al, a) || SomeChunk(s, a)
  {
    hide Owns, Refill, PopFrom, Core, ThreadOk, Inv, RefillCount, Borrowed, HomeApart, Claimable, Span, SomeChunk,
         HasChunk;
    var th := s.threads[t];
    assert Core(s) by { InvCore(s); }
    PendingBody(s, t);
    LinkChunkThread(s, t);
    LinkChunkWrites(s, t);
    RefillFits(th.pending.k);
    var th', m' := DoLink(s, t).threads[t], DoLink(s, t).mem;
    forall a: nat | Owns(th'.al, a)
      ensures Owns(th.al, a) || (Claimable(s, t, a) && SomeChunk(s, a))
    {
      assert Owns(th.al, a) || th.pending.body <= a < th.pending.body + BODY_BYTES;
    }
    forall a | a in s.mem && !Owns(th'.al, a)
      ensures a in m' && m'[a] == s.mem[a]
    {
      assert !Owns(Refill(th.al, s.mem, th.pending.k, th.pending.body).0, a);
    }
  }

  lemma InvCore(s: State)
    requires Inv(s)
    ensures Core(s)
  {
  }

  /** The thread after linking and popping, and the bytes it owns then. */
  lemma LinkChunkThread(s: State, t: nat)
    requires Inv(s) && CanLink(s, t)
    ensures var th := s.threads[t];
            var s' := DoLink(s, t);
            var al1 := Refill(th.al, s.mem, th.pending.k, th.pending.body).0;
            && ThreadOk(s'.threads[t], s'.mem)
            && Borrowed(s, s'.threads[t].al) && HomeApart(s, s'.threads[t].al)
            && (forall a: nat :: Owns(s'.threads[t].al, a) <==> Owns(al1, a))
            && (forall a: nat :: Owns(al1, a)
                  <==> Owns(th.al, a)
                       || th.pending.body <= a
                          < th.pending.body + Span(RefillCount(th.pending.k), ClassSize(th.pending.k)))
  {
    var th := s.threads[t];
    var k, body, n := th.pending.k, th.pending.body, th.pending.n;
    assert ThreadOk(th, s.mem);
    PendingBody(s, t);
    RefillKeeps(th.al, s.mem, th.held, k, body);
    RefillOwns(th.al, s.mem, k, body);
    var (al1, m1) := Refill(th.al, s.mem, k, body);
    PopFromKeeps(al1, m1, th.held, k, n);
    LinkChunkCarved(s, t, PopFrom(al1, m1, k, n).0);
    hide Owns, Refill, Core, AllocatorOk, RefillCount;
  }

  lemma LinkChunkWrites(s: State, t: nat)
    requires Core(s) && CanLink(s, t)
    ensures var th := s.threads[t];
            var (al1, m1) := Refill(th.al, s.mem, th.pending.k, th.pending.body);
            forall a :: a in s.mem && !Owns(al1, a) ==> a in m1 && m1[a] == s.mem[a]
  {
    var th := s.threads[t];
    assert ThreadOk(th, s.mem);
    var k, body := th.pending.k, th.pending.body;
    var (al1, m1) := Refill(th.al, s.mem, k, body);
    RefillOwns(th.al, s.mem, k, body);
    forall a | a in s.mem && !Owns(al1, a)
      ensures a in m1 && m1[a] == s.mem[a]
    {
      SlabWrites(s.mem, body, RefillCount(k), ClassSize(k), th.al.pools[k].head, a);
    }
  }

  lemma LinkChunkCarved(s: State, t: nat, al2: Allocator)
    requires Core(s) && CanLink(s, t)
    requires HasChunk(s, s.threads[t].pending.body, ClassSize(s.threads[t].pending.k))
    requires var th := s.threads[t];
             var al1 := Refill(th.al, s.mem, th.pending.k, th.pending.body).0;
             SameShape(al1, al2)
    ensures Borrowed(s, al2) && HomeApart(s, al2)
  {
    hide LinkBlocks, ThreadOk, PendingsOk, BlobsOk, ChunksOk, StashOk, OrphansOk, OwnersApart, HasChunk;
    var th := s.threads[t];
    assert Borrowed(s, th.al);
    LinkChunkHome(s, t, al2);
    forall k, i | 0 <= k < NUM_CLASSES && 1 <= i < |al2.pools[k].regions|
      ensures HasChunk(s, al2.pools[k].regions[i].base, ClassSize(k))
    {
      var rs := th.al.pools[k].regions;
      if i < |rs| {
        assert al2.pools[k].regions[i] == rs[i];
      }
    }
  }

  /** A refill adds no slab. */
  lemma LinkChunkHome(s: State, t: nat, al2: Allocator)
    requires Core(s) && CanLink(s, t)
    requires var th := s.threads[t]; SameShape(Refill(th.al, s.mem, th.pending.k, th.pending.body).0, al2)
    ensures HomeApart(s, al2)
  {
    hide LinkBlocks, PendingsOk, BlobsOk, ChunksOk, StashOk, OrphansOk, OwnersApart, HasChunk, InRegion, InChunk,
         RangesOk, PoolOk, Contains;
    var th := s.threads[t];
    assert ThreadOk(th, s.mem) && HomeApart(s, th.al);
    forall k | 0 <= k < NUM_CLASSES
      ensures th.al.pools[k].regions != [] && al2.pools[k].regions != []
      ensures al2.pools[k].regions[0] == th.al.pools[k].regions[0] && al2.pools[k].size == th.al.pools[k].size
    {
      assert ClassOk(th.al.pools[k], k);
    }
    assert forall a :: InHome(al2, a) <==> InHome(th.al, a);
  }

  lemma LinkChunkKeeps(s: State, t: nat)
    requires Inv(s) && CanLink(s, t)
    ensures Inv(DoLink(s, t))
  {
    LinkChunkLocal(s, t);
    hide LocalStep, Owns, Core, Refill, PopFrom;
    var s' := DoLink(s, t);
    var th', m' := s'.threads[t], s'.mem;
    SteppedCore(s, t, th', m');
    forall r | r in s.recorded
      ensures !Owns(th'.al, r)
    {
      assert !ThreadOwns(s, t, r);
    }
    SteppedRegistry(s, t, th', m');
  }
}
