/** Live objects: whose bytes they are, that they never overlap, and what a client may write. */
module Objects {
  import opened FreeList
  import opened SizeClasses
  import opened Pools
  import opened Arenas
  import opened Allocators
  import opened Machine

  /** A live block belongs to a pool that is in order. */
  lemma BlockHome(s: State, t: nat, k: nat, a: nat)
    requires Core(s) && Live(s, Block(t, k, a))
    ensures var th := s.threads[t];
            && th.phase == Up && k < |th.al.pools| && AllocatorOk(th.al, s.mem, th.held)
            && PoolOk(th.al.pools[k], s.mem, th.held.blocks[k]) && th.al.pools[k].size == ClassSize(k)
            && a in Blocks(th.al.pools[k])
  {
    hide OwnersApart, ChunksOk, CarvedOk, PendingsOk, BlobsOk, StashOk, OrphansOk, RangesOk;
    assert ThreadOk(s.threads[t], s.mem);
  }

  lemma BlockBytes(s: State, t: nat, k: nat, a: nat, x: nat)
    requires Core(s) && Live(s, Block(t, k, a)) && a <= x < a + ClassSize(k)
    ensures var th := s.threads[t];
            th.phase == Up && k < |th.al.pools| && Contains(th.al.pools[k], x) && ThreadOwns(s, t, x)
            && x > 0 && a in Blocks(th.al.pools[k])
  {
    BlockHome(s, t, k, a);
    hide Core, AllocatorOk, Contains, Blocks;
    BlockContained(s.threads[t].al.pools[k], a, x);
  }

  lemma RangeBytes(s: State, t: nat, i: nat, x: nat)
    requires Core(s) && Covers(s, Bumped(t, i), x)
    ensures s.threads[t].phase == Up && InArena(s.threads[t].al.arena, x) && ThreadOwns(s, t, x)
    ensures ArenaContains(s.threads[t].al.arena, x)
  {
    hide OwnersApart, ChunksOk, CarvedOk, PendingsOk, BlobsOk, StashOk, OrphansOk, PoolsOk;
    assert ThreadOk(s.threads[t], s.mem);
  }

  /** Two blocks of one thread. */
  lemma OwnBlocksApart(s: State, t: nat, j: nat, x: nat, k: nat, y: nat, a: nat)
    requires Core(s) && Covers(s, Block(t, j, x), a)
    requires t < |s.threads| && s.threads[t].phase == Up && k < NUM_CLASSES && k < |s.threads[t].al.pools|
    requires y in Blocks(s.threads[t].al.pools[k]) && y <= a < y + ClassSize(k)
    ensures j == k && x == y
  {
    BlockHome(s, t, j, x);
    BlockBytes(s, t, j, x, a);
    var al := s.threads[t].al;
    hide Core, Blocks;
    assert ClassOk(al.pools[k], k) && PoolOk(al.pools[k], s.mem, s.threads[t].held.blocks[k]);
    BlockContained(al.pools[k], y, a);
    if j == k && x != y {
      if x < y {
        PoolBlocksApart(al.pools[k], x, y);
      } else {
        PoolBlocksApart(al.pools[k], y, x);
      }
    }
  }

  /** The arena ranges of one thread. */
  lemma OwnRangesApart(s: State, t: nat, i: nat, j: nat, a: nat)
    requires Core(s) && Covers(s, Bumped(t, i), a) && Covers(s, Bumped(t, j), a)
    ensures i == j
  {
    hide OwnersApart, ChunksOk, CarvedOk, PendingsOk, BlobsOk, StashOk, OrphansOk, PoolsOk;
    assert ThreadOk(s.threads[t], s.mem);
  }

  lemma PoolNotArena(s: State, t: nat, k: nat, a: nat)
    requires Core(s) && t < |s.threads| && s.threads[t].phase == Up && k < |s.threads[t].al.pools|
    requires Contains(s.threads[t].al.pools[k], a)
    ensures !InArena(s.threads[t].al.arena, a)
  {
    hide OwnersApart, ChunksOk, CarvedOk, PendingsOk, BlobsOk, StashOk, OrphansOk, PoolsOk, RangesOk;
    assert ThreadOk(s.threads[t], s.mem);
  }

  /** No byte belongs to two live objects: blocks, arena ranges and malloc objects of all threads
      are pairwise disjoint. */
  lemma LiveDisjoint(s: State, x: Item, y: Item, a: nat)
    requires Core(s) && Covers(s, x, a) && Covers(s, y, a)
    ensures x == y
  {
    ItemOwner(s, x, a);
    ItemOwner(s, y, a);
    if InThread(x) && InThread(y) {
      assert x.t == y.t by {
        hide ThreadOk, ChunksOk, CarvedOk, PendingsOk, StashOk, OrphansOk, BlobsOk, Owns;
      }
      OwnItemsApart(s, x, y, a);
    } else {
      OneHolder(s, x, y, a);
    }
  }

  /** Blocks and arena ranges belong to a thread in use. */
  predicate InThread(it: Item) {
    it.Block? || it.Bumped?
  }

  /** Who accounts for the byte of an object. */
  ghost predicate HeldBy(s: State, it: Item, a: nat) {
    match it
    case Block(t, k, b) => ThreadOwns(s, t, a)
    case Bumped(t, i) => ThreadOwns(s, t, a)
    case Malloced(b) => InBlob(s, b, a)
    case Kept(o) => InOrphan(s, o, a)
  }

  /** Threads, malloc and orphans never account for the same byte. */
  lemma OneHolder(s: State, x: Item, y: Item, a: nat)
    requires Core(s) && HeldBy(s, x, a) && HeldBy(s, y, a) && !(InThread(x) && InThread(y))
    ensures x == y
  {
    hide ThreadOk, OwnersApart, ChunksOk, CarvedOk, PendingsOk, StashOk, ThreadOwns, InBlob, InOrphan, InChunk;
  }

  lemma ItemOwner(s: State, x: Item, a: nat)
    requires Core(s) && Covers(s, x, a)
    ensures HeldBy(s, x, a)
  {
    hide Core;
    match x
    case Block(t, k, b) => BlockBytes(s, t, k, b, a);
    case Bumped(t, i) => RangeBytes(s, t, i, a);
    case Malloced(b) =>
    case Kept(o) =>
  }

  lemma OwnItemsApart(s: State, x: Item, y: Item, a: nat)
    requires Core(s) && Covers(s, x, a) && Covers(s, y, a)
    requires InThread(x) && InThread(y) && x.t == y.t
    ensures x == y
  {
    hide Core, Contains, Blocks;
    match x
    case Block(t, k, b) =>
      BlockBytes(s, t, k, b, a);
      PoolNotArena(s, t, k, a);
      match y {
        case Block(u, j, c) =>
          BlockHome(s, t, j, c);
          OwnBlocksApart(s, t, k, b, j, c, a);
        case Bumped(u, i) =>
          RangeBytes(s, t, i, a);
      }
    case Bumped(t, i) =>
      RangeBytes(s, t, i, a);
      match y {
        case Block(u, j, c) =>
          BlockBytes(s, t, j, c, a);
          PoolNotArena(s, t, j, a);
        case Bumped(u, j) =>
          OwnRangesApart(s, t, i, j, a);
      }
  }

  /** The link word of a free block is in no live object. */
  lemma FreeNotLive(s: State, t: nat, k: nat, a: nat)
    requires Core(s) && t < |s.threads| && k < |s.threads[t].al.pools| && k < NUM_CLASSES
    requires k < |s.threads[t].held.blocks|
    requires a in Blocks(s.threads[t].al.pools[k]) - s.threads[t].held.blocks[k]
    ensures !InLive(s, a)
  {
    var th := s.threads[t];
    FreeOwned(s, t, k, a);
    hide Core, Blocks, Contains;
    forall it | Covers(s, it, a)
      ensures false
    {
      ItemOwner(s, it, a);
      OneOwner(s, t, it, a);
      match it
      case Block(u, j, b) =>
        BlockBytes(s, u, j, b, a);
        OwnBlocksApart(s, t, j, b, k, a, a);
      case Bumped(u, i) =>
        RangeBytes(s, t, i, a);
        PoolNotArena(s, t, k, a);
      case Malloced(b) =>
      case Kept(o) =>
    }
  }

  lemma OneOwner(s: State, t: nat, it: Item, a: nat)
    requires Core(s) && ThreadOwns(s, t, a) && HeldBy(s, it, a)
    ensures InThread(it) && it.t == t
  {
    hide ThreadOk, ChunksOk, CarvedOk, PendingsOk, StashOk, Owns;
  }

  lemma FreeOwned(s: State, t: nat, k: nat, a: nat)
    requires Core(s) && t < |s.threads| && k < |s.threads[t].al.pools| && k < NUM_CLASSES
    requires a in Blocks(s.threads[t].al.pools[k])
    ensures ThreadOwns(s, t, a) && Contains(s.threads[t].al.pools[k], a)
  {
    hide OwnersApart, ChunksOk, CarvedOk, PendingsOk, BlobsOk, StashOk, OrphansOk, RangesOk, Blocks, Contains;
    var th := s.threads[t];
    assert ThreadOk(th, s.mem);
    assert PoolOk(th.al.pools[k], s.mem, th.held.blocks[k]);
    BlockContained(th.al.pools[k], a, a);
  }

  lemma HeaderNotLive(s: State, c: nat, a: nat)
    requires Core(s) && InHeader(s, c, a)
    ensures !InLive(s, a)
  {
    assert InChunk(s, c, a);
    forall it | Covers(s, it, a)
      ensures false
    {
      ItemOwner(s, it, a);
      hide ThreadOk, OwnersApart, CarvedOk, PendingsOk, StashOk, Owns;
    }
  }

  // ---------------------------------------------------------------------------
  // Clients write

  lemma WriteThread(s: State, t: nat, m: Words)
    requires Core(s) && CanWrite(s, m) && t < |s.threads|
    ensures ThreadOk(s.threads[t], m)
  {
    hide OwnersApart, ChunksOk, CarvedOk, PendingsOk, BlobsOk, StashOk, OrphansOk, RangesOk, Blocks, Contains,
         ListOf, InLive;
    var th := s.threads[t];
    assert ThreadOk(th, s.mem);
    forall k | 0 <= k < |th.al.pools|
      ensures PoolOk(th.al.pools[k], m, th.held.blocks[k])
    {
      forall a | a in Blocks(th.al.pools[k]) - th.held.blocks[k] && a in s.mem
        ensures a in m && m[a] == s.mem[a]
      {
        FreeNotLive(s, t, k, a);
      }
      FrameKeeps(th.al.pools[k], s.mem, m, th.held.blocks[k]);
    }
    hide PoolOk;
  }

  /** The states differ in memory contents and the ready flag at most. */
  ghost predicate SameLayout(s: State, s': State) {
    && s'.threads == s.threads && s'.chunks == s.chunks && s'.orphans == s.orphans && s'.blobs == s.blobs
    && s'.registered == s.registered && s'.recorded == s.recorded && s'.corrupt == s.corrupt
  }

  lemma SameBytes(s: State, s': State)
    requires SameLayout(s, s')
    ensures forall t, a :: ThreadOwns(s', t, a) <==> ThreadOwns(s, t, a)
    ensures forall c, a :: InChunk(s', c, a) <==> InChunk(s, c, a)
    ensures forall c, a :: InHeader(s', c, a) <==> InHeader(s, c, a)
    ensures forall b, a :: InBlob(s', b, a) <==> InBlob(s, b, a)
    ensures forall t, a :: InPending(s', t, a) <==> InPending(s, t, a)
    ensures forall o, a :: InOrphan(s', o, a) <==> InOrphan(s, o, a)
    ensures forall a :: SomeChunk(s', a) <==> SomeChunk(s, a)
    ensures forall body, size :: HasChunk(s', body, size) <==> HasChunk(s, body, size)
    ensures forall c, o :: SizedAs(s', c, o) <==> SizedAs(s, c, o)
  {
    hide Owns;
    assert forall c, a :: InChunk(s', c, a) <==> InChunk(s, c, a);
  }

  lemma LayoutKeeps(s: State, s': State)
    requires Inv(s) && SameLayout(s, s')
    requires forall t :: 0 <= t < |s.threads| ==> ThreadOk(s.threads[t], s'.mem)
    requires forall c :: 0 <= c < |s.chunks| ==> ChunkOk(s', s.chunks[c])
    ensures Inv(s')
  {
    SameBytes(s, s');
    hide ThreadOk, ChunkOk, ThreadOwns, InChunk, InHeader, InBlob, InPending, InOrphan, SomeChunk, HasChunk,
         SizedAs, InHome;
    assert OwnersApart(s') && ChunksOk(s') by {
      hide CarvedOk, PendingsOk, BlobsOk, StashOk, OrphansOk, RegistryOk;
    }
    assert CarvedOk(s') && PendingsOk(s') by {
      hide OwnersApart, ChunksOk, BlobsOk, StashOk, OrphansOk, RegistryOk;
    }
    assert BlobsOk(s') && StashOk(s') by {
      hide OwnersApart, ChunksOk, CarvedOk, PendingsOk, RegistryOk;
    }
    assert OrphansOk(s') by {
      hide OwnersApart, ChunksOk, CarvedOk, PendingsOk, BlobsOk, StashOk, RegistryOk;
    }
    assert RegistryOk(s') by {
      hide OwnersApart, ChunksOk, CarvedOk, PendingsOk, BlobsOk, StashOk, OrphansOk;
    }
    hide OwnersApart, ChunksOk, CarvedOk, PendingsOk, BlobsOk, StashOk, OrphansOk, RegistryOk;
  }

  /** A chunk header is outside every live object. */
  lemma WriteHeader(s: State, m: Words, c: nat)
    requires Core(s) && CanWrite(s, m) && c < |s.chunks|
    ensures ChunkOk(s.(mem := m), s.chunks[c])
  {
    var b := s.chunks[c].base;
    assert ChunkOk(s, s.chunks[c]) && InHeader(s, c, b) && InHeader(s, c, b + WORD_BYTES);
    HeaderNotLive(s, c, b);
    HeaderNotLive(s, c, b + WORD_BYTES);
    hide Core, InLive;
  }

  /** Whatever clients write into live objects, every free list and every chunk header stays as it was. */
  lemma WriteKeeps(s: State, m: Words)
    requires Inv(s) && CanWrite(s, m)
    ensures Inv(s.(mem := m))
  {
    hide ThreadOk, ChunkOk, OwnersApart, ChunksOk, CarvedOk, PendingsOk, BlobsOk, StashOk, OrphansOk, RegistryOk,
         CanWrite;
    forall t | 0 <= t < |s.threads|
      ensures ThreadOk(s.threads[t], m)
    {
      WriteThread(s, t, m);
    }
    forall c | 0 <= c < |s.chunks|
      ensures ChunkOk(s.(mem := m), s.chunks[c])
    {
      WriteHeader(s, m, c);
    }
    LayoutKeeps(s, s.(mem := m));
  }
}
