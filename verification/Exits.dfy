/** Thread exit: what happens to the objects that clients still hold. */
module Exits {
  import opened Bits
  import opened FreeList
  import opened SizeClasses
  import opened Pools
  import opened Arenas
  import opened Allocators
  import opened Machine
  import opened Safety
  import opened Objects

  /** A byte of a borrowed region lies in the body of the chunk it was carved from. */
  lemma CarvedByte(s: State, t: nat, k: nat, i: nat, x: nat) returns (c: nat)
    requires Core(s) && t < |s.threads| && k < NUM_CLASSES && k < |s.threads[t].al.pools|
    requires var p := s.threads[t].al.pools[k]; 1 <= i < |p.regions| && InRegion(p.regions[i], ClassSize(k), x)
    ensures c < |s.chunks| && s.chunks[c].size == ClassSize(k)
    ensures s.chunks[c].base + HEADER_BYTES == s.threads[t].al.pools[k].regions[i].base
    ensures s.chunks[c].base + HEADER_BYTES <= x < s.chunks[c].base + CHUNK_SIZE
    ensures Contains(s.threads[t].al.pools[k], x) && s.threads[t].phase in {Building, Up}
  {
    hide OwnersApart, ChunksOk, PendingsOk, BlobsOk, StashOk, OrphansOk, RangesOk, PoolOk, RefillCount, Span;
    var th := s.threads[t];
    assert ThreadOk(th, s.mem) && ClassOk(th.al.pools[k], k);
    assert HasChunk(s, th.al.pools[k].regions[i].base, ClassSize(k));
    c :| 0 <= c < |s.chunks| && s.chunks[c].base + HEADER_BYTES == th.al.pools[k].regions[i].base
         && s.chunks[c].size == ClassSize(k);
    RefillFits(k);
  }

  /** An object that exit leaves behind and that was cut from a chunk: the block it was, and where
      its bytes lie. */
  lemma OrphanHome(s: State, t: nat, o: Orphan, a: nat) returns (k: nat, b: nat)
    requires Core(s) && CanExit(s, t) && InCarved(OrphansOf(s.threads[t]), o, a)
    ensures var th := s.threads[t];
            && k < NUM_CLASSES && b in th.held.blocks[k] && b in Blocks(th.al.pools[k])
            && ShapeOk(th.al.pools[k]) && th.al.pools[k].size == ClassSize(k)
            && o == Orphan(b, b + ClassSize(k), true)
            && Contains(th.al.pools[k], a) && ThreadOwns(s, t, a) && SomeChunk(s, a)
            && (forall c :: InChunk(s, c, a) ==> SizedAs(s, c, o))
  {
    var th := s.threads[t];
    k, b :| 0 <= k < |th.held.blocks| && b in th.held.blocks[k]
            && o == Orphan(b, b + ClassSize(k), !InRegion(th.al.pools[k].regions[0], ClassSize(k), b));
    HeldHome(s, t, k, b);
    var p := th.al.pools[k];
    var i := HomeOf(p, b);
    BlockInside(p.regions[i].base, p.regions[i].count, p.size, b);
    assert InRegion(p.regions[i], p.size, b) && i != 0;
    hide Core, CanExit, Blocks, BlockSet, Contains, OrphansOf;
    var c := CarvedByte(s, t, k, i, a);
    assert InChunk(s, c, a);
    forall d | InChunk(s, d, a)
      ensures SizedAs(s, d, o)
    {
      OneChunk(s, c, d, a);
    }
  }

  lemma OneChunk(s: State, c: nat, d: nat, a: nat)
    requires Core(s) && InChunk(s, c, a) && InChunk(s, d, a)
    ensures c == d
  {
    hide ThreadOk, OwnersApart, CarvedOk, PendingsOk, BlobsOk, StashOk, OrphansOk;
  }

  lemma HeldHome(s: State, t: nat, k: nat, b: nat)
    requires Core(s) && t < |s.threads| && s.threads[t].phase == Up && k < |s.threads[t].held.blocks|
    requires b in s.threads[t].held.blocks[k]
    ensures k < NUM_CLASSES == |s.threads[t].al.pools|
    ensures var p := s.threads[t].al.pools[k]; ShapeOk(p) && p.size == ClassSize(k) && b in Blocks(p)
  {
    hide OwnersApart, ChunksOk, CarvedOk, PendingsOk, BlobsOk, StashOk, OrphansOk, RangesOk, Blocks, ListOf;
    var th := s.threads[t];
    assert ThreadOk(th, s.mem);
    assert ClassOk(th.al.pools[k], k) && PoolOk(th.al.pools[k], s.mem, th.held.blocks[k]);
  }

  /** No byte is in two of them. */
  lemma OrphansApart(s: State, t: nat, o: Orphan, q: Orphan, a: nat)
    requires Core(s) && CanExit(s, t) && InCarved(OrphansOf(s.threads[t]), o, a)
    requires InCarved(OrphansOf(s.threads[t]), q, a)
    ensures o == q
  {
    var th := s.threads[t];
    var k, b := OrphanHome(s, t, o, a);
    var j, c := OrphanHome(s, t, q, a);
    assert k == j by {
      hide OwnersApart, ChunksOk, CarvedOk, PendingsOk, BlobsOk, StashOk, OrphansOk, RangesOk, Blocks, ListOf, Contains,
           OrphansOf, CanExit;
      assert ThreadOk(th, s.mem);
    }
    hide Core, CanExit, OrphansOf, Blocks, Contains;
    if b < c {
      PoolBlocksApart(th.al.pools[k], b, c);
    } else if c < b {
      PoolBlocksApart(th.al.pools[k], c, b);
    }
  }

  /** A byte of an orphan to be is in nothing that stays. */
  lemma OrphanAlone(s: State, t: nat, o: Orphan, a: nat)
    requires Core(s) && CanExit(s, t) && InCarved(OrphansOf(s.threads[t]), o, a)
    ensures SomeChunk(s, a)
    ensures forall c :: InChunk(s, c, a) ==> SizedAs(s, c, o)
    ensures forall c :: !InHeader(s, c, a)
    ensures forall u :: u != t ==> !ThreadOwns(s, u, a)
    ensures forall u :: !InPending(s, u, a)
    ensures forall q :: !InOrphan(s, q, a)
  {
    var k, b := OrphanHome(s, t, o, a);
    hide ThreadOk, CarvedOk, BlobsOk, StashOk, Owns, CanExit, OrphansOf, SomeChunk;
  }

  /** Orphans may be added where nothing else is. */
  lemma AddOrphans(s: State, s': State, more: set<Orphan>)
    requires Core(s) && s' == s.(orphans := s.orphans + more)
    requires forall o, a :: InCarved(more, o, a) ==>
               && SomeChunk(s, a)
               && (forall c :: InChunk(s, c, a) ==> SizedAs(s, c, o))
               && (forall c :: !InHeader(s, c, a))
               && (forall u :: !ThreadOwns(s, u, a))
               && (forall u :: !InPending(s, u, a))
               && (forall q :: !InOrphan(s, q, a))
    requires forall o, q, a :: InCarved(more, o, a) && InCarved(more, q, a) ==> o == q
    ensures Core(s')
  {
    SameButOrphans(s, s');
    hide ThreadOk, ChunkOk, ThreadOwns, InChunk, InHeader, InBlob, InPending, HasChunk, SomeChunk, SizedAs, InHome;
    assert OwnersApart(s') && ChunksOk(s') by {
      hide CarvedOk, PendingsOk, BlobsOk, StashOk, OrphansOk;
    }
    assert CarvedOk(s') && PendingsOk(s') by {
      hide OwnersApart, ChunksOk, BlobsOk, StashOk, OrphansOk;
    }
    assert BlobsOk(s') && StashOk(s') by {
      hide OwnersApart, ChunksOk, CarvedOk, PendingsOk, OrphansOk;
    }
    assert OrphansOk(s') by {
      hide OwnersApart, ChunksOk, CarvedOk, PendingsOk, BlobsOk, StashOk;
      assert forall o, a :: InOrphan(s', o, a) ==> InOrphan(s, o, a) || InCarved(more, o, a);
    }
    hide OwnersApart, ChunksOk, CarvedOk, PendingsOk, BlobsOk, StashOk, OrphansOk;
  }

  lemma SameButOrphans(s: State, s': State)
    requires s' == s.(orphans := s'.orphans)
    ensures forall t, a :: ThreadOwns(s', t, a) <==> ThreadOwns(s, t, a)
    ensures forall c, a :: InChunk(s', c, a) <==> InChunk(s, c, a)
    ensures forall c, a :: InHeader(s', c, a) <==> InHeader(s, c, a)
    ensures forall b, a :: InBlob(s', b, a) <==> InBlob(s, b, a)
    ensures forall t, a :: InPending(s', t, a) <==> InPending(s, t, a)
    ensures forall a :: SomeChunk(s', a) <==> SomeChunk(s, a)
    ensures forall body, size :: HasChunk(s', body, size) <==> HasChunk(s, body, size)
    ensures forall c :: ChunkOk(s', c) <==> ChunkOk(s, c)
    ensures forall c, o :: SizedAs(s', c, o) <==> SizedAs(s, c, o)
  {
    hide Owns;
    assert forall c, a :: InChunk(s', c, a) <==> InChunk(s, c, a);
  }

  /** Exit without the objects left behind. */
  lemma ExitLocal(s: State, t: nat) returns (s1: State)
    requires Inv(s) && CanExit(s, t)
    ensures Inv(s1) && DoExit(s, t) == s1.(orphans := s.orphans + OrphansOf(s.threads[t]))
    ensures s1.chunks == s.chunks && s1.orphans == s.orphans && |s1.threads| == |s.threads|
    ensures s1.threads[t].al == NO_ALLOCATOR && s1.threads[t].pending == NoChunk
    ensures forall u :: 0 <= u < |s.threads| && u != t ==> s1.threads[u] == s.threads[u]
  {
    hide PendingsOk, BlobsOk, ChunksOk, StashOk, OrphansOk, OwnersApart, AllocatorOk, OrphansOf;
    var th' := DoExit(s, t).threads[t];
    assert ThreadOk(th', s.mem);
    assert LocalStep(s, t, th', s.mem);
    SteppedCore(s, t, th', s.mem);
    SteppedRegistry(s, t, th', s.mem);
    s1 := Stepped(s, t, th', s.mem);
  }

  lemma ExitedBytes(s: State, s1: State, t: nat)
    requires s1.chunks == s.chunks && s1.orphans == s.orphans && |s1.threads| == |s.threads| && t < |s.threads|
    requires s1.threads[t].al == NO_ALLOCATOR && s1.threads[t].pending == NoChunk
    requires forall u :: 0 <= u < |s.threads| && u != t ==> s1.threads[u] == s.threads[u]
    ensures forall u, a :: ThreadOwns(s1, u, a) ==> u != t && ThreadOwns(s, u, a)
    ensures forall u, a :: InPending(s1, u, a) ==> InPending(s, u, a)
    ensures forall c, a :: InChunk(s1, c, a) <==> InChunk(s, c, a)
    ensures forall c, a :: InHeader(s1, c, a) <==> InHeader(s, c, a)
    ensures forall o, a :: InOrphan(s1, o, a) <==> InOrphan(s, o, a)
    ensures forall a :: SomeChunk(s, a) ==> SomeChunk(s1, a)
    ensures forall c, o :: SizedAs(s1, c, o) <==> SizedAs(s, c, o)
  {
    assert forall c, a :: InChunk(s1, c, a) <==> InChunk(s, c, a);
  }

  /** Thread exit keeps the invariant: what was cut from chunks and handed out stays apart from
      everything. */
  lemma ExitKeeps(s: State, t: nat)
    requires Inv(s) && CanExit(s, t)
    ensures Inv(DoExit(s, t))
  {
    var s1 := ExitLocal(s, t);
    ExitedBytes(s, s1, t);
    var more := OrphansOf(s.threads[t]);
    forall o, a | InCarved(more, o, a)
      ensures SomeChunk(s1, a) && (forall c :: InChunk(s1, c, a) ==> SizedAs(s1, c, o))
      ensures (forall c :: !InHeader(s1, c, a)) && (forall u :: !ThreadOwns(s1, u, a))
      ensures (forall u :: !InPending(s1, u, a)) && (forall q :: !InOrphan(s1, q, a))
    {
      OrphanAlone(s, t, o, a);
    }
    forall o, q, a | InCarved(more, o, a) && InCarved(more, q, a)
      ensures o == q
    {
      OrphansApart(s, t, o, q, a);
    }
    hide OrphansOf, Core, RegistryOk, CanExit, ThreadOwns, InPending, InChunk, InHeader, InOrphan, SomeChunk, SizedAs;
    AddOrphans(s1, DoExit(s, t), more);
    ExitRegistry(s1, DoExit(s, t));
  }

  lemma ExitRegistry(s: State, s': State)
    requires RegistryOk(s) && s' == s.(orphans := s'.orphans)
    ensures RegistryOk(s')
  {
    SameButOrphans(s, s');
    hide ThreadOwns, InChunk, InBlob;
  }

  /** Exit gives back to malloc every byte of the thread that is in no chunk, whether a client still
      holds it or not, and none that is. */
  lemma ExitReleases(s: State, t: nat, a: nat)
    requires Inv(s) && CanExit(s, t) && ThreadOwns(s, t, a)
    ensures Unused(DoExit(s, t), a) <==> !SomeChunk(s, a)
  {
    var s1 := ExitLocal(s, t);
    ExitedBytes(s, s1, t);
    SameButOrphans(s1, DoExit(s, t));
    assert forall u :: u != t ==> !ThreadOwns(s, u, a);
    assert forall b :: !InBlob(s, b, a);
    hide Core, RegistryOk, CanExit, OrphansOf, ThreadOwns;
    assert forall b :: InBlob(DoExit(s, t), b, a) ==> InBlob(s, b, a);
  }

  /** Every object that clients hold of the exiting thread, block or arena range, becomes an orphan, and
      it stays a live object if and only if its bytes lie in a chunk. */
  lemma ExitHandsOver(s: State, t: nat, it: Item, x: nat)
    requires Inv(s) && CanExit(s, t) && Covers(s, it, x) && InThread(it) && it.t == t
    ensures var o := Orphan(Lo(s, it), Hi(s, it), SomeChunk(s, x));
            && o in DoExit(s, t).orphans
            && (Live(DoExit(s, t), Kept(o)) <==> SomeChunk(s, x))
  {
    hide Core, SomeChunk, Owns, InHome;
    match it
    case Block(u, k, b) => BlockHandedOver(s, t, k, b, x);
    case Bumped(u, i) => RangeHandedOver(s, t, i, x);
  }

  lemma RangeHandedOver(s: State, t: nat, i: nat, x: nat)
    requires Inv(s) && CanExit(s, t) && Covers(s, Bumped(t, i), x)
    ensures var r := s.threads[t].held.ranges[i]; Orphan(r.lo, r.hi, SomeChunk(s, x)) in OrphansOf(s.threads[t])
  {
    RangeBytes(s, t, i, x);
    hide Core, SomeChunk;
    assert InHome(s.threads[t].al, x);
    HomeInNoChunk(s, t, x);
    var r := s.threads[t].held.ranges[i];
    assert Orphan(r.lo, r.hi, false) in OrphansOf(s.threads[t]);
  }

  lemma HomeInNoChunk(s: State, t: nat, x: nat)
    requires Core(s) && t < |s.threads| && InHome(s.threads[t].al, x)
    ensures !SomeChunk(s, x)
  {
    hide ThreadOk, OwnersApart, ChunksOk, PendingsOk, BlobsOk, StashOk, OrphansOk, InHome, InChunk;
    assert HomeApart(s, s.threads[t].al);
  }

  lemma BlockHandedOver(s: State, t: nat, k: nat, b: nat, x: nat)
    requires Inv(s) && CanExit(s, t) && Covers(s, Block(t, k, b), x)
    ensures Orphan(b, b + ClassSize(k), SomeChunk(s, x)) in OrphansOf(s.threads[t])
  {
    hide Core, InRegion, Blocks, Contains, InHome, OrphansOf, RegistryOk;
    var i := BlockRegion(s, t, k, b, x);
    var th := s.threads[t];
    var p := th.al.pools[k];
    if i == 0 {
      SlabIsHome(th.al, k, x);
      HomeInNoChunk(s, t, x);
    } else {
      var c := CarvedByte(s, t, k, i, x);
      assert InChunk(s, c, x);
      BlockNotInSlab(s, t, k, i, b);
    }
    BlockLeft(th, k, b);
  }

  lemma BlockLeft(th: Thread, k: nat, b: nat)
    requires |th.held.blocks| <= |th.al.pools| && |th.held.blocks| <= NUM_CLASSES
    requires forall j :: 0 <= j < |th.held.blocks| ==> th.al.pools[j].regions != []
    requires k < |th.held.blocks| && b in th.held.blocks[k]
    ensures Orphan(b, b + ClassSize(k), !InRegion(th.al.pools[k].regions[0], ClassSize(k), b)) in OrphansOf(th)
  {
  }

  /** The region in which a held block lies with all its bytes. */
  lemma BlockRegion(s: State, t: nat, k: nat, b: nat, x: nat) returns (i: nat)
    requires Inv(s) && CanExit(s, t) && Covers(s, Block(t, k, b), x)
    ensures k < NUM_CLASSES == |s.threads[t].al.pools|
    ensures var p := s.threads[t].al.pools[k];
            && p.size == ClassSize(k) && i < |p.regions|
            && InRegion(p.regions[i], p.size, b) && InRegion(p.regions[i], p.size, x)
  {
    hide Core, Contains, Span;
    HeldHome(s, t, k, b);
    var p := s.threads[t].al.pools[k];
    i := HomeOf(p, b);
    BlockInside(p.regions[i].base, p.regions[i].count, p.size, b);
    hide Blocks, BlockSet;
  }

  lemma SlabIsHome(al: Allocator, k: nat, x: nat)
    requires k < |al.pools| && al.pools[k].regions != [] && InRegion(al.pools[k].regions[0], al.pools[k].size, x)
    ensures InHome(al, x)
  {
  }

  lemma BlockNotInSlab(s: State, t: nat, k: nat, i: nat, b: nat)
    requires Core(s) && t < |s.threads| && k < NUM_CLASSES && k < |s.threads[t].al.pools|
    requires var p := s.threads[t].al.pools[k]; 1 <= i < |p.regions| && InRegion(p.regions[i], ClassSize(k), b)
    requires s.threads[t].al.pools[k].size == ClassSize(k)
    ensures !InRegion(s.threads[t].al.pools[k].regions[0], ClassSize(k), b)
  {
    var c := CarvedByte(s, t, k, i, b);
    assert InChunk(s, c, b);
    hide Core, Span, InChunk;
    if InRegion(s.threads[t].al.pools[k].regions[0], ClassSize(k), b) {
      assert InHome(s.threads[t].al, b);
      HomeInNoChunk(s, t, b);
    }
  }

  /** Orphans stay: no step takes one away. */
  lemma StepKeepsOrphans(s: State, e: Event)
    requires Possible(s, e)
    ensures s.orphans <= Apply(s, e).orphans
  {
    hide Refill, PopFrom, Deallocate, DeallocateContaining, FromBump, LinkBlocks, Decide, OrphansOf, Names, NamesStale,
         CanWrite, FreshRegion, CheckWraps, AlignUp, NewPool, Hand, TakeRange, HeaderWritten;
  }
}
