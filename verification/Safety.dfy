/** Every step of the machine keeps its invariant. */
module Safety {
  import opened FreeList
  import opened SizeClasses
  import opened Pools
  import opened Arenas
  import opened Allocators
  import opened Machine

  /** Memory agrees on every byte the allocator owns. */
  ghost predicate SameOwned(al: Allocator, m: Words, m': Words) {
    forall a :: Owns(al, a) && a in m ==> a in m' && m'[a] == m[a]
  }

  lemma PoolsFrame(pools: seq<Pool>, m: Words, m': Words, blocks: seq<set<nat>>)
    requires PoolsOk(pools, m, blocks)
    requires forall k, a :: 0 <= k < |pools| && Contains(pools[k], a) && a in m ==> a in m' && m'[a] == m[a]
    ensures PoolsOk(pools, m', blocks)
  {
    hide Blocks, ListOf, Contains;
    forall k | 0 <= k < |pools|
      ensures PoolOk(pools[k], m', blocks[k])
    {
      forall a | a in Blocks(pools[k])
        ensures Contains(pools[k], a)
      {
        BlockContained(pools[k], a, a);
      }
      FrameKeeps(pools[k], m, m', blocks[k]);
    }
  }

  lemma ThreadFrame(th: Thread, m: Words, m': Words)
    requires ThreadOk(th, m) && SameOwned(th.al, m, m')
    ensures ThreadOk(th, m')
  {
    hide PoolsOk, RangesOk, Contains;
    if th.phase == Building || th.phase == Up {
      forall k, a | 0 <= k < |th.al.pools| && Contains(th.al.pools[k], a) && a in m
        ensures a in m' && m'[a] == m[a]
      {
        assert Owns(th.al, a);
      }
      PoolsFrame(th.al.pools, m, m', th.held.blocks);
    }
  }

  /** Bytes that thread `t` may take over. */
  ghost predicate Claimable(s: State, t: nat, a: nat) {
    && (forall u :: !ThreadOwns(s, u, a))
    && (forall b :: !InBlob(s, b, a))
    && (forall c :: !InHeader(s, c, a))
    && (forall u :: u != t ==> !InPending(s, u, a))
    && (forall o :: !InOrphan(s, o, a))
  }

  /** What a step may do to the thread that takes it: claim bytes that are up for taking, write
      only its own bytes, and drop its pending chunk or leave allocator and chunk as they are. */
  ghost predicate LocalStep(s: State, t: nat, th': Thread, m': Words) {
    && t < |s.threads|
    && th'.stash == s.threads[t].stash
    && ThreadOk(th', m')
    && (forall a :: Owns(th'.al, a) ==> ThreadOwns(s, t, a) || Claimable(s, t, a))
    && (forall a :: a in s.mem && !Owns(th'.al, a) ==> a in m' && m'[a] == s.mem[a])
    && Borrowed(s, th'.al) && HomeApart(s, th'.al)
    && th'.pending == NoChunk
  }

  ghost function Stepped(s: State, t: nat, th': Thread, m': Words): State
    requires t < |s.threads|
  {
    WithThread(s, t, th').(mem := m')
  }

  lemma SteppedOwners(s: State, t: nat, th': Thread, m': Words)
    requires Core(s) && LocalStep(s, t, th', m')
    ensures OwnersApart(Stepped(s, t, th', m'))
    ensures forall u, a :: u != t ==> (ThreadOwns(Stepped(s, t, th', m'), u, a) <==> ThreadOwns(s, u, a))
    ensures forall a :: ThreadOwns(Stepped(s, t, th', m'), t, a) ==> ThreadOwns(s, t, a) || Claimable(s, t, a)
  {
    hide ThreadOk, ChunksOk, CarvedOk, PendingsOk, BlobsOk, StashOk, OrphansOk, Owns;
    var s' := Stepped(s, t, th', m');
    forall u, v, a | ThreadOwns(s', u, a) && ThreadOwns(s', v, a)
      ensures u == v
    {
      assert u != t ==> ThreadOwns(s, u, a);
      assert v != t ==> ThreadOwns(s, v, a);
    }
  }

  lemma SteppedThreads(s: State, t: nat, th': Thread, m': Words)
    requires Core(s) && LocalStep(s, t, th', m')
    ensures forall u :: 0 <= u < |s.threads| ==> ThreadOk(Stepped(s, t, th', m').threads[u], m')
  {
    hide ThreadOk, ChunksOk, CarvedOk, PendingsOk, BlobsOk, StashOk, OrphansOk, Owns;
    forall u | 0 <= u < |s.threads| && u != t
      ensures ThreadOk(s.threads[u], m')
    {
      forall a | Owns(s.threads[u].al, a) && a in s.mem
        ensures a in m' && m'[a] == s.mem[a]
      {
        assert ThreadOwns(s, u, a);
        assert !Claimable(s, t, a) && !ThreadOwns(s, t, a);
      }
      ThreadFrame(s.threads[u], s.mem, m');
    }
  }

  lemma SteppedChunks(s: State, t: nat, th': Thread, m': Words)
    requires Core(s) && LocalStep(s, t, th', m')
    ensures ChunksOk(Stepped(s, t, th', m'))
  {
    hide ThreadOk, CarvedOk, PendingsOk, BlobsOk, StashOk, OrphansOk, Owns;
    var s' := Stepped(s, t, th', m');
    SteppedOwners(s, t, th', m');
    assert forall c, a :: InChunk(s', c, a) <==> InChunk(s, c, a);
    assert forall c, a :: InHeader(s', c, a) <==> InHeader(s, c, a);
    forall c, u, a | InHeader(s', c, a)
      ensures !ThreadOwns(s', u, a)
    {
      assert !ThreadOwns(s, u, a) && !Claimable(s, t, a);
    }
    forall c | 0 <= c < |s.chunks|
      ensures ChunkOk(s', s.chunks[c])
    {
      var b := s.chunks[c].base;
      assert ChunkOk(s, s.chunks[c]) && InHeader(s, c, b) && InHeader(s, c, b + WORD_BYTES);
      assert !ThreadOwns(s', t, b) && !ThreadOwns(s', t, b + WORD_BYTES);
    }
  }

  lemma SteppedRest(s: State, t: nat, th': Thread, m': Words)
    requires Core(s) && LocalStep(s, t, th', m')
    ensures BlobsOk(Stepped(s, t, th', m'))
    ensures StashOk(Stepped(s, t, th', m'))
    ensures CarvedOk(Stepped(s, t, th', m'))
  {
    hide ThreadOk, PendingsOk, ChunksOk, Owns;
    var s' := Stepped(s, t, th', m');
    SteppedOwners(s, t, th', m');
    assert BlobsOk(s') by {
      assert forall b, a :: InBlob(s', b, a) <==> InBlob(s, b, a);
      assert forall c, a :: InChunk(s', c, a) <==> InChunk(s, c, a);
      forall b, u, a | InBlob(s', b, a)
        ensures !ThreadOwns(s', u, a)
      {
        assert !ThreadOwns(s, u, a) && !Claimable(s, t, a);
      }
    }
    assert forall u :: 0 <= u < |s.threads| ==> s'.threads[u].stash == s.threads[u].stash;
    SteppedCarved(s, t, th', m');
  }

  lemma SteppedCarved(s: State, t: nat, th': Thread, m': Words)
    requires Core(s) && LocalStep(s, t, th', m')
    ensures CarvedOk(Stepped(s, t, th', m'))
  {
    hide ThreadOk, PendingsOk, ChunksOk, BlobsOk, StashOk, OrphansOk, OwnersApart, Owns, InHome, HasChunk;
    var s' := Stepped(s, t, th', m');
    assert forall body, size :: HasChunk(s, body, size) ==> HasChunk(s', body, size) by {
      ChunksStay(s, s');
    }
    assert forall c, a :: InChunk(s', c, a) <==> InChunk(s, c, a);
    forall u | 0 <= u < |s'.threads|
      ensures Borrowed(s', s'.threads[u].al) && HomeApart(s', s'.threads[u].al)
    {
      assert u != t ==> Borrowed(s, s.threads[u].al) && HomeApart(s, s.threads[u].al);
    }
  }

  lemma ChunksStay(s: State, s': State)
    requires s'.chunks == s.chunks
    ensures forall body, size :: HasChunk(s, body, size) ==> HasChunk(s', body, size)
  {
  }

  lemma SteppedPendings(s: State, t: nat, th': Thread, m': Words)
    requires Core(s) && LocalStep(s, t, th', m')
    ensures PendingsOk(Stepped(s, t, th', m'))
  {
    hide ThreadOk, BlobsOk, StashOk, OrphansOk, CarvedOk, ChunksOk, Owns;
    var s' := Stepped(s, t, th', m');
    SteppedOwners(s, t, th', m');
    assert forall u, a :: InPending(s', u, a) ==> u != t && InPending(s, u, a);
    assert forall body, size :: HasChunk(s, body, size) ==> HasChunk(s', body, size);
    forall u, v, a | InPending(s', u, a)
      ensures !ThreadOwns(s', v, a)
    {
      assert !ThreadOwns(s, v, a) && !Claimable(s, t, a);
    }
  }

  lemma SteppedOrphans(s: State, t: nat, th': Thread, m': Words)
    requires Core(s) && LocalStep(s, t, th', m')
    ensures OrphansOk(Stepped(s, t, th', m'))
  {
    hide ThreadOk, BlobsOk, StashOk, CarvedOk, ChunksOk, PendingsOk, Owns;
    var s' := Stepped(s, t, th', m');
    SteppedOwners(s, t, th', m');
    assert forall o, a :: InOrphan(s', o, a) <==> InOrphan(s, o, a);
    assert forall c, a :: InChunk(s', c, a) <==> InChunk(s, c, a);
    assert forall c, a :: InHeader(s', c, a) <==> InHeader(s, c, a);
    assert forall u, a :: InPending(s', u, a) ==> InPending(s, u, a);
    forall o, a | InOrphan(s', o, a)
      ensures SomeChunk(s', a)
    {
      assert SomeChunk(s, a);
      var c :| InChunk(s, c, a);
      assert InChunk(s', c, a);
    }
    forall o, c, a | InOrphan(s', o, a) && InChunk(s', c, a)
      ensures SizedAs(s', c, o)
    {
      assert SizedAs(s, c, o);
    }
    forall o, u, a | InOrphan(s', o, a)
      ensures !ThreadOwns(s', u, a)
    {
      assert !ThreadOwns(s, u, a) && !Claimable(s, t, a);
    }
  }

  lemma SteppedCore(s: State, t: nat, th': Thread, m': Words)
    requires Core(s) && LocalStep(s, t, th', m')
    ensures Core(Stepped(s, t, th', m'))
  {
    SteppedOwners(s, t, th', m');
    SteppedThreads(s, t, th', m');
    SteppedChunks(s, t, th', m');
    SteppedRest(s, t, th', m');
    SteppedPendings(s, t, th', m');
    SteppedOrphans(s, t, th', m');
    hide LocalStep, ThreadOk, OwnersApart, ChunksOk, CarvedOk, PendingsOk, BlobsOk, StashOk, OrphansOk;
  }

  lemma SteppedRegistry(s: State, t: nat, th': Thread, m': Words)
    requires Core(s) && RegistryOk(s) && LocalStep(s, t, th', m')
    requires forall r :: r in s.recorded ==> !Owns(th'.al, r)
    ensures RegistryOk(Stepped(s, t, th', m'))
  {
    hide ThreadOk, ChunksOk, CarvedOk, PendingsOk, BlobsOk, StashOk, OrphansOk, Owns;
    var s' := Stepped(s, t, th', m');
    SteppedOwners(s, t, th', m');
    assert forall c, a :: InChunk(s', c, a) <==> InChunk(s, c, a);
    assert forall b, a :: InBlob(s', b, a) <==> InBlob(s, b, a);
  }
}
