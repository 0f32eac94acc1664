/** Preservation by the steps that involve malloc, the central heap, clients and delete. */
module SharedSteps {
  import opened FreeList
  import opened Bits
  import opened SizeClasses
  import opened Pools
  import opened Allocators
  import opened Machine
  import opened Safety
  import opened Steps

  // ---------------------------------------------------------------------------
  // Acquiring a chunk

  lemma AcquireOwners(s: State, t: nat, n: nat, base: nat)
    requires CanAcquire(s, t, n, base)
    ensures var s' := DoAcquire(s, t, n, base);
            && (forall u, a :: ThreadOwns(s', u, a) <==> ThreadOwns(s, u, a))
            && (forall b, a :: InBlob(s', b, a) <==> InBlob(s, b, a))
            && (forall c, a: nat :: InChunk(s', c, a)
                               <==> InChunk(s, c, a) || (c == |s.chunks| && base <= a < base + CHUNK_SIZE))
            && (forall body, size :: HasChunk(s, body, size) ==> HasChunk(s', body, size))
            && HasChunk(s', base + HEADER_BYTES, ClassSize(ClassIndex(n)))
  {
    hide Owns;
    var s' := DoAcquire(s, t, n, base);
    assert forall u :: 0 <= u < |s.threads| ==> s'.threads[u].al == s.threads[u].al;
    assert s'.chunks[|s.chunks|] == Chunk(base, ClassSize(ClassIndex(n)));
    forall body, size | HasChunk(s, body, size)
      ensures HasChunk(s', body, size)
    {
      var c :| 0 <= c < |s.chunks| && s.chunks[c].base + HEADER_BYTES == body && s.chunks[c].size == size;
      assert s'.chunks[c] == s.chunks[c];
    }
  }

  lemma AcquireThreads(s: State, t: nat, n: nat, base: nat)
    requires Core(s) && CanAcquire(s, t, n, base)
    ensures var s' := DoAcquire(s, t, n, base);
            forall u :: 0 <= u < |s.threads| ==> ThreadOk(s'.threads[u], s'.mem)
  {
    hide Owns, ThreadOk, OwnersApart, ChunksOk, CarvedOk, PendingsOk, BlobsOk, StashOk, OrphansOk;
    var s' := DoAcquire(s, t, n, base);
    assert Unused(s, base) && Unused(s, base + WORD_BYTES);
    forall u | 0 <= u < |s.threads|
      ensures ThreadOk(s'.threads[u], s'.mem)
    {
      assert !ThreadOwns(s, u, base) && !ThreadOwns(s, u, base + WORD_BYTES);
      ThreadFrame(s.threads[u], s.mem, s'.mem);
      PendingIrrelevant(s.threads[u], s'.threads[u], s'.mem);
    }
  }

  lemma PendingIrrelevant(th: Thread, th': Thread, m: Words)
    requires ThreadOk(th, m) && th'.phase == th.phase && th'.al == th.al && th'.held == th.held
    ensures ThreadOk(th', m)
  {
  }

  lemma AcquireChunks(s: State, t: nat, n: nat, base: nat)
    requires Core(s) && CanAcquire(s, t, n, base)
    ensures ChunksOk(DoAcquire(s, t, n, base))
  {
    hide Owns, ThreadOk, OwnersApart, CarvedOk, PendingsOk, BlobsOk, StashOk, OrphansOk;
    var s' := DoAcquire(s, t, n, base);
    AcquireOwners(s, t, n, base);
    forall c | 0 <= c < |s'.chunks|
      ensures ChunkOk(s', s'.chunks[c])
    {
      if c < |s.chunks| {
        var b := s.chunks[c].base;
        assert ChunkOk(s, s.chunks[c]) && InChunk(s, c, b) && InChunk(s, c, b + WORD_BYTES);
        assert !Unused(s, b) && !Unused(s, b + WORD_BYTES);
        assert Unused(s, base) && Unused(s, base + WORD_BYTES);
        assert s'.chunks[c] == s.chunks[c];
      }
    }
    forall c, d, a: nat | InChunk(s', c, a) && InChunk(s', d, a)
      ensures c == d
    {
      assert base <= a < base + CHUNK_SIZE ==> Unused(s, a);
    }
    forall c, u, a | InHeader(s', c, a)
      ensures !ThreadOwns(s', u, a)
    {
      if c == |s.chunks| {
        assert Unused(s, a);
      } else {
        assert InHeader(s, c, a);
      }
    }
  }

  lemma AcquirePendings(s: State, t: nat, n: nat, base: nat)
    requires Core(s) && CanAcquire(s, t, n, base)
    ensures PendingsOk(DoAcquire(s, t, n, base))
  {
    hide Owns, ThreadOk, OwnersApart, CarvedOk, BlobsOk, StashOk, OrphansOk, ChunksOk;
    var s' := DoAcquire(s, t, n, base);
    AcquireOwners(s, t, n, base);
    forall u, a | InPending(s', u, a)
      ensures if u == t then Unused(s, a) else InPending(s, u, a) && !Unused(s, a)
    {
      if u != t {
        assert InPending(s, u, a);
        PendingInChunk(s, u, a);
      }
    }
    forall u, v, a | InPending(s', u, a)
      ensures !ThreadOwns(s', v, a)
    {
      assert !ThreadOwns(s, v, a);
    }
    forall u, v, a | InPending(s', u, a) && InPending(s', v, a)
      ensures u == v
    {
    }
  }

  lemma AcquireBlobs(s: State, t: nat, n: nat, base: nat)
    requires Core(s) && CanAcquire(s, t, n, base)
    ensures BlobsOk(DoAcquire(s, t, n, base))
  {
    AcquireOwners(s, t, n, base);
    hide Owns, ThreadOk, ChunksOk, PendingsOk, ThreadOwns, HasChunk, OwnersApart, CarvedOk, StashOk, OrphansOk, InBlob;
    var s' := DoAcquire(s, t, n, base);
    forall b, c, a: nat | InBlob(s', b, a)
      ensures !InChunk(s', c, a)
    {
      assert InBlob(s, b, a) && !Unused(s, a);
    }
  }

  lemma AcquireOrphans(s: State, t: nat, n: nat, base: nat)
    requires Core(s) && CanAcquire(s, t, n, base)
    ensures OrphansOk(DoAcquire(s, t, n, base))
  {
    AcquireOwners(s, t, n, base);
    hide Owns, ThreadOk, ChunksOk, PendingsOk, ThreadOwns, HasChunk, OwnersApart, CarvedOk, StashOk, BlobsOk, InChunk;
    var s' := DoAcquire(s, t, n, base);
    forall o, a: nat | InOrphan(s', o, a)
      ensures InOrphan(s, o, a) && SomeChunk(s', a) && !(base <= a < base + CHUNK_SIZE)
    {
      assert InOrphan(s, o, a) && SomeChunk(s, a);
      var c :| InChunk(s, c, a);
      assert !Unused(s, a) && InChunk(s', c, a);
    }
    forall o, c, a: nat | InOrphan(s', o, a) && InChunk(s', c, a)
      ensures SizedAs(s', c, o)
    {
      assert InChunk(s, c, a) && SizedAs(s, c, o);
    }
    forall o, c, a | InOrphan(s', o, a)
      ensures !InHeader(s', c, a)
    {
      assert c != |s.chunks| ==> (InHeader(s', c, a) <==> InHeader(s, c, a));
    }
    forall o, u, a | InOrphan(s', o, a)
      ensures !InPending(s', u, a)
    {
      assert u != t ==> (InPending(s', u, a) <==> InPending(s, u, a));
    }
  }

  /** The new chunk is apart from every slab and arena. */
  lemma AcquireCarved(s: State, t: nat, n: nat, base: nat)
    requires Core(s) && CanAcquire(s, t, n, base)
    ensures CarvedOk(DoAcquire(s, t, n, base))
  {
    AcquireOwners(s, t, n, base);
    hide ThreadOk, ChunksOk, PendingsOk, HasChunk, OwnersApart, StashOk, BlobsOk, OrphansOk, InBlob, InChunk;
    var s' := DoAcquire(s, t, n, base);
    forall u | 0 <= u < |s'.threads|
      ensures Borrowed(s', s'.threads[u].al) && HomeApart(s', s'.threads[u].al)
    {
      var al := s.threads[u].al;
      assert s'.threads[u].al == al && Borrowed(s, al) && HomeApart(s, al);
      forall c, a: nat | InHome(al, a)
        ensures !InChunk(s', c, a)
      {
        HomeOwned(al, a);
        assert ThreadOwns(s, u, a) && !Unused(s, a);
      }
    }
  }

  lemma HomeOwned(al: Allocator, a: nat)
    requires InHome(al, a)
    ensures Owns(al, a)
  {
    if !InArena(al.arena, a) {
      var k :| 0 <= k < |al.pools| && al.pools[k].regions != []
               && InRegion(al.pools[k].regions[0], al.pools[k].size, a);
      assert Contains(al.pools[k], a);
    }
  }

  lemma AcquireKeeps(s: State, t: nat, n: nat, base: nat)
    requires Inv(s) && CanAcquire(s, t, n, base) && NotReissued(s, base, CHUNK_SIZE)
    ensures Inv(DoAcquire(s, t, n, base))
  {
    AcquireOrphans(s, t, n, base);
    AcquireThreads(s, t, n, base);
    AcquireChunks(s, t, n, base);
    AcquirePendings(s, t, n, base);
    AcquireOwners(s, t, n, base);
    hide Owns, ThreadOk, ChunksOk, PendingsOk, OrphansOk, ThreadOwns, HasChunk;
    var s' := DoAcquire(s, t, n, base);
    AcquireBlobs(s, t, n, base);
    assert StashOk(s') by {
      assert forall u :: 0 <= u < |s.threads| ==> s'.threads[u].stash == s.threads[u].stash;
    }
    AcquireCarved(s, t, n, base);
    hide CarvedOk;
    assert RegistryOk(s');
  }

  // ---------------------------------------------------------------------------
  // The malloc fallback

  /** A change of blobs, registry and stashes only. */
  lemma BlobsOnly(s: State, s': State)
    requires Core(s) && s'.mem == s.mem && s'.chunks == s.chunks && s'.orphans == s.orphans && !s'.corrupt
    requires |s'.threads| == |s.threads|
    requires forall u :: 0 <= u < |s.threads| ==>
               s'.threads[u] == s.threads[u].(stash := s'.threads[u].stash)
    requires BlobsOk(s') && StashOk(s')
    ensures Core(s')
    ensures forall u, a :: ThreadOwns(s', u, a) <==> ThreadOwns(s, u, a)
    ensures forall c, a :: InChunk(s', c, a) <==> InChunk(s, c, a)
  {
    hide Owns, BlobsOk, StashOk;
    assert forall u, a :: ThreadOwns(s', u, a) <==> ThreadOwns(s, u, a);
    assert forall c, a :: InChunk(s', c, a) <==> InChunk(s, c, a);
    assert forall c, a :: InHeader(s', c, a) <==> InHeader(s, c, a);
    assert forall u, a :: InPending(s', u, a) <==> InPending(s, u, a);
    assert forall o, a :: InOrphan(s', o, a) <==> InOrphan(s, o, a);
    assert forall body, size :: HasChunk(s', body, size) <==> HasChunk(s, body, size);
    forall u | 0 <= u < |s.threads|
      ensures ThreadOk(s'.threads[u], s'.mem)
    {
      PendingIrrelevant(s.threads[u], s'.threads[u], s.mem);
    }
    hide HasChunk, ThreadOk;
    assert OrphansOk(s') by {
      assert forall c, o :: SizedAs(s', c, o) <==> SizedAs(s, c, o);
      hide ChunksOk, CarvedOk, PendingsOk, OwnersApart, SizedAs;
    }
    hide OrphansOk;
    assert ChunksOk(s') by {
      assert forall c :: 0 <= c < |s.chunks| && ChunkOk(s, s.chunks[c]) ==> ChunkOk(s', s.chunks[c]);
    }
    assert CarvedOk(s') by {
      hide InChunk, InHome;
      forall u | 0 <= u < |s'.threads|
        ensures Borrowed(s', s'.threads[u].al) && HomeApart(s', s'.threads[u].al)
      {
        assert Borrowed(s, s.threads[u].al) && HomeApart(s, s.threads[u].al);
      }
    }
    assert PendingsOk(s') by {
      assert forall u :: 0 <= u < |s.threads| ==>
               s'.threads[u].pending == s.threads[u].pending && s'.threads[u].al == s.threads[u].al;
    }
  }

  lemma NewBlob(s: State, s': State, base: nat, blob: Blob)
    requires Core(s) && FreshRegion(s, base, blob.len) && blob.len > 0
    requires s'.blobs == s.blobs[base := blob] && s'.chunks == s.chunks && |s'.threads| == |s.threads|
    requires forall u :: 0 <= u < |s.threads| ==> s'.threads[u].al == s.threads[u].al
    ensures BlobsOk(s') && base !in s.blobs
    ensures forall b, a: nat :: InBlob(s', b, a) <==> InBlob(s, b, a) || (b == base && base <= a < base + blob.len)
  {
    hide Owns, ThreadOk, OwnersApart, ChunksOk, CarvedOk, PendingsOk, StashOk, OrphansOk;
    assert Unused(s, base);
    assert !InBlob(s, base, base);
    assert forall u, a :: ThreadOwns(s', u, a) <==> ThreadOwns(s, u, a);
    assert forall c, a :: InChunk(s', c, a) <==> InChunk(s, c, a);
    forall b, d, a: nat | InBlob(s', b, a) && InBlob(s', d, a)
      ensures b == d
    {
      assert b != base ==> InBlob(s, b, a);
      assert d != base ==> InBlob(s, d, a);
      assert base <= a < base + blob.len ==> Unused(s, a);
    }
    forall b, u, a: nat | InBlob(s', b, a)
      ensures !ThreadOwns(s', u, a)
    {
      if b == base {
        assert Unused(s, a) && !ThreadOwns(s, u, a);
      } else {
        assert InBlob(s, b, a);
      }
    }
    forall b, c, a: nat | InBlob(s', b, a)
      ensures !InChunk(s', c, a)
    {
      if b == base {
        assert Unused(s, a) && !InChunk(s, c, a);
      } else {
        assert InBlob(s, b, a);
      }
    }
  }

  lemma MallocKeeps(s: State, t: nat, base: nat, n: nat, kept: set<nat>)
    requires Inv(s) && CanMalloc(s, t, base, n, kept)
    ensures Inv(DoMalloc(s, t, base, n, kept))
    ensures base !in s.blobs
    ensures var s' := DoMalloc(s, t, base, n, kept);
            Live(s', Malloced(base)) && Lo(s', Malloced(base)) == base && Hi(s', Malloced(base)) == base + n
  {
    hide ThreadOk, OwnersApart, ChunksOk, CarvedOk, PendingsOk, Owns;
    var s' := DoMalloc(s, t, base, n, kept);
    NewBlob(s, s', base, Plain(n));
    BlobsOnly(s, s');
    assert Unused(s, base);
    hide BlobsOk, StashOk, OrphansOk;
    forall r, b | r in s'.recorded && b in s'.blobs && s'.blobs[b].Over?
      ensures !InBlob(s', b, r)
    {
      assert b != base && !InBlob(s, b, r);
    }
  }

  /** A late store, whatever it brings back. */
  lemma PublishKeeps(s: State, kept: set<nat>)
    requires Inv(s) && CanPublish(s, kept)
    ensures Inv(DoPublish(s, kept))
  {
    hide ThreadOk, OwnersApart, ChunksOk, CarvedOk, PendingsOk, Owns;
    var s' := DoPublish(s, kept);
    assert BlobsOk(s') && StashOk(s') by {
      assert forall u, a :: ThreadOwns(s', u, a) <==> ThreadOwns(s, u, a);
      assert forall c, a :: InChunk(s', c, a) <==> InChunk(s, c, a);
      assert forall b, a :: InBlob(s', b, a) <==> InBlob(s, b, a);
    }
    BlobsOnly(s, s');
    hide BlobsOk, StashOk, OrphansOk;
    assert forall b, a :: InBlob(s', b, a) <==> InBlob(s, b, a);
  }

  lemma PayloadInside(raw: nat, n: nat, align: nat)
    requires IsPow2(align) && align > 0 && n > 0 && raw + n + align < WORD_MOD
    ensures AlignUp(raw, align) % align == 0
    ensures raw <= AlignUp(raw, align) && AlignUp(raw, align) + n < raw + n + align
  {
    AlignUpIsCeil(raw, align);
    CeilIsLeast(raw, align);
  }

  lemma AlignedStash(s: State, t: nat, raw: nat, n: nat, align: nat)
    requires Core(s) && CanMallocAligned(s, t, raw, n, align)
    requires raw !in s.blobs
    ensures StashOk(DoMallocAligned(s, t, raw, n, align))
  {
    hide ThreadOk, OwnersApart, ChunksOk, CarvedOk, PendingsOk, Owns, BlobsOk, AlignUp;
    PayloadInside(raw, n, align);
    var s' := DoMallocAligned(s, t, raw, n, align);
    var st, st' := s.threads[t].stash, s'.threads[t].stash;
    assert st'[|st|] == Stashed(raw, AlignUp(raw, align));
    forall b | b in s'.blobs && s'.blobs[b].Over?
      ensures Stashed(b, s'.blobs[b].payload) in s'.threads[s'.blobs[b].owner].stash
    {
      if b != raw && s.blobs[b].owner == t {
        var i :| 0 <= i < |st| && st[i] == Stashed(b, s.blobs[b].payload);
        assert st'[i] == st[i];
      }
    }
  }

  lemma MallocAlignedKeeps(s: State, t: nat, raw: nat, n: nat, align: nat)
    requires Inv(s) && CanMallocAligned(s, t, raw, n, align) && NotReissued(s, raw, n + align)
    ensures Inv(DoMallocAligned(s, t, raw, n, align))
    ensures var s' := DoMallocAligned(s, t, raw, n, align);
            var st, st' := s.threads[t].stash, s'.threads[t].stash;
            && |st'| == |st| + 1 && st'[..|st|] == st
            && st'[|st|].raw == raw && st'[|st|].payload % align == 0
            && Names(s', Malloced(raw), st'[|st|].payload)
            && st'[|st|].payload + n <= Hi(s', Malloced(raw))
  {
    hide ThreadOk, OwnersApart, ChunksOk, CarvedOk, PendingsOk, Owns, AlignUp;
    var s' := DoMallocAligned(s, t, raw, n, align);
    NewBlob(s, s', raw, Over(n + align, t, AlignUp(raw, align)));
    PayloadInside(raw, n, align);
    AlignedStash(s, t, raw, n, align);
    BlobsOnly(s, s');
    hide BlobsOk, StashOk, OrphansOk;
    forall r, b | r in s.recorded && b in s'.blobs && s'.blobs[b].Over?
      ensures !InBlob(s', b, r)
    {
      if b != raw {
        assert !InBlob(s, b, r);
      }
    }
  }

  /** Freeing a malloc object that no stash mentions. */
  lemma DropPlain(s: State, b: nat)
    requires Inv(s) && b in s.blobs && s.blobs[b].Plain?
    ensures Inv(s.(blobs := s.blobs - {b}))
  {
    hide ThreadOk, OwnersApart, ChunksOk, CarvedOk, PendingsOk, Owns;
    var s' := s.(blobs := s.blobs - {b});
    assert forall c, a :: InBlob(s', c, a) ==> InBlob(s, c, a);
    assert BlobsOk(s') by {
      assert forall u, a :: ThreadOwns(s', u, a) <==> ThreadOwns(s, u, a);
      assert forall c, a :: InChunk(s', c, a) <==> InChunk(s, c, a);
    }
    assert StashOk(s');
    BlobsOnly(s, s');
  }

  /** Freeing a stashed object: the region and its entry go together. */
  lemma DropStashed(s: State, t: nat, i: nat)
    requires Inv(s) && t < |s.threads| && i < |s.threads[t].stash|
    ensures var th := s.threads[t];
            Inv(WithThread(s, t, th.(stash := Erase(th.stash, i))).(blobs := s.blobs - {th.stash[i].raw}))
  {
    hide ThreadOk, OwnersApart, ChunksOk, CarvedOk, PendingsOk, Owns;
    var th := s.threads[t];
    var b := th.stash[i].raw;
    var s' := WithThread(s, t, th.(stash := Erase(th.stash, i))).(blobs := s.blobs - {b});
    assert forall c, a :: InBlob(s', c, a) ==> InBlob(s, c, a);
    assert BlobsOk(s') by {
      assert forall u, a :: ThreadOwns(s', u, a) <==> ThreadOwns(s, u, a);
      assert forall c, a :: InChunk(s', c, a) <==> InChunk(s, c, a);
    }
    ErasedStash(s, t, i);
    BlobsOnly(s, s');
    assert RegistryOk(s') by {
      assert forall c :: c in s'.blobs ==> s'.blobs[c] == s.blobs[c];
    }
  }

  lemma ErasedFrom(q: seq<Stashed>, i: nat)
    requires i < |q|
    requires forall j, k :: 0 <= j < k < |q| ==> q[j].raw != q[k].raw
    ensures var q' := Erase(q, i);
            && (forall e :: e in q' <==> e in q && e.raw != q[i].raw)
            && (forall j, k :: 0 <= j < k < |q'| ==> q'[j].raw != q'[k].raw)
  {
    var q' := Erase(q, i);
    assert forall j :: 0 <= j < |q'| ==> q'[j] == if j < i then q[j] else q[j + 1];
    forall e | e in q && e.raw != q[i].raw
      ensures e in q'
    {
      var j :| 0 <= j < |q| && q[j] == e;
      assert q'[if j < i then j else j - 1] == e;
    }
  }

  lemma ErasedStash(s: State, t: nat, i: nat)
    requires Core(s) && t < |s.threads| && i < |s.threads[t].stash|
    ensures var th := s.threads[t];
            StashOk(WithThread(s, t, th.(stash := Erase(th.stash, i))).(blobs := s.blobs - {th.stash[i].raw}))
  {
    hide ThreadOk, OwnersApart, ChunksOk, CarvedOk, PendingsOk, Owns, BlobsOk, Erase;
    var st := s.threads[t].stash;
    var b, st' := st[i].raw, Erase(st, i);
    var s' := WithThread(s, t, s.threads[t].(stash := st')).(blobs := s.blobs - {b});
    ErasedFrom(st, i);
    forall u, j | 0 <= u < |s'.threads| && 0 <= j < |s'.threads[u].stash|
      ensures var e := s'.threads[u].stash[j]; e.raw != b && e in s.threads[u].stash
    {
      var e := s'.threads[u].stash[j];
      if u == t {
        assert e in st';
      } else {
        assert e == s.threads[u].stash[j] && s.blobs[e.raw].owner == u && s.blobs[b].owner == t;
      }
    }
    hide WithThread;
  }
}
