/** Where an allocator's bytes are: inside what malloc has given out.  Two allocators that start apart
    stay apart and in order, whatever either of them does. */
module Footprints {
  import opened FreeList
  import opened Bits
  import opened SizeClasses
  import opened Pools
  import opened Arenas
  import opened Allocators
  import opened Routing
  import opened Heap

  /** Some outstanding region holds the byte. */
  ghost predicate Taken(regions: map<nat, nat>, x: nat) {
    exists b :: b in regions && b <= x < b + regions[b]
  }

  /** Nothing outstanding was given back. */
  ghost predicate Grown(regions: map<nat, nat>, regions': map<nat, nat>) {
    forall b :: b in regions ==> b in regions' && regions'[b] == regions[b]
  }

  /** The allocator is in order with `h` handed out, and all it owns was given out by malloc. */
  ghost predicate Sound(al: Allocator, m: Words, regions: map<nat, nat>, h: Holdings) {
    && AllocatorOk(al, m, h)
    && forall x: nat :: Owns(al, x) ==> Taken(regions, x)
  }

  /** Memory that others had from malloc is as it was. */
  ghost predicate SparesOthers(al: Allocator, m: Words, m': Words, regions: map<nat, nat>) {
    forall x: nat :: Taken(regions, x) && !Owns(al, x) && x in m ==> x in m' && m'[x] == m[x]
  }

  /** The allocator takes over only what malloc had not given out before. */
  ghost predicate ClaimsFresh(al: Allocator, al': Allocator, regions: map<nat, nat>) {
    forall x: nat :: Owns(al', x) ==> Owns(al, x) || !Taken(regions, x)
  }

  /** A chunk that the central heap has just had from malloc, by the address of its body. */
  ghost predicate ChunkGiven(regions: map<nat, nat>, regions': map<nat, nat>, body: nat) {
    && body >= HEADER_BYTES && (body - HEADER_BYTES) % CHUNK_SIZE == 0
    && Memory.Fresh(regions, body - HEADER_BYTES, CHUNK_SIZE)
    && forall x: nat :: body - HEADER_BYTES <= x < body - HEADER_BYTES + CHUNK_SIZE ==> Taken(regions', x)
  }

  lemma TakenGrown(regions: map<nat, nat>, regions': map<nat, nat>, x: nat)
    requires Grown(regions, regions') && Taken(regions, x)
    ensures Taken(regions', x)
  {
    var b :| b in regions && b <= x < b + regions[b];
    assert b in regions' && regions'[b] == regions[b];
  }

  lemma FreshNotTaken(regions: map<nat, nat>, p: nat, n: nat, x: nat)
    requires Memory.Fresh(regions, p, n) && p <= x < p + n
    ensures !Taken(regions, x)
  {
  }

  lemma TakenOutside(regions: map<nat, nat>, p: nat, n: nat, x: nat)
    requires Memory.Fresh(regions, p, n) && Taken(regions, x)
    ensures !(p <= x < p + n)
  {
  }

  /** What is handed out after `allocate(n)` returned `p`. */
  ghost function Handed(al: Allocator, h: Holdings, n: nat, p: nat): Holdings
    requires |h.blocks| == NUM_CLASSES
  {
    if n > MAX_SMALL then TakeRange(al, h, n, MAX_ALIGN)
    else if p == 0 then h
    else FitIsTight(n); Take(h, ClassIndex(n), p)
  }

  lemma Growing(al: Allocator, m: Words, regions: map<nat, nat>, regions': map<nat, nat>, h: Holdings)
    requires Sound(al, m, regions, h) && Grown(regions, regions')
    ensures Sound(al, m, regions', h)
  {
    hide AllocatorOk, Owns, Taken;
    forall x: nat | Owns(al, x)
      ensures Taken(regions', x)
    {
      TakenGrown(regions, regions', x);
    }
  }

  /** The bytes owned after `allocate`. */
  lemma AllocateOwns(al: Allocator, m: Words, n: nat, body: nat)
    requires Sized(al)
    ensures var al' := Allocate(al, m, n, body).0;
            && Sized(al') && al'.arena.base == al.arena.base && al'.arena.capacity == al.arena.capacity
            && forall x: nat :: Owns(al', x) ==>
                 Owns(al, x) || (body >= HEADER_BYTES && body <= x < body + (CHUNK_SIZE - HEADER_BYTES))
  {
    hide Owns, Refill, PopFrom, FromBump, HeaderWritten, ClassIndex;
    if n > MAX_SMALL {
      BumpOwns(al, n, MAX_ALIGN);
    } else {
      FitIsTight(n);
      var k := ClassIndex(n);
      PopOwns(al, m, k, n);
      if body >= HEADER_BYTES {
        var m1 := HeaderWritten(m, body - HEADER_BYTES, ClassSize(k));
        var (al2, m2) := Refill(al, m1, k, body);
        RefillFits(k);
        RefillOwns(al, m1, k, body);
        RefillSized(al, m1, k, body);
        PopOwns(al2, m2, k, n);
        PopNull(al, m, k, n);
      }
    }
  }

  lemma PopNull(al: Allocator, m: Words, k: nat, n: nat)
    requires k < NUM_CLASSES == |al.pools|
    ensures PopFrom(al, m, k, n).1 == 0 ==> PopFrom(al, m, k, n).0 == al
  {
  }

  lemma BumpOwns(al: Allocator, n: nat, align: nat)
    requires 0 < align <= WORD_MOD
    ensures var al' := FromBump(al, n, align).0;
            && al'.pools == al.pools
            && al'.arena.base == al.arena.base && al'.arena.capacity == al.arena.capacity
            && forall x: nat :: Owns(al', x) <==> Owns(al, x)
  {
    hide AlignUp, Wrap;
  }

  lemma PopOwns(al: Allocator, m: Words, k: nat, n: nat)
    requires Sized(al) && k < NUM_CLASSES
    ensures var al' := PopFrom(al, m, k, n).0;
            && Sized(al') && al'.arena == al.arena && forall x: nat :: Owns(al', x) <==> Owns(al, x)
  {
    var p := Pop(al.pools[k], m).0;
    assert forall x :: Contains(p, x) <==> Contains(al.pools[k], x);
    SwapOwns(al, k, p);
  }

  lemma RefillSized(al: Allocator, m: Words, k: nat, body: nat)
    requires Sized(al) && k < NUM_CLASSES
    ensures var al' := Refill(al, m, k, body).0; Sized(al') && al'.arena == al.arena
  {
  }

  /** What `allocate` claims and which words it leaves alone. */
  lemma AllocateElsewhere(al: Allocator, m: Words, regions: map<nat, nat>, n: nat, body: nat, regions': map<nat, nat>)
    requires Sized(al) && (body != 0 ==> ChunkGiven(regions, regions', body))
    ensures var (al', m', p) := Allocate(al, m, n, body);
            SparesOthers(al, m, m', regions) && ClaimsFresh(al, al', regions)
  {
    var (al', m', p) := Allocate(al, m, n, body);
    AllocateOwns(al, m, n, body);
    hide Owns, Taken, Refill, PopFrom, FromBump, Memory.Fresh, Sized;
    forall x: nat | Owns(al', x) && !Owns(al, x)
      ensures !Taken(regions, x)
    {
      FreshNotTaken(regions, body - HEADER_BYTES, CHUNK_SIZE, x);
    }
    forall x: nat | Taken(regions, x) && !Owns(al, x) && x in m
      ensures x in m' && m'[x] == m[x]
    {
      if body != 0 {
        TakenOutside(regions, body - HEADER_BYTES, CHUNK_SIZE, x);
      }
      AllocateWrites(al, m, n, body, x);
    }
  }

  /** `allocate` writes into the chunk it was given and nowhere else. */
  lemma AllocateWrites(al: Allocator, m: Words, n: nat, body: nat, x: nat)
    requires Sized(al) && x in m
    requires body != 0 ==> body >= HEADER_BYTES && !(body - HEADER_BYTES <= x < body - HEADER_BYTES + CHUNK_SIZE)
    ensures var m' := Allocate(al, m, n, body).1; x in m' && m'[x] == m[x]
  {
    hide PopFrom, FromBump, ClassIndex, Span, RefillCount;
    if n <= MAX_SMALL && body != 0 {
      FitIsTight(n);
      var k := ClassIndex(n);
      var m1 := HeaderWritten(m, body - HEADER_BYTES, ClassSize(k));
      RefillFits(k);
      if x in BlockSet(body, RefillCount(k), ClassSize(k)) {
        BlockInside(body, RefillCount(k), ClassSize(k), x);
      }
      LinkFrame(m1, body, RefillCount(k), ClassSize(k), al.pools[k].head, x);
      hide LinkBlocks, BlockSet;
    }
  }

  /** `allocate` keeps the allocator sound: with the block or range it hands out, and the chunk it may
      have been given. */
  lemma AllocateSound(al: Allocator, m: Words, regions: map<nat, nat>, h: Holdings, n: nat, body: nat,
                      regions': map<nat, nat>)
    requires Sound(al, m, regions, h) && |h.blocks| == NUM_CLASSES && n < WORD_MOD && Grown(regions, regions')
    requires n > MAX_SMALL ==> !CheckWraps(al.arena, n, MAX_ALIGN)
    requires body != 0 ==> ChunkGiven(regions, regions', body)
    ensures |al.pools| == NUM_CLASSES
    ensures var (al', m', p) := Allocate(al, m, n, body); Sound(al', m', regions', Handed(al, h, n, p))
  {
    SoundSized(al, m, regions, h);
    hide AllocatorOk, Owns, Taken, Refill, PopFrom, FromBump, Memory.Fresh, Sized, CheckWraps, IsPow2, ClassIndex;
    ChunkUnowned(al, m, regions, h, body, regions');
    Pow16();
    AllocateKeeps(al, m, h, n, body);
    AllocateOwns(al, m, n, body);
    var (al', m', p) := Allocate(al, m, n, body);
    assert AllocatorOk(al', m', Handed(al, h, n, p));
    forall x: nat | Owns(al', x)
      ensures Taken(regions', x)
    {
      if Owns(al, x) {
        TakenGrown(regions, regions', x);
      }
    }
  }

  lemma Pow16()
    ensures IsPow2(MAX_ALIGN)
  {
    assert Pow2(4) == 16;
  }

  lemma SoundSized(al: Allocator, m: Words, regions: map<nat, nat>, h: Holdings)
    requires Sound(al, m, regions, h)
    ensures Sized(al) && |h.blocks| == NUM_CLASSES
  {
    hide Owns, RangesOk, PoolOk, Contains;
    assert forall k :: 0 <= k < NUM_CLASSES ==> ClassOk(al.pools[k], k);
  }

  lemma ChunkUnowned(al: Allocator, m: Words, regions: map<nat, nat>, h: Holdings, body: nat, regions': map<nat, nat>)
    requires Sound(al, m, regions, h) && (body != 0 ==> ChunkGiven(regions, regions', body))
    ensures body >= HEADER_BYTES ==>
      && body % 64 == 0
      && forall a :: body - HEADER_BYTES <= a < body + (CHUNK_SIZE - HEADER_BYTES) ==> !Owns(al, a)
  {
    hide AllocatorOk, Owns, Taken, Memory.Fresh;
    if body != 0 {
      MultipleOfMultiple(body - HEADER_BYTES, CHUNK_SIZE, 64);
      ModAdd(body - HEADER_BYTES, HEADER_BYTES, 64);
      forall a | body - HEADER_BYTES <= a < body + (CHUNK_SIZE - HEADER_BYTES)
        ensures !Owns(al, a)
      {
        FreshNotTaken(regions, body - HEADER_BYTES, CHUNK_SIZE, a);
      }
    }
  }

  /** Freeing a block that is handed out keeps the allocator sound. */
  lemma PushSound(al: Allocator, m: Words, regions: map<nat, nat>, h: Holdings, k: nat, a: nat, n: nat)
    requires Sound(al, m, regions, h) && k < NUM_CLASSES == |al.pools| && k < |h.blocks| && a in h.blocks[k]
    ensures var (al', m') := PushTo(al, m, k, a, n);
            && Sound(al', m', regions, Drop(h, k, a))
            && SparesOthers(al, m, m', regions) && ClaimsFresh(al, al', regions)
  {
    HeldOwned(al, m, h, k, a);
    hide AllocatorOk, Owns, Taken;
    PushToKeeps(al, m, h, k, a, n);
  }

  lemma HeldOwned(al: Allocator, m: Words, h: Holdings, k: nat, a: nat)
    requires AllocatorOk(al, m, h) && k < NUM_CLASSES && k < |h.blocks| && a in h.blocks[k]
    ensures Owns(al, a)
  {
    hide RangesOk, Blocks, Contains;
    assert PoolOk(al.pools[k], m, h.blocks[k]);
    BlockContained(al.pools[k], a, a);
  }

  /** So does a request to the arena whose bounds check does not wrap. */
  lemma BumpSound(al: Allocator, m: Words, regions: map<nat, nat>, h: Holdings, n: nat, align: nat)
    requires Sound(al, m, regions, h) && n < WORD_MOD && IsPow2(align)
    requires align > 0 && !CheckWraps(al.arena, n, align)
    ensures align <= WORD_MOD && Sound(FromBump(al, n, align).0, m, regions, TakeRange(al, h, n, align))
  {
    PowDividesWord(align);
    hide AllocatorOk, Owns, Taken, CheckWraps;
    FromBumpKeeps(al, m, h, n, align);
  }

  /** Giving back a region that holds none of its bytes does not concern an allocator. */
  lemma FreeSound(al: Allocator, m: Words, regions: map<nat, nat>, h: Holdings, r: nat)
    requires Sound(al, m, regions, h)
    requires r in regions ==> forall x: nat :: r <= x < r + regions[r] ==> !Owns(al, x)
    ensures Sound(al, m, regions - {r}, h)
  {
    hide AllocatorOk, Owns;
    forall x: nat | Owns(al, x)
      ensures Taken(regions - {r}, x)
    {
      var b :| b in regions && b <= x < b + regions[b];
      assert b in regions - {r};
    }
  }

  /** Two allocators own no byte in common. */
  ghost predicate Apart(al: Allocator, other: Allocator) {
    forall x: nat :: Owns(al, x) ==> !Owns(other, x)
  }

  /** Whatever an allocator does that spares others and claims only what is fresh, another one that was
      sound and apart is sound and apart afterwards. */
  lemma OtherStaysSound(al: Allocator, al': Allocator, m: Words, m': Words, regions: map<nat, nat>,
                          regions': map<nat, nat>,
                        other: Allocator, h: Holdings)
    requires Sound(other, m, regions, h) && Apart(al, other) && Grown(regions, regions')
    requires SparesOthers(al, m, m', regions) && ClaimsFresh(al, al', regions)
    ensures Sound(other, m', regions', h) && Apart(al', other)
  {
    hide AllocatorOk, Owns, Taken;
    UnownedWrites(other, m, m', h);
    Growing(other, m', regions, regions', h);
  }
}
