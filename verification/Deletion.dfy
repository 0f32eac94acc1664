/** operator delete sees an address only.  Here: it acts as if it were told what the address is. */
module Deletion {
  import opened FreeList
  import opened SizeClasses
  import opened Pools
  import opened Arenas
  import opened StatsModel
  import opened Allocators
  import opened Routing
  import opened Machine
  import opened Safety
  import opened Steps
  import opened SharedSteps
  import opened Objects

  /** A stash entry of the thread that matches the address belongs to the object it names. */
  lemma StashHit(s: State, t: nat, it: Item, p: nat)
    requires Core(s) && t < |s.threads| && Names(s, it, p)
    ensures var st := s.threads[t].stash;
            var i := FindStash(st, p, 0);
            if it.Malloced? && s.blobs[it.b].Over? && s.blobs[it.b].owner == t
            then i < |st| && st[i] == Stashed(it.b, p)
            else i == |st|
  {
    hide ThreadOk, OwnersApart, ChunksOk, CarvedOk, PendingsOk, Owns;
    var st := s.threads[t].stash;
    var i := FindStash(st, p, 0);
    if i < |st| {
      var raw := st[i].raw;
      assert s.blobs[raw].Over? && s.blobs[raw].owner == t && s.blobs[raw].payload == p;
      assert Covers(s, Malloced(raw), p);
      LiveDisjoint(s, Malloced(raw), it, p);
    }
  }

  /** Only an ordinary fallback object can have its address registered. */
  lemma RegisteredIsPlain(s: State, it: Item, p: nat)
    requires Inv(s) && Names(s, it, p) && p in s.registered
    ensures it.Malloced? && s.blobs[it.b].Plain? && p == it.b
  {
    ItemOwner(s, it, p);
    hide ThreadOk, OwnersApart, ChunksOk, CarvedOk, PendingsOk, BlobsOk, StashOk, Owns;
  }

  /** The classification a thread in use arrives at for an address naming a live object. */
  lemma ClassifyItem(s: State, t: nat, it: Item, p: nat)
    requires Core(s) && t < |s.threads| && s.threads[t].phase == Up && Names(s, it, p)
    ensures Classify(s.threads[t].al, p)
            == if !InThread(it) || it.t != t then NotOurs else if it.Bumped? then FromArena else FromPool(it.k)
    ensures it.Block? && it.t == t ==> ContainingBlock(s.threads[t].al.pools[it.k], p) == it.a
  {
    hide Core, Contains, ContainingBlock, Owns, Classify, PoolsOk, RangesOk;
    var th := s.threads[t];
    UpAllocatorOk(s, t);
    ItemOwner(s, it, p);
    match it {
      case Block(u, k, a) =>
        if u == t {
          BlockHome(s, t, k, a);
          HeldBlockClass(th.al, s.mem, th.held, k, a, p - a);
        } else {
          NotOwnedNotOurs(s, t, u, p);
        }
      case Bumped(u, i) =>
        if u == t {
          RangeBytes(s, t, i, p);
          AllocatorSeparate(th.al, s.mem, th.held);
          ClassifyIsExact(th.al, p);
        } else {
          NotOwnedNotOurs(s, t, u, p);
        }
      case Malloced(b) =>
        BlobNotOurs(s, t, b, p);
      case Kept(o) =>
        OrphanNotOurs(s, t, o, p);
    }
  }

  lemma NotOwnedNotOurs(s: State, t: nat, u: nat, p: nat)
    requires Core(s) && t < |s.threads| && s.threads[t].phase == Up && u != t && ThreadOwns(s, u, p)
    ensures Classify(s.threads[t].al, p) == NotOurs
  {
    hide ChunksOk, CarvedOk, PendingsOk, BlobsOk, StashOk, OrphansOk, PoolsOk, Classify;
    assert !ThreadOwns(s, t, p);
    UnownedNotOurs(s, t, p);
  }

  lemma BlobNotOurs(s: State, t: nat, b: nat, p: nat)
    requires Core(s) && t < |s.threads| && s.threads[t].phase == Up && InBlob(s, b, p)
    ensures Classify(s.threads[t].al, p) == NotOurs
  {
    hide ChunksOk, CarvedOk, PendingsOk, StashOk, OrphansOk, PoolsOk, ThreadOk, Owns, Classify;
    assert !ThreadOwns(s, t, p);
    UnownedNotOurs(s, t, p);
  }

  lemma OrphanNotOurs(s: State, t: nat, o: Orphan, p: nat)
    requires Core(s) && t < |s.threads| && s.threads[t].phase == Up && InOrphan(s, o, p)
    ensures Classify(s.threads[t].al, p) == NotOurs
  {
    hide ChunksOk, CarvedOk, PendingsOk, BlobsOk, StashOk, PoolsOk, ThreadOk, Owns, Classify;
    assert !ThreadOwns(s, t, p);
    UnownedNotOurs(s, t, p);
  }

  lemma UnownedNotOurs(s: State, t: nat, p: nat)
    requires Core(s) && t < |s.threads| && s.threads[t].phase == Up && !ThreadOwns(s, t, p)
    ensures Classify(s.threads[t].al, p) == NotOurs
  {
    hide OwnersApart, ChunksOk, CarvedOk, PendingsOk, StashOk, OrphansOk, BlobsOk, PoolsOk;
    var th := s.threads[t];
    assert ThreadOk(th, s.mem);
    AllocatorSeparate(th.al, s.mem, th.held);
    hide Contains, Classify;
    ClassifyIsExact(th.al, p);
    assert !ArenaContains(th.al.arena, p) by {
      assert ArenaContains(th.al.arena, p) ==> InArena(th.al.arena, p);
    }
  }

  /** The action that is right for the origin of an object. */
  ghost function RightAction(s: State, t: nat, it: Item): Action
    requires t < |s.threads| && Live(s, it)
  {
    match it
    case Block(u, k, a) => if s.ready && u == t && s.threads[t].phase == Up then PushBlock(k) else Nothing
    case Bumped(u, i) => Nothing
    case Kept(o) => Nothing
    case Malloced(b) =>
      match s.blobs[b]
      case Plain(len) => if b in s.registered then FreePointer else Nothing
      case Over(len, u, payload) => if u == t then FreeStashed(FindStash(s.threads[t].stash, payload, 0)) else Nothing
  }

  /** From the address alone, delete decides on the action that is right for the object's origin. */
  lemma DecisionIsRight(s: State, t: nat, it: Item, p: nat)
    requires Inv(s) && t < |s.threads| && Names(s, it, p)
    ensures var th := s.threads[t];
            Decide(th.stash, s.ready, th.phase == Up, th.al, s.registered, p) == RightAction(s, t, it)
  {
    StashHit(s, t, it, p);
    if p in s.registered {
      RegisteredIsPlain(s, it, p);
    }
    NamedPositive(s, it, p);
    if s.threads[t].phase == Up {
      ClassifyItem(s, t, it, p);
    }
    hide Inv, Classify, ContainingBlock, Contains;
  }

  /** What the decision rests on, for a deletion that a client may ask for. */
  lemma DeleteFacts(s: State, t: nat, it: Item, p: nat)
    requires Inv(s) && CanDelete(s, t, p) && Names(s, it, p)
    ensures t < |s.threads| && Live(s, it)
    ensures var th := s.threads[t];
            && Decide(th.stash, s.ready, th.phase == Up, th.al, s.registered, p) == RightAction(s, t, it)
            && (it.Malloced? && s.blobs[it.b].Over? && s.blobs[it.b].owner == t ==>
                 var i := FindStash(th.stash, s.blobs[it.b].payload, 0);
                 i < |th.stash| && th.stash[i] == Stashed(it.b, p))
            && (it.Malloced? ==> it.b in s.blobs)
            && (it.Malloced? && s.blobs[it.b].Plain? ==> p == it.b)
            && (it.Block? && it.t == t && th.phase == Up ==>
                 && Sized(th.al) && it.k < NUM_CLASSES && ContainingBlock(th.al.pools[it.k], p) == it.a
                 && ClassSize(it.k) <= MAX_SMALL && ClassIndex(ClassSize(it.k)) == it.k)
  {
    hide Core, Decide, Classify, ContainingBlock, Contains;
    DecisionIsRight(s, t, it, p);
    StashHit(s, t, it, p);
    if it.Block? && it.t == t && s.threads[t].phase == Up {
      ClassifyItem(s, t, it, p);
      ClassRoundTrip(it.k);
    }
  }

  /** For every live object of any origin and every thread: deleting by address does exactly what
      the delete that is told the origin does.  The owning thread's pool block is pushed back, the
      fallback pointer is freed, the stashed region is freed through its raw pointer, an arena
      pointer is left alone, and everything foreign, unregistered or too late is left unchanged. */
  lemma DeleteRefinesTagged(s: State, t: nat, it: Item, p: nat)
    requires Inv(s) && CanDelete(s, t, p) && Names(s, it, p)
    ensures DoDelete(s, t, p) == TaggedDelete(s, t, it)
  {
    hide Inv, Names, ContainingBlock, PushTo, Sized, Decide, CanDelete, Live;
    DeleteFacts(s, t, it, p);
  }

  lemma NamedPositive(s: State, it: Item, p: nat)
    requires Core(s) && Names(s, it, p)
    ensures p > 0
  {
    hide OwnersApart, CarvedOk, PendingsOk, StashOk;
    match it
    case Block(t, k, a) => BlockBytes(s, t, k, a, p);
    case Bumped(t, i) => assert ThreadOk(s.threads[t], s.mem);
    case Malloced(b) =>
    case Kept(o) =>
      assert InOrphan(s, o, p) && SomeChunk(s, p);
      var c: nat :| InChunk(s, c, p);
      assert ChunkOk(s, s.chunks[c]);
  }

  /** The object cannot be released by this thread: it belongs to another thread's allocator, to
      one not in use, or to another thread's stash. */
  ghost predicate OutOfReach(s: State, t: nat, it: Item) {
    match it
    case Malloced(b) => b in s.blobs && s.blobs[b].Over? && s.blobs[b].owner != t
    case Block(u, k, a) => !(s.ready && u == t && t < |s.threads| && s.threads[t].phase == Up)
    case Bumped(u, i) => !(s.ready && u == t && t < |s.threads| && s.threads[t].phase == Up)
    case Kept(o) => true
  }

  lemma OutOfReachFacts(s: State, t: nat, it: Item, p: nat)
    requires Core(s) && CanDelete(s, t, p) && Names(s, it, p) && OutOfReach(s, t, it)
    ensures p > 0 && !s.corrupt && t < |s.threads| && FindStash(s.threads[t].stash, p, 0) == |s.threads[t].stash|
    ensures s.ready && s.threads[t].phase == Up ==> Classify(s.threads[t].al, p) == NotOurs
    ensures !it.Malloced? ==> p !in s.blobs
  {
    assert !s.corrupt;
    hide Core, Classify, ContainingBlock, Contains;
    StashHit(s, t, it, p);
    NamedPositive(s, it, p);
    if s.threads[t].phase == Up {
      ClassifyItem(s, t, it, p);
    }
    if !it.Malloced? {
      NotAMallocBase(s, it, p);
    }
  }

  /** Without any assumption about the registry: deleting an object that is out of reach is
      harmless if and only if its address is not registered.  (A stale entry makes delete free a
      pool or arena address as if malloc had given it out.) */
  lemma OutOfReachHarmlessIff(s: State, t: nat, it: Item, p: nat)
    requires Core(s) && CanDelete(s, t, p) && Names(s, it, p) && OutOfReach(s, t, it)
    ensures DoDelete(s, t, p) == s <==> p !in s.registered
    ensures p in s.registered && !it.Malloced? ==> DoDelete(s, t, p).corrupt
  {
    hide Core, CanDelete, Names, OutOfReach, Classify, ContainingBlock, Sized;
    OutOfReachFacts(s, t, it, p);
  }

  /** No malloc region starts at an address inside a pool, an arena or an orphan cut from a chunk. */
  lemma NotAMallocBase(s: State, it: Item, p: nat)
    requires Core(s) && Covers(s, it, p) && !it.Malloced?
    ensures p !in s.blobs
  {
    ItemOwner(s, it, p);
    if p in s.blobs {
      assert InBlob(s, p, p) by {
        hide ThreadOk, OwnersApart, ChunksOk, CarvedOk, PendingsOk, StashOk, OrphansOk, Owns;
      }
      OneHolder(s, it, Malloced(p), p);
    }
  }

  /** What a deletion does when it finds something: the state is never the same afterwards. */
  lemma ActionShows(s: State, t: nat, p: nat)
    requires t < |s.threads| && !s.corrupt
    requires s.threads[t].phase == Up ==> Sized(s.threads[t].al) && |s.threads[t].held.blocks| == NUM_CLASSES
    ensures var th := s.threads[t];
            DoDelete(s, t, p) == s
            <==> Decide(th.stash, s.ready, th.phase == Up, th.al, s.registered, p) == Nothing
  {
    hide Decide, ContainingBlock, Push;
  }

  /** For every address whatsoever, live, dead or made up: a deletion by thread `t` changes nothing if
      and only if the address is no stashed payload of the thread, is not registered, and, when the
      thread's allocator is asked, lies in none of its pools. */
  lemma DeleteNothingIff(s: State, t: nat, p: nat)
    requires Inv(s) && t < |s.threads| && p != 0
    requires s.threads[t].phase == Up ==> Sized(s.threads[t].al) && |s.threads[t].held.blocks| == NUM_CLASSES
    ensures DoDelete(s, t, p) == s <==> Spared(s, t, p)
  {
    ActionShows(s, t, p);
    if s.threads[t].phase == Up {
      PoolsOrRegistered(s, t, p);
    }
    hide Inv, Classify, DoDelete, Contains;
  }

  /** What classification says of an address, as far as deletion is concerned. */
  lemma PoolsOrRegistered(s: State, t: nat, p: nat)
    requires Inv(s) && t < |s.threads| && s.threads[t].phase == Up && p != 0
    ensures var al := s.threads[t].al;
            && (Classify(al, p).FromPool? <==> exists k :: 0 <= k < |al.pools| && Contains(al.pools[k], p))
            && (Classify(al, p).FromArena? ==> p !in s.registered)
  {
    hide OwnersApart, ChunksOk, CarvedOk, PendingsOk, BlobsOk, StashOk, OrphansOk, PoolsOk, Contains, Classify;
    var th := s.threads[t];
    assert ThreadOk(th, s.mem);
    AllocatorSeparate(th.al, s.mem, th.held);
    ClassifyIsExact(th.al, p);
    if p in s.registered {
      assert !ThreadOwns(s, t, p);
    }
  }

  /** Objects of threads that have exited, deleted by any thread at any time.  Cut from a chunk:
      nothing changes.  From a slab or the arena, whose memory exit gave back: nothing changes if
      and only if the address is spared, that is, malloc has not meanwhile issued it to a pool of
      the deleting thread, to its stash, or as a registered pointer. */
  lemma OrphanDeleteIff(s: State, t: nat, o: Orphan, p: nat)
    requires Inv(s) && t < |s.threads| && o in s.orphans && o.lo <= p < o.hi && p != 0
    requires s.threads[t].phase == Up ==> Sized(s.threads[t].al) && |s.threads[t].held.blocks| == NUM_CLASSES
    ensures DoDelete(s, t, p) == s <==> o.carved || Spared(s, t, p)
  {
    DeleteNothingIff(s, t, p);
    if o.carved {
      assert Names(s, Kept(o), p);
      DecisionIsRight(s, t, Kept(o), p);
      ActionShows(s, t, p);
    }
    hide Inv, DoDelete, Spared, Decide, Classify;
  }

  /** The decision for an address in a pool of the deleting thread. */
  lemma OwnPoolPushed(s: State, t: nat, k: nat, p: nat)
    requires Inv(s) && s.ready && Idle(s, t) && k < NUM_CLASSES && Contains(s.threads[t].al.pools[k], p)
    ensures var th := s.threads[t];
            && Decide(th.stash, s.ready, th.phase == Up, th.al, s.registered, p) == PushBlock(k)
            && ContainingBlock(th.al.pools[k], p) in Blocks(th.al.pools[k])
            && PoolOk(th.al.pools[k], s.mem, th.held.blocks[k])
            && ClassSize(k) <= MAX_SMALL && ClassIndex(ClassSize(k)) == k
  {
    hide OwnersApart, ChunksOk, CarvedOk, PendingsOk, OrphansOk, PoolsOk, RangesOk, Blocks, Contains, Classify,
         ContainingBlock;
    var th := s.threads[t];
    assert ThreadOk(th, s.mem);
    assert PoolOk(th.al.pools[k], s.mem, th.held.blocks[k]) by { OwnPoolOk(th, s.mem, k); }
    AllocatorSeparate(th.al, s.mem, th.held);
    ClassifyIsExact(th.al, p);
    ContainedByteHasBlock(th.al.pools[k], p);
    ClassRoundTrip(k);
    assert ThreadOwns(s, t, p);
    OwnNotStashed(s, t, p);
  }

  lemma OwnNotStashed(s: State, t: nat, p: nat)
    requires Core(s) && t < |s.threads| && ThreadOwns(s, t, p)
    ensures FindStash(s.threads[t].stash, p, 0) == |s.threads[t].stash|
  {
    hide ThreadOk, OwnersApart, ChunksOk, CarvedOk, PendingsOk, OrphansOk, ThreadOwns;
    var st := s.threads[t].stash;
    var i := FindStash(st, p, 0);
    assert i < |st| ==> !InBlob(s, st[i].raw, p);
  }

  /** The deletion of an address in a pool of the deleting thread is a push, right or wrong. */
  lemma OwnPoolDeleted(s: State, t: nat, k: nat, p: nat)
    requires Inv(s) && s.ready && Idle(s, t) && k < NUM_CLASSES && Contains(s.threads[t].al.pools[k], p)
    ensures var th := s.threads[t];
            var b := ContainingBlock(th.al.pools[k], p);
            var (al, m) := PushTo(th.al, s.mem, k, b, ClassSize(k));
            && DoDelete(s, t, p) == Stepped(s, t, th.(al := al, held := Drop(th.held, k, b)), m)
            && b in Blocks(th.al.pools[k]) && PoolOk(th.al.pools[k], s.mem, th.held.blocks[k])
  {
    OwnPoolPushed(s, t, k, p);
    hide Inv, Contains, ContainingBlock, Blocks, Decide, PoolOk, PushTo;
  }

  lemma OwnPoolOk(th: Thread, m: Words, k: nat)
    requires AllocatorOk(th.al, m, th.held) && k < NUM_CLASSES
    ensures PoolOk(th.al.pools[k], m, th.held.blocks[k])
  {
  }

  /** An address in a pool of the deleting thread, whoever handed it over: deleting it keeps the
      invariant if and only if the block it lies in is handed out.  If malloc has issued the memory
      of an exited thread to this pool and the block is free, it is pushed a second time. */
  lemma PoolDeleteKeepsIff(s: State, t: nat, k: nat, p: nat)
    requires Inv(s) && s.ready && Idle(s, t) && k < NUM_CLASSES && Contains(s.threads[t].al.pools[k], p)
    ensures var b := ContainingBlock(s.threads[t].al.pools[k], p);
            Inv(DoDelete(s, t, p)) <==> b in s.threads[t].held.blocks[k]
  {
    hide Core, RegistryOk, PoolOk, Blocks, Contains, ContainingBlock, ListOf, RecordFree, DoDelete;
    var th := s.threads[t];
    var b := ContainingBlock(th.al.pools[k], p);
    OwnPoolDeleted(s, t, k, p);
    PushIff(th.al.pools[k], s.mem, th.held.blocks[k], b);
    if b in th.held.blocks[k] {
      PushKeepsInv(s, t, k, b, ClassSize(k));
    } else {
      BrokenPool(DoDelete(s, t, p), t, k);
    }
  }

  lemma BrokenPool(s: State, t: nat, k: nat)
    requires t < |s.threads| && s.threads[t].phase == Up && k < NUM_CLASSES
    requires |s.threads[t].al.pools| == NUM_CLASSES == |s.threads[t].held.blocks|
    requires !PoolOk(s.threads[t].al.pools[k], s.mem, s.threads[t].held.blocks[k])
    ensures !Inv(s)
  {
    hide OwnersApart, ChunksOk, CarvedOk, PendingsOk, OrphansOk, BlobsOk, StashOk, RegistryOk, RangesOk, PoolOk,
         Contains;
    if Inv(s) {
      OwnPoolOk(s.threads[t], s.mem, k);
    }
  }

  /** When the block is the head of its list, the next two requests of its class are both given it. */
  lemma HeadDeleted(s: State, t: nat, k: nat, n: nat)
    requires Inv(s) && s.ready && Idle(s, t) && n <= MAX_SMALL && k == ClassIndex(n) < NUM_CLASSES
    requires s.threads[t].al.pools[k].head != 0
    ensures var a := s.threads[t].al.pools[k].head;
            var s1 := DoDelete(s, t, a);
            && !Inv(s1) && CanPop(s1, t, n) && PopFrom(s1.threads[t].al, s1.mem, k, n).1 == a
            && CanPop(DoPop(s1, t, n), t, n) && PopFrom(DoPop(s1, t, n).threads[t].al, s1.mem, k, n).1 == a
  {
    hide Inv, Blocks, Contains, ContainingBlock, PoolOk, ClassIndex, DoDelete, PushTo, PopFrom;
    var th := s.threads[t];
    var a := th.al.pools[k].head;
    HeadIsFree(s, t, k);
    OwnPoolDeleted(s, t, k, a);
    PoolDeleteKeepsIff(s, t, k, a);
    HeadTwice(th.al, s.mem, k, ClassSize(k), n);
  }

  /** Pushing the head of a list once more: it links to itself and is popped again and again. */
  lemma HeadTwice(al: Allocator, m: Words, k: nat, r: nat, n: nat)
    requires k < |al.pools| == NUM_CLASSES && al.pools[k].head != 0
    ensures var a := al.pools[k].head;
            var (al1, m1) := PushTo(al, m, k, a, r);
            var (al2, b) := PopFrom(al1, m1, k, n);
            && |al1.pools| == |al2.pools| == NUM_CLASSES && al1.pools[k].head == a && b == a
            && al2.pools[k].head == a && PopFrom(al2, m1, k, n).1 == a
            && forall j :: 0 <= j < NUM_CLASSES ==>
                 al1.pools[j].size == al.pools[j].size && al2.pools[j].size == al.pools[j].size
  {
    hide RecordFree, RecordAlloc;
  }

  lemma HeadIsFree(s: State, t: nat, k: nat)
    requires Inv(s) && Idle(s, t) && k < NUM_CLASSES && s.threads[t].al.pools[k].head != 0
    ensures var p, a := s.threads[t].al.pools[k], s.threads[t].al.pools[k].head;
            Contains(p, a) && ContainingBlock(p, a) == a && a !in s.threads[t].held.blocks[k]
  {
    hide OwnersApart, ChunksOk, CarvedOk, PendingsOk, OrphansOk, BlobsOk, StashOk, RegistryOk, RangesOk, Contains,
         ContainingBlock, Blocks;
    var th := s.threads[t];
    assert ThreadOk(th, s.mem);
    OwnPoolOk(th, s.mem, k);
    var p := th.al.pools[k];
    assert p.head in Blocks(p) - th.held.blocks[k];
    BlockContained(p, p.head, p.head);
    ContainingBlockIs(p, p.head, p.head);
  }

  /** Every deletion keeps the invariant; in particular nothing is ever freed that malloc did
      not give out. */
  lemma DeleteKeeps(s: State, t: nat, p: nat)
    requires Inv(s) && CanDelete(s, t, p)
    ensures Inv(DoDelete(s, t, p))
  {
    hide Inv, Names, DoDelete;
    if p != 0 {
      if it :| Names(s, it, p) && (s.threads[t].pending.Acquired? ==> it.Malloced?) {
        DeleteRefinesTagged(s, t, it, p);
        TaggedKeeps(s, t, it, p);
      } else {
        DeleteNothingIff(s, t, p);
      }
    } else {
      NullDelete(s, t);
    }
  }

  lemma NullDelete(s: State, t: nat)
    requires t < |s.threads|
    requires s.threads[t].phase == Up ==> Sized(s.threads[t].al) && |s.threads[t].held.blocks| == NUM_CLASSES
    ensures DoDelete(s, t, 0) == s
  {
  }

  lemma TaggedKeeps(s: State, t: nat, it: Item, p: nat)
    requires Inv(s) && CanDelete(s, t, p) && Names(s, it, p) && (s.threads[t].pending.Acquired? ==> it.Malloced?)
    ensures Inv(TaggedDelete(s, t, it))
  {
    StashHit(s, t, it, p);
    hide Inv, Classify, PushTo;
    match it
    case Block(u, k, a) =>
      if s.ready && u == t && s.threads[t].phase == Up {
        PushKeepsInv(s, t, k, a, ClassSize(k));
      }
    case Bumped(u, i) =>
    case Kept(o) =>
    case Malloced(b) =>
      match s.blobs[b] {
        case Plain(len) => DropPlain(s, b);
        case Over(len, u, payload) =>
          if u == t {
            DropStashed(s, t, FindStash(s.threads[t].stash, payload, 0));
          }
      }
  }

  /** A live block of the calling thread is always really freed: it is off the live blocks, back on
      its free list, and the next request of its class gets exactly that block. */
  lemma OwnBlockFreed(s: State, t: nat, k: nat, a: nat, p: nat, n: nat)
    requires Inv(s) && CanDelete(s, t, p) && Names(s, Block(t, k, a), p)
    requires s.ready && Idle(s, t) && n <= MAX_SMALL && ClassIndex(n) == k
    ensures var s' := DoDelete(s, t, p);
            && !Live(s', Block(t, k, a))
            && CanPop(s', t, n)
            && Live(DoPop(s', t, n), Block(t, k, a))
            && DoPop(s', t, n).threads[t].al.pools == s.threads[t].al.pools
  {
    DeleteRefinesTagged(s, t, Block(t, k, a), p);
    BlockBytes(s, t, k, a, a);
    PushThenPop(s.threads[t].al, s.mem, k, a, ClassSize(k), n);
    hide Inv, DoDelete, Names, PushTo, PopFrom;
    assert DoDelete(s, t, p) == TaggedDelete(s, t, Block(t, k, a));
  }

  /** Pushing a block and popping the same class hands out that block and restores the pools. */
  lemma PushThenPop(al: Allocator, m: Words, k: nat, a: nat, r: nat, n: nat)
    requires k < |al.pools| == NUM_CLASSES && a != 0
    ensures var (al1, m1) := PushTo(al, m, k, a, r);
            && |al1.pools| == NUM_CLASSES && al1.pools[k].head == a
            && (forall j :: 0 <= j < NUM_CLASSES ==> al1.pools[j].size == al.pools[j].size)
            && PopFrom(al1, m1, k, n).1 == a && PopFrom(al1, m1, k, n).0.pools == al.pools
  {
    PopUndoesPush(al.pools[k], m, a);
    var (al1, m1) := PushTo(al, m, k, a, r);
    assert PopFrom(al1, m1, k, n).0.pools == al.pools;
  }
}
