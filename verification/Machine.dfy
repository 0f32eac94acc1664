/** All threads at once: allocators over one shared memory and one central heap, as a state
    machine whose steps interleave in any order. */
module Machine {
  import opened FreeList
  import opened Bits
  import opened SizeClasses
  import opened Pools
  import opened Arenas
  import opened StatsModel
  import opened Allocators

  /** Life of a thread's allocator: not built, under construction, in use, destroyed. */
  datatype Phase = Fresh | Building | Up | Gone

  /** A chunk acquired for a request of `n` bytes and not linked yet. */
  datatype Pending = NoChunk | Acquired(k: nat, body: nat, n: nat)

  /** An over-aligned bootstrap allocation: what to free, and what the client was given. */
  datatype Stashed = Stashed(raw: nat, payload: nat)

  datatype Thread = Thread(phase: Phase, al: Allocator, held: Holdings, pending: Pending,
                           stash: seq<Stashed>, peaks: seq<nat>)

  datatype Chunk = Chunk(base: nat, size: nat)

  /** A region malloc gave to the fallback path. */
  datatype Blob = Plain(len: nat) | Over(len: nat, owner: nat, payload: nat)

  /** An object that clients still hold although the thread it came from has exited.  `carved` says
      that it was cut from a chunk; otherwise its bytes were in a slab or in the arena, and exit
      gave them back to malloc. */
  datatype Orphan = Orphan(lo: nat, hi: nat, carved: bool)

  /** `registered` is what the registry of fallback pointers shows now, `recorded` every pointer a
      thread has ever set out to enter in it.  `corrupt` records a free of an address malloc did not
      give out. */
  datatype State = State(mem: Words, chunks: seq<Chunk>, threads: seq<Thread>, orphans: set<Orphan>,
                         blobs: map<nat, Blob>, registered: set<nat>, recorded: set<nat>, ready: bool,
                         corrupt: bool)

  const NO_ALLOCATOR := Allocator([], Arena(0, 0, 0, 0, 0), NO_STATS)
  const NO_THREAD := Thread(Fresh, NO_ALLOCATOR, Holdings([], []), NoChunk, [], [])
  const BODY_BYTES: nat := CHUNK_SIZE - HEADER_BYTES

  // ---------------------------------------------------------------------------
  // Who owns a byte

  ghost predicate ThreadOwns(s: State, t: nat, a: nat) {
    t < |s.threads| && Owns(s.threads[t].al, a)
  }

  predicate InChunk(s: State, c: nat, a: nat) {
    c < |s.chunks| && s.chunks[c].base <= a < s.chunks[c].base + CHUNK_SIZE
  }

  predicate InHeader(s: State, c: nat, a: nat) {
    c < |s.chunks| && s.chunks[c].base <= a < s.chunks[c].base + HEADER_BYTES
  }

  predicate InBlob(s: State, b: nat, a: nat) {
    b in s.blobs && b <= a < b + s.blobs[b].len
  }

  /** Bytes of a chunk body that a thread has acquired and not linked yet. */
  predicate InPending(s: State, t: nat, a: nat) {
    t < |s.threads| && s.threads[t].pending.Acquired?
    && s.threads[t].pending.body <= a < s.threads[t].pending.body + BODY_BYTES
  }

  /** The byte lies in one of these orphans, one that was cut from a chunk. */
  predicate InCarved(orphans: set<Orphan>, o: Orphan, a: nat) {
    o in orphans && o.carved && o.lo <= a < o.hi
  }

  predicate InOrphan(s: State, o: Orphan, a: nat) {
    InCarved(s.orphans, o, a)
  }

  ghost predicate SomeChunk(s: State, a: nat) {
    exists c :: InChunk(s, c, a)
  }

  /** Nobody owns the byte: this is what malloc may give out. */
  ghost predicate Unused(s: State, a: nat) {
    && (forall t :: !ThreadOwns(s, t, a))
    && (forall c :: !InChunk(s, c, a))
    && (forall b :: !InBlob(s, b, a))
  }

  /** The trusted step: malloc returns a region of unused bytes inside the address space. */
  ghost predicate FreshRegion(s: State, base: nat, len: nat) {
    && base > 0 && base + len < WORD_MOD
    && forall a :: base <= a < base + len ==> Unused(s, a)
  }

  /** The hypothesis on malloc: no address ever recorded as a fallback pointer, freed or not and in
      the registry now or not, is issued again inside a slab, an arena, a chunk or an over-aligned
      region. */
  ghost predicate NotReissued(s: State, base: nat, len: nat) {
    forall r :: r in s.recorded ==> !(base <= r < base + len)
  }

  ghost predicate HasChunk(s: State, body: nat, size: nat) {
    exists c :: 0 <= c < |s.chunks| && s.chunks[c].base + HEADER_BYTES == body && s.chunks[c].size == size
  }

  // ---------------------------------------------------------------------------
  // The invariant

  ghost predicate ThreadOk(th: Thread, m: Words) {
    match th.phase
    case Fresh => th.al == NO_ALLOCATOR && th.held == Holdings([], [])
    case Building => && PoolsOk(th.al.pools, m, th.held.blocks) && th.al.arena.capacity == 0
                     && (forall k :: 0 <= k < |th.held.blocks| ==> th.held.blocks[k] == {})
                     && th.held.ranges == []
    case Up => AllocatorOk(th.al, m, th.held)
    case Gone => th.al == NO_ALLOCATOR && th.held == Holdings([], [])
  }

  ghost predicate OwnersApart(s: State) {
    forall t, u, a :: ThreadOwns(s, t, a) && ThreadOwns(s, u, a) ==> t == u
  }

  ghost predicate ChunkOk(s: State, c: Chunk) {
    && c.base > 0 && c.base % CHUNK_SIZE == 0 && c.base + CHUNK_SIZE < WORD_MOD
    && c.base in s.mem && s.mem[c.base] == c.size
    && c.base + WORD_BYTES in s.mem && s.mem[c.base + WORD_BYTES] == c.size
  }

  ghost predicate ChunksOk(s: State) {
    && (forall c :: 0 <= c < |s.chunks| ==> ChunkOk(s, s.chunks[c]))
    && (forall c, d, a :: InChunk(s, c, a) && InChunk(s, d, a) ==> c == d)
    && (forall c, t, a :: InHeader(s, c, a) ==> !ThreadOwns(s, t, a))
  }

  /** The byte is in the arena or in the slab of a pool. */
  ghost predicate InHome(al: Allocator, a: nat) {
    || InArena(al.arena, a)
    || exists k :: 0 <= k < |al.pools| && al.pools[k].regions != []
                   && InRegion(al.pools[k].regions[0], al.pools[k].size, a)
  }

  /** Every borrowed region of a pool is the body of a chunk acquired for its class. */
  ghost predicate Borrowed(s: State, al: Allocator) {
    forall k, i :: 0 <= k < |al.pools| && k < NUM_CLASSES && 1 <= i < |al.pools[k].regions| ==>
      HasChunk(s, al.pools[k].regions[i].base, ClassSize(k))
  }

  /** Slabs and arenas are apart from all chunks. */
  ghost predicate HomeApart(s: State, al: Allocator) {
    forall c, a :: InHome(al, a) ==> !InChunk(s, c, a)
  }

  ghost predicate CarvedOk(s: State) {
    forall t :: 0 <= t < |s.threads| ==> Borrowed(s, s.threads[t].al) && HomeApart(s, s.threads[t].al)
  }

  ghost predicate PendingsOk(s: State) {
    && (forall t :: 0 <= t < |s.threads| && s.threads[t].pending.Acquired? ==>
          var th := s.threads[t];
          && th.phase == Up && th.pending.n <= MAX_SMALL && th.pending.k == ClassIndex(th.pending.n) < NUM_CLASSES
          && |th.al.pools| == NUM_CLASSES && th.al.pools[th.pending.k].head == 0
          && HasChunk(s, th.pending.body, ClassSize(th.pending.k)))
    && (forall t, u, a :: InPending(s, t, a) ==> !ThreadOwns(s, u, a))
    && (forall t, u, a :: InPending(s, t, a) && InPending(s, u, a) ==> t == u)
  }

  ghost predicate BlobsOk(s: State) {
    && (forall b :: b in s.blobs ==> 0 < b && 0 < s.blobs[b].len)
    && (forall b, t, a :: InBlob(s, b, a) ==> !ThreadOwns(s, t, a))
    && (forall b, c, a :: InBlob(s, b, a) ==> !InChunk(s, c, a))
    && (forall b, d, a :: InBlob(s, b, a) && InBlob(s, d, a) ==> b == d)
  }

  /** The stash of a thread lists exactly its over-aligned regions, once each. */
  ghost predicate StashOk(s: State) {
    && (forall t, i :: 0 <= t < |s.threads| && 0 <= i < |s.threads[t].stash| ==>
          var e := s.threads[t].stash[i];
          && e.raw in s.blobs && s.blobs[e.raw].Over? && s.blobs[e.raw].owner == t
          && s.blobs[e.raw].payload == e.payload)
    && (forall t, i, j :: 0 <= t < |s.threads| && 0 <= i < j < |s.threads[t].stash| ==>
          s.threads[t].stash[i].raw != s.threads[t].stash[j].raw)
    && (forall b :: b in s.blobs && s.blobs[b].Over? ==>
          && b <= s.blobs[b].payload < b + s.blobs[b].len
          && s.blobs[b].owner < |s.threads|
          && Stashed(b, s.blobs[b].payload) in s.threads[s.blobs[b].owner].stash)
  }

  /** The chunk was acquired for blocks as long as the orphan. */
  predicate SizedAs(s: State, c: nat, o: Orphan) {
    c < |s.chunks| && s.chunks[c].size == o.hi - o.lo
  }

  /** Orphans cut from chunks stay where they are: in the body of a chunk of their size, in no region
      of any thread and in no body about to be linked, and apart from each other. */
  ghost predicate OrphansOk(s: State) {
    && (forall o, a :: InOrphan(s, o, a) ==> SomeChunk(s, a))
    && (forall o, c, a :: InOrphan(s, o, a) && InChunk(s, c, a) ==> SizedAs(s, c, o))
    && (forall o, c, a :: InOrphan(s, o, a) ==> !InHeader(s, c, a))
    && (forall o, t, a :: InOrphan(s, o, a) ==> !ThreadOwns(s, t, a))
    && (forall o, t, a :: InOrphan(s, o, a) ==> !InPending(s, t, a))
    && (forall o, q, a :: InOrphan(s, o, a) && InOrphan(s, q, a) ==> o == q)
  }

  /** Everything but the registry. */
  ghost predicate Core(s: State) {
    && !s.corrupt
    && (forall t :: 0 <= t < |s.threads| ==> ThreadOk(s.threads[t], s.mem))
    && OwnersApart(s)
    && ChunksOk(s)
    && CarvedOk(s)
    && PendingsOk(s)
    && BlobsOk(s)
    && StashOk(s)
    && OrphansOk(s)
  }

  /** No address ever recorded lies in a region that is not an ordinary malloc object, and what is
      registered was recorded. */
  ghost predicate RegistryOk(s: State) {
    && s.registered <= s.recorded
    && (forall r, t :: r in s.recorded ==> !ThreadOwns(s, t, r))
    && (forall r, c :: r in s.recorded ==> !InChunk(s, c, r))
    && (forall r, b :: r in s.recorded && b in s.blobs && s.blobs[b].Over? ==> !InBlob(s, b, r))
  }

  ghost predicate Inv(s: State) {
    Core(s) && RegistryOk(s)
  }

  // ---------------------------------------------------------------------------
  // Live objects

  /** An object in a client's hands. */
  datatype Item = Block(t: nat, k: nat, a: nat) | Bumped(t: nat, i: nat) | Malloced(b: nat) | Kept(o: Orphan)

  ghost predicate Live(s: State, it: Item) {
    match it
    case Block(t, k, a) =>
      t < |s.threads| && k < NUM_CLASSES && k < |s.threads[t].held.blocks| && a in s.threads[t].held.blocks[k]
    case Bumped(t, i) => t < |s.threads| && i < |s.threads[t].held.ranges|
    case Malloced(b) => b in s.blobs
    case Kept(o) => o in s.orphans && o.carved
  }

  ghost function Lo(s: State, it: Item): nat
    requires Live(s, it)
  {
    match it
    case Block(t, k, a) => a
    case Bumped(t, i) => s.threads[t].held.ranges[i].lo
    case Malloced(b) => b
    case Kept(o) => o.lo
  }

  ghost function Hi(s: State, it: Item): nat
    requires Live(s, it)
  {
    match it
    case Block(t, k, a) => a + ClassSize(k)
    case Bumped(t, i) => s.threads[t].held.ranges[i].hi
    case Malloced(b) => b + s.blobs[b].len
    case Kept(o) => o.hi
  }

  ghost predicate Covers(s: State, it: Item, a: nat) {
    Live(s, it) && Lo(s, it) <= a < Hi(s, it)
  }

  ghost predicate InLive(s: State, a: nat) {
    exists it :: Covers(s, it, a)
  }

  /** The address a client passes to delete for the object: blocks and arena ranges may be
      named by any of their bytes, malloc objects by the address that was handed out. */
  ghost predicate Names(s: State, it: Item, p: nat) {
    && Covers(s, it, p)
    && (it.Malloced? ==> p == if s.blobs[it.b].Over? then s.blobs[it.b].payload else it.b)
  }

  // ---------------------------------------------------------------------------
  // Delete

  function FindStash(stash: seq<Stashed>, p: nat, i: nat): (j: nat)
    requires i <= |stash|
    ensures i <= j <= |stash|
    ensures j < |stash| ==> stash[j].payload == p
    ensures forall x :: i <= x < j ==> stash[x].payload != p
    decreases |stash| - i
  {
    if i == |stash| || stash[i].payload == p then i else FindStash(stash, p, i + 1)
  }

  function Erase<T>(q: seq<T>, i: nat): seq<T>
    requires i < |q|
  {
    q[..i] + q[i + 1..]
  }

  function WithThread(s: State, t: nat, th: Thread): State
    requires t < |s.threads|
  {
    s.(threads := s.threads[t := th])
  }

  function FreePtr(s: State, p: nat): State {
    if p in s.blobs then s.(blobs := s.blobs - {p}) else s.(corrupt := true)
  }

  /** The ways operator delete can end. */
  datatype Action = Nothing | FreeStashed(i: nat) | FreePointer | PushBlock(k: nat)

  /** The decision operator delete takes from the address alone, in the order of its tests: the
      thread's stash, then the registry while the heap is not ready or the allocator is gone,
      then the classification, with the registry again for what is not ours. */
  function Decide(stash: seq<Stashed>, ready: bool, up: bool, al: Allocator, registered: set<nat>, p: nat): Action {
    var fallback := if p in registered then FreePointer else Nothing;
    if p == 0 then Nothing
    else
      var i := FindStash(stash, p, 0);
      if i < |stash| then FreeStashed(i)
      else if !ready || !up then fallback
      else match Classify(al, p)
        case NotOurs => fallback
        case FromArena => Nothing
        case FromPool(k) => PushBlock(k)
  }

  /** operator delete by address. */
  ghost function DoDelete(s: State, t: nat, p: nat): State
    requires t < |s.threads|
    requires s.threads[t].phase == Up ==> Sized(s.threads[t].al) && |s.threads[t].held.blocks| == NUM_CLASSES
  {
    var th := s.threads[t];
    match Decide(th.stash, s.ready, th.phase == Up, th.al, s.registered, p)
    case Nothing => s
    case FreeStashed(i) => FreePtr(WithThread(s, t, th.(stash := Erase(th.stash, i))), th.stash[i].raw)
    case FreePointer => FreePtr(s, p)
    case PushBlock(k) =>
      var (al, m) := DeallocateContaining(th.al, s.mem, p, ClassSize(k));
      WithThread(s, t, th.(al := al, held := Drop(th.held, k, ContainingBlock(th.al.pools[k], p)))).(mem := m)
  }

  /** A delete that is told which object it is given. */
  ghost function TaggedDelete(s: State, t: nat, it: Item): State
    requires t < |s.threads| && Live(s, it)
    requires s.threads[t].phase == Up ==> |s.threads[t].al.pools| == NUM_CLASSES
  {
    match it
    case Block(u, k, a) =>
      if s.ready && u == t && s.threads[t].phase == Up then
        var th := s.threads[t];
        var (al, m) := PushTo(th.al, s.mem, k, a, ClassSize(k));
        WithThread(s, t, th.(al := al, held := Drop(th.held, k, a))).(mem := m)
      else s
    case Bumped(u, i) => s
    case Kept(o) => s
    case Malloced(b) =>
      match s.blobs[b]
      case Plain(len) => if b in s.registered then s.(blobs := s.blobs - {b}) else s
      case Over(len, u, payload) =>
        if u == t then
          var th := s.threads[t];
          var i := FindStash(th.stash, payload, 0);
          if i < |th.stash| then WithThread(s, t, th.(stash := Erase(th.stash, i))).(blobs := s.blobs - {b}) else s
        else s
  }

  // ---------------------------------------------------------------------------
  // Steps

  // Each step: when it may happen (the control flow of the source, the trusted malloc, and the
  // contract of clients: free only what is live, with the right size), and what it does.

  ghost predicate CanBegin(s: State, t: nat) {
    t < |s.threads| && s.threads[t].phase == Fresh
  }

  /** First use on a thread: construction starts. */
  ghost function DoBegin(s: State, t: nat): State
    requires CanBegin(s, t)
  {
    WithThread(s, t, s.threads[t].(phase := Building))
  }

  ghost predicate CanBuildPool(s: State, t: nat, slab: nat) {
    && t < |s.threads| && s.threads[t].phase == Building
    && |s.threads[t].al.pools| == |s.threads[t].held.blocks| < NUM_CLASSES
    && var size := ClassSize(|s.threads[t].al.pools|);
    && slab % size == 0
    && FreshRegion(s, slab, Span(BLOCKS_PER_SLAB, size))
  }

  /** The constructor of the next pool, over a slab malloc gave out. */
  ghost function DoBuildPool(s: State, t: nat, slab: nat): State
    requires CanBuildPool(s, t, slab)
  {
    var th := s.threads[t];
    var size := ClassSize(|th.al.pools|);
    WithThread(s, t, th.(al := th.al.(pools := th.al.pools + [NewPool(slab, BLOCKS_PER_SLAB, size)]),
                         held := th.held.(blocks := th.held.blocks + [{}])))
      .(mem := LinkBlocks(s.mem, slab, BLOCKS_PER_SLAB, size, 0))
  }

  ghost predicate CanBuildArena(s: State, t: nat, base: nat) {
    && t < |s.threads| && s.threads[t].phase == Building
    && |s.threads[t].al.pools| == NUM_CLASSES
    && FreshRegion(s, base, ARENA_CAPACITY)
  }

  /** The arena, after which the allocator is in use. */
  ghost function DoBuildArena(s: State, t: nat, base: nat): State
    requires CanBuildArena(s, t, base)
  {
    var th := s.threads[t];
    WithThread(s, t, th.(phase := Up, al := th.al.(arena := NewArena(base, ARENA_CAPACITY)),
                         peaks := [0, 0, 0, 0, 0, 0, 0]))
  }

  ghost predicate Idle(s: State, t: nat) {
    && t < |s.threads| && s.threads[t].phase == Up && s.threads[t].pending == NoChunk
    && Sized(s.threads[t].al) && |s.threads[t].held.blocks| == NUM_CLASSES == |s.threads[t].peaks|
  }

  ghost function Max(x: nat, y: nat): nat {
    if x > y then x else y
  }

  /** Hands the block `a` of class `k` to the client. */
  ghost function Hand(th: Thread, al: Allocator, k: nat, a: nat): Thread
    requires k < |th.held.blocks| && k < |th.peaks|
  {
    th.(al := al, held := Take(th.held, k, a),
        peaks := th.peaks[k := Max(th.peaks[k], |th.held.blocks[k] + {a}|)])
  }

  ghost predicate CanPop(s: State, t: nat, n: nat) {
    && Idle(s, t) && n <= MAX_SMALL && ClassIndex(n) < NUM_CLASSES
    && s.threads[t].al.pools[ClassIndex(n)].head != 0
  }

  /** The fast path of allocate. */
  ghost function DoPop(s: State, t: nat, n: nat): State
    requires CanPop(s, t, n)
  {
    var (al, a) := PopFrom(s.threads[t].al, s.mem, ClassIndex(n), n);
    WithThread(s, t, Hand(s.threads[t], al, ClassIndex(n), a))
  }

  ghost predicate CanAcquire(s: State, t: nat, n: nat, base: nat) {
    && Idle(s, t) && n <= MAX_SMALL && ClassIndex(n) < NUM_CLASSES
    && s.threads[t].al.pools[ClassIndex(n)].head == 0
    && base % CHUNK_SIZE == 0
    && FreshRegion(s, base, CHUNK_SIZE)
  }

  /** The slow path up to the end of the mutex section: a chunk with its header written. */
  ghost function DoAcquire(s: State, t: nat, n: nat, base: nat): State
    requires CanAcquire(s, t, n, base)
  {
    var k := ClassIndex(n);
    WithThread(s, t, s.threads[t].(pending := Acquired(k, base + HEADER_BYTES, n)))
      .(mem := HeaderWritten(s.mem, base, ClassSize(k)),
        chunks := s.chunks + [Chunk(base, ClassSize(k))])
  }

  ghost predicate CanLink(s: State, t: nat) {
    && t < |s.threads| && s.threads[t].phase == Up && s.threads[t].pending.Acquired?
    && |s.threads[t].al.pools| == NUM_CLASSES == |s.threads[t].held.blocks| == |s.threads[t].peaks|
    && s.threads[t].pending.k < NUM_CLASSES
  }

  /** The rest of the slow path: link the body into the pool and pop. */
  ghost function DoLink(s: State, t: nat): State
    requires CanLink(s, t)
  {
    var th := s.threads[t];
    var k := th.pending.k;
    var (al1, m1) := Refill(th.al, s.mem, k, th.pending.body);
    var (al2, a) := PopFrom(al1, m1, k, th.pending.n);
    WithThread(s, t, Hand(th, al2, k, a).(pending := NoChunk)).(mem := m1)
  }

  ghost predicate CanBump(s: State, t: nat, n: nat, align: nat) {
    && Idle(s, t) && n < WORD_MOD && IsPow2(align) && align > 0
    && !CheckWraps(s.threads[t].al.arena, n, align)
  }

  /** The large path and the over-aligned path. */
  ghost function DoBump(s: State, t: nat, n: nat, align: nat): State
    requires CanBump(s, t, n, align)
  {
    var th := s.threads[t];
    WithThread(s, t, th.(al := FromBump(th.al, n, align).0, held := TakeRange(th.al, th.held, n, align)))
  }

  ghost predicate CanFree(s: State, t: nat, p: nat, n: nat) {
    && Idle(s, t)
    && (n <= MAX_SMALL ==> ClassIndex(n) < NUM_CLASSES && p in s.threads[t].held.blocks[ClassIndex(n)])
  }

  /** deallocate on the owning thread. */
  ghost function DoFree(s: State, t: nat, p: nat, n: nat): State
    requires CanFree(s, t, p, n)
  {
    if n > MAX_SMALL then s
    else
      var th := s.threads[t];
      var (al, m) := Deallocate(th.al, s.mem, p, n);
      WithThread(s, t, th.(al := al, held := Drop(th.held, ClassIndex(n), p))).(mem := m)
  }

  /** Nothing a deletion by thread `t` looks for is at this address: no stashed payload, no registered
      pointer, and no pool of the thread. */
  ghost predicate Spared(s: State, t: nat, p: nat) {
    && t < |s.threads| && p !in s.registered
    && FindStash(s.threads[t].stash, p, 0) == |s.threads[t].stash|
    && (s.ready && s.threads[t].phase == Up ==>
          forall k :: 0 <= k < |s.threads[t].al.pools| ==> !Contains(s.threads[t].al.pools[k], p))
  }

  /** The address is in an object whose memory exit gave back to malloc. */
  ghost predicate NamesStale(s: State, p: nat) {
    exists o :: o in s.orphans && !o.carved && o.lo <= p < o.hi
  }

  /** Any thread may delete any live object, and an object whose memory is gone where that changes
      nothing; while its refill is in flight a thread deletes only the allocator's own
      malloc-backed bookkeeping. */
  ghost predicate CanDelete(s: State, t: nat, p: nat) {
    && t < |s.threads| && (s.ready ==> s.threads[t].phase == Up || s.threads[t].phase == Gone)
    && (s.threads[t].phase == Up ==> Idle(s, t) || s.threads[t].pending.Acquired?)
    && (s.threads[t].phase == Up ==> Sized(s.threads[t].al) && |s.threads[t].held.blocks| == NUM_CLASSES)
    && (p != 0 ==>
          || (exists it :: Names(s, it, p) && (s.threads[t].pending.Acquired? ==> it.Malloced?))
          || (NamesStale(s, p) && Spared(s, t, p)))
  }

  ghost predicate CanMalloc(s: State, t: nat, base: nat, n: nat, kept: set<nat>) {
    && t < |s.threads| && n > 0 && FreshRegion(s, base, n)
    && kept <= s.recorded + {base}
  }

  /** The fallback path of operator new.  A push onto the registry is a load and a store, and pushes of
      several threads interleave: a store can lose entries, and it can bring back entries lost since
      the load.  So what the registry shows afterwards is any part `kept` of what was ever recorded;
      `Runs.PushIsEvent` derives that bound. */
  ghost function DoMalloc(s: State, t: nat, base: nat, n: nat, kept: set<nat>): State
    requires CanMalloc(s, t, base, n, kept)
  {
    s.(blobs := s.blobs[base := Plain(n)], registered := kept, recorded := s.recorded + {base})
  }

  ghost predicate CanPublish(s: State, kept: set<nat>) {
    kept <= s.recorded
  }

  /** The store of a push whose load lies any number of steps back. */
  ghost function DoPublish(s: State, kept: set<nat>): State
    requires CanPublish(s, kept)
  {
    s.(registered := kept)
  }

  ghost predicate CanMallocAligned(s: State, t: nat, raw: nat, n: nat, align: nat) {
    && t < |s.threads| && n > 0 && IsPow2(align) && align > 0
    && FreshRegion(s, raw, n + align)
  }

  /** The over-aligned fallback: round up inside a larger region and stash both pointers. */
  ghost function DoMallocAligned(s: State, t: nat, raw: nat, n: nat, align: nat): State
    requires CanMallocAligned(s, t, raw, n, align)
  {
    var payload := AlignUp(raw, align);
    WithThread(s, t, s.threads[t].(stash := s.threads[t].stash + [Stashed(raw, payload)]))
      .(blobs := s.blobs[raw := Over(n + align, t, payload)])
  }

  ghost predicate CanExit(s: State, t: nat) {
    && Idle(s, t)
    && forall k :: 0 <= k < NUM_CLASSES ==> s.threads[t].al.pools[k].regions != []
  }

  /** What clients still hold of a thread's objects. */
  ghost function OrphansOf(th: Thread): set<Orphan>
    requires |th.held.blocks| <= |th.al.pools| && |th.held.blocks| <= NUM_CLASSES
    requires forall k :: 0 <= k < |th.held.blocks| ==> th.al.pools[k].regions != []
  {
    (set k, a | 0 <= k < |th.held.blocks| && a in th.held.blocks[k] ::
       Orphan(a, a + ClassSize(k), !InRegion(th.al.pools[k].regions[0], ClassSize(k), a)))
    + (set i | 0 <= i < |th.held.ranges| :: Orphan(th.held.ranges[i].lo, th.held.ranges[i].hi, false))
  }

  /** Thread exit: slabs and arena go back to malloc, chunks stay with the central heap, and what was
      handed out stays in the hands of clients. */
  ghost function DoExit(s: State, t: nat): State
    requires CanExit(s, t)
  {
    WithThread(s, t, s.threads[t].(phase := Gone, al := NO_ALLOCATOR, held := Holdings([], []), peaks := []))
      .(orphans := s.orphans + OrphansOf(s.threads[t]))
  }

  /** Clients write anything they like into live objects. */
  ghost predicate CanWrite(s: State, m: Words) {
    forall a :: a in s.mem && !InLive(s, a) ==> a in m && m[a] == s.mem[a]
  }

  datatype Event =
    | Begin(t: nat)
    | BuildPool(t: nat, slab: nat)
    | BuildArena(t: nat, base: nat)
    | PopBlock(t: nat, n: nat)
    | AcquireChunk(t: nat, n: nat, base: nat)
    | LinkChunk(t: nat)
    | Bump(t: nat, n: nat, align: nat)
    | Free(t: nat, p: nat, n: nat)
    | Delete(t: nat, p: nat)
    | MallocNew(t: nat, base: nat, n: nat, kept: set<nat>)
    | Publish(kept: set<nat>)
    | MallocAligned(t: nat, raw: nat, n: nat, align: nat)
    | MakeReady
    | Exit(t: nat)
    | ClientWrites(m: Words)

  /** When an event may happen, whatever addresses malloc chooses. */
  ghost predicate Possible(s: State, e: Event) {
    match e
    case Begin(t) => CanBegin(s, t)
    case BuildPool(t, slab) => CanBuildPool(s, t, slab)
    case BuildArena(t, base) => CanBuildArena(s, t, base)
    case PopBlock(t, n) => CanPop(s, t, n)
    case AcquireChunk(t, n, base) => CanAcquire(s, t, n, base)
    case LinkChunk(t) => CanLink(s, t)
    case Bump(t, n, align) => CanBump(s, t, n, align)
    case Free(t, p, n) => CanFree(s, t, p, n)
    case Delete(t, p) => CanDelete(s, t, p)
    case MallocNew(t, base, n, kept) => CanMalloc(s, t, base, n, kept)
    case Publish(kept) => CanPublish(s, kept)
    case MallocAligned(t, raw, n, align) => CanMallocAligned(s, t, raw, n, align)
    case MakeReady => true
    case Exit(t) => CanExit(s, t)
    case ClientWrites(m) => CanWrite(s, m)
  }

  /** The hypothesis on the addresses malloc chooses. */
  ghost predicate Placed(s: State, e: Event) {
    match e
    case BuildPool(t, slab) =>
      t < |s.threads| && |s.threads[t].al.pools| < NUM_CLASSES
      && NotReissued(s, slab, Span(BLOCKS_PER_SLAB, ClassSize(|s.threads[t].al.pools|)))
    case BuildArena(t, base) => NotReissued(s, base, ARENA_CAPACITY)
    case AcquireChunk(t, n, base) => NotReissued(s, base, CHUNK_SIZE)
    case MallocAligned(t, raw, n, align) => NotReissued(s, raw, n + align)
    case _ => true
  }

  ghost predicate Enabled(s: State, e: Event) {
    Possible(s, e) && Placed(s, e)
  }

  ghost function Apply(s: State, e: Event): State
    requires Possible(s, e)
  {
    match e
    case Begin(t) => DoBegin(s, t)
    case BuildPool(t, slab) => DoBuildPool(s, t, slab)
    case BuildArena(t, base) => DoBuildArena(s, t, base)
    case PopBlock(t, n) => DoPop(s, t, n)
    case AcquireChunk(t, n, base) => DoAcquire(s, t, n, base)
    case LinkChunk(t) => DoLink(s, t)
    case Bump(t, n, align) => DoBump(s, t, n, align)
    case Free(t, p, n) => DoFree(s, t, p, n)
    case Delete(t, p) => DoDelete(s, t, p)
    case MallocNew(t, base, n, kept) => DoMalloc(s, t, base, n, kept)
    case Publish(kept) => DoPublish(s, kept)
    case MallocAligned(t, raw, n, align) => DoMallocAligned(s, t, raw, n, align)
    case MakeReady => s.(ready := true)
    case Exit(t) => DoExit(s, t)
    case ClientWrites(m) => s.(mem := m)
  }

  ghost predicate Initial(s: State) {
    && s.chunks == [] && s.orphans == {} && s.blobs == map[] && s.registered == {} && s.recorded == {}
    && !s.ready && !s.corrupt
    && forall t :: 0 <= t < |s.threads| ==> s.threads[t] == NO_THREAD
  }

  /** A run: the states passed through, and the events between them. */
  ghost predicate IsRun(states: seq<State>, events: seq<Event>) {
    && |states| == |events| + 1
    && Initial(states[0])
    && forall i :: 0 <= i < |events| ==> Enabled(states[i], events[i]) && states[i + 1] == Apply(states[i], events[i])
  }

  /** A run in which malloc may issue any address it has got back, registered or not. */
  ghost predicate IsLooseRun(states: seq<State>, events: seq<Event>) {
    && |states| == |events| + 1
    && Initial(states[0])
    && forall i :: 0 <= i < |events| ==> Possible(states[i], events[i]) && states[i + 1] == Apply(states[i], events[i])
  }
}
