/** The counters of every thread's allocator over any interleaving. */
module Accounts {
  import opened FreeList
  import opened SizeClasses
  import opened Pools
  import opened Arenas
  import opened StatsModel
  import opened Allocators
  import opened Books
  import opened Machine
  import opened Safety
  import opened Steps
  import opened Deletion

  ghost predicate DemandsOk(th: Thread) {
    && |th.al.pools| == NUM_CLASSES == |th.held.blocks| == |th.peaks|
    && forall k :: 0 <= k < NUM_CLASSES ==> DemandOk(th.al.pools[k], k, |th.held.blocks[k]|, th.peaks[k])
  }

  ghost predicate ThreadAccounts(th: Thread) {
    th.phase == Up ==> BooksOk(th.al, th.held) && DemandsOk(th)
  }

  /** While a slab is the only region of every pool, nothing has been handed out. */
  ghost predicate NewAccounts(th: Thread) {
    th.phase == Building ==>
      && th.al.stats == NO_STATS
      && forall k :: 0 <= k < |th.al.pools| ==> |th.al.pools[k].regions| == 1
  }

  ghost predicate AccountsOk(s: State) {
    forall t :: 0 <= t < |s.threads| ==> ThreadAccounts(s.threads[t]) && NewAccounts(s.threads[t])
  }

  lemma OneThread(s: State, s': State, t: nat)
    requires AccountsOk(s) && t < |s.threads| == |s'.threads|
    requires forall u :: 0 <= u < |s.threads| && u != t ==> s'.threads[u] == s.threads[u]
    requires ThreadAccounts(s'.threads[t]) && NewAccounts(s'.threads[t])
    ensures AccountsOk(s')
  {
    hide ThreadAccounts, NewAccounts;
  }

  /** One pool changes demand, the others keep theirs. */
  lemma OneDemand(th: Thread, th': Thread, k: nat)
    requires DemandsOk(th) && k < NUM_CLASSES
    requires |th'.al.pools| == NUM_CLASSES == |th'.held.blocks| == |th'.peaks|
    requires forall j :: 0 <= j < NUM_CLASSES && j != k ==>
               && th'.al.pools[j] == th.al.pools[j] && th'.held.blocks[j] == th.held.blocks[j]
               && th'.peaks[j] == th.peaks[j]
    requires DemandOk(th'.al.pools[k], k, |th'.held.blocks[k]|, th'.peaks[k])
    ensures DemandsOk(th')
  {
    hide DemandOk;
  }

  lemma {:induction false} NothingHeld(blocks: seq<set<nat>>, n: nat)
    requires n <= |blocks| && n <= NUM_CLASSES && forall k :: 0 <= k < |blocks| ==> blocks[k] == {}
    ensures HeldBytes(blocks, n) == 0 && HeldCount(blocks, n) == 0
  {
    if n > 0 {
      NothingHeld(blocks, n - 1);
    }
  }

  lemma BuildArenaAccounts(s: State, t: nat, base: nat)
    requires Inv(s) && AccountsOk(s) && CanBuildArena(s, t, base)
    ensures AccountsOk(DoBuildArena(s, t, base))
  {
    hide OwnersApart, ChunksOk, CarvedOk, PendingsOk, BlobsOk, StashOk, OrphansOk, RegistryOk, Contains, PoolOk,
         FreshRegion;
    var th := s.threads[t];
    var th' := DoBuildArena(s, t, base).threads[t];
    assert ThreadOk(th, s.mem) && NewAccounts(th);
    NothingHeld(th.held.blocks, |th.held.blocks|);
    forall k | 0 <= k < NUM_CLASSES
      ensures DemandOk(th'.al.pools[k], k, |th'.held.blocks[k]|, th'.peaks[k])
    {
      var p := th.al.pools[k];
      assert ClassOk(p, k);
      assert SumCounts(p.regions, 1) == SumCounts(p.regions, 0) + p.regions[0].count;
    }
    OneThread(s, DoBuildArena(s, t, base), t);
  }

  lemma BuildPoolAccounts(s: State, t: nat, slab: nat)
    requires AccountsOk(s) && CanBuildPool(s, t, slab)
    ensures AccountsOk(DoBuildPool(s, t, slab))
  {
    assert NewAccounts(s.threads[t]);
    OneThread(s, DoBuildPool(s, t, slab), t);
  }

  lemma PopAccounts(s: State, t: nat, n: nat)
    requires Inv(s) && AccountsOk(s) && CanPop(s, t, n)
    ensures AccountsOk(DoPop(s, t, n))
  {
    var th := s.threads[t];
    var th', k := DoPop(s, t, n).threads[t], ClassIndex(n);
    assert ThreadOk(th, s.mem) && ThreadAccounts(th);
    hide Inv, Contains, DemandOk;
    BooksPop(th.al, s.mem, th.held, k, n);
    DemandPop(th.al.pools[k], s.mem, k, th.held.blocks[k], th.peaks[k]);
    OneDemand(th, th', k);
    OneThread(s, DoPop(s, t, n), t);
  }

  lemma LinkAccounts(s: State, t: nat)
    requires Inv(s) && AccountsOk(s) && CanLink(s, t)
    ensures AccountsOk(DoLink(s, t))
  {
    var th := s.threads[t];
    var th', k := DoLink(s, t).threads[t], th.pending.k;
    assert ThreadOk(th, s.mem) && ThreadAccounts(th);
    PendingBody(s, t);
    LinkDemand(s, t);
    LinkBooks(s, t);
    hide Inv, Contains, DemandOk, BooksOk, RefillCount, AllocatorOk;
    OneDemand(th, th', k);
    OneThread(s, DoLink(s, t), t);
  }

  lemma LinkBooks(s: State, t: nat)
    requires Inv(s) && AccountsOk(s) && CanLink(s, t)
    ensures BooksOk(DoLink(s, t).threads[t].al, DoLink(s, t).threads[t].held)
  {
    var th := s.threads[t];
    var k, body := th.pending.k, th.pending.body;
    assert ThreadOk(th, s.mem) && ThreadAccounts(th);
    PendingBody(s, t);
    hide Inv, Contains, DemandsOk, Owns;
    assert forall a :: body <= a < body + (CHUNK_SIZE - HEADER_BYTES) ==> !Owns(th.al, a);
    RefillKeeps(th.al, s.mem, th.held, k, body);
    var (al1, m1) := Refill(th.al, s.mem, k, body);
    BooksRefill(th.al, s.mem, th.held, k, body);
    BooksPop(al1, m1, th.held, k, th.pending.n);
    PopFromKeeps(al1, m1, th.held, k, th.pending.n);
    hide Refill, RefillCount, AllocatorOk, BooksOk;
  }

  lemma LinkDemand(s: State, t: nat)
    requires Inv(s) && AccountsOk(s) && CanLink(s, t)
    ensures var th', k := DoLink(s, t).threads[t], s.threads[t].pending.k;
            DemandOk(th'.al.pools[k], k, |th'.held.blocks[k]|, th'.peaks[k])
  {
    var th := s.threads[t];
    var k, body := th.pending.k, th.pending.body;
    var p, live := th.al.pools[k], th.held.blocks[k];
    assert ThreadOk(th, s.mem) && ThreadAccounts(th);
    assert p.head == 0;
    PendingBody(s, t);
    hide Inv, PoolOk, RangesOk, BooksOk, RefillCount;
    forall a: nat | body <= a < body + (CHUNK_SIZE - HEADER_BYTES)
      ensures !Contains(p, a)
    {
      assert !Owns(th.al, a);
    }
    hide Contains;
    assert DemandOk(p, k, |live|, th.peaks[k]) && ClassOk(p, k) && PoolOk(p, s.mem, live);
    DemandRefill(p, s.mem, k, live, th.peaks[k], body);
    DemandMax(p, s.mem, k, live, th.peaks[k], body);
    hide Owns, AllocatorOk, ThreadAccounts, ClassOk;
  }

  /** After the refill the new count is the new peak. */
  lemma DemandMax(p: Pool, m: Words, k: nat, live: set<nat>, peak: nat, body: nat)
    requires k < NUM_CLASSES && ClassOk(p, k) && PoolOk(p, m, live) && DemandOk(p, k, |live|, peak) && p.head == 0
    requires body > 0 && body % 64 == 0
    requires forall a :: body <= a < body + (CHUNK_SIZE - HEADER_BYTES) ==> !Contains(p, a)
    ensures var (p1, m1) := Link(p, m, body, RefillCount(k));
            var a := Pop(p1, m1).1;
            Max(peak, |live + {a}|) == |live + {a}|
  {
    hide Contains, Blocks, RefillCount;
    RefillCounts(p, m, live, k, body);
    RefillPool(p, m, live, k, body);
    var (p1, m1) := Link(p, m, body, RefillCount(k));
    PopKeeps(p1, m1, live);
  }

  lemma BumpAccounts(s: State, t: nat, n: nat, align: nat)
    requires Inv(s) && AccountsOk(s) && CanBump(s, t, n, align)
    ensures AccountsOk(DoBump(s, t, n, align))
  {
    var th := s.threads[t];
    assert ThreadOk(th, s.mem) && ThreadAccounts(th);
    BooksBump(th.al, s.mem, th.held, n, align);
    FromBumpKeeps(th.al, s.mem, th.held, n, align);
    hide Inv, FromBump, AllocatorOk, CheckWraps, DemandOk;
    OneThread(s, DoBump(s, t, n, align), t);
  }

  lemma PushAccounts(s: State, t: nat, k: nat, a: nat, n: nat)
    requires Inv(s) && AccountsOk(s) && Idle(s, t) && k < NUM_CLASSES && a in s.threads[t].held.blocks[k]
    ensures var (al, m) := PushTo(s.threads[t].al, s.mem, k, a, n);
            AccountsOk(Stepped(s, t, s.threads[t].(al := al, held := Drop(s.threads[t].held, k, a)), m))
  {
    hide Inv, AllocatorOk, BooksOk, AccountsOk, DemandsOk, DemandOk;
    var th := s.threads[t];
    var (al, m) := PushTo(th.al, s.mem, k, a, n);
    var th' := th.(al := al, held := Drop(th.held, k, a));
    UpInOrder(s, t);
    BooksPush(th.al, s.mem, th.held, k, a, n);
    PushDemand(th, th', s.mem, k, a, n);
    OneThread(s, Stepped(s, t, th', m), t);
  }

  lemma UpInOrder(s: State, t: nat)
    requires Inv(s) && AccountsOk(s) && t < |s.threads| && s.threads[t].phase == Up
    ensures var th := s.threads[t]; AllocatorOk(th.al, s.mem, th.held) && BooksOk(th.al, th.held) && DemandsOk(th)
  {
    hide OwnersApart, ChunksOk, CarvedOk, PendingsOk, BlobsOk, StashOk, OrphansOk, RegistryOk, AllocatorOk, BooksOk,
         DemandsOk;
    assert ThreadOk(s.threads[t], s.mem) && ThreadAccounts(s.threads[t]);
  }

  lemma PushDemand(th: Thread, th': Thread, m: Words, k: nat, a: nat, n: nat)
    requires DemandsOk(th) && k < NUM_CLASSES && a in th.held.blocks[k]
    requires th' == th.(al := PushTo(th.al, m, k, a, n).0, held := Drop(th.held, k, a))
    ensures DemandsOk(th')
  {
    assert DemandOk(th'.al.pools[k], k, |th.held.blocks[k] - {a}|, th.peaks[k]);
    OneDemand(th, th', k);
  }

  lemma DeleteAccounts(s: State, t: nat, p: nat)
    requires Inv(s) && AccountsOk(s) && CanDelete(s, t, p)
    ensures AccountsOk(DoDelete(s, t, p))
  {
    hide Inv, DoDelete, ThreadAccounts, NewAccounts, PushTo, Spared;
    if p == 0 {
      NullDelete(s, t);
    } else if it :| Names(s, it, p) && (s.threads[t].pending.Acquired? ==> it.Malloced?) {
      DeleteRefinesTagged(s, t, it, p);
      if it.Block? && s.ready && it.t == t && s.threads[t].phase == Up {
        PushAccounts(s, t, it.k, it.a, ClassSize(it.k));
      } else if it.Malloced? && s.blobs[it.b].Over? && s.blobs[it.b].owner == t {
        var th' := TaggedDelete(s, t, it).threads[t];
        assert ThreadAccounts(s.threads[t]) && NewAccounts(s.threads[t]);
        StashIrrelevant(s.threads[t], th');
        OneThread(s, TaggedDelete(s, t, it), t);
      }
    } else {
      DeleteNothingIff(s, t, p);
    }
  }

  lemma StashIrrelevant(th: Thread, th': Thread)
    requires ThreadAccounts(th) && NewAccounts(th)
    requires th' == th.(stash := th'.stash) || th' == th.(pending := th'.pending)
    ensures ThreadAccounts(th') && NewAccounts(th')
  {
  }

  /** Every step keeps every thread's books and demand bounds. */
  lemma StepAccounts(s: State, e: Event)
    requires Inv(s) && AccountsOk(s) && Enabled(s, e)
    ensures AccountsOk(Apply(s, e))
  {
    hide Inv, DoDelete, CanDelete, CanWrite, CanLink, DoLink, CanPop, DoPop, CanBump, DoBump, CanBuildPool, DoBuildPool;
    match e
    case Begin(t) =>
      assert ThreadOk(s.threads[t], s.mem) by { BeginFacts(s, t); }
      OneThread(s, DoBegin(s, t), t);
    case BuildPool(t, slab) => BuildPoolAccounts(s, t, slab);
    case BuildArena(t, base) => BuildArenaAccounts(s, t, base);
    case PopBlock(t, n) => PopAccounts(s, t, n);
    case AcquireChunk(t, n, base) =>
      StashIrrelevant(s.threads[t], DoAcquire(s, t, n, base).threads[t]);
      OneThread(s, DoAcquire(s, t, n, base), t);
    case LinkChunk(t) => LinkAccounts(s, t);
    case Bump(t, n, align) => BumpAccounts(s, t, n, align);
    case Free(t, p, n) =>
      if n <= MAX_SMALL {
        PushAccounts(s, t, ClassIndex(n), p, n);
      }
    case Delete(t, p) => DeleteAccounts(s, t, p);
    case MallocNew(t, base, n, kept) =>
    case Publish(kept) =>
    case MallocAligned(t, raw, n, align) =>
      StashIrrelevant(s.threads[t], DoMallocAligned(s, t, raw, n, align).threads[t]);
      OneThread(s, DoMallocAligned(s, t, raw, n, align), t);
    case MakeReady =>
    case Exit(t) => OneThread(s, DoExit(s, t), t);
    case ClientWrites(m) =>
  }

  lemma BeginFacts(s: State, t: nat)
    requires Inv(s) && CanBegin(s, t)
    ensures ThreadOk(s.threads[t], s.mem)
  {
  }
}
