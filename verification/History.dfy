/** Statistics against the history of a run: the peak, and fragmentation. */
module History {
  import opened FreeList
  import opened Bits
  import opened SizeClasses
  import opened Pools
  import opened Arenas
  import opened StatsModel
  import opened Allocators
  import opened Books
  import opened Machine
  import opened Steps
  import opened Deletion
  import opened Accounts
  import opened Runs

  // ---------------------------------------------------------------------------
  // What an event has to record

  /** What one thread's counters have to show of an event: nothing, or `got` bytes taken or given back for
      a request of `req` bytes. */
  datatype Bill = NoBill | Taken(req: nat, got: nat) | GivenBack(req: nat, got: nat)

  /** Small requests take a block of their class, arena requests what the cursor moves by; a direct free
      gives back the block for the size that it names, a delete by address the block for its class.
      Requests that the arena refuses, large frees and all other events leave no trace. */
  ghost function Billed(s: State, e: Event, t: nat): Bill
    requires t < |s.threads|
  {
    var th := s.threads[t];
    match e
    case PopBlock(u, n) => if u == t then Taken(n, BlockFor(n)) else NoBill
    case LinkChunk(u) =>
      if u == t && th.pending.Acquired? then Taken(th.pending.n, BlockFor(th.pending.n)) else NoBill
    case Bump(u, n, align) =>
      if u == t && align > 0 && th.al.arena.used <= EndOffset(th.al.arena, n, align) <= th.al.arena.capacity
      then Taken(n, EndOffset(th.al.arena, n, align) - th.al.arena.used) else NoBill
    case Free(u, p, n) => if u == t && n <= 1024 then GivenBack(n, BlockFor(n)) else NoBill
    case Delete(u, p) =>
      if u == t && s.ready && th.phase == Up then
        match Classify(th.al, p)
        case FromPool(k) => if k < NUM_CLASSES then GivenBack(SIZE_CLASSES[k], SIZE_CLASSES[k]) else NoBill
        case _ => NoBill
      else NoBill
    case _ => NoBill
  }

  /** The counters `b` are the counters `a` and this bill. */
  ghost predicate Enters(a: Stats, b: Stats, bill: Bill) {
    match bill
    case NoBill => b == a
    case Taken(req, got) =>
      && b.requestedBytes == a.requestedBytes + req && b.allocatedBytes == a.allocatedBytes + got
      && b.allocs == a.allocs + 1 && b.frees == a.frees
      && b.live == a.live + got && b.peak == (if a.live + got > a.peak then a.live + got else a.peak)
    case GivenBack(req, got) =>
      && b.requestedBytes == a.requestedBytes + req && b.allocatedBytes == a.allocatedBytes + got
      && b.allocs == a.allocs && b.frees == a.frees + 1
      && b.live == a.live - got && b.peak == a.peak
  }

  /** Every step enters exactly its bill. */
  lemma StepBills(s: State, e: Event, t: nat)
    requires Inv(s) && AccountsOk(s) && Enabled(s, e) && t < |s.threads| && t < |Apply(s, e).threads|
    requires s.threads[t].phase == Up && Apply(s, e).threads[t].phase == Up
    ensures Enters(s.threads[t].al.stats, Apply(s, e).threads[t].al.stats, Billed(s, e, t))
  {
    hide Inv, AccountsOk, CanDelete, DoDelete, DoLink, CanFree, DoFree, CanPop, DoPop, CanBump, DoBump, Enters;
    match e
    case PopBlock(u, n) => PopBills(s, u, n, t);
    case LinkChunk(u) => LinkBills(s, u, t);
    case Bump(u, n, align) => BumpBills(s, u, n, align, t);
    case Free(u, p, n) => FreeBills(s, u, p, n, t);
    case Delete(u, p) => DeleteBills(s, u, p, t);
    case _ => Unbilled(s.threads[t].al.stats);
  }

  lemma Unbilled(a: Stats)
    ensures Enters(a, a, NoBill)
  {
  }

  lemma PopBills(s: State, u: nat, n: nat, t: nat)
    requires CanPop(s, u, n) && t < |s.threads|
    ensures Enters(s.threads[t].al.stats, DoPop(s, u, n).threads[t].al.stats, Billed(s, PopBlock(u, n), t))
  {
    FitIsTight(n);
    hide ClassIndex;
  }

  lemma LinkBills(s: State, u: nat, t: nat)
    requires Inv(s) && CanLink(s, u) && t < |s.threads|
    ensures Enters(s.threads[t].al.stats, DoLink(s, u).threads[t].al.stats, Billed(s, LinkChunk(u), t))
  {
    var n := s.threads[u].pending.n;
    PendingRequest(s, u);
    FitIsTight(n);
    LinkPops(s, u);
    hide Inv, Link, RefillCount, ClassIndex;
  }

  lemma PendingRequest(s: State, u: nat)
    requires Inv(s) && CanLink(s, u)
    ensures var th := s.threads[u];
            th.pending.n <= MAX_SMALL && th.pending.k == ClassIndex(th.pending.n) && th.pending.body > 0
  {
    PendingBody(s, u);
  }

  /** The refilled pool is not dry. */
  lemma LinkPops(s: State, u: nat)
    requires Inv(s) && CanLink(s, u)
    ensures var th := s.threads[u];
            var (al, m) := Refill(th.al, s.mem, th.pending.k, th.pending.body);
            && |al.pools| == NUM_CLASSES && al.stats == th.al.stats
            && Pop(al.pools[th.pending.k], m).1 != 0
  {
    PendingRequest(s, u);
    hide Inv, RefillCount, LinkBlocks;
  }

  lemma BumpBills(s: State, u: nat, n: nat, align: nat, t: nat)
    requires Inv(s) && CanBump(s, u, n, align) && t < |s.threads|
    ensures Enters(s.threads[t].al.stats, DoBump(s, u, n, align).threads[t].al.stats, Billed(s, Bump(u, n, align), t))
  {
    if t == u {
      var th := s.threads[t];
      assert ThreadOk(th, s.mem);
      BumpRecord(th.al, s.mem, th.held, n, align);
    }
    hide Inv, FromBump, CheckWraps, AllocatorOk, TakeRange, EndOffset;
  }

  lemma BumpRecord(al: Allocator, m: Words, h: Holdings, n: nat, align: nat)
    requires AllocatorOk(al, m, h) && n < WORD_MOD && IsPow2(align) && align > 0 && !CheckWraps(al.arena, n, align)
    ensures var end := EndOffset(al.arena, n, align);
            && al.arena.used <= end
            && Enters(al.stats, FromBump(al, n, align).0.stats,
                      if end <= al.arena.capacity then Taken(n, end - al.arena.used) else NoBill)
  {
    FromBumpKeeps(al, m, h, n, align);
    GrantKeeps(al.arena, h.ranges, n, align);
    GrantRightIff(al.arena, n, align);
    CeilIsLeast(al.arena.base + al.arena.used, align);
    hide AllocatorOk, CheckWraps, IsPow2, CeilMultiple, Grant;
  }

  lemma FreeBills(s: State, u: nat, p: nat, n: nat, t: nat)
    requires CanFree(s, u, p, n) && t < |s.threads|
    ensures Enters(s.threads[t].al.stats, DoFree(s, u, p, n).threads[t].al.stats, Billed(s, Free(u, p, n), t))
  {
    if n <= MAX_SMALL {
      FitIsTight(n);
    }
    hide ClassIndex;
  }

  lemma DeleteBills(s: State, u: nat, p: nat, t: nat)
    requires Inv(s) && CanDelete(s, u, p) && t < |s.threads|
    ensures Enters(s.threads[t].al.stats, DoDelete(s, u, p).threads[t].al.stats, Billed(s, Delete(u, p), t))
  {
    hide Inv, DoDelete, Spared, Classify, ContainingBlock;
    if p == 0 {
      NullDelete(s, u);
      assert Classify(s.threads[t].al, 0) == NotOurs by { NullNotOurs(s.threads[t].al); }
    } else if it :| Names(s, it, p) {
      DeleteRefinesTagged(s, u, it, p);
      if s.threads[u].phase == Up {
        InvCore(s);
        ClassifyItem(s, u, it, p);
      }
      TaggedBills(s, u, it, t);
    } else {
      DeleteNothingIff(s, u, p);
      if s.threads[u].phase == Up {
        SparedNoPool(s, u, p);
      }
    }
  }

  lemma NullNotOurs(al: Allocator)
    ensures Classify(al, 0) == NotOurs
  {
  }

  lemma SparedNoPool(s: State, u: nat, p: nat)
    requires Inv(s) && Spared(s, u, p) && s.threads[u].phase == Up && p != 0
    ensures s.ready ==> !Classify(s.threads[u].al, p).FromPool?
  {
    PoolsOrRegistered(s, u, p);
    hide Inv, Classify, Contains;
  }

  /** The same for a delete that is told what it deletes. */
  lemma TaggedBills(s: State, u: nat, it: Item, t: nat)
    requires Inv(s) && u < |s.threads| && t < |s.threads| && Live(s, it)
    requires s.threads[u].phase == Up ==> |s.threads[u].al.pools| == NUM_CLASSES
    ensures t < |TaggedDelete(s, u, it).threads|
    ensures Enters(s.threads[t].al.stats, TaggedDelete(s, u, it).threads[t].al.stats,
                   if t == u && it.Block? && it.t == u && s.ready && s.threads[u].phase == Up
                   then GivenBack(SIZE_CLASSES[it.k], SIZE_CLASSES[it.k]) else NoBill)
  {
    hide Inv, Push;
  }

  // ---------------------------------------------------------------------------

  /** Bytes outstanding in thread `t`: blocks off its free lists and its arena's used bytes. */
  ghost function Bytes(s: State, t: nat): nat {
    if t < |s.threads| && s.threads[t].phase == Up && |s.threads[t].held.blocks| == NUM_CLASSES
    then Outstanding(s.threads[t].al, s.threads[t].held) else 0
  }

  /** The most bytes outstanding in thread `t` in the states up to the i-th. */
  ghost function MaxBytes(states: seq<State>, i: nat, t: nat): nat
    requires i < |states|
  {
    if i == 0 then Bytes(states[0], t) else Max(MaxBytes(states, i - 1, t), Bytes(states[i], t))
  }

  /** A thread's life up to the i-th state: statistics while it is up, none before. */
  ghost predicate PeakIs(states: seq<State>, i: nat, t: nat)
    requires i < |states|
  {
    t < |states[i].threads| ==>
      match states[i].threads[t].phase
      case Up => states[i].threads[t].al.stats.peak == MaxBytes(states, i, t)
      case Gone => true
      case _ => MaxBytes(states, i, t) == 0
  }

  /** The recorded peak is the maximum, over the whole run so far, of the bytes outstanding. */
  lemma {:induction false} RunPeak(states: seq<State>, events: seq<Event>, i: nat, t: nat)
    requires IsRun(states, events) && i < |states|
    ensures PeakIs(states, i, t)
  {
    hide Inv, AccountsOk, Possible, Placed, Apply;
    if i > 0 {
      RunPeak(states, events, i - 1, t);
      RunSafe(states, events, i - 1);
      RunSafe(states, events, i);
      PeakStep(states[i - 1], events[i - 1], t);
    }
  }

  /** How one step moves phase, peak and outstanding bytes. */
  lemma PeakStep(s: State, e: Event, t: nat)
    requires Inv(s) && AccountsOk(s) && Enabled(s, e)
    requires Inv(Apply(s, e)) && AccountsOk(Apply(s, e))
    ensures var s' := Apply(s, e);
            && |s'.threads| == |s.threads|
            && (t < |s.threads| ==>
                 var th, th' := s.threads[t], s'.threads[t];
                 && (th'.phase == Up && th.phase == Up ==> th'.al.stats.peak == Max(th.al.stats.peak, Bytes(s', t)))
                 && (th'.phase == Up && th.phase != Up ==>
                       th.phase == Building && th'.al.stats.peak == 0 == Bytes(s', t))
                 && (th'.phase in {Fresh, Building} ==> th.phase in {Fresh, Building}))
  {
    hide Inv, AccountsOk, Possible, Placed, Apply, Bytes, Enters, Billed;
    StepPhases(s, e, t);
    var s' := Apply(s, e);
    if t < |s.threads| && s'.threads[t].phase == Up {
      UpAccounts(s', t);
      if s.threads[t].phase == Up {
        UpAccounts(s, t);
        StepBills(s, e, t);
        EnteredPeak(s.threads[t].al.stats, s'.threads[t].al.stats, Billed(s, e, t));
      }
    }
  }

  lemma UpAccounts(s: State, t: nat)
    requires AccountsOk(s) && t < |s.threads| && s.threads[t].phase == Up
    ensures s.threads[t].al.stats.live == Bytes(s, t) && s.threads[t].al.stats.peak >= s.threads[t].al.stats.live
  {
    assert ThreadAccounts(s.threads[t]);
  }

  lemma EnteredPeak(a: Stats, b: Stats, bill: Bill)
    requires Enters(a, b, bill) && a.peak >= a.live
    ensures b.peak == if b.live > a.peak then b.live else a.peak
  {
  }

  lemma StepPhases(s: State, e: Event, t: nat)
    requires Inv(s) && AccountsOk(s) && Enabled(s, e)
    ensures var s' := Apply(s, e);
            && |s'.threads| == |s.threads|
            && (t < |s.threads| ==>
                 var th, th' := s.threads[t], s'.threads[t];
                 && (th'.phase == Up && th.phase != Up ==>
                       && th.phase == Building && th'.al.stats == NO_STATS
                       && forall k :: 0 <= k < |th'.peaks| ==> th'.peaks[k] == 0)
                 && (th'.phase in {Fresh, Building} ==> th.phase in {Fresh, Building}))
  {
    hide Inv, ThreadAccounts, CanPop, DoPop, CanLink, DoLink, CanDelete, DoDelete, CanBump, DoBump, CanFree, DoFree,
         CanWrite, FreshRegion, LinkBlocks, AlignUp;
    if t < |s.threads| {
      assert NewAccounts(s.threads[t]);
    }
    match e
    case PopBlock(u, n) => PopDemand(s, u, n, t, 0);
    case LinkChunk(u) => LinkDemandMoves(s, u, t, 0);
    case Bump(u, n, align) => BumpDemand(s, u, n, align, t, 0);
    case Free(u, p, n) => FreeDemand(s, u, p, n, t, 0);
    case Delete(u, p) => DeleteDemand(s, u, p, t, 0);
    case _ =>
  }

  // ---------------------------------------------------------------------------
  // The counters over a whole run

  function Asked(bill: Bill): int {
    if bill.NoBill? then 0 else bill.req
  }

  function Moved(bill: Bill): int {
    if bill.NoBill? then 0 else bill.got
  }

  function Gained(bill: Bill): int {
    match bill
    case NoBill => 0
    case Taken(req, got) => got
    case GivenBack(req, got) => 0 - got
  }

  function One(bill: Bill): int {
    if bill.Taken? then 1 else 0
  }

  function OneBack(bill: Bill): int {
    if bill.GivenBack? then 1 else 0
  }

  /** What the first `i` events of a run bill to thread `t`, added up. */
  ghost function Sum(states: seq<State>, events: seq<Event>, i: nat, t: nat, f: Bill -> int): int
    requires i <= |events| < |states|
  {
    if i == 0 then 0
    else Sum(states, events, i - 1, t, f)
         + if t < |states[i - 1].threads| then f(Billed(states[i - 1], events[i - 1], t)) else 0
  }

  /** The counters are what the events so far add up to; a thread that has no allocator yet has been billed
      for nothing. */
  ghost predicate CountersAre(states: seq<State>, events: seq<Event>, i: nat, t: nat)
    requires i <= |events| < |states|
  {
    t < |states[i].threads| ==>
      var asked, moved := Sum(states, events, i, t, Asked), Sum(states, events, i, t, Moved);
      var live := Sum(states, events, i, t, Gained);
      var allocs, frees := Sum(states, events, i, t, One), Sum(states, events, i, t, OneBack);
      match states[i].threads[t].phase
      case Up =>
        var c := states[i].threads[t].al.stats;
        && c.requestedBytes == asked && c.allocatedBytes == moved && c.live == live
        && c.allocs == allocs && c.frees == frees
      case Gone => true
      case _ => asked == moved == live == allocs == frees == 0
  }

  /** Over every run: the bytes a thread's statistics call requested are what its requests and frees so far
      asked for, the allocated bytes are what those took or gave back, the live bytes their difference, and
      the two counts are the numbers of them. */
  lemma {:induction false} RunCounters(states: seq<State>, events: seq<Event>, i: nat, t: nat)
    requires IsRun(states, events) && i < |states|
    ensures CountersAre(states, events, i, t)
  {
    hide Inv, AccountsOk, Possible, Placed, Apply, Billed, Enters;
    if i > 0 {
      RunCounters(states, events, i - 1, t);
      RunSafe(states, events, i - 1);
      var s, e := states[i - 1], events[i - 1];
      StepPhases(s, e, t);
      if t < |s.threads| {
        CounterStep(s, e, t);
        AddBill(states, events, i, t);
      }
    }
  }

  lemma AddBill(states: seq<State>, events: seq<Event>, i: nat, t: nat)
    requires 0 < i <= |events| < |states| && t < |states[i - 1].threads|
    ensures var bill := Billed(states[i - 1], events[i - 1], t);
            && Sum(states, events, i, t, Asked) == Sum(states, events, i - 1, t, Asked) + Asked(bill)
            && Sum(states, events, i, t, Moved) == Sum(states, events, i - 1, t, Moved) + Moved(bill)
            && Sum(states, events, i, t, Gained) == Sum(states, events, i - 1, t, Gained) + Gained(bill)
            && Sum(states, events, i, t, One) == Sum(states, events, i - 1, t, One) + One(bill)
            && Sum(states, events, i, t, OneBack) == Sum(states, events, i - 1, t, OneBack) + OneBack(bill)
  {
    hide Billed;
  }

  /** One step, for a thread in any phase. */
  lemma CounterStep(s: State, e: Event, t: nat)
    requires Inv(s) && AccountsOk(s) && Enabled(s, e) && t < |s.threads| == |Apply(s, e).threads|
    ensures var th, th' := s.threads[t], Apply(s, e).threads[t];
            && (th.phase in {Fresh, Building} ==> Billed(s, e, t) == NoBill)
            && (th'.phase == Up && th.phase != Up ==> th.phase == Building && th'.al.stats == NO_STATS)
            && (th'.phase == Up && th.phase == Up ==> Changed(th.al.stats, th'.al.stats, Billed(s, e, t)))
  {
    hide Inv, AccountsOk, Possible, Placed, Apply, Billed, Enters;
    StepPhases(s, e, t);
    if s.threads[t].phase != Up {
      EarlyUnbilled(s, e, t);
    } else if Apply(s, e).threads[t].phase == Up {
      StepBills(s, e, t);
      EnteredChange(s.threads[t].al.stats, Apply(s, e).threads[t].al.stats, Billed(s, e, t));
    }
  }

  ghost predicate Changed(a: Stats, b: Stats, bill: Bill) {
    && b.requestedBytes == a.requestedBytes + Asked(bill) && b.allocatedBytes == a.allocatedBytes + Moved(bill)
    && b.live == a.live + Gained(bill) && b.allocs == a.allocs + One(bill) && b.frees == a.frees + OneBack(bill)
  }

  lemma EnteredChange(a: Stats, b: Stats, bill: Bill)
    requires Enters(a, b, bill)
    ensures Changed(a, b, bill)
  {
  }

  /** Nothing is billed to a thread whose allocator is not in use. */
  lemma EarlyUnbilled(s: State, e: Event, t: nat)
    requires Enabled(s, e) && t < |s.threads| && s.threads[t].phase != Up
    ensures Billed(s, e, t) == NoBill
  {
    hide CanDelete, CanWrite, FreshRegion, Classify, CheckWraps, EndOffset;
  }

  // ---------------------------------------------------------------------------
  // Peak demand of a pool

  /** Blocks of pool `k` of thread `t` that are off its free list. */
  ghost function Out(s: State, t: nat, k: nat): nat {
    if t < |s.threads| && s.threads[t].phase == Up && k < |s.threads[t].held.blocks|
    then |s.threads[t].held.blocks[k]| else 0
  }

  /** The most blocks simultaneously off the list in the states up to the i-th. */
  ghost function MaxOut(states: seq<State>, i: nat, t: nat, k: nat): nat
    requires i < |states|
  {
    if i == 0 then Out(states[0], t, k) else Max(MaxOut(states, i - 1, t, k), Out(states[i], t, k))
  }

  ghost predicate DemandIs(states: seq<State>, i: nat, t: nat, k: nat)
    requires i < |states|
  {
    t < |states[i].threads| ==>
      match states[i].threads[t].phase
      case Up => k < |states[i].threads[t].peaks| && states[i].threads[t].peaks[k] == MaxOut(states, i, t, k)
      case Gone => true
      case _ => MaxOut(states, i, t, k) == 0
  }

  /** The thread acquires no chunk. */
  predicate PendingMoves(th: Thread, th': Thread) {
    th'.pending == th.pending || th'.pending == NoChunk
  }

  /** A step within a phase raises the recorded demand at most to what is out afterwards. */
  ghost predicate DemandMoves(th: Thread, th': Thread, k: nat) {
    && th'.phase == th.phase && |th'.peaks| == |th.peaks|
    && (k < |th.peaks| ==>
          || th'.peaks[k] == th.peaks[k]
          || (k < |th'.held.blocks| && th'.peaks[k] == Max(th.peaks[k], |th'.held.blocks[k]|)))
  }

  lemma StepDemand(s: State, e: Event, t: nat, k: nat)
    requires Enabled(s, e) && t < |s.threads| == |Apply(s, e).threads|
    requires s.threads[t].phase == Up && k < |s.threads[t].peaks|
    requires Apply(s, e).threads[t].phase == Up
    ensures DemandMoves(s.threads[t], Apply(s, e).threads[t], k)
  {
    hide CanPop, DoPop, CanLink, DoLink, CanDelete, DoDelete, CanBump, DoBump, CanFree, DoFree, CanWrite,
         FreshRegion, LinkBlocks, AlignUp;
    match e
    case PopBlock(u, n) => PopDemand(s, u, n, t, k);
    case LinkChunk(u) => LinkDemandMoves(s, u, t, k);
    case Bump(u, n, align) => BumpDemand(s, u, n, align, t, k);
    case Free(u, p, n) => FreeDemand(s, u, p, n, t, k);
    case Delete(u, p) => DeleteDemand(s, u, p, t, k);
    case _ =>
  }

  lemma PopDemand(s: State, u: nat, n: nat, t: nat, k: nat)
    requires CanPop(s, u, n)
    ensures |DoPop(s, u, n).threads| == |s.threads| && DoPop(s, u, n).chunks == s.chunks
    ensures t < |s.threads| ==> DemandMoves(s.threads[t], DoPop(s, u, n).threads[t], k)
    ensures t < |s.threads| ==> PendingMoves(s.threads[t], DoPop(s, u, n).threads[t])
  {
    hide PopFrom;
  }

  lemma LinkDemandMoves(s: State, u: nat, t: nat, k: nat)
    requires CanLink(s, u)
    ensures |DoLink(s, u).threads| == |s.threads| && DoLink(s, u).chunks == s.chunks
    ensures t < |s.threads| ==> DemandMoves(s.threads[t], DoLink(s, u).threads[t], k)
    ensures t < |s.threads| ==> PendingMoves(s.threads[t], DoLink(s, u).threads[t])
  {
    hide PopFrom, Link;
  }

  lemma BumpDemand(s: State, u: nat, n: nat, align: nat, t: nat, k: nat)
    requires CanBump(s, u, n, align)
    ensures |DoBump(s, u, n, align).threads| == |s.threads| && DoBump(s, u, n, align).chunks == s.chunks
    ensures t < |s.threads| ==> DemandMoves(s.threads[t], DoBump(s, u, n, align).threads[t], k)
    ensures t < |s.threads| ==> PendingMoves(s.threads[t], DoBump(s, u, n, align).threads[t])
  {
    hide FromBump, CheckWraps;
  }

  lemma FreeDemand(s: State, u: nat, p: nat, n: nat, t: nat, k: nat)
    requires CanFree(s, u, p, n)
    ensures |DoFree(s, u, p, n).threads| == |s.threads| && DoFree(s, u, p, n).chunks == s.chunks
    ensures t < |s.threads| ==> DemandMoves(s.threads[t], DoFree(s, u, p, n).threads[t], k)
    ensures t < |s.threads| ==> PendingMoves(s.threads[t], DoFree(s, u, p, n).threads[t])
  {
    hide Deallocate;
  }

  lemma DeleteDemand(s: State, u: nat, p: nat, t: nat, k: nat)
    requires CanDelete(s, u, p)
    ensures |DoDelete(s, u, p).threads| == |s.threads| && DoDelete(s, u, p).chunks == s.chunks
    ensures t < |s.threads| ==> DemandMoves(s.threads[t], DoDelete(s, u, p).threads[t], k)
    ensures t < |s.threads| ==> PendingMoves(s.threads[t], DoDelete(s, u, p).threads[t])
  {
    assert CanDelete(s, u, p);
    DeleteThreads(s, u, p);
    hide DoDelete, CanDelete;
  }

  /** A deletion changes one thread, in its allocator, its held blocks and its stash. */
  lemma DeleteThreads(s: State, u: nat, p: nat)
    requires u < |s.threads|
    requires s.threads[u].phase == Up ==> Sized(s.threads[u].al) && |s.threads[u].held.blocks| == NUM_CLASSES
    ensures var s' := DoDelete(s, u, p);
            && |s'.threads| == |s.threads| && s'.chunks == s.chunks
            && (forall t :: 0 <= t < |s.threads| && t != u ==> s'.threads[t] == s.threads[t])
            && var th, th' := s.threads[u], s'.threads[u];
               th'.phase == th.phase && th'.pending == th.pending && th'.peaks == th.peaks
  {
    hide DeallocateContaining, Decide, Sized, ContainingBlock, Drop, Erase, ClassSize;
  }

  /** How one step moves the demand of a pool. */
  lemma DemandStep(s: State, e: Event, t: nat, k: nat)
    requires Inv(s) && AccountsOk(s) && Enabled(s, e) && k < NUM_CLASSES
    requires AccountsOk(Apply(s, e)) && t < |s.threads| == |Apply(s, e).threads|
    requires Apply(s, e).threads[t].phase == Up && s.threads[t].phase == Up
    ensures var th, th' := s.threads[t], Apply(s, e).threads[t];
            && |th.peaks| == |th'.peaks| == NUM_CLASSES
            && th'.peaks[k] == Max(th.peaks[k], Out(Apply(s, e), t, k))
  {
    hide Inv, AccountsOk, Possible, Placed, Apply;
    UpDemand(s, t, k);
    UpDemand(Apply(s, e), t, k);
    StepDemand(s, e, t, k);
  }

  lemma UpDemand(s: State, t: nat, k: nat)
    requires AccountsOk(s) && t < |s.threads| && s.threads[t].phase == Up && k < NUM_CLASSES
    ensures |s.threads[t].peaks| == NUM_CLASSES == |s.threads[t].held.blocks|
    ensures Out(s, t, k) <= s.threads[t].peaks[k]
  {
    assert ThreadAccounts(s.threads[t]);
  }

  /** The demand a thread's pool records is the maximum, over the whole run so far, of the blocks
      simultaneously off its list. */
  lemma {:induction false} RunDemand(states: seq<State>, events: seq<Event>, i: nat, t: nat, k: nat)
    requires IsRun(states, events) && i < |states| && k < NUM_CLASSES
    ensures DemandIs(states, i, t, k)
  {
    hide Inv, AccountsOk, Possible, Placed, Apply;
    if i == 0 {
    } else {
      RunDemand(states, events, i - 1, t, k);
      RunSafe(states, events, i - 1);
      RunSafe(states, events, i);
      var s, e := states[i - 1], events[i - 1];
      StepPhases(s, e, t);
      if t < |s.threads| && Apply(s, e).threads[t].phase == Up {
        if s.threads[t].phase == Up {
          DemandStep(s, e, t, k);
        } else {
          UpDemand(Apply(s, e), t, k);
        }
      }
    }
  }

  /** Chunk use is determined by peak demand, for every run: pool `k` of a thread has linked `c`
      chunks if and only if the most blocks that were ever simultaneously off its list lie in
      the c-th band.  The slab has 256 blocks; every chunk adds `m`, the most that its 65472 bytes
      hold up to 256. */
  lemma RunChunkUse(states: seq<State>, events: seq<Event>, i: nat, t: nat, k: nat, c: nat, m: nat)
    requires IsRun(states, events) && i < |states| && k < NUM_CLASSES
    requires 0 < m <= 256 && m * SIZE_CLASSES[k] <= 65472 && (m == 256 || (m + 1) * SIZE_CLASSES[k] > 65472)
    requires t < |states[i].threads| && states[i].threads[t].phase == Up
    ensures |states[i].threads[t].al.pools| == NUM_CLASSES
    ensures var peak := MaxOut(states, i, t, k);
            |states[i].threads[t].al.pools[k].regions| - 1 == c
            <==> peak <= 256 + c * m && (c >= 1 ==> 256 + (c - 1) * m < peak)
  {
    assert LargestRefill(m, SIZE_CLASSES[k]);
    hide Inv, AccountsOk, Possible, Placed, Apply, MaxOut, RefillCount, LargestRefill;
    RunDemand(states, events, i, t, k);
    RunChunks(states, events, i, t, k, c, m);
  }

  // ---------------------------------------------------------------------------
  // Fragmentation over the lifetime

  /** Steps of which a run wastes less than half in all: requests and direct frees of at least 9 bytes, at
      alignments up to the default one or up to the request.  A single request to the arena may skip more
      bytes than it asks for; those are bytes that the request before it left over.  malloc aligns the
      arena. */
  ghost predicate Fine(s: State, e: Event) {
    match e
    case BuildArena(t, base) => base % MAX_ALIGN == 0
    case PopBlock(t, n) => n >= 9
    case LinkChunk(t) => t < |s.threads| && s.threads[t].pending.Acquired? && s.threads[t].pending.n >= 9
    case Bump(t, n, align) => n >= 9 && (align <= MAX_ALIGN || align <= n)
    case Free(t, p, n) => n >= 9
    case _ => true
  }

  /** Less than half is lost, even if the arena's next request skips as much as it can. */
  ghost predicate Amortised(al: Allocator) {
    && Tight(al.stats)
    && al.stats.allocatedBytes + Slack(al.arena) <= 2 * al.stats.requestedBytes
  }

  ghost predicate AmortisedIfUp(s: State, t: nat) {
    t < |s.threads| && s.threads[t].phase == Up ==> Amortised(s.threads[t].al)
  }

  /** Fragmentation stays below one half over any run whose steps are all fine. */
  lemma {:induction false} RunTight(states: seq<State>, events: seq<Event>, i: nat, t: nat)
    requires IsRun(states, events) && i < |states|
    requires forall j :: 0 <= j < i ==> Fine(states[j], events[j])
    ensures AmortisedIfUp(states[i], t)
    ensures t < |states[i].threads| && states[i].threads[t].phase == Up ==>
              var c := states[i].threads[t].al.stats;
              c.requestedBytes <= c.allocatedBytes && (c.allocatedBytes > 0 ==> c.allocatedBytes < 2 * c.requestedBytes)
  {
    hide Inv, AccountsOk, Possible, Placed, Apply, Fine, Slack;
    if i > 0 {
      RunTight(states, events, i - 1, t);
      RunSafe(states, events, i - 1);
      TightStep(states[i - 1], events[i - 1], t);
    }
  }

  lemma TightStep(s: State, e: Event, t: nat)
    requires Inv(s) && AccountsOk(s) && Enabled(s, e) && Fine(s, e) && AmortisedIfUp(s, t)
    ensures AmortisedIfUp(Apply(s, e), t)
  {
    hide Inv, AccountsOk, Possible, Placed, Apply, Amortised, Fine;
    StepPhases(s, e, t);
    var s' := Apply(s, e);
    if t < |s.threads| && s'.threads[t].phase == Up {
      if s.threads[t].phase != Up {
        FirstTight(s, e, t);
      } else if e.Bump? && e.t == t {
        BumpIsStep(s, t, e.n, e.align);
        BumpTight(s, t, e.n, e.align);
      } else {
        OtherTight(s, e, t);
      }
    }
  }

  /** An allocator that has just been built. */
  lemma FirstTight(s: State, e: Event, t: nat)
    requires Enabled(s, e) && Fine(s, e) && t < |s.threads| == |Apply(s, e).threads|
    requires s.threads[t].phase != Up && Apply(s, e).threads[t].phase == Up
    requires Apply(s, e).threads[t].al.stats == NO_STATS
    ensures Amortised(Apply(s, e).threads[t].al)
  {
    hide CanPop, DoPop, CanLink, DoLink, CanDelete, DoDelete, CanBump, DoBump, CanFree, DoFree, CanWrite, FreshRegion,
         LinkBlocks, AlignUp, OrphansOf, Slack;
    match e
    case PopBlock(u, n) => PopDemand(s, u, n, t, 0);
    case LinkChunk(u) => LinkDemandMoves(s, u, t, 0);
    case Bump(u, n, align) => BumpDemand(s, u, n, align, t, 0);
    case Free(u, p, n) => FreeDemand(s, u, p, n, t, 0);
    case Delete(u, p) => DeleteDemand(s, u, p, t, 0);
    case BuildArena(u, base) => NoSlack(base);
    case _ =>
  }

  lemma NoSlack(base: nat)
    requires base % MAX_ALIGN == 0
    ensures Slack(NewArena(base, ARENA_CAPACITY)) == 0
  {
    CeilIsLeast(base, MAX_ALIGN);
  }

  /** A step that wastes less than half and leaves the arena alone. */
  lemma OtherTight(s: State, e: Event, t: nat)
    requires Inv(s) && AccountsOk(s) && Enabled(s, e) && Fine(s, e) && !(e.Bump? && e.t == t)
    requires t < |s.threads| == |Apply(s, e).threads|
    requires s.threads[t].phase == Up && Apply(s, e).threads[t].phase == Up && Amortised(s.threads[t].al)
    ensures Amortised(Apply(s, e).threads[t].al)
  {
    hide Inv, AccountsOk, Possible, Placed, Apply, Slack;
    StepArena(s, e, t);
    StepBills(s, e, t);
    ThriftyBill(s, e, t);
    hide Billed, Fine, Slack;
    EnteredTight(s.threads[t].al.stats, Apply(s, e).threads[t].al.stats, Billed(s, e, t), Slack(s.threads[t].al.arena));
  }

  /** A bill that wastes less than half. */
  predicate Tidy(bill: Bill) {
    bill.NoBill? || 0 < bill.req <= bill.got < 2 * bill.req
  }

  lemma EnteredTight(a: Stats, b: Stats, bill: Bill, slack: nat)
    requires Enters(a, b, bill) && Tidy(bill) && Tight(a) && a.allocatedBytes + slack <= 2 * a.requestedBytes
    ensures Tight(b) && b.allocatedBytes + slack <= 2 * b.requestedBytes
  {
  }

  /** Requests of at least 9 bytes waste less than half of their block. */
  lemma ThriftyBill(s: State, e: Event, t: nat)
    requires Inv(s) && Enabled(s, e) && Fine(s, e) && !(e.Bump? && e.t == t) && t < |s.threads|
    ensures Tidy(Billed(s, e, t))
  {
    hide Inv, CanDelete, CanWrite, FreshRegion, Classify, CheckWraps, EndOffset, ClassIndex, DoLink;
    match e
    case PopBlock(u, n) => FitIsTight(n);
    case LinkChunk(u) =>
      PendingRequest(s, u);
      FitIsTight(s.threads[u].pending.n);
    case Free(u, p, n) =>
      if n <= MAX_SMALL {
        FitIsTight(n);
      }
    case _ =>
  }

  lemma BumpIsStep(s: State, u: nat, n: nat, align: nat)
    requires Possible(s, Bump(u, n, align))
    ensures CanBump(s, u, n, align) && Apply(s, Bump(u, n, align)) == DoBump(s, u, n, align)
  {
  }

  /** Only a request to the arena moves its cursor. */
  lemma StepArena(s: State, e: Event, t: nat)
    requires Enabled(s, e) && !(e.Bump? && e.t == t) && t < |s.threads| == |Apply(s, e).threads|
    requires s.threads[t].phase == Up && Apply(s, e).threads[t].phase == Up
    ensures Apply(s, e).threads[t].al.arena == s.threads[t].al.arena
  {
    hide CanPop, DoPop, CanLink, DoLink, CanDelete, DoDelete, CanFree, DoFree, CanWrite, FreshRegion, CheckWraps,
         LinkBlocks, AlignUp, OrphansOf, FromBump, TakeRange;
    match e
    case PopBlock(u, n) => PopArena(s, u, n, t);
    case LinkChunk(u) => LinkArena(s, u, t);
    case Free(u, p, n) => FreeArena(s, u, p, n, t);
    case Delete(u, p) => DeleteArena(s, u, p, t);
    case _ =>
  }

  lemma PopArena(s: State, u: nat, n: nat, t: nat)
    requires CanPop(s, u, n) && t < |s.threads|
    ensures t < |DoPop(s, u, n).threads| && DoPop(s, u, n).threads[t].al.arena == s.threads[t].al.arena
  {
    hide Pop;
  }

  lemma LinkArena(s: State, u: nat, t: nat)
    requires CanLink(s, u) && t < |s.threads|
    ensures t < |DoLink(s, u).threads| && DoLink(s, u).threads[t].al.arena == s.threads[t].al.arena
  {
    hide Pop, Link;
  }

  lemma FreeArena(s: State, u: nat, p: nat, n: nat, t: nat)
    requires CanFree(s, u, p, n) && t < |s.threads|
    ensures t < |DoFree(s, u, p, n).threads| && DoFree(s, u, p, n).threads[t].al.arena == s.threads[t].al.arena
  {
    hide Push;
  }

  lemma DeleteArena(s: State, u: nat, p: nat, t: nat)
    requires CanDelete(s, u, p) && t < |s.threads|
    ensures t < |DoDelete(s, u, p).threads| && DoDelete(s, u, p).threads[t].al.arena == s.threads[t].al.arena
  {
    hide Push, Decide, Names, Idle, Sized, ContainingBlock, Drop, Erase, NamesStale, Spared;
  }

  /** A request to the arena: what it takes and leaves over is less than twice what it asks for and what
      it found left over. */
  lemma BumpTight(s: State, t: nat, n: nat, align: nat)
    requires Inv(s) && CanBump(s, t, n, align) && Fine(s, Bump(t, n, align)) && Amortised(s.threads[t].al)
    ensures t < |DoBump(s, t, n, align).threads| && Amortised(DoBump(s, t, n, align).threads[t].al)
  {
    var th := s.threads[t];
    assert ThreadOk(th, s.mem);
    hide Inv;
    FromBumpTight(th.al, s.mem, th.held, n, align);
    hide FromBump, CheckWraps, AllocatorOk, TakeRange, Slack;
  }

  lemma FromBumpTight(al: Allocator, m: Words, h: Holdings, n: nat, align: nat)
    requires AllocatorOk(al, m, h) && n < WORD_MOD && IsPow2(align) && align > 0 && !CheckWraps(al.arena, n, align)
    requires n >= 9 && (align <= MAX_ALIGN || align <= n) && Amortised(al)
    ensures Amortised(FromBump(al, n, align).0)
  {
    FromBumpKeeps(al, m, h, n, align);
    GrantAmortised(al.arena, n, align);
    GrantKeeps(al.arena, h.ranges, n, align);
    hide AllocatorOk, CheckWraps, IsPow2, Slack, Grant;
  }
}
