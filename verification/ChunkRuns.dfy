/** A chunk over a whole run: it is linked at most once, and what was cut from it stays good. */
module ChunkRuns {
  import opened Bits
  import opened FreeList
  import opened SizeClasses
  import opened Allocators
  import opened Pools
  import opened Arenas
  import opened Machine
  import opened Objects
  import opened Deletion
  import opened Exits
  import opened Steps
  import opened Runs
  import opened History
  import opened Accounts

  /** A chunk has its body at `b`, and no thread is about to link it. */
  ghost predicate Settled(s: State, b: nat) {
    && (exists c :: 0 <= c < |s.chunks| && s.chunks[c].base + HEADER_BYTES == b)
    && forall t :: 0 <= t < |s.threads| && s.threads[t].pending.Acquired? ==> s.threads[t].pending.body != b
  }

  /** Two threads never wait to link the same chunk. */
  lemma PendingsDiffer(s: State, t: nat, u: nat)
    requires PendingsOk(s) && t < |s.threads| && u < |s.threads| && t != u
    requires s.threads[t].pending.Acquired? && s.threads[u].pending.Acquired?
    ensures s.threads[u].pending.body != s.threads[t].pending.body
  {
    var b := s.threads[t].pending.body;
    assert InPending(s, t, b);
    assert s.threads[u].pending.body == b ==> InPending(s, u, b);
  }

  /** The chunk that is linked is settled from then on. */
  lemma LinkSettles(s: State, t: nat)
    requires Inv(s) && CanLink(s, t)
    ensures Settled(DoLink(s, t), s.threads[t].pending.body)
  {
    hide ThreadOk, OwnersApart, ChunksOk, CarvedOk, BlobsOk, StashOk, OrphansOk, RegistryOk, PendingsOk, Refill,
         PopFrom;
    var s', b := DoLink(s, t), s.threads[t].pending.body;
    PendingBody(s, t);
    LinkDemandMoves(s, t, t, 0);
    forall u | 0 <= u < |s'.threads| && s'.threads[u].pending.Acquired?
      ensures s'.threads[u].pending.body != b
    {
      assert u != t && s'.threads[u] == s.threads[u];
      PendingsDiffer(s, t, u);
    }
  }

  lemma AcquireSettled(s: State, t: nat, n: nat, base: nat, b: nat)
    requires CanAcquire(s, t, n, base) && Settled(s, b)
    ensures Settled(DoAcquire(s, t, n, base), b)
  {
    var s' := DoAcquire(s, t, n, base);
    var c :| 0 <= c < |s.chunks| && s.chunks[c].base + HEADER_BYTES == b;
    assert s'.chunks[c] == s.chunks[c];
    assert InChunk(s, c, s.chunks[c].base);
    assert Unused(s, base);
  }

  /** No step makes a settled chunk pending again. */
  lemma StepSettled(s: State, e: Event, b: nat)
    requires Enabled(s, e) && Settled(s, b)
    ensures Settled(Apply(s, e), b)
  {
    hide CanPop, DoPop, CanLink, DoLink, CanDelete, DoDelete, CanBump, DoBump, CanFree, DoFree, CanWrite,
         CanAcquire, DoAcquire,
         CanBegin, DoBegin, CanBuildPool, DoBuildPool, CanBuildArena, DoBuildArena, CanMalloc, DoMalloc, CanPublish,
         DoPublish, CanMallocAligned, DoMallocAligned, CanExit, DoExit, Settled;
    match e
    case AcquireChunk(t, n, base) => AcquireSettled(s, t, n, base, b);
    case _ =>
      StepPending(s, e, 0);
      forall t | 0 <= t < |s.threads|
        ensures Apply(s, e).threads[t].pending == s.threads[t].pending || Apply(s, e).threads[t].pending == NoChunk
      {
        StepPending(s, e, t);
      }
      SettledMoves(s, Apply(s, e), b);
  }

  lemma SettledMoves(s: State, s': State, b: nat)
    requires Settled(s, b) && s'.chunks == s.chunks && |s'.threads| == |s.threads|
    requires forall t :: 0 <= t < |s.threads| ==>
               s'.threads[t].pending == s.threads[t].pending || s'.threads[t].pending == NoChunk
    ensures Settled(s', b)
  {
  }

  /** Only acquiring makes a chunk pending. */
  lemma StepPending(s: State, e: Event, t: nat)
    requires Enabled(s, e) && !e.AcquireChunk?
    ensures |Apply(s, e).threads| == |s.threads| && Apply(s, e).chunks == s.chunks
    ensures t < |s.threads| ==>
              Apply(s, e).threads[t].pending == s.threads[t].pending || Apply(s, e).threads[t].pending == NoChunk
  {
    hide CanPop, DoPop, CanLink, DoLink, CanDelete, DoDelete, CanBump, DoBump, CanFree, DoFree, CanWrite, FreshRegion,
         LinkBlocks, AlignUp, OrphansOf;
    match e
    case PopBlock(u, n) => PopDemand(s, u, n, t, 0);
    case LinkChunk(u) => LinkDemandMoves(s, u, t, 0);
    case Bump(u, n, align) => BumpDemand(s, u, n, align, t, 0);
    case Free(u, p, n) => FreeDemand(s, u, p, n, t, 0);
    case Delete(u, p) => DeleteDemand(s, u, p, t, 0);
    case _ =>
  }

  lemma {:induction false} StaysSettled(states: seq<State>, events: seq<Event>, i: nat, j: nat, b: nat)
    requires IsRun(states, events) && i <= j < |states| && Settled(states[i], b)
    ensures Settled(states[j], b)
  {
    hide Settled, Possible, Placed, Apply, Initial;
    if i < j {
      StaysSettled(states, events, i, j - 1, b);
      StepSettled(states[j - 1], events[j - 1], b);
    }
  }

  /** Over every run, exits included, no chunk is linked twice, into the same pool or another. */
  lemma RunLinksOnce(states: seq<State>, events: seq<Event>, i: nat, j: nat)
    requires IsRun(states, events) && i < j < |events| && events[i].LinkChunk? && events[j].LinkChunk?
    ensures CanLink(states[i], events[i].t) && CanLink(states[j], events[j].t)
    ensures states[i].threads[events[i].t].pending.body != states[j].threads[events[j].t].pending.body
  {
    RunSafe(states, events, i);
    var b := states[i].threads[events[i].t].pending.body;
    LinkSettles(states[i], events[i].t);
    assert states[i + 1] == DoLink(states[i], events[i].t);
    hide Inv, DoLink, AccountsOk;
    StaysSettled(states, events, i + 1, j, b);
  }

  // ---------------------------------------------------------------------------
  // Objects that outlive their thread

  lemma {:induction false} RunKeepsOrphan(states: seq<State>, events: seq<Event>, i: nat, j: nat, o: Orphan)
    requires IsRun(states, events) && i <= j < |states| && o in states[i].orphans
    ensures o in states[j].orphans
  {
    hide Possible, Placed, Apply, Initial;
    if i < j {
      RunKeepsOrphan(states, events, i, j - 1, o);
      StepKeepsOrphans(states[j - 1], events[j - 1]);
    }
  }

  /** From the exit of its thread on, in every later state of every run: the bytes of an object that
      was cut from a chunk belong to no other live object, and when any thread deletes it by any of
      its addresses, nothing at all changes. */
  lemma RunOrphanSafe(states: seq<State>, events: seq<Event>, i: nat, j: nat, o: Orphan, p: nat, t: nat)
    requires IsRun(states, events) && i <= j < |states| && o in states[i].orphans && o.carved && o.lo <= p < o.hi
    requires t < |states[j].threads|
    ensures forall it :: Covers(states[j], it, p) <==> it == Kept(o)
    ensures var th := states[j].threads[t]; th.phase == Up ==> Sized(th.al) && |th.held.blocks| == NUM_CLASSES
    ensures DoDelete(states[j], t, p) == states[j]
  {
    RunKeepsOrphan(states, events, i, j, o);
    RunSafe(states, events, j);
    var s := states[j];
    if s.threads[t].phase == Up {
      UpIsSized(s, t);
    }
    assert Covers(s, Kept(o), p);
    forall it | Covers(s, it, p)
      ensures it == Kept(o)
    {
      LiveDisjoint(s, it, Kept(o), p);
    }
    assert Names(s, Kept(o), p);
    NamedPositive(s, Kept(o), p);
    OrphanDeleteIff(s, t, o, p);
    hide Inv, AccountsOk, DoDelete, Spared, Covers;
  }

  /** And for every byte of it, masking the address still reaches the header of its chunk, which names
      its size in both words, whatever has happened since. */
  lemma RunOrphanHeader(states: seq<State>, events: seq<Event>, i: nat, j: nat, o: Orphan, p: nat)
    requires IsRun(states, events) && i <= j < |states| && o in states[i].orphans && o.carved && o.lo <= p < o.hi
    ensures Load(states[j].mem, HeaderFor(p)) == o.hi - o.lo
    ensures Load(states[j].mem, HeaderFor(p) + 8) == o.hi - o.lo
  {
    RunKeepsOrphan(states, events, i, j, o);
    RunSafe(states, events, j);
    OrphanHeader(states[j], o, p);
    hide Inv, AccountsOk, HeaderFor;
  }

  lemma OrphanHeader(s: State, o: Orphan, p: nat)
    requires Inv(s) && InOrphan(s, o, p)
    ensures Load(s.mem, HeaderFor(p)) == o.hi - o.lo && Load(s.mem, HeaderFor(p) + WORD_BYTES) == o.hi - o.lo
  {
    hide ThreadOk, OwnersApart, CarvedOk, PendingsOk, BlobsOk, StashOk, RegistryOk, MaskDown;
    assert SomeChunk(s, p);
    var c: nat :| InChunk(s, c, p);
    assert SizedAs(s, c, o) && ChunkOk(s, s.chunks[c]);
    MaskToBase(s.chunks[c].base, p);
  }

  lemma UpIsSized(s: State, t: nat)
    requires Inv(s) && t < |s.threads| && s.threads[t].phase == Up
    ensures Sized(s.threads[t].al) && |s.threads[t].held.blocks| == NUM_CLASSES
  {
    hide OwnersApart, ChunksOk, CarvedOk, PendingsOk, OrphansOk, BlobsOk, StashOk, RegistryOk, RangesOk, Contains;
    assert ThreadOk(s.threads[t], s.mem);
    assert forall k :: 0 <= k < NUM_CLASSES ==> ClassOk(s.threads[t].al.pools[k], k);
  }
}
