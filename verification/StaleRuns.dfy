/** Runs that end badly: memory that exit gave back, or that a recorded pointer once named, is
    issued again and then deleted by its old address. */
module StaleRuns {
  import opened FreeList
  import opened SizeClasses
  import opened Pools
  import opened Arenas
  import opened StatsModel
  import opened Allocators
  import opened Routing
  import opened Machine
  import opened Steps
  import opened Accounts
  import opened Deletion
  import opened Runs

  const MIB: nat := 0x10_0000
  const ARENA_AT: nat := 0x100_0000

  /** Where malloc puts the slab of class `k` in these runs. */
  function SlabAt(k: nat): nat {
    MIB + k * MIB
  }

  function Slabs(n: nat): seq<Pool>
    requires n <= NUM_CLASSES
  {
    seq(n, k requires 0 <= k < n => NewPool(SlabAt(k), BLOCKS_PER_SLAB, ClassSize(k)))
  }

  function Nones(n: nat): seq<set<nat>> {
    seq(n, k => {})
  }

  /** A thread whose first `n` pools stand at these addresses. */
  function HalfBuilt(n: nat): Thread
    requires n <= NUM_CLASSES
  {
    NO_THREAD.(phase := Building, al := NO_ALLOCATOR.(pools := Slabs(n)), held := Holdings(Nones(n), []))
  }

  /** A thread whose allocator stands at these addresses, with nothing handed out. */
  function FullyBuilt(): Thread {
    HalfBuilt(NUM_CLASSES).(phase := Up,
                            al := Allocator(Slabs(NUM_CLASSES), NewArena(ARENA_AT, ARENA_CAPACITY), NO_STATS),
                            peaks := [0, 0, 0, 0, 0, 0, 0])
  }

  ghost predicate Small(blobs: map<nat, Blob>) {
    forall b :: b in blobs ==> b + blobs[b].len <= MIB
  }

  /** Thread `t` is the only owner of anything but small addresses. */
  ghost predicate OnlyThread(s: State, t: nat) {
    && t < |s.threads| && s.chunks == []
    && Small(s.blobs)
    && forall u :: 0 <= u < |s.threads| && u != t ==> s.threads[u].al == NO_ALLOCATOR
  }

  lemma NotOwnedUnused(s: State, t: nat, a: nat)
    requires OnlyThread(s, t) && a >= MIB && !Owns(s.threads[t].al, a)
    ensures Unused(s, a)
  {
  }

  lemma HalfBuiltOwns(n: nat, a: nat)
    requires n <= NUM_CLASSES && Owns(HalfBuilt(n).al, a)
    ensures a < SlabAt(n)
  {
    var pools := Slabs(n);
    var k :| 0 <= k < n && Contains(pools[k], a);
    NewContains(SlabAt(k), BLOCKS_PER_SLAB, ClassSize(k));
    SpanIsProduct(BLOCKS_PER_SLAB, ClassSize(k));
  }

  // ---------------------------------------------------------------------------
  // Runs, one event at a time

  /** Which addresses malloc keeps out of slabs, arenas, chunks and over-aligned regions. */
  datatype Hypothesis = OffNothing | OffRegistered | OffRecorded

  function Avoided(s: State, h: Hypothesis): set<nat> {
    match h
    case OffNothing => {}
    case OffRegistered => s.registered
    case OffRecorded => s.recorded
  }

  ghost predicate PlacedUnder(h: Hypothesis, s: State, e: Event) {
    Placed(s.(recorded := Avoided(s, h)), e)
  }

  /** A run in which malloc keeps to the hypothesis. */
  ghost predicate IsRunUnder(h: Hypothesis, states: seq<State>, events: seq<Event>) {
    && IsLooseRun(states, events)
    && forall i :: 0 <= i < |events| ==> PlacedUnder(h, states[i], events[i])
  }

  /** Under the hypothesis on all recorded addresses these are the runs of the theorems. */
  lemma UnderRecorded(states: seq<State>, events: seq<Event>)
    requires IsRunUnder(OffRecorded, states, events)
    ensures IsRun(states, events)
  {
    forall i | 0 <= i < |events|
      ensures Placed(states[i], events[i])
    {
      assert PlacedUnder(OffRecorded, states[i], events[i]);
      assert states[i].(recorded := states[i].recorded) == states[i];
    }
    hide Possible, Placed, Apply, Initial;
  }

  ghost function Last(states: seq<State>): State
    requires states != []
  {
    states[|states| - 1]
  }

  lemma Extend(h: Hypothesis, states: seq<State>, events: seq<Event>, e: Event)
    returns (states': seq<State>, events': seq<Event>)
    requires states != [] && IsRunUnder(h, states, events)
    requires Possible(Last(states), e) && PlacedUnder(h, Last(states), e)
    ensures states' == states + [Apply(Last(states), e)] && events' == events + [e]
    ensures IsRunUnder(h, states', events') && Last(states') == Apply(Last(states), e)
  {
    states', events' := states + [Apply(Last(states), e)], events + [e];
    forall i | 0 <= i < |events'|
      ensures Possible(states'[i], events'[i]) && states'[i + 1] == Apply(states'[i], events'[i])
      ensures PlacedUnder(h, states'[i], events'[i])
    {
      assert i < |events| ==> states'[i] == states[i] && states'[i + 1] == states[i + 1] && events'[i] == events[i];
    }
    hide Possible, PlacedUnder, Apply, Initial;
  }

  ghost predicate Low(rs: set<nat>) {
    forall r :: r in rs ==> r < MIB
  }

  lemma SlabIsFree(s: State, t: nat, n: nat)
    requires n < NUM_CLASSES && OnlyThread(s, t) && s.threads[t] == HalfBuilt(n)
    ensures CanBuildPool(s, t, SlabAt(n))
    ensures DoBuildPool(s, t, SlabAt(n)).threads[t] == HalfBuilt(n + 1)
  {
    var size := ClassSize(n);
    SpanIsProduct(BLOCKS_PER_SLAB, size);
    assert SlabAt(n) % size == 0 by {
      MultipleMod(MIB, n + 1);
      assert SlabAt(n) == MIB * (n + 1);
      MultipleOfMultiple(SlabAt(n), MIB, size);
    }
    forall a | SlabAt(n) <= a < SlabAt(n) + Span(BLOCKS_PER_SLAB, size)
      ensures Unused(s, a)
    {
      if Owns(s.threads[t].al, a) {
        HalfBuiltOwns(n, a);
      }
      NotOwnedUnused(s, t, a);
    }
    hide Unused, Span, LinkBlocks;
    assert Slabs(n) + [NewPool(SlabAt(n), BLOCKS_PER_SLAB, size)] == Slabs(n + 1);
    assert Nones(n) + [{}] == Nones(n + 1);
  }

  /** Building the first `n` pools. */
  lemma {:induction false} BuildPools(h: Hypothesis, states: seq<State>, events: seq<Event>, t: nat, n: nat)
    returns (states': seq<State>, events': seq<Event>)
    requires states != [] && IsRunUnder(h, states, events) && Low(Avoided(Last(states), h))
    requires OnlyThread(Last(states), t) && Last(states).threads[t] == HalfBuilt(0) && n <= NUM_CLASSES
    ensures states' != [] && IsRunUnder(h, states', events')
    ensures var s, s' := Last(states), Last(states');
            s' == WithThread(s, t, HalfBuilt(n)).(mem := s'.mem)
  {
    hide IsRunUnder, HalfBuilt, Possible, PlacedUnder, Apply;
    if n == 0 {
      states', events' := states, events;
    } else {
      states', events' := BuildPools(h, states, events, t, n - 1);
      PoolEvent(h, Last(states'), t, n - 1);
      states', events' := Extend(h, states', events', BuildPool(t, SlabAt(n - 1)));
    }
  }

  lemma PoolEvent(h: Hypothesis, s: State, t: nat, n: nat)
    requires n < NUM_CLASSES && OnlyThread(s, t) && s.threads[t] == HalfBuilt(n) && Low(Avoided(s, h))
    ensures Possible(s, BuildPool(t, SlabAt(n))) && PlacedUnder(h, s, BuildPool(t, SlabAt(n)))
    ensures var s' := Apply(s, BuildPool(t, SlabAt(n))); s' == WithThread(s, t, HalfBuilt(n + 1)).(mem := s'.mem)
  {
    SlabIsFree(s, t, n);
    hide LinkBlocks, Span, FreshRegion, NewPool;
  }

  /** Building the whole allocator of a thread that has none. */
  lemma Build(h: Hypothesis, states: seq<State>, events: seq<Event>, t: nat)
    returns (states': seq<State>, events': seq<Event>)
    requires states != [] && IsRunUnder(h, states, events) && Low(Avoided(Last(states), h))
    requires OnlyThread(Last(states), t) && Last(states).threads[t] == NO_THREAD
    ensures states' != [] && IsRunUnder(h, states', events')
    ensures var s, s' := Last(states), Last(states');
            s' == WithThread(s, t, FullyBuilt()).(mem := s'.mem)
  {
    hide IsRunUnder, HalfBuilt, FullyBuilt, Possible, PlacedUnder, Apply;
    BeginEvent(h, Last(states), t);
    states', events' := Extend(h, states, events, Begin(t));
    states', events' := BuildPools(h, states', events', t, NUM_CLASSES);
    ArenaEvent(h, Last(states'), t);
    states', events' := Extend(h, states', events', BuildArena(t, ARENA_AT));
  }

  lemma BeginEvent(h: Hypothesis, s: State, t: nat)
    requires t < |s.threads| && s.threads[t] == NO_THREAD
    ensures Possible(s, Begin(t)) && PlacedUnder(h, s, Begin(t)) && Apply(s, Begin(t)) == WithThread(s, t, HalfBuilt(0))
  {
    assert Slabs(0) == [] && Nones(0) == [];
  }

  lemma ArenaEvent(h: Hypothesis, s: State, t: nat)
    requires OnlyThread(s, t) && s.threads[t] == HalfBuilt(NUM_CLASSES) && Low(Avoided(s, h))
    ensures Possible(s, BuildArena(t, ARENA_AT)) && PlacedUnder(h, s, BuildArena(t, ARENA_AT))
    ensures Apply(s, BuildArena(t, ARENA_AT)) == WithThread(s, t, FullyBuilt())
  {
    forall a | ARENA_AT <= a < ARENA_AT + ARENA_CAPACITY
      ensures Unused(s, a)
    {
      if Owns(s.threads[t].al, a) {
        HalfBuiltOwns(NUM_CLASSES, a);
      }
      NotOwnedUnused(s, t, a);
    }
    hide Unused, Owns;
  }

  // ---------------------------------------------------------------------------
  // The memory of an exited thread, issued again

  function ExitedThread(): Thread {
    Thread(Gone, NO_ALLOCATOR, Holdings([], []), NoChunk, [], [])
  }

  /** The address of the first block of the first slab. */
  const SPOT: nat := MIB

  const FIRST: Orphan := Orphan(MIB, MIB + 16, false)

  lemma PopEvent(h: Hypothesis, s: State, t: nat)
    requires t < |s.threads| && s.threads[t] == FullyBuilt()
    ensures Possible(s, PopBlock(t, 16)) && PlacedUnder(h, s, PopBlock(t, 16))
    ensures var s' := Apply(s, PopBlock(t, 16));
            && s' == WithThread(s, t, s'.threads[t])
            && s'.threads[t].phase == Up && s'.threads[t].pending == NoChunk && s'.threads[t].stash == []
            && s'.threads[t].held == Take(FullyBuilt().held, 0, SPOT)
            && |s'.threads[t].al.pools| == NUM_CLASSES && |s'.threads[t].peaks| == NUM_CLASSES
            && forall k :: 0 <= k < NUM_CLASSES ==>
                 && s'.threads[t].al.pools[k].size == ClassSize(k)
                 && s'.threads[t].al.pools[k].regions == Slabs(NUM_CLASSES)[k].regions
  {
    SixteenIsFirst();
    hide RecordAlloc;
  }

  lemma SixteenIsFirst()
    ensures ClassIndex(16) == 0 && ClassSize(0) == 16
  {
  }

  lemma ExitEvent(h: Hypothesis, s: State, t: nat)
    requires t < |s.threads| && s.threads[t].phase == Up && s.threads[t].pending == NoChunk && s.threads[t].stash == []
    requires s.threads[t].held == Take(FullyBuilt().held, 0, SPOT)
    requires |s.threads[t].al.pools| == NUM_CLASSES && |s.threads[t].peaks| == NUM_CLASSES
    requires forall k :: 0 <= k < NUM_CLASSES ==>
               && s.threads[t].al.pools[k].size == ClassSize(k)
               && s.threads[t].al.pools[k].regions == Slabs(NUM_CLASSES)[k].regions
    ensures Possible(s, Exit(t)) && PlacedUnder(h, s, Exit(t))
    ensures var s' := Apply(s, Exit(t));
            && s' == WithThread(s, t, ExitedThread()).(orphans := s'.orphans)
            && FIRST in s'.orphans
  {
    var th := s.threads[t];
    SpanIsProduct(BLOCKS_PER_SLAB, 16);
    assert th.held.blocks[0] == {SPOT};
    assert !InRegion(th.al.pools[0].regions[0], ClassSize(0), SPOT) == false;
  }

  /** The runs below begin with `n` threads that have no allocator yet. */
  function Start(n: nat): State {
    State(map[], [], seq(n, t => NO_THREAD), {}, map[], {}, {}, false, false)
  }

  /** No thread has an allocator yet, and malloc has given out small addresses at most. */
  ghost predicate Early(s: State) {
    && |s.threads| >= 2 && s.chunks == []
    && Small(s.blobs)
    && forall t :: 0 <= t < |s.threads| ==> s.threads[t] == NO_THREAD
  }

  /** Thread 0 allocates a block, hands it over and exits; malloc issues the same memory to the
      allocator of thread 1. */
  lemma HandedOver(h: Hypothesis, states: seq<State>, events: seq<Event>)
    returns (states': seq<State>, events': seq<Event>)
    requires states != [] && IsRunUnder(h, states, events) && Low(Avoided(Last(states), h)) && Early(Last(states))
    ensures states' != [] && IsRunUnder(h, states', events')
    ensures var s, s' := Last(states), Last(states');
            && s' == s.(mem := s'.mem, threads := s.threads[0 := ExitedThread()][1 := FullyBuilt()],
                        orphans := s'.orphans, ready := true)
            && FIRST in s'.orphans
  {
    hide IsRunUnder, FullyBuilt, HalfBuilt, Possible, PlacedUnder, Apply;
    states', events' := Build(h, states, events, 0);
    PopEvent(h, Last(states'), 0);
    states', events' := Extend(h, states', events', PopBlock(0, 16));
    ExitEvent(h, Last(states'), 0);
    states', events' := Extend(h, states', events', Exit(0));
    ReadyEvent(h, Last(states'));
    states', events' := Extend(h, states', events', MakeReady);
    states', events' := Build(h, states', events', 1);
  }

  lemma ReadyEvent(h: Hypothesis, s: State)
    ensures Possible(s, MakeReady) && PlacedUnder(h, s, MakeReady) && Apply(s, MakeReady) == s.(ready := true)
  {
  }

  lemma FullyBuiltFacts(s: State, t: nat)
    requires t < |s.threads| && s.threads[t] == FullyBuilt()
    ensures Idle(s, t) && s.threads[t].al.pools[0].head == SPOT && s.threads[t].held.blocks[0] == {}
  {
  }

  /** A run of two threads under every assumption made here: thread 0 allocates 16 bytes, hands them
      over and exits; its slab is issued to thread 1; thread 1 deletes the object by the address it
      was handed.  The block is pushed onto a list it is already on, and the next two requests of 16
      bytes are both given it. */
  lemma DoublePush() returns (states: seq<State>, events: seq<Event>)
    ensures states != [] && IsRun(states, events)
    ensures var s := Last(states);
            && FIRST in s.orphans && FIRST.lo == SPOT && s.ready && Idle(s, 1)
            && Inv(s) && !Inv(DoDelete(s, 1, SPOT))
            && var s1 := DoDelete(s, 1, SPOT);
               && CanPop(s1, 1, 16) && PopFrom(s1.threads[1].al, s1.mem, 0, 16).1 == SPOT
               && CanPop(DoPop(s1, 1, 16), 1, 16)
               && PopFrom(DoPop(s1, 1, 16).threads[1].al, s1.mem, 0, 16).1 == SPOT
  {
    hide FullyBuilt, ExitedThread, Possible, PlacedUnder, Apply, Inv, AccountsOk, DoDelete, DoPop, PopFrom;
    FirstState(OffRecorded, 2);
    states, events := HandedOver(OffRecorded, [Start(2)], []);
    UnderRecorded(states, events);
    RunSafe(states, events, |states| - 1);
    FullyBuiltFacts(Last(states), 1);
    SixteenIsFirst();
    HeadDeleted(Last(states), 1, 0, 16);
  }

  lemma FirstState(h: Hypothesis, n: nat)
    requires n >= 2
    ensures IsRunUnder(h, [Start(n)], []) && Last([Start(n)]) == Start(n)
    ensures Early(Start(n)) && Avoided(Start(n), h) == {}
  {
  }

  // ---------------------------------------------------------------------------
  // A recorded pointer, issued again

  /** A fallback allocation of 16 bytes where malloc has none outstanding. */
  lemma MallocEvent(h: Hypothesis, s: State, t: nat, base: nat, kept: set<nat>)
    requires t < |s.threads| && s.chunks == [] && kept <= s.recorded + {base} && 0 < base <= MIB
    requires forall u :: 0 <= u < |s.threads| ==> s.threads[u].al == NO_ALLOCATOR
    requires forall b, a: nat :: InBlob(s, b, a) ==> !(base <= a < base + 16)
    ensures var e := MallocNew(t, base, 16, kept);
            && Possible(s, e) && PlacedUnder(h, s, e)
            && Apply(s, e)
               == s.(blobs := s.blobs[base := Plain(16)], registered := kept, recorded := s.recorded + {base})
  {
    forall a: nat | base <= a < base + 16
      ensures Unused(s, a)
    {
    }
    hide Unused;
  }

  lemma PublishEvent(h: Hypothesis, s: State, kept: set<nat>)
    requires kept <= s.recorded
    ensures Possible(s, Publish(kept)) && PlacedUnder(h, s, Publish(kept))
    ensures Apply(s, Publish(kept)) == s.(registered := kept)
  {
  }

  /** A fallback object is deleted before the heap is ready. */
  lemma EarlyDelete(h: Hypothesis, s: State)
    requires |s.threads| > 0 && s.threads[0] == NO_THREAD && !s.ready && SPOT in s.registered
    requires SPOT in s.blobs && s.blobs[SPOT] == Plain(16)
    ensures Possible(s, Delete(0, SPOT)) && PlacedUnder(h, s, Delete(0, SPOT))
    ensures Apply(s, Delete(0, SPOT)) == s.(blobs := s.blobs - {SPOT})
  {
    assert Names(s, Malloced(SPOT), SPOT);
  }

  /** The address is registered although the block is another thread's. */
  lemma LateDelete(h: Hypothesis, s: State)
    requires |s.threads| >= 2 && s.threads[0] == ExitedThread() && s.ready && SPOT in s.registered && SPOT !in s.blobs
    requires Covers(s, Block(1, 0, SPOT), SPOT)
    ensures Possible(s, Delete(0, SPOT)) && PlacedUnder(h, s, Delete(0, SPOT)) && Apply(s, Delete(0, SPOT)).corrupt
  {
    assert Names(s, Block(1, 0, SPOT), SPOT);
    hide Names;
  }

  lemma SpotIsHeld(s: State)
    requires |s.threads| >= 2 && s.threads[1].held == Take(FullyBuilt().held, 0, SPOT)
    ensures Covers(s, Block(1, 0, SPOT), SPOT)
  {
    SixteenIsFirst();
  }

  /** A run in which malloc issues an address again that is still registered: a fallback object is
      deleted before the heap is ready, its memory becomes a slab, and when a thread that has exited
      deletes another thread's live block at that address, the block is given to free. */
  lemma StaleRegistration() returns (states: seq<State>, events: seq<Event>)
    ensures states != [] && IsLooseRun(states, events) && Last(states).corrupt
    ensures events != [] && events[|events| - 1] == Delete(0, SPOT)
    ensures |states| >= 2 && var s := states[|states| - 2];
              Covers(s, Block(1, 0, SPOT), SPOT) && SPOT in s.registered && !s.corrupt
  {
    hide FullyBuilt, ExitedThread, Possible, PlacedUnder, Apply, IsLooseRun, Covers;
    FirstState(OffNothing, 2);
    MallocEvent(OffNothing, Start(2), 0, SPOT, {SPOT});
    states, events := Extend(OffNothing, [Start(2)], [], MallocNew(0, SPOT, 16, {SPOT}));
    EarlyDelete(OffNothing, Last(states));
    states, events := Extend(OffNothing, states, events, Delete(0, SPOT));
    states, events := HandedOver(OffNothing, states, events);
    PopEvent(OffNothing, Last(states), 1);
    states, events := Extend(OffNothing, states, events, PopBlock(1, 16));
    SpotIsHeld(Last(states));
    LateDelete(OffNothing, Last(states));
    states, events := Extend(OffNothing, states, events, Delete(0, SPOT));
  }

  // ---------------------------------------------------------------------------
  // A pointer that the registry lost and got back

  const OTHER: nat := 16
  const THIRD: nat := 64

  /** Three threads push onto the registry, load and store apart, as in
      `FallbackRegistries.BroughtBack`: SPOT is registered, freed, and lost by the store of thread 1,
      while thread 2 has loaded the head and not stored. */
  lemma SpotLost() returns (states: seq<State>, events: seq<Event>)
    ensures states != [] && IsRunUnder(OffRegistered, states, events) && Early(Last(states))
    ensures var s := Last(states);
            && |s.threads| == 3 && !s.ready && !s.corrupt && SPOT !in s.blobs
            && s.registered == {OTHER} && s.recorded == {SPOT, OTHER, THIRD}
  {
    var h := OffRegistered;
    hide IsRunUnder, Possible, PlacedUnder, Apply;
    FirstState(h, 3);
    MallocEvent(h, Start(3), 0, SPOT, {});
    states, events := Extend(h, [Start(3)], [], MallocNew(0, SPOT, 16, {}));
    MallocEvent(h, Last(states), 1, OTHER, {});
    states, events := Extend(h, states, events, MallocNew(1, OTHER, 16, {}));
    PublishEvent(h, Last(states), {SPOT});
    states, events := Extend(h, states, events, Publish({SPOT}));
    MallocEvent(h, Last(states), 2, THIRD, {SPOT});
    states, events := Extend(h, states, events, MallocNew(2, THIRD, 16, {SPOT}));
    EarlyDelete(h, Last(states));
    states, events := Extend(h, states, events, Delete(0, SPOT));
    PublishEvent(h, Last(states), {OTHER});
    states, events := Extend(h, states, events, Publish({OTHER}));
  }

  /** A run in which malloc never issues an address again while it is registered, and which ends with a
      live pool block given to free all the same: SPOT is lost from the registry, its memory becomes a
      slab, thread 1 is handed the block there, and then the late store of thread 2 brings SPOT back.
      So the hypothesis has to speak of every address ever recorded. */
  lemma LostThenBack() returns (states: seq<State>, events: seq<Event>)
    ensures states != [] && IsRunUnder(OffRegistered, states, events) && Last(states).corrupt
    ensures |events| >= 2 && events[|events| - 2..] == [Publish({SPOT, THIRD}), Delete(0, SPOT)]
    ensures |states| >= 3 && var s := states[|states| - 3];
              Covers(s, Block(1, 0, SPOT), SPOT) && s.registered == {OTHER} && !s.corrupt
  {
    var h := OffRegistered;
    hide FullyBuilt, ExitedThread, Possible, PlacedUnder, Apply, IsRunUnder, Covers;
    states, events := SpotLost();
    states, events := HandedOver(h, states, events);
    PopEvent(h, Last(states), 1);
    states, events := Extend(h, states, events, PopBlock(1, 16));
    SpotIsHeld(Last(states));
    PublishEvent(h, Last(states), {SPOT, THIRD});
    states, events := Extend(h, states, events, Publish({SPOT, THIRD}));
    SpotIsHeld(Last(states));
    LateDelete(h, Last(states));
    states, events := Extend(h, states, events, Delete(0, SPOT));
  }
}
