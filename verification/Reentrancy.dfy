/** Who may call whom: guard flags, the heap mutex and teardown, with every thread's calls as a
    stack and any interleaving of calls and returns. */
module Reentrancy {

  /** A call in progress.  `prev` is the guard flag as the call found it; `locked` says that the call
      has its mutex: Acquire the heap's, Register and Retire that of the statistics registry.  `done`
      counts the vectors that a registration has pushed onto: the statistics, then their owners. */
  datatype Frame =
    | New(prev: bool)
    | AlignedNew(prev: bool)
    | Del(prev: bool)
    | Instance(prev: bool)
    | Alloc(prev: bool)
    | AllocAligned(prev: bool)
    | Acquire(prev: bool, locked: bool)
    | Register(locked: bool, done: nat)
    | Dtor(prev: bool)
    | Retire(locked: bool)
    | DtorStart
    | PlainFree

  /** The frames that put a guard on the stack. */
  predicate Guarded(f: Frame) {
    !f.DtorStart? && !f.PlainFree? && !f.Register? && !f.Retire?
  }

  predicate UsesStats(f: Frame) {
    f.Register? || f.Retire?
  }

  /** The call stands before its mutex. */
  predicate Waiting(f: Frame) {
    (f.Acquire? || UsesStats(f)) && !f.locked
  }

  datatype Life = Unbuilt | Constructing | Built | Destroyed

  /** `registered` and `retired`: the constructor has entered its statistics, the destructor has
      struck them. */
  datatype Thread = Thread(active: bool, gone: bool, dying: bool, life: Life, registered: bool, retired: bool,
                           stack: seq<Frame>)

  datatype Holder = Unlocked | HeldBy(t: nat)

  /** A vector of the statistics registry: whose entries it holds, and how many fit its buffer. */
  datatype Vec = Vec(items: seq<nat>, cap: nat)

  const EMPTY_VEC := Vec([], 0)

  /** A push that finds it so takes a larger buffer and deletes the old one. */
  predicate Full(v: Vec) {
    |v.items| == v.cap > 0
  }

  /** Without the first entry of thread `t`. */
  function Struck(q: seq<nat>, t: nat): (r: seq<nat>)
    ensures |r| <= |q|
    ensures multiset(r) == multiset(q) - multiset{t}
  {
    if q == [] then []
    else
      assert q == [q[0]] + q[1..];
      if q[0] == t then q[1..] else [q[0]] + Struck(q[1..], t)
  }

  /** The heap mutex, and the statistics registry: its mutex, the statistics listed and their owners. */
  datatype Control = Control(ready: bool, heap: Holder, stats: Holder, live: Vec, owners: Vec, threads: seq<Thread>)

  const AT_START := Thread(false, false, false, Unbuilt, false, false, [])

  /** The test at the top of operator new. */
  predicate MustFallBack(c: Control, t: nat)
    requires t < |c.threads|
  {
    !c.ready || c.threads[t].active || c.threads[t].gone
  }

  datatype Callee = CallNew | CallAlignedNew | CallDelete | CallInstance | CallAlloc | CallAllocAligned
                  | CallAcquire | CallRegister | CallRetire | CallFree | CallDtor

  datatype Step =
    | Call(t: nat, f: Callee)
    | MarkGone(t: nat)
    | Lock(t: nat)
    | PushBack(t: nat, cap: nat)
    | Return(t: nat)
    | SetReady

  ghost predicate Top(th: Thread, p: Frame -> bool) {
    th.stack != [] && p(th.stack[|th.stack| - 1])
  }

  /** The vector that a registration pushes onto next. */
  function Target(live: Vec, owners: Vec, done: nat): Vec {
    if done == 0 then live else owners
  }

  /** The registration is about to delete the old buffer of a vector. */
  predicate Grows(live: Vec, owners: Vec, g: Frame) {
    g.Register? && g.done < 2 && Full(Target(live, owners, g.done))
  }

  /** Where the source makes each call.  User code calls with an empty stack, and not on a thread whose
      allocator is gone; operator new and delete are also called by the allocator's own containers,
      from any frame that is not waiting for a mutex, but the first instants of the destructor; a
      registration deletes only the old buffer of a vector that grows.  A
      call of new that must fall back is served by malloc and pushes nothing, nor does a delete that
      ends at the registry. */
  ghost predicate MayCall(c: Control, t: nat, f: Callee) {
    && t < |c.threads|
    && var th := c.threads[t];
    && var user := th.stack == [];
    && !Top(th, (g: Frame) => g.DtorStart? || Waiting(g))
    && match f
       case CallNew => !MustFallBack(c, t)
       case CallAlignedNew => !MustFallBack(c, t)
       case CallDelete =>
         c.ready && !th.gone && (Top(th, (g: Frame) => g.Register?) ==> Growing(c, th))
       case CallInstance =>
         (user && !th.gone) || Top(th, (g: Frame) => g.New? || g.AlignedNew? || g.Del?)
       case CallAlloc => th.life == Built && (user || Top(th, (g: Frame) => g.New?))
       case CallAllocAligned => th.life == Built && (user || Top(th, (g: Frame) => g.AlignedNew?))
       case CallAcquire => Top(th, (g: Frame) => g.Alloc?)
       case CallRegister => th.life == Constructing && !th.registered && Top(th, (g: Frame) => g.Instance?)
       case CallRetire => !th.retired && Top(th, (g: Frame) => g.Dtor?)
       case CallFree => th.life == Built && (user || Top(th, (g: Frame) => g.Del?))
       case CallDtor => user && th.life == Built
  }

  ghost predicate Growing(c: Control, th: Thread) {
    Top(th, (g: Frame) => Grows(c.live, c.owners, g))
  }

  /** The holder of the mutex that the frame uses. */
  function MutexOf(c: Control, g: Frame): Holder {
    if UsesStats(g) then c.stats else c.heap
  }

  /** The frame may end: it is not in the first instants of the destructor and has had its mutex; the
      call that constructs has registered, the registration has pushed onto both vectors, the destructor
      has retired. */
  ghost predicate MayReturn(th: Thread) {
    && th.stack != []
    && var n := |th.stack| - 1;
       var g := th.stack[n];
       && !g.DtorStart? && !Waiting(g)
       && (g.Instance? && th.life == Constructing && !Constructs(th.stack, n) ==> th.registered)
       && (g.Register? ==> g.done == 2)
       && (g.Dtor? ==> th.retired)
  }

  /** The next push_back of a registration, after which the buffer has room for `cap` entries. */
  ghost predicate MayPush(c: Control, t: nat, cap: nat) {
    && t < |c.threads| && Top(c.threads[t], (g: Frame) => g.Register? && g.locked && g.done < 2)
    && var v := Target(c.live, c.owners, c.threads[t].stack[|c.threads[t].stack| - 1].done);
       if |v.items| < v.cap then cap == v.cap else cap > |v.items|
  }

  ghost predicate May(c: Control, e: Step) {
    match e
    case Call(t, f) => MayCall(c, t, f)
    case MarkGone(t) => t < |c.threads| && Top(c.threads[t], (g: Frame) => g.DtorStart?)
    case Lock(t) => t < |c.threads| && Top(c.threads[t], (g: Frame) => Waiting(g) && MutexOf(c, g) == Unlocked)
    case PushBack(t, cap) => MayPush(c, t, cap)
    case Return(t) => t < |c.threads| && MayReturn(c.threads[t])
    case SetReady => true
  }

  function NewFrame(th: Thread, f: Callee): Frame {
    match f
    case CallNew => New(th.active)
    case CallAlignedNew => AlignedNew(th.active)
    case CallDelete => Del(th.active)
    case CallInstance => Instance(th.active)
    case CallAlloc => Alloc(th.active)
    case CallAllocAligned => AllocAligned(th.active)
    case CallAcquire => Acquire(th.active, false)
    case CallRegister => Register(false, 0)
    case CallRetire => Retire(false)
    case CallFree => PlainFree
    case CallDtor => DtorStart
  }

  function Pushed(th: Thread, f: Callee): Thread {
    var g := NewFrame(th, f);
    th.(stack := th.stack + [g], active := th.active || Guarded(g),
        dying := th.dying || f.CallDtor?,
        life := if f.CallInstance? && th.life == Unbuilt then Constructing else th.life)
  }

  function Popped(th: Thread): Thread
    requires th.stack != []
  {
    var n := |th.stack| - 1;
    var g := th.stack[n];
    th.(stack := th.stack[..n],
        active := if Guarded(g) then g.prev else th.active,
        registered := th.registered || g.Register?,
        retired := th.retired || g.Retire?,
        life := if g.Dtor? then Destroyed
                else if g.Instance? && th.life == Constructing && !Constructs(th.stack, n) then Built
                else th.life)
  }

  /** A call of instance() lies below position `n`: a later one is a re-entry. */
  predicate Constructs(stack: seq<Frame>, n: nat)
    requires n <= |stack|
  {
    exists i :: 0 <= i < n && stack[i].Instance?
  }

  ghost function Do(c: Control, e: Step): Control
    requires May(c, e)
  {
    match e
    case Call(t, f) => c.(threads := c.threads[t := Pushed(c.threads[t], f)])
    case MarkGone(t) =>
      var th := c.threads[t];
      c.(threads := c.threads[t := th.(gone := true, active := true,
                                       stack := th.stack[|th.stack| - 1 := Dtor(th.active)])])
    case Lock(t) =>
      var th := c.threads[t];
      var g := th.stack[|th.stack| - 1];
      c.(heap := if g.Acquire? then HeldBy(t) else c.heap,
         stats := if g.Acquire? then c.stats else HeldBy(t),
         threads := c.threads[t := th.(stack := th.stack[|th.stack| - 1 := g.(locked := true)])])
    case PushBack(t, cap) =>
      var th := c.threads[t];
      var g := th.stack[|th.stack| - 1];
      var v := Target(c.live, c.owners, g.done);
      var v' := Vec(v.items + [t], cap);
      c.(live := if g.done == 0 then v' else c.live,
         owners := if g.done == 0 then c.owners else v',
         threads := c.threads[t := th.(stack := th.stack[|th.stack| - 1 := g.(done := g.done + 1)])])
    case Return(t) =>
      var th := c.threads[t];
      var g := th.stack[|th.stack| - 1];
      c.(heap := if g.Acquire? then Unlocked else c.heap,
         stats := if UsesStats(g) then Unlocked else c.stats,
         live := if g.Retire? then c.live.(items := Struck(c.live.items, t)) else c.live,
         owners := if g.Retire? then c.owners.(items := Struck(c.owners.items, t)) else c.owners,
         threads := c.threads[t := Popped(th)])
    case SetReady => c.(ready := true)
  }

  // ---------------------------------------------------------------------------
  // The invariant

  ghost predicate AnyGuarded(stack: seq<Frame>, n: nat)
    requires n <= |stack|
  {
    exists i :: 0 <= i < n && Guarded(stack[i])
  }

  /** A frame from which the allocator's containers may call operator new or delete. */
  predicate Hosts(g: Frame) {
    !g.Dtor? && !g.DtorStart? && !g.Retire? && !Waiting(g)
  }

  /** What lies directly below each frame, and that new never runs under a guard. */
  ghost predicate FrameOk(stack: seq<Frame>, i: nat)
    requires i < |stack|
  {
    && (Guarded(stack[i]) ==> (stack[i].prev <==> AnyGuarded(stack, i)))
    && match stack[i]
       case New(_) => !AnyGuarded(stack, i) && (i == 0 || Hosts(stack[i - 1]))
       case AlignedNew(_) => !AnyGuarded(stack, i) && (i == 0 || Hosts(stack[i - 1]))
       case Del(_) => i == 0 || Hosts(stack[i - 1])
       case Instance(_) => i == 0 || stack[i - 1].New? || stack[i - 1].AlignedNew? || stack[i - 1].Del?
       case Alloc(_) => i == 0 || stack[i - 1].New?
       case AllocAligned(_) => i == 0 || stack[i - 1].AlignedNew?
       case Acquire(_, _) => i > 0 && stack[i - 1].Alloc?
       case Register(_, done) => i > 0 && stack[i - 1].Instance? && done <= 2
       case Dtor(_) => i == 0
       case Retire(_) => i == 1 && stack[0].Dtor?
       case DtorStart => i == 0
       case PlainFree => i == 0 || stack[i - 1].Del?
  }

  /** Calls that are past the test whether the heap is ready. */
  predicate PastReady(f: Frame) {
    f.New? || f.AlignedNew? || f.Del?
  }

  /** Calls that only a built allocator serves. */
  predicate InUse(f: Frame) {
    f.Alloc? || f.AllocAligned? || f.Acquire?
  }

  ghost predicate ThreadOk(th: Thread) {
    && (th.active <==> AnyGuarded(th.stack, |th.stack|))
    && (forall i :: 0 <= i < |th.stack| ==> FrameOk(th.stack, i))
    && (th.gone <==> th.life == Destroyed || (th.stack != [] && th.stack[0].Dtor?))
    && (th.dying <==> th.gone || (th.stack != [] && th.stack[0].DtorStart?))
    && (th.life == Destroyed ==> th.stack == [])
    && (th.stack != [] && (th.stack[0].Dtor? || th.stack[0].DtorStart?) ==> th.life == Built)
    && (forall i, j :: 0 <= i < j < |th.stack| && UsesStats(th.stack[i]) && th.stack[i].locked
                       && UsesStats(th.stack[j]) ==>
          !th.stack[j].locked)
    && ((exists i :: 0 <= i < |th.stack| && th.stack[i].Register?) ==> th.life == Constructing)
    && ((exists i :: 0 <= i < |th.stack| && InUse(th.stack[i])) ==> th.life == Built)
  }

  ghost predicate Holds(th: Thread) {
    exists i :: 0 <= i < |th.stack| && th.stack[i].Acquire? && th.stack[i].locked
  }

  ghost predicate HoldsStats(th: Thread) {
    exists i :: 0 <= i < |th.stack| && UsesStats(th.stack[i]) && th.stack[i].locked
  }

  ghost predicate ReadyOk(ready: bool, th: Thread) {
    forall i :: 0 <= i < |th.stack| && PastReady(th.stack[i]) ==> ready
  }

  /** Whatever a registration has called was called by a vector that grows. */
  ghost predicate GrowthOk(live: Vec, owners: Vec, th: Thread) {
    forall i :: 0 <= i < |th.stack| - 1 && th.stack[i].Register? && th.stack[i].locked ==>
      Grows(live, owners, th.stack[i])
  }

  ghost predicate Ok(c: Control) {
    && |c.live.items| <= c.live.cap && |c.owners.items| <= c.owners.cap
    && (forall t :: 0 <= t < |c.threads| ==> GrowthOk(c.live, c.owners, c.threads[t]))
    && (forall t :: 0 <= t < |c.threads| ==> ThreadOk(c.threads[t]) && ReadyOk(c.ready, c.threads[t]))
    && (forall t :: 0 <= t < |c.threads| ==> (Holds(c.threads[t]) <==> c.heap == HeldBy(t)))
    && (forall t :: 0 <= t < |c.threads| ==> (HoldsStats(c.threads[t]) <==> c.stats == HeldBy(t)))
    && (c.heap.HeldBy? ==> c.heap.t < |c.threads|)
    && (c.stats.HeldBy? ==> c.stats.t < |c.threads|)
  }

  /** Above a frame that waits for a mutex, or one of the destructor's, there is nothing more than the
      retirement. */
  lemma NothingAbove(stack: seq<Frame>, i: nat)
    requires i + 1 < |stack| && FrameOk(stack, i + 1)
    ensures !Waiting(stack[i]) && !stack[i].DtorStart? && !stack[i].Retire?
    ensures stack[i].Dtor? ==> stack[i + 1].Retire?
  {
  }

  lemma TearingDown(th: Thread)
    requires ThreadOk(th) && th.stack != [] && (th.stack[0].Dtor? || th.stack[0].DtorStart?)
    ensures |th.stack| == 1 || (|th.stack| == 2 && th.stack[0].Dtor? && th.stack[1].Retire?)
  {
    if |th.stack| > 1 {
      NothingAbove(th.stack, 0);
      assert FrameOk(th.stack, 1);
      if |th.stack| > 2 {
        assert FrameOk(th.stack, 2);
        NothingAbove(th.stack, 1);
      }
    }
  }

  /** At most one acquisition is in progress on a thread: acquire_chunk is never re-entered. */
  lemma OneAcquire(th: Thread, i: nat, j: nat)
    requires ThreadOk(th) && i < j < |th.stack| && th.stack[i].Acquire?
    ensures !th.stack[j].Acquire?
  {
    assert Guarded(th.stack[i]);
    assert FrameOk(th.stack, j) && FrameOk(th.stack, j - 1);
    assert j > 1 ==> FrameOk(th.stack, j - 2);
  }

  lemma PrefixGuarded(stack: seq<Frame>, stack': seq<Frame>, n: nat)
    requires n <= |stack| && n <= |stack'| && stack[..n] == stack'[..n]
    ensures AnyGuarded(stack, n) == AnyGuarded(stack', n)
  {
    assert forall i :: 0 <= i < n ==> stack[..n][i] == stack[i] && stack'[..n][i] == stack'[i];
  }

  /** Whether a frame is in order depends on what is at and below it. */
  lemma PrefixFrames(stack: seq<Frame>, stack': seq<Frame>, n: nat)
    requires n <= |stack| && n <= |stack'| && stack[..n] == stack'[..n]
    requires forall i :: 0 <= i < n ==> FrameOk(stack, i)
    ensures forall i :: 0 <= i < n ==> FrameOk(stack', i)
    ensures AnyGuarded(stack, n) == AnyGuarded(stack', n)
  {
    assert forall i :: 0 <= i < n ==> stack[..n][i] == stack[i] && stack'[..n][i] == stack'[i];
    forall i | 0 <= i < n
      ensures FrameOk(stack', i)
    {
      assert FrameOk(stack, i);
      assert stack[..i] == stack[..n][..i] == stack'[..n][..i] == stack'[..i];
      PrefixGuarded(stack, stack', i);
    }
    PrefixGuarded(stack, stack', n);
  }

  // ---------------------------------------------------------------------------
  // Every step keeps it

  /** The frame of a call stands where the source puts it. */
  lemma CalledFrame(c: Control, t: nat, f: Callee)
    requires Ok(c) && MayCall(c, t, f)
    ensures var th := c.threads[t]; FrameOk(th.stack + [NewFrame(th, f)], |th.stack|)
  {
    var th := c.threads[t];
    var n := |th.stack|;
    var stack' := th.stack + [NewFrame(th, f)];
    assert ThreadOk(th);
    assert stack'[..n] == th.stack[..n];
    PrefixGuarded(th.stack, stack', n);
    TornDownQuiet(c, t, f);
    if n > 0 {
      assert stack'[n - 1] == th.stack[n - 1];
      assert FrameOk(th.stack, n - 1);
    }
  }

  /** On a thread being torn down nothing can be called but the retirement. */
  lemma TornDownQuiet(c: Control, t: nat, f: Callee)
    requires Ok(c) && MayCall(c, t, f)
    ensures f == CallRetire <==> c.threads[t].gone
    ensures var th := c.threads[t]; if f == CallRetire then |th.stack| == 1 && th.stack[0].Dtor? else !th.dying
    ensures var th := c.threads[t];
            th.stack != [] && f != CallRetire ==>
              !th.stack[0].Dtor? && !th.stack[0].DtorStart? && Hosts(th.stack[|th.stack| - 1])
  {
    var th := c.threads[t];
    assert ThreadOk(th);
    if th.stack != [] {
      assert FrameOk(th.stack, |th.stack| - 1);
      if th.stack[0].Dtor? || th.stack[0].DtorStart? {
        TearingDown(th);
      }
    }
  }

  lemma CallKeeps(c: Control, t: nat, f: Callee)
    requires Ok(c) && MayCall(c, t, f)
    ensures Ok(Do(c, Call(t, f)))
  {
    hide ThreadOk, Holds, HoldsStats, ReadyOk, FrameOk;
    var th := c.threads[t];
    assert ThreadOk(th) && ReadyOk(c.ready, th);
    assert (Holds(th) <==> c.heap == HeldBy(t)) && (HoldsStats(th) <==> c.stats == HeldBy(t));
    TornDownQuiet(c, t, f);
    CalledFrame(c, t, f);
    CalledInUse(c, t, f);
    CalledThread(th, f);
    CalledHolds(th, f);
    CalledReady(c, th, f);
    CalledGrowth(c, t, f);
    hide MayCall, GrowthOk;
  }

  /** Inside a registration nothing is called but the delete of a buffer. */
  lemma CalledGrowth(c: Control, t: nat, f: Callee)
    requires Ok(c) && MayCall(c, t, f)
    ensures GrowthOk(c.live, c.owners, Pushed(c.threads[t], f))
  {
    hide Holds, HoldsStats, ReadyOk;
    var th := c.threads[t];
    var th', n := Pushed(th, f), |th.stack|;
    assert ThreadOk(th) && GrowthOk(c.live, c.owners, th);
    forall i | 0 <= i < n && th'.stack[i].Register? && th'.stack[i].locked
      ensures Grows(c.live, c.owners, th'.stack[i])
    {
      assert th'.stack[i] == th.stack[i];
      if i == n - 1 {
        assert FrameOk(th.stack, i) && Guarded(th.stack[i - 1]);
        assert th.active && f == CallDelete;
      }
    }
  }

  lemma CalledReady(c: Control, th: Thread, f: Callee)
    requires ReadyOk(c.ready, th) && (PastReady(NewFrame(th, f)) ==> c.ready)
    ensures ReadyOk(c.ready, Pushed(th, f))
  {
  }

  /** A call, put where it belongs. */
  lemma CalledThread(th: Thread, f: Callee)
    requires ThreadOk(th) && (f == CallRetire <==> th.gone)
    requires if f == CallRetire then |th.stack| == 1 && th.stack[0].Dtor? else !th.dying
    requires FrameOk(th.stack + [NewFrame(th, f)], |th.stack|)
    requires f.CallDtor? ==> th.life == Built
    requires f.CallRegister? ==> th.life == Constructing
    requires InUse(NewFrame(th, f)) ==> th.life == Built
    ensures ThreadOk(Pushed(th, f))
  {
    assert f.CallDtor? ==> |th.stack| == 0;
    hide FrameOk, AnyGuarded;
    var th', n := Pushed(th, f), |th.stack|;
    CalledStack(th.stack, NewFrame(th, f));
    assert forall i :: 0 <= i < n ==> th'.stack[i] == th.stack[i];
  }

  lemma CalledStack(stack: seq<Frame>, g: Frame)
    requires forall i :: 0 <= i < |stack| ==> FrameOk(stack, i)
    requires FrameOk(stack + [g], |stack|)
    ensures forall i :: 0 <= i <= |stack| ==> FrameOk(stack + [g], i)
    ensures AnyGuarded(stack + [g], |stack| + 1) <==> AnyGuarded(stack, |stack|) || Guarded(g)
  {
    var stack', n := stack + [g], |stack|;
    assert stack'[..n] == stack[..n];
    PrefixFrames(stack, stack', n);
    assert forall i :: 0 <= i < n ==> stack'[i] == stack[i];
    assert Guarded(g) ==> Guarded(stack'[n]);
    hide FrameOk;
  }

  /** A call does not give the caller a mutex, nor take one away. */
  lemma CalledHolds(th: Thread, f: Callee)
    ensures Holds(Pushed(th, f)) <==> Holds(th)
    ensures HoldsStats(Pushed(th, f)) <==> HoldsStats(th)
  {
    var th', n := Pushed(th, f), |th.stack|;
    assert forall i :: 0 <= i < n ==> th'.stack[i] == th.stack[i];
  }

  /** An acquisition is made by an allocation. */
  lemma CalledInUse(c: Control, t: nat, f: Callee)
    requires Ok(c) && MayCall(c, t, f)
    ensures InUse(NewFrame(c.threads[t], f)) ==> c.threads[t].life == Built
  {
    var th := c.threads[t];
    assert ThreadOk(th);
    if f == CallAcquire {
      assert InUse(th.stack[|th.stack| - 1]);
    }
  }

  lemma ReturnKeeps(c: Control, t: nat)
    requires Ok(c) && May(c, Return(t))
    ensures Ok(Do(c, Return(t)))
  {
    hide ThreadOk, Holds, HoldsStats, ReadyOk;
    var th := c.threads[t];
    assert ThreadOk(th) && ReadyOk(c.ready, th);
    assert (Holds(th) <==> c.heap == HeldBy(t)) && (HoldsStats(th) <==> c.stats == HeldBy(t));
    ReturnedThread(th);
    ReturnedHolds(th);
    ReturnedStats(th);
    ReturnedReady(c, th);
    ReturnedGrowth(c, t);
    hide MayReturn, GrowthOk;
  }

  /** Only the holder of the mutex changes the vectors. */
  lemma OnlyHolder(c: Control, t: nat, u: nat)
    requires Ok(c) && t < |c.threads| && u < |c.threads| && u != t && HoldsStats(c.threads[t])
    ensures forall live, owners :: GrowthOk(live, owners, c.threads[u])
  {
    hide ThreadOk, ReadyOk, Holds;
    assert !HoldsStats(c.threads[u]);
    assert forall i :: 0 <= i < |c.threads[u].stack| && c.threads[u].stack[i].Register? ==>
             UsesStats(c.threads[u].stack[i]);
  }

  lemma ReturnedGrowth(c: Control, t: nat)
    requires Ok(c) && May(c, Return(t))
    ensures var c' := Do(c, Return(t));
            forall u :: 0 <= u < |c.threads| ==> GrowthOk(c'.live, c'.owners, c'.threads[u])
  {
    var th := c.threads[t];
    var c', n := Do(c, Return(t)), |th.stack| - 1;
    assert ThreadOk(th) && GrowthOk(c.live, c.owners, th);
    if th.stack[n].Retire? {
      assert FrameOk(th.stack, n);
      assert HoldsStats(th) by {
        assert UsesStats(th.stack[n]) && th.stack[n].locked;
      }
    }
    hide ThreadOk, Holds, ReadyOk;
    forall u | 0 <= u < |c.threads|
      ensures GrowthOk(c'.live, c'.owners, c'.threads[u])
    {
      if u == t {
        assert c'.threads[t].stack == th.stack[..n];
        assert th.stack[n].Retire? ==> n == 1;
      } else if th.stack[n].Retire? {
        OnlyHolder(c, t, u);
      } else {
        assert GrowthOk(c.live, c.owners, c.threads[u]);
      }
    }
  }

  lemma PushBackKeeps(c: Control, t: nat, cap: nat)
    requires Ok(c) && MayPush(c, t, cap)
    ensures Ok(Do(c, PushBack(t, cap)))
  {
    hide ThreadOk, Holds, HoldsStats, ReadyOk, GrowthOk;
    var th := c.threads[t];
    var c' := Do(c, PushBack(t, cap));
    var th', n := c'.threads[t], |th.stack| - 1;
    assert ThreadOk(th) && ReadyOk(c.ready, th);
    assert (Holds(th) <==> c.heap == HeldBy(t)) && (HoldsStats(th) <==> c.stats == HeldBy(t));
    assert th'.stack == th.stack[n := th.stack[n].(done := th.stack[n].done + 1)];
    PushedThread(th, th');
    LockedReady(c, th, th');
    PushedGrowth(c, t, cap);
  }

  lemma PushedThread(th: Thread, th': Thread)
    requires ThreadOk(th) && th.stack != []
    requires var n := |th.stack| - 1;
             && th.stack[n].Register? && th.stack[n].done < 2
             && th' == th.(stack := th.stack[n := th.stack[n].(done := th.stack[n].done + 1)])
    ensures ThreadOk(th')
    ensures Holds(th') <==> Holds(th)
    ensures HoldsStats(th') <==> HoldsStats(th)
  {
    var n := |th.stack| - 1;
    assert FrameOk(th.stack, n);
    assert th'.stack[..n] == th.stack[..n];
    PrefixFrames(th.stack, th'.stack, n);
    assert forall i :: 0 <= i < n ==> th'.stack[i] == th.stack[i];
    assert FrameOk(th'.stack, n);
    hide FrameOk;
  }

  lemma PushedGrowth(c: Control, t: nat, cap: nat)
    requires Ok(c) && MayPush(c, t, cap)
    ensures var c' := Do(c, PushBack(t, cap));
            forall u :: 0 <= u < |c.threads| ==> GrowthOk(c'.live, c'.owners, c'.threads[u])
  {
    var th := c.threads[t];
    var c', n := Do(c, PushBack(t, cap)), |th.stack| - 1;
    assert ThreadOk(th);
    assert UsesStats(th.stack[n]) && th.stack[n].locked && HoldsStats(th);
    forall u | 0 <= u < |c.threads|
      ensures GrowthOk(c'.live, c'.owners, c'.threads[u])
    {
      if u == t {
        forall i | 0 <= i < n && th.stack[i].Register?
          ensures !th.stack[i].locked
        {
          assert UsesStats(th.stack[i]);
        }
      } else {
        OnlyHolder(c, t, u);
      }
    }
  }

  lemma ReturnedReady(c: Control, th: Thread)
    requires ReadyOk(c.ready, th) && th.stack != []
    ensures ReadyOk(c.ready, Popped(th))
  {
  }

  lemma ReturnedThread(th: Thread)
    requires ThreadOk(th) && MayReturn(th)
    ensures ThreadOk(Popped(th))
  {
    var th' := Popped(th);
    var n := |th.stack| - 1;
    assert FrameOk(th.stack, n);
    assert th'.stack[..n] == th.stack[..n];
    PrefixFrames(th.stack, th'.stack, n);
    if th.stack[n].Instance? && !Constructs(th.stack, n) {
      forall i | 0 <= i < n
        ensures !th.stack[i].Register?
      {
        assert FrameOk(th.stack, i);
      }
    }
  }

  /** Returning from an acquisition gives up the mutex; any other return leaves it where it was. */
  lemma ReturnedHolds(th: Thread)
    requires ThreadOk(th) && MayReturn(th)
    ensures th.stack[|th.stack| - 1].Acquire? ==> Holds(th) && !Holds(Popped(th))
    ensures !th.stack[|th.stack| - 1].Acquire? ==> (Holds(Popped(th)) <==> Holds(th))
  {
    var th' := Popped(th);
    var n := |th.stack| - 1;
    if th.stack[n].Acquire? {
      forall i | 0 <= i < n
        ensures !th'.stack[i].Acquire?
      {
        if th.stack[i].Acquire? {
          OneAcquire(th, i, n);
        }
      }
    } else {
      assert forall i :: 0 <= i < n ==> th'.stack[i] == th.stack[i];
    }
  }

  lemma ReturnedStats(th: Thread)
    requires ThreadOk(th) && MayReturn(th)
    ensures UsesStats(th.stack[|th.stack| - 1]) ==> HoldsStats(th) && !HoldsStats(Popped(th))
    ensures !UsesStats(th.stack[|th.stack| - 1]) ==> (HoldsStats(Popped(th)) <==> HoldsStats(th))
  {
    var th' := Popped(th);
    var n := |th.stack| - 1;
    assert forall i :: 0 <= i < n ==> th'.stack[i] == th.stack[i];
  }

  lemma LockKeeps(c: Control, t: nat)
    requires Ok(c) && May(c, Lock(t))
    ensures Ok(Do(c, Lock(t)))
  {
    hide ThreadOk, Holds, HoldsStats, ReadyOk;
    var th := c.threads[t];
    var th' := Do(c, Lock(t)).threads[t];
    assert ThreadOk(th) && ReadyOk(c.ready, th);
    assert (Holds(th) <==> c.heap == HeldBy(t)) && (HoldsStats(th) <==> c.stats == HeldBy(t));
    LockedThread(th, th');
    LockedHolds(th, th');
    LockedReady(c, th, th');
    hide FrameOk;
    assert GrowthOk(c.live, c.owners, th) ==> GrowthOk(c.live, c.owners, th');
  }

  lemma LockedReady(c: Control, th: Thread, th': Thread)
    requires ReadyOk(c.ready, th) && |th'.stack| == |th.stack|
    requires forall i :: 0 <= i < |th.stack| ==> PastReady(th'.stack[i]) == PastReady(th.stack[i])
    ensures ReadyOk(c.ready, th')
  {
  }

  /** The frame on top gets its mutex. */
  ghost predicate Locks(th: Thread, th': Thread) {
    && th.stack != []
    && var n := |th.stack| - 1;
       Waiting(th.stack[n]) && th' == th.(stack := th.stack[n := th.stack[n].(locked := true)])
  }

  lemma LockedThread(th: Thread, th': Thread)
    requires ThreadOk(th) && Locks(th, th')
    requires UsesStats(th.stack[|th.stack| - 1]) ==> !HoldsStats(th)
    ensures ThreadOk(th')
  {
    hide FrameOk, AnyGuarded;
    var n := |th.stack| - 1;
    LockedStack(th, th');
    assert forall i :: 0 <= i < n ==> th'.stack[i] == th.stack[i];
  }

  lemma LockedStack(th: Thread, th': Thread)
    requires ThreadOk(th) && Locks(th, th')
    ensures |th.stack| > 1 && forall i :: 0 <= i < |th'.stack| ==> FrameOk(th'.stack, i)
    ensures AnyGuarded(th'.stack, |th'.stack|) <==> AnyGuarded(th.stack, |th.stack|)
  {
    var n := |th.stack| - 1;
    assert FrameOk(th.stack, n);
    assert th'.stack[..n] == th.stack[..n];
    PrefixFrames(th.stack, th'.stack, n);
    assert forall i :: 0 <= i < n ==> th'.stack[i] == th.stack[i];
  }

  lemma LockedHolds(th: Thread, th': Thread)
    requires Locks(th, th')
    ensures if th.stack[|th.stack| - 1].Acquire? then Holds(th') && (HoldsStats(th') <==> HoldsStats(th))
            else HoldsStats(th') && (Holds(th') <==> Holds(th))
  {
    var n := |th.stack| - 1;
    assert forall i :: 0 <= i < n ==> th'.stack[i] == th.stack[i];
    assert th'.stack[n].locked && !th.stack[n].locked;
    assert th'.stack[n].Acquire? == th.stack[n].Acquire? && UsesStats(th'.stack[n]) == UsesStats(th.stack[n]);
  }

  lemma MarkGoneKeeps(c: Control, t: nat)
    requires Ok(c) && May(c, MarkGone(t))
    ensures Ok(Do(c, MarkGone(t)))
  {
    var th := c.threads[t];
    var th' := Do(c, MarkGone(t)).threads[t];
    var n := |th.stack| - 1;
    assert ThreadOk(th) && FrameOk(th.stack, n);
    TearingDown(th);
    assert Guarded(th'.stack[0]);
    assert FrameOk(th'.stack, 0);
    assert Holds(th') <==> Holds(th);
    assert HoldsStats(th') <==> HoldsStats(th);
  }

  ghost predicate Starts(c: Control) {
    && !c.ready && c.heap == Unlocked && c.stats == Unlocked && c.live == EMPTY_VEC == c.owners
    && forall t :: 0 <= t < |c.threads| ==> c.threads[t] == AT_START
  }

  ghost predicate IsControlRun(states: seq<Control>, steps: seq<Step>) {
    && |states| == |steps| + 1 && Starts(states[0])
    && forall i :: 0 <= i < |steps| ==> May(states[i], steps[i]) && states[i + 1] == Do(states[i], steps[i])
  }

  lemma StepOk(c: Control, e: Step)
    requires Ok(c) && May(c, e)
    ensures Ok(Do(c, e))
  {
    hide Ok, MayCall, MayReturn, MayPush;
    match e
    case Call(t, f) => CallKeeps(c, t, f);
    case MarkGone(t) => MarkGoneKeeps(c, t);
    case Lock(t) => LockKeeps(c, t);
    case PushBack(t, cap) => PushBackKeeps(c, t, cap);
    case Return(t) => ReturnKeeps(c, t);
    case SetReady => ReadySet(c);
  }

  lemma {:induction false} ControlRun(states: seq<Control>, steps: seq<Step>, i: nat)
    requires IsControlRun(states, steps) && i < |states|
    ensures Ok(states[i])
  {
    hide Ok, May;
    if i == 0 {
      StartsOk(states[0]);
    } else {
      ControlRun(states, steps, i - 1);
      StepOk(states[i - 1], steps[i - 1]);
    }
  }

  lemma StartsOk(c: Control)
    requires Starts(c)
    ensures Ok(c)
  {
  }

  lemma ReadySet(c: Control)
    requires Ok(c)
    ensures Ok(c.(ready := true))
  {
    hide ThreadOk, Holds, HoldsStats;
    assert forall t :: 0 <= t < |c.threads| ==> ReadyOk(true, c.threads[t]);
  }

  // ---------------------------------------------------------------------------
  // The theorems

  /** In every run: the thread that holds the heap mutex has its guard flag up, so every operator new
      on it is served by malloc, and it is not itself waiting for that mutex. */
  lemma NoSelfDeadlock(states: seq<Control>, steps: seq<Step>, i: nat, t: nat)
    requires IsControlRun(states, steps) && i < |states| && states[i].heap == HeldBy(t)
    ensures t < |states[i].threads| && MustFallBack(states[i], t)
    ensures !MayCall(states[i], t, CallAcquire) && !Top(states[i].threads[t], (g: Frame) => g.Acquire? && !g.locked)
  {
    ControlRun(states, steps, i);
    HeapHolder(states[i], t);
  }

  lemma HeapHolder(c: Control, t: nat)
    requires Ok(c) && c.heap == HeldBy(t)
    ensures t < |c.threads| && MustFallBack(c, t)
    ensures !MayCall(c, t, CallAcquire) && !Top(c.threads[t], (g: Frame) => g.Acquire? && !g.locked)
  {
    var th := c.threads[t];
    assert ThreadOk(th) && Holds(th);
    var a :| 0 <= a < |th.stack| && th.stack[a].Acquire? && th.stack[a].locked;
    assert Guarded(th.stack[a]);
    var n := |th.stack| - 1;
    if a < n {
      OneAcquire(th, a, n);
      AllocNotAbove(th, a, n);
    }
  }

  /** No allocation runs above a guard other than that of the operator new which made it. */
  lemma AllocNotAbove(th: Thread, a: nat, n: nat)
    requires ThreadOk(th) && a < n < |th.stack| && th.stack[a].Acquire?
    ensures !th.stack[n].Alloc?
  {
    assert FrameOk(th.stack, n) && FrameOk(th.stack, n - 1);
    assert Guarded(th.stack[a]);
  }

  /** In every run the flag is up exactly while a guarded call is in progress; so nested guards restore
      what they found, and back in user code the flag is down. */
  lemma GuardsNest(states: seq<Control>, steps: seq<Step>, i: nat, t: nat)
    requires IsControlRun(states, steps) && i < |states| && t < |states[i].threads|
    ensures var th := states[i].threads[t];
            && (th.active <==> exists j :: 0 <= j < |th.stack| && Guarded(th.stack[j]))
            && (th.stack == [] ==> !th.active)
    ensures May(states[i], Return(t)) ==>
              var th, th' := states[i].threads[t], Do(states[i], Return(t)).threads[t];
              th'.active <==> exists j :: 0 <= j < |th.stack| - 1 && Guarded(th.stack[j])
  {
    ControlRun(states, steps, i);
    var th := states[i].threads[t];
    assert ThreadOk(th);
    if May(states[i], Return(t)) {
      ReturnedThread(th);
      var n := |th.stack| - 1;
      assert Popped(th).stack[..n] == th.stack[..n];
      PrefixGuarded(th.stack, Popped(th).stack, n);
    }
  }

  /** In every run, once the gone flag is set no call of the thread is inside the allocator, and nothing
      but the retirement of its statistics can be called; and a deletion that is past its test of that
      flag never sees a dying allocator. */
  lemma NothingAfterTeardown(states: seq<Control>, steps: seq<Step>, i: nat, t: nat)
    requires IsControlRun(states, steps) && i < |states| && t < |states[i].threads|
    ensures states[i].threads[t].gone ==>
      && MustFallBack(states[i], t)
      && (forall f :: MayCall(states[i], t, f) ==> f == CallRetire)
      && (forall j :: 0 <= j < |states[i].threads[t].stack| ==>
            states[i].threads[t].stack[j].Dtor? || states[i].threads[t].stack[j].Retire?)
    ensures (exists j :: 0 <= j < |states[i].threads[t].stack| && states[i].threads[t].stack[j].Del?) ==>
              !states[i].threads[t].dying
  {
    ControlRun(states, steps, i);
    var th := states[i].threads[t];
    assert ThreadOk(th);
    forall f | MayCall(states[i], t, f)
      ensures f != CallRetire ==> !th.gone
    {
      TornDownQuiet(states[i], t, f);
    }
    if th.stack != [] && (th.stack[0].Dtor? || th.stack[0].DtorStart?) {
      TearingDown(th);
    }
  }

  // ---------------------------------------------------------------------------
  // Construction re-entered, and the mutex of the statistics registry

  /** Construction is re-entered: instance() is called while the call that constructs is still running. */
  ghost predicate Reentered(th: Thread) {
    th.life == Constructing && Top(th, (g: Frame) => g.Instance?) && Constructs(th.stack, |th.stack| - 1)
  }

  /** In every run: construction is re-entered only through a delete made by the constructor's own
      containers, and only once the heap is ready; operator new never does it. */
  lemma OnlyDeleteReenters(states: seq<Control>, steps: seq<Step>, i: nat, t: nat)
    requires IsControlRun(states, steps) && i < |states| && t < |states[i].threads|
    requires Reentered(states[i].threads[t])
    ensures states[i].ready
    ensures var stack := states[i].threads[t].stack;
            |stack| >= 3 && stack[|stack| - 2].Del?
  {
    ControlRun(states, steps, i);
    InnerInstance(states[i], states[i].threads[t], |states[i].threads[t].stack| - 1);
  }

  /** An instance() above another one was called by a delete. */
  lemma InnerInstance(c: Control, th: Thread, n: nat)
    requires ThreadOk(th) && ReadyOk(c.ready, th) && n < |th.stack| && th.stack[n].Instance? && Constructs(th.stack, n)
    ensures n >= 2 && th.stack[n - 1].Del? && c.ready
  {
    assert FrameOk(th.stack, n);
    var j :| 0 <= j < n && th.stack[j].Instance?;
    assert Guarded(th.stack[j]);
    assert FrameOk(th.stack, n - 1);
    assert PastReady(th.stack[n - 1]);
  }

  /** The thread stands before a mutex that it holds. */
  ghost predicate SelfWaiting(c: Control, t: nat) {
    t < |c.threads| && Top(c.threads[t], (g: Frame) => Waiting(g) && MutexOf(c, g) == HeldBy(t))
  }

  /** What the stack of a thread looks like that waits for itself: registration, called by a
      construction that a delete has re-entered from inside a registration that has the mutex. */
  ghost predicate RegistersTwice(th: Thread) {
    && var n := |th.stack| - 1;
    && n >= 4
    && th.stack[n].Register? && !th.stack[n].locked && th.stack[n - 1].Instance? && th.stack[n - 2].Del?
    && exists a :: 0 <= a < n - 2 && Registering(th.stack[a])
  }

  predicate Registering(g: Frame) {
    g.Register? && g.locked
  }

  lemma SelfWaitIff(c: Control, t: nat)
    requires Ok(c) && t < |c.threads|
    ensures SelfWaiting(c, t) <==> RegistersTwice(c.threads[t])
    ensures SelfWaiting(c, t) ==> c.ready && c.threads[t].life == Constructing && c.stats == HeldBy(t)
    ensures SelfWaiting(c, t) ==> Full(c.live) || Full(c.owners)
  {
    var th := c.threads[t];
    assert ThreadOk(th) && ReadyOk(c.ready, th) && (HoldsStats(th) <==> c.stats == HeldBy(t));
    var n := |th.stack| - 1;
    if SelfWaiting(c, t) {
      if th.stack[n].Acquire? {
        HeapHolder(c, t);
      } else {
        var a :| 0 <= a < |th.stack| && UsesStats(th.stack[a]) && th.stack[a].locked;
        WaitsAbove(c, th, a);
      }
    }
    if RegistersTwice(th) {
      var a :| 0 <= a < n - 2 && Registering(th.stack[a]);
      assert UsesStats(th.stack[a]);
      assert PastReady(th.stack[n - 2]);
      assert GrowthOk(c.live, c.owners, th);
    }
  }

  lemma WaitsAbove(c: Control, th: Thread, a: nat)
    requires ThreadOk(th) && ReadyOk(c.ready, th) && a < |th.stack| - 1
    requires UsesStats(th.stack[a]) && th.stack[a].locked
    requires UsesStats(th.stack[|th.stack| - 1]) && !th.stack[|th.stack| - 1].locked
    ensures RegistersTwice(th)
  {
    var n := |th.stack| - 1;
    assert FrameOk(th.stack, a) && FrameOk(th.stack, a + 1) && FrameOk(th.stack, n) && FrameOk(th.stack, n - 1);
    if th.stack[a].Retire? {
      TearingDown(th);
    } else {
      assert th.stack[a - 1].Instance? && n - 1 > a;
      InnerInstance(c, th, n - 1);
    }
  }

  /** In every run a thread waits for a mutex it holds if and only if its registration has re-entered
      itself through a delete, and then the heap is ready and a vector of the registry is full.  An
      acquisition never does, nor does the retirement of a thread that exits. */
  lemma RunSelfWaitIff(states: seq<Control>, steps: seq<Step>, i: nat, t: nat)
    requires IsControlRun(states, steps) && i < |states| && t < |states[i].threads|
    ensures SelfWaiting(states[i], t) <==> RegistersTwice(states[i].threads[t])
    ensures SelfWaiting(states[i], t) ==> states[i].ready && (Full(states[i].live) || Full(states[i].owners))
    ensures Top(states[i].threads[t], (g: Frame) => g.Acquire? || g.Retire?) ==> !SelfWaiting(states[i], t)
  {
    ControlRun(states, steps, i);
    SelfWaitIff(states[i], t);
  }

  /** A thread that waits for itself waits for ever: no step of any thread changes that. */
  lemma SelfWaitStays(c: Control, e: Step, t: nat)
    requires Ok(c) && May(c, e) && SelfWaiting(c, t)
    ensures SelfWaiting(Do(c, e), t)
  {
    SelfWaitIff(c, t);
    OthersKeepMutex(c, e, t);
    hide Ok, RegistersTwice, ReadyOk, MayCall, MayReturn;
  }

  /** While a thread waits for itself it takes no step, and no other thread can give up its mutex. */
  lemma OthersKeepMutex(c: Control, e: Step, t: nat)
    requires Ok(c) && May(c, e) && SelfWaiting(c, t) && c.stats == HeldBy(t)
    requires Top(c.threads[t], (g: Frame) => g.Register?)
    ensures e != SetReady ==> e.t != t
    ensures Do(c, e).stats == HeldBy(t) && |Do(c, e).threads| == |c.threads| && Do(c, e).threads[t] == c.threads[t]
  {
    if e != SetReady && e.t != t {
      assert HoldsStats(c.threads[e.t]) <==> c.stats == HeldBy(e.t);
      if e.Return? {
        assert ThreadOk(c.threads[e.t]);
        ReturnedStats(c.threads[e.t]);
      }
    }
    hide ThreadOk, HoldsStats, Holds, ReadyOk;
  }

  lemma {:induction false} SelfWaitForEver(states: seq<Control>, steps: seq<Step>, i: nat, j: nat, t: nat)
    requires IsControlRun(states, steps) && i <= j < |states| && SelfWaiting(states[i], t)
    ensures SelfWaiting(states[j], t)
  {
    hide SelfWaiting, May, Starts;
    if i < j {
      SelfWaitForEver(states, steps, i, j - 1, t);
      ControlRun(states, steps, j - 1);
      SelfWaitStays(states[j - 1], steps[j - 1], t);
    }
  }

  /** A constructor inside its registration, with the mutex: it can make a call, a delete, if and only if
      the heap is ready and the vector it pushes onto next is full and not empty, and then three calls of
      its own bring it to wait for itself. */
  lemma RegistrationDeadlocksIff(c: Control, t: nat)
    requires Ok(c) && t < |c.threads| && Top(c.threads[t], Registering) && !c.threads[t].registered
    ensures forall f :: MayCall(c, t, f) <==> f == CallDelete && c.ready && Growing(c, c.threads[t])
    ensures c.ready && Growing(c, c.threads[t]) ==>
      && MayCall(c, t, CallDelete)
      && var c1 := Do(c, Call(t, CallDelete));
      && MayCall(c1, t, CallInstance)
      && var c2 := Do(c1, Call(t, CallInstance));
      && Reentered(c2.threads[t]) && MayCall(c2, t, CallRegister)
      && SelfWaiting(Do(c2, Call(t, CallRegister)), t)
  {
    RegistrationCalls(c, t);
    if c.ready && Growing(c, c.threads[t]) {
      ThreeCalls(c, t);
    }
  }

  lemma RegistrationCalls(c: Control, t: nat)
    requires Ok(c) && t < |c.threads| && Top(c.threads[t], Registering)
    ensures forall f :: MayCall(c, t, f) <==> f == CallDelete && c.ready && Growing(c, c.threads[t])
    ensures c.threads[t].life == Constructing && c.stats == HeldBy(t)
    ensures var stack := c.threads[t].stack; |stack| >= 2 && stack[|stack| - 2].Instance?
  {
    hide ReadyOk, Holds;
    var th := c.threads[t];
    var n := |th.stack| - 1;
    assert ThreadOk(th) && FrameOk(th.stack, n);
    assert Guarded(th.stack[n - 1]);
    assert UsesStats(th.stack[n]) && HoldsStats(th);
  }

  lemma ThreeCalls(c: Control, t: nat)
    requires t < |c.threads| && Top(c.threads[t], Registering) && !c.threads[t].registered
    requires MayCall(c, t, CallDelete) && c.threads[t].life == Constructing && c.stats == HeldBy(t)
    requires var stack := c.threads[t].stack; |stack| >= 2 && stack[|stack| - 2].Instance?
    ensures var c1 := Do(c, Call(t, CallDelete));
            && MayCall(c1, t, CallInstance)
            && var c2 := Do(c1, Call(t, CallInstance));
            && Reentered(c2.threads[t]) && MayCall(c2, t, CallRegister)
            && SelfWaiting(Do(c2, Call(t, CallRegister)), t)
  {
    var stack := c.threads[t].stack;
    var c2 := Do(Do(c, Call(t, CallDelete)), Call(t, CallInstance));
    assert c2.threads[t].stack[|stack| - 2] == stack[|stack| - 2];
  }

  // ---------------------------------------------------------------------------
  // Who can move

  /** In every run, whoever holds the heap mutex can take a step. */
  lemma HolderMoves(states: seq<Control>, steps: seq<Step>, i: nat, t: nat)
    requires IsControlRun(states, steps) && i < |states| && states[i].heap == HeldBy(t)
    ensures May(states[i], Return(t))
  {
    ControlRun(states, steps, i);
    HeapHolder(states[i], t);
    var th := states[i].threads[t];
    assert ThreadOk(th) && Holds(th);
    BuiltReturns(th);
  }

  /** On a thread whose allocator is in use, the last call may end unless it waits for the heap mutex. */
  lemma BuiltReturns(th: Thread)
    requires ThreadOk(th) && Holds(th) && !Top(th, (g: Frame) => g.Acquire? && !g.locked)
    ensures MayReturn(th)
  {
    var a :| 0 <= a < |th.stack| && th.stack[a].Acquire? && th.stack[a].locked;
    var n := |th.stack| - 1;
    assert InUse(th.stack[a]) && FrameOk(th.stack, n) && FrameOk(th.stack, a) && FrameOk(th.stack, 0);
  }

  /** In every run, whoever holds the mutex of the statistics registry can go on, by a push_back or a
      return, if and only if it does not wait for itself. */
  lemma StatsHolderMovesIff(states: seq<Control>, steps: seq<Step>, i: nat, t: nat)
    requires IsControlRun(states, steps) && i < |states| && states[i].stats == HeldBy(t)
    ensures May(states[i], Return(t)) || (exists cap :: MayPush(states[i], t, cap)) <==> !SelfWaiting(states[i], t)
  {
    ControlRun(states, steps, i);
    var c := states[i];
    var th := c.threads[t];
    assert ThreadOk(th) && HoldsStats(th);
    StatsReturns(th);
    var g := th.stack[|th.stack| - 1];
    if Registering(g) && g.done < 2 {
      var v := Target(c.live, c.owners, g.done);
      assert MayPush(c, t, if |v.items| < v.cap then v.cap else |v.items| + 1);
    }
    hide ThreadOk, MayReturn, HoldsStats, Holds, ReadyOk, GrowthOk;
  }

  lemma StatsReturns(th: Thread)
    requires ThreadOk(th) && HoldsStats(th)
    ensures th.stack != []
    ensures var g := th.stack[|th.stack| - 1]; MayReturn(th) <==> !Waiting(g) && (g.Register? ==> g.done == 2)
    ensures var g := th.stack[|th.stack| - 1]; g.Register? ==> g.done <= 2
    ensures th.stack[|th.stack| - 1].Acquire? ==> th.stack[|th.stack| - 1].locked
  {
    var a :| 0 <= a < |th.stack| && UsesStats(th.stack[a]) && th.stack[a].locked;
    var n := |th.stack| - 1;
    assert FrameOk(th.stack, a) && FrameOk(th.stack, n) && FrameOk(th.stack, 0);
    if th.stack[0].Dtor? || th.stack[0].DtorStart? {
      TearingDown(th);
    } else {
      assert th.stack[a].Register? && th.stack[a - 1].Instance?;
      assert InUse(th.stack[n]) ==> th.life == Built;
    }
  }

  /** What a thread can call, by the call it is in: user code anything that its allocator's life allows;
      operator new, aligned new and delete what they are made of; the constructor its registration; an
      allocation the central heap; and any of them a delete of the allocator's own buffers. */
  ghost predicate Calls(c: Control, th: Thread, f: Callee) {
    if th.stack == [] then
      match f
      case CallAcquire => false
      case CallRegister => false
      case CallRetire => false
      case CallAlloc => th.life == Built
      case CallAllocAligned => th.life == Built
      case CallFree => th.life == Built
      case CallDtor => th.life == Built
      case _ => true
    else
      match th.stack[|th.stack| - 1]
      case New(_) => f in {CallDelete, CallInstance} || (f == CallAlloc && th.life == Built)
      case AlignedNew(_) => f in {CallDelete, CallInstance} || (f == CallAllocAligned && th.life == Built)
      case Del(_) => f in {CallDelete, CallInstance} || (f == CallFree && th.life == Built)
      case Instance(_) => f == CallDelete || (f == CallRegister && th.life == Constructing && !th.registered)
      case Alloc(_) => f in {CallDelete, CallAcquire}
      case AllocAligned(_) => f == CallDelete
      case Acquire(_, locked) => f == CallDelete && locked
      case Register(locked, _) => f == CallDelete && locked && Growing(c, th)
      case PlainFree => f == CallDelete || (f in {CallNew, CallAlignedNew} && !th.active)
      case _ => false
  }

  /** Once the heap is on, that is exactly what a thread can call until its allocator is torn down. */
  lemma CallsIff(c: Control, t: nat, f: Callee)
    requires Ok(c) && t < |c.threads| && c.ready && !c.threads[t].dying
    ensures MayCall(c, t, f) <==> Calls(c, c.threads[t], f)
  {
    hide Holds, HoldsStats, ReadyOk;
    var th := c.threads[t];
    assert ThreadOk(th);
    if th.stack != [] {
      var n := |th.stack| - 1;
      assert FrameOk(th.stack, n);
      assert Guarded(th.stack[n]) ==> th.active;
      if th.stack[n].Register? {
        assert Guarded(th.stack[n - 1]);
      }
    }
  }

  /** A thread in user code that has an allocator can always be torn down: the destructor, the gone flag,
      and the retirement. */
  lemma ExitBegins(c: Control, t: nat)
    requires Ok(c) && t < |c.threads| && c.threads[t].stack == [] && c.threads[t].life == Built && !c.threads[t].retired
    ensures May(c, Call(t, CallDtor)) && May(Do(c, Call(t, CallDtor)), MarkGone(t))
    ensures var c2 := Do(Do(c, Call(t, CallDtor)), MarkGone(t));
            && c2.threads[t].gone && c2.threads[t].dying
            && May(c2, Call(t, CallRetire))
            && Do(c2, Call(t, CallRetire)) == c.(threads := c.threads[t := Retiring(c.threads[t])])
  {
    var th := c.threads[t];
    assert ThreadOk(th);
    var c1 := Do(c, Call(t, CallDtor));
    assert c1.threads[t].stack == [DtorStart];
    var c2 := Do(c1, MarkGone(t));
    assert c2.threads[t].stack == [Dtor(false)];
    var c3 := Do(c2, Call(t, CallRetire));
    assert c3.threads[t] == Retiring(th);
  }

  /** The thread stands before the retirement of its statistics. */
  function Retiring(th: Thread): Thread {
    th.(active := true, gone := true, dying := true, stack := [Dtor(false), Retire(false)])
  }

  /** Once the mutex of the statistics registry is free the retirement goes through, and the allocator is gone:
      its entry is struck from both vectors, the mutex is free and the guard is down. */
  lemma ExitGoes(c: Control, t: nat, th: Thread)
    requires t < |c.threads| && c.threads[t] == Retiring(th) && c.stats == Unlocked
    ensures May(c, Lock(t)) && May(Do(c, Lock(t)), Return(t)) && May(Do(Do(c, Lock(t)), Return(t)), Return(t))
    ensures var c' := Do(Do(Do(c, Lock(t)), Return(t)), Return(t));
            && c'.threads[t] == Retiring(th).(active := false, retired := true, life := Destroyed, stack := [])
            && c'.stats == Unlocked && c'.heap == c.heap
            && c'.live == c.live.(items := Struck(c.live.items, t))
            && c'.owners == c.owners.(items := Struck(c.owners.items, t))
  {
    hide Struck;
    var c4 := Do(c, Lock(t));
    assert c4.threads[t].stack == [Dtor(false), Retire(true)];
    var c5 := Do(c4, Return(t));
    assert c5.threads[t].stack == [Dtor(false)];
  }

  // ---------------------------------------------------------------------------
  // A run into the deadlock

  ghost function LastOf(states: seq<Control>): Control
    requires states != []
  {
    states[|states| - 1]
  }

  lemma Continue(states: seq<Control>, steps: seq<Step>, e: Step) returns (states': seq<Control>, steps': seq<Step>)
    requires IsControlRun(states, steps) && states != [] && May(LastOf(states), e)
    ensures IsControlRun(states', steps') && states' != [] && LastOf(states') == Do(LastOf(states), e)
    ensures steps' == steps + [e]
  {
    states', steps' := states + [Do(LastOf(states), e)], steps + [e];
    forall i | 0 <= i < |steps'|
      ensures May(states'[i], steps'[i]) && states'[i + 1] == Do(states'[i], steps'[i])
    {
      assert i < |steps| ==> states'[i] == states[i] && states'[i + 1] == states[i + 1] && steps'[i] == steps[i];
    }
    hide May, Do, Starts;
  }

  /** Two threads, the heap mutex free. */
  function Pair(first: Thread, second: Thread, ready: bool, stats: Holder, live: Vec, owners: Vec): Control {
    Control(ready, Unlocked, stats, live, owners, [first, second])
  }

  /** The registry with the main thread in it: both vectors are full. */
  const ONE := Vec([0], 1)

  lemma PairCall(a: Thread, b: Thread, f: Callee)
    ensures var c := Pair(a, b, false, Unlocked, EMPTY_VEC, EMPTY_VEC);
            MayCall(c, 0, f) ==> Do(c, Call(0, f)) == c.(threads := [Pushed(a, f), b])
  {
    hide MayCall, Pushed;
    assert forall x :: [a, b][0 := x] == [x, b];
  }

  /** A thread that constructs its allocator, with this stack. */
  function Making(stack: seq<Frame>): Thread {
    Thread(true, false, false, Constructing, false, false, stack)
  }

  const BUILT := Thread(false, false, false, Built, true, false, [])

  /** Locking the registration and pushing onto both vectors, on the first thread. */
  lemma MainPushes(b: Thread)
    ensures var c := Pair(Making([Instance(false), Register(false, 0)]), b, false, Unlocked, EMPTY_VEC, EMPTY_VEC);
            && May(c, Lock(0)) && May(Do(c, Lock(0)), PushBack(0, 1))
            && May(Do(Do(c, Lock(0)), PushBack(0, 1)), PushBack(0, 1))
            && Do(Do(Do(c, Lock(0)), PushBack(0, 1)), PushBack(0, 1))
               == Pair(Making([Instance(false), Register(true, 2)]), b, false, HeldBy(0), ONE, ONE)
  {
    var c := Pair(Making([Instance(false), Register(false, 0)]), b, false, Unlocked, EMPTY_VEC, EMPTY_VEC);
    var c1 := Do(c, Lock(0));
    assert c1.threads[0].stack == [Instance(false), Register(true, 0)];
    assert c1.threads == [Making([Instance(false), Register(true, 0)]), b];
    var c2 := Do(c1, PushBack(0, 1));
    assert c2.threads[0].stack == [Instance(false), Register(true, 1)];
    assert c2.threads == [Making([Instance(false), Register(true, 1)]), b];
    var c3 := Do(c2, PushBack(0, 1));
    assert c3.threads[0].stack == [Instance(false), Register(true, 2)];
    assert c3.threads == [Making([Instance(false), Register(true, 2)]), b];
  }

  /** Leaving the registration and the constructing call. */
  lemma MainLeaves(b: Thread)
    ensures var c := Pair(Making([Instance(false), Register(true, 2)]), b, false, HeldBy(0), ONE, ONE);
            && May(c, Return(0)) && May(Do(c, Return(0)), Return(0))
            && Do(Do(c, Return(0)), Return(0)) == Pair(BUILT, b, false, Unlocked, ONE, ONE)
  {
    var c := Pair(Making([Instance(false), Register(true, 2)]), b, false, HeldBy(0), ONE, ONE);
    var c1 := Do(c, Return(0));
    assert c1.threads[0].stack == [Instance(false)];
    assert c1.threads == [Making([Instance(false)]).(registered := true), b];
    var c2 := Do(c1, Return(0));
    assert c2.threads[0].stack == [];
    assert c2.threads == [BUILT, b];
  }

  /** The main thread builds its allocator and switches the heap on, as init_allocator does. */
  lemma MainStarts() returns (states: seq<Control>, steps: seq<Step>)
    ensures states != [] && IsControlRun(states, steps)
    ensures LastOf(states) == Pair(BUILT, AT_START, true, Unlocked, ONE, ONE)
  {
    Beginning();
    hide IsControlRun;
    states, steps := [Pair(AT_START, AT_START, false, Unlocked, EMPTY_VEC, EMPTY_VEC)], [];
    PairCall(AT_START, AT_START, CallInstance);
    states, steps := Continue(states, steps, Call(0, CallInstance));
    var one := Making([Instance(false)]);
    assert Pushed(AT_START, CallInstance).stack == [Instance(false)];
    PairCall(one, AT_START, CallRegister);
    states, steps := Continue(states, steps, Call(0, CallRegister));
    assert Pushed(one, CallRegister).stack == [Instance(false), Register(false, 0)];
    MainPushes(AT_START);
    MainLeaves(AT_START);
    hide Do, May, Pushed;
    states, steps := Continue(states, steps, Lock(0));
    states, steps := Continue(states, steps, PushBack(0, 1));
    states, steps := Continue(states, steps, PushBack(0, 1));
    states, steps := Continue(states, steps, Return(0));
    states, steps := Continue(states, steps, Return(0));
    SwitchOn(LastOf(states));
    states, steps := Continue(states, steps, SetReady);
  }

  lemma SwitchOn(c: Control)
    ensures May(c, SetReady) && Do(c, SetReady) == c.(ready := true)
  {
  }

  lemma Beginning()
    ensures IsControlRun([Pair(AT_START, AT_START, false, Unlocked, EMPTY_VEC, EMPTY_VEC)], [])
  {
  }

  /** The first operator new of the second thread builds its allocator and registers. */
  lemma SecondCalls(a: Thread)
    ensures var c := Pair(a, AT_START, true, Unlocked, ONE, ONE);
            && May(c, Call(1, CallNew)) && May(Do(c, Call(1, CallNew)), Call(1, CallInstance))
            && Do(Do(c, Call(1, CallNew)), Call(1, CallInstance))
               == Pair(a, Making([New(false), Instance(true)]), true, Unlocked, ONE, ONE)
  {
    var c := Pair(a, AT_START, true, Unlocked, ONE, ONE);
    var c1 := Do(c, Call(1, CallNew));
    assert c1.threads[1].stack == [New(false)];
    assert c1.threads == [a, AT_START.(active := true, stack := [New(false)])];
    var c2 := Do(c1, Call(1, CallInstance));
    assert c2.threads[1].stack == [New(false), Instance(true)];
    assert c2.threads == [a, Making([New(false), Instance(true)])];
  }

  lemma SecondRegisters(a: Thread)
    ensures var c := Pair(a, Making([New(false), Instance(true)]), true, Unlocked, ONE, ONE);
            && May(c, Call(1, CallRegister)) && May(Do(c, Call(1, CallRegister)), Lock(1))
            && Do(Do(c, Call(1, CallRegister)), Lock(1))
               == Pair(a, Making([New(false), Instance(true), Register(true, 0)]), true, HeldBy(1), ONE, ONE)
  {
    var c := Pair(a, Making([New(false), Instance(true)]), true, Unlocked, ONE, ONE);
    var c3 := Do(c, Call(1, CallRegister));
    assert c3.threads[1].stack == [New(false), Instance(true), Register(false, 0)];
    assert c3.threads == [a, Making([New(false), Instance(true), Register(false, 0)])];
    var c4 := Do(c3, Lock(1));
    assert c4.threads[1].stack == [New(false), Instance(true), Register(true, 0)];
    assert c4.threads == [a, Making([New(false), Instance(true), Register(true, 0)])];
  }

  /** A run from the start into the deadlock: the main thread registers and switches the heap on; the first
      operator new of a second thread builds its allocator; the registry's vector, full with one entry,
      grows inside register_stats and frees its old buffer; that delete calls instance() again, whose
      registration waits for the mutex that the thread holds, and does so for ever after. */
  lemma ReachesDeadlock() returns (states: seq<Control>, steps: seq<Step>)
    ensures states != [] && IsControlRun(states, steps) && SelfWaiting(LastOf(states), 1)
    ensures |steps| >= 3 && steps[|steps| - 3..] == [Call(1, CallDelete), Call(1, CallInstance), Call(1, CallRegister)]
  {
    states, steps := MainStarts();
    SecondCalls(BUILT);
    SecondRegisters(BUILT);
    hide IsControlRun, Do, May, SelfWaiting, MayCall;
    states, steps := Continue(states, steps, Call(1, CallNew));
    states, steps := Continue(states, steps, Call(1, CallInstance));
    states, steps := Continue(states, steps, Call(1, CallRegister));
    states, steps := Continue(states, steps, Lock(1));
    var c := LastOf(states);
    EndOk(states, steps);
    RegistrationDeadlocksIff(c, 1);
    CallIsStep(c, 1, CallDelete);
    states, steps := Continue(states, steps, Call(1, CallDelete));
    CallIsStep(LastOf(states), 1, CallInstance);
    states, steps := Continue(states, steps, Call(1, CallInstance));
    CallIsStep(LastOf(states), 1, CallRegister);
    states, steps := Continue(states, steps, Call(1, CallRegister));
  }

  lemma EndOk(states: seq<Control>, steps: seq<Step>)
    requires IsControlRun(states, steps) && states != []
    ensures Ok(LastOf(states))
  {
    ControlRun(states, steps, |states| - 1);
  }

  lemma CallIsStep(c: Control, t: nat, f: Callee)
    ensures May(c, Call(t, f)) <==> MayCall(c, t, f)
  {
  }
}
