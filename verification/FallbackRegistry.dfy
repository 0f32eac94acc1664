/** The registry of fallback pointers: an insert-only linked list whose push is a separate load
    and store. */
module FallbackRegistries {

  /** A record; nodes are numbered from 1 in the order their `next` was loaded, 0 is null.
      Records are never freed and never change once `next` is set. */
  datatype Rec = Rec(ptr: nat, next: nat)

  /** Every record points at one numbered before it. */
  ghost predicate Ordered(recs: seq<Rec>) {
    forall i :: 0 <= i < |recs| ==> recs[i].next <= i
  }

  /** The nodes met from `h`. */
  ghost function Chain(recs: seq<Rec>, h: nat): set<nat>
    requires Ordered(recs) && h <= |recs|
    decreases h
  {
    if h == 0 then {} else {h} + Chain(recs, recs[h - 1].next)
  }

  /** The pointers registered as seen from `h`. */
  ghost function Pointers(recs: seq<Rec>, h: nat): set<nat>
    requires Ordered(recs) && h <= |recs|
    decreases h
  {
    if h == 0 then {} else {recs[h - 1].ptr} + Pointers(recs, recs[h - 1].next)
  }

  lemma {:induction false} ChainBound(recs: seq<Rec>, h: nat, n: nat)
    requires Ordered(recs) && h <= |recs| && n in Chain(recs, h)
    ensures 1 <= n <= h
    decreases h
  {
    if n != h {
      ChainBound(recs, recs[h - 1].next, n);
    }
  }

  lemma {:induction false} MoreRecords(recs: seq<Rec>, more: seq<Rec>, h: nat)
    requires Ordered(recs) && Ordered(recs + more) && h <= |recs|
    ensures Chain(recs + more, h) == Chain(recs, h) && Pointers(recs + more, h) == Pointers(recs, h)
    decreases h
  {
    if h > 0 {
      MoreRecords(recs, more, recs[h - 1].next);
    }
  }

  /** A record of the chain with a registered pointer. */
  lemma {:induction false} RecordOf(recs: seq<Rec>, h: nat, p: nat) returns (n: nat)
    requires Ordered(recs) && h <= |recs| && p in Pointers(recs, h)
    ensures n in Chain(recs, h) && 1 <= n <= |recs| && recs[n - 1].ptr == p
    decreases h
  {
    if p == recs[h - 1].ptr {
      n := h;
    } else {
      n := RecordOf(recs, recs[h - 1].next, p);
    }
  }

  // ---------------------------------------------------------------------------
  // One thread at a time

  class FallbackRegistry {
    var recs: seq<Rec>
    var first: nat

    ghost predicate Valid()
      reads this
    {
      Ordered(recs) && first <= |recs|
    }

    ghost function Registered(): set<nat>
      reads this
      requires Valid()
    {
      Pointers(recs, first)
    }

    constructor ()
      ensures Valid() && Registered() == {}
    {
      recs, first := [], 0;
    }

    /** Registers a pointer; when malloc has no `room` for a record nothing is registered. */
    method Record(p: nat, room: bool)
      requires Valid()
      modifies this
      ensures Valid()
      ensures Registered() == if room then old(Registered()) + {p} else old(Registered())
    {
      if !room {
        return;
      }
      ghost var before := recs;
      recs := recs + [Rec(p, first)];
      MoreRecords(before, [Rec(p, first)], first);
      first := |recs|;
    }

    /** Follows the chain; it ends because every record points at an earlier one. */
    method IsRegistered(p: nat) returns (r: bool)
      requires Valid()
      ensures r <==> p in Registered()
    {
      var n: nat := first;
      while n != 0
        invariant n <= |recs|
        invariant p in Registered() <==> p in Pointers(recs, n)
        decreases n
      {
        if recs[n - 1].ptr == p {
          return true;
        }
        n := recs[n - 1].next;
      }
      r := false;
    }
  }

  // ---------------------------------------------------------------------------
  // Any number of threads, load and store apart

  /** `held[t]` is the record thread `t` has loaded the head for and not stored.  `stores` counts the
      stores so far; `loadedAt` is that count when a record's `next` was loaded, and `storedAt` the
      number of the store that published it (0 while it is unpublished). */
  datatype Shared = Shared(recs: seq<Rec>, first: nat, held: map<nat, nat>, stores: nat,
                           loadedAt: seq<nat>, storedAt: seq<nat>)

  datatype PushStep = LoadHead(t: nat, p: nat) | StoreHead(t: nat)

  ghost predicate CanPush(s: Shared, e: PushStep) {
    match e
    case LoadHead(t, p) => t !in s.held
    case StoreHead(t) => t in s.held && 1 <= s.held[t] <= |s.storedAt|
  }

  ghost function Push(s: Shared, e: PushStep): Shared
    requires CanPush(s, e)
  {
    match e
    case LoadHead(t, p) =>
      s.(recs := s.recs + [Rec(p, s.first)], held := s.held[t := |s.recs| + 1],
         loadedAt := s.loadedAt + [s.stores], storedAt := s.storedAt + [0])
    case StoreHead(t) =>
      s.(first := s.held[t], held := s.held - {t}, stores := s.stores + 1,
         storedAt := s.storedAt[s.held[t] - 1 := s.stores + 1])
  }

  const NO_RECORDS := Shared([], 0, map[], 0, [], [])

  /** `n` is what the head was after `c` stores. */
  ghost predicate HeadAfter(s: Shared, n: nat, c: nat) {
    if c == 0 then n == 0 else 1 <= n <= |s.storedAt| && s.storedAt[n - 1] == c
  }

  ghost predicate RecordOk(s: Shared, i: nat)
    requires i < |s.recs| == |s.loadedAt| == |s.storedAt|
  {
    && s.loadedAt[i] <= s.stores && HeadAfter(s, s.recs[i].next, s.loadedAt[i])
    && (s.storedAt[i] > 0 ==> s.loadedAt[i] < s.storedAt[i] <= s.stores)
  }

  ghost predicate OncePublished(s: Shared, i: nat, j: nat)
    requires i < |s.storedAt| && j < |s.storedAt|
  {
    s.storedAt[i] == s.storedAt[j] > 0 ==> i == j
  }

  ghost predicate HeldOk(s: Shared, t: nat) {
    t in s.held ==> 1 <= s.held[t] <= |s.storedAt| && s.storedAt[s.held[t] - 1] == 0
  }

  ghost predicate SharedOk(s: Shared) {
    && Ordered(s.recs) && |s.recs| == |s.loadedAt| == |s.storedAt|
    && s.first <= |s.recs| && HeadAfter(s, s.first, s.stores)
    && (forall i :: 0 <= i < |s.recs| ==> RecordOk(s, i))
    && (forall i, j :: 0 <= i < |s.recs| && 0 <= j < |s.recs| ==> OncePublished(s, i, j))
    && (forall t :: HeldOk(s, t))
    && (forall t, u :: t in s.held && u in s.held && s.held[t] == s.held[u] ==> t == u)
  }

  lemma LoadKeeps(s: Shared, t: nat, p: nat)
    requires SharedOk(s) && t !in s.held
    ensures SharedOk(Push(s, LoadHead(t, p)))
  {
    var s' := Push(s, LoadHead(t, p));
    forall i | 0 <= i < |s'.recs|
      ensures RecordOk(s', i)
    {
      if i < |s.recs| {
        assert RecordOk(s, i);
      }
    }
    forall i, j | 0 <= i < |s'.recs| && 0 <= j < |s'.recs|
      ensures OncePublished(s', i, j)
    {
      if i < |s.recs| && j < |s.recs| {
        assert OncePublished(s, i, j);
      }
    }
    forall u
      ensures HeldOk(s', u)
    {
      assert HeldOk(s, u);
    }
    forall u, v | u in s'.held && v in s'.held && s'.held[u] == s'.held[v]
      ensures u == v
    {
      assert HeldOk(s, u) && HeldOk(s, v);
    }
  }

  lemma StoreKeeps(s: Shared, t: nat)
    requires SharedOk(s) && t in s.held
    ensures CanPush(s, StoreHead(t)) && SharedOk(Push(s, StoreHead(t)))
  {
    assert HeldOk(s, t);
    var s' := Push(s, StoreHead(t));
    forall i | 0 <= i < |s'.recs|
      ensures RecordOk(s', i)
    {
      assert RecordOk(s, i);
    }
    forall i, j | 0 <= i < |s'.recs| && 0 <= j < |s'.recs|
      ensures OncePublished(s', i, j)
    {
      assert OncePublished(s, i, j) && RecordOk(s, i) && RecordOk(s, j);
    }
    forall u
      ensures HeldOk(s', u)
    {
      assert HeldOk(s, u);
    }
  }

  lemma RegisteredRecorded(s: Shared, recorded: set<nat>)
    requires Ordered(s.recs) && s.first <= |s.recs|
    requires forall i :: 0 <= i < |s.recs| ==> s.recs[i].ptr in recorded
    ensures Pointers(s.recs, s.first) <= recorded
  {
    forall p | p in Pointers(s.recs, s.first)
      ensures p in recorded
    {
      var n := RecordOf(s.recs, s.first, p);
      assert s.recs[n - 1].ptr in recorded;
    }
  }

  ghost predicate IsPushRun(states: seq<Shared>, steps: seq<PushStep>) {
    && |states| == |steps| + 1 && states[0] == NO_RECORDS
    && forall i :: 0 <= i < |steps| ==> CanPush(states[i], steps[i]) && states[i + 1] == Push(states[i], steps[i])
  }

  /** The pointers threads set out to record in the first `n` steps. */
  ghost function Recorded(steps: seq<PushStep>, n: nat): set<nat>
    requires n <= |steps|
  {
    if n == 0 then {}
    else Recorded(steps, n - 1) + (if steps[n - 1].LoadHead? then {steps[n - 1].p} else {})
  }

  /** Under every interleaving of loads and stores the chain is acyclic and finite (it is a walk
      down the numbering, so a lookup terminates), and whatever is registered was recorded. */
  lemma {:induction false} PushRunSound(states: seq<Shared>, steps: seq<PushStep>, n: nat)
    requires IsPushRun(states, steps) && n < |states|
    ensures SharedOk(states[n])
    ensures forall i :: 0 <= i < |states[n].recs| ==> states[n].recs[i].ptr in Recorded(steps, n)
    ensures Pointers(states[n].recs, states[n].first) <= Recorded(steps, n)
  {
    if n > 0 {
      PushRunSound(states, steps, n - 1);
      match steps[n - 1]
      case LoadHead(t, p) => LoadKeeps(states[n - 1], t, p);
      case StoreHead(t) => StoreKeeps(states[n - 1], t);
    } else {
      assert SharedOk(NO_RECORDS);
    }
    hide SharedOk;
    RegisteredRecorded(states[n], Recorded(steps, n));
  }

  /** Records stay as they are and new ones come behind them; so what was registered as seen from an
      old head still is. */
  lemma {:induction false} RecordsStay(states: seq<Shared>, steps: seq<PushStep>, i: nat, j: nat, h: nat)
    requires IsPushRun(states, steps) && i <= j < |states|
    requires SharedOk(states[i]) && SharedOk(states[j]) && h <= |states[i].recs|
    ensures |states[i].recs| <= |states[j].recs| && states[j].recs[..|states[i].recs|] == states[i].recs
    ensures Pointers(states[j].recs, h) == Pointers(states[i].recs, h)
  {
    if i < j {
      PushRunSound(states, steps, j - 1);
      RecordsStay(states, steps, i, j - 1, h);
      var old1, new1 := states[j - 1].recs, states[j].recs;
      assert new1 == old1 + new1[|old1|..];
      MoreRecords(old1, new1[|old1|..], h);
    }
    hide SharedOk;
  }

  /** A lookup while other threads push: before every record it reads, any number of steps may pass.
      It terminates, and answers for the registry as it was when the lookup loaded the head. */
  method Lookup(states: seq<Shared>, steps: seq<PushStep>, i: nat, p: nat) returns (found: bool)
    requires IsPushRun(states, steps) && i < |states|
    ensures SharedOk(states[i]) && (found <==> p in Pointers(states[i].recs, states[i].first))
  {
    PushRunSound(states, steps, i);
    var n: nat := states[i].first;
    var j := i;
    while n != 0
      invariant i <= j < |states| && n <= |states[i].recs|
      invariant p in Pointers(states[i].recs, states[i].first) <==> p in Pointers(states[i].recs, n)
      decreases n
    {
      var later: nat :| j <= later < |states|;
      j := later;
      PushRunSound(states, steps, j);
      RecordsStay(states, steps, i, j, n);
      var rec := states[j].recs[n - 1];
      assert rec == states[j].recs[..|states[i].recs|][n - 1];
      if rec.ptr == p {
        return true;
      }
      n := rec.next;
    }
    found := false;
  }

  /** Every record reachable from the head after `c` stores had been published by then. */
  lemma {:induction false} ChainPublished(s: Shared, h: nat, c: nat, n: nat)
    requires SharedOk(s) && h <= |s.recs| && HeadAfter(s, h, c) && n in Chain(s.recs, h)
    ensures 1 <= n <= |s.recs| && 1 <= s.storedAt[n - 1] <= c
    decreases h
  {
    if n != h {
      assert RecordOk(s, h - 1);
      ChainPublished(s, s.recs[h - 1].next, s.loadedAt[h - 1], n);
    }
  }

  /** A push loses no entry if and only if the head it loaded is still the head when it stores. */
  lemma StoreKeepsAllIff(s: Shared, t: nat)
    requires SharedOk(s) && t in s.held
    ensures 1 <= s.held[t] <= |s.recs|
    ensures Chain(s.recs, s.first) <= Chain(s.recs, s.held[t]) <==> s.recs[s.held[t] - 1].next == s.first
  {
    assert HeldOk(s, t);
    var n := s.held[t];
    var h, c := s.recs[n - 1].next, s.loadedAt[n - 1];
    assert RecordOk(s, n - 1);
    assert Chain(s.recs, n) == {n} + Chain(s.recs, h);
    if h != s.first {
      HeadDiffers(s, h, c);
      assert s.first in Chain(s.recs, s.first) && s.first != n;
      if s.first in Chain(s.recs, h) {
        ChainPublished(s, h, c, s.first);
      }
    }
  }

  lemma HeadDiffers(s: Shared, h: nat, c: nat)
    requires SharedOk(s) && HeadAfter(s, h, c) && c <= s.stores && h != s.first
    ensures c < s.stores && s.first > 0
  {
    if c > 0 {
      assert OncePublished(s, h - 1, s.first - 1);
    }
  }

  /** What is met from a record of a chain is met from the start of the chain. */
  lemma {:induction false} ChainSuffix(recs: seq<Rec>, h: nat, n: nat)
    requires Ordered(recs) && h <= |recs| && n in Chain(recs, h)
    ensures n <= |recs| && Chain(recs, n) <= Chain(recs, h)
    decreases h
  {
    if n != h {
      ChainSuffix(recs, recs[h - 1].next, n);
    }
  }

  /** A store adds nothing but its own record if and only if the head it loaded is null or still in
      the chain; otherwise it brings back at least that record, which was lost in the meantime. */
  lemma StoreBringsBackIff(s: Shared, t: nat)
    requires SharedOk(s) && t in s.held
    ensures 1 <= s.held[t] <= |s.recs|
    ensures var h := s.recs[s.held[t] - 1].next;
            && h <= |s.recs|
            && (Chain(s.recs, s.held[t]) <= Chain(s.recs, s.first) + {s.held[t]}
                <==> h == 0 || h in Chain(s.recs, s.first))
            && (h != 0 && h !in Chain(s.recs, s.first) ==>
                  h in Chain(s.recs, s.held[t]) && 1 <= s.storedAt[h - 1] <= s.stores)
  {
    assert HeldOk(s, t);
    var n := s.held[t];
    var h := s.recs[n - 1].next;
    assert RecordOk(s, n - 1) && h < n;
    assert Chain(s.recs, n) == {n} + Chain(s.recs, h);
    if h != 0 {
      assert h in Chain(s.recs, h);
      if h in Chain(s.recs, s.first) {
        ChainSuffix(s.recs, s.first, h);
      }
    }
  }

  /** Three threads, six steps: `a` is registered; the store of thread 1, which loaded an empty
      registry, loses it; the store of thread 2, which loaded the head in between, brings it back. */
  lemma BroughtBack(a: nat, b: nat, c: nat) returns (states: seq<Shared>, steps: seq<PushStep>)
    ensures IsPushRun(states, steps)
    ensures steps == [LoadHead(0, a), LoadHead(1, b), StoreHead(0), LoadHead(2, c), StoreHead(1), StoreHead(2)]
    ensures |states| == 7 && Shows(states[3], {a}) && Shows(states[5], {b}) && Shows(states[6], {c, a})
  {
    hide SharedOk;
    states, steps := SixSteps(a, b, c);
    PushRunSound(states, steps, 3);
    PushRunSound(states, steps, 5);
    PushRunSound(states, steps, 6);
    hide IsPushRun;
  }

  lemma SixSteps(a: nat, b: nat, c: nat) returns (states: seq<Shared>, steps: seq<PushStep>)
    ensures IsPushRun(states, steps) && |states| == 7
    ensures steps == [LoadHead(0, a), LoadHead(1, b), StoreHead(0), LoadHead(2, c), StoreHead(1), StoreHead(2)]
    ensures states[3].recs == [Rec(a, 0), Rec(b, 0)] && states[3].first == 1
    ensures states[5].recs == [Rec(a, 0), Rec(b, 0), Rec(c, 1)] && states[5].first == 2
    ensures states[6].recs == states[5].recs && states[6].first == 3
  {
    var s1 := Push(NO_RECORDS, LoadHead(0, a));
    var s2 := Push(s1, LoadHead(1, b));
    var s3 := Push(s2, StoreHead(0));
    var s4 := Push(s3, LoadHead(2, c));
    var s5 := Push(s4, StoreHead(1));
    var s6 := Push(s5, StoreHead(2));
    states := [NO_RECORDS, s1, s2, s3, s4, s5, s6];
    steps := [LoadHead(0, a), LoadHead(1, b), StoreHead(0), LoadHead(2, c), StoreHead(1), StoreHead(2)];
  }

  /** The registry is in order and holds these pointers. */
  ghost predicate Shows(s: Shared, pointers: set<nat>) {
    SharedOk(s) && Pointers(s.recs, s.first) == pointers
  }

  /** Two threads load the same head and store in turn: the first one's pointer is lost. */
  lemma LostEntry()
    ensures var s := Push(Push(Push(Push(NO_RECORDS, LoadHead(0, 100)), LoadHead(1, 200)), StoreHead(0)), StoreHead(1));
            && SharedOk(s) && Pointers(s.recs, s.first) == {200}
  {
    var s1 := Push(NO_RECORDS, LoadHead(0, 100));
    var s2 := Push(s1, LoadHead(1, 200));
    var s3 := Push(s2, StoreHead(0));
    var s4 := Push(s3, StoreHead(1));
    assert SharedOk(NO_RECORDS);
    LoadKeeps(NO_RECORDS, 0, 100);
    LoadKeeps(s1, 1, 200);
    StoreKeeps(s2, 0);
    StoreKeeps(s3, 1);
    assert s4.first == 2 && s4.recs[1] == Rec(200, 0);
  }
}
