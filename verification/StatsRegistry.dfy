/** Per-thread statistics objects and the registry of live and retired ones. */
module StatsRegistries {
  import opened StatsModel
  import opened ThreadStates

  /** The counters of one allocator, updated in place. */
  class StatsCell {
    var requestedBytes: nat
    var allocatedBytes: nat
    var peak: nat
    var allocs: nat
    var frees: nat
    var live: int

    function View(): Stats
      reads this
    {
      Stats(requestedBytes, allocatedBytes, peak, allocs, frees, live)
    }

    constructor ()
      ensures View() == NO_STATS
    {
      requestedBytes, allocatedBytes, peak, allocs, frees, live := 0, 0, 0, 0, 0, 0;
    }

    method Alloc(req: nat, got: nat)
      modifies this
      ensures View() == RecordAlloc(old(View()), req, got)
      ensures requestedBytes == old(requestedBytes) + req && allocatedBytes == old(allocatedBytes) + got
      ensures live == old(live) + got && old(peak) <= peak && live <= peak && peak in {old(peak), live}
      ensures allocs == old(allocs) + 1 && frees == old(frees)
    {
      requestedBytes := requestedBytes + req;
      allocatedBytes := allocatedBytes + got;
      live := live + got;
      if live > peak {
        peak := live;
      }
      allocs := allocs + 1;
    }

    method Free(req: nat, got: nat)
      modifies this
      ensures View() == RecordFree(old(View()), req, got)
      ensures requestedBytes == old(requestedBytes) + req && allocatedBytes == old(allocatedBytes) + got
      ensures live == old(live) - got && peak == old(peak) && allocs == old(allocs) && frees == old(frees) + 1
    {
      requestedBytes := requestedBytes + req;
      allocatedBytes := allocatedBytes + got;
      live := live - got;
      frees := frees + 1;
    }
  }

  // ---------------------------------------------------------------------------
  // Totals

  /** Two sets of counters together: sums, and the larger peak. */
  function Merge(a: Stats, b: Stats): Stats {
    Stats(a.requestedBytes + b.requestedBytes, a.allocatedBytes + b.allocatedBytes,
          if b.peak > a.peak then b.peak else a.peak, a.allocs + b.allocs, a.frees + b.frees, 0)
  }

  /** The aggregate of a list of counters, the last merged last. */
  function Total(q: seq<Stats>, n: nat): Stats
    requires n <= |q|
  {
    if n == 0 then NO_STATS else Merge(Total(q, n - 1), q[n - 1])
  }

  ghost function Sum(q: seq<Stats>): Stats {
    Total(q, |q|)
  }

  lemma {:induction false} TotalPrefix(q: seq<Stats>, r: seq<Stats>, n: nat)
    requires n <= |q|
    ensures Total(q + r, n) == Total(q, n)
  {
    if n > 0 {
      TotalPrefix(q, r, n - 1);
    }
  }

  lemma {:induction false} SumConcat(q: seq<Stats>, r: seq<Stats>, n: nat)
    requires n <= |r|
    ensures Total(q + r, |q| + n) == Merge(Sum(q), Total(r, n))
  {
    hide Merge;
    if n == 0 {
      TotalPrefix(q, r, |q|);
      NothingLive(q, |q|);
      MergeZero(Sum(q));
    } else {
      SumConcat(q, r, n - 1);
      assert (q + r)[|q| + n - 1] == r[n - 1];
      MergeAssoc(Sum(q), Total(r, n - 1), r[n - 1]);
    }
  }

  lemma MergeZero(a: Stats)
    requires a.live == 0
    ensures Merge(a, NO_STATS) == a
  {
  }

  lemma MergeAssoc(a: Stats, b: Stats, c: Stats)
    ensures Merge(Merge(a, b), c) == Merge(a, Merge(b, c))
  {
  }

  lemma {:induction false} NothingLive(q: seq<Stats>, n: nat)
    requires n <= |q|
    ensures Total(q, n).live == 0
  {
    if n > 0 {
      NothingLive(q, n - 1);
    }
  }

  function RequestedOf(s: Stats): nat { s.requestedBytes }

  function AllocatedOf(s: Stats): nat { s.allocatedBytes }

  function AllocsOf(s: Stats): nat { s.allocs }

  function FreesOf(s: Stats): nat { s.frees }

  /** One counter added up over the first `n` entries. */
  function Added(q: seq<Stats>, counter: Stats -> nat, n: nat): nat
    requires n <= |q|
  {
    if n == 0 then 0 else Added(q, counter, n - 1) + counter(q[n - 1])
  }

  /** What a report says of the first `n` entries: the plain sum of every counter, and the largest peak. */
  ghost predicate Reports(total: Stats, q: seq<Stats>, n: nat)
    requires n <= |q|
  {
    && total.requestedBytes == Added(q, RequestedOf, n)
    && total.allocatedBytes == Added(q, AllocatedOf, n)
    && total.allocs == Added(q, AllocsOf, n)
    && total.frees == Added(q, FreesOf, n)
    && (forall i :: 0 <= i < n ==> q[i].peak <= total.peak)
    && (if n == 0 then total.peak == 0 else exists i :: 0 <= i < n && q[i].peak == total.peak)
  }

  lemma {:induction false} TotalReports(q: seq<Stats>, n: nat)
    requires n <= |q|
    ensures Reports(Total(q, n), q, n)
  {
    if n > 0 {
      TotalReports(q, n - 1);
      assert q[n - 1].peak == Total(q, n).peak || Total(q, n - 1).peak == Total(q, n).peak;
    }
  }

  lemma SumOfConcat(q: seq<Stats>, r: seq<Stats>)
    ensures Sum(q + r) == Merge(Sum(q), Sum(r))
  {
    hide Total, Merge;
    SumConcat(q, r, |r|);
    assert |q + r| == |q| + |r|;
  }

  lemma MergeShuffle(a: Stats, x: Stats, b: Stats, r: Stats)
    ensures Merge(Merge(Merge(a, x), b), r) == Merge(Merge(a, b), Merge(r, x))
  {
  }

  /** Moving one entry from the live list to the end of the retired list changes no total. */
  lemma MoveKeepsSum(live: seq<Stats>, retired: seq<Stats>, i: nat)
    requires i < |live|
    ensures Sum(live[..i] + live[i + 1..] + (retired + [live[i]])) == Sum(live + retired)
  {
    hide Sum, Merge;
    var a, x, b := live[..i], [live[i]], live[i + 1..];
    assert live == a + x + b;
    SumOfConcat(a + x + b, retired);
    SumOfConcat(a + x, b);
    SumOfConcat(a, x);
    SumOfConcat(a + b, retired + x);
    SumOfConcat(a, b);
    SumOfConcat(retired, x);
    MergeShuffle(Sum(a), Sum(x), Sum(b), Sum(retired));
  }

  /** Retiring something that was never registered: the totals stay the same if and only if it
      has recorded nothing that would show. */
  lemma UnlistedRetire(live: seq<Stats>, retired: seq<Stats>, v: Stats)
    ensures Sum(live + (retired + [v])) == Sum(live + retired)
       <==> && v.requestedBytes == 0 && v.allocatedBytes == 0 && v.allocs == 0 && v.frees == 0
            && v.peak <= Sum(live + retired).peak
  {
    var q := live + retired;
    assert live + (retired + [v]) == q + [v];
    TotalPrefix(q, [v], |q|);
    assert (q + [v])[|q|] == v;
    NothingLive(q, |q|);
  }

  // ---------------------------------------------------------------------------
  // The two parallel lists

  function IndexOf<S(==)>(q: seq<S>, s: S, i: nat): (j: nat)
    requires i <= |q|
    ensures i <= j <= |q|
    ensures j < |q| ==> q[j] == s
    ensures forall x :: i <= x < j ==> q[x] != s
    decreases |q| - i
  {
    if i == |q| || q[i] == s then i else IndexOf(q, s, i + 1)
  }

  function Without<S>(q: seq<S>, i: nat): seq<S>
    requires i < |q|
  {
    q[..i] + q[i + 1..]
  }

  /** The lists after one registration or retirement. */
  function Enrol<S, A>(live: seq<S>, owners: seq<A>, s: S, a: A): (seq<S>, seq<A>) {
    (live + [s], owners + [a])
  }

  function Strike<S(==), A>(live: seq<S>, owners: seq<A>, s: S): (seq<S>, seq<A>)
    requires |live| == |owners|
  {
    var i := IndexOf(live, s, 0);
    if i == |live| then (live, owners) else (Without(live, i), Without(owners, i))
  }

  /** Equal lengths, and every entry beside the allocator it belongs to. */
  ghost predicate Paired<S(!new), A(!new)>(live: seq<S>, owners: seq<A>, owner: S -> A) {
    |live| == |owners| && forall i :: 0 <= i < |live| ==> owners[i] == owner(live[i])
  }

  datatype RollOp<S> = In(s: S) | Out(s: S)

  ghost function After<S(!new), A(!new)>(ops: seq<RollOp<S>>, owner: S -> A, n: nat): (r: (seq<S>, seq<A>))
    requires n <= |ops|
    ensures |r.0| == |r.1|
  {
    if n == 0 then ([], [])
    else
      var (live, owners) := After(ops, owner, n - 1);
      match ops[n - 1]
      case In(s) => Enrol(live, owners, s, owner(s))
      case Out(s) => Strike(live, owners, s)
  }

  /** Over any order of registrations and retirements, whatever is retired and however often, the
      two lists keep equal length and pair each entry with its own allocator. */
  lemma {:induction false} AlwaysPaired<S(!new), A(!new)>(ops: seq<RollOp<S>>, owner: S -> A, n: nat)
    requires n <= |ops|
    ensures Paired(After(ops, owner, n).0, After(ops, owner, n).1, owner)
  {
    if n > 0 {
      AlwaysPaired(ops, owner, n - 1);
    }
  }

  /** The registry: live statistics with their owners, and snapshots of the retired. */
  class StatsRegistry {
    var live: seq<StatsCell>
    var liveAllocators: seq<object>
    var retired: seq<Stats>

    ghost predicate Valid()
      reads this
    {
      |live| == |liveAllocators|
    }

    /** The counters of the live entries as they stand. */
    ghost function LiveViews(): (views: seq<Stats>)
      reads this, live
      ensures |views| == |live| && forall i :: 0 <= i < |live| ==> views[i] == live[i].View()
    {
      seq(|live|, i requires 0 <= i < |live| reads this, live => live[i].View())
    }

    /** What `global_stats` reports. */
    ghost function Global(): Stats
      reads this, live
    {
      Sum(LiveViews() + retired)
    }

    constructor ()
      ensures Valid() && live == [] && retired == []
    {
      live, liveAllocators, retired := [], [], [];
    }

    /** The vectors grow through operator new; nothing is exposed if the guard is up. */
    method Register(s: StatsCell, allocator: object, flags: ThreadFlags)
      requires Valid()
      modifies this, flags`exposed
      ensures Valid() && flags.exposed == (old(flags.exposed) || !flags.active)
      ensures live == old(live) + [s] && liveAllocators == old(liveAllocators) + [allocator]
      ensures (live, liveAllocators) == Enrol(old(live), old(liveAllocators), s, allocator) && retired == old(retired)
    {
      flags.VectorGrows();
      live := live + [s];
      liveAllocators := liveAllocators + [allocator];
    }

    /** Takes a snapshot and strikes the entry from both lists.  For a registered entry the global
        statistics do not change. */
    method Retire(s: StatsCell, flags: ThreadFlags)
      requires Valid()
      modifies this, flags`exposed
      ensures Valid() && flags.exposed == (old(flags.exposed) || !flags.active)
      ensures s !in old(live) ==> live == old(live) && liveAllocators == old(liveAllocators)
      ensures s in old(live) ==>
        exists i :: 0 <= i < |old(live)| && old(live)[i] == s && s !in old(live)[..i]
                    && live == old(live)[..i] + old(live)[i + 1..]
                    && liveAllocators == old(liveAllocators)[..i] + old(liveAllocators)[i + 1..]
      ensures (live, liveAllocators) == Strike(old(live), old(liveAllocators), s)
      ensures retired == old(retired) + [s.View()]
      ensures s in old(live) ==> Global() == old(Global())
    {
      ghost var views := LiveViews();
      flags.VectorGrows();
      retired := retired + [s.View()];
      var i := 0;
      while i < |live| && live[i] != s
        invariant i <= |live|
        invariant IndexOf(live, s, 0) == IndexOf(live, s, i)
      {
        i := i + 1;
      }
      if i < |live| {
        live := live[..i] + live[i + 1..];
        liveAllocators := liveAllocators[..i] + liveAllocators[i + 1..];
        assert LiveViews() == views[..i] + views[i + 1..];
        MoveKeepsSum(views, old(retired), i);
      }
    }

    /** Adds up live and retired entries. */
    method GlobalStats() returns (total: Stats)
      ensures total == Global()
      ensures Reports(total, LiveViews() + retired, |live| + |retired|)
    {
      total := NO_STATS;
      TotalReports(LiveViews() + retired, |live| + |retired|);
      ghost var views := LiveViews();
      for i := 0 to |live|
        invariant total == Total(views, i)
      {
        total := Merge(total, live[i].View());
      }
      TotalPrefix(views, retired, |views|);
      for i := 0 to |retired|
        invariant total == Total(views + retired, |views| + i)
      {
        total := Merge(total, retired[i]);
      }
    }
  }
}
