/** The event ring: a circular buffer that stands for the last events of a history, read in two
    lock sections. */
module EventRings {
  import opened Bits

  // ---------------------------------------------------------------------------
  // Slots

  lemma ModPlus(x: int, y: int, c: nat)
    requires c > 0
    ensures (x % c + y) % c == (x + y) % c
  {
    var r := (x % c + y) % c;
    var q := x / c + (x % c + y) / c;
    assert c * q == c * (x / c) + c * ((x % c + y) / c);
    assert x + y == c * q + r;
    DivModUnique(x + y, c, q, r);
  }

  /** The slot of the buffer that the n-th event is written to. */
  function Slot(n: int, c: nat): (r: nat)
    requires c > 0
    ensures r < c
  {
    Rem(n, c)
  }

  lemma ModStep(n: nat, c: nat)
    requires c > 0
    ensures (n + 1) % c == (n % c + 1) % c
  {
    ModPlus(n, 1, c);
  }

  /** Numbers less than `c` apart use different slots. */
  lemma SlotsDiffer(i: int, j: int, c: nat)
    requires i < j < i + c
    ensures i % c != j % c
  {
    if i % c == j % c {
      var d := j / c - i / c;
      assert j - i == c * d;
      MulMono(c, 1, d);
      MulMono(c, d, 0);
    }
  }

  /** The number of the last event of a history of `total` that was written to `slot`. */
  function Latest(c: nat, total: nat, slot: nat): int
    requires c > 0
  {
    total - 1 - (total - 1 - slot) % c
  }

  lemma LatestIs(c: nat, total: nat, slot: nat, j: nat)
    requires c > 0 && j < total <= j + c && j % c == slot
    ensures Latest(c, total, slot) == j
  {
    var q := j / c;
    assert j == c * q + slot;
    var d := total - 1 - j;
    DivModUnique(total - 1 - slot, c, q, d);
  }

  function Min(a: nat, b: nat): nat {
    if a < b then a else b
  }

  // ---------------------------------------------------------------------------
  // The ring

  class EventRing<E(0)> {
    const cap: nat
    const buf: array<E>
    var head: nat
    var count: nat
    /** Every event ever pushed, oldest first. */
    ghost var history: seq<E>

    /** The buffer is the end of the history, laid out modulo the capacity. */
    ghost predicate Valid()
      reads this, buf
    {
      && cap > 0 && buf.Length == cap
      && head == Slot(|history|, cap)
      && count == Min(|history|, cap)
      && forall i {:trigger history[i]} :: |history| - count <= i < |history| ==> buf[Slot(i, cap)] == history[i]
    }

    constructor (cap: nat)
      requires cap > 0
      ensures Valid() && history == [] && this.cap == cap && fresh(buf)
    {
      this.cap := cap;
      buf := new E[cap];
      head, count, history := 0, 0, [];
    }

    /** Overwrites the oldest event when full. */
    method Push(e: E)
      requires Valid()
      modifies this, buf
      ensures Valid() && history == old(history) + [e]
    {
      ghost var h := history;
      buf[head] := e;
      ModStep(|h|, cap);
      head := Slot(head + 1, cap);
      if count < cap {
        count := count + 1;
      }
      history := history + [e];
      forall i | |history| - count <= i < |history|
        ensures buf[Slot(i, cap)] == history[i]
      {
        if i < |h| {
          SlotsDiffer(i, |h|, cap);
          assert history[i] == h[i];
        }
      }
    }

    /** Other threads push between two lock sections. */
    method PushAll(es: seq<E>)
      requires Valid()
      modifies this, buf
      ensures Valid() && history == old(history) + es
    {
      for i := 0 to |es|
        invariant Valid() && history == old(history) + es[..i]
      {
        Push(es[i]);
      }
      assert es[..|es|] == es;
    }

    /** The most recent events in two lock sections, with `between` pushed by others in between:
        in order, exactly the last events of the history as of the second section, as many as were
        asked for and there were at the first. */
    method SnapshotTail(maxCount: nat, between: seq<E>) returns (out: seq<E>)
      requires Valid()
      modifies this, buf
      ensures Valid() && history == old(history) + between
      ensures var take := Min(Min(|old(history)|, cap), maxCount);
              out == history[|history| - take..]
    {
      hide Slot;
      var n := count;
      var take := if n < maxCount then n else maxCount;
      PushAll(between);
      var n2 := count;
      var start2 := if n2 < cap then 0 else head;
      var take2 := if take < n2 then take else n2;
      var first := Slot(start2 + n2 - take2, cap);
      assert take2 == take <= n2 == Min(|history|, cap);
      ghost var h := history;
      out := [];
      for i := 0 to take2
        invariant Valid() && history == h
        invariant out == h[|h| - take..][..i]
      {
        TailSlot(|h|, n2, start2, take, cap, i);
        assert buf[Slot(|h| - take + i, cap)] == history[|h| - take + i];
        out := out + [buf[Slot(first + i, cap)]];
      }
    }

    /** Copies the whole ring in two lock sections, reusing in the second the start found in the
        first: entry `i` is the latest event in slot `start + i`. */
    method Snapshot(between: seq<E>) returns (out: seq<E>)
      requires Valid()
      modifies this, buf
      ensures Valid() && history == old(history) + between
      ensures |out| == Min(|old(history)|, cap)
      ensures forall i :: 0 <= i < |out| ==> 0 <= Entry(cap, |old(history)|, |history|, i) < |history|
                                             && out[i] == history[Entry(cap, |old(history)|, |history|, i)]
    {
      hide Slot, Entry;
      var n := count;
      var start := if count < cap then 0 else head;
      PushAll(between);
      var take := if n < count then n else count;
      assert take == n;
      ghost var h := history;
      out := [];
      for i := 0 to take
        invariant Valid() && history == h
        invariant |out| == i
        invariant forall j :: 0 <= j < i ==> 0 <= Entry(cap, |old(history)|, |h|, j) < |h|
                                             && out[j] == h[Entry(cap, |old(history)|, |h|, j)]
      {
        EntryShown(cap, |old(history)|, |h|, i);
        ghost var j := Entry(cap, |old(history)|, |h|, i);
        assert buf[Slot(j, cap)] == history[j];
        out := out + [buf[Slot(start + i, cap)]];
      }
    }
  }

  lemma TailStart(total: nat, n: nat, start: nat, take: nat, c: nat)
    requires c > 0 && n == Min(total, c) && take <= n
    requires start == if n < c then 0 else total % c
    ensures (start + n - take) % c == (total - take) % c
  {
    if n == c {
      ModPlus(total, c - take, c);
      ModPlus(c, total - take, c);
      assert c % c == 0;
    }
  }

  lemma TailSlot(total: nat, n: nat, start: nat, take: nat, c: nat, i: nat)
    requires c > 0 && n == Min(total, c) && i < take <= n
    requires start == if n < c then 0 else Slot(total, c)
    ensures Slot(Slot(start + n - take, c) + i, c) == Slot(total - take + i, c)
  {
    TailStart(total, n, start, take, c);
    ModPlus(total - take, i, c);
  }

  /** In a ring that is full, or below its count, every slot read holds an event. */
  lemma SlotFilled(c: nat, total: nat, slot: nat)
    requires c > 0 && slot < c && (total >= c || slot < total)
    ensures var j := Latest(c, total, slot);
            0 <= j < total && total - c <= j && j % c == slot
  {
    var d := (total - 1 - slot) % c;
    var q := (total - 1 - slot) / c;
    assert total - 1 - slot == c * q + d;
    assert Latest(c, total, slot) == c * q + slot;
    DivModUnique(c * q + slot, c, q, slot);
    assert q <= -1 ==> c * q + c <= 0 by {
      MulMono(c, q, -1);
    }
  }

  /** The history index that entry `i` of a snapshot shows, for a history of `before` events at the
      first section and `total` at the second. */
  function Entry(c: nat, before: nat, total: nat, i: nat): int
    requires c > 0
  {
    Latest(c, total, ((if before < c then 0 else before % c) + i) % c)
  }

  /** The slot an entry is read from holds the event it is said to show, which is still in the ring. */
  lemma EntryShown(c: nat, before: nat, total: nat, i: nat)
    requires c > 0 && before <= total && i < Min(before, c)
    ensures var j := Entry(c, before, total, i);
            && 0 <= j < total && total - Min(total, c) <= j
            && Slot(j, c) == Slot((if before < c then 0 else Slot(before, c)) + i, c)
  {
    if before < c {
      DivModUnique(i, c, 0, i);
    }
    SlotFilled(c, total, ((if before < c then 0 else before % c) + i) % c);
  }

  /** When everything still fits, a snapshot is the history at the first section. */
  lemma SnapshotUnfilled(c: nat, before: nat, total: nat, i: nat)
    requires c > 0 && before <= total <= c && i < before
    ensures Entry(c, before, total, i) == i
  {
    DivModUnique(i, c, 0, i);
    if before == c {
      DivModUnique(c, c, 1, 0);
    }
    LatestIs(c, total, i, i);
  }

  /** On a full ring with `k` pushes in between, a snapshot is the window of the last `c` events
      rotated by `k` modulo `c`. */
  lemma SnapshotRotated(c: nat, before: nat, k: nat, i: nat)
    requires c > 0 && before >= c && i < c
    ensures var w := before + k - c;
            Entry(c, before, before + k, i) == w + (if i < k % c then c - k % c + i else i - k % c)
  {
    var r := k % c;
    var w := before + k - c;
    var off := if i < r then c - r + i else i - r;
    var j := w + off;
    var slot := (before % c + i) % c;
    ModPlus(before, i, c);
    var q := k / c;
    assert k == c * q + r;
    var turns := if i < r then q else q - 1;
    assert j == before + i + c * turns by {
      assert c * (q - 1) == c * q - c;
    }
    ModTurns(before + i, c, turns);
    LatestIs(c, before + k, slot, j);
  }

  lemma ModTurns(x: int, c: nat, q: int)
    requires c > 0
    ensures (x + c * q) % c == x % c
  {
    assert x + c * q == c * (x / c + q) + x % c;
    DivModUnique(x + c * q, c, x / c + q, x % c);
  }

  /** A snapshot lists events oldest first. */
  ghost predicate OldestFirst(c: nat, before: nat, total: nat)
    requires c > 0
  {
    forall i, j :: 0 <= i < j < Min(before, c) ==> Entry(c, before, total, i) < Entry(c, before, total, j)
  }

  /** Entry `i` of a snapshot taken of a ring that was not full. */
  lemma UnfilledEntry(c: nat, before: nat, total: nat, i: nat)
    requires c > 0 && before <= total && i < before < c
    ensures Entry(c, before, total, i) == c * (total / c) + i - (if i < total % c then 0 else c)
  {
    DivModUnique(i, c, 0, i);
    assert Entry(c, before, total, i) == Latest(c, total, i);
    hide Entry, Latest;
    LatestInTurn(c, total, i, total / c, total % c);
  }

  /** The latest event in slot `i` is in this turn of the ring, or in the one before. */
  lemma LatestInTurn(c: nat, total: nat, i: nat, q: nat, w: nat)
    requires i < c && w < c && total == c * q + w && i < total
    ensures Latest(c, total, i) == c * q + i - (if i < w then 0 else c)
  {
    hide Latest;
    if i < w {
      DivModUnique(c * q + i, c, q, i);
      LatestIs(c, total, i, c * q + i);
    } else {
      assert q > 0;
      assert c * (q - 1) == c * q - c;
      MulMono(c, 1, q);
      DivModUnique(c * q - c + i, c, q - 1, i);
      LatestIs(c, total, i, c * q - c + i);
    }
  }

  /** When a snapshot is in order, decided from the counts at the two sections: a ring that was full
      must have gone round a whole number of times, and one that was not must not have its oldest
      event inside the part that is copied. */
  predicate InOrder(c: nat, before: nat, total: nat)
    requires c > 0 && before <= total
  {
    if before >= c then (total - before) % c == 0
    else total % c == 0 || total % c >= before
  }

  /** A snapshot is oldest first if and only if the counts say so; with no push in between it always is. */
  lemma SnapshotOrderedIff(c: nat, before: nat, total: nat)
    requires c > 0 && before <= total
    ensures OldestFirst(c, before, total) <==> InOrder(c, before, total)
    ensures before == total ==> InOrder(c, before, total)
  {
    if before >= c {
      FullOrdered(c, before, total - before);
    } else {
      UnfilledOrdered(c, before, total);
      if before == total {
        DivModUnique(total, c, 0, total);
      }
    }
  }

  /** A ring for two events that holds two when a snapshot begins; one more is pushed before it goes on.
      The snapshot shows the newest event first, and then the one before it. */
  lemma MisorderedSnapshot()
    ensures Entry(2, 2, 3, 0) == 2 && Entry(2, 2, 3, 1) == 1
    ensures !InOrder(2, 2, 3) && !OldestFirst(2, 2, 3)
  {
    SnapshotRotated(2, 2, 1, 0);
    SnapshotRotated(2, 2, 1, 1);
    SnapshotOrderedIff(2, 2, 3);
  }

  lemma FullOrdered(c: nat, before: nat, k: nat)
    requires c > 0 && before >= c
    ensures OldestFirst(c, before, before + k) <==> k % c == 0
  {
    var total := before + k;
    forall i | 0 <= i < c
      ensures Entry(c, before, total, i) == total - c + (if i < k % c then c - k % c + i else i - k % c)
    {
      SnapshotRotated(c, before, k, i);
    }
    hide Entry;
    if k % c != 0 {
      assert Entry(c, before, total, 0) > Entry(c, before, total, k % c);
    }
  }

  lemma UnfilledOrdered(c: nat, before: nat, total: nat)
    requires c > 0 && before <= total && before < c
    ensures OldestFirst(c, before, total) <==> total % c == 0 || total % c >= before
  {
    var base, w := c * (total / c), total % c;
    forall i | 0 <= i < before
      ensures Entry(c, before, total, i) == base + i - (if i < w then 0 else c)
    {
      UnfilledEntry(c, before, total, i);
    }
    hide Entry;
    if 0 < w < before {
      assert Entry(c, before, total, w - 1) > Entry(c, before, total, w);
    }
  }
}
