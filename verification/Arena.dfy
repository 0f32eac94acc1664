/** The bump arena on machine words, wrap-around included. */
module Arenas {
  import opened Bits

  datatype Arena = Arena(base: nat, capacity: nat, used: nat, requestedBytes: nat, allocatedBytes: nat)

  /** The bytes [lo, hi) handed out by one request, and the padding skipped before them. */
  datatype Range = Range(lo: nat, hi: nat, pad: nat)

  const MAX_ALIGN: nat := 16

  ghost predicate ArenaOk(ar: Arena) {
    && 0 < ar.base && ar.base + ar.capacity < WORD_MOD
    && ar.used <= ar.capacity
    && ar.allocatedBytes == ar.used
    && ar.requestedBytes <= ar.allocatedBytes
  }

  function NewArena(base: nat, capacity: nat): Arena {
    Arena(base, capacity, 0, 0, 0)
  }

  /** One bump request; 0 is the null pointer. */
  function Grant(ar: Arena, size: nat, align: nat): (Arena, nat)
    requires 0 < align <= WORD_MOD
  {
    var cur := Wrap(ar.base + ar.used);
    var aligned := AlignUp(cur, align);
    var padding := Wrap(aligned - cur);
    var need := Wrap(ar.used + padding + size);
    if need > ar.capacity then (ar, 0)
    else (ar.(used := need, requestedBytes := Wrap(ar.requestedBytes + size),
              allocatedBytes := Wrap(ar.allocatedBytes + padding + size)), aligned)
  }

  function Rewind(ar: Arena): Arena {
    ar.(used := 0, requestedBytes := 0, allocatedBytes := 0)
  }

  predicate ArenaContains(ar: Arena, a: nat) {
    ar.base <= a < ar.base + ar.used
  }

  /** Where the region would end for this request, as a mathematical integer. */
  function EndOffset(ar: Arena, size: nat, align: nat): int
    requires align > 0
  {
    CeilMultiple(ar.base + ar.used, align) - ar.base + size
  }

  /** What a bump arena promises: refuse what does not fit and change nothing, otherwise hand
      out the first aligned bytes behind the cursor and account for exactly those. */
  ghost predicate GrantIsRight(ar: Arena, size: nat, align: nat)
    requires 0 < align <= WORD_MOD
  {
    var c := CeilMultiple(ar.base + ar.used, align);
    var end := EndOffset(ar, size, align);
    if end > ar.capacity then Grant(ar, size, align) == (ar, 0)
    else && end >= 0
         && Grant(ar, size, align)
            == (ar.(used := end, requestedBytes := ar.requestedBytes + size,
                    allocatedBytes := ar.allocatedBytes + (end - ar.used)), c)
  }

  /** The bounds check of the source adds on machine words; this is when the sum wraps to
      something that passes the check. */
  predicate CheckWraps(ar: Arena, size: nat, align: nat)
    requires align > 0
  {
    WORD_MOD <= EndOffset(ar, size, align) <= WORD_MOD + ar.capacity
  }

  /** The value of a request with the bit trick resolved. */
  lemma GrantValue(ar: Arena, size: nat, align: nat)
    requires ArenaOk(ar) && size < WORD_MOD && IsPow2(align)
    ensures align > 0
    ensures var c := CeilMultiple(ar.base + ar.used, align);
            var pad := c - (ar.base + ar.used);
            && 0 <= pad < align && c <= WORD_MOD
            && Grant(ar, size, align)
               == if Wrap(ar.used + pad + size) > ar.capacity then (ar, 0)
                  else (ar.(used := Wrap(ar.used + pad + size), requestedBytes := Wrap(ar.requestedBytes + size),
                            allocatedBytes := Wrap(ar.allocatedBytes + pad + size)),
                        if c == WORD_MOD then 0 else c)
  {
    PowDividesWord(align);
    AlignUpIsCeil(ar.base + ar.used, align);
    CeilIsLeast(ar.base + ar.used, align);
  }

  lemma WrapTotals(ar: Arena, size: nat, pad: nat)
    requires ArenaOk(ar) && size < WORD_MOD && ar.used + pad < WORD_MOD
    ensures var end := ar.used + pad + size;
            && (end <= ar.capacity ==> Wrap(end) == end && Wrap(ar.requestedBytes + size) == ar.requestedBytes + size)
            && (ar.capacity < end < WORD_MOD ==> Wrap(end) > ar.capacity)
            && (end >= WORD_MOD ==> Wrap(end) == end - WORD_MOD)
  {
  }

  /** For every state and request: the arena does what it promises if and only if its bounds
      check does not wrap. */
  lemma GrantRightIff(ar: Arena, size: nat, align: nat)
    requires ArenaOk(ar) && size < WORD_MOD && IsPow2(align)
    ensures align > 0 && (GrantIsRight(ar, size, align) <==> !CheckWraps(ar, size, align))
  {
    hide Grant, CeilMultiple, IsPow2;
    GrantValue(ar, size, align);
    hide Wrap;
    WrapTotals(ar, size, CeilMultiple(ar.base + ar.used, align) - (ar.base + ar.used));
  }

  /** A concrete failure: a request sixteen bytes short of 2^64 is granted, the cursor moves
      back, and the next request receives bytes that are still live. */
  lemma WrappedRequestOverlaps(ar: Arena)
    requires ar == Arena(65536, 4194304, 32, 32, 32)
    ensures IsPow2(MAX_ALIGN) && ArenaOk(ar)
    ensures CheckWraps(ar, WORD_MOD - 16, MAX_ALIGN)
    ensures var (ar1, p1) := Grant(ar, WORD_MOD - 16, MAX_ALIGN);
            var (ar2, p2) := Grant(ar1, 16, MAX_ALIGN);
            && p1 == ar.base + 32 && ar1.used == 16
            && p2 == ar.base + 16 && p2 < ar.base + ar.used
  {
    Sixteen();
    hide AlignUp, Pow2;
    WrappedGrant(ar);
    var ar1 := ar.(used := 16, requestedBytes := 16, allocatedBytes := 16);
    NextGrant(ar1);
  }

  lemma Sixteen()
    ensures IsPow2(16)
  {
    assert Pow2(4) == 16;
  }

  lemma WrappedGrant(ar: Arena)
    requires ar == Arena(65536, 4194304, 32, 32, 32)
    ensures Grant(ar, WORD_MOD - 16, 16) == (ar.(used := 16, requestedBytes := 16, allocatedBytes := 16), ar.base + 32)
  {
    Sixteen();
    hide AlignUp, Pow2, Grant;
    GrantValue(ar, WORD_MOD - 16, 16);
    assert CeilMultiple(ar.base + 32, 16) == ar.base + 32;
  }

  lemma NextGrant(ar: Arena)
    requires ar == Arena(65536, 4194304, 16, 16, 16)
    ensures Grant(ar, 16, 16).1 == ar.base + 16
  {
    Sixteen();
    hide AlignUp, Pow2, Grant;
    GrantValue(ar, 16, 16);
    assert CeilMultiple(ar.base + 16, 16) == ar.base + 16;
  }

  // ---------------------------------------------------------------------------
  // Runs

  function PaddingOf(rs: seq<Range>, n: nat): nat
    requires n <= |rs|
  {
    if n == 0 then 0 else PaddingOf(rs, n - 1) + rs[n - 1].pad
  }

  /** The padding skipped for all the ranges together. */
  function TotalPadding(rs: seq<Range>): nat {
    PaddingOf(rs, |rs|)
  }

  lemma {:induction false} PrefixPadding(rs: seq<Range>, more: seq<Range>, n: nat)
    requires n <= |rs|
    ensures PaddingOf(rs + more, n) == PaddingOf(rs, n)
  {
    if n > 0 {
      PrefixPadding(rs, more, n - 1);
    }
  }

  /** The ranges handed out since the last rewind, in order: inside the region, below the
      cursor, pairwise disjoint, and the padding is what the two counters differ by. */
  ghost predicate RangesOk(ar: Arena, rs: seq<Range>) {
    && ArenaOk(ar)
    && (forall i :: 0 <= i < |rs| ==> ar.base <= rs[i].lo <= rs[i].hi <= ar.base + ar.used)
    && (forall i, j :: 0 <= i < j < |rs| ==> rs[i].hi <= rs[j].lo)
    && ar.allocatedBytes - ar.requestedBytes == TotalPadding(rs)
  }

  /** The record of one more request. */
  ghost function Granted(ar: Arena, rs: seq<Range>, size: nat, align: nat): seq<Range>
    requires 0 < align <= WORD_MOD
  {
    var p := Grant(ar, size, align).1;
    if p == 0 then rs
    else
      var pad := p - (ar.base + ar.used);
      rs + [Range(p, p + size, if pad < 0 then 0 else pad)]
  }

  lemma GrantKeeps(ar: Arena, rs: seq<Range>, size: nat, align: nat)
    requires RangesOk(ar, rs) && size < WORD_MOD && IsPow2(align)
    requires align > 0 && !CheckWraps(ar, size, align)
    ensures var (ar', p) := Grant(ar, size, align);
            && RangesOk(ar', Granted(ar, rs, size, align))
            && ar'.base == ar.base && ar'.capacity == ar.capacity && ar.used <= ar'.used
            && (p == 0 <==> EndOffset(ar, size, align) > ar.capacity)
            && (p == 0 ==> ar' == ar)
            && (p != 0 ==> && p % align == 0
                           && ar.base + ar.used <= p && p + size == ar.base + ar'.used
                           && p - (ar.base + ar.used) < align
                           && ar'.used - ar.used == size + (p - (ar.base + ar.used)))
  {
    GrantRightIff(ar, size, align);
    CeilIsLeast(ar.base + ar.used, align);
    var rs' := Granted(ar, rs, size, align);
    if rs' != rs {
      PrefixPadding(rs, [rs'[|rs|]], |rs|);
      assert rs' == rs + [rs'[|rs|]];
    }
  }

  /** The bytes that a request at the default alignment would skip. */
  ghost function Slack(ar: Arena): nat {
    CeilIsLeast(ar.base + ar.used, MAX_ALIGN);
    CeilMultiple(ar.base + ar.used, MAX_ALIGN) - (ar.base + ar.used)
  }

  /** What a request takes, and what it leaves the next one to skip, is less than twice its size and
      what it was left: for 9 bytes or more at alignments up to the default one, and for requests at
      least as long as their alignment. */
  lemma GrantAmortised(ar: Arena, size: nat, align: nat)
    requires ArenaOk(ar) && size < WORD_MOD && IsPow2(align) && align > 0 && !CheckWraps(ar, size, align)
    requires 9 <= size && (align <= MAX_ALIGN || align <= size)
    ensures var (ar', p) := Grant(ar, size, align);
            p != 0 ==> ar.used <= ar'.used && ar'.used - ar.used + Slack(ar') < 2 * size + Slack(ar)
  {
    hide Grant, CeilMultiple, CheckWraps, IsPow2;
    var (ar', p) := Grant(ar, size, align);
    GrantRightIff(ar, size, align);
    if p != 0 {
      var c := CeilMultiple(ar.base + ar.used, align);
      CeilSteps(ar.base + ar.used, size, align);
      assert ar'.base + ar'.used == c + size;
    }
  }

  lemma CeilSteps(cur: nat, size: nat, align: nat)
    requires IsPow2(align) && align > 0 && 9 <= size && (align <= MAX_ALIGN || align <= size)
    ensures var p := CeilMultiple(cur, align);
            cur <= p && CeilMultiple(p + size, MAX_ALIGN) < CeilMultiple(cur, MAX_ALIGN) + 2 * size
  {
    var x, q := SmallOrMultiple(align);
    hide CeilMultiple, IsPow2;
    var _ := CeilNear(cur, align);
    if align <= MAX_ALIGN {
      CeilSmall(cur, size, align, x);
    } else {
      CeilLarge(cur, size, align, q);
    }
  }

  lemma CeilLarge(cur: nat, size: nat, align: nat, z: nat)
    requires MAX_ALIGN < align == MAX_ALIGN * z <= size
    ensures CeilMultiple(CeilMultiple(cur, align) + size, MAX_ALIGN) < CeilMultiple(cur, MAX_ALIGN) + 2 * size
  {
    hide CeilMultiple;
    var p := CeilMultiple(cur, align);
    var q := CeilNear(cur, align);
    Reassociate(MAX_ALIGN, z, q);
    var y := CeilNear(cur, MAX_ALIGN);
    var _ := CeilNear(p + size, MAX_ALIGN);
    LargeStep(cur, size, z, z * q, y);
  }

  lemma Reassociate(a: nat, x: nat, y: nat)
    ensures (a * x) * y == a * (x * y)
  {
  }

  lemma LargeStep(cur: nat, size: nat, z: nat, m: nat, y: nat)
    requires 16 * m < cur + 16 * z && 16 * z <= size && cur <= 16 * y
    ensures 16 * m + size + 16 <= 16 * y + 2 * size
  {
  }

  /** At a small alignment a request starts no later than at the default one. */
  lemma CeilSmall(cur: nat, size: nat, align: nat, x: nat)
    requires 9 <= size && align * x == MAX_ALIGN && align > 0
    ensures CeilMultiple(CeilMultiple(cur, align) + size, MAX_ALIGN) < CeilMultiple(cur, MAX_ALIGN) + 2 * size
  {
    hide CeilMultiple;
    var q := CeilNear(cur, MAX_ALIGN);
    var c := MAX_ALIGN * q;
    Reassociate(align, x, q);
    CeilBelow(cur, align, x * q);
    var z := CeilNear(size, MAX_ALIGN);
    CeilBelow(CeilMultiple(cur, align) + size, MAX_ALIGN, q + z);
    if size <= MAX_ALIGN {
      CeilBelow(size, MAX_ALIGN, 1);
    }
  }

  /** Powers of two up to the default alignment divide it, the others are multiples of it. */
  lemma SmallOrMultiple(a: nat) returns (x: nat, q: nat)
    requires IsPow2(a)
    ensures if a <= MAX_ALIGN then a * x == MAX_ALIGN else a == MAX_ALIGN * q
  {
    var k: nat :| a == Pow2(k);
    assert Pow2(4) == 16;
    if k >= 4 {
      Pow2Split(4, k);
      x, q := 1, Pow2(k - 4);
    } else {
      Pow2Split(k, 4);
      x, q := Pow2(4 - k), 0;
      Pow2Mono(k, 4);
    }
  }

  /** After a rewind the arena serves from its base again: a request is granted there, rounded up to its
      alignment, if and only if it fits. */
  lemma RewoundServes(ar: Arena, size: nat, align: nat)
    requires ArenaOk(ar) && size < WORD_MOD && IsPow2(align) && align > 0
    requires !CheckWraps(Rewind(ar), size, align)
    ensures var at := CeilMultiple(ar.base, align);
            Grant(Rewind(ar), size, align).1 == if at + size <= ar.base + ar.capacity then at else 0
  {
    GrantRightIff(Rewind(ar), size, align);
    hide Grant, CeilMultiple, CheckWraps, IsPow2;
  }

  /** A request whose size, together with capacity and alignment, is within 2^64 never wraps. */
  lemma OrdinaryRequest(ar: Arena, size: nat, align: nat)
    requires ArenaOk(ar) && align > 0
    requires size + ar.capacity + align <= WORD_MOD
    ensures !CheckWraps(ar, size, align)
  {
    CeilIsLeast(ar.base + ar.used, align);
  }

  /** One step of a client of the arena. */
  datatype Request = Ask(size: nat, align: nat) | Reset

  ghost predicate Sensible(ar: Arena, q: Request) {
    q.Ask? ==> q.size < WORD_MOD && q.align > 0 && IsPow2(q.align) && !CheckWraps(ar, q.size, q.align)
  }

  ghost function Serve(ar: Arena, rs: seq<Range>, q: Request): (Arena, seq<Range>)
    requires Sensible(ar, q)
  {
    match q
    case Ask(size, align) => (Grant(ar, size, align).0, Granted(ar, rs, size, align))
    case Reset => (Rewind(ar), [])
  }

  ghost predicate IsArenaRun(states: seq<(Arena, seq<Range>)>, qs: seq<Request>) {
    && |states| == |qs| + 1
    && forall i :: 0 <= i < |qs| ==>
         Sensible(states[i].0, qs[i]) && states[i + 1] == Serve(states[i].0, states[i].1, qs[i])
  }

  /** After any run of requests and rewinds, whatever the alignments. */
  lemma {:induction false} ArenaRun(states: seq<(Arena, seq<Range>)>, qs: seq<Request>, i: nat)
    requires IsArenaRun(states, qs) && RangesOk(states[0].0, states[0].1)
    requires i <= |qs|
    ensures RangesOk(states[i].0, states[i].1)
  {
    if i > 0 {
      ArenaRun(states, qs, i - 1);
      var (ar, rs) := states[i - 1];
      match qs[i - 1]
      case Ask(size, align) => GrantKeeps(ar, rs, size, align);
      case Reset =>
    }
  }
}
