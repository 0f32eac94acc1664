/** The process memory and the trusted malloc. */
module Heap {
  import opened FreeList
  import opened Bits

  class Memory {
    /** Memory contents, shared by every allocator and every client. */
    var words: Words
    /** Regions malloc has given out and not got back: base to length. */
    var regions: map<nat, nat>
    /** Set when something is freed that malloc did not give out. */
    var corrupt: bool
    /** Everything given out lies below this address. */
    var brk: nat
    /** How often malloc has returned null. */
    ghost var refusals: nat
    /** How many bytes malloc was last asked for. */
    ghost var asked: nat

    ghost predicate Valid()
      reads this`regions, this`brk
    {
      0 < brk && forall b :: b in regions ==> 0 < b && b + regions[b] < brk
    }

    /** No outstanding region meets [p, p + n). */
    static ghost predicate Fresh(regions: map<nat, nat>, p: nat, n: nat) {
      forall b :: b in regions ==> b + regions[b] <= p || p + n <= b
    }

    constructor ()
      ensures Valid() && words == map[] && regions == map[] && !corrupt
    {
      words, regions, corrupt, brk, refusals, asked := map[], map[], false, 16, 0, 0;
    }

    /** malloc and aligned_alloc: null, or a fresh region at a multiple of `align`.  Which address
        it is, and whether there is one at all, is left open. */
    method AlignedAlloc(align: nat, n: nat) returns (p: nat)
      requires Valid() && align > 0
      modifies this`regions, this`brk, this`refusals, this`asked
      ensures Valid()
      ensures asked == n && refusals == old(refusals) + if p == 0 then 1 else 0
      ensures p == 0 ==> regions == old(regions)
      ensures p != 0 ==> p % align == 0 && p + n < WORD_MOD && Fresh(old(regions), p, n)
      ensures p != 0 ==> p !in old(regions) && regions == old(regions)[p := n]
    {
      asked := n;
      var a := CeilMultiple(brk, align);
      CeilIsLeast(brk, align);
      var refuse := *;
      if refuse || a + n >= WORD_MOD {
        refusals := refusals + 1;
        return 0;
      }
      regions := regions[a := n];
      brk := a + n + 1;
      return a;
    }

    /** malloc: aligned for every fundamental type. */
    method Malloc(n: nat) returns (p: nat)
      requires Valid()
      modifies this`regions, this`brk, this`refusals, this`asked
      ensures Valid()
      ensures asked == n && refusals == old(refusals) + if p == 0 then 1 else 0
      ensures p == 0 ==> regions == old(regions)
      ensures p != 0 ==> p % 16 == 0 && p + n < WORD_MOD && Fresh(old(regions), p, n)
      ensures p != 0 ==> p !in old(regions) && regions == old(regions)[p := n]
    {
      p := AlignedAlloc(16, n);
    }

    method Free(p: nat)
      requires Valid()
      modifies this`regions, this`corrupt
      ensures Valid()
      ensures regions == old(regions) - {p}
      ensures corrupt == (old(corrupt) || p !in old(regions))
    {
      if p !in regions {
        corrupt := true;
      }
      regions := regions - {p};
    }

    /** `allocate_slab`: an aligned region and the pointer that frees it, by aligned_alloc where the
        toolchain has it, otherwise by over-allocating and rounding up. */
    method AllocateSlab(n: nat, align: nat, hasAlignedAlloc: bool) returns (aligned: nat, raw: nat)
      requires Valid() && IsPow2(align) && align > 0
      modifies this`regions, this`brk, this`refusals, this`asked
      ensures Valid()
      ensures aligned == 0 <==> raw == 0
      ensures if raw == 0 then refusals > old(refusals) else refusals >= old(refusals)
      ensures hasAlignedAlloc && refusals == old(refusals) ==> aligned == raw && raw in regions && regions[raw] == n
      ensures raw == 0 ==> regions == old(regions)
      ensures raw != 0 ==> && raw in regions && raw !in old(regions)
                           && regions == old(regions)[raw := regions[raw]]
                           && aligned % align == 0
                           && raw <= aligned && aligned + n <= raw + regions[raw] < WORD_MOD
                           && regions[raw] in {n, n + align} && (!hasAlignedAlloc ==> regions[raw] == n + align)
                           && Fresh(old(regions), aligned, n)
    {
      if hasAlignedAlloc {
        aligned := AlignedAlloc(align, n);
        if aligned != 0 {
          return aligned, aligned;
        }
      }
      raw := Malloc(n + align);
      if raw == 0 {
        return 0, 0;
      }
      aligned := AlignUp(raw, align);
      AlignUpIsCeil(raw, align);
      CeilIsLeast(raw, align);
    }
  }
}
