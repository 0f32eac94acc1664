/** The arena class, its arithmetic on machine words as in the source. */
module BumpArenas {
  import opened Bits
  import opened Arenas

  class BumpArena {
    const base: nat
    const capacity: nat
    var used: nat
    var requestedBytes: nat
    var allocatedBytes: nat
    /** The ranges handed out since the last reset. */
    ghost var ranges: seq<Range>

    function View(): Arena
      reads this
    {
      Arena(base, capacity, used, requestedBytes, allocatedBytes)
    }

    constructor (base: nat, capacity: nat)
      ensures View() == NewArena(base, capacity) && ranges == []
    {
      this.base, this.capacity := base, capacity;
      used, requestedBytes, allocatedBytes, ranges := 0, 0, 0, [];
    }

    /** Align, check, advance; null when the check fails. */
    method Allocate(size: nat, align: nat) returns (p: nat)
      requires 0 < align <= WORD_MOD
      modifies this
      ensures (View(), p) == Grant(old(View()), size, align)
      ensures ranges == Granted(old(View()), old(ranges), size, align)
    {
      ghost var before := View();
      var cur: int := Wrap(base + used);
      var aligned := AlignUp(cur, align);
      var padding := Wrap(aligned - cur);
      if Wrap(used + padding + size) > capacity {
        return 0;
      }
      used := Wrap(used + padding + size);
      requestedBytes := Wrap(requestedBytes + size);
      allocatedBytes := Wrap(allocatedBytes + padding + size);
      ranges := Granted(before, ranges, size, align);
      return aligned;
    }

    method Reset()
      modifies this
      ensures View() == Rewind(old(View())) && ranges == []
      ensures used == 0 && requestedBytes == 0 && allocatedBytes == 0
    {
      used, requestedBytes, allocatedBytes, ranges := 0, 0, 0, [];
    }

    method InUse(p: nat) returns (r: bool)
      ensures r <==> base <= p < base + used
      ensures r <==> ArenaContains(View(), p)
    {
      r := p >= base && p < base + used;
    }
  }
}
