/** The pool class: fields and memory updated in place, proved against the operations on values. */
module BlockPools {
  import opened FreeList
  import opened Pools
  import opened Heap

  class BlockPool {
    const size: nat
    const perSlab: nat
    const mem: Memory
    const slab: nat
    const raw: nat
    var head: nat
    var external: seq<Region>
    /** The blocks handed out and not yet freed. */
    ghost var live: set<nat>

    /** The pool as a value. */
    function View(): Pool
      reads this
    {
      Pool(size, [Region(slab, perSlab)] + external, head)
    }

    /** Links every block of the slab in address order. */
    constructor (mem: Memory, size: nat, perSlab: nat, slab: nat, raw: nat)
      modifies mem`words
      ensures this.mem == mem && this.size == size && this.perSlab == perSlab && this.slab == slab && this.raw == raw
      ensures View() == NewPool(slab, perSlab, size) && live == {}
      ensures mem.words == LinkBlocks(old(mem.words), slab, perSlab, size, 0)
    {
      this.mem, this.size, this.perSlab, this.slab, this.raw := mem, size, perSlab, slab, raw;
      head, external, live := slab, [], {};
      new;
      var b: nat := slab;
      for i := 0 to perSlab
        invariant LinkBlocks(mem.words, b, perSlab - i, size, 0) == LinkBlocks(old(mem.words), slab, perSlab, size, 0)
        invariant View() == NewPool(slab, perSlab, size) && live == {}
      {
        mem.words := mem.words[b := if i + 1 < perSlab then b + size else 0];
        b := b + size;
      }
    }

    /** Pops the head of the list; null when the pool is exhausted. */
    method Allocate() returns (p: nat)
      modifies this`head, this`live
      ensures (View(), p) == Pop(old(View()), mem.words)
      ensures live == if p == 0 then old(live) else old(live) + {p}
    {
      if head == 0 {
        return 0;
      }
      p := head;
      head := Load(mem.words, p);
      live := live + {p};
    }

    /** Links `n` blocks at `base` in front of the list and remembers the region. */
    method AddExternalSlab(base: nat, n: nat)
      requires n > 0
      modifies this`head, this`external, mem`words
      ensures (View(), mem.words) == Link(old(View()), old(mem.words), base, n)
      ensures external == old(external) + [Region(base, n)]
    {
      var b: nat := base;
      for i := 0 to n
        invariant LinkBlocks(mem.words, b, n - i, size, head) == LinkBlocks(old(mem.words), base, n, size, head)
        invariant head == old(head) && external == old(external)
      {
        mem.words := mem.words[b := if i + 1 < n then b + size else head];
        b := b + size;
      }
      head := base;
      external := external + [Region(base, n)];
      assert View().regions == old(View()).regions + [Region(base, n)];
    }

    /** Pushes a block. */
    method Deallocate(p: nat)
      modifies this`head, this`live, mem`words
      ensures (View(), mem.words) == Push(old(View()), old(mem.words), p)
      ensures live == old(live) - {p}
    {
      mem.words := mem.words[p := head];
      head := p;
      live := live - {p};
    }

    /** The byte lies in a region the pool manages. */
    method InRegions(p: nat) returns (r: bool)
      ensures r <==> Contains(View(), p)
    {
      ghost var regions := View().regions;
      SpanIsProduct(perSlab, size);
      assert regions[0] == Region(slab, perSlab);
      if slab <= p < slab + perSlab * size {
        assert InRegion(regions[0], size, p);
        return true;
      }
      for i := 0 to |external|
        invariant forall j :: 0 <= j <= i ==> !InRegion(regions[j], size, p)
      {
        var s := external[i];
        SpanIsProduct(s.count, size);
        assert regions[i + 1] == s;
        if s.base <= p < s.base + s.count * size {
          assert InRegion(regions[i + 1], size, p);
          return true;
        }
      }
      r := false;
    }

    /** Frees the block containing `p`: first region hit, rounded down to a block start. */
    method DeallocateContaining(p: nat)
      requires size > 0 && Contains(View(), p)
      modifies this`head, this`live, mem`words
      ensures (View(), mem.words) == Push(old(View()), old(mem.words), ContainingBlock(old(View()), p))
      ensures live == old(live) - {ContainingBlock(old(View()), p)}
    {
      var block := 0;
      ghost var v := View();
      assert FirstHit(v, p, 0) < |v.regions|;
      SpanIsProduct(perSlab, size);
      assert v.regions[0] == Region(slab, perSlab);
      if slab <= p < slab + perSlab * size {
        assert FirstHit(v, p, 0) == 0;
        block := BlockStart(slab, size, p);
      } else {
        assert FirstHit(v, p, 0) == FirstHit(v, p, 1);
        var i := 0;
        while i < |external|
          invariant i <= |external|
          invariant FirstHit(v, p, 0) == FirstHit(v, p, i + 1)
          invariant block == 0
          invariant View() == v && mem.words == old(mem.words) && live == old(live)
        {
          var s := external[i];
          SpanIsProduct(s.count, size);
          assert v.regions[i + 1] == s;
          if s.base <= p < s.base + s.count * size {
            block := BlockStart(s.base, size, p);
            assert block == ContainingBlock(v, p);
            break;
          }
          i := i + 1;
        }
      }
      assert block == ContainingBlock(v, p) && View() == v && mem.words == old(mem.words);
      Deallocate(block);
    }

    /** Walks the list: the number of blocks that are not live. */
    method FreeCount(ghost live: set<nat>) returns (n: nat)
      requires PoolOk(View(), mem.words, live)
      ensures n + |live| == TotalBlocks(View())
    {
      n := 0;
      var p := head;
      ghost var rest := Blocks(View()) - live;
      while p != 0
        invariant ListOf(mem.words, p, rest)
        invariant n + |rest| == |Blocks(View()) - live|
        decreases |rest|
      {
        rest := rest - {p};
        p := mem.words[p];
        n := n + 1;
      }
      Pools.FreeCount(View(), mem.words, live);
    }

    /** The number of blocks managed, slab and borrowed regions together. */
    method CountTotal() returns (n: nat)
      ensures n == TotalBlocks(View())
    {
      n := perSlab;
      for i := 0 to |external|
        invariant n == SumCounts(View().regions, i + 1)
      {
        n := n + external[i].count;
      }
    }

    /** `p` is the start of a managed block. */
    method OwnsBlock(p: nat) returns (r: bool)
      requires size > 0
      ensures r <==> p in Blocks(View())
    {
      ghost var v := View();
      InRegionBlocks(v.regions, size, |v.regions|, p);
      SpanIsProduct(perSlab, size);
      BlockTest(slab, perSlab, size, p);
      assert v.regions[0] == Region(slab, perSlab);
      if slab <= p < slab + perSlab * size && (p - slab) % size == 0 {
        return true;
      }
      for i := 0 to |external|
        invariant forall j :: 0 <= j <= i ==> p !in BlockSet(v.regions[j].base, v.regions[j].count, size)
      {
        var s := external[i];
        SpanIsProduct(s.count, size);
        BlockTest(s.base, s.count, size, p);
        assert v.regions[i + 1] == s;
        if s.base <= p < s.base + s.count * size && (p - s.base) % size == 0 {
          return true;
        }
      }
      r := false;
    }
  }
}
