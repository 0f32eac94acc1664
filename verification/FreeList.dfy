/** The intrusive free list: free blocks of one size, threaded through the words of a
    memory that is shared with everybody else. */
module FreeList {

  /** The contents of memory: word address to word.  Words never written are absent.
      Address 0 is the null pointer. */
  type Words = map<nat, nat>

  function Load(m: Words, a: nat): nat {
    if a in m then m[a] else 0
  }

  /** The two memories agree on the words at the addresses of `s`. */
  ghost predicate Agree(m: Words, m': Words, s: set<nat>) {
    forall a :: a in s && a in m ==> a in m' && m'[a] == m[a]
  }

  /** Following the in-memory next words from `h` ends at null, having visited exactly the
      addresses of `s`, each of them once, and reading only words that were written. */
  ghost predicate ListOf(m: Words, h: nat, s: set<nat>)
    decreases s
  {
    if h == 0 then s == {}
    else h in s && h in m && ListOf(m, m[h], s - {h})
  }

  lemma {:induction false} ListFrame(m: Words, m': Words, h: nat, s: set<nat>)
    requires ListOf(m, h, s) && Agree(m, m', s)
    ensures ListOf(m', h, s)
    decreases s
  {
    if h != 0 {
      ListFrame(m, m', m[h], s - {h});
    }
  }

  /** Independent reading of ListOf: the sequence of addresses visited from `h`. */
  ghost predicate Linked(m: Words, h: nat, fs: seq<nat>)
    decreases fs
  {
    if fs == [] then h == 0
    else h == fs[0] && h != 0 && h in m && Linked(m, m[h], fs[1..])
  }

  ghost predicate NoRepeats(fs: seq<nat>) {
    forall i, j :: 0 <= i < j < |fs| ==> fs[i] != fs[j]
  }

  ghost function Elements(fs: seq<nat>): set<nat> {
    set i | 0 <= i < |fs| :: fs[i]
  }

  /** The walk a list predicate stands for. */
  lemma {:induction false} WalkOf(m: Words, h: nat, s: set<nat>) returns (fs: seq<nat>)
    requires ListOf(m, h, s)
    ensures Linked(m, h, fs) && NoRepeats(fs) && Elements(fs) == s && |fs| == |s|
    decreases s
  {
    if h == 0 {
      fs := [];
    } else {
      var rest := WalkOf(m, m[h], s - {h});
      fs := [h] + rest;
      assert fs[1..] == rest;
      forall a | a in s
        ensures a in Elements(fs)
      {
        if a == h {
          assert fs[0] == a;
        } else {
          assert a in Elements(rest);
          var i :| 0 <= i < |rest| && rest[i] == a;
          assert fs[i + 1] == a;
        }
      }
      forall i | 0 <= i < |fs|
        ensures fs[i] in s && (i > 0 ==> fs[i] != h)
      {
        if i > 0 {
          assert fs[i] == rest[i - 1] && rest[i - 1] in Elements(rest);
        }
      }
    }
  }

  /** ListOf holds exactly when the walk from `h` reaches null, never meets an address
      twice, and meets exactly the addresses of `s`. */
  lemma {:induction false} ListIsWalk(m: Words, h: nat, s: set<nat>)
    ensures ListOf(m, h, s) <==> exists fs :: Linked(m, h, fs) && NoRepeats(fs) && Elements(fs) == s
  {
    if ListOf(m, h, s) {
      var fs := WalkOf(m, h, s);
    }
    if fs :| Linked(m, h, fs) && NoRepeats(fs) && Elements(fs) == s {
      WalkIsList(m, h, fs);
    }
  }

  lemma {:induction false} WalkIsList(m: Words, h: nat, fs: seq<nat>)
    requires Linked(m, h, fs) && NoRepeats(fs)
    ensures ListOf(m, h, Elements(fs))
    decreases fs
  {
    if fs != [] {
      WalkIsList(m, m[h], fs[1..]);
      forall a | a in Elements(fs) && a != h
        ensures a in Elements(fs[1..])
      {
        var i :| 0 <= i < |fs| && fs[i] == a;
        assert fs[1..][i - 1] == a;
      }
      forall a | a in Elements(fs[1..])
        ensures a in Elements(fs) && a != h
      {
        var i :| 0 <= i < |fs[1..]| && fs[1..][i] == a;
        assert fs[i + 1] == a && fs[0] == h;
      }
      assert fs[0] in Elements(fs);
      assert Elements(fs[1..]) == Elements(fs) - {h};
    }
  }

  // ---------------------------------------------------------------------------
  // Regions of equal blocks

  /** `n` consecutive blocks of `size` bytes: the number of bytes. */
  function Span(n: nat, size: nat): nat
    decreases n, size
  {
    if n == 0 then 0 else size + Span(n - 1, size)
  }

  lemma {:induction false} SpanIsProduct(n: nat, size: nat)
    ensures Span(n, size) == n * size
  {
    if n > 0 {
      SpanIsProduct(n - 1, size);
      assert n * size == (n - 1) * size + size;
    }
  }

  /** The start addresses of `n` consecutive blocks of `size` bytes from `b`. */
  function BlockSet(b: nat, n: nat, size: nat): set<nat>
    decreases n, b, size
  {
    if n == 0 then {} else {b} + BlockSet(b + size, n - 1, size)
  }

  lemma {:induction false} BlockInside(b: nat, n: nat, size: nat, a: nat)
    requires a in BlockSet(b, n, size)
    ensures b <= a && a + size <= b + Span(n, size)
    decreases n
  {
    if a != b {
      BlockInside(b + size, n - 1, size, a);
    }
  }

  /** Distinct blocks of one region do not overlap. */
  lemma {:induction false} BlocksApart(b: nat, n: nat, size: nat, x: nat, y: nat)
    requires x in BlockSet(b, n, size) && y in BlockSet(b, n, size) && x < y
    ensures x + size <= y
    decreases n
  {
    if x == b {
      BlockInside(b + size, n - 1, size, y);
    } else {
      if y == b {
        BlockInside(b, n, size, x);
      } else {
        BlocksApart(b + size, n - 1, size, x, y);
      }
    }
  }

  lemma {:induction false} BlockCount(b: nat, n: nat, size: nat)
    requires size > 0
    ensures |BlockSet(b, n, size)| == n
    decreases n
  {
    if n > 0 {
      BlockCount(b + size, n - 1, size);
      if b in BlockSet(b + size, n - 1, size) {
        BlockInside(b + size, n - 1, size, b);
      }
    }
  }

  /** A granule dividing the base and the block size divides every block address. */
  lemma {:induction false} BlocksAligned(b: nat, n: nat, size: nat, g: nat, a: nat)
    requires g > 0 && b % g == 0 && size % g == 0 && a in BlockSet(b, n, size)
    ensures a % g == 0
    decreases n
  {
    if a != b {
      ModAdd(b, size, g);
      BlocksAligned(b + size, n - 1, size, g, a);
    }
  }

  lemma ModAdd(x: nat, y: nat, g: nat)
    requires g > 0 && x % g == 0 && y % g == 0
    ensures (x + y) % g == 0
  {
    var p, q := x / g, y / g;
    assert x + y == g * (p + q);
    MultipleMod(g, p + q);
  }

  lemma {:induction false} MultipleMod(g: nat, q: nat)
    requires g > 0
    ensures (g * q) % g == 0 && (g * q) / g == q
  {
    if q > 0 {
      MultipleMod(g, q - 1);
      assert g * q == g * (q - 1) + g;
      AddDiv(g * (q - 1), g);
    }
  }

  lemma AddDiv(x: nat, g: nat)
    requires g > 0
    ensures (x + g) / g == x / g + 1 && (x + g) % g == x % g
  {
    var q := x / g;
    assert x + g == g * (q + 1) + x % g;
    var d := (x + g) / g - (q + 1);
    assert g * d == x % g - (x + g) % g;
    assert d >= 1 ==> g * d >= g;
    assert d <= -1 ==> g * d + g <= 0;
  }

  /** The start of the block of a region at `b` that contains the byte `a`. */
  function BlockStart(b: nat, size: nat, a: nat): nat
    requires size > 0 && b <= a
  {
    b + ((a - b) / size) * size
  }

  /** Rounding an interior pointer down to a block start finds a block of the region, and
      it is the block whose extent holds the pointer. */
  lemma {:induction false} BlockStartIsBlock(b: nat, n: nat, size: nat, a: nat)
    requires size > 0 && b <= a < b + Span(n, size)
    ensures BlockStart(b, size, a) in BlockSet(b, n, size)
    ensures BlockStart(b, size, a) <= a < BlockStart(b, size, a) + size
    decreases n
  {
    BlockStartStep(b, size, a);
    if a >= b + size {
      BlockStartIsBlock(b + size, n - 1, size, a);
    }
  }

  lemma BlockStartStep(b: nat, size: nat, a: nat)
    requires size > 0 && b <= a
    ensures BlockStart(b, size, a) == if a < b + size then b else BlockStart(b + size, size, a)
  {
    if a < b + size {
      SmallDiv(a - b, size);
    } else {
      var x := a - b - size;
      AddDiv(x, size);
      assert (x / size + 1) * size == (x / size) * size + size;
    }
  }

  lemma SmallDiv(x: nat, g: nat)
    requires x < g
    ensures x / g == 0 && x % g == x
  {
  }

  /** Both directions of the block test of the source: inside the region at a multiple of the size. */
  lemma BlockTest(b: nat, n: nat, size: nat, a: nat)
    requires size > 0
    ensures a in BlockSet(b, n, size) <==> b <= a < b + Span(n, size) && (a - b) % size == 0
  {
    if a in BlockSet(b, n, size) {
      BlockInside(b, n, size, a);
    }
    if b <= a < b + Span(n, size) {
      BlockStartIsBlock(b, n, size, a);
      var s := BlockStart(b, size, a);
      assert a == s + (a - b) % size;
      if a in BlockSet(b, n, size) && s < a {
        BlocksApart(b, n, size, s, a);
      }
    }
  }

  // ---------------------------------------------------------------------------
  // Linking a run of blocks

  /** Memory after linking `n` blocks from `b`: each points at the next, the last at `tail`. */
  function LinkBlocks(m: Words, b: nat, n: nat, size: nat, tail: nat): Words
    decreases n, b, size
  {
    if n == 0 then m
    else LinkBlocks(m[b := if n > 1 then b + size else tail], b + size, n - 1, size, tail)
  }

  /** Linking writes block starts of the run and nothing else. */
  lemma {:induction false} LinkFrame(m: Words, b: nat, n: nat, size: nat, tail: nat, a: nat)
    requires a !in BlockSet(b, n, size)
    ensures var m' := LinkBlocks(m, b, n, size, tail);
            (a in m' <==> a in m) && (a in m ==> m'[a] == m[a])
    decreases n
  {
    if n > 0 {
      LinkFrame(m[b := if n > 1 then b + size else tail], b + size, n - 1, size, tail, a);
    }
  }

  /** Linking a run in front of a list gives the list of the run followed by that list. */
  lemma {:induction false} LinkedRun(m: Words, b: nat, n: nat, size: nat, tail: nat, s: set<nat>)
    requires n > 0 && size > 0 && b > 0
    requires ListOf(m, tail, s) && s !! BlockSet(b, n, size)
    ensures ListOf(LinkBlocks(m, b, n, size, tail), b, BlockSet(b, n, size) + s)
    decreases n
  {
    var m1 := m[b := if n > 1 then b + size else tail];
    var rest := BlockSet(b + size, n - 1, size);
    if b in rest {
      BlockInside(b + size, n - 1, size, b);
    }
    LinkFrame(m1, b + size, n - 1, size, tail, b);
    assert b in BlockSet(b, n, size);
    assert BlockSet(b, n, size) + s - {b} == rest + s;
    ListFrame(m, m1, tail, s);
    if n > 1 {
      LinkedRun(m1, b + size, n - 1, size, tail, s);
    } else {
      assert rest + s == s;
    }
  }
}
