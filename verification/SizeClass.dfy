/** The size-class table and the routing of a request to a class. */
module SizeClasses {
  import opened FreeList

  const SIZE_CLASSES: seq<nat> := [16, 32, 64, 128, 256, 512, 1024]
  const NUM_CLASSES: nat := 7
  const MAX_SMALL: nat := 1024

  /** Blocks of a constructor slab, and the cap on blocks linked from one chunk. */
  const BLOCKS_PER_SLAB: nat := 256
  /** A chunk, and the offset of its body behind the header. */
  const CHUNK_SIZE: nat := 65536
  const HEADER_BYTES: nat := 64

  function ClassSize(k: nat): (s: nat)
    requires k < NUM_CLASSES
    ensures 16 <= s <= MAX_SMALL
  {
    SIZE_CLASSES[k]
  }

  /** The first class from `i` on that holds `n` bytes; NUM_CLASSES when there is none. */
  function FirstFit(n: nat, i: nat): (k: nat)
    requires i <= NUM_CLASSES
    ensures i <= k <= NUM_CLASSES
    decreases NUM_CLASSES - i
  {
    if i == NUM_CLASSES || ClassSize(i) >= n then i else FirstFit(n, i + 1)
  }

  function ClassIndex(n: nat): (k: nat)
    ensures k <= NUM_CLASSES
  {
    FirstFit(n, 0)
  }

  /** Block size serving a request; 0 stands for the large path. */
  function BlockFor(n: nat): nat {
    if n > MAX_SMALL then 0 else (FitIsTight(n); ClassSize(ClassIndex(n)))
  }

  /** The table scan of the source. */
  method SizeClassIndex(n: nat) returns (k: nat)
    ensures k == ClassIndex(n)
    ensures k < NUM_CLASSES <==> n <= MAX_SMALL
    ensures k < NUM_CLASSES ==> n <= SIZE_CLASSES[k]
    ensures forall j :: 0 <= j < k ==> SIZE_CLASSES[j] < n
  {
    if n == 0 {
      return 0;
    }
    k := 0;
    while k < NUM_CLASSES
      invariant k <= NUM_CLASSES
      invariant FirstFit(n, 0) == FirstFit(n, k)
      invariant forall j :: 0 <= j < k ==> SIZE_CLASSES[j] < n
    {
      if SIZE_CLASSES[k] >= n {
        return;
      }
      k := k + 1;
    }
  }

  /** A small request gets the least class that holds it; above the smallest class less than
      half of the block is waste, and from 9 bytes on the block is less than twice the request. */
  lemma FitIsTight(n: nat)
    requires n <= MAX_SMALL
    ensures ClassIndex(n) < NUM_CLASSES
    ensures var s := ClassSize(ClassIndex(n));
            && n <= s
            && (forall k :: 0 <= k < NUM_CLASSES && n <= ClassSize(k) ==> s <= ClassSize(k))
            && (n >= 9 ==> s < 2 * n)
  {
    assert FirstFit(n, 0) == if 16 >= n then 0 else FirstFit(n, 1);
    assert FirstFit(n, 1) == if 32 >= n then 1 else FirstFit(n, 2);
    assert FirstFit(n, 2) == if 64 >= n then 2 else FirstFit(n, 3);
    assert FirstFit(n, 3) == if 128 >= n then 3 else FirstFit(n, 4);
    assert FirstFit(n, 4) == if 256 >= n then 4 else FirstFit(n, 5);
    assert FirstFit(n, 5) == if 512 >= n then 5 else FirstFit(n, 6);
    assert FirstFit(n, 6) == if 1024 >= n then 6 else 7;
  }

  /** A class size routes back to its own class: freeing by class finds the right pool. */
  lemma ClassRoundTrip(k: nat)
    requires k < NUM_CLASSES
    ensures ClassSize(k) <= MAX_SMALL && ClassIndex(ClassSize(k)) == k
  {
    FitIsTight(ClassSize(k));
  }

  function BlocksPerChunk(size: nat): nat
    requires size > 0
  {
    (CHUNK_SIZE - HEADER_BYTES) / size
  }

  /** Blocks linked by one refill of class `k`. */
  function RefillCount(k: nat): nat
    requires k < NUM_CLASSES
  {
    var fit := BlocksPerChunk(ClassSize(k));
    if BLOCKS_PER_SLAB < fit then BLOCKS_PER_SLAB else fit
  }

  /** The granule every block of the class is aligned to. */
  function Granule(size: nat): nat {
    if size < 64 then size else 64
  }

  /** `m` blocks of `size` bytes are the most that a refill may link: at most 256, inside the 65472 bytes
      of a chunk's body, and one more would break one of these bounds. */
  predicate LargestRefill(m: nat, size: nat) {
    && 0 < m <= 256 && m * size <= 65472
    && (m == 256 || (m + 1) * size > 65472)
  }

  /** A refill links at least one block, stays inside the body of the chunk, and is the largest that
      does so within the cap. */
  lemma RefillFits(k: nat)
    requires k < NUM_CLASSES
    ensures 0 < RefillCount(k) <= 256
    ensures Span(RefillCount(k), ClassSize(k)) <= CHUNK_SIZE - HEADER_BYTES
    ensures RefillCount(k) == 256 || Span(RefillCount(k) + 1, ClassSize(k)) > 65472
    ensures forall m :: LargestRefill(m, SIZE_CLASSES[k]) <==> m == RefillCount(k)
  {
    var c, size := RefillCount(k), ClassSize(k);
    RefillIsLargest(k);
    hide RefillCount;
    SpanIsProduct(c, size);
    SpanIsProduct(c + 1, size);
    forall m | LargestRefill(m, SIZE_CLASSES[k])
      ensures m == c
    {
      OneLargest(m, c, SIZE_CLASSES[k]);
    }
  }

  lemma RefillIsLargest(k: nat)
    requires k < NUM_CLASSES
    ensures LargestRefill(RefillCount(k), SIZE_CLASSES[k])
  {
    var size := ClassSize(k);
    var fit := BlocksPerChunk(size);
    QuotientBounds(65472, size);
    hide BlocksPerChunk;
    assert RefillCount(k) == if 256 < fit then 256 else fit;
    if 256 < fit {
      MulGrows(256, fit, size);
    }
    assert fit > 0;
  }

  lemma QuotientBounds(x: nat, a: nat)
    requires a > 0
    ensures (x / a) * a <= x < (x / a + 1) * a
  {
    assert (x / a + 1) * a == (x / a) * a + a;
  }

  lemma OneLargest(m: nat, n: nat, size: nat)
    requires LargestRefill(m, size) && LargestRefill(n, size)
    ensures m == n
  {
    if m < n {
      MulGrows(m + 1, n, size);
    } else if n < m {
      MulGrows(n + 1, m, size);
    }
  }

  lemma MulGrows(x: nat, y: nat, size: nat)
    requires x <= y
    ensures x * size <= y * size
  {
    assert y * size == x * size + (y - x) * size;
  }

  lemma GranuleFacts(k: nat)
    requires k < NUM_CLASSES
    ensures var g := Granule(ClassSize(k)); g >= 16 && ClassSize(k) % g == 0 && 64 % g == 0 && g % 16 == 0
  {
  }
}
