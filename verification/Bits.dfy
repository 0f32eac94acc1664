/** Machine-word arithmetic as the allocator uses it: 64-bit words, wrap-around,
    and the mask idiom `x & ~(a - 1)` for a power of two `a`. */
module Bits {

  /** Number of values of a size_t or uintptr_t. */
  const WORD_MOD: nat := 0x1_0000_0000_0000_0000

  function Pow2(k: nat): (r: nat)
    ensures r >= 1
  {
    if k == 0 then 1 else 2 * Pow2(k - 1)
  }

  /** Reduces an integer to a machine word: x modulo 2^64. */
  function Wrap(x: int): (r: nat)
    ensures r < WORD_MOD
    decreases if x < 0 then WORD_MOD - x else x
  {
    if x < 0 then Wrap(x + WORD_MOD)
    else if x < WORD_MOD then x
    else Wrap(x - WORD_MOD)
  }

  /** Bitwise `x & y`, bit by bit. */
  function And(x: nat, y: nat): nat {
    if x == 0 then 0
    else (if x % 2 == 1 && y % 2 == 1 then 1 else 0) + 2 * And(x / 2, y / 2)
  }

  /** Bitwise `~x` of a machine word. */
  function Not(x: nat): nat
    requires x < WORD_MOD
  {
    WORD_MOD - 1 - x
  }

  /** `x & ~(a - 1)` on machine words. */
  function MaskDown(x: nat, a: nat): nat
    requires 0 < a <= WORD_MOD
  {
    And(x, Not(a - 1))
  }

  /** `(cur + a - 1) & ~(a - 1)` with the addition on machine words. */
  function AlignUp(cur: nat, a: nat): nat
    requires 0 < a <= WORD_MOD
  {
    MaskDown(Wrap(cur + a - 1), a)
  }

  ghost predicate IsPow2(a: nat) {
    a < WORD_MOD && exists k: nat :: a == Pow2(k)
  }

  lemma TwiceProduct(x: nat, y: nat)
    ensures (2 * x) * y == 2 * (x * y)
  {
  }

  lemma {:induction false} Pow2Split(j: nat, k: nat)
    requires j <= k
    ensures Pow2(k) == Pow2(j) * Pow2(k - j)
  {
    if j > 0 {
      Pow2Split(j - 1, k - 1);
      TwiceProduct(Pow2(j - 1), Pow2(k - j));
      assert Pow2(k) == 2 * Pow2(k - 1) && Pow2(j) == 2 * Pow2(j - 1);
    } else {
      assert Pow2(0) == 1;
    }
  }

  lemma {:induction false} Pow2Mono(j: nat, k: nat)
    requires j <= k
    ensures Pow2(j) <= Pow2(k)
  {
    if j < k {
      Pow2Mono(j, k - 1);
    }
  }

  lemma Pow2Square(j: nat) returns (k: nat)
    ensures Pow2(k) == Pow2(j) * Pow2(j)
  {
    k := 2 * j;
    Pow2Split(j, k);
  }

  /** The word size is a power of two; the exponent is returned so that it stays symbolic. */
  lemma WordIsPow2() returns (w: nat)
    ensures WORD_MOD == Pow2(w)
  {
    assert Pow2(4) == 16;
    w := Pow2Square(4);
    w := Pow2Square(w);
    w := Pow2Square(w);
    w := Pow2Square(w);
  }

  lemma MulMono(d: nat, x: int, y: int)
    ensures x <= y ==> d * x <= d * y
  {
    if x <= y {
      assert d * (y - x) >= 0;
    }
  }

  lemma DivModUnique(x: int, d: nat, q: int, r: nat)
    requires r < d
    requires x == d * q + r
    ensures x / d == q && x % d == r
  {
    var q', r' := x / d, x % d;
    assert d * (q - q') == r' - r;
    MulMono(d, 1, q - q');
    MulMono(d, q - q', -1);
  }

  /** `x % d`, named so that a proof can treat it as a plain number. */
  function Rem(x: int, d: nat): (r: nat)
    requires d > 0
    ensures r < d
  {
    x % d
  }

  /** The remainder modulo d = 2m, from the low bit and the rest. */
  lemma RemDouble(x: nat, m: nat, d: nat)
    requires m > 0 && d == 2 * m
    ensures Rem(x, d) == 2 * Rem(x / 2, m) + x % 2
  {
    var q, r := (x / 2) / m, (x / 2) % m;
    assert x == 2 * (m * q + r) + x % 2;
    assert 2 * (m * q) == d * q;
    DivModUnique(x, d, q, 2 * r + x % 2);
  }

  lemma {:induction false} AndOnes(w: nat, x: nat)
    requires x < Pow2(w)
    ensures And(x, Pow2(w) - 1) == x
  {
    if w > 0 {
      AndOnes(w - 1, x / 2);
      assert (2 * Pow2(w - 1) - 1) % 2 == 1 && (2 * Pow2(w - 1) - 1) / 2 == Pow2(w - 1) - 1;
    }
  }

  lemma AndDouble(x: nat, y: nat, z: nat)
    requires z == 2 * y
    ensures And(x, z) == 2 * And(x / 2, y)
  {
    assert z % 2 == 0 && z / 2 == y;
  }

  /** Masking with 2^w - 2^k clears the low k bits of a w-bit number: it rounds down. */
  lemma {:induction false} MaskRoundsDown(w: nat, k: nat, x: nat)
    requires k <= w && x < Pow2(w)
    ensures Pow2(k) <= Pow2(w)
    ensures And(x, Pow2(w) - Pow2(k)) == x - Rem(x, Pow2(k))
  {
    hide Rem;
    Pow2Mono(k, w);
    if k == 0 {
      AndOnes(w, x);
    } else {
      var m, n := Pow2(k - 1), Pow2(w - 1);
      Pow2Mono(k - 1, w - 1);
      MaskRoundsDown(w - 1, k - 1, x / 2);
      AndDouble(x, n - m, Pow2(w) - Pow2(k));
      RemDouble(x, m, Pow2(k));
    }
  }

  lemma PowDividesWord(a: nat)
    requires IsPow2(a)
    ensures a > 0 && WORD_MOD % a == 0
  {
    var k :| a == Pow2(k);
    var w := WordIsPow2();
    if w < k {
      Pow2Mono(w, k);
    }
    Pow2Split(k, w);
    DivModUnique(WORD_MOD, a, Pow2(w - k), 0);
  }

  /** `x & ~(a - 1)` is the greatest multiple of `a` not above `x`. */
  lemma MaskDownIsFloor(x: nat, a: nat)
    requires IsPow2(a) && x < WORD_MOD
    ensures a > 0 && MaskDown(x, a) == x - x % a
    ensures MaskDown(x, a) % a == 0 && MaskDown(x, a) <= x < MaskDown(x, a) + a
  {
    var k :| a == Pow2(k);
    var w := WordIsPow2();
    if w < k {
      Pow2Mono(w, k);
    }
    MaskRoundsDown(w, k, x);
    DivModUnique(x - x % a, a, x / a, 0);
  }

  /** The least multiple of `a` not below `x`, as a mathematical integer. */
  function CeilMultiple(x: nat, a: nat): nat
    requires a > 0
  {
    (x + a - 1) - (x + a - 1) % a
  }

  /** The ceiling is some multiple, less than one step away. */
  lemma CeilNear(x: nat, a: nat) returns (q: nat)
    requires a > 0
    ensures CeilMultiple(x, a) == a * q && x <= CeilMultiple(x, a) < x + a
  {
    CeilIsLeast(x, a);
    q := CeilMultiple(x, a) / a;
  }

  lemma CeilBelow(x: nat, a: nat, q: nat)
    requires a > 0 && x <= a * q
    ensures CeilMultiple(x, a) <= a * q
  {
    CeilIsLeast(x, a);
    DivModUnique(a * q, a, q, 0);
  }

  lemma CeilIsLeast(x: nat, a: nat)
    requires a > 0
    ensures CeilMultiple(x, a) % a == 0
    ensures x <= CeilMultiple(x, a) < x + a
    ensures forall y: nat :: y % a == 0 && x <= y ==> CeilMultiple(x, a) <= y
  {
    var q := (x + a - 1) / a;
    var c := CeilMultiple(x, a);
    assert c == a * q;
    DivModUnique(c, a, q, 0);
    forall y: nat | y % a == 0 && x <= y
      ensures c <= y
    {
      var z := y / a;
      assert y == a * z;
      MulMono(a, q, z);
      MulMono(a, z + 1, q);
      assert a * (z + 1) == y + a;
    }
  }

  /** When rounding up wraps, the ceiling is exactly 2^64. */
  lemma WrappedCeil(r: nat, a: nat)
    requires IsPow2(a) && r < a
    ensures r - r % a == 0 && (WORD_MOD + r) - (WORD_MOD + r) % a == WORD_MOD
  {
    PowDividesWord(a);
    DivModUnique(r, a, 0, r);
    DivModUnique(WORD_MOD + r, a, WORD_MOD / a, r);
  }

  lemma MaskDownFloor(s: nat, x: nat, a: nat)
    requires IsPow2(a) && x < WORD_MOD && x == Wrap(s)
    ensures a > 0 && MaskDown(Wrap(s), a) == x - x % a
  {
    MaskDownIsFloor(x, a);
  }

  lemma AlignUpValue(cur: nat, a: nat)
    requires IsPow2(a) && cur < WORD_MOD
    ensures a > 0
    ensures AlignUp(cur, a) == (if cur + a - 1 < WORD_MOD then CeilMultiple(cur, a) else 0)
    ensures cur + a - 1 >= WORD_MOD ==> CeilMultiple(cur, a) == WORD_MOD
  {
    var s := cur + a - 1;
    if s < WORD_MOD {
      MaskDownFloor(s, s, a);
    } else {
      MaskDownFloor(s, s - WORD_MOD, a);
      WrappedCeil(s - WORD_MOD, a);
    }
  }

  /** The wrapped bit trick yields the true ceiling, except that the ceiling 2^64 is
      represented by 0.  Either way the padding, taken on machine words, is the true one. */
  lemma AlignUpIsCeil(cur: nat, a: nat)
    requires IsPow2(a) && cur < WORD_MOD
    ensures a > 0
    ensures CeilMultiple(cur, a) <= WORD_MOD
    ensures AlignUp(cur, a) == (if CeilMultiple(cur, a) == WORD_MOD then 0 else CeilMultiple(cur, a))
    ensures Wrap(AlignUp(cur, a) - cur) == CeilMultiple(cur, a) - cur < a
  {
    AlignUpValue(cur, a);
    CeilIsLeast(cur, a);
    if cur + a - 1 < WORD_MOD {
      assert CeilMultiple(cur, a) <= cur + a - 1;
    }
  }
}
