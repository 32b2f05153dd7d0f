/** Powers of two, alignment and single-bit operations on page indices and addresses.
    Everything is defined by halving, so that the proofs stay linear. */
module Bits {

  function Pow2(k: nat): (r: nat)
    ensures r >= 1
  {
    if k == 0 then 1 else 2 * Pow2(k - 1)
  }

  /** The low `k` bits of `x` are zero. */
  predicate Aligned(x: nat, k: nat) {
    k == 0 || (x % 2 == 0 && Aligned(x / 2, k - 1))
  }

  /** `x ^ (1 << k)` */
  function FlipBit(x: nat, k: nat): nat {
    if k == 0 then (if x % 2 == 0 then x + 1 else x - 1) else 2 * FlipBit(x / 2, k - 1) + x % 2
  }

  /** `x & ~(1 << k)` */
  function ClearBit(x: nat, k: nat): nat {
    if k == 0 then x - x % 2 else 2 * ClearBit(x / 2, k - 1) + x % 2
  }

  lemma {:induction false} Pow2Next(k: nat)
    ensures Pow2(0) == 1 && Pow2(k + 1) == 2 * Pow2(k)
  {
  }

  lemma {:induction false} Pow2Mono(a: nat, b: nat)
    requires a <= b
    ensures Pow2(a) <= Pow2(b)
  {
    if a < b { Pow2Mono(a, b - 1); }
  }

  lemma Reassociate(p: int, q: int)
    ensures 2 * (p * q) == (2 * p) * q
  {
  }

  lemma {:induction false} Pow2Add(a: nat, b: nat)
    ensures Pow2(a + b) == Pow2(a) * Pow2(b)
  {
    if a > 0 {
      Pow2Add(a - 1, b);
      assert Pow2(a + b) == 2 * Pow2(a - 1 + b) && Pow2(a) == 2 * Pow2(a - 1);
      hide Pow2;
      Reassociate(Pow2(a - 1), Pow2(b));
    }
  }

  lemma {:induction false} AlignedWeaken(x: nat, k: nat, m: nat)
    requires k <= m && Aligned(x, m)
    ensures Aligned(x, k)
  {
    if k > 0 { AlignedWeaken(x / 2, k - 1, m - 1); }
  }

  lemma {:induction false} AlignedAdd(x: nat, k: nat)
    requires Aligned(x, k)
    ensures Aligned(x + Pow2(k), k)
  {
    if k > 0 { AlignedAdd(x / 2, k - 1); }
  }

  /** An aligned block that starts inside a larger aligned block lies inside it. */
  lemma {:induction false} Nested(j: nat, m: nat, x: nat, k: nat)
    requires k <= m && Aligned(j, m) && Aligned(x, k) && j <= x < j + Pow2(m)
    ensures x + Pow2(k) <= j + Pow2(m)
  {
    if k > 0 { Nested(j / 2, m - 1, x / 2, k - 1); }
  }

  /** An aligned block that starts below an aligned bound ends at or below it. */
  lemma {:induction false} BelowBound(bound: nat, m: nat, x: nat, k: nat)
    requires k <= m && Aligned(bound, m) && Aligned(x, k) && x < bound
    ensures x + Pow2(k) <= bound
  {
    if k > 0 { BelowBound(bound / 2, m - 1, x / 2, k - 1); }
  }

  /** Two points of one aligned block, one of them aligned as well, coincide. */
  lemma {:induction false} SameStart(j: nat, x: nat, k: nat)
    requires Aligned(j, k) && Aligned(x, k) && j <= x < j + Pow2(k)
    ensures j == x
  {
    if k > 0 { SameStart(j / 2, x / 2, k - 1); }
  }

  /** All operations on `2 * y` are those on `y`, one bit further up. */
  lemma {:induction false} Doubled(y: nat, k: nat)
    ensures FlipBit(2 * y, k + 1) == 2 * FlipBit(y, k)
    ensures ClearBit(2 * y, k + 1) == 2 * ClearBit(y, k)
    ensures Aligned(2 * y, k + 1) <==> Aligned(y, k)
    ensures Pow2(k + 1) == 2 * Pow2(k)
  {
    assert (2 * y) / 2 == y && (2 * y) % 2 == 0;
  }

  lemma {:induction false} AlignedIsDoubled(x: nat, k: nat) returns (y: nat)
    requires k > 0 && Aligned(x, k)
    ensures x == 2 * y && Aligned(y, k - 1)
  {
    y := x / 2;
  }

  /** The lowest bit. */
  lemma {:induction false} LowestBit(x: nat)
    ensures Pow2(0) == 1 && Aligned(x, 0) && Aligned(ClearBit(x, 0), 1) && FlipBit(FlipBit(x, 0), 0) == x
    ensures (ClearBit(x, 0) == x && FlipBit(x, 0) == x + 1) || (ClearBit(x, 0) == FlipBit(x, 0) == x - 1)
    ensures Aligned(x, 1) ==> ClearBit(x, 0) == x
  {
  }

  /** What the two buddy-index computations mean for an aligned index. */
  lemma {:induction false} Buddies(x: nat, k: nat)
    requires Aligned(x, k)
    ensures var b, c := FlipBit(x, k), ClearBit(x, k);
            && Aligned(b, k) && Aligned(c, k + 1) && FlipBit(b, k) == x
            && ((c == x && b == x + Pow2(k)) || (c == b && x == b + Pow2(k)))
  {
    hide Aligned, FlipBit, ClearBit, Pow2;
    if k == 0 {
      LowestBit(x);
      LowestBit(FlipBit(x, 0));
    } else {
      var y := AlignedIsDoubled(x, k);
      Buddies(y, k - 1);
      Doubled(y, k - 1);
      Doubled(FlipBit(y, k - 1), k - 1);
      Doubled(ClearBit(y, k - 1), k);
    }
  }

  /** The upper half of an aligned block is the buddy of the lower half. */
  lemma {:induction false} Halves(x: nat, k: nat)
    requires Aligned(x, k + 1)
    ensures Aligned(x, k) && Aligned(x + Pow2(k), k)
    ensures FlipBit(x, k) == x + Pow2(k) && FlipBit(x + Pow2(k), k) == x
  {
    hide Aligned, FlipBit, ClearBit, Pow2;
    if k == 0 {
      LowestBit(x);
      LowestBit(x + 1);
    } else {
      var y := AlignedIsDoubled(x, k + 1);
      Halves(y, k - 1);
      Doubled(y, k - 1);
      Doubled(y + Pow2(k - 1), k - 1);
    }
  }

  /** Divisibility by twice a number, one halving at a time. */
  lemma {:induction false} HalfDivides(x: nat, p: nat)
    requires p > 0
    ensures x % (2 * p) == 0 <==> x % 2 == 0 && (x / 2) % p == 0
  {
    if x % 2 == 0 && (x / 2) % p == 0 {
      var q := x / 2 / p;
      assert x == 2 * (p * q);
      Reassociate(p, q);
      DivModUnique(x, 2 * p, q, 0);
    }
    if x % (2 * p) == 0 {
      var q := x / (2 * p);
      assert x == (2 * p) * q;
      Reassociate(p, q);
      DivModUnique(x / 2, p, q, 0);
    }
  }

  /** Alignment is divisibility by the power of two. */
  lemma {:induction false} AlignedIsMultiple(x: nat, k: nat)
    ensures Aligned(x, k) <==> x % Pow2(k) == 0
  {
    if k > 0 {
      assert Pow2(k) == 2 * Pow2(k - 1);
      assert Aligned(x, k) <==> x % 2 == 0 && Aligned(x / 2, k - 1);
      hide Aligned, Pow2;
      AlignedIsMultiple(x / 2, k - 1);
      HalfDivides(x, Pow2(k - 1));
    }
  }

  lemma MulNat(a: nat, b: nat)
    ensures a * b >= 0
  {
  }

  lemma {:induction false} MulAwayFromZero(d: int, t: int)
    requires d > 0
    ensures t >= 1 ==> d * t >= d
    ensures t <= -1 ==> d * t <= -d
  {
  }

  lemma {:induction false} DivModUnique(x: int, d: int, q: int, r: int)
    requires d > 0 && 0 <= r < d && x == d * q + r
    ensures x / d == q && x % d == r
  {
    MulAwayFromZero(d, x / d - q);
    assert d * (x / d - q) == d * (x / d) - d * q;
  }

  /** `x & ~(2^m - 1)` finds the start of the aligned block that holds `x`. */
  lemma {:induction false} MaskFindsBlock(j: nat, m: nat, x: nat)
    requires Aligned(j, m) && j <= x < j + Pow2(m)
    ensures x - x % Pow2(m) == j
  {
    AlignedIsMultiple(j, m);
    DivModUnique(x, Pow2(m), j / Pow2(m), x - j);
  }

  lemma {:induction false} AlignedSum(x: nat, y: nat, k: nat)
    requires Aligned(x, k) && Aligned(y, k)
    ensures Aligned(x + y, k)
  {
    if k > 0 { AlignedSum(x / 2, y / 2, k - 1); }
  }

  lemma {:induction false} AlignedShift(x: nat, k: nat, s: nat)
    requires Aligned(x, k)
    ensures Aligned(Pow2(s) * x, s + k)
  {
    assert Pow2(0) * x == x;
    hide Aligned, Pow2;
    if s > 0 {
      AlignedShift(x, k, s - 1);
      Doubled(x, s - 1);
      Reassociate(Pow2(s - 1), x);
      Doubled(Pow2(s - 1) * x, s - 1 + k);
      assert s - 1 + k + 1 == s + k;
    }
  }

  lemma {:induction false} Pow2Of16(k: nat)
    ensures Pow2(16 + k) == 0x10000 * Pow2(k)
  {
    assert Pow2(4) == 16;
    Pow2Add(4, 4);
    Pow2Add(8, 8);
    Pow2Add(16, k);
  }
}
