/** Powers of two, shifts, and the alignment of chunk indices.

    Shifts are defined by doubling and halving, so that reasoning about them stays
    linear; ShiftsAreProducts says what they are in closed form. */
module Pow2 {

  /** 2^h. */
  function P(h: nat): (r: nat)
    ensures r >= 1
  {
    if h == 0 then 1 else 2 * P(h - 1)
  }

  /** `k << h`: the position of block `k` of height `h`. */
  function At(k: nat, h: nat): nat {
    if h == 0 then k else 2 * At(k, h - 1)
  }

  /** `x >> h`: the block of height `h` that holds `x`. */
  function Shr(x: nat, h: nat): nat {
    if h == 0 then x else Shr(x, h - 1) / 2
  }

  /** `x` is a multiple of 2^h. */
  predicate Aligned(x: nat, h: nat) {
    At(Shr(x, h), h) == x
  }

  /** Bit `h` of `x`, `(x >> h) & 1`. */
  function Bit(x: nat, h: nat): nat {
    Shr(x, h) % 2
  }

  lemma PowMono(a: nat, b: nat)
    requires a <= b
    ensures P(a) <= P(b)
    ensures a < b ==> 2 * P(a) <= P(b)
    decreases b
  {
    if a < b {
      PowMono(a, b - 1);
    }
  }

  lemma PowAbove(n: nat)
    ensures n < P(n)
  {
  }

  lemma PowInjective(a: nat, b: nat)
    requires P(a) == P(b)
    ensures a == b
  {
    if a < b {
      PowMono(a, b);
    } else if b < a {
      PowMono(b, a);
    }
  }

  lemma AtZero(h: nat)
    ensures At(0, h) == 0 && At(1, h) == P(h) && Aligned(0, h) && Shr(0, h) == 0
  {
  }

  lemma AtAdd(a: nat, b: nat, h: nat)
    ensures At(a + b, h) == At(a, h) + At(b, h)
  {
    if h > 0 {
      AtAdd(a, b, h - 1);
    }
  }

  lemma AtSucc(k: nat, h: nat)
    ensures At(k + 1, h) == At(k, h) + P(h)
  {
    AtAdd(k, 1, h);
    AtZero(h);
  }

  lemma AtMono(a: nat, b: nat, h: nat)
    requires a <= b
    ensures At(a, h) <= At(b, h)
    ensures a < b ==> At(a, h) + P(h) <= At(b, h)
  {
    if h > 0 {
      AtMono(a, b, h - 1);
    }
  }

  /** A block shifted up is a block one level up. */
  lemma AtUp(k: nat, h: nat)
    ensures At(2 * k, h) == At(k, h + 1) && At(k, h + 1) == 2 * At(k, h)
  {
    AtAdd(k, k, h);
  }

  /** Shifting a power is a power. */
  lemma AtPow(g: nat, h: nat)
    ensures At(P(g), h) == P(g + h)
  {
    if h > 0 {
      AtPow(g, h - 1);
    }
  }

  lemma {:induction false} ShrBounds(x: nat, h: nat)
    ensures At(Shr(x, h), h) <= x < At(Shr(x, h), h) + P(h)
  {
    if h > 0 {
      ShrBounds(x, h - 1);
      var q := Shr(x, h - 1);
      AtUp(q / 2, h - 1);
      if q % 2 == 1 {
        AtSucc(2 * (q / 2), h - 1);
      }
    }
  }

  lemma ShrIs(x: nat, h: nat, q: nat)
    requires At(q, h) <= x < At(q, h) + P(h)
    ensures Shr(x, h) == q
  {
    ShrBounds(x, h);
    var r := Shr(x, h);
    if r < q {
      AtMono(r, q, h);
    } else if q < r {
      AtMono(q, r, h);
    }
  }

  lemma AlignedAt(k: nat, h: nat)
    ensures Aligned(At(k, h), h) && Shr(At(k, h), h) == k
  {
    ShrIs(At(k, h), h, k);
  }

  /** Block `k` ends at or before `x` exactly when it is before the block holding `x`. */
  lemma UnderShr(x: nat, h: nat, k: nat)
    ensures k < Shr(x, h) <==> At(k, h) + P(h) <= x
  {
    ShrBounds(x, h);
    AtSucc(k, h);
    if k < Shr(x, h) {
      AtMono(k, Shr(x, h), h);
    } else {
      AtMono(Shr(x, h), k, h);
    }
  }

  /** Rounding up: the first block at or after `x`. */
  lemma CeilShr(x: nat, h: nat, k: nat)
    ensures Shr(x + P(h) - 1, h) <= k <==> x <= At(k, h)
  {
    UnderShr(x + P(h) - 1, h, k);
  }

  lemma AlignedAdd(x: nat, y: nat, h: nat)
    requires Aligned(x, h) && Aligned(y, h)
    ensures Aligned(x + y, h) && Shr(x + y, h) == Shr(x, h) + Shr(y, h)
  {
    AtAdd(Shr(x, h), Shr(y, h), h);
    AlignedAt(Shr(x, h) + Shr(y, h), h);
  }

  lemma AlignedSelf(h: nat)
    ensures Aligned(P(h), h) && Shr(P(h), h) == 1
  {
    AtZero(h);
    AlignedAt(1, h);
  }

  lemma AlignedSub(x: nat, y: nat, h: nat)
    requires Aligned(x, h) && Aligned(y, h) && y <= x
    ensures Aligned(x - y, h)
  {
    var a, b := Shr(x, h), Shr(y, h);
    if a < b {
      AtMono(a, b, h);
    }
    AtAdd(a - b, b, h);
    AlignedAt(a - b, h);
  }

  /** A multiple of a larger power is a multiple of a smaller one. */
  lemma {:induction false} AlignedDown(x: nat, a: nat, b: nat)
    requires a <= b && Aligned(x, b)
    ensures Aligned(x, a)
    decreases b
  {
    if a < b {
      AtUp(Shr(x, b), b - 1);
      AlignedAt(2 * Shr(x, b), b - 1);
      AlignedDown(x, a, b - 1);
    }
  }

  /** Distinct multiples of 2^h are at least 2^h apart. */
  lemma AlignedGap(x: nat, y: nat, h: nat)
    requires Aligned(x, h) && Aligned(y, h) && x < y
    ensures x + P(h) <= y
  {
    var a, b := Shr(x, h), Shr(y, h);
    if a < b {
      AtMono(a, b, h);
    } else {
      AtMono(b, a, h);
    }
  }

  /** An aligned index is aligned one level up exactly when its bit is clear. */
  lemma AlignedSucc(x: nat, h: nat)
    requires Aligned(x, h)
    ensures Aligned(x, h + 1) <==> Bit(x, h) == 0
  {
    var q := Shr(x, h);
    AtUp(q / 2, h);
    if q % 2 == 1 {
      AtSucc(2 * (q / 2), h);
    }
  }

  /** The right end of a left child is a right child, and conversely. */
  lemma BitFlip(x: nat, h: nat)
    requires Aligned(x, h)
    ensures Aligned(x + P(h), h)
    ensures Bit(x + P(h), h) == 1 - Bit(x, h)
  {
    AlignedSelf(h);
    AlignedAdd(x, P(h), h);
  }

  // ---------------------------------------------------------------------------
  // The closed forms.

  lemma PowAdd(a: nat, b: nat)
    ensures P(a + b) == P(a) * P(b)
  {
    if a > 0 {
      PowAdd(a - 1, b);
      assert P(a + b) == 2 * P(a - 1 + b);
    }
  }

  lemma AtIs(k: nat, h: nat)
    ensures At(k, h) == k * P(h)
  {
  }

  lemma DivUnique(x: nat, m: nat, q: nat)
    requires m > 0 && q * m <= x < q * m + m
    ensures x / m == q && x % m == x - q * m
  {
    var r, s := x / m, x % m;
    assert x == r * m + s && 0 <= s < m;
    if r < q {
      MulGe(q - r, m);
    } else if q < r {
      MulGe(r - q, m);
    }
  }

  lemma MulGe(k: nat, m: nat)
    requires k >= 1
    ensures k * m >= m
  {
    assert k * m == (k - 1) * m + m;
  }

  /** The shifts and the alignment in closed form. */
  lemma ShiftsAreProducts(x: nat, h: nat)
    ensures At(x, h) == x * P(h) && Shr(x, h) == x / P(h)
    ensures Aligned(x, h) <==> x % P(h) == 0
  {
    AtIs(x, h);
    ShrBounds(x, h);
    AtIs(Shr(x, h), h);
    DivUnique(x, P(h), Shr(x, h));
  }
}
