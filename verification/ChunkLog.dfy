/** The block-size rule: blake3tree's `ChunkLog`, `blocksIn` and `AlignedRange`. */
module ChunkLog {
  import opened Pow2
  import opened Blake3Spec

  const MIN_CHUNK_LOG: nat := 4
  const MAX_CHUNK_LOG: nat := 52
  const MAX_BLOCKS: nat := 32768
  const INT64_LIMIT: nat := 0x8000_0000_0000_0000

  lemma PowLiterals()
    ensures P(10) == CHUNK && P(15) == MAX_BLOCKS && P(63) == INT64_LIMIT
  {
    assert P(3) == 8 && P(5) == 32;
    PowSum(5, 5, 32, 32);
    PowSum(10, 5, 1024, 32);
    PowSum(15, 15, 32768, 32768);
    PowSum(30, 30, 0x4000_0000, 0x4000_0000);
    PowSum(60, 3, 0x1000_0000_0000_0000, 8);
  }

  lemma PowSum(a: nat, b: nat, x: nat, y: nat)
    requires P(a) == x && P(b) == y
    ensures P(a + b) == x * y
  {
    PowAdd(a, b);
  }

  /** Both bounds of the rule: block^2 >= 32 * size, and at most MAX_BLOCKS blocks. */
  predicate Fits(size: nat, c: nat) {
    size <= P(2 * c + 15) && size <= P(c + 25)
  }

  /** `c` is the least chunk log from 4 up that fits. */
  ghost predicate IsLog(size: nat, c: nat) {
    MIN_CHUNK_LOG <= c <= 38 && Fits(size, c) && forall d | MIN_CHUNK_LOG <= d < c :: !Fits(size, d)
  }

  lemma LogExists(size: nat, c: nat)
    requires size < INT64_LIMIT && MIN_CHUNK_LOG <= c <= 38
    requires forall d | MIN_CHUNK_LOG <= d < c :: !Fits(size, d)
    ensures exists r :: IsLog(size, r)
    decreases 38 - c
  {
    if Fits(size, c) {
      assert IsLog(size, c);
    } else {
      assert c < 38 by { LargestFits(size); }
      LogExists(size, c + 1);
    }
  }

  lemma LargestFits(size: nat)
    requires size < INT64_LIMIT
    ensures Fits(size, 38)
  {
    PowLiterals();
    PowMono(63, 2 * 38 + 15);
    assert 38 + 25 == 63;
  }

  /** The rule itself. */
  ghost function LogOf(size: nat): (c: nat)
    requires size < INT64_LIMIT
    ensures IsLog(size, c)
  {
    LogExists(size, MIN_CHUNK_LOG);
    var c :| IsLog(size, c);
    c
  }

  lemma LogIsLeast(size: nat, c: nat)
    requires size < INT64_LIMIT && IsLog(size, c)
    ensures c == LogOf(size)
  {
  }

  lemma LogOfEmpty()
    ensures LogOf(0) == MIN_CHUNK_LOG
  {
    assert Fits(0, MIN_CHUNK_LOG);
  }

  lemma FitsDown(a: nat, b: nat, c: nat)
    requires a <= b && Fits(b, c)
    ensures Fits(a, c)
  {
  }

  /** A part's block never exceeds its object's. */
  lemma LogMonotone(a: nat, b: nat)
    requires a <= b < INT64_LIMIT
    ensures LogOf(a) <= LogOf(b)
  {
    FitsDown(a, b, LogOf(b));
  }

  function BlockSize(c: nat): nat { CHUNK * P(c) }

  function BlocksIn(size: nat, c: nat): nat {
    var block := BlockSize(c);
    MulGe(CHUNK, P(c));
    size / block + (if size % block != 0 then 1 else 0)
  }

  /** The two loops of `ChunkLog`. No shift leaves the int64 range: the first loop
      shifts by 2c+15 while c < 24, the second by c+25 while c < 38. */
  method Compute(size: nat) returns (c: nat)
    requires size < INT64_LIMIT
    ensures c == LogOf(size)
    ensures MIN_CHUNK_LOG <= c <= 38
    ensures Fits(size, c) && forall d | MIN_CHUNK_LOG <= d < c :: !Fits(size, d)
    ensures BlocksIn(size, c) <= MAX_BLOCKS
  {
    c := MIN_CHUNK_LOG;
    while c < 24 && size > P(2 * c + 15)
      invariant MIN_CHUNK_LOG <= c <= 24
      invariant forall d | MIN_CHUNK_LOG <= d < c :: !Fits(size, d)
    {
      ShiftsInRange(c);
      c := c + 1;
    }
    SquareRootSettles(size, c);
    while c + 10 + 15 < 63 && size > MAX_BLOCKS * P(c + 10)
      invariant MIN_CHUNK_LOG <= c <= 38
      invariant size <= P(2 * c + 15)
      invariant forall d | MIN_CHUNK_LOG <= d < c :: !Fits(size, d)
    {
      ShiftsInRange(c);
      c := c + 1;
    }
    CapSettles(size, c);
    LogIsLeast(size, c);
    BlockBound(size, c);
  }

  lemma ShiftsInRange(c: nat)
    ensures c < 24 ==> P(2 * c + 15) < INT64_LIMIT
    ensures c < 38 ==> MAX_BLOCKS * P(c + 10) == P(c + 25) < INT64_LIMIT
    ensures P(2 * c + 15) <= P(2 * (c + 1) + 15)
  {
    PowLiterals();
    PowAdd(15, c + 10);
    PowMono(2 * c + 15, 2 * (c + 1) + 15);
    if c < 24 {
      PowMono(2 * c + 15, 63);
    }
    if c < 38 {
      PowMono(c + 25, 63);
    }
  }

  lemma SquareRootSettles(size: nat, c: nat)
    requires size < INT64_LIMIT && c <= 24
    requires c == 24 || size <= P(2 * c + 15)
    ensures size <= P(2 * c + 15)
  {
    PowLiterals();
    assert 2 * 24 + 15 == 63;
  }

  lemma CapSettles(size: nat, c: nat)
    requires size < INT64_LIMIT && c <= 38 && size <= P(2 * c + 15)
    requires c == 38 || size <= MAX_BLOCKS * P(c + 10)
    ensures Fits(size, c)
  {
    PowLiterals();
    PowAdd(15, c + 10);
    assert 38 + 25 == 63;
  }

  lemma BlockBound(size: nat, c: nat)
    requires size <= P(c + 25)
    ensures BlocksIn(size, c) <= MAX_BLOCKS
  {
    PowLiterals();
    PowAdd(10, c);
    PowAdd(15, c + 10);
    var b := BlockSize(c);
    assert b == P(c + 10) && size <= MAX_BLOCKS * b;
    QuotientAtMost(size, b, MAX_BLOCKS);
  }

  lemma QuotientAtMost(x: nat, m: nat, k: nat)
    requires m > 0 && x <= k * m
    ensures x / m <= k && (x / m == k ==> x % m == 0)
  {
    var q, r := x / m, x % m;
    assert x == q * m + r;
    assert (q - k) * m + r <= 0;
  }

  // ---------------------------------------------------------------------------
  // Widening a byte range to whole blocks.

  datatype Span = Span(start: int, end: int) | Refused

  /** `AlignedRange`: the inclusive range [a, b] widened to block boundaries. */
  function AlignedRange(a: int, b: int, c: nat, size: int): Span {
    if c > MAX_CHUNK_LOG || a < 0 || b < a || a >= size then Refused
    else
      var block := BlockSize(c);
      MulGe(CHUNK, P(c));
      var endBlocks := b / block + 1;
      Span(a / block * block, if endBlocks >= BlocksIn(size, c) then size - 1 else endBlocks * block - 1)
  }

  lemma EndIs(a: nat, b: nat, c: nat, size: nat)
    requires c <= MAX_CHUNK_LOG && a <= b && a < size
    ensures BlockSize(c) > 0 && b / BlockSize(c) >= 0
    ensures var e := (b / BlockSize(c) + 1) * BlockSize(c);
            AlignedRange(a, b, c, size).end == if e >= size then size - 1 else e - 1
  {
    MulGe(CHUNK, P(c));
    QuotientNat(b, BlockSize(c));
    BlocksReach(size, c, b / BlockSize(c) + 1);
  }

  predicate Multiple(x: int, m: nat)
    requires m > 0
  {
    x % m == 0
  }

  /** `e` is the last byte of a block or of the body. */
  predicate EndsBlock(e: int, block: nat, size: int)
    requires block > 0
  {
    e == size - 1 || Multiple(e + 1, block)
  }

  lemma QuotientNat(x: nat, m: nat)
    requires m > 0
    ensures 0 <= x / m
  {
  }

  lemma DivBounds(x: nat, m: nat)
    requires m > 0
    ensures 0 <= x / m && x / m * m <= x < x / m * m + m && (x / m + 1) * m == x / m * m + m
  {
    QuotientNat(x, m);
    assert x == x / m * m + x % m;
  }

  lemma Divide(x: nat, m: nat) returns (q: nat)
    requires m > 0
    ensures q == x / m && q * m <= x < q * m + m
  {
    DivBounds(x, m);
    q := x / m;
  }

  lemma MultipleAtMost(x: nat, m: nat, y: nat)
    requires m > 0 && y <= x && Multiple(y, m)
    ensures y <= x / m * m
  {
    DivBounds(x, m);
    assert y == y / m * m;
    if y / m > x / m {
      MulMono(x / m + 1, y / m, m);
    }
  }

  lemma MultipleAtLeast(x: nat, m: nat, y: nat)
    requires m > 0 && x < y && Multiple(y, m)
    ensures x / m * m + m <= y
  {
    DivBounds(x, m);
    assert y == y / m * m;
    if y / m > x / m {
      MulMono(x / m + 1, y / m, m);
    } else {
      MulMono(y / m, x / m, m);
    }
  }

  lemma MulMono(a: nat, b: nat, m: nat)
    requires a <= b
    ensures a * m <= b * m
  {
    assert b * m == a * m + (b - a) * m;
  }

  /** A block count below the body's ends before the body does, and conversely. */
  lemma BlocksReach(size: nat, c: nat, k: nat)
    ensures BlockSize(c) > 0 && (k >= BlocksIn(size, c) <==> k * BlockSize(c) >= size)
  {
    var m := BlockSize(c);
    MulGe(CHUNK, P(c));
    DivBounds(size, m);
    var q := size / m;
    if k <= q {
      MulMono(k, q, m);
    } else {
      MulMono(q + 1, k, m);
    }
    assert size == q * m + size % m;
  }

  /** `AlignedRange` refuses exactly the ranges that are not ascending or start past
      the body, and otherwise gives the least cover of the range within the body
      that starts at a block boundary and ends at one or at the body's end. */
  lemma AlignedRangeIsLeastCover(a: int, b: int, c: nat, size: int)
    ensures AlignedRange(a, b, c, size).Span? <==> c <= MAX_CHUNK_LOG && 0 <= a <= b && a < size
    ensures AlignedRange(a, b, c, size).Span? ==>
      var r, m := AlignedRange(a, b, c, size), BlockSize(c);
      && m > 0 && 0 <= r.start <= a <= r.end < size && Min(b, size - 1) <= r.end
      && Multiple(r.start, m) && EndsBlock(r.end, m, size)
      && (forall s: nat | s <= a && Multiple(s, m) :: s <= r.start)
      && (forall e: nat | Min(b, size - 1) <= e < size && EndsBlock(e, m, size) :: r.end <= e)
  {
    if AlignedRange(a, b, c, size).Span? {
      LeastStart(a, BlockSize(c));
      LeastEnd(a, b, c, size);
    }
  }

  lemma LeastStart(a: nat, m: nat)
    requires m > 0
    ensures 0 <= a / m * m <= a && Multiple(a / m * m, m)
    ensures forall s: nat | s <= a && Multiple(s, m) :: s <= a / m * m
  {
    var q := Divide(a, m);
    MultipleOf(q, m);
    forall s: nat | s <= a && Multiple(s, m) ensures s <= a / m * m {
      MultipleAtMost(a, m, s);
    }
  }

  lemma MultipleOf(q: nat, m: nat)
    requires m > 0
    ensures Multiple(q * m, m)
  {
    DivUnique(q * m, m, q);
  }

  lemma LeastEnd(a: nat, b: nat, c: nat, size: nat)
    requires c <= MAX_CHUNK_LOG && a <= b && a < size
    ensures var r, m := AlignedRange(a, b, c, size).end, BlockSize(c);
            && m > 0 && a <= r < size && Min(b, size - 1) <= r && EndsBlock(r, m, size)
            && (forall e: nat | Min(b, size - 1) <= e < size && EndsBlock(e, m, size) :: r <= e)
  {
    EndIs(a, b, c, size);
    LeastEndOf(a, b, BlockSize(c), size, AlignedRange(a, b, c, size).end);
  }

  lemma LeastEndOf(a: nat, b: nat, m: nat, size: nat, r: int)
    requires m > 0 && a <= b && a < size && b / m >= 0
    requires r == var e := (b / m + 1) * m; if e >= size then size - 1 else e - 1
    ensures a <= r < size && Min(b, size - 1) <= r && EndsBlock(r, m, size)
    ensures forall e: nat | Min(b, size - 1) <= e < size && EndsBlock(e, m, size) :: r <= e
  {
    var end := NextMultiple(b, m);
  }

  /** The end of the block that holds byte `b`. */
  lemma NextMultiple(b: nat, m: nat) returns (e: nat)
    requires m > 0
    ensures b / m + 1 >= 0 && e == (b / m + 1) * m && b < e && Multiple(e, m)
    ensures forall y: nat | b < y && Multiple(y, m) :: e <= y
  {
    var q := Divide(b, m);
    e := (q + 1) * m;
    MultipleOf(q + 1, m);
    assert e == q * m + m;
    forall y: nat | b < y && Multiple(y, m) ensures e <= y {
      MultipleAtLeast(b, m, y);
    }
  }

  predicate Int64(x: int) { x < INT64_LIMIT }

  /** Every intermediate value of `AlignedRange` fits an int64: the block, the
      start, both block counts, and the end where it is computed. */
  lemma AlignedRangeInRange(a: nat, b: nat, c: nat, size: nat)
    requires Int64(a) && Int64(b) && Int64(size) && c <= MAX_CHUNK_LOG
    ensures var m := BlockSize(c);
            && 0 < m && Int64(m) && Int64(a / m * m) && Int64(b / m + 1) && Int64(BlocksIn(size, c))
            && (b / m + 1 < BlocksIn(size, c) ==> Int64((b / m + 1) * m))
  {
    BlockInRange(c);
    StartInRange(a, BlockSize(c));
    SmallQuotient(b, BlockSize(c));
    SmallQuotient(size, BlockSize(c));
    EndInRange(b, c, size);
  }

  lemma StartInRange(a: nat, m: nat)
    requires m > 0 && Int64(a)
    ensures Int64(a / m * m)
  {
    DivBounds(a, m);
  }

  lemma EndInRange(b: nat, c: nat, size: nat)
    requires Int64(size)
    ensures BlockSize(c) > 0
    ensures b / BlockSize(c) + 1 < BlocksIn(size, c) ==> Int64((b / BlockSize(c) + 1) * BlockSize(c))
  {
    MulGe(CHUNK, P(c));
    QuotientNat(b, BlockSize(c));
    BlocksReach(size, c, b / BlockSize(c) + 1);
  }

  lemma BlockInRange(c: nat)
    requires c <= MAX_CHUNK_LOG
    ensures CHUNK <= BlockSize(c) && Int64(BlockSize(c))
  {
    PowLiterals();
    PowAdd(10, c);
    PowMono(c + 10, 63);
    PowMono(10, c + 10);
  }

  lemma SmallQuotient(x: nat, m: nat)
    requires m >= CHUNK
    ensures x / m + 1 <= x || x / m == 0
  {
    var q := Divide(x, m);
    SmallFactor(q, m);
  }

  lemma SmallFactor(q: nat, m: nat)
    requires m >= CHUNK
    ensures q + 1 <= q * m || q == 0
  {
    assert q * m == q * (m - 2) + 2 * q;
  }
}
