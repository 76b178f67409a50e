/** The BLAKE3 tree of a body, section 2.1 of the BLAKE3 specification.

    Chaining values are free terms: a term records exactly which chunk or which
    two children were compressed and whether the root flag was set. Two terms
    that are equal here are equal under every pair of compression functions. */
module Blake3Spec {
  import opened Bytes
  import opened Pow2

  const CHUNK: nat := 1024

  datatype CV =
    | Chunk(data: seq<byte>, index: nat, root: bool)
    | Parent(left: CV, right: CV, root: bool)

  function Min(a: int, b: int): int { if a < b then a else b }

  /** A run of a body's bytes, `data`, found at byte offset `start`. A whole body
      is a piece that starts at 0. */
  datatype Piece = Piece(start: nat, data: seq<byte>) {

    function End(): nat { start + |data| }

    /** The piece reaches the first byte of chunk `i`. */
    predicate Reaches(i: nat) { start <= i * CHUNK <= End() }

    /** The bytes of chunk `i` that the piece holds. */
    function Bytes(i: nat): seq<byte>
      requires Reaches(i)
    {
      data[i * CHUNK - start .. Min((i + 1) * CHUNK, End()) - start]
    }

    /** The chaining value of chunk `i`; of an empty chunk where the piece ends short. */
    function Leaf(i: nat): CV {
      Chunk(if Reaches(i) then Bytes(i) else [], i, false)
    }

    /** `this` is the part of `whole` from its own start to its own end. */
    predicate PartOf(whole: Piece) {
      && whole.start <= start
      && End() <= whole.End()
      && data == whole.data[start - whole.start .. End() - whole.start]
    }
  }

  /** The largest power of two strictly below `n`. */
  function LeftCount(n: nat): (k: nat)
    requires n >= 2
    ensures 1 <= k < n <= 2 * k
  {
    if n == 2 then 1 else 2 * LeftCount((n + 1) / 2)
  }

  /** LeftCount is the one power of two in [n/2, n). */
  lemma {:induction false} LeftCountIs(n: nat, h: nat)
    requires P(h) < n <= 2 * P(h)
    ensures LeftCount(n) == P(h)
    decreases h
  {
    if n > 2 {
      LeftCountIs((n + 1) / 2, h - 1);
    }
  }

  /** The height of the left child of a span of `n` chunks. */
  function LeftHeight(n: nat): (h: nat)
    requires n >= 2
    ensures P(h) == LeftCount(n)
  {
    if n == 2 then 0 else LeftHeight((n + 1) / 2) + 1
  }

  /** The number of bits needed to write `x`, Go's `bits.Len`. */
  function BitLen(x: nat): nat {
    if x == 0 then 0 else 1 + BitLen(x / 2)
  }

  /** `1 << (bits.Len(n-1) - 1)` computes it. */
  lemma {:induction false} LeftCountIsShift(n: nat)
    requires n >= 2
    ensures BitLen(n - 1) >= 1 && LeftCount(n) == P(BitLen(n - 1) - 1)
  {
    if n == 2 {
      assert BitLen(1) == 1 + BitLen(0);
    } else {
      LeftCountIsShift((n + 1) / 2);
      assert (n - 1) / 2 == (n + 1) / 2 - 1;
    }
  }

  /** The chaining value of the tree over chunks [lo, hi): the left child takes
      the largest power of two of chunks strictly below the count. */
  function Node(p: Piece, lo: nat, hi: nat): (cv: CV)
    requires lo < hi
    decreases hi - lo
  {
    if hi == lo + 1 then
      p.Leaf(lo)
    else
      var k := LeftCount(hi - lo);
      Parent(Node(p, lo, lo + k), Node(p, lo + k, hi), false)
  }

  function AsRoot(cv: CV): CV {
    match cv
    case Chunk(d, i, _) => Chunk(d, i, true)
    case Parent(l, r, _) => Parent(l, r, true)
  }

  /** How many chunks a body has; the empty body has one, empty. */
  function ChunkCount(size: nat): (n: nat)
    ensures n >= 1
    ensures (n - 1) * CHUNK <= size <= n * CHUNK
    ensures size > 0 ==> (n - 1) * CHUNK < size
  {
    if size == 0 then 1 else (size + CHUNK - 1) / CHUNK
  }

  /** The BLAKE3 hash of a body. */
  function Root(body: seq<byte>): CV {
    AsRoot(Node(Piece(0, body), 0, ChunkCount(|body|)))
  }

  // ---------------------------------------------------------------------------

  /** A span of 2^h chunks followed by at most as many more splits after the 2^h. */
  lemma NodeSplit(p: Piece, lo: nat, h: nat, hi: nat)
    requires lo + P(h) < hi <= lo + 2 * P(h)
    ensures Node(p, lo, hi) == Parent(Node(p, lo, lo + P(h)), Node(p, lo + P(h), hi), false)
  {
    LeftCountIs(hi - lo, h);
  }

  ghost predicate SameLeaves(p: Piece, q: Piece, lo: nat, hi: nat) {
    forall i | lo <= i < hi :: p.Leaf(i) == q.Leaf(i)
  }

  /** A span's chaining value depends on its chunks alone. */
  lemma {:induction false} NodeSame(p: Piece, q: Piece, lo: nat, hi: nat)
    requires lo < hi && SameLeaves(p, q, lo, hi)
    ensures Node(p, lo, hi) == Node(q, lo, hi)
    decreases hi - lo
  {
    if hi > lo + 1 {
      var k := LeftCount(hi - lo);
      NodeSame(p, q, lo, lo + k);
      NodeSame(p, q, lo + k, hi);
    }
  }

  /** A part that holds chunks [lo, hi), to their last byte or to the body's, has
      the body's chunks there. */
  lemma PartLeaves(p: Piece, q: Piece, lo: nat, hi: nat)
    requires q.PartOf(p) && q.start <= lo * CHUNK
    requires hi * CHUNK <= q.End() || q.End() == p.End()
    ensures SameLeaves(p, q, lo, hi)
  {
    forall i | lo <= i < hi ensures p.Leaf(i) == q.Leaf(i) {
      PartLeaf(p, q, i);
    }
  }

  lemma PartLeaf(p: Piece, q: Piece, i: nat)
    requires q.PartOf(p) && q.start <= i * CHUNK
    requires (i + 1) * CHUNK <= q.End() || q.End() == p.End()
    ensures p.Leaf(i) == q.Leaf(i)
  {
    if q.Reaches(i) {
      var a, b := i * CHUNK - q.start, Min((i + 1) * CHUNK, q.End()) - q.start;
      SliceOfSlice(p.data, q.start - p.start, q.End() - p.start, a, b);
    }
  }

  lemma SliceOfSlice(s: seq<byte>, i: nat, j: nat, a: nat, b: nat)
    requires i <= j <= |s| && a <= b <= j - i
    ensures s[i..j][a..b] == s[i + a..i + b]
  {
    var l, r := s[i..j][a..b], s[i + a..i + b];
    assert |l| == |r|;
    forall k | 0 <= k < |l| ensures l[k] == r[k] {
      assert l[k] == s[i..j][a + k];
    }
  }
}
