/** What the hasher keeps and returns, stated on values: finished objects and
    ranges, the stack and block list of a chunk span, and the buffered rest. */
module HasherSpec {
  import opened Options
  import opened Bytes
  import opened Pow2
  import opened Blake3Spec
  import opened Dyadic
  import opened BlockList
  import opened Seal

  const BUF_CHUNKS: nat := 16

  /** The tree material of a whole body. */
  datatype Object = Object(size: nat, root: CV, chunkLog: nat, blocks: seq<CV>)

  /** A block's chaining value and its byte offset. */
  datatype BlockAt = BlockAt(cv: CV, offset: nat)

  /** The tree material of a byte range hashed at its offset. */
  datatype Range = Range(
    offset: nat, size: nat, root: Option<CV>, head: seq<byte>, tail: seq<byte>,
    subtrees: seq<Subtree>, chunkLog: nat, blocks: seq<BlockAt>)

  // ---------------------------------------------------------------------------
  // What a finished object and a finished range are, without the hasher.

  /** Block `k` of a body of `n` chunks at chunk log `c`; the last may be short. */
  function ObjectBlock(p: Piece, c: nat, n: nat, k: nat): CV
    requires At(k, c) < n
  {
    Node(p, At(k, c), Min(At(k, c) + P(c), n))
  }

  /** The first blocks of the body, in order. */
  predicate BlocksSoFar(p: Piece, c: nat, n: nat, blocks: seq<CV>) {
    forall k | 0 <= k < |blocks| :: At(k, c) < n && blocks[k] == ObjectBlock(p, c, n, k)
  }

  predicate IsObjectBlocks(p: Piece, c: nat, n: nat, blocks: seq<CV>) {
    |blocks| == First(n, c) && BlocksSoFar(p, c, n, blocks)
  }

  lemma BlocksOneMore(p: Piece, c: nat, n: nat, blocks: seq<CV>, cv: CV)
    requires BlocksSoFar(p, c, n, blocks)
    requires At(|blocks|, c) < n && cv == ObjectBlock(p, c, n, |blocks|)
    ensures BlocksSoFar(p, c, n, blocks + [cv])
  {
  }

  /** `o` is the tree material of `body` at chunk log `c`. */
  ghost predicate IsObject(o: Object, body: seq<byte>, c: nat) {
    && o.size == |body|
    && o.chunkLog == c
    && o.root == Root(body)
    && (body == [] ==> o.blocks == [])
    && (body != [] ==> IsObjectBlocks(Piece(0, body), c, ChunkCount(|body|), o.blocks))
  }

  function AsBlocks(s: seq<Subtree>): (r: seq<BlockAt>)
    ensures |r| == |s| && forall i | 0 <= i < |s| :: r[i] == BlockAt(s[i].cv, s[i].pos * CHUNK)
  {
    if s == [] then [] else AsBlocks(s[..|s| - 1]) + [BlockAt(s[|s| - 1].cv, s[|s| - 1].pos * CHUNK)]
  }

  /** The bytes a piece has before its first chunk boundary. */
  function HeadLen(p: Piece): (n: nat)
    ensures n < CHUNK || n == 0
  {
    Min((p.start + CHUNK - 1) / CHUNK * CHUNK - p.start, |p.data|)
  }

  function FirstChunk(p: Piece): nat { (p.start + CHUNK - 1) / CHUNK }

  /** The chunk after the piece's last whole one. */
  function EndChunk(p: Piece): (n: nat)
    ensures FirstChunk(p) <= n
  {
    if p.End() < FirstChunk(p) * CHUNK then FirstChunk(p) else p.End() / CHUNK
  }

  /** The raw bytes before the first and after the last chunk boundary. */
  ghost predicate IsEnds(p: Piece, head: seq<byte>, tail: seq<byte>) {
    && head == p.data[..HeadLen(p)]
    && tail == (if p.End() < FirstChunk(p) * CHUNK then [] else p.data[EndChunk(p) * CHUNK - p.start..])
  }

  /** `r` is the tree material of the piece at chunk log `c`: the bytes before its
      first and after its last chunk boundary raw, and the whole chunks between as
      the reduced tiling and as the list of blocks wholly inside. */
  ghost predicate IsRange(r: Range, p: Piece, c: nat) {
    var lo, hi := FirstChunk(p), EndChunk(p);
    && r.offset == p.start && r.size == |p.data| && r.chunkLog == c
    && r.root == (if p.start == 0 then Some(Root(p.data)) else None)
    && IsEnds(p, r.head, r.tail)
    && Tiles(r.subtrees, lo, hi) && Reduced(r.subtrees) && Right(p, r.subtrees)
    && r.blocks == AsBlocks(Blocks(p, c, lo, hi))
  }

  /** The bytes [lo, hi) of a body, at their offset. */
  function Slice(body: seq<byte>, lo: nat, hi: nat): Piece
    requires lo <= hi <= |body|
  {
    Piece(lo, body[lo..hi])
  }

  /** `r` is the material of the body's bytes it names, blocks no coarser than `c`.
      The quantifier keeps IsRange closed until a proof says `Opened`. */
  ghost predicate IsRangeOf(r: Range, body: seq<byte>, c: nat) {
    && r.offset + r.size <= |body| && r.chunkLog <= c
    && forall key {:trigger Opened(key)} ::
         Opened(key) ==> IsRange(r, Slice(body, r.offset, r.offset + r.size), r.chunkLog)
  }

  lemma OpenRange(r: Range, body: seq<byte>, c: nat)
    requires IsRangeOf(r, body, c)
    ensures IsRange(r, Slice(body, r.offset, r.offset + r.size), r.chunkLog)
  {
    assert Opened(0);
  }

  // ---------------------------------------------------------------------------
  // The stack and the block list of chunks [lo, hi).

  ghost predicate IsStack(p: Piece, stack: seq<Subtree>, blocks: seq<Subtree>, h: nat, lo: nat, hi: nat) {
    Tiles(stack, lo, hi) && Reduced(stack) && Right(p, stack) && blocks == Blocks(p, h, lo, hi)
  }

  /** IsStack, kept closed. */
  ghost predicate Stacked(p: Piece, stack: seq<Subtree>, blocks: seq<Subtree>, h: nat, lo: nat, hi: nat) {
    forall key {:trigger Opened(key)} :: Opened(key) ==> IsStack(p, stack, blocks, h, lo, hi)
  }

  lemma OpenStack(p: Piece, stack: seq<Subtree>, blocks: seq<Subtree>, h: nat, lo: nat, hi: nat)
    requires Stacked(p, stack, blocks, h, lo, hi)
    ensures IsStack(p, stack, blocks, h, lo, hi)
  {
    assert Opened(0);
  }

  lemma StackBlocks(p: Piece, stack: seq<Subtree>, blocks: seq<Subtree>, h: nat, lo: nat, hi: nat)
    requires Stacked(p, stack, blocks, h, lo, hi)
    ensures blocks == BlockRun(p, h, First(lo, h), Shr(hi, h))
  {
    OpenStack(p, stack, blocks, h, lo, hi);
  }

  lemma PushStacked(p: Piece, stack: seq<Subtree>, blocks: seq<Subtree>, h: nat, lo: nat, hi: nat, n: Subtree)
    requires Stacked(p, stack, blocks, h, lo, hi)
    requires n.pos == hi && Aligned(n.pos, n.height) && RightOne(p, n) && n.height <= h
    ensures Stacked(p, Push(stack, n), blocks + Recorded(stack, n, h), h, lo, n.End())
  {
    OpenStack(p, stack, blocks, h, lo, hi);
    PushTiles(p, stack, lo, hi, n);
    PushBlocks(p, stack, lo, hi, n, h);
  }

  lemma ChunkStacked(p: Piece, stack: seq<Subtree>, blocks: seq<Subtree>, h: nat, lo: nat, pos: nat)
    requires Stacked(p, stack, blocks, h, lo, pos)
    ensures var n := Subtree(p.Leaf(pos), 0, pos);
            Stacked(p, Push(stack, n), blocks + Recorded(stack, n, h), h, lo, pos + 1)
  {
    PushStacked(p, stack, blocks, h, lo, pos, Subtree(p.Leaf(pos), 0, pos));
  }

  /** A body that goes on keeps the nodes of its whole chunks. */
  lemma StackedSame(p: Piece, q: Piece, stack: seq<Subtree>, blocks: seq<Subtree>, h: nat, lo: nat, hi: nat)
    requires Stacked(q, stack, blocks, h, lo, hi) && SameLeaves(p, q, lo, hi)
    ensures Stacked(p, stack, blocks, h, lo, hi)
  {
    OpenStack(q, stack, blocks, h, lo, hi);
    RightSame(p, q, stack, lo, hi);
    forall i | 0 <= i < |blocks| ensures blocks[i] == Blocks(p, h, lo, hi)[i] {
      var k := First(lo, h) + i;
      BlockInside(lo, hi, h, k);
      NodeSame(p, q, At(k, h), At(k, h) + P(h));
    }
  }

  lemma RightSame(p: Piece, q: Piece, s: seq<Subtree>, lo: nat, hi: nat)
    requires Tiles(s, lo, hi) && Right(q, s) && SameLeaves(p, q, lo, hi)
    ensures Right(p, s)
  {
    forall t | t in s ensures RightOne(p, t) {
      var i :| 0 <= i < |s| && s[i] == t;
      TilesAt(s, lo, hi, i);
      NodeSame(p, q, t.pos, t.End());
    }
  }

  /** guts.CompressBuffer over a full buffer at chunk `counter`: the subtree of its
      sixteen chunks. */
  function CompressBuffer(bytes: seq<byte>, counter: nat): CV {
    Node(Piece(counter * CHUNK, bytes), counter, counter + BUF_CHUNKS)
  }

  /** The bytes seen so far: `head` before the first chunk boundary, then whole
      chunks up to `counter`, then the buffered `b`. */
  ghost predicate IsHeld(p: Piece, offset: nat, counter: nat, head: seq<byte>, skip: nat, b: seq<byte>) {
    && offset == (p.start + CHUNK - 1) / CHUNK <= counter
    && |head| <= |p.data| && head == p.data[..|head|]
    && p.start + |head| + skip == offset * CHUNK
    && (skip > 0 ==> |head| == |p.data| && b == [] && counter == offset)
    && (skip == 0 ==> p.End() == counter * CHUNK + |b| && b == p.data[counter * CHUNK - p.start..])
  }

  /** IsHeld, kept closed. */
  ghost predicate Held(p: Piece, offset: nat, counter: nat, head: seq<byte>, skip: nat, b: seq<byte>) {
    forall key {:trigger Opened(key)} :: Opened(key) ==> IsHeld(p, offset, counter, head, skip, b)
  }

  lemma OpenHeld(p: Piece, offset: nat, counter: nat, head: seq<byte>, skip: nat, b: seq<byte>)
    requires Held(p, offset, counter, head, skip, b)
    ensures IsHeld(p, offset, counter, head, skip, b)
  {
    assert Opened(0);
  }

  lemma HeldMore(p: Piece, offset: nat, counter: nat, head: seq<byte>, b: seq<byte>, x: seq<byte>)
    requires Held(p, offset, counter, head, 0, b)
    ensures Held(Piece(p.start, p.data + x), offset, counter, head, 0, b + x)
    ensures SameLeaves(Piece(p.start, p.data + x), p, offset, counter)
  {
    OpenHeld(p, offset, counter, head, 0, b);
    PartLeaves(Piece(p.start, p.data + x), p, offset, counter);
  }

  lemma HeldHead(p: Piece, offset: nat, counter: nat, head: seq<byte>, skip: nat, x: seq<byte>)
    requires Held(p, offset, counter, head, skip, []) && 0 < skip && |x| <= skip
    ensures Held(Piece(p.start, p.data + x), offset, counter, head + x, skip - |x|, [])
  {
    OpenHeld(p, offset, counter, head, skip, []);
  }

  lemma HeldFlushed(p: Piece, offset: nat, counter: nat, head: seq<byte>, b: seq<byte>)
    requires Held(p, offset, counter, head, 0, b) && |b| == BUF_CHUNKS * CHUNK
    ensures Held(p, offset, counter + BUF_CHUNKS, head, 0, [])
  {
    OpenHeld(p, offset, counter, head, 0, b);
  }

  lemma BlockBit(h: nat, k: nat)
    ensures Bit(At(k, h), h) == k % 2
    ensures At(k + 1, h) == At(k, h) + P(h)
  {
    AlignedAt(k, h);
    AtSucc(k, h);
  }

  /** The buffered rest is one chunk at most, empty only if nothing was chunked. */
  ghost predicate LastChunk(p: Piece, offset: nat, counter: nat, head: seq<byte>, skip: nat, last: seq<byte>) {
    Held(p, offset, counter, head, skip, last) && |last| <= CHUNK && (last == [] ==> counter == offset)
  }

  lemma HeldDrained(p: Piece, offset: nat, counter: nat, head: seq<byte>, b: seq<byte>, k: nat)
    requires Held(p, offset, counter, head, 0, b) && k * CHUNK < |b| <= (k + 1) * CHUNK
    ensures LastChunk(p, offset, counter + k, head, 0, b[k * CHUNK..])
  {
    OpenHeld(p, offset, counter, head, 0, b);
  }

  /** Chunk `i` of the buffer is chunk `counter + i` of what was written. */
  lemma BufferLeaf(p: Piece, counter: nat, b: seq<byte>, i: nat)
    requires p.start <= counter * CHUNK && p.End() == counter * CHUNK + |b|
    requires b == p.data[counter * CHUNK - p.start..] && i * CHUNK <= |b|
    ensures p.Leaf(counter + i) == Chunk(b[i * CHUNK .. Min((i + 1) * CHUNK, |b|)], counter + i, false)
  {
    assert p.Bytes(counter + i) == b[i * CHUNK .. Min((i + 1) * CHUNK, |b|)];
  }

  lemma HeldLeaf(p: Piece, offset: nat, counter: nat, head: seq<byte>, b: seq<byte>, i: nat)
    requires Held(p, offset, counter, head, 0, b) && (i + 1) * CHUNK <= |b|
    ensures p.Leaf(counter + i) == Chunk(b[i * CHUNK .. (i + 1) * CHUNK], counter + i, false)
  {
    OpenHeld(p, offset, counter, head, 0, b);
    BufferLeaf(p, counter, b, i);
  }

  /** A full aligned buffer compresses to its subtree of the body. */
  lemma BufferTree(p: Piece, offset: nat, counter: nat, head: seq<byte>, b: seq<byte>)
    requires Held(p, offset, counter, head, 0, b) && |b| == BUF_CHUNKS * CHUNK
    requires counter % BUF_CHUNKS == 0
    ensures P(4) == BUF_CHUNKS && Aligned(counter, 4)
    ensures CompressBuffer(b, counter) == Node(p, counter, counter + BUF_CHUNKS)
  {
    OpenHeld(p, offset, counter, head, 0, b);
    assert P(4) == 16;
    ShiftsAreProducts(counter, 4);
    var q := Piece(counter * CHUNK, b);
    PartLeaves(p, q, counter, counter + BUF_CHUNKS);
    NodeSame(p, q, counter, counter + BUF_CHUNKS);
  }

  /** A whole body's last chunk is the one the hasher held back. */
  lemma LastLeaf(p: Piece, counter: nat, head: seq<byte>, skip: nat, last: seq<byte>)
    requires p.start == 0 && LastChunk(p, 0, counter, head, skip, last)
    ensures skip == 0 && head == []
    ensures counter + 1 == ChunkCount(|p.data|)
    ensures p.Leaf(counter) == Chunk(last, counter, false) == Node(p, counter, counter + 1)
  {
    OpenHeld(p, 0, counter, head, skip, last);
    BufferLeaf(p, counter, last, 0);
    assert last[0 .. Min(CHUNK, |last|)] == last;
  }

  lemma StackFalls(p: Piece, stack: seq<Subtree>, blocks: seq<Subtree>, h: nat, counter: nat)
    requires Stacked(p, stack, blocks, h, 0, counter)
    ensures Falling(stack)
  {
    OpenStack(p, stack, blocks, h, 0, counter);
    PowAbove(counter);
    AtZero(counter);
    ReducedFalls(stack, 0, counter, counter);
  }

  /** Folding the stack onto the last chunk gives the BLAKE3 root. */
  lemma RootIs(p: Piece, stack: seq<Subtree>, blocks: seq<Subtree>, h: nat,
               counter: nat, head: seq<byte>, skip: nat, last: seq<byte>)
    requires p.start == 0 && LastChunk(p, 0, counter, head, skip, last)
    requires Stacked(p, stack, blocks, h, 0, counter)
    ensures AsRoot(Fold(stack, Chunk(last, counter, false))) == Root(p.data)
  {
    OpenStack(p, stack, blocks, h, 0, counter);
    LastLeaf(p, counter, head, skip, last);
    StackFalls(p, stack, blocks, h, counter);
    FoldIs(p, stack, 0, counter, counter + 1, Chunk(last, counter, false));
    assert p == Piece(0, p.data);
  }

  /** Where the stack's subtree `i` starts; the end for the one past the top. */
  function StartOf(stack: seq<Subtree>, counter: nat, i: nat): nat
    requires i <= |stack|
  {
    if i < |stack| then stack[i].pos else counter
  }

  lemma FoldOne(p: Piece, t: Subtree, mid: nat, hi: nat, cv: CV)
    requires t.End() == mid < hi <= mid + P(t.height)
    requires RightOne(p, t) && cv == Node(p, mid, hi)
    ensures Parent(t.cv, cv, false) == Node(p, t.pos, hi)
  {
    NodeSplit(p, t.pos, t.height, hi);
  }

  /** The entries from `i` up and the last chunk are folded into `cv`. */
  ghost predicate FoldedFrom(p: Piece, stack: seq<Subtree>, counter: nat, i: nat, cv: CV)
    requires i <= |stack|
  {
    var m := StartOf(stack, counter, i);
    m <= counter && cv == Node(p, m, counter + 1) && counter + 1 - m <= FoldBound(stack, i)
  }

  function FoldBound(stack: seq<Subtree>, i: nat): nat
    requires i <= |stack|
  {
    if i < |stack| then 2 * P(stack[i].height) else 1
  }

  lemma FoldRoom(stack: seq<Subtree>, counter: nat, i: nat)
    requires Tiles(stack, 0, counter) && Falling(stack) && 0 < i <= |stack|
    ensures stack[i - 1].End() == StartOf(stack, counter, i)
    ensures FoldBound(stack, i) <= P(stack[i - 1].height)
  {
    TilesAt(stack, 0, counter, i - 1);
    if i < |stack| {
      TilesAt(stack, 0, counter, i);
      FallingAt(stack, i);
      PowMono(stack[i].height, stack[i - 1].height);
    }
  }

  lemma FoldStep(p: Piece, stack: seq<Subtree>, counter: nat, i: nat, cv: CV)
    requires Tiles(stack, 0, counter) && Falling(stack) && Right(p, stack) && 0 < i <= |stack|
    requires FoldedFrom(p, stack, counter, i, cv)
    ensures FoldedFrom(p, stack, counter, i - 1, Parent(stack[i - 1].cv, cv, false))
  {
    var t := stack[i - 1];
    assert t in stack;
    FoldRoom(stack, counter, i);
    FoldOne(p, t, StartOf(stack, counter, i), counter + 1, cv);
  }

  /** The fold stops at the last block boundary at or before the last chunk. */
  lemma FoldStops(stack: seq<Subtree>, counter: nat, i: nat, h: nat)
    requires Tiles(stack, 0, counter) && i <= |stack|
    requires i > 0 ==> stack[i - 1].height >= h
    requires StartOf(stack, counter, i) <= counter < StartOf(stack, counter, i) + P(h)
    ensures StartOf(stack, counter, i) == At(Shr(counter, h), h)
  {
    var m := StartOf(stack, counter, i);
    StartAligned(stack, counter, i, h);
    ShrIs(counter, h, Shr(m, h));
  }

  lemma StartAligned(stack: seq<Subtree>, counter: nat, i: nat, h: nat)
    requires Tiles(stack, 0, counter) && i <= |stack|
    requires i > 0 ==> stack[i - 1].height >= h
    ensures Aligned(StartOf(stack, counter, i), h)
  {
    if i > 0 {
      var t := stack[i - 1];
      TilesAt(stack, 0, counter, i - 1);
      if i < |stack| {
        TilesAt(stack, 0, counter, i);
      }
      BitFlip(t.pos, t.height);
      AlignedDown(t.End(), h, t.height);
    } else {
      AtZero(h);
      if |stack| > 0 {
        TilesAt(stack, 0, counter, 0);
      }
    }
  }

  lemma FirstZero(h: nat)
    ensures First(0, h) == 0
  {
    CeilShr(0, h, 0);
  }

  lemma WholeBlocks(p: Piece, h: nat, counter: nat)
    ensures var b := Blocks(p, h, 0, counter);
            |b| == Shr(counter, h) && forall i | 0 <= i < |b| :: b[i] == Block(p, h, i)
  {
    FirstZero(h);
  }

  lemma ObjectBlockIs(p: Piece, h: nat, counter: nat, k: nat)
    requires k <= Shr(counter, h)
    ensures At(k, h) <= counter
    ensures k < Shr(counter, h) ==> ObjectBlock(p, h, counter + 1, k) == Block(p, h, k).cv
    ensures k == Shr(counter, h) ==> ObjectBlock(p, h, counter + 1, k) == Node(p, At(k, h), counter + 1)
  {
    UnderShr(counter, h, k);
    ShrBounds(counter, h);
  }

  lemma FirstIs(x: nat, h: nat, q: nat)
    requires At(q, h) <= x + P(h) < At(q, h) + P(h)
    ensures First(x + 1, h) == q
  {
    ShrIs(x + P(h), h, q);
    assert x + 1 + P(h) - 1 == x + P(h);
  }

  lemma ObjectBlockCount(h: nat, counter: nat)
    ensures First(counter + 1, h) == Shr(counter, h) + 1
  {
    ShrBounds(counter, h);
    AtSucc(Shr(counter, h), h);
    FirstIs(counter, h, Shr(counter, h) + 1);
  }

  /** The recorded blocks and the tail are the object's blocks. */
  lemma ObjectBlocksAre(p: Piece, h: nat, counter: nat, stack: seq<Subtree>, blocks: seq<Subtree>, cvs: seq<CV>)
    requires Stacked(p, stack, blocks, h, 0, counter) && |cvs| == |blocks| + 1
    requires forall i | 0 <= i < |blocks| :: cvs[i] == blocks[i].cv
    requires At(Shr(counter, h), h) <= counter
    requires cvs[|blocks|] == Node(p, At(Shr(counter, h), h), counter + 1)
    ensures IsObjectBlocks(p, h, counter + 1, cvs)
  {
    OpenStack(p, stack, blocks, h, 0, counter);
    WholeBlocks(p, h, counter);
    ObjectBlockCount(h, counter);
    forall k | 0 <= k < |cvs| ensures At(k, h) < counter + 1 && cvs[k] == ObjectBlock(p, h, counter + 1, k) {
      ObjectBlockIs(p, h, counter, k);
    }
  }

  lemma ObjectAre(p: Piece, h: nat, counter: nat, head: seq<byte>, skip: nat, last: seq<byte>, o: Object)
    requires p.start == 0 && LastChunk(p, 0, counter, head, skip, last)
    requires o.size == |p.data| && o.chunkLog == h && o.root == Root(p.data)
    requires |p.data| == 0 ==> o.blocks == []
    requires |p.data| > 0 ==> IsObjectBlocks(p, h, counter + 1, o.blocks)
    ensures IsObject(o, p.data, h)
  {
    LastLeaf(p, counter, head, skip, last);
    assert p == Piece(0, p.data);
  }

  /** With a whole last chunk counted, the counter is the chunk after the range's
      last whole one. */
  lemma RangeBounds(p: Piece, offset: nat, counter: nat, head: seq<byte>, skip: nat, last: seq<byte>)
    requires LastChunk(p, offset, counter, head, skip, last)
    ensures offset == FirstChunk(p)
    ensures EndChunk(p) == (if |last| == CHUNK then counter + 1 else counter)
    ensures IsEnds(p, head, if |last| == CHUNK then [] else last)
    ensures last != [] ==> skip == 0
  {
    OpenHeld(p, offset, counter, head, skip, last);
  }

  lemma HeldEmpty(start: nat)
    ensures var chunk := (start + CHUNK - 1) / CHUNK;
            Held(Piece(start, []), chunk, chunk, [], chunk * CHUNK - start, [])
  {
  }

  /** Pairing the blocks of a stacked span raises their height. */
  lemma StackedRaised(p: Piece, stack: seq<Subtree>, blocks: seq<Subtree>, next: seq<Subtree>, h: nat, lo: nat, hi: nat)
    requires Stacked(p, stack, blocks, h, lo, hi)
    requires next == BlockRun(p, h + 1, (First(lo, h) + 1) / 2, Shr(hi, h) / 2)
    ensures Stacked(p, stack, next, h + 1, lo, hi)
  {
    OpenStack(p, stack, blocks, h, lo, hi);
    HalvedBounds(lo, hi, h);
  }

  /** The parts of a finished range. */
  lemma RangeAre(p: Piece, h: nat, stack: seq<Subtree>, blocks: seq<Subtree>, head: seq<byte>, tail: seq<byte>,
                 root: Option<CV>)
    requires Stacked(p, stack, blocks, h, FirstChunk(p), EndChunk(p)) && IsEnds(p, head, tail)
    requires root == if p.start == 0 then Some(Root(p.data)) else None
    ensures IsRange(Range(p.start, |p.data|, root, head, tail, stack, h, AsBlocks(blocks)), p, h)
  {
    OpenStack(p, stack, blocks, h, FirstChunk(p), EndChunk(p));
  }

  /** A whole body has its first chunk at 0. */
  lemma HeldFromZero(p: Piece, offset: nat, counter: nat, head: seq<byte>, skip: nat, b: seq<byte>)
    requires Held(p, offset, counter, head, skip, b) && p.start == 0
    ensures offset == 0
  {
    OpenHeld(p, offset, counter, head, skip, b);
  }

  lemma StackedEmpty(p: Piece, h: nat, lo: nat)
    ensures Stacked(p, [], [], h, lo, lo)
  {
    BlockInside(lo, lo, h, First(lo, h));
  }
}
