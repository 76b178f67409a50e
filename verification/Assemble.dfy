/** `Assemble`: a body's tree material from ranges hashed separately. */
module Assemble {
  import opened Options
  import opened Bytes
  import opened Pow2
  import opened Seal
  import opened Blake3Spec
  import opened Dyadic
  import opened BlockList
  import opened HasherSpec
  import opened Cover
  import opened Subtrees
  import opened AssembleSpec
  import H = Hasher
  import CL = ChunkLog
  import RB = RootFromBlocks

  /** `BlockSubtrees`. */
  function BlockSubtrees(r: Range): seq<Subtree> { AsSubtrees(r.blocks, r.chunkLog) }

  function AsSubtrees(b: seq<BlockAt>, h: nat): (s: seq<Subtree>)
    ensures |s| == |b| && forall i | 0 <= i < |b| :: s[i] == Subtree(b[i].cv, h, b[i].offset / CHUNK)
  {
    seq(|b|, i requires 0 <= i < |b| => Subtree(b[i].cv, h, b[i].offset / CHUNK))
  }

  lemma BlocksBack(p: Piece, h: nat, lo: nat, hi: nat)
    ensures AsSubtrees(AsBlocks(Blocks(p, h, lo, hi)), h) == Blocks(p, h, lo, hi)
  {
    var b := Blocks(p, h, lo, hi);
    forall i | 0 <= i < |b| ensures AsSubtrees(AsBlocks(b), h)[i] == b[i] {
      assert b[i] == Block(p, h, First(lo, h) + i);
    }
  }

  lemma BlockSubtreesAre(r: Range, body: seq<byte>, c: nat)
    requires IsRangeOf(r, body, c)
    ensures var q := Slice(body, r.offset, r.offset + r.size);
            BlockSubtrees(r) == Blocks(q, r.chunkLog, FirstChunk(q), EndChunk(q))
  {
    OpenRange(r, body, c);
    var q := Slice(body, r.offset, r.offset + r.size);
    BlocksBack(q, r.chunkLog, FirstChunk(q), EndChunk(q));
  }

  /** A range's blocks are the aligned blocks of its height inside its whole
      chunks, with the body's chaining values. */
  lemma RangeBlocks(r: Range, body: seq<byte>, c: nat, t: Subtree)
    requires IsRangeOf(r, body, c)
    ensures var q := Slice(body, r.offset, r.offset + r.size);
            t in BlockSubtrees(r) <==>
              && t.height == r.chunkLog && Aligned(t.pos, t.height)
              && FirstChunk(q) <= t.pos && t.End() <= EndChunk(q) && RightOne(Piece(0, body), t)
  {
    OpenRange(r, body, c);
    var p, q := Piece(0, body), Slice(body, r.offset, r.offset + r.size);
    BlockSubtreesAre(r, body, c);
    BlocksAre(q, r.chunkLog, FirstChunk(q), EndChunk(q), t);
    if FirstChunk(q) <= t.pos && t.End() <= EndChunk(q) {
      PartLeaves(p, q, t.pos, t.End());
      NodeSame(p, q, t.pos, t.End());
    }
  }

  /** The position of the block of height `g` that holds chunk `x`. */
  function BlockPos(x: nat, g: nat): (pos: nat)
    ensures Aligned(pos, g) && pos <= x < pos + P(g)
  {
    ShrBounds(x, g);
    AlignedAt(Shr(x, g), g);
    At(Shr(x, g), g)
  }

  lemma SubtreeInRange(r: Range, body: seq<byte>, c: nat, t: Subtree)
    requires IsRangeOf(r, body, c) && t in r.subtrees
    ensures var q := Slice(body, r.offset, r.offset + r.size);
            FirstChunk(q) <= t.pos && t.End() <= EndChunk(q) && Aligned(t.pos, t.height)
  {
    OpenRange(r, body, c);
    var q := Slice(body, r.offset, r.offset + r.size);
    var i :| 0 <= i < |r.subtrees| && r.subtrees[i] == t;
    TilesAt(r.subtrees, FirstChunk(q), EndChunk(q), i);
  }

  /** A subtree taller than the block that holds chunk `x` has the range's block
      at `x` inside the block. */
  lemma BlockInTallSubtree(r: Range, body: seq<byte>, c: nat, t: Subtree, lo: nat, x: nat) returns (b: Subtree)
    requires IsRangeOf(r, body, c) && t in r.subtrees && t.height > c
    requires Aligned(lo, c) && lo <= x < lo + P(c) && Covers(t, x)
    ensures b in BlockSubtrees(r) && InSpan(b, lo, lo + P(c)) && Covers(b, x)
    ensures lo + P(c) <= t.End()
  {
    SubtreeInRange(r, body, c, t);
    var g := r.chunkLog;
    var pos := BlockPos(x, g);
    b := Subtree(Node(Piece(0, body), pos, pos + P(g)), g, pos);
    AlignedInside(t.pos, t.height, pos, g, x);
    AlignedInside(lo, c, pos, g, x);
    AlignedInside(t.pos, t.height, lo, c, x);
    RangeBlocks(r, body, c, b);
  }

  /** Of two aligned blocks with a chunk in common, the taller holds the other. */
  lemma AlignedInside(a: nat, h: nat, b: nat, g: nat, x: nat)
    requires Aligned(a, h) && Aligned(b, g) && g <= h
    requires a <= x < a + P(h) && b <= x < b + P(g)
    ensures a <= b && b + P(g) <= a + P(h)
  {
    AlignedDown(a, g, h);
    BitFlip(a, h);
    AlignedDown(a + P(h), g, h);
    if b < a {
      AlignedGap(b, a, g);
    }
    AlignedGap(b, a + P(h), g);
  }

  lemma {:induction false} TileOf(s: seq<Subtree>, lo: nat, hi: nat, x: nat) returns (t: Subtree)
    requires Tiles(s, lo, hi) && lo <= x < hi
    ensures t in s && Covers(t, x) && Aligned(t.pos, t.height) && t.End() <= hi
    decreases |s|
  {
    t := s[|s| - 1];
    if x < t.pos {
      t := TileOf(s[..|s| - 1], lo, t.pos, x);
    }
  }

  /** The nodes tile the body and the ranges' blocks refine the tall ones, so every
      block of the body is covered. */
  lemma BlockCovered(nodes: seq<Subtree>, all: seq<Subtree>, ranges: seq<Range>, body: seq<byte>, c: nat, n: nat,
                     lo: nat, hi: nat)
    requires Tiles(nodes, 0, n) && FromRanges(nodes, ranges)
    requires forall r | r in ranges :: IsRangeOf(r, body, c)
    requires forall t | t in nodes :: t in all
    requires forall r, t | r in ranges && t in BlockSubtrees(r) :: t in all
    requires Aligned(lo, c) && lo < hi <= n && (hi == lo + P(c) || (hi == n && hi < lo + P(c)))
    ensures Covered(all, lo, hi)
  {
    forall x | lo <= x < hi ensures CoveredAt(all, lo, hi, x) {
      var t := TileOf(nodes, 0, n, x);
      if t.height <= c {
        AlignedInside(lo, c, t.pos, t.height, x);
        assert InSpan(t, lo, hi);
      } else {
        var r :| r in ranges && t in r.subtrees;
        var b := BlockInTallSubtree(r, body, c, t, lo, x);
        assert b in all && InSpan(b, lo, hi) && Covers(b, x);
      }
    }
  }

  // ---------------------------------------------------------------------------

  /** The first loop: the offsets must follow on, and empty ranges are dropped. */
  method KeepFilled(ranges: seq<Range>, ghost body: seq<byte>, ghost c: nat)
    returns (filled: seq<Range>, total: nat, ok: bool)
    ensures ok ==> filled == Filled(ranges) && total == TotalSize(ranges)
    ensures RangesTo(ranges, body, c, |body|) ==> ok && total == |body|
  {
    filled, total := [], 0;
    for i := 0 to |ranges|
      invariant filled == Filled(ranges[..i]) && total == TotalSize(ranges[..i])
    {
      assert ranges[..i + 1][..i] == ranges[..i];
      if ranges[i].offset != total {
        return filled, total, false;
      }
      total := total + ranges[i].size;
      if ranges[i].size > 0 {
        filled := filled + [ranges[i]];
      }
    }
    assert ranges[..|ranges|] == ranges;
    ok := true;
  }

  /** One round of the second loop. */
  method AddRange(r: Range, nodes: seq<Subtree>, pending: seq<byte>, chunk: nat)
    returns (nodes': seq<Subtree>, pending': seq<byte>, chunk': nat, ok: bool)
    ensures ok <==> Round(r, nodes, pending, chunk).Some?
    ensures ok ==> Round(r, nodes, pending, chunk) == Some((nodes', pending', chunk'))
    ensures forall t | t in nodes' :: t in nodes || t.height == 0 || t in r.subtrees
  {
    chunk' := if |pending| == 0 then r.offset / CHUNK else chunk;
    nodes', pending' := nodes, pending + r.head;
    GapIsRemainder(r.offset);
    if |r.head| < (CHUNK - r.offset % CHUNK) % CHUNK {
      ok := !(|r.subtrees| > 0 || |r.tail| > 0);
      return;
    }
    if |pending'| == CHUNK {
      nodes' := nodes' + [Subtree(Chunk(pending', chunk', false), 0, chunk')];
    } else if |pending'| != 0 {
      ok := false;
      return;
    }
    nodes' := nodes' + r.subtrees;
    pending', chunk', ok := r.tail, TailChunk(r), true;
  }

  lemma TotalNext(filled: seq<Range>, i: nat)
    requires Consecutive(filled) && i < |filled|
    ensures filled[i].offset == TotalSize(filled[..i])
    ensures filled[i].offset + filled[i].size == TotalSize(filled[..i + 1])
  {
    assert filled[..i + 1][..i] == filled[..i];
  }

  lemma ProgressStep(filled: seq<Range>, body: seq<byte>, c: nat, i: nat,
                     nodes: seq<Subtree>, pending: seq<byte>, chunk: nat)
    requires Whole(filled, body, c)
    requires i < |filled| && Progress(filled, body, c, i, nodes, pending, chunk)
    ensures match Round(filled[i], nodes, pending, chunk)
            case Some((n, p, k)) => NodesTo(body, n, p, k, TotalSize(filled[..i + 1]))
            case None => false
  {
    TotalNext(filled, i);
    assert filled[i] in filled;
    RoundIs(filled[i], body, c, nodes, pending, chunk);
  }

  lemma FromRangesStep(before: seq<Subtree>, after: seq<Subtree>, filled: seq<Range>, i: nat)
    requires i < |filled| && FromRanges(before, filled)
    requires forall t | t in after :: t in before || t.height == 0 || t in filled[i].subtrees
    ensures FromRanges(after, filled)
  {
    assert filled[i] in filled;
  }

  lemma AllTaken(filled: seq<Range>, body: seq<byte>, c: nat, nodes: seq<Subtree>, pending: seq<byte>, chunk: nat)
    requires Progress(filled, body, c, |filled|, nodes, pending, chunk)
    ensures Whole(filled, body, c)
        ==> NodesOf(body, if |pending| > 0 then nodes + [Subtree(Chunk(pending, chunk, false), 0, chunk)] else nodes)
  {
    if Whole(filled, body, c) {
      assert filled[..|filled|] == filled;
      if body != [] {
        LastStep(body, nodes, pending, chunk);
      }
    }
  }

  /** After `i` ranges: the nodes reach that far, and all come from the ranges. */
  ghost predicate Taken(filled: seq<Range>, body: seq<byte>, c: nat, i: nat, nodes: seq<Subtree>, pending: seq<byte>,
                        chunk: nat)
    requires i <= |filled|
  {
    forall key {:trigger Opened(key)} :: Opened(key) ==>
      Progress(filled, body, c, i, nodes, pending, chunk) && FromRanges(nodes, filled)
  }

  /** What a round gives keeps that, or shows that the ranges are not the body. */
  ghost predicate RoundGives(filled: seq<Range>, body: seq<byte>, c: nat, i: nat,
                             nodes: seq<Subtree>, pending: seq<byte>, chunk: nat, ok: bool)
    requires i < |filled|
  {
    if ok then Taken(filled, body, c, i + 1, nodes, pending, chunk)
    else forall key {:trigger Opened(key)} :: Opened(key) ==> !Whole(filled, body, c) && FromRanges(nodes, filled)
  }

  lemma TakenNext(filled: seq<Range>, body: seq<byte>, c: nat, i: nat, nodes: seq<Subtree>, pending: seq<byte>,
                  chunk: nat,
                  nodes': seq<Subtree>, pending': seq<byte>, chunk': nat, ok: bool)
    requires i < |filled| && Taken(filled, body, c, i, nodes, pending, chunk)
    requires ok <==> Round(filled[i], nodes, pending, chunk).Some?
    requires ok ==> Round(filled[i], nodes, pending, chunk) == Some((nodes', pending', chunk'))
    requires forall t | t in nodes' :: t in nodes || t.height == 0 || t in filled[i].subtrees
    ensures RoundGives(filled, body, c, i, nodes', pending', chunk', ok)
  {
    assert Progress(filled, body, c, i, nodes, pending, chunk) && FromRanges(nodes, filled) by {
      assert Opened(0);
    }
    FromRangesStep(nodes, nodes', filled, i);
    if Whole(filled, body, c) {
      ProgressStep(filled, body, c, i, nodes, pending, chunk);
    }
  }

  /** The second loop: each range's subtrees, and the chunks that straddle ranges. */
  method CollectNodes(filled: seq<Range>, ghost body: seq<byte>, ghost c: nat) returns (nodes: seq<Subtree>, ok: bool)
    ensures Whole(filled, body, c) ==> ok && NodesOf(body, nodes)
    ensures FromRanges(nodes, filled)
  {
    nodes, ok := [], true;
    var pending: seq<byte>, chunk: nat := [], 0;
    for i := 0 to |filled|
      invariant Taken(filled, body, c, i, nodes, pending, chunk)
    {
      ghost var n, p, k := nodes, pending, chunk;
      nodes, pending, chunk, ok := AddRange(filled[i], nodes, pending, chunk);
      TakenNext(filled, body, c, i, n, p, k, nodes, pending, chunk, ok);
      if !ok {
        assert Opened(0);
        return;
      }
    }
    assert Opened(0);
    AllTaken(filled, body, c, nodes, pending, chunk);
    if |pending| > 0 {
      nodes := nodes + [Subtree(Chunk(pending, chunk, false), 0, chunk)];
    }
  }

  /** A node that covers a body of two chunks or more belongs to a range that holds
      the whole body. */
  lemma LoneNode(nodes: seq<Subtree>, filled: seq<Range>, body: seq<byte>, c: nat) returns (i: nat)
    requires Whole(filled, body, c) && |body| > CHUNK && |nodes| == 1
    requires Tiles(nodes, 0, ChunkCount(|body|)) && FromRanges(nodes, filled)
    ensures i < |filled| && filled[i].size == |body|
  {
    TilesAt(nodes, 0, ChunkCount(|body|), 0);
    var t := nodes[0];
    assert t in nodes && t.height > 0;
    var r :| r in filled && t in r.subtrees;
    i :| 0 <= i < |filled| && filled[i] == r;
    SubtreeInRange(r, body, c, t);
  }

  /** Two ranges or more of a body past one chunk leave two nodes or more; of a
      body of one chunk, one node. */
  lemma NodeCount(nodes: seq<Subtree>, filled: seq<Range>, body: seq<byte>, c: nat)
    requires Whole(filled, body, c) && |filled| >= 2 && body != []
    requires Tiles(nodes, 0, ChunkCount(|body|)) && FromRanges(nodes, filled)
    ensures |nodes| >= 2 <==> |body| > CHUNK
  {
    TilesTotal(nodes, 0, ChunkCount(|body|));
    TotalAtLeast(nodes);
    if |body| > CHUNK && |nodes| == 1 {
      var i := LoneNode(nodes, filled, body, c);
      NoneWhole(filled, i);
    }
  }

  /** The root, from the range that holds the whole body or from the nodes. */
  method RootOfBody(filled: seq<Range>, nodes: seq<Subtree>, total: nat, ghost body: seq<byte>, ghost c: nat)
    returns (root: Option<CV>)
    ensures Whole(filled, body, c) && total == |body| && FromRanges(nodes, filled) && NodesOf(body, nodes)
        ==> root == if |body| == 0 || |filled| == 1 || |body| > CHUNK then Some(Root(body)) else None
  {
    if total == 0 {
      var h := new H.Hasher(0, None);
      var o := h.FinishObject();
      return Some(o.root);
    }
    if |filled| == 1 {
      if Whole(filled, body, c) && total == |body| {
        assert filled[0] in filled && filled[..0] == [];
        OpenRange(filled[0], body, c);
        assert body[0..|body|] == body;
      }
      return filled[0].root;
    }
    root := RootFromSubtrees(nodes);
    if Whole(filled, body, c) && total == |body| && FromRanges(nodes, filled) && NodesOf(body, nodes) {
      assert filled != [];
      NodeCount(nodes, filled, body, c);
      if |nodes| >= 2 {
        RootOfIs(Piece(0, body), nodes, ChunkCount(|body|));
      }
    }
  }

  ghost predicate Coverable(all: seq<Subtree>, total: nat, c: nat, body: seq<byte>) {
    total == |body| && Sound(Piece(0, body), all) && AllCovered(all, c, ChunkCount(total))
  }

  /** The block at byte offset `off`, the `k`-th. */
  method CoverBlock(all: seq<Subtree>, total: nat, c: nat, off: nat, ghost k: nat, ghost body: seq<byte>)
    returns (cv: Option<CV>)
    requires off < total && off == CHUNK * At(k, c)
    ensures At(k, c) < ChunkCount(total)
    ensures Coverable(all, total, c, body) ==> cv == Some(ObjectBlock(Piece(0, body), c, ChunkCount(total), k))
  {
    var end := Min(off + CL.BlockSize(c), total);
    BlockSpan(off, total, c, k);
    cv := CoverCV(all, off / CHUNK, (end + CHUNK - 1) / CHUNK, Piece(0, body), c);
    if Coverable(all, total, c, body) {
      assert BlockIsCovered(all, c, ChunkCount(total), k);
    }
  }

  /** The last loop: the body's blocks from all the nodes at hand. */
  method CoverBlocks(all: seq<Subtree>, total: nat, c: nat, ghost body: seq<byte>) returns (blocks: seq<CV>, ok: bool)
    requires total > 0
    ensures Coverable(all, total, c, body) ==> ok && IsObjectBlocks(Piece(0, body), c, ChunkCount(total), blocks)
  {
    blocks, ok := [], true;
    var block := CL.BlockSize(c);
    var off := 0;
    AtZero(c);
    while off < total
      invariant off == CHUNK * At(|blocks|, c)
      invariant |blocks| > 0 ==> At(|blocks| - 1, c) < ChunkCount(total)
      invariant Coverable(all, total, c, body) ==> BlocksSoFar(Piece(0, body), c, ChunkCount(total), blocks)
      decreases total - off
    {
      var cv := CoverBlock(all, total, c, off, |blocks|, body);
      if cv.None? {
        return blocks, false;
      }
      if Coverable(all, total, c, body) {
        BlocksOneMore(Piece(0, body), c, ChunkCount(total), blocks, cv.value);
      }
      AtSucc(|blocks|, c);
      blocks := blocks + [cv.value];
      off := off + block;
    }
    BlockTotal(off, total, c, |blocks|);
  }

  lemma SpanArith(x: nat, m: nat, total: nat)
    requires m > 0 && CHUNK * x < total
    ensures CHUNK * x / CHUNK == x < ChunkCount(total)
    ensures (Min(CHUNK * x + CHUNK * m, total) + CHUNK - 1) / CHUNK == Min(x + m, ChunkCount(total))
  {
  }

  /** Byte offsets of block `k` in chunks. */
  lemma BlockSpan(off: nat, total: nat, c: nat, k: nat)
    requires off == CHUNK * At(k, c) && off < total
    ensures off / CHUNK == At(k, c) < ChunkCount(total)
    ensures (Min(off + CL.BlockSize(c), total) + CHUNK - 1) / CHUNK == Min(At(k, c) + P(c), ChunkCount(total))
    ensures Aligned(At(k, c), c) && At(k, c) < Min(At(k, c) + P(c), ChunkCount(total)) <= At(k, c) + P(c)
    ensures CL.BlockSize(c) > 0 && off + CL.BlockSize(c) == CHUNK * At(k + 1, c)
  {
    AlignedAt(k, c);
    SpanArith(At(k, c), P(c), total);
    AtSucc(k, c);
  }

  lemma BlockTotal(off: nat, total: nat, c: nat, k: nat)
    requires off == CHUNK * At(k, c) && total <= off && total > 0
    requires k > 0 ==> At(k - 1, c) < ChunkCount(total)
    ensures k == First(ChunkCount(total), c)
  {
    CountBound(At(k, c), total);
    CeilShr(ChunkCount(total), c, k);
    if k > 0 {
      CeilShr(ChunkCount(total), c, k - 1);
    }
  }

  lemma CountBound(x: nat, total: nat)
    requires 0 < total <= CHUNK * x
    ensures ChunkCount(total) <= x
  {
  }

  method AddBlocks(nodes: seq<Subtree>, filled: seq<Range>) returns (all: seq<Subtree>)
    ensures forall t | t in nodes :: t in all
    ensures forall r, t | r in filled && t in BlockSubtrees(r) :: t in all
    ensures forall t | t in all :: t in nodes || exists r :: r in filled && t in BlockSubtrees(r)
  {
    all := nodes;
    for i := 0 to |filled|
      invariant forall t | t in nodes :: t in all
      invariant forall r, t | r in filled[..i] && t in BlockSubtrees(r) :: t in all
      invariant forall t | t in all :: t in nodes || exists r :: r in filled[..i] && t in BlockSubtrees(r)
    {
      assert filled[..i + 1] == filled[..i] + [filled[i]];
      all := all + BlockSubtrees(filled[i]);
    }
    assert filled[..|filled|] == filled;
  }

  lemma AllSound(nodes: seq<Subtree>, all: seq<Subtree>, filled: seq<Range>, body: seq<byte>, c: nat)
    requires Whole(filled, body, c) && NodesOf(body, nodes) && body != []
    requires forall t | t in all :: t in nodes || exists r :: r in filled && t in BlockSubtrees(r)
    ensures Sound(Piece(0, body), all)
  {
    forall t | t in all ensures Aligned(t.pos, t.height) && RightOne(Piece(0, body), t) {
      if t in nodes {
        var i :| 0 <= i < |nodes| && nodes[i] == t;
        TilesAt(nodes, 0, ChunkCount(|body|), i);
      } else {
        var r :| r in filled && t in BlockSubtrees(r);
        RangeBlocks(r, body, c, t);
      }
    }
  }

  lemma AllBlocksCovered(nodes: seq<Subtree>, all: seq<Subtree>, filled: seq<Range>, body: seq<byte>, c: nat)
    requires Whole(filled, body, c) && NodesOf(body, nodes) && body != [] && FromRanges(nodes, filled)
    requires forall t | t in nodes :: t in all
    requires forall r, t | r in filled && t in BlockSubtrees(r) :: t in all
    ensures AllCovered(all, c, ChunkCount(|body|))
  {
    var n := ChunkCount(|body|);
    forall k: nat ensures BlockIsCovered(all, c, n, k) {
      if At(k, c) < n {
        AlignedAt(k, c);
        BlockCovered(nodes, all, filled, body, c, n, At(k, c), Min(At(k, c) + P(c), n));
      }
    }
  }

  /** The ranges are a body cut up: each hashed at its own offset, with blocks no
      coarser than the body's. */
  ghost predicate CutUp(ranges: seq<Range>, body: seq<byte>) {
    |body| < CL.INT64_LIMIT && RangesTo(ranges, body, CL.LogOf(|body|), |body|)
  }

  /** When the code can finish a body from its ranges. */
  predicate Finishable(ranges: seq<Range>, size: nat) {
    ranges != [] && (size == 0 || size > CHUNK || |Filled(ranges)| == 1)
  }

  lemma CutUpWhole(ranges: seq<Range>, body: seq<byte>)
    requires CutUp(ranges, body)
    ensures Whole(Filled(ranges), body, CL.LogOf(|body|))
  {
    FilledTo(ranges);
  }

  lemma WholeStart(filled: seq<Range>, body: seq<byte>, c: nat)
    requires Whole(filled, body, c)
    ensures filled == [] <==> body == []
    ensures filled != [] ==> filled[0].head == []
  {
    if filled != [] {
      assert filled[0] in filled && filled[..0] == [] && filled[..|filled|] == filled;
      TotalSizeMono(filled, 0, |filled|);
      NoHead(filled[0], body, c);
    }
  }

  lemma NoHead(r: Range, body: seq<byte>, c: nat)
    requires IsRangeOf(r, body, c) && r.offset == 0
    ensures r.head == []
  {
    OpenRange(r, body, c);
  }

  /** The end of `Assemble`: the blocks, checked against the root. */
  method Finish(filled: seq<Range>, nodes: seq<Subtree>, root: CV, total: nat, ghost body: seq<byte>)
    returns (o: Option<Object>)
    requires total < CL.INT64_LIMIT
    ensures Whole(filled, body, CL.LogOf(total)) && NodesOf(body, nodes) && FromRanges(nodes, filled)
         && total == |body| && root == Root(body)
        ==> o.Some? && IsObject(o.value, body, CL.LogOf(total))
    ensures o.Some? && |o.value.blocks| >= 2 ==> RB.Compute(o.value.blocks) == Some(o.value.root)
  {
    var c := CL.Compute(total);
    var blocks: seq<CV>, ok := [], true;
    if total > 0 {
      var all := AddBlocks(nodes, filled);
      blocks, ok := CoverBlocks(all, total, c, body);
      if Whole(filled, body, c) && NodesOf(body, nodes) && FromRanges(nodes, filled) && total == |body| {
        AllSound(nodes, all, filled, body, c);
        AllBlocksCovered(nodes, all, filled, body, c);
      }
    }
    if !ok {
      return None;
    }
    var obj := Object(total, root, c, blocks);
    if |blocks| >= 2 {
      if IsObject(obj, body, c) {
        RB.RootMatches(obj, body, c);
      }
      if RB.Compute(blocks) != Some(root) {
        return None;
      }
    }
    o := Some(obj);
  }

  /** `Assemble`. For a body cut into ranges anywhere, it succeeds exactly when the
      body is empty, longer than one chunk, or held by one range, and then gives
      the tree material the body hashed in one pass has. */
  method Assemble(ranges: seq<Range>, ghost body: seq<byte>) returns (o: Option<Object>)
    requires TotalSize(ranges) < CL.INT64_LIMIT
    ensures CutUp(ranges, body) ==> (o.Some? <==> Finishable(ranges, |body|))
    ensures CutUp(ranges, body) && o.Some? ==> IsObject(o.value, body, CL.LogOf(|body|))
    ensures o.Some? && |o.value.blocks| >= 2 ==> RB.Compute(o.value.blocks) == Some(o.value.root)
  {
    var filled, total, ok := KeepFilled(ranges, body, if |body| < CL.INT64_LIMIT then CL.LogOf(|body|) else 0);
    if !ok || |ranges| == 0 {
      return None;
    }
    if CutUp(ranges, body) {
      CutUpWhole(ranges, body);
      WholeStart(filled, body, CL.LogOf(total));
    }
    if |filled| > 0 && |filled[0].head| > 0 {
      return None;
    }
    var nodes, whole := CollectNodes(filled, body, CL.LogOf(total));
    if !whole {
      return None;
    }
    var root := RootOfBody(filled, nodes, total, body, CL.LogOf(total));
    if root.None? {
      return None;
    }
    o := Finish(filled, nodes, root.value, total, body);
  }
}
