/** The streaming hasher: blake3tree's `Hasher`. */
module Hasher {
  import opened Options
  import opened Bytes
  import opened Pow2
  import opened Blake3Spec
  import opened Dyadic
  import opened BlockList
  import opened HasherSpec
  import CL = ChunkLog

  class Hasher {
    const start: nat
    const offset: nat
    const fixed: bool
    const buf: array<byte>
    var counter: nat
    var size: nat
    var head: seq<byte>
    var skip: nat
    var buflen: nat
    var stack: seq<Subtree>
    var blockHeight: nat
    var blocks: seq<Subtree>
    ghost var written: seq<byte>

    ghost function P0(): Piece reads this { Piece(start, written) }

    /** The buffer holds what follows the stacked chunks. */
    ghost predicate Core()
      reads this, buf
    {
      && buf.Length == BUF_CHUNKS * CHUNK && buflen <= buf.Length
      && Held(P0(), offset, counter, head, skip, buf[..buflen])
      && Stacked(P0(), stack, blocks, blockHeight, offset, counter)
    }

    ghost predicate Valid()
      reads this, buf
    {
      && Core()
      && size == |written| < CL.INT64_LIMIT
      && blockHeight <= CL.MAX_CHUNK_LOG
      && (buflen == 0 ==> counter == offset)
      && (!fixed ==> blockHeight == CL.LogOf(size))
    }

    /** NewHasher and NewHasherAtChunkLog. */
    constructor (start: nat, chunkLog: Option<nat>)
      requires chunkLog.Some? ==> chunkLog.value <= CL.MAX_CHUNK_LOG
      ensures Valid() && fresh(buf)
      ensures written == [] && this.start == start
      ensures fixed == chunkLog.Some?
      ensures fixed ==> blockHeight == chunkLog.value
    {
      var chunk := (start + CHUNK - 1) / CHUNK;
      this.start, offset, counter := start, chunk, chunk;
      head, skip := [], chunk * CHUNK - start;
      size, buflen := 0, 0;
      stack, blocks := [], [];
      fixed := chunkLog.Some?;
      blockHeight := if chunkLog.Some? then chunkLog.value else CL.MIN_CHUNK_LOG;
      buf := new byte[BUF_CHUNKS * CHUNK];
      written := [];
      new;
      HeldEmpty(start);
      assert buf[..0] == [];
      StackedEmpty(P0(), blockHeight, offset);
      CL.LogOfEmpty();
    }

    /** `push`: merge with the stack's top while it is the left sibling, recording
        each node formed at the block height. */
    method PushNode(cv: CV, height: nat, pos: nat)
      modifies this`stack, this`blocks
      ensures stack == Push(old(stack), Subtree(cv, height, pos))
      ensures blocks == old(blocks) + Recorded(old(stack), Subtree(cv, height, pos), blockHeight)
    {
      stack, blocks := Merging(stack, blocks, blockHeight, Subtree(cv, height, pos));
    }

    method PushChunk(chunk: seq<byte>, pos: nat)
      requires Stacked(P0(), stack, blocks, blockHeight, offset, pos)
      requires P0().Leaf(pos) == Chunk(chunk, pos, false)
      modifies this`stack, this`blocks
      ensures Stacked(P0(), stack, blocks, blockHeight, offset, pos + 1)
    {
      ChunkStacked(P0(), stack, blocks, blockHeight, offset, pos);
      PushNode(Chunk(chunk, pos, false), 0, pos);
    }

    /** The first `k` chunks of the buffered bytes go onto the stack. */
    method PushFirst(b: seq<byte>, k: nat)
      requires Held(P0(), offset, counter, head, 0, b) && k * CHUNK <= |b|
      requires Stacked(P0(), stack, blocks, blockHeight, offset, counter)
      modifies this`stack, this`blocks
      ensures Stacked(P0(), stack, blocks, blockHeight, offset, counter + k)
    {
      for i := 0 to k
        invariant Stacked(P0(), stack, blocks, blockHeight, offset, counter + i)
      {
        HeldLeaf(P0(), offset, counter, head, b, i);
        PushChunk(b[i * CHUNK .. (i + 1) * CHUNK], counter + i);
      }
    }

    method PushBuffer()
      requires Core() && buflen == buf.Length
      requires counter % BUF_CHUNKS == 0 && blockHeight >= 4
      modifies this`stack, this`blocks
      ensures Stacked(P0(), stack, blocks, blockHeight, offset, counter + BUF_CHUNKS)
    {
      var cv := CompressBuffer(buf[..], counter);
      assert buf[..buflen] == buf[..];
      BufferTree(P0(), offset, counter, head, buf[..]);
      PushStacked(P0(), stack, blocks, blockHeight, offset, counter, Subtree(cv, 4, counter));
      PushNode(cv, 4, counter);
    }

    /** `flush`: a full buffer goes onto the stack as one subtree when it is aligned
        to sixteen chunks and the blocks are at least that large, else by chunks. */
    method Flush()
      requires Core() && buflen == buf.Length
      modifies this`stack, this`blocks, this`counter, this`buflen
      ensures Core() && buflen == 0
    {
      if counter % BUF_CHUNKS == 0 && blockHeight >= 4 {
        PushBuffer();
      } else {
        PushFirst(buf[..buflen], BUF_CHUNKS);
      }
      HeldFlushed(P0(), offset, counter, head, buf[..buflen]);
      counter := counter + BUF_CHUNKS;
      buflen := 0;
    }

    /** One round of `Write`'s loop: what fits of `p` is buffered. */
    method Buffer(p: seq<byte>) returns (c: nat)
      requires Core() && skip == 0 && buflen < buf.Length && p != []
      modifies this`buflen, this`written, buf
      ensures Core() && 0 < c <= |p| && buflen > 0
      ensures written == old(written) + p[..c]
    {
      c := Min(buf.Length - buflen, |p|);
      ghost var q := P0();
      forall i | 0 <= i < c {
        buf[buflen + i] := p[i];
      }
      HeldMore(q, offset, counter, head, old(buf[..buflen]), p[..c]);
      assert buf[..buflen + c] == old(buf[..buflen]) + p[..c];
      buflen := buflen + c;
      written := written + p[..c];
      StackedSame(P0(), q, stack, blocks, blockHeight, offset, counter);
    }

    method TakeHead(p: seq<byte>) returns (c: nat)
      requires Core()
      modifies this`head, this`skip, this`written
      ensures Core() && c <= |p| && written == old(written) + p[..c]
      ensures skip > 0 ==> c == |p|
    {
      c := Min(skip, |p|);
      if skip > 0 {
        HeldHead(P0(), offset, counter, head, skip, p[..c]);
        head := head + p[..c];
        skip := skip - c;
        written := written + p[..c];
        StackedEmpty(P0(), blockHeight, offset);
      } else {
        assert written + p[..0] == written;
      }
    }

    method BufferAll(data: seq<byte>)
      requires Core() && (buflen == 0 ==> counter == offset) && (skip > 0 ==> data == [])
      modifies this`stack, this`blocks, this`counter, this`buflen, this`written, buf
      ensures Core() && (buflen == 0 ==> counter == offset)
      ensures written == old(written) + data
    {
      var i := 0;
      assert written == old(written) + data[..0];
      while i < |data|
        invariant 0 <= i <= |data|
        invariant Core() && (buflen == 0 ==> counter == offset) && (skip > 0 ==> data == [])
        invariant written == old(written) + data[..i]
      {
        if buflen == buf.Length {
          // Only once more input arrives, so the last chunk is still buffered at the end.
          Flush();
        }
        var c := Buffer(data[i..]);
        TakeMore(old(written), data, i, c);
        i := i + c;
      }
    }

    /** `Write` up to the block height: the bytes are appended to what was written. */
    method Feed(data: seq<byte>)
      requires Core() && (buflen == 0 ==> counter == offset)
      modifies this`head, this`skip, this`stack, this`blocks, this`counter, this`buflen, this`written, buf
      ensures Core() && (buflen == 0 ==> counter == offset)
      ensures written == old(written) + data
    {
      var c := TakeHead(data);
      BufferAll(data[c..]);
      TakeMore(old(written), data, c, |data| - c);
    }

    /** `Write`: the bytes are appended to what was written, however they are cut. */
    method Write(data: seq<byte>)
      requires Valid() && |written| + |data| < CL.INT64_LIMIT
      modifies this, buf
      ensures Valid() && written == old(written) + data
      ensures fixed ==> blockHeight == old(blockHeight)
    {
      Feed(data);
      CL.LogMonotone(size, size + |data|);
      size := size + |data|;
      var log := CL.Compute(size);
      if !fixed {
        Raise(log);
      }
    }

    method Raise(log: nat)
      requires Core() && blockHeight <= log
      modifies this`blocks, this`blockHeight
      ensures Core() && blockHeight == log
    {
      while log > blockHeight
        invariant Core() && blockHeight <= log
      {
        Promote();
      }
    }

    /** `promote`: the block height rises by one and the block list follows it. */
    method Promote()
      requires Core()
      modifies this`blocks, this`blockHeight
      ensures Core() && blockHeight == old(blockHeight) + 1
    {
      StackBlocks(P0(), stack, blocks, blockHeight, offset, counter);
      var next := PairUp(blocks, blockHeight, P0(), First(offset, blockHeight), Shr(counter, blockHeight));
      StackedRaised(P0(), stack, blocks, next, blockHeight, offset, counter);
      blocks := next;
      blockHeight := blockHeight + 1;
    }

    /** `drain`: the buffered chunks but the last go onto the stack. */
    method Drain() returns (last: seq<byte>)
      requires Core() && (buflen == 0 ==> counter == offset)
      modifies this`stack, this`blocks, this`counter, this`buflen
      ensures LastChunk(P0(), offset, counter, head, skip, last)
      ensures Stacked(P0(), stack, blocks, blockHeight, offset, counter)
    {
      if buflen == 0 {
        return [];
      }
      var b := buf[..buflen];
      var k := (buflen - 1) / CHUNK;
      PushFirst(b, k);
      HeldDrained(P0(), offset, counter, head, b, k);
      last := b[k * CHUNK..];
      counter, buflen := counter + k, 0;
    }

    /** `rootNode`: the stack folded onto the last chunk, flagged as the root. */
    method RootNode(last: seq<byte>) returns (cv: CV)
      ensures cv == AsRoot(Fold(stack, Chunk(last, counter, false)))
    {
      cv := Chunk(last, counter, false);
      var i := |stack|;
      assert stack[..i] == stack;
      while i > 0
        invariant 0 <= i <= |stack|
        invariant Fold(stack[..i], cv) == Fold(stack, Chunk(last, counter, false))
      {
        assert stack[..i][..i - 1] == stack[..i - 1];
        i := i - 1;
        cv := Parent(stack[i].cv, cv, false);
      }
      cv := AsRoot(cv);
    }

    /** The blocks of a finished object: those recorded, and the tail. */
    method ObjectBlocks(last: seq<byte>) returns (cvs: seq<CV>)
      requires Stacked(P0(), stack, blocks, blockHeight, 0, counter)
      requires P0().Leaf(counter) == Chunk(last, counter, false)
      ensures size == 0 ==> cvs == []
      ensures size > 0 ==> IsObjectBlocks(P0(), blockHeight, counter + 1, cvs)
    {
      var tail := TailBlock(stack, counter, blockHeight, Chunk(last, counter, false), P0(), blocks);
      cvs := [];
      if size > 0 {
        cvs := CVsOf(blocks);
        cvs := cvs + [tail];
        ObjectBlocksAre(P0(), blockHeight, counter, stack, blocks, cvs);
      }
    }

    /** `FinishObject`: the BLAKE3 root and blocks of everything written. */
    method FinishObject() returns (o: Object)
      requires Valid() && start == 0
      modifies this`stack, this`blocks, this`counter, this`buflen
      ensures IsObject(o, written, blockHeight)
      ensures !fixed ==> o.chunkLog == CL.LogOf(|written|)
    {
      var last := Drain();
      HeldFromZero(P0(), offset, counter, head, skip, last);
      RootIs(P0(), stack, blocks, blockHeight, counter, head, skip, last);
      LastLeaf(P0(), counter, head, skip, last);
      var root := RootNode(last);
      var cvs := ObjectBlocks(last);
      o := Object(size, root, blockHeight, cvs);
      ObjectAre(P0(), blockHeight, counter, head, skip, last, o);
    }

    /** The end of `FinishRange`: a whole last chunk joins the stack, a short one is
        the tail. */
    method EndRange(last: seq<byte>) returns (tail: seq<byte>)
      requires LastChunk(P0(), offset, counter, head, skip, last)
      requires Stacked(P0(), stack, blocks, blockHeight, offset, counter)
      modifies this`stack, this`blocks, this`counter
      ensures Stacked(P0(), stack, blocks, blockHeight, FirstChunk(P0()), EndChunk(P0()))
      ensures IsEnds(P0(), head, tail)
    {
      tail := [];
      RangeBounds(P0(), offset, counter, head, skip, last);
      if |last| == CHUNK {
        PushFirst(last, 1);
        counter := counter + 1;
      } else if |last| > 0 {
        tail := last;
      }
    }

    /** A range from offset 0 also carries the root of its own bytes. */
    method RangeRoot(last: seq<byte>) returns (root: Option<CV>)
      requires LastChunk(P0(), offset, counter, head, skip, last)
      requires Stacked(P0(), stack, blocks, blockHeight, offset, counter)
      ensures root == if start == 0 then Some(Root(written)) else None
    {
      root := None;
      if start == 0 {
        HeldFromZero(P0(), offset, counter, head, skip, last);
        RootIs(P0(), stack, blocks, blockHeight, counter, head, skip, last);
        var cv := RootNode(last);
        root := Some(cv);
      }
    }

    /** `FinishRange`: the range's subtrees, blocks, head and tail. */
    method FinishRange() returns (r: Range)
      requires Valid()
      modifies this`stack, this`blocks, this`counter, this`buflen
      ensures IsRange(r, P0(), blockHeight)
      ensures !fixed ==> r.chunkLog == CL.LogOf(|written|)
    {
      var last := Drain();
      var root := RangeRoot(last);
      var tail := EndRange(last);
      r := Range(start, size, root, head, tail, stack, blockHeight, AsBlocks(blocks));
      RangeAre(P0(), blockHeight, stack, blocks, head, tail, root);
    }
  }

  lemma TakeMore(w: seq<byte>, data: seq<byte>, i: nat, c: nat)
    requires i + c <= |data|
    ensures w + data[..i] + data[i..][..c] == w + data[..i + c]
    ensures data[i..][..|data| - i] == data[i..] && data[..|data|] == data
  {
  }

  lemma RecordedStep(kept: seq<Subtree>, s: seq<Subtree>, n: Subtree, h: nat)
    ensures var now := if n.height == h then kept + [n] else kept;
            kept + Recorded(s, n, h) == if Merges(s, n) then now + Recorded(s[..|s| - 1], Merged(s, n), h) else now
  {
    var rest := if Merges(s, n) then Recorded(s[..|s| - 1], Merged(s, n), h) else [];
    if n.height == h {
      assert kept + ([n] + rest) == (kept + [n]) + rest;
    } else {
      assert [] + rest == rest;
    }
  }

  lemma PushStep(s: seq<Subtree>, n: Subtree)
    ensures Push(s, n) == if Merges(s, n) then Push(s[..|s| - 1], Merged(s, n)) else s + [n]
  {
  }

  /** The loop of `push`. */
  method Merging(stack: seq<Subtree>, blocks: seq<Subtree>, h: nat, node: Subtree)
    returns (stack': seq<Subtree>, blocks': seq<Subtree>)
    ensures stack' == Push(stack, node)
    ensures blocks' == blocks + Recorded(stack, node, h)
  {
    var n := node;
    stack', blocks' := stack, blocks;
    while true
      invariant Push(stack', n) == Push(stack, node)
      invariant blocks' + Recorded(stack', n, h) == blocks + Recorded(stack, node, h)
      decreases |stack'|
    {
      RecordedStep(blocks', stack', n, h);
      PushStep(stack', n);
      if n.height == h {
        blocks' := blocks' + [n];
      }
      var top := |stack'| - 1;
      if top < 0 || stack'[top].height != n.height || Bit(n.pos, n.height) == 0 {
        break;
      }
      var left := stack'[top];
      stack' := stack'[..top];
      n := Subtree(Parent(left.cv, n.cv, false), n.height + 1, left.pos);
    }
    stack' := stack' + [n];
  }

  method CVsOf(blocks: seq<Subtree>) returns (cvs: seq<CV>)
    ensures |cvs| == |blocks| && forall i | 0 <= i < |blocks| :: cvs[i] == blocks[i].cv
  {
    cvs := [];
    for j := 0 to |blocks|
      invariant |cvs| == j && forall i | 0 <= i < j :: cvs[i] == blocks[i].cv
    {
      cvs := cvs + [blocks[j].cv];
    }
  }

  /** The body's last, possibly short, block: the stack entries below the block
      height merged with the last chunk. */
  method TailBlock(stack: seq<Subtree>, counter: nat, h: nat, leaf: CV, ghost p: Piece, ghost blocks: seq<Subtree>)
    returns (cv: CV)
    requires Stacked(p, stack, blocks, h, 0, counter) && p.Leaf(counter) == leaf
    ensures At(Shr(counter, h), h) <= counter
    ensures cv == Node(p, At(Shr(counter, h), h), counter + 1)
  {
    StackFalls(p, stack, blocks, h, counter);
    OpenStack(p, stack, blocks, h, 0, counter);
    cv := leaf;
    var i := |stack|;
    while i > 0 && stack[i - 1].height < h
      invariant 0 <= i <= |stack|
      invariant FoldedFrom(p, stack, counter, i, cv)
      invariant i < |stack| ==> stack[i].height < h
    {
      FoldStep(p, stack, counter, i, cv);
      cv := Parent(stack[i - 1].cv, cv, false);
      i := i - 1;
    }
    if i < |stack| {
      PowMono(stack[i].height, h);
    }
    FoldStops(stack, counter, i, h);
  }

  /** The loop of `promote`: siblings pair into the blocks one level up, and an
      unpaired block drops out. */
  method PairUp(blocks: seq<Subtree>, h: nat, ghost p: Piece, ghost k0: nat, ghost k1: nat)
    returns (next: seq<Subtree>)
    requires blocks == BlockRun(p, h, k0, k1)
    ensures next == BlockRun(p, h + 1, (k0 + 1) / 2, k1 / 2)
  {
    next := [];
    var i := 0;
    ghost var j: nat := (k0 + 1) / 2;
    while i < |blocks|
      invariant 0 <= i <= |blocks| && (k0 + 1) / 2 <= j
      invariant 2 * j == k0 + i || (i == 0 && 2 * j == k0 + 1) || (i == |blocks| && 2 * j == k0 + i - 1)
      invariant next == BlockRun(p, h + 1, (k0 + 1) / 2, j)
    {
      var l := blocks[i];
      PairCase(p, h, k0, k1, blocks, i);
      if Bit(l.pos, h) == 0 && i + 1 < |blocks| && blocks[i + 1].pos == l.pos + P(h) {
        PairStep(p, h, (k0 + 1) / 2, j);
        next := next + [Subtree(Parent(l.cv, blocks[i + 1].cv, false), h + 1, l.pos)];
        i := i + 2;
        j := j + 1;
      } else {
        i := i + 1;
      }
    }
    PairEnd(p, h, k0, k1, j);
  }

  lemma PairEnd(p: Piece, h: nat, k0: nat, k1: nat, j: nat)
    requires (k0 + 1) / 2 <= j && (k0 < k1 ==> j == k1 / 2) && (k1 <= k0 ==> j <= (k0 + 1) / 2)
    ensures BlockRun(p, h + 1, (k0 + 1) / 2, j) == BlockRun(p, h + 1, (k0 + 1) / 2, k1 / 2)
  {
    RunStays(p, h + 1, (k0 + 1) / 2, j, k1 / 2);
  }

  lemma PairCase(p: Piece, h: nat, k0: nat, k1: nat, blocks: seq<Subtree>, i: nat)
    requires blocks == BlockRun(p, h, k0, k1) && i < |blocks|
    ensures blocks[i] == Block(p, h, k0 + i) && Bit(blocks[i].pos, h) == (k0 + i) % 2
    ensures i + 1 < |blocks| ==> blocks[i + 1] == Block(p, h, k0 + i + 1) && blocks[i + 1].pos == blocks[i].pos + P(h)
  {
    BlockBit(h, k0 + i);
  }

  lemma PairStep(p: Piece, h: nat, j0: nat, j: nat)
    requires j0 <= j
    ensures BlockRun(p, h + 1, j0, j)
          + [Subtree(Parent(Block(p, h, 2 * j).cv, Block(p, h, 2 * j + 1).cv, false), h + 1, Block(p, h, 2 * j).pos)]
         == BlockRun(p, h + 1, j0, j + 1)
  {
    BlockPair(p, h, j);
  }
}
