/** What `Assemble` is given and what it keeps while it collects nodes. */
module AssembleSpec {
  import opened Options
  import opened Bytes
  import opened Pow2
  import opened Blake3Spec
  import opened Dyadic
  import opened BlockList
  import opened HasherSpec
  import opened Cover

  function TotalSize(ranges: seq<Range>): nat {
    if ranges == [] then 0 else TotalSize(ranges[..|ranges| - 1]) + ranges[|ranges| - 1].size
  }

  /** Each range starts where the ones before it end. */
  predicate Consecutive(ranges: seq<Range>) {
    forall i | 0 <= i < |ranges| :: ranges[i].offset == TotalSize(ranges[..i])
  }

  /** The ranges cover the body's first `end` bytes in order, each hashed at its
      own offset with blocks no coarser than `c`. */
  ghost predicate RangesTo(ranges: seq<Range>, body: seq<byte>, c: nat, end: nat) {
    && Consecutive(ranges) && TotalSize(ranges) == end
    && forall r | r in ranges :: IsRangeOf(r, body, c)
  }

  /** The ranges that hold any bytes. */
  function Filled(ranges: seq<Range>): (f: seq<Range>)
    ensures forall r | r in f :: r.size > 0 && r in ranges
  {
    if ranges == [] then []
    else
      var n := |ranges| - 1;
      Filled(ranges[..n]) + (if ranges[n].size > 0 then [ranges[n]] else [])
  }

  lemma ConsecutiveInit(ranges: seq<Range>)
    requires Consecutive(ranges) && ranges != []
    ensures Consecutive(ranges[..|ranges| - 1])
  {
    var init := ranges[..|ranges| - 1];
    forall i | 0 <= i < |init| ensures init[i].offset == TotalSize(init[..i]) {
      assert init[..i] == ranges[..i];
    }
  }

  lemma ConsecutiveAdd(s: seq<Range>, r: Range)
    requires Consecutive(s) && r.offset == TotalSize(s)
    ensures Consecutive(s + [r]) && TotalSize(s + [r]) == TotalSize(s) + r.size
  {
    var t := s + [r];
    assert t[..|s|] == s;
    forall i | 0 <= i < |t| ensures t[i].offset == TotalSize(t[..i]) {
      assert i < |s| ==> t[..i] == s[..i];
    }
  }

  lemma {:induction false} FilledTo(ranges: seq<Range>)
    requires Consecutive(ranges)
    ensures Consecutive(Filled(ranges)) && TotalSize(Filled(ranges)) == TotalSize(ranges)
    decreases |ranges|
  {
    if ranges != [] {
      var n := |ranges| - 1;
      ConsecutiveInit(ranges);
      FilledTo(ranges[..n]);
      if ranges[n].size > 0 {
        ConsecutiveAdd(Filled(ranges[..n]), ranges[n]);
      } else {
        assert Filled(ranges) == Filled(ranges[..n]);
      }
    }
  }

  lemma {:induction false} TotalSizeMono(ranges: seq<Range>, i: nat, j: nat)
    requires i <= j <= |ranges|
    ensures TotalSize(ranges[..i]) <= TotalSize(ranges[..j])
    ensures i < j ==> TotalSize(ranges[..i]) + ranges[i].size <= TotalSize(ranges[..j])
    decreases j
  {
    if i < j {
      assert ranges[..j][..j - 1] == ranges[..j - 1];
      TotalSizeMono(ranges, i, j - 1);
    }
  }

  /** Of two non-empty ranges or more, none holds the whole body. */
  lemma NoneWhole(ranges: seq<Range>, i: nat)
    requires (forall r | r in ranges :: r.size > 0) && |ranges| >= 2 && i < |ranges|
    ensures ranges[i].size < TotalSize(ranges)
  {
    var n := |ranges|;
    assert ranges[..n] == ranges;
    var b := if i == 0 then 1 else i;
    assert ranges[0] in ranges && ranges[b] in ranges;
    TotalSizeMono(ranges, 0, b);
    TotalSizeMono(ranges, b, n);
  }

  // ---------------------------------------------------------------------------

  /** After `d` bytes: the nodes tile the whole chunks, and the bytes of the chunk
      in progress are pending. */
  ghost predicate NodesTo(body: seq<byte>, nodes: seq<Subtree>, pending: seq<byte>, chunk: nat, d: nat) {
    && d <= |body|
    && Tiles(nodes, 0, d / CHUNK) && Right(Piece(0, body), nodes)
    && pending == body[d / CHUNK * CHUNK..d]
    && (pending != [] ==> chunk == d / CHUNK)
  }

  /** Every node above a chunk is a subtree of one of the ranges. */
  ghost predicate FromRanges(nodes: seq<Subtree>, ranges: seq<Range>) {
    forall t | t in nodes && t.height > 0 :: exists r :: r in ranges && t in r.subtrees
  }

  /** The bytes before the first chunk boundary at or after `d`. */
  function Gap(d: nat): (g: nat)
    ensures g < CHUNK
  {
    (d + CHUNK - 1) / CHUNK * CHUNK - d
  }

  /** The code computes it with remainders. */
  lemma GapIsRemainder(d: nat)
    ensures Gap(d) == (CHUNK - d % CHUNK) % CHUNK
  {
  }

  /** The chunk index of the range's tail; a negative offset converts to uint64. */
  function TailChunk(r: Range): nat {
    var x := r.offset + r.size - |r.tail|;
    if x >= 0 then x / CHUNK else Wrapped(x) / CHUNK
  }

  function Wrapped(x: int): nat { x % 0x1_0000_0000_0000_0000 }

  /** The head is the range's bytes up to the first chunk boundary or its end. */
  lemma HeadIs(body: seq<byte>, c: nat, r: Range)
    requires IsRangeOf(r, body, c)
    ensures r.offset + r.size <= |body|
    ensures r.head == body[r.offset..r.offset + Min(Gap(r.offset), r.size)]
  {
    OpenRange(r, body, c);
    SliceOfSlice(body, r.offset, r.offset + r.size, 0, Min(Gap(r.offset), r.size));
  }

  lemma InsideHasNoChunks(body: seq<byte>, c: nat, r: Range)
    requires IsRangeOf(r, body, c) && r.size < Gap(r.offset)
    ensures r.subtrees == [] && r.tail == []
  {
    OpenRange(r, body, c);
    var q := Slice(body, r.offset, r.offset + r.size);
    assert EndChunk(q) == FirstChunk(q);
  }

  /** A range that ends inside the chunk it starts in only adds pending bytes. */
  lemma StepInside(body: seq<byte>, c: nat, r: Range, nodes: seq<Subtree>, pending: seq<byte>, chunk: nat)
    requires IsRangeOf(r, body, c) && r.size > 0 && NodesTo(body, nodes, pending, chunk, r.offset)
    requires |r.head| < Gap(r.offset)
    ensures r.subtrees == [] && r.tail == []
    ensures NodesTo(body, nodes, pending + r.head, r.offset / CHUNK, r.offset + r.size)
  {
    HeadInside(body, c, r);
    InsideHasNoChunks(body, c, r);
    PendingInside(body, nodes, pending, chunk, r.offset, r.offset + r.size, r.head);
  }

  /** A head that does not reach the boundary is the whole range. */
  lemma HeadInside(body: seq<byte>, c: nat, r: Range)
    requires IsRangeOf(r, body, c) && |r.head| < Gap(r.offset)
    ensures r.offset + r.size <= |body| && r.size < Gap(r.offset) && r.head == body[r.offset..r.offset + r.size]
  {
    HeadIs(body, c, r);
    assert |r.head| == Min(Gap(r.offset), r.size);
  }

  lemma PendingInside(body: seq<byte>, nodes: seq<Subtree>, pending: seq<byte>, chunk: nat, d: nat, e: nat,
                      x: seq<byte>)
    requires NodesTo(body, nodes, pending, chunk, d) && d <= e <= |body| && e - d < Gap(d) && x == body[d..e]
    ensures NodesTo(body, nodes, pending + x, d / CHUNK, e)
  {
    SameChunk(d, e);
    assert body[d / CHUNK * CHUNK..d] + body[d..e] == body[d / CHUNK * CHUNK..e];
  }

  lemma SameChunk(d: nat, e: nat)
    requires d <= e && e - d < Gap(d)
    ensures e / CHUNK == d / CHUNK
  {
  }

  /** The chunk that straddles into this range, if any, is whole. */
  function Straddling(nodes: seq<Subtree>, pending: seq<byte>, chunk: nat): seq<Subtree> {
    if |pending| == CHUNK then nodes + [Subtree(Chunk(pending, chunk, false), 0, chunk)] else nodes
  }

  lemma WholeChunk(body: seq<byte>, i: nat)
    requires (i + 1) * CHUNK <= |body|
    ensures Piece(0, body).Leaf(i) == Chunk(body[i * CHUNK..(i + 1) * CHUNK], i, false)
  {
  }

  lemma TilesOneMore(p: Piece, nodes: seq<Subtree>, i: nat)
    requires Tiles(nodes, 0, i) && Right(p, nodes)
    ensures var nodes' := nodes + [Subtree(p.Leaf(i), 0, i)]; Tiles(nodes', 0, i + 1) && Right(p, nodes')
  {
    var nodes' := nodes + [Subtree(p.Leaf(i), 0, i)];
    assert nodes'[..|nodes'| - 1] == nodes;
  }

  /** The head completes the chunk in progress, if there is one. */
  lemma StepHead(body: seq<byte>, nodes: seq<Subtree>, pending: seq<byte>, chunk: nat, d: nat)
    requires NodesTo(body, nodes, pending, chunk, d) && d + Gap(d) <= |body|
    ensures var whole := pending + body[d..d + Gap(d)];
            var nodes' := Straddling(nodes, whole, d / CHUNK);
            && (|whole| == 0 || |whole| == CHUNK)
            && Tiles(nodes', 0, (d + CHUNK - 1) / CHUNK) && Right(Piece(0, body), nodes')
  {
    var i := d / CHUNK;
    assert body[i * CHUNK..d] + body[d..d + Gap(d)] == body[i * CHUNK..d + Gap(d)];
    if d % CHUNK != 0 {
      WholeChunk(body, i);
      TilesOneMore(Piece(0, body), nodes, i);
    }
  }

  /** A range that reaches a chunk boundary completes the chunk in progress, adds
      its subtrees, and leaves its tail pending. */
  lemma StepAcross(body: seq<byte>, nodes: seq<Subtree>, pending: seq<byte>, chunk: nat, head: seq<byte>,
                   subs: seq<Subtree>, tail: seq<byte>, last: nat, d: nat, e: nat)
    requires NodesTo(body, nodes, pending, chunk, d) && d + Gap(d) <= e <= |body| && head == body[d..d + Gap(d)]
    requires Tiles(subs, (d + CHUNK - 1) / CHUNK, e / CHUNK) && Right(Piece(0, body), subs)
    requires tail == body[e / CHUNK * CHUNK..e] && (tail != [] ==> last == e / CHUNK)
    ensures var whole := pending + head;
            && (|whole| == 0 || |whole| == CHUNK)
            && NodesTo(body, Straddling(nodes, whole, d / CHUNK) + subs, tail, last, e)
  {
    StepHead(body, nodes, pending, chunk, d);
    JoinStep(body, Straddling(nodes, pending + head, d / CHUNK), subs, tail, last, d, e);
  }

  lemma JoinStep(body: seq<byte>, nodes: seq<Subtree>, subs: seq<Subtree>, tail: seq<byte>, last: nat, d: nat, e: nat)
    requires e <= |body| && Tiles(nodes, 0, (d + CHUNK - 1) / CHUNK) && Right(Piece(0, body), nodes)
    requires Tiles(subs, (d + CHUNK - 1) / CHUNK, e / CHUNK) && Right(Piece(0, body), subs)
    requires tail == body[e / CHUNK * CHUNK..e] && (tail != [] ==> last == e / CHUNK)
    ensures NodesTo(body, nodes + subs, tail, last, e)
  {
    TilesJoin(nodes, subs, 0, (d + CHUNK - 1) / CHUNK, e / CHUNK);
  }

  /** A range that reaches a chunk boundary: its subtrees are the body's, and its
      tail is what follows the last boundary. */
  lemma StepTail(body: seq<byte>, c: nat, r: Range)
    requires IsRangeOf(r, body, c) && |r.head| >= Gap(r.offset)
    ensures var e := r.offset + r.size;
            && Tiles(r.subtrees, (r.offset + CHUNK - 1) / CHUNK, e / CHUNK)
            && Right(Piece(0, body), r.subtrees)
            && r.tail == body[e / CHUNK * CHUNK..e]
  {
    OpenRange(r, body, c);
    var q := Slice(body, r.offset, r.offset + r.size);
    BoundaryReached(q, r.head, r.offset);
    WholeChunksRight(body, q, r.subtrees);
    SuffixSlice(body, r.offset, r.offset + r.size, EndChunk(q) * CHUNK);
  }

  lemma SuffixSlice(body: seq<byte>, d: nat, e: nat, m: nat)
    requires d <= m <= e <= |body|
    ensures body[d..e][m - d..] == body[m..e]
  {
  }

  lemma WholeChunksRight(body: seq<byte>, q: Piece, subs: seq<Subtree>)
    requires q.PartOf(Piece(0, body)) && FirstChunk(q) * CHUNK <= q.End()
    requires Tiles(subs, FirstChunk(q), EndChunk(q)) && Right(q, subs)
    ensures Right(Piece(0, body), subs)
  {
    PartLeaves(Piece(0, body), q, FirstChunk(q), EndChunk(q));
    RightSame(Piece(0, body), q, subs, FirstChunk(q), EndChunk(q));
  }

  lemma TailChunkIs(r: Range)
    requires var e := r.offset + r.size; |r.tail| == e - e / CHUNK * CHUNK
    ensures TailChunk(r) == (r.offset + r.size) / CHUNK
  {
  }

  lemma BoundaryReached(q: Piece, head: seq<byte>, d: nat)
    requires q.start == d && head == q.data[..HeadLen(q)] && |head| >= Gap(d)
    ensures d <= FirstChunk(q) * CHUNK <= EndChunk(q) * CHUNK <= q.End() && EndChunk(q) == q.End() / CHUNK
  {
  }

  /** `r` is the next non-empty range of the body. */
  ghost predicate Next(r: Range, body: seq<byte>, c: nat, nodes: seq<Subtree>, pending: seq<byte>, chunk: nat) {
    && IsRangeOf(r, body, c) && r.size > 0
    && NodesTo(body, nodes, pending, chunk, r.offset)
  }

  /** What one round makes of the next range; `None` where the code gives up. */
  function Round(r: Range, nodes: seq<Subtree>, pending: seq<byte>, chunk: nat)
    : Option<(seq<Subtree>, seq<byte>, nat)>
  {
    var chunk' := if |pending| == 0 then r.offset / CHUNK else chunk;
    var pending' := pending + r.head;
    if |r.head| < Gap(r.offset) then
      if |r.subtrees| > 0 || |r.tail| > 0 then None else Some((nodes, pending', chunk'))
    else if |pending'| != 0 && |pending'| != CHUNK then None
    else Some((Straddling(nodes, pending', chunk') + r.subtrees, r.tail, TailChunk(r)))
  }

  lemma RoundIs(r: Range, body: seq<byte>, c: nat, nodes: seq<Subtree>, pending: seq<byte>, chunk: nat)
    requires Next(r, body, c, nodes, pending, chunk)
    ensures match Round(r, nodes, pending, chunk)
            case Some((n, p, k)) => NodesTo(body, n, p, k, r.offset + r.size)
            case None => false
  {
    if |r.head| < Gap(r.offset) {
      StepInside(body, c, r, nodes, pending, chunk);
    } else {
      RoundAcross(r, body, c, nodes, pending, chunk);
    }
  }

  lemma RoundAcross(r: Range, body: seq<byte>, c: nat, nodes: seq<Subtree>, pending: seq<byte>, chunk: nat)
    requires Next(r, body, c, nodes, pending, chunk) && |r.head| >= Gap(r.offset)
    ensures var whole := pending + r.head;
            && (|whole| == 0 || |whole| == CHUNK)
            && NodesTo(body, Straddling(nodes, whole, r.offset / CHUNK) + r.subtrees, r.tail, TailChunk(r),
                r.offset + r.size)
    ensures pending != [] ==> chunk == r.offset / CHUNK
  {
    HeadIs(body, c, r);
    StepTail(body, c, r);
    TailChunkIs(r);
    assert r.head == body[r.offset..r.offset + Gap(r.offset)];
    StepAcross(body, nodes, pending, chunk, r.head, r.subtrees, r.tail, TailChunk(r), r.offset, r.offset + r.size);
  }

  /** At the body's end the pending bytes are its final, short chunk. */
  lemma LastStep(body: seq<byte>, nodes: seq<Subtree>, pending: seq<byte>, chunk: nat)
    requires NodesTo(body, nodes, pending, chunk, |body|) && body != []
    ensures var nodes' := if pending == [] then nodes else nodes + [Subtree(Chunk(pending, chunk, false), 0, chunk)];
            Tiles(nodes', 0, ChunkCount(|body|)) && Right(Piece(0, body), nodes')
  {
    var i := |body| / CHUNK;
    if pending != [] {
      assert ChunkCount(|body|) == i + 1;
      assert Piece(0, body).Bytes(i) == pending;
      var t := Subtree(Chunk(pending, chunk, false), 0, chunk);
      assert (nodes + [t])[..|nodes|] == nodes;
    } else {
      assert ChunkCount(|body|) == i;
    }
  }

  /** Non-empty ranges that make up the whole body. */
  ghost predicate Whole(filled: seq<Range>, body: seq<byte>, c: nat) {
    && RangesTo(filled, body, c, |body|) && (forall r | r in filled :: r.size > 0)
    && |body| < 0x8000_0000_0000_0000
  }

  /** The nodes tile a body that has any bytes. */
  ghost predicate NodesOf(body: seq<byte>, nodes: seq<Subtree>) {
    body != [] ==> Tiles(nodes, 0, ChunkCount(|body|)) && Right(Piece(0, body), nodes)
  }

  /** After `i` ranges, the bytes before the next one have been taken. */
  ghost predicate Progress(filled: seq<Range>, body: seq<byte>, c: nat, i: nat,
                           nodes: seq<Subtree>, pending: seq<byte>, chunk: nat)
    requires i <= |filled|
  {
    Whole(filled, body, c) ==> NodesTo(body, nodes, pending, chunk, TotalSize(filled[..i]))
  }

  ghost predicate BlockIsCovered(all: seq<Subtree>, c: nat, n: nat, k: nat) {
    At(k, c) < n ==> Covered(all, At(k, c), Min(At(k, c) + P(c), n))
  }

  /** Every block of a body of `n` chunks is covered by the nodes. */
  ghost predicate AllCovered(all: seq<Subtree>, c: nat, n: nat) {
    forall k: nat :: BlockIsCovered(all, c, n, k)
  }
}
