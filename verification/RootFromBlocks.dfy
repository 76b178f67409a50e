/** Chunk marks between blocks that split where BLAKE3 splits the chunks. */
module BlockMarks {
  import opened Blake3Spec
  import opened Seal

  /** A run of marks splits at the left count of its chunks. */
  predicate Splits(marks: seq<nat>, a: nat, b: nat)
    requires a < b < |marks|
  {
    && marks[a] < marks[b]
    && (a + 1 < b ==>
          marks[a] + 1 < marks[b] && marks[a + LeftCount(b - a)] == marks[a] + LeftCount(marks[b] - marks[a]))
  }

  predicate IsSplit(marks: seq<nat>) {
    forall i, j | 0 <= i < j < |marks| :: Splits(marks, i, j)
  }

  /** IsSplit, kept closed. */
  ghost predicate AllSplit(marks: seq<nat>) {
    forall key {:trigger Opened(key)} :: Opened(key) ==> IsSplit(marks)
  }

  lemma SplitAt(marks: seq<nat>, a: nat, b: nat)
    requires AllSplit(marks) && a + 1 < b < |marks|
    ensures marks[a] + 1 < marks[b] && marks[a + LeftCount(b - a)] == marks[a] + LeftCount(marks[b] - marks[a])
  {
    assert Opened(0);
    assert Splits(marks, a, b);
  }

  ghost predicate IsOver(p: Piece, marks: seq<nat>, blocks: seq<CV>, k: nat)
    requires k < |blocks| && |marks| == |blocks| + 1
  {
    marks[k] < marks[k + 1] && blocks[k] == Node(p, marks[k], marks[k + 1])
  }

  ghost predicate BlocksOver(p: Piece, marks: seq<nat>, blocks: seq<CV>) {
    && |marks| == |blocks| + 1
    && forall key {:trigger Opened(key)} :: Opened(key) ==> forall k | 0 <= k < |blocks| :: IsOver(p, marks, blocks, k)
  }

  lemma BlockOver(p: Piece, marks: seq<nat>, blocks: seq<CV>, k: nat)
    requires BlocksOver(p, marks, blocks) && k < |blocks|
    ensures marks[k] < marks[k + 1] && blocks[k] == Node(p, marks[k], marks[k + 1])
  {
    assert Opened(0);
    assert IsOver(p, marks, blocks, k);
  }
}

/** The root of a body from its block list, as a client checks it. */
module RootFromBlocks {
  import opened Options
  import opened Bytes
  import opened Pow2
  import opened Blake3Spec
  import opened Dyadic
  import opened BlockList
  import opened HasherSpec
  import opened BlockMarks

  /** `subtreeCV`. */
  function SubtreeCV(blocks: seq<CV>): CV
    requires blocks != []
  {
    if |blocks| == 1 then blocks[0]
    else
      var k := LeftCount(|blocks|);
      Parent(SubtreeCV(blocks[..k]), SubtreeCV(blocks[k..]), false)
  }

  /** `RootFromBlocks`; one block or none has no parent to flag. */
  function Compute(blocks: seq<CV>): Option<CV> {
    if |blocks| < 2 then None
    else
      var k := LeftCount(|blocks|);
      Some(Parent(SubtreeCV(blocks[..k]), SubtreeCV(blocks[k..]), true))
  }

  /** Where the run of blocks before block `k` ends. */
  function EndAt(c: nat, n: nat, k: nat): nat { Min(At(k, c), n) }

  /** Block positions around the left count. */
  lemma LeftPositions(c: nat, a: nat, b: nat, k: nat, g: nat)
    requires a + 2 <= b && k == P(g) && k < b - a <= 2 * k
    ensures At(a + k, c) == At(a, c) + P(g + c) <= At(b - 1, c)
    ensures At(b - 1, c) < At(b, c) <= At(a, c) + 2 * P(g + c)
  {
    AtPow(g, c);
    AtAdd(a, k, c);
    AtAdd(a + k, k, c);
    AtMono(a + k, b - 1, c);
    AtMono(b - 1, b, c);
    AtMono(b, a + k + k, c);
  }

  /** The left block count times the block is the left chunk count. */
  lemma BlockLeft(c: nat, n: nat, a: nat, b: nat)
    requires a + 2 <= b && At(b - 1, c) < n
    ensures var k := LeftCount(b - a);
            && At(a + k, c) < n && At(a, c) + 1 < EndAt(c, n, b)
            && At(a + k, c) == At(a, c) + LeftCount(EndAt(c, n, b) - At(a, c))
  {
    var k, g := LeftCount(b - a), LeftHeight(b - a);
    LeftPositions(c, a, b, k, g);
    LeftCountIs(EndAt(c, n, b) - At(a, c), g + c);
  }

  /** The chunk each block starts at, ending with the chunk count. */
  function Marks(c: nat, n: nat, m: nat): (r: seq<nat>)
    ensures |r| == m + 1 && forall k | 0 <= k <= m :: r[k] == EndAt(c, n, k)
  {
    if m == 0 then [EndAt(c, n, 0)] else Marks(c, n, m - 1) + [EndAt(c, n, m)]
  }

  /** `subtreeCV` by indices. */
  function RunOf(blocks: seq<CV>, a: nat, b: nat): CV
    requires a < b <= |blocks|
    decreases b - a
  {
    if b == a + 1 then blocks[a]
    else
      var k := LeftCount(b - a);
      Parent(RunOf(blocks, a, a + k), RunOf(blocks, a + k, b), false)
  }

  lemma SliceParts(blocks: seq<CV>, a: nat, k: nat, b: nat)
    requires a + k <= b <= |blocks|
    ensures blocks[a..b][..k] == blocks[a..a + k] && blocks[a..b][k..] == blocks[a + k..b]
  {
  }

  lemma RunNode(blocks: seq<CV>, a: nat, b: nat)
    requires a + 1 < b <= |blocks|
    ensures var k := LeftCount(b - a);
            RunOf(blocks, a, b) == Parent(RunOf(blocks, a, a + k), RunOf(blocks, a + k, b), false)
  {
  }

  lemma SubtreeNode(s: seq<CV>)
    requires |s| > 1
    ensures var k := LeftCount(|s|); SubtreeCV(s) == Parent(SubtreeCV(s[..k]), SubtreeCV(s[k..]), false)
  {
  }

  /** The recursion over a slice is the recursion over its index range. */
  lemma {:induction false} SliceIsRun(blocks: seq<CV>, a: nat, b: nat, s: seq<CV>) returns (cv: CV)
    requires a < b <= |blocks| && s == blocks[a..b]
    ensures cv == SubtreeCV(s) && cv == RunOf(blocks, a, b)
    decreases b - a
  {
    if b == a + 1 {
      cv := blocks[a];
    } else {
      var k := LeftCount(b - a);
      SliceParts(blocks, a, k, b);
      var l := SliceIsRun(blocks, a, a + k, s[..k]);
      var r := SliceIsRun(blocks, a + k, b, s[k..]);
      cv := RunJoined(blocks, a, b, s, l, r);
    }
  }

  lemma RunJoined(blocks: seq<CV>, a: nat, b: nat, s: seq<CV>, l: CV, r: CV) returns (cv: CV)
    requires a + 1 < b <= |blocks| && |s| == b - a
    requires var k := LeftCount(b - a);
             && l == SubtreeCV(s[..k]) && r == SubtreeCV(s[k..])
             && l == RunOf(blocks, a, a + k) && r == RunOf(blocks, a + k, b)
    ensures cv == SubtreeCV(s) && cv == RunOf(blocks, a, b)
  {
    SubtreeNode(s);
    RunNode(blocks, a, b);
    cv := Parent(l, r, false);
  }

  /** Where blocks end splits as the chunks do. */
  lemma EndsSplit(c: nat, n: nat, a: nat, b: nat)
    requires a < b && At(b - 1, c) < n
    ensures EndAt(c, n, a) < EndAt(c, n, b)
    ensures a + 1 < b ==>
      var x, y := EndAt(c, n, a), EndAt(c, n, b);
      x + 1 < y && EndAt(c, n, a + LeftCount(b - a)) == x + LeftCount(y - x)
  {
    AtMono(a, b - 1, c);
    AtSucc(b - 1, c);
    if a + 1 < b {
      BlockLeft(c, n, a, b);
    }
  }

  lemma MarksSplit(c: nat, n: nat, m: nat, a: nat, b: nat)
    requires a < b <= m && At(m - 1, c) < n
    ensures Splits(Marks(c, n, m), a, b)
  {
    AtMono(b - 1, m - 1, c);
    EndsSplit(c, n, a, b);
  }

  lemma NodeHalves(p: Piece, lo: nat, hi: nat)
    requires lo + 1 < hi
    ensures var mid := lo + LeftCount(hi - lo); Node(p, lo, hi) == Parent(Node(p, lo, mid), Node(p, mid, hi), false)
  {
  }

  /** The node over chunks [lo, hi) from the nodes of its halves. */
  lemma NodeOf(p: Piece, lo: nat, mid: nat, hi: nat, l: CV, r: CV) returns (cv: CV)
    requires lo + 1 < hi && mid == lo + LeftCount(hi - lo) && l == Node(p, lo, mid) && r == Node(p, mid, hi)
    ensures cv == Parent(l, r, false) && cv == Node(p, lo, hi)
  {
    NodeHalves(p, lo, hi);
    cv := Parent(l, r, false);
  }

  /** Merging a run of blocks gives the node over the run. */
  lemma {:induction false} RunCV(p: Piece, marks: seq<nat>, blocks: seq<CV>, a: nat, b: nat)
    requires |marks| == |blocks| + 1 && a < b <= |blocks|
    requires AllSplit(marks) && BlocksOver(p, marks, blocks)
    ensures marks[a] < marks[b] && RunOf(blocks, a, b) == Node(p, marks[a], marks[b])
    decreases b - a
  {
    if b == a + 1 {
      BlockOver(p, marks, blocks, a);
    } else {
      var k := LeftCount(b - a);
      RunCV(p, marks, blocks, a, a + k);
      RunCV(p, marks, blocks, a + k, b);
      SplitAt(marks, a, b);
      RunNode(blocks, a, b);
      var cv := NodeOf(p, marks[a], marks[a + k], marks[b], RunOf(blocks, a, a + k), RunOf(blocks, a + k, b));
    }
  }

  lemma BlockStarts(p: Piece, c: nat, n: nat, blocks: seq<CV>, k: nat)
    requires IsObjectBlocks(p, c, n, blocks) && k < |blocks|
    ensures At(k, c) < n && EndAt(c, n, k) < EndAt(c, n, k + 1)
    ensures blocks[k] == Node(p, EndAt(c, n, k), EndAt(c, n, k + 1))
  {
    assert blocks[k] == ObjectBlock(p, c, n, k);
    AtSucc(k, c);
  }

  lemma WholeRun(c: nat, n: nat)
    ensures EndAt(c, n, 0) == 0 && EndAt(c, n, First(n, c)) == n
  {
    AtZero(c);
    CeilShr(n, c, First(n, c));
  }

  lemma ObjectMarks(p: Piece, c: nat, n: nat, blocks: seq<CV>)
    requires IsObjectBlocks(p, c, n, blocks) && blocks != []
    ensures var marks := Marks(c, n, |blocks|); AllSplit(marks) && BlocksOver(p, marks, blocks)
  {
    var m := |blocks|;
    var marks := Marks(c, n, m);
    BlockStarts(p, c, n, blocks, m - 1);
    forall i, j | 0 <= i < j < |marks| ensures Splits(marks, i, j) {
      MarksSplit(c, n, m, i, j);
    }
    forall k | 0 <= k < m ensures IsOver(p, marks, blocks, k) {
      BlockStarts(p, c, n, blocks, k);
    }
  }

  /** All the blocks of a body merge to the node over it. */
  lemma ObjectCV(p: Piece, c: nat, n: nat, blocks: seq<CV>)
    requires IsObjectBlocks(p, c, n, blocks) && blocks != [] && n > 0
    ensures SubtreeCV(blocks) == Node(p, 0, n)
  {
    var m := |blocks|;
    ObjectMarks(p, c, n, blocks);
    RunCV(p, Marks(c, n, m), blocks, 0, m);
    var cv := SliceIsRun(blocks, 0, m, blocks[0..m]);
    assert blocks[0..m] == blocks;
    WholeRun(c, n);
  }

  /** A body of two blocks or more has the root its block list merges to. */
  lemma RootMatches(o: Object, body: seq<byte>, c: nat)
    requires IsObject(o, body, c) && |o.blocks| >= 2
    ensures Compute(o.blocks) == Some(o.root)
  {
    ObjectCV(Piece(0, body), c, ChunkCount(|body|), o.blocks);
  }
}
