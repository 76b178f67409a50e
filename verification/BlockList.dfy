/** The list of aligned blocks inside a chunk span, and the folds that turn a
    stack into the chaining value of the span it tiles. */
module BlockList {
  import opened Pow2
  import opened Blake3Spec
  import opened Dyadic

  /** The index of the first block of height `h` that starts at or after `lo`. */
  function First(lo: nat, h: nat): nat { Shr(lo + P(h) - 1, h) }

  /** Block `k` of height `h`. */
  ghost function Block(p: Piece, h: nat, k: nat): Subtree {
    Subtree(Node(p, At(k, h), At(k, h) + P(h)), h, At(k, h))
  }

  /** Blocks k0, ..., k1 - 1 of height `h`. */
  ghost function BlockRun(p: Piece, h: nat, k0: nat, k1: nat): (r: seq<Subtree>)
    ensures |r| == (if k0 < k1 then k1 - k0 else 0)
    ensures forall i | 0 <= i < |r| :: r[i] == Block(p, h, k0 + i)
  {
    if k0 >= k1 then [] else BlockRun(p, h, k0, k1 - 1) + [Block(p, h, k1 - 1)]
  }

  /** Exactly the aligned blocks of height `h` that lie in chunks [lo, hi). */
  ghost function Blocks(p: Piece, h: nat, lo: nat, hi: nat): seq<Subtree> {
    BlockRun(p, h, First(lo, h), Shr(hi, h))
  }

  /** Block `k` lies in [lo, hi) exactly when its index is in the listed run. */
  lemma BlockInside(lo: nat, hi: nat, h: nat, k: nat)
    ensures First(lo, h) <= k <==> lo <= At(k, h)
    ensures k < Shr(hi, h) <==> At(k, h) + P(h) <= hi
    ensures At(k + 1, h) == At(k, h) + P(h)
  {
    CeilShr(lo, h, k);
    UnderShr(hi, h, k);
    AtSucc(k, h);
  }

  /** The list in words: `t` is listed exactly when it is an aligned block of
      height `h` inside [lo, hi) with the chaining value of its span. */
  lemma BlocksAre(p: Piece, h: nat, lo: nat, hi: nat, t: Subtree)
    ensures t in Blocks(p, h, lo, hi)
       <==> t.height == h && Aligned(t.pos, h) && lo <= t.pos && t.End() <= hi && RightOne(p, t)
  {
    if t in Blocks(p, h, lo, hi) {
      ListedIsBlock(p, h, lo, hi, t);
    }
    if t.height == h && Aligned(t.pos, h) && lo <= t.pos && t.End() <= hi && RightOne(p, t) {
      BlockIsListed(p, h, lo, hi, t);
    }
  }

  lemma ListedIsBlock(p: Piece, h: nat, lo: nat, hi: nat, t: Subtree)
    requires t in Blocks(p, h, lo, hi)
    ensures t.height == h && Aligned(t.pos, h) && lo <= t.pos && t.End() <= hi && RightOne(p, t)
  {
    var r := Blocks(p, h, lo, hi);
    var i :| 0 <= i < |r| && r[i] == t;
    BlockIsInside(lo, hi, h, First(lo, h) + i);
  }

  lemma BlockIsInside(lo: nat, hi: nat, h: nat, k: nat)
    requires First(lo, h) <= k < Shr(hi, h)
    ensures lo <= At(k, h) && At(k, h) + P(h) <= hi && Aligned(At(k, h), h)
  {
    BlockInside(lo, hi, h, k);
    AlignedAt(k, h);
  }

  lemma BlockIsListed(p: Piece, h: nat, lo: nat, hi: nat, t: Subtree)
    requires t.height == h && Aligned(t.pos, h) && lo <= t.pos && t.End() <= hi && RightOne(p, t)
    ensures t in Blocks(p, h, lo, hi)
  {
    var k := Shr(t.pos, h);
    BlockNamed(p, t);
    BlockInside(lo, hi, h, k);
    assert Blocks(p, h, lo, hi)[k - First(lo, h)] == t;
  }

  /** An aligned subtree is the block its position names. */
  lemma BlockNamed(p: Piece, t: Subtree)
    requires Aligned(t.pos, t.height) && RightOne(p, t)
    ensures t == Block(p, t.height, Shr(t.pos, t.height))
  {
  }

  /** One more aligned block completes exactly when the new end is aligned. */
  lemma ShrStep(hi: nat, g: nat, h: nat)
    requires g <= h && Aligned(hi, g)
    ensures var e := hi + P(g);
            Shr(e, h) == Shr(hi, h) + (if Aligned(e, h) then 1 else 0)
  {
    var e, q := hi + P(g), Shr(hi, h);
    ShrBounds(hi, h);
    AtSucc(q, h);
    AtSucc(q + 1, h);
    AlignedAt(q + 1, h);
    AlignedDown(At(q + 1, h), g, h);
    AlignedGap(hi, At(q + 1, h), g);
    if e < At(q + 1, h) {
      ShrIs(e, h, q);
    } else {
      ShrIs(e, h, q + 1);
    }
  }

  lemma RunGrows(p: Piece, h: nat, k0: nat, k: nat)
    requires k0 <= k
    ensures BlockRun(p, h, k0, k) + [Block(p, h, k)] == BlockRun(p, h, k0, k + 1)
  {
  }

  lemma RunStays(p: Piece, h: nat, k0: nat, k: nat, k': nat)
    requires k == k' || (k <= k0 && k' <= k0)
    ensures BlockRun(p, h, k0, k) == BlockRun(p, h, k0, k')
  {
  }

  lemma RecordedBlock(p: Piece, lo: nat, hi: nat, t: Subtree)
    requires Aligned(t.End(), t.height) && lo + P(t.height) <= t.End() && RightOne(p, t)
    requires Shr(t.End(), t.height) == Shr(hi, t.height) + 1
    ensures Blocks(p, t.height, lo, hi) + [t] == Blocks(p, t.height, lo, t.End())
  {
    var h := t.height;
    LastIsBlock(p, t);
    LastBlock(lo, t.End(), h);
    NextListed(p, h, First(lo, h), Shr(hi, h), Shr(t.End(), h), t);
  }

  /** A subtree that ends aligned is the block before its end. */
  lemma LastIsBlock(p: Piece, t: Subtree)
    requires Aligned(t.End(), t.height) && RightOne(p, t)
    ensures Shr(t.End(), t.height) == Shr(t.pos, t.height) + 1 && t == Block(p, t.height, Shr(t.pos, t.height))
  {
    AlignedSelf(t.height);
    AlignedSub(t.End(), P(t.height), t.height);
    AlignedAdd(t.pos, P(t.height), t.height);
    BlockNamed(p, t);
  }

  lemma NextListed(p: Piece, h: nat, k0: nat, k: nat, k1: nat, t: Subtree)
    requires k0 <= k && k1 == k + 1 && t == Block(p, h, k)
    ensures BlockRun(p, h, k0, k) + [t] == BlockRun(p, h, k0, k1)
  {
    RunGrows(p, h, k0, k);
  }

  /** What a push records extends the block list to the new end. */
  lemma PushBlocks(p: Piece, s: seq<Subtree>, lo: nat, hi: nat, n: Subtree, h: nat)
    requires Tiles(s, lo, hi) && Reduced(s) && Right(p, s)
    requires n.pos == hi && Aligned(n.pos, n.height) && RightOne(p, n) && n.height <= h
    ensures Blocks(p, h, lo, hi) + Recorded(s, n, h) == Blocks(p, h, lo, n.End())
  {
    RecordedIs(p, s, lo, hi, n, h);
    ShrStep(hi, n.height, h);
    if Aligned(n.End(), h) && lo + P(h) <= n.End() {
      var t :| Recorded(s, n, h) == [t] && t.height == h && t.End() == n.End() && RightOne(p, t);
      RecordedBlock(p, lo, hi, t);
    } else {
      NoLastBlock(lo, n.End(), h);
      RunStays(p, h, First(lo, h), Shr(hi, h), Shr(n.End(), h));
      assert Recorded(s, n, h) == [];
    }
  }

  lemma LastBlock(lo: nat, e: nat, h: nat)
    requires Aligned(e, h) && lo + P(h) <= e
    ensures Shr(e, h) == Shr(e - P(h), h) + 1 && First(lo, h) < Shr(e, h)
  {
    AlignedSelf(h);
    AlignedSub(e, P(h), h);
    AlignedAdd(e - P(h), P(h), h);
    CeilShr(lo, h, Shr(e - P(h), h));
  }

  lemma NoLastBlock(lo: nat, e: nat, h: nat)
    requires !(Aligned(e, h) && lo + P(h) <= e)
    ensures Aligned(e, h) ==> Shr(e, h) <= First(lo, h)
  {
    if Aligned(e, h) && First(lo, h) < Shr(e, h) {
      BlockInside(lo, e, h, Shr(e, h) - 1);
    }
  }

  lemma PairNode(p: Piece, x: nat, y: nat, z: nat, h: nat)
    requires y == x + P(h) && z == y + P(h)
    ensures Node(p, x, z) == Parent(Node(p, x, y), Node(p, y, z), false)
  {
    NodeSplit(p, x, h, z);
  }

  /** Pairs of blocks are the blocks one level up. */
  lemma BlockPair(p: Piece, h: nat, j: nat)
    ensures Block(p, h + 1, j)
         == Subtree(Parent(Block(p, h, 2 * j).cv, Block(p, h, 2 * j + 1).cv, false), h + 1, Block(p, h, 2 * j).pos)
  {
    AtUp(j, h);
    AtSucc(2 * j, h);
    PairNode(p, At(2 * j, h), At(2 * j + 1, h), At(j, h + 1) + P(h + 1), h);
  }

  lemma HalvedBounds(lo: nat, hi: nat, h: nat)
    ensures First(lo, h + 1) == (First(lo, h) + 1) / 2
    ensures Shr(hi, h + 1) == Shr(hi, h) / 2
  {
    var g := (First(lo, h) + 1) / 2;
    AtUp(g, h);
    CeilShr(lo, h, 2 * g);
    CeilShr(lo, h + 1, g);
    if g > 0 {
      AtUp(g - 1, h);
      CeilShr(lo, h, 2 * (g - 1));
      CeilShr(lo, h + 1, g - 1);
    }
  }

  // ---------------------------------------------------------------------------
  // Folds.

  /** Fold a stack onto `acc`, rightmost subtree first. */
  function Fold(s: seq<Subtree>, acc: CV): CV {
    if s == [] then acc
    else Fold(s[..|s| - 1], Parent(s[|s| - 1].cv, acc, false))
  }

  /** Folding a falling stack onto the node after it gives the node of the union. */
  lemma {:induction false} FoldIs(p: Piece, s: seq<Subtree>, lo: nat, mid: nat, hi: nat, acc: CV)
    requires Tiles(s, lo, mid) && Falling(s) && Right(p, s)
    requires mid < hi && acc == Node(p, mid, hi)
    requires s != [] ==> hi - mid <= P(s[|s| - 1].height)
    ensures Fold(s, acc) == Node(p, lo, hi)
    decreases |s|
  {
    if s != [] {
      var n := |s| - 1;
      var t := s[n];
      assert t in s;
      NodeSplit(p, t.pos, t.height, hi);
      if n > 0 {
        PowMono(t.height, s[n - 1].height);
      }
      FoldIs(p, s[..n], lo, t.pos, hi, Parent(t.cv, acc, false));
    }
  }
}
