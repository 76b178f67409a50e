/** Aligned subtrees: tilings of a chunk span, their reduced form, and the stack
    push that keeps a tiling reduced. */
module Dyadic {
  import opened Pow2
  import opened Blake3Spec

  /** 2^height chunks starting at chunk `pos`, with their chaining value. */
  datatype Subtree = Subtree(cv: CV, height: nat, pos: nat) {
    function End(): nat { pos + P(height) }
  }

  /** `s` covers [lo, hi) left to right with aligned subtrees. */
  predicate Tiles(s: seq<Subtree>, lo: nat, hi: nat)
    ensures Tiles(s, lo, hi) ==> lo <= hi
    ensures Tiles(s, lo, hi) ==> (s == [] <==> lo == hi)
  {
    if s == [] then lo == hi
    else
      var t := s[|s| - 1];
      Aligned(t.pos, t.height) && t.End() == hi && Tiles(s[..|s| - 1], lo, t.pos)
  }

  /** `b`, next after `a`, is the right sibling of `a`. */
  predicate Siblings(a: Subtree, b: Subtree) {
    a.height == b.height && Bit(b.pos, b.height) == 1
  }

  /** No two neighbours are siblings. */
  predicate Reduced(s: seq<Subtree>) {
    |s| < 2 || (!Siblings(s[|s| - 2], s[|s| - 1]) && Reduced(s[..|s| - 1]))
  }

  predicate Falling(s: seq<Subtree>) {
    |s| < 2 || (s[|s| - 2].height > s[|s| - 1].height && Falling(s[..|s| - 1]))
  }

  lemma {:induction false} ReducedSuffix(s: seq<Subtree>, i: nat)
    requires Reduced(s) && i <= |s|
    ensures Reduced(s[i..])
    decreases |s|
  {
    if |s| - i >= 2 {
      var n := |s| - 1;
      ReducedSuffix(s[..n], i);
      assert s[i..][..n - i] == s[..n][i..];
    }
  }

  lemma {:induction false} FallingAt(s: seq<Subtree>, i: nat)
    requires Falling(s) && 0 < i < |s|
    ensures s[i - 1].height > s[i].height
    decreases |s|
  {
    if i < |s| - 1 {
      FallingAt(s[..|s| - 1], i);
    }
  }

  /** Every subtree carries the chaining value of its span of the body. */
  ghost predicate Right(p: Piece, s: seq<Subtree>) {
    forall t | t in s :: RightOne(p, t)
  }

  ghost predicate RightOne(p: Piece, t: Subtree) {
    t.cv == Node(p, t.pos, t.End())
  }

  lemma {:induction false} TilesJoin(a: seq<Subtree>, b: seq<Subtree>, lo: nat, mid: nat, hi: nat)
    requires Tiles(a, lo, mid) && Tiles(b, mid, hi)
    ensures Tiles(a + b, lo, hi)
    decreases |b|
  {
    if b == [] {
      assert a + b == a;
    } else {
      var n := |b| - 1;
      TilesJoin(a, b[..n], lo, mid, b[n].pos);
      assert (a + b)[..|a + b| - 1] == a + b[..n];
    }
  }

  /** What a tiling says about each of its subtrees. */
  lemma {:induction false} TilesAt(s: seq<Subtree>, lo: nat, hi: nat, i: nat)
    requires Tiles(s, lo, hi) && i < |s|
    ensures lo <= s[i].pos && s[i].End() <= hi && Aligned(s[i].pos, s[i].height)
    ensures i == 0 ==> s[i].pos == lo
    ensures i > 0 ==> s[i].pos == s[i - 1].End()
    ensures i == |s| - 1 ==> s[i].End() == hi
    ensures i < |s| - 1 ==> s[i].End() < hi
    decreases |s|
  {
    var n := |s| - 1;
    if i < n {
      TilesAt(s[..n], lo, s[n].pos, i);
    } else if i > 0 {
      TilesAt(s[..n], lo, s[n].pos, i - 1);
    }
  }

  /** A tiling none of whose subtrees straddles `b` splits there. */
  lemma {:induction false} TilesCut(s: seq<Subtree>, lo: nat, hi: nat, b: nat) returns (i: nat)
    requires Tiles(s, lo, hi) && lo <= b <= hi
    requires forall t | t in s :: !(t.pos < b < t.End())
    ensures i <= |s| && Tiles(s[..i], lo, b) && Tiles(s[i..], b, hi)
    decreases |s|
  {
    if b == hi {
      i := |s|;
      assert s[..i] == s;
    } else {
      var n := |s| - 1;
      i := TilesCut(s[..n], lo, s[n].pos, b);
      assert s[..n][..i] == s[..i];
      assert s[i..][..|s[i..]| - 1] == s[..n][i..];
    }
  }

  /** A left neighbour no taller than `b` is itself a right child. */
  lemma NotTallerIsOdd(a: Subtree, b: Subtree)
    requires Aligned(a.pos, a.height) && Aligned(b.pos, b.height) && b.pos == a.End()
    requires a.height <= b.height && !Siblings(a, b)
    ensures !Aligned(a.pos, a.height + 1)
  {
    BitFlip(a.pos, a.height);
    AlignedSucc(a.pos, a.height);
    if a.height < b.height {
      AlignedDown(b.pos, a.height + 1, b.height);
      AlignedSucc(b.pos, a.height);
    }
  }

  /** The last two subtrees fall when the ones before them do. */
  lemma LastPairFalls(s: seq<Subtree>, lo: nat, hi: nat, H: nat)
    requires Tiles(s, lo, hi) && |s| >= 2 && !Siblings(s[|s| - 2], s[|s| - 1])
    requires |s| >= 3 ==> s[|s| - 3].height > s[|s| - 2].height
    requires Aligned(lo, H) && hi - lo <= P(H)
    ensures s[|s| - 2].height > s[|s| - 1].height
  {
    var n := |s| - 1;
    TilesAt(s, lo, hi, n - 1);
    TilesAt(s, lo, hi, n);
    var a, b := s[n - 1], s[n];
    if a.height <= b.height {
      NotTallerIsOdd(a, b);
      if n == 1 {
        if a.height >= H {
          PowMono(H, a.height);
        } else {
          AlignedDown(lo, a.height + 1, H);
        }
      } else {
        TilesAt(s, lo, hi, n - 2);
        BitFlip(s[n - 2].pos, s[n - 2].height);
        AlignedDown(a.pos, a.height + 1, s[n - 2].height);
      }
    }
  }

  /** A reduced tiling of at most one aligned block falls in height. */
  lemma {:induction false} ReducedFalls(s: seq<Subtree>, lo: nat, hi: nat, H: nat)
    requires Tiles(s, lo, hi) && Reduced(s)
    requires Aligned(lo, H) && hi - lo <= P(H)
    ensures Falling(s)
    decreases |s|
  {
    if |s| >= 2 {
      var n := |s| - 1;
      ReducedFalls(s[..n], lo, s[n].pos, H);
      LastPairFalls(s, lo, hi, H);
    }
  }

  /** Falling heights stay short of twice the first. */
  lemma {:induction false} FallingSum(s: seq<Subtree>, lo: nat, hi: nat)
    requires Tiles(s, lo, hi) && Falling(s) && s != []
    ensures hi - lo + P(s[|s| - 1].height) <= 2 * P(s[0].height)
    decreases |s|
  {
    var n := |s| - 1;
    if n > 0 {
      FallingSum(s[..n], lo, s[n].pos);
      PowMono(s[n].height, s[n - 1].height);
    }
  }

  /** The only reduced tiling of an aligned block is the block itself. */
  lemma SoleTile(s: seq<Subtree>, lo: nat, h: nat)
    requires Aligned(lo, h) && Tiles(s, lo, lo + P(h)) && Reduced(s)
    ensures |s| == 1 && s[0].height == h
  {
    ReducedFalls(s, lo, lo + P(h), h);
    TilesAt(s, lo, lo + P(h), 0);
    var f := s[0].height;
    if |s| == 1 {
      PowInjective(f, h);
    } else {
      FallingSum(s, lo, lo + P(h));
      if f < h {
        PowMono(f, h);
      } else {
        PowMono(h, f);
      }
      assert false;
    }
  }

  /** When the span ends at the right end of a left child that fits in it, that
      left child is the last subtree of the reduced tiling. */
  lemma SiblingOnTop(s: seq<Subtree>, lo: nat, hi: nat, h: nat)
    requires Tiles(s, lo, hi) && Reduced(s)
    requires Aligned(hi, h) && Bit(hi, h) == 1 && lo + P(h) <= hi
    ensures s != [] && s[|s| - 1].height == h
  {
    var b := hi - P(h);
    AlignedSelf(h);
    AlignedSub(hi, P(h), h);
    BitFlip(b, h);
    AlignedSucc(b, h);
    forall t | t in s ensures !(t.pos < b < t.End()) {
      var i :| 0 <= i < |s| && s[i] == t;
      TilesAt(s, lo, hi, i);
      NoStraddle(t, b, h);
    }
    var i := TilesCut(s, lo, hi, b);
    ReducedSuffix(s, i);
    SoleTile(s[i..], b, h);
  }

  lemma NoStraddle(t: Subtree, b: nat, h: nat)
    requires Aligned(t.pos, t.height) && Aligned(b, h + 1) && t.End() <= b + P(h)
    ensures !(t.pos < b < t.End())
  {
    if t.pos < b < t.End() {
      BitFlip(t.pos, t.height);
      if t.height <= h {
        AlignedDown(b, t.height, h + 1);
        AlignedGap(t.pos, b, t.height);
      } else {
        AlignedDown(t.End(), h + 1, t.height);
        AlignedGap(b, t.End(), h + 1);
      }
    }
  }

  /** A tiling has nothing across the start of an aligned block that ends it, when
      its own last subtree is no taller. */
  lemma NoneAcross(s: seq<Subtree>, lo: nat, hi: nat, b: nat, h: nat, i: nat)
    requires Tiles(s, lo, hi) && i < |s| && Aligned(b, h) && b + P(h) == hi
    requires s[|s| - 1].height <= h
    ensures !(s[i].pos < b < s[i].End())
  {
    var t := s[i];
    TilesAt(s, lo, hi, i);
    if t.pos < b < t.End() {
      BitFlip(t.pos, t.height);
      if t.height <= h {
        AlignedDown(b, t.height, h);
        AlignedGap(t.pos, b, t.height);
      } else {
        AlignedDown(t.End(), h, t.height);
        AlignedGap(b, t.End(), h);
      }
    }
  }

  /** Of two reduced tilings of a span, neither ends in a taller subtree. */
  lemma LastNoTaller(s: seq<Subtree>, t: seq<Subtree>, lo: nat, hi: nat)
    requires Tiles(s, lo, hi) && Tiles(t, lo, hi) && Reduced(t) && s != [] && t != []
    requires t[|t| - 1].height <= s[|s| - 1].height
    ensures t[|t| - 1].height == s[|s| - 1].height
  {
    var a := s[|s| - 1];
    forall u | u in t ensures !(u.pos < a.pos < u.End()) {
      var i :| 0 <= i < |t| && t[i] == u;
      NoneAcross(t, lo, hi, a.pos, a.height, i);
    }
    var i := TilesCut(t, lo, hi, a.pos);
    ReducedSuffix(t, i);
    SoleTile(t[i..], a.pos, a.height);
  }

  /** A span has one reduced tiling: its cut into maximal aligned subtrees. */
  lemma {:induction false} ReducedUnique(p: Piece, s: seq<Subtree>, t: seq<Subtree>, lo: nat, hi: nat)
    requires Tiles(s, lo, hi) && Reduced(s) && Right(p, s)
    requires Tiles(t, lo, hi) && Reduced(t) && Right(p, t)
    ensures s == t
    decreases |s|
  {
    if lo < hi {
      var a, b := s[|s| - 1], t[|t| - 1];
      if b.height <= a.height {
        LastNoTaller(s, t, lo, hi);
      } else {
        LastNoTaller(t, s, lo, hi);
      }
      assert a in s && b in t;
      ReducedUnique(p, s[..|s| - 1], t[..|t| - 1], lo, a.pos);
      assert s == s[..|s| - 1] + [a] && t == t[..|t| - 1] + [b];
    }
  }

  // ---------------------------------------------------------------------------
  // The stack push.

  predicate Merges(s: seq<Subtree>, n: Subtree) {
    s != [] && s[|s| - 1].height == n.height && Bit(n.pos, n.height) == 1
  }

  /** The parent of `n` and its left sibling, the stack's top. */
  function Merged(s: seq<Subtree>, n: Subtree): Subtree
    requires Merges(s, n)
  {
    var top := s[|s| - 1];
    Subtree(Parent(top.cv, n.cv, false), n.height + 1, top.pos)
  }

  /** The stack after pushing `n`. */
  function Push(s: seq<Subtree>, n: Subtree): (r: seq<Subtree>)
    ensures r != []
  {
    if Merges(s, n) then Push(s[..|s| - 1], Merged(s, n)) else s + [n]
  }

  /** The nodes of height `bh` formed while pushing `n`, in order. */
  function Recorded(s: seq<Subtree>, n: Subtree, bh: nat): seq<Subtree> {
    (if n.height == bh then [n] else [])
    + (if Merges(s, n) then Recorded(s[..|s| - 1], Merged(s, n), bh) else [])
  }

  lemma MergedAligned(top: Subtree, n: Subtree)
    requires Aligned(top.pos, top.height) && top.End() == n.pos && Siblings(top, n)
    ensures top.pos + P(n.height + 1) == n.End() && Aligned(top.pos, n.height + 1)
  {
    BitFlip(top.pos, top.height);
    AlignedSucc(top.pos, top.height);
  }

  lemma MergedRight(p: Piece, s: seq<Subtree>, lo: nat, hi: nat, n: Subtree)
    requires Tiles(s, lo, hi) && Right(p, s)
    requires n.pos == hi && Aligned(n.pos, n.height) && RightOne(p, n)
    requires Merges(s, n)
    ensures Merged(s, n).End() == n.End()
    ensures Aligned(Merged(s, n).pos, Merged(s, n).height) && RightOne(p, Merged(s, n))
  {
    var top := s[|s| - 1];
    assert top in s;
    MergedAligned(top, n);
    NodeSplit(p, top.pos, n.height, n.End());
  }

  /** Pushing the next aligned subtree keeps the stack the reduced tiling of what
      has been pushed, with every chaining value that of its span. */
  lemma {:induction false} PushTiles(p: Piece, s: seq<Subtree>, lo: nat, hi: nat, n: Subtree)
    requires Tiles(s, lo, hi) && Reduced(s) && Right(p, s)
    requires n.pos == hi && Aligned(n.pos, n.height) && RightOne(p, n)
    ensures Tiles(Push(s, n), lo, n.End()) && Reduced(Push(s, n)) && Right(p, Push(s, n))
    decreases |s|
  {
    if Merges(s, n) {
      MergedRight(p, s, lo, hi, n);
      PushTiles(p, s[..|s| - 1], lo, s[|s| - 1].pos, Merged(s, n));
    } else {
      LastTiles(p, s, lo, hi, n);
    }
  }

  lemma LastTiles(p: Piece, s: seq<Subtree>, lo: nat, hi: nat, n: Subtree)
    requires Tiles(s, lo, hi) && Reduced(s) && Right(p, s)
    requires n.pos == hi && Aligned(n.pos, n.height) && RightOne(p, n) && !Merges(s, n)
    ensures Tiles(s + [n], lo, n.End()) && Reduced(s + [n]) && Right(p, s + [n])
  {
    var t := s + [n];
    assert t[..|t| - 1] == s && t[|t| - 1] == n;
    if s != [] {
      assert t[|t| - 2] == s[|s| - 1] && !Siblings(s[|s| - 1], n);
    }
  }

  /** Nothing of height `bh` is formed by a push that starts above it. */
  lemma {:induction false} RecordedAbove(s: seq<Subtree>, n: Subtree, bh: nat)
    requires n.height > bh
    ensures Recorded(s, n, bh) == []
    decreases |s|
  {
    if Merges(s, n) {
      RecordedAbove(s[..|s| - 1], Merged(s, n), bh);
    }
  }

  /** The block of height `bh` that ends where the push ends, if it is aligned and
      lies in the pushed span, is formed by the push; nothing else is. */
  lemma {:induction false} RecordedIs(p: Piece, s: seq<Subtree>, lo: nat, hi: nat, n: Subtree, bh: nat)
    requires Tiles(s, lo, hi) && Reduced(s) && Right(p, s)
    requires n.pos == hi && Aligned(n.pos, n.height) && RightOne(p, n) && n.height <= bh
    ensures var done := Aligned(n.End(), bh) && lo + P(bh) <= n.End();
            && (!done ==> Recorded(s, n, bh) == [])
            && (done ==> exists t :: Recorded(s, n, bh) == [t] && t.height == bh
                                  && t.End() == n.End() && RightOne(p, t))
    decreases |s|
  {
    BitFlip(n.pos, n.height);
    if n.height == bh {
      if Merges(s, n) {
        RecordedAbove(s[..|s| - 1], Merged(s, n), bh);
      }
      assert Recorded(s, n, bh) == [n];
    } else if Merges(s, n) {
      MergedRight(p, s, lo, hi, n);
      RecordedIs(p, s[..|s| - 1], lo, s[|s| - 1].pos, Merged(s, n), bh);
      assert Recorded(s, n, bh) == Recorded(s[..|s| - 1], Merged(s, n), bh);
    } else if Aligned(n.End(), bh) && lo + P(bh) <= n.End() {
      AlignedDown(n.End(), n.height + 1, bh);
      AlignedSucc(n.End(), n.height);
      PowMono(n.height, bh);
      SiblingOnTop(s, lo, hi, n.height);
      assert false;
    }
  }
}
