/** Merging subtrees without the bytes: `MergeSubtrees`, `RootFromSubtrees`,
    `RootFromBlocks` and `CoverCV`. */
module Subtrees {
  import opened Options
  import opened Pow2
  import opened Blake3Spec
  import opened Dyadic
  import opened BlockList
  import opened HasherSpec

  /** How many chunks the subtrees hold together. */
  function Total(s: seq<Subtree>): nat {
    if s == [] then 0 else Total(s[..|s| - 1]) + P(s[|s| - 1].height)
  }

  lemma {:induction false} TilesTotal(s: seq<Subtree>, lo: nat, hi: nat)
    requires Tiles(s, lo, hi)
    ensures hi == lo + Total(s)
    decreases |s|
  {
    if s != [] {
      TilesTotal(s[..|s| - 1], lo, s[|s| - 1].pos);
    }
  }

  /** Each subtree is aligned and starts where the previous one ended. */
  predicate Contiguous(s: seq<Subtree>) {
    s != [] && Tiles(s, s[0].pos, s[0].pos + Total(s))
  }

  function PushAll(s: seq<Subtree>): seq<Subtree> {
    if s == [] then [] else Push(PushAll(s[..|s| - 1]), s[|s| - 1])
  }

  lemma {:induction false} PushAllTiles(p: Piece, s: seq<Subtree>, lo: nat, hi: nat)
    requires Tiles(s, lo, hi) && Right(p, s)
    ensures Tiles(PushAll(s), lo, hi) && Reduced(PushAll(s)) && Right(p, PushAll(s))
    decreases |s|
  {
    if s != [] {
      var n := |s| - 1;
      PushAllTiles(p, s[..n], lo, s[n].pos);
      assert s[n] in s;
      PushTiles(p, PushAll(s[..n]), lo, s[n].pos, s[n]);
    }
  }

  function Merge(s: seq<Subtree>): Option<CV> {
    if !Contiguous(s) then None
    else
      var stack := PushAll(s);
      Some(Fold(stack[..|stack| - 1], stack[|stack| - 1].cv))
  }

  lemma FoldedStack(p: Piece, st: seq<Subtree>, lo: nat, hi: nat)
    requires Tiles(st, lo, hi) && Falling(st) && Right(p, st) && st != []
    ensures lo < hi && Fold(st[..|st| - 1], st[|st| - 1].cv) == Node(p, lo, hi)
  {
    var n := |st| - 1;
    assert st[n] in st;
    if n > 0 {
      PowMono(st[n].height, st[n - 1].height);
    }
    FoldIs(p, st[..n], lo, st[n].pos, hi, st[n].cv);
  }

  lemma TilesContiguous(s: seq<Subtree>, lo: nat, hi: nat)
    requires Tiles(s, lo, hi) && lo < hi
    ensures Contiguous(s)
  {
    TilesTotal(s, lo, hi);
    TilesAt(s, lo, hi, 0);
  }

  /** Subtrees that tile an aligned block, or the body's tail from an aligned
      boundary, merge to the node over them. */
  lemma MergeIs(p: Piece, s: seq<Subtree>, lo: nat, hi: nat, h: nat)
    requires Tiles(s, lo, hi) && Right(p, s) && lo < hi
    requires Aligned(lo, h) && hi - lo <= P(h)
    ensures Merge(s) == Some(Node(p, lo, hi))
  {
    TilesContiguous(s, lo, hi);
    PushAllTiles(p, s, lo, hi);
    ReducedFalls(PushAll(s), lo, hi, h);
    FoldedStack(p, PushAll(s), lo, hi);
  }

  /** `stackOf` and `MergeSubtrees`. */
  method MergeSubtrees(subs: seq<Subtree>) returns (r: Option<CV>)
    ensures r == Merge(subs)
  {
    if |subs| == 0 {
      return None;
    }
    var stack: seq<Subtree> := [];
    var first := subs[0].pos;
    var next: nat := first;
    for i := 0 to |subs|
      invariant Tiles(subs[..i], first, next) && stack == PushAll(subs[..i])
    {
      if subs[i].pos != next || !Aligned(subs[i].pos, subs[i].height) {
        GapRefuses(subs, first, i, next);
        return None;
      }
      assert subs[..i + 1][..i] == subs[..i];
      stack := Push(stack, subs[i]);
      next := next + P(subs[i].height);
    }
    assert subs[..|subs|] == subs;
    TilesTotal(subs, first, next);
    var cv := stack[|stack| - 1].cv;
    var i := |stack| - 1;
    while i > 0
      invariant 0 <= i < |stack|
      invariant Fold(stack[..i], cv) == Fold(stack[..|stack| - 1], stack[|stack| - 1].cv)
    {
      assert stack[..i][..i - 1] == stack[..i - 1];
      i := i - 1;
      cv := Parent(stack[i].cv, cv, false);
    }
    r := Some(cv);
  }

  lemma GapRefuses(s: seq<Subtree>, lo: nat, i: nat, next: nat)
    requires i < |s| && Tiles(s[..i], lo, next) && lo == s[0].pos
    requires s[i].pos != next || !Aligned(s[i].pos, s[i].height)
    ensures !Contiguous(s)
  {
    if Contiguous(s) {
      var hi := lo + Total(s);
      TilesAt(s, lo, hi, i);
      if i > 0 {
        TilesAt(s[..i], lo, next, i - 1);
      }
    }
  }

  // ---------------------------------------------------------------------------

  /** The first index at which the subtrees before it hold `left` chunks or more. */
  function CutIndex(s: seq<Subtree>, left: nat, i: nat): (k: nat)
    requires i <= |s|
    ensures i <= k <= |s|
    decreases |s| - i
  {
    if i == |s| || Total(s[..i]) >= left then i else CutIndex(s, left, i + 1)
  }

  function RootOf(s: seq<Subtree>): Option<CV> {
    if |s| < 2 || s[0].pos != 0 then None
    else
      TotalAtLeast(s);
      var left := LeftCount(Total(s));
      var i := CutIndex(s, left, 0);
      if Total(s[..i]) != left then None
      else match (Merge(s[..i]), Merge(s[i..]))
        case (Some(l), Some(r)) => Some(Parent(l, r, true))
        case _ => None
  }

  lemma TotalAtLeast(s: seq<Subtree>)
    ensures Total(s) >= |s|
  {
  }

  /** Where the left child of a body of `n` chunks ends in its tiling. */
  lemma LeftCut(s: seq<Subtree>, n: nat, h: nat) returns (k: nat)
    requires Tiles(s, 0, n) && |s| >= 2 && P(h) < n <= 2 * P(h)
    ensures k <= |s| && Tiles(s[..k], 0, P(h)) && Tiles(s[k..], P(h), n)
    ensures Total(s) == n && Total(s[..k]) == LeftCount(n) == P(h)
    ensures CutIndex(s, P(h), 0) == k
  {
    forall t | t in s ensures !(t.pos < P(h) < t.End()) {
      var j :| 0 <= j < |s| && s[j] == t;
      NoneStraddlesLeft(s, n, h, j);
    }
    k := TilesCut(s, 0, n, P(h));
    TilesTotal(s, 0, n);
    TilesTotal(s[..k], 0, P(h));
    CutFound(s, P(h), k, 0);
    LeftCountIs(n, h);
  }

  /** Subtrees that tile a body of two chunks or more, and are more than one, give
      its root. */
  lemma RootOfIs(p: Piece, s: seq<Subtree>, n: nat)
    requires Tiles(s, 0, n) && Right(p, s) && |s| >= 2
    ensures n >= 2 && RootOf(s) == Some(AsRoot(Node(p, 0, n)))
  {
    TilesTotal(s, 0, n);
    TilesAt(s, 0, n, 0);
    TotalAtLeast(s);
    var h := LeftHeight(n);
    var k := LeftCut(s, n, h);
    AtZero(h);
    AlignedSelf(h);
    MergeIs(p, s[..k], 0, P(h), h);
    MergeIs(p, s[k..], P(h), n, h);
    NodeSplit(p, 0, h, n);
  }

  lemma NoneStraddlesLeft(s: seq<Subtree>, n: nat, h: nat, j: nat)
    requires Tiles(s, 0, n) && |s| >= 2 && j < |s| && P(h) < n <= 2 * P(h)
    ensures !(s[j].pos < P(h) < s[j].End())
  {
    var t := s[j];
    TilesAt(s, 0, n, j);
    if t.pos < P(h) < t.End() {
      AlignedSelf(h);
      if t.height <= h {
        AlignedDown(P(h), t.height, h);
        AlignedGap(t.pos, P(h), t.height);
      } else {
        PowMono(h, t.height);
      }
    }
  }

  lemma {:induction false} CutFound(s: seq<Subtree>, left: nat, k: nat, i: nat)
    requires i <= k <= |s| && Total(s[..k]) == left
    ensures CutIndex(s, left, i) == k
    decreases k - i
  {
    if i < k {
      TotalGrows(s, i, k);
      CutFound(s, left, k, i + 1);
    }
  }

  lemma {:induction false} TotalGrows(s: seq<Subtree>, i: nat, k: nat)
    requires i < k <= |s|
    ensures Total(s[..i]) < Total(s[..k])
    decreases k
  {
    assert s[..k][..k - 1] == s[..k - 1];
    if i < k - 1 {
      TotalGrows(s, i, k - 1);
    }
  }

  /** `RootFromSubtrees`. */
  method RootFromSubtrees(subs: seq<Subtree>) returns (r: Option<CV>)
    ensures r == RootOf(subs)
  {
    if |subs| < 2 || subs[0].pos != 0 {
      return None;
    }
    var total := 0;
    for j := 0 to |subs|
      invariant total == Total(subs[..j])
    {
      assert subs[..j + 1][..j] == subs[..j];
      total := total + P(subs[j].height);
    }
    assert subs[..|subs|] == subs;
    TotalAtLeast(subs);
    var left := LeftCount(total);
    var cut, i := 0, 0;
    while i < |subs| && cut < left
      invariant 0 <= i <= |subs| && cut == Total(subs[..i])
      invariant CutIndex(subs, left, 0) == CutIndex(subs, left, i)
    {
      assert subs[..i + 1][..i] == subs[..i];
      cut := cut + P(subs[i].height);
      i := i + 1;
    }
    if cut != left {
      return None;
    }
    var l := MergeSubtrees(subs[..i]);
    var rr := MergeSubtrees(subs[i..]);
    if l.None? || rr.None? {
      return None;
    }
    r := Some(Parent(l.value, rr.value, true));
  }

  lemma SingleMerges(t: Subtree)
    requires Aligned(t.pos, t.height)
    ensures Merge([t]) == Some(t.cv)
  {
    assert [t][..0] == [];
    assert Total([t]) == P(t.height);
    assert Tiles([t], t.pos, t.End());
    assert PushAll([t]) == [t];
  }

  /** The two halves are checked for contiguity one by one, so a list with a hole
      exactly at the cut is accepted: chunk 0 and chunk 5 give a root. */
  lemma HoleAtTheCut(a: CV, b: CV)
    ensures var s := [Subtree(a, 0, 0), Subtree(b, 0, 5)];
            !Contiguous(s) && RootOf(s) == Some(Parent(a, b, true))
  {
    var x, y := Subtree(a, 0, 0), Subtree(b, 0, 5);
    var s := [x, y];
    assert s[..1] == [x] && s[1..] == [y] && [x][..0] == [] && [y][..0] == [];
    assert Total([x]) == 1 && Total([y]) == 1 && Total(s) == 2;
    LeftCountIs(2, 0);
    assert Total(s[..0]) == 0;
    assert CutIndex(s, 1, 1) == 1 && CutIndex(s, 1, 0) == 1;
    SingleMerges(x);
    SingleMerges(y);
  }

  /** A root comes back exactly when the list starts at 0, holds two subtrees or
      more, and splits into two contiguous halves at the left child's count. */
  lemma RootOfAccepts(s: seq<Subtree>)
    ensures RootOf(s).Some? <==>
      && |s| >= 2 && s[0].pos == 0
      && exists i :: 0 <= i <= |s| && Total(s) >= 2 && Total(s[..i]) == LeftCount(Total(s))
                  && Contiguous(s[..i]) && Contiguous(s[i..])
  {
    if |s| >= 2 {
      TotalAtLeast(s);
      if i :| 0 <= i <= |s| && Total(s[..i]) == LeftCount(Total(s)) && Contiguous(s[..i]) && Contiguous(s[i..]) {
        CutFound(s, LeftCount(Total(s)), i, 0);
      }
    }
  }

  /** Where the code cuts a list that gets a root. */
  function Cut(s: seq<Subtree>): (k: nat)
    requires |s| >= 2
    ensures k <= |s|
  {
    TotalAtLeast(s);
    CutIndex(s, LeftCount(Total(s)), 0)
  }

  /** No chunk is missing or repeated between the halves. */
  predicate JoinsAtCut(s: seq<Subtree>)
    requires |s| >= 2
  {
    Cut(s) < |s| && s[Cut(s)].pos == Total(s[..Cut(s)])
  }

  /** Every contiguous list from 0 of two subtrees or more gets a root. */
  lemma ContiguousAccepted(s: seq<Subtree>)
    requires |s| >= 2 && s[0].pos == 0 && Contiguous(s)
    ensures RootOf(s).Some? && JoinsAtCut(s)
  {
    TotalAtLeast(s);
    var n := Total(s);
    var h := LeftHeight(n);
    var k := LeftCut(s, n, h);
    TilesContiguous(s[..k], 0, P(h));
    TilesContiguous(s[k..], P(h), n);
    TilesAt(s[k..], P(h), n, 0);
  }

  lemma HalvesJoin(s: seq<Subtree>, k: nat)
    requires 0 < k < |s| && Contiguous(s[..k]) && Contiguous(s[k..])
    requires s[0].pos == 0 && s[k].pos == Total(s[..k])
    ensures Contiguous(s)
  {
    var mid, hi := Total(s[..k]), Total(s[..k]) + Total(s[k..]);
    TilesJoin(s[..k], s[k..], 0, mid, hi);
    assert s[..k] + s[k..] == s;
    TilesTotal(s, 0, hi);
  }

  /** Of the lists from 0 of two subtrees or more, a contiguous one gets a root, and one
      that is not is refused unless both halves are contiguous and only the join at the
      cut is wrong. */
  lemma ContiguityChecked(s: seq<Subtree>)
    requires |s| >= 2 && s[0].pos == 0
    ensures Contiguous(s) <==> RootOf(s).Some? && JoinsAtCut(s)
    ensures RootOf(s).Some? ==> (Contiguous(s) <==> JoinsAtCut(s))
  {
    if Contiguous(s) {
      ContiguousAccepted(s);
    }
    if RootOf(s).Some? && JoinsAtCut(s) {
      HalvesJoin(s, Cut(s));
    }
  }
}
