/** `CoverCV`: the node over a span from whatever nodes are at hand. */
module Cover {
  import opened Options
  import opened Pow2
  import opened Blake3Spec
  import opened Dyadic
  import opened HasherSpec
  import opened Subtrees

  /** Nodes of the body's tree: aligned, with the chaining value of their span. */
  ghost predicate Sound(p: Piece, nodes: seq<Subtree>) {
    forall t | t in nodes :: Aligned(t.pos, t.height) && RightOne(p, t)
  }

  predicate InSpan(t: Subtree, lo: nat, hi: nat) { lo <= t.pos && t.End() <= hi }

  predicate Covers(t: Subtree, c: nat) { t.pos <= c < t.End() }

  ghost predicate CoveredAt(nodes: seq<Subtree>, lo: nat, hi: nat, c: nat) {
    exists t :: t in nodes && InSpan(t, lo, hi) && Covers(t, c)
  }

  /** Every chunk of [lo, hi) is in a node that lies in the span. */
  ghost predicate Covered(nodes: seq<Subtree>, lo: nat, hi: nat) {
    forall c | lo <= c < hi :: CoveredAt(nodes, lo, hi, c)
  }

  /** By position, the taller first. */
  predicate Before(a: Subtree, b: Subtree) {
    a.pos < b.pos || (a.pos == b.pos && a.height >= b.height)
  }

  predicate Sorted(s: seq<Subtree>) {
    forall i, j | 0 <= i < j < |s| :: Before(s[i], s[j])
  }

  function Insert(t: Subtree, s: seq<Subtree>): (r: seq<Subtree>)
    requires Sorted(s)
    ensures Sorted(r) && multiset(r) == multiset(s) + multiset{t}
  {
    if s == [] then [t]
    else if Before(t, s[0]) then [t] + s
    else
      var rest := Insert(t, s[1..]);
      InsertRest(t, s, rest);
      [s[0]] + rest
  }

  lemma InsertRest(t: Subtree, s: seq<Subtree>, rest: seq<Subtree>)
    requires Sorted(s) && s != [] && !Before(t, s[0])
    requires Sorted(rest) && multiset(rest) == multiset(s[1..]) + multiset{t}
    ensures var r := [s[0]] + rest; Sorted(r) && multiset(r) == multiset(s) + multiset{t}
  {
    assert s == [s[0]] + s[1..];
    forall x | x in rest ensures Before(s[0], x) {
      assert x in multiset(rest);
      assert x == t || x in s[1..];
    }
  }

  /** `sort.Slice`: some ordering of the same nodes. */
  function Sort(s: seq<Subtree>): (r: seq<Subtree>)
    ensures Sorted(r) && multiset(r) == multiset(s)
  {
    if s == [] then []
    else
      assert s == s[..|s| - 1] + [s[|s| - 1]];
      Insert(s[|s| - 1], Sort(s[..|s| - 1]))
  }

  /** An aligned node that starts in another, later or no taller, lies in it. */
  lemma Nested(y: Subtree, n: Subtree)
    requires Aligned(y.pos, y.height) && Aligned(n.pos, n.height)
    requires Covers(y, n.pos) && Before(y, n)
    ensures n.End() <= y.End()
  {
    BitFlip(y.pos, y.height);
    if n.height <= y.height {
      AlignedDown(y.End(), n.height, y.height);
      AlignedGap(n.pos, y.End(), n.height);
    } else {
      AlignedDown(n.pos, y.height, n.height);
      AlignedGap(y.pos, n.pos, y.height);
    }
  }

  method Within(nodes: seq<Subtree>, lo: nat, hi: nat) returns (r: seq<Subtree>)
    ensures forall t :: t in r <==> t in nodes && InSpan(t, lo, hi)
  {
    r := [];
    for i := 0 to |nodes|
      invariant forall t :: t in r <==> t in nodes[..i] && InSpan(t, lo, hi)
    {
      if nodes[i].pos >= lo && nodes[i].pos + P(nodes[i].height) <= hi {
        r := r + [nodes[i]];
      }
    }
  }

  /** The greedy pass over the sorted nodes keeps the maximal ones, and finds a
      tiling exactly when the nodes cover the span. */
  method TileWith(s: seq<Subtree>, lo: nat, hi: nat, ghost p: Piece) returns (tile: seq<Subtree>, ok: bool)
    requires lo <= hi && Sorted(s) && forall t | t in s :: InSpan(t, lo, hi)
    ensures Sound(p, s) ==> (ok <==> Covered(s, lo, hi))
    ensures Sound(p, s) && ok ==> Tiles(tile, lo, hi) && Right(p, tile)
  {
    tile := [];
    var next := lo;
    for k := 0 to |s|
      invariant lo <= next <= hi
      invariant Sound(p, s) ==> Tiles(tile, lo, next) && Right(p, tile)
      invariant tile == [] ==> next == lo
      invariant tile != [] ==> exists j :: 0 <= j < k && s[j] == tile[|tile| - 1]
      invariant Sound(p, s) ==> forall j | 0 <= j < k :: s[j].End() <= next
      invariant forall c | lo <= c < next :: CoveredAt(s, lo, hi, c)
    {
      var n := s[k];
      assert n in s;
      if n.pos < next {
        if Sound(p, s) {
          assert tile != [];
          var y := tile[|tile| - 1];
          assert Before(y, n);
          Nested(y, n);
        }
        continue;
      }
      if n.pos != next {
        if Sound(p, s) {
          GapUncovered(s, lo, hi, next, k);
        }
        return tile, false;
      }
      assert (tile + [n])[..|tile|] == tile;
      tile := tile + [n];
      forall c | next <= c < n.End() ensures CoveredAt(s, lo, hi, c) {
        assert n in s && InSpan(n, lo, hi) && Covers(n, c);
      }
      next := n.pos + P(n.height);
    }
    ok := next == hi;
    if Sound(p, s) && next < hi {
      GapUncovered(s, lo, hi, next, |s|);
    }
  }

  lemma GapUncovered(s: seq<Subtree>, lo: nat, hi: nat, next: nat, k: nat)
    requires Sorted(s) && lo <= next < hi && k <= |s|
    requires forall j | 0 <= j < k :: s[j].End() <= next
    requires k < |s| ==> next < s[k].pos
    ensures !Covered(s, lo, hi)
  {
    assert !CoveredAt(s, lo, hi, next) by {
      forall t | t in s ensures !Covers(t, next) {
        var i :| 0 <= i < |s| && s[i] == t;
        if i > k {
          assert Before(s[k], s[i]);
        }
      }
    }
  }

  /** `CoverCV`. From nodes of the body's tree it succeeds exactly when they cover
      the span, and then gives the span's chaining value. */
  method CoverCV(nodes: seq<Subtree>, lo: nat, hi: nat, ghost p: Piece, ghost h: nat) returns (r: Option<CV>)
    requires lo < hi
    ensures Sound(p, nodes) && Aligned(lo, h) && hi - lo <= P(h)
        ==> (r.Some? <==> Covered(nodes, lo, hi)) && (r.Some? ==> r.value == Node(p, lo, hi))
  {
    var inside := Within(nodes, lo, hi);
    var sorted := Sort(inside);
    SameMembers(sorted, inside);
    var tile, ok := TileWith(sorted, lo, hi, p);
    SameCover(nodes, sorted, lo, hi);
    if !ok {
      return None;
    }
    r := MergeSubtrees(tile);
    if Sound(p, nodes) && Aligned(lo, h) && hi - lo <= P(h) {
      MergeIs(p, tile, lo, hi, h);
    }
  }

  lemma SameMembers(a: seq<Subtree>, b: seq<Subtree>)
    requires multiset(a) == multiset(b)
    ensures forall t :: t in a <==> t in b
  {
    forall t ensures t in a <==> t in b {
      assert t in a <==> t in multiset(a);
    }
  }

  lemma SameCover(nodes: seq<Subtree>, inside: seq<Subtree>, lo: nat, hi: nat)
    requires forall t :: t in inside <==> t in nodes && InSpan(t, lo, hi)
    ensures Covered(nodes, lo, hi) <==> Covered(inside, lo, hi)
  {
    forall c ensures CoveredAt(nodes, lo, hi, c) <==> CoveredAt(inside, lo, hi, c) {
    }
  }
}
