/** `WalkLeavesFrom`: the leaves from a key on, in order, until the callback stops. */
module MstWalk {
  import opened MstTree
  import opened MstSpec
  import opened MstCanon
  import opened MstRefine

  /** What the callback answers; it may depend on every leaf it was given so far. */
  datatype Verdict = Continue | Stop | Fail

  datatype Walked = Walked(seen: seq<Pair>, verdict: Verdict)

  /** Leaves given to the callback one by one until it answers otherwise. */
  function Feed(seen: seq<Pair>, s: seq<Pair>, cb: seq<Pair> -> Verdict): Walked
    decreases |s|
  {
    if s == [] then Walked(seen, Continue)
    else
      var v := cb(seen + [s[0]]);
      if v == Continue then Feed(seen + [s[0]], s[1..], cb) else Walked(seen + [s[0]], v)
  }

  function AndThen(w: Walked, s: seq<Pair>, cb: seq<Pair> -> Verdict): Walked {
    if w.verdict == Continue then Feed(w.seen, s, cb) else w
  }

  lemma {:induction false} FeedJoin(seen: seq<Pair>, a: seq<Pair>, b: seq<Pair>, cb: seq<Pair> -> Verdict)
    ensures Feed(seen, a + b, cb) == AndThen(Feed(seen, a, cb), b, cb)
    decreases |a|
  {
    if a == [] {
      assert a + b == b;
    } else {
      assert (a + b)[1..] == a[1..] + b;
      if cb(seen + [a[0]]) == Continue {
        FeedJoin(seen + [a[0]], a[1..], b, cb);
      }
    }
  }

  /** The leaves at or after `from`. */
  function From(s: seq<Pair>, from: nat): seq<Pair> {
    if s == [] then [] else (if s[0].key >= from then [s[0]] else []) + From(s[1..], from)
  }

  lemma {:induction false} FromJoin(a: seq<Pair>, b: seq<Pair>, from: nat)
    ensures From(a + b, from) == From(a, from) + From(b, from)
    decreases |a|
  {
    if a == [] {
      assert a + b == b;
    } else {
      assert (a + b)[1..] == a[1..] + b;
      FromJoin(a[1..], b, from);
      Regroup(if a[0].key >= from then [a[0]] else [], From(a[1..], from), From(b, from));
    }
  }

  lemma Regroup(a: seq<Pair>, b: seq<Pair>, c: seq<Pair>)
    ensures a + (b + c) == (a + b) + c
  {
  }

  lemma FromEnds(s: seq<Pair>, from: nat)
    ensures Below(s, from) ==> From(s, from) == []
    ensures AtLeast(s, from) ==> From(s, from) == s
  {
    if s != [] {
      assert s == [s[0]] + s[1..];
      FromEnds(s[1..], from);
    }
  }

  lemma FromAround(a: seq<Pair>, m: seq<Pair>, b: seq<Pair>, from: nat)
    requires Below(a, from) && AtLeast(b, from)
    ensures From(a + m + b, from) == From(m, from) + b
  {
    FromJoin(a + m, b, from);
    FromJoin(a, m, from);
    FromEnds(a, from);
    FromEnds(b, from);
  }

  /** What a walk of the node gives the callback. */
  lemma NodeFrom(es: seq<Entry>, from: nat)
    requires Sorted(Leaves(es)) && NoNeighbours(es)
    ensures From(Leaves(es), from) == From(Middle(es, from), from) + RightOf(es, from)
    ensures Sorted(Middle(es, from)) && Sorted(RightOf(es, from)) && AtLeast(RightOf(es, from), from)
  {
    Cut(es, from);
    SortedThree(LeftOf(es, from), Middle(es, from), RightOf(es, from));
    FromAround(LeftOf(es, from), Middle(es, from), RightOf(es, from), from);
  }

  /** The part of the walk that is still to come. */
  lemma NextLeaves(es: seq<Entry>, i: nat, from: nat)
    requires i < |es| && AtLeast(Leaves(es[i..]), from) && Sorted(Leaves(es[i..]))
    ensures Leaves(es[i..]) == EntryLeaves(es[i]) + Leaves(es[i + 1..])
    ensures AtLeast(Leaves(es[i + 1..]), from) && Sorted(Leaves(es[i + 1..]))
    ensures From(EntryLeaves(es[i]), from) == EntryLeaves(es[i]) && Sorted(EntryLeaves(es[i]))
  {
    assert es[i..][1..] == es[i + 1..];
    SortedParts(EntryLeaves(es[i]), Leaves(es[i + 1..]));
    FromEnds(EntryLeaves(es[i]), from);
  }

  /** `walkLeavesFrom`. */
  method Walk(t: Tree, from: nat, cb: seq<Pair> -> Verdict, seen: seq<Pair>, ghost zeros: nat -> nat)
    returns (w: Walked)
    requires GoodEntries(t.entries, t.layer, zeros) && Sorted(LeavesOf(t))
    ensures w == Feed(seen, From(LeavesOf(t), from), cb)
    decreases t.layer, 2
  {
    var i := FindGtOrEqualLeafIndex(t.entries, from);
    NodeFrom(t.entries, from);
    w := Walked(seen, Continue);
    if i > 0 && t.entries[i - 1].Sub? {
      GoodAt(t.entries, t.layer, zeros, i - 1);
      w := Walk(t.entries[i - 1].tree, from, cb, seen, zeros);
    }
    FeedJoin(seen, From(Middle(t.entries, from), from), RightOf(t.entries, from), cb);
    if w.verdict == Continue {
      w := WalkRest(t.entries, i, t.layer, from, cb, w.seen, zeros);
    }
  }

  /** One entry of the loop: a leaf goes to the callback, a subtree is walked. */
  method WalkEntry(e: Entry, l: nat, from: nat, cb: seq<Pair> -> Verdict, seen: seq<Pair>, ghost zeros: nat -> nat)
    returns (w: Walked)
    requires GoodEntry(e, l, zeros) && Sorted(EntryLeaves(e)) && From(EntryLeaves(e), from) == EntryLeaves(e)
    ensures w == Feed(seen, EntryLeaves(e), cb)
    decreases l, 0
  {
    match e {
      case Leaf(k, v) =>
        var now := seen + [Pair(k, v)];
        w := Walked(now, cb(now));
        assert [Pair(k, v)][1..] == [];
      case Sub(sub) =>
        GoodSub(sub, l, zeros);
        w := Walk(sub, from, cb, seen, zeros);
    }
  }

  /** The loop over the entries from the found index on. */
  method WalkRest(es: seq<Entry>, start: nat, l: nat, from: nat, cb: seq<Pair> -> Verdict, seen: seq<Pair>,
                  ghost zeros: nat -> nat)
    returns (w: Walked)
    requires start <= |es| && GoodEntries(es, l, zeros)
    requires AtLeast(Leaves(es[start..]), from) && Sorted(Leaves(es[start..]))
    ensures w == Feed(seen, Leaves(es[start..]), cb)
    decreases l, 1
  {
    w := Walked(seen, Continue);
    for i := start to |es|
      invariant w.verdict == Continue
      invariant AtLeast(Leaves(es[i..]), from) && Sorted(Leaves(es[i..]))
      invariant Feed(w.seen, Leaves(es[i..]), cb) == Feed(seen, Leaves(es[start..]), cb)
    {
      NextLeaves(es, i, from);
      FeedJoin(w.seen, EntryLeaves(es[i]), Leaves(es[i + 1..]), cb);
      GoodAt(es, l, zeros, i);
      w := WalkEntry(es[i], l, from, cb, w.seen, zeros);
      if w.verdict != Continue {
        return;
      }
    }
    assert es[|es|..] == [];
  }

  /** `WalkLeavesFrom`: stopping is not an error, and nothing else is hidden. */
  method WalkLeavesFrom(t: Tree, from: nat, cb: seq<Pair> -> Verdict, ghost zeros: nat -> nat)
    returns (seen: seq<Pair>, failed: bool)
    requires GoodEntries(t.entries, t.layer, zeros) && Sorted(LeavesOf(t))
    ensures seen <= From(LeavesOf(t), from)
    ensures forall q | [] < q < seen :: cb(q) == Continue
    ensures seen != From(LeavesOf(t), from) ==> seen != [] && cb(seen) != Continue
    ensures failed <==> seen != [] && cb(seen) == Fail
  {
    var w := Walk(t, from, cb, [], zeros);
    FeedIs([], From(LeavesOf(t), from), cb);
    seen, failed := w.seen, w.verdict == Fail;
  }

  /** Feeding goes on to the first leaf whose answer is not to continue. */
  lemma {:induction false} FeedIs(seen: seq<Pair>, s: seq<Pair>, cb: seq<Pair> -> Verdict)
    ensures var w := Feed(seen, s, cb);
            && seen <= w.seen <= seen + s
            && (forall q | seen < q < w.seen :: cb(q) == Continue)
            && (if w.seen == seen then w.verdict == Continue else w.verdict == cb(w.seen))
            && (w.verdict == Continue ==> w.seen == seen + s)
    decreases |s|
  {
    if s == [] {
      assert seen + s == seen;
    } else {
      var now := seen + [s[0]];
      assert seen + s == now + s[1..];
      if cb(now) == Continue {
        FeedIs(now, s[1..], cb);
        var w := Feed(seen, s, cb);
        forall q | seen < q < w.seen ensures cb(q) == Continue {
          Prefixes(seen, now, q, w.seen);
        }
      }
    }
  }

  lemma Prefixes(seen: seq<Pair>, now: seq<Pair>, q: seq<Pair>, w: seq<Pair>)
    requires seen < q < w && now <= w && |now| == |seen| + 1
    ensures q == now || now < q
  {
    assert q == w[..|q|] && now == w[..|now|];
  }

  /** The leaves from a key on are exactly the pairs of the map at or after it, in
      strictly increasing order. */
  lemma {:induction false} FromIs(s: seq<Pair>, from: nat, p: Pair)
    requires Sorted(s)
    ensures Sorted(From(s, from))
    ensures p in From(s, from) <==> Holds(AsMap(s), p) && p.key >= from
    decreases |s|
  {
    MapIs(s, p);
    FromMember(s, from, p);
    FromSorted(s, from);
  }

  lemma {:induction false} FromMember(s: seq<Pair>, from: nat, p: Pair)
    ensures p in From(s, from) <==> p in s && p.key >= from
    decreases |s|
  {
    if s != [] {
      FromMember(s[1..], from, p);
      assert s == [s[0]] + s[1..];
    }
  }

  lemma {:induction false} FromSorted(s: seq<Pair>, from: nat)
    requires Sorted(s)
    ensures Sorted(From(s, from))
    decreases |s|
  {
    if s != [] {
      FromSorted(s[1..], from);
      forall p | p in From(s[1..], from) ensures s[0].key < p.key {
        FromMember(s[1..], from, p);
      }
      SortedParts(if s[0].key >= from then [s[0]] else [], From(s[1..], from));
    }
  }
}
