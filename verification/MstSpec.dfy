/** What a tree stands for: a finite map, in key order. */
module MstSpec {
  import opened MstTree

  /** The map of a list of leaves. */
  function AsMap(s: seq<Pair>): map<nat, nat> {
    if s == [] then map[] else AsMap(s[..|s| - 1])[s[|s| - 1].key := s[|s| - 1].val]
  }

  function Contents(t: Tree): map<nat, nat> { AsMap(LeavesOf(t)) }

  predicate Holds(m: map<nat, nat>, p: Pair) { p.key in m && m[p.key] == p.val }

  /** The map of a sorted list holds exactly its pairs. */
  lemma {:induction false} MapIs(s: seq<Pair>, p: Pair)
    requires Sorted(s)
    ensures p in s <==> Holds(AsMap(s), p)
    decreases |s|
  {
    if s != [] {
      var n := |s| - 1;
      MapIs(s[..n], p);
      assert s == s[..n] + [s[n]];
      if Holds(AsMap(s[..n]), Pair(s[n].key, p.val)) {
        MapIs(s[..n], Pair(s[n].key, p.val));
      }
    }
  }

  lemma MapKeys(s: seq<Pair>, k: nat)
    requires Sorted(s)
    ensures k in AsMap(s) <==> HasKey(s, k)
  {
    if k in AsMap(s) {
      MapIs(s, Pair(k, AsMap(s)[k]));
    }
    if p :| p in s && p.key == k {
      MapIs(s, p);
    }
  }

  /** Two maps that hold the same pairs are the same. */
  lemma SameMap(a: map<nat, nat>, b: map<nat, nat>)
    requires forall p :: Holds(a, p) <==> Holds(b, p)
    ensures a == b
  {
    forall k | k in a ensures k in b && b[k] == a[k] {
      assert Holds(a, Pair(k, a[k]));
    }
    forall k | k in b ensures k in a {
      assert Holds(b, Pair(k, b[k]));
    }
  }

  lemma SortedAround(a: seq<Pair>, p: Pair, b: seq<Pair>)
    requires Sorted(a + b) && Below(a, p.key) && Above(b, p.key)
    ensures Sorted(a + [p] + b)
  {
    SortedParts(a, b);
    SortedParts(a, [p]);
    SortedParts(a + [p], b);
  }

  /** A pair put between what is before and after its key. */
  lemma PutIs(a: seq<Pair>, b: seq<Pair>, k: nat, v: nat)
    requires Sorted(a + b) && Below(a, k) && Above(b, k)
    ensures Sorted(a + [Pair(k, v)] + b)
    ensures AsMap(a + [Pair(k, v)] + b) == AsMap(a + b)[k := v]
    ensures k !in AsMap(a + b)
  {
    var s, s' := a + b, a + [Pair(k, v)] + b;
    SortedAround(a, Pair(k, v), b);
    forall p ensures Holds(AsMap(s'), p) <==> Holds(AsMap(s)[k := v], p) {
      MapIs(s, p);
      MapIs(s', p);
    }
    SameMap(AsMap(s'), AsMap(s)[k := v]);
    MapKeys(s, k);
  }

  /** A pair replaced by another of the same key. */
  lemma ReplacedIs(a: seq<Pair>, b: seq<Pair>, k: nat, u: nat, v: nat)
    requires Sorted(a + [Pair(k, u)] + b)
    ensures Sorted(a + [Pair(k, v)] + b)
    ensures k in AsMap(a + [Pair(k, u)] + b)
    ensures AsMap(a + [Pair(k, v)] + b) == AsMap(a + [Pair(k, u)] + b)[k := v]
  {
    var s, s' := a + [Pair(k, u)] + b, a + [Pair(k, v)] + b;
    Unzip(a, b, k, u);
    PutIs(a, b, k, u);
    PutIs(a, b, k, v);
  }

  /** A pair taken out. */
  lemma DroppedIs(a: seq<Pair>, b: seq<Pair>, k: nat, u: nat)
    requires Sorted(a + [Pair(k, u)] + b)
    ensures Sorted(a + b)
    ensures k in AsMap(a + [Pair(k, u)] + b) && AsMap(a + b) == AsMap(a + [Pair(k, u)] + b) - {k}
  {
    Unzip(a, b, k, u);
    PutIs(a, b, k, u);
  }

  lemma Unzip(a: seq<Pair>, b: seq<Pair>, k: nat, u: nat)
    requires Sorted(a + [Pair(k, u)] + b)
    ensures Sorted(a + b) && Below(a, k) && Above(b, k)
  {
    SortedParts(a + [Pair(k, u)], b);
    SortedParts(a, [Pair(k, u)]);
    assert Pair(k, u) in a + [Pair(k, u)];
    SortedParts(a, b);
  }

  /** A sorted list is determined by its map. */
  lemma {:induction false} SortedUnique(s: seq<Pair>, t: seq<Pair>)
    requires Sorted(s) && Sorted(t) && AsMap(s) == AsMap(t)
    ensures s == t
    decreases |s|
  {
    if s == [] {
      if t != [] {
        MapIs(t, t[0]);
      }
    } else {
      MapIs(s, s[|s| - 1]);
      MapIs(t, s[|s| - 1]);
      LargestLast(s, t);
      var n, m := |s| - 1, |t| - 1;
      assert s[..n] + [s[n]] + [] == s && t[..m] + [t[m]] + [] == t;
      assert s[n] == Pair(s[n].key, s[n].val) && t[m] == Pair(t[m].key, t[m].val);
      assert s[..n] + [] == s[..n] && t[..m] + [] == t[..m];
      DroppedIs(s[..n], [], s[n].key, s[n].val);
      DroppedIs(t[..m], [], t[m].key, t[m].val);
      SortedUnique(s[..n], t[..m]);
    }
  }

  lemma LargestLast(s: seq<Pair>, t: seq<Pair>)
    requires Sorted(s) && Sorted(t) && AsMap(s) == AsMap(t) && s != [] && s[|s| - 1] in t
    ensures t != [] && t[|t| - 1] == s[|s| - 1]
  {
    MapIs(t, t[|t| - 1]);
    MapIs(s, t[|t| - 1]);
  }
}
