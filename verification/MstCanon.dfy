/** The canonical form of a tree, and that a map has only one. */
module MstCanon {
  import opened MstTree
  import opened MstSpec
  import opened MstOps

  /** A node at layer `l`: not empty, its leaves are the keys of that layer, and its
      subtrees are nodes one layer down, never two in a row. */
  predicate Good(t: Tree, l: nat, zeros: nat -> nat)
    decreases l, 2
  {
    t.layer == l && t.entries != [] && GoodEntries(t.entries, l, zeros)
  }

  predicate GoodEntries(es: seq<Entry>, l: nat, zeros: nat -> nat)
    decreases l, 1
  {
    (forall i | 0 <= i < |es| :: GoodEntry(es[i], l, zeros)) && NoNeighbours(es)
  }

  predicate GoodEntry(e: Entry, l: nat, zeros: nat -> nat)
    decreases l, 0
  {
    match e
    case Leaf(k, v) => zeros(k) == l && k > 0 && v > 0
    case Sub(t) => l > 0 && Good(t, l - 1, zeros)
  }

  predicate Trimmed(t: Tree) { !(|t.entries| == 1 && t.entries[0].Sub?) }

  /** A whole tree in canonical form. */
  predicate Canonical(t: Tree, zeros: nat -> nat) {
    || t == Tree(0, [])
    || (Good(t, t.layer, zeros) && Trimmed(t) && Sorted(LeavesOf(t)))
  }

  predicate InLayer(s: seq<Pair>, l: nat, zeros: nat -> nat) {
    forall p | p in s :: zeros(p.key) <= l
  }

  predicate Sound(s: seq<Pair>) { forall p | p in s :: p.key > 0 && p.val > 0 }

  lemma GoodSub(t: Tree, l: nat, zeros: nat -> nat)
    requires GoodEntry(Sub(t), l, zeros)
    ensures l > 0 && t.layer == l - 1 && t.entries != [] && GoodEntries(t.entries, l - 1, zeros)
  {
    assert Good(t, l - 1, zeros);
  }

  lemma GoodAt(es: seq<Entry>, l: nat, zeros: nat -> nat, i: nat)
    requires GoodEntries(es, l, zeros) && i < |es|
    ensures GoodEntry(es[i], l, zeros)
    ensures es[i].Sub? ==>
      l > 0 && es[i].tree.layer == l - 1 && es[i].tree.entries != [] && GoodEntries(es[i].tree.entries, l - 1, zeros)
  {
    if es[i].Sub? {
      GoodSub(es[i].tree, l, zeros);
    }
  }

  lemma {:induction false} GoodLeaves(es: seq<Entry>, l: nat, zeros: nat -> nat)
    requires GoodEntries(es, l, zeros)
    ensures InLayer(Leaves(es), l, zeros) && Sound(Leaves(es)) && (es != [] ==> Leaves(es) != [])
    decreases l, |es|
  {
    if es != [] {
      GoodTail(es, l, zeros);
      GoodLeaves(es[1..], l, zeros);
      GoodAt(es, l, zeros, 0);
      if es[0].Sub? {
        GoodLeaves(es[0].tree.entries, l - 1, zeros);
      }
    }
  }

  lemma GoodTail(es: seq<Entry>, l: nat, zeros: nat -> nat)
    requires GoodEntries(es, l, zeros) && es != []
    ensures GoodEntries(es[1..], l, zeros)
  {
  }

  // ---------------------------------------------------------------------------
  // The tree of a list of leaves.

  /** How many of the first leaves are below layer `l`. */
  function Run(s: seq<Pair>, l: nat, zeros: nat -> nat): (n: nat)
    ensures n <= |s|
    ensures forall i | 0 <= i < n :: zeros(s[i].key) != l
    ensures n < |s| ==> zeros(s[n].key) == l
  {
    if s == [] || zeros(s[0].key) == l then 0 else 1 + Run(s[1..], l, zeros)
  }

  /** The entries of the node at layer `l` over leaves `s`: the keys of the layer,
      and between them a node one layer down for each run of lower keys. */
  function Built(s: seq<Pair>, l: nat, zeros: nat -> nat): seq<Entry>
    requires InLayer(s, l, zeros)
    decreases l, |s|
  {
    if s == [] then []
    else if zeros(s[0].key) == l then [Leaf(s[0].key, s[0].val)] + Built(s[1..], l, zeros)
    else
      var n := Run(s, l, zeros);
      [Sub(Tree(l - 1, Built(s[..n], l - 1, zeros)))] + Built(s[n..], l, zeros)
  }

  function Top(s: seq<Pair>, zeros: nat -> nat): (l: nat)
    ensures InLayer(s, l, zeros)
    ensures s != [] ==> exists p :: p in s && zeros(p.key) == l
  {
    if s == [] then 0
    else
      var l := Top(s[1..], zeros);
      TopStep(s, l, zeros);
      if zeros(s[0].key) > l then zeros(s[0].key) else l
  }

  lemma TopStep(s: seq<Pair>, l: nat, zeros: nat -> nat)
    requires s != [] && InLayer(s[1..], l, zeros)
    requires s[1..] != [] ==> exists p :: p in s[1..] && zeros(p.key) == l
    ensures InLayer(s, if zeros(s[0].key) > l then zeros(s[0].key) else l, zeros)
    ensures exists p :: p in s && zeros(p.key) == if zeros(s[0].key) > l || |s| == 1 then zeros(s[0].key) else l
    ensures |s| == 1 ==> zeros(s[0].key) >= 0
  {
    assert s == [s[0]] + s[1..];
    if |s| > 1 {
      var q :| q in s[1..] && zeros(q.key) == l;
      assert q in s;
    }
    assert s[0] in s;
  }

  /** The one tree over sorted leaves `s`. */
  function TreeOf(s: seq<Pair>, zeros: nat -> nat): Tree {
    Tree(Top(s, zeros), Built(s, Top(s, zeros), zeros))
  }

  lemma RunIs(s: seq<Pair>, l: nat, zeros: nat -> nat, n: nat)
    requires n <= |s| && (forall i | 0 <= i < n :: zeros(s[i].key) != l)
    requires n < |s| ==> zeros(s[n].key) == l
    ensures Run(s, l, zeros) == n
  {
    var r := Run(s, l, zeros);
  }

  /** A node is the one built from its leaves. */
  lemma {:induction false} GoodIsBuilt(es: seq<Entry>, l: nat, zeros: nat -> nat)
    requires GoodEntries(es, l, zeros)
    ensures InLayer(Leaves(es), l, zeros) && es == Built(Leaves(es), l, zeros)
    decreases l, |es|
  {
    GoodLeaves(es, l, zeros);
    if es != [] {
      GoodTail(es, l, zeros);
      GoodIsBuilt(es[1..], l, zeros);
      GoodAt(es, l, zeros, 0);
      assert es == [es[0]] + es[1..];
      if es[0].Leaf? {
        assert Leaves(es)[1..] == Leaves(es[1..]);
      } else {
        SubFirst(es, l, zeros);
        GoodIsBuilt(es[0].tree.entries, l - 1, zeros);
      }
    }
  }

  /** The leaves of a first subtree are the run before the first leaf of the layer. */
  lemma SubFirst(es: seq<Entry>, l: nat, zeros: nat -> nat)
    requires GoodEntries(es, l, zeros) && es != [] && es[0].Sub?
    ensures var s, n := Leaves(es), |LeavesOf(es[0].tree)|;
            && 0 < n <= |s| && Run(s, l, zeros) == n && zeros(s[0].key) != l
            && s[..n] == LeavesOf(es[0].tree) && s[n..] == Leaves(es[1..])
  {
    var s, a := Leaves(es), LeavesOf(es[0].tree);
    var n := |a|;
    GoodAt(es, l, zeros, 0);
    GoodLeaves(es[0].tree.entries, l - 1, zeros);
    assert EntryLeaves(es[0]) == a;
    assert s[..n] == a && s[n..] == Leaves(es[1..]);
    forall i | 0 <= i < n ensures zeros(s[i].key) != l {
      assert s[i] == a[i];
    }
    if |es| > 1 {
      GoodAt(es, l, zeros, 1);
      assert es[1].Leaf?;
      HeadLeaf(es[1..]);
      assert s[n] == Leaves(es[1..])[0];
    }
    RunIs(s, l, zeros, n);
  }

  /** A trimmed node has a leaf of its own. */
  lemma TrimmedHasLeaf(t: Tree, l: nat, zeros: nat -> nat)
    requires Good(t, l, zeros) && Trimmed(t)
    ensures exists p :: p in LeavesOf(t) && zeros(p.key) == l
  {
    var es := t.entries;
    var i := if es[0].Leaf? then 0 else 1;
    GoodAt(es, l, zeros, i);
    assert es[i].Leaf?;
    LeafIn(es, i);
  }

  lemma TopIs(s: seq<Pair>, l: nat, zeros: nat -> nat)
    requires InLayer(s, l, zeros) && exists p :: p in s && zeros(p.key) == l
    ensures Top(s, zeros) == l
  {
  }

  /** A canonical tree is the one its leaves build. */
  lemma CanonicalIsBuilt(t: Tree, zeros: nat -> nat)
    requires Canonical(t, zeros)
    ensures t == TreeOf(LeavesOf(t), zeros)
  {
    if t.entries != [] {
      GoodIsBuilt(t.entries, t.layer, zeros);
      TrimmedHasLeaf(t, t.layer, zeros);
      TopIs(LeavesOf(t), t.layer, zeros);
    }
  }

  /** The shape of a tree depends only on what it holds. */
  lemma OneShape(t: Tree, u: Tree, zeros: nat -> nat)
    requires Canonical(t, zeros) && Canonical(u, zeros) && Contents(t) == Contents(u)
    ensures t == u
  {
    CanonicalIsBuilt(t, zeros);
    CanonicalIsBuilt(u, zeros);
    SortedUnique(LeavesOf(t), LeavesOf(u));
  }

  // ---------------------------------------------------------------------------
  // Every list of leaves has its tree.

  lemma {:induction false} BuiltIsGood(s: seq<Pair>, l: nat, zeros: nat -> nat)
    requires InLayer(s, l, zeros) && Sound(s)
    ensures var es := Built(s, l, zeros);
            GoodEntries(es, l, zeros) && Leaves(es) == s && (s != [] ==> es != [])
    ensures s != [] ==> Built(s, l, zeros)[0].Leaf? == (zeros(s[0].key) == l)
    decreases l, |s|
  {
    if s != [] {
      assert s == [s[0]] + s[1..];
      if zeros(s[0].key) == l {
        BuiltIsGood(s[1..], l, zeros);
        GoodCons(Leaf(s[0].key, s[0].val), Built(s[1..], l, zeros), l, zeros);
      } else {
        var n := Run(s, l, zeros);
        assert s == s[..n] + s[n..] && s[0] in s && zeros(s[0].key) < l;
        BuiltIsGood(s[..n], l - 1, zeros);
        BuiltIsGood(s[n..], l, zeros);
        GoodCons(Sub(Tree(l - 1, Built(s[..n], l - 1, zeros))), Built(s[n..], l, zeros), l, zeros);
      }
    }
  }

  lemma GoodCons(e: Entry, es: seq<Entry>, l: nat, zeros: nat -> nat)
    requires GoodEntry(e, l, zeros) && GoodEntries(es, l, zeros)
    requires e.Sub? && es != [] ==> es[0].Leaf?
    ensures GoodEntries([e] + es, l, zeros) && Leaves([e] + es) == EntryLeaves(e) + Leaves(es)
  {
    assert ([e] + es)[1..] == es;
  }

  /** Conversely, the tree built from sorted leaves is canonical and holds them. */
  lemma BuiltIsCanonical(s: seq<Pair>, zeros: nat -> nat)
    requires Sorted(s) && Sound(s)
    ensures Canonical(TreeOf(s, zeros), zeros) && LeavesOf(TreeOf(s, zeros)) == s
  {
    var l := Top(s, zeros);
    BuiltIsGood(s, l, zeros);
    if s != [] {
      BuiltTrimmed(s, l, zeros);
    }
  }

  lemma BuiltTrimmed(s: seq<Pair>, l: nat, zeros: nat -> nat)
    requires InLayer(s, l, zeros) && Sound(s) && exists p :: p in s && zeros(p.key) == l
    ensures Trimmed(Tree(l, Built(s, l, zeros)))
  {
    BuiltIsGood(s, l, zeros);
  }

  // ---------------------------------------------------------------------------
  // The layer of a node loaded without it.

  /** Reading the layer off a node's entries gives the layer it was made with. */
  lemma {:induction false} LazyLayer(es: seq<Entry>, l: nat, zeros: nat -> nat)
    requires GoodEntries(es, l, zeros) && es != []
    ensures AttemptLayer(es, zeros) == l
    decreases l, |es|
  {
    GoodAt(es, l, zeros, 0);
    if es[0].Sub? {
      LazyLayer(es[0].tree.entries, l - 1, zeros);
      if |es| > 1 {
        GoodAt(es, l, zeros, 1);
        assert es[1].Leaf?;
        assert LayerForEntries(es[1..], zeros) == l;
      } else {
        assert es[1..] == [];
        assert SubLayer(es[0], zeros) == l - 1;
        assert LayerForEntries(es, zeros) == -1;
        assert SubsLayer(es, zeros) == l;
      }
    }
  }
}
