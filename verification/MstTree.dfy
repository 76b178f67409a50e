/** Merkle search tree nodes, their leaves in order, and finding a key.

    A key is the rank of a byte string in lexicographic order (MstKeys shows the
    ranks order all keys); 0 is the empty string, which is not a valid key. A value
    is a content identifier, 0 the undefined one. */
module MstTree {

  datatype Pair = Pair(key: nat, val: nat)

  datatype Entry = Leaf(key: nat, val: nat) | Sub(tree: Tree)

  datatype Tree = Tree(layer: nat, entries: seq<Entry>)

  datatype Error =
    | InvalidKey | UndefCid | AlreadyExists | NotFound
    | LayersDiffer       // appendMerge of nodes from different layers
    | Panic              // two subtrees next to each other, or an index past an empty node

  datatype Result<+T> = Ok(value: T) | Err(error: Error) {
    predicate IsFailure() { Err? }
    function PropagateFailure<U>(): Result<U>
      requires Err?
    {
      Err(error)
    }
    function Extract(): T
      requires Ok?
    {
      value
    }
  }

  // ---------------------------------------------------------------------------
  // Leaves in order.

  function Leaves(es: seq<Entry>): seq<Pair> {
    if es == [] then [] else EntryLeaves(es[0]) + Leaves(es[1..])
  }

  function EntryLeaves(e: Entry): seq<Pair> {
    match e
    case Leaf(k, v) => [Pair(k, v)]
    case Sub(t) => Leaves(t.entries)
  }

  function LeavesOf(t: Tree): seq<Pair> { Leaves(t.entries) }

  function Size(es: seq<Entry>): nat {
    if es == [] then 0 else EntrySize(es[0]) + Size(es[1..])
  }

  function EntrySize(e: Entry): nat {
    match e
    case Leaf(_, _) => 1
    case Sub(t) => 1 + Size(t.entries)
  }

  predicate Sorted(s: seq<Pair>) {
    forall i, j | 0 <= i < j < |s| :: s[i].key < s[j].key
  }

  predicate Below(s: seq<Pair>, k: nat) { forall p | p in s :: p.key < k }

  predicate Above(s: seq<Pair>, k: nat) { forall p | p in s :: k < p.key }

  predicate AtLeast(s: seq<Pair>, k: nat) { forall p | p in s :: k <= p.key }

  predicate HasKey(s: seq<Pair>, k: nat) { exists p | p in s :: p.key == k }

  lemma {:induction false} LeavesJoin(a: seq<Entry>, b: seq<Entry>)
    ensures Leaves(a + b) == Leaves(a) + Leaves(b)
    decreases |a|
  {
    if a == [] {
      assert a + b == b;
    } else {
      LeavesJoin(a[1..], b);
      assert (a + b)[1..] == a[1..] + b;
    }
  }

  lemma LeavesCut(es: seq<Entry>, i: nat)
    requires i <= |es|
    ensures Leaves(es) == Leaves(es[..i]) + Leaves(es[i..])
  {
    LeavesJoin(es[..i], es[i..]);
    assert es == es[..i] + es[i..];
  }

  lemma LeavesOne(e: Entry)
    ensures Leaves([e]) == EntryLeaves(e)
  {
  }

  /** The leaves around entry `i`. */
  lemma LeavesAround(es: seq<Entry>, i: nat)
    requires i < |es|
    ensures Leaves(es) == Leaves(es[..i]) + EntryLeaves(es[i]) + Leaves(es[i + 1..])
  {
    LeavesCut(es, i);
    assert es[i..][1..] == es[i + 1..];
  }

  lemma {:induction false} SizeAt(es: seq<Entry>, i: nat)
    requires i < |es|
    ensures EntrySize(es[i]) <= Size(es)
    decreases |es|
  {
    if i > 0 {
      SizeAt(es[1..], i - 1);
    }
  }

  lemma SortedParts(a: seq<Pair>, b: seq<Pair>)
    ensures Sorted(a + b) <==> Sorted(a) && Sorted(b) && forall p, q | p in a && q in b :: p.key < q.key
  {
    var s := a + b;
    if Sorted(s) {
      assert forall i | 0 <= i < |a| :: s[i] == a[i];
      assert forall i | 0 <= i < |b| :: s[|a| + i] == b[i];
    }
  }

  // ---------------------------------------------------------------------------
  // Finding a key.

  /** The first leaf entry with a key at or after `k`; the entry count if none. */
  function FindIndex(es: seq<Entry>, k: nat): (i: nat)
    ensures i <= |es|
    ensures i < |es| ==> es[i].Leaf? && k <= es[i].key
    ensures forall j | 0 <= j < i && es[j].Leaf? :: es[j].key < k
  {
    if es == [] || (es[0].Leaf? && es[0].key >= k) then 0 else 1 + FindIndex(es[1..], k)
  }

  lemma FindIndexIs(es: seq<Entry>, k: nat, i: nat)
    requires i <= |es| && (i < |es| ==> es[i].Leaf? && k <= es[i].key)
    requires forall j | 0 <= j < i && es[j].Leaf? :: es[j].key < k
    ensures FindIndex(es, k) == i
  {
    var f := FindIndex(es, k);
  }

  /** `findGtOrEqualLeafIndex`. */
  method FindGtOrEqualLeafIndex(es: seq<Entry>, k: nat) returns (i: nat)
    ensures i == FindIndex(es, k)
  {
    i := 0;
    while i < |es|
      invariant i <= |es| && forall j | 0 <= j < i && es[j].Leaf? :: es[j].key < k
    {
      if es[i].Leaf? && es[i].key >= k {
        FindIndexIs(es, k, i);
        return;
      }
      i := i + 1;
    }
    FindIndexIs(es, k, i);
  }

  predicate NoNeighbours(es: seq<Entry>) {
    forall i | 0 <= i < |es| - 1 :: !(es[i].Sub? && es[i + 1].Sub?)
  }

  /** `atIndex(index - 1)` is a subtree. */
  predicate SubBefore(es: seq<Entry>, i: nat) { 0 < i <= |es| && es[i - 1].Sub? }

  /** Where the entries strictly before `k` end: before the subtree that may hold `k`. */
  function Start(es: seq<Entry>, i: nat): (j: nat)
    requires i <= |es|
    ensures j <= i
  {
    if SubBefore(es, i) then i - 1 else i
  }

  lemma LeafIn(es: seq<Entry>, j: nat)
    requires j < |es| && es[j].Leaf?
    ensures Pair(es[j].key, es[j].val) in Leaves(es)
  {
    LeavesAround(es, j);
    assert Pair(es[j].key, es[j].val) in EntryLeaves(es[j]);
  }

  /** In a sorted node, everything before the found index and its subtree is before
      `k`, and everything from the found index on is not. */
  lemma FindCuts(es: seq<Entry>, k: nat)
    requires Sorted(Leaves(es)) && NoNeighbours(es)
    ensures var i := FindIndex(es, k); Below(Leaves(es[..Start(es, i)]), k) && AtLeast(Leaves(es[i..]), k)
  {
    var i := FindIndex(es, k);
    var j := Start(es, i);
    FindBelow(es, k, j);
    LeavesCut(es, i);
    if i < |es| {
      SortedParts(Leaves(es[..i]), Leaves(es[i..]));
      HeadFirst(es[i..]);
    }
  }

  lemma HeadLeaf(es: seq<Entry>)
    requires es != [] && es[0].Leaf?
    ensures Leaves(es) == [Pair(es[0].key, es[0].val)] + Leaves(es[1..])
    ensures Leaves(es)[0] == Pair(es[0].key, es[0].val)
  {
    assert EntryLeaves(es[0]) == [Pair(es[0].key, es[0].val)];
  }

  lemma HeadFirst(es: seq<Entry>)
    requires es != [] && es[0].Leaf? && Sorted(Leaves(es))
    ensures AtLeast(Leaves(es), es[0].key)
  {
    HeadLeaf(es);
  }

  lemma LeavesLast(es: seq<Entry>)
    requires es != []
    ensures Leaves(es) == Leaves(es[..|es| - 1]) + EntryLeaves(es[|es| - 1])
  {
    LeavesAround(es, |es| - 1);
    assert es[|es|..] == [];
  }

  lemma LastLeafLast(es: seq<Entry>, k: nat)
    requires es != [] && es[|es| - 1].Leaf? && es[|es| - 1].key < k && Sorted(Leaves(es))
    ensures Below(Leaves(es), k)
  {
    LeavesLast(es);
    var s := Leaves(es);
    assert EntryLeaves(es[|es| - 1]) == [Pair(es[|es| - 1].key, es[|es| - 1].val)];
    assert s[|s| - 1] == Pair(es[|es| - 1].key, es[|es| - 1].val);
  }

  lemma FrontSorted(es: seq<Entry>, j: nat)
    requires Sorted(Leaves(es)) && j <= |es|
    ensures Sorted(Leaves(es[..j]))
  {
    LeavesCut(es, j);
    SortedParts(Leaves(es[..j]), Leaves(es[j..]));
  }

  /** A prefix that ends in a leaf before `k` is before `k`. */
  lemma FindBelow(es: seq<Entry>, k: nat, j: nat)
    requires Sorted(Leaves(es)) && j <= |es|
    requires j > 0 ==> es[j - 1].Leaf? && es[j - 1].key < k
    ensures Below(Leaves(es[..j]), k)
  {
    var front := es[..j];
    if j > 0 {
      FrontSorted(es, j);
      assert front[|front| - 1] == es[j - 1];
      LastLeafLast(front, k);
    } else {
      assert front == [] && Leaves(front) == [];
    }
  }
}
