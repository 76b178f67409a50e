/** The operations keep the canonical form and do to the map what they say. */
module MstRefine {
  import opened Options
  import opened MstTree
  import opened MstSpec
  import opened MstOps
  import opened MstCanon

  // ---------------------------------------------------------------------------
  // Cutting and joining entries.

  predicate Apart(a: seq<Entry>, b: seq<Entry>) {
    a == [] || b == [] || !(a[|a| - 1].Sub? && b[0].Sub?)
  }

  lemma GoodJoin(a: seq<Entry>, b: seq<Entry>, l: nat, zeros: nat -> nat)
    requires GoodEntries(a, l, zeros) && GoodEntries(b, l, zeros) && Apart(a, b)
    ensures GoodEntries(a + b, l, zeros) && Leaves(a + b) == Leaves(a) + Leaves(b)
  {
    LeavesJoin(a, b);
  }

  lemma GoodSlice(es: seq<Entry>, j: nat, i: nat, l: nat, zeros: nat -> nat)
    requires GoodEntries(es, l, zeros) && j <= i <= |es|
    ensures GoodEntries(es[..j], l, zeros) && GoodEntries(es[i..], l, zeros)
  {
  }

  /** Entries replaced by others that keep subtrees apart. */
  lemma ReplacedGood(es: seq<Entry>, j: nat, i: nat, mid: seq<Entry>, l: nat, zeros: nat -> nat)
    requires GoodEntries(es, l, zeros) && GoodEntries(mid, l, zeros) && j <= i <= |es|
    requires Apart(es[..j], mid) && Apart(es[..j] + mid, es[i..])
    ensures var r := Replaced(es, j, i, mid);
            GoodEntries(r, l, zeros) && Leaves(r) == Leaves(es[..j]) + Leaves(mid) + Leaves(es[i..])
  {
    GoodSlice(es, j, i, l, zeros);
    GoodJoin(es[..j], mid, l, zeros);
    GoodJoin(es[..j] + mid, es[i..], l, zeros);
  }

  lemma GoodOne(e: Entry, l: nat, zeros: nat -> nat)
    requires GoodEntry(e, l, zeros)
    ensures GoodEntries([e], l, zeros) && Leaves([e]) == EntryLeaves(e)
  {
    LeavesOne(e);
  }

  /** Leaves `s` around the place of `k`: `a` before it, `m` on either side, `b` from
      it on, past it unless it is hit. */
  predicate Sides(s: seq<Pair>, k: nat, a: seq<Pair>, m: seq<Pair>, b: seq<Pair>, hit: bool) {
    s == a + m + b && Sorted(m) && Below(a, k) && AtLeast(b, k) && (!hit ==> Above(b, k))
  }

  /** The leaves before the subtree that may hold `k`, of that subtree, and from the
      found index on. */
  function LeftOf(es: seq<Entry>, k: nat): seq<Pair> { Leaves(es[..Start(es, FindIndex(es, k))]) }

  function Middle(es: seq<Entry>, k: nat): seq<Pair> {
    var i := FindIndex(es, k);
    if SubBefore(es, i) then LeavesOf(es[i - 1].tree) else []
  }

  function RightOf(es: seq<Entry>, k: nat): seq<Pair> { Leaves(es[FindIndex(es, k)..]) }

  predicate Hit(es: seq<Entry>, k: nat) {
    var i := FindIndex(es, k);
    i < |es| && es[i].key == k
  }

  lemma Cut(es: seq<Entry>, k: nat)
    requires Sorted(Leaves(es)) && NoNeighbours(es)
    ensures Sides(Leaves(es), k, LeftOf(es, k), Middle(es, k), RightOf(es, k), Hit(es, k))
  {
    CutLeaves(es, k);
    FindCuts(es, k);
    SortedThree(LeftOf(es, k), Middle(es, k), RightOf(es, k));
    var i := FindIndex(es, k);
    if i < |es| && es[i].key != k {
      HeadFirst(es[i..]);
    }
  }

  lemma SortedThree(a: seq<Pair>, m: seq<Pair>, b: seq<Pair>)
    requires Sorted(a + m + b)
    ensures Sorted(m) && Sorted(b)
  {
    SortedParts(a + m, b);
    SortedParts(a, m);
  }

  lemma CutLeaves(es: seq<Entry>, k: nat)
    ensures Leaves(es) == LeftOf(es, k) + Middle(es, k) + RightOf(es, k)
  {
    var i := FindIndex(es, k);
    if SubBefore(es, i) {
      LeavesAround(es, i - 1);
      SubLeaves(es[i - 1]);
    } else {
      LeavesCut(es, i);
      assert Middle(es, k) == [];
    }
  }

  lemma SubLeaves(e: Entry)
    requires e.Sub?
    ensures EntryLeaves(e) == LeavesOf(e.tree)
  {
  }

  /** A key is at the found index, or in the subtree before it, or not there. */
  lemma Located(es: seq<Entry>, k: nat)
    requires Sorted(Leaves(es)) && NoNeighbours(es)
    ensures HasKey(Leaves(es), k) <==> Hit(es, k) || HasKey(Middle(es, k), k)
    ensures Hit(es, k) ==> !HasKey(Middle(es, k), k)
  {
    Cut(es, k);
    if Hit(es, k) {
      LeafIn(es[FindIndex(es, k)..], 0);
    }
    SidesKey(Leaves(es), k, LeftOf(es, k), Middle(es, k), RightOf(es, k), Hit(es, k));
  }

  lemma SidesKey(s: seq<Pair>, k: nat, a: seq<Pair>, m: seq<Pair>, b: seq<Pair>, hit: bool)
    requires Sides(s, k, a, m, b, hit) && Sorted(s) && (hit ==> HasKey(b, k))
    ensures HasKey(s, k) <==> hit || HasKey(m, k)
    ensures hit ==> !HasKey(m, k)
  {
    SortedParts(a + m, b);
    if p :| p in s && p.key == k {
      assert p in a || p in m || p in b;
    }
    if p :| p in m && p.key == k {
      assert p in a + m && p in s;
    }
    if p :| p in b && p.key == k {
      assert p in s;
    }
  }

  // ---------------------------------------------------------------------------
  // What happens to the leaves.

  predicate InsertedAt(s: seq<Pair>, s': seq<Pair>, k: nat, v: nat, a: seq<Pair>, b: seq<Pair>) {
    s == a + b && s' == a + [Pair(k, v)] + b && Below(a, k) && Above(b, k)
  }

  ghost predicate Inserted(s: seq<Pair>, s': seq<Pair>, k: nat, v: nat) {
    exists a, b :: InsertedAt(s, s', k, v, a, b)
  }

  predicate ChangedAt(s: seq<Pair>, s': seq<Pair>, k: nat, v: nat, a: seq<Pair>, u: nat, b: seq<Pair>) {
    s == a + [Pair(k, u)] + b && s' == a + [Pair(k, v)] + b
  }

  ghost predicate Changed(s: seq<Pair>, s': seq<Pair>, k: nat, v: nat) {
    exists a, u, b :: ChangedAt(s, s', k, v, a, u, b)
  }

  predicate DroppedAt(s: seq<Pair>, s': seq<Pair>, k: nat, a: seq<Pair>, u: nat, b: seq<Pair>) {
    s == a + [Pair(k, u)] + b && s' == a + b
  }

  ghost predicate Dropped(s: seq<Pair>, s': seq<Pair>, k: nat) {
    exists a, u, b :: DroppedAt(s, s', k, a, u, b)
  }

  lemma InsertedInside(x: seq<Pair>, s: seq<Pair>, s': seq<Pair>, y: seq<Pair>, k: nat, v: nat)
    requires Inserted(s, s', k, v) && Below(x, k) && Above(y, k)
    ensures Inserted(x + s + y, x + s' + y, k, v)
  {
    var a, b :| InsertedAt(s, s', k, v, a, b);
    assert x + s + y == (x + a) + (b + y) && x + s' + y == (x + a) + [Pair(k, v)] + (b + y);
    assert InsertedAt(x + s + y, x + s' + y, k, v, x + a, b + y);
  }

  lemma ChangedInside(x: seq<Pair>, s: seq<Pair>, s': seq<Pair>, y: seq<Pair>, k: nat, v: nat)
    requires Changed(s, s', k, v)
    ensures Changed(x + s + y, x + s' + y, k, v)
  {
    var a, u, b :| ChangedAt(s, s', k, v, a, u, b);
    assert x + s + y == (x + a) + [Pair(k, u)] + (b + y) && x + s' + y == (x + a) + [Pair(k, v)] + (b + y);
    assert ChangedAt(x + s + y, x + s' + y, k, v, x + a, u, b + y);
  }

  lemma DroppedInside(x: seq<Pair>, s: seq<Pair>, s': seq<Pair>, y: seq<Pair>, k: nat)
    requires Dropped(s, s', k)
    ensures Dropped(x + s + y, x + s' + y, k)
  {
    var a, u, b :| DroppedAt(s, s', k, a, u, b);
    assert x + s + y == (x + a) + [Pair(k, u)] + (b + y) && x + s' + y == (x + a) + (b + y);
    assert DroppedAt(x + s + y, x + s' + y, k, x + a, u, b + y);
  }

  // ---------------------------------------------------------------------------
  // Split.

  predicate GoodHalf(o: Option<Tree>, l: nat, zeros: nat -> nat) {
    o.Some? ==> Good(o.value, l, zeros)
  }

  function HalfLeaves(o: Option<Tree>): seq<Pair> {
    if o.None? then [] else LeavesOf(o.value)
  }

  lemma HalfEntries(o: Option<Tree>, l: nat, zeros: nat -> nat)
    requires GoodHalf(o, l, zeros)
    ensures GoodEntries(AsEntries(o), l + 1, zeros) && Leaves(AsEntries(o)) == HalfLeaves(o)
  {
    if o.Some? {
      GoodOne(Sub(o.value), l + 1, zeros);
    }
  }

  lemma NonEmptyIs(l: nat, es: seq<Entry>, zeros: nat -> nat)
    requires GoodEntries(es, l, zeros)
    ensures var o := NonEmpty(Tree(l, es)); GoodHalf(o, l, zeros) && HalfLeaves(o) == Leaves(es)
  {
  }

  /** Leaves `s` split into `x` before `k` and `y` after it. */
  predicate SplitInto(s: seq<Pair>, k: nat, x: seq<Pair>, y: seq<Pair>) {
    s == x + y && Below(x, k) && Above(y, k)
  }

  /** What `splitAround` promises: two good halves, one before `k` and one after. */
  predicate SplitOk(r: Result<(Option<Tree>, Option<Tree>)>, s: seq<Pair>, k: nat, l: nat, zeros: nat -> nat) {
    && r.Ok? && GoodHalf(r.value.0, l, zeros) && GoodHalf(r.value.1, l, zeros)
    && SplitInto(s, k, HalfLeaves(r.value.0), HalfLeaves(r.value.1))
  }

  lemma SplitSides(s: seq<Pair>, k: nat, a: seq<Pair>, m: seq<Pair>, b: seq<Pair>, x: seq<Pair>, y: seq<Pair>)
    requires Sides(s, k, a, m, b, false) && SplitInto(m, k, x, y)
    ensures SplitInto(s, k, a + x, y + b)
  {
    assert a + (x + y) + b == (a + x) + (y + b);
  }

  lemma {:induction false} SplitIs(t: Tree, l: nat, k: nat, zeros: nat -> nat)
    requires t.layer == l && GoodEntries(t.entries, l, zeros) && Sorted(LeavesOf(t)) && !HasKey(LeavesOf(t), k)
    ensures SplitOk(SplitAround(t, k), LeavesOf(t), k, l, zeros)
    decreases l
  {
    var es := t.entries;
    var i := FindIndex(es, k);
    Cut(es, k);
    Located(es, k);
    if SubBefore(es, i) {
      GoodAt(es, l, zeros, i - 1);
      SplitIs(es[i - 1].tree, l - 1, k, zeros);
      SplitDeep(t, l, k, zeros);
    } else {
      SplitShallow(t, l, k, zeros);
    }
  }

  lemma SplitShallow(t: Tree, l: nat, k: nat, zeros: nat -> nat)
    requires t.layer == l && GoodEntries(t.entries, l, zeros) && !SubBefore(t.entries, FindIndex(t.entries, k))
    requires Sides(LeavesOf(t), k, LeftOf(t.entries, k), [], RightOf(t.entries, k), false)
    ensures SplitOk(SplitAround(t, k), LeavesOf(t), k, l, zeros)
  {
    var es, i := t.entries, FindIndex(t.entries, k);
    GoodSlice(es, i, i, l, zeros);
    NonEmptyIs(l, es[..i], zeros);
    NonEmptyIs(l, es[i..], zeros);
    SplitSides(Leaves(es), k, LeftOf(es, k), [], RightOf(es, k), [], []);
  }

  /** The two halves of a node around a subtree that is itself split. */
  lemma SplitEntries(es: seq<Entry>, i: nat, l: nat, zeros: nat -> nat, left: Option<Tree>, right: Option<Tree>)
    requires l > 0 && GoodEntries(es, l, zeros) && SubBefore(es, i) && (i < |es| ==> es[i].Leaf?)
    requires GoodHalf(left, l - 1, zeros) && GoodHalf(right, l - 1, zeros)
    ensures var x := es[..i - 1] + AsEntries(left);
            GoodEntries(x, l, zeros) && Leaves(x) == Leaves(es[..i - 1]) + HalfLeaves(left)
    ensures var y := AsEntries(right) + es[i..];
            GoodEntries(y, l, zeros) && Leaves(y) == HalfLeaves(right) + Leaves(es[i..])
  {
    GoodSlice(es, i - 1, i, l, zeros);
    HalfEntries(left, l - 1, zeros);
    HalfEntries(right, l - 1, zeros);
    assert i >= 2 ==> !es[i - 2].Sub?;
    GoodJoin(es[..i - 1], AsEntries(left), l, zeros);
    GoodJoin(AsEntries(right), es[i..], l, zeros);
  }

  /** What `splitAround` returns when the place of `k` is in a subtree. */
  lemma SplitReturns(t: Tree, k: nat, x: Option<Tree>, y: Option<Tree>)
    requires var i := FindIndex(t.entries, k);
             && SubBefore(t.entries, i) && SplitAround(t.entries[i - 1].tree, k) == Ok((x, y))
             && NoNeighbours(t.entries[..i - 1] + AsEntries(x)) && NoNeighbours(AsEntries(y) + t.entries[i..])
             && NoNeighbours(t.entries)
    ensures var i := FindIndex(t.entries, k);
            SplitAround(t, k) == Ok((NonEmpty(Tree(t.layer, t.entries[..i - 1] + AsEntries(x))),
                                     NonEmpty(Tree(t.layer, AsEntries(y) + t.entries[i..]))))
  {
    var es, i := t.entries, FindIndex(t.entries, k);
    var left, right := Tree(t.layer, es[..i]), Tree(t.layer, es[i..]);
    assert Replaced(es[..i], i - 1, i, []) == es[..i - 1];
    assert es[..i - 1] + [] == es[..i - 1] && [] + es[i..] == es[i..];
    assert RemoveEntry(left, i - 1) == Ok(Tree(t.layer, es[..i - 1]));
    HalfChecked(t.layer, es[..i - 1], AsEntries(x));
    HalfChecked(t.layer, AsEntries(y), es[i..]);
  }

  lemma HalfChecked(layer: nat, a: seq<Entry>, b: seq<Entry>)
    requires NoNeighbours(a + b)
    ensures Checked(layer, a + b) == Ok(Tree(layer, a + b))
    ensures a + [] == a && [] + b == b
  {
  }

  lemma SplitDeep(t: Tree, l: nat, k: nat, zeros: nat -> nat)
    requires t.layer == l && GoodEntries(t.entries, l, zeros) && l > 0
    requires Sides(LeavesOf(t), k, LeftOf(t.entries, k), Middle(t.entries, k), RightOf(t.entries, k), false)
    requires var i := FindIndex(t.entries, k);
             && SubBefore(t.entries, i)
             && SplitOk(SplitAround(t.entries[i - 1].tree, k), Middle(t.entries, k), k, l - 1, zeros)
    ensures SplitOk(SplitAround(t, k), LeavesOf(t), k, l, zeros)
  {
    var es, i := t.entries, FindIndex(t.entries, k);
    var halves := SplitAround(es[i - 1].tree, k).value;
    SplitEntries(es, i, l, zeros, halves.0, halves.1);
    SplitReturns(t, k, halves.0, halves.1);
    NonEmptyIs(l, es[..i - 1] + AsEntries(halves.0), zeros);
    NonEmptyIs(l, AsEntries(halves.1) + es[i..], zeros);
    SplitSides(LeavesOf(t), k, LeftOf(es, k), Middle(es, k), RightOf(es, k), HalfLeaves(halves.0),
        HalfLeaves(halves.1));
  }

  // ---------------------------------------------------------------------------
  // Add.

  /** Whatever stands in the place of `k`, between its left and right leaves. */
  lemma MiddleReplaced(es: seq<Entry>, k: nat, l: nat, zeros: nat -> nat, mid: seq<Entry>)
    requires GoodEntries(es, l, zeros) && GoodEntries(mid, l, zeros)
    ensures var i := FindIndex(es, k);
            var r := Replaced(es, Start(es, i), i, mid);
            GoodEntries(r, l, zeros) && Leaves(r) == LeftOf(es, k) + Leaves(mid) + RightOf(es, k)
  {
    var i := FindIndex(es, k);
    var j := Start(es, i);
    assert j > 0 ==> es[j - 1].Leaf?;
    ReplacedGood(es, j, i, mid, l, zeros);
  }

  ghost predicate Added(r: Result<Tree>, s: seq<Pair>, k: nat, v: nat, l: nat, zeros: nat -> nat) {
    if HasKey(s, k) then r == Err(AlreadyExists)
    else r.Ok? && Good(r.value, l, zeros) && Inserted(s, LeavesOf(r.value), k, v)
  }

  lemma MiddleInserted(s: seq<Pair>, k: nat, v: nat, a: seq<Pair>, m: seq<Pair>, b: seq<Pair>, m': seq<Pair>)
    requires Sides(s, k, a, m, b, false) && Inserted(m, m', k, v)
    ensures Inserted(s, a + m' + b, k, v)
  {
    InsertedInside(a, m, m', b, k, v);
  }

  lemma InsertedHalves(m: seq<Pair>, k: nat, v: nat, x: seq<Pair>, y: seq<Pair>)
    requires SplitInto(m, k, x, y)
    ensures Inserted(m, x + [Pair(k, v)] + y, k, v)
  {
    assert InsertedAt(m, x + [Pair(k, v)] + y, k, v, x, y);
  }

  /** The node with `mid` in the place of `k`, when `mid` has `k` put in. */
  lemma PutMiddle(t: Tree, l: nat, k: nat, v: nat, zeros: nat -> nat, mid: seq<Entry>)
    requires t.layer == l && GoodEntries(t.entries, l, zeros) && Sorted(LeavesOf(t)) && !Hit(t.entries, k)
    requires GoodEntries(mid, l, zeros) && mid != [] && Inserted(Middle(t.entries, k), Leaves(mid), k, v)
    ensures var i := FindIndex(t.entries, k);
            var r := Checked(l, Replaced(t.entries, Start(t.entries, i), i, mid));
            r.Ok? && Good(r.value, l, zeros) && Inserted(LeavesOf(t), LeavesOf(r.value), k, v)
  {
    var es := t.entries;
    Cut(es, k);
    MiddleReplaced(es, k, l, zeros, mid);
    MiddleInserted(Leaves(es), k, v, LeftOf(es, k), Middle(es, k), RightOf(es, k), Leaves(mid));
  }

  /** The entries that stand for a split subtree with `k` between its halves. */
  lemma SplitMiddle(left: Option<Tree>, right: Option<Tree>, k: nat, v: nat, l: nat, zeros: nat -> nat, m: seq<Pair>)
    requires zeros(k) == l && k > 0 && v > 0
    requires l > 0 ==> GoodHalf(left, l - 1, zeros) && GoodHalf(right, l - 1, zeros)
    requires l == 0 ==> left.None? && right.None?
    requires SplitInto(m, k, HalfLeaves(left), HalfLeaves(right))
    ensures var mid := Around(left, Leaf(k, v), right); GoodEntries(mid, l, zeros) && Inserted(m, Leaves(mid), k, v)
  {
    if l > 0 {
      HalfEntries(left, l - 1, zeros);
      HalfEntries(right, l - 1, zeros);
    }
    GoodOne(Leaf(k, v), l, zeros);
    GoodJoin(AsEntries(left), [Leaf(k, v)], l, zeros);
    GoodJoin(AsEntries(left) + [Leaf(k, v)], AsEntries(right), l, zeros);
    InsertedHalves(m, k, v, HalfLeaves(left), HalfLeaves(right));
  }

  /** A key of this layer is not in a subtree. */
  lemma NotBelow(es: seq<Entry>, k: nat, l: nat, zeros: nat -> nat)
    requires GoodEntries(es, l, zeros) && zeros(k) == l
    ensures !HasKey(Middle(es, k), k)
  {
    var i := FindIndex(es, k);
    if SubBefore(es, i) {
      GoodAt(es, l, zeros, i - 1);
      GoodLeaves(es[i - 1].tree.entries, l - 1, zeros);
    }
  }

  /** What stands in the place of a key of this layer once it is added. */
  function AddedMiddle(es: seq<Entry>, k: nat, v: nat): Result<seq<Entry>> {
    var i := FindIndex(es, k);
    if !SubBefore(es, i) then Ok([Leaf(k, v)])
    else
      var halves :- SplitAround(es[i - 1].tree, k);
      Ok(Around(halves.0, Leaf(k, v), halves.1))
  }

  lemma AddReturnsHere(t: Tree, k: nat, v: nat, zeros: nat -> nat, valid: nat -> bool)
    requires k > 0 && valid(k) && v > 0 && zeros(k) == t.layer && NoNeighbours(t.entries)
    requires !Hit(t.entries, k) && AddedMiddle(t.entries, k, v).Ok?
    ensures var i := FindIndex(t.entries, k);
            Add(t, k, v, zeros, valid)
            == Checked(t.layer, Replaced(t.entries, Start(t.entries, i), i, AddedMiddle(t.entries, k, v).value))
  {
  }

  lemma AddedMiddleIs(es: seq<Entry>, k: nat, v: nat, l: nat, zeros: nat -> nat)
    requires GoodEntries(es, l, zeros) && Sorted(Leaves(es)) && k > 0 && v > 0 && zeros(k) == l
    ensures var r := AddedMiddle(es, k, v);
            r.Ok? && r.value != [] && GoodEntries(r.value, l, zeros) && Inserted(Middle(es, k), Leaves(r.value), k, v)
  {
    if SubBefore(es, FindIndex(es, k)) {
      AddedMiddleSplit(es, k, v, l, zeros);
    } else {
      SplitMiddle(None, None, k, v, l, zeros, []);
      assert Around(None, Leaf(k, v), None) == [Leaf(k, v)];
    }
  }

  lemma AddedMiddleSplit(es: seq<Entry>, k: nat, v: nat, l: nat, zeros: nat -> nat)
    requires GoodEntries(es, l, zeros) && Sorted(Leaves(es)) && k > 0 && v > 0 && zeros(k) == l
    requires SubBefore(es, FindIndex(es, k))
    ensures var r := AddedMiddle(es, k, v);
            r.Ok? && r.value != [] && GoodEntries(r.value, l, zeros) && Inserted(Middle(es, k), Leaves(r.value), k, v)
  {
    var i := FindIndex(es, k);
    NotBelow(es, k, l, zeros);
    Cut(es, k);
    GoodAt(es, l, zeros, i - 1);
    SplitIs(es[i - 1].tree, l - 1, k, zeros);
    var halves := SplitAround(es[i - 1].tree, k).value;
    SplitMiddle(halves.0, halves.1, k, v, l, zeros, Middle(es, k));
    AddedMiddleReturns(es, k, v, halves.0, halves.1);
  }

  lemma AddedMiddleReturns(es: seq<Entry>, k: nat, v: nat, x: Option<Tree>, y: Option<Tree>)
    requires SubBefore(es, FindIndex(es, k)) && SplitAround(es[FindIndex(es, k) - 1].tree, k) == Ok((x, y))
    ensures AddedMiddle(es, k, v) == Ok(Around(x, Leaf(k, v), y))
  {
  }

  lemma AddHere(t: Tree, k: nat, v: nat, zeros: nat -> nat, valid: nat -> bool)
    requires GoodEntries(t.entries, t.layer, zeros) && Sorted(LeavesOf(t)) && k > 0 && valid(k) && v > 0
    requires zeros(k) == t.layer
    ensures Added(Add(t, k, v, zeros, valid), LeavesOf(t), k, v, t.layer, zeros)
  {
    Located(t.entries, k);
    NotBelow(t.entries, k, t.layer, zeros);
    if !Hit(t.entries, k) {
      AddedMiddleIs(t.entries, k, v, t.layer, zeros);
      AddReturnsHere(t, k, v, zeros, valid);
      PutMiddle(t, t.layer, k, v, zeros, AddedMiddle(t.entries, k, v).value);
    }
  }

  /** A key of a lower layer is not a leaf of this node. */
  lemma NotHere(es: seq<Entry>, k: nat, l: nat, zeros: nat -> nat)
    requires GoodEntries(es, l, zeros) && zeros(k) != l
    ensures !Hit(es, k)
  {
    var i := FindIndex(es, k);
    if i < |es| {
      GoodAt(es, l, zeros, i);
    }
  }

  /** The node that `Add` goes on in for a key of a lower layer. */
  function Below1(t: Tree, k: nat): Tree
    requires t.layer > 0
  {
    var i := FindIndex(t.entries, k);
    if SubBefore(t.entries, i) then t.entries[i - 1].tree else Tree(t.layer - 1, [])
  }

  lemma Below1Good(t: Tree, k: nat, zeros: nat -> nat)
    requires GoodEntries(t.entries, t.layer, zeros) && Sorted(LeavesOf(t)) && t.layer > 0
    ensures var u := Below1(t, k);
            && u.layer == t.layer - 1 && GoodEntries(u.entries, u.layer, zeros)
            && LeavesOf(u) == Middle(t.entries, k) && Sorted(LeavesOf(u))
  {
    var i := FindIndex(t.entries, k);
    Cut(t.entries, k);
    if SubBefore(t.entries, i) {
      GoodAt(t.entries, t.layer, zeros, i - 1);
    }
  }

  /** What `Add` returns for a key of a lower layer. */
  lemma AddReturnsBelow(t: Tree, k: nat, v: nat, zeros: nat -> nat, valid: nat -> bool)
    requires k > 0 && valid(k) && v > 0 && zeros(k) < t.layer
    ensures var i, r := FindIndex(t.entries, k), Add(Below1(t, k), k, v, zeros, valid);
            Add(t, k, v, zeros, valid)
            == if r.Ok? then Checked(t.layer, Replaced(t.entries, Start(t.entries, i), i, [Sub(r.value)]))
                else Err(r.error)
  {
  }

  lemma AddBelow(t: Tree, k: nat, v: nat, zeros: nat -> nat, valid: nat -> bool)
    requires GoodEntries(t.entries, t.layer, zeros) && Sorted(LeavesOf(t)) && k > 0 && valid(k) && v > 0
    requires zeros(k) < t.layer
    requires Added(Add(Below1(t, k), k, v, zeros, valid), Middle(t.entries, k), k, v, t.layer - 1, zeros)
    ensures Added(Add(t, k, v, zeros, valid), LeavesOf(t), k, v, t.layer, zeros)
  {
    var es, l := t.entries, t.layer;
    AddReturnsBelow(t, k, v, zeros, valid);
    Located(es, k);
    NotHere(es, k, l, zeros);
    if !HasKey(Leaves(es), k) {
      var sub := Add(Below1(t, k), k, v, zeros, valid).value;
      GoodOne(Sub(sub), l, zeros);
      PutMiddle(t, l, k, v, zeros, [Sub(sub)]);
    }
  }

  lemma {:induction false} AddIn(t: Tree, k: nat, v: nat, zeros: nat -> nat, valid: nat -> bool)
    requires GoodEntries(t.entries, t.layer, zeros) && Sorted(LeavesOf(t)) && k > 0 && valid(k) && v > 0
    requires zeros(k) <= t.layer
    ensures Added(Add(t, k, v, zeros, valid), LeavesOf(t), k, v, t.layer, zeros)
    decreases t.layer
  {
    if zeros(k) == t.layer {
      AddHere(t, k, v, zeros, valid);
    } else {
      Below1Good(t, k, zeros);
      AddIn(Below1(t, k), k, v, zeros, valid);
      AddBelow(t, k, v, zeros, valid);
    }
  }

  lemma {:induction false} LiftedIs(t: Tree, l: nat, n: nat, zeros: nat -> nat)
    requires Good(t, l, zeros)
    ensures Good(Lifted(t, n), l + n, zeros) && LeavesOf(Lifted(t, n)) == LeavesOf(t)
    decreases n
  {
    if n > 0 {
      GoodOne(Sub(t), l + 1, zeros);
      LiftedIs(Tree(l + 1, [Sub(t)]), l + 1, n - 1, zeros);
    }
  }

  lemma LiftedHalfIs(o: Option<Tree>, l: nat, n: nat, zeros: nat -> nat)
    requires GoodHalf(o, l, zeros)
    ensures GoodHalf(LiftedHalf(o, n), l + n, zeros) && HalfLeaves(LiftedHalf(o, n)) == HalfLeaves(o)
  {
    if o.Some? {
      LiftedIs(o.value, l, n, zeros);
    }
  }

  lemma AddReturnsAbove(t: Tree, k: nat, v: nat, zeros: nat -> nat, valid: nat -> bool)
    requires k > 0 && valid(k) && v > 0 && zeros(k) > t.layer
    ensures Add(t, k, v, zeros, valid) == AddAbove(t, k, v, zeros(k))
  {
  }

  lemma AboveGood(l: nat, k: nat, v: nat, zeros: nat -> nat, left: Option<Tree>, right: Option<Tree>, s: seq<Pair>)
    requires zeros(k) > l && k > 0 && v > 0
    requires GoodHalf(left, l, zeros) && GoodHalf(right, l, zeros)
    requires SplitInto(s, k, HalfLeaves(left), HalfLeaves(right))
    ensures var z := zeros(k);
            var es := Around(LiftedHalf(left, z - l - 1), Leaf(k, v), LiftedHalf(right, z - l - 1));
            Good(Tree(z, es), z, zeros) && Inserted(s, Leaves(es), k, v) && Trimmed(Tree(z, es))
  {
    var z := zeros(k);
    LiftedHalfIs(left, l, z - l - 1, zeros);
    LiftedHalfIs(right, l, z - l - 1, zeros);
    var x, y := LiftedHalf(left, z - l - 1), LiftedHalf(right, z - l - 1);
    assert HalfLeaves(x) == HalfLeaves(left) && HalfLeaves(y) == HalfLeaves(right);
    AroundGood(z, k, v, zeros, x, y, s);
  }

  lemma AroundGood(z: nat, k: nat, v: nat, zeros: nat -> nat, left: Option<Tree>, right: Option<Tree>, s: seq<Pair>)
    requires zeros(k) == z > 0 && k > 0 && v > 0
    requires GoodHalf(left, z - 1, zeros) && GoodHalf(right, z - 1, zeros)
    requires SplitInto(s, k, HalfLeaves(left), HalfLeaves(right))
    ensures var t := Tree(z, Around(left, Leaf(k, v), right));
            Good(t, z, zeros) && Inserted(s, LeavesOf(t), k, v) && Trimmed(t)
  {
    SplitMiddle(left, right, k, v, z, zeros, s);
  }

  /** A key above the root becomes the new root's one leaf. */
  lemma AddAboveIs(t: Tree, k: nat, v: nat, zeros: nat -> nat, valid: nat -> bool)
    requires GoodEntries(t.entries, t.layer, zeros) && Sorted(LeavesOf(t)) && k > 0 && valid(k) && v > 0
    requires zeros(k) > t.layer
    ensures !HasKey(LeavesOf(t), k) && Added(Add(t, k, v, zeros, valid), LeavesOf(t), k, v, zeros(k), zeros)
    ensures Trimmed(Add(t, k, v, zeros, valid).value)
  {
    GoodLeaves(t.entries, t.layer, zeros);
    SplitIs(t, t.layer, k, zeros);
    AddReturnsAbove(t, k, v, zeros, valid);
    var halves := SplitAround(t, k).value;
    AboveGood(t.layer, k, v, zeros, halves.0, halves.1, LeavesOf(t));
  }

  // ---------------------------------------------------------------------------
  // Get and Update.

  lemma {:induction false} GetIn(t: Tree, l: nat, k: nat, zeros: nat -> nat)
    requires GoodEntries(t.entries, l, zeros) && Sorted(LeavesOf(t))
    ensures !HasKey(LeavesOf(t), k) ==> Get(t, k) == Err(NotFound)
    ensures HasKey(LeavesOf(t), k) ==> Get(t, k).Ok? && Pair(k, Get(t, k).value) in LeavesOf(t)
    decreases l
  {
    var es := t.entries;
    var i := FindIndex(es, k);
    Cut(es, k);
    Located(es, k);
    if Hit(es, k) {
      LeafIn(es, i);
    } else if SubBefore(es, i) {
      GoodAt(es, l, zeros, i - 1);
      GetIn(es[i - 1].tree, l - 1, k, zeros);
    }
  }

  ghost predicate Updated(r: Result<Tree>, s: seq<Pair>, k: nat, v: nat, l: nat, zeros: nat -> nat) {
    if !HasKey(s, k) then r == Err(NotFound)
    else r.Ok? && Good(r.value, l, zeros) && Changed(s, LeavesOf(r.value), k, v)
  }

  lemma UpdateHere(t: Tree, k: nat, v: nat, zeros: nat -> nat)
    requires Good(t, t.layer, zeros) && k > 0 && v > 0 && Hit(t.entries, k)
    ensures var r := UpdateEntry(t, FindIndex(t.entries, k), Leaf(k, v));
            r.Ok? && Good(r.value, t.layer, zeros) && Changed(LeavesOf(t), LeavesOf(r.value), k, v)
  {
    var es, l := t.entries, t.layer;
    var i := FindIndex(es, k);
    GoodAt(es, l, zeros, i);
    GoodOne(Leaf(k, v), l, zeros);
    ReplacedGood(es, i, i + 1, [Leaf(k, v)], l, zeros);
    LeavesAround(es, i);
    assert ChangedAt(Leaves(es), Leaves(Replaced(es, i, i + 1, [Leaf(k, v)])), k, v,
                     Leaves(es[..i]), es[i].val, Leaves(es[i + 1..]));
  }

  lemma UpdateBelow(t: Tree, k: nat, v: nat, zeros: nat -> nat, sub: Tree)
    requires Good(t, t.layer, zeros) && Sorted(LeavesOf(t)) && !Hit(t.entries, k) && t.layer > 0
    requires SubBefore(t.entries, FindIndex(t.entries, k))
    requires Good(sub, t.layer - 1, zeros) && Changed(Middle(t.entries, k), LeavesOf(sub), k, v)
    ensures var r := UpdateEntry(t, FindIndex(t.entries, k) - 1, Sub(sub));
            r.Ok? && Good(r.value, t.layer, zeros) && Changed(LeavesOf(t), LeavesOf(r.value), k, v)
  {
    var es, l := t.entries, t.layer;
    Cut(es, k);
    GoodOne(Sub(sub), l, zeros);
    MiddleReplaced(es, k, l, zeros, [Sub(sub)]);
    ChangedInside(LeftOf(es, k), Middle(es, k), LeavesOf(sub), RightOf(es, k), k, v);
  }

  lemma {:induction false} UpdateIn(t: Tree, k: nat, v: nat, zeros: nat -> nat, valid: nat -> bool)
    requires Good(t, t.layer, zeros) && Sorted(LeavesOf(t)) && k > 0 && valid(k) && v > 0
    ensures Updated(Update(t, k, v, valid), LeavesOf(t), k, v, t.layer, zeros)
    decreases t.layer
  {
    var es := t.entries;
    var i := FindIndex(es, k);
    Located(es, k);
    if Hit(es, k) {
      UpdateHere(t, k, v, zeros);
    } else if SubBefore(es, i) {
      GoodAt(es, t.layer, zeros, i - 1);
      Cut(es, k);
      UpdateIn(es[i - 1].tree, k, v, zeros, valid);
      if HasKey(Middle(es, k), k) {
        UpdateBelow(t, k, v, zeros, Update(es[i - 1].tree, k, v, valid).value);
      }
    }
  }

  // ---------------------------------------------------------------------------
  // Delete.

  /** Two neighbouring nodes of a layer merge to the node over both; neither error
      of `appendMerge` can happen. */
  lemma {:induction false} MergeIs(a: Tree, b: Tree, l: nat, zeros: nat -> nat)
    requires Good(a, l, zeros) && Good(b, l, zeros)
    ensures var r := AppendMerge(a, b);
            r.Ok? && Good(r.value, l, zeros) && LeavesOf(r.value) == LeavesOf(a) + LeavesOf(b)
    decreases l
  {
    var n := |a.entries| - 1;
    var x, y := a.entries[n], b.entries[0];
    if x.Sub? && y.Sub? {
      GoodAt(a.entries, l, zeros, n);
      GoodAt(b.entries, l, zeros, 0);
      MergeIs(x.tree, y.tree, l - 1, zeros);
      MergeMiddle(a.entries, b.entries, AppendMerge(x.tree, y.tree).value, l, zeros);
    } else {
      GoodJoin(a.entries, b.entries, l, zeros);
    }
  }

  lemma MergeMiddle(a: seq<Entry>, b: seq<Entry>, m: Tree, l: nat, zeros: nat -> nat)
    requires GoodEntries(a, l, zeros) && GoodEntries(b, l, zeros) && l > 0 && a != [] && b != []
    requires a[|a| - 1].Sub? && b[0].Sub? && Good(m, l - 1, zeros)
    requires LeavesOf(m) == LeavesOf(a[|a| - 1].tree) + LeavesOf(b[0].tree)
    ensures var r := a[..|a| - 1] + [Sub(m)] + b[1..];
            GoodEntries(r, l, zeros) && Leaves(r) == Leaves(a) + Leaves(b)
  {
    var n := |a| - 1;
    GoodSlice(a, n, n, l, zeros);
    GoodSlice(b, 1, 1, l, zeros);
    GoodOne(Sub(m), l, zeros);
    assert n > 0 ==> !a[n - 1].Sub?;
    GoodJoin(a[..n], [Sub(m)], l, zeros);
    GoodJoin(a[..n] + [Sub(m)], b[1..], l, zeros);
    LeavesLast(a);
    assert EntryLeaves(a[n]) == LeavesOf(a[n].tree) && EntryLeaves(b[0]) == LeavesOf(b[0].tree);
    Associate(Leaves(a[..n]), LeavesOf(a[n].tree), LeavesOf(b[0].tree), Leaves(b[1..]));
  }

  lemma Associate(a: seq<Pair>, b: seq<Pair>, c: seq<Pair>, d: seq<Pair>)
    ensures a + (b + c) + d == (a + b) + (c + d)
  {
  }

  ghost predicate Deleted(r: Result<Tree>, s: seq<Pair>, k: nat, l: nat, zeros: nat -> nat) {
    if !HasKey(s, k) then r == Err(NotFound)
    else r.Ok? && r.value.layer == l && GoodEntries(r.value.entries, l, zeros) && Dropped(s, LeavesOf(r.value), k)
  }

  /** A found leaf without subtrees on both sides is taken out. */
  lemma RemoveHere(t: Tree, k: nat, zeros: nat -> nat)
    requires Good(t, t.layer, zeros) && Hit(t.entries, k)
    requires var i := FindIndex(t.entries, k); Apart(t.entries[..i], t.entries[i + 1..])
    ensures var r := RemoveEntry(t, FindIndex(t.entries, k));
            && r.Ok? && r.value.layer == t.layer && GoodEntries(r.value.entries, t.layer, zeros)
            && Dropped(LeavesOf(t), LeavesOf(r.value), k)
  {
    var es, i := t.entries, FindIndex(t.entries, k);
    assert es[..i] + [] == es[..i];
    ReplacedGood(es, i, i + 1, [], t.layer, zeros);
    LeavesAround(es, i);
    var a, b := Leaves(es[..i]), Leaves(es[i + 1..]);
    assert a + [] + b == a + b;
    assert DroppedAt(Leaves(es), a + b, k, a, es[i].val, b);
  }

  lemma NeighbourLeaves(es: seq<Entry>, i: nat)
    requires 0 < i && i + 1 < |es| && es[i - 1].Sub? && es[i].Leaf? && es[i + 1].Sub?
    ensures Leaves(es[..i]) == Leaves(es[..i - 1]) + LeavesOf(es[i - 1].tree)
    ensures Leaves(es[i + 1..]) == LeavesOf(es[i + 1].tree) + Leaves(es[i + 2..])
    ensures Leaves(es) == Leaves(es[..i]) + [Pair(es[i].key, es[i].val)] + Leaves(es[i + 1..])
  {
    LeavesAround(es, i);
    LeavesLast(es[..i]);
    assert es[..i][..i - 1] == es[..i - 1] && EntryLeaves(es[i - 1]) == LeavesOf(es[i - 1].tree);
    LeavesAround(es[i + 1..], 0);
    assert es[i + 1..][..0] == [] && es[i + 1..][1..] == es[i + 2..];
    assert EntryLeaves(es[i + 1]) == LeavesOf(es[i + 1].tree);
  }

  /** A found leaf between two subtrees is taken out and the subtrees merged. */
  lemma MergeHere(t: Tree, k: nat, zeros: nat -> nat, m: Tree)
    requires Good(t, t.layer, zeros) && Hit(t.entries, k) && t.layer > 0 && Good(m, t.layer - 1, zeros)
    requires var i := FindIndex(t.entries, k);
             && 0 < i && i + 1 < |t.entries| && t.entries[i - 1].Sub? && t.entries[i + 1].Sub?
             && LeavesOf(m) == LeavesOf(t.entries[i - 1].tree) + LeavesOf(t.entries[i + 1].tree)
    ensures var i := FindIndex(t.entries, k);
            var es := Replaced(t.entries, i - 1, i + 2, [Sub(m)]);
            GoodEntries(es, t.layer, zeros) && Dropped(LeavesOf(t), Leaves(es), k)
  {
    var es, i := t.entries, FindIndex(t.entries, k);
    GoodOne(Sub(m), t.layer, zeros);
    assert i >= 2 ==> !es[i - 2].Sub?;
    assert i + 2 < |es| ==> !es[i + 2].Sub?;
    ReplacedGood(es, i - 1, i + 2, [Sub(m)], t.layer, zeros);
    NeighbourLeaves(es, i);
    Associate(Leaves(es[..i - 1]), LeavesOf(es[i - 1].tree), LeavesOf(es[i + 1].tree), Leaves(es[i + 2..]));
    assert DroppedAt(Leaves(es), Leaves(es[..i]) + Leaves(es[i + 1..]), k, Leaves(es[..i]), es[i].val,
        Leaves(es[i + 1..]));
  }

  lemma DeleteHere(t: Tree, k: nat, zeros: nat -> nat)
    requires Good(t, t.layer, zeros) && Hit(t.entries, k) && HasKey(LeavesOf(t), k)
    ensures Deleted(DeleteRecurse(t, k), LeavesOf(t), k, t.layer, zeros)
  {
    var es, l := t.entries, t.layer;
    var i := FindIndex(es, k);
    if SubBefore(es, i) && i + 1 < |es| && es[i + 1].Sub? {
      GoodAt(es, l, zeros, i - 1);
      GoodAt(es, l, zeros, i + 1);
      MergeIs(es[i - 1].tree, es[i + 1].tree, l - 1, zeros);
      MergeHere(t, k, zeros, AppendMerge(es[i - 1].tree, es[i + 1].tree).value);
    } else {
      RemoveHere(t, k, zeros);
    }
  }

  /** What stands in the place of a subtree once a key is deleted from it. */
  function DeletedMiddle(sub: Tree): seq<Entry> { if sub.entries == [] then [] else [Sub(sub)] }

  lemma DeleteReturnsBelow(t: Tree, k: nat, sub: Tree)
    requires var i := FindIndex(t.entries, k);
             !Hit(t.entries, k) && SubBefore(t.entries, i) && DeleteRecurse(t.entries[i - 1].tree, k) == Ok(sub)
    ensures var i := FindIndex(t.entries, k);
            DeleteRecurse(t, k) == Checked(t.layer, Replaced(t.entries, Start(t.entries, i), i, DeletedMiddle(sub)))
  {
  }

  lemma DropMiddle(t: Tree, k: nat, zeros: nat -> nat, sub: Tree)
    requires GoodEntries(t.entries, t.layer, zeros) && Sorted(LeavesOf(t)) && !Hit(t.entries, k) && t.layer > 0
    requires sub.layer == t.layer - 1 && GoodEntries(sub.entries, t.layer - 1, zeros)
    requires Dropped(Middle(t.entries, k), LeavesOf(sub), k)
    ensures var i := FindIndex(t.entries, k);
            var r := Checked(t.layer, Replaced(t.entries, Start(t.entries, i), i, DeletedMiddle(sub)));
            && r.Ok? && r.value.layer == t.layer && GoodEntries(r.value.entries, t.layer, zeros)
            && Dropped(LeavesOf(t), LeavesOf(r.value), k)
  {
    var es := t.entries;
    Cut(es, k);
    if sub.entries != [] {
      GoodOne(Sub(sub), t.layer, zeros);
    }
    assert Leaves(DeletedMiddle(sub)) == LeavesOf(sub);
    MiddleReplaced(es, k, t.layer, zeros, DeletedMiddle(sub));
    DroppedInside(LeftOf(es, k), Middle(es, k), LeavesOf(sub), RightOf(es, k), k);
  }

  lemma DeleteBelow(t: Tree, k: nat, zeros: nat -> nat)
    requires Good(t, t.layer, zeros) && Sorted(LeavesOf(t)) && !Hit(t.entries, k) && t.layer > 0
    requires var i := FindIndex(t.entries, k);
             && SubBefore(t.entries, i)
             && Deleted(DeleteRecurse(t.entries[i - 1].tree, k), Middle(t.entries, k), k, t.layer - 1, zeros)
    ensures Deleted(DeleteRecurse(t, k), LeavesOf(t), k, t.layer, zeros)
  {
    Located(t.entries, k);
    if HasKey(Middle(t.entries, k), k) {
      var sub := DeleteRecurse(t.entries[FindIndex(t.entries, k) - 1].tree, k).value;
      DeleteReturnsBelow(t, k, sub);
      DropMiddle(t, k, zeros, sub);
    }
  }

  lemma {:induction false} DeleteIn(t: Tree, k: nat, zeros: nat -> nat)
    requires Good(t, t.layer, zeros) && Sorted(LeavesOf(t))
    ensures Deleted(DeleteRecurse(t, k), LeavesOf(t), k, t.layer, zeros)
    decreases t.layer
  {
    var es := t.entries;
    var i := FindIndex(es, k);
    Located(es, k);
    if Hit(es, k) {
      DeleteHere(t, k, zeros);
    } else if SubBefore(es, i) {
      GoodAt(es, t.layer, zeros, i - 1);
      Cut(es, k);
      DeleteIn(es[i - 1].tree, k, zeros);
      DeleteBelow(t, k, zeros);
    }
  }

  /** Trimming keeps the leaves and ends at a trimmed node. */
  lemma {:induction false} TrimIs(t: Tree, zeros: nat -> nat)
    requires Good(t, t.layer, zeros)
    ensures var u := TrimTop(t); Good(u, u.layer, zeros) && Trimmed(u) && LeavesOf(u) == LeavesOf(t)
    decreases t.layer
  {
    if !Trimmed(t) {
      GoodAt(t.entries, t.layer, zeros, 0);
      TrimIs(t.entries[0].tree, zeros);
      assert t.entries == [t.entries[0]];
      LeavesOne(t.entries[0]);
    }
  }
}
