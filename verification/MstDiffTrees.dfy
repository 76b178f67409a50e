/** `DiffTrees`: a two-index merge over loaded entries that opens a subtree only when
    the other side does not have the same one. */
module MstDiffTrees {
  import opened Options
  import opened MstTree
  import opened MstSpec
  import opened MstOps
  import opened MstCanon
  import opened MstRefine
  import opened MstWalk
  import opened MstMap
  import opened MstDiff
  import opened Seal

  /** A loaded entry: a subtree carries the key of the leaf before it in its node. */
  datatype Item = Item(entry: Entry, key: nat)

  function LoadFrom(es: seq<Entry>, last: nat): seq<Item> {
    if es == [] then []
    else
      var k := if es[0].Leaf? then es[0].key else last;
      [Item(es[0], k)] + LoadFrom(es[1..], k)
  }

  /** `getEntries` of a loaded node. */
  function Load(t: Tree): seq<Item> { LoadFrom(t.entries, 0) }

  function Val(e: Entry): nat { if e.Leaf? then e.val else 0 }

  /** `nodeEntriesEqual`; `ptr` gives a node's content identifier. */
  predicate SameItem(a: Item, b: Item, ptr: Tree -> nat) {
    && a.key == b.key && Val(a.entry) == Val(b.entry)
    && ((a.entry.Leaf? && b.entry.Leaf?)
        || (a.entry.Sub? && b.entry.Sub? && ptr(a.entry.tree) == ptr(b.entry.tree)))
  }

  /** Content identifiers name contents. */
  ghost predicate Names(ptr: Tree -> nat) {
    forall a, b :: ptr(a) == ptr(b) ==> LeavesOf(a) == LeavesOf(b)
  }

  // ---------------------------------------------------------------------------
  // What a list of items still has to give.

  function ItemLeaves(s: seq<Item>): seq<Pair> {
    if s == [] then [] else EntryLeaves(s[0].entry) + ItemLeaves(s[1..])
  }

  function ItemSize(s: seq<Item>): nat {
    if s == [] then 0 else EntrySize(s[0].entry) + ItemSize(s[1..])
  }

  /** A leaf item carries its own key, and a subtree can be walked. */
  predicate GoodItem(it: Item, zeros: nat -> nat) {
    match it.entry
    case Leaf(k, _) => it.key == k
    case Sub(t) => GoodEntries(t.entries, t.layer, zeros)
  }

  predicate GoodItems(s: seq<Item>, zeros: nat -> nat) {
    (forall it | it in s :: GoodItem(it, zeros)) && Sorted(ItemLeaves(s))
  }

  lemma {:induction false} ItemsJoin(a: seq<Item>, b: seq<Item>)
    ensures ItemLeaves(a + b) == ItemLeaves(a) + ItemLeaves(b) && ItemSize(a + b) == ItemSize(a) + ItemSize(b)
    decreases |a|
  {
    if a == [] {
      assert a + b == b;
    } else {
      ItemsJoin(a[1..], b);
      assert (a + b)[1..] == a[1..] + b;
    }
  }

  lemma {:induction false} LoadIs(es: seq<Entry>, last: nat, l: nat, zeros: nat -> nat)
    requires GoodEntries(es, l, zeros)
    ensures var s := LoadFrom(es, last);
            && ItemLeaves(s) == Leaves(es) && ItemSize(s) == Size(es)
            && forall it | it in s :: GoodItem(it, zeros)
    decreases |es|
  {
    if es != [] {
      GoodAt(es, l, zeros, 0);
      GoodTail(es, l, zeros);
      LoadIs(es[1..], if es[0].Leaf? then es[0].key else last, l, zeros);
    }
  }

  lemma Head(s: seq<Item>, i: nat, zeros: nat -> nat)
    requires i < |s| && GoodItems(s[i..], zeros)
    ensures ItemLeaves(s[i..]) == EntryLeaves(s[i].entry) + ItemLeaves(s[i + 1..])
    ensures ItemSize(s[i..]) == EntrySize(s[i].entry) + ItemSize(s[i + 1..])
    ensures GoodItem(s[i], zeros) && GoodItems(s[i + 1..], zeros) && Sorted(EntryLeaves(s[i].entry))
  {
    assert s[i..][0] == s[i] && s[i..][1..] == s[i + 1..];
    SortedParts(EntryLeaves(s[i].entry), ItemLeaves(s[i + 1..]));
    assert s[i] in s[i..];
    forall it | it in s[i + 1..] ensures GoodItem(it, zeros) {
      assert it in s[i..];
    }
  }

  /** A subtree opened in place gives the same leaves and is smaller. */
  lemma Opening(s: seq<Item>, i: nat, t: Tree, zeros: nat -> nat)
    requires i < |s| && GoodItems(s[i..], zeros) && s[i].entry == Sub(t)
    ensures var r := Load(t) + s[i + 1..];
            && GoodItems(r, zeros) && ItemLeaves(r) == ItemLeaves(s[i..]) && ItemSize(r) < ItemSize(s[i..])
  {
    Head(s, i, zeros);
    LoadIs(t.entries, 0, t.layer, zeros);
    ItemsJoin(Load(t), s[i + 1..]);
    SubLeaves(s[i].entry);
  }

  /** Leaves both sides start with make no difference. */
  lemma {:induction false} DiffSkips(x: seq<Pair>, a: seq<Pair>, b: seq<Pair>)
    ensures Diff(x + a, x + b) == Diff(a, b)
    decreases |x|
  {
    if x == [] {
      assert x + a == a && x + b == b;
    } else {
      assert (x + a)[1..] == x[1..] + a && (x + b)[1..] == x[1..] + b;
      DiffSkips(x[1..], a, b);
    }
  }

  lemma SameLeavesHere(a: Item, b: Item, ptr: Tree -> nat, zeros: nat -> nat)
    requires SameItem(a, b, ptr) && Names(ptr) && GoodItem(a, zeros) && GoodItem(b, zeros)
    ensures EntryLeaves(a.entry) == EntryLeaves(b.entry)
  {
  }

  // ---------------------------------------------------------------------------

  /** Where the merge stands: two lists, two indexes, and what is written. */
  ghost predicate Standing(f: seq<Item>, i: nat, t: seq<Item>, j: nat, out: seq<DiffOp>,
                           all: seq<DiffOp>, zeros: nat -> nat)
  {
    && i <= |f| && j <= |t| && GoodItems(f[i..], zeros) && GoodItems(t[j..], zeros)
    && out + Diff(ItemLeaves(f[i..]), ItemLeaves(t[j..])) == all
  }

  lemma StepSame(f: seq<Item>, i: nat, t: seq<Item>, j: nat, out: seq<DiffOp>, all: seq<DiffOp>, ptr: Tree -> nat,
                 zeros: nat -> nat)
    requires Standing(f, i, t, j, out, all, zeros) && Names(ptr)
    requires i < |f| && j < |t| && SameItem(f[i], t[j], ptr)
    ensures Standing(f, i + 1, t, j + 1, out, all, zeros)
  {
    Head(f, i, zeros);
    Head(t, j, zeros);
    SameLeavesHere(f[i], t[j], ptr, zeros);
    DiffSkips(EntryLeaves(f[i].entry), ItemLeaves(f[i + 1..]), ItemLeaves(t[j + 1..]));
  }

  /** What one step writes when both sides are at different leaves, and how far each
      index moves. */
  function LeafStep(a: Item, b: Item): (DiffOp, nat, nat)
    requires a.entry.Leaf? && b.entry.Leaf?
  {
    if a.key == b.key then (MutDiff(a.key, a.entry.val, b.entry.val), 1, 1)
    else if a.key > b.key then (AddDiff(b.key, b.entry.val), 0, 1)
    else (DelDiff(a.key, a.entry.val), 1, 0)
  }

  lemma StepLeaves(f: seq<Item>, i: nat, t: seq<Item>, j: nat, out: seq<DiffOp>, all: seq<DiffOp>, ptr: Tree -> nat,
                   zeros: nat -> nat)
    requires Standing(f, i, t, j, out, all, zeros)
    requires i < |f| && j < |t| && !SameItem(f[i], t[j], ptr) && f[i].entry.Leaf? && t[j].entry.Leaf?
    ensures var (op, di, dj) := LeafStep(f[i], t[j]);
            Standing(f, i + di, t, j + dj, out + [op], all, zeros)
    ensures f[i].key == t[j].key ==> f[i].entry.val != t[j].entry.val
  {
    Head(f, i, zeros);
    Head(t, j, zeros);
    LeafHeads(EntryLeaves(f[i].entry)[0], ItemLeaves(f[i + 1..]), EntryLeaves(t[j].entry)[0], ItemLeaves(t[j + 1..]),
        out);
  }

  /** The merge at two different leaves. */
  lemma LeafHeads(x: Pair, a: seq<Pair>, y: Pair, b: seq<Pair>, out: seq<DiffOp>)
    requires x != y
    ensures var d := Diff([x] + a, [y] + b);
            out + d == if x.key == y.key then out + [MutDiff(x.key, x.val, y.val)] + Diff(a, b)
                       else if x.key > y.key then out + [AddDiff(y.key, y.val)] + Diff([x] + a, b)
                       else out + [DelDiff(x.key, x.val)] + Diff(a, [y] + b)
  {
    assert ([x] + a)[1..] == a && ([y] + b)[1..] == b;
  }

  /** Every leaf of a subtree, as a walk from the empty key collects them. */
  method Collect(t: Tree, ghost zeros: nat -> nat) returns (seen: seq<Pair>)
    requires GoodEntries(t.entries, t.layer, zeros) && Sorted(LeavesOf(t))
    ensures seen == LeavesOf(t)
  {
    var failed;
    seen, failed := WalkLeavesFrom(t, 0, _ => Continue, zeros);
    FromEnds(LeavesOf(t), 0);
  }

  lemma RemainingStep(r: seq<Pair>, s: seq<Item>, i: nat, zeros: nat -> nat)
    requires i < |s| && GoodItems(s[i..], zeros)
    ensures r + ItemLeaves(s[i..]) == (r + EntryLeaves(s[i].entry)) + ItemLeaves(s[i + 1..])
  {
    Head(s, i, zeros);
    var one, rest := EntryLeaves(s[i].entry), ItemLeaves(s[i + 1..]);
    assert r + (one + rest) == (r + one) + rest;
  }

  /** The entries one side still has, opened to the bottom. */
  method Remaining(s: seq<Item>, i0: nat, ghost zeros: nat -> nat) returns (r: seq<Pair>)
    requires i0 <= |s| && GoodItems(s[i0..], zeros)
    ensures r == ItemLeaves(s[i0..])
  {
    r := [];
    for i := i0 to |s|
      invariant GoodItems(s[i..], zeros) && r + ItemLeaves(s[i..]) == ItemLeaves(s[i0..])
    {
      RemainingStep(r, s, i, zeros);
      Head(s, i, zeros);
      var more: seq<Pair>;
      match s[i].entry {
        case Leaf(k, v) => more := [Pair(k, v)];
        case Sub(t) => more := Collect(t, zeros);
      }
      r := r + more;
    }
    assert s[|s|..] == [];
  }

  /** The two loops at the end: whatever one side still has, the other does not. */
  lemma OneSideLeft(a: seq<Pair>, b: seq<Pair>, out: seq<DiffOp>)
    requires a == [] || b == []
    ensures out + Diff(a, b) == out + Dels(a) + Adds(b)
  {
    assert Diff(a, b) == Dels(a) + Adds(b);
  }

  /** The merge position. */
  datatype Place = Place(f: seq<Item>, i: nat, t: seq<Item>, j: nat, out: seq<DiffOp>)

  /** Standing, kept closed. */
  ghost predicate At(p: Place, all: seq<DiffOp>, zeros: nat -> nat) {
    && p.i <= |p.f| && p.j <= |p.t|
    && forall key {:trigger Opened(key)} :: Opened(key) ==> Standing(p.f, p.i, p.t, p.j, p.out, all, zeros)
  }

  lemma OpenAt(p: Place, all: seq<DiffOp>, zeros: nat -> nat)
    requires At(p, all, zeros)
    ensures Standing(p.f, p.i, p.t, p.j, p.out, all, zeros)
  {
    assert Opened(0);
  }

  function Left(p: Place): nat
    requires p.i <= |p.f| && p.j <= |p.t|
  {
    ItemSize(p.f[p.i..]) + ItemSize(p.t[p.j..])
  }

  lemma Smaller(p: Place, all: seq<DiffOp>, zeros: nat -> nat)
    requires At(p, all, zeros) && p.i < |p.f| && p.j < |p.t|
    ensures ItemSize(p.f[p.i + 1..]) < ItemSize(p.f[p.i..]) && ItemSize(p.t[p.j + 1..]) < ItemSize(p.t[p.j..])
  {
    OpenAt(p, all, zeros);
    Head(p.f, p.i, zeros);
    Head(p.t, p.j, zeros);
  }

  lemma RoundSame(p: Place, ptr: Tree -> nat, all: seq<DiffOp>, zeros: nat -> nat)
    requires At(p, all, zeros) && Names(ptr) && p.i < |p.f| && p.j < |p.t| && SameItem(p.f[p.i], p.t[p.j], ptr)
    ensures At(p.(i := p.i + 1, j := p.j + 1), all, zeros)
  {
    OpenAt(p, all, zeros);
    StepSame(p.f, p.i, p.t, p.j, p.out, all, ptr, zeros);
  }

  lemma RoundLeaves(p: Place, ptr: Tree -> nat, all: seq<DiffOp>, zeros: nat -> nat)
    requires At(p, all, zeros) && p.i < |p.f| && p.j < |p.t| && !SameItem(p.f[p.i], p.t[p.j], ptr)
    requires p.f[p.i].entry.Leaf? && p.t[p.j].entry.Leaf?
    ensures var (op, di, dj) := LeafStep(p.f[p.i], p.t[p.j]);
            At(p.(i := p.i + di, j := p.j + dj, out := p.out + [op]), all, zeros)
    ensures p.f[p.i].key == p.t[p.j].key ==> p.f[p.i].entry.val != p.t[p.j].entry.val
  {
    OpenAt(p, all, zeros);
    StepLeaves(p.f, p.i, p.t, p.j, p.out, all, ptr, zeros);
  }

  lemma RoundOpens(p: Place, all: seq<DiffOp>, zeros: nat -> nat)
    requires At(p, all, zeros) && p.i < |p.f| && p.j < |p.t|
    ensures p.f[p.i].entry.Sub? ==>
      var f := Load(p.f[p.i].entry.tree) + p.f[p.i + 1..];
      At(p.(f := f, i := 0), all, zeros) && ItemSize(f[0..]) < ItemSize(p.f[p.i..])
    ensures p.t[p.j].entry.Sub? ==>
      var t := Load(p.t[p.j].entry.tree) + p.t[p.j + 1..];
      At(p.(t := t, j := 0), all, zeros) && ItemSize(t[0..]) < ItemSize(p.t[p.j..])
  {
    OpenAt(p, all, zeros);
    if p.f[p.i].entry.Sub? {
      Opening(p.f, p.i, p.f[p.i].entry.tree, zeros);
      var f := Load(p.f[p.i].entry.tree) + p.f[p.i + 1..];
      assert f[0..] == f;
    }
    if p.t[p.j].entry.Sub? {
      Opening(p.t, p.j, p.t[p.j].entry.tree, zeros);
      var t := Load(p.t[p.j].entry.tree) + p.t[p.j + 1..];
      assert t[0..] == t;
    }
  }

  /** One round of the merge loop; `hung` is the error for leaves found equal after
      they were found to differ. */
  method Round(p: Place, ptr: Tree -> nat, ghost all: seq<DiffOp>, ghost zeros: nat -> nat)
    returns (q: Place, hung: bool)
    requires At(p, all, zeros) && Names(ptr) && p.i < |p.f| && p.j < |p.t|
    ensures !hung && At(q, all, zeros) && Left(q) < Left(p)
  {
    var a, b := p.f[p.i], p.t[p.j];
    hung := false;
    if SameItem(a, b, ptr) {
      RoundSame(p, ptr, all, zeros);
      Smaller(p, all, zeros);
      q := p.(i := p.i + 1, j := p.j + 1);
    } else if a.entry.Leaf? && b.entry.Leaf? {
      RoundLeaves(p, ptr, all, zeros);
      Smaller(p, all, zeros);
      hung := a.key == b.key && a.entry.val == b.entry.val;
      var (op, di, dj) := LeafStep(a, b);
      q := p.(i := p.i + di, j := p.j + dj, out := p.out + [op]);
    } else if a.entry.Sub? {
      RoundOpens(p, all, zeros);
      q := p.(f := Load(a.entry.tree) + p.f[p.i + 1..], i := 0);
    } else {
      RoundOpens(p, all, zeros);
      q := p.(t := Load(b.entry.tree) + p.t[p.j + 1..], j := 0);
    }
  }

  lemma AtStart(from: Tree, to: Tree, zeros: nat -> nat)
    requires WellFormed(from, zeros) && WellFormed(to, zeros)
    ensures At(Place(Load(from), 0, Load(to), 0, []), Diff(LeavesOf(from), LeavesOf(to)), zeros)
  {
    LoadIs(from.entries, 0, from.layer, zeros);
    LoadIs(to.entries, 0, to.layer, zeros);
    assert Load(from)[0..] == Load(from) && Load(to)[0..] == Load(to);
  }

  /** The two loops after the merge loop. */
  method Finish(p: Place, ghost all: seq<DiffOp>, ghost zeros: nat -> nat) returns (out: seq<DiffOp>)
    requires At(p, all, zeros) && (p.i == |p.f| || p.j == |p.t|)
    ensures out == all
  {
    OpenAt(p, all, zeros);
    var gone := Remaining(p.f, p.i, zeros);
    var added := Remaining(p.t, p.j, zeros);
    OneSideLeft(gone, added, p.out);
    out := p.out + Dels(gone) + Adds(added);
  }

  /** The merge loop and the two loops after it. */
  method Merge(from: Tree, to: Tree, ptr: Tree -> nat, ghost zeros: nat -> nat) returns (out: seq<DiffOp>, hung: bool)
    requires WellFormed(from, zeros) && WellFormed(to, zeros) && Names(ptr)
    ensures !hung && out == Diff(LeavesOf(from), LeavesOf(to))
  {
    var p := Place(Load(from), 0, Load(to), 0, []);
    hung := false;
    ghost var all := Diff(LeavesOf(from), LeavesOf(to));
    AtStart(from, to, zeros);
    while !hung && p.i < |p.f| && p.j < |p.t|
      invariant !hung && At(p, all, zeros)
      decreases Left(p)
    {
      p, hung := Round(p, ptr, all, zeros);
    }
    out := Finish(p, all, zeros);
  }

  /** A root to compare: its tree, or none for the undefined identifier. */
  datatype Outcome = Differs(ops: seq<DiffOp>) | NoRoot | Hung

  /** `DiffTrees`. An undefined first root is the empty map; an undefined second one
      is an error. */
  method DiffTrees(from: Option<Tree>, to: Option<Tree>, ptr: Tree -> nat, ghost zeros: nat -> nat) returns (r: Outcome)
    requires from.Some? ==> WellFormed(from.value, zeros)
    requires to.Some? ==> WellFormed(to.value, zeros)
    requires Names(ptr)
    ensures r == if to.None? then NoRoot
                 else Differs(Diff(if from.Some? then LeavesOf(from.value) else [], LeavesOf(to.value)))
  {
    if to.None? {
      return NoRoot;
    }
    if from.None? {
      var all := Collect(to.value, zeros);
      return Differs(Adds(all));
    }
    var out, hung := Merge(from.value, to.value, ptr, zeros);
    r := if hung then Hung else Differs(out);
  }

  /** What the operations between two trees say: one for each changed key and no
      other, in increasing order, and together they turn the first map into the
      second. */
  lemma DiffIsExact(a: Tree, b: Tree, zeros: nat -> nat)
    requires WellFormed(a, zeros) && WellFormed(b, zeros)
    ensures var ops, m, n := Diff(LeavesOf(a), LeavesOf(b)), Contents(a), Contents(b);
            && OpsSorted(ops) && PatchAll(m, ops) == n
            && (forall k, v :: AddDiff(k, v) in ops <==> k !in m && Holds(n, Pair(k, v)))
            && (forall k, u :: DelDiff(k, u) in ops <==> Holds(m, Pair(k, u)) && k !in n)
            && (forall k, u, v :: MutDiff(k, u, v) in ops <==> Holds(m, Pair(k, u)) && Holds(n, Pair(k, v)) && u != v)
  {
    var s, t := LeavesOf(a), LeavesOf(b);
    DiffSorted(s, t);
    DiffApplies(s, t);
    forall op ensures op in Diff(s, t) <==> ExactOp(Contents(a), Contents(b), op) {
      OpIsExact(s, t, op);
    }
    assert forall k, v ::
        ExactOp(Contents(a), Contents(b), AddDiff(k, v)) <==> k !in Contents(a) && Holds(Contents(b), Pair(k, v));
  }

  predicate ExactOp(m: map<nat, nat>, n: map<nat, nat>, op: DiffOp) {
    match op
    case AddDiff(k, v) => k !in m && Holds(n, Pair(k, v))
    case DelDiff(k, u) => Holds(m, Pair(k, u)) && k !in n
    case MutDiff(k, u, v) => Holds(m, Pair(k, u)) && Holds(n, Pair(k, v)) && u != v
  }

  lemma OpIsExact(s: seq<Pair>, t: seq<Pair>, op: DiffOp)
    requires Sorted(s) && Sorted(t)
    ensures op in Diff(s, t) <==> ExactOp(AsMap(s), AsMap(t), op)
  {
    DiffIs(s, t, op);
    MapKeys(s, op.key);
    MapKeys(t, op.key);
    match op
    case AddDiff(k, v) => MapIs(t, Pair(k, v));
    case DelDiff(k, u) => MapIs(s, Pair(k, u));
    case MutDiff(k, u, v) => MapIs(s, Pair(k, u)); MapIs(t, Pair(k, v));
  }
}
