/** The operations of mst/mst.go on tree values. */
module MstOps {
  import opened Options
  import opened MstTree

  /** `newTree` after `checkTreeInvariant`. */
  function Checked(layer: nat, es: seq<Entry>): Result<Tree> {
    if NoNeighbours(es) then Ok(Tree(layer, es)) else Err(Panic)
  }

  /** Entries [j, i) of `es` replaced by `mid`. */
  function Replaced(es: seq<Entry>, j: nat, i: nat, mid: seq<Entry>): seq<Entry>
    requires j <= i <= |es|
  {
    es[..j] + mid + es[i..]
  }

  function SpliceIn(t: Tree, e: Entry, i: nat): Result<Tree>
    requires i <= |t.entries|
  {
    Checked(t.layer, Replaced(t.entries, i, i, [e]))
  }

  function UpdateEntry(t: Tree, i: nat, e: Entry): Result<Tree>
    requires i < |t.entries|
  {
    Checked(t.layer, Replaced(t.entries, i, i + 1, [e]))
  }

  function RemoveEntry(t: Tree, i: nat): Result<Tree>
    requires i < |t.entries|
  {
    Checked(t.layer, Replaced(t.entries, i, i + 1, []))
  }

  /** A half of a split; nil when it has no entries. */
  function NonEmpty(t: Tree): Option<Tree> {
    if t.entries == [] then None else Some(t)
  }

  function AsEntries(o: Option<Tree>): seq<Entry> {
    match o
    case None => []
    case Some(t) => [Sub(t)]
  }

  /** A leaf between the two halves of a split. */
  function Around(left: Option<Tree>, leaf: Entry, right: Option<Tree>): (es: seq<Entry>)
    ensures es != []
  {
    AsEntries(left) + [leaf] + AsEntries(right)
  }

  function ReplaceWithSplit(t: Tree, i: nat, left: Option<Tree>, leaf: Entry, right: Option<Tree>): Result<Tree>
    requires i < |t.entries|
  {
    if !NoNeighbours(t.entries) then Err(Panic)
    else Checked(t.layer, Replaced(t.entries, i, i + 1, Around(left, leaf, right)))
  }

  /** `splitAround`: what is before `k` and what is after, as two nodes of the same
      layer. */
  function SplitAround(t: Tree, k: nat): Result<(Option<Tree>, Option<Tree>)>
    decreases t
  {
    var i := FindIndex(t.entries, k);
    var left, right := Tree(t.layer, t.entries[..i]), Tree(t.layer, t.entries[i..]);
    if SubBefore(t.entries, i) then
      var left' :- RemoveEntry(left, i - 1);
      var halves :- SplitAround(t.entries[i - 1].tree, k);
      var left'' :- if halves.0.None? then Ok(left') else Checked(t.layer, left'.entries + AsEntries(halves.0));
      var right' :- if halves.1.None? then Ok(right) else Checked(t.layer, AsEntries(halves.1) + right.entries);
      Ok((NonEmpty(left''), NonEmpty(right')))
    else
      Ok((NonEmpty(left), NonEmpty(right)))
  }

  /** `n` single-entry parents above `t`. */
  function Lifted(t: Tree, n: nat): Tree
    decreases n
  {
    if n == 0 then t else Lifted(Tree(t.layer + 1, [Sub(t)]), n - 1)
  }

  function LiftedHalf(o: Option<Tree>, n: nat): Option<Tree> {
    match o
    case None => None
    case Some(t) => Some(Lifted(t, n))
  }

  /** The loop of `Add` that creates parents for both halves. */
  method LiftHalves(left: Option<Tree>, right: Option<Tree>, extra: nat) returns (l: Option<Tree>, r: Option<Tree>)
    ensures var n := if extra > 0 then extra - 1 else 0; l == LiftedHalf(left, n) && r == LiftedHalf(right, n)
  {
    l, r := left, right;
    var i := 1;
    while i < extra
      invariant 1 <= i && (i <= extra || (extra == 0 && i == 1))
      invariant i <= extra ==> LiftedHalf(l, extra - i) == LiftedHalf(left, extra - 1)
      invariant i <= extra ==> LiftedHalf(r, extra - i) == LiftedHalf(right, extra - 1)
      invariant extra == 0 ==> l == left && r == right
    {
      if l.Some? {
        l := Some(Tree(l.value.layer + 1, [Sub(l.value)]));
      }
      if r.Some? {
        r := Some(Tree(r.value.layer + 1, [Sub(r.value)]));
      }
      i := i + 1;
    }
  }

  /** `Add` for a key at a layer above the root's: the tree is split around the key
      and both halves go below it. */
  function AddAbove(t: Tree, k: nat, v: nat, z: nat): Result<Tree>
    requires z > t.layer
  {
    var halves :- SplitAround(t, k);
    var n := z - t.layer - 1;
    Checked(z, Around(LiftedHalf(halves.0, n), Leaf(k, v), LiftedHalf(halves.1, n)))
  }

  /** `Add`; `zeros` is the layer a key belongs to, from its hash, and `valid` the key
      check, which the empty key, rank 0, never passes. */
  function Add(t: Tree, k: nat, v: nat, zeros: nat -> nat, valid: nat -> bool): Result<Tree>
    decreases Size(t.entries), t.layer
  {
    if !valid(k) then Err(InvalidKey)
    else if v == 0 then Err(UndefCid)
    else
      var z, es := zeros(k), t.entries;
      var i := FindIndex(es, k);
      if z == t.layer then
        if i < |es| && es[i].key == k then Err(AlreadyExists)
        else if !SubBefore(es, i) then SpliceIn(t, Leaf(k, v), i)
        else
          var halves :- SplitAround(es[i - 1].tree, k);
          ReplaceWithSplit(t, i - 1, halves.0, Leaf(k, v), halves.1)
      else if z < t.layer then
        if SubBefore(es, i) then
          SizeAt(es, i - 1);
          var sub :- Add(es[i - 1].tree, k, v, zeros, valid);
          UpdateEntry(t, i - 1, Sub(sub))
        else
          var sub :- Add(Tree(t.layer - 1, []), k, v, zeros, valid);
          SpliceIn(t, Sub(sub), i)
      else AddAbove(t, k, v, z)
  }

  function Get(t: Tree, k: nat): Result<nat>
    decreases t
  {
    var es := t.entries;
    var i := FindIndex(es, k);
    if i < |es| && es[i].key == k then Ok(es[i].val)
    else if SubBefore(es, i) then Get(es[i - 1].tree, k)
    else Err(NotFound)
  }

  function Update(t: Tree, k: nat, v: nat, valid: nat -> bool): Result<Tree>
    decreases t
  {
    if !valid(k) then Err(InvalidKey)
    else if v == 0 then Err(UndefCid)
    else
      var es := t.entries;
      var i := FindIndex(es, k);
      if i < |es| && es[i].key == k then UpdateEntry(t, i, Leaf(k, v))
      else if SubBefore(es, i) then
        var sub :- Update(es[i - 1].tree, k, v, valid);
        UpdateEntry(t, i - 1, Sub(sub))
      else Err(NotFound)
  }

  /** `appendMerge`: two neighbouring nodes of one layer as one. */
  function AppendMerge(a: Tree, b: Tree): Result<Tree>
    decreases a
  {
    if a.layer != b.layer then Err(LayersDiffer)
    else if a.entries == [] || b.entries == [] then Err(Panic)
    else
      var n := |a.entries| - 1;
      if a.entries[n].Sub? && b.entries[0].Sub? then
        var m :- AppendMerge(a.entries[n].tree, b.entries[0].tree);
        Ok(Tree(a.layer, a.entries[..n] + [Sub(m)] + b.entries[1..]))
      else Ok(Tree(a.layer, a.entries + b.entries))
  }

  function DeleteRecurse(t: Tree, k: nat): Result<Tree>
    decreases t
  {
    var es := t.entries;
    var i := FindIndex(es, k);
    if i < |es| && es[i].key == k then
      if SubBefore(es, i) && i + 1 < |es| && es[i + 1].Sub? then
        var m :- AppendMerge(es[i - 1].tree, es[i + 1].tree);
        Ok(Tree(t.layer, Replaced(es, i - 1, i + 2, [Sub(m)])))
      else RemoveEntry(t, i)
    else if SubBefore(es, i) then
      var sub :- DeleteRecurse(es[i - 1].tree, k);
      if sub.entries == [] then RemoveEntry(t, i - 1) else UpdateEntry(t, i - 1, Sub(sub))
    else Err(NotFound)
  }

  function TrimTop(t: Tree): Tree
    decreases t
  {
    if |t.entries| == 1 && t.entries[0].Sub? then TrimTop(t.entries[0].tree) else t
  }

  function Delete(t: Tree, k: nat): Result<Tree> {
    var altered :- DeleteRecurse(t, k);
    Ok(TrimTop(altered))
  }

  /** `attemptGetLayer` on a node loaded without its layer: its first leaf's, or one
      above its first subtree that has one; negative when nothing is below. */
  function AttemptLayer(es: seq<Entry>, zeros: nat -> nat): int
    decreases es, 1
  {
    var l := LayerForEntries(es, zeros);
    if l >= 0 then l else SubsLayer(es, zeros)
  }

  function LayerForEntries(es: seq<Entry>, zeros: nat -> nat): int {
    if es == [] then -1
    else if es[0].Leaf? then zeros(es[0].key)
    else LayerForEntries(es[1..], zeros)
  }

  function SubsLayer(es: seq<Entry>, zeros: nat -> nat): int
    decreases es, 0
  {
    if es == [] then -1
    else
      var l := SubLayer(es[0], zeros);
      if l >= 0 then l + 1 else SubsLayer(es[1..], zeros)
  }

  function SubLayer(e: Entry, zeros: nat -> nat): int
    decreases e
  {
    match e
    case Leaf(_, _) => -1
    case Sub(t) => AttemptLayer(t.entries, zeros)
  }
}
