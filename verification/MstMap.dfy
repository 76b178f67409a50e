/** The tree as an ordered map: every operation refines the map's, keeps the tree in
    canonical form, and so leaves a shape that no history can be read from. */
module MstMap {
  import opened MstTree
  import opened MstSpec
  import opened MstOps
  import opened MstCanon
  import opened MstRefine

  /** A root whose nodes are in order, empty or not, trimmed or not. */
  predicate WellFormed(t: Tree, zeros: nat -> nat) {
    GoodEntries(t.entries, t.layer, zeros) && Sorted(LeavesOf(t))
  }

  /** A well-formed root is canonical when it holds a key of its own layer. */
  lemma OwnKeyIsCanonical(t: Tree, zeros: nat -> nat, k: nat)
    requires Good(t, t.layer, zeros) && Sorted(LeavesOf(t)) && HasKey(LeavesOf(t), k) && zeros(k) == t.layer
    ensures Canonical(t, zeros)
  {
    if !Trimmed(t) {
      NoOwnKey(t, zeros, k);
    }
  }

  lemma NoOwnKey(t: Tree, zeros: nat -> nat, k: nat)
    requires Good(t, t.layer, zeros) && !Trimmed(t) && HasKey(LeavesOf(t), k)
    ensures zeros(k) < t.layer
  {
    GoodAt(t.entries, t.layer, zeros, 0);
    GoodLeaves(t.entries[0].tree.entries, t.layer - 1, zeros);
    assert t.entries == [t.entries[0]];
    LeavesOne(t.entries[0]);
  }

  lemma OwnKey(t: Tree, zeros: nat -> nat) returns (k: nat)
    requires Canonical(t, zeros) && t.entries != []
    ensures k in Contents(t) && zeros(k) == t.layer
  {
    TrimmedHasLeaf(t, t.layer, zeros);
    var p :| p in LeavesOf(t) && zeros(p.key) == t.layer;
    MapKeys(LeavesOf(t), p.key);
    k := p.key;
  }

  // ---------------------------------------------------------------------------
  // Each operation against the map.

  lemma InsertedMap(s: seq<Pair>, s': seq<Pair>, k: nat, v: nat)
    requires Sorted(s) && Inserted(s, s', k, v)
    ensures Sorted(s') && AsMap(s') == AsMap(s)[k := v]
  {
    var a, b :| InsertedAt(s, s', k, v, a, b);
    PutIs(a, b, k, v);
  }

  /** Where `Add` leaves the root. */
  function AddLayer(t: Tree, k: nat, zeros: nat -> nat): nat {
    if zeros(k) > t.layer then zeros(k) else t.layer
  }

  lemma AddAnywhere(t: Tree, k: nat, v: nat, zeros: nat -> nat, valid: nat -> bool)
    requires !valid(0)
    requires WellFormed(t, zeros) && valid(k) && v > 0
    ensures Added(Add(t, k, v, zeros, valid), LeavesOf(t), k, v, AddLayer(t, k, zeros), zeros)
  {
    if zeros(k) > t.layer {
      AddAboveIs(t, k, v, zeros, valid);
    } else {
      AddIn(t, k, v, zeros, valid);
    }
  }

  /** `Add` puts a new pair into the map, and refuses invalid keys, undefined values
      and present keys, in that order; nothing else goes wrong. */
  lemma AddRefines(t: Tree, k: nat, v: nat, zeros: nat -> nat, valid: nat -> bool)
    requires !valid(0)
    requires WellFormed(t, zeros)
    ensures var r := Add(t, k, v, zeros, valid);
            if !valid(k) then r == Err(InvalidKey)
            else if v == 0 then r == Err(UndefCid)
            else if k in Contents(t) then r == Err(AlreadyExists)
            else r.Ok? && WellFormed(r.value, zeros) && r.value.entries != []
                 && Contents(r.value) == Contents(t)[k := v]
  {
    if valid(k) && v > 0 {
      AddAnywhere(t, k, v, zeros, valid);
      MapKeys(LeavesOf(t), k);
      if k !in Contents(t) {
        InsertedMap(LeavesOf(t), LeavesOf(Add(t, k, v, zeros, valid).value), k, v);
      }
    }
  }

  /** The tree `Add` gives is canonical exactly when the key is of the root's layer or
      above, or the root was trimmed and not empty. An emptied tree that kept a
      layer above the key's is the case that fails. */
  lemma AddCanonical(t: Tree, k: nat, v: nat, zeros: nat -> nat, valid: nat -> bool)
    requires !valid(0)
    requires WellFormed(t, zeros) && valid(k) && v > 0 && k !in Contents(t)
    ensures Add(t, k, v, zeros, valid).Ok?
    ensures Canonical(Add(t, k, v, zeros, valid).value, zeros) <==>
      zeros(k) >= t.layer || (t.entries != [] && Trimmed(t))
  {
    AddRefines(t, k, v, zeros, valid);
    AddAnywhere(t, k, v, zeros, valid);
    MapKeys(LeavesOf(t), k);
    var u := Add(t, k, v, zeros, valid).value;
    if zeros(k) >= t.layer {
      MapKeys(LeavesOf(u), k);
      OwnKeyIsCanonical(u, zeros, k);
    } else if t.entries != [] && Trimmed(t) {
      var own := OwnKey(t, zeros);
      MapKeys(LeavesOf(u), own);
      OwnKeyIsCanonical(u, zeros, own);
    } else {
      AddNotTrimmed(t, k, v, zeros, u);
    }
  }

  lemma AddNotTrimmed(t: Tree, k: nat, v: nat, zeros: nat -> nat, u: Tree)
    requires WellFormed(t, zeros) && zeros(k) < t.layer && (t.entries == [] || !Trimmed(t))
    requires Good(u, t.layer, zeros) && Sorted(LeavesOf(u)) && Contents(u) == Contents(t)[k := v]
    ensures !Canonical(u, zeros)
  {
    if Canonical(u, zeros) {
      var own := OwnKey(u, zeros);
      assert own in Contents(t);
      MapKeys(LeavesOf(t), own);
      NoOwnKey(t, zeros, own);
    }
  }

  lemma GetRefines(t: Tree, k: nat, zeros: nat -> nat)
    requires WellFormed(t, zeros)
    ensures Get(t, k) == if k in Contents(t) then Ok(Contents(t)[k]) else Err(NotFound)
  {
    GetIn(t, t.layer, k, zeros);
    MapKeys(LeavesOf(t), k);
    if k in Contents(t) {
      MapIs(LeavesOf(t), Pair(k, Get(t, k).value));
    }
  }

  lemma ChangedMap(s: seq<Pair>, s': seq<Pair>, k: nat, v: nat)
    requires Sorted(s) && Changed(s, s', k, v)
    ensures Sorted(s') && AsMap(s') == AsMap(s)[k := v]
  {
    var a, u, b :| ChangedAt(s, s', k, v, a, u, b);
    ReplacedIs(a, b, k, u, v);
  }

  /** `Update` replaces the value of a present key and changes nothing else. */
  lemma UpdateRefines(t: Tree, k: nat, v: nat, zeros: nat -> nat, valid: nat -> bool)
    requires !valid(0)
    requires WellFormed(t, zeros)
    ensures var r := Update(t, k, v, valid);
            if !valid(k) then r == Err(InvalidKey)
            else if v == 0 then r == Err(UndefCid)
            else if k !in Contents(t) then r == Err(NotFound)
            else r.Ok? && WellFormed(r.value, zeros) && r.value.layer == t.layer && r.value.entries != []
                 && Contents(r.value) == Contents(t)[k := v]
  {
    MapKeys(LeavesOf(t), k);
    if valid(k) && v > 0 && t.entries != [] {
      UpdateIn(t, k, v, zeros, valid);
      if k in Contents(t) {
        ChangedMap(LeavesOf(t), LeavesOf(Update(t, k, v, valid).value), k, v);
      }
    }
  }

  lemma UpdateCanonical(t: Tree, k: nat, v: nat, zeros: nat -> nat, valid: nat -> bool)
    requires !valid(0)
    requires Canonical(t, zeros) && valid(k) && v > 0 && k in Contents(t)
    ensures Update(t, k, v, valid).Ok? && Canonical(Update(t, k, v, valid).value, zeros)
  {
    UpdateRefines(t, k, v, zeros, valid);
    var u := Update(t, k, v, valid).value;
    var own := OwnKey(t, zeros);
    MapKeys(LeavesOf(u), own);
    OwnKeyIsCanonical(u, zeros, own);
  }

  lemma DroppedMap(s: seq<Pair>, s': seq<Pair>, k: nat)
    requires Sorted(s) && Dropped(s, s', k)
    ensures Sorted(s') && AsMap(s') == AsMap(s) - {k}
  {
    var a, u, b :| DroppedAt(s, s', k, a, u, b);
    DroppedIs(a, b, k, u);
  }

  /** The tree a root is once written and loaded again: an empty one has no layer to
      keep, and reads as layer 0. */
  function Reloaded(t: Tree): Tree { if t.entries == [] then Tree(0, []) else t }

  /** `Delete` takes a present key out of the map, and the tree, once reloaded if it
      was emptied, is canonical. */
  lemma DeleteRefines(t: Tree, k: nat, zeros: nat -> nat)
    requires WellFormed(t, zeros)
    ensures var r := Delete(t, k);
            if k !in Contents(t) then r == Err(NotFound)
            else r.Ok? && Canonical(Reloaded(r.value), zeros) && Contents(r.value) == Contents(t) - {k}
  {
    MapKeys(LeavesOf(t), k);
    if t.entries != [] {
      DeleteIn(t, k, zeros);
      if k in Contents(t) {
        var u := DeleteRecurse(t, k).value;
        DroppedMap(LeavesOf(t), LeavesOf(u), k);
        if u.entries != [] {
          TrimIs(u, zeros);
        }
      }
    }
  }

  /** Deleting the one key of a tree leaves its layer behind. */
  lemma DeleteOnlyKey(k: nat, v: nat, zeros: nat -> nat)
    requires k > 0 && v > 0
    ensures var t := Tree(zeros(k), [Leaf(k, v)]);
            Canonical(t, zeros) && Delete(t, k) == Ok(Tree(zeros(k), []))
  {
    var es := [Leaf(k, v)];
    GoodOne(es[0], zeros(k), zeros);
    assert FindIndex(es, k) == 0 && Replaced(es, 0, 1, []) == [];
  }

  /** An emptied tree keeps its layer, and a key of a lower layer added to it then
      ends up below the root: the same map in two shapes, one of them not
      canonical. */
  lemma EmptiedKeepsLayer(k: nat, j: nat, v: nat, zeros: nat -> nat, valid: nat -> bool)
    requires !valid(0)
    requires valid(k) && valid(j) && v > 0 && zeros(j) < zeros(k)
    ensures var t := Tree(zeros(k), [Leaf(k, v)]);
            && Canonical(t, zeros) && Delete(t, k).Ok?
            && var emptied := Delete(t, k).value;
               var stale, again := Add(emptied, j, v, zeros, valid), Add(Tree(0, []), j, v, zeros, valid);
               && stale.Ok? && again.Ok? && Contents(stale.value) == Contents(again.value)
               && !Canonical(stale.value, zeros) && Canonical(again.value, zeros)
  {
    DeleteOnlyKey(k, v, zeros);
    var emptied := Tree(zeros(k), []);
    AddRefines(emptied, j, v, zeros, valid);
    AddCanonical(emptied, j, v, zeros, valid);
    AddRefines(Tree(0, []), j, v, zeros, valid);
    AddCanonical(Tree(0, []), j, v, zeros, valid);
  }

  // ---------------------------------------------------------------------------
  // Runs of operations.

  datatype Op = AddOp(key: nat, val: nat) | UpdateOp(key: nat, val: nat) | DeleteOp(key: nat)

  /** One operation on the stored tree; a refused one leaves it alone. */
  function Apply(t: Tree, op: Op, zeros: nat -> nat, valid: nat -> bool): Tree {
    var r := match op
      case AddOp(k, v) => Add(t, k, v, zeros, valid)
      case UpdateOp(k, v) => Update(t, k, v, valid)
      case DeleteOp(k) => Delete(t, k);
    if r.Ok? then Reloaded(r.value) else t
  }

  /** The same operation on a map. */
  function ApplyMap(m: map<nat, nat>, op: Op, valid: nat -> bool): map<nat, nat> {
    match op
    case AddOp(k, v) => if valid(k) && v > 0 && k !in m then m[k := v] else m
    case UpdateOp(k, v) => if valid(k) && v > 0 && k in m then m[k := v] else m
    case DeleteOp(k) => m - {k}
  }

  function Run(ops: seq<Op>, zeros: nat -> nat, valid: nat -> bool): Tree {
    if ops == [] then Tree(0, []) else Apply(Run(ops[..|ops| - 1], zeros, valid), ops[|ops| - 1], zeros, valid)
  }

  function RunMap(ops: seq<Op>, valid: nat -> bool): map<nat, nat> {
    if ops == [] then map[] else ApplyMap(RunMap(ops[..|ops| - 1], valid), ops[|ops| - 1], valid)
  }

  lemma ApplyRefines(t: Tree, op: Op, zeros: nat -> nat, valid: nat -> bool)
    requires !valid(0)
    requires Canonical(t, zeros)
    ensures Canonical(Apply(t, op, zeros, valid), zeros)
    ensures Contents(Apply(t, op, zeros, valid)) == ApplyMap(Contents(t), op, valid)
  {
    match op
    case AddOp(k, v) =>
      AddRefines(t, k, v, zeros, valid);
      if valid(k) && v > 0 && k !in Contents(t) {
        AddCanonical(t, k, v, zeros, valid);
      }
    case UpdateOp(k, v) =>
      UpdateRefines(t, k, v, zeros, valid);
      if valid(k) && v > 0 && k in Contents(t) {
        UpdateCanonical(t, k, v, zeros, valid);
      }
    case DeleteOp(k) =>
      DeleteRefines(t, k, zeros);
  }

  /** Over every run, the tree is canonical and holds what the map holds. */
  lemma {:induction false} RunRefines(ops: seq<Op>, zeros: nat -> nat, valid: nat -> bool)
    requires !valid(0)
    ensures Canonical(Run(ops, zeros, valid), zeros) && Contents(Run(ops, zeros, valid)) == RunMap(ops, valid)
    decreases |ops|
  {
    if ops != [] {
      RunRefines(ops[..|ops| - 1], zeros, valid);
      ApplyRefines(Run(ops[..|ops| - 1], zeros, valid), ops[|ops| - 1], zeros, valid);
    }
  }

  /** Any two runs that reach the same map leave the same tree. */
  lemma NoHistory(a: seq<Op>, b: seq<Op>, zeros: nat -> nat, valid: nat -> bool)
    requires !valid(0)
    requires RunMap(a, valid) == RunMap(b, valid)
    ensures Run(a, zeros, valid) == Run(b, zeros, valid)
  {
    RunRefines(a, zeros, valid);
    RunRefines(b, zeros, valid);
    OneShape(Run(a, zeros, valid), Run(b, zeros, valid), zeros);
  }
}
