/** The difference between two maps, and `DiffTrees`, which finds it from two trees
    without visiting the subtrees they share. */
module MstDiff {
  import opened MstTree
  import opened MstSpec
  import opened MstCanon
  import opened MstWalk
  import opened MstMap

  datatype DiffOp =
    | AddDiff(key: nat, now: nat)
    | DelDiff(key: nat, was: nat)
    | MutDiff(key: nat, was: nat, now: nat)

  // ---------------------------------------------------------------------------
  // The difference of two lists of leaves.

  function Adds(s: seq<Pair>): (r: seq<DiffOp>)
    ensures |r| == |s| && forall i | 0 <= i < |s| :: r[i] == AddDiff(s[i].key, s[i].val)
  {
    seq(|s|, i requires 0 <= i < |s| => AddDiff(s[i].key, s[i].val))
  }

  function Dels(s: seq<Pair>): (r: seq<DiffOp>)
    ensures |r| == |s| && forall i | 0 <= i < |s| :: r[i] == DelDiff(s[i].key, s[i].val)
  {
    seq(|s|, i requires 0 <= i < |s| => DelDiff(s[i].key, s[i].val))
  }

  /** The merge of two sorted lists. */
  function Diff(a: seq<Pair>, b: seq<Pair>): seq<DiffOp>
    decreases |a| + |b|
  {
    if a == [] then Adds(b)
    else if b == [] then Dels(a)
    else if a[0] == b[0] then Diff(a[1..], b[1..])
    else if a[0].key == b[0].key then [MutDiff(a[0].key, a[0].val, b[0].val)] + Diff(a[1..], b[1..])
    else if a[0].key > b[0].key then [AddDiff(b[0].key, b[0].val)] + Diff(a, b[1..])
    else [DelDiff(a[0].key, a[0].val)] + Diff(a[1..], b)
  }

  /** What an operation says about the two lists. */
  predicate RightOp(a: seq<Pair>, b: seq<Pair>, op: DiffOp) {
    match op
    case AddDiff(k, v) => !HasKey(a, k) && Pair(k, v) in b
    case DelDiff(k, u) => Pair(k, u) in a && !HasKey(b, k)
    case MutDiff(k, u, v) => Pair(k, u) in a && Pair(k, v) in b && u != v
  }

  lemma Tail(s: seq<Pair>)
    requires s != [] && Sorted(s)
    ensures Sorted(s[1..]) && Above(s[1..], s[0].key)
    ensures forall p :: p in s <==> p == s[0] || p in s[1..]
    ensures forall k :: HasKey(s, k) <==> k == s[0].key || HasKey(s[1..], k)
  {
    assert s == [s[0]] + s[1..];
    SortedParts([s[0]], s[1..]);
    forall k ensures HasKey(s, k) <==> k == s[0].key || HasKey(s[1..], k) {
      assert s[0] in s;
    }
  }

  lemma AddsAre(b: seq<Pair>, op: DiffOp)
    ensures op in Adds(b) <==> RightOp([], b, op)
  {
    if op.AddDiff? && Pair(op.key, op.now) in b {
      var i :| 0 <= i < |b| && b[i] == Pair(op.key, op.now);
      assert Adds(b)[i] == op;
    }
  }

  lemma DelsAre(a: seq<Pair>, op: DiffOp)
    ensures op in Dels(a) <==> RightOp(a, [], op)
  {
    if op.DelDiff? && Pair(op.key, op.was) in a {
      var i :| 0 <= i < |a| && a[i] == Pair(op.key, op.was);
      assert Dels(a)[i] == op;
    }
  }

  /** The difference holds exactly the right operations. */
  lemma {:induction false} DiffIs(a: seq<Pair>, b: seq<Pair>, op: DiffOp)
    requires Sorted(a) && Sorted(b)
    ensures op in Diff(a, b) <==> RightOp(a, b, op)
    decreases |a| + |b|
  {
    if a == [] {
      AddsAre(b, op);
    } else if b == [] {
      DelsAre(a, op);
    } else {
      Tail(a);
      Tail(b);
      if a[0].key == b[0].key {
        DiffIs(a[1..], b[1..], op);
      } else if a[0].key > b[0].key {
        DiffIs(a, b[1..], op);
      } else {
        DiffIs(a[1..], b, op);
      }
    }
  }

  predicate OpsSorted(ops: seq<DiffOp>) {
    forall i, j | 0 <= i < j < |ops| :: ops[i].key < ops[j].key
  }

  predicate OpsAbove(ops: seq<DiffOp>, k: nat) { forall op | op in ops :: k < op.key }

  lemma OpsCons(op: DiffOp, ops: seq<DiffOp>)
    requires OpsSorted(ops) && OpsAbove(ops, op.key)
    ensures OpsSorted([op] + ops)
  {
    var r := [op] + ops;
    forall i, j | 0 <= i < j < |r| ensures r[i].key < r[j].key {
      assert r[j] in ops;
    }
  }

  lemma DiffAbove(a: seq<Pair>, b: seq<Pair>, k: nat)
    requires Sorted(a) && Sorted(b) && Above(a, k) && Above(b, k)
    ensures OpsAbove(Diff(a, b), k)
  {
    forall op | op in Diff(a, b) ensures k < op.key {
      DiffIs(a, b, op);
    }
  }

  /** Each changed key comes once, in increasing order. */
  lemma {:induction false} DiffSorted(a: seq<Pair>, b: seq<Pair>)
    requires Sorted(a) && Sorted(b)
    ensures OpsSorted(Diff(a, b))
    decreases |a| + |b|
  {
    if a != [] && b != [] {
      Tail(a);
      Tail(b);
      if a[0].key == b[0].key {
        DiffSorted(a[1..], b[1..]);
        DiffAbove(a[1..], b[1..], a[0].key);
        OpsCons(MutDiff(a[0].key, a[0].val, b[0].val), Diff(a[1..], b[1..]));
      } else if a[0].key > b[0].key {
        DiffSorted(a, b[1..]);
        DiffAbove(a, b[1..], b[0].key);
        OpsCons(AddDiff(b[0].key, b[0].val), Diff(a, b[1..]));
      } else {
        DiffSorted(a[1..], b);
        DiffAbove(a[1..], b, a[0].key);
        OpsCons(DelDiff(a[0].key, a[0].val), Diff(a[1..], b));
      }
    }
  }

  // ---------------------------------------------------------------------------
  // Applying a difference.

  function Patch(m: map<nat, nat>, op: DiffOp): map<nat, nat> {
    match op
    case AddDiff(k, v) => m[k := v]
    case DelDiff(k, _) => m - {k}
    case MutDiff(k, _, v) => m[k := v]
  }

  function PatchAll(m: map<nat, nat>, ops: seq<DiffOp>): map<nat, nat>
    decreases |ops|
  {
    if ops == [] then m else PatchAll(Patch(m, ops[0]), ops[1..])
  }

  /** Operations on other keys leave a key alone. */
  lemma {:induction false} PatchOthers(m: map<nat, nat>, ops: seq<DiffOp>, k: nat)
    requires forall op | op in ops :: op.key != k
    ensures k in PatchAll(m, ops) <==> k in m
    ensures k in m ==> PatchAll(m, ops)[k] == m[k]
    decreases |ops|
  {
    if ops != [] {
      assert ops[0] in ops;
      PatchOthers(Patch(m, ops[0]), ops[1..], k);
    }
  }

  /** The one operation on a key decides it. */
  lemma {:induction false} PatchOne(m: map<nat, nat>, ops: seq<DiffOp>, i: nat)
    requires OpsSorted(ops) && i < |ops|
    ensures ops[i].DelDiff? ==> ops[i].key !in PatchAll(m, ops)
    ensures !ops[i].DelDiff? ==> Holds(PatchAll(m, ops), Pair(ops[i].key, ops[i].now))
    decreases |ops|
  {
    if i == 0 {
      forall op | op in ops[1..] ensures op.key != ops[0].key {
        var j :| 0 <= j < |ops[1..]| && ops[1..][j] == op;
        assert ops[j + 1] == op;
      }
      PatchOthers(Patch(m, ops[0]), ops[1..], ops[0].key);
    } else {
      PatchOne(Patch(m, ops[0]), ops[1..], i - 1);
    }
  }

  lemma PatchGives(m: map<nat, nat>, ops: seq<DiffOp>, op: DiffOp)
    requires OpsSorted(ops) && op in ops
    ensures op.DelDiff? ==> op.key !in PatchAll(m, ops)
    ensures !op.DelDiff? ==> Holds(PatchAll(m, ops), Pair(op.key, op.now))
  {
    var i :| 0 <= i < |ops| && ops[i] == op;
    PatchOne(m, ops, i);
  }

  /** The operation the difference has for `k`, if any. */
  lemma PatchedAt(a: seq<Pair>, b: seq<Pair>, k: nat)
    requires Sorted(a) && Sorted(b)
    ensures var p := PatchAll(AsMap(a), Diff(a, b));
            (k in p <==> k in AsMap(b)) && (k in AsMap(b) ==> p[k] == AsMap(b)[k])
  {
    var m, n, ops := AsMap(a), AsMap(b), Diff(a, b);
    DiffSorted(a, b);
    MapKeys(a, k);
    MapKeys(b, k);
    if k in m && k !in n {
      OpFor(a, b, DelDiff(k, m[k]));
    } else if k !in m && k in n {
      OpFor(a, b, AddDiff(k, n[k]));
    } else if k in m && k in n && m[k] != n[k] {
      OpFor(a, b, MutDiff(k, m[k], n[k]));
    } else {
      NoOpFor(a, b, k);
      PatchOthers(m, ops, k);
    }
  }

  lemma OpFor(a: seq<Pair>, b: seq<Pair>, op: DiffOp)
    requires Sorted(a) && Sorted(b) && OpsSorted(Diff(a, b))
    requires match op
             case AddDiff(k, v) => k !in AsMap(a) && Holds(AsMap(b), Pair(k, v))
             case DelDiff(k, u) => Holds(AsMap(a), Pair(k, u)) && k !in AsMap(b)
             case MutDiff(k, u, v) => Holds(AsMap(a), Pair(k, u)) && Holds(AsMap(b), Pair(k, v)) && u != v
    ensures var p := PatchAll(AsMap(a), Diff(a, b));
            if op.DelDiff? then op.key !in p else Holds(p, Pair(op.key, op.now))
  {
    MapKeys(a, op.key);
    MapKeys(b, op.key);
    if !op.AddDiff? {
      MapIs(a, Pair(op.key, op.was));
    }
    if !op.DelDiff? {
      MapIs(b, Pair(op.key, op.now));
    }
    DiffIs(a, b, op);
    PatchGives(AsMap(a), Diff(a, b), op);
  }

  lemma NoOpFor(a: seq<Pair>, b: seq<Pair>, k: nat)
    requires Sorted(a) && Sorted(b)
    requires k in AsMap(a) <==> k in AsMap(b)
    requires k in AsMap(a) ==> AsMap(a)[k] == AsMap(b)[k]
    ensures forall op | op in Diff(a, b) :: op.key != k
  {
    forall op | op in Diff(a, b) ensures op.key != k {
      DiffIs(a, b, op);
      MapKeys(a, op.key);
      MapKeys(b, op.key);
      if op.MutDiff? {
        MapIs(a, Pair(op.key, op.was));
        MapIs(b, Pair(op.key, op.now));
      }
    }
  }

  /** Applying the difference to the first map gives the second. */
  lemma DiffApplies(a: seq<Pair>, b: seq<Pair>)
    requires Sorted(a) && Sorted(b)
    ensures PatchAll(AsMap(a), Diff(a, b)) == AsMap(b)
  {
    var p, n := PatchAll(AsMap(a), Diff(a, b)), AsMap(b);
    forall k ensures (k in p <==> k in n) && (k in n ==> p[k] == n[k]) {
      PatchedAt(a, b, k);
    }
    assert p == n;
  }
}
