/** Keys as byte strings, and the ranks that stand for them in the tree: the order of
    ranks is the lexicographic order of strings of at most 1024 bytes. */
module MstKeys {
  import opened Bytes

  type Key = seq<byte>

  const MAX_KEY_BYTES: nat := 1024

  /** Go's string comparison. */
  predicate Less(a: Key, b: Key) {
    b != [] && (a == [] || a[0] < b[0] || (a[0] == b[0] && Less(a[1..], b[1..])))
  }

  function Weight(n: nat): (w: nat)
    ensures w >= 1
  {
    if n == 0 then 1 else 257 * Weight(n - 1)
  }

  /** The digits `byte + 1` in base 257, over `n` places; a string that ends early has
      zeros from there on. */
  function Rank(s: Key, n: nat): (r: nat)
    requires |s| <= n
  {
    if s == [] then 0 else Digit(s[0], n - 1) + Rank(s[1..], n - 1)
  }

  function Digit(b: byte, n: nat): nat { (b as int + 1) * Weight(n) }

  lemma DigitStep(a: byte, b: byte, n: nat)
    requires a < b
    ensures Digit(a, n) + Weight(n) <= Digit(b, n)
  {
    NextDigit(a as int + 1, b as int + 1, Weight(n));
  }

  lemma NextDigit(a: nat, b: nat, w: nat)
    requires a < b
    ensures a * w + w <= b * w
  {
    MulSum(a, b - a, w);
    MulLeast(b - a, w);
  }

  lemma MulSum(a: nat, d: nat, w: nat)
    ensures (a + d) * w == a * w + d * w
  {
  }

  lemma {:induction false} MulLeast(d: nat, w: nat)
    requires d >= 1
    ensures d * w >= w
  {
    if d > 1 {
      MulLeast(d - 1, w);
      MulSum(d - 1, 1, w);
    }
  }

  lemma DigitBounds(b: byte, n: nat)
    ensures Weight(n) <= Digit(b, n) && Digit(b, n) + Weight(n) <= Weight(n + 1)
  {
    var w := Weight(n);
    MulSum(b as int + 1, 256 - b as int, w);
    MulLeast(b as int + 1, w);
    MulLeast(256 - b as int, w);
  }

  lemma {:induction false} RankBound(s: Key, n: nat)
    requires |s| <= n
    ensures Rank(s, n) < Weight(n)
    ensures s != [] ==> Rank(s, n) >= Weight(n - 1)
    decreases |s|
  {
    if s != [] {
      RankBound(s[1..], n - 1);
      DigitBounds(s[0], n - 1);
    }
  }

  /** Ranks are in the order of their strings. */
  lemma {:induction false} RankOrder(a: Key, b: Key, n: nat)
    requires |a| <= n && |b| <= n
    ensures Rank(a, n) < Rank(b, n) <==> Less(a, b)
    ensures Rank(a, n) == Rank(b, n) <==> a == b
    decreases n
  {
    RankBound(a, n);
    RankBound(b, n);
    if a != [] && b != [] {
      RankBound(a[1..], n - 1);
      RankBound(b[1..], n - 1);
      if a[0] < b[0] {
        DigitStep(a[0], b[0], n - 1);
      } else if b[0] < a[0] {
        DigitStep(b[0], a[0], n - 1);
      } else {
        RankOrder(a[1..], b[1..], n - 1);
        assert a == [a[0]] + a[1..] && b == [b[0]] + b[1..];
      }
    }
  }

  /** Among keys of legal length, the empty one alone has rank 0. */
  lemma EmptyKeyIsZero(a: Key)
    requires |a| <= MAX_KEY_BYTES
    ensures Rank(a, MAX_KEY_BYTES) == 0 <==> a == []
  {
    RankBound(a, MAX_KEY_BYTES);
  }
}

/** The stored form of a node: keys with the prefix they share with the key before
    left out, and each subtree beside the leaf it follows. */
module MstCodec {
  import opened Options
  import opened MstKeys

  datatype Entry = Leaf(key: Key, val: nat) | Sub(pointer: nat)

  /** TreeEntry. */
  datatype Stored = Stored(prefixLen: nat, suffix: Key, val: nat, tree: Option<nat>)

  datatype NodeData = NodeData(left: Option<nat>, entries: seq<Stored>)

  datatype Error = NotANode | InvalidKey | Panic

  datatype Result<+T> = Ok(value: T) | Err(error: Error) {
    predicate IsFailure() { Err? }
    function PropagateFailure<U>(): Result<U>
      requires Err?
    {
      Err(error)
    }
    function Extract(): T
      requires Ok?
    {
      value
    }
  }

  /** The length of the longest common prefix. */
  function CommonPrefix(a: Key, b: Key): (n: nat)
    ensures n <= |a| && n <= |b| && a[..n] == b[..n]
    ensures n < |a| && n < |b| ==> a[n] != b[n]
  {
    if a == [] || b == [] || a[0] != b[0] then 0
    else
      var n := CommonPrefix(a[1..], b[1..]);
      assert a[..n + 1] == [a[0]] + a[1..][..n] && b[..n + 1] == [b[0]] + b[1..][..n];
      n + 1
  }

  /** `countPrefixLen`. */
  method CountPrefixLen(a: Key, b: Key) returns (i: nat)
    ensures i == CommonPrefix(a, b)
  {
    i := 0;
    while i < |a| && i < |b|
      invariant i <= |a| && i <= |b| && a[..i] == b[..i]
    {
      if a[i] != b[i] {
        PrefixIs(a, b, i);
        return;
      }
      i := i + 1;
    }
    PrefixIs(a, b, i);
  }

  lemma PrefixIs(a: Key, b: Key, i: nat)
    requires i <= |a| && i <= |b| && a[..i] == b[..i] && (i < |a| && i < |b| ==> a[i] != b[i])
    ensures CommonPrefix(a, b) == i
  {
    var n := CommonPrefix(a, b);
  }

  /** How many entries one stored entry takes: a leaf, and a subtree after it. */
  function Taken(es: seq<Entry>): (n: nat)
    requires es != []
    ensures 1 <= n <= |es|
  {
    if |es| > 1 && es[1].Sub? then 2 else 1
  }

  function Pack(es: seq<Entry>, last: Key): Stored
    requires es != [] && es[0].Leaf?
  {
    var n := CommonPrefix(last, es[0].key);
    Stored(n, es[0].key[n..], es[0].val, if Taken(es) == 2 then Some(es[1].pointer) else None)
  }

  function Packed(es: seq<Entry>, last: Key, valid: Key -> bool): Result<seq<Stored>>
    decreases |es|
  {
    if es == [] then Ok([])
    else if es[0].Sub? then Err(NotANode)
    else if !valid(es[0].key) then Err(InvalidKey)
    else
      var rest :- Packed(es[Taken(es)..], es[0].key, valid);
      Ok([Pack(es, last)] + rest)
  }

  /** A subtree before the first leaf goes to the side. */
  function LeadingSub(es: seq<Entry>): (n: nat)
    ensures n <= |es|
  {
    if es != [] && es[0].Sub? then 1 else 0
  }

  function Leading(es: seq<Entry>): Option<nat> { if es != [] && es[0].Sub? then Some(es[0].pointer) else None }

  function Prepended(done: seq<Stored>, r: Result<seq<Stored>>): Result<seq<Stored>> {
    if r.Ok? then Ok(done + r.value) else r
  }

  /** `serializeNodeData`; `valid` is the key check. */
  method Serialize(es: seq<Entry>, valid: Key -> bool) returns (r: Result<NodeData>)
    ensures var p := Packed(es[LeadingSub(es)..], [], valid);
            r == if p.Ok? then Ok(NodeData(Leading(es), p.value)) else Err(p.error)
  {
    var left := Leading(es);
    var i := LeadingSub(es);
    ghost var all := Packed(es[i..], [], valid);
    var last: Key, done: seq<Stored> := [], [];
    PrependedNone(all);
    while i < |es|
      invariant i <= |es| && all == Prepended(done, Packed(es[i..], last, valid))
    {
      var leaf := es[i];
      if leaf.Sub? {
        return Err(NotANode);
      }
      if !valid(leaf.key) {
        return Err(InvalidKey);
      }
      var n := CountPrefixLen(last, leaf.key);
      var sub := None;
      var j := i + 1;
      if j < |es| && es[j].Sub? {
        sub := Some(es[j].pointer);
        j := j + 1;
      }
      assert es[i..][Taken(es[i..])..] == es[j..];
      PrependedMore(done, Pack(es[i..], last), Packed(es[j..], leaf.key, valid));
      done := done + [Stored(n, leaf.key[n..], leaf.val, sub)];
      last, i := leaf.key, j;
    }
    assert es[i..] == [] && done + [] == done;
    r := Ok(NodeData(left, done));
  }

  lemma PrependedNone(r: Result<seq<Stored>>)
    ensures Prepended([], r) == r
  {
    if r.Ok? {
      assert [] + r.value == r.value;
    }
  }

  lemma PrependedMore(done: seq<Stored>, s: Stored, r: Result<seq<Stored>>)
    ensures r.Ok? ==> Prepended(done, Ok([s] + r.value)) == Prepended(done + [s], r)
  {
    if r.Ok? {
      assert done + ([s] + r.value) == done + [s] + r.value;
    }
  }

  /** The entries of a stored list. */
  function Unpacked(s: seq<Stored>, last: Key, valid: Key -> bool): Result<seq<Entry>> {
    if s == [] then Ok([])
    else if s[0].prefixLen > |last| then Err(Panic)
    else
      var key := last[..s[0].prefixLen] + s[0].suffix;
      if !valid(key) then Err(InvalidKey)
      else
        var rest :- Unpacked(s[1..], key, valid);
        Ok([Leaf(key, s[0].val)] + SubEntry(s[0].tree) + rest)
  }

  function SubEntry(o: Option<nat>): seq<Entry> { if o.Some? then [Sub(o.value)] else [] }

  /** `deserializeNodeData`. */
  method Deserialize(nd: NodeData, valid: Key -> bool) returns (r: Result<seq<Entry>>)
    ensures var u := Unpacked(nd.entries, [], valid);
            r == if u.Ok? then Ok(SubEntry(nd.left) + u.value) else u
  {
    var es := SubEntry(nd.left);
    var last: Key := [];
    ghost var all := Unpacked(nd.entries, [], valid);
    var i := 0;
    while i < |nd.entries|
      invariant 0 <= i <= |nd.entries|
      invariant var u := Unpacked(nd.entries[i..], last, valid);
                (if all.Ok? then Ok(SubEntry(nd.left) + all.value) else all) == (if u.Ok? then Ok(es + u.value) else u)
    {
      var e := nd.entries[i];
      if e.prefixLen > |last| {
        return Err(Panic);
      }
      var key := last[..e.prefixLen] + e.suffix;
      if !valid(key) {
        return Err(InvalidKey);
      }
      assert nd.entries[i..][1..] == nd.entries[i + 1..];
      UnpackedMore(es, Leaf(key, e.val), e.tree, Unpacked(nd.entries[i + 1..], key, valid));
      es := es + [Leaf(key, e.val)] + SubEntry(e.tree);
      last, i := key, i + 1;
    }
    assert es + [] == es;
    r := Ok(es);
  }

  lemma UnpackedMore(es: seq<Entry>, leaf: Entry, tree: Option<nat>, rest: Result<seq<Entry>>)
    ensures rest.Ok? ==> es + ([leaf] + SubEntry(tree) + rest.value) == es + [leaf] + SubEntry(tree) + rest.value
  {
  }

  /** What a node's entries must be: valid keys, and no two subtrees in a row. */
  predicate Storable(es: seq<Entry>, valid: Key -> bool) {
    && (forall i | 0 <= i < |es| - 1 :: !(es[i].Sub? && es[i + 1].Sub?))
    && (forall e | e in es && e.Leaf? :: valid(e.key))
  }

  lemma {:induction false} PackedRoundTrip(es: seq<Entry>, last: Key, valid: Key -> bool)
    requires Storable(es, valid) && (es != [] ==> es[0].Leaf?)
    ensures Packed(es, last, valid).Ok? && Unpacked(Packed(es, last, valid).value, last, valid) == Ok(es)
    decreases |es|
  {
    if es != [] {
      var rest := es[Taken(es)..];
      StorableRest(es, valid);
      PackedRoundTrip(rest, es[0].key, valid);
      assert es[0] in es;
      UnpackedCons(es, last, Packed(rest, es[0].key, valid).value, valid);
    }
  }

  /** Reading one stored entry undoes writing it. */
  lemma UnpackedCons(es: seq<Entry>, last: Key, p: seq<Stored>, valid: Key -> bool)
    requires es != [] && es[0].Leaf? && valid(es[0].key)
    requires Unpacked(p, es[0].key, valid) == Ok(es[Taken(es)..])
    ensures Unpacked([Pack(es, last)] + p, last, valid) == Ok(es)
  {
    var n := CommonPrefix(last, es[0].key);
    assert last[..n] + es[0].key[n..] == es[0].key;
    assert ([Pack(es, last)] + p)[1..] == p;
    assert [es[0]] + SubEntry(Pack(es, last).tree) + es[Taken(es)..] == es;
  }

  lemma StorableRest(es: seq<Entry>, valid: Key -> bool)
    requires Storable(es, valid) && es != [] && es[0].Leaf?
    ensures var rest := es[Taken(es)..]; Storable(rest, valid) && (rest != [] ==> rest[0].Leaf?)
  {
    var rest := es[Taken(es)..];
    forall e | e in rest && e.Leaf? ensures valid(e.key) {
      assert e in es;
    }
  }

  /** A node is written exactly when its keys are valid and no two subtrees are
      neighbours. */
  lemma {:induction false} PackedNeeds(es: seq<Entry>, last: Key, valid: Key -> bool)
    requires Packed(es, last, valid).Ok?
    ensures Storable(es, valid) && (es != [] ==> es[0].Leaf?)
    decreases |es|
  {
    if es != [] {
      PackedNeeds(es[Taken(es)..], es[0].key, valid);
      StorableMore(es, valid);
    }
  }

  lemma StorableMore(es: seq<Entry>, valid: Key -> bool)
    requires es != [] && es[0].Leaf? && valid(es[0].key)
    requires var rest := es[Taken(es)..]; Storable(rest, valid) && (rest != [] ==> rest[0].Leaf?)
    ensures Storable(es, valid)
  {
    var n := Taken(es);
    forall i | 0 <= i < |es| - 1 ensures !(es[i].Sub? && es[i + 1].Sub?) {
      assert i >= n ==> es[i] == es[n..][i - n] && es[i + 1] == es[n..][i + 1 - n];
      assert n < |es| ==> es[n] == es[n..][0];
    }
    forall e | e in es && e.Leaf? ensures valid(e.key) {
      var i :| 0 <= i < |es| && es[i] == e;
      assert i >= n ==> es[n..][i - n] == e;
    }
  }

  /** Writing a node succeeds exactly on storable entries, and reading it back gives
      the same entries. */
  method RoundTrip(es: seq<Entry>, valid: Key -> bool) returns (w: Result<NodeData>, r: Result<seq<Entry>>)
    ensures w.Ok? <==> Storable(es, valid)
    ensures w.Ok? ==> r == Ok(es)
  {
    w := Serialize(es, valid);
    ghost var rest := es[LeadingSub(es)..];
    WholeStorable(es, valid);
    if w.Err? {
      r := Err(w.error);
      if Storable(es, valid) {
        PackedRoundTrip(rest, [], valid);
      }
    } else {
      PackedNeeds(rest, [], valid);
      PackedRoundTrip(rest, [], valid);
      r := Deserialize(w.value, valid);
      assert SubEntry(Leading(es)) + rest == es;
    }
  }

  lemma WholeStorable(es: seq<Entry>, valid: Key -> bool)
    ensures var rest := es[LeadingSub(es)..];
            Storable(es, valid) <==> Storable(rest, valid) && (rest != [] ==> rest[0].Leaf?)
  {
    var n := LeadingSub(es);
    var rest := es[n..];
    if Storable(es, valid) {
      forall e | e in rest && e.Leaf? ensures valid(e.key) {
        assert e in es;
      }
      if rest != [] && n == 1 {
        assert rest[0] == es[0 + 1];
      }
    }
    if Storable(rest, valid) && (rest != [] ==> rest[0].Leaf?) {
      forall e | e in es && e.Leaf? ensures valid(e.key) {
        assert es == es[..n] + rest;
      }
      forall i | 0 <= i < |es| - 1 ensures !(es[i].Sub? && es[i + 1].Sub?) {
        assert i >= n ==> es[i] == rest[i - n] && es[i + 1] == rest[i + 1 - n];
        assert es[n] == rest[0];
      }
    }
  }
}
