/** The Bao outboard of a body: the parent entries above its blocks in pre-order.

    The 32-byte chaining values are terms, so an outboard is its size prefix and
    its 64-byte entries; `ByteLength` is what it takes on the wire. */
module Outboard {
  import opened Options
  import opened Bytes
  import opened Pow2
  import opened Blake3Spec
  import opened BlockList
  import opened HasherSpec
  import CL = ChunkLog
  import RB = RootFromBlocks

  /** One parent: the chaining values of its two children. */
  datatype Entry = Entry(left: CV, right: CV)

  datatype Board = Board(size: nat, entries: seq<Entry>) {
    function ByteLength(): nat { 8 + 64 * |entries| }
  }

  /** The entries of a run of blocks: the parent, then the left subtree's, then
      the right's. */
  function Entries(blocks: seq<CV>): (r: seq<Entry>)
    requires blocks != []
    ensures |r| == |blocks| - 1
  {
    if |blocks| == 1 then []
    else
      var k := LeftCount(|blocks|);
      [Entry(RB.SubtreeCV(blocks[..k]), RB.SubtreeCV(blocks[k..]))] + Entries(blocks[..k]) + Entries(blocks[k..])
  }

  /** `preorder`: the entry is reserved, the children's entries follow, and the
      reserved entry is filled in afterwards. */
  method Preorder(blocks: seq<CV>, out: seq<Entry>) returns (cv: CV, out': seq<Entry>)
    requires blocks != []
    ensures cv == RB.SubtreeCV(blocks) && out' == out + Entries(blocks)
    decreases |blocks|
  {
    if |blocks| == 1 {
      assert out + [] == out;
      return blocks[0], out;
    }
    var k := LeftCount(|blocks|);
    var at := |out|;
    var blank := Chunk([], 0, false);
    out' := out + [Entry(blank, blank)];
    var l, r;
    l, out' := Preorder(blocks[..k], out');
    r, out' := Preorder(blocks[k..], out');
    Filled(out, Entry(blank, blank), Entry(l, r), Entries(blocks[..k]), Entries(blocks[k..]));
    out' := out'[at := Entry(l, r)];
    cv := Parent(l, r, false);
  }

  lemma Filled(out: seq<Entry>, blank: Entry, e: Entry, a: seq<Entry>, b: seq<Entry>)
    ensures (out + [blank] + a + b)[|out| := e] == out + ([e] + a + b)
  {
  }

  /** `Outboard`. */
  method Make(blocks: seq<CV>, size: nat) returns (b: Board)
    ensures b.size == size
    ensures b.entries == if blocks == [] then [] else Entries(blocks)
  {
    b := Board(size, []);
    if |blocks| > 1 {
      var _, out := Preorder(blocks, []);
      b := Board(size, out);
    }
  }

  /** `CheckOutboard` on a byte length. */
  predicate HasShape(len: nat) { len >= 8 && (len - 8) % 64 == 0 }

  /** `OutboardBlocks`: the block count, if the outboard holds one entry per block
      but one for its size at the claimed chunk log. */
  function OutboardBlocks(b: Board, c: nat): Option<nat> {
    if !HasShape(b.ByteLength()) || c > CL.MAX_CHUNK_LOG || b.size >= CL.INT64_LIMIT then None
    else
      var n := CL.BlocksIn(b.size, c);
      if (b.ByteLength() - 8) / 64 == (if n > 1 then n - 1 else 0) then Some(n) else None
  }

  // ---------------------------------------------------------------------------
  // Reading an outboard back.

  /** A verifier's descent: every entry must hash to the value its parent gave for
      it, and the values below the lowest entries are the blocks. */
  function Descend(entries: seq<Entry>, n: nat, cv: CV): Option<seq<CV>>
    requires n >= 1 && |entries| == n - 1
    decreases n
  {
    if n == 1 then Some([cv])
    else if cv != Parent(entries[0].left, entries[0].right, false) then None
    else
      var k := LeftCount(n);
      match (Descend(entries[1..k], k, entries[0].left), Descend(entries[k..], n - k, entries[0].right))
      case (Some(l), Some(r)) => Some(l + r)
      case _ => None
  }

  /** The descent from a root: its top parent carries the root flag. */
  function DescendRoot(entries: seq<Entry>, n: nat, root: CV): Option<seq<CV>>
    requires n >= 2 && |entries| == n - 1
  {
    if root != Parent(entries[0].left, entries[0].right, true) then None
    else Descend(entries, n, Parent(entries[0].left, entries[0].right, false))
  }

  /** Entries of a run, cut where the descent cuts them. */
  lemma EntriesCut(blocks: seq<CV>)
    requires |blocks| >= 2
    ensures var k, e := LeftCount(|blocks|), Entries(blocks);
            && e[0] == Entry(RB.SubtreeCV(blocks[..k]), RB.SubtreeCV(blocks[k..]))
            && e[1..k] == Entries(blocks[..k]) && e[k..] == Entries(blocks[k..])
  {
  }

  /** Descending a run's own entries gives its blocks back. */
  lemma {:induction false} DescendsBack(blocks: seq<CV>)
    requires blocks != []
    ensures Descend(Entries(blocks), |blocks|, RB.SubtreeCV(blocks)) == Some(blocks)
    decreases |blocks|
  {
    if |blocks| > 1 {
      var k := LeftCount(|blocks|);
      EntriesCut(blocks);
      DescendsBack(blocks[..k]);
      DescendsBack(blocks[k..]);
      assert blocks == blocks[..k] + blocks[k..];
    } else {
      assert blocks == [blocks[0]];
    }
  }

  lemma DescentSplits(entries: seq<Entry>, n: nat, cv: CV) returns (l: seq<CV>, r: seq<CV>)
    requires n >= 2 && |entries| == n - 1 && Descend(entries, n, cv).Some?
    ensures var k := LeftCount(n);
            && Descend(entries[1..k], k, entries[0].left) == Some(l)
            && Descend(entries[k..], n - k, entries[0].right) == Some(r)
    ensures Descend(entries, n, cv) == Some(l + r) && cv == Parent(entries[0].left, entries[0].right, false)
  {
    var k := LeftCount(n);
    l := Descend(entries[1..k], k, entries[0].left).value;
    r := Descend(entries[k..], n - k, entries[0].right).value;
  }

  /** The entries are those of the blocks, which merge to `cv`. */
  ghost predicate Describes(entries: seq<Entry>, n: nat, cv: CV, b: seq<CV>) {
    |b| == n >= 1 && RB.SubtreeCV(b) == cv && Entries(b) == entries
  }

  /** Whatever entries a descent accepts are those of the blocks it gives, and those
      blocks merge to the value it started from. */
  lemma {:induction false} DescentIsSound(entries: seq<Entry>, n: nat, cv: CV, b: seq<CV>)
    requires n >= 1 && |entries| == n - 1 && Descend(entries, n, cv) == Some(b)
    ensures Describes(entries, n, cv, b)
    decreases n
  {
    if n > 1 {
      var k := LeftCount(n);
      var l, r := DescentSplits(entries, n, cv);
      DescentIsSound(entries[1..k], k, entries[0].left, l);
      DescentIsSound(entries[k..], n - k, entries[0].right, r);
      HalvesDescribe(entries, n, cv, l, r, b);
    } else {
      assert b == [cv] && entries == [];
    }
  }

  lemma HalvesDescribe(entries: seq<Entry>, n: nat, cv: CV, l: seq<CV>, r: seq<CV>, b: seq<CV>)
    requires n >= 2 && |entries| == n - 1 && b == l + r && cv == Parent(entries[0].left, entries[0].right, false)
    requires Describes(entries[1..LeftCount(n)], LeftCount(n), entries[0].left, l)
    requires Describes(entries[LeftCount(n)..], n - LeftCount(n), entries[0].right, r)
    ensures Describes(entries, n, cv, b)
  {
    var k := LeftCount(n);
    assert (l + r)[..k] == l && (l + r)[k..] == r;
    JoinedRuns(l + r, k, entries);
  }

  lemma JoinedRuns(b: seq<CV>, k: nat, entries: seq<Entry>)
    requires |b| >= 2 && k == LeftCount(|b|) && |entries| == |b| - 1
    requires entries[0] == Entry(RB.SubtreeCV(b[..k]), RB.SubtreeCV(b[k..]))
    requires entries[1..k] == Entries(b[..k]) && entries[k..] == Entries(b[k..])
    ensures RB.SubtreeCV(b) == Parent(entries[0].left, entries[0].right, false)
    ensures Entries(b) == entries
  {
    FirstAndHalves(entries, k);
    assert RB.SubtreeCV(b) == Parent(RB.SubtreeCV(b[..k]), RB.SubtreeCV(b[k..]), false);
    assert Entries(b) == [Entry(RB.SubtreeCV(b[..k]), RB.SubtreeCV(b[k..]))] + Entries(b[..k]) + Entries(b[k..]);
  }

  lemma FirstAndHalves(entries: seq<Entry>, k: nat)
    requires 1 <= k <= |entries|
    ensures entries == [entries[0]] + entries[1..k] + entries[k..]
  {
  }

  /** Runs of as many blocks with the same merged value are the same run. */
  lemma {:induction false} SameMerge(a: seq<CV>, b: seq<CV>)
    requires a != [] && |a| == |b| && RB.SubtreeCV(a) == RB.SubtreeCV(b)
    ensures a == b
    decreases |a|
  {
    if |a| > 1 {
      var k := LeftCount(|a|);
      SameMerge(a[..k], b[..k]);
      SameMerge(a[k..], b[k..]);
      assert a == a[..k] + a[k..] && b == b[..k] + b[k..];
    } else {
      assert a == [a[0]] && b == [b[0]];
    }
  }

  /** Against a body's root, exactly the body's own entries descend, and they
      descend to its block list. */
  lemma OnlyOwnEntries(o: Object, body: seq<byte>, c: nat, entries: seq<Entry>)
    requires IsObject(o, body, c) && |o.blocks| >= 2 && |entries| == |o.blocks| - 1
    ensures DescendRoot(entries, |o.blocks|, o.root)
         == if entries == Entries(o.blocks) then Some(o.blocks) else None
  {
    var n := |o.blocks|;
    RB.RootMatches(o, body, c);
    EntriesCut(o.blocks);
    DescendsBack(o.blocks);
    if o.root == Parent(entries[0].left, entries[0].right, true) {
      var cv := Parent(entries[0].left, entries[0].right, false);
      assert cv == RB.SubtreeCV(o.blocks);
      if Descend(entries, n, cv).Some? {
        DescentIsSound(entries, n, cv, Descend(entries, n, cv).value);
        SameMerge(Descend(entries, n, cv).value, o.blocks);
      }
    }
  }

  // ---------------------------------------------------------------------------
  // The shape check.

  lemma Shape(b: Board)
    ensures HasShape(b.ByteLength()) && (b.ByteLength() - 8) / 64 == |b.entries|
  {
  }

  lemma BlockCount(size: nat, c: nat)
    requires size > 0
    ensures First(ChunkCount(size), c) == CL.BlocksIn(size, c)
  {
    var n, k := ChunkCount(size), First(ChunkCount(size), c);
    CeilShr(n, c, k);
    ReachesEnd(size, c, k);
    CL.BlocksReach(size, c, k);
    if k > 0 {
      CeilShr(n, c, k - 1);
      ReachesEnd(size, c, k - 1);
      CL.BlocksReach(size, c, k - 1);
    }
  }

  /** `k` blocks hold all the bytes exactly when they hold all the chunks. */
  lemma ReachesEnd(size: nat, c: nat, k: nat)
    requires size > 0
    ensures ChunkCount(size) <= At(k, c) <==> k * CL.BlockSize(c) >= size
  {
    AtIs(k, c);
    Reassociate(k, P(c));
  }

  lemma Reassociate(k: nat, m: nat)
    ensures k * (CHUNK * m) == CHUNK * (k * m)
  {
  }

  lemma SomeBlocks(size: nat, c: nat)
    requires size > 0
    ensures CL.BlocksIn(size, c) > 0
  {
    CL.BlocksReach(size, c, 0);
  }

  /** A finished object's outboard is accepted at its chunk log, with its block
      count, and holds one entry per block but one. */
  lemma ObjectAccepted(o: Object, body: seq<byte>, c: nat, b: Board)
    requires IsObject(o, body, c) && c <= CL.MAX_CHUNK_LOG && |body| < CL.INT64_LIMIT
    requires b.size == o.size && b.entries == if o.blocks == [] then [] else Entries(o.blocks)
    ensures OutboardBlocks(b, c) == Some(|o.blocks|)
    ensures o.blocks != [] ==> |b.entries| == |o.blocks| - 1
  {
    Shape(b);
    if |body| > 0 {
      BlockCount(|body|, c);
      SomeBlocks(|body|, c);
    } else {
      CL.BlocksReach(0, c, 0);
    }
  }
}
