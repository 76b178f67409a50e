/** A body's blobs: the flat list, the stored list cut into a head and extents, and
    what looking up an offset in either means. */
module BlobLists {
  import opened Options

  /** A blob and the inclusive span of the body it covers. Digest 0 stands for none. */
  datatype BlobRef = BlobRef(digest: nat, start: int, end: int)

  /** A stored blob: it runs to where the next one starts. */
  datatype Entry = Entry(digest: nat, offset: int)

  datatype ExtentRef = ExtentRef(offset: int, link: nat)

  datatype BlobList = BlobList(head: seq<Entry>, extents: seq<ExtentRef>)

  // ---------------------------------------------------------------------------
  // Flat lists.

  /** Spans that follow one another from `lo` to `hi`, none empty, all with digests. */
  predicate Tiles(refs: seq<BlobRef>, lo: int, hi: int) {
    && (forall i | 0 <= i < |refs| :: refs[i].start <= refs[i].end && refs[i].digest != 0)
    && (forall i | 0 <= i < |refs| - 1 :: refs[i].end + 1 == refs[i + 1].start)
    && (if refs == [] then lo == hi else refs[0].start == lo && refs[|refs| - 1].end + 1 == hi)
  }

  function Size(refs: seq<BlobRef>): int { if refs == [] then 0 else refs[|refs| - 1].end + 1 }

  /** Later spans end later. */
  lemma {:induction false} EndsRise(refs: seq<BlobRef>, lo: int, hi: int, i: nat, j: nat)
    requires Tiles(refs, lo, hi) && i < j < |refs|
    ensures refs[i].end < refs[j].start
    decreases j - i
  {
    if i + 1 < j {
      EndsRise(refs, lo, hi, i + 1, j);
    }
  }

  lemma TilesPart(refs: seq<BlobRef>, lo: int, hi: int, a: nat, b: nat)
    requires Tiles(refs, lo, hi) && a < b <= |refs|
    ensures Tiles(refs[a..b], refs[a].start, if b < |refs| then refs[b].start else hi)
  {
  }

  predicate Holds(r: BlobRef, off: int) { r.start <= off <= r.end }

  /** The first span that does not end before `off`. */
  function FirstEnd(refs: seq<BlobRef>, off: int): (i: nat)
    ensures i <= |refs| && (i < |refs| ==> refs[i].end >= off)
    ensures forall j | 0 <= j < i :: refs[j].end < off
  {
    if refs == [] || refs[0].end >= off then 0 else 1 + FirstEnd(refs[1..], off)
  }

  /** What `BlobRefs.Locate` gives. */
  function Locate(refs: seq<BlobRef>, off: int): Option<BlobRef> {
    var i := FirstEnd(refs, off);
    if off < 0 || i == |refs| || refs[i].start > off then None else Some(refs[i])
  }

  /** In a tiling, the blob found is the one that holds the offset, and there is one
      for each offset of the body. */
  lemma LocateIs(refs: seq<BlobRef>, lo: int, hi: int, off: int)
    requires Tiles(refs, lo, hi) && 0 <= off
    ensures Locate(refs, off).Some? <==> lo <= off < hi
    ensures forall r | r in refs && Holds(r, off) :: Locate(refs, off) == Some(r)
    ensures Locate(refs, off).Some? ==> Locate(refs, off).value in refs && Holds(Locate(refs, off).value, off)
  {
    var i := FirstEnd(refs, off);
    if i < |refs| && i > 0 {
      assert refs[i - 1].end + 1 == refs[i].start;
    }
    forall r | r in refs && Holds(r, off) ensures Locate(refs, off) == Some(r) {
      var j :| 0 <= j < |refs| && refs[j] == r;
      if i < j {
        EndsRise(refs, lo, hi, i, j);
      }
      StartsAfter(refs, lo, hi, j);
    }
    if i < |refs| {
      StartsAfter(refs, lo, hi, i);
      EndsBefore(refs, lo, hi, i);
    }
  }

  lemma StartsAfter(refs: seq<BlobRef>, lo: int, hi: int, i: nat)
    requires Tiles(refs, lo, hi) && i < |refs|
    ensures lo <= refs[i].start
  {
    if i > 0 {
      EndsRise(refs, lo, hi, 0, i);
      assert refs[0].start <= refs[0].end;
    }
  }

  lemma EndsBefore(refs: seq<BlobRef>, lo: int, hi: int, i: nat)
    requires Tiles(refs, lo, hi) && i < |refs|
    ensures refs[i].end < hi
  {
    if i < |refs| - 1 {
      EndsRise(refs, lo, hi, i, |refs| - 1);
      assert refs[|refs| - 1].start <= refs[|refs| - 1].end;
    }
  }

  lemma FirstEndIs(refs: seq<BlobRef>, off: int, i: nat)
    requires i <= |refs| && (i < |refs| ==> refs[i].end >= off)
    requires forall j | 0 <= j < i :: refs[j].end < off
    ensures FirstEnd(refs, off) == i
  {
    var k := FirstEnd(refs, off);
    assert i < |refs| ==> refs[i].end >= off;
  }

  /** sort.Search for the first span that does not end before `off`. */
  method SearchEnd(refs: seq<BlobRef>, off: int, ghost lo: int, ghost hi: int) returns (i: nat)
    requires Tiles(refs, lo, hi)
    ensures i == FirstEnd(refs, off)
  {
    var a: nat, b: nat := 0, |refs|;
    while a < b
      invariant a <= b <= |refs|
      invariant forall j | 0 <= j < a :: refs[j].end < off
      invariant forall j | b <= j < |refs| :: refs[j].end >= off
    {
      var m := a + (b - a) / 2;
      if refs[m].end >= off {
        forall j | m < j < |refs| ensures refs[j].end >= off {
          EndsRise(refs, lo, hi, m, j);
        }
        b := m;
      } else {
        forall j | 0 <= j < m ensures refs[j].end < off {
          EndsRise(refs, lo, hi, j, m);
        }
        a := m + 1;
      }
    }
    i := a;
    FirstEndIs(refs, off, i);
  }

  /** `BlobRefs.Locate`: in a tiling, by binary search. */
  method LocateFlat(refs: seq<BlobRef>, off: int, ghost lo: int, ghost hi: int) returns (r: Option<BlobRef>)
    requires Tiles(refs, lo, hi)
    ensures r == Locate(refs, off)
    ensures off >= 0 ==> (r.Some? <==> lo <= off < hi) && (r.Some? ==> r.value in refs && Holds(r.value, off))
  {
    var i := SearchEnd(refs, off, lo, hi);
    r := if off < 0 || i == |refs| || refs[i].start > off then None else Some(refs[i]);
    if off >= 0 {
      LocateIs(refs, lo, hi, off);
    }
  }

  // ---------------------------------------------------------------------------
  // Extents.

  function Entries(refs: seq<BlobRef>): (es: seq<Entry>)
    ensures |es| == |refs| && forall i | 0 <= i < |refs| :: es[i] == Entry(refs[i].digest, refs[i].start)
  {
    seq(|refs|, i requires 0 <= i < |refs| => Entry(refs[i].digest, refs[i].start))
  }

  /** Where entry `i` of an extent that ends at `end` runs to. */
  function NextOffset(es: seq<Entry>, end: int, i: nat): int
    requires i < |es|
  {
    if i + 1 < |es| then es[i + 1].offset else end
  }

  predicate EntryOk(es: seq<Entry>, end: int, i: nat)
    requires i < |es|
  {
    NextOffset(es, end, i) > es[i].offset && es[i].digest != 0
  }

  /** `extentRefs`: the spans of an extent's entries over [start, end), if they start at
      start, increase, and end before end. */
  function ExtentRefs(es: seq<Entry>, start: int, end: int): Option<seq<BlobRef>> {
    if es == [] || es[0].offset != start || !(forall i: nat | i < |es| :: EntryOk(es, end, i)) then None
    else Some(seq(|es|, i requires 0 <= i < |es| => BlobRef(es[i].digest, es[i].offset, NextOffset(es, end, i) - 1)))
  }

  /** Whatever entries load, their spans tile the extent. */
  lemma LoadTiles(es: seq<Entry>, start: int, end: int)
    requires ExtentRefs(es, start, end).Some?
    ensures ExtentRefs(es, start, end).value != [] && Tiles(ExtentRefs(es, start, end).value, start, end)
  {
    var r := ExtentRefs(es, start, end).value;
    forall i | 0 <= i < |r| ensures r[i].start <= r[i].end && r[i].digest != 0 {
      assert EntryOk(es, end, i);
    }
  }

  /** The entries of a tiling load as the tiling. */
  lemma EntriesLoad(refs: seq<BlobRef>, lo: int, hi: int)
    requires Tiles(refs, lo, hi) && refs != []
    ensures ExtentRefs(Entries(refs), lo, hi) == Some(refs)
  {
    var es := Entries(refs);
    forall i: nat | i < |es| ensures EntryOk(es, hi, i) && NextOffset(es, hi, i) == refs[i].end + 1 {
      if i + 1 < |es| {
        assert refs[i].end + 1 == refs[i + 1].start;
      }
    }
    assert ExtentRefs(es, lo, hi).value == refs;
  }

  /** The loop of `extentRefs`. */
  method LoadExtent(es: seq<Entry>, start: int, end: int) returns (r: Option<seq<BlobRef>>)
    ensures r == ExtentRefs(es, start, end)
  {
    if |es| == 0 || es[0].offset != start {
      return None;
    }
    var refs: seq<BlobRef> := [];
    for i := 0 to |es|
      invariant |refs| == i && forall j: nat | j < i :: EntryOk(es, end, j)
      invariant forall j: nat | j < i :: refs[j] == BlobRef(es[j].digest, es[j].offset, NextOffset(es, end, j) - 1)
    {
      var next := if i + 1 < |es| then es[i + 1].offset else end;
      if next <= es[i].offset || es[i].digest == 0 {
        assert !EntryOk(es, end, i);
        return None;
      }
      refs := refs + [BlobRef(es[i].digest, es[i].offset, next - 1)];
    }
    assert refs == ExtentRefs(es, start, end).value;
    r := Some(refs);
  }

  // ---------------------------------------------------------------------------
  // Stored lists.

  type Blocks = map<nat, seq<Entry>>

  /** Extent `i` starts after the one before it, or the head's last blob, and inside the
      body. */
  predicate RisesAt(list: BlobList, size: int, i: nat)
    requires list.head != [] && i < |list.extents|
  {
    (if i == 0 then list.head[|list.head| - 1].offset else list.extents[i - 1].offset) < list.extents[i].offset < size
  }

  /** What `check` can tell of a list without loading an extent. */
  predicate WellShaped(list: BlobList, size: int) {
    if size < 0 then false
    else if size == 0 then list.head == [] && list.extents == []
    else list.head != [] && forall i: nat | i < |list.extents| :: RisesAt(list, size, i)
  }

  function ExtentStart(list: BlobList, size: int, e: nat): int {
    if e == 0 then 0 else if e > |list.extents| then size else list.extents[e - 1].offset
  }

  /** The extent covering `off`: as many extents as start at or before it. */
  function ExtentFor(list: BlobList, off: int): (e: nat)
    ensures e <= |list.extents|
    ensures e < |list.extents| ==> list.extents[e].offset > off
    ensures forall i | 0 <= i < e :: list.extents[i].offset <= off
  {
    FirstAfter(list.extents, off)
  }

  function FirstAfter(xs: seq<ExtentRef>, off: int): (e: nat)
    ensures e <= |xs| && (e < |xs| ==> xs[e].offset > off)
    ensures forall i | 0 <= i < e :: xs[i].offset <= off
  {
    if xs == [] || xs[0].offset > off then 0 else 1 + FirstAfter(xs[1..], off)
  }

  lemma ExtentForIs(list: BlobList, off: int, e: nat)
    requires e <= |list.extents| && (e < |list.extents| ==> list.extents[e].offset > off)
    requires forall i | 0 <= i < e :: list.extents[i].offset <= off
    ensures ExtentFor(list, off) == e
  {
    var k := ExtentFor(list, off);
    assert e < |list.extents| ==> list.extents[e].offset > off;
  }

  /** What loading extent `e` gives. */
  function LoadOf(list: BlobList, size: int, blocks: Blocks, e: nat): Option<seq<BlobRef>>
    requires e <= |list.extents|
  {
    if e > 0 && list.extents[e - 1].link !in blocks then None
    else
      ExtentRefs(if e == 0 then list.head else blocks[list.extents[e - 1].link],
                 ExtentStart(list, size, e), ExtentStart(list, size, e + 1))
  }

  lemma RisesBelow(list: BlobList, size: int, i: nat)
    requires WellShaped(list, size) && size > 0 && i < |list.extents|
    ensures list.extents[i].offset < size
  {
    assert RisesAt(list, size, i);
  }

  lemma {:induction false} OffsetsRise(list: BlobList, size: int, i: nat, j: nat)
    requires WellShaped(list, size) && i < j < |list.extents|
    ensures list.extents[i].offset < list.extents[j].offset
    decreases j - i
  {
    assert RisesAt(list, size, i + 1);
    if i + 1 < j {
      OffsetsRise(list, size, i + 1, j);
    }
  }

  /** Offset `off` of a well-shaped list lies in the extent found for it. */
  lemma ExtentHolds(list: BlobList, size: int, off: int)
    requires WellShaped(list, size) && 0 <= off < size
    ensures var e := ExtentFor(list, off); ExtentStart(list, size, e) <= off < ExtentStart(list, size, e + 1)
  {
  }

  /** Any stored list: a lookup in range fails or gives a blob whose span holds the
      offset. */
  lemma AnyLookup(list: BlobList, size: int, blocks: Blocks, off: int)
    requires WellShaped(list, size) && 0 <= off < size
    ensures var r := LoadOf(list, size, blocks, ExtentFor(list, off));
            r.Some? ==> Locate(r.value, off).Some? && Holds(Locate(r.value, off).value, off)
  {
    var e := ExtentFor(list, off);
    if LoadOf(list, size, blocks, e).Some? {
      ExtentHolds(list, size, off);
      var lo, hi := ExtentStart(list, size, e), ExtentStart(list, size, e + 1);
      LoadTiles(if e == 0 then list.head else blocks[list.extents[e - 1].link], lo, hi);
      LocateIs(LoadOf(list, size, blocks, e).value, lo, hi, off);
    }
  }

  // ---------------------------------------------------------------------------
  // A list built from a flat one.

  /** The stored list cuts the first `n` of `refs` at `cuts`: the head and each extent
      hold the entries of one stretch, and each extent says where its stretch starts. */
  ghost predicate DescribesTo(list: BlobList, blocks: Blocks, refs: seq<BlobRef>, cuts: seq<nat>, n: nat) {
    && |cuts| == |list.extents| + 2 && cuts[0] == 0 && cuts[|cuts| - 1] == n <= |refs|
    && (forall e: nat | e + 1 < |cuts| :: Stretch(cuts, e, |refs|))
    && Stretch(cuts, 0, |refs|) && list.head == Entries(refs[..cuts[1]])
    && forall e: nat | e < |list.extents| :: ExtentIs(list, blocks, refs, cuts, e)
  }

  ghost predicate Describes(list: BlobList, blocks: Blocks, refs: seq<BlobRef>, cuts: seq<nat>) {
    DescribesTo(list, blocks, refs, cuts, |refs|)
  }

  /** Stretch `e` is not empty and ends by `n`. */
  predicate Stretch(cuts: seq<nat>, e: nat, n: nat)
    requires e + 1 < |cuts|
  {
    cuts[e] < cuts[e + 1] <= n
  }

  ghost predicate ExtentIs(list: BlobList, blocks: Blocks, refs: seq<BlobRef>, cuts: seq<nat>, e: nat)
    requires e < |list.extents| && |cuts| == |list.extents| + 2
  {
    var x := list.extents[e];
    && Stretch(cuts, e + 1, |refs|) && x.offset == refs[cuts[e + 1]].start
    && x.link in blocks && blocks[x.link] == Entries(refs[cuts[e + 1]..cuts[e + 2]])
  }

  lemma CutStart(list: BlobList, blocks: Blocks, refs: seq<BlobRef>, cuts: seq<nat>, e: nat)
    requires Describes(list, blocks, refs, cuts) && Tiles(refs, 0, Size(refs)) && e <= |list.extents| + 1
    ensures cuts[e] <= |refs|
    ensures ExtentStart(list, Size(refs), e) == if cuts[e] < |refs| then refs[cuts[e]].start else Size(refs)
  {
    if e <= |list.extents| {
      assert Stretch(cuts, e, |refs|);
      if e > 0 {
        assert ExtentIs(list, blocks, refs, cuts, e - 1);
      }
    }
  }

  /** Loading extent `e` of a built list gives its stretch of the flat list. */
  lemma BuiltLoads(list: BlobList, blocks: Blocks, refs: seq<BlobRef>, cuts: seq<nat>, e: nat)
    requires Describes(list, blocks, refs, cuts) && Tiles(refs, 0, Size(refs)) && e <= |list.extents|
    ensures cuts[e] < cuts[e + 1] <= |refs| && LoadOf(list, Size(refs), blocks, e) == Some(refs[cuts[e]..cuts[e + 1]])
  {
    assert Stretch(cuts, e, |refs|);
    var part := refs[cuts[e]..cuts[e + 1]];
    CutStart(list, blocks, refs, cuts, e);
    CutStart(list, blocks, refs, cuts, e + 1);
    TilesPart(refs, 0, Size(refs), cuts[e], cuts[e + 1]);
    EntriesLoad(part, ExtentStart(list, Size(refs), e), ExtentStart(list, Size(refs), e + 1));
    if e > 0 {
      assert ExtentIs(list, blocks, refs, cuts, e - 1);
    } else {
      assert refs[0..cuts[1]] == refs[..cuts[1]];
    }
  }

  lemma BuiltShape(list: BlobList, blocks: Blocks, refs: seq<BlobRef>, cuts: seq<nat>)
    requires Describes(list, blocks, refs, cuts) && Tiles(refs, 0, Size(refs))
    ensures WellShaped(list, Size(refs)) && Size(refs) > 0
  {
    assert Stretch(cuts, 0, |refs|);
    EndsBefore(refs, 0, Size(refs), 0);
    assert refs[0].start <= refs[0].end;
    forall i: nat | i < |list.extents|
      ensures RisesAt(list, Size(refs), i)
    {
      assert ExtentIs(list, blocks, refs, cuts, i) && Stretch(cuts, i, |refs|);
      var k := if i == 0 then cuts[1] - 1 else cuts[i];
      if i > 0 {
        assert ExtentIs(list, blocks, refs, cuts, i - 1);
      }
      EndsRise(refs, 0, Size(refs), k, cuts[i + 1]);
      EndsBefore(refs, 0, Size(refs), cuts[i + 1]);
    }
  }

  /** On a built list, a lookup finds what the flat list finds, at every offset. */
  lemma BuiltLocates(list: BlobList, blocks: Blocks, refs: seq<BlobRef>, cuts: seq<nat>, off: int)
    requires Describes(list, blocks, refs, cuts) && Tiles(refs, 0, Size(refs)) && 0 <= off < Size(refs)
    ensures var r := LoadOf(list, Size(refs), blocks, ExtentFor(list, off));
                r.Some? && Locate(r.value, off) == Locate(refs, off)
  {
    BuiltShape(list, blocks, refs, cuts);
    var e := ExtentFor(list, off);
    BuiltLoads(list, blocks, refs, cuts, e);
    AnyLookup(list, Size(refs), blocks, off);
    LocateIs(refs, 0, Size(refs), off);
    var r := Locate(refs[cuts[e]..cuts[e + 1]], off).value;
    ExtentHolds(list, Size(refs), off);
    CutStart(list, blocks, refs, cuts, e);
    CutStart(list, blocks, refs, cuts, e + 1);
    TilesPart(refs, 0, Size(refs), cuts[e], cuts[e + 1]);
    LocateIs(refs[cuts[e]..cuts[e + 1]], ExtentStart(list, Size(refs), e), ExtentStart(list, Size(refs), e + 1), off);
    assert r in refs;
  }

  /** The blobs of extents `a` to `e - 1`, loaded one after another. */
  function Loaded(list: BlobList, size: int, blocks: Blocks, a: nat, e: nat): Option<seq<BlobRef>>
    requires e <= |list.extents| + 1
  {
    if e <= a then Some([])
    else
      match (Loaded(list, size, blocks, a, e - 1), LoadOf(list, size, blocks, e - 1))
      case (Some(before), Some(last)) => Some(before + last)
      case _ => None
  }

  lemma {:induction false} LoadedFails(list: BlobList, size: int, blocks: Blocks, a: nat, e: nat, n: nat)
    requires e <= n <= |list.extents| + 1 && Loaded(list, size, blocks, a, e).None?
    ensures Loaded(list, size, blocks, a, n).None?
    decreases n
  {
    if e < n {
      LoadedFails(list, size, blocks, a, e, n - 1);
    }
  }

  /** Every extent of a built list, one after another, is the flat list. */
  lemma {:induction false} BuiltLoaded(list: BlobList, blocks: Blocks, refs: seq<BlobRef>, cuts: seq<nat>, e: nat)
    requires Describes(list, blocks, refs, cuts) && Tiles(refs, 0, Size(refs)) && e <= |list.extents| + 1
    ensures cuts[e] <= |refs| && Loaded(list, Size(refs), blocks, 0, e) == Some(refs[..cuts[e]])
    decreases e
  {
    if e > 0 {
      BuiltLoaded(list, blocks, refs, cuts, e - 1);
      BuiltLoads(list, blocks, refs, cuts, e - 1);
      assert refs[..cuts[e - 1]] + refs[cuts[e - 1]..cuts[e]] == refs[..cuts[e]];
    }
  }

  lemma TilesJoin(a: seq<BlobRef>, b: seq<BlobRef>, lo: int, mid: int, hi: int)
    requires Tiles(a, lo, mid) && Tiles(b, mid, hi) && b != []
    ensures Tiles(a + b, lo, hi) && Size(a + b) == hi
  {
    var c := a + b;
    forall i | 0 <= i < |c| - 1 ensures c[i].end + 1 == c[i + 1].start {
      if i + 1 < |a| {
        assert a[i].end + 1 == a[i + 1].start;
      } else if i + 1 > |a| {
        assert b[i - |a|].end + 1 == b[i - |a| + 1].start;
      }
    }
  }

  /** Extents that load tile what they cover. */
  lemma {:induction false} LoadedTiles(list: BlobList, size: int, blocks: Blocks, a: nat, e: nat)
    requires a <= e <= |list.extents| + 1 && Loaded(list, size, blocks, a, e).Some?
    ensures Tiles(Loaded(list, size, blocks, a, e).value, ExtentStart(list, size, a), ExtentStart(list, size, e))
    ensures a < e ==> Size(Loaded(list, size, blocks, a, e).value) == ExtentStart(list, size, e)
    decreases e
  {
    if a < e {
      LoadedTiles(list, size, blocks, a, e - 1);
      var last := LoadOf(list, size, blocks, e - 1).value;
      var lo, mid, hi := ExtentStart(list, size, a), ExtentStart(list, size, e - 1), ExtentStart(list, size, e);
      LoadTiles(if e == 1 then list.head else blocks[list.extents[e - 2].link], mid, hi);
      TilesJoin(Loaded(list, size, blocks, a, e - 1).value, last, lo, mid, hi);
    }
  }

  /** Where an extent starts is an offset that extent is found for. */
  lemma StartFinds(list: BlobList, size: int, e: nat)
    requires WellShaped(list, size) && size > 0 && 0 < e <= |list.extents|
    ensures ExtentFor(list, ExtentStart(list, size, e)) == e
  {
    var k := ExtentFor(list, ExtentStart(list, size, e));
    if k < e - 1 {
      OffsetsRise(list, size, k, e - 1);
    } else if k > e {
      OffsetsRise(list, size, e - 1, e);
    }
  }

  /** What reading a stored list whole gives: from the extent that covers offset 0 to
      the end. */
  function ReadOf(list: BlobList, size: int, blocks: Blocks): Option<seq<BlobRef>> {
    if size <= 0 then Some([])
    else if !WellShaped(list, size) then None
    else Loaded(list, size, blocks, ExtentFor(list, 0), |list.extents| + 1)
  }

  lemma {:induction false} HeadRises(es: seq<Entry>, end: int, i: nat)
    requires i < |es| && es[0].offset == 0 && forall k: nat | k < |es| :: EntryOk(es, end, k)
    ensures es[i].offset >= 0
  {
    if i > 0 {
      HeadRises(es, end, i - 1);
      assert EntryOk(es, end, i - 1);
    }
  }

  /** Offset 0 is the head's, if the head loads. */
  lemma HeadCoversZero(list: BlobList, size: int, blocks: Blocks)
    requires WellShaped(list, size) && size > 0 && LoadOf(list, size, blocks, 0).Some?
    ensures ExtentFor(list, 0) == 0
  {
    HeadRises(list.head, ExtentStart(list, size, 1), |list.head| - 1);
    assert |list.extents| > 0 ==> RisesAt(list, size, 0);
  }

  /** A body read whole from any stored list: its blobs tile the body, from offset 0 if
      the head loads. */
  lemma AnyRead(list: BlobList, size: int, blocks: Blocks)
    requires size > 0 && ReadOf(list, size, blocks).Some?
    ensures var first := ExtentStart(list, size, ExtentFor(list, 0));
            first <= 0 && Tiles(ReadOf(list, size, blocks).value, first, size)
    ensures LoadOf(list, size, blocks, 0).Some? ==> Tiles(ReadOf(list, size, blocks).value, 0, size)
  {
    LoadedTiles(list, size, blocks, ExtentFor(list, 0), |list.extents| + 1);
    ExtentHolds(list, size, 0);
    if LoadOf(list, size, blocks, 0).Some? {
      HeadCoversZero(list, size, blocks);
    }
  }

  /** Reading a built list whole gives back the flat list. */
  lemma ReadsBack(list: BlobList, blocks: Blocks, refs: seq<BlobRef>, cuts: seq<nat>)
    requires Describes(list, blocks, refs, cuts) && Tiles(refs, 0, Size(refs))
    ensures ReadOf(list, Size(refs), blocks) == Some(refs)
  {
    BuiltShape(list, blocks, refs, cuts);
    BuiltLoads(list, blocks, refs, cuts, 0);
    HeadCoversZero(list, Size(refs), blocks);
    BuiltLoaded(list, blocks, refs, cuts, |list.extents| + 1);
    assert refs[..|refs|] == refs;
  }
}
