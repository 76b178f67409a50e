/** Building a body's stored blob list, and the index that reads it an extent at a time. */
module BlobIndex {
  import opened Options
  import opened BlobLists
  import opened Seal

  const MAX_EXTENT_REFS: nat := 8192

  function Capacity(headEntries: nat, extentEntries: nat): nat { headEntries + MAX_EXTENT_REFS * extentEntries }

  /** Contents have names of their own. */
  ghost predicate Injective(name: seq<Entry> -> nat) { forall a, b :: name(a) == name(b) ==> a == b }

  ghost predicate Named(blocks: Blocks, name: seq<Entry> -> nat) { forall l | l in blocks :: name(blocks[l]) == l }

  lemma AddExtent(list: BlobList, blocks: Blocks, refs: seq<BlobRef>, cuts: seq<nat>, i: nat, j: nat,
                  name: seq<Entry> -> nat)
    requires DescribesTo(list, blocks, refs, cuts, i) && i < j <= |refs| && Injective(name) && Named(blocks, name)
    ensures var es := Entries(refs[i..j]);
            var list' := list.(extents := list.extents + [ExtentRef(refs[i].start, name(es))]);
            DescribesTo(list', blocks[name(es) := es], refs, cuts + [j], j) && Named(blocks[name(es) := es], name)
  {
    var es := Entries(refs[i..j]);
    var list' := list.(extents := list.extents + [ExtentRef(refs[i].start, name(es))]);
    var cuts', blocks' := cuts + [j], blocks[name(es) := es];
    forall e: nat | e + 1 < |cuts'| ensures Stretch(cuts', e, |refs|) {
      assert e + 1 < |cuts| ==> Stretch(cuts, e, |refs|);
    }
    forall e: nat | e < |list'.extents| ensures ExtentIs(list', blocks', refs, cuts', e) {
      if e < |list.extents| {
        assert ExtentIs(list, blocks, refs, cuts, e);
        assert list'.extents[e] == list.extents[e];
      } else {
        assert Stretch(cuts', e + 1, |refs|);
      }
    }
  }

  lemma HeadDescribes(refs: seq<BlobRef>, head: nat)
    requires 0 < head <= |refs|
    ensures DescribesTo(BlobList(Entries(refs[..head]), []), map[], refs, [0, head], head)
  {
    assert Stretch([0, head], 0, |refs|);
  }

  /** The checks of `BuildBlobList`: contiguous from 0, no empty span, no missing digest. */
  method Contiguous(refs: seq<BlobRef>) returns (ok: bool)
    ensures ok <==> Tiles(refs, 0, Size(refs))
  {
    var next := 0;
    for i := 0 to |refs|
      invariant Tiles(refs[..i], 0, next)
    {
      if refs[i].digest == 0 || refs[i].start != next || refs[i].end < refs[i].start {
        BreaksAt(refs, i, next);
        return false;
      }
      TilesMore(refs, i, next);
      next := refs[i].end + 1;
    }
    assert refs[..|refs|] == refs;
    ok := true;
  }

  lemma BreaksAt(refs: seq<BlobRef>, i: nat, next: int)
    requires i < |refs| && Tiles(refs[..i], 0, next)
    requires refs[i].digest == 0 || refs[i].start != next || refs[i].end < refs[i].start
    ensures !Tiles(refs, 0, Size(refs))
  {
    if i > 0 {
      assert refs[..i][|refs[..i]| - 1] == refs[i - 1];
      assert refs[i - 1].end + 1 == refs[i - 1 + 1].start ==> refs[i].start == next;
    }
  }

  lemma TilesMore(refs: seq<BlobRef>, i: nat, next: int)
    requires i < |refs| && Tiles(refs[..i], 0, next)
    requires refs[i].digest != 0 && refs[i].start == next && refs[i].start <= refs[i].end
    ensures Tiles(refs[..i + 1], 0, refs[i].end + 1)
  {
    var t := refs[..i + 1];
    forall k | 0 <= k < |t| - 1 ensures t[k].end + 1 == t[k + 1].start {
      assert k + 1 < i ==> refs[..i][k].end + 1 == refs[..i][k + 1].start;
    }
    assert forall k | 0 <= k < i :: t[k] == refs[..i][k];
  }

  /** The list `BuildBlobList` stores for a contiguous flat list. */
  ghost predicate BuiltFor(list: BlobList, blocks: Blocks, refs: seq<BlobRef>) {
    && Tiles(refs, 0, Size(refs))
    && if refs == [] then list == BlobList([], []) else exists cuts :: Describes(list, blocks, refs, cuts)
  }

  /** `BuildBlobList`: it succeeds exactly on contiguous lists within capacity, and what
      it stores describes the list. */
  method BuildBlobList(refs: seq<BlobRef>, headEntries: nat, extentEntries: nat, name: seq<Entry> -> nat)
    returns (ok: bool, list: BlobList, blocks: Blocks)
    requires headEntries > 0 && extentEntries > 0 && Injective(name)
    ensures ok <==> |refs| <= Capacity(headEntries, extentEntries) && Tiles(refs, 0, Size(refs))
    ensures ok ==> BuiltFor(list, blocks, refs)
  {
    list, blocks := BlobList([], []), map[];
    if |refs| > headEntries + MAX_EXTENT_REFS * extentEntries {
      return false, list, blocks;
    }
    ok := Contiguous(refs);
    if !ok || |refs| == 0 {
      assert ok ==> Entries([]) == [];
      return;
    }
    var head := if |refs| < headEntries then |refs| else headEntries;
    list := BlobList(Entries(refs[..head]), []);
    ghost var cuts: seq<nat> := [0, head];
    HeadDescribes(refs, head);
    var i := head;
    while i < |refs|
      invariant 0 < i <= |refs| && DescribesTo(list, blocks, refs, cuts, i) && Named(blocks, name)
    {
      var j := if i + extentEntries < |refs| then i + extentEntries else |refs|;
      var es := Entries(refs[i..j]);
      AddExtent(list, blocks, refs, cuts, i, j, name);
      blocks := blocks[name(es) := es];
      list := list.(extents := list.extents + [ExtentRef(refs[i].start, name(es))]);
      cuts := cuts + [j];
      i := j;
    }
    assert Describes(list, blocks, refs, cuts);
  }

  function DigestsOf(refs: seq<BlobRef>): (ds: seq<nat>)
    ensures |ds| == |refs| && forall i | 0 <= i < |refs| :: ds[i] == refs[i].digest
  {
    seq(|refs|, i requires 0 <= i < |refs| => refs[i].digest)
  }

  /** What looking up an offset of a stored list gives. */
  function Found(list: BlobList, size: int, blocks: Blocks, off: int): Option<BlobRef> {
    if !WellShaped(list, size) || off < 0 || off >= size then None
    else match LoadOf(list, size, blocks, ExtentFor(list, off)) case None => None case Some(refs) => Locate(refs, off)
  }

  /** What reading a stored list's digests gives. */
  function DigestsRead(list: BlobList, size: int, blocks: Blocks): Option<seq<nat>> {
    if !WellShaped(list, size) then None
    else if size == 0 then Some([])
    else
      match Loaded(list, size, blocks, 0, |list.extents| + 1)
      case None => None
      case Some(all) => Some(DigestsOf(all))
  }

  /** The shape check's answer, once it is there, kept closed. */
  ghost predicate ShapeKnown(list: BlobList, size: int, checked: bool, shaped: bool) {
    forall key {:trigger Opened(key)} :: Opened(key) ==> (checked ==> shaped == WellShaped(list, size))
  }

  /** The cached extent, if there is one, kept closed. */
  ghost predicate ExtentKept(list: BlobList, size: int, blocks: Blocks, loaded: int, refs: seq<BlobRef>) {
    forall key {:trigger Opened(key)} :: Opened(key) ==>
      (loaded >= 0 ==> loaded <= |list.extents| && LoadOf(list, size, blocks, loaded) == Some(refs))
  }

  /** storedIndex: the list's shape is checked once, and the last extent loaded is kept. */
  class StoredIndex {
    const list: BlobList
    const size: int
    const blocks: Blocks
    var checked: bool
    var shaped: bool
    var loaded: int
    var refs: seq<BlobRef>

    ghost predicate Valid()
      reads this
    {
      ShapeKnown(list, size, checked, shaped) && ExtentKept(list, size, blocks, loaded, refs)
    }

    constructor (list: BlobList, size: int, blocks: Blocks)
      ensures Valid() && this.list == list && this.size == size && this.blocks == blocks
    {
      this.list, this.size, this.blocks := list, size, blocks;
      checked, shaped, loaded, refs := false, false, -1, [];
    }

    /** `check`. */
    method Check() returns (ok: bool)
      requires Valid()
      modifies this`checked, this`shaped
      ensures Valid() && ok == WellShaped(list, size)
    {
      if checked {
        assert Opened(0);
        return shaped;
      }
      checked := true;
      shaped := true;
      if size < 0 {
        shaped := false;
      } else if size == 0 {
        shaped := |list.head| == 0 && |list.extents| == 0;
      } else if |list.head| == 0 {
        shaped := false;
      } else {
        var prev := list.head[|list.head| - 1].offset;
        var i := 0;
        while i < |list.extents|
          invariant 0 <= i <= |list.extents|
          invariant prev == if i == 0 then list.head[|list.head| - 1].offset else list.extents[i - 1].offset
          invariant forall k: nat | k < i :: RisesAt(list, size, k)
        {
          assert RisesAt(list, size, i) <==> prev < list.extents[i].offset < size;
          if list.extents[i].offset <= prev || list.extents[i].offset >= size {
            shaped := false;
            return false;
          }
          prev := list.extents[i].offset;
          i := i + 1;
        }
      }
      ok := shaped;
    }

    /** `extentFor`, by binary search. */
    method SearchExtent(off: int) returns (e: nat)
      requires WellShaped(list, size)
      ensures e == ExtentFor(list, off)
    {
      var a: nat, b: nat := 0, |list.extents|;
      while a < b
        invariant a <= b <= |list.extents|
        invariant forall j | 0 <= j < a :: list.extents[j].offset <= off
        invariant forall j | b <= j < |list.extents| :: list.extents[j].offset > off
      {
        var m := a + (b - a) / 2;
        if list.extents[m].offset > off {
          forall j | m < j < |list.extents| ensures list.extents[j].offset > off {
            OffsetsRise(list, size, m, j);
          }
          b := m;
        } else {
          forall j | 0 <= j < m ensures list.extents[j].offset <= off {
            OffsetsRise(list, size, j, m);
          }
          a := m + 1;
        }
      }
      e := a;
      ExtentForIs(list, off, e);
    }

    /** `load`: the cached extent, or the one fetched and checked. */
    method Load(e: nat) returns (r: Option<seq<BlobRef>>)
      requires Valid() && e <= |list.extents|
      modifies this`loaded, this`refs
      ensures Valid() && r == LoadOf(list, size, blocks, e)
    {
      if e == loaded {
        assert Opened(0);
        return Some(refs);
      }
      var es := list.head;
      if e > 0 {
        if list.extents[e - 1].link !in blocks {
          return None;
        }
        es := blocks[list.extents[e - 1].link];
      }
      r := LoadExtent(es, ExtentStart(list, size, e), ExtentStart(list, size, e + 1));
      if r.Some? {
        loaded, refs := e, r.value;
      }
    }

    /** `Extent`. */
    method Extent(off: int) returns (r: Option<seq<BlobRef>>)
      requires Valid()
      modifies this
      ensures Valid()
      ensures r == if WellShaped(list, size) && 0 <= off < size
                   then LoadOf(list, size, blocks, ExtentFor(list, off)) else None
    {
      var ok := Check();
      if !ok || off < 0 || off >= size {
        return None;
      }
      var e := SearchExtent(off);
      r := Load(e);
    }

    /** `Locate`: on any stored list it fails or gives a blob whose span holds the
        offset. */
    method Find(off: int) returns (r: Option<BlobRef>)
      requires Valid()
      modifies this
      ensures Valid()
      ensures r.Some? ==> WellShaped(list, size) && 0 <= off < size && Holds(r.value, off)
      ensures r == Found(list, size, blocks, off)
    {
      var refs := Extent(off);
      if refs.None? {
        return None;
      }
      AnyLookup(list, size, blocks, off);
      ghost var e := ExtentFor(list, off);
      LoadTiles(if e == 0 then list.head else blocks[list.extents[e - 1].link], ExtentStart(list, size, e),
          ExtentStart(list, size, e + 1));
      r := LocateFlat(refs.value, off, ExtentStart(list, size, e), ExtentStart(list, size, e + 1));
    }

    /** `Digests`: every extent's, in order. */
    method Digests() returns (r: Option<seq<nat>>)
      requires Valid()
      modifies this
      ensures Valid()
      ensures r == DigestsRead(list, size, blocks)
    {
      var ok := Check();
      if !ok {
        return None;
      }
      var out: seq<nat> := [];
      var e := 0;
      ghost var all: seq<BlobRef> := [];
      while size > 0 && e <= |list.extents|
        invariant Valid() && 0 <= e <= |list.extents| + 1 && (size == 0 ==> out == [])
        invariant size > 0 ==> Loaded(list, size, blocks, 0, e) == Some(all) && out == DigestsOf(all)
      {
        var part := Load(e);
        if part.None? {
          LoadedFails(list, size, blocks, 0, e + 1, |list.extents| + 1);
          return None;
        }
        out := out + DigestsOf(part.value);
        all := all + part.value;
        e := e + 1;
      }
      r := Some(out);
    }
  }

  /** `ReadBlobRefs`, an extent at a time. */
  method ReadBlobRefs(x: StoredIndex) returns (r: Option<seq<BlobRef>>)
    requires x.Valid()
    modifies x
    ensures x.Valid() && r == ReadOf(x.list, x.size, x.blocks)
  {
    var out: seq<BlobRef>, off := [], 0;
    ghost var first := ExtentFor(x.list, 0);
    ghost var e := first;
    ghost var last: nat := |x.list.extents| + 1;
    while off < x.size
      invariant x.Valid() && first <= e <= last
      invariant e == first ==> off == 0 && out == []
      invariant e > first ==> off == ExtentStart(x.list, x.size, e)
      invariant e > first ==> WellShaped(x.list, x.size) && Loaded(x.list, x.size, x.blocks, first, e) == Some(out)
      decreases last - e
    {
      var ext := x.Extent(off);
      if !WellShaped(x.list, x.size) {
        return None;
      }
      if e > first {
        StartFinds(x.list, x.size, e);
      }
      if ext.None? {
        LoadedFails(x.list, x.size, x.blocks, first, e + 1, last);
        return None;
      }
      out := out + ext.value;
      e := e + 1;
      LoadedTiles(x.list, x.size, x.blocks, first, e);
      off := Size(out);
    }
    ReadEnds(x.list, x.size, x.blocks, first, e, out, off);
    r := Some(out);
  }

  /** No extent starts at the body's end. */
  lemma ReadEnds(list: BlobList, size: int, blocks: Blocks, first: nat, e: nat, out: seq<BlobRef>, off: int)
    requires first == ExtentFor(list, 0) && first <= e <= |list.extents| + 1 && off >= size
    requires e == first ==> off == 0 && out == []
    requires e > first ==> off == ExtentStart(list, size, e)
    requires e > first ==> WellShaped(list, size) && Loaded(list, size, blocks, first, e) == Some(out)
    ensures ReadOf(list, size, blocks) == Some(out)
  {
    if first < e <= |list.extents| && size > 0 {
      RisesBelow(list, size, e - 1);
    }
  }

  // ---------------------------------------------------------------------------
  // The stored index of a built list agrees with the flat list.

  /** At every offset, inside the body or not, the stored index locates what the flat
      list locates; its digests, and the list read back, are the flat list's. */
  lemma BuiltAgrees(list: BlobList, blocks: Blocks, refs: seq<BlobRef>, off: int)
    requires BuiltFor(list, blocks, refs)
    ensures Found(list, Size(refs), blocks, off) == Locate(refs, off)
    ensures DigestsRead(list, Size(refs), blocks) == Some(DigestsOf(refs))
    ensures ReadOf(list, Size(refs), blocks) == Some(refs)
  {
    if !(0 <= off < Size(refs)) {
      LocateOutside(refs, off);
    }
    if refs != [] {
      var cuts :| Describes(list, blocks, refs, cuts);
      BuiltShape(list, blocks, refs, cuts);
      ReadsBack(list, blocks, refs, cuts);
      BuiltLoads(list, blocks, refs, cuts, 0);
      HeadCoversZero(list, Size(refs), blocks);
      if 0 <= off < Size(refs) {
        BuiltLocates(list, blocks, refs, cuts, off);
      }
    }
  }

  lemma LocateOutside(refs: seq<BlobRef>, off: int)
    requires Tiles(refs, 0, Size(refs)) && !(0 <= off < Size(refs))
    ensures Locate(refs, off) == None
  {
    if off >= 0 {
      LocateIs(refs, 0, Size(refs), off);
    }
  }
}
