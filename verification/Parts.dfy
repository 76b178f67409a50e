/** The whole journey: a body hashed in one pass and the same body hashed in parts,
    each at its own offset, and put together. */
module Parts {
  import opened Options
  import opened Bytes
  import opened Pow2
  import opened Seal
  import opened Blake3Spec
  import opened Dyadic
  import opened BlockList
  import opened HasherSpec
  import opened AssembleSpec
  import H = Hasher
  import A = Assemble
  import CL = ChunkLog

  function Joined(writes: seq<seq<byte>>): seq<byte> {
    if writes == [] then [] else Joined(writes[..|writes| - 1]) + writes[|writes| - 1]
  }

  /** The body of a list of parts, each a list of writes. */
  function Body(parts: seq<seq<seq<byte>>>): seq<byte> {
    if parts == [] then [] else Body(parts[..|parts| - 1]) + Joined(parts[|parts| - 1])
  }

  lemma {:induction false} JoinedGrows(writes: seq<seq<byte>>, i: nat)
    requires i <= |writes|
    ensures |Joined(writes[..i])| <= |Joined(writes)|
    decreases |writes| - i
  {
    if i < |writes| {
      JoinedGrows(writes, i + 1);
      assert writes[..i + 1][..i] == writes[..i];
    } else {
      assert writes[..i] == writes;
    }
  }

  /** The tree material of a body at its chunk log is one value. */
  lemma OneObject(a: Object, b: Object, body: seq<byte>, c: nat)
    requires IsObject(a, body, c) && IsObject(b, body, c)
    ensures a == b
  {
    if body != [] {
      var p, n := Piece(0, body), ChunkCount(|body|);
      forall k | 0 <= k < |a.blocks| ensures a.blocks[k] == b.blocks[k] {
        assert At(k, c) < n && a.blocks[k] == ObjectBlock(p, c, n, k);
      }
      assert a.blocks == b.blocks;
    }
  }

  /** One pass over a body, however it is cut into writes. */
  method OnePass(writes: seq<seq<byte>>) returns (o: Object)
    requires |Joined(writes)| < CL.INT64_LIMIT
    ensures IsObject(o, Joined(writes), CL.LogOf(|Joined(writes)|))
  {
    var h := new H.Hasher(0, None);
    for i := 0 to |writes|
      invariant fresh(h) && fresh(h.buf) && h.Valid() && !h.fixed && h.start == 0
      invariant h.written == Joined(writes[..i])
    {
      assert writes[..i + 1][..i] == writes[..i];
      JoinedGrows(writes, i + 1);
      h.Write(writes[i]);
    }
    assert writes[..|writes|] == writes;
    o := h.FinishObject();
  }

  /** One range from byte `start`, however it is cut into writes. */
  method OneRange(start: nat, writes: seq<seq<byte>>) returns (r: Range)
    requires |Joined(writes)| < CL.INT64_LIMIT
    ensures IsRange(r, Piece(start, Joined(writes)), CL.LogOf(|Joined(writes)|))
  {
    var h := new H.Hasher(start, None);
    for i := 0 to |writes|
      invariant fresh(h) && fresh(h.buf) && h.Valid() && !h.fixed && h.start == start
      invariant h.written == Joined(writes[..i])
    {
      assert writes[..i + 1][..i] == writes[..i];
      JoinedGrows(writes, i + 1);
      h.Write(writes[i]);
    }
    assert writes[..|writes|] == writes;
    r := h.FinishRange();
  }

  lemma {:induction false} BodyAt(parts: seq<seq<seq<byte>>>, i: nat)
    requires i < |parts|
    ensures |Body(parts[..i])| + |Joined(parts[i])| == |Body(parts[..i + 1])| <= |Body(parts)|
    ensures Body(parts)[|Body(parts[..i])|..|Body(parts[..i + 1])|] == Joined(parts[i])
    decreases |parts|
  {
    var n := |parts| - 1;
    assert parts[..i + 1][..i] == parts[..i];
    if i < n {
      BodyAt(parts[..n], i);
      assert parts[..n][..i] == parts[..i] && parts[..n][..i + 1] == parts[..i + 1];
    } else {
      assert parts[..i + 1] == parts;
    }
  }

  /** A range made with the default block rule is fine enough for its body. */
  lemma RangeFits(r: Range, body: seq<byte>, p: Piece, log: nat)
    requires |p.data| <= |body| < CL.INT64_LIMIT && p.End() <= |body| && p == Slice(body, p.start, p.End())
    requires IsRange(r, p, log) && log == CL.LogOf(|p.data|)
    ensures r.offset == p.start && r.size == |p.data| && IsRangeOf(r, body, CL.LogOf(|body|))
  {
    CL.LogMonotone(|p.data|, |body|);
    assert r.chunkLog == log && r.offset + r.size == p.End();
  }

  /** `ranges` are the first `i` parts, each at its own offset. */
  ghost predicate IsPartsTo(ranges: seq<Range>, parts: seq<seq<seq<byte>>>, i: nat)
    requires i <= |parts| && |Body(parts)| < CL.INT64_LIMIT
  {
    && |ranges| == i && Consecutive(ranges) && TotalSize(ranges) == |Body(parts[..i])|
    && (forall r | r in ranges :: IsRangeOf(r, Body(parts), CL.LogOf(|Body(parts)|)))
    && forall j | 0 <= j < i :: ranges[j].size == |Joined(parts[j])|
  }

  /** IsPartsTo, kept closed. */
  ghost predicate PartsTo(ranges: seq<Range>, parts: seq<seq<seq<byte>>>, i: nat)
    requires i <= |parts| && |Body(parts)| < CL.INT64_LIMIT
  {
    forall key {:trigger Opened(key)} :: Opened(key) ==> IsPartsTo(ranges, parts, i)
  }

  lemma PartOffset(ranges: seq<Range>, parts: seq<seq<seq<byte>>>, i: nat)
    requires i < |parts| && |Body(parts)| < CL.INT64_LIMIT && PartsTo(ranges, parts, i)
    ensures TotalSize(ranges) == |Body(parts[..i])| && |Joined(parts[i])| < CL.INT64_LIMIT
  {
    assert Opened(0);
    BodyAt(parts, i);
  }

  lemma PartsNext(ranges: seq<Range>, parts: seq<seq<seq<byte>>>, i: nat, r: Range) returns (more: seq<Range>)
    requires i < |parts| && |Body(parts)| < CL.INT64_LIMIT && PartsTo(ranges, parts, i)
    requires |Joined(parts[i])| < CL.INT64_LIMIT
    requires IsRange(r, Piece(TotalSize(ranges), Joined(parts[i])), CL.LogOf(|Joined(parts[i])|))
    ensures more == ranges + [r] && PartsTo(more, parts, i + 1)
  {
    assert IsPartsTo(ranges, parts, i) by {
      assert Opened(0);
    }
    PartRange(parts, i, r);
    PartsGrow(ranges, parts, i, r);
    more := ranges + [r];
  }

  lemma PartRange(parts: seq<seq<seq<byte>>>, i: nat, r: Range)
    requires i < |parts| && |Body(parts)| < CL.INT64_LIMIT && |Joined(parts[i])| < CL.INT64_LIMIT
    requires IsRange(r, Piece(|Body(parts[..i])|, Joined(parts[i])), CL.LogOf(|Joined(parts[i])|))
    ensures r.offset == |Body(parts[..i])| && r.size == |Joined(parts[i])|
    ensures IsRangeOf(r, Body(parts), CL.LogOf(|Body(parts)|))
  {
    PartSlice(parts, i);
    RangeFits(r, Body(parts), Piece(|Body(parts[..i])|, Joined(parts[i])), CL.LogOf(|Joined(parts[i])|));
  }

  lemma PartSlice(parts: seq<seq<seq<byte>>>, i: nat)
    requires i < |parts|
    ensures var p := Piece(|Body(parts[..i])|, Joined(parts[i]));
            p.End() <= |Body(parts)| && p == Slice(Body(parts), p.start, p.End())
  {
    BodyAt(parts, i);
  }

  lemma PartsGrow(ranges: seq<Range>, parts: seq<seq<seq<byte>>>, i: nat, r: Range)
    requires i < |parts| && |Body(parts)| < CL.INT64_LIMIT && IsPartsTo(ranges, parts, i)
    requires r.offset == |Body(parts[..i])| && r.size == |Joined(parts[i])|
    requires IsRangeOf(r, Body(parts), CL.LogOf(|Body(parts)|))
    ensures IsPartsTo(ranges + [r], parts, i + 1)
  {
    BodyAt(parts, i);
    ConsecutiveAdd(ranges, r);
  }

  /** Every part hashed at its own offset: the ranges are the body cut up. */
  method InParts(parts: seq<seq<seq<byte>>>) returns (ranges: seq<Range>)
    requires |Body(parts)| < CL.INT64_LIMIT
    ensures A.CutUp(ranges, Body(parts)) && TotalSize(ranges) == |Body(parts)|
    ensures |ranges| == |parts| && forall i | 0 <= i < |parts| :: ranges[i].size == |Joined(parts[i])|
  {
    ranges := [];
    for i := 0 to |parts|
      invariant PartsTo(ranges, parts, i)
    {
      PartOffset(ranges, parts, i);
      var r := OneRange(TotalSize(ranges), parts[i]);
      ghost var more := PartsNext(ranges, parts, i, r);
      ranges := ranges + [r];
      assert ranges == more;
    }
    assert Opened(0) && parts[..|parts|] == parts;
  }

  /** Assembling a body hashed in parts gives exactly what hashing it in one pass
      gives, whenever the code can finish from the parts. */
  method AssembleParts(parts: seq<seq<seq<byte>>>, writes: seq<seq<byte>>)
    returns (ranges: seq<Range>, o: Option<Object>, whole: Object)
    requires Body(parts) == Joined(writes) && |Body(parts)| < CL.INT64_LIMIT
    ensures |ranges| == |parts| && forall i | 0 <= i < |parts| :: ranges[i].size == |Joined(parts[i])|
    ensures whole.root == Root(Body(parts))
    ensures o == if A.Finishable(ranges, |Body(parts)|) then Some(whole) else None
  {
    ranges := InParts(parts);
    o := A.Assemble(ranges, Body(parts));
    whole := OnePass(writes);
    if o.Some? {
      OneObject(o.value, whole, Body(parts), CL.LogOf(|Body(parts)|));
    }
  }
}
