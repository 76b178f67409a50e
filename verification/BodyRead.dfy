/** Reading a stored body, or a range of it, a blob at a time. */
module BodyRead {
  import opened Options
  import opened Bytes
  import opened BlobLists
  import opened BlobIndex
  import opened Seal
  import opened Streams
  import opened BodySplit

  /** A stored body: its blob list, its extents, and the blobs that can be opened. */
  datatype Body = Body(list: BlobList, size: int, blocks: Blocks, store: map<nat, Blob>)

  /** The byte at `off`: the located blob's, if the blob opens and is that long. */
  function ByteAt(body: Body, off: int): Option<byte> {
    match Found(body.list, body.size, body.blocks, off)
    case None => None
    case Some(b) =>
      if b.digest !in body.store || !(b.start <= off < b.start + |body.store[b.digest]|) then None
      else Some(body.store[b.digest][off - b.start])
  }

  /** `bytes` are the body's from `pos` on. */
  predicate IsBytesFrom(body: Body, pos: int, bytes: seq<byte>) {
    forall i | pos <= i < pos + |bytes| :: ByteAt(body, i) == Some(bytes[i - pos])
  }

  /** IsBytesFrom, kept closed. */
  ghost predicate BytesFrom(body: Body, pos: int, bytes: seq<byte>) {
    forall key {:trigger Opened(key)} :: Opened(key) ==> IsBytesFrom(body, pos, bytes)
  }

  lemma BytesNone(body: Body, pos: int)
    ensures BytesFrom(body, pos, [])
  {
  }

  lemma BytesJoin(body: Body, pos: int, a: seq<byte>, b: seq<byte>)
    requires BytesFrom(body, pos, a) && BytesFrom(body, pos + |a|, b)
    ensures BytesFrom(body, pos, a + b)
  {
    assert Opened(0);
  }

  /** Every offset of a located blob's span, found from the offset on, is in that blob. */
  lemma FoundWhole(body: Body, off: int, k: int)
    requires Found(body.list, body.size, body.blocks, off).Some?
    requires off <= k <= Found(body.list, body.size, body.blocks, off).value.end
    ensures Found(body.list, body.size, body.blocks, k) == Found(body.list, body.size, body.blocks, off)
  {
    var e := ExtentFor(body.list, off);
    var b := Found(body.list, body.size, body.blocks, off).value;
    var lo, hi := ExtentStart(body.list, body.size, e), ExtentStart(body.list, body.size, e + 1);
    var refs := LoadOf(body.list, body.size, body.blocks, e).value;
    LoadTiles(if e == 0 then body.list.head else body.blocks[body.list.extents[e - 1].link], lo, hi);
    LocateIs(refs, lo, hi, off);
    var i :| 0 <= i < |refs| && refs[i] == b;
    EndsBefore(refs, lo, hi, i);
    FoundInside(body, off, k);
    LocateIs(refs, lo, hi, k);
  }

  /** An extent covers all the offsets to where the next one starts. */
  lemma FoundInside(body: Body, off: int, k: int)
    requires WellShaped(body.list, body.size)
    requires 0 <= off <= k < ExtentStart(body.list, body.size, ExtentFor(body.list, off) + 1) && off < body.size
    ensures ExtentFor(body.list, k) == ExtentFor(body.list, off) && k < body.size
  {
    var e := ExtentFor(body.list, off);
    if e < |body.list.extents| {
      RisesBelow(body.list, body.size, e);
    }
    ExtentForIs(body.list, k, e);
  }

  /** Bytes [a, b] of a blob, as far as it goes. */
  function Span(blob: Blob, a: nat, b: int): (r: Blob)
    requires a <= b + 1
    ensures |r| <= b + 1 - a
  {
    if a >= |blob| then [] else blob[a..Streams.Min(b + 1, |blob|)]
  }

  /** An open stream gives the bytes from `at` to `e` of the blob located at `at`, as far
      as that blob goes. */
  ghost predicate IsStream(body: Body, broken: set<nat>, at: int, e: int, data: Blob, breaks: bool) {
    var found := Found(body.list, body.size, body.blocks, at);
    && found.Some? && found.value.start <= at <= e <= found.value.end
    && found.value.digest in body.store && (breaks <==> found.value.digest in broken)
    && data == Span(body.store[found.value.digest], at - found.value.start, e - found.value.start)
  }

  /** IsStream, kept closed. */
  ghost predicate StreamOf(body: Body, broken: set<nat>, at: int, e: int, data: Blob, breaks: bool) {
    && at <= e && |data| <= e + 1 - at
    && forall key {:trigger Opened(key)} :: Opened(key) ==> IsStream(body, broken, at, e, data, breaks)
  }

  lemma StreamByte(body: Body, broken: set<nat>, at: int, e: int, data: Blob, breaks: bool, k: int)
    requires StreamOf(body, broken, at, e, data, breaks) && at <= k <= e
    ensures ByteAt(body, k) == if k - at < |data| then Some(data[k - at]) else None
    ensures var found := Found(body.list, body.size, body.blocks, k); found.Some? && found.value.digest in body.store
  {
    assert Opened(0);
    FoundWhole(body, at, k);
    var b := Found(body.list, body.size, body.blocks, at).value;
    assert Found(body.list, body.size, body.blocks, k) == Some(b);
  }

  lemma StreamBreaks(body: Body, broken: set<nat>, at: int, e: int, data: Blob, breaks: bool)
    requires StreamOf(body, broken, at, e, data, breaks)
    ensures breaks ==> BreaksAt(body, broken, at)
  {
    assert Opened(0);
  }

  /** What a stream has given are the body's bytes. */
  lemma StreamBytes(body: Body, broken: set<nat>, at: int, e: int, data: Blob, breaks: bool, a: nat, pos: int,
                    bytes: Blob)
    requires StreamOf(body, broken, at, e, data, breaks) && pos == at + a
    requires a + |bytes| <= |data| && bytes == data[a..a + |bytes|]
    ensures BytesFrom(body, pos, bytes)
  {
    forall i | pos <= i < pos + |bytes| ensures ByteAt(body, i) == Some(bytes[i - pos]) {
      StreamByte(body, broken, at, e, data, breaks, i);
    }
  }

  datatype Stop = AtBodyEnd | UnexpectedEnd | NotLocated | NotOpened | BlobBroke

  /** The blob located at `k` is one whose stream fails. */
  predicate BreaksAt(body: Body, broken: set<nat>, k: int) {
    var found := Found(body.list, body.size, body.blocks, k);
    found.Some? && found.value.digest in broken
  }

  /** What each reason to stop at `pos` says. */
  ghost predicate StopTrue(body: Body, broken: set<nat>, start: int, end: int, pos: int, s: Stop) {
    var found := Found(body.list, body.size, body.blocks, pos);
    match s
    case AtBodyEnd => pos == end + 1
    case UnexpectedEnd => pos <= end && found.Some? && found.value.digest in body.store && ByteAt(body, pos).None?
    case NotLocated => pos <= end && found.None?
    case NotOpened => pos <= end && found.Some? && found.value.digest !in body.store
    case BlobBroke => exists k: int :: start <= k <= end && BreaksAt(body, broken, k)
  }

  /** StopTrue, kept closed. */
  ghost predicate StopsAt(body: Body, broken: set<nat>, start: int, end: int, pos: int, s: Stop) {
    forall key {:trigger Opened(key)} :: Opened(key) ==> StopTrue(body, broken, start, end, pos, s)
  }

  lemma StreamShort(body: Body, broken: set<nat>, start: int, end: int, pos: int, at: int, e: int, data: Blob,
                    breaks: bool)
    requires StreamOf(body, broken, at, e, data, breaks) && pos == at + |data| <= e <= end
    ensures StopsAt(body, broken, start, end, pos, UnexpectedEnd)
  {
    StreamByte(body, broken, at, e, data, breaks, pos);
  }

  lemma StreamFails(body: Body, broken: set<nat>, start: int, end: int, pos: int, at: int, e: int, data: Blob)
    requires StreamOf(body, broken, at, e, data, true) && start <= at <= end
    ensures StopsAt(body, broken, start, end, pos, BlobBroke)
  {
    StreamBreaks(body, broken, at, e, data, true);
  }

  /** An open stream has given the bytes from `at` up to `pos`; kept closed. */
  ghost predicate Streaming(body: Body, broken: set<nat>, start: int, end: int, pos: int, at: int, e: int, data: Blob,
                            breaks: bool, read: nat) {
    forall key {:trigger Opened(key)} :: Opened(key) ==>
      start <= at && pos == at + read <= e <= end && StreamOf(body, broken, at, e, data, breaks)
  }

  lemma OpenStreaming(body: Body, broken: set<nat>, start: int, end: int, pos: int, at: int, e: int, data: Blob,
                      breaks: bool, read: nat)
    requires Streaming(body, broken, start, end, pos, at, e, data, breaks, read)
    ensures start <= at && pos == at + read <= e <= end && StreamOf(body, broken, at, e, data, breaks)
  {
    assert Opened(0);
  }

  lemma StillStreaming(body: Body, broken: set<nat>, start: int, end: int, pos: int, at: int, e: int, data: Blob,
                       breaks: bool, read: nat)
    requires StreamOf(body, broken, at, e, data, breaks) && start <= at && pos == at + read <= e <= end
    ensures Streaming(body, broken, start, end, pos, at, e, data, breaks, read)
  {
  }

  /** What a read from the open stream gives, and what it says of the body. */
  lemma NextRead(body: Body, broken: set<nat>, start: int, end: int, pos: int, at: int, e: int, data: Blob,
                 breaks: bool, read: nat, bytes: Blob, reported: End)
    returns (pos': int, read': nat)
    requires Streaming(body, broken, start, end, pos, at, e, data, breaks, read)
    requires read + |bytes| <= |data| && bytes == data[read..read + |bytes|]
    requires reported != More ==> read + |bytes| == |data| && (reported == Broke <==> breaks)
    ensures pos' == pos + |bytes| && read' == read + |bytes|
    ensures BytesFrom(body, pos, bytes) && pos' <= e + 1 <= end + 1 && start <= pos
    ensures pos' <= e ==> Streaming(body, broken, start, end, pos', at, e, data, breaks, read')
    ensures reported == Broke ==> StopsAt(body, broken, start, end, pos', BlobBroke)
    ensures reported == AtEnd && pos' <= e ==> StopsAt(body, broken, start, end, pos', UnexpectedEnd)
  {
    pos', read' := pos + |bytes|, read + |bytes|;
    OpenStreaming(body, broken, start, end, pos, at, e, data, breaks, read);
    StreamBytes(body, broken, at, e, data, breaks, read, pos, bytes);
    if pos' <= e {
      StillStreaming(body, broken, start, end, pos', at, e, data, breaks, read');
    }
    if reported == Broke {
      StreamFails(body, broken, start, end, pos', at, e, data);
    } else if reported == AtEnd && pos' <= e {
      StreamShort(body, broken, start, end, pos', at, e, data, breaks);
    }
  }

  /** Where nothing is located, or what is does not open, a read stops. */
  lemma CannotOpen(body: Body, broken: set<nat>, start: int, end: int, pos: int)
    requires pos <= end
    ensures var found := Found(body.list, body.size, body.blocks, pos);
            && (found.None? ==> StopsAt(body, broken, start, end, pos, NotLocated))
            && (found.Some? && found.value.digest !in body.store ==> StopsAt(body, broken, start, end, pos, NotOpened))
  {
  }

  /** Opening the blob located at `pos`. */
  lemma Opens(body: Body, broken: set<nat>, start: int, end: int, pos: int, b: BlobRef)
    requires Found(body.list, body.size, body.blocks, pos) == Some(b) && b.digest in body.store && start <= pos <= end
    ensures b.start <= pos <= Streams.Min(b.end, end)
    ensures var e := Streams.Min(b.end, end);
            Streaming(body, broken, start, end, pos, pos, e, Span(body.store[b.digest], pos - b.start, e - b.start),
                b.digest in broken, 0)
  {
    AnyLookup(body.list, body.size, body.blocks, pos);
  }

  /** blobBodyReader. `broken` are blobs whose streams fail; `turns` says how each stream
      that is opened gives its bytes. */
  class BodyReader {
    const body: Body
    const index: StoredIndex
    const broken: set<nat>
    const turns: nat -> seq<Turn>
    const start: int
    const end: int
    var pos: int
    var cur: Source?
    var curEnd: int
    var stop: Option<Stop>
    var streams: nat            // streams opened so far
    ghost var at: int           // where the open stream began

    ghost predicate Valid()
      reads this, index, cur
    {
      && index.Valid() && index.list == body.list && index.size == body.size && index.blocks == body.blocks
      && start <= pos <= end + 1
      && (cur != null ==>
            && cur.Valid() && pos <= curEnd
            && Streaming(body, broken, start, end, pos, at, curEnd, cur.data, cur.breaks, cur.pos))
      && (stop.Some? ==> StopsAt(body, broken, start, end, pos, stop.value))
    }

    constructor (body: Body, broken: set<nat>, turns: nat -> seq<Turn>, start: int, end: int)
      requires start <= end + 1
      ensures Valid() && pos == start && stop.None? && cur == null && fresh(index)
      ensures this.body == body && this.start == start && this.end == end && this.broken == broken
    {
      this.body, this.broken, this.turns, this.start, this.end := body, broken, turns, start, end;
      index := new StoredIndex(body.list, body.size, body.blocks);
      pos, cur, curEnd, stop, streams, at := start, null, 0, None, 0, 0;
    }

    /** The end of openCurrent: the located blob's stream. */
    method OpenBlob(b: BlobRef)
      requires Valid() && cur == null && stop.None? && pos <= end
      requires Found(body.list, body.size, body.blocks, pos) == Some(b) && b.digest in body.store
      modifies this`cur, this`curEnd, this`streams, this`at
      ensures Valid() && cur != null && fresh(cur) && at == pos
    {
      Opens(body, broken, start, end, pos, b);
      var e := Streams.Min(b.end, end);
      var data := Span(body.store[b.digest], pos - b.start, e - b.start);
      cur := new Source(data, b.digest in broken, turns(streams));
      curEnd, streams, at := e, streams + 1, pos;
    }

    /** openCurrent. */
    method OpenCurrent() returns (failed: Option<Stop>)
      requires Valid() && cur == null && stop.None? && pos <= end
      modifies this, index
      ensures Valid() && pos == old(pos) && stop.None?
      ensures failed.Some? ==> cur == null && StopsAt(body, broken, start, end, pos, failed.value)
      ensures failed.None? ==> cur != null && fresh(cur) && at == pos
    {
      CannotOpen(body, broken, start, end, pos);
      var b := index.Find(pos);
      if b.None? {
        return Some(NotLocated);
      }
      if b.value.digest !in body.store {
        return Some(NotOpened);
      }
      OpenBlob(b.value);
      failed := None;
    }

    /** The part of Read after the stream is open. */
    method Serve(len: nat) returns (bytes: seq<byte>)
      requires Valid() && cur != null && stop.None?
      modifies this`pos, this`cur, this`stop, cur
      ensures Valid() && (cur == null || cur == old(cur))
      ensures |bytes| <= len && pos == old(pos) + |bytes| && BytesFrom(body, old(pos), bytes)
      ensures len > 0 && bytes == [] && stop.None? ==> cur == old(cur) && old(cur.turn) < cur.turn
    {
      ghost var before, was, src := cur.pos, pos, cur;
      var reported;
      bytes, reported := cur.Read(Streams.Min(len, curEnd - pos + 1));
      ghost var now, read := NextRead(body, broken, start, end, was, at, curEnd, src.data, src.breaks, before, bytes,
          reported);
      pos := pos + |bytes|;
      assert pos == now && src.pos == read;
      if pos > curEnd {
        cur := null;
      }
      if reported == Broke {
        stop := Some(BlobBroke);
      } else if reported == AtEnd && pos <= curEnd {
        cur := null;
        stop := Some(UnexpectedEnd);
      }
    }

    /** Read: up to `len` bytes of the body, from one blob. */
    method Read(len: nat) returns (bytes: seq<byte>, r: Option<Stop>)
      requires Valid()
      modifies this, index, cur
      ensures Valid() && stop == r && (cur == null || cur == old(cur) || fresh(cur))
      ensures |bytes| <= len && pos == old(pos) + |bytes| && BytesFrom(body, old(pos), bytes)
      ensures old(stop).Some? ==> r == old(stop) && bytes == []
      ensures len > 0 && bytes == [] && r.None? ==> cur != null
      ensures len > 0 && bytes == [] && r.None? && old(cur) != null ==> cur == old(cur) && old(cur.turn) < cur.turn
    {
      bytes := [];
      if stop.Some? {
        return bytes, stop;
      }
      if pos > end {
        stop := Some(AtBodyEnd);
        return bytes, stop;
      }
      if cur == null {
        var failed := OpenCurrent();
        if failed.Some? {
          stop := failed;
          return bytes, stop;
        }
      }
      bytes := Serve(len);
      r := stop;
    }
  }
  /** A reader read to its end, or to where it stops, `lens` bytes asked for at a time: it
      always gets there, and it has then given the body's bytes from `start` on. */
  method ReadAll(body: Body, broken: set<nat>, turns: nat -> seq<Turn>, start: int, end: int, lens: nat -> nat)
    returns (bytes: seq<byte>, stop: Stop)
    requires start <= end + 1 && forall i :: lens(i) > 0
    ensures BytesFrom(body, start, bytes) && |bytes| <= end + 1 - start
    ensures StopsAt(body, broken, start, end, start + |bytes|, stop)
  {
    var br := new BodyReader(body, broken, turns, start, end);
    bytes := [];
    BytesNone(body, start);
    var k := 0;
    while true
      invariant br.Valid() && br.pos == start + |bytes| && BytesFrom(body, start, bytes) && br.stop.None?
      invariant br.body == body && br.broken == broken && br.start == start && br.end == end
      invariant fresh(br) && fresh(br.index) && (br.cur != null ==> fresh(br.cur))
      decreases end + 1 - br.pos, br.cur == null, if br.cur == null then 0 else |br.cur.turns| - br.cur.turn
    {
      var more, r := br.Read(lens(k));
      BytesJoin(body, start, bytes, more);
      bytes := bytes + more;
      k := k + 1;
      if r.Some? {
        return bytes, r.value;
      }
    }
  }

  /** Reading a range stops early exactly when one of its bytes cannot be had: no blob is
      located there, or the blob does not open, or it is short; or when the stream of a
      blob in the range fails. */
  lemma WhyStopped(body: Body, broken: set<nat>, start: int, end: int, bytes: seq<byte>, stop: Stop)
    requires start <= end + 1 && |bytes| <= end + 1 - start
    requires BytesFrom(body, start, bytes) && StopsAt(body, broken, start, end, start + |bytes|, stop)
    ensures stop == AtBodyEnd ==> |bytes| == end + 1 - start
    ensures stop == AtBodyEnd ==> forall i | start <= i <= end :: ByteAt(body, i).Some?
    ensures (forall i | start <= i <= end :: ByteAt(body, i).Some?) ==> stop == AtBodyEnd || stop == BlobBroke
    ensures stop == BlobBroke ==> exists k: int :: start <= k <= end && BreaksAt(body, broken, k)
    ensures stop == UnexpectedEnd ==> exists b: BlobRef :: IsShort(body, b) && Holds(b, start + |bytes|)
  {
    assert Opened(0);
    var p := start + |bytes|;
    if stop == AtBodyEnd {
      forall i | start <= i <= end ensures ByteAt(body, i).Some? {
        assert ByteAt(body, i) == Some(bytes[i - start]);
      }
    } else if stop != BlobBroke {
      assert ByteAt(body, p).None? && start <= p <= end;
      if stop == UnexpectedEnd {
        var b := Found(body.list, body.size, body.blocks, p).value;
        AnyLookup(body.list, body.size, body.blocks, p);
        assert IsShort(body, b) && Holds(b, p);
      }
    }
  }

  /** The blob is shorter than the span listed for it. */
  predicate IsShort(body: Body, b: BlobRef) { b.digest in body.store && |body.store[b.digest]| <= b.end - b.start }

  lemma ByteIs(data: seq<byte>, refs: seq<BlobRef>, body: Body, i: int)
    requires Tiles(refs, 0, |data|) && body.size == |data| && 0 <= i < |data|
    requires Stored(body.store, data, refs) && Found(body.list, body.size, body.blocks, i) == Locate(refs, i)
    ensures ByteAt(body, i) == Some(data[i])
  {
    LocateIs(refs, 0, |data|, i);
    var r := Locate(refs, i).value;
    assert body.store[r.digest] == data[r.start..r.end + 1];
  }

  lemma BodyAgrees(refs: seq<BlobRef>, body: Body, i: int)
    requires BuiltFor(body.list, body.blocks, refs) && Size(refs) == body.size
    ensures Found(body.list, body.size, body.blocks, i) == Locate(refs, i)
  {
    BuiltAgrees(body.list, body.blocks, refs, i);
  }

  /** A body split, listed and stored reads back byte for byte. */
  lemma ReadsBack(data: seq<byte>, max: nat, name: Blob -> nat, refs: seq<BlobRef>, body: Body, i: int)
    requires max > 0 && Naming(name) && refs == Split(data, max, name, 0) && Stored(body.store, data, refs)
    requires BuiltFor(body.list, body.blocks, refs) && body.size == |data| && 0 <= i < |data|
    ensures ByteAt(body, i) == Some(data[i])
  {
    SplitTiles(data, max, name, 0);
    BodyAgrees(refs, body, i);
    ByteIs(data, refs, body, i);
  }
}
