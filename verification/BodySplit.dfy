/** Readers that give their bytes in pieces of any size. */
module Streams {
  import opened Bytes

  /** What a read reports along with its bytes: nothing, the end, or a failure. */
  datatype End = More | AtEnd | Broke

  /** What a reader decides at one read: the most bytes it gives, and whether it reports
      its end along with its last byte, or at it. */
  datatype Turn = Turn(most: nat, tells: bool)

  /** A turn that can give nothing and report nothing. */
  predicate Idle(t: Turn) { t.most == 0 || !t.tells }

  predicate AllIdle(turns: seq<Turn>, a: nat, b: nat) {
    a <= b <= |turns| && forall i | a <= i < b :: Idle(turns[i])
  }

  predicate StallsAt(turns: seq<Turn>, a: nat) { AllIdle(turns, a, a + 100) }

  /** A hundred reads in a row may come to nothing. */
  ghost predicate Stalls(turns: seq<Turn>) { exists a: nat :: StallsAt(turns, a) }

  function Min(a: int, b: int): int { if a <= b then a else b }

  class Source {
    const data: seq<byte>
    const breaks: bool
    const turns: seq<Turn>
    var pos: nat
    var turn: nat

    constructor (data: seq<byte>, breaks: bool, turns: seq<Turn>)
      ensures Valid() && pos == 0 && this.data == data && this.breaks == breaks && this.turns == turns
    {
      this.data, this.breaks, this.turns, pos, turn := data, breaks, turns, 0, 0;
    }

    predicate Valid()
      reads this
    {
      pos <= |data| && turn <= |turns|
    }

    /** Read: up to `max` bytes. Past its turns, a source gives all it is asked for. */
    method Read(max: nat) returns (bytes: seq<byte>, end: End)
      requires Valid()
      modifies this
      ensures Valid() && turn == (if old(turn) < |turns| then old(turn) + 1 else |turns|)
      ensures pos == old(pos) + |bytes| && |bytes| <= max && bytes == data[old(pos)..pos]
      ensures end != More ==> pos == |data| && (end == Broke <==> breaks)
      ensures max > 0 && bytes == [] && end == More ==> old(turn) < |turns| && Idle(turns[old(turn)])
    {
      var t := if turn < |turns| then turns[turn] else Turn(max, true);
      var n := Min(t.most, Min(max, |data| - pos));
      bytes := data[pos..pos + n];
      pos := pos + n;
      end := if pos < |data| || !t.tells then More else if breaks then Broke else AtEnd;
      turn := Min(turn + 1, |turns|);
    }
  }
}

/** Splitting a body into blobs, with and without its length declared. */
module BodySplit {
  import opened Bytes
  import opened BlobLists
  import opened Seal
  import opened Streams

  type Blob = seq<byte>

  /** The blobs' digests: none is 0, and equal digests mean equal bytes. */
  ghost predicate Naming(name: Blob -> nat) {
    (forall b :: name(b) != 0) && forall a, b :: name(a) == name(b) ==> a == b
  }

  /** The blobs of a body from `at` on: `max` bytes each, the last one what is left. */
  function Split(data: seq<byte>, max: nat, name: Blob -> nat, at: nat): seq<BlobRef>
    requires max > 0 && at <= |data|
    decreases |data| - at
  {
    if at == |data| then []
    else
      var e := Min(at + max, |data|);
      [BlobRef(name(data[at..e]), at, e - 1)] + Split(data, max, name, e)
  }

  /** The split's spans follow one another to the body's end. */
  lemma {:induction false} SplitTiles(data: seq<byte>, max: nat, name: Blob -> nat, at: nat)
    requires max > 0 && at <= |data| && Naming(name)
    ensures Tiles(Split(data, max, name, at), at, |data|)
    decreases |data| - at
  {
    if at < |data| {
      var e := Min(at + max, |data|);
      SplitTiles(data, max, name, e);
      var rest, all := Split(data, max, name, e), Split(data, max, name, at);
      forall i | 0 <= i < |all| - 1 ensures all[i].end + 1 == all[i + 1].start {
        if i > 0 {
          assert rest[i - 1].end + 1 == rest[i].start;
        }
      }
    }
  }

  /** Every blob but the last has `max` bytes, and each is the body's bytes of its span. */
  lemma {:induction false} SplitBlob(data: seq<byte>, max: nat, name: Blob -> nat, at: nat, i: nat)
    requires max > 0 && at <= |data| && i < |Split(data, max, name, at)|
    ensures var r := Split(data, max, name, at)[i];
            && at <= r.start <= r.end < |data| && r.digest == name(data[r.start..r.end + 1])
            && r.end + 1 - r.start <= max && (r.end + 1 - r.start == max || r.end + 1 == |data|)
    decreases |data| - at
  {
    if i > 0 {
      SplitBlob(data, max, name, Min(at + max, |data|), i - 1);
    }
  }

  /** What the writer stored of the blobs `refs`. */
  ghost predicate Stored(store: map<nat, Blob>, data: seq<byte>, refs: seq<BlobRef>) {
    forall r | r in refs ::
      0 <= r.start <= r.end < |data| && r.digest in store && store[r.digest] == data[r.start..r.end + 1]
  }

  ghost predicate Names(store: map<nat, Blob>, name: Blob -> nat) { forall d | d in store :: name(store[d]) == d }

  /** `refs` and `store` are the split's up to `at`. */
  ghost predicate IsUpto(refs: seq<BlobRef>, store: map<nat, Blob>, data: seq<byte>, max: nat, name: Blob -> nat,
                         at: nat)
    requires max > 0 && at <= |data|
  {
    && refs + Split(data, max, name, at) == Split(data, max, name, 0)
    && Stored(store, data, refs) && Names(store, name)
  }

  /** IsUpto, kept closed. */
  ghost predicate Upto(refs: seq<BlobRef>, store: map<nat, Blob>, data: seq<byte>, max: nat, name: Blob -> nat, at: nat)
    requires max > 0
  {
    && at <= |data| && Size(refs) == at
    && forall key {:trigger Opened(key)} :: Opened(key) ==> IsUpto(refs, store, data, max, name, at)
  }

  lemma UptoStart(data: seq<byte>, max: nat, name: Blob -> nat)
    requires max > 0
    ensures Upto([], map[], data, max, name, 0)
  {
    assert [] + Split(data, max, name, 0) == Split(data, max, name, 0);
  }

  /** The next blob. */
  lemma StoredMore(store: map<nat, Blob>, data: seq<byte>, refs: seq<BlobRef>, name: Blob -> nat, a: nat, b: nat)
    requires Naming(name) && Names(store, name) && Stored(store, data, refs) && a < b <= |data|
    ensures var blob := data[a..b];
            && Stored(store[name(blob) := blob], data, refs + [BlobRef(name(blob), a, b - 1)])
            && Names(store[name(blob) := blob], name)
  {
  }

  lemma SplitNext(refs: seq<BlobRef>, data: seq<byte>, max: nat, name: Blob -> nat, a: nat, b: nat)
    requires max > 0 && a < b == Min(a + max, |data|)
    ensures refs + [BlobRef(name(data[a..b]), a, b - 1)] + Split(data, max, name, b) == refs + Split(data, max, name, a)
  {
    var r, rest := BlobRef(name(data[a..b]), a, b - 1), Split(data, max, name, b);
    assert refs + [r] + rest == refs + ([r] + rest);
  }

  lemma IsUptoNext(refs: seq<BlobRef>, store: map<nat, Blob>, data: seq<byte>, max: nat, name: Blob -> nat, a: nat,
                   b: nat)
    requires max > 0 && Naming(name) && a < b == Min(a + max, |data|) && IsUpto(refs, store, data, max, name, a)
    ensures var blob := data[a..b];
            IsUpto(refs + [BlobRef(name(blob), a, b - 1)], store[name(blob) := blob], data, max, name, b)
  {
    StoredMore(store, data, refs, name, a, b);
    SplitNext(refs, data, max, name, a, b);
  }

  lemma UptoNext(refs: seq<BlobRef>, store: map<nat, Blob>, data: seq<byte>, max: nat, name: Blob -> nat, a: nat,
                 b: nat, blob: Blob)
    returns (refs': seq<BlobRef>, store': map<nat, Blob>)
    requires max > 0 && Naming(name) && Upto(refs, store, data, max, name, a)
    requires a < b == Min(a + max, |data|) && blob == data[a..b]
    ensures refs' == refs + [BlobRef(name(blob), a, b - 1)] && store' == store[name(blob) := blob]
    ensures Upto(refs', store', data, max, name, b)
  {
    assert IsUpto(refs, store, data, max, name, a) by {
      assert Opened(0);
    }
    IsUptoNext(refs, store, data, max, name, a, b);
    refs', store' := refs + [BlobRef(name(blob), a, b - 1)], store[name(blob) := blob];
  }

  lemma UptoEnd(refs: seq<BlobRef>, store: map<nat, Blob>, data: seq<byte>, max: nat, name: Blob -> nat)
    requires max > 0 && Upto(refs, store, data, max, name, |data|)
    ensures refs == Split(data, max, name, 0) && Stored(store, data, refs) && Size(refs) == |data|
  {
    assert Opened(0);
  }

  /** `WriteBlob` over a limited reader: it takes the next `max` bytes, or what is left. */
  method WriteBlob(src: Source, max: nat) returns (blob: Blob, ok: bool)
    requires src.Valid() && max > 0
    modifies src
    ensures src.Valid() && src.pos == old(src.pos) + |blob| && blob == src.data[old(src.pos)..src.pos]
    ensures ok ==> src.pos == Min(old(src.pos) + max, |src.data|) && (|blob| < max ==> !src.breaks)
    ensures !ok ==> src.breaks && src.pos == |src.data|
  {
    blob, ok := [], true;
    var left: nat := max;
    while left > 0
      invariant src.Valid() && |blob| + left == max
      invariant src.pos == old(src.pos) + |blob| && blob == src.data[old(src.pos)..src.pos]
      decreases left, |src.turns| - src.turn
    {
      var bytes, end := src.Read(left);
      blob := blob + bytes;
      left := left - |bytes|;
      if end == AtEnd {
        return;
      }
      if end == Broke {
        return blob, false;
      }
    }
  }

  /** `SplitBody`: it fails exactly when the source does; else the blobs are the split,
      stored under their digests, and the hashes saw the whole body. */
  method SplitBody(src: Source, maxBlobSize: int, fallback: nat, name: Blob -> nat)
    returns (ok: bool, refs: seq<BlobRef>, store: map<nat, Blob>)
    requires src.Valid() && src.pos == 0 && fallback > 0 && Naming(name)
    modifies src
    ensures ok <==> !src.breaks
    ensures ok ==> src.pos == |src.data| && refs == Split(src.data, Max(maxBlobSize, fallback), name, 0)
    ensures ok ==> Stored(store, src.data, refs) && Size(refs) == |src.data|
  {
    var max := Max(maxBlobSize, fallback);
    refs, store, ok := [], map[], true;
    UptoStart(src.data, max, name);
    while true
      invariant src.Valid() && Upto(refs, store, src.data, max, name, src.pos)
      decreases |src.data| - src.pos
    {
      ghost var at := src.pos;
      var blob, read := WriteBlob(src, max);
      if !read {
        return false, refs, store;
      }
      if |blob| == 0 {
        break;
      }
      ghost var refs', store' := UptoNext(refs, store, src.data, max, name, at, src.pos, blob);
      store := store[name(blob) := blob];
      refs := refs + [BlobRef(name(blob), Size(refs), Size(refs) + |blob| - 1)];
      assert refs == refs' && store == store';
      if |blob| < max {
        break;
      }
    }
    UptoEnd(refs, store, src.data, max, name);
  }

  /** A size that is not positive stands for the default. */
  function Max(maxBlobSize: int, fallback: nat): (r: nat)
    requires fallback > 0
    ensures r > 0 && (maxBlobSize > 0 ==> r == maxBlobSize) && (maxBlobSize <= 0 ==> r == fallback)
  {
    if maxBlobSize <= 0 then fallback else maxBlobSize
  }

  // ---------------------------------------------------------------------------
  // A body of declared length.

  datatype Error = Short | Long | SourceFailed | NoProgress | NegativeSize

  datatype Reply = Continue | Finished | Failed(error: Error)

  /** expectEOF: a hundred tries at finding the end. */
  method ExpectEnd(src: Source) returns (r: Reply)
    requires src.Valid()
    modifies src
    ensures src.Valid() && r != Continue && src.turn >= old(src.turn)
    ensures r == Finished ==> src.pos == old(src.pos) == |src.data| && !src.breaks
    ensures r.Failed? ==> r.error == Long || r.error == SourceFailed || r.error == NoProgress
    ensures r == Failed(Long) ==> old(src.pos) < |src.data|
    ensures r == Failed(SourceFailed) ==> old(src.pos) == |src.data| && src.breaks
    ensures r == Failed(NoProgress) ==> Stalls(src.turns)
  {
    for i := 0 to 100
      invariant src.Valid() && src.pos == old(src.pos)
      invariant src.turn == old(src.turn) + i <= |src.turns|
      invariant AllIdle(src.turns, old(src.turn), old(src.turn) + i)
    {
      var bytes, end := src.Read(1);
      if |bytes| > 0 {
        return Failed(Long);
      }
      if end == AtEnd {
        return Finished;
      }
      if end == Broke {
        return Failed(SourceFailed);
      }
    }
    assert StallsAt(src.turns, old(src.turn));
    r := Failed(NoProgress);
  }

  /** A reader of exactly `remaining` bytes of `src`; the body's last blob's also checks
      that the source ends there. */
  class ExactReader {
    const src: Source
    const last: bool
    var remaining: nat
    var done: bool

    constructor (src: Source, n: nat, last: bool)
      ensures this.src == src && this.last == last && remaining == n && !done
    {
      this.src, this.last, remaining, done := src, last, n, false;
    }

    ghost predicate Valid()
      reads this, src
    {
      src.Valid() && (done ==> src.pos == |src.data| && !src.breaks)
    }

    method Read(max: nat) returns (bytes: seq<byte>, r: Reply)
      requires Valid() && max > 0
      modifies this, src
      ensures Valid() && src.turn >= old(src.turn)
      ensures r.Failed? || (src.pos == old(src.pos) + |bytes| && bytes == src.data[old(src.pos)..src.pos])
      ensures r.Failed? || remaining == old(remaining) - |bytes|
      ensures r == Continue ==> old(remaining) > 0 && (bytes == [] ==> src.turn > old(src.turn))
      ensures r == Finished ==> remaining == 0 && bytes == [] && (last ==> src.pos == |src.data| && !src.breaks)
      ensures r.Failed? ==> FailsBy(r.error, src, last, old(src.pos), old(remaining))
    {
      bytes := [];
      if remaining == 0 {
        if last && !done {
          r := ExpectEnd(src);
          if r.Failed? {
            return;
          }
          done := true;
        }
        return [], Finished;
      }
      var end;
      bytes, end := src.Read(Min(max, remaining));
      remaining := remaining - |bytes|;
      if end == AtEnd {
        if remaining > 0 {
          return bytes, Failed(Short);
        }
        done := true;
      } else if end == Broke {
        return bytes, Failed(SourceFailed);
      }
      r := Continue;
    }
  }

  /** Which errors a blob's reader gives with `remaining` bytes to come from `pos`. */
  ghost predicate FailsBy(error: Error, src: Source, last: bool, pos: nat, remaining: nat) {
    match error
    case Short => pos + remaining > |src.data| && !src.breaks
    case SourceFailed => pos + remaining >= |src.data| && src.breaks
    case Long => last && pos + remaining < |src.data|
    case NoProgress => last && pos + remaining <= |src.data| && Stalls(src.turns)
    case NegativeSize => false
  }

  /** `WriteSizedBlob`, as a writer that reads its reader to the end. */
  method WriteSizedBlob(er: ExactReader) returns (blob: Blob, r: Reply)
    requires er.Valid()
    modifies er, er.src
    ensures er.Valid() && r != Continue
    ensures r == Finished ==> er.remaining == 0 && |blob| == old(er.remaining)
    ensures r == Finished ==> er.src.pos == old(er.src.pos) + |blob| && blob == er.src.data[old(er.src.pos)..er.src.pos]
    ensures r == Finished && er.last ==> er.src.pos == |er.src.data| && !er.src.breaks
    ensures r.Failed? ==> FailsBy(r.error, er.src, er.last, old(er.src.pos), old(er.remaining))
  {
    blob := [];
    while true
      invariant er.Valid() && |blob| + er.remaining == old(er.remaining)
      invariant er.src.pos == old(er.src.pos) + |blob| && blob == er.src.data[old(er.src.pos)..er.src.pos]
      decreases er.remaining, |er.src.turns| - er.src.turn
    {
      var bytes;
      bytes, r := er.Read(if er.remaining > 0 then er.remaining else 1);
      if r != Continue {
        return;
      }
      blob := blob + bytes;
    }
  }

  /** The body's next `n` bytes as a blob. */
  method NextBlob(src: Source, n: nat, last: bool) returns (blob: Blob, r: Reply)
    requires src.Valid()
    modifies src
    ensures src.Valid() && r != Continue
    ensures r == Finished ==> |blob| == n && src.pos == old(src.pos) + n && blob == src.data[old(src.pos)..src.pos]
    ensures r == Finished && last ==> src.pos == |src.data| && !src.breaks
    ensures r.Failed? ==> FailsBy(r.error, src, last, old(src.pos), n)
  {
    var er := new ExactReader(src, n, last);
    blob, r := WriteSizedBlob(er);
  }

  datatype Verdict = Fits | Fails(error: Error)

  /** What a body of `n` bytes declared as `size` comes to, if its source makes progress. */
  function Expected(n: nat, breaks: bool, size: int): Verdict {
    if size < 0 then Fails(NegativeSize)
    else if n > size then Fails(Long)
    else if breaks then Fails(SourceFailed)
    else if n < size then Fails(Short)
    else Fits
  }

  /** `SplitSizedBody`: the verdict is the expected one, unless the source stalls where
      its end should be; and what fits has the blobs `SplitBody` gives. */
  method SplitSizedBody(src: Source, size: int, maxBlobSize: int, fallback: nat, name: Blob -> nat)
    returns (v: Verdict, refs: seq<BlobRef>, store: map<nat, Blob>)
    requires src.Valid() && src.pos == 0 && fallback > 0 && Naming(name)
    modifies src
    ensures
      || v == Expected(|src.data|, src.breaks, size)
      || (v == Fails(NoProgress) && Stalls(src.turns) && 0 <= size <= |src.data|)
    ensures v == Fits ==> src.pos == |src.data| && refs == Split(src.data, Max(maxBlobSize, fallback), name, 0)
    ensures v == Fits ==> Stored(store, src.data, refs) && Size(refs) == size
  {
    var max := Max(maxBlobSize, fallback);
    refs, store := [], map[];
    if size < 0 {
      return Fails(NegativeSize), refs, store;
    }
    var total := 0;
    UptoStart(src.data, max, name);
    while total < size
      invariant 0 <= total <= size && src.Valid() && src.pos == total
      invariant Upto(refs, store, src.data, max, name, total)
      invariant total == size > 0 ==> |src.data| == size && !src.breaks
      decreases size - total
    {
      var n := Min(max, size - total);
      var blob, r := NextBlob(src, n, total + n == size);
      if r.Failed? {
        return Fails(r.error), refs, store;
      }
      ghost var refs', store' := UptoNext(refs, store, src.data, max, name, total, total + n, blob);
      store := store[name(blob) := blob];
      refs := refs + [BlobRef(name(blob), Size(refs), Size(refs) + n - 1)];
      assert refs == refs' && store == store';
      total := Size(refs);
    }
    if size == 0 {
      var r := ExpectEnd(src);
      if r.Failed? {
        return Fails(r.error), refs, store;
      }
    }
    UptoEnd(refs, store, src.data, max, name);
    v := Fits;
  }
}
