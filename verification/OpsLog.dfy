/** A file of length-prefixed records, whatever decodes their bodies: reading it to the
    first torn one. */
module OpsFraming {
  import opened Options
  import opened Bytes
  import opened Varint
  import opened Seal

  datatype OpRoot = OpRoot(bucket: seq<byte>, root: seq<byte>)

  const OP_REC_MAX_SIZE: nat := 0x10_0000

  type Decoder = seq<byte> -> Option<OpRoot>

  // ---------------------------------------------------------------------------
  // Big-endian numbers.

  function Power(k: nat): (p: nat)
    ensures p >= 1
  {
    if k == 0 then 1 else 256 * Power(k - 1)
  }

  /** `v` in `k` bytes, most significant first. */
  function BigEndian(v: nat, k: nat): (s: seq<byte>)
    ensures |s| == k
  {
    if k == 0 then [] else BigEndian(v / 256, k - 1) + [(v % 256) as byte]
  }

  function FromBigEndian(s: seq<byte>): nat {
    if s == [] then 0 else 256 * FromBigEndian(s[..|s| - 1]) + s[|s| - 1] as nat
  }

  lemma {:induction false} BigEndianBack(v: nat, k: nat)
    requires v < Power(k)
    ensures FromBigEndian(BigEndian(v, k)) == v
    decreases k
  {
    if k > 0 {
      BigEndianBack(v / 256, k - 1);
      var s := BigEndian(v, k);
      assert s[..k - 1] == BigEndian(v / 256, k - 1);
    }
  }

  lemma Powers()
    ensures Power(1) == 0x100 && Power(2) == 0x1_0000 && Power(4) == 0x1_0000_0000
    ensures Power(8) == 0x1_0000_0000_0000_0000
  {
    assert Power(2) == 256 * Power(1) && Power(4) == 256 * (256 * Power(2));
    assert Power(8) == 256 * (256 * (256 * (256 * Power(4))));
  }

  // ---------------------------------------------------------------------------
  // Reading a file of them.

  datatype Ops = Ops(read: seq<OpRoot>) | Broken

  /** The body of the record at `off`, by its length prefix. */
  datatype Framed = BodyAt(body: seq<byte>, next: nat) | Short

  function FrameAt(s: seq<byte>, off: nat): (r: Framed)
    requires off < |s|
    ensures r.BodyAt? ==> off < r.next <= |s|
  {
    if |s| - off < 4 then Short
    else
      var length := FromBigEndian(s[off..off + 4]);
      if length == 0 || length > OP_REC_MAX_SIZE || off + 4 + length > |s| then Short
      else BodyAt(s[off + 4..off + 4 + length], off + 4 + length)
  }

  /** One record at `off`. */
  datatype Found = Next(o: OpRoot, off: nat) | Torn | Bad

  function RecordAt(s: seq<byte>, off: nat, decode: Decoder): (r: Found)
    requires off < |s|
    ensures r.Next? ==> off < r.off <= |s|
  {
    match FrameAt(s, off)
    case Short => Torn
    case BodyAt(body, next) =>
      match decode(body)
      case None => Bad
      case Some(o) => Next(o, next)
  }

  function Also(o: OpRoot, r: Ops): Ops { if r.Ops? then Ops([o] + r.read) else r }

  function ReadFrom(s: seq<byte>, off: nat, decode: Decoder): Ops
    decreases |s| - off
  {
    if off >= |s| then Ops([])
    else
      match RecordAt(s, off, decode)
      case Next(o, next) => Also(o, ReadFrom(s, next, decode))
      case Torn => Ops([])
      case Bad => Broken
  }

  function Prepended(os: seq<OpRoot>, r: Ops): Ops { if r.Ops? then Ops(os + r.read) else r }

  lemma PrependedMore(os: seq<OpRoot>, o: OpRoot, r: Ops)
    ensures Prepended(os, Also(o, r)) == Prepended(os + [o], r)
  {
    if r.Ops? {
      assert os + ([o] + r.read) == os + [o] + r.read;
    }
  }

  /** `readAllOps`. */
  method ReadAllOps(data: seq<byte>, decode: Decoder) returns (r: Ops)
    ensures r == ReadFrom(data, 0, decode)
  {
    var out: seq<OpRoot>, off := [], 0;
    while off < |data|
      invariant 0 <= off <= |data| && ReadFrom(data, 0, decode) == Prepended(out, ReadFrom(data, off, decode))
      decreases |data| - off
    {
      var f := RecordAt(data, off, decode);
      if f.Torn? {
        break;
      }
      if f.Bad? {
        return Broken;
      }
      PrependedMore(out, f.o, ReadFrom(data, f.off, decode));
      out := out + [f.o];
      off := f.off;
    }
    r := Ops(out);
  }

  lemma FoundAs(pre: seq<byte>, e: seq<byte>, body: seq<byte>, rest: seq<byte>)
    requires |e| == 4 && FromBigEndian(e) == |body| && 0 < |body| <= OP_REC_MAX_SIZE
    ensures FrameAt(pre + (e + body + rest), |pre|) == BodyAt(body, |pre| + |e + body|)
  {
    Slices(pre, e, body, rest);
  }

  lemma Slices(pre: seq<byte>, e: seq<byte>, b: seq<byte>, rest: seq<byte>)
    ensures var s := pre + (e + b + rest);
            && s[|pre|..|pre| + |e|] == e && s[|pre| + |e|..|pre| + |e| + |b|] == b
  {
  }

  /** A record cut short reads as torn. */
  lemma TornAs(pre: seq<byte>, e: seq<byte>, body: seq<byte>, m: nat)
    requires |e| == 4 && FromBigEndian(e) == |body| && 0 < m < |e + body|
    ensures FrameAt(pre + (e + body)[..m], |pre|) == Short
  {
    if m >= 4 {
      assert (pre + (e + body)[..m])[|pre|..|pre| + 4] == e;
    }
  }

  /** Bytes `f` are framed as a body wherever they are whole, and short where cut. */
  ghost predicate IsFramed(f: seq<byte>, body: seq<byte>) {
    && f != []
    && (forall pre, rest :: WholeAt(pre, rest, f, body))
    && (forall pre, m :: CutAt(pre, m, f))
  }

  predicate WholeAt(pre: seq<byte>, rest: seq<byte>, f: seq<byte>, body: seq<byte>) {
    f != [] && FrameAt(pre + (f + rest), |pre|) == BodyAt(body, |pre| + |f|)
  }

  predicate CutAt(pre: seq<byte>, m: nat, f: seq<byte>) {
    0 < m < |f| ==> FrameAt(pre + f[..m], |pre|) == Short
  }

  /** `f` is the record `o`; kept closed. */
  ghost predicate ReadsAs(f: seq<byte>, o: OpRoot, decode: Decoder) {
    && f != []
    && forall key {:trigger Opened(key)} ::
         Opened(key) ==> exists body :: IsFramed(f, body) && decode(body) == Some(o)
  }

  lemma ReadsWhole(f: seq<byte>, o: OpRoot, decode: Decoder, pre: seq<byte>, rest: seq<byte>)
    requires ReadsAs(f, o, decode)
    ensures RecordAt(pre + (f + rest), |pre|, decode) == Next(o, |pre| + |f|)
  {
    assert Opened(0);
    var body :| IsFramed(f, body) && decode(body) == Some(o);
    assert WholeAt(pre, rest, f, body);
  }

  lemma ReadsTorn(f: seq<byte>, o: OpRoot, decode: Decoder, pre: seq<byte>, m: nat)
    requires ReadsAs(f, o, decode) && 0 < m < |f|
    ensures RecordAt(pre + f[..m], |pre|, decode) == Torn
  {
    assert Opened(0);
    var body :| IsFramed(f, body) && decode(body) == Some(o);
    assert CutAt(pre, m, f);
  }

  lemma FramedAs(e: seq<byte>, body: seq<byte>)
    requires |e| == 4 && FromBigEndian(e) == |body| && 0 < |body| <= OP_REC_MAX_SIZE
    ensures IsFramed(e + body, body)
  {
    forall pre, rest ensures WholeAt(pre, rest, e + body, body) {
      FoundAs(pre, e, body, rest);
    }
    forall pre, m: nat ensures CutAt(pre, m, e + body) {
      if 0 < m < |e + body| {
        TornAs(pre, e, body, m);
      }
    }
  }

  // ---------------------------------------------------------------------------
  // Cuts.

  function Concat(fs: seq<seq<byte>>): seq<byte> { if fs == [] then [] else fs[0] + Concat(fs[1..]) }

  /** How many of the pieces end at or before byte `n`. */
  function Whole(fs: seq<seq<byte>>, n: nat): (k: nat)
    ensures k <= |fs|
  {
    if fs == [] || |fs[0]| > n then 0 else 1 + Whole(fs[1..], n - |fs[0]|)
  }

  /** Reading the first `n` bytes of `rest` after `pre` gives `r`. */
  ghost predicate Gives(pre: seq<byte>, rest: seq<byte>, n: nat, decode: Decoder, r: Ops) {
    && n <= |rest|
    && forall key {:trigger Opened(key)} :: Opened(key) ==> ReadFrom(pre + rest[..n], |pre|, decode) == r
  }

  lemma OpenGives(pre: seq<byte>, rest: seq<byte>, n: nat, decode: Decoder, r: Ops)
    requires Gives(pre, rest, n, decode, r)
    ensures ReadFrom(pre + rest[..n], |pre|, decode) == r
  {
    assert Opened(0);
  }

  lemma GivesNothing(pre: seq<byte>, rest: seq<byte>, decode: Decoder)
    ensures Gives(pre, rest, 0, decode, Ops([]))
  {
    assert pre + rest[..0] == pre;
  }

  lemma GivesFirst(pre: seq<byte>, f: seq<byte>, o: OpRoot, rest: seq<byte>, n: nat, decode: Decoder, r: Ops)
    requires ReadsAs(f, o, decode) && Gives(pre + f, rest, n, decode, r)
    ensures Gives(pre, f + rest, |f| + n, decode, Also(o, r))
  {
    OpenGives(pre + f, rest, n, decode, r);
    CutAfter(pre, f, rest, n);
    ReadsWhole(f, o, decode, pre, rest[..n]);
  }

  lemma CutAfter(pre: seq<byte>, f: seq<byte>, rest: seq<byte>, n: nat)
    requires n <= |rest|
    ensures pre + (f + rest)[..|f| + n] == pre + (f + rest[..n]) == (pre + f) + rest[..n]
  {
  }

  lemma GivesTorn(pre: seq<byte>, f: seq<byte>, o: OpRoot, rest: seq<byte>, n: nat, decode: Decoder)
    requires ReadsAs(f, o, decode) && 0 < n < |f|
    ensures Gives(pre, f + rest, n, decode, Ops([]))
  {
    assert (f + rest)[..n] == f[..n];
    ReadsTorn(f, o, decode, pre, n);
  }

  /** At `f`, a read stops as at a torn record, wherever the file ends after that. */
  ghost predicate IsBlocking(f: seq<byte>) {
    f != [] && forall pre, rest, n :: BlocksAt(pre, f, rest, n)
  }

  predicate BlocksAt(pre: seq<byte>, f: seq<byte>, rest: seq<byte>, n: nat) {
    0 < n <= |f + rest| ==> FrameAt(pre + (f + rest)[..n], |pre|) == Short
  }

  /** IsBlocking, kept closed. */
  ghost predicate Blocks(f: seq<byte>) {
    f != [] && forall key {:trigger Opened(key)} :: Opened(key) ==> IsBlocking(f)
  }

  /** A length over what a reader takes blocks it. */
  lemma OversizeBlocks(e: seq<byte>, body: seq<byte>)
    requires |e| == 4 && FromBigEndian(e) > OP_REC_MAX_SIZE
    ensures Blocks(e + body)
  {
    forall pre, rest, n: nat ensures BlocksAt(pre, e + body, rest, n) {
      if 4 <= n <= |e + body + rest| {
        assert (pre + (e + body + rest)[..n])[|pre|..|pre| + 4] == e;
      }
    }
  }

  lemma GivesBlocked(pre: seq<byte>, f: seq<byte>, rest: seq<byte>, n: nat, decode: Decoder)
    requires Blocks(f) && 0 < n <= |f + rest|
    ensures Gives(pre, f + rest, n, decode, Ops([]))
  {
    assert Opened(0);
    assert BlocksAt(pre, f, rest, n);
  }

  function Min(a: nat, b: nat): nat { if a < b then a else b }

  /** The first `k` pieces are records and the next, if there is one, blocks a read. */
  ghost predicate ReadsTo(fs: seq<seq<byte>>, os: seq<OpRoot>, k: nat, decode: Decoder) {
    && k <= |fs| == |os| && (forall i | 0 <= i < k :: ReadsAs(fs[i], os[i], decode))
    && (k < |fs| ==> Blocks(fs[k]))
  }

  /** Reading any cut of written pieces gives exactly the whole ones before the cut, up
      to one that blocks. */
  lemma {:induction false} ReadCut(pre: seq<byte>, fs: seq<seq<byte>>, os: seq<OpRoot>, k: nat, n: nat, decode: Decoder)
    returns (r: Ops)
    requires ReadsTo(fs, os, k, decode) && n <= |Concat(fs)|
    ensures Gives(pre, Concat(fs), n, decode, r) && r == Ops(os[..Min(k, Whole(fs, n))])
    decreases |fs|
  {
    if fs == [] || n == 0 {
      GivesNothing(pre, Concat(fs), decode);
      assert fs != [] ==> fs[0] != [];
      r := Ops([]);
    } else if k == 0 {
      GivesBlocked(pre, fs[0], Concat(fs[1..]), n, decode);
      r := Ops([]);
    } else if |fs[0]| <= n {
      r := ReadCut(pre + fs[0], fs[1..], os[1..], k - 1, n - |fs[0]|, decode);
      GivesFirst(pre, fs[0], os[0], Concat(fs[1..]), n - |fs[0]|, decode, r);
      r := Also(os[0], r);
      var m := Min(k, Whole(fs, n));
      assert [os[0]] + os[1..][..m - 1] == os[..m];
    } else {
      GivesTorn(pre, fs[0], os[0], Concat(fs[1..]), n, decode);
      r := Ops([]);
    }
  }

  /** The whole file holds every piece whole. */
  lemma {:induction false} WholeFile(fs: seq<seq<byte>>)
    ensures Whole(fs, |Concat(fs)|) == |fs|
    decreases |fs|
  {
    if fs != [] {
      WholeFile(fs[1..]);
    }
  }

  method ReadCutPieces(fs: seq<seq<byte>>, os: seq<OpRoot>, k: nat, n: nat, decode: Decoder) returns (r: Ops)
    requires ReadsTo(fs, os, k, decode) && n <= |Concat(fs)|
    ensures r == Ops(os[..Min(k, Whole(fs, n))])
  {
    r := ReadAllOps(Concat(fs)[..n], decode);
    ghost var answer := ReadCut([], fs, os, k, n, decode);
    OpenGives([], Concat(fs), n, decode, answer);
    assert [] + Concat(fs)[..n] == Concat(fs)[..n];
  }
}

/** The .ops sidecar: records of bucket-root advances, each a 4-byte length and a small
    CBOR array, and reading them back from a file that may end inside one. CBOR heads
    follow section 3 of RFC 8949. */
module OpsLog {
  import opened Options
  import opened Bytes
  import opened Varint
  import opened OpsFraming

  const MAX_BUCKET: nat := 0x1_0000

  // ---------------------------------------------------------------------------
  // CBOR heads.

  /** How many bytes follow the initial one for a value, and what the initial one says. */
  function Width(val: nat): nat {
    if val < 24 then 0
    else if val < 0x100 then 1
    else if val < 0x1_0000 then 2
    else if val < 0x1_0000_0000 then 4
    else 8
  }

  function Low(width: nat): nat { if width == 1 then 24 else if width == 2 then 25 else if width == 4 then 26 else 27 }

  /** `appendCborHead`. */
  function Head(maj: nat, val: nat): (s: seq<byte>)
    requires maj < 8
    ensures |s| == 1 + Width(val)
  {
    var w := Width(val);
    if w == 0 then [(32 * maj + val) as byte] else [(32 * maj + Low(w)) as byte] + BigEndian(val, w)
  }

  datatype ReadHead = HeadIs(maj: nat, val: nat, len: nat) | BadHead

  /** `readHead` at the start of `s`. */
  function HeadOf(s: seq<byte>): ReadHead {
    if s == [] then BadHead
    else
      var maj, low := s[0] as nat / 32, s[0] as nat % 32;
      if low < 24 then HeadIs(maj, low, 1)
      else
        var w := if low == 24 then 1 else if low == 25 then 2 else if low == 26 then 4 else 8;
        if low > 27 || 1 + w > |s| then BadHead else HeadIs(maj, FromBigEndian(s[1..1 + w]), 1 + w)
  }

  /** Reading a head gives back what it was made of, whatever follows. */
  lemma HeadBack(maj: nat, val: nat, tail: seq<byte>)
    requires maj < 8 && val < 0x1_0000_0000_0000_0000
    ensures HeadOf(Head(maj, val) + tail) == HeadIs(maj, val, |Head(maj, val)|)
  {
    var w := Width(val);
    if w > 0 {
      Powers();
      BigEndianBack(val, w);
      LongHead(maj, Low(w), BigEndian(val, w), tail);
    }
  }

  lemma LongHead(maj: nat, low: nat, payload: seq<byte>, tail: seq<byte>)
    requires maj < 8 && 24 <= low <= 27
    requires |payload| == if low == 24 then 1 else if low == 25 then 2 else if low == 26 then 4 else 8
    ensures HeadOf([(32 * maj + low) as byte] + payload + tail) == HeadIs(maj, FromBigEndian(payload), 1 + |payload|)
  {
    var s := [(32 * maj + low) as byte] + payload + tail;
    assert s[1..1 + |payload|] == payload;
  }

  // ---------------------------------------------------------------------------
  // Records.

  function Body(o: OpRoot): seq<byte> {
    Head(4, 2) + (Head(3, |o.bucket|) + (o.bucket + (Head(2, |o.root|) + o.root)))
  }

  /** The checks of `encodeOpRecord`. */
  predicate Encodable(o: OpRoot) { o.root != [] && |o.bucket| <= MAX_BUCKET }

  /** The file's bytes for one record. */
  function Record(o: OpRoot): seq<byte> { BigEndian(|Body(o)|, 4) + Body(o) }

  /** `encodeOpRecord`. */
  method EncodeOpRecord(o: OpRoot) returns (r: Option<seq<byte>>)
    ensures r == if Encodable(o) then Some(Record(o)) else None
  {
    if |o.root| == 0 || |o.bucket| > MAX_BUCKET {
      return None;
    }
    var body := Head(4, 2);
    body := body + Head(3, |o.bucket|);
    body := body + o.bucket;
    body := body + Head(2, |o.root|);
    body := body + o.root;
    Nest(Head(4, 2), Head(3, |o.bucket|), o.bucket, Head(2, |o.root|), o.root);
    r := Some(BigEndian(|body|, 4) + body);
  }

  lemma Nest(a: seq<byte>, b: seq<byte>, c: seq<byte>, d: seq<byte>, e: seq<byte>)
    ensures a + b + c + d + e == a + (b + (c + (d + e)))
  {
  }

  /** `decodeOpRecord`; `cast` is the identifier check. */
  function DecodeBody(s: seq<byte>, cast: seq<byte> -> bool): Option<OpRoot> {
    match HeadOf(s)
    case BadHead => None
    case HeadIs(m0, count, n0) =>
      if m0 != 4 || count != 2 then None
      else
        match HeadOf(s[n0..])
        case BadHead => None
        case HeadIs(m1, blen, n1) => if m1 != 3 then None else DecodeBucket(s[n0..][n1..], blen, cast)
  }

  function DecodeBucket(s: seq<byte>, blen: nat, cast: seq<byte> -> bool): Option<OpRoot> {
    if blen > |s| then None
    else
      match HeadOf(s[blen..])
      case BadHead => None
      case HeadIs(m, rlen, n) =>
        var rest := s[blen..][n..];
        if m != 2 || rlen > |rest| || !cast(rest[..rlen]) then None else Some(OpRoot(s[..blen], rest[..rlen]))
  }

  lemma BucketBack(o: OpRoot, cast: seq<byte> -> bool)
    requires |o.root| < 0x1_0000_0000_0000_0000 && cast(o.root)
    ensures DecodeBucket(o.bucket + (Head(2, |o.root|) + o.root), |o.bucket|, cast) == Some(o)
  {
    var s, h := o.bucket + (Head(2, |o.root|) + o.root), Head(2, |o.root|);
    assert s[..|o.bucket|] == o.bucket && s[|o.bucket|..] == h + o.root;
    HeadBack(2, |o.root|, o.root);
    assert (h + o.root)[|h|..] == o.root && o.root[..|o.root|] == o.root;
  }

  /** A record's body decodes to the record. */
  lemma BodyBack(o: OpRoot, cast: seq<byte> -> bool)
    requires Encodable(o) && |o.root| < 0x1_0000_0000_0000_0000 && cast(o.root)
    ensures DecodeBody(Body(o), cast) == Some(o)
  {
    var a, b, rest := Head(4, 2), Head(3, |o.bucket|), o.bucket + (Head(2, |o.root|) + o.root);
    HeadBack(4, 2, b + rest);
    assert (a + (b + rest))[|a|..] == b + rest;
    HeadBack(3, |o.bucket|, rest);
    assert (b + rest)[|b|..] == rest;
    BucketBack(o, cast);
  }

  /** A record as the encoder writes it: encodable, with an identifier for a root, and of
      a length four bytes can say. */
  predicate Written(o: OpRoot, cast: seq<byte> -> bool) {
    Encodable(o) && cast(o.root) && |Body(o)| < 0x1_0000_0000
  }

  /** The reader takes a record of at most this size. */
  predicate Taken(o: OpRoot) { |Body(o)| <= OP_REC_MAX_SIZE }

  /** The decoder of one record's body. */
  function Decoding(cast: seq<byte> -> bool): Decoder { body => DecodeBody(body, cast) }

  lemma RecordReadsAs(o: OpRoot, cast: seq<byte> -> bool)
    requires Written(o, cast) && Taken(o)
    ensures ReadsAs(Record(o), o, Decoding(cast))
  {
    Powers();
    BigEndianBack(|Body(o)|, 4);
    BodyBack(o, cast);
    FramedAs(BigEndian(|Body(o)|, 4), Body(o));
    assert Decoding(cast)(Body(o)) == Some(o);
  }

  lemma RecordBlocks(o: OpRoot, cast: seq<byte> -> bool)
    requires Written(o, cast) && !Taken(o)
    ensures Blocks(Record(o))
  {
    Powers();
    BigEndianBack(|Body(o)|, 4);
    OversizeBlocks(BigEndian(|Body(o)|, 4), Body(o));
  }

  function Pieces(os: seq<OpRoot>): (fs: seq<seq<byte>>)
    ensures |fs| == |os| && forall i | 0 <= i < |os| :: fs[i] == Record(os[i])
  {
    seq(|os|, i requires 0 <= i < |os| => Record(os[i]))
  }

  /** How many records come before the first that is too large to be taken. */
  function TakenFirst(os: seq<OpRoot>): (k: nat)
    ensures k <= |os| && (k < |os| ==> !Taken(os[k])) && forall i | 0 <= i < k :: Taken(os[i])
  {
    if os == [] || !Taken(os[0]) then 0 else 1 + TakenFirst(os[1..])
  }

  lemma PiecesRead(os: seq<OpRoot>, cast: seq<byte> -> bool)
    requires forall o | o in os :: Written(o, cast)
    ensures ReadsTo(Pieces(os), os, TakenFirst(os), Decoding(cast))
  {
    var k := TakenFirst(os);
    forall i | 0 <= i < k ensures ReadsAs(Pieces(os)[i], os[i], Decoding(cast)) {
      assert os[i] in os;
      RecordReadsAs(os[i], cast);
    }
    if k < |os| {
      assert os[k] in os;
      RecordBlocks(os[k], cast);
    }
  }

  /** Records written one after another and cut anywhere read back as the whole ones up to
      the first too large; so an uncut file gives all of them exactly when none is. */
  method WriteCutRead(os: seq<OpRoot>, n: nat, cast: seq<byte> -> bool) returns (r: Ops)
    requires (forall o | o in os :: Written(o, cast)) && n <= |Concat(Pieces(os))|
    ensures r == Ops(os[..Min(TakenFirst(os), Whole(Pieces(os), n))])
    ensures n == |Concat(Pieces(os))| ==> r == Ops(os[..TakenFirst(os)])
    ensures n == |Concat(Pieces(os))| ==> (r == Ops(os) <==> forall o | o in os :: Taken(o))
  {
    PiecesRead(os, cast);
    r := ReadCutPieces(Pieces(os), os, TakenFirst(os), n, Decoding(cast));
    WholeFile(Pieces(os));
    AllTaken(os);
  }

  lemma AllTaken(os: seq<OpRoot>)
    ensures os[..TakenFirst(os)] == os <==> forall o | o in os :: Taken(o)
  {
    var k := TakenFirst(os);
    if k == |os| {
      assert os[..k] == os;
    } else {
      assert os[k] in os && |os[..k]| < |os|;
    }
  }

  /** There is such a record: one over the limit is written, and read as a torn tail with
      whatever follows it. */
  lemma OversizeIsDropped(o: OpRoot, rest: seq<byte>, cast: seq<byte> -> bool)
    requires Written(o, cast) && !Taken(o)
    ensures ReadFrom(Record(o) + rest, 0, Decoding(cast)) == Ops([])
  {
    RecordBlocks(o, cast);
    GivesBlocked([], Record(o), rest, |Record(o) + rest|, Decoding(cast));
    OpenGives([], Record(o) + rest, |Record(o) + rest|, Decoding(cast), Ops([]));
    assert [] + (Record(o) + rest)[..|Record(o) + rest|] == Record(o) + rest;
  }

  /** One such record: an empty bucket name, and a root of a mebibyte. */
  lemma OversizeExists(cast: seq<byte> -> bool) returns (o: OpRoot)
    ensures o.bucket == [] && |o.root| == OP_REC_MAX_SIZE && !Taken(o)
    ensures cast(o.root) ==> Written(o, cast)
  {
    o := OpRoot([], seq(OP_REC_MAX_SIZE, _ => 1));
    assert |Body(o)| == 7 + |o.root|;
  }
}
