/** CARv1 block frames: writing them with their positions, and scanning a file that
    may end inside one. */
module CarScan {
  import opened Options
  import opened B = Bytes
  import opened Varint
  import opened Seal

  datatype Block = Block(cid: seq<byte>, data: seq<byte>)

  /** A block and where its data lies in the file. */
  datatype Frame = Frame(block: Block, offset: nat, length: nat)

  datatype Scanned =
    | Scanned(frames: seq<Frame>, lastGood: nat, torn: bool)
    | Broken          // a frame length or an identifier that cannot be parsed

  const INT64_LIMIT: nat := 0x8000_0000_0000_0000

  /** How long the identifier at the head of some bytes is. */
  type Parser = seq<byte> -> Option<nat>

  /** Identifiers end where they say, whatever follows. */
  ghost predicate Delimits(parse: Parser, blocks: seq<Block>) {
    forall b, tail | b in blocks :: parse(b.cid + tail) == Some(|b.cid|)
  }

  function FrameLen(b: Block): nat { |b.cid| + |b.data| }

  function Bytes(b: Block): seq<byte> { Encode(FrameLen(b)) + b.cid + b.data }

  function AllBytes(blocks: seq<Block>): seq<byte> {
    if blocks == [] then [] else Bytes(blocks[0]) + AllBytes(blocks[1..])
  }

  /** `FrameSize`. */
  function FrameSize(cidLen: nat, dataLen: nat): nat { |Encode(cidLen + dataLen)| + cidLen + dataLen }

  lemma FrameSizeIs(b: Block)
    ensures |Bytes(b)| == FrameSize(|b.cid|, |b.data|)
  {
  }

  function Placed(b: Block, at: nat): Frame {
    Frame(b, at + |Encode(FrameLen(b))| + |b.cid|, |b.data|)
  }

  /** The blocks' frames, the first at `at`. */
  function Frames(blocks: seq<Block>, at: nat): seq<Frame> {
    if blocks == [] then [] else [Placed(blocks[0], at)] + Frames(blocks[1..], at + |Bytes(blocks[0])|)
  }

  // ---------------------------------------------------------------------------
  // Writing.

  lemma AllBytesJoin(a: seq<Block>, b: Block)
    ensures AllBytes(a + [b]) == AllBytes(a) + Bytes(b)
  {
    if a == [] {
      assert a + [b] == [b] && [b][1..] == [];
    } else {
      AllBytesJoin(a[1..], b);
      assert (a + [b])[1..] == a[1..] + [b];
    }
  }

  lemma {:induction false} FramesJoin(a: seq<Block>, b: Block, at: nat)
    ensures Frames(a + [b], at) == Frames(a, at) + [Placed(b, at + |AllBytes(a)|)]
    decreases |a|
  {
    if a == [] {
      assert a + [b] == [b] && [b][1..] == [];
    } else {
      assert (a + [b])[1..] == a[1..] + [b];
      FramesJoin(a[1..], b, at + |Bytes(a[0])|);
    }
  }

  /** `writeBlock` behind the counting writer. */
  method WriteBlock(out: seq<byte>, n: nat, b: Block) returns (out': seq<byte>, n': nat, at: Frame)
    ensures out' == out + Bytes(b) && n' == n + |Bytes(b)| && at == Placed(b, n)
  {
    out', n' := out + Encode(FrameLen(b)), n + |Encode(FrameLen(b))|;
    out', n' := out' + b.cid, n' + |b.cid|;
    var dataOffset := n';
    out', n' := out' + b.data, n' + |b.data|;
    at := Frame(b, dataOffset, |b.data|);
    assert out + Encode(FrameLen(b)) + b.cid + b.data == out + Bytes(b);
  }

  /** `WriteBlocksAt`: the frames after what is written, and their positions. */
  method WriteBlocksAt(file: seq<byte>, blocks: seq<Block>) returns (file': seq<byte>, positions: seq<Frame>)
    ensures file' == file + AllBytes(blocks) && positions == Frames(blocks, |file|)
  {
    file', positions := file, [];
    var n := |file|;
    for i := 0 to |blocks|
      invariant file' == file + AllBytes(blocks[..i]) && n == |file'|
      invariant positions == Frames(blocks[..i], |file|)
    {
      WrittenMore(file, blocks, i);
      var at;
      file', n, at := WriteBlock(file', n, blocks[i]);
      positions := positions + [at];
    }
    assert blocks[..|blocks|] == blocks;
  }

  lemma WrittenMore(file: seq<byte>, blocks: seq<Block>, i: nat)
    requires i < |blocks|
    ensures file + AllBytes(blocks[..i]) + Bytes(blocks[i]) == file + AllBytes(blocks[..i + 1])
    ensures var at := |file + AllBytes(blocks[..i])|;
            Frames(blocks[..i], |file|) + [Placed(blocks[i], at)] == Frames(blocks[..i + 1], |file|)
  {
    assert blocks[..i + 1] == blocks[..i] + [blocks[i]];
    AllBytesJoin(blocks[..i], blocks[i]);
    FramesJoin(blocks[..i], blocks[i], |file|);
    Regroup(file, AllBytes(blocks[..i]), Bytes(blocks[i]));
  }

  lemma Regroup(a: seq<byte>, b: seq<byte>, c: seq<byte>)
    ensures a + b + c == a + (b + c)
  {
  }

  // ---------------------------------------------------------------------------
  // Scanning.

  function Before(f: Frame, r: Scanned): Scanned { if r.Scanned? then r.(frames := [f] + r.frames) else r }

  /** What one round of the scan finds at `pos`: a frame and where the next one starts,
      a torn tail, or something that cannot be parsed. */
  datatype Found = Next(frame: Frame, pos: nat) | Torn | Bad

  function FrameAt(s: seq<byte>, pos: nat, parse: Parser): (r: Found)
    requires pos < |s|
    ensures r.Next? ==> pos < r.pos <= |s|
  {
    match Decode(s[pos..], 0, 1, 0)
    case Eof => Torn
    case Overflow => Bad
    case Value(len, size) =>
      DecodeTakes(s[pos..], 0, 1, 0);
      if len >= INT64_LIMIT then Bad
      else if pos + size + len > |s| then Torn
      else ParsedFrame(s[pos + size..pos + size + len], pos + size, parse)
  }

  function ParsedFrame(body: seq<byte>, at: nat, parse: Parser): (r: Found)
    ensures r.Next? ==> r.pos == at + |body|
  {
    match parse(body)
    case None => Bad
    case Some(c) =>
      if c > |body| then Bad else Next(Frame(Block(body[..c], body[c..]), at + c, |body| - c), at + |body|)
  }

  /** What a scan from `pos` gives. */
  function ScanFrom(s: seq<byte>, pos: nat, parse: Parser): Scanned
    decreases |s| - pos
  {
    if pos >= |s| then Scanned([], pos, false)
    else
      match FrameAt(s, pos, parse)
      case Next(f, next) => Before(f, ScanFrom(s, next, parse))
      case Torn => Scanned([], pos, true)
      case Bad => Broken
  }

  /** A varint takes at least a byte and no more than there are. */
  lemma {:induction false} DecodeTakes(s: seq<byte>, x: nat, w: nat, n: nat)
    ensures Decode(s, x, w, n).Value? ==> n < Decode(s, x, w, n).len <= n + |s|
    decreases |s|
  {
    if s != [] && s[0] >= 128 {
      DecodeTakes(s[1..], x + (s[0] as nat - 128) * w, 128 * w, n + 1);
    }
  }

  /** The frames that end at or before byte `n`, the first starting at `at`. */
  function Whole(blocks: seq<Block>, at: nat, n: nat): (k: nat)
    ensures k <= |blocks|
  {
    if blocks == [] || at + |Bytes(blocks[0])| > n then 0
    else 1 + Whole(blocks[1..], at + |Bytes(blocks[0])|, n)
  }

  /** Whole frames are those before the first that passes `n`. */
  lemma {:induction false} WholeIs(blocks: seq<Block>, at: nat, n: nat)
    requires at <= n
    ensures var k := Whole(blocks, at, n);
            && at + |AllBytes(blocks[..k])| <= n
            && (k < |blocks| ==> n < at + |AllBytes(blocks[..k + 1])|)
    decreases |blocks|
  {
    if blocks != [] && at + |Bytes(blocks[0])| <= n {
      var k := Whole(blocks, at, n);
      WholeIs(blocks[1..], at + |Bytes(blocks[0])|, n);
      assert blocks[..k][1..] == blocks[1..][..k - 1];
      if k < |blocks| {
        assert blocks[..k + 1][1..] == blocks[1..][..k];
      }
    } else if blocks != [] {
      assert blocks[..1] == [blocks[0]] && [blocks[0]][1..] == [];
      assert AllBytes([blocks[0]]) == Bytes(blocks[0]) + AllBytes([]);
    }
  }

  /** The scan's answer for the whole frames before a cut at `n`. */
  function Answer(blocks: seq<Block>, at: nat, n: nat): Scanned {
    var k := Whole(blocks, at, n);
    var end := at + |AllBytes(blocks[..k])|;
    Scanned(Frames(blocks[..k], at), end, end < n)
  }

  lemma Parts(s: seq<byte>, pos: nat, e: seq<byte>, rest: seq<byte>)
    requires pos + |e| + |rest| <= |s| && s[pos..pos + |e| + |rest|] == e + rest
    ensures s[pos..] == e + s[pos + |e|..] && s[pos + |e|..pos + |e| + |rest|] == rest
  {
    assert s[pos..pos + |e| + |rest|][..|e|] == e;
    assert s[pos..pos + |e| + |rest|][|e|..] == rest;
  }

  /** The parts of a frame found at `pos`. */
  lemma FrameParts(s: seq<byte>, pos: nat, b: Block)
    requires pos + |Bytes(b)| <= |s| && s[pos..pos + |Bytes(b)|] == Bytes(b)
    ensures var e := Encode(FrameLen(b));
            && pos + |e| + FrameLen(b) == pos + |Bytes(b)| && s[pos..] == e + s[pos + |e|..]
            && s[pos + |e|..pos + |e| + FrameLen(b)] == b.cid + b.data
  {
    var e := Encode(FrameLen(b));
    Regroup(e, b.cid, b.data);
    Parts(s, pos, e, b.cid + b.data);
  }

  /** A whole frame scans as itself. */
  lemma FrameScans(s: seq<byte>, pos: nat, b: Block, parse: Parser)
    requires FrameLen(b) < INT64_LIMIT && parse(b.cid + b.data) == Some(|b.cid|)
    requires pos + |Bytes(b)| <= |s| && s[pos..pos + |Bytes(b)|] == Bytes(b)
    ensures pos < |s| && FrameAt(s, pos, parse) == Next(Placed(b, pos), pos + |Bytes(b)|)
  {
    var e := Encode(FrameLen(b));
    FrameParts(s, pos, b);
    Decodes(FrameLen(b), s[pos + |e|..]);
    assert (b.cid + b.data)[..|b.cid|] == b.cid && (b.cid + b.data)[|b.cid|..] == b.data;
  }

  /** A frame cut short scans as torn. */
  lemma TornScans(s: seq<byte>, pos: nat, b: Block, parse: Parser)
    requires FrameLen(b) < INT64_LIMIT
    requires pos < |s| < pos + |Bytes(b)| && s[pos..] == Bytes(b)[..|s| - pos]
    ensures FrameAt(s, pos, parse) == Torn
  {
    var e, m := Encode(FrameLen(b)), |s| - pos;
    if m < |e| {
      assert s[pos..] == e[..m];
      CutShort(FrameLen(b), m, 0, 1, 0);
    } else {
      assert s[pos..] == e + s[pos + |e|..];
      Decodes(FrameLen(b), s[pos + |e|..]);
    }
  }

  lemma CutInside(pre: seq<byte>, f: seq<byte>, rest: seq<byte>, n: nat)
    requires |pre| <= n < |pre| + |f|
    ensures (pre + (f + rest))[..n][|pre|..] == f[..n - |pre|]
  {
  }

  lemma CutAfter(pre: seq<byte>, f: seq<byte>, rest: seq<byte>, n: nat)
    requires |pre| + |f| <= n <= |pre| + |f| + |rest|
    ensures pre + (f + rest) == (pre + f) + rest
    ensures ((pre + f) + rest)[..n][|pre|..|pre| + |f|] == f
  {
  }

  /** Scanning the first `n` bytes of `pre + rest` from the end of `pre` gives `r`. */
  ghost predicate Gives(pre: seq<byte>, rest: seq<byte>, n: nat, parse: Parser, r: Scanned) {
    && |pre| <= n <= |pre| + |rest|
    && forall key {:trigger Opened(key)} :: Opened(key) ==> ScanFrom((pre + rest)[..n], |pre|, parse) == r
  }

  lemma OpenGives(pre: seq<byte>, rest: seq<byte>, n: nat, parse: Parser, r: Scanned)
    requires Gives(pre, rest, n, parse, r)
    ensures ScanFrom((pre + rest)[..n], |pre|, parse) == r
  {
    assert Opened(0);
  }

  lemma GivesNothing(pre: seq<byte>, rest: seq<byte>, parse: Parser)
    ensures Gives(pre, rest, |pre|, parse, Scanned([], |pre|, false))
  {
  }

  lemma ScanStep(s: seq<byte>, pos: nat, parse: Parser, f: Frame, next: nat)
    requires pos < |s| && FrameAt(s, pos, parse) == Next(f, next)
    ensures ScanFrom(s, pos, parse) == Before(f, ScanFrom(s, next, parse))
  {
  }

  /** The first frame of a cut that holds it whole. */
  lemma GivesFirst(pre: seq<byte>, b: Block, rest: seq<byte>, n: nat, parse: Parser, r: Scanned)
    requires FrameLen(b) < INT64_LIMIT && parse(b.cid + b.data) == Some(|b.cid|)
    requires Gives(pre + Bytes(b), rest, n, parse, r)
    ensures Gives(pre, Bytes(b) + rest, n, parse, Before(Placed(b, |pre|), r))
  {
    OpenGives(pre + Bytes(b), rest, n, parse, r);
    CutAfter(pre, Bytes(b), rest, n);
    var s := ((pre + Bytes(b)) + rest)[..n];
    FrameScans(s, |pre|, b, parse);
    ScanStep(s, |pre|, parse, Placed(b, |pre|), |pre| + |Bytes(b)|);
    assert s == (pre + (Bytes(b) + rest))[..n];
  }

  /** The first frame of a cut inside it. */
  lemma GivesTorn(pre: seq<byte>, b: Block, rest: seq<byte>, n: nat, parse: Parser)
    requires FrameLen(b) < INT64_LIMIT && |pre| < n < |pre| + |Bytes(b)|
    ensures Gives(pre, Bytes(b) + rest, n, parse, Scanned([], |pre|, true))
  {
    CutInside(pre, Bytes(b), rest, n);
    TornScans((pre + (Bytes(b) + rest))[..n], |pre|, b, parse);
  }

  /** Scanning any cut of written frames gives the whole ones, ends at the last whole
      one's end, and is torn exactly when the cut is inside a frame. */
  lemma {:induction false} ScanCut(pre: seq<byte>, blocks: seq<Block>, n: nat, parse: Parser) returns (r: Scanned)
    requires Delimits(parse, blocks) && forall b | b in blocks :: FrameLen(b) < INT64_LIMIT
    requires |pre| <= n <= |pre| + |AllBytes(blocks)|
    ensures Gives(pre, AllBytes(blocks), n, parse, r) && r == Answer(blocks, |pre|, n)
    decreases |blocks|
  {
    if blocks == [] || n == |pre| {
      NoWhole(blocks, |pre|, n);
      GivesNothing(pre, AllBytes(blocks), parse);
      r := Scanned([], |pre|, false);
    } else {
      var b, rest := blocks[0], AllBytes(blocks[1..]);
      assert b in blocks;
      if |pre| + |Bytes(b)| <= n {
        r := ScanCut(pre + Bytes(b), blocks[1..], n, parse);
        GivesFirst(pre, b, rest, n, parse, r);
        AnswerMore(blocks, |pre|, n);
        r := Before(Placed(b, |pre|), r);
      } else {
        GivesTorn(pre, b, rest, n, parse);
        AnswerTorn(blocks, |pre|, n);
        r := Scanned([], |pre|, true);
      }
    }
  }

  lemma AnswerTorn(blocks: seq<Block>, at: nat, n: nat)
    requires blocks != [] && at < n < at + |Bytes(blocks[0])|
    ensures Answer(blocks, at, n) == Scanned([], at, true)
  {
    assert blocks[..0] == [];
  }

  lemma NoWhole(blocks: seq<Block>, at: nat, n: nat)
    requires blocks == [] || n <= at
    requires n >= at && (blocks == [] ==> n == at)
    ensures Answer(blocks, at, n) == Scanned([], at, false)
  {
    assert blocks[..0] == [];
  }

  lemma AnswerMore(blocks: seq<Block>, at: nat, n: nat)
    requires blocks != [] && at + |Bytes(blocks[0])| <= n
    ensures Answer(blocks, at, n) == Before(Placed(blocks[0], at), Answer(blocks[1..], at + |Bytes(blocks[0])|, n))
  {
    var k := Whole(blocks, at, n);
    assert blocks[..k][1..] == blocks[1..][..k - 1];
  }

  /** One round of the loop of `Scan`. */
  method ReadFrame(s: seq<byte>, pos: nat, parse: Parser) returns (r: Found)
    requires pos < |s|
    ensures r == FrameAt(s, pos, parse)
  {
    var v := ReadUvarint(s[pos..]);
    if v.Eof? {
      return Torn;
    }
    if v.Overflow? || v.v >= INT64_LIMIT {
      return Bad;
    }
    DecodeTakes(s[pos..], 0, 1, 0);
    if v.v + v.len + pos > |s| {
      return Torn;
    }
    var body := s[pos + v.len..pos + v.len + v.v];
    var c := parse(body);
    if c.None? || c.value > |body| {
      return Bad;
    }
    r := Next(Frame(Block(body[..c.value], body[c.value..]), pos + v.len + c.value, v.v - c.value), pos + v.len + v.v);
  }

  /** The loop of `Scan`. */
  method ScanLoop(s: seq<byte>, start: nat, parse: Parser) returns (r: Scanned)
    requires start <= |s|
    ensures r == ScanFrom(s, start, parse)
  {
    var frames: seq<Frame>, pos := [], start;
    while pos < |s|
      invariant start <= pos <= |s|
      invariant ScanFrom(s, start, parse) == Prepended(frames, ScanFrom(s, pos, parse))
      decreases |s| - pos
    {
      var f := ReadFrame(s, pos, parse);
      if f.Torn? {
        return Scanned(frames, pos, true);
      }
      if f.Bad? {
        return Broken;
      }
      PrependedMore(frames, f.frame, ScanFrom(s, f.pos, parse));
      frames := frames + [f.frame];
      pos := f.pos;
    }
    r := Scanned(frames, pos, false);
  }

  function Prepended(fs: seq<Frame>, r: Scanned): Scanned { if r.Scanned? then r.(frames := fs + r.frames) else r }

  lemma PrependedMore(fs: seq<Frame>, f: Frame, r: Scanned)
    ensures Prepended(fs, Before(f, r)) == Prepended(fs + [f], r)
  {
    if r.Scanned? {
      assert fs + ([f] + r.frames) == fs + [f] + r.frames;
    }
  }

  /** `WriteHeader`. */
  function Header(h: seq<byte>): seq<byte> { Encode(|h|) + h }

  /** `Scan`: the header is skipped, then the frames are read. */
  method Scan(s: seq<byte>, parse: Parser) returns (r: Scanned, headerEnd: nat)
    ensures match Decode(s, 0, 1, 0)
            case Value(n, size) =>
              if n >= INT64_LIMIT || size + n > |s| then r == Broken
              else headerEnd == size + n && r == ScanFrom(s, headerEnd, parse)
            case _ => r == Broken
  {
    headerEnd := 0;
    var v := ReadUvarint(s);
    DecodeTakes(s, 0, 1, 0);
    if !v.Value? || v.v >= INT64_LIMIT || v.len + v.v > |s| {
      return Broken, 0;
    }
    headerEnd := v.len + v.v;
    r := ScanLoop(s, headerEnd, parse);
  }

  /** Scanning a cut of a file past its header. */
  method ScanPast(file: seq<byte>, h: seq<byte>, ghost rest: seq<byte>, n: nat, parse: Parser) returns (r: Scanned)
    requires |h| < INT64_LIMIT && file == Header(h) + rest && |Header(h)| <= n <= |file|
    ensures r == ScanFrom(file[..n], |Header(h)|, parse)
  {
    HeaderReads(h, rest, n);
    var headerEnd;
    r, headerEnd := Scan(file[..n], parse);
  }

  /** What a segment file holds after any cut at or past its header: writing blocks and
      scanning the cut gives back the whole frames at the positions written. */
  method WriteCutScan(h: seq<byte>, blocks: seq<Block>, n: nat, parse: Parser)
    returns (positions: seq<Frame>, r: Scanned)
    requires Delimits(parse, blocks) && |h| < INT64_LIMIT && forall b | b in blocks :: FrameLen(b) < INT64_LIMIT
    requires |Header(h)| <= n <= |Header(h)| + |AllBytes(blocks)|
    ensures positions == Frames(blocks, |Header(h)|)
    ensures r == Answer(blocks, |Header(h)|, n)
  {
    var file;
    file, positions := WriteBlocksAt(Header(h), blocks);
    r := ScanPast(file, h, AllBytes(blocks), n, parse);
    ghost var answer := ScanCut(Header(h), blocks, n, parse);
    OpenGives(Header(h), AllBytes(blocks), n, parse, answer);
  }

  /** The answer in words: the frames are the first ones written, and they are all the
      whole ones; the last good byte is the end of the last; and the tail is torn
      exactly when the cut is past it. */
  lemma AnswerMeans(blocks: seq<Block>, at: nat, n: nat)
    requires at <= n
    ensures var r := Answer(blocks, at, n);
            && r.frames <= Frames(blocks, at) && |r.frames| <= |blocks| && at <= r.lastGood <= n
            && r.lastGood == at + |AllBytes(blocks[..|r.frames|])| && (r.torn <==> n != r.lastGood)
            && (|r.frames| < |blocks| ==> n < at + |AllBytes(blocks[..|r.frames| + 1])|)
  {
    WholeIs(blocks, at, n);
    FramesPrefix(blocks, at, Whole(blocks, at, n));
  }

  lemma HeaderReads(h: seq<byte>, rest: seq<byte>, n: nat)
    requires |h| < INT64_LIMIT && |Header(h)| <= n <= |Header(h)| + |rest|
    ensures Decode((Header(h) + rest)[..n], 0, 1, 0) == Value(|h|, |Encode(|h|)|)
  {
    CutPrefix(Encode(|h|), h, rest, n);
    Decodes(|h|, (Header(h) + rest)[..n][|Encode(|h|)|..]);
  }

  lemma CutPrefix(e: seq<byte>, h: seq<byte>, rest: seq<byte>, n: nat)
    requires |e| + |h| <= n <= |e| + |h| + |rest|
    ensures (e + h + rest)[..n] == e + (e + h + rest)[..n][|e|..]
  {
  }

  lemma {:induction false} FramesPrefix(blocks: seq<Block>, at: nat, k: nat)
    requires k <= |blocks|
    ensures Frames(blocks[..k], at) <= Frames(blocks, at) && |Frames(blocks[..k], at)| == k
    decreases |blocks|
  {
    if k > 0 {
      assert blocks[..k][1..] == blocks[1..][..k - 1];
      FramesPrefix(blocks[1..], at + |Bytes(blocks[0])|, k - 1);
    }
  }
}
