/** Unsigned varints, as binary.PutUvarint writes them and cars' reader reads them. */
module Varint {
  import opened Bytes

  const MAX_VARINT_LEN: nat := 10

  /** Seven bits at a time, low bits first, the high bit set on all but the last. */
  function Encode(v: nat): (s: seq<byte>)
    ensures |s| >= 1
  {
    if v < 128 then [v as byte] else [(128 + v % 128) as byte] + Encode(v / 128)
  }

  datatype Read = Value(v: nat, len: nat) | Eof | Overflow

  /** Reading on after `n` bytes that gave `x`, the next one counting `w`. */
  function Decode(s: seq<byte>, x: nat, w: nat, n: nat): Read
    decreases |s|
  {
    if s == [] then Eof
    else if s[0] < 128 then
      if n + 1 > MAX_VARINT_LEN || (n + 1 == MAX_VARINT_LEN && s[0] > 1) then Overflow
      else Value(x + s[0] as nat * w, n + 1)
    else Decode(s[1..], x + (s[0] as nat - 128) * w, 128 * w, n + 1)
  }

  /** What fits in `k` bytes of which the last is at most 1; in ten, a uint64. */
  function Top(k: nat): nat
    requires k >= 1
  {
    if k == 1 then 2 else 128 * Top(k - 1)
  }

  lemma TopTenIsUint64()
    ensures Top(10) == 0x1_0000_0000_0000_0000
  {
    assert Top(4) == 2 * 128 * 128 * 128;
    assert Top(7) == 128 * (128 * (128 * Top(4)));
    assert Top(10) == 128 * (128 * (128 * Top(7)));
  }

  lemma {:induction false} EncodeFits(v: nat, k: nat)
    requires k >= 1 && v < Top(k)
    ensures |Encode(v)| <= k && (|Encode(v)| == k ==> Encode(v)[k - 1] <= 1)
    decreases k
  {
    if v >= 128 {
      EncodeFits(v / 128, k - 1);
    }
  }

  lemma Carry(x: nat, v: nat, w: nat)
    ensures x + (v % 128) * w + (v / 128) * (128 * w) == x + v * w
  {
    assert v == 128 * (v / 128) + v % 128;
    assert (128 * (v / 128) + v % 128) * w == 128 * (v / 128) * w + (v % 128) * w;
  }

  lemma {:induction false} DecodesFrom(v: nat, tail: seq<byte>, x: nat, w: nat, n: nat)
    requires n + |Encode(v)| <= MAX_VARINT_LEN
    requires n + |Encode(v)| == MAX_VARINT_LEN ==> Encode(v)[|Encode(v)| - 1] <= 1
    ensures Decode(Encode(v) + tail, x, w, n) == Value(x + v * w, n + |Encode(v)|)
    decreases v
  {
    var s := Encode(v) + tail;
    if v >= 128 {
      assert s[1..] == Encode(v / 128) + tail;
      DecodesFrom(v / 128, tail, x + (v % 128) * w, 128 * w, n + 1);
      Carry(x, v, w);
    }
  }

  /** Reading back a varint gives its value and its length, whatever follows. */
  lemma Decodes(v: nat, tail: seq<byte>)
    requires v < 0x1_0000_0000_0000_0000
    ensures Decode(Encode(v) + tail, 0, 1, 0) == Value(v, |Encode(v)|)
  {
    TopTenIsUint64();
    EncodeFits(v, 10);
    DecodesFrom(v, tail, 0, 1, 0);
  }

  /** A varint cut short reads as the end of the input. */
  lemma {:induction false} CutShort(v: nat, m: nat, x: nat, w: nat, n: nat)
    requires m < |Encode(v)|
    ensures Decode(Encode(v)[..m], x, w, n) == Eof
    decreases v
  {
    if m > 0 {
      var s := Encode(v)[..m];
      assert s[1..] == Encode(v / 128)[..m - 1];
      CutShort(v / 128, m - 1, x + (s[0] as nat - 128) * w, 128 * w, n + 1);
    }
  }

  /** `readUvarint`. */
  method ReadUvarint(s: seq<byte>) returns (r: Read)
    ensures r == Decode(s, 0, 1, 0)
  {
    var x: nat, w: nat, n: nat := 0, 1, 0;
    while true
      invariant n <= |s| && Decode(s[n..], x, w, n) == Decode(s, 0, 1, 0)
      decreases |s| - n
    {
      if n == |s| {
        return Eof;
      }
      var b := s[n];
      assert s[n..][0] == b && s[n..][1..] == s[n + 1..];
      n := n + 1;
      if b < 128 {
        if n > MAX_VARINT_LEN || (n == MAX_VARINT_LEN && b > 1) {
          return Overflow;
        }
        return Value(x + b as nat * w, n);
      }
      x, w := x + (b as nat - 128) * w, 128 * w;
    }
  }
}
