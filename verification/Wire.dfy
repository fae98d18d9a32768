/**
  * Big-endian cursors (crates/usbip-proto/src/wire.rs).
  *
  * The `*At` functions say what a field at a given offset of a buffer is; the
  * `Reader` and `Writer` classes are the cursors the decoders and encoders move.
  */
module Wire {
  import opened Types

  datatype ProtoError =
    | Truncated(need: nat, have: nat)
    | BadVersion(version: u16)
    | BadCommand(command: u32)
    | TooLarge(value: int, max: int)
    | Utf8

  function U16Bytes(v: u16): (b: Bytes)
    ensures |b| == 2
  {
    [v / 0x100, v % 0x100]
  }

  function U32Bytes(v: u32): (b: Bytes)
    ensures |b| == 4
  {
    U16Bytes(v / 0x1_0000) + U16Bytes(v % 0x1_0000)
  }

  /** Two's complement, as `i32::to_be_bytes` starts from. */
  function Raw(v: i32): u32 {
    if v < 0 then v + 0x1_0000_0000 else v
  }

  /** Consecutive 32-bit fields. */
  function Words(ws: seq<u32>): (b: Bytes)
    ensures |b| == 4 * |ws|
  {
    if ws == [] then [] else U32Bytes(ws[0]) + Words(ws[1..])
  }

  function Zeros(n: nat): (b: Bytes)
    ensures |b| == n && forall i :: 0 <= i < n ==> b[i] == 0
  {
    seq(n, _ => 0)
  }

  function BytesAt(b: Bytes, pos: nat, n: nat): (r: Result<Bytes, ProtoError>)
    requires pos <= |b|
    ensures r.Ok? <==> pos + n <= |b|
    ensures r.Ok? ==> |r.value| == n
  {
    if |b| - pos < n then Err(Truncated(n, |b| - pos)) else Ok(b[pos..pos + n])
  }

  function Word16(b: Bytes): (v: u16)
    requires |b| == 2
  {
    var hi: int, lo: int := b[0], b[1];
    hi * 0x100 + lo
  }

  /** Least significant byte first, as USB descriptors and setup packets have it. */
  function Le16(v: u16): Bytes {
    [v % 0x100, v / 0x100]
  }

  function Word16Le(lo: u8, hi: u8): u16 {
    Word16([hi, lo])
  }

  lemma Le16RoundTrip(v: u16, lo: u8, hi: u8)
    ensures Word16Le(Le16(v)[0], Le16(v)[1]) == v
    ensures Le16(Word16Le(lo, hi)) == [lo, hi]
  {
  }

  function Word32(b: Bytes): (v: u32)
    requires |b| == 4
  {
    Word16(b[..2]) as int * 0x1_0000 + Word16(b[2..]) as int
  }

  function Signed(v: u32): (i: i32) {
    if v < 0x8000_0000 then v else v as int - 0x1_0000_0000
  }

  function U8At(b: Bytes, pos: nat): Result<u8, ProtoError>
    requires pos <= |b|
  {
    var s :- BytesAt(b, pos, 1);
    Ok(s[0])
  }

  function U16At(b: Bytes, pos: nat): Result<u16, ProtoError>
    requires pos <= |b|
  {
    var s :- BytesAt(b, pos, 2);
    Ok(Word16(s))
  }

  function U32At(b: Bytes, pos: nat): Result<u32, ProtoError>
    requires pos <= |b|
  {
    var s :- BytesAt(b, pos, 4);
    Ok(Word32(s))
  }

  function I32At(b: Bytes, pos: nat): Result<i32, ProtoError>
    requires pos <= |b|
  {
    var v :- U32At(b, pos);
    Ok(Signed(v))
  }

  lemma SubSlice(b: Bytes, lo: nat, hi: nat, i: nat, j: nat)
    requires lo <= hi <= |b| && i <= j <= hi - lo
    ensures b[lo..hi][i..j] == b[lo + i..lo + j]
  {
    var w := b[lo..hi];
    forall k | 0 <= k < j - i
      ensures w[i..j][k] == b[lo + i..lo + j][k]
    {
      assert w[i + k] == b[lo + i + k];
    }
  }

  lemma Word16RoundTrip(h: u16)
    ensures Word16(U16Bytes(h)) == h
  {
  }

  lemma Word32RoundTrip(w: u32)
    ensures Word32(U32Bytes(w)) == w
  {
    var b := U32Bytes(w);
    assert b[..2] == U16Bytes(w / 0x1_0000) && b[2..] == U16Bytes(w % 0x1_0000);
  }

  /** Field `k` of a run of 32-bit fields reads back, wherever the run sits. */
  lemma {:induction false} WordField(pre: Bytes, ws: seq<u32>, post: Bytes, k: nat)
    requires k < |ws|
    ensures U32At(pre + Words(ws) + post, |pre| + 4 * k) == Ok(ws[k])
    decreases k
  {
    var b := pre + Words(ws) + post;
    var first := U32Bytes(ws[0]);
    assert b == (pre + first) + Words(ws[1..]) + post;
    if k == 0 {
      assert b[|pre|..|pre| + 4] == first;
      Word32RoundTrip(ws[0]);
    } else {
      WordField(pre + first, ws[1..], post, k - 1);
    }
  }

  lemma WordFields(pre: Bytes, ws: seq<u32>, post: Bytes)
    ensures forall k {:trigger ws[k]} :: 0 <= k < |ws| ==>
              U32At(pre + Words(ws) + post, |pre| + 4 * k) == Ok(ws[k])
  {
    forall k | 0 <= k < |ws|
      ensures U32At(pre + Words(ws) + post, |pre| + 4 * k) == Ok(ws[k])
    {
      WordField(pre, ws, post, k);
    }
  }

  /** How `text_field` lays a string out: cut to leave room for a NUL, if there is any, then NUL padded. */
  function TextBytes(s: Bytes, n: nat): (b: Bytes)
    ensures |b| == n
  {
    var take := Min(|s|, Max(n - 1, 0));
    s[..take] + Zeros(n - take)
  }

  /** Length of the text before the first NUL. */
  function TextEnd(b: Bytes): (e: nat)
    ensures e <= |b|
    ensures forall i :: 0 <= i < e ==> b[i] != 0
    ensures e < |b| ==> b[e] == 0
  {
    if b == [] || b[0] == 0 then 0 else 1 + TextEnd(b[1..])
  }

  predicate Continuation(b: u8) { 0x80 <= b <= 0xbf }

  /** Well-formed UTF-8 (the byte ranges of table 3-7 of the Unicode Standard). */
  predicate IsUtf8(s: Bytes) {
    Utf8From(s, 0)
  }

  predicate Utf8From(s: Bytes, i: nat)
    decreases |s| - i, s
  {
    i >= |s| || (SequenceLen(s, i) > 0 && Utf8From(s, i + SequenceLen(s, i)))
  }

  /** Length of the well-formed byte sequence at `i`, or 0 if there is none. */
  function SequenceLen(s: Bytes, i: nat): nat
    requires i < |s|
  {
    if s[i] < 0x80 then 1
    else if 0xc2 <= s[i] <= 0xdf && i + 1 < |s| && Continuation(s[i + 1]) then 2
    else if 0xe0 <= s[i] <= 0xef && i + 2 < |s| && Continuation(s[i + 1]) && Continuation(s[i + 2])
            && (s[i] == 0xe0 ==> s[i + 1] >= 0xa0) && (s[i] == 0xed ==> s[i + 1] <= 0x9f) then 3
    else if 0xf0 <= s[i] <= 0xf4 && i + 3 < |s|
            && Continuation(s[i + 1]) && Continuation(s[i + 2]) && Continuation(s[i + 3])
            && (s[i] == 0xf0 ==> s[i + 1] >= 0x90) && (s[i] == 0xf4 ==> s[i + 1] <= 0x8f) then 4
    else 0
  }

  function TextAt(b: Bytes, pos: nat, n: nat): Result<Bytes, ProtoError>
    requires pos <= |b|
  {
    var s :- BytesAt(b, pos, n);
    var text := s[..TextEnd(s)];
    if IsUtf8(text) then Ok(text) else Err(Utf8)
  }

  /** A string survives a fixed-width field exactly when it fits, holds no NUL and is UTF-8. */
  predicate FitsField(s: Bytes, n: nat) {
    (|s| < n || s == []) && 0 !in s && IsUtf8(s)
  }

  lemma {:induction false} TextEndOfPadded(s: Bytes, n: nat)
    ensures TextEnd(s + Zeros(n)) == (if 0 in s then TextEnd(s) else |s|)
  {
    if s == [] {
      assert s + Zeros(n) == Zeros(n);
    } else if s[0] != 0 {
      assert (s + Zeros(n))[1..] == s[1..] + Zeros(n);
      assert 0 in s <==> 0 in s[1..];
      TextEndOfPadded(s[1..], n);
    }
  }

  lemma TextRoundTrip(pre: Bytes, s: Bytes, post: Bytes, n: nat)
    ensures TextAt(pre + TextBytes(s, n) + post, |pre|, n) == Ok(s) <==> FitsField(s, n)
  {
    var b := pre + TextBytes(s, n) + post;
    assert b[|pre|..|pre| + n] == TextBytes(s, n);
    var take := Min(|s|, Max(n - 1, 0));
    TextEndOfPadded(s[..take], n - take);
    var text := TextBytes(s, n)[..TextEnd(TextBytes(s, n))];
    if FitsField(s, n) {
      assert s[..take] == s && text == s;
    } else if text == s {
      assert (|s| < n || s == []) && s[..take] == s;
      assert 0 !in s;
    }
  }

  /** The reading cursor. Every accessor moves `pos` past what it returned, or not at all. */
  class Reader {
    const buf: Bytes
    var pos: nat

    ghost predicate Valid()
      reads this
    {
      pos <= |buf|
    }

    constructor (buf: Bytes)
      ensures Valid() && this.buf == buf && pos == 0
    {
      this.buf := buf;
      pos := 0;
    }

    method Take(n: nat) returns (r: Result<Bytes, ProtoError>)
      requires Valid()
      modifies this
      ensures Valid() && r == BytesAt(buf, old(pos), n)
      ensures pos == if r.Ok? then old(pos) + n else old(pos)
    {
      if |buf| - pos < n {
        return Err(Truncated(n, |buf| - pos));
      }
      r := Ok(buf[pos..pos + n]);
      pos := pos + n;
    }

    method U8() returns (r: Result<u8, ProtoError>)
      requires Valid()
      modifies this
      ensures Valid() && r == U8At(buf, old(pos))
      ensures r.Ok? ==> pos == old(pos) + 1
    {
      var b :- Take(1);
      r := Ok(b[0]);
    }

    method U16() returns (r: Result<u16, ProtoError>)
      requires Valid()
      modifies this
      ensures Valid() && r == U16At(buf, old(pos))
      ensures r.Ok? ==> pos == old(pos) + 2
    {
      var b :- Take(2);
      r := Ok(Word16(b));
    }

    method U32() returns (r: Result<u32, ProtoError>)
      requires Valid()
      modifies this
      ensures Valid() && r == U32At(buf, old(pos))
      ensures r.Ok? ==> pos == old(pos) + 4
    {
      var b :- Take(4);
      r := Ok(Word32(b));
    }

    method I32() returns (r: Result<i32, ProtoError>)
      requires Valid()
      modifies this
      ensures Valid() && r == I32At(buf, old(pos))
      ensures r.Ok? ==> pos == old(pos) + 4
    {
      var v :- U32();
      r := Ok(Signed(v));
    }

    method Text(n: nat) returns (r: Result<Bytes, ProtoError>)
      requires Valid()
      modifies this
      ensures Valid() && r == TextAt(buf, old(pos), n)
      ensures r.Ok? ==> pos == old(pos) + n
    {
      var b :- Take(n);
      var end := 0;
      while end < |b| && b[end] != 0
        invariant end <= |b| && TextEnd(b) == end + TextEnd(b[end..])
      {
        assert b[end..][1..] == b[end + 1..];
        end := end + 1;
      }
      r := if IsUtf8(b[..end]) then Ok(b[..end]) else Err(Utf8);
    }
  }

  /** The writing cursor: every accessor appends. */
  class Writer {
    var buf: Bytes

    constructor ()
      ensures buf == []
    {
      buf := [];
    }

    method Put(b: Bytes)
      modifies this
      ensures buf == old(buf) + b
    {
      buf := buf + b;
    }

    method Text(s: Bytes, n: nat)
      modifies this
      ensures buf == old(buf) + TextBytes(s, n)
    {
      var take := Min(|s|, Max(n - 1, 0));
      Put(s[..take]);
      Put(Zeros(n - take));
    }
  }
}
