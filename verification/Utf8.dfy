/**
  * UTF-8 as `String::from_utf8` accepts it: the byte ranges `Wire` checks are exactly the encodings
  * of sequences of Unicode scalar values (section 3 of RFC 3629).
  */
module Utf8 {
  import opened Types
  import opened Wire

  /** A code point that is no surrogate. */
  predicate IsScalar(n: nat) {
    n < 0xd800 || 0xe000 <= n < 0x11_0000
  }

  function Encoded(n: nat): (b: Bytes)
    requires IsScalar(n)
    ensures 1 <= |b| <= 4
  {
    if n < 0x80 then [n]
    else if n < 0x800 then [0xc0 + n / 0x40, 0x80 + n % 0x40]
    else if n < 0x1_0000 then [0xe0 + n / 0x1000, 0x80 + n / 0x40 % 0x40, 0x80 + n % 0x40]
    else [0xf0 + n / 0x4_0000, 0x80 + n / 0x1000 % 0x40, 0x80 + n / 0x40 % 0x40, 0x80 + n % 0x40]
  }

  predicate AllScalars(cs: seq<nat>) {
    forall i :: 0 <= i < |cs| ==> IsScalar(cs[i])
  }

  function EncodedAll(cs: seq<nat>): Bytes
    requires AllScalars(cs)
  {
    if cs == [] then [] else Encoded(cs[0]) + EncodedAll(cs[1..])
  }

  lemma EncodedIsSequence(s: Bytes, i: nat, n: nat)
    requires IsScalar(n) && i + |Encoded(n)| <= |s| && s[i..i + |Encoded(n)|] == Encoded(n)
    ensures SequenceLen(s, i) == |Encoded(n)|
  {
    var b := Encoded(n);
    assert forall k :: 0 <= k < |b| ==> s[i + k] == b[k] by {
      forall k | 0 <= k < |b|
        ensures s[i + k] == b[k]
      {
        assert s[i..i + |b|][k] == s[i + k];
      }
    }
    assert s[i] == b[0];
    assert |b| > 1 ==> s[i + 1] == b[1];
    assert |b| > 2 ==> s[i + 2] == b[2];
    assert |b| > 3 ==> s[i + 3] == b[3];
  }

  lemma TwoBytes(a: u8, b: u8) returns (n: nat)
    requires 0xc2 <= a <= 0xdf && Continuation(b)
    ensures IsScalar(n) && Encoded(n) == [a, b]
  {
    var hi: int, lo: int := a - 0xc0, b - 0x80;
    n := hi * 0x40 + lo;
    assert n / 0x40 == hi && n % 0x40 == lo;
  }

  lemma ThreeBytes(a: u8, b: u8, c: u8) returns (n: nat)
    requires 0xe0 <= a <= 0xef && Continuation(b) && Continuation(c)
    requires (a == 0xe0 ==> b >= 0xa0) && (a == 0xed ==> b <= 0x9f)
    ensures IsScalar(n) && Encoded(n) == [a, b, c]
  {
    var hi: int, mid: int, lo: int := a - 0xe0, b - 0x80, c - 0x80;
    n := hi * 0x1000 + mid * 0x40 + lo;
    assert n / 0x40 == hi * 0x40 + mid && n % 0x40 == lo && n / 0x1000 == hi;
  }

  lemma FourBytes(a: u8, b: u8, c: u8, d: u8) returns (n: nat)
    requires 0xf0 <= a <= 0xf4 && Continuation(b) && Continuation(c) && Continuation(d)
    requires (a == 0xf0 ==> b >= 0x90) && (a == 0xf4 ==> b <= 0x8f)
    ensures IsScalar(n) && Encoded(n) == [a, b, c, d]
  {
    var hi: int, x: int, y: int, lo: int := a - 0xf0, b - 0x80, c - 0x80, d - 0x80;
    n := hi * 0x4_0000 + x * 0x1000 + y * 0x40 + lo;
    assert n / 0x40 == hi * 0x1000 + x * 0x40 + y && n % 0x40 == lo;
    assert n / 0x1000 == hi * 0x40 + x && n / 0x4_0000 == hi;
  }

  lemma SequenceIsEncoded(s: Bytes, i: nat) returns (n: nat)
    requires i < |s| && SequenceLen(s, i) > 0
    ensures i + SequenceLen(s, i) <= |s| && IsScalar(n) && s[i..i + SequenceLen(s, i)] == Encoded(n)
  {
    match SequenceLen(s, i) {
      case 1 => n := s[i];
      case 2 => n := TwoBytes(s[i], s[i + 1]);
      case 3 => n := ThreeBytes(s[i], s[i + 1], s[i + 2]);
      case _ => n := FourBytes(s[i], s[i + 1], s[i + 2], s[i + 3]);
    }
  }

  lemma {:induction false} EncodedAllIsUtf8(pre: Bytes, cs: seq<nat>)
    requires AllScalars(cs)
    ensures Utf8From(pre + EncodedAll(cs), |pre|)
    decreases |cs|
  {
    if cs != [] {
      var b, rest := Encoded(cs[0]), EncodedAll(cs[1..]);
      assert pre + EncodedAll(cs) == (pre + b) + rest;
      EncodedAllIsUtf8(pre + b, cs[1..]);
      OneMoreSequence(pre, cs[0], b, rest);
    }
  }

  lemma OneMoreSequence(pre: Bytes, n: nat, b: Bytes, rest: Bytes)
    requires IsScalar(n) && b == Encoded(n) && Utf8From((pre + b) + rest, |pre| + |b|)
    ensures Utf8From((pre + b) + rest, |pre|)
  {
    var s := (pre + b) + rest;
    assert s[|pre|..|pre| + |b|] == b;
    EncodedIsSequence(s, |pre|, n);
  }

  lemma {:induction false} Utf8IsEncoded(s: Bytes, i: nat) returns (cs: seq<nat>)
    requires i <= |s| && Utf8From(s, i)
    ensures AllScalars(cs) && EncodedAll(cs) == s[i..]
    decreases |s| - i
  {
    if i == |s| {
      cs := [];
    } else {
      var n := SequenceIsEncoded(s, i);
      var j := i + SequenceLen(s, i);
      var rest := Utf8IsEncoded(s, j);
      cs := [n] + rest;
      assert cs[1..] == rest && s[i..] == s[i..j] + s[j..];
    }
  }

  /** A field's text is accepted if and only if it is the encoding of some text. */
  lemma Utf8Exactly(s: Bytes)
    ensures IsUtf8(s) <==> exists cs :: AllScalars(cs) && EncodedAll(cs) == s
  {
    if IsUtf8(s) {
      var cs := Utf8IsEncoded(s, 0);
      assert s[0..] == s;
    }
    if cs :| AllScalars(cs) && EncodedAll(cs) == s {
      EncodedAllIsUtf8([], cs);
      assert [] + EncodedAll(cs) == s;
    }
  }
}
