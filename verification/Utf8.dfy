/** Well-formed UTF-8, after section 4 of RFC 3629. */
module Utf8 {
  import opened Types

  predicate IsCont(d: seq<byte>, i: nat) {
    i < |d| && 0x80 <= d[i] <= 0xbf
  }

  /** Bytes of the UTF-8 character that starts here, 0 when there is none. */
  function CharLen(d: seq<byte>): (n: nat)
    requires d != []
    ensures n <= |d|
  {
    var b := d[0];
    if b <= 0x7f then 1
    else if 0xc2 <= b <= 0xdf then (if IsCont(d, 1) then 2 else 0)
    else if 0xe0 <= b <= 0xef then
      if IsCont(d, 1) && IsCont(d, 2) && (b == 0xe0 ==> 0xa0 <= d[1]) && (b == 0xed ==> d[1] <= 0x9f) then 3 else 0
    else if 0xf0 <= b <= 0xf4 then
      if IsCont(d, 1) && IsCont(d, 2) && IsCont(d, 3) && (b == 0xf0 ==> 0x90 <= d[1]) && (b == 0xf4 ==> d[1] <= 0x8f) then 4 else 0
    else 0
  }

  predicate ValidUtf8(d: seq<byte>)
    decreases |d|
  {
    d == [] || (CharLen(d) > 0 && ValidUtf8(d[CharLen(d)..]))
  }

  /** Well-formed text after well-formed text is well formed. */
  lemma {:induction false} ConcatIsValid(a: seq<byte>, b: seq<byte>)
    requires ValidUtf8(a) && ValidUtf8(b)
    ensures ValidUtf8(a + b)
    decreases |a|
  {
    if a == [] {
      assert a + b == b;
    } else {
      var n := CharLen(a);
      CharStays(a, b);
      assert (a + b)[n..] == a[n..] + b;
      ConcatIsValid(a[n..], b);
    }
  }

  lemma CharStays(a: seq<byte>, b: seq<byte>)
    requires a != [] && CharLen(a) > 0
    ensures CharLen(a + b) == CharLen(a)
  {
    assert forall i :: 0 <= i < |a| ==> (a + b)[i] == a[i];
  }

  // ----- the characters behind the bytes -----

  /** The code points that have an encoding. */
  predicate IsScalar(c: nat) {
    c < 0xd800 || 0xe000 <= c <= 0x10ffff
  }

  /** The bytes of a character: six bits to a byte after the first. */
  function CharBytes(c: nat): (d: seq<byte>)
    requires IsScalar(c)
    ensures 1 <= |d| <= 4
  {
    if c < 0x80 then [c]
    else if c < 0x800 then [0xc0 + c / 64, 0x80 + c % 64]
    else if c < 0x10000 then [0xe0 + c / 64 / 64, 0x80 + c / 64 % 64, 0x80 + c % 64]
    else [0xf0 + c / 64 / 64 / 64, 0x80 + c / 64 / 64 % 64, 0x80 + c / 64 % 64, 0x80 + c % 64]
  }

  function TextBytes(cs: seq<nat>): seq<byte>
    requires forall i :: 0 <= i < |cs| ==> IsScalar(cs[i])
  {
    if cs == [] then [] else CharBytes(cs[0]) + TextBytes(cs[1..])
  }

  lemma ScalarIsChar(c: nat, rest: seq<byte>)
    requires IsScalar(c)
    ensures CharLen(CharBytes(c) + rest) == |CharBytes(c)|
  {
    var d := CharBytes(c) + rest;
    assert forall i :: 0 <= i < |CharBytes(c)| ==> d[i] == CharBytes(c)[i];
  }

  /** What a byte adds to a character, below its mark. */
  function Over(b: byte, mark: nat): nat
    requires mark <= b
  {
    var n: nat := b;
    n - mark
  }

  lemma SixBits(high: nat, low: nat)
    requires low < 64
    ensures (high * 64 + low) / 64 == high && (high * 64 + low) % 64 == low
  {
  }

  lemma TwoBytes(d: seq<byte>) returns (c: nat)
    requires |d| >= 2 && 0xc2 <= d[0] <= 0xdf && IsCont(d, 1)
    ensures IsScalar(c) && CharBytes(c) == d[..2]
  {
    var a, b := Over(d[0], 0xc0), Over(d[1], 0x80);
    c := a * 64 + b;
    SixBits(a, b);
  }

  lemma ThreeBytes(d: seq<byte>) returns (c: nat)
    requires |d| >= 3 && 0xe0 <= d[0] <= 0xef && IsCont(d, 1) && IsCont(d, 2)
    requires (d[0] == 0xe0 ==> 0xa0 <= d[1]) && (d[0] == 0xed ==> d[1] <= 0x9f)
    ensures IsScalar(c) && CharBytes(c) == d[..3]
  {
    var a, b, e := Over(d[0], 0xe0), Over(d[1], 0x80), Over(d[2], 0x80);
    c := (a * 64 + b) * 64 + e;
    SixBits(a, b);
    SixBits(a * 64 + b, e);
  }

  lemma FourBytes(d: seq<byte>) returns (c: nat)
    requires |d| >= 4 && 0xf0 <= d[0] <= 0xf4 && IsCont(d, 1) && IsCont(d, 2) && IsCont(d, 3)
    requires (d[0] == 0xf0 ==> 0x90 <= d[1]) && (d[0] == 0xf4 ==> d[1] <= 0x8f)
    ensures IsScalar(c) && CharBytes(c) == d[..4]
  {
    var a, b, e, f := Over(d[0], 0xf0), Over(d[1], 0x80), Over(d[2], 0x80), Over(d[3], 0x80);
    c := ((a * 64 + b) * 64 + e) * 64 + f;
    SixBits(a, b);
    SixBits(a * 64 + b, e);
    SixBits((a * 64 + b) * 64 + e, f);
  }

  /** What is taken for a character is the encoding of one. */
  lemma CharIsScalar(d: seq<byte>) returns (c: nat)
    requires d != [] && CharLen(d) > 0
    ensures IsScalar(c) && d[..CharLen(d)] == CharBytes(c)
  {
    if d[0] <= 0x7f {
      c := d[0];
    } else if d[0] <= 0xdf {
      c := TwoBytes(d);
    } else if d[0] <= 0xef {
      c := ThreeBytes(d);
    } else {
      c := FourBytes(d);
    }
  }

  lemma {:induction false} EncodedIsValid(cs: seq<nat>)
    requires forall i :: 0 <= i < |cs| ==> IsScalar(cs[i])
    ensures ValidUtf8(TextBytes(cs))
  {
    if cs != [] {
      EncodedIsValid(cs[1..]);
      ScalarIsChar(cs[0], TextBytes(cs[1..]));
      assert TextBytes(cs)[|CharBytes(cs[0])|..] == TextBytes(cs[1..]);
    }
  }

  /** Bytes are well-formed UTF-8 exactly when they are the encoding of some characters. */
  lemma {:induction false} ValidIffEncoded(d: seq<byte>)
    ensures ValidUtf8(d) <==> exists cs: seq<nat> :: (forall i :: 0 <= i < |cs| ==> IsScalar(cs[i])) && d == TextBytes(cs)
    decreases |d|
  {
    if ValidUtf8(d) {
      var cs := Decoded(d);
      assert d == TextBytes(cs);
    }
    if cs: seq<nat> :| (forall i :: 0 <= i < |cs| ==> IsScalar(cs[i])) && d == TextBytes(cs) {
      EncodedIsValid(cs);
    }
  }

  lemma {:induction false} Decoded(d: seq<byte>) returns (cs: seq<nat>)
    requires ValidUtf8(d)
    ensures (forall i :: 0 <= i < |cs| ==> IsScalar(cs[i])) && d == TextBytes(cs)
    decreases |d|
  {
    if d == [] {
      cs := [];
    } else {
      var c := CharIsScalar(d);
      var later := Decoded(d[CharLen(d)..]);
      cs := [c] + later;
      assert cs[1..] == later;
      assert d == d[..CharLen(d)] + d[CharLen(d)..];
    }
  }

  /** The bytes of text in the ASCII range. */
  function Ascii(s: string): (d: seq<byte>)
    requires forall i :: 0 <= i < |s| ==> s[i] < '\U{80}'
    ensures |d| == |s| && forall i :: 0 <= i < |s| ==> d[i] == s[i] as int
  {
    seq(|s|, i requires 0 <= i < |s| => (s[i] as int) as byte)
  }
}
