/**
 UTF-8 by what it encodes: the texts `str::from_utf8` takes are exactly the
 scalar values of Unicode written one after another (RFC 3629, section 3).
 */
module Utf8Chars {
  import opened Utf8

  predicate IsScalar(c: int) {
    0 <= c < 0xD800 || 0xE000 <= c < 0x110000
  }

  function Byte(n: int): char
    requires 0 <= n < 256
  {
    n as char
  }

  /// Six bits of `c`, under the mark of a byte that goes on.
  function More(c: nat): char {
    Byte(0x80 + c % 64)
  }

  function EncodeChar(c: int): string
    requires IsScalar(c)
  {
    if c < 0x80 then [Byte(c)]
    else if c < 0x800 then [Byte(0xC0 + c / 64), More(c)]
    else if c < 0x10000 then [Byte(0xE0 + c / 4096), More(c / 64), More(c)]
    else [Byte(0xF0 + c / 262144), More(c / 4096), More(c / 64), More(c)]
  }

  predicate AllScalars(cs: seq<int>) {
    forall i :: 0 <= i < |cs| ==> IsScalar(cs[i])
  }

  function EncodeAll(cs: seq<int>): string
    requires AllScalars(cs)
  {
    if cs == [] then "" else EncodeChar(cs[0]) + EncodeAll(cs[1..])
  }

  lemma TwoBytes(c: int)
    requires 0x80 <= c < 0x800
    ensures CharLength(EncodeChar(c)) == 2
  {
    assert 2 <= c / 64 < 32;
  }

  lemma ThreeBytes(c: int)
    requires 0x800 <= c < 0x10000 && IsScalar(c)
    ensures CharLength(EncodeChar(c)) == 3
  {
    var (a, b) := (c / 4096, c / 64);
    assert 0 <= a < 16 && b / 64 == a && b == a * 64 + b % 64;
    if a == 0 { assert b >= 32; }
    if a == 0xD { assert c < 0xD800 && b < 0x360 && b % 64 < 32; }
  }

  lemma FourBytes(c: int)
    requires 0x10000 <= c < 0x110000
    ensures CharLength(EncodeChar(c)) == 4
  {
    var (a, b) := (c / 262144, c / 4096);
    assert 0 <= a <= 4 && b / 64 == a && b == a * 64 + b % 64;
    if a == 0 { assert b >= 16; }
    if a == 4 { assert b < 0x110 && b % 64 < 16; }
  }

  lemma CharIsRead(c: int)
    requires IsScalar(c)
    ensures CharLength(EncodeChar(c)) == |EncodeChar(c)| > 0
  {
    if c < 0x80 {
    } else if c < 0x800 {
      TwoBytes(c);
    } else if c < 0x10000 {
      ThreeBytes(c);
    } else {
      FourBytes(c);
    }
    hide CharLength;
  }

  /// The bytes at the front that make a character encode a scalar value.
  lemma CharIsEncoded(s: string) returns (c: int)
    requires CharLength(s) > 0
    ensures IsScalar(c) && EncodeChar(c) == s[..CharLength(s)]
  {
    var n := CharLength(s);
    var b0 := s[0] as int;
    if n == 1 {
      c := b0;
    } else {
      var b1 := s[1] as int - 0x80;
      if n == 2 {
        c := (b0 - 0xC0) * 64 + b1;
        assert c / 64 == b0 - 0xC0 && c % 64 == b1;
      } else {
        var b2 := s[2] as int - 0x80;
        if n == 3 {
          c := FromThree(b0 - 0xE0, b1, b2);
        } else {
          c := FromFour(b0 - 0xF0, b1, b2, s[3] as int - 0x80);
        }
      }
    }
  }

  lemma FromThree(a: int, b: int, d: int) returns (c: int)
    requires 0 <= a < 16 && 0 <= b < 64 && 0 <= d < 64
    requires (a == 0 ==> b >= 32) && (a == 0xD ==> b < 32)
    ensures IsScalar(c) && 0x800 <= c < 0x10000
    ensures c / 4096 == a && c / 64 % 64 == b && c % 64 == d
  {
    c := a * 4096 + b * 64 + d;
    assert c / 64 == a * 64 + b && c % 64 == d;
    assert (a * 64 + b) % 64 == b && (a * 64 + b) / 64 == a && c / 4096 == a;
  }

  lemma FromFour(a: int, b: int, d: int, e: int) returns (c: int)
    requires 0 <= a <= 4 && 0 <= b < 64 && 0 <= d < 64 && 0 <= e < 64
    requires (a == 0 ==> b >= 16) && (a == 4 ==> b < 16)
    ensures IsScalar(c) && 0x10000 <= c
    ensures c / 262144 == a && c / 4096 % 64 == b && c / 64 % 64 == d && c % 64 == e
  {
    c := a * 262144 + b * 4096 + d * 64 + e;
    assert c / 64 == a * 4096 + b * 64 + d && c % 64 == e;
    assert (a * 4096 + b * 64 + d) % 64 == d && c / 4096 == a * 64 + b;
    assert (a * 64 + b) % 64 == b && c / 262144 == a;
  }

  lemma {:induction false} EncodedIsText(cs: seq<int>)
    requires AllScalars(cs)
    ensures IsText(EncodeAll(cs))
  {
    if cs != [] {
      var (s, t) := (EncodeChar(cs[0]), EncodeAll(cs[1..]));
      CharIsRead(cs[0]);
      EncodedIsText(cs[1..]);
      CharWith(s, t);
      hide CharLength, EncodeChar;
      assert (s + t)[|s|..] == t;
    }
  }

  lemma {:induction false} TextIsEncoded(s: string) returns (cs: seq<int>)
    requires IsText(s)
    ensures AllScalars(cs) && EncodeAll(cs) == s
  {
    cs := [];
    if s != "" {
      var c := CharIsEncoded(s);
      var more := TextIsEncoded(s[CharLength(s)..]);
      cs := [c] + more;
      hide CharLength, EncodeChar, IsScalar;
      assert cs[1..] == more;
    }
  }

  /// A text is exactly what encodes some scalar values.
  lemma TextExactly(s: string)
    ensures IsText(s) <==> exists cs :: AllScalars(cs) && EncodeAll(cs) == s
  {
    if IsText(s) {
      var cs := TextIsEncoded(s);
    }
    if cs :| AllScalars(cs) && EncodeAll(cs) == s {
      EncodedIsText(cs);
    }
  }
}
