/**
 UTF-8, as `str::from_utf8` checks it (table 3-7 of the Unicode standard): a
 `char` stands for one byte.
 */
module Utf8 {

  predicate In(s: string, i: nat, low: int, high: int) {
    i < |s| && low <= s[i] as int <= high
  }

  /// A byte that only goes on with a character.
  predicate IsContinuation(c: char) {
    0x80 <= c as int <= 0xBF
  }

  /// The length of the character at the front, and zero where there is none.
  function CharLength(s: string): (n: nat)
    ensures n <= |s| && n <= 4
  {
    if In(s, 0, 0x00, 0x7F) then 1
    else if In(s, 0, 0xC2, 0xDF) then (if In(s, 1, 0x80, 0xBF) then 2 else 0)
    else if In(s, 0, 0xE0, 0xEF) then
      var low := if s[0] as int == 0xE0 then 0xA0 else 0x80;
      var high := if s[0] as int == 0xED then 0x9F else 0xBF;
      if In(s, 1, low, high) && In(s, 2, 0x80, 0xBF) then 3 else 0
    else if In(s, 0, 0xF0, 0xF4) then
      var low := if s[0] as int == 0xF0 then 0x90 else 0x80;
      var high := if s[0] as int == 0xF4 then 0x8F else 0xBF;
      if In(s, 1, low, high) && In(s, 2, 0x80, 0xBF) && In(s, 3, 0x80, 0xBF) then 4 else 0
    else 0
  }

  predicate IsText(s: string) {
    s == "" || (CharLength(s) > 0 && IsText(s[CharLength(s)..]))
  }

  lemma CharInside(s: string, k: nat)
    requires 0 < k < CharLength(s)
    ensures IsContinuation(s[k])
  {
  }

  lemma CharStarts(s: string)
    requires CharLength(s) > 0
    ensures !IsContinuation(s[0])
  {
  }

  /// The character at the front is decided by its own bytes.
  lemma CharOfFront(s: string, n: nat)
    requires CharLength(s) > 0 && n <= |s|
    ensures CharLength(s[..n]) == if n < CharLength(s) then 0 else CharLength(s)
  {
  }

  lemma CharWith(s: string, t: string)
    requires CharLength(s) > 0
    ensures CharLength(s + t) == CharLength(s)
  {
  }

  /// A front of a text is a text exactly when it is not cut inside a character.
  lemma {:induction false} TextCut(s: string, n: nat)
    requires IsText(s) && n <= |s|
    ensures IsText(s[..n]) <==> n == |s| || !IsContinuation(s[n])
    decreases |s|
  {
    if n == |s| {
      assert s[..n] == s;
    } else if n > 0 {
      var k := CharLength(s);
      CharOfFront(s, n);
      if n < k {
        CharInside(s, n);
      } else {
        TextCut(s[k..], n - k);
        assert s[..n][k..] == s[k..][..n - k];
      }
    } else {
      CharStarts(s);
    }
  }

  lemma {:induction false} TextConcat(s: string, t: string)
    requires IsText(s)
    ensures IsText(s + t) <==> IsText(t)
    decreases |s|
  {
    if s == "" {
      assert s + t == t;
    } else {
      var k := CharLength(s);
      CharWith(s, t);
      TextConcat(s[k..], t);
      assert (s + t)[k..] == s[k..] + t;
    }
  }

  lemma {:induction false} AsciiIsText(s: string)
    requires forall i :: 0 <= i < |s| ==> s[i] as int < 0x80
    ensures IsText(s)
  {
    if s != "" {
      AsciiIsText(s[1..]);
    }
  }

  /// No text behind a text cut inside a character makes it whole again.
  lemma {:induction false} TornText(s: string, n: nat, later: string)
    requires IsText(s) && n < |s| && IsText(later)
    ensures IsText(s[..n] + later) <==> !IsContinuation(s[n])
    decreases |s|
  {
    var k := CharLength(s);
    var torn := s[..n] + later;
    if n >= k {
      TornText(s[k..], n - k, later);
      CharOfFront(s, n);
      CharWith(s[..n], later);
      assert torn[k..] == s[k..][..n - k] + later;
    } else if n > 0 {
      CharInside(s, n);
      CharTorn(s, n, later);
    } else {
      CharStarts(s);
      assert torn == later;
    }
  }

  lemma CharTorn(s: string, n: nat, later: string)
    requires 0 < n < CharLength(s) && IsText(later)
    ensures CharLength(s[..n] + later) == 0
  {
    if later != "" { CharStarts(later); }
    var torn := s[..n] + later;
    assert forall i :: 0 <= i < n ==> torn[i] == s[i];
    assert later != "" ==> torn[n] == later[0];
  }
}
