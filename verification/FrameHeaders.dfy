/**
 A whole block of headers (`read_content_length`,
 `crates/vissue-control/src/frame.rs`): the length is the last one given, other
 headers are passed over, and a block of more than 32 lines is refused.
 */
module FrameHeaders {
  import opened Base
  import opened Text
  import opened Records
  import opened Frame

  /// The lines of a block, each under its line ending.
  function Lines(hs: seq<string>): string {
    if hs == [] then "" else hs[0] + "\r" + "\n" + Lines(hs[1..])
  }

  /// A line of a block: on one line, not blank, and within the cap.
  predicate IsHeader(h: string) {
    h != "" && '\n' !in h && |h| < 8388608
  }

  predicate AreHeaders(hs: seq<string>) {
    forall i :: 0 <= i < |hs| ==> IsHeader(hs[i])
  }

  /// The last length the lines give; `None` when one gives none.
  function LastLength(hs: seq<string>, length: Option<nat>): Option<Option<nat>> {
    if hs == [] then Some(length)
    else
      match ParseLengthLine(hs[0])
      case Some(None) => None
      case Some(Some(n)) => LastLength(hs[1..], Some(n))
      case None => LastLength(hs[1..], length)
  }

  /// What a block comes to, `room` lines of it being allowed.
  function LengthOf(hs: seq<string>, length: Option<nat>, room: nat, rest: string): Read<nat> {
    if |hs| > room then
      if LastLength(hs[..room], length).None? then Failed(InvalidContentLength) else Failed(TooManyHeaders)
    else
      match LastLength(hs, length)
      case None => Failed(InvalidContentLength)
      case Some(None) => Failed(MissingContentLength)
      case Some(Some(n)) => if n > 8388608 then Failed(MessageTooLarge) else Done(n, rest)
  }

  lemma Caps()
    ensures MAX_MESSAGE_BYTES == 8388608 && MAX_HEADER_LINES == 32
  {
  }

  lemma UnderEnding(h: string)
    requires '\n' !in h
    ensures TrimCrlf(h + "\r" + "\n") == h && ParseLengthLine(h + "\r" + "\n") == ParseLengthLine(h)
  {
    TrimmedLine(h + "\r");
    PlainTrimmed(h);
    assert (h + "\r")[..|h|] == h;
    hide FirstIndex, SameNoCase, TrimAscii, ParseUsize, TrimCrlf;
  }

  function NextLength(h: string, length: Option<nat>): Option<nat> {
    match ParseLengthLine(h) case Some(n) => n case None => length
  }

  lemma LengthStep(h: string, hs: seq<string>, length: Option<nat>, room: nat, rest: string)
    ensures LengthOf([h] + hs, length, room, rest) ==
      if room == 0 then Failed(TooManyHeaders)
      else if ParseLengthLine(h) == Some(None) then Failed(InvalidContentLength)
      else LengthOf(hs, NextLength(h, length), room - 1, rest)
  {
    hide ParseLengthLine;
    var all := [h] + hs;
    assert all[0] == h && all[1..] == hs;
    if |all| > room {
      if room > 0 {
        assert all[..room][0] == h && all[..room][1..] == hs[..room - 1];
      } else {
        assert all[..0] == [];
      }
    }
  }

  lemma ReadOnward(s: string, header: string, count: nat, length: Option<nat>, next: string, rest: string)
    requires TrimCrlf(header) != ""
    ensures count >= MAX_HEADER_LINES ==> ReadLength(s, header, count, length) == Failed(TooManyHeaders)
    ensures count < MAX_HEADER_LINES && ParseLengthLine(header) == Some(None) ==>
      ReadLength(s, header, count, length) == Failed(InvalidContentLength)
    ensures count < MAX_HEADER_LINES && ParseLengthLine(header) != Some(None) && ReadLine(s, MAX_MESSAGE_BYTES + 1) == Done(next, rest) ==>
      ReadLength(s, header, count, length) == ReadLength(rest, next, count + 1, NextLength(header, length))
  {
    hide ParseLengthLine, TrimCrlf, ReadLine;
  }

  lemma LineFacts(h: string, length: Option<nat>)
    requires IsHeader(h)
    ensures var line := h + "\r" + "\n"; TrimCrlf(line) != "" && NextLength(line, length) == NextLength(h, length)
  {
    UnderEnding(h);
    hide TrimCrlf, ParseLengthLine;
  }

  lemma LastReads(h: string, body: string, count: nat, length: Option<nat>)
    requires IsHeader(h) && count <= MAX_HEADER_LINES
    ensures ReadLength("\r" + "\n" + body, h + "\r" + "\n", count, length)
         == LengthOf([h], length, MAX_HEADER_LINES - count, body)
  {
    Caps();
    UnderEnding(h);
    LengthStep(h, [], length, MAX_HEADER_LINES - count, body);
    LineFacts(h, length);
    var line := h + "\r" + "\n";
    assert [h] + [] == [h];
    hide *;
    FirstLine("\r", body, MAX_MESSAGE_BYTES + 1);
    ReadOnward("\r" + "\n" + body, line, count, length, "\r" + "\n", body);
    BlankLine(body, count + 1, NextLength(h, length));
    if count < MAX_HEADER_LINES { EndOfBlock(NextLength(h, length), MAX_HEADER_LINES - count - 1, body); }
  }

  /// One header line is taken, whatever stands behind the next one.
  lemma OneHeader(h: string, next: string, rest: string, count: nat, length: Option<nat>)
    requires IsHeader(h) && IsHeader(next)
    ensures var (s, line) := (next + "\r" + "\n" + rest, h + "\r" + "\n");
      && (count >= MAX_HEADER_LINES ==> ReadLength(s, line, count, length) == Failed(TooManyHeaders))
      && (count < MAX_HEADER_LINES && ParseLengthLine(h) == Some(None) ==>
            ReadLength(s, line, count, length) == Failed(InvalidContentLength))
      && (count < MAX_HEADER_LINES && ParseLengthLine(h) != Some(None) ==>
            ReadLength(s, line, count, length) == ReadLength(rest, next + "\r" + "\n", count + 1, NextLength(h, length)))
  {
    Caps();
    UnderEnding(h);
    LineFacts(h, length);
    assert '\n' !in next + "\r" && |next| < 8388608;
    hide *;
    FirstLine(next + "\r", rest, MAX_MESSAGE_BYTES + 1);
    ReadOnward(next + "\r" + "\n" + rest, h + "\r" + "\n", count, length, next + "\r" + "\n", rest);
  }

  lemma NoHeaders(h: string, body: string)
    ensures Lines([]) + ("\r" + "\n" + body) == "\r" + "\n" + body && [h] + [] == [h]
  {
  }

  lemma NextHeader(hs: seq<string>, body: string)
    requires hs != [] && AreHeaders(hs)
    ensures Lines(hs) + ("\r" + "\n" + body) == hs[0] + "\r" + "\n" + (Lines(hs[1..]) + ("\r" + "\n" + body))
    ensures IsHeader(hs[0]) && AreHeaders(hs[1..]) && [hs[0]] + hs[1..] == hs
  {
    hide IsHeader;
  }

  lemma {:induction false} BlockReads(h: string, hs: seq<string>, body: string, count: nat, length: Option<nat>)
    requires IsHeader(h) && AreHeaders(hs) && count <= MAX_HEADER_LINES
    ensures ReadLength(Lines(hs) + ("\r" + "\n" + body), h + "\r" + "\n", count, length)
         == LengthOf([h] + hs, length, MAX_HEADER_LINES - count, body)
    decreases |hs|
  {
    hide *;
    if hs == [] {
      NoHeaders(h, body);
      LastReads(h, body, count, length);
    } else {
      NextHeader(hs, body);
      LengthStep(h, hs, length, MAX_HEADER_LINES - count, body);
      OneHeader(h, hs[0], Lines(hs[1..]) + ("\r" + "\n" + body), count, length);
      if count < MAX_HEADER_LINES {
        BlockReads(hs[0], hs[1..], body, count + 1, NextLength(h, length));
      }
    }
  }

  lemma BlankLine(body: string, count: nat, length: Option<nat>)
    ensures ReadLength(body, "\r" + "\n", count, length) ==
      match length
      case None => Failed(MissingContentLength)
      case Some(n) => if n > MAX_MESSAGE_BYTES then Failed(MessageTooLarge) else Done(n, body)
  {
    TrimmedLine("\r");
  }

  lemma EndOfBlock(length: Option<nat>, room: nat, body: string)
    ensures LengthOf([], length, room, body) ==
      match length
      case None => Failed(MissingContentLength)
      case Some(n) => if n > 8388608 then Failed(MessageTooLarge) else Done(n, body)
  {
  }

  lemma FirstTaken(h: string, rest: string)
    requires IsHeader(h)
    ensures ReadLine(h + "\r" + "\n" + rest, MAX_MESSAGE_BYTES + 2) == Done(h + "\r" + "\n", rest)
  {
    Caps();
    assert '\n' !in h + "\r" && |h| < 8388608;
    hide *;
    FirstLine(h + "\r", rest, MAX_MESSAGE_BYTES + 2);
  }

  /**
   A message under any block of headers: refused at a length that is no number,
   at more than 32 lines, without a length or at one over the cap; else its body
   is as many bytes as the last length says.
   */
  lemma HeaderBlockReads(hs: seq<string>, body: string)
    requires hs != [] && AreHeaders(hs) && IsHeaderLine(hs[0])
    ensures ReadMessage(Lines(hs) + ("\r" + "\n" + body)) ==
      match LengthOf(hs, None, 32, body)
      case Failed(e) => Failed(e)
      case Done(n, rest) => if n > |rest| then Failed(Incomplete) else Done((rest[..n], Headers), rest[n..])
  {
    Caps();
    var (h, rest) := (hs[0], Lines(hs[1..]) + ("\r" + "\n" + body));
    NextHeader(hs, body);
    UnderEnding(h);
    SameHeaderLine(h);
    FirstTaken(h, rest);
    BlockReads(h, hs[1..], body, 0, None);
    hide ReadLength, LengthOf, ReadLine, IsHeaderLine, Lines, IsHeader, AreHeaders;
  }

  lemma SameHeaderLine(h: string)
    requires '\n' !in h
    ensures IsHeaderLine(h + "\r" + "\n") <==> IsHeaderLine(h)
  {
    TrimmedLine(h + "\r");
    PlainTrimmed(h);
    assert (h + "\r")[..|h|] == h;
    hide NameThenColon, TrimCrlf;
  }

  // ---- what a length line is ----

  /// `Content-Length` in any case, a colon, a blank and digits give a length.
  lemma LengthLine(name: string, n: nat)
    requires SameNoCase(name, "content-length") && n < USIZE_END
    ensures ParseLengthLine(name + ": " + Decimal(n)) == Some(Some(n))
  {
    NameHasNoColon(name);
    var digits := Decimal(n);
    var l := name + ": " + digits;
    assert l == name + [':'] + (" " + digits);
    DecimalIsToken(n);
    PlainTrimmed(l);
    FirstIndexAt(name, ':', " " + digits);
    assert l[..|name|] == name && l[|name| + 1..] == " " + digits;
    TrimAsciiNothing(name);
    assert (" " + digits)[1..] == digits;
    TrimAsciiNothing(digits);
    assert TrimAscii(" " + digits) == digits;
    ParseDecimal(n);
    hide FirstIndex, TrimAscii, ParseUsize, Decimal, SameNoCase;
  }

  lemma NameHasNoColon(name: string)
    requires SameNoCase(name, "content-length")
    ensures ':' !in name && '\n' !in name && name != "" && !IsAsciiSpace(name[0]) && !IsAsciiSpace(name[|name| - 1])
  {
    forall i | 0 <= i < |name| ensures name[i] != ':' && name[i] != '\n' && !IsAsciiSpace(name[i]) {
      assert Lower(name[i]) == Lower("content-length"[i]);
      NoBlankThere(i);
    }
  }

  lemma NoBlankThere(i: int)
    requires 0 <= i < |"content-length"|
    ensures var c := Lower("content-length"[i]); 'a' <= c <= 'z' || c == '-'
  {
  }

  /// A line under another name is passed over.
  lemma OtherLine(name: string, value: string)
    requires ':' !in name && '\n' !in name && '\n' !in value && !SameNoCase(TrimAscii(name), "content-length")
    ensures ParseLengthLine(name + ":" + value) == None
  {
    var l := name + ":" + value;
    assert l == name + [':'] + value;
    PlainTrimmed(l);
    FirstIndexAt(name, ':', value);
    assert l[..|name|] == name;
    hide FirstIndex, TrimAscii, SameNoCase, ParseUsize;
  }
}
