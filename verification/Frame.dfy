/**
 Messages framed on a byte stream, as JSON lines or under `Content-Length`
 headers (`crates/vissue-control/src/frame.rs`). The header form is that of the
 Header Part of the Base Protocol in the Language Server Protocol specification.
 */
module Frame {
  import opened Base
  import opened Text
  import opened Records

  const MAX_MESSAGE_BYTES: nat := 8 * 1024 * 1024
  const MAX_HEADER_LINES: nat := 32
  const USIZE_END: nat := 0x1_0000_0000_0000_0000

  datatype Framing = Jsonl | Headers

  datatype FrameError = TooManyHeaders | MissingContentLength | InvalidContentLength | MessageTooLarge | Incomplete

  /// What a read made of the stream, and what it left of it.
  datatype Read<+T> = Done(value: T, rest: string) | Failed(error: FrameError)

  datatype Result<+T> = Ok(value: T) | Err(error: FrameError)

  // ---- lines ----

  predicate IsAlpha(c: char) {
    'a' <= c <= 'z' || 'A' <= c <= 'Z'
  }

  predicate IsNameChar(c: char) {
    IsAlpha(c) || '0' <= c <= '9' || c == '-'
  }

  function TrimCrlf(line: string): string {
    if line != "" && line[|line| - 1] == '\n' then
      var l := line[..|line| - 1];
      if l != "" && l[|l| - 1] == '\r' then l[..|l| - 1] else l
    else line
  }

  predicate NameThenColon(s: string) {
    s != "" && (s[0] == ':' || (IsNameChar(s[0]) && NameThenColon(s[1..])))
  }

  /// A letter, then letters, digits and dashes up to a colon.
  predicate IsHeaderLine(line: string) {
    var l := TrimCrlf(line);
    l != "" && IsAlpha(l[0]) && NameThenColon(l[1..])
  }

  predicate IsAsciiSpace(c: char) {
    c == ' ' || c == '\t' || c == '\n' || c == '\r' || c == 12 as char
  }

  function TrimAscii(s: string): string {
    if s != "" && IsAsciiSpace(s[0]) then TrimAscii(s[1..])
    else if s != "" && IsAsciiSpace(s[|s| - 1]) then TrimAscii(s[..|s| - 1])
    else s
  }

  /// `None` when the line is another header, `Some(None)` when its value is no
  /// length.
  function ParseLengthLine(line: string): Option<Option<nat>> {
    var l := TrimCrlf(line);
    var colon := FirstIndex(l, ':');
    if colon == |l| || !SameNoCase(TrimAscii(l[..colon]), "content-length") then None
    else
      match ParseUsize(TrimAscii(l[colon + 1..]))
      case Some(n) => Some(if n < USIZE_END then Some(n) else None)
      case None => Some(None)
  }

  // ---- what a stream reads as ----

  function ReadLine(s: string, max: nat): Read<string> {
    if s == "" then Failed(Incomplete)
    else if LineEnd(s) > max then Failed(MessageTooLarge)
    else Done(s[..LineEnd(s)], s[LineEnd(s)..])
  }

  /// The header block whose line `header` is already taken.
  function ReadLength(s: string, header: string, count: nat, length: Option<nat>): Read<nat>
    decreases |s|
  {
    if TrimCrlf(header) == "" then
      match length
      case None => Failed(MissingContentLength)
      case Some(n) => if n > MAX_MESSAGE_BYTES then Failed(MessageTooLarge) else Done(n, s)
    else if count + 1 > MAX_HEADER_LINES then Failed(TooManyHeaders)
    else if ParseLengthLine(header) == Some(None) then Failed(InvalidContentLength)
    else
      var length' := match ParseLengthLine(header) case Some(n) => n case None => length;
      match ReadLine(s, MAX_MESSAGE_BYTES + 1)
      case Failed(e) => Failed(e)
      case Done(next, rest) => ReadLength(rest, next, count + 1, length')
  }

  function ReadMessage(s: string): Read<(string, Framing)> {
    match ReadLine(s, MAX_MESSAGE_BYTES + 2)
    case Failed(e) => Failed(e)
    case Done(first, rest) =>
      if IsHeaderLine(first) then
        match ReadLength(rest, first, 0, None)
        case Failed(e) => Failed(e)
        case Done(n, body) => if n > |body| then Failed(Incomplete) else Done((body[..n], Headers), body[n..])
      else if |TrimCrlf(first)| > MAX_MESSAGE_BYTES then Failed(MessageTooLarge)
      else Done((TrimCrlf(first), Jsonl), rest)
  }

  /// `None` for a payload over the cap.
  function WriteMessage(payload: string, framing: Framing): Option<string> {
    if |payload| > MAX_MESSAGE_BYTES then None
    else match framing
      case Jsonl => Some(payload + "\n")
      case Headers => Some("Content-Length: " + Decimal(|payload|) + "\r\n\r\n" + payload)
  }

  // ---- the stream as chunks ----

  /// A buffered reader: what is left of the stream, in the pieces it will come
  /// in.
  class Reader {
    var chunks: seq<string>

    ghost predicate Valid()
      reads this
    {
      forall i :: 0 <= i < |chunks| ==> chunks[i] != ""
    }

    ghost function Rest(): string
      reads this
    {
      Joined(chunks)
    }

    /// The next piece, empty only at the end of the stream.
    method FillBuf() returns (avail: string)
      requires Valid()
      ensures avail <= Rest() && (avail == "" <==> Rest() == "")
      ensures chunks == [] ==> avail == ""
      ensures chunks != [] ==> avail == chunks[0]
    {
      avail := if chunks == [] then "" else chunks[0];
    }

    method Consume(n: nat)
      requires Valid() && chunks != [] && n <= |chunks[0]|
      modifies this
      ensures Valid() && Rest() == old(Rest())[n..]
    {
      assert Joined(chunks) == chunks[0] + Joined(chunks[1..]);
      if n == |chunks[0]| {
        chunks := chunks[1..];
      } else {
        var cut := [chunks[0][n..]] + chunks[1..];
        assert cut[1..] == chunks[1..];
        chunks := cut;
      }
    }
  }

  function Joined(chunks: seq<string>): string {
    if chunks == [] then "" else chunks[0] + Joined(chunks[1..])
  }

  lemma NewlineAhead(buf: string, avail: string, rest: string)
    requires '\n' !in buf && avail <= rest
    ensures FirstIndex(avail, '\n') < |avail| ==> LineEnd(buf + rest) == |buf| + FirstIndex(avail, '\n') + 1
    ensures FirstIndex(avail, '\n') == |avail| ==> '\n' !in avail && (buf + rest != "" ==> LineEnd(buf + rest) >= |buf| + |avail|)
  {
    FirstIndexBefore(avail, '\n');
    FirstIndexBefore(buf + rest, '\n');
    var (pos, n) := (FirstIndex(avail, '\n'), FirstIndex(buf + rest, '\n'));
    assert forall i :: 0 <= i < |buf| ==> (buf + rest)[i] == buf[i];
    assert forall i :: 0 <= i < |avail| ==> (buf + rest)[|buf| + i] == avail[i];
    hide FirstIndex;
  }

  lemma LineAtEnd(buf: string, max: nat)
    requires '\n' !in buf && buf != "" && |buf| <= max
    ensures ReadLine(buf + "", max) == Done(buf, "")
  {
    assert buf + "" == buf;
    NewlineAhead(buf, "", "");
    assert LineEnd(buf) == |buf|;
  }

  lemma LineInPiece(buf: string, avail: string, rest: string, n: nat, max: nat)
    requires '\n' !in buf && avail <= rest && n == FirstIndex(avail, '\n') + 1 <= |avail|
    ensures |buf| + n > max ==> ReadLine(buf + rest, max) == Failed(MessageTooLarge)
    ensures |buf| + n <= max ==> ReadLine(buf + rest, max) == Done(buf + rest[..n], rest[n..])
  {
    NewlineAhead(buf, avail, rest);
    ReadLineIs(buf + rest, |buf| + n, max);
    hide *;
    assert (buf + rest)[..|buf| + n] == buf + rest[..n];
    assert (buf + rest)[|buf| + n..] == rest[n..];
  }

  lemma ReadLineIs(s: string, n: nat, max: nat)
    requires s != "" && LineEnd(s) == n
    ensures ReadLine(s, max) == if n > max then Failed(MessageTooLarge) else Done(s[..n], s[n..])
  {
  }

  lemma LineTooLong(buf: string, avail: string, rest: string, max: nat)
    requires '\n' !in buf && avail <= rest && FirstIndex(avail, '\n') == |avail|
    ensures '\n' !in avail
    ensures |buf| + |avail| > max ==> ReadLine(buf + rest, max) == Failed(MessageTooLarge)
  {
    NewlineAhead(buf, avail, rest);
    hide LineEnd, FirstIndex;
  }

  /// A call gave what the stream reads as, and left what it leaves.
  ghost predicate Gives<T(!new)>(r: Result<T>, rest: string, read: Read<T>) {
    match read
    case Done(v, left) => r == Ok(v) && rest == left
    case Failed(e) => r == Err(e)
  }

  /// `read_line_limited`: however the stream is cut into pieces, the next line
  /// with its newline, refused exactly when it is longer than the limit.
  method ReadLineLimited(reader: Reader, max: nat) returns (r: Result<string>)
    requires reader.Valid()
    modifies reader
    ensures reader.Valid() && Gives(r, reader.Rest(), ReadLine(old(reader.Rest()), max))
  {
    ghost var whole := reader.Rest();
    var buf := "";
    assert "" + reader.Rest() == reader.Rest();
    hide *;
    while true
      invariant reader.Valid() && whole == buf + reader.Rest() && '\n' !in buf && |buf| <= max
      decreases |reader.Rest()|
    {
      var avail := reader.FillBuf();
      if avail == "" {
        AtTheEnd(buf, max);
        return if buf == "" then Err(Incomplete) else Ok(buf);
      }
      ghost var rest := reader.Rest();
      var pos := FirstIndex(avail, '\n');
      if pos < |avail| {
        LineInPiece(buf, avail, rest, pos + 1, max);
        if |buf| + pos + 1 > max {
          return Err(MessageTooLarge);
        }
        reader.Consume(pos + 1);
        SamePiece(avail, rest, pos + 1);
        return Ok(buf + avail[..pos + 1]);
      }
      LineTooLong(buf, avail, rest, max);
      if |buf| + |avail| > max {
        return Err(MessageTooLarge);
      }
      PieceTaken(buf, avail, rest);
      buf := buf + avail;
      reader.Consume(|avail|);
    }
  }

  lemma AtTheEnd(buf: string, max: nat)
    requires '\n' !in buf && |buf| <= max
    ensures Gives(if buf == "" then Err(Incomplete) else Ok(buf), "", ReadLine(buf + "", max))
  {
    if buf == "" { NothingLeft(max); } else { LineAtEnd(buf, max); }
  }

  lemma SamePiece(avail: string, rest: string, n: nat)
    requires avail <= rest && n <= |avail|
    ensures avail[..n] == rest[..n]
  {
  }

  lemma PieceTaken(buf: string, avail: string, rest: string)
    requires avail <= rest
    ensures buf + rest == buf + avail + rest[|avail|..]
  {
  }

  lemma NothingLeft(max: nat)
    ensures ReadLine("" + "", max) == Failed(Incomplete)
  {
  }

  /// `read_content_length`: header lines up to a blank one, the last length
  /// given standing.
  method ReadContentLength(reader: Reader, first: string) returns (r: Result<nat>)
    requires reader.Valid()
    modifies reader
    ensures reader.Valid() && Gives(r, reader.Rest(), ReadLength(old(reader.Rest()), first, 0, None))
  {
    ghost var all := ReadLength(reader.Rest(), first, 0, None);
    var header, length := first, None;
    var count: nat := 0;
    while TrimCrlf(header) != ""
      invariant reader.Valid() && ReadLength(reader.Rest(), header, count, length) == all
      decreases |reader.Rest()|
    {
      hide TrimCrlf, ParseLengthLine, LineEnd, Joined;
      count := count + 1;
      if count > MAX_HEADER_LINES {
        return Err(TooManyHeaders);
      }
      match ParseLengthLine(header) {
        case Some(None) => return Err(InvalidContentLength);
        case Some(Some(n)) => length := Some(n);
        case None =>
      }
      var line := ReadLineLimited(reader, MAX_MESSAGE_BYTES + 1);
      match line {
        case Err(e) => return Err(e);
        case Ok(next) => header := next;
      }
    }
    match length {
      case None => return Err(MissingContentLength);
      case Some(n) => return if n > MAX_MESSAGE_BYTES then Err(MessageTooLarge) else Ok(n);
    }
  }

  /// Exactly `n` bytes, however they are cut.
  method ReadExact(reader: Reader, n: nat) returns (r: Result<string>)
    requires reader.Valid()
    modifies reader
    ensures reader.Valid()
    ensures n > |old(reader.Rest())| ==> r == Err(Incomplete)
    ensures n <= |old(reader.Rest())| ==> r == Ok(old(reader.Rest())[..n]) && reader.Rest() == old(reader.Rest())[n..]
  {
    ghost var whole := reader.Rest();
    var buf := "";
    while |buf| < n
      invariant reader.Valid() && whole == buf + reader.Rest() && |buf| <= n
    {
      hide Joined;
      var avail := reader.FillBuf();
      if avail == "" {
        return Err(Incomplete);
      }
      var take := if |avail| < n - |buf| then |avail| else n - |buf|;
      ghost var rest := reader.Rest();
      assert avail[..take] == rest[..take];
      assert buf + rest == buf + avail[..take] + rest[take..];
      buf := buf + avail[..take];
      reader.Consume(take);
    }
    r := Ok(buf);
  }

  /**
   Reading one message: what comes out, and what is left, depend on the bytes
   alone and not on the pieces they arrive in.
   */
  method ReadOne(reader: Reader) returns (r: Result<(string, Framing)>)
    requires reader.Valid()
    modifies reader
    ensures reader.Valid() && Gives(r, reader.Rest(), ReadMessage(old(reader.Rest())))
  {
    hide ReadLine, ReadLength, IsHeaderLine, TrimCrlf, Joined;
    var line := ReadLineLimited(reader, MAX_MESSAGE_BYTES + 2);
    if line.Err? {
      return Err(line.error);
    }
    var first := line.value;
    if IsHeaderLine(first) {
      var length := ReadContentLength(reader, first);
      if length.Err? {
        return Err(length.error);
      }
      var body := ReadExact(reader, length.value);
      return if body.Err? then Err(body.error) else Ok((body.value, Headers));
    }
    var body := TrimCrlf(first);
    return if |body| > MAX_MESSAGE_BYTES then Err(MessageTooLarge) else Ok((body, Jsonl));
  }

  // ---- what is written is read back ----

  /// A payload a JSON line can carry.
  predicate LineSafe(p: string) {
    '\n' !in p && (p != "" ==> p[|p| - 1] != '\r') && !IsHeaderLine(p)
  }

  lemma FirstLine(l: string, rest: string, max: nat)
    requires '\n' !in l && |l| + 1 <= max
    ensures ReadLine(l + "\n" + rest, max) == Done(l + "\n", rest)
  {
    var s := l + "\n" + rest;
    assert s == l + ['\n'] + rest;
    FirstIndexAt(l, '\n', rest);
    ReadLineIs(s, |l| + 1, max);
    hide *;
    assert s[..|l| + 1] == l + "\n" && s[|l| + 1..] == rest;
  }

  lemma TrimmedLine(l: string)
    ensures TrimCrlf(l + "\n") == if l != "" && l[|l| - 1] == '\r' then l[..|l| - 1] else l
  {
    var s := l + "\n";
    assert s[|s| - 1] == '\n' && s[..|s| - 1] == l;
  }

  lemma PlainTrimmed(l: string)
    requires '\n' !in l
    ensures TrimCrlf(l) == l
  {
    if l != "" { assert l[|l| - 1] in l; }
  }

  /// A written JSON line is read back as it was exactly when its payload holds
  /// no newline, ends in no carriage return and does not look like a header.
  lemma JsonLineReadsBack(p: string, rest: string)
    requires |p| <= MAX_MESSAGE_BYTES
    ensures WriteMessage(p, Jsonl) == Some(p + "\n")
    ensures ReadMessage(p + "\n" + rest) == Done((p, Jsonl), rest) <==> LineSafe(p)
  {
    hide ReadLength, NameThenColon;
    if '\n' !in p {
      FirstLine(p, rest, MAX_MESSAGE_BYTES + 2);
      TrimmedLine(p);
      PlainTrimmed(p);
    } else {
      LineCutShort(p, rest);
    }
  }

  lemma LineCutShort(p: string, rest: string)
    requires '\n' in p && |p| <= MAX_MESSAGE_BYTES
    ensures ReadMessage(p + "\n" + rest) != Done((p, Jsonl), rest)
  {
    var n := NewlineIn(p);
    var tail := p[n + 1..] + "\n" + rest;
    assert p + "\n" + rest == p[..n] + "\n" + tail;
    FirstLine(p[..n], tail, MAX_MESSAGE_BYTES + 2);
    TrimShortens(p[..n] + "\n");
    hide ReadLength, IsHeaderLine, TrimCrlf, ReadLine;
  }

  lemma {:induction false} NewlineIn(p: string) returns (n: nat)
    requires '\n' in p
    ensures n < |p| && p[n] == '\n' && '\n' !in p[..n]
  {
    if p[0] == '\n' {
      n := 0;
    } else {
      var k := NewlineIn(p[1..]);
      n := k + 1;
      assert p[..n] == [p[0]] + p[1..][..k];
    }
  }

  lemma TrimShortens(l: string)
    ensures |TrimCrlf(l)| <= |l|
    ensures l != "" && l[|l| - 1] == '\n' ==> |TrimCrlf(l)| < |l|
  {
  }

  /// The cap is on the body: a line of text is accepted up to the cap, under
  /// either line ending.
  lemma CapIsOnTheBody(p: string, rest: string)
    requires LineSafe(p)
    ensures ReadMessage(p + "\n" + rest).Done? <==> |p| <= MAX_MESSAGE_BYTES
    ensures ReadMessage(p + "\r\n" + rest).Done? <==> |p| <= MAX_MESSAGE_BYTES
  {
    hide ReadLength, NameThenColon;
    LineLength(p, rest);
    LineLength(p + "\r", rest);
    TrimmedLine(p);
    TrimmedLine(p + "\r");
    PlainTrimmed(p);
    assert (p + "\r")[..|p|] == p;
    assert p + "\r" + "\n" == p + "\r\n";
    assert p + "\r\n" + rest == p + "\r" + "\n" + rest;
    hide LineEnd;
    assert p + "\n" != "" && p + "\r\n" != "";
  }

  lemma LineLength(l: string, rest: string)
    requires '\n' !in l
    ensures ReadLine(l + "\n" + rest, MAX_MESSAGE_BYTES + 2)
         == if |l| + 1 > MAX_MESSAGE_BYTES + 2 then Failed(MessageTooLarge) else Done(l + "\n", rest)
  {
    var s := l + "\n" + rest;
    assert s == l + ['\n'] + rest;
    FirstIndexAt(l, '\n', rest);
    ReadLineIs(s, |l| + 1, MAX_MESSAGE_BYTES + 2);
    hide LineEnd, FirstIndex, ReadLine;
    assert s[..|l| + 1] == l + "\n" && s[|l| + 1..] == rest;
  }

  // ---- headers ----

  function LengthLine(n: nat): string {
    "Content-Length: " + Decimal(n) + "\r"
  }

  lemma {:induction false} TrimAsciiNothing(s: string)
    requires s != "" ==> !IsAsciiSpace(s[0]) && !IsAsciiSpace(s[|s| - 1])
    ensures TrimAscii(s) == s
  {
  }

  lemma LengthLineShape(n: nat)
    ensures '\n' !in LengthLine(n) && IsHeaderLine(LengthLine(n) + "\n")
    ensures TrimCrlf(LengthLine(n) + "\n") == "Content-Length: " + Decimal(n)
  {
    DecimalIsToken(n);
    TrimmedLine(LengthLine(n));
    hide Decimal, NameThenColon, TrimCrlf;
    var l := "Content-Length: " + Decimal(n);
    assert LengthLine(n)[..|LengthLine(n)| - 1] == l;
    assert TrimCrlf(LengthLine(n) + "\n") == l;
    assert l[0] == 'C' && IsAlpha(l[0]);
    LengthNameRead(Decimal(n));
  }

  lemma LengthNameRead(digits: string)
    ensures NameThenColon(("Content-Length: " + digits)[1..])
  {
    NameRead("ontent-Length", " " + digits);
    hide *;
    assert ("Content-Length: " + digits)[1..] == "ontent-Length" + ":" + (" " + digits);
  }

  lemma {:induction false} NameRead(name: string, rest: string)
    requires forall i :: 0 <= i < |name| ==> IsNameChar(name[i])
    ensures NameThenColon(name + ":" + rest)
  {
    var s := name + ":" + rest;
    if name != "" {
      NameRead(name[1..], rest);
      assert s[1..] == name[1..] + ":" + rest;
    }
  }

  lemma LengthLineParses(n: nat)
    requires n < USIZE_END
    ensures ParseLengthLine(LengthLine(n) + "\n") == Some(Some(n))
  {
    LengthLineShape(n);
    var (name, digits) := ("Content-Length", Decimal(n));
    var l := "Content-Length: " + digits;
    assert l == name + [':'] + (" " + digits);
    FirstIndexAt(name, ':', " " + digits);
    assert l[..|name|] == name && l[|name| + 1..] == " " + digits;
    TrimAsciiNothing(name);
    assert (" " + digits)[1..] == digits;
    TrimAsciiNothing(digits);
    assert TrimAscii(" " + digits) == digits;
    ParseDecimal(n);
    SameName();
    hide FirstIndex, TrimAscii, ParseUsize, Decimal, SameNoCase;
  }

  lemma SameName()
    ensures SameNoCase("Content-Length", "content-length")
  {
  }

  /// A message written under headers is read back as it was, whatever its
  /// bytes.
  lemma HeaderMessageReadsBack(p: string, rest: string)
    requires |p| <= MAX_MESSAGE_BYTES
    ensures WriteMessage(p, Headers).Some?
    ensures ReadMessage(WriteMessage(p, Headers).value + rest) == Done((p, Headers), rest)
  {
    var line := LengthLine(|p|);
    var after := "\r" + "\n" + (p + rest);
    assert WriteMessage(p, Headers).value + rest == line + "\n" + after;
    LengthLineShape(|p|);
    ShortDecimal(|p|);
    FirstLine(line, after, MAX_MESSAGE_BYTES + 2);
    HeaderBlockRead(|p|, p + rest);
    hide ReadLine, LengthLine, IsHeaderLine, Decimal, ReadLength;
    assert (p + rest)[..|p|] == p && (p + rest)[|p|..] == rest;
  }

  lemma HeaderBlockRead(n: nat, s: string)
    requires n <= MAX_MESSAGE_BYTES
    ensures ReadLength("\r" + "\n" + s, LengthLine(n) + "\n", 0, None) == Done(n, s)
  {
    LengthLineShape(n);
    LengthLineParses(n);
    FirstLine("\r", s, MAX_MESSAGE_BYTES + 1);
    hide LengthLine, ParseLengthLine, TrimCrlf, ReadLine;
    BlankEnds(s, n);
    assert TrimCrlf(LengthLine(n) + "\n") != "";
  }

  lemma BlankEnds(s: string, n: nat)
    requires n <= MAX_MESSAGE_BYTES
    ensures ReadLength(s, "\r" + "\n", 1, Some(n)) == Done(n, s)
  {
    TrimmedLine("\r");
  }

  lemma {:induction false} ShortDecimal(n: nat)
    ensures |Decimal(n)| <= n / 10 + 1
  {
    if n >= 10 { ShortDecimal(n / 10); }
  }

  // ---- a whole stream ----

  type Message = (string, Framing)

  predicate Sendable(m: Message) {
    |m.0| <= MAX_MESSAGE_BYTES && (m.1 == Jsonl ==> LineSafe(m.0))
  }

  function OnWire(m: Message): string
    requires Sendable(m)
  {
    WriteMessage(m.0, m.1).value
  }

  ghost predicate AllSendable(messages: seq<Message>) {
    forall i :: 0 <= i < |messages| ==> Sendable(messages[i])
  }

  function Wire(messages: seq<Message>): string
    requires AllSendable(messages)
  {
    if messages == [] then "" else OnWire(messages[0]) + Wire(messages[1..])
  }

  lemma MessageReadsBack(m: Message, rest: string)
    requires Sendable(m)
    ensures ReadMessage(OnWire(m) + rest) == Done(m, rest)
  {
    hide ReadMessage;
    if m.1 == Jsonl {
      JsonLineReadsBack(m.0, rest);
    } else {
      HeaderMessageReadsBack(m.0, rest);
    }
  }

  /// `count` messages read one after another, and what they leave.
  function ReadMany(s: string, count: nat): Read<seq<Message>>
    decreases count
  {
    if count == 0 then Done([], s)
    else
      match ReadMessage(s)
      case Failed(e) => Failed(e)
      case Done(m, left) =>
        match ReadMany(left, count - 1)
        case Failed(e) => Failed(e)
        case Done(ms, end) => Done([m] + ms, end)
  }

  /**
   A stream of messages, under either framing and mixed, reads back as the same
   messages in the same order, and leaves what follows them.
   */
  lemma {:induction false} StreamReadsBack(sent: seq<Message>, rest: string)
    requires AllSendable(sent)
    ensures ReadMany(Wire(sent) + rest, |sent|) == Done(sent, rest)
  {
    hide ReadMessage, OnWire, Sendable;
    if sent == [] {
      assert Wire(sent) + rest == rest;
    } else {
      var tail := Wire(sent[1..]) + rest;
      MessageReadsBack(sent[0], tail);
      StreamReadsBack(sent[1..], rest);
      assert Wire(sent) + rest == OnWire(sent[0]) + tail;
      assert [sent[0]] + sent[1..] == sent;
    }
  }
}
