/**
 Records appended after a write that was cut short (`append_record` and
 `apply_records`, `crates/vissue-core/src/ledger.rs`).
 */
module TornAppend {
  import opened Base
  import opened Text
  import opened MergeSets
  import opened Utf8
  import opened Records
  import LogLine

  /// Whatever was cut and whatever follows, the records before it are read.
  lemma WholeRecordsSurviveATear(rs: seq<Record>, torn: string, later: string)
    requires AllWritable(rs)
    ensures AsItems(rs) <= Items(Encode(rs) + torn + later)
    ensures Items(Encode(rs) + torn + later) == AsItems(rs) + Items(torn + later)
  {
    hide Items, Encode;
    RecordsReadBack(rs, torn + later);
    assert Encode(rs) + torn + later == Encode(rs) + (torn + later);
  }

  /// What is left behind a payload of `n` bytes and the newline after it.
  function Behind(bytes: string, n: nat): string
    requires n <= |bytes|
  {
    if n < |bytes| && bytes[n] == '\n' then bytes[n + 1..] else bytes[n..]
  }

  lemma PayloadOf(h: string, op: string, bytes: string, n: nat)
    ensures var s := h + "\n" + bytes;
      PayloadAt(s, |h|, op, n) ==
        if |bytes| < n then None
        else Some((Rec(op, bytes[..n], s[..|s| - |Behind(bytes, n)|]), |s| - |Behind(bytes, n)|))
  {
    var s := h + "\n" + bytes;
    if |bytes| >= n {
      assert s[|h| + 1..|h| + 1 + n] == bytes[..n];
      assert |h| + 1 + n < |s| ==> s[|h| + 1 + n] == bytes[n];
    }
  }

  lemma FirstItem(s: string)
    requires s != "" && "%% " <= s && DropNewlines(s) == s
    ensures RecordAt(s).None? ==> Items(s) == []
    ensures RecordAt(s).Some? ==> Items(s) == [RecordAt(s).value.0] + Items(s[RecordAt(s).value.1..])
  {
    hide RecordAt, LegacyAt;
  }

  /// What is read once a header line asks for its payload.
  lemma HeaderThenBytes(r: Record, bytes: string)
    requires Writable(r)
    ensures var (n, s) := (|r.payload|, Header(r) + "\n" + bytes);
      Items(s) ==
        if |bytes| < n then []
        else [Rec(r.op, bytes[..n], s[..|s| - |Behind(bytes, n)|])] + Items(Behind(bytes, n))
  {
    var (n, h, s) := (|r.payload|, |Header(r)|, Header(r) + "\n" + bytes);
    hide *;
    RecordAsked(r, bytes);
    PayloadOf(Header(r), r.op, bytes, n);
    FirstItem(s);
    BehindIsTheEnd(Header(r), bytes, n);
  }

  lemma RecordAsked(r: Record, bytes: string)
    requires Writable(r)
    ensures var s := Header(r) + "\n" + bytes;
      s != "" && "%% " <= s && DropNewlines(s) == s && RecordAt(s) == PayloadAt(s, |Header(r)|, r.op, |r.payload|)
  {
    hide *;
    HeaderRead(r, bytes);
    HeaderLongEnough(r);
    HeaderDecides(Header(r) + "\n" + bytes, |Header(r)|, r.op, |r.payload|);
  }

  lemma BehindIsTheEnd(h: string, bytes: string, n: nat)
    ensures var s := h + "\n" + bytes; n <= |bytes| ==> |Behind(bytes, n)| <= |s| && s[|s| - |Behind(bytes, n)|..] == Behind(bytes, n)
  {
    var s := h + "\n" + bytes;
    if n <= |bytes| {
      var k := |Behind(bytes, n)|;
      assert Behind(bytes, n) == bytes[|bytes| - k..];
      assert s[|s| - k..] == bytes[|bytes| - k..];
    }
  }

  lemma EncodedStart(more: seq<Record>)
    ensures Encode(more) == "" || Encode(more)[0] == '%'
    ensures !("\n" <= Encode(more))
  {
    if more != [] {
      assert EncodeOne(more[0])[0] == '%';
      assert Encode(more)[0] == EncodeOne(more[0])[0];
    }
  }

  lemma OpsOfFirst(op: string, payload: string, text: string, rest: seq<Item>)
    ensures OpsOf([Rec(op, payload, text)] + rest) == [Record(op, payload)] + OpsOf(rest)
  {
    assert ([Rec(op, payload, text)] + rest)[1..] == rest;
  }

  lemma BehindNothing(payload: string, later: string)
    ensures !("\n" <= later) ==> Behind(payload + later, |payload|) == later
    ensures (payload + later)[..|payload|] == payload
  {
    var bytes := payload + later;
    assert bytes[|payload|..] == later;
    assert later != "" ==> bytes[|payload|] == later[0];
    assert later != "" && later[0] == '\n' ==> "\n" <= later;
  }

  lemma MissingNewlineBytes(r: Record, more: seq<Record>)
    requires Writable(r) && AllWritable(more)
    ensures OpsOf(Items(Header(r) + "\n" + r.payload + Encode(more))) == [r] + more
  {
    hide *;
    var (later, bytes) := (Encode(more), r.payload + Encode(more));
    HeaderThenBytes(r, bytes);
    EncodedStart(more);
    RecordsReadBack(more, "");
    NothingToRead();
    OpsOfItems(more);
    BehindNothing(r.payload, later);
    assert later + "" == later && AsItems(more) + [] == AsItems(more);
    var s := Header(r) + "\n" + bytes;
    assert s == Header(r) + "\n" + r.payload + later;
    OpsOfFirst(r.op, r.payload, s[..|s| - |later|], AsItems(more));
    assert Record(r.op, r.payload) == r;
  }

  /// A record cut in its payload, and what is read of it and behind it.
  lemma TornItems(r: Record, front: string, later: string)
    requires Writable(r) && front <= r.payload && |front| < |r.payload|
    ensures var (lacks, s) := (|r.payload| - |front|, Header(r) + "\n" + front + later);
      Items(s) == if |later| < lacks then [] else [TornItem(r, front, later)] + Items(Behind(later, lacks))
  {
    hide *;
    HeaderThenBytes(r, front + later);
    Regroup(Header(r) + "\n", front, later);
    if |r.payload| - |front| <= |later| {
      BehindBoth(front, later, |r.payload| - |front|);
      TornItemIs(r, front, later);
    }
  }

  lemma Regroup(a: string, b: string, c: string)
    ensures a + (b + c) == a + b + c
  {
  }

  lemma TornItemIs(r: Record, front: string, later: string)
    requires |front| < |r.payload| <= |front| + |later|
    ensures var (lacks, s) := (|r.payload| - |front|, Header(r) + "\n" + front + later);
      |Behind(later, lacks)| <= |s| && TornItem(r, front, later) == Rec(r.op, front + later[..lacks], s[..|s| - |Behind(later, lacks)|])
  {
  }

  function TornItem(r: Record, front: string, later: string): Item
    requires |front| < |r.payload| <= |front| + |later|
  {
    var (lacks, s) := (|r.payload| - |front|, Header(r) + "\n" + front + later);
    Rec(r.op, front + later[..lacks], s[..|s| - |Behind(later, lacks)|])
  }

  lemma BehindBoth(front: string, later: string, lacks: nat)
    requires lacks <= |later|
    ensures Behind(front + later, |front| + lacks) == Behind(later, lacks)
    ensures (front + later)[..|front| + lacks] == front + later[..lacks]
  {
    var bytes := front + later;
    assert bytes[|front| + lacks..] == later[lacks..];
    if lacks < |later| {
      assert bytes[|front| + lacks] == later[lacks];
      assert bytes[|front| + lacks + 1..] == later[lacks + 1..];
    }
  }

  lemma HeaderLineIsText(r: Record)
    requires IsText(r.op)
    ensures IsText(Header(r) + "\n")
  {
    HeaderIsText(r);
    AsciiIsText("\n");
    TextConcat(Header(r), "\n");
  }

  /// A record that lacks only its last newline is read, and so is everything
  /// appended to it.
  lemma MissingNewlineLosesNothing(r: Record, more: seq<Record>)
    requires Writable(r) && AllWritable(more) && TextRecords([r] + more)
    ensures var log := ReadLog(Header(r) + "\n" + r.payload + Encode(more)); log.Some? && OpsOf(log.value) == [r] + more
  {
    var s := Header(r) + "\n" + r.payload + Encode(more);
    assert ([r] + more)[0] == r && forall i :: 0 <= i < |more| ==> ([r] + more)[i + 1] == more[i];
    MissingNewlineBytes(r, more);
    HeaderLineIsText(r);
    EncodedIsText(more);
    hide Items, OpsOf, Header, Encode, IsText, Writable;
    TextConcat(Header(r) + "\n", r.payload);
    TextConcat(Header(r) + "\n" + r.payload, Encode(more));
    OpsAreText(Items(s));
  }

  lemma BehindIsText(later: string, lacks: nat)
    requires IsText(later) && lacks <= |later| && IsText(later[..lacks])
    ensures IsText(Behind(later, lacks))
  {
    hide IsText;
    assert later == later[..lacks] + later[lacks..];
    TextConcat(later[..lacks], later[lacks..]);
    if lacks < |later| && later[lacks] == '\n' {
      AsciiIsText("\n");
      assert later[lacks..] == "\n" + later[lacks + 1..];
      TextConcat("\n", later[lacks + 1..]);
    }
  }

  /// The file of a record cut in its payload is not refused: neither cut lies
  /// inside a character, and what stands behind is read.
  ghost predicate TearReads(r: Record, front: string, later: string)
    requires |front| < |r.payload|
  {
    var lacks := |r.payload| - |front|;
    && !IsContinuation(r.payload[|front|])
    && (|later| > lacks ==> !IsContinuation(later[lacks]))
    && (|later| >= lacks ==> ReadLog(Behind(later, lacks)).Some?)
  }

  /**
   A record cut in its payload takes the bytes it lacks from what is appended,
   and reading goes on behind them; too few, and nothing is read. The file is
   refused when the cut is inside a character, when the bytes taken end inside
   one, or when what stands behind them is refused.
   */
  lemma TornPayloadTakesWhatFollows(r: Record, front: string, later: string)
    requires Writable(r) && IsText(r.op) && IsText(r.payload) && IsText(later)
    requires front <= r.payload && |front| < |r.payload|
    ensures var (lacks, log) := (|r.payload| - |front|, ReadLog(Header(r) + "\n" + front + later));
      && (log.Some? <==> TearReads(r, front, later))
      && (log.Some? ==>
            if |later| < lacks then log.value == []
            else OpsOf(log.value) == [Record(r.op, front + later[..lacks])] + OpsOf(ReadLog(Behind(later, lacks)).value))
  {
    hide *;
    TornItems(r, front, later);
    TornIsText(r, front, later);
    if |r.payload| - |front| <= |later| {
      TextCut(later, |r.payload| - |front|);
      TornReadOn(r, front, later);
    } else {
      TornReadNothing(r, front, later);
    }
  }

  lemma TornReadNothing(r: Record, front: string, later: string)
    requires |front| < |r.payload| && |later| < |r.payload| - |front| && Items(Header(r) + "\n" + front + later) == []
    requires IsText(Header(r) + "\n" + front + later) <==> !IsContinuation(r.payload[|front|])
    ensures var log := ReadLog(Header(r) + "\n" + front + later); (log.Some? <==> TearReads(r, front, later)) && (log.Some? ==> log.value == [])
  {
    hide Items, Header, IsText, IsContinuation;
  }

  lemma TornReadOn(r: Record, front: string, later: string)
    requires |front| < |r.payload| <= |front| + |later| && IsText(later)
    requires var (lacks, s) := (|r.payload| - |front|, Header(r) + "\n" + front + later);
      && Items(s) == [TornItem(r, front, later)] + Items(Behind(later, lacks))
      && (IsText(s) <==> !IsContinuation(r.payload[|front|])) && (IsText(front) <==> !IsContinuation(r.payload[|front|]))
      && (IsText(later[..lacks]) <==> lacks == |later| || !IsContinuation(later[lacks]))
    ensures var (lacks, log) := (|r.payload| - |front|, ReadLog(Header(r) + "\n" + front + later));
      && (log.Some? <==> TearReads(r, front, later))
      && (log.Some? ==>
            OpsOf(log.value) == [Record(r.op, front + later[..lacks])] + OpsOf(ReadLog(Behind(later, lacks)).value))
  {
    var (lacks, item, s) := (|r.payload| - |front|, TornItem(r, front, later), Header(r) + "\n" + front + later);
    assert item.op == r.op && item.payload == front + later[..lacks] && item.Rec?;
    hide *;
    var rest := Behind(later, lacks);
    FirstPayloadText(item, Items(rest));
    OpsOfFirst(item.op, item.payload, item.text, Items(rest));
    if IsText(front) { TakenIsText(front, later, lacks); }
    if IsText(later[..lacks]) { BehindIsText(later, lacks); }
    LogRead(s);
    LogRead(rest);
    TearIs(r, front, later);
  }

  lemma TearIs(r: Record, front: string, later: string)
    requires |front| < |r.payload|
    ensures var (lacks, whole) := (|r.payload| - |front|, TearReads(r, front, later));
      whole <==>
        && !IsContinuation(r.payload[|front|])
        && (|later| > lacks ==> !IsContinuation(later[lacks]))
        && (|later| >= lacks ==> ReadLog(Behind(later, lacks)).Some?)
  {
    hide ReadLog, IsContinuation;
  }

  lemma TakenIsText(front: string, later: string, lacks: nat)
    requires lacks <= |later| && IsText(front)
    ensures IsText(front + later[..lacks]) <==> IsText(later[..lacks])
  {
    TextConcat(front, later[..lacks]);
  }

  /// The torn file is text exactly when it was not cut inside a character.
  lemma TornIsText(r: Record, front: string, later: string)
    requires IsText(r.op) && IsText(r.payload) && IsText(later) && front <= r.payload && |front| < |r.payload|
    ensures IsText(Header(r) + "\n" + front + later) <==> !IsContinuation(r.payload[|front|])
    ensures IsText(front) <==> !IsContinuation(r.payload[|front|])
  {
    HeaderLineIsText(r);
    TextCut(r.payload, |front|);
    TornText(r.payload, |front|, later);
    hide IsText, IsContinuation;
    assert r.payload[..|front|] == front;
    assert Header(r) + "\n" + front + later == Header(r) + "\n" + (front + later);
    TextConcat(Header(r) + "\n", front + later);
  }

  // ---- cut in the header ----

  lemma {:induction false} JoinFour(a: string, b: string, c: string, d: string)
    ensures JoinSpace([a, b, c]) == a + " " + b + " " + c
    ensures JoinSpace([a, b, c, d]) == a + " " + b + " " + c + " " + d
  {
    assert JoinSpace([c, d]) == c + " " + d;
    assert [b, c, d][1..] == [c, d] && [b, c][1..] == [c] && [a, b, c][1..] == [b, c] && [a, b, c, d][1..] == [b, c, d];
    assert JoinSpace([b, c]) == b + " " + c && JoinSpace([b, c, d]) == b + " " + JoinSpace([c, d]);
  }

  lemma NotANumber(d: string)
    ensures ParseUsize(d + "%%") == None
  {
    var s := d + "%%";
    assert s[|s| - 1] == '%';
    var digits := if "+" <= s then s[1..] else s;
    assert digits[|digits| - 1] == '%';
  }

  /// The words of a header line cut at `j` with a whole header line behind it.
  lemma TornWords(r: Record, j: nat, m: Record)
    requires Writable(r) && Writable(m) && ParseUsize(m.op) == None && 3 <= j <= |Header(r)|
    ensures var parts := SplitSpace((Header(r)[..j] + Header(m))[3..]);
      |parts| >= 2 && ParseUsize(parts[1]) == None
  {
    var len := Decimal(|m.payload|);
    DecimalIsToken(|r.payload|);
    DecimalIsToken(|m.payload|);
    CutLine(r, j, m);
    hide *;
    if j - 3 <= |r.op| {
      var o := r.op[..j - 3];
      PrefixToken(r.op, j - 3);
      ThreeWords(o + "%%", m.op, len);
    } else {
      var d := Decimal(|r.payload|)[..j - 4 - |r.op|];
      PrefixToken(Decimal(|r.payload|), j - 4 - |r.op|);
      FourWords(r.op, d + "%%", m.op, len);
      NotANumber(d);
    }
  }

  lemma PrefixToken(t: string, j: nat)
    requires IsToken(t) && j <= |t|
    ensures IsToken(t[..j] + "%%")
  {
  }

  lemma ThreeWords(a: string, b: string, c: string)
    requires IsToken(a) && IsToken(b) && IsToken(c)
    ensures SplitSpace(a + " " + b + " " + c) == [a, b, c]
  {
    JoinFour(a, b, c, "");
    SplitJoinSpace([a, b, c]);
  }

  lemma FourWords(a: string, b: string, c: string, d: string)
    requires IsToken(a) && IsToken(b) && IsToken(c) && IsToken(d)
    ensures SplitSpace(a + " " + b + " " + c + " " + d) == [a, b, c, d]
  {
    JoinFour(a, b, c, d);
    SplitJoinSpace([a, b, c, d]);
  }

  lemma CutLine(r: Record, j: nat, m: Record)
    requires 3 <= j <= |Header(r)|
    ensures |Header(r)| == 4 + |r.op| + |Decimal(|r.payload|)|
    ensures var line := (Header(r)[..j] + Header(m))[3..];
      line == if j - 3 <= |r.op| then r.op[..j - 3] + "%%" + " " + m.op + " " + Decimal(|m.payload|)
              else r.op + " " + (Decimal(|r.payload|)[..j - 4 - |r.op|] + "%%") + " " + m.op + " " + Decimal(|m.payload|)
  {
    hide Decimal;
    var n := Decimal(|r.payload|);
    if j - 3 > |r.op| {
      assert Header(r)[..j] == "%% " + r.op + " " + n[..j - 4 - |r.op|];
    } else {
      assert Header(r)[..j] == "%% " + r.op[..j - 3];
    }
  }

  lemma HeaderIsOneLine(r: Record)
    requires Writable(r)
    ensures '\n' !in Header(r)
  {
    DecimalIsToken(|r.payload|);
    OpHasNoNewline(r.op);
    hide Decimal, IsToken;
  }

  /// A record cut in its header line: nothing appended is ever read.
  lemma TornHeaderLosesWhatFollows(r: Record, j: nat, m: Record, later: string)
    requires Writable(r) && Writable(m) && ParseUsize(m.op) == None && 3 <= j <= |Header(r)|
    ensures Items(Header(r)[..j] + EncodeOne(m) + later) == []
  {
    var (torn, rest) := (Header(r)[..j], m.payload + "\n" + later);
    var s := torn + EncodeOne(m) + later;
    TornWords(r, j, m);
    HeaderIsOneLine(r);
    HeaderIsOneLine(m);
    HeaderStart(r);
    hide SplitSpace, ParseUsize, Header, Writable;
    var line := torn + Header(m);
    assert s == line + ['\n'] + rest;
    FirstIndexAt(line, '\n', rest);
    assert s[3..|line|] == line[3..];
    assert s[0] == '%' && s[1] == '%' && s[2] == ' ';
    StaysWhole(s);
    assert RecordAt(s) == None;
  }

  lemma HeaderStart(r: Record)
    ensures |Header(r)| >= 3 && Header(r)[0] == '%' && Header(r)[1] == '%' && Header(r)[2] == ' '
  {
  }

  lemma AppendsBehindATornHeader(rs: seq<Record>, r: Record, j: nat, more: seq<Record>)
    requires AllWritable(rs) && Writable(r) && AllWritable(more) && 3 <= j <= |Header(r)|
    requires more != [] ==> ParseUsize(more[0].op) == None
    ensures OpsOf(Items(Encode(rs) + Header(r)[..j] + Encode(more))) == rs
  {
    hide Items, Encode, EncodeOne, OpsOf, Header, Writable, ParseUsize;
    WholeRecordsSurviveATear(rs, Header(r)[..j], Encode(more));
    if more == [] {
      NothingEncoded();
      HeaderAlone(r, j);
      assert Header(r)[..j] + "" == Header(r)[..j];
    } else {
      EncodedFirst(more);
      TornHeaderLosesWhatFollows(r, j, more[0], Encode(more[1..]));
      assert Header(r)[..j] + Encode(more) == Header(r)[..j] + EncodeOne(more[0]) + Encode(more[1..]);
    }
    OpsOfItems(rs);
    assert AsItems(rs) + [] == AsItems(rs);
  }

  lemma NothingEncoded()
    ensures Encode([]) == ""
  {
  }

  lemma EncodedFirst(more: seq<Record>)
    requires more != []
    ensures Encode(more) == EncodeOne(more[0]) + Encode(more[1..])
  {
  }

  lemma HeaderAlone(r: Record, j: nat)
    requires Writable(r) && 3 <= j <= |Header(r)|
    ensures Items(Header(r)[..j]) == []
  {
    HeaderIsOneLine(r);
    HeaderStart(r);
    hide Header, Writable;
    var s := Header(r)[..j];
    assert s[0] == '%' && s[1] == '%' && s[2] == ' ';
    StaysWhole(s);
    FirstIndexNone(s, '\n');
    assert RecordAt(s) == None;
  }

  /// A tear in the header line of the last record, behind its first three
  /// bytes, costs every later append, while the records before it stay; inside
  /// a character it costs the file.
  lemma AppendsAfterATornHeaderAreLost(rs: seq<Record>, r: Record, j: nat, more: seq<Record>)
    requires AllWritable(rs) && Writable(r) && AllWritable(more) && 3 <= j <= |Header(r)|
    requires TextRecords(rs) && IsText(r.op) && TextRecords(more)
    requires more != [] ==> ParseUsize(more[0].op) == None
    ensures var log := ReadLog(Encode(rs) + Header(r)[..j] + Encode(more));
      && (log.Some? <==> j == |Header(r)| || !IsContinuation(Header(r)[j]))
      && (log.Some? ==> OpsOf(log.value) == rs)
  {
    AppendsBehindATornHeader(rs, r, j, more);
    TornHeaderText(rs, r, j, more);
    hide Items, Encode, OpsOf, Header, IsText, Writable, IsContinuation;
    OpsAreText(Items(Encode(rs) + Header(r)[..j] + Encode(more)));
  }

  lemma TornHeaderText(rs: seq<Record>, r: Record, j: nat, more: seq<Record>)
    requires j <= |Header(r)| && TextRecords(rs) && IsText(r.op) && TextRecords(more)
    ensures IsText(Encode(rs) + Header(r)[..j] + Encode(more)) <==> j == |Header(r)| || !IsContinuation(Header(r)[j])
  {
    EncodedIsText(rs);
    EncodedIsText(more);
    HeaderIsText(r);
    hide IsText, Encode, Header, IsContinuation;
    var (a, h, c) := (Encode(rs), Header(r), Encode(more));
    assert a + h[..j] + c == a + (h[..j] + c);
    TextConcat(a, h[..j] + c);
    if j < |h| {
      TornText(h, j, c);
    } else {
      assert h[..j] == h;
      TextConcat(h, c);
    }
  }

  // ---- cut in the first three bytes ----

  lemma {:induction false} DropNewlinesOver(l: string, rest: string)
    ensures DropNewlines(l + "\n" + rest)
         == if DropNewlines(l) == "" then DropNewlines(rest) else DropNewlines(l) + "\n" + rest
    decreases |l|
  {
    if l != "" && (l[0] == '\n' || l[0] == '\r') {
      DropNewlinesOver(l[1..], rest);
      assert (l + "\n" + rest)[1..] == l[1..] + "\n" + rest;
    } else if l == "" {
      assert (l + "\n" + rest)[1..] == rest;
    }
  }

  lemma SkipNewlines(s: string)
    ensures Items(s) == Items(DropNewlines(s))
  {
    Dropped(s);
    hide RecordAt, LegacyAt;
  }

  lemma {:induction false} Dropped(s: string)
    ensures DropNewlines(DropNewlines(s)) == DropNewlines(s)
  {
    if s != "" && (s[0] == '\n' || s[0] == '\r') { Dropped(s[1..]); }
  }

  /// A line the reader passes over: neither the start of a record nor that of
  /// an old drawer.
  predicate IsInert(l: string) {
    OneLine(l) && !("%% " <= DropNewlines(l)) && !SameNoCase(Trim(l), ":LOGBOOK:")
  }

  lemma {:induction false} TrimNewlines(s: string)
    ensures Trim(DropNewlines(s)) == Trim(s)
  {
    if s != "" && (s[0] == '\n' || s[0] == '\r') { TrimNewlines(s[1..]); }
  }

  lemma {:induction false} DropOneLine(l: string)
    requires OneLine(l)
    ensures OneLine(DropNewlines(l))
  {
    if l != "" && l[0] == '\r' { DropOneLine(l[1..]); }
  }

  lemma InertLineSkipped(l: string, rest: string)
    requires IsInert(l)
    ensures Items(l + "\n" + rest) == Items(rest)
  {
    var d := DropNewlines(l);
    hide Items, DropNewlines, SameNoCase, Trim;
    SkipNewlines(l + "\n" + rest);
    SkipNewlines(rest);
    DropNewlinesOver(l, rest);
    if d != "" {
      DropOneLine(l);
      TrimNewlines(l);
      BareLineSkipped(d, rest);
    }
  }

  lemma BareLineSkipped(d: string, rest: string)
    requires d != "" && d[0] != '\n' && d[0] != '\r' && OneLine(d) && !("%% " <= d) && !SameNoCase(Trim(d), ":LOGBOOK:")
    ensures Items(d + "\n" + rest) == Items(rest)
  {
    var s := d + "\n" + rest;
    var line := d + "\n";
    assert s == d + ['\n'] + rest;
    FirstIndexAt(d, '\n', rest);
    assert LineEnd(s) == |d| + 1 && s[..|d| + 1] == line && s[|d| + 1..] == rest;
    assert DropNewlines(s) == s && !("%% " <= s) by { NoMark(d, rest); }
    assert Trim(line) == Trim(d) by { LogLine.TrimDropsLast(line); assert line[..|d|] == d; }
    hide DrawerRest, RecordAt, Trim, SameNoCase, LineEnd, DropNewlines;
    assert LegacyAt(s) == None;
  }

  lemma NoMark(d: string, rest: string)
    requires d != "" && d[0] != '\n' && d[0] != '\r' && OneLine(d) && !("%% " <= d)
    ensures var s := d + "\n" + rest; DropNewlines(s) == s && !("%% " <= s)
  {
    var s := d + "\n" + rest;
    assert forall i :: 0 <= i < |d| ==> s[i] == d[i];
    assert s[|d|] == '\n';
    if |d| >= 3 { assert d[..3] == s[..3]; }
  }

  lemma {:induction false} InertLinesSkipped(ls: seq<string>, rest: string)
    requires forall i :: 0 <= i < |ls| ==> IsInert(ls[i])
    ensures Items(Terminated(ls) + rest) == Items(rest)
  {
    hide Items, IsInert;
    if ls == [] {
      assert "" + rest == rest;
    } else {
      InertLinesSkipped(ls[1..], rest);
      InertLineSkipped(ls[0], Terminated(ls[1..]) + rest);
      assert Terminated(ls) + rest == ls[0] + "\n" + (Terminated(ls[1..]) + rest);
    }
  }

  /// Behind a tear in the first three bytes of a record, reading goes on inside
  /// the payload of the first record appended.
  lemma FirstBytesAreSkipped(j: nat, m: Record, later: string)
    requires 0 < j < 3 && Writable(m)
    ensures Items("%%"[..j] + EncodeOne(m) + later) == Items(m.payload + "\n" + later)
  {
    var (d, rest) := ("%%"[..j] + Header(m), m.payload + "\n" + later);
    HeaderIsOneLine(m);
    HeaderStart(m);
    assert "%%"[..j] + EncodeOne(m) + later == d + "\n" + rest;
    assert d[0] == '%' && d[2] == '%';
    PercentLine(d);
    hide Header, Items, EncodeOne;
    BareLineSkipped(d, rest);
  }

  lemma PercentLine(d: string)
    requires |d| > 2 && d[0] == '%'
    ensures !SameNoCase(Trim(d), ":LOGBOOK:")
  {
    assert TrimStart(d) == d;
    FirstKept(d);
  }

  /**
   Such a tear costs the first record appended behind it and, when no line of
   that record's payload starts a record or an old drawer, nothing else.
   */
  lemma TornStartCostsOneRecord(rs: seq<Record>, j: nat, m: Record, more: seq<Record>)
    requires AllWritable(rs) && Writable(m) && AllWritable(more) && 0 < j < 3
    requires TextRecords(rs) && TextRecords([m]) && TextRecords(more)
    requires var lines := SplitNl(m.payload); forall i :: 0 <= i < |lines| ==> IsInert(lines[i])
    ensures var log := ReadLog(Encode(rs) + "%%"[..j] + EncodeOne(m) + Encode(more));
      log.Some? && OpsOf(log.value) == rs + more
  {
    var (a, p, c) := (Encode(rs), "%%"[..j], Encode(more));
    var s := a + p + EncodeOne(m) + c;
    hide *;
    TornStartItems(rs, j, m, more);
    TornStartText(rs, j, m, more);
    OpsOfItems(rs + more);
    TextRecordsJoin(rs, more);
    OpsAreText(Items(s));
    LogRead(s);
  }

  lemma TextRecordsJoin(rs: seq<Record>, more: seq<Record>)
    requires TextRecords(rs) && TextRecords(more)
    ensures TextRecords(rs + more)
  {
    hide IsText;
    assert forall i :: 0 <= i < |rs + more| ==> (rs + more)[i] == if i < |rs| then rs[i] else more[i - |rs|];
  }

  lemma TornStartItems(rs: seq<Record>, j: nat, m: Record, more: seq<Record>)
    requires AllWritable(rs) && Writable(m) && AllWritable(more) && 0 < j < 3
    requires var lines := SplitNl(m.payload); forall i :: 0 <= i < |lines| ==> IsInert(lines[i])
    ensures Items(Encode(rs) + "%%"[..j] + EncodeOne(m) + Encode(more)) == AsItems(rs + more)
  {
    var (a, p, c, lines) := (Encode(rs), "%%"[..j], Encode(more), SplitNl(m.payload));
    hide *;
    TerminatedIsJoined(lines);
    JoinSplit(m.payload);
    WholeRecordsSurviveATear(rs, p, EncodeOne(m) + c);
    Regroup(a + p, EncodeOne(m), c);
    Regroup(p, EncodeOne(m), c);
    FirstBytesAreSkipped(j, m, c);
    InertLinesSkipped(lines, c);
    WholeLog(more);
    ItemsBehind(rs, more);
  }

  lemma WholeLog(more: seq<Record>)
    requires AllWritable(more)
    ensures Items(Encode(more)) == AsItems(more)
  {
    hide Items, Encode;
    RecordsReadBack(more, "");
    NothingToRead();
    assert Encode(more) + "" == Encode(more) && AsItems(more) + [] == AsItems(more);
  }

  lemma ItemsBehind(rs: seq<Record>, more: seq<Record>)
    ensures AsItems(rs) + AsItems(more) == AsItems(rs + more)
  {
    hide AsItem;
  }

  lemma TornStartText(rs: seq<Record>, j: nat, m: Record, more: seq<Record>)
    requires TextRecords(rs) && TextRecords([m]) && TextRecords(more) && j < 3
    ensures IsText(Encode(rs) + "%%"[..j] + EncodeOne(m) + Encode(more))
  {
    assert [m][0] == m;
    EncodedIsText(rs);
    EncodedIsText(more);
    EncodedOneIsText(m);
    AsciiIsText("%%"[..j]);
    hide IsText, Encode, EncodeOne;
    TextConcat(Encode(rs), "%%"[..j]);
    TextConcat(Encode(rs) + "%%"[..j], EncodeOne(m));
    TextConcat(Encode(rs) + "%%"[..j] + EncodeOne(m), Encode(more));
  }
}
