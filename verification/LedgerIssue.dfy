/**
 The issue in a ledger file, read with the reader of a tracker file (`read_file`
 and `heading_from_rendered`, `crates/vissue-core/src/ledger.rs`): the header a
 commit writes and the payload of a `replace` record hold the issue.
 */
module LedgerIssue {
  import opened Base
  import opened Text
  import opened Org
  import opened Issue
  import opened Escape
  import opened DrawerSite
  import opened ReadIssue
  import opened SiteReadsBack
  import opened IssueReadsBack
  import opened Board
  import opened BoardReadsBack
  import opened LedgerStore
  import LedgerHeader
  import Planning
  import Print
  import ReadBody

  /// The first issue of a text.
  function ReadFirst(text: string, s: Settings): Option<Heading> {
    match ReadBoard(LinesOf(text), s)
    case None => None
    case Some(d) => if d.headings == [] then None else Some(d.headings[0])
  }

  /// How a ledger writes and reads an issue under a preamble.
  function FileCodec(preamble: string, s: Settings): Codec {
    Codec(h => Print.Printed(h), text => ReadFirst(text, s), text => ReadFirst(TrimEnd(preamble) + "\n" + text, s))
  }

  // ---- an issue behind lines that are none ----

  lemma NothingFollows()
    ensures Follows([], 0)
  {
  }

  lemma AloneStarts(h: Heading, s: Settings)
    requires Listable(h, s)
    ensures LinesOf(Print.Printed(h)) != [] && StartsIssue(LinesOf(Print.Printed(h)), s)
  {
    hide *;
    IssueStarts(h, s, []);
    NothingBehind(LinesOf(Print.Printed(h)));
  }

  lemma AloneIsRead(h: Heading, s: Settings)
    requires Listable(h, s)
    ensures var ls := LinesOf(Print.Printed(h));
      ls != [] && ReadFrom(ls, s.keywords, s.usual) == Some((OnLines(AsRead(h), 1, |ls|), |ls|))
  {
    assert Readable(h, s.keywords);
    hide *;
    NothingFollows();
    WithNothing(h, s, []);
  }

  lemma WithNothing(h: Heading, s: Settings, none: seq<string>)
    requires Readable(h, s.keywords) && none == [] && Follows(none, 0)
    ensures var ls := LinesOf(Print.Printed(h));
      ls != [] && ReadFrom(ls, s.keywords, s.usual) == Some((OnLines(AsRead(h), 1, |ls|), |ls|))
  {
    hide *;
    WrittenIssueIsRead(h, s.keywords, s.usual, none, 0);
    var ls := LinesOf(Print.Printed(h));
    assert ls + none == ls;
  }

  lemma NothingBehind<T>(ls: seq<T>)
    ensures ls + [] == ls
  {
  }

  lemma AloneAtItsPlace(front: seq<string>, ls: seq<string>, x: Heading, s: Settings)
    requires ls != [] && StartsIssue(ls, s) && ReadFrom(ls, s.keywords, s.usual) == Some((OnLines(x, 1, |ls|), |ls|))
    ensures ReadHeadings(front + ls, |front|, s) == Some(([OnLines(x, |front| + 1, |front| + |ls|)], [""]))
  {
    hide *;
    var lines := front + ls;
    assert lines[|front|..] == ls && lines[|lines|..] == [] && lines[|lines|..|lines| + 0] == [];
    ShiftedIssue(lines, |front|, s, x, |ls|);
    NoneLeft(lines, s);
    ReadStep(lines, |front|, s, OnLines(x, |front| + 1, |lines|), |lines|, 0, [], [], "");
    NothingBehind([OnLines(x, |front| + 1, |lines|)]);
    NothingBehind([""]);
  }

  lemma NoneLeft(lines: seq<string>, s: Settings)
    ensures ReadHeadings(lines, |lines|, s) == Some(([], [])) && NextIssue(START, [], s) == 0 && Between([]) == ""
  {
    assert JoinNl([]) == "" && Trim("") == "";
  }

  /// An issue behind lines that hold no heading is the one that is read.
  lemma FrontIssueIsRead(front: seq<string>, h: Heading, s: Settings)
    requires IsFront(front, s) && Listable(h, s)
    ensures var (r, ls) := (ReadBoard(front + LinesOf(Print.Printed(h)), s), LinesOf(Print.Printed(h)));
      r.Some? && r.value.headings == [OnLines(AsRead(h), |front| + 1, |front| + |ls|)]
  {
    hide *;
    AloneStarts(h, s);
    AloneIsRead(h, s);
    FrontIsRead(front, LinesOf(Print.Printed(h)), AsRead(h), s);
  }

  lemma FrontIsRead(front: seq<string>, ls: seq<string>, x: Heading, s: Settings)
    requires IsFront(front, s)
    requires ls != [] && StartsIssue(ls, s) && ReadFrom(ls, s.keywords, s.usual) == Some((OnLines(x, 1, |ls|), |ls|))
    ensures var r := ReadBoard(front + ls, s);
      r.Some? && r.value.headings == [OnLines(x, |front| + 1, |front| + |ls|)]
  {
    hide *;
    FrontFacts(front, s);
    AloneAtItsPlace(front, ls, x, s);
    FrontSkipped(START, front, ls, s);
    BoardHeadings(front + ls, |front|, s);
  }

  lemma BoardHeadings(lines: seq<string>, n: nat, s: Settings)
    requires NextIssue(START, lines, s) == n
    ensures var (r, hs) := (ReadBoard(lines, s), ReadHeadings(lines, n, s));
      (r.Some? <==> hs.Some?) && (r.Some? ==> r.value.headings == hs.value.0)
  {
    hide NextIssue, ReadHeadings;
  }

  // ---- the header of a new file ----

  /// The lines in front of the issue.
  function HeaderFront(preamble: string, rendered: string): seq<string> {
    var s := LedgerHeader.StartOf(preamble);
    LinesOf(LedgerHeader.Front(preamble))
    + (["#+VISSUE_LEDGER:"] + [LedgerHeader.SpanLine(s, s + LedgerHeader.CountOf(rendered) - 1)])
  }

  predicate EndsVisibly(u: string) {
    u != "" && u[|u| - 1] != '\r' && u[|u| - 1] != '\n'
  }

  lemma PiecesWithNewline(p: string)
    ensures SplitNl(p + "\n") == SplitNl(p) + [""]
  {
    var r := SplitNl(p);
    JoinSplit(p);
    hide SplitNl, JoinNl;
    JoinAppend(r, "");
    assert p + "\n" + "" == p + "\n";
    SplitJoin(r + [""]);
  }

  lemma VisiblePieces(p: string)
    requires EndsVisibly(p)
    ensures var r := SplitNl(p); r != [] && r[|r| - 1] != "" && DropCr(r[|r| - 1]) == r[|r| - 1]
  {
    JoinSplit(p);
    LastChar(SplitNl(p));
    hide SplitNl, JoinNl;
  }

  lemma LinesOfPieces(r: seq<string>)
    requires r != [] && r[|r| - 1] != ""
    ensures LinesFrom(DropCrs(r)) == DropCrs(r) && LinesFrom(DropCrs(r) + [""]) == DropCrs(r)
  {
    DropCrsAt(r);
    hide DropCrs;
    var ls := DropCrs(r);
    assert (ls + [""])[..|ls|] == ls;
  }

  /// The last newline of a text makes no line of its own.
  lemma LastNewline(p: string)
    requires EndsVisibly(p)
    ensures LinesOf(p + "\n") == LinesOf(p)
  {
    hide *;
    VisiblePieces(p);
    PiecesWithNewline(p);
    CrsOfMore(SplitNl(p));
    LinesOfPieces(SplitNl(p));
    LinesAreFrom(p);
    LinesAreFrom(p + "\n");
  }

  lemma {:induction false} LastChar(r: seq<string>)
    requires r != [] && JoinNl(r) != "" && JoinNl(r)[|JoinNl(r)| - 1] != '\n'
    ensures var l := r[|r| - 1]; l != "" && l[|l| - 1] == JoinNl(r)[|JoinNl(r)| - 1]
  {
    if |r| > 1 {
      assert JoinNl(r) == r[0] + "\n" + JoinNl(r[1..]);
      LastChar(r[1..]);
    }
  }

  lemma CrsOfMore(r: seq<string>)
    requires r != [] && DropCr(r[|r| - 1]) == r[|r| - 1]
    ensures DropCrs(r + [""]) == DropCrs(r) + [""]
  {
    DropCrsAt(r);
    DropCrsAt(r + [""]);
    hide DropCr, DropCrs;
    var (a, b) := (DropCrs(r + [""]), DropCrs(r) + [""]);
    assert forall i :: 0 <= i < |a| ==> a[i] == b[i];
  }

  lemma {:induction false} JoinedLast(ls: seq<string>)
    requires ls != [] && ls[|ls| - 1] != ""
    ensures JoinNl(ls) != "" && JoinNl(ls)[|JoinNl(ls)| - 1] == ls[|ls| - 1][|ls[|ls| - 1]| - 1]
  {
    if |ls| > 1 {
      JoinedLast(ls[1..]);
    }
  }

  lemma {:induction false} LastDrawer(drawers: seq<string>)
    requires forall d :: d in drawers ==> DrawerReads(d)
    ensures var ls := DrawerLines(drawers); ls != [] ==> IsEndLine(ls[|ls| - 1])
    ensures drawers != [] ==> DrawerLines(drawers) != []
  {
    hide LinesOf, IsEndLine, Trim, Terminated, PlainLines;
    if drawers != [] {
      assert drawers == [drawers[0]] + drawers[1..] && DrawerReads(drawers[0]);
      LastDrawer(drawers[1..]);
    }
  }

  lemma EndStands()
    ensures IsEndLine(":END:")
  {
    TrimNothing(":END:");
  }

  lemma LastOfBoth(a: seq<string>, b: seq<string>)
    requires a != []
    ensures (a + b)[|a + b| - 1] == if b == [] then a[|a| - 1] else b[|b| - 1]
  {
  }

  lemma LogBlockLast(h: Heading)
    ensures var ls := LogBlock(h); ls != [] ==> IsEndLine(ls[|ls| - 1])
  {
    EndStands();
    hide IsEndLine, Print.LogLines;
  }

  /// The last line in front of the body ends a drawer.
  lemma FrontLast(h: Heading)
    requires forall d :: d in h.extraDrawers ==> DrawerReads(d)
    ensures var ls := FrontLines(h); ls != [] && IsEndLine(ls[|ls| - 1])
  {
    hide *;
    FrontIs(h);
    LastDrawer(h.extraDrawers);
    LogBlockLast(h);
    PropertyBlockParts(h);
    EndStands();
    var (p, l, d) := (PropertyBlock(h), LogBlock(h), DrawerLines(h.extraDrawers));
    if l != [] { LastOfBoth(l, d); } else { assert l + d == d; }
    LastOfBoth(p, l + d);
    LastOfBoth([HeadText(h)] + DateLines(h), p + (l + d));
  }

  lemma EndLineIsVisible(line: string)
    requires IsEndLine(line) && PlainLine(line)
    ensures EndsVisibly(line)
  {
    assert Trim("") == "";
    assert line[|line| - 1] in line;
  }

  lemma FrontVisible(h: Heading, s: Settings)
    requires Listable(h, s)
    ensures FrontLines(h) != [] && EndsVisibly(JoinNl(FrontLines(h)))
  {
    assert Readable(h, s.keywords) && forall d :: d in h.extraDrawers ==> DrawerReads(d);
    hide *;
    var ls := FrontLines(h);
    FrontLast(h);
    FrontPlain(h, s.keywords);
    LastPlain(ls);
    EndLineIsVisible(ls[|ls| - 1]);
    VisibleJoin(ls);
  }

  /// The text of an issue ends in one newline behind a line that is not empty.
  lemma PrintedLast(h: Heading, s: Settings) returns (u: string)
    requires Listable(h, s)
    ensures Print.Printed(h) == u + "\n" && EndsVisibly(u)
  {
    assert Readable(h, s.keywords) && BodyReads(h.body) && forall d :: d in h.extraDrawers ==> DrawerReads(d);
    hide *;
    var text := Terminated(FrontLines(h));
    PrintedAsLines(h);
    if h.body == "" {
      u := JoinNl(FrontLines(h));
      NoBody();
      FrontVisible(h, s);
      TerminatedIsJoined(FrontLines(h));
      NothingBehind(text);
    } else {
      u := text + "\n" + EscapedBody(h.body);
      BodyLines(h.body);
      BodyTextIs(h.body);
      VisibleBehind(text + "\n", EscapedBody(h.body));
      NewlinesMeet(text, EscapedBody(h.body));
    }
  }

  lemma NewlinesMeet(a: string, b: string)
    ensures a + ("\n" + (b + "\n")) == a + "\n" + b + "\n"
  {
  }

  lemma NoBody()
    ensures Print.BodyText("") == ""
  {
  }

  lemma LastPlain(ls: seq<string>)
    requires ls != [] && PlainLines(ls)
    ensures PlainLine(ls[|ls| - 1])
  {
  }

  lemma VisibleJoin(ls: seq<string>)
    requires ls != [] && EndsVisibly(ls[|ls| - 1])
    ensures EndsVisibly(JoinNl(ls))
  {
    JoinedLast(ls);
    hide JoinNl;
  }

  lemma VisibleBehind(a: string, b: string)
    requires ReadBody.NoOuterSpace(b)
    ensures EndsVisibly(a + b)
  {
    assert (a + b)[|a + b| - 1] == b[|b| - 1];
  }

  lemma BodyTextIs(body: string)
    requires body != "" && ReadBody.NoOuterSpace(EscapedBody(body))
    ensures Print.BodyText(body) == "\n" + (EscapedBody(body) + "\n")
  {
    hide EscapedBody;
  }

  // ---- the lines of the header ----

  lemma HeaderLines(preamble: string, rendered: string, u: string)
    requires rendered == u + "\n" && EndsVisibly(u)
    ensures LinesOf(HeaderLeft(preamble, rendered)) == HeaderFront(preamble, rendered) + LinesOf(rendered)
  {
    hide *;
    var n := LedgerHeader.StartOf(preamble);
    var e := n + LedgerHeader.CountOf(rendered) - 1;
    var (f, mark, span) := (LedgerHeader.Front(preamble), "#+VISSUE_LEDGER:", LedgerHeader.SpanLine(n, e));
    LedgerHeader.LeftIs(preamble, rendered);
    LessIsFront(rendered, u);
    LedgerHeader.FrontLines(preamble);
    LedgerHeader.SpanIsPlain(n, e);
    LedgerHeader.MarkLines();
    OneOfLines(mark);
    OneOfLines(span);
    NewlineGone(u);
    JoinedParts(f, span + "\n", u);
    LinesConcat(f, (mark + "\n") + ((span + "\n") + u));
    LinesConcat(mark + "\n", (span + "\n") + u);
    LinesConcat(span + "\n", u);
    FrontOf(preamble, rendered);
    ThreeParts(LinesOf(f), [mark] + [span], LinesOf(u));
    ThreeParts([mark], [span], LinesOf(u));
  }

  lemma FrontOf(preamble: string, rendered: string)
    ensures var n := LedgerHeader.StartOf(preamble);
      HeaderFront(preamble, rendered) == LinesOf(LedgerHeader.Front(preamble))
        + (["#+VISSUE_LEDGER:"] + [LedgerHeader.SpanLine(n, n + LedgerHeader.CountOf(rendered) - 1)])
  {
  }

  lemma NewlineGone(u: string)
    requires EndsVisibly(u)
    ensures LinesOf(u + "\n") == LinesOf(u)
  {
    LastNewline(u);
  }

  lemma LessIsFront(rendered: string, u: string)
    requires rendered == u + "\n"
    ensures LedgerHeader.Less(rendered) == u
  {
  }

  lemma JoinedParts(f: string, span: string, u: string)
    ensures LedgerHeader.JoinedHeader(f, span, u) == f + (("#+VISSUE_LEDGER:" + "\n") + (span + u))
  {
    assert "#+VISSUE_LEDGER:\n" == "#+VISSUE_LEDGER:" + "\n";
  }

  /// A keyword line that opens neither a block nor a result.
  lemma KeptShut(scan: Scan, line: string)
    requires !LeavesOpen(scan) && !IsBlockBegin(TrimStart(line)) && !IsResultsKeyword(Trim(line))
    ensures !LeavesOpen(Step(scan, line).0)
  {
  }

  lemma MarkTrimmed(rest: string)
    ensures var (line, t) := ("#+VISSUE_L" + rest, "#+VISSUE_L" + TrimEnd(rest));
      TrimStart(line) == line && Trim(line) == t && Trim(t) == t
  {
    var line := "#+VISSUE_L" + rest;
    TrimEndBehind("#+VISSUE_L", rest);
    TrimTwice(line);
    assert line[0] == '#';
  }

  lemma MarkStays(line: string)
    requires "#+VISSUE_L" <= line
    ensures !EndsTheIssue(line) && !IsBlockBegin(TrimStart(line)) && !IsResultsKeyword(Trim(line))
  {
    var rest := line[10..];
    var t := "#+VISSUE_L" + TrimEnd(rest);
    assert line == "#+VISSUE_L" + rest && line[0] == '#';
    MarkTrimmed(rest);
    hide TrimEnd, TrimStart, Trim;
    NoKeyword(line);
    NoKeyword(t);
    hide StartsNoCase;
  }

  lemma NoKeyword(t: string)
    requires |t| >= 10 && t[2] == 'V'
    ensures !StartsNoCase(t[2..], "BEGIN_") && !StartsNoCase(t[2..], "BEGIN:") && !StartsNoCase(t[2..], "RESULT")
  {
    var s := t[2..];
    assert s[0] == 'V' && Lower('V') == 'v';
    assert StartsNoCase(s, "BEGIN_") ==> Lower(s[..6][0]) == Lower("BEGIN_"[0]);
    assert StartsNoCase(s, "BEGIN:") ==> Lower(s[..6][0]) == Lower("BEGIN:"[0]);
    assert StartsNoCase(s, "RESULT") ==> Lower(s[..6][0]) == Lower("RESULT"[0]);
  }

  lemma FrontWithMark(front: seq<string>, line: string, s: Settings)
    requires IsFront(front, s) && "#+VISSUE_L" <= line
    ensures IsFront(front + [line], s)
  {
    MarkStays(line);
    RunSnoc(START, front, line);
    StartsNoneSnoc(START, front, line, s);
    hide Step, IsBlockBegin, IsResultsKeyword, EndsTheIssue, LeavesOpen, StartsNone;
    KeptShut(Run(START, front), line);
  }

  lemma MarksStart(s: nat, e: nat)
    ensures "#+VISSUE_L" <= "#+VISSUE_LEDGER:" && "#+VISSUE_L" <= LedgerHeader.SpanLine(s, e)
  {
    var line := LedgerHeader.SpanLine(s, e);
    assert line[..10] == "#+VISSUE_LINES: "[..10];
    assert "#+VISSUE_LINES: "[..10] == "#+VISSUE_L";
  }

  lemma BlankFront(s: Settings)
    ensures IsFront([], s)
  {
  }

  lemma PreambleIsFront(preamble: string, s: Settings)
    requires TrimEnd(preamble) == "" || PreambleReads(preamble, s)
    ensures IsFront(LinesOf(LedgerHeader.Front(preamble)), s)
  {
    var text := TrimEnd(preamble);
    TrimTwice(preamble);
    if text != "" {
      assert PlainLines(SplitNl(text)) && IsFront(SplitNl(text), s);
    }
    hide *;
    LedgerHeader.FrontIs(preamble);
    if text == "" {
      NoLines();
      BlankFront(s);
    } else {
      PreambleLines(text);
      FrontWithBlank(SplitNl(text), s);
    }
  }

  lemma TwoMarks(front: seq<string>, n: nat, e: nat, s: Settings)
    requires IsFront(front, s)
    ensures IsFront(front + (["#+VISSUE_LEDGER:"] + [LedgerHeader.SpanLine(n, e)]), s)
  {
    hide *;
    MarksStart(n, e);
    FrontWithMark(front, "#+VISSUE_LEDGER:", s);
    FrontWithMark(front + ["#+VISSUE_LEDGER:"], LedgerHeader.SpanLine(n, e), s);
    ThreeParts(front, ["#+VISSUE_LEDGER:"], [LedgerHeader.SpanLine(n, e)]);
  }

  /// A preamble that is blank or comes back stands in front of the issue.
  lemma HeaderFrontIsFront(preamble: string, rendered: string, s: Settings)
    requires TrimEnd(preamble) == "" || PreambleReads(preamble, s)
    ensures IsFront(HeaderFront(preamble, rendered), s)
  {
    hide *;
    var n := LedgerHeader.StartOf(preamble);
    PreambleIsFront(preamble, s);
    TwoMarks(LinesOf(LedgerHeader.Front(preamble)), n, n + LedgerHeader.CountOf(rendered) - 1, s);
    FrontOf(preamble, rendered);
  }

  /**
   The header a commit writes for a new issue is read as that issue, on the
   lines the header names.
   */
  lemma NewFileIsRead(preamble: string, h: Heading, s: Settings)
    requires (TrimEnd(preamble) == "" || PreambleReads(preamble, s)) && Listable(h, s)
    ensures var (rendered, first) := (Print.Printed(h), LedgerHeader.StartOf(preamble));
      ReadFirst(HeaderLeft(preamble, rendered), s)
        == Some(OnLines(AsRead(h), first, first + LedgerHeader.CountOf(rendered) - 1))
  {
    hide *;
    var rendered := Print.Printed(h);
    var front := HeaderFront(preamble, rendered);
    var u := PrintedLast(h, s);
    HeaderLines(preamble, rendered, u);
    HeaderFrontIsFront(preamble, rendered, s);
    FrontIssueIsRead(front, h, s);
    AloneStarts(h, s);
    CountFits(preamble, rendered);
    FirstIs(HeaderLeft(preamble, rendered), s);
  }

  lemma FirstIs(text: string, s: Settings)
    ensures var r := ReadBoard(LinesOf(text), s);
      r.Some? && r.value.headings != [] ==> ReadFirst(text, s) == Some(r.value.headings[0])
  {
    hide ReadBoard, LinesOf;
  }

  lemma CountFits(preamble: string, rendered: string)
    requires LinesOf(rendered) != []
    ensures |HeaderFront(preamble, rendered)| + 1 == LedgerHeader.StartOf(preamble)
    ensures LedgerHeader.CountOf(rendered) == |LinesOf(rendered)|
  {
    LedgerHeader.FrontLines(preamble);
    hide LinesOf, LedgerHeader.Front, Trim;
  }

  // ---- the payload of a `replace` record ----

  lemma ReplaceFront(preamble: string, s: Settings)
    requires TrimEnd(preamble) == "" || PreambleReads(preamble, s)
    ensures var text := TrimEnd(preamble);
      && IsFront(LinesOf(text + "\n"), s) && EndsLine(text + "\n")
      && |LinesOf(text + "\n")| == if text == "" then 1 else |SplitNl(text)|
  {
    var text := TrimEnd(preamble);
    TrimTwice(preamble);
    if text == "" {
      BlankFront(s);
      FrontWithBlank([], s);
      assert [] + [""] == [""] && text + "\n" == "\n";
      hide *;
      OneNewline();
      OneNewline();
    } else {
      var pieces := SplitNl(text);
      assert PlainLines(pieces) && IsFront(pieces, s);
      JoinSplit(text);
      hide *;
      TerminatedIsJoined(pieces);
      LinesOfTerminated(pieces);
      EndsBehind(text, "\n") by { OneNewline(); }
      OneNewline();
    }
  }

  /// The payload of a `replace` record is read as the issue it was written for.
  lemma ReplaceIsRead(preamble: string, h: Heading, s: Settings)
    requires (TrimEnd(preamble) == "" || PreambleReads(preamble, s)) && Listable(h, s)
    ensures var (text, n) := (TrimEnd(preamble) + "\n" + Print.Printed(h), |LinesOf(TrimEnd(preamble) + "\n")|);
      ReadFirst(text, s) == Some(OnLines(AsRead(h), n + 1, n + |LinesOf(Print.Printed(h))|))
  {
    hide *;
    var front := TrimEnd(preamble) + "\n";
    ReplaceFront(preamble, s);
    LinesConcat(front, Print.Printed(h));
    FrontIssueIsRead(LinesOf(front), h, s);
    FirstIs(front + Print.Printed(h), s);
  }

  // ---- a commit takes such an issue ----

  lemma PlanningIsLine(k: string)
    requires k in Print.PLANNING_KEYS || k == "ID"
    ensures OneLine(k)
  {
  }

  lemma KeyIsLine(h: Heading, k: string)
    requires PropertiesRead(h) && k in KeysRead(h)
    ensures OneLine(k)
  {
    FirstsFacts(Print.PLANNING_KEYS, h.properties);
    KeysAre(h);
    hide Firsts, Shown, DatesIn, OneLine, Trim, Planning.AllTimestamps, KeysRead, Print.PLANNING_KEYS, PlainLine;
    if k in Shown(h) {
      assert ShownReads(h, k);
    } else {
      assert k in Firsts(DatesIn(h)) || k == "ID";
      assert k in Firsts(DatesIn(h)) ==> k in Print.PLANNING_KEYS by { DatedKey(h, k); }
      PlanningIsLine(k);
    }
  }

  lemma DatedKey(h: Heading, k: string)
    ensures k in Firsts(DatesIn(h)) ==> k in Print.PLANNING_KEYS
  {
    FirstsFacts(Print.PLANNING_KEYS, h.properties);
    hide Firsts, Trim, Print.PLANNING_KEYS, Planning.DatesOf;
  }

  lemma KeysAreLines(h: Heading, keywords: set<string>)
    requires Readable(h, keywords)
    ensures forall k :: k in AsRead(h).properties ==> OneLine(k)
    ensures Get(AsRead(h).properties, "ID") == Some(Trim(h.id)) && AsRead(h).id == Trim(h.id)
  {
    assert PropertiesRead(h);
    hide *;
    IdIsRead(h, keywords);
    AsReadParts(h);
    forall k | k in AsRead(h).properties ensures OneLine(k) {
      KeyRead(h, k);
      KeyIsLine(h, k);
    }
  }

  lemma KeyRead(h: Heading, k: string)
    ensures k in AsRead(h).properties <==> k in KeysRead(h)
  {
    hide KeysRead, ValueRead;
  }

  lemma ArrivalOf(preamble: string, s: Settings, files: Files, h: Heading)
    requires StateOf(FileCodec(preamble, s), files, h.id).Absent? || StateOf(FileCodec(preamble, s), files, h.id).Tombstoned?
    ensures Arrival(FileCodec(preamble, s), preamble, files, h) ==
      if StateOf(FileCodec(preamble, s), files, h.id).Absent? then ReadFirst(HeaderLeft(preamble, Print.Printed(h)), s)
      else ReadFirst(TrimEnd(preamble) + "\n" + Print.Printed(h), s)
  {
    hide ReadFirst, HeaderLeft, Print.Printed, StateOf, TrimEnd;
  }

  lemma TakenWhenRead(c: Codec, preamble: string, files: Files, h: Heading, x: Heading)
    requires Arrival(c, preamble, files, h) == Some(x) && !StateOf(c, files, h.id).Live?
    requires x.id == h.id && Get(x.properties, "ID") == Some(h.id) && forall k :: k in x.properties ==> OneLine(k)
    requires !Occurs(LOG_MARK, HeaderLeft(preamble, c.render(h)) + "\n")
    ensures Acceptable(c, preamble, files, h)
  {
    hide Arrival, StateOf, Occurs, HeaderLeft, OneLine;
  }

  lemma RendersPrinted(preamble: string, s: Settings, h: Heading)
    ensures FileCodec(preamble, s).render(h) == Print.Printed(h)
  {
    hide Print.Printed, ReadFirst;
  }

  lemma NewArrival(preamble: string, s: Settings, files: Files, h: Heading) returns (first: nat, last: nat)
    requires (TrimEnd(preamble) == "" || PreambleReads(preamble, s)) && Listable(h, s)
    requires StateOf(FileCodec(preamble, s), files, h.id).Absent? || StateOf(FileCodec(preamble, s), files, h.id).Tombstoned?
    ensures Arrival(FileCodec(preamble, s), preamble, files, h) == Some(OnLines(AsRead(h), first, last))
  {
    hide *;
    ArrivalOf(preamble, s, files, h);
    if StateOf(FileCodec(preamble, s), files, h.id).Absent? {
      NewFileIsRead(preamble, h, s);
      first := LedgerHeader.StartOf(preamble);
      last := first + LedgerHeader.CountOf(Print.Printed(h)) - 1;
    } else {
      ReplaceIsRead(preamble, h, s);
      var n := |LinesOf(TrimEnd(preamble) + "\n")|;
      first, last := n + 1, n + |LinesOf(Print.Printed(h))|;
    }
  }

  lemma PlacedSame(x: Heading, first: nat, last: nat)
    ensures OnLines(x, first, last).id == x.id && OnLines(x, first, last).properties == x.properties
  {
  }

  /**
   With this writer and reader, a commit can take every new or returned issue
   that can be read, and its file folds to that issue as it is read.
   */
  lemma NewIssueIsTaken(preamble: string, s: Settings, files: Files, h: Heading) returns (first: nat, last: nat)
    requires (TrimEnd(preamble) == "" || PreambleReads(preamble, s)) && Listable(h, s) && Trim(h.id) == h.id
    requires StateOf(FileCodec(preamble, s), files, h.id).Absent? || StateOf(FileCodec(preamble, s), files, h.id).Tombstoned?
    requires !Occurs(LOG_MARK, HeaderLeft(preamble, Print.Printed(h)) + "\n")
    ensures Acceptable(FileCodec(preamble, s), preamble, files, h)
    ensures Arrival(FileCodec(preamble, s), preamble, files, h) == Some(OnLines(AsRead(h), first, last))
  {
    assert Readable(h, s.keywords);
    hide *;
    first, last := NewArrival(preamble, s, files, h);
    KeysAreLines(h, s.keywords);
    RendersPrinted(preamble, s, h);
    PlacedSame(AsRead(h), first, last);
    TakenWhenRead(FileCodec(preamble, s), preamble, files, h, OnLines(AsRead(h), first, last));
  }
}
