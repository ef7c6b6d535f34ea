/**
 Bodies that do not come back, or that take the next issue with them
 (`parse_heading`, `crates/vissue-core/src/store.rs`).
 */
module LostBodies {
  import opened Text
  import opened Org
  import opened Escape
  import opened DrawerSite
  import opened ReadBody

  const BLOCK_LINE := "#+BEGIN_SRC sh"
  const DRAWER_LINE := ":NOTES:"
  const NEXT_ISSUE := ["* TODO the next issue", ":PROPERTIES:", ":ID: x-2", ":END:"]

  /// A body of one line that opens a block: the heading behind it is read as
  /// more of the body.
  lemma OpenBlockSwallowsTheNextIssue()
    ensures var all := Written(BLOCK_LINE) + NEXT_ISSUE; BodyStart(all) == 1 && IssueEnd(all) > |Written(BLOCK_LINE)|
  {
    OpensABlock();
    FirstIsHeading();
    hide *;
    OneLineBody(BLOCK_LINE);
    WrittenAs(BLOCK_LINE);
    StartOfWritten(Written(BLOCK_LINE), [BLOCK_LINE]);
    StartBeforeHeading(Written(BLOCK_LINE), NEXT_ISSUE);
    NextIssueIsFoundExactly(BLOCK_LINE, NEXT_ISSUE);
    NotFoundOpen([BLOCK_LINE]);
    NoHeadingLine([BLOCK_LINE]);
    assert Written(BLOCK_LINE)[0 + 1] == Written(BLOCK_LINE)[1];
    EndPastStart(Written(BLOCK_LINE), NEXT_ISSUE);
  }

  lemma NoHeadingLine(ls: seq<string>)
    requires ls == [BLOCK_LINE]
    ensures !LeftAsHeading(ls, 0)
  {
  }

  lemma NotFoundOpen(ls: seq<string>)
    requires BodyStart(ls) == 0 && LeavesOpen(Run(START, ls))
    ensures !FoundBehind(ls)
  {
    assert ls[0..] == ls;
  }

  /// With nothing in it that splits it, an issue ends behind its body or later.
  lemma EndPastStart(written: seq<string>, next: seq<string>)
    requires |written| == 2 && BodyStart(written + next) == 1 && IssueEnd(written + next) != 2 && !EndsTheIssue(written[1])
    ensures IssueEnd(written + next) > 2
  {
    var rest := (written + next)[1..];
    assert rest[0] == written[1];
    hide Step, EndsTheIssue, BodyStart;
  }

  lemma OneLineBody(line: string)
    requires line != "" && OneLine(line)
    ensures LinesOf(line) == [line]
  {
    SplitOneLine(line);
  }

  lemma BlockStep(s: Scan)
    requires s.results.Out?
    ensures Step(s, BLOCK_LINE).0 == Scan(s.depth + 1, Out)
    ensures OneLine(BLOCK_LINE) && Trim(BLOCK_LINE) == BLOCK_LINE && !OpensDrawer(BLOCK_LINE) && !IsEndLine(BLOCK_LINE)
  {
    var line := BLOCK_LINE;
    assert line[0] == '#' && TrimStart(line) == line;
    assert line[2..][..6] == "BEGIN_" && StartsNoCase(line[2..], "BEGIN_");
    TrimNothing(line);
    OtherWord(line[2..], "END_");
    OtherWord(line[2..], "END:");
    OtherWord(line[2..], "RESULT");
    assert Lower(line[0]) != Lower(":END:"[0]);
  }

  lemma OtherWord(s: string, word: string)
    requires s != "" && word != "" && Lower(s[0]) != Lower(word[0])
    ensures !StartsNoCase(s, word)
  {
    if |word| <= |s| {
      assert s[..|word|][0] == s[0];
    }
  }

  lemma OpensABlock()
    ensures BLOCK_LINE != "" && OneLine(BLOCK_LINE) && BodyStart([BLOCK_LINE]) == 0 && !EndsInDrawer([BLOCK_LINE])
    ensures LeavesOpen(Run(START, [BLOCK_LINE]))
  {
    BlockStep(START);
    hide Step, BLOCK_LINE, OpensDrawer, Trim;
    assert [BLOCK_LINE][1..] == [];
  }

  lemma NotesLine()
    ensures DRAWER_LINE != "" && OneLine(DRAWER_LINE) && Trim(DRAWER_LINE) == DRAWER_LINE && OpensDrawer(DRAWER_LINE)
    ensures Step(START, DRAWER_LINE).0 == START
  {
    var line := DRAWER_LINE;
    TrimNothing(line);
    assert line[0] == ':' && TrimStart(line) == line;
    assert !SameNoCase(line, ":END:");
    assert !IsFixedWidthLine(line);
  }

  /// A body of one line that names a drawer: nothing of it hides a heading, yet
  /// the parser takes the whole next issue, its `:END:` included, for that
  /// drawer.
  lemma OpenDrawerSwallowsTheNextIssue()
    ensures var all := Written(DRAWER_LINE) + NEXT_ISSUE; BodyStart(all) == |all|
    ensures !LeavesOpen(Run(START, LinesOf(DRAWER_LINE)))
  {
    NotesLine();
    hide *;
    OneLineBody(DRAWER_LINE);
    WrittenAs(DRAWER_LINE);
    SecondLine(Written(DRAWER_LINE), DRAWER_LINE);
    NotesTaken(Written(DRAWER_LINE));
    RunOne(DRAWER_LINE);
  }

  lemma SecondLine(written: seq<string>, line: string)
    requires |written| == 2 && SameTrimmed(written[1..], [line])
    ensures Trim(written[1]) == Trim(line)
  {
    hide Trim;
    assert written[1..][0] == written[1];
  }

  lemma RunOne(line: string)
    requires Step(START, line).0 == START
    ensures !LeavesOpen(Run(START, [line]))
  {
    hide Step;
    assert [line][1..] == [];
  }

  lemma NotesTaken(written: seq<string>)
    requires |written| == 2 && written[0] == "" && Trim(written[1]) == DRAWER_LINE && OpensDrawer(DRAWER_LINE)
    ensures BodyStart(written + NEXT_ISSUE) == |written + NEXT_ISSUE|
  {
    var all := written + NEXT_ISSUE;
    assert all[1..] == [written[1]] + NEXT_ISSUE && all[1..][1..] == NEXT_ISSUE;
    NextIssueLines();
    assert Trim("") == "";
    hide Trim, OpensDrawer, NEXT_ISSUE;
    assert all[1..][1 + |NEXT_ISSUE|..] == [];
    assert BodyStart([]) == 0;
  }

  lemma NextIssueLines()
    ensures DrawerRest(NEXT_ISSUE) == |NEXT_ISSUE|
  {
    var (a, b, c, d) := (NEXT_ISSUE[0], NEXT_ISSUE[1], NEXT_ISSUE[2], NEXT_ISSUE[3]);
    TrimNothing(a);
    TrimNothing(b);
    TrimNothing(c);
    TrimNothing(d);
    assert !IsEndLine(a) && !IsEndLine(b) && !IsEndLine(c) && IsEndLine(d);
    hide IsEndLine;
    assert NEXT_ISSUE[1..] == [b, c, d] && [b, c, d][1..] == [c, d] && [c, d][1..] == [d];
    assert DrawerRest([d]) == 1;
    assert DrawerRest([c, d]) == 2;
    assert DrawerRest([b, c, d]) == 3;
  }

  /// The same line further down is no drawer to the parser: the body comes
  /// back.
  lemma LaterDrawerIsText()
    ensures var all := Written("text\n:NOTES:") + NEXT_ISSUE;
      IssueEnd(all) == |Written("text\n:NOTES:")| && BodyRead(all) == EscapedBody("text\n:NOTES:")
  {
    var body := "text\n:NOTES:";
    LaterDrawer(body);
    assert EndsTheIssue(NEXT_ISSUE[0]);
    hide *;
    BodyComesBackExactly(body, NEXT_ISSUE);
  }

  lemma LaterDrawer(body: string)
    requires body == "text\n:NOTES:"
    ensures IsTidy(body) && !LeavesOpen(Run(START, SplitNl(body)))
  {
    var (a, b) := ("text", ":NOTES:");
    TextPieces(body);
    TextEnds(body);
    NotesLine();
    TextStep(a);
    TrimNothing(a);
    hide Step, SplitNl, TrimEnd, OpensDrawer, Trim;
    assert [a, b][1..] == [b] && [b][1..] == [];
    assert b == DRAWER_LINE && Run(START, [b]) == START;
    assert Run(START, [a, b]) == START;
  }

  lemma TextPieces(body: string)
    requires body == "text\n:NOTES:"
    ensures SplitNl(body) == ["text", ":NOTES:"]
  {
    var (a, b) := ("text", ":NOTES:");
    assert body == a + "\n" + b && [a] + [b] == [a, b];
    hide SplitNl;
    SplitAtNl(a, b);
    SplitOneLine(b);
  }

  lemma TextEnds(body: string)
    requires body == "text\n:NOTES:"
    ensures TrimEnd(body) == body
  {
  }

  lemma TextStep(line: string)
    requires line == "text"
    ensures Step(START, line).0 == START && !OpensDrawer(line)
  {
    assert TrimStart(line) == line;
    TrimNothing(line);
  }

  const FRONT_BLOCK := ":NOTES:\n#+BEGIN_SRC sh\n:END:\n* one of two"

  /// A drawer at the front of the body that opens a block: the writer leaves the
  /// heading behind it as block text, and the parser ends the issue there.
  lemma FrontBlockSplitsTheIssue()
    ensures var all := Written(FRONT_BLOCK) + NEXT_ISSUE;
      IssueEnd(all) == 4 < |Written(FRONT_BLOCK)|
  {
    FrontLines();
    FrontScan();
    hide *;
    WrittenAs(FRONT_BLOCK);
    StartOfWritten(Written(FRONT_BLOCK), FRONT);
    FirstIsHeading();
    StartBeforeHeading(Written(FRONT_BLOCK), NEXT_ISSUE);
    EndAtHeading(Written(FRONT_BLOCK) + NEXT_ISSUE, 4);
  }

  lemma FirstIsHeading()
    ensures NEXT_ISSUE != [] && EndsTheIssue(NEXT_ISSUE[0])
  {
  }

  lemma EndAtHeading(all: seq<string>, b: nat)
    requires BodyStart(all) == b < |all| && EndsTheIssue(all[b])
    ensures IssueEnd(all) == b
  {
    HeadlineFacts(all[b]);
    assert all[b..][0] == all[b];
  }

  const FRONT := [DRAWER_LINE, BLOCK_LINE, ":END:", "* one of two"]

  lemma FrontLines()
    ensures FRONT_BLOCK != "" && LinesOf(FRONT_BLOCK) == FRONT
  {
    FrontPieces();
    PlainFront();
    FrontText();
    hide SplitNl, FRONT_BLOCK, FRONT;
    NoCrs(FRONT);
  }

  lemma FrontPieces()
    ensures SplitNl(FRONT_BLOCK) == FRONT
  {
    var (a, b, c, d) := (DRAWER_LINE, BLOCK_LINE, ":END:", "* one of two");
    FrontText();
    assert FRONT == [a] + ([b] + ([c] + [d]));
    assert OneLine(a) && OneLine(b) && OneLine(c) && OneLine(d);
    hide *;
    SplitAtNl(a, b + "\n" + (c + "\n" + d));
    SplitAtNl(b, c + "\n" + d);
    SplitAtNl(c, d);
    SplitOneLine(d);
  }

  lemma FrontText()
    ensures FRONT_BLOCK == DRAWER_LINE + "\n" + (BLOCK_LINE + "\n" + (":END:" + "\n" + "* one of two"))
  {
  }

  lemma PlainFront()
    ensures PlainLines(FRONT) && |FRONT| == 4 && FRONT[|FRONT| - 1] != ""
  {
  }

  lemma FrontScan()
    ensures BodyStart(FRONT) == 3 && !EndsInDrawer(FRONT) && LeftAsHeading(FRONT, 3) && |FRONT| == 4
  {
    FrontSite();
    NotesLine();
    BlockStep(START);
    StaysInBlock(":END:");
    hide Step, BodyStart, EndsInDrawer, BLOCK_LINE, DRAWER_LINE;
    var (a, b, c) := (DRAWER_LINE, BLOCK_LINE, ":END:");
    assert FRONT[..3] == [a, b, c] && [a, b, c][1..] == [b, c] && [b, c][1..] == [c] && [c][1..] == [];
    assert Run(Scan(1, Out), [c]) == Scan(1, Out);
    assert Run(START, [b, c]) == Scan(1, Out);
  }

  lemma FrontSite()
    ensures BodyStart(FRONT) == 3 && !EndsInDrawer(FRONT)
  {
    NotesLine();
    BlockStep(START);
    TrimNothing(":END:");
    assert IsEndLine(":END:") && EndsTheIssue("* one of two");
    hide *;
    ClosedInFront(DRAWER_LINE, BLOCK_LINE, ":END:", "* one of two");
    assert FRONT == [DRAWER_LINE, BLOCK_LINE, ":END:", "* one of two"] by { FrontIs(); }
  }

  lemma FrontIs()
    ensures FRONT == [DRAWER_LINE, BLOCK_LINE, ":END:", "* one of two"]
  {
  }

  lemma ClosedInFront(a: string, b: string, c: string, d: string)
    requires Trim(a) == a && a != "" && OpensDrawer(a) && !IsEndLine(b) && IsEndLine(c) && EndsTheIssue(d)
    ensures BodyStart([a, b, c, d]) == 3 && !EndsInDrawer([a, b, c, d])
  {
    HeadlineStops([d]);
    HeadlineFacts(d);
    hide Trim, OpensDrawer, IsEndLine, EndsTheIssue;
    var all := [a, b, c, d];
    assert all[1..] == [b, c, d] && [b, c, d][1..] == [c, d] && all[3..] == [d];
    assert DrawerRest([c, d]) == 1 && DrawerRest([b, c, d]) == 2;
    assert IsClosed([b, c, d]) by { assert IsEndLine([b, c, d][1]); }
  }

  lemma StaysInBlock(c: string)
    requires c == ":END:"
    ensures Step(Scan(1, Out), c).0 == Scan(1, Out)
  {
    assert TrimStart(c) == c && c[0] == ':';
  }
}
