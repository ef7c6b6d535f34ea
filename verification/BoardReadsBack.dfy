/**
 A whole tracker file, written and read back (`render_string` and
 `IssueDoc::parse`, `crates/vissue-core/src/store.rs`), and the header of a
 ledger file read as one (`read_file`, `crates/vissue-core/src/ledger.rs`).
 */
module BoardReadsBack {
  import opened Base
  import opened Text
  import opened Org
  import opened Issue
  import opened Escape
  import opened DrawerSite
  import opened DrawerRead
  import opened ReadIssue
  import opened SiteReadsBack
  import opened IssueReadsBack
  import opened Board
  import Print
  import ReadHead
  import ReadBody

  /// An issue that can be read and is no calendar event.
  ghost predicate Listable(h: Heading, s: Settings) {
    Readable(h, s.keywords) && Trim(h.id) != "" && !s.isEvent(Trim(h.id))
  }

  // ---- where an issue starts ----

  lemma IdLineRead(k: string, v: string)
    requires ':' !in k && Trim(k) == k
    ensures IdOnLine(Print.PropertyLine(k, v))
         == if SameNoCase(BareKey(k).0, "ID") && Trim(v) != "" then Some(Trim(v)) else None
  {
    var y := TrimEnd(Pad(k) + v);
    var t := Trim(Print.PropertyLine(k, v));
    TrimmedLine(k, v);
    FirstIndexAt(k, ':', y);
    hide TrimEnd, Print.PropertyLine, FirstIndex, Trim, BareKey, SameNoCase;
    assert t[1..|k| + 1] == k && t[|k| + 2..] == y;
    assert t[..1] == ":";
  }

  /// A line gives the id exactly when its key is `ID`, in any case and with a
  /// plus sign or without, and its value is not blank.
  lemma IdLineExactly(k: string, v: string)
    requires ':' !in k && Trim(k) == k
    ensures IdOnLine(Print.PropertyLine(k, v)).Some? <==> (SameNoCase(k, "ID") || SameNoCase(k, "ID+")) && Trim(v) != ""
    ensures IdOnLine(Print.PropertyLine(k, v)).Some? ==> IdOnLine(Print.PropertyLine(k, v)).value == Trim(v)
  {
    IdLineRead(k, v);
    hide Trim, IdOnLine, Print.PropertyLine;
    assert SameNoCase(k, "ID+") ==> Lower(k[2]) == Lower("ID+"[2]) == '+' && k[2] == '+';
    assert SameNoCase(k, "ID") ==> Lower(k[1]) == Lower("ID"[1]) == 'd';
    if SameNoCase(BareKey(k).0, "ID") && BareKey(k).1 {
      assert forall i :: 0 <= i < 2 ==> Lower(k[i]) == Lower("ID"[i]) == Lower("ID+"[i]);
    }
  }

  lemma IdLine(v: string)
    requires Trim(v) != ""
    ensures IdOnLine(Print.PropertyLine("ID", v)) == Some(Trim(v)) && !IsEndLine(Print.PropertyLine("ID", v))
  {
    IdIsKey(v);
    NoEndLine("ID", v);
    TrimNothing("ID");
    IdLineExactly("ID", v);
    hide Trim, Print.PropertyLine, IdOnLine;
    assert SameNoCase("ID", "ID");
  }

  /// Another drawer in front of the properties is passed over.
  lemma IdBehindAnotherDrawer(block: seq<string>, rest: seq<string>)
    requires IsBlock(block) && !SameNoCase(Trim(block[0]), ":PROPERTIES:")
    ensures IdUnder(block + rest) == IdUnder(rest)
  {
    hide Trim, OpensDrawer, IsEndLine, DrawerRest, SameNoCase, IdInDrawer, IsClosed;
    var (all, inner) := (block + rest, block[1..]);
    assert forall i :: 0 <= i < |inner| - 1 ==> inner[i] == block[i + 1];
    EndsLast(inner);
    DrawerRestWith(inner, rest);
    assert all[0] == block[0] && all[1..] == inner + rest && all[|block|..] == rest;
    NotBlank(block[0]);
  }

  lemma IdFound(h: Heading, rest: seq<string>)
    requires Trim(h.id) != ""
    ensures IdUnder(PropertyBlock(h) + rest) == Some(Trim(h.id))
  {
    var (block, id) := (PropertyBlock(h), Print.PropertyLine("ID", h.id));
    PropertyBlockParts(h);
    PropertiesOpens();
    IdLine(h.id);
    hide PropertyBlock, Trim, IdOnLine, IsEndLine, OpensDrawer, SameNoCase, Print.PropertyLine;
    var all := block + rest;
    assert all[0] == ":PROPERTIES:" && all[1..][0] == id;
  }

  /// A written issue starts one exactly when its id is none of a calendar event.
  lemma IssueStartsExactly(h: Heading, s: Settings, next: seq<string>)
    requires Readable(h, s.keywords) && Trim(h.id) != ""
    ensures LinesOf(Print.Printed(h)) != []
    ensures StartsIssue(LinesOf(Print.Printed(h)) + next, s) <==> !s.isEvent(Trim(h.id))
  {
    assert PropertiesRead(h);
    HeadIsRead(h, s.keywords);
    PrintedShape(h, s.keywords, next);
    var rest := LogBlock(h) + DrawerLines(h.extraDrawers) + (ReadBody.Written(h.body) + next);
    var under := DateLines(h) + (PropertyBlock(h) + rest);
    IdFound(h, rest);
    PropertyBlockParts(h);
    hide *;
    assert (PropertyBlock(h) + rest)[0] == ":PROPERTIES:";
    DatesAreRead(h, PropertyBlock(h) + rest);
    ThreeParts(PropertyBlock(h), LogBlock(h) + DrawerLines(h.extraDrawers), ReadBody.Written(h.body) + next);
    StartsWhen(HeadText(h), under, s);
    assert LinesOf(Print.Printed(h)) + next == [HeadText(h)] + under;
  }

  lemma IssueStarts(h: Heading, s: Settings, next: seq<string>)
    requires Listable(h, s)
    ensures LinesOf(Print.Printed(h)) != [] && StartsIssue(LinesOf(Print.Printed(h)) + next, s)
  {
    hide Readable, Trim, StartsIssue, Print.Printed, LinesOf;
    IssueStartsExactly(h, s, next);
  }

  lemma StartsWhen(line: string, under: seq<string>, s: Settings)
    requires ReadHead.ReadHeading(line, s.keywords).Some?
    ensures var id := IdUnder(under[DatedLines(under)..]);
      StartsIssue([line] + under, s) <==> (id.Some? ==> !s.isEvent(id.value))
  {
    assert ([line] + under)[0] == line && ([line] + under)[1..] == under;
    hide ReadHead.ReadHeading, IdUnder, DatedLines;
  }

  // ---- lines that start no issue ----

  /// No line that a scan from `scan` does not hide is the heading of an issue.
  predicate StartsNone(scan: Scan, lines: seq<string>, s: Settings)
    decreases |lines|
  {
    lines == [] ||
    (&& !(EndsTheIssue(lines[0]) && !Step(scan, lines[0]).1 && ReadHead.ReadHeading(lines[0], s.keywords).Some?)
     && StartsNone(Step(scan, lines[0]).0, lines[1..], s))
  }

  /// Lines that start no issue and leave nothing open.
  predicate IsFront(lines: seq<string>, s: Settings) {
    StartsNone(START, lines, s) && !LeavesOpen(Run(START, lines))
  }

  lemma OnlyHeadingsStart(lines: seq<string>, s: Settings)
    requires lines != [] && StartsIssue(lines, s)
    ensures EndsTheIssue(lines[0]) && ReadHead.ReadHeading(lines[0], s.keywords).Some?
  {
    hide IdUnder, DatedLines;
  }

  lemma {:induction false} FrontSkipped(scan: Scan, front: seq<string>, rest: seq<string>, s: Settings)
    requires StartsNone(scan, front, s)
    requires StarsPositive(scan) && !LeavesOpen(Run(scan, front)) && (rest != [] ==> StartsIssue(rest, s))
    ensures NextIssue(scan, front + rest, s) == |front|
    decreases |front|
  {
    hide Step, StartsIssue, EndsTheIssue, LeavesOpen, ReadHead.ReadHeading;
    var all := front + rest;
    if front == [] {
      assert all == rest;
      if rest != [] {
        OnlyHeadingsStart(rest, s);
        HidesHeadlineIff(scan, rest[0]);
      }
    } else {
      assert all[0] == front[0] && all[1..] == front[1..] + rest;
      if StartsIssue(all, s) { OnlyHeadingsStart(all, s); }
      ReadBody.StepStars(scan, front[0]);
      FrontSkipped(Step(scan, front[0]).0, front[1..], rest, s);
    }
  }

  lemma {:induction false} StartsNoneSnoc(scan: Scan, front: seq<string>, line: string, s: Settings)
    requires StartsNone(scan, front, s) && !EndsTheIssue(line)
    ensures StartsNone(scan, front + [line], s)
    decreases |front|
  {
    hide Step, EndsTheIssue, ReadHead.ReadHeading;
    var all := front + [line];
    if front == [] {
      assert all == [line] && [line][1..] == [];
    } else {
      assert all[0] == front[0] && all[1..] == front[1..] + [line];
      StartsNoneSnoc(Step(scan, front[0]).0, front[1..], line, s);
    }
  }

  // ---- the issues ----

  /// What stands between an issue and the next, as it comes back: nothing, or
  /// lines from a heading on that start no issue and leave nothing open.
  ghost predicate AfterReads(after: string, s: Settings) {
    after == "" ||
    (var ls := SplitNl(after);
     && PlainLines(ls) && ls[|ls| - 1] != "" && EndsTheIssue(ls[0]) && IsFront(ls, s))
  }

  ghost predicate AllListable(hs: seq<Heading>, after: seq<string>, s: Settings) {
    && |after| == |hs|
    && forall i :: 0 <= i < |hs| ==> Listable(hs[i], s) && AfterReads(after[i], s)
  }

  /// Each issue with the blank line and the text behind it.
  function IssueLines(hs: seq<Heading>, after: seq<string>): seq<string>
    requires |after| == |hs|
  {
    if hs == [] then [] else LinesOf(Print.Printed(hs[0])) + ([""] + (LinesOf(after[0]) + IssueLines(hs[1..], after[1..])))
  }

  /// The issues as they are read, at their lines in the file.
  function Placed(hs: seq<Heading>, after: seq<string>, at: nat): seq<Heading>
    requires |after| == |hs|
    decreases |hs|
  {
    if hs == [] then []
    else
      var end := at + |LinesOf(Print.Printed(hs[0]))| + 1;
      [OnLines(AsRead(hs[0]), at + 1, end)] + Placed(hs[1..], after[1..], end + |LinesOf(after[0])|)
  }

  lemma ThreeParts(a: seq<string>, b: seq<string>, c: seq<string>)
    ensures a + b + c == a + (b + c)
  {
  }

  lemma LaterListable(hs: seq<Heading>, after: seq<string>, s: Settings)
    requires hs != [] && AllListable(hs, after, s)
    ensures |after| == |hs| && Listable(hs[0], s) && AfterReads(after[0], s) && AllListable(hs[1..], after[1..], s)
  {
    hide Listable, AfterReads;
  }

  lemma NextLines(hs: seq<Heading>, after: seq<string>)
    requires |after| == |hs|
    ensures hs == [] ==> IssueLines(hs, after) == []
    ensures hs != [] ==>
      IssueLines(hs, after) == LinesOf(Print.Printed(hs[0])) + ([""] + (LinesOf(after[0]) + IssueLines(hs[1..], after[1..])))
  {
    hide LinesOf, Print.Printed;
  }

  /// The lines of the issues start one.
  lemma RestStarts(hs: seq<Heading>, after: seq<string>, s: Settings)
    requires AllListable(hs, after, s)
    ensures |after| == |hs|
    ensures hs != [] ==> IssueLines(hs, after) != [] && StartsIssue(IssueLines(hs, after), s)
  {
    assert |after| == |hs|;
    hide *;
    if hs != [] {
      LaterListable(hs, after, s);
      NextLines(hs, after);
      IssueStarts(hs[0], s, [""] + (LinesOf(after[0]) + IssueLines(hs[1..], after[1..])));
    }
  }

  /// The lines of the text between two issues.
  lemma AfterAsLines(after: string, s: Settings)
    requires after != "" && AfterReads(after, s)
    ensures LinesOf(after) == SplitNl(after) && LinesOf(after + "\n") == SplitNl(after)
    ensures LinesOf(after) != [] && EndsTheIssue(LinesOf(after)[0]) && IsFront(LinesOf(after), s)
  {
    var ls := SplitNl(after);
    JoinSplit(after);
    hide SplitNl, IsFront, EndsTheIssue, PlainLine;
    LinesOfJoined(ls);
    TerminatedIsJoined(ls);
    LinesOfTerminated(ls);
  }

  lemma BlankThen(rest: seq<string>)
    requires rest == [] || EndsTheIssue(rest[0])
    ensures Follows([""] + rest, 1)
  {
    hide EndsTheIssue;
  }

  lemma RestFollows(after: string, rest: seq<string>, s: Settings)
    requires AfterReads(after, s) && (rest != [] ==> StartsIssue(rest, s))
    ensures Follows([""] + (LinesOf(after) + rest), 1)
  {
    hide *;
    var all := LinesOf(after) + rest;
    if after != "" {
      AfterAsLines(after, s);
      assert all[0] == LinesOf(after)[0];
    } else {
      NoLines();
      assert all == rest;
      if rest != [] { OnlyHeadingsStart(rest, s); }
    }
    BlankThen(all);
  }

  lemma IssueBehindBlank(h: Heading, rest: seq<string>, s: Settings)
    requires Listable(h, s) && Follows([""] + rest, 1)
    ensures var ls := LinesOf(Print.Printed(h));
      && ls != [] && StartsIssue(ls + ([""] + rest), s)
      && ReadFrom(ls + ([""] + rest), s.keywords, s.usual) == Some((OnLines(AsRead(h), 1, |ls| + 1), |ls| + 1))
  {
    assert Readable(h, s.keywords);
    hide *;
    IssueStarts(h, s, [""] + rest);
    WrittenIssueIsRead(h, s.keywords, s.usual, [""] + rest, 1);
  }

  lemma ShiftedIssue(lines: seq<string>, at: nat, s: Settings, x: Heading, n: nat)
    requires at < |lines|
    requires ReadFrom(lines[at..], s.keywords, s.usual) == Some((OnLines(x, 1, n), n))
    ensures IssueAt(lines, at, s.keywords, s.usual) == Some((OnLines(x, at + 1, at + n), at + n))
  {
    hide ReadFrom;
  }

  /// A text that starts with a heading comes back whole.
  lemma BetweenIs(after: string, s: Settings)
    requires AfterReads(after, s)
    ensures Between(LinesOf(after)) == after
  {
    if after == "" {
      NoLines();
      assert JoinNl([]) == "" && Trim("") == "";
    } else {
      AfterAsLines(after, s);
      JoinSplit(after);
      var ls := SplitNl(after);
      hide SplitNl, LinesOf, IsFront, AfterReads;
      StartOfJoined(ls);
      HeadlineFacts(after);
      assert TrimStartOf(after, '\n') == after;
    }
  }

  lemma {:induction false} NewlinesInFront(raw: string) returns (n: nat)
    ensures raw == Newlines(n) + TrimStartOf(raw, '\n')
    ensures TrimStartOf(raw, '\n') == "" || TrimStartOf(raw, '\n')[0] != '\n'
  {
    if raw != "" && raw[0] == '\n' {
      var k := NewlinesInFront(raw[1..]);
      n := k + 1;
      assert raw == "\n" + raw[1..];
      assert "\n" + (Newlines(k) + TrimStartOf(raw, '\n')) == Newlines(n) + TrimStartOf(raw, '\n');
    } else {
      n := 0;
      assert Newlines(0) + raw == raw;
    }
  }

  /// Of the lines between two issues the text is kept, less the newlines in
  /// front of it; blank lines alone are nothing.
  lemma BetweenIsTheText(lines: seq<string>) returns (n: nat)
    ensures Between(lines) == "" || Between(lines)[0] != '\n'
    ensures Trim(JoinNl(lines)) != "" ==> JoinNl(lines) == Newlines(n) + Between(lines)
    ensures Trim(JoinNl(lines)) == "" ==> Between(lines) == ""
  {
    n := NewlinesInFront(JoinNl(lines));
    hide JoinNl, Trim, Newlines;
  }

  lemma StartOfJoined(ls: seq<string>)
    requires ls != [] && EndsTheIssue(ls[0])
    ensures EndsTheIssue(JoinNl(ls)) && JoinNl(ls)[0] == '*'
  {
    var text := JoinNl(ls);
    assert ls[0] <= text;
    assert text[..2] == ls[0][..2];
  }

  /// An issue, the text behind it, and the next issue or none.
  lemma ReadStep(lines: seq<string>, i: nat, s: Settings, h: Heading, end: nat, n: nat, hs: seq<Heading>, after: seq<string>, text: string)
    requires i < |lines| && end + n <= |lines| && StartsIssue(lines[i..], s)
    requires IssueAt(lines, i, s.keywords, s.usual) == Some((h, end)) && NextIssue(START, lines[end..], s) == n
    requires Between(lines[end..end + n]) == text && ReadHeadings(lines, end + n, s) == Some((hs, after))
    ensures ReadHeadings(lines, i, s) == Some(([h] + hs, [text] + after))
  {
    hide StartsIssue, IssueAt, NextIssue, Between;
  }

  lemma NoMore(front: seq<string>, s: Settings)
    ensures ReadHeadings(front + IssueLines([], []), |front|, s) == Some((Placed([], [], |front|), []))
  {
    assert front + IssueLines([], []) == front;
    hide IssueLines;
  }

  lemma PlacedNext(hs: seq<Heading>, after: seq<string>, at: nat)
    requires hs != [] && |after| == |hs|
    ensures var end := at + |LinesOf(Print.Printed(hs[0]))| + 1;
      Placed(hs, after, at) == [OnLines(AsRead(hs[0]), at + 1, end)] + Placed(hs[1..], after[1..], end + |LinesOf(after[0])|)
    ensures after == [after[0]] + after[1..]
  {
    hide AsRead, LinesOf, Print.Printed;
  }

  lemma PlaceParts(front: seq<string>, ls: seq<string>, more: seq<string>, rest: seq<string>)
    ensures var (lines, end) := (front + (ls + ([""] + (more + rest))), |front| + |ls| + 1);
      && |lines| == end + |more| + |rest|
      && lines[|front|..] == ls + ([""] + (more + rest))
      && lines[end..] == more + rest && lines[end..end + |more|] == more
      && lines == front + ls + [""] + more + rest && |front + ls + [""] + more| == end + |more|
  {
  }

  /// The first of the issues, and what stands behind it.
  lemma FirstIsRead(front: seq<string>, ls: seq<string>, after: string, rest: seq<string>, x: Heading, s: Settings)
    requires AfterReads(after, s) && (rest != [] ==> StartsIssue(rest, s))
    requires ls != [] && StartsIssue(ls + ([""] + (LinesOf(after) + rest)), s)
    requires ReadFrom(ls + ([""] + (LinesOf(after) + rest)), s.keywords, s.usual) == Some((OnLines(x, 1, |ls| + 1), |ls| + 1))
    ensures var (lines, end) := (front + (ls + ([""] + (LinesOf(after) + rest))), |front| + |ls| + 1);
      && |lines| == end + |LinesOf(after)| + |rest| && StartsIssue(lines[|front|..], s)
      && IssueAt(lines, |front|, s.keywords, s.usual) == Some((OnLines(x, |front| + 1, end), end))
      && NextIssue(START, lines[end..], s) == |LinesOf(after)|
      && Between(lines[end..end + |LinesOf(after)|]) == after
  {
    hide *;
    PlaceParts(front, ls, LinesOf(after), rest);
    ShiftedIssue(front + (ls + ([""] + (LinesOf(after) + rest))), |front|, s, x, |ls| + 1);
    AfterIsFront(after, s);
    FrontFacts(LinesOf(after), s);
    FrontSkipped(START, LinesOf(after), rest, s);
    BetweenIs(after, s);
  }

  lemma AfterIsFront(after: string, s: Settings)
    requires AfterReads(after, s)
    ensures IsFront(LinesOf(after), s)
  {
    if after == "" {
      NoLines();
      assert StartsNone(START, [], s) && Run(START, []) == START;
    } else {
      AfterAsLines(after, s);
    }
  }

  lemma FrontFacts(front: seq<string>, s: Settings)
    requires IsFront(front, s)
    ensures StartsNone(START, front, s) && !LeavesOpen(Run(START, front)) && StarsPositive(START)
  {
    hide StartsNone, Run;
  }

  lemma FirstStands(h: Heading, after: string, rest: seq<string>, s: Settings)
    requires Listable(h, s) && AfterReads(after, s) && (rest != [] ==> StartsIssue(rest, s))
    ensures var ls := LinesOf(Print.Printed(h));
      && ls != [] && StartsIssue(ls + ([""] + (LinesOf(after) + rest)), s)
      && ReadFrom(ls + ([""] + (LinesOf(after) + rest)), s.keywords, s.usual) == Some((OnLines(AsRead(h), 1, |ls| + 1), |ls| + 1))
  {
    hide *;
    RestFollows(after, rest, s);
    IssueBehindBlank(h, LinesOf(after) + rest, s);
  }

  lemma FirstInPlace(front: seq<string>, hs: seq<Heading>, after: seq<string>, s: Settings)
    requires hs != [] && AllListable(hs, after, s) && |after| == |hs|
    ensures var ls := LinesOf(Print.Printed(hs[0]));
      var (lines, end) := (front + IssueLines(hs, after), |front| + |ls| + 1);
      && |lines| == end + |LinesOf(after[0])| + |IssueLines(hs[1..], after[1..])| && |front| < |lines|
      && StartsIssue(lines[|front|..], s)
      && IssueAt(lines, |front|, s.keywords, s.usual) == Some((OnLines(AsRead(hs[0]), |front| + 1, end), end))
      && NextIssue(START, lines[end..], s) == |LinesOf(after[0])|
      && Between(lines[end..end + |LinesOf(after[0])|]) == after[0]
  {
    hide *;
    LaterListable(hs, after, s);
    RestStarts(hs[1..], after[1..], s);
    NextLines(hs, after);
    NextLines(hs[1..], after[1..]);
    FirstStands(hs[0], after[0], IssueLines(hs[1..], after[1..]), s);
    FirstIsRead(front, LinesOf(Print.Printed(hs[0])), after[0], IssueLines(hs[1..], after[1..]), AsRead(hs[0]), s);
  }

  lemma FirstThenRest(front: seq<string>, hs: seq<Heading>, after: seq<string>)
    requires hs != [] && |after| == |hs|
    ensures var more := front + LinesOf(Print.Printed(hs[0])) + [""] + LinesOf(after[0]);
      && front + IssueLines(hs, after) == more + IssueLines(hs[1..], after[1..])
      && |more| == |front| + |LinesOf(Print.Printed(hs[0]))| + 1 + |LinesOf(after[0])|
  {
    NextLines(hs, after);
    hide *;
    PlaceParts(front, LinesOf(Print.Printed(hs[0])), LinesOf(after[0]), IssueLines(hs[1..], after[1..]));
  }

  lemma {:induction false} IssuesAreRead(front: seq<string>, hs: seq<Heading>, after: seq<string>, s: Settings)
    requires AllListable(hs, after, s) && |after| == |hs|
    ensures ReadHeadings(front + IssueLines(hs, after), |front|, s) == Some((Placed(hs, after, |front|), after))
    decreases |hs|
  {
    hide *;
    if hs == [] {
      NoMore(front, s);
    } else {
      var (ls, n) := (LinesOf(Print.Printed(hs[0])), |LinesOf(after[0])|);
      var (more, end) := (front + ls + [""] + LinesOf(after[0]), |front| + |ls| + 1);
      LaterListable(hs, after, s);
      FirstThenRest(front, hs, after);
      FirstInPlace(front, hs, after, s);
      IssuesAreRead(more, hs[1..], after[1..], s);
      PlacedNext(hs, after, |front|);
      ReadStep(front + IssueLines(hs, after), |front|, s, OnLines(AsRead(hs[0]), |front| + 1, end), end, n,
               Placed(hs[1..], after[1..], end + n), after[1..], after[0]);
    }
  }

  // ---- the whole file ----

  /// The text of one issue in the file.
  function IssueText(h: Heading, after: string): string {
    Print.Printed(h) + "\n" + (if after != "" then Finished(after) else "")
  }

  lemma TextsNext(hs: seq<Heading>, after: seq<string>)
    requires |after| == |hs|
    ensures hs == [] ==> HeadingTexts(hs, after) == ""
    ensures hs != [] ==> HeadingTexts(hs, after) == IssueText(hs[0], after[0]) + HeadingTexts(hs[1..], after[1..])
  {
    hide Print.Printed, Finished;
  }

  lemma BlankBehind(h: Heading, s: Settings)
    requires Listable(h, s)
    ensures LinesOf(Print.Printed(h) + "\n") == LinesOf(Print.Printed(h)) + [""] && EndsLine(Print.Printed(h) + "\n")
  {
    PrintedEnds(h, s);
    hide *;
    OneNewline();
    EndsBehind(Print.Printed(h), "\n");
    BlankLine(Print.Printed(h));
  }

  lemma IssueTextIs(h: Heading, after: string)
    ensures IssueText(h, after) == if after == "" then Print.Printed(h) + "\n" else Print.Printed(h) + "\n" + Finished(after)
  {
    hide Print.Printed, Finished;
    assert Print.Printed(h) + "\n" + "" == Print.Printed(h) + "\n";
  }

  lemma IssueTextLines(h: Heading, after: string, s: Settings)
    requires Listable(h, s) && AfterReads(after, s)
    ensures var text := IssueText(h, after);
      EndsLine(text) && LinesOf(text) == LinesOf(Print.Printed(h)) + ([""] + LinesOf(after))
  {
    hide *;
    IssueTextIs(h, after);
    BlankBehind(h, s);
    if after == "" {
      NoLines();
      assert [""] + [] == [""];
    } else {
      AfterAsLines(after, s);
      FinishedEnds(after);
      FinishedLines(after, s);
      LinesConcat(Print.Printed(h) + "\n", Finished(after));
      EndsBehind(Print.Printed(h) + "\n", Finished(after));
      ThreeParts(LinesOf(Print.Printed(h)), [""], LinesOf(after));
    }
  }

  lemma FinishedLines(after: string, s: Settings)
    requires after != "" && AfterReads(after, s)
    ensures LinesOf(Finished(after)) == LinesOf(after)
  {
    AfterAsLines(after, s);
    LastPiece(after);
    hide LinesOf, SplitNl, IsFront;
  }

  lemma {:induction false} TextLines(hs: seq<Heading>, after: seq<string>, s: Settings)
    requires AllListable(hs, after, s) && |after| == |hs|
    ensures LinesOf(HeadingTexts(hs, after)) == IssueLines(hs, after)
    decreases |hs|
  {
    hide *;
    TextsNext(hs, after);
    NextLines(hs, after);
    if hs == [] {
      NoLines();
    } else {
      LaterListable(hs, after, s);
      TextLines(hs[1..], after[1..], s);
      IssueTextLines(hs[0], after[0], s);
      LinesConcat(IssueText(hs[0], after[0]), HeadingTexts(hs[1..], after[1..]));
      Reassociated(LinesOf(Print.Printed(hs[0])), LinesOf(after[0]), IssueLines(hs[1..], after[1..]));
    }
  }

  lemma Reassociated(a: seq<string>, b: seq<string>, c: seq<string>)
    ensures a + ([""] + b) + c == a + ([""] + (b + c))
  {
  }

  lemma EndsBehind(a: string, b: string)
    ensures EndsLine(b) ==> EndsLine(a + b)
    ensures EndsLine(a) && b == "" ==> EndsLine(a + b)
  {
    if b == "" { assert a + b == a; }
  }

  lemma BlankLine(text: string)
    requires text == "" || EndsLine(text)
    ensures LinesOf(text + "\n") == LinesOf(text) + [""]
  {
    hide *;
    LinesConcat(text, "\n");
    OneNewline();
  }

  /// The text of an issue ends its last line.
  lemma PrintedEnds(h: Heading, s: Settings)
    requires Listable(h, s)
    ensures EndsLine(Print.Printed(h))
  {
    PrintedAsLines(h);
    TerminatedEnds(FrontLines(h));
    assert FrontLines(h) != [] && Terminated(FrontLines(h)) != "" by { FrontIs(h); }
    BodyEnds(h.body);
    hide *;
    EndsBehind(Terminated(FrontLines(h)), Print.BodyText(h.body));
  }

  lemma BodyEnds(body: string)
    ensures Print.BodyText(body) == "" || EndsLine(Print.BodyText(body))
  {
    hide EscapedBody;
  }

  /// A preamble that comes back: lines that start no issue and leave nothing
  /// open, without carriage returns.
  ghost predicate PreambleReads(preamble: string, s: Settings) {
    var text := TrimEnd(preamble);
    text != "" && PlainLines(SplitNl(text)) && IsFront(SplitNl(text), s)
  }

  lemma PreambleLines(text: string)
    requires text != "" && TrimEnd(text) == text && PlainLines(SplitNl(text))
    ensures LinesOf(text + "\n\n") == SplitNl(text) + [""] && EndsLine(text + "\n\n")
  {
    var pieces := SplitNl(text);
    JoinSplit(text);
    ReadBody.TrimmedEnd(text);
    LastPiece(text);
    hide *;
    TerminatedIsJoined(pieces);
    LinesOfTerminated(pieces);
    assert text + "\n" + "\n" == text + "\n\n";
    EndsBehind(text, "\n") by { OneNewline(); }
    EndsBehind(text + "\n", "\n") by { OneNewline(); }
    OneNewline();
    BlankLine(text + "\n");
  }

  lemma FrontWithBlank(front: seq<string>, s: Settings)
    requires IsFront(front, s)
    ensures IsFront(front + [""], s)
  {
    RunStarsPositive(START, front);
    hide Step, EndsTheIssue, LeavesOpen, StartsNone;
    BlankStep(Run(START, front));
    RunSnoc(START, front, "");
    StartsNoneSnoc(START, front, "", s);
  }

  lemma RunSnoc(s: Scan, front: seq<string>, line: string)
    ensures Run(s, front + [line]) == Step(Run(s, front), line).0
  {
    EscapedStep(s, front, line);
  }

  lemma PreambleComesBack(text: string)
    requires TrimEnd(text) == text
    ensures TrimEnd(JoinNl(SplitNl(text) + [""])) == text
  {
    JoinSplit(text);
    JoinAppend(SplitNl(text), "");
    TrimEndBehind(text, "\n") by { EndTrimmed(text); }
    assert text + "\n" + "" == text + "\n";
    assert TrimEnd("\n") == "" by { assert "\n"[..0] == ""; }
    assert text + "" == text;
    hide *;
  }

  lemma EndTrimmed(text: string)
    requires TrimEnd(text) == text
    ensures text == "" || !IsSpace(text[|text| - 1])
  {
  }

  /**
   A tracker file of issues that can be read comes back whole: its preamble,
   every issue in its place with its lines, and the text between them.
   */
  lemma WrittenBoardIsRead(preamble: string, hs: seq<Heading>, after: seq<string>, s: Settings)
    requires PreambleReads(preamble, s) && AllListable(hs, after, s) && |after| == |hs|
    ensures var text := TrimEnd(preamble);
      ReadBoard(LinesOf(BoardText(Doc(preamble, hs, after))), s)
        == Some(Doc(text, Placed(hs, after, |SplitNl(text)| + 1), after))
  {
    var text := TrimEnd(preamble);
    TrimTwice(preamble);
    assert PlainLines(SplitNl(text)) && IsFront(SplitNl(text), s) && text != "";
    assert BoardText(Doc(preamble, hs, after)) == text + "\n\n" + HeadingTexts(hs, after);
    hide *;
    var (front, rest) := (SplitNl(text) + [""], IssueLines(hs, after));
    FrontWithBlank(SplitNl(text), s);
    PreambleLines(text);
    TextLines(hs, after, s);
    LinesConcat(text + "\n\n", HeadingTexts(hs, after));
    RestStarts(hs, after, s);
    NextLines(hs, after);
    FrontFacts(front, s);
    FrontSkipped(START, front, rest, s);
    IssuesAreRead(front, hs, after, s);
    PreambleComesBack(text);
    BoardParts(front, rest, s);
  }

  lemma BoardParts(front: seq<string>, rest: seq<string>, s: Settings)
    requires front != [] && NextIssue(START, front + rest, s) == |front|
    ensures ReadBoard(front + rest, s) ==
      match ReadHeadings(front + rest, |front|, s)
      case None => None
      case Some((hs, after)) => Some(Doc(TrimEnd(JoinNl(front)), hs, after))
  {
    hide NextIssue, ReadHeadings, TrimEnd, JoinNl;
    assert (front + rest)[..|front|] == front;
  }
}
