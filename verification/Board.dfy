/**
 A project's tracker file: a preamble and its issues, read and written
 (`IssueDoc::parse`, `peek_heading_id` and `render_string`,
 `crates/vissue-core/src/store.rs`). The keywords, the usual priority and the
 test for calendar event ids are parameters; so is the preamble a file that
 starts with an issue is given.
 */
module Board {
  import opened Base
  import opened Text
  import opened Org
  import opened Issue
  import opened DrawerSite
  import opened DrawerRead
  import opened ReadIssue
  import opened Planning
  import Print
  import ReadHead

  datatype Settings = Settings(keywords: set<string>, usual: char, isEvent: string -> bool, house: string)

  // ---- which lines start an issue ----

  /// The id a property line gives, if it is one that gives any.
  function IdOnLine(line: string): Option<string> {
    var t := Trim(line);
    var n := if ":" <= t then FirstIndex(t[1..], ':') else |t|;
    if n + 1 >= |t| then None
    else
      var value := Trim(t[n + 2..]);
      if SameNoCase(BareKey(Trim(t[1..n + 1])).0, "ID") && value != "" then Some(value) else None
  }

  function IdInDrawer(lines: seq<string>): Option<string> {
    if lines == [] || IsEndLine(lines[0]) then None
    else if IdOnLine(lines[0]).Some? then IdOnLine(lines[0])
    else IdInDrawer(lines[1..])
  }

  /// The id in the first property drawer under a heading.
  function IdUnder(lines: seq<string>): Option<string>
    decreases |lines|
  {
    if lines == [] then None
    else if Trim(lines[0]) == "" then IdUnder(lines[1..])
    else if !OpensDrawer(Trim(lines[0])) then None
    else if SameNoCase(Trim(lines[0]), ":PROPERTIES:") then IdInDrawer(lines[1..])
    else IdUnder(lines[1 + DrawerRest(lines[1..])..])
  }

  /// The heading of an issue, and no calendar event.
  predicate StartsIssue(lines: seq<string>, s: Settings)
    requires lines != []
  {
    && ReadHead.ReadHeading(lines[0], s.keywords).Some?
    && var id := IdUnder(lines[1..][DatedLines(lines[1..])..]);
       id.Some? ==> !s.isEvent(id.value)
  }

  /// How many lines stand before the first issue the scan does not hide.
  function NextIssue(scan: Scan, lines: seq<string>, s: Settings): (n: nat)
    ensures n <= |lines|
    decreases |lines|
  {
    if lines == [] || (!Step(scan, lines[0]).1 && StartsIssue(lines, s)) then 0
    else 1 + NextIssue(Step(scan, lines[0]).0, lines[1..], s)
  }

  // ---- the file ----

  datatype Doc = Doc(preamble: string, headings: seq<Heading>, after: seq<string>)

  /// What stands between an issue and the next.
  function Between(lines: seq<string>): string {
    var raw := JoinNl(lines);
    if Trim(raw) == "" then "" else TrimStartOf(raw, '\n')
  }

  /// The issues from line `i` on, each with what stands behind it; `None` when
  /// one of them has no id.
  function ReadHeadings(lines: seq<string>, i: nat, s: Settings): Option<(seq<Heading>, seq<string>)>
    requires i <= |lines|
    decreases |lines| - i
  {
    if i == |lines| then Some(([], []))
    else if !StartsIssue(lines[i..], s) then ReadHeadings(lines, i + 1, s)
    else
      match IssueAt(lines, i, s.keywords, s.usual)
      case None => None
      case Some((h, end)) =>
        IssueGoesOn(lines, i, s);
        var next := end + NextIssue(START, lines[end..], s);
        match ReadHeadings(lines, next, s)
        case None => None
        case Some((hs, after)) => Some(([h] + hs, [Between(lines[end..next])] + after))
  }

  function ReadBoard(lines: seq<string>, s: Settings): Option<Doc> {
    var first := NextIssue(START, lines, s);
    match ReadHeadings(lines, first, s)
    case None => None
    case Some((hs, after)) => Some(Doc(if first == 0 then s.house else TrimEnd(JoinNl(lines[..first])), hs, after))
  }

  // ---- as the program runs it ----

  method PeekInDrawer(lines: seq<string>, start: nat) returns (id: Option<string>)
    requires start <= |lines|
    ensures id == IdInDrawer(lines[start..])
  {
    hide IsEndLine, IdOnLine;
    var i := start;
    while i < |lines| && !IsEndLine(lines[i])
      invariant start <= i <= |lines|
      invariant IdInDrawer(lines[start..]) == IdInDrawer(lines[i..])
    {
      assert lines[i..][0] == lines[i] && lines[i..][1..] == lines[i + 1..];
      id := IdOnLine(lines[i]);
      if id.Some? {
        return;
      }
      i := i + 1;
    }
    if i < |lines| { assert lines[i..][0] == lines[i]; }
    return None;
  }

  lemma NextPeeked(lines: seq<string>, i: nat)
    requires i < |lines|
    ensures var t := Trim(lines[i]);
      IdUnder(lines[i..]) ==
        if t == "" then IdUnder(lines[i + 1..])
        else if !OpensDrawer(t) then None
        else if SameNoCase(t, ":PROPERTIES:") then IdInDrawer(lines[i + 1..])
        else IdUnder(lines[i + 1 + DrawerRest(lines[i + 1..])..])
  {
    hide Trim, OpensDrawer, DrawerRest, SameNoCase, IdInDrawer;
    var rest := lines[i..];
    assert rest[0] == lines[i] && rest[1..] == lines[i + 1..];
    var n := 1 + DrawerRest(lines[i + 1..]);
    assert rest[n..] == lines[i + n..];
  }

  method PeekDated(lines: seq<string>, start: nat) returns (i: nat)
    requires start <= |lines|
    ensures i == start + DatedLines(lines[start..])
  {
    hide PlanningDates;
    i := start;
    while i < |lines|
      invariant start <= i <= |lines|
      invariant start + DatedLines(lines[start..]) == i + DatedLines(lines[i..])
    {
      assert lines[i..][0] == lines[i] && lines[i..][1..] == lines[i + 1..];
      var dates := ParsePlanningLine(lines[i]);
      if dates == [] {
        return;
      }
      i := i + 1;
    }
  }

  /// `peek_heading_id` for the heading at line `start`.
  method PeekHeadingId(lines: seq<string>, start: nat) returns (id: Option<string>)
    requires start < |lines|
    ensures id == IdUnder(lines[start + 1..][DatedLines(lines[start + 1..])..])
  {
    hide Trim, OpensDrawer, DrawerRest, IdUnder, IdInDrawer;
    var i := PeekDated(lines, start + 1);
    assert lines[start + 1..][DatedLines(lines[start + 1..])..] == lines[i..];
    ghost var from := i;
    while i < |lines|
      invariant from <= i <= |lines|
      invariant IdUnder(lines[from..]) == IdUnder(lines[i..])
    {
      NextPeeked(lines, i);
      var trimmed := Trim(lines[i]);
      if trimmed == "" {
        i := i + 1;
        continue;
      }
      if !OpensDrawer(trimmed) {
        return None;
      }
      if SameNoCase(trimmed, ":PROPERTIES:") {
        id := PeekInDrawer(lines, i + 1);
        return;
      }
      i := SkipDrawer(lines, i + 1);
    }
    assert lines[|lines|..] == [];
    NoIdUnder();
    return None;
  }

  lemma NoIdUnder()
    ensures IdUnder([]) == None
  {
  }

  method IsIssueLine(lines: seq<string>, i: nat, s: Settings) returns (yes: bool)
    requires i < |lines|
    ensures yes == StartsIssue(lines[i..], s)
  {
    hide ReadHead.ReadHeading, IdUnder, DatedLines;
    assert lines[i..][0] == lines[i] && lines[i..][1..] == lines[i + 1..];
    if ReadHead.ReadHeading(lines[i], s.keywords).None? {
      return false;
    }
    var id := PeekHeadingId(lines, i);
    return id.None? || !s.isEvent(id.value);
  }

  method FindNextIssue(lines: seq<string>, start: nat, s: Settings) returns (i: nat)
    requires start <= |lines|
    ensures i == start + NextIssue(START, lines[start..], s)
  {
    hide StartsIssue, Step;
    i := start;
    var nest := new OrgScan();
    while i < |lines|
      invariant start <= i <= |lines|
      invariant fresh(nest) && fresh(nest.blocks)
      invariant start + NextIssue(START, lines[start..], s) == i + NextIssue(nest.State(), lines[i..], s)
      decreases |lines| - i
    {
      assert lines[i..][0] == lines[i] && lines[i..][1..] == lines[i + 1..];
      var hidden := nest.Observe(lines[i]);
      if !hidden {
        var starts := IsIssueLine(lines, i, s);
        if starts {
          return;
        }
      }
      i := i + 1;
    }
  }

  method ParseBoard(lines: seq<string>, s: Settings) returns (r: Option<Doc>)
    ensures r == ReadBoard(lines, s)
  {
    hide StartsIssue, NextIssue, IssueAt, Between;
    var first := FindNextIssue(lines, 0, s);
    assert lines[0..] == lines;
    var preamble := if first == 0 then s.house else TrimEnd(JoinNl(lines[..first]));
    var headings: seq<Heading>, after: seq<string> := [], [];
    var i := first;
    ghost var all := ReadHeadings(lines, first, s);
    if all.Some? {
      assert [] + all.value.0 == all.value.0 && [] + all.value.1 == all.value.1;
    }
    while i < |lines|
      invariant first <= i <= |lines|
      invariant ReadHeadings(lines, first, s) ==
        match ReadHeadings(lines, i, s) case None => None case Some((hs, more)) => Some((headings + hs, after + more))
      decreases |lines| - i
    {
      var starts := IsIssueLine(lines, i, s);
      if !starts {
        i := i + 1;
        continue;
      }
      var read := ParseHeading(lines, i, s.keywords, s.usual);
      if read.None? {
        return None;
      }
      IssueGoesOn(lines, i, s);
      var end := read.value.1;
      var next := FindNextIssue(lines, end, s);
      ghost var more := ReadHeadings(lines, next, s);
      if more.Some? {
        assert headings + ([read.value.0] + more.value.0) == headings + [read.value.0] + more.value.0;
        assert after + ([Between(lines[end..next])] + more.value.1) == after + [Between(lines[end..next])] + more.value.1;
      }
      headings := headings + [read.value.0];
      after := after + [Between(lines[end..next])];
      i := next;
    }
    assert headings + [] == headings && after + [] == after;
    return Some(Doc(preamble, headings, after));
  }

  lemma IssueGoesOn(lines: seq<string>, i: nat, s: Settings)
    requires i < |lines|
    ensures var r := IssueAt(lines, i, s.keywords, s.usual); r.Some? ==> i < r.value.1 <= |lines|
  {
    hide ReadFrom;
  }

  // ---- the file as it is written ----

  function HeadingTexts(hs: seq<Heading>, after: seq<string>): string {
    if hs == [] then ""
    else
      Print.Printed(hs[0]) + "\n" + (if after != [] && after[0] != "" then Finished(after[0]) else "")
      + HeadingTexts(hs[1..], if after == [] then [] else after[1..])
  }

  /// The text of a file whose preamble is not blank and has all its keywords.
  function BoardText(d: Doc): string {
    TrimEnd(d.preamble) + "\n\n" + HeadingTexts(d.headings, d.after)
  }
}
