/**
 Writing a body so that it can never split or end its issue
 (`escape_body_headlines`, `crates/vissue-core/src/model.rs`), read back by the
 heading parser of `crates/vissue-core/src/store.rs`.
 */
module Escape {
  import opened Text
  import opened Org

  function EscapedLine(s: Scan, line: string): string {
    if !Step(s, line).1 && EndsTheIssue(line) then " " + line else line
  }

  /// The lines written for `lines` when the scan stands at `s`.
  function Escaped(s: Scan, lines: seq<string>): (out: seq<string>)
    ensures |out| == |lines|
    decreases |lines|
  {
    if lines == [] then []
    else [EscapedLine(s, lines[0])] + Escaped(Step(s, lines[0]).0, lines[1..])
  }

  function EscapedBody(body: string): string {
    JoinNl(Escaped(START, SplitNl(body)))
  }

  // ---- reading a written line ----

  /// `reading` scans the written text while `writing` scans the original. The
  /// space put before a headline keeps a list or a headline result open on the
  /// reading side after the writing side has left it.
  predicate Simulates(writing: Scan, reading: Scan) {
    && writing.depth == reading.depth
    && (|| writing.results == reading.results
        || (writing.results.Out? && (reading.results.List? || reading.results.Headline?)))
  }

  /// Everything but the column of a line is unchanged by a leading space.
  lemma LeadingSpace(line: string)
    ensures TrimStart(" " + line) == TrimStart(line)
    ensures Trim(" " + line) == Trim(line)
  {
    assert (" " + line)[1..] == line;
  }

  /// A level-one headline is no other construct.
  lemma HeadlineFacts(line: string)
    requires EndsTheIssue(line)
    ensures TrimStart(line) == line && IsHeadline(line) && LeadingStars(line) == 1
    ensures !IsBlockEnd(line) && !IsBlockBegin(line) && !IsResultsKeyword(Trim(line))
    ensures !OpensDrawer(Trim(line)) && !IsTableLine(Trim(line)) && !IsFixedWidthLine(line)
    ensures Trim(line) != "" && !IsListLine(line) && !IsListContinuation(line)
    ensures !SameNoCase(Trim(line), ":END:")
  {
    assert line[0] == '*' && line[1] == ' ';
    assert LeadingStars(line[1..]) == 0;
    FirstStays(line);
    FirstStays(Trim(line));
    assert Trim(line)[0] == '*';
  }

  /// Trimming a text that starts with a star leaves the star.
  lemma {:induction false} FirstStays(s: string)
    requires s != "" && s[0] == '*'
    ensures TrimEnd(s) != "" && TrimEnd(s)[0] == '*'
    ensures Trim(s) != "" && Trim(s)[0] == '*'
    decreases |s|
  {
    if IsSpace(s[|s| - 1]) {
      FirstStays(s[..|s| - 1]);
    }
  }

  /// The escaped form of a headline is nothing but an indented line.
  lemma EscapedHeadlineFacts(line: string)
    requires EndsTheIssue(line)
    ensures var e := " " + line;
      && !EndsTheIssue(e) && !IsHeadline(e) && !IsListLine(e) && IsListContinuation(e)
      && !IsFixedWidthLine(e)
  {
    var e := " " + line;
    HeadlineFacts(line);
    LeadingSpace(line);
    assert e[0] == ' ';
    var token := line[..WordLength(line)];
    assert WordLength(line) == 1 by {
      assert WordLength(line[1..]) == 0;
    }
    assert token == "*";
    assert TrimBulletEnd(token) == token;
  }

  /// One line of the simulation: the reading scan follows, and hides whatever
  /// would still end the issue.
  lemma StepSimulates(writing: Scan, reading: Scan, line: string)
    requires Simulates(writing, reading)
    ensures var out := EscapedLine(writing, line);
      && Simulates(Step(writing, line).0, Step(reading, out).0)
      && (EndsTheIssue(out) ==> Step(reading, out).1)
  {
    if EndsTheIssue(line) {
      HeadlineFacts(line);
      EscapedHeadlineFacts(line);
      LeadingSpace(line);
    }
  }

  /// What a scan hides, line by line.
  predicate HidesHeadlines(s: Scan, lines: seq<string>)
    decreases |lines|
  {
    lines == [] ||
    (&& (EndsTheIssue(lines[0]) ==> Step(s, lines[0]).1)
     && HidesHeadlines(Step(s, lines[0]).0, lines[1..]))
  }

  lemma {:induction false} RunSimulates(writing: Scan, reading: Scan, lines: seq<string>)
    requires Simulates(writing, reading)
    ensures var out := Escaped(writing, lines);
      && HidesHeadlines(reading, out)
      && Escaped(reading, out) == out
      && Simulates(Run(writing, lines), Run(reading, out))
    decreases |lines|
  {
    if lines != [] {
      StepSimulates(writing, reading, lines[0]);
      RunSimulates(Step(writing, lines[0]).0, Step(reading, EscapedLine(writing, lines[0])).0, lines[1..]);
      assert Escaped(writing, lines)[1..] == Escaped(Step(writing, lines[0]).0, lines[1..]);
    }
  }

  lemma {:induction false} EscapedOneLineEach(s: Scan, lines: seq<string>)
    requires OneLineEach(lines)
    ensures OneLineEach(Escaped(s, lines))
    decreases |lines|
  {
    if lines != [] {
      EscapedOneLineEach(Step(s, lines[0]).0, lines[1..]);
      assert lines[0] in lines;
    }
  }

  lemma WrittenLines(body: string)
    ensures SplitNl(EscapedBody(body)) == Escaped(START, SplitNl(body))
  {
    EscapedOneLineEach(START, SplitNl(body));
    SplitJoin(Escaped(START, SplitNl(body)));
  }

  /// A fresh scan of a written body hides every line that would end the issue.
  lemma WrittenBodyNeverEndsTheIssue(body: string)
    ensures HidesHeadlines(START, SplitNl(EscapedBody(body)))
  {
    WrittenLines(body);
    RunSimulates(START, START, SplitNl(body));
  }

  /// Writing what was written changes nothing.
  lemma WritingTwiceIsWritingOnce(body: string)
    ensures EscapedBody(EscapedBody(body)) == EscapedBody(body)
  {
    WrittenLines(body);
    RunSimulates(START, START, SplitNl(body));
  }

  // ---- the heading after the body ----

  /// The parser's search for the end of a body: the first line that would end
  /// the issue and that the scan does not hide.
  function BodyEnd(s: Scan, lines: seq<string>): (n: nat)
    ensures n <= |lines|
    decreases |lines|
  {
    if lines == [] || (!Step(s, lines[0]).1 && EndsTheIssue(lines[0])) then 0
    else 1 + BodyEnd(Step(s, lines[0]).0, lines[1..])
  }

  method FindBodyEnd(lines: seq<string>, start: nat) returns (bodyEnd: nat)
    requires start <= |lines|
    ensures bodyEnd == start + BodyEnd(START, lines[start..])
  {
    bodyEnd := start;
    var nest := new OrgScan();
    while bodyEnd < |lines|
      invariant start <= bodyEnd <= |lines|
      invariant fresh(nest) && fresh(nest.blocks)
      invariant start + BodyEnd(START, lines[start..]) == bodyEnd + BodyEnd(nest.State(), lines[bodyEnd..])
      decreases |lines| - bodyEnd
    {
      ghost var rest := lines[bodyEnd..];
      assert rest[0] == lines[bodyEnd] && rest[1..] == lines[bodyEnd + 1..];
      var hidden := nest.Observe(lines[bodyEnd]);
      if !hidden && EndsTheIssue(lines[bodyEnd]) {
        break;
      }
      bodyEnd := bodyEnd + 1;
    }
  }

  /// Whether a body leaves something open that hides the next issue: a block,
  /// a results keyword with no result, or a result drawer with no end.
  predicate LeavesOpen(s: Scan) {
    s.depth > 0 || s.results.Awaiting? || s.results.Drawer?
  }

  predicate StarsPositive(s: Scan) {
    s.results.Headline? ==> s.results.stars > 0
  }

  lemma {:induction false} RunStarsPositive(s: Scan, lines: seq<string>)
    requires StarsPositive(s)
    ensures StarsPositive(Run(s, lines))
    decreases |lines|
  {
    if lines != [] {
      RunStarsPositive(Step(s, lines[0]).0, lines[1..]);
    }
  }

  lemma {:induction false} BodyEndAfter(s: Scan, lines: seq<string>, next: seq<string>)
    requires HidesHeadlines(s, lines)
    ensures BodyEnd(s, lines + next) == |lines| + BodyEnd(Run(s, lines), next)
    decreases |lines|
  {
    if lines == [] {
      assert lines + next == next;
    } else {
      BodyEndAfter(Step(s, lines[0]).0, lines[1..], next);
      assert (lines + next)[1..] == lines[1..] + next;
    }
  }

  lemma HidesHeadlineIff(s: Scan, line: string)
    requires StarsPositive(s) && EndsTheIssue(line)
    ensures Step(s, line).1 <==> LeavesOpen(s)
  {
    HeadlineFacts(line);
  }

  // ---- the writer ----

  lemma {:induction false} NothingToEscape(s: Scan, lines: seq<string>)
    requires forall i :: 0 <= i < |lines| ==> !EndsTheIssue(lines[i])
    ensures Escaped(s, lines) == lines
    decreases |lines|
  {
    if lines != [] {
      NothingToEscape(Step(s, lines[0]).0, lines[1..]);
    }
  }

  lemma {:induction false} EscapedStep(s: Scan, lines: seq<string>, line: string)
    ensures Escaped(s, lines + [line]) == Escaped(s, lines) + [EscapedLine(Run(s, lines), line)]
    ensures Run(s, lines + [line]) == Step(Run(s, lines), line).0
    decreases |lines|
  {
    if lines != [] {
      EscapedStep(Step(s, lines[0]).0, lines[1..], line);
      assert (lines + [line])[1..] == lines[1..] + [line];
    }
  }

  lemma NothingRead()
    ensures Escaped(START, []) == [] && Run(START, []) == START
  {
  }

  lemma LineWritten(s: Scan, line: string)
    ensures EscapedLine(s, line) == if !Step(s, line).1 && EndsTheIssue(line) then " " + line else line
  {
    hide Step;
  }

  method EscapeBodyHeadlines(body: string) returns (out: string)
    ensures out == EscapedBody(body)
  {
    hide Step, EscapedLine, Run, Escaped;
    var lines := SplitNl(body);
    assert Escaped(START, []) == [] && Run(START, []) == START by { NothingRead(); }
    if forall i :: 0 <= i < |lines| ==> !EndsTheIssue(lines[i]) {
      NothingToEscape(START, lines);
      JoinSplit(body);
      return body;
    }
    var scan := new OrgScan();
    out := "";
    for i := 0 to |lines|
      invariant fresh(scan) && fresh(scan.blocks)
      invariant scan.State() == Run(START, lines[..i])
      invariant out == JoinNl(Escaped(START, lines[..i]))
    {
      assert lines[..i + 1] == lines[..i] + [lines[i]];
      EscapedStep(START, lines[..i], lines[i]);
      if i > 0 {
        JoinAppend(Escaped(START, lines[..i]), EscapedLine(Run(START, lines[..i]), lines[i]));
        out := out + "\n";
      }
      var hidden := scan.Observe(lines[i]);
      LineWritten(Run(START, lines[..i]), lines[i]);
      ghost var before := out;
      if !hidden && EndsTheIssue(lines[i]) {
        out := out + " ";
      }
      out := out + lines[i];
      assert out == before + EscapedLine(Run(START, lines[..i]), lines[i]);
    }
    assert lines[..|lines|] == lines;
  }
}
