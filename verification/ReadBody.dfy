/**
 Where the heading parser begins and ends the body of an issue, and what it
 reads (`parse_heading`, `crates/vissue-core/src/store.rs`), beside the body as
 `render` writes it (`crates/vissue-core/src/model.rs`).
 */
module ReadBody {
  import opened Text
  import opened Org
  import opened Escape
  import opened Print
  import opened DrawerSite
  import opened ScanAlike
  import LogLine

  // ---- the body as it is written ----

  /// The lines the parser sees of a written body, the blank one before it
  /// included.
  function Written(body: string): seq<string> {
    LinesOf(BodyText(body))
  }

  /// Line `i` of what was written ends the issue for a scan that hides nothing
  /// when line `i` of the body does and was left as it was.
  predicate LeftAsHeading(lines: seq<string>, i: nat)
    requires i < |lines|
  {
    EndsTheIssue(lines[i]) && LeavesOpen(Run(START, lines[..i]))
  }

  lemma TrimDropCr(l: string)
    ensures Trim(DropCr(l)) == Trim(l)
    ensures EndsTheIssue(DropCr(l)) <==> EndsTheIssue(l)
  {
    if l != "" && l[|l| - 1] == '\r' {
      LogLine.TrimDropsLast(l);
    }
  }

  lemma {:induction false} EscapedAt(s: Scan, lines: seq<string>, i: nat)
    requires i < |lines|
    ensures Escaped(s, lines)[i] == EscapedLine(Run(s, lines[..i]), lines[i])
    decreases |lines|
  {
    hide Step, EscapedLine;
    if i > 0 {
      EscapedAt(Step(s, lines[0]).0, lines[1..], i - 1);
      assert lines[..i][0] == lines[0] && lines[..i][1..] == lines[1..][..i - 1];
      assert lines[1..][i - 1] == lines[i];
    } else {
      assert lines[..0] == [];
    }
  }

  /// How many lines a text has once its pieces are lines.
  function LineCount(pieces: seq<string>): nat {
    if pieces == [] then 0 else if pieces[|pieces| - 1] == "" then |pieces| - 1 else |pieces|
  }

  lemma LinesAt(t: string)
    ensures var (ls, pieces) := (LinesOf(t), SplitNl(t));
      && |ls| == LineCount(pieces)
      && forall i :: 0 <= i < |ls| ==> ls[i] == if i == |pieces| - 1 then pieces[i] else DropCr(pieces[i])
  {
    DropCrsAt(SplitNl(t));
    hide SplitNl, DropCrs;
  }

  lemma FinishedPieces(text: string)
    requires text != ""
    ensures SplitNl("\n" + Finished(text)) == [""] + if EndsLine(text) then SplitNl(text) else SplitNl(text) + [""]
  {
    var (t, pieces) := (Finished(text), SplitNl(text));
    JoinSplit(text);
    if !EndsLine(text) {
      JoinAppend(pieces, "");
      assert text + "\n" + "" == t;
      SplitJoin(pieces + [""]);
    }
    assert ("\n" + t)[1..] == t;
  }

  /// The lines of a blank line, a text and the newline it lacks.
  lemma FramedLines(text: string)
    requires text != ""
    ensures var (ls, pieces) := (LinesOf("\n" + Finished(text)), SplitNl(text));
      && |ls| == LineCount(pieces) + 1 && ls[0] == ""
      && forall i :: 0 <= i < LineCount(pieces) ==> ls[i + 1] == DropCr(pieces[i])
  {
    var (whole, pieces) := ("\n" + Finished(text), SplitNl(text));
    hide SplitNl, LinesOf, Finished, DropCr;
    FinishedPieces(text);
    LastPiece(text);
    LinesAt(whole);
    FirstIsBlank();
    var all := SplitNl(whole);
    assert all[|all| - 1] == "" && LineCount(all) == |all| - 1 == LineCount(pieces) + 1;
    forall i | 0 <= i < LineCount(pieces) ensures LinesOf(whole)[i + 1] == DropCr(pieces[i]) {
      assert all[i + 1] == pieces[i];
    }
  }

  lemma FirstIsBlank()
    ensures DropCr("") == ""
  {
  }

  lemma EmptyEscaped(s: Scan, line: string)
    ensures EscapedLine(s, line) == "" <==> line == ""
  {
  }

  lemma WrittenShape(body: string)
    requires body != ""
    ensures var (ls, written, out) := (LinesOf(body), Written(body), Escaped(START, SplitNl(body)));
      && |written| == |ls| + 1 && written[0] == "" && |ls| <= |out|
      && forall i :: 0 <= i < |ls| ==> written[i + 1] == DropCr(out[i])
  {
    var (pieces, out) := (SplitNl(body), Escaped(START, SplitNl(body)));
    var last := |pieces| - 1;
    WrittenLines(body);
    hide LinesOf, SplitNl, Escaped, EscapedBody, EscapedLine, DropCr, Run, Finished;
    NotEmptyWritten(body);
    LinesAt(body);
    EscapedAt(START, pieces, last);
    EmptyEscaped(Run(START, pieces[..last]), pieces[last]);
    assert LineCount(out) == LineCount(pieces);
    FramedLines(EscapedBody(body));
    assert Written(body) == LinesOf("\n" + Finished(EscapedBody(body)));
  }

  /// What the parser sees of a written body, line by line.
  lemma WrittenAs(body: string)
    requires body != ""
    ensures var (ls, written) := (LinesOf(body), Written(body));
      && |written| == |ls| + 1 && written[0] == ""
      && SameTrimmed(written[1..], ls)
      && forall i :: 0 <= i < |ls| ==> (EndsTheIssue(written[i + 1]) <==> LeftAsHeading(ls, i))
  {
    var (ls, written) := (LinesOf(body), Written(body));
    WrittenShape(body);
    hide *;
    forall i | 0 <= i < |ls|
      ensures Trim(written[i + 1]) == Trim(ls[i]) && (EndsTheIssue(written[i + 1]) <==> LeftAsHeading(ls, i))
    {
      WrittenAt(body, i);
    }
    TailSame(written, ls);
  }

  lemma TailSame(written: seq<string>, ls: seq<string>)
    requires |written| == |ls| + 1 && forall i :: 0 <= i < |ls| ==> Trim(written[i + 1]) == Trim(ls[i])
    ensures SameTrimmed(written[1..], ls)
  {
    hide Trim;
  }

  lemma NotEmptyWritten(body: string)
    requires body != ""
    ensures EscapedBody(body) != ""
  {
    WrittenLines(body);
    if |SplitNl(body)| == 1 {
      JoinSplit(body);
      EscapedAt(START, SplitNl(body), 0);
      EmptyEscaped(Run(START, []), SplitNl(body)[0]);
      assert SplitNl(body)[..0] == [];
    }
    assert EscapedBody(body) == "" ==> SplitNl(EscapedBody(body)) == [""];
    hide Escaped, EscapedBody;
  }

  lemma WrittenAt(body: string, i: nat)
    requires body != "" && i < |LinesOf(body)| && |Written(body)| == |LinesOf(body)| + 1
    requires i < |SplitNl(body)| && Written(body)[i + 1] == DropCr(Escaped(START, SplitNl(body))[i])
    ensures Trim(Written(body)[i + 1]) == Trim(LinesOf(body)[i])
    ensures EndsTheIssue(Written(body)[i + 1]) <==> LeftAsHeading(LinesOf(body), i)
  {
    var (pieces, ls) := (SplitNl(body), LinesOf(body));
    var (s, piece) := (Run(START, pieces[..i]), pieces[i]);
    hide *;
    LinesAt(body);
    EscapedAt(START, pieces, i);
    TrimDropCr(piece);
    TrimDropCr(EscapedLine(s, piece));
    EscapedKeepsTrim(s, piece);
    forall k | 0 <= k < i ensures Trim(pieces[k]) == Trim(ls[k]) { TrimDropCr(pieces[k]); }
    SameOpen(pieces, ls, i);
    LeftAt(s, piece, pieces, i);
    LeftLine(ls, i, piece);
  }

  lemma EscapedKeepsTrim(s: Scan, line: string)
    ensures Trim(EscapedLine(s, line)) == Trim(line)
  {
    LeadingSpace(line);
    hide Step, Trim;
  }

  lemma SameOpen(a: seq<string>, b: seq<string>, i: nat)
    requires i <= |a| && i <= |b| && forall k :: 0 <= k < i ==> Trim(a[k]) == Trim(b[k])
    ensures LeavesOpen(Run(START, a[..i])) <==> LeavesOpen(Run(START, b[..i]))
  {
    hide Trim, LeavesOpen, Run;
    RunAlike(START, START, a[..i], b[..i]);
    AlikeLeavesOpen(Run(START, a[..i]), Run(START, b[..i]));
  }

  lemma LeftAt(s: Scan, line: string, pieces: seq<string>, i: nat)
    requires i <= |pieces| && s == Run(START, pieces[..i])
    ensures EndsTheIssue(EscapedLine(s, line)) <==> EndsTheIssue(line) && LeavesOpen(s)
  {
    RunStarsPositive(START, pieces[..i]);
    hide Step, LeavesOpen, Run;
    if EndsTheIssue(line) {
      HidesHeadlineIff(s, line);
      EscapedHeadlineFacts(line);
    }
  }

  lemma LeftLine(ls: seq<string>, i: nat, piece: string)
    requires i < |ls| && (ls[i] == piece || ls[i] == DropCr(piece))
    ensures LeftAsHeading(ls, i) <==> EndsTheIssue(piece) && LeavesOpen(Run(START, ls[..i]))
  {
    TrimDropCr(piece);
    hide LeavesOpen, Run, EndsTheIssue, DropCr;
  }

  // ---- where the issue ends ----

  /// Line `i` ends the issue and the scan does not hide it.
  predicate IsBare(s: Scan, lines: seq<string>, i: int)
    requires 0 <= i < |lines|
  {
    EndsTheIssue(lines[i]) && !LeavesOpen(Run(s, lines[..i]))
  }

  /// A scan stops right behind `lines` exactly when it hides every heading in
  /// them and nothing is open behind them.
  lemma {:induction false} BodyEndExactly(s: Scan, lines: seq<string>, next: seq<string>)
    requires StarsPositive(s) && next != [] && EndsTheIssue(next[0])
    ensures BodyEnd(s, lines + next) == |lines|
      <==> !LeavesOpen(Run(s, lines)) && forall i :: 0 <= i < |lines| ==> !IsBare(s, lines, i)
    decreases |lines|
  {
    hide Step, EndsTheIssue, LeavesOpen;
    if lines == [] {
      assert lines + next == next;
      HidesHeadlineIff(s, next[0]);
    } else {
      var (t, all) := (Step(s, lines[0]).0, lines + next);
      assert all[0] == lines[0] && all[1..] == lines[1..] + next;
      StepStars(s, lines[0]);
      BodyEndExactly(t, lines[1..], next);
      assert lines[..0] == [];
      if EndsTheIssue(lines[0]) { HidesHeadlineIff(s, lines[0]); }
      forall i | 0 <= i < |lines[1..]| ensures IsBare(t, lines[1..], i) <==> IsBare(s, lines, i + 1) {
        assert lines[..i + 1][0] == lines[0] && lines[..i + 1][1..] == lines[1..][..i];
      }
      LaterBare(s, t, lines);
    }
  }

  lemma LaterBare(s: Scan, t: Scan, lines: seq<string>)
    requires lines != [] && forall i :: 0 <= i < |lines[1..]| ==> (IsBare(t, lines[1..], i) <==> IsBare(s, lines, i + 1))
    ensures (forall i :: 0 <= i < |lines| ==> !IsBare(s, lines, i))
      <==> !IsBare(s, lines, 0) && forall i :: 0 <= i < |lines[1..]| ==> !IsBare(t, lines[1..], i)
  {
    hide IsBare;
    if forall i :: 0 <= i < |lines[1..]| ==> !IsBare(t, lines[1..], i) {
      forall i | 1 <= i < |lines| ensures !IsBare(s, lines, i) { assert !IsBare(t, lines[1..], i - 1); }
    }
  }

  lemma StepStars(s: Scan, line: string)
    requires StarsPositive(s)
    ensures StarsPositive(Step(s, line).0)
  {
    RunStarsPositive(s, [line]);
    assert [line][1..] == [];
  }

  /**
   Where the writer and the parser part: the writer scans a body from its first
   line, the parser only from the line behind the drawers at the front of it.
   A heading of the body that the writer takes for block text and the parser
   does not was left as it was, and splits the issue.
   */
  predicate SplitsTheIssue(lines: seq<string>) {
    var k := BodyStart(lines);
    exists i :: k <= i < |lines| && SplitsAt(lines, k, i)
  }

  predicate SplitsAt(lines: seq<string>, k: nat, i: int)
    requires k <= i < |lines|
  {
    LeftAsHeading(lines, i) && !LeavesOpen(Run(START, lines[k..i]))
  }

  predicate FoundBehind(lines: seq<string>) {
    && !EndsInDrawer(lines) && !SplitsTheIssue(lines)
    && !LeavesOpen(Run(START, lines[BodyStart(lines)..]))
  }

  /**
   The heading behind a written body is found where the body ends exactly when
   no drawer at the front of the body is left open, no heading in it splits it,
   and what stands behind those drawers leaves nothing open.
   */
  lemma NextIssueIsFoundExactly(body: string, next: seq<string>)
    requires next != [] && EndsTheIssue(next[0])
    ensures IssueEnd(Written(body) + next) == |Written(body)| <==> FoundBehind(LinesOf(body))
  {
    var (ls, written) := (LinesOf(body), Written(body));
    if body == "" {
      NothingWritten(next);
    } else {
      WrittenAs(body);
      hide *;
      StartOfWritten(written, ls);
      EndOfWritten(written, ls, next);
    }
  }

  lemma NothingWritten(next: seq<string>)
    requires next != [] && EndsTheIssue(next[0])
    ensures Written("") == [] && IssueEnd([] + next) == 0 && FoundBehind(LinesOf(""))
  {
    HeadlineStops(next);
    HeadlineFacts(next[0]);
    assert [] + next == next && next[0..] == next;
    assert LinesOf("") == [];
    hide LinesOf;
    assert BodyEnd(START, next) == 0;
    var none: seq<string> := [];
    assert none[0..] == none;
  }

  lemma StartOfWritten(written: seq<string>, ls: seq<string>)
    requires |written| == |ls| + 1 && written[0] == "" && SameTrimmed(written[1..], ls)
    ensures BodyStart(written) == 1 + BodyStart(ls) && (EndsInDrawer(written) <==> EndsInDrawer(ls))
  {
    SameBodyStart(written[1..], ls);
    assert Trim("") == "";
    hide SameTrimmed;
  }

  lemma EndOfWritten(written: seq<string>, ls: seq<string>, next: seq<string>)
    requires next != [] && EndsTheIssue(next[0])
    requires |written| == |ls| + 1 && SameTrimmed(written[1..], ls)
    requires forall i :: 0 <= i < |ls| ==> (EndsTheIssue(written[i + 1]) <==> LeftAsHeading(ls, i))
    requires BodyStart(written) == 1 + BodyStart(ls) && (EndsInDrawer(written) <==> EndsInDrawer(ls))
    ensures IssueEnd(written + next) == |written| <==> FoundBehind(ls)
  {
    var k := BodyStart(ls);
    StartBeforeHeading(written, next);
    hide LeftAsHeading, EndsTheIssue, LeavesOpen, BodyEnd, BodyStart, EndsInDrawer, SameTrimmed, Run;
    if !EndsInDrawer(ls) {
      assert (written + next)[1 + k..] == written[1 + k..] + next;
      ScanOfWritten(written, ls, k, next);
    }
  }

  lemma ScanOfWritten(written: seq<string>, ls: seq<string>, k: nat, next: seq<string>)
    requires next != [] && EndsTheIssue(next[0])
    requires |written| == |ls| + 1 && k <= |ls| && SameTrimmed(written[1..], ls)
    requires forall i :: 0 <= i < |ls| ==> (EndsTheIssue(written[i + 1]) <==> LeftAsHeading(ls, i))
    ensures BodyEnd(START, written[1 + k..] + next) == |written| - (1 + k)
      <==> !LeavesOpen(Run(START, ls[k..])) && forall i :: k <= i < |ls| ==> !SplitsAt(ls, k, i)
  {
    var rest := written[1 + k..];
    assert StarsPositive(START);
    hide *;
    BodyEndExactly(START, rest, next);
    PartsAlike(written, ls, k, |ls|);
    assert ls[k..|ls|] == ls[k..] && rest[..|ls| - k] == rest;
    RestAgrees(written, ls, k);
    ShiftedBy(rest, ls, k);
  }

  lemma RestAgrees(written: seq<string>, ls: seq<string>, k: nat)
    requires |written| == |ls| + 1 && k <= |ls| && SameTrimmed(written[1..], ls)
    requires forall i :: 0 <= i < |ls| ==> (EndsTheIssue(written[i + 1]) <==> LeftAsHeading(ls, i))
    ensures forall i :: k <= i < |ls| ==> (IsBare(START, written[1 + k..], i - k) <==> SplitsAt(ls, k, i))
  {
    hide *;
    forall i | k <= i < |ls| ensures IsBare(START, written[1 + k..], i - k) <==> SplitsAt(ls, k, i) {
      PartsAlike(written, ls, k, i);
      BareIsSplit(written[1 + k..], ls, k, i, written[i + 1]);
    }
  }

  lemma BareIsSplit(rest: seq<string>, ls: seq<string>, k: nat, i: nat, line: string)
    requires k <= i < |ls| && i - k < |rest| && rest[i - k] == line && (EndsTheIssue(line) <==> LeftAsHeading(ls, i))
    requires LeavesOpen(Run(START, rest[..i - k])) <==> LeavesOpen(Run(START, ls[k..i]))
    ensures IsBare(START, rest, i - k) <==> SplitsAt(ls, k, i)
  {
    hide LeftAsHeading, LeavesOpen, Run, EndsTheIssue;
  }

  lemma ShiftedBy(rest: seq<string>, ls: seq<string>, k: nat)
    requires |rest| + k == |ls| && forall i :: k <= i < |ls| ==> (IsBare(START, rest, i - k) <==> SplitsAt(ls, k, i))
    ensures (forall j :: 0 <= j < |rest| ==> !IsBare(START, rest, j)) <==> forall i :: k <= i < |ls| ==> !SplitsAt(ls, k, i)
  {
    hide IsBare, SplitsAt;
    if forall i :: k <= i < |ls| ==> !SplitsAt(ls, k, i) {
      forall j | 0 <= j < |rest| ensures !IsBare(START, rest, j) {
        assert !SplitsAt(ls, k, j + k) && j + k - k == j;
      }
    }
  }

  lemma PartsAlike(written: seq<string>, ls: seq<string>, k: nat, i: nat)
    requires |written| == |ls| + 1 && k <= i <= |ls| && SameTrimmed(written[1..], ls)
    ensures LeavesOpen(Run(START, written[1 + k..][..i - k])) <==> LeavesOpen(Run(START, ls[k..i]))
  {
    var (a, b) := (written[1 + k..][..i - k], ls[k..i]);
    assert SameTrimmed(a, b) by {
      hide Trim;
      assert forall j :: 0 <= j < |b| ==> a[j] == written[1..][j + k] && b[j] == ls[j + k];
    }
    RunAlike(START, START, a, b);
    AlikeLeavesOpen(Run(START, a), Run(START, b));
  }

  // ---- what is read ----

  /// The body the parser takes: less its outer newlines and its trailing blanks.
  function BodyRead(lines: seq<string>): string {
    TrimEnd(TrimOf(JoinNl(lines[BodyStart(lines)..IssueEnd(lines)]), '\n'))
  }

  /// A body in the form in which it comes back: no blank at its end, no
  /// carriage return at the end of a line, and a first line that is neither
  /// blank nor the name of a drawer.
  predicate IsTidy(body: string) {
    var pieces := SplitNl(body);
    && TrimEnd(body) == body && PlainLines(pieces)
    && Trim(pieces[0]) != "" && !OpensDrawer(Trim(pieces[0]))
  }

  lemma {:induction false} TrimsShorten(s: string, c: char)
    ensures |TrimStartOf(s, c)| <= |s| && |TrimEndOf(s, c)| <= |s| && |TrimEnd(s)| <= |s|
    ensures |TrimEnd(s)| == |s| ==> TrimEnd(s) == s
    decreases |s|
  {
    if s != "" {
      TrimsShorten(s[1..], c);
      TrimsShorten(s[..|s| - 1], c);
    }
  }

  lemma {:induction false} JoinParts(ls: seq<string>, k: nat)
    requires 0 < k < |ls|
    ensures |JoinNl(ls)| == |JoinNl(ls[..k])| + 1 + |JoinNl(ls[k..])|
  {
    if k == 1 {
      assert ls[..1] == [ls[0]];
    } else {
      JoinParts(ls[1..], k - 1);
      assert ls[..k][1..] == ls[1..][..k - 1] && ls[..k][0] == ls[0];
    }
  }

  lemma TailShorter(ls: seq<string>, k: nat)
    requires k <= |ls|
    ensures 0 < k < |ls| ==> |JoinNl(ls[k..])| < |JoinNl(ls)|
    ensures k == |ls| ==> JoinNl(ls[k..]) == ""
  {
    if 0 < k < |ls| { JoinParts(ls, k); }
  }

  lemma {:induction false} DroppedJoin(a: seq<string>, b: seq<string>)
    requires |a| == |b| && forall i :: 0 <= i < |a| ==> b[i] == DropCr(a[i])
    ensures |JoinNl(b)| <= |JoinNl(a)| && (|JoinNl(b)| == |JoinNl(a)| ==> b == a)
  {
    if |a| == 1 {
      assert a == [a[0]] && b == [b[0]];
    } else if |a| > 1 {
      DroppedJoin(a[1..], b[1..]);
      assert a == [a[0]] + a[1..] && b == [b[0]] + b[1..];
    }
  }

  lemma {:induction false} LastCharEscaped(s: Scan, lines: seq<string>)
    requires lines != []
    ensures SameEnd(JoinNl(lines), JoinNl(Escaped(s, lines)))
    decreases |lines|
  {
    hide Step, SameEnd;
    var out := Escaped(s, lines);
    if |lines| == 1 {
      assert out == [EscapedLine(s, lines[0])];
      SameEndLine(s, lines[0]);
    } else {
      LastCharEscaped(Step(s, lines[0]).0, lines[1..]);
      assert out[1..] == Escaped(Step(s, lines[0]).0, lines[1..]);
      SameEndBehind(lines[0], JoinNl(lines[1..]), out[0], JoinNl(out[1..]));
    }
  }

  predicate SameEnd(x: string, y: string) {
    (x == "" <==> y == "") && (x != "" && y != "" ==> x[|x| - 1] == y[|y| - 1])
  }

  lemma SameEndLine(s: Scan, line: string)
    ensures SameEnd(line, EscapedLine(s, line))
  {
    hide Step;
  }

  lemma SameEndBehind(a: string, x: string, b: string, y: string)
    requires SameEnd(x, y)
    ensures SameEnd(a + "\n" + x, b + "\n" + y)
  {
  }

  /**
   A written body is read back as it was written, and the heading behind it
   found, exactly when the body is tidy and leaves nothing open.
   */
  lemma BodyComesBackExactly(body: string, next: seq<string>)
    requires body != "" && next != [] && EndsTheIssue(next[0])
    ensures var all := Written(body) + next;
      var whole := IssueEnd(all) == |Written(body)| && BodyRead(all) == EscapedBody(body);
      whole <==> IsTidy(body) && !LeavesOpen(Run(START, SplitNl(body)))
  {
    var all := Written(body) + next;
    hide *;
    if IsTidy(body) && !LeavesOpen(Run(START, SplitNl(body))) {
      TidyComesBack(body, next);
    }
    if IssueEnd(all) == |Written(body)| && BodyRead(all) == EscapedBody(body) {
      OnlyTidyComesBack(body, next);
    }
  }

  lemma TidyLines(body: string)
    requires body != "" && IsTidy(body)
    ensures LinesOf(body) == SplitNl(body)
    ensures |Written(body)| == |SplitNl(body)| + 1 && Written(body)[1..] == Escaped(START, SplitNl(body))
  {
    var (pieces, out, ls) := (SplitNl(body), Escaped(START, SplitNl(body)), LinesOf(body));
    assert TrimEnd(body) == body && PlainLines(pieces);
    hide *;
    TrimmedEnd(body);
    CountAll(body);
    LinesAt(body);
    WrittenShape(body);
    forall i | 0 <= i < |pieces| ensures DropCr(pieces[i]) == pieces[i] && DropCr(out[i]) == out[i] {
      PlainAt(pieces, i);
    }
    SamePieces(ls, pieces);
    SameAfterFirst(Written(body), out);
  }

  lemma PlainAt(pieces: seq<string>, i: nat)
    requires PlainLines(pieces) && i < |pieces|
    ensures DropCr(pieces[i]) == pieces[i] && DropCr(Escaped(START, pieces)[i]) == Escaped(START, pieces)[i]
  {
    hide *;
    EscapedAt(START, pieces, i);
    PlainPiece(pieces, i);
    PlainEscaped(Run(START, pieces[..i]), pieces[i]);
  }

  lemma SamePieces(ls: seq<string>, pieces: seq<string>)
    requires |ls| == |pieces| && forall i :: 0 <= i < |pieces| ==> DropCr(pieces[i]) == pieces[i]
    requires forall i :: 0 <= i < |ls| ==> ls[i] == if i == |pieces| - 1 then pieces[i] else DropCr(pieces[i])
    ensures ls == pieces
  {
    hide DropCr;
  }

  lemma SameAfterFirst(written: seq<string>, out: seq<string>)
    requires |written| == |out| + 1 && forall i :: 0 <= i < |out| ==> written[i + 1] == DropCr(out[i]) == out[i]
    ensures written[1..] == out
  {
    hide DropCr;
    assert forall i :: 0 <= i < |out| ==> written[1..][i] == written[i + 1];
  }

  lemma PlainPiece(pieces: seq<string>, i: nat)
    requires PlainLines(pieces) && i < |pieces|
    ensures PlainLine(pieces[i]) && (pieces[i] == "" || pieces[i][|pieces[i]| - 1] != '\r') && DropCr(pieces[i]) == pieces[i]
  {
  }

  lemma TrimmedEnd(s: string)
    requires s != "" && TrimEnd(s) == s
    ensures !IsSpace(s[|s| - 1]) && !EndsLine(s)
  {
  }

  lemma PlainEscaped(s: Scan, line: string)
    ensures PlainLine(EscapedLine(s, line)) <==> PlainLine(line)
    ensures DropCr(EscapedLine(s, line)) == EscapedLine(s, line) <==> line == "" || line[|line| - 1] != '\r'
  {
    hide Step;
  }

  lemma TidyIsFound(body: string)
    requires body != "" && IsTidy(body) && !LeavesOpen(Run(START, SplitNl(body)))
    ensures FoundBehind(LinesOf(body)) && BodyStart(LinesOf(body)) == 0 && !EndsInDrawer(LinesOf(body))
  {
    TidyLines(body);
    var ls := SplitNl(body);
    hide LinesOf, SplitNl, Trim, OpensDrawer, LeavesOpen, Run, TrimEnd;
    assert BodyStart(ls) == 0 && ls[0..] == ls;
    forall i | 0 <= i < |ls| ensures !SplitsAt(ls, 0, i) { assert ls[0..i] == ls[..i]; }
  }

  lemma TidyComesBack(body: string, next: seq<string>)
    requires body != "" && next != [] && EndsTheIssue(next[0])
    requires IsTidy(body) && !LeavesOpen(Run(START, SplitNl(body)))
    ensures IssueEnd(Written(body) + next) == |Written(body)| && BodyRead(Written(body) + next) == EscapedBody(body)
  {
    var (written, text) := (Written(body), EscapedBody(body));
    TidyLines(body);
    TidyIsFound(body);
    NextIssueIsFoundExactly(body, next);
    WrittenAs(body);
    OuterChars(body);
    hide *;
    StartOfWritten(written, LinesOf(body));
    StartBeforeHeading(written, next);
    assert (written + next)[1..|written|] == written[1..];
    assert BodyRead(written + next) == TrimEnd(TrimOf(JoinNl(written[1..]), '\n')) by { ReadAt(written, next); }
    assert JoinNl(written[1..]) == text by { WrittenText(body); }
    UntrimmedText(text);
  }

  lemma ReadAt(written: seq<string>, next: seq<string>)
    requires BodyStart(written + next) == 1 && IssueEnd(written + next) == |written| && |written| > 0
    ensures BodyRead(written + next) == TrimEnd(TrimOf(JoinNl(written[1..]), '\n'))
  {
    hide BodyStart, IssueEnd, TrimEnd, TrimOf;
    assert (written + next)[1..|written|] == written[1..];
  }

  lemma WrittenText(body: string)
    requires Written(body) != [] && Written(body)[1..] == Escaped(START, SplitNl(body))
    ensures JoinNl(Written(body)[1..]) == EscapedBody(body)
  {
  }

  predicate NoOuterSpace(s: string) {
    s != "" && s[0] != '\n' && !IsSpace(s[|s| - 1])
  }

  lemma UntrimmedText(s: string)
    requires NoOuterSpace(s)
    ensures TrimEnd(TrimOf(s, '\n')) == s
  {
    assert TrimStartOf(s, '\n') == s && TrimEndOf(s, '\n') == s;
  }

  lemma OuterChars(body: string)
    requires body != "" && IsTidy(body)
    ensures NoOuterSpace(EscapedBody(body))
  {
    var (pieces, out) := (SplitNl(body), Escaped(START, SplitNl(body)));
    FirstPiece(body);
    hide *;
    TrimmedEnd(body);
    JoinSplit(body);
    LastCharEscaped(START, pieces);
    FirstEscaped(pieces);
    FirstOfJoin(out);
    OuterOf(body, JoinNl(out));
    assert EscapedBody(body) == JoinNl(out) by { TextOf(body); }
  }

  lemma TextOf(body: string)
    ensures EscapedBody(body) == JoinNl(Escaped(START, SplitNl(body)))
  {
  }

  lemma OuterOf(body: string, text: string)
    requires body != "" && text != "" && text[0] != '\n' && !IsSpace(body[|body| - 1]) && text[|text| - 1] == body[|body| - 1]
    ensures NoOuterSpace(text)
  {
  }

  lemma FirstPiece(body: string)
    requires IsTidy(body)
    ensures TrimEnd(body) == body && |SplitNl(body)| > 0 && SplitNl(body)[0] != "" && OneLine(SplitNl(body)[0])
  {
    assert Trim("") == "";
    hide Trim, SplitNl, OpensDrawer, TrimEnd;
  }

  lemma FirstEscaped(pieces: seq<string>)
    requires pieces != [] && pieces[0] != "" && OneLine(pieces[0])
    ensures var out := Escaped(START, pieces); out != [] && out[0] != "" && OneLine(out[0])
  {
    EscapedAt(START, pieces, 0);
    hide Step;
  }

  lemma FirstOfJoin(ls: seq<string>)
    requires ls != [] && ls[0] != "" && OneLine(ls[0])
    ensures JoinNl(ls) != "" && JoinNl(ls)[0] != '\n'
  {
    assert ls[0][0] in ls[0];
    assert |ls| > 1 ==> JoinNl(ls) == ls[0] + "\n" + JoinNl(ls[1..]);
  }

  lemma OnlyTidyComesBack(body: string, next: seq<string>)
    requires body != "" && next != [] && EndsTheIssue(next[0])
    requires IssueEnd(Written(body) + next) == |Written(body)| && BodyRead(Written(body) + next) == EscapedBody(body)
    ensures IsTidy(body) && !LeavesOpen(Run(START, SplitNl(body)))
  {
    var (written, ls, out) := (Written(body), LinesOf(body), Escaped(START, SplitNl(body)));
    WrittenShape(body);
    WrittenAs(body);
    EndNotBlank(body, next);
    TrimmedEnd(body);
    NextIssueIsFoundExactly(body, next);
    CountAll(body);
    NotEmptyWritten(body);
    assert EscapedBody(body) == JoinNl(out) && |out| == |SplitNl(body)| > 0;
    hide *;
    StartOfWritten(written, ls);
    StartIsFirst(written, next, out);
    StartBeforeHeading(written, next);
    TidyFrom(body);
    TidyLines(body);
    assert ls[0..] == ls;
    FoundOpen(ls);
  }

  lemma FoundOpen(ls: seq<string>)
    requires FoundBehind(ls) && BodyStart(ls) == 0
    ensures !LeavesOpen(Run(START, ls[0..]))
  {
    hide BodyStart, SplitsTheIssue, EndsInDrawer;
  }

  lemma TidyFrom(body: string)
    requires body != "" && TrimEnd(body) == body && BodyStart(LinesOf(body)) == 0 && LinesOf(body) != []
    requires |LinesOf(body)| == |SplitNl(body)|
    requires forall i :: 0 <= i < |SplitNl(body)| ==> DropCr(Escaped(START, SplitNl(body))[i]) == Escaped(START, SplitNl(body))[i]
    ensures IsTidy(body)
  {
    var (pieces, ls) := (SplitNl(body), LinesOf(body));
    LinesAt(body);
    hide LinesOf, SplitNl, Trim, OpensDrawer, DropCr, Escaped, TrimEnd;
    forall i | 0 <= i < |pieces| ensures PlainLine(pieces[i]) {
      EscapedAt(START, pieces, i);
      PlainEscaped(Run(START, pieces[..i]), pieces[i]);
    }
    assert Trim(ls[0]) != "" && !OpensDrawer(Trim(ls[0]));
    TrimDropCr(pieces[0]);
  }

  lemma CountAll(body: string)
    requires !EndsLine(body) && body != ""
    ensures |LinesOf(body)| == |SplitNl(body)| == |Escaped(START, SplitNl(body))|
  {
    LastPiece(body);
    LinesAt(body);
  }

  /// Text that comes back ends in no blank.
  lemma EndNotBlank(body: string, next: seq<string>)
    requires body != "" && BodyRead(Written(body) + next) == EscapedBody(body)
    ensures TrimEnd(body) == body
  {
    JoinSplit(body);
    LastCharEscaped(START, SplitNl(body));
    hide SplitNl, Written, Escaped, BodyStart, IssueEnd, TrimOf;
  }

  /// Nothing but the blank line can have been skipped, and no carriage return.
  lemma StartIsFirst(written: seq<string>, next: seq<string>, out: seq<string>)
    requires |written| == |out| + 1 && out != [] && forall i :: 0 <= i < |out| ==> written[i + 1] == DropCr(out[i])
    requires written[0] == "" && JoinNl(out) != ""
    requires IssueEnd(written + next) == |written| && BodyRead(written + next) == JoinNl(out)
    ensures BodyStart(written + next) == 1 && written[1..] == out
    ensures forall i :: 0 <= i < |out| ==> DropCr(out[i]) == out[i]
  {
    var (all, tail) := (written + next, written[1..]);
    var b := BodyStart(all);
    var text := JoinNl(all[b..|written|]);
    BlankFirst(all);
    ReadShorter(all, text);
    hide *;
    assert b <= |written| by { StartBeforeEnd(all); }
    assert all[b..|written|] == tail[b - 1..];
    DroppedJoin(out, tail);
    TailShorter(tail, b - 1);
    assert b == 1 && tail[0..] == tail;
    assert forall i :: 0 <= i < |out| ==> tail[i] == written[i + 1];
  }

  lemma BlankFirst(all: seq<string>)
    requires all != [] && all[0] == ""
    ensures BodyStart(all) >= 1
  {
    assert Trim("") == "";
  }

  lemma StartBeforeEnd(all: seq<string>)
    ensures BodyStart(all) <= IssueEnd(all)
  {
    hide BodyStart, BodyEnd;
  }

  lemma ReadShorter(all: seq<string>, text: string)
    requires text == JoinNl(all[BodyStart(all)..IssueEnd(all)])
    ensures |BodyRead(all)| <= |text|
  {
    hide BodyStart, IssueEnd, TrimStartOf, TrimEndOf, TrimEnd;
    TrimsShorten(text, '\n');
    TrimsShorten(TrimStartOf(text, '\n'), '\n');
    TrimsShorten(TrimOf(text, '\n'), '\n');
  }
}
