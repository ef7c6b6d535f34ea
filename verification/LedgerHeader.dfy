/**
 What stands in the file of a new issue: the preamble, the two mark lines, the
 text of the issue between the lines they name, and an empty log
 (`write_header` and `header_bytes`, `crates/vissue-core/src/ledger.rs`).
 */
module LedgerHeader {
  import opened Base
  import opened Text
  import opened Issue
  import opened MergeSets
  import opened Records
  import opened LedgerStore
  import opened LedgerCommit

  /// The two numbers of a `#+VISSUE_LINES:` line.
  function SpanOf(line: string): Option<(nat, nat)> {
    if !("#+VISSUE_LINES:" <= line) then None
    else
      var words := SplitSpace(line[15..]);
      if |words| != 2 || ParseUsize(words[0]).None? || ParseUsize(words[1]).None? then None
      else Some((ParseUsize(words[0]).value, ParseUsize(words[1]).value))
  }

  function SpanLine(s: nat, e: nat): string {
    "#+VISSUE_LINES: " + Decimal(s) + " " + Decimal(e)
  }

  lemma SpanReads(s: nat, e: nat)
    ensures SpanOf(SpanLine(s, e)) == Some((s, e))
  {
    ParseDecimal(s);
    ParseDecimal(e);
    SpanWords(Decimal(s), Decimal(e));
    hide Decimal, ParseUsize, SplitSpace;
  }

  lemma SpanWords(x: string, y: string)
    requires IsDecimal(x) && IsDecimal(y)
    ensures var line := "#+VISSUE_LINES: " + x + " " + y; "#+VISSUE_LINES:" <= line && SplitSpace(line[15..]) == [x, y]
  {
    var line := "#+VISSUE_LINES: " + x + " " + y;
    assert IsToken(x) && IsToken(y);
    TwoWords(x, y);
    assert line[15..] == " " + (x + " " + y);
    hide SplitSpace;
    BlankBefore(x + " " + y);
  }

  lemma SpanIsPlain(s: nat, e: nat)
    ensures PlainLine(SpanLine(s, e))
  {
    DecimalIsToken(s);
    DecimalIsToken(e);
    var y := Decimal(e);
    assert IsDecimal(y);
    hide Decimal, IsToken, IsDecimal;
    var line := SpanLine(s, e);
    assert line[|line| - 1] == y[|y| - 1];
  }

  // ---- the text of a new file ----

  function Front(preamble: string): string {
    var p := TrimEnd(preamble);
    if p == "" then "" else p + "\n\n"
  }

  lemma FrontLines(preamble: string)
    ensures var f := Front(preamble);
      && (f == "" || EndsLine(f)) && |LinesOf(f)| == (if Trim(preamble) == "" then 0 else |LinesOf(TrimEnd(preamble))| + 1)
  {
    var p := TrimEnd(preamble);
    BlankBothWays(preamble);
    TrimmedLast(preamble);
    hide *;
    if p == "" {
      NoLines();
      assert Front(preamble) == "" by { FrontIs(preamble); }
    } else {
      LinesFinished(p);
      FrontIs(preamble);
      assert p + "\n\n" == p + "\n" + "\n";
      Ended(p);
      LinesConcat(p + "\n", "\n");
      OneNewline();
      Ended(p + "\n");
    }
  }

  lemma FrontIs(preamble: string)
    ensures var p := TrimEnd(preamble); Front(preamble) == if p == "" then "" else p + "\n\n"
  {
    hide TrimEnd;
  }

  lemma Ended(p: string)
    ensures EndsLine(p + "\n")
  {
  }

  lemma BlankBothWays(s: string)
    ensures TrimEnd(s) == "" <==> Trim(s) == ""
  {
    TrimsCommute(s);
    if TrimEnd(s) == "" { assert TrimStart("") == ""; }
    if Trim(s) == "" { AllBlank(s); }
  }

  lemma {:induction false} AllBlank(s: string)
    requires TrimEnd(TrimStart(s)) == ""
    ensures TrimEnd(s) == ""
  {
    TrimsCommute(s);
    NotBlankKept(TrimEnd(s));
    TrimTwice(s);
  }

  lemma {:induction false} NotBlankKept(s: string)
    requires TrimStart(s) == "" && TrimEnd(s) == s
    ensures s == ""
  {
    if s != "" {
      LastBlank(s);
    }
  }

  lemma {:induction false} LastBlank(s: string)
    requires TrimStart(s) == "" && s != ""
    ensures IsSpace(s[|s| - 1])
  {
    if |s| > 1 { LastBlank(s[1..]); }
  }

  lemma {:induction false} TrimmedLast(s: string)
    ensures TrimEnd(s) != "" ==> !IsSpace(TrimEnd(s)[|TrimEnd(s)| - 1]) && !EndsLine(TrimEnd(s))
    decreases |s|
  {
    if s != "" && IsSpace(s[|s| - 1]) { TrimmedLast(s[..|s| - 1]); }
  }

  /// The numbers a header gives the lines of the issue.
  function FirstLine(preamble: string): nat {
    |LinesOf(Front(preamble))| + 3
  }

  function LineCount(rendered: string): nat {
    |LinesOf(Finished(rendered))|
  }

  lemma CountedLines(rendered: string)
    ensures LineCount(rendered) == (if |LinesOf(rendered)| < 1 then 1 else |LinesOf(rendered)|)
  {
    if rendered == "" {
      OneOfLines("");
      assert "" + "\n" == "\n" && LinesOf("") == [];
    } else {
      if !EndsLine(rendered) { LinesFinished(rendered); }
      LinesOfSome(rendered);
    }
  }

  lemma LinesOfSome(s: string)
    requires s != ""
    ensures |LinesOf(s)| >= 1
  {
    LinesAreFrom(s);
    DropCrsAt(SplitNl(s));
    LastPiece(s);
    if EndsLine(s) { SplitEnds(s); }
  }

  /// The text of a new file, part by part.
  lemma NewText(preamble: string, rendered: string)
    ensures var s := FirstLine(preamble);
      HeaderText(preamble, rendered)
        == Front(preamble) + ("#+VISSUE_LEDGER:" + "\n") + (SpanLine(s, s + LineCount(rendered) - 1) + "\n")
           + Finished(rendered) + (LOG_LINE + "\n")
  {
    FrontLines(preamble);
    CountedLines(rendered);
    LessAndMore(rendered);
    hide LinesOf, TrimEnd, Trim, Decimal;
    HeaderParts(preamble, rendered);
  }

  function Less(rendered: string): string {
    if EndsLine(rendered) then rendered[..|rendered| - 1] else rendered
  }

  lemma LessAndMore(rendered: string)
    ensures Less(rendered) + "\n" == Finished(rendered)
  {
  }

  function StartOf(preamble: string): nat {
    (if Trim(preamble) == "" then 0 else |LinesOf(TrimEnd(preamble))| + 1) + 3
  }

  function CountOf(rendered: string): (n: nat)
    ensures n >= 1
  {
    if |LinesOf(rendered)| < 1 then 1 else |LinesOf(rendered)|
  }

  function JoinedHeader(front: string, span: string, less: string): string {
    front + "#+VISSUE_LEDGER:\n" + span + less
  }

  lemma LeftIs(preamble: string, rendered: string)
    ensures var s := StartOf(preamble);
      HeaderLeft(preamble, rendered) == JoinedHeader(Front(preamble), SpanLine(s, s + CountOf(rendered) - 1) + "\n", Less(rendered))
  {
    hide LinesOf, TrimEnd, Trim, Decimal;
    var (p, s) := (TrimEnd(preamble), StartOf(preamble));
    var e := s + CountOf(rendered) - 1;
    SpanText(Decimal(s), Decimal(e));
    hide Less, EndsLine;
    Regrouped(if p == "" then "" else p + "\n\n", Decimal(s), Decimal(e),
              if rendered != "" && rendered[|rendered| - 1] == '\n' then rendered[..|rendered| - 1] else rendered);
    assert Less(rendered) == if rendered != "" && rendered[|rendered| - 1] == '\n' then rendered[..|rendered| - 1] else rendered
      by { LessIs(rendered); }
  }

  lemma LessIs(rendered: string)
    ensures Less(rendered) == if rendered != "" && rendered[|rendered| - 1] == '\n' then rendered[..|rendered| - 1] else rendered
  {
  }

  lemma SpanText(x: string, y: string)
    ensures "#+VISSUE_LINES: " + x + " " + y + "\n" == ("#+VISSUE_LINES: " + x + " " + y) + "\n"
  {
  }

  lemma Regrouped(f: string, x: string, y: string, less: string)
    ensures f + "#+VISSUE_LEDGER:\n" + "#+VISSUE_LINES: " + x + " " + y + "\n" + less
         == JoinedHeader(f, ("#+VISSUE_LINES: " + x + " " + y) + "\n", less)
  {
  }

  lemma HeaderParts(preamble: string, rendered: string)
    requires FirstLine(preamble) == StartOf(preamble) && LineCount(rendered) == CountOf(rendered)
    requires Less(rendered) + "\n" == Finished(rendered)
    ensures var s := FirstLine(preamble);
      HeaderText(preamble, rendered)
        == Front(preamble) + ("#+VISSUE_LEDGER:" + "\n") + (SpanLine(s, s + LineCount(rendered) - 1) + "\n")
           + Finished(rendered) + (LOG_LINE + "\n")
  {
    hide *;
    LeftIs(preamble, rendered);
    TextIs(preamble, rendered);
    var (s, f) := (FirstLine(preamble), Front(preamble));
    var span := SpanLine(s, s + LineCount(rendered) - 1) + "\n";
    Assembled(f, span, Less(rendered), Finished(rendered), LOG_LINE, HeaderText(preamble, rendered));
  }

  lemma TextIs(preamble: string, rendered: string)
    ensures HeaderText(preamble, rendered) == HeaderLeft(preamble, rendered) + ("\n" + LOG_LINE + "\n")
  {
    hide HeaderLeft;
  }

  lemma Assembled(f: string, span: string, less: string, whole: string, mark: string, text: string)
    requires less + "\n" == whole && text == JoinedHeader(f, span, less) + ("\n" + mark + "\n")
    ensures text == f + ("#+VISSUE_LEDGER:" + "\n") + span + whole + (mark + "\n")
  {
    assert "#+VISSUE_LEDGER:\n" == "#+VISSUE_LEDGER:" + "\n";
  }

  // ---- what is read of it ----

  /// The lines at `s` to `e`, counted from one, are `rendered`; their numbers
  /// stand on line `k`, behind the line that opens a ledger file, and the line
  /// that opens the log is the last.
  ghost predicate HoldsAt(lines: seq<string>, rendered: string, k: nat, s: nat, e: nat) {
    && 0 < k < |lines| && lines[k - 1] == "#+VISSUE_LEDGER:" && SpanOf(lines[k]) == Some((s, e))
    && s == k + 2 && s <= e && e == |lines| - 1
    && lines[s - 1..e] == LinesOf(Finished(rendered))
    && lines[e] == "#+VISSUE_LEDGER_LOG:"
  }

  lemma LogLineText()
    ensures LOG_LINE == "#+VISSUE_LEDGER_LOG:"
  {
  }

  lemma MarkLines()
    ensures PlainLine("#+VISSUE_LEDGER:") && PlainLine("#+VISSUE_LEDGER_LOG:")
  {
  }

  lemma LinesOfParts(f: string, a: string, b: string, r: string, c: string)
    requires f == "" || EndsLine(f)
    requires PlainLine(a) && PlainLine(b) && PlainLine(c) && EndsLine(r)
    ensures LinesOf(f + (a + "\n") + (b + "\n") + r + (c + "\n")) == LinesOf(f) + [a] + [b] + LinesOf(r) + [c]
  {
    hide PlainLine, LinesOf;
    OneOfLines(a);
    OneOfLines(b);
    OneOfLines(c);
    LinesConcat(f, a + "\n");
    LinesConcat(f + (a + "\n"), b + "\n");
    LinesConcat(f + (a + "\n") + (b + "\n"), r);
    LinesConcat(f + (a + "\n") + (b + "\n") + r, c + "\n");
  }

  /**
   The file of a new issue holds the issue: the preamble stands in front, the
   lines numbered in it are the text of the issue, and its log is empty.
   */
  lemma NewFileHoldsItsIssue(preamble: string, rendered: string)
    ensures var (text, lines) := (HeaderText(preamble, rendered), LinesOf(HeaderText(preamble, rendered)));
      && TrimEnd(preamble) <= text
      && (exists k, s, e :: HoldsAt(lines, rendered, k, s, e))
      && (!Occurs(LOG_MARK, HeaderLeft(preamble, rendered) + "\n") ==> SplitLog(text) == (HeaderLeft(preamble, rendered), ""))
  {
    hide *;
    var (f, s, n) := (Front(preamble), FirstLine(preamble), LineCount(rendered));
    CountsAre(preamble, rendered);
    var span := SpanLine(s, s + n - 1);
    NewText(preamble, rendered);
    FrontLines(preamble);
    SpanReads(s, s + n - 1);
    SpanIsPlain(s, s + n - 1);
    MarkLines();
    FinishedEnds(rendered);
    LogLineText();
    EmptyLog(preamble, rendered);
    FrontIs(preamble);
    LinesOfParts(f, "#+VISSUE_LEDGER:", span, Finished(rendered), "#+VISSUE_LEDGER_LOG:");
    var (x, y) := (LinesOf(f), LinesOf(Finished(rendered)));
    LinesHold(x, span, y, rendered, s, s + n - 1);
    InFront(TrimEnd(preamble), f, HeaderText(preamble, rendered));
  }

  lemma CountsAre(preamble: string, rendered: string)
    ensures FirstLine(preamble) == |LinesOf(Front(preamble))| + 3
    ensures LineCount(rendered) == |LinesOf(Finished(rendered))| && LineCount(rendered) >= 1
  {
    CountedLines(rendered);
    hide LinesOf, Front, Finished;
  }

  lemma InFront(p: string, f: string, text: string)
    requires f == (if p == "" then "" else p + "\n\n") && f <= text
    ensures p <= text
  {
  }

  lemma LinesHold(x: seq<string>, span: string, y: seq<string>, rendered: string, s: nat, e: nat)
    requires SpanOf(span) == Some((s, e)) && s == |x| + 3 && e == s + |y| - 1 && |y| >= 1 && y == LinesOf(Finished(rendered))
    ensures HoldsAt(x + ["#+VISSUE_LEDGER:"] + [span] + y + ["#+VISSUE_LEDGER_LOG:"], rendered, |x| + 1, s, e)
  {
    hide SpanOf, LinesOf, Finished;
    var lines := x + ["#+VISSUE_LEDGER:"] + [span] + y + ["#+VISSUE_LEDGER_LOG:"];
    assert lines[|x|] == "#+VISSUE_LEDGER:" && lines[|x| + 1] == span;
    assert lines[s - 1..e] == y;
  }

  lemma EmptyLog(preamble: string, rendered: string)
    ensures !Occurs(LOG_MARK, HeaderLeft(preamble, rendered) + "\n") ==>
      SplitLog(HeaderText(preamble, rendered)) == (HeaderLeft(preamble, rendered), "")
  {
    hide HeaderLeft, Occurs, OnlyOuterNewlines;
    MarkShape();
    SplitAtMark(HeaderLeft(preamble, rendered), LOG_MARK, "");
    assert HeaderLeft(preamble, rendered) + LOG_MARK + "" == HeaderText(preamble, rendered);
  }

  /// That is the text a commit writes for an id that had no file.
  lemma CommitWritesThatFile(c: Codec, preamble: string, files: Files, doc: seq<Heading>, h: Heading)
    requires DistinctIds(doc) && h in doc && FileName(h.id) !in files
    ensures var (after, name) := (Committed(c, preamble, files, doc), FileName(h.id));
      name in after && after[name] == HeaderText(preamble, c.render(h))
  {
    hide HeaderText, FileName, IsBytes;
    assert FileName(h.id) in NewNames(files, doc);
    OwnerIsWant(doc, h.id);
    WantOfMember(doc, h);
  }

  lemma {:induction false} WantOfMember(doc: seq<Heading>, h: Heading)
    requires DistinctIds(doc) && h in doc
    ensures WantAt(doc, h.id) == Some(h)
  {
    hide IsBytes;
    if doc[0].id != h.id {
      assert doc == [doc[0]] + doc[1..];
      assert forall g :: g in doc[1..] ==> g in doc;
      WantOfMember(doc[1..], h);
    } else {
      var i :| 0 <= i < |doc| && doc[i] == h;
    }
  }
}
