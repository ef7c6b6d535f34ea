/**
 What opens and closes the text that a scan hides: blocks, and the results of
 Babel (`OrgScan`, `crates/vissue-core/src/org.rs`).
 */
module Blocks {
  import opened Text
  import opened Org
  import opened Escape
  import opened ScanAlike

  /// The line starts with that text, whatever its indent and case.
  predicate Heads(line: string, text: string) {
    StartsNoCase(TrimStart(line), text)
  }

  predicate Opens(line: string) {
    Heads(line, "#+BEGIN_") || Heads(line, "#+BEGIN:")
  }

  predicate Closes(line: string) {
    Heads(line, "#+END_") || Heads(line, "#+END:")
  }

  lemma OpensExactly(line: string)
    ensures IsBlockBegin(TrimStart(line)) <==> Opens(line)
  {
    var t := TrimStart(line);
    KeywordLine(t, "BEGIN_");
    KeywordLine(t, "BEGIN:");
    assert "#+" + "BEGIN_" == "#+BEGIN_" && "#+" + "BEGIN:" == "#+BEGIN:";
    hide StartsNoCase;
  }

  lemma ClosesExactly(line: string)
    ensures IsBlockEnd(TrimStart(line)) <==> Closes(line)
  {
    var t := TrimStart(line);
    KeywordLine(t, "END_");
    KeywordLine(t, "END:");
    assert "#+" + "END_" == "#+END_" && "#+" + "END:" == "#+END:";
    hide StartsNoCase;
  }

  lemma NotBoth(line: string)
    ensures !(Opens(line) && Closes(line))
    ensures Opens(line) || Closes(line) ==> !IsResultsKeyword(Trim(line))
  {
    StartsDiffer(TrimStart(line));
    if Opens(line) || Closes(line) { NotResults(line); }
  }

  /// A line of `text` in any indent: spaces, a head in any case, and a word.
  lemma HeadOf(pad: string, head: string, word: string, text: string)
    requires (forall i :: 0 <= i < |pad| ==> IsSpace(pad[i])) && SameNoCase(head, text)
    requires text != "" && !IsSpace(Lower(text[0]))
    ensures Heads(pad + head + word, text)
    decreases |pad|
  {
    var line := pad + head + word;
    if pad == "" {
      assert line == head + word && line[0] == head[0];
      assert Lower(head[0]) == Lower(text[0]);
      assert !IsSpace(head[0]);
      assert TrimStart(line) == line && line[..|text|] == head;
    } else {
      assert line[0] == pad[0] && line[1..] == pad[1..] + head + word;
      HeadOf(pad[1..], head, word, text);
    }
  }

  lemma StartsDiffer(t: string)
    ensures !((StartsNoCase(t, "#+BEGIN_") || StartsNoCase(t, "#+BEGIN:")) && (StartsNoCase(t, "#+END_") || StartsNoCase(t, "#+END:")))
  {
    if StartsNoCase(t, "#+BEGIN_") { assert Lower(t[..8][2]) == 'b'; }
    if StartsNoCase(t, "#+BEGIN:") { assert Lower(t[..8][2]) == 'b'; }
    if StartsNoCase(t, "#+END_") { assert Lower(t[..6][2]) == 'e'; }
    if StartsNoCase(t, "#+END:") { assert Lower(t[..6][2]) == 'e'; }
  }

  lemma TrimmedHeads(line: string, text: string)
    requires text != "" && forall i :: 0 <= i < |text| ==> !IsSpace(Lower(text[i]))
    ensures Heads(line, text) ==> StartsNoCase(Trim(Trim(line)), text) && Trim(Trim(line)) == Trim(line)
  {
    var s := TrimStart(line);
    StartsTrimmed(s, text);
    if Heads(line, text) {
      var t := TrimEnd(s);
      assert Lower(t[..|text|][0]) == Lower(text[0]) && !IsSpace(t[0]);
      assert TrimStart(t) == t;
      TrimTwice(s);
    }
  }

  lemma ThirdLetter(t: string, text: string)
    requires StartsNoCase(t, text) && |text| > 2
    ensures |t| > 2 && Lower(t[2]) == Lower(text[2])
  {
    assert t[..|text|][2] == t[2];
  }

  lemma NotResults(line: string)
    requires Opens(line) || Closes(line)
    ensures !IsResultsKeyword(Trim(line))
  {
    var t := Trim(Trim(line));
    BlockLetters();
    TrimmedHeads(line, "#+BEGIN_");
    TrimmedHeads(line, "#+BEGIN:");
    TrimmedHeads(line, "#+END_");
    TrimmedHeads(line, "#+END:");
    hide StartsNoCase, Heads, Trim;
    var text := if Heads(line, "#+BEGIN_") then "#+BEGIN_" else if Heads(line, "#+BEGIN:") then "#+BEGIN:"
      else if Heads(line, "#+END_") then "#+END_" else "#+END:";
    ThirdLetter(t, text);
    NoResult(t);
  }

  lemma NoResult(t: string)
    requires |t| > 2 && Lower(t[2]) != 'r'
    ensures !StartsNoCase(t[2..], "RESULT")
  {
    if |t| >= 8 {
      assert t[2..][..6][0] == t[2];
    }
  }

  lemma BlockLetters()
    ensures forall i :: 0 <= i < |"#+BEGIN_"| ==> !IsSpace(Lower("#+BEGIN_"[i]))
    ensures forall i :: 0 <= i < |"#+BEGIN:"| ==> !IsSpace(Lower("#+BEGIN:"[i]))
    ensures forall i :: 0 <= i < |"#+END_"| ==> !IsSpace(Lower("#+END_"[i]))
    ensures forall i :: 0 <= i < |"#+END:"| ==> !IsSpace(Lower("#+END:"[i]))
  {
  }

  // ---- balanced blocks ----

  /// How deep the lines leave a nest of that depth; a close too many is none.
  function Nest(depth: nat, lines: seq<string>): nat
    decreases |lines|
  {
    if lines == [] then depth
    else Nest(if Closes(lines[0]) then (if depth == 0 then 0 else depth - 1) else if Opens(lines[0]) then depth + 1 else depth, lines[1..])
  }

  /// Inside one block the lines open and close as many, never that one.
  ghost predicate Balanced(lines: seq<string>) {
    Nest(1, lines) == 1 && forall i :: 0 <= i <= |lines| ==> Nest(1, lines[..i]) >= 1
  }

  lemma StepInside(s: Scan, line: string)
    requires s.depth > 0
    ensures var depth := if Closes(line) then s.depth - 1 else if Opens(line) then s.depth + 1 else s.depth;
      && Step(s, line).0.depth == depth
      && (depth > 0 || !s.results.ViaBlock? ==> Step(s, line) == (Scan(depth, s.results), true))
      && (depth == 0 && s.results.ViaBlock? ==> Step(s, line) == (Scan(0, Out), true))
  {
    OpensExactly(line);
    ClosesExactly(line);
    NotBoth(line);
    hide IsBlockBegin, IsBlockEnd, Opens, Closes, TrimStart, IsResultsKeyword;
  }

  /// While a nest stays open everything is hidden and the scan only counts.
  lemma {:induction false} InsideIsHidden(s: Scan, lines: seq<string>)
    requires s.depth > 0 && forall i :: 0 <= i <= |lines| ==> Nest(s.depth, lines[..i]) >= 1
    ensures Run(s, lines) == Scan(Nest(s.depth, lines), s.results)
    ensures HidesHeadlines(s, lines) && Escaped(s, lines) == lines
    decreases |lines|
  {
    hide Step, Opens, Closes;
    if lines != [] {
      var next := Step(s, lines[0]).0;
      StepInside(s, lines[0]);
      OneNested(s.depth, lines);
      forall i | 0 <= i <= |lines[1..]| ensures Nest(next.depth, lines[1..][..i]) >= 1 {
        assert lines[..i + 1][0] == lines[0] && lines[..i + 1][1..] == lines[1..][..i];
        assert Nest(s.depth, lines[..i + 1]) >= 1;
      }
      InsideIsHidden(next, lines[1..]);
      assert lines == [lines[0]] + lines[1..];
    }
  }

  lemma OneNested(depth: nat, lines: seq<string>)
    requires lines != [] && forall i :: 0 <= i <= |lines| ==> Nest(depth, lines[..i]) >= 1
    ensures Nest(depth, lines[..1]) >= 1 && lines[..1] == [lines[0]]
  {
    assert lines[..1][1..] == [];
  }

  // ---- a block that is closed ----

  /// Lines none of which opens or closes a block.
  lemma {:induction false} PlainNest(depth: nat, lines: seq<string>)
    requires forall i :: 0 <= i < |lines| ==> !Opens(lines[i]) && !Closes(lines[i])
    ensures Nest(depth, lines) == depth
    decreases |lines|
  {
    hide Opens, Closes;
    if lines != [] { PlainNest(depth, lines[1..]); }
  }

  lemma PlainIsBalanced(lines: seq<string>)
    requires forall i :: 0 <= i < |lines| ==> !Opens(lines[i]) && !Closes(lines[i])
    ensures Balanced(lines)
  {
    hide Opens, Closes;
    PlainNest(1, lines);
    forall i | 0 <= i <= |lines| ensures Nest(1, lines[..i]) >= 1 { PlainNest(1, lines[..i]); }
  }

  lemma OpenStep(r: ResultsState, line: string)
    requires Opens(line)
    ensures Step(Scan(0, r), line) == (Scan(1, if r.Awaiting? then ViaBlock else r), true)
  {
    OpensExactly(line);
    ClosesExactly(line);
    NotBoth(line);
    hide IsBlockBegin, IsBlockEnd, Opens, Closes, TrimStart, IsResultsKeyword, Trim;
  }

  lemma {:induction false} RunConcat(s: Scan, a: seq<string>, b: seq<string>)
    ensures Run(s, a + b) == Run(Run(s, a), b)
    ensures HidesHeadlines(s, a + b) <==> HidesHeadlines(s, a) && HidesHeadlines(Run(s, a), b)
    ensures Escaped(s, a + b) == Escaped(s, a) + Escaped(Run(s, a), b)
    decreases |a|
  {
    hide Step, EscapedLine;
    if a == [] {
      assert a + b == b;
    } else {
      RunConcat(Step(s, a[0]).0, a[1..], b);
      assert (a + b)[1..] == a[1..] + b;
    }
  }

  lemma OneLineRun(s: Scan, line: string)
    ensures Run(s, [line]) == Step(s, line).0
    ensures Step(s, line).1 ==> HidesHeadlines(s, [line]) && Escaped(s, [line]) == [line]
  {
    hide Step;
    assert [line][1..] == [];
  }

  /// From any scan outside a block: the block is hidden, and the scan goes on
  /// as before it, a result that the block was being over.
  lemma BlockRuns(r: ResultsState, open: string, lines: seq<string>, close: string)
    requires Opens(open) && Balanced(lines) && Closes(close)
    ensures var body := [open] + lines + [close];
      && Run(Scan(0, r), body) == Scan(0, if r.Awaiting? || r.ViaBlock? then Out else r)
      && HidesHeadlines(Scan(0, r), body) && Escaped(Scan(0, r), body) == body
  {
    var (s, inside) := (Scan(0, r), Scan(1, if r.Awaiting? then ViaBlock else r));
    OpenStep(r, open);
    assert lines[..|lines|] == lines;
    InsideIsHidden(inside, lines);
    NotBoth(close);
    StepInside(inside, close);
    hide Step, Opens, Closes, Nest, Balanced;
    OneLineRun(s, open);
    OneLineRun(inside, close);
    RunConcat(s, [open], lines);
    RunConcat(s, [open] + lines, [close]);
  }

  /**
   A block that is closed, of either kind and with others inside it, leaves the
   scan as it found it: all its headings are hidden and written as they are, and
   the heading behind it is found there.
   */
  lemma ClosedBlockIsText(open: string, lines: seq<string>, close: string, next: seq<string>)
    requires Opens(open) && Balanced(lines) && Closes(close)
    ensures var body := [open] + lines + [close];
      && Run(START, body) == START && HidesHeadlines(START, body) && Escaped(START, body) == body
      && BodyEnd(START, body + next) == |body| + BodyEnd(START, next)
      && (next != [] && EndsTheIssue(next[0]) ==> BodyEnd(START, body + next) == |body|)
  {
    var body := [open] + lines + [close];
    BlockRuns(Out, open, lines, close);
    hide Run, HidesHeadlines, Escaped, Opens, Closes, Balanced;
    BodyEndAfter(START, body, next);
    if next != [] && EndsTheIssue(next[0]) {
      HidesHeadlineIff(START, next[0]);
    }
  }

  /// The same of a source block in its usual form: `#+BEGIN_` and `#+END_` with
  /// a word each, in any case and indent, and no block line between them.
  lemma SourceBlockIsText(p: string, head: string, word: string, lines: seq<string>, q: string, foot: string, last: string,
                          next: seq<string>)
    requires forall i :: 0 <= i < |p| ==> IsSpace(p[i])
    requires forall i :: 0 <= i < |q| ==> IsSpace(q[i])
    requires (SameNoCase(head, "#+BEGIN_") && SameNoCase(foot, "#+END_")) || (SameNoCase(head, "#+BEGIN:") && SameNoCase(foot, "#+END:"))
    requires forall i :: 0 <= i < |lines| ==> !Opens(lines[i]) && !Closes(lines[i])
    requires next != [] && EndsTheIssue(next[0])
    ensures var body := [p + head + word] + lines + [q + foot + last];
      Run(START, body) == START && Escaped(START, body) == body && BodyEnd(START, body + next) == |body|
  {
    if SameNoCase(head, "#+BEGIN_") && SameNoCase(foot, "#+END_") {
      HeadOf(p, head, word, "#+BEGIN_");
      HeadOf(q, foot, last, "#+END_");
    } else {
      HeadOf(p, head, word, "#+BEGIN:");
      HeadOf(q, foot, last, "#+END:");
    }
    hide Heads, SameNoCase, Run, Escaped, BodyEnd, HidesHeadlines;
    PlainIsBalanced(lines);
    ClosedBlockIsText(p + head + word, lines, q + foot + last, next);
  }

  // ---- results ----

  /// `#+RESULTS:` or `#+RESULT:` in any case and indent, a hash in brackets
  /// before the colon or not, whatever follows.
  ghost predicate IsResults(line: string) {
    exists pad, word, hash, rest :: ResultsAre(line, pad, word, hash, rest)
  }

  predicate ResultsAre(line: string, pad: string, word: string, hash: string, rest: string) {
    && line == pad + (word + hash + ":" + rest) && (forall i :: 0 <= i < |pad| ==> IsSpace(pad[i]))
    && (SameNoCase(word, "#+RESULTS") || SameNoCase(word, "#+RESULT"))
    && (hash == "" || hash[0] == '[')
  }

  lemma ResultsStart(word: string)
    requires SameNoCase(word, "#+RESULTS") || SameNoCase(word, "#+RESULT")
    ensures |word| >= 8 && word[0] == '#' && word[1] == '+' && StartsNoCase(word[2..], "RESULT")
    ensures |word| == 9 ==> StartsNoCase(word[2..], "RESULTS")
    ensures |word| == 8 || |word| == 9
  {
    var text := if |word| == 9 then "#+RESULTS" else "#+RESULT";
    assert SameNoCase(word, text);
    forall i | 0 <= i < |word| ensures Lower(word[i]) == Lower(text[i]) {}
    assert Lower(word[0]) == '#' && Lower(word[1]) == '+';
    forall i | 0 <= i < 6 ensures Lower(word[2..][..6][i]) == Lower("RESULT"[i]) { assert word[2..][i] == word[i + 2]; }
    if |word| == 9 {
      forall i | 0 <= i < 7 ensures Lower(word[2..][..7][i]) == Lower("RESULTS"[i]) { assert word[2..][i] == word[i + 2]; }
    }
  }

  /// The word ends where its letters do.
  lemma WordEnds(word: string, after: string)
    requires SameNoCase(word, "#+RESULTS") || SameNoCase(word, "#+RESULT")
    requires after != "" && (after[0] == ':' || after[0] == '[')
    ensures var t := word + after;
      && "#+" <= t && StartsNoCase(t[2..], "RESULT")
      && (if StartsNoCase(t[2..], "RESULTS") then |word| == 9 else |word| == 8)
  {
    ResultsStart(word);
    var t := word + after;
    assert t[..2] == "#+" && t[2..][..6] == word[2..][..6];
    if |word| == 9 {
      assert t[2..][..7] == word[2..][..7];
    } else {
      assert t[2..][..7][6] == after[0] && Lower("RESULTS"[6]) == 's';
    }
  }

  lemma KeywordFound(line: string, pad: string, word: string, hash: string, rest: string)
    requires ResultsAre(line, pad, word, hash, rest)
    ensures IsResultsKeyword(Trim(line)) && !Opens(line) && !Closes(line)
  {
    var head := word + hash + ":";
    var t := head + TrimEnd(rest);
    ResultsStart(word);
    assert t[0] == '#' && head[|head| - 1] == ':';
    TrimStartOver(pad, head + rest);
    TrimEndBehind(head, rest);
    TrimTwice(head + rest);
    assert TrimStart(head + rest) == head + rest && Trim(line) == t && TrimStart(t) == t && Trim(t) == t;
    ResultsWord(word, hash, TrimEnd(rest));
    if Opens(line) || Closes(line) { NotBoth(line); }
  }

  lemma ResultsWord(word: string, hash: string, rest: string)
    requires SameNoCase(word, "#+RESULTS") || SameNoCase(word, "#+RESULT")
    requires hash == "" || hash[0] == '['
    requires Trim(word + hash + ":" + rest) == word + hash + ":" + rest
    ensures IsResultsKeyword(word + hash + ":" + rest)
  {
    var after := hash + ":" + rest;
    var t := word + hash + ":" + rest;
    assert t == word + after && (after[0] == ':' || after[0] == '[');
    WordEnds(word, after);
    ResultsStart(word);
    assert t[|word|..] == after && TrimStart(after) == after;
    assert after[|hash|] == ':' && ':' in after;
    hide Trim, TrimStart, StartsNoCase;
  }

  lemma ResultsStep(r: ResultsState, line: string)
    requires IsResults(line)
    ensures Step(Scan(0, r), line) == (Scan(0, Awaiting), true)
  {
    var pad, word, hash, rest :| ResultsAre(line, pad, word, hash, rest);
    KeywordFound(line, pad, word, hash, rest);
    ClosesExactly(line);
    hide IsResultsKeyword, Closes, IsBlockEnd, Opens, IsBlockBegin, TrimStart;
  }

  /// The heading right behind a results line is its result; the next one is a
  /// heading again.
  lemma OneHeadingIsTheResult(line: string, x: string, y: string)
    requires IsResults(line) && EndsTheIssue(x) && EndsTheIssue(y)
    ensures var (s, t) := (Step(START, line).0, Step(Step(START, line).0, x));
      Step(START, line).1 && t.1 && Step(t.0, y) == (START, false)
  {
    ResultsStep(Out, line);
    HeadlineFacts(x);
    HeadlineFacts(y);
  }

  /// Lines that are no block lines, no results line and no end of a drawer.
  predicate InDrawer(lines: seq<string>) {
    forall i :: 0 <= i < |lines| ==>
      && !IsBlockBegin(TrimStart(lines[i])) && !IsBlockEnd(TrimStart(lines[i])) && !IsResultsKeyword(Trim(lines[i]))
      && !SameNoCase(Trim(lines[i]), ":END:")
  }

  lemma {:induction false} DrawerHides(lines: seq<string>)
    requires InDrawer(lines)
    ensures Run(Scan(0, Drawer), lines) == Scan(0, Drawer) && HidesHeadlines(Scan(0, Drawer), lines)
  {
    hide TrimStart, Trim, IsBlockBegin, IsBlockEnd, IsResultsKeyword, SameNoCase, EndsTheIssue;
    if lines != [] {
      assert Step(Scan(0, Drawer), lines[0]) == (Scan(0, Drawer), true);
      assert forall i :: 0 <= i < |lines[1..]| ==> lines[1..][i] == lines[i + 1];
      DrawerHides(lines[1..]);
    }
  }

  lemma DrawerNameStep(name: string)
    requires OpensDrawer(Trim(name))
    ensures Step(Scan(0, Awaiting), name) == (Scan(0, Drawer), true)
  {
    TrimsCommute(name);
    var t := TrimStart(name);
    assert Trim(name)[0] == ':';
    assert t != "";
    FirstKept(t);
    assert t[0] == ':' && Trim(name) != "";
    assert !("#+" <= t);
    ColonIsNoKeyword(Trim(name));
  }

  /// A text that starts with a colon starts with no keyword.
  lemma ColonIsNoKeyword(t: string)
    requires t != "" && t[0] == ':'
    ensures !("#+" <= Trim(t)) && !IsResultsKeyword(t)
  {
    FirstKept(t);
    assert TrimStart(t) == t;
  }

  /// A drawer right behind a results line is its result: every heading in it is
  /// hidden up to its end, and the next one is a heading again.
  lemma DrawerIsTheResult(line: string, name: string, lines: seq<string>, end: string, y: string)
    requires IsResults(line) && OpensDrawer(Trim(name)) && InDrawer(lines) && SameNoCase(Trim(end), ":END:") && EndsTheIssue(y)
    ensures var s := Step(Step(START, line).0, name).0;
      && HidesHeadlines(s, lines)
      && Step(Step(Run(s, lines), end).0, y) == (START, false)
  {
    ResultsStep(Out, line);
    DrawerNameStep(name);
    DrawerHides(lines);
    EndStep(end);
    HeadlineFacts(y);
    hide IsResults, OpensDrawer, InDrawer, SameNoCase, Trim;
  }

  lemma EndStep(end: string)
    requires SameNoCase(Trim(end), ":END:")
    ensures Step(Scan(0, Drawer), end) == (START, true)
  {
    var t := Trim(end);
    assert Lower(t[0]) == Lower(":END:"[0]) && t[0] == ':';
    FirstKept(TrimStart(end));
    assert TrimStart(end)[0] == ':';
    ColonIsNoKeyword(t);
  }

  /// A body of one heading line is written with one blank in front of it.
  lemma BareHeadingIsIndented(x: string)
    requires OneLine(x) && EndsTheIssue(x)
    ensures EscapedBody(x) == " " + x
  {
    SplitOneLine(x);
    HeadlineFacts(x);
    assert [x][1..] == [];
    assert Escaped(START, [x]) == [" " + x];
  }
}
