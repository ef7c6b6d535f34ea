/**
 Text as the tracker reads it. A `char` stands for one byte of the UTF-8 text;
 white space is ASCII white space.
 */
module Text {
  import opened Base

  predicate IsSpace(c: char) {
    c == ' ' || '\t' <= c <= '\r'
  }

  function TrimStart(s: string): (r: string)
    ensures r == "" || !IsSpace(r[0])
    ensures |r| <= |s|
  {
    if s != "" && IsSpace(s[0]) then TrimStart(s[1..]) else s
  }

  function TrimEnd(s: string): (r: string)
    ensures r == "" || !IsSpace(r[|r| - 1])
  {
    if s != "" && IsSpace(s[|s| - 1]) then TrimEnd(s[..|s| - 1]) else s
  }

  function Trim(s: string): string {
    TrimEnd(TrimStart(s))
  }

  function Lower(c: char): char {
    if 'A' <= c <= 'Z' then (c as int + 32) as char else c
  }

  /// Equality that ignores ASCII case.
  predicate SameNoCase(s: string, t: string) {
    |s| == |t| && forall i :: 0 <= i < |s| ==> Lower(s[i]) == Lower(t[i])
  }

  predicate StartsNoCase(s: string, prefix: string) {
    |prefix| <= |s| && SameNoCase(s[..|prefix|], prefix)
  }

  predicate OneLine(s: string) {
    '\n' !in s
  }

  predicate OneLineEach(ls: seq<string>) {
    forall i :: 0 <= i < |ls| ==> OneLine(ls[i])
  }

  /// The pieces of `s` between newlines; there is always at least one.
  function SplitNl(s: string): (ls: seq<string>)
    ensures |ls| > 0
    ensures OneLineEach(ls)
  {
    if s == "" then [""]
    else
      var rest := SplitNl(s[1..]);
      if s[0] == '\n' then [""] + rest else [[s[0]] + rest[0]] + rest[1..]
  }

  function JoinNl(ls: seq<string>): string
  {
    if ls == [] then ""
    else if |ls| == 1 then ls[0]
    else ls[0] + "\n" + JoinNl(ls[1..])
  }

  lemma {:induction false} JoinSplit(s: string)
    ensures JoinNl(SplitNl(s)) == s
  {
    if s != "" {
      JoinSplit(s[1..]);
      var rest := SplitNl(s[1..]);
      if s[0] == '\n' {
        assert JoinNl([""] + rest) == "\n" + JoinNl(rest);
      } else {
        assert ([[s[0]] + rest[0]] + rest[1..])[1..] == rest[1..];
      }
      assert s == [s[0]] + s[1..];
    }
  }

  lemma {:induction false} SplitOneLine(l: string)
    requires OneLine(l)
    ensures SplitNl(l) == [l]
  {
    if l != "" {
      SplitOneLine(l[1..]);
      assert l == [l[0]] + l[1..];
    }
  }

  /// A line and what follows its newline split apart there.
  lemma {:induction false} SplitAtNl(l: string, rest: string)
    requires OneLine(l)
    ensures SplitNl(l + "\n" + rest) == [l] + SplitNl(rest)
  {
    var s := l + "\n" + rest;
    if l == "" {
      assert s[1..] == rest;
    } else {
      SplitAtNl(l[1..], rest);
      assert s[1..] == l[1..] + "\n" + rest;
      assert l == [l[0]] + l[1..];
    }
  }

  lemma {:induction false} SplitJoin(ls: seq<string>)
    requires |ls| > 0 && OneLineEach(ls)
    ensures SplitNl(JoinNl(ls)) == ls
  {
    if |ls| == 1 {
      SplitOneLine(ls[0]);
    } else {
      SplitJoin(ls[1..]);
      SplitAtNl(ls[0], JoinNl(ls[1..]));
    }
  }

  lemma {:induction false} JoinAppend(ls: seq<string>, l: string)
    requires |ls| > 0
    ensures JoinNl(ls + [l]) == JoinNl(ls) + "\n" + l
  {
    if |ls| == 1 {
    } else {
      JoinAppend(ls[1..], l);
      assert (ls + [l])[1..] == ls[1..] + [l];
    }
  }

  /// Length of the first word of a text with no leading space.
  function WordLength(s: string): (n: nat)
    ensures n <= |s|
    ensures n == |s| || IsSpace(s[n])
    ensures forall i :: 0 <= i < n ==> !IsSpace(s[i])
  {
    if s != "" && !IsSpace(s[0]) then 1 + WordLength(s[1..]) else 0
  }

  // ---- string searches ----

  /// The text before and after the first `pat`.
  function SplitOnce(s: string, pat: string): Option<(string, string)> {
    if pat <= s then Some(("", s[|pat|..]))
    else if s == "" then None
    else
      match SplitOnce(s[1..], pat)
      case None => None
      case Some((a, b)) => Some(([s[0]] + a, b))
  }

  /// Index of the last `c`, or `|s|`.
  function LastIndex(s: string, c: char): (n: nat)
    ensures n <= |s|
  {
    if s == "" then 0
    else
      var n := LastIndex(s[1..], c);
      if n < |s| - 1 || s[0] != c then 1 + n else 0
  }

  /// Index of the first `c`, or `|s|`.
  function FirstIndex(s: string, c: char): (n: nat)
    ensures n <= |s|
  {
    if s == "" || s[0] == c then 0 else 1 + FirstIndex(s[1..], c)
  }

  function TrimStartOf(s: string, c: char): string {
    if s != "" && s[0] == c then TrimStartOf(s[1..], c) else s
  }

  function TrimEndOf(s: string, c: char): string {
    if s != "" && s[|s| - 1] == c then TrimEndOf(s[..|s| - 1], c) else s
  }

  function TrimOf(s: string, c: char): string {
    TrimEndOf(TrimStartOf(s, c), c)
  }

  /// `s` less the line ending it may still carry.
  function Bare(s: string): string {
    if s != "" && (s[|s| - 1] == '\n' || s[|s| - 1] == '\r') then Bare(s[..|s| - 1]) else s
  }

  lemma {:induction false} LastIndexAt(a: string, c: char, b: string)
    requires c !in b
    ensures LastIndex(a + [c] + b, c) == |a|
  {
    var s := a + [c] + b;
    if a == "" {
      assert s[1..] == b;
      LastIndexNone(b, c);
    } else {
      LastIndexAt(a[1..], c, b);
      assert s[1..] == a[1..] + [c] + b;
    }
  }

  lemma {:induction false} LastIndexNone(s: string, c: char)
    requires c !in s
    ensures LastIndex(s, c) == |s|
  {
    if s != "" {
      LastIndexNone(s[1..], c);
    }
  }

  lemma {:induction false} FirstIndexAt(a: string, c: char, b: string)
    requires c !in a
    ensures FirstIndex(a + [c] + b, c) == |a|
  {
    if a != "" {
      FirstIndexAt(a[1..], c, b);
      assert (a + [c] + b)[1..] == a[1..] + [c] + b;
    }
  }

  lemma {:induction false} FirstIndexOver(a: string, b: string, c: char)
    ensures FirstIndex(a + b, c) == if FirstIndex(a, c) < |a| then FirstIndex(a, c) else |a| + FirstIndex(b, c)
  {
    if a == "" {
      assert a + b == b;
    } else {
      FirstIndexOver(a[1..], b, c);
      assert (a + b)[1..] == a[1..] + b;
    }
  }

  lemma {:induction false} FirstIndexIn(s: string, c: char)
    ensures FirstIndex(s, c) < |s| <==> c in s
  {
    if s != "" { FirstIndexIn(s[1..], c); }
  }

  lemma {:induction false} SplitOnceAt(a: string, pat: string, b: string)
    requires pat != "" && pat[0] !in a
    ensures SplitOnce(a + pat + b, pat) == Some((a, b))
  {
    var s := a + pat + b;
    if a == "" {
      assert s == pat + b;
    } else {
      SplitOnceAt(a[1..], pat, b);
      assert s[1..] == a[1..] + pat + b;
      assert s[0] == a[0] && a[0] in a;
      assert !(pat <= s);
      assert [a[0]] + a[1..] == a;
    }
  }

  lemma {:induction false} SplitOnceNone(s: string, pat: string)
    requires pat != "" && pat[0] !in s
    ensures SplitOnce(s, pat) == None
  {
    if s != "" {
      SplitOnceNone(s[1..], pat);
    }
  }

  lemma TrimNothing(s: string)
    requires s != "" && !IsSpace(s[0]) && !IsSpace(s[|s| - 1])
    ensures Trim(s) == s
  {
  }

  // ---- lines as `str::lines` gives them ----

  function DropCr(l: string): string {
    if l != "" && l[|l| - 1] == '\r' then l[..|l| - 1] else l
  }

  function DropCrs(ls: seq<string>): seq<string> {
    if |ls| <= 1 then ls else [DropCr(ls[0])] + DropCrs(ls[1..])
  }

  /// The lines of a text, less their endings; no empty line after the last.
  function LinesOf(s: string): seq<string> {
    var ls := DropCrs(SplitNl(s));
    if |ls| > 0 && ls[|ls| - 1] == "" then ls[..|ls| - 1] else ls
  }

  /// A line `str::lines` gives back as it was written.
  predicate PlainLine(l: string) {
    OneLine(l) && (l == "" || l[|l| - 1] != '\r')
  }

  predicate PlainLines(ls: seq<string>) {
    forall i :: 0 <= i < |ls| ==> PlainLine(ls[i])
  }

  /// Each line with its newline.
  function Terminated(ls: seq<string>): string {
    if ls == [] then "" else ls[0] + "\n" + Terminated(ls[1..])
  }

  lemma {:induction false} TerminatedConcat(s: seq<string>, t: seq<string>)
    ensures Terminated(s + t) == Terminated(s) + Terminated(t)
  {
    if s == [] {
      assert s + t == t;
    } else {
      TerminatedConcat(s[1..], t);
      assert (s + t)[1..] == s[1..] + t;
    }
  }

  lemma {:induction false} SplitTerminated(ls: seq<string>)
    requires OneLineEach(ls)
    ensures SplitNl(Terminated(ls)) == ls + [""]
  {
    if ls != [] {
      SplitTerminated(ls[1..]);
      SplitAtNl(ls[0], Terminated(ls[1..]));
      assert ls + [""] == [ls[0]] + (ls[1..] + [""]);
    }
  }

  lemma {:induction false} NoCrs(ls: seq<string>)
    requires PlainLines(ls)
    ensures DropCrs(ls) == ls
  {
    if |ls| > 1 {
      NoCrs(ls[1..]);
    }
  }

  lemma LinesOfTerminated(ls: seq<string>)
    requires PlainLines(ls)
    ensures LinesOf(Terminated(ls)) == ls
  {
    SplitTerminated(ls);
    assert PlainLines(ls + [""]);
    NoCrs(ls + [""]);
    assert (ls + [""])[..|ls|] == ls;
  }

  lemma LinesOfJoined(ls: seq<string>)
    requires PlainLines(ls) && ls != [] && ls[|ls| - 1] != ""
    ensures LinesOf(JoinNl(ls)) == ls
  {
    SplitJoin(ls);
    NoCrs(ls);
  }

  predicate EndsLine(d: string) {
    d != "" && d[|d| - 1] == '\n'
  }

  /// With a newline at the end.
  function Finished(d: string): string {
    if EndsLine(d) then d else d + "\n"
  }

  lemma {:induction false} SplitEnds(t: string)
    requires EndsLine(t)
    ensures |SplitNl(t)| > 1
  {
    if t[0] != '\n' { SplitEnds(t[1..]); }
  }

  /// The last piece is empty exactly behind a newline, or of no text at all.
  lemma {:induction false} LastPiece(t: string)
    ensures var ls := SplitNl(t); ls[|ls| - 1] == "" <==> t == "" || EndsLine(t)
  {
    if t != "" {
      LastPiece(t[1..]);
      if EndsLine(t[1..]) { SplitEnds(t[1..]); }
      if '\n' !in t[1..] { SplitOneLine(t[1..]); }
      ManyPieces(t[1..]);
    }
  }

  lemma {:induction false} ManyPieces(t: string)
    ensures |SplitNl(t)| == 1 <==> OneLine(t)
  {
    if t != "" {
      ManyPieces(t[1..]);
      assert t == [t[0]] + t[1..];
    }
  }

  lemma {:induction false} TerminatedIsJoined(ls: seq<string>)
    requires ls != []
    ensures Terminated(ls) == JoinNl(ls) + "\n"
  {
    if |ls| > 1 {
      TerminatedIsJoined(ls[1..]);
    } else {
      assert ls[0] + "\n" + "" == ls[0] + "\n";
    }
  }

  lemma {:induction false} DropCrsAt(ls: seq<string>)
    ensures |DropCrs(ls)| == |ls|
    ensures forall i :: 0 <= i < |ls| ==> DropCrs(ls)[i] == if i == |ls| - 1 then ls[i] else DropCr(ls[i])
  {
    if |ls| > 1 {
      DropCrsAt(ls[1..]);
      assert forall i :: 1 <= i < |ls| ==> ls[1..][i - 1] == ls[i];
    }
  }

  lemma {:induction false} JoinConcat(p: seq<string>, q: seq<string>)
    requires q != []
    ensures JoinNl(p + q) == Terminated(p) + JoinNl(q)
  {
    if p == [] {
      assert p + q == q;
    } else {
      JoinConcat(p[1..], q);
      assert (p + q)[1..] == p[1..] + q && (p + q)[0] == p[0];
    }
  }

  /// The text less its last newline is all but the last of its pieces.
  lemma PiecesConcat(a: string, b: string)
    requires EndsLine(a)
    ensures var p := SplitNl(a); p[|p| - 1] == "" && SplitNl(a + b) == p[..|p| - 1] + SplitNl(b)
  {
    var (p, q) := (SplitNl(a), SplitNl(b));
    LastPiece(a);
    JoinSplit(a);
    JoinSplit(b);
    hide *;
    var front := p[..|p| - 1];
    assert p == front + [""];
    JoinConcat(front, [""]);
    JoinConcat(front, q);
    NoText();
    assert a == Terminated(front) + "" == Terminated(front);
    EachOneLine(front, q);
    SplitJoin(front + q);
  }

  lemma NoText()
    ensures JoinNl([""]) == ""
  {
  }

  lemma EachOneLine(p: seq<string>, q: seq<string>)
    requires OneLineEach(p + [""]) && OneLineEach(q)
    ensures OneLineEach(p + q)
  {
    hide OneLine;
    assert forall i :: 0 <= i < |p| ==> (p + [""])[i] == p[i];
  }

  function EachBare(ls: seq<string>): seq<string> {
    if ls == [] then [] else [DropCr(ls[0])] + EachBare(ls[1..])
  }

  lemma {:induction false} DropCrsConcat(p: seq<string>, q: seq<string>)
    requires q != []
    ensures DropCrs(p + q) == EachBare(p) + DropCrs(q)
  {
    hide DropCr;
    if p == [] {
      assert p + q == q;
    } else {
      DropCrsConcat(p[1..], q);
      assert (p + q)[1..] == p[1..] + q && (p + q)[0] == p[0];
    }
  }

  function LinesFrom(ls: seq<string>): seq<string> {
    if |ls| > 0 && ls[|ls| - 1] == "" then ls[..|ls| - 1] else ls
  }

  lemma LinesFromBehind(x: seq<string>, y: seq<string>)
    requires y != []
    ensures LinesFrom(x + y) == x + LinesFrom(y)
  {
    assert (x + y)[|x + y| - 1] == y[|y| - 1] && (x + y)[..|x + y| - 1] == x + y[..|y| - 1];
  }

  lemma LinesAreFrom(s: string)
    ensures LinesOf(s) == LinesFrom(DropCrs(SplitNl(s))) && DropCrs(SplitNl(s)) != []
  {
    hide SplitNl;
    DropCrsAt(SplitNl(s));
  }

  lemma NoBare(x: seq<string>)
    ensures LinesFrom(x + DropCrs([""])) == x && x + [] == x
  {
    assert (x + [""])[..|x|] == x;
  }

  /// The lines of two texts, the first of which ends its last line.
  lemma LinesConcat(a: string, b: string)
    requires a == "" || EndsLine(a)
    ensures LinesOf(a + b) == LinesOf(a) + LinesOf(b)
  {
    if a == "" {
      assert a + b == b && SplitNl("") == [""] && LinesOf("") == [];
    } else {
      PiecesConcat(a, b);
      hide *;
      var (p, q) := (SplitNl(a), SplitNl(b));
      var front := p[..|p| - 1];
      assert p == front + [""];
      LinesAreFrom(a);
      LinesAreFrom(b);
      LinesAreFrom(a + b);
      DropCrsConcat(front, q);
      DropCrsConcat(front, [""]);
      LinesFromBehind(EachBare(front), DropCrs(q));
      NoBare(EachBare(front));
    }
  }

  lemma NoLines()
    ensures LinesOf("") == []
  {
    assert SplitNl("") == [""];
  }

  /// One line with its newline.
  lemma OneOfLines(line: string)
    requires PlainLine(line)
    ensures LinesOf(line + "\n") == [line] && EndsLine(line + "\n")
  {
    assert Terminated([line]) == line + "\n" + "" == line + "\n";
    LinesOfTerminated([line]);
  }

  lemma OneNewline()
    ensures LinesOf("\n") == [""] && EndsLine("\n")
  {
    OneOfLines("");
    assert "" + "\n" == "\n";
  }

  lemma FinishedEnds(d: string)
    ensures EndsLine(Finished(d))
  {
  }

  lemma LinesFinished(p: string)
    requires p != "" && !EndsLine(p)
    ensures |LinesOf(p + "\n")| == |LinesOf(p)|
  {
    var (r, q) := (SplitNl(p), SplitNl(p + "\n"));
    JoinSplit(p);
    JoinAppend(r, "");
    assert p + "\n" + "" == p + "\n";
    SplitJoin(r + [""]);
    LastPiece(p);
    DropCrsAt(r);
    DropCrsAt(r + [""]);
  }

  // ---- trimming ----

  lemma {:induction false} TrimEndBehind(a: string, b: string)
    requires a == "" || !IsSpace(a[|a| - 1])
    ensures TrimEnd(a + b) == a + TrimEnd(b)
    decreases |b|
  {
    if b == "" {
      assert a + b == a && a + "" == a;
    } else if IsSpace(b[|b| - 1]) {
      assert (a + b)[..|a + b| - 1] == a + b[..|b| - 1];
      TrimEndBehind(a, b[..|b| - 1]);
    }
  }

  lemma {:induction false} TrimStartOver(a: string, b: string)
    requires forall i :: 0 <= i < |a| ==> IsSpace(a[i])
    ensures TrimStart(a + b) == TrimStart(b)
  {
    if a == "" {
      assert a + b == b;
    } else {
      assert (a + b)[1..] == a[1..] + b;
      TrimStartOver(a[1..], b);
    }
  }

  lemma {:induction false} TrimStartBehind(a: string, b: string)
    ensures TrimStart(a) != "" ==> TrimStart(a + b) == TrimStart(a) + b
    ensures TrimStart(a) == "" ==> TrimStart(a + b) == TrimStart(b)
  {
    if a == "" {
      assert a + b == b;
    } else if IsSpace(a[0]) {
      TrimStartBehind(a[1..], b);
      assert (a + b)[1..] == a[1..] + b;
    }
  }

  lemma {:induction false} TrimsCommute(s: string)
    ensures TrimStart(TrimEnd(s)) == TrimEnd(TrimStart(s))
    decreases |s|
  {
    if s != "" && IsSpace(s[0]) {
      TrimsCommute(s[1..]);
      TrimEndFirst(s);
    } else if s != "" {
      TrimEndBehind(s[..1], s[1..]);
      assert s == s[..1] + s[1..];
    }
  }

  lemma {:induction false} TrimEndFirst(s: string)
    requires s != "" && IsSpace(s[0])
    ensures TrimStart(TrimEnd(s)) == TrimStart(TrimEnd(s[1..]))
    decreases |s|
  {
    if IsSpace(s[|s| - 1]) {
      var t := s[..|s| - 1];
      if t == "" {
        assert s[1..] == "";
      } else {
        TrimEndFirst(t);
        assert s[1..][..|s| - 2] == t[1..];
      }
    } else {
      assert TrimEnd(s) == s && TrimEnd(s[1..]) == s[1..];
    }
  }

  lemma {:induction false} TrimTwice(s: string)
    ensures TrimEnd(TrimEnd(s)) == TrimEnd(s)
    decreases |s|
  {
    if s != "" && IsSpace(s[|s| - 1]) { TrimTwice(s[..|s| - 1]); }
  }

  lemma {:induction false} TrimsShorter(s: string)
    ensures TrimEnd(s) <= s
  {
    if s != "" && IsSpace(s[|s| - 1]) { TrimsShorter(s[..|s| - 1]); }
  }

  lemma {:induction false} FirstKept(d: string)
    requires d != "" && !IsSpace(d[0])
    ensures TrimEnd(d) != "" && TrimEnd(d)[0] == d[0]
  {
    if IsSpace(d[|d| - 1]) { FirstKept(d[..|d| - 1]); }
  }
}
