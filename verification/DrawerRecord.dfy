/**
 An issue's drawers written to the log as one record and split again
 (`split_drawers`, `crates/vissue-core/src/ledger.rs`).
 */
module DrawerRecord {
  import opened Text
  import opened Print
  import opened Ledger

  // ---- what a record's lines split into ----

  /// The text that is left when the lines run out: what stands behind the last
  /// `:END:`.
  function Left(lines: seq<string>, current: string): string
    decreases |lines|
  {
    if lines == [] then current
    else Left(lines[1..], if SameNoCase(Trim(lines[0]), ":END:") then "" else current + lines[0] + "\n")
  }

  /// It is lost when it is blank.
  function Lost(lines: seq<string>, current: string): string {
    if Trim(Left(lines, current)) == "" then Left(lines, current) else ""
  }

  lemma {:induction false} SplitShows(lines: seq<string>, current: string)
    requires current == "" || EndsLine(current)
    ensures ShownDrawers(SplitDrawers(lines, current)) + Lost(lines, current) == current + Terminated(lines)
    decreases |lines|
  {
    hide Trim, SameNoCase, ShownDrawers, SplitDrawers, Terminated;
    if lines == [] {
      SplitOnNothing(current);
    } else {
      var (next, ends) := (current + lines[0] + "\n", SameNoCase(Trim(lines[0]), ":END:"));
      SplitShows(lines[1..], if ends then "" else next);
      SplitOnLine(lines, current);
    }
  }

  lemma SplitOnNothing(current: string)
    requires current == "" || EndsLine(current)
    ensures ShownDrawers(SplitDrawers([], current)) + Lost([], current) == current + Terminated([])
  {
    assert Trim("") == "";
    hide Trim;
    OneShown(current);
    assert "" + current == current && current + "" == current;
    assert ShownDrawers([]) == "" && Terminated([]) == "";
  }

  lemma OneShown(d: string)
    ensures ShownDrawers([d]) == Finished(d) && ConcatAll([d]) == d
  {
    assert [d][1..] == [] && ShownDrawers([]) == "" && ConcatAll([]) == "";
    assert Finished(d) + "" == Finished(d) && d + "" == d;
  }

  lemma SplitOnLine(lines: seq<string>, current: string)
    requires lines != []
    requires var (next, ends) := (current + lines[0] + "\n", SameNoCase(Trim(lines[0]), ":END:"));
      var start := if ends then "" else next;
      ShownDrawers(SplitDrawers(lines[1..], start)) + Lost(lines[1..], start) == start + Terminated(lines[1..])
    ensures ShownDrawers(SplitDrawers(lines, current)) + Lost(lines, current) == current + Terminated(lines)
  {
    var (next, rest) := (current + lines[0] + "\n", SplitDrawers(lines[1..], ""));
    hide *;
    SplitUnfolds(lines, current);
    FirstTerminated(lines, current);
    FirstShown(next, rest);
    Regrouped(next, Terminated(lines[1..]), ShownDrawers(rest), Lost(lines[1..], ""));
  }

  lemma Regrouped(s: string, t: string, shown: string, lost: string)
    ensures shown + lost == "" + t ==> s + shown + lost == s + t
  {
    assert s + shown + lost == s + (shown + lost);
    assert "" + t == t;
  }

  lemma SplitUnfolds(lines: seq<string>, current: string)
    requires lines != []
    ensures var (next, ends) := (current + lines[0] + "\n", SameNoCase(Trim(lines[0]), ":END:"));
      && SplitDrawers(lines, current) == (if ends then [next] + SplitDrawers(lines[1..], "") else SplitDrawers(lines[1..], next))
      && Lost(lines, current) == Lost(lines[1..], if ends then "" else next)
  {
    hide Trim, SameNoCase;
  }

  lemma FirstShown(d: string, rest: seq<string>)
    requires EndsLine(d)
    ensures ShownDrawers([d] + rest) == d + ShownDrawers(rest)
  {
    assert ([d] + rest)[1..] == rest;
  }

  lemma FirstTerminated(lines: seq<string>, current: string)
    requires lines != []
    ensures var next := current + lines[0] + "\n"; EndsLine(next) && current + Terminated(lines) == next + Terminated(lines[1..])
  {
    var rest := Terminated(lines[1..]);
    assert Terminated(lines) == lines[0] + "\n" + rest;
    hide Terminated;
    LineAdded(current, lines[0], rest);
  }

  lemma LineAdded(s: string, l: string, t: string)
    ensures EndsLine(s + l + "\n") && s + (l + "\n" + t) == s + l + "\n" + t
  {
  }

  // ---- the lines of a text, put together again ----

  /// A text with its last newline.
  function Closed(t: string): string {
    if t == "" then "" else Finished(t)
  }

  /// No carriage return stands before a newline.
  predicate NoCrEnds(t: string) {
    DropCrs(SplitNl(t)) == SplitNl(t)
  }

  lemma {:induction false} DroppedCrsLength(ls: seq<string>)
    ensures |DropCrs(ls)| == |ls| && |Terminated(DropCrs(ls))| <= |Terminated(ls)|
    ensures ls != [] ==> DropCrs(ls)[|ls| - 1] == ls[|ls| - 1]
    ensures |Terminated(DropCrs(ls))| == |Terminated(ls)| ==> DropCrs(ls) == ls
  {
    if |ls| > 1 {
      DroppedCrsLength(ls[1..]);
      assert ls == [ls[0]] + ls[1..];
    }
  }

  lemma LastDropped(ls: seq<string>)
    requires ls != [] && ls[|ls| - 1] == ""
    ensures Terminated(ls) == Terminated(ls[..|ls| - 1]) + "\n"
  {
    assert ls == ls[..|ls| - 1] + [""];
    TerminatedConcat(ls[..|ls| - 1], [""]);
    assert Terminated([""]) == "" + "\n" + Terminated([""][1..]) && [""][1..] == [];
  }

  lemma SameBeforeNewline(s: string, t: string)
    ensures s + "\n" == t + "\n" ==> s == t
  {
    assert (s + "\n")[..|s|] == s && (t + "\n")[..|t|] == t;
  }

  lemma PiecesClosed(t: string)
    ensures var ls := SplitNl(t); Terminated(if ls[|ls| - 1] == "" then ls[..|ls| - 1] else ls) == Closed(t)
  {
    var ls := SplitNl(t);
    hide *;
    JoinSplit(t);
    TerminatedIsJoined(ls);
    LastPiece(t);
    if ls[|ls| - 1] == "" {
      LastDropped(ls);
      SameBeforeNewline(Terminated(ls[..|ls| - 1]), t);
    }
    ClosedIs(t);
  }

  lemma ClosedIs(t: string)
    ensures Closed(t) == if t == "" || EndsLine(t) then t else t + "\n"
  {
  }

  /// The lines of a text give it back, closed, exactly when no carriage return
  /// stands before a newline; otherwise they are shorter.
  lemma LinesClosed(t: string)
    ensures |Terminated(LinesOf(t))| <= |Closed(t)|
    ensures NoCrEnds(t) ==> Terminated(LinesOf(t)) == Closed(t)
    ensures |Terminated(LinesOf(t))| == |Closed(t)| ==> NoCrEnds(t)
  {
    var ls := SplitNl(t);
    PiecesClosed(t);
    DroppedCrsLength(ls);
    hide SplitNl, Terminated, DropCrs, Closed;
    var dropped := DropCrs(ls);
    if ls[|ls| - 1] == "" {
      LastDropped(ls);
      LastDropped(dropped);
    }
  }

  // ---- drawers through a record ----

  /// Every drawer but the last ends in a newline, and the last is not empty.
  predicate OnlyLastUnfinished(drawers: seq<string>) {
    && (forall i :: 0 <= i < |drawers| - 1 ==> EndsLine(drawers[i]))
    && (drawers != [] ==> drawers[|drawers| - 1] != "")
  }

  function Unfinished(drawers: seq<string>): nat {
    if drawers == [] then 0 else (if EndsLine(drawers[0]) then 0 else 1) + Unfinished(drawers[1..])
  }

  lemma {:induction false} ShownLength(drawers: seq<string>)
    ensures |ShownDrawers(drawers)| == |ConcatAll(drawers)| + Unfinished(drawers)
  {
    if drawers != [] { ShownLength(drawers[1..]); }
  }

  /// How many newlines the text of the drawers lacks as a whole.
  function Open(t: string): nat {
    if t == "" || EndsLine(t) then 0 else 1
  }

  lemma OpenBehind(d: string, t: string)
    ensures Open(d + t) == if t == "" then Open(d) else Open(t)
  {
    if t == "" {
      assert d + t == d;
    } else {
      assert (d + t)[|d + t| - 1] == t[|t| - 1];
    }
  }

  lemma LaterFinished(drawers: seq<string>)
    requires |drawers| > 1
    ensures OnlyLastUnfinished(drawers) <==> EndsLine(drawers[0]) && OnlyLastUnfinished(drawers[1..])
  {
    var rest := drawers[1..];
    if EndsLine(drawers[0]) && OnlyLastUnfinished(rest) {
      forall i | 0 <= i < |drawers| - 1 ensures EndsLine(drawers[i]) {
        if i > 0 { assert drawers[i] == rest[i - 1]; }
      }
    }
    if OnlyLastUnfinished(drawers) {
      forall i | 0 <= i < |rest| - 1 ensures EndsLine(rest[i]) { assert rest[i] == drawers[i + 1]; }
    }
  }

  lemma {:induction false} UnfinishedCounted(drawers: seq<string>)
    ensures Unfinished(drawers) >= Open(ConcatAll(drawers))
    ensures Unfinished(drawers) == Open(ConcatAll(drawers)) <==> OnlyLastUnfinished(drawers)
    ensures ConcatAll(drawers) == "" && drawers != [] ==> Unfinished(drawers) > 0
  {
    if drawers != [] {
      var (d, rest) := (drawers[0], drawers[1..]);
      UnfinishedCounted(rest);
      OpenBehind(d, ConcatAll(rest));
      if rest == [] {
        assert ConcatAll(drawers) == d + "" == d;
      } else {
        LaterFinished(drawers);
        hide OnlyLastUnfinished;
      }
    }
  }

  lemma {:induction false} ShownText(drawers: seq<string>)
    requires OnlyLastUnfinished(drawers)
    ensures ShownDrawers(drawers) == Closed(ConcatAll(drawers))
  {
    if |drawers| == 1 {
      OneShown(drawers[0]);
      assert drawers == [drawers[0]];
    } else if drawers != [] {
      var (d, rest) := (drawers[0], drawers[1..]);
      LaterFinished(drawers);
      UnfinishedCounted(rest);
      ShownText(rest);
      NotAllEmpty(rest);
      hide OnlyLastUnfinished;
      ClosedBehind(d, ConcatAll(rest));
    }
  }

  lemma ClosedBehind(d: string, t: string)
    requires t != ""
    ensures Closed(d + t) == d + Closed(t)
  {
    assert (d + t)[|d + t| - 1] == t[|t| - 1];
    assert d + (t + "\n") == d + t + "\n";
  }

  lemma {:induction false} NotAllEmpty(drawers: seq<string>)
    requires OnlyLastUnfinished(drawers) && drawers != []
    ensures ConcatAll(drawers) != ""
  {
    assert drawers[0] != "";
  }

  /// Drawers that one record keeps: only the last may lack its newline, no
  /// carriage return ends a line, and nothing blank stands behind the last
  /// `:END:`.
  predicate RecordKeeps(drawers: seq<string>) {
    && OnlyLastUnfinished(drawers)
    && NoCrEnds(ConcatAll(drawers)) && Lost(LinesOf(ConcatAll(drawers)), "") == ""
  }

  /**
   Drawers written to the log as one record come back printing the same exactly
   when the record keeps them: it runs an unfinished drawer into the one after
   it, and drops carriage returns and blank lines at the end.
   */
  lemma DrawersSurviveARecord(drawers: seq<string>)
    ensures ShownDrawers(SplitDrawers(LinesOf(ConcatAll(drawers)), "")) == ShownDrawers(drawers)
      <==> RecordKeeps(drawers)
  {
    var t := ConcatAll(drawers);
    ShownLength(drawers);
    UnfinishedCounted(drawers);
    if OnlyLastUnfinished(drawers) { ShownText(drawers); }
    LinesClosed(t);
    SplitShows(LinesOf(t), "");
    assert |Closed(t)| == |t| + Open(t);
    hide ShownDrawers, SplitDrawers, LinesOf, ConcatAll, Unfinished, Terminated, Lost, OnlyLastUnfinished, NoCrEnds, Closed;
    assert "" + Terminated(LinesOf(t)) == Terminated(LinesOf(t));
    var shown := ShownDrawers(SplitDrawers(LinesOf(t), ""));
    assert Lost(LinesOf(t), "") == "" ==> shown + "" == shown;
  }
}
