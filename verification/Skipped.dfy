/**
 The lines of a ledger that are no records: which the reader steps over, and
 how it names them (`skip_non_record` and `log_start_line`,
 `crates/vissue-core/src/ledger.rs`).
 */
module Skipped {
  import opened Base
  import opened Text
  import opened Records

  /// A line that was stepped over, by its number in the file, and whether it
  /// is a marker that git left.
  datatype Warning = Warning(line: nat, conflict: bool)

  function Newlines(s: string): nat {
    if s == "" then 0 else (if s[0] == '\n' then 1 else 0) + Newlines(s[1..])
  }

  function FirstLine(s: string): string {
    s[..FirstIndex(s, '\n')]
  }

  predicate IsConflict(line: string) {
    "<<<<<<<" <= line || "=======" <= line || ">>>>>>>" <= line
  }

  /// The three lines git leaves around what it could not merge.
  lemma ConflictMarkers(name: string)
    ensures IsConflict("<<<<<<< " + name) && IsConflict("=======") && IsConflict(">>>>>>> " + name)
    ensures !IsConflict("%% " + name) && !IsConflict("")
  {
    var (a, b) := ("<<<<<<< " + name, ">>>>>>> " + name);
    assert a[..7] == "<<<<<<<" && b[..7] == ">>>>>>>";
    assert ("%% " + name)[0] == '%';
  }

  /// The places from `index` on where a line with text is stepped over.
  function Skips(log: string, index: nat): seq<nat>
    requires index <= |log|
    decreases |log| - index, 1
  {
    SkipsOf(log, DropNewlines(log[index..]))
  }

  /// The same, with `s` left to read.
  function SkipsOf(log: string, s: string): seq<nat>
    requires |s| <= |log|
    decreases |s|, 0
  {
    var at := |log| - |s|;
    if s == "" then []
    else if "%% " <= s then
      match RecordAt(s)
      case None => []
      case Some((_, n)) => Skips(log, at + n)
    else
      match LegacyAt(s)
      case Some((_, n)) => Skips(log, at + n)
      case None => (if Trim(FirstLine(s)) == "" then [] else [at]) + Skips(log, at + LineEnd(s))
  }

  /// What is said of the line at a place, the log starting on line `logLine`.
  function WarningAt(log: string, logLine: nat, i: nat): Warning
    requires i <= |log|
  {
    Warning(logLine + Newlines(log[..i]), IsConflict(FirstLine(log[i..])))
  }

  function WarningsAt(log: string, logLine: nat, places: seq<nat>): seq<Warning> {
    seq(|places|, k requires 0 <= k < |places| => if places[k] <= |log| then WarningAt(log, logLine, places[k]) else Warning(0, false))
  }

  function Warnings(log: string, logLine: nat): seq<Warning> {
    WarningsAt(log, logLine, Skips(log, 0))
  }

  lemma WarningsJoin(log: string, logLine: nat, a: seq<nat>, b: seq<nat>)
    ensures WarningsAt(log, logLine, a + b) == WarningsAt(log, logLine, a) + WarningsAt(log, logLine, b)
  {
    hide WarningAt;
  }

  // ---- one step of the reader ----

  lemma SkipsBehind(log: string, start: nat, index: nat)
    requires start <= index <= |log| && log[index..] == DropNewlines(log[start..])
    ensures Skips(log, start) == Skips(log, index)
  {
    hide SkipsOf;
    assert DropNewlines(log[index..]) == log[index..];
  }

  lemma SkipsRecord(log: string, index: nat)
    requires index < |log| && DropNewlines(log[index..]) == log[index..] && "%% " <= log[index..]
    ensures var r := RecordAt(log[index..]); Skips(log, index) == if r.None? then [] else Skips(log, index + r.value.1)
  {
    hide RecordAt, LegacyAt, Trim, LineEnd;
  }

  lemma SkipsDrawer(log: string, index: nat)
    requires index < |log| && DropNewlines(log[index..]) == log[index..] && !("%% " <= log[index..])
    ensures LegacyAt(log[index..]).Some? ==> Skips(log, index) == Skips(log, index + LegacyAt(log[index..]).value.1)
  {
    hide RecordAt, LegacyAt, Trim, LineEnd;
  }

  lemma SkipsLine(log: string, index: nat)
    requires index < |log| && DropNewlines(log[index..]) == log[index..] && !("%% " <= log[index..]) && LegacyAt(log[index..]) == None
    ensures Skips(log, index) ==
      (if Trim(FirstLine(log[index..])) == "" then [] else [index]) + Skips(log, index + LineEnd(log[index..]))
  {
    hide RecordAt, LegacyAt, Trim, LineEnd;
  }

  lemma SkipsNothing(log: string)
    ensures Skips(log, |log|) == []
  {
    assert log[|log|..] == "" && DropNewlines("") == "";
  }

  method SkipNonRecord(log: string, index: nat, logLine: nat) returns (next: nat, said: seq<Warning>)
    requires index < |log|
    ensures next == index + LineEnd(log[index..])
    ensures said == WarningsAt(log, logLine, if Trim(FirstLine(log[index..])) == "" then [] else [index])
  {
    hide Trim, FirstLine, Newlines, IsConflict;
    var line := FirstLine(log[index..]);
    said := [];
    if Trim(line) != "" {
      said := [Warning(logLine + Newlines(log[..index]), IsConflict(line))];
    }
    next := index + LineEnd(log[index..]);
  }

  // ---- a log of records is read without a word ----

  lemma {:induction false} WholeLogSkipsNothing(rs: seq<Record>, before: string)
    requires AllWritable(rs)
    ensures Skips(before + Encode(rs), |before|) == []
    decreases |rs|
  {
    hide RecordAt, EncodeOne, Writable, Skips, DropNewlines;
    var log := before + Encode(rs);
    assert log[|before|..] == Encode(rs);
    if rs == [] {
      assert log == before;
      SkipsNothing(log);
    } else {
      var (r, rest) := (rs[0], Encode(rs[1..]));
      assert Encode(rs) == EncodeOne(r) + rest;
      RecordReadsBack(r, rest);
      EncodeOneNotEmpty(r);
      SkipsRecord(log, |before|);
      WholeLogSkipsNothing(rs[1..], before + EncodeOne(r));
      assert log == before + EncodeOne(r) + rest;
    }
  }

  // ---- the number names the line ----

  lemma {:induction false} LinesJoin(a: string, b: string)
    ensures |SplitNl(a)| == Newlines(a) + 1
    ensures |SplitNl(a + b)| > Newlines(a)
    ensures SplitNl(a + b)[Newlines(a)] == SplitNl(a)[Newlines(a)] + FirstLine(b)
  {
    if a == "" {
      assert a + b == b;
      FirstPiece(b);
      assert SplitNl("")[0] == "";
    } else {
      LinesJoin(a[1..], b);
      assert (a + b)[1..] == a[1..] + b && (a + b)[0] == a[0];
    }
  }

  lemma {:induction false} FirstPiece(b: string)
    ensures SplitNl(b)[0] == FirstLine(b)
  {
    if b != "" && b[0] != '\n' {
      FirstPiece(b[1..]);
    }
  }

  lemma {:induction false} NewlinesJoin(a: string, b: string)
    ensures Newlines(a + b) == Newlines(a) + Newlines(b)
  {
    if a == "" {
      assert a + b == b;
    } else {
      NewlinesJoin(a[1..], b);
      assert (a + b)[1..] == a[1..] + b;
    }
  }

  /// The number of the line a log starts on, the log being the tail of a file.
  function LogStartLine(source: string, log: string): nat
    requires |log| <= |source|
  {
    Newlines(source[..|source| - |log|]) + 1
  }

  /**
   The number in a warning is that of the line of the file in which the text
   stepped over stands: what is before it there, and then that text.
   */
  lemma WarningNamesItsLine(left: string, log: string, i: nat)
    requires i <= |log|
    ensures var (source, line) := (left + log, WarningAt(log, LogStartLine(left + log, log), i).line);
      && 1 <= line == |SplitNl(left + log[..i])| <= |SplitNl(source)|
      && SplitNl(source)[line - 1] == SplitNl(left + log[..i])[line - 1] + FirstLine(log[i..])
  {
    var a := left + log[..i];
    assert left + log == a + log[i..];
    assert (left + log)[..|left + log| - |log|] == left;
    LinesJoin(a, log[i..]);
    NewlinesJoin(left, log[..i]);
    hide SplitNl, Newlines, FirstLine;
  }
}
