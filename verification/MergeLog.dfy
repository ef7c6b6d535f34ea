/**
 The three-way merge of two logbooks (`merge_logbook`,
 `crates/vissue-core/src/merge.rs`).
 */
module MergeLog {
  import opened Order
  import opened Issue
  import opened MergeSets
  import opened LogLine

  function Lines(log: seq<LogEntry>): set<string> {
    set e | e in log :: Render(e)
  }

  /// Base lines one side no longer has.
  function Dropped(base: seq<LogEntry>, ours: seq<LogEntry>, theirs: seq<LogEntry>): set<string> {
    Lines(base) - Lines(ours) * Lines(theirs)
  }

  function KeepLines(log: seq<LogEntry>, drop: set<string>): seq<LogEntry> {
    if log == [] then []
    else (if Render(log[0]) in drop then [] else [log[0]]) + KeepLines(log[1..], drop)
  }

  /// Where a stamped entry goes: before the first stamped line older than it.
  function Place(out: seq<LogEntry>, timestamp: string): (n: nat)
    ensures n <= |out|
  {
    if out == [] || (out[0].timestamp != "" && Less(out[0].timestamp, timestamp)) then 0
    else 1 + Place(out[1..], timestamp)
  }

  function Insert(out: seq<LogEntry>, e: LogEntry): seq<LogEntry> {
    var at := if e.timestamp == "" then |out| else Place(out, e.timestamp);
    out[..at] + [e] + out[at..]
  }

  function AddLines(out: seq<LogEntry>, theirs: seq<LogEntry>, drop: set<string>): seq<LogEntry>
    decreases |theirs|
  {
    if theirs == [] then out
    else
      var e := theirs[0];
      AddLines(if Render(e) in drop + Lines(out) then out else Insert(out, e), theirs[1..], drop)
  }

  function MergedLog(base: seq<LogEntry>, ours: seq<LogEntry>, theirs: seq<LogEntry>): seq<LogEntry> {
    var drop := Dropped(base, ours, theirs);
    AddLines(KeepLines(ours, drop), theirs, drop)
  }

  method FindPlace(out: seq<LogEntry>, timestamp: string) returns (at: nat)
    ensures at == Place(out, timestamp)
  {
    at := 0;
    while at < |out| && !(out[at].timestamp != "" && Less(out[at].timestamp, timestamp))
      invariant at <= |out|
      invariant at + Place(out[at..], timestamp) == Place(out, timestamp)
    {
      at := at + 1;
    }
  }

  method MergeLogbook(base: seq<LogEntry>, ours: seq<LogEntry>, theirs: seq<LogEntry>) returns (out: seq<LogEntry>)
    ensures out == MergedLog(base, ours, theirs)
  {
    var drop := Dropped(base, ours, theirs);
    out := KeepLines(ours, drop);
    for i := 0 to |theirs|
      invariant AddLines(out, theirs[i..], drop) == MergedLog(base, ours, theirs)
    {
      var e := theirs[i];
      assert theirs[i..][0] == e && theirs[i..][1..] == theirs[i + 1..];
      var line := Render(e);
      if line in drop || line in Lines(out) {
        continue;
      }
      var at := |out|;
      if e.timestamp != "" {
        at := FindPlace(out, e.timestamp);
      }
      out := out[..at] + [e] + out[at..];
    }
  }

  // ---- the set law ----

  lemma {:induction false} KeepLinesSet(log: seq<LogEntry>, drop: set<string>)
    ensures Lines(KeepLines(log, drop)) == Lines(log) - drop
  {
    if log != [] {
      KeepLinesSet(log[1..], drop);
      assert log == [log[0]] + log[1..];
      LinesConcat([log[0]], log[1..]);
      LinesConcat(if Render(log[0]) in drop then [] else [log[0]], KeepLines(log[1..], drop));
    }
  }

  lemma LinesConcat(s: seq<LogEntry>, t: seq<LogEntry>)
    ensures Lines(s + t) == Lines(s) + Lines(t)
  {
    forall e | e in s + t ensures Render(e) in Lines(s) + Lines(t) {}
    forall e | e in s ensures Render(e) in Lines(s + t) { assert e in s + t; }
    forall e | e in t ensures Render(e) in Lines(s + t) { assert e in s + t; }
  }

  lemma InsertLines(out: seq<LogEntry>, e: LogEntry)
    ensures Lines(Insert(out, e)) == Lines(out) + {Render(e)}
  {
    var at := if e.timestamp == "" then |out| else Place(out, e.timestamp);
    LinesConcat(out[..at], [e]);
    LinesConcat(out[..at] + [e], out[at..]);
    LinesConcat(out[..at], out[at..]);
    assert out[..at] + out[at..] == out;
    assert Lines([e]) == {Render(e)};
  }

  lemma {:induction false} AddLinesSet(out: seq<LogEntry>, theirs: seq<LogEntry>, drop: set<string>)
    ensures Lines(AddLines(out, theirs, drop)) == Lines(out) + (Lines(theirs) - drop)
    decreases |theirs|
  {
    if theirs != [] {
      var e := theirs[0];
      assert theirs == [e] + theirs[1..];
      LinesConcat([e], theirs[1..]);
      assert Lines([e]) == {Render(e)};
      InsertLines(out, e);
      AddLinesSet(if Render(e) in drop + Lines(out) then out else Insert(out, e), theirs[1..], drop);
    }
  }

  /// The merged logbook holds exactly the three-way merge of the lines.
  lemma LogSetLaw(base: seq<LogEntry>, ours: seq<LogEntry>, theirs: seq<LogEntry>)
    ensures Lines(MergedLog(base, ours, theirs)) == ThreeWay(Lines(base), Lines(ours), Lines(theirs))
  {
    var drop := Dropped(base, ours, theirs);
    KeepLinesSet(ours, drop);
    AddLinesSet(KeepLines(ours, drop), theirs, drop);
  }

  // ---- order ----

  /// `s` can be had from `t` by leaving elements out.
  predicate Subsequence<T(==)>(s: seq<T>, t: seq<T>)
    decreases |t|
  {
    s == [] || (t != [] && ((s[0] == t[0] && Subsequence(s[1..], t[1..])) || Subsequence(s, t[1..])))
  }

  lemma {:induction false} SubsequenceSelf<T>(s: seq<T>)
    ensures Subsequence(s, s)
  {
    if s != [] {
      SubsequenceSelf(s[1..]);
    }
  }

  lemma {:induction false} SubsequenceInsert<T>(s: seq<T>, t: seq<T>, at: nat, x: T)
    requires at <= |t| && Subsequence(s, t)
    ensures Subsequence(s, t[..at] + [x] + t[at..])
    decreases |t|
  {
    var r := t[..at] + [x] + t[at..];
    if at == 0 {
      assert r[1..] == t;
    } else {
      assert r[0] == t[0] && r[1..] == t[1..][..at - 1] + [x] + t[1..][at - 1..];
      if s != [] {
        if s[0] == t[0] && Subsequence(s[1..], t[1..]) {
          SubsequenceInsert(s[1..], t[1..], at - 1, x);
        } else {
          SubsequenceInsert(s, t[1..], at - 1, x);
        }
      }
    }
  }

  lemma {:induction false} AddLinesOrder(s: seq<LogEntry>, out: seq<LogEntry>, theirs: seq<LogEntry>, drop: set<string>)
    requires Subsequence(s, out)
    ensures Subsequence(s, AddLines(out, theirs, drop))
    decreases |theirs|
  {
    if theirs != [] {
      var e := theirs[0];
      var at := if e.timestamp == "" then |out| else Place(out, e.timestamp);
      SubsequenceInsert(s, out, at, e);
      AddLinesOrder(s, if Render(e) in drop + Lines(out) then out else Insert(out, e), theirs[1..], drop);
    }
  }

  /// Ours' surviving lines keep their order.
  lemma OursKeepsItsOrder(base: seq<LogEntry>, ours: seq<LogEntry>, theirs: seq<LogEntry>)
    ensures Subsequence(KeepLines(ours, Dropped(base, ours, theirs)), MergedLog(base, ours, theirs))
  {
    var drop := Dropped(base, ours, theirs);
    SubsequenceSelf(KeepLines(ours, drop));
    AddLinesOrder(KeepLines(ours, drop), KeepLines(ours, drop), theirs, drop);
  }

  /// Among the stamped lines, none comes before a newer one.
  predicate NewestFirst(log: seq<LogEntry>) {
    forall i, j :: 0 <= i < j < |log| && log[i].timestamp != "" && log[j].timestamp != ""
      ==> !Less(log[i].timestamp, log[j].timestamp)
  }

  lemma {:induction false} KeepLinesNewestFirst(log: seq<LogEntry>, drop: set<string>)
    requires NewestFirst(log)
    ensures NewestFirst(KeepLines(log, drop))
    ensures forall e :: e in KeepLines(log, drop) ==> e in log
  {
    if log != [] {
      KeepLinesNewestFirst(log[1..], drop);
      var r := KeepLines(log[1..], drop);
      forall j | 0 <= j < |r| && log[0].timestamp != "" && r[j].timestamp != ""
        ensures !Less(log[0].timestamp, r[j].timestamp)
      {
        assert r[j] in log[1..];
        var k :| 1 <= k < |log| && log[k] == r[j];
      }
    }
  }

  lemma {:induction false} PlaceFacts(out: seq<LogEntry>, timestamp: string)
    ensures var n := Place(out, timestamp);
      && (forall i :: 0 <= i < n ==> out[i].timestamp == "" || !Less(out[i].timestamp, timestamp))
      && (n < |out| ==> out[n].timestamp != "" && Less(out[n].timestamp, timestamp))
  {
    if out != [] {
      PlaceFacts(out[1..], timestamp);
    }
  }

  lemma InsertNewestFirst(out: seq<LogEntry>, e: LogEntry)
    requires NewestFirst(out)
    ensures NewestFirst(Insert(out, e))
  {
    if e.timestamp != "" {
      var n := Place(out, e.timestamp);
      PlaceFacts(out, e.timestamp);
      forall j | n <= j < |out| && out[j].timestamp != ""
        ensures !Less(e.timestamp, out[j].timestamp)
      {
        var t := out[n].timestamp;
        LessAsymmetric(t, e.timestamp);
        if j > n {
          LessLeqTransitive(out[j].timestamp, t, e.timestamp);
        }
      }
    }
  }

  lemma {:induction false} AddLinesNewestFirst(out: seq<LogEntry>, theirs: seq<LogEntry>, drop: set<string>)
    requires NewestFirst(out)
    ensures NewestFirst(AddLines(out, theirs, drop))
    decreases |theirs|
  {
    if theirs != [] {
      var e := theirs[0];
      InsertNewestFirst(out, e);
      AddLinesNewestFirst(if Render(e) in drop + Lines(out) then out else Insert(out, e), theirs[1..], drop);
    }
  }

  /// A merged logbook is newest first when ours was, whatever theirs' order.
  lemma MergedNewestFirst(base: seq<LogEntry>, ours: seq<LogEntry>, theirs: seq<LogEntry>)
    requires NewestFirst(ours)
    ensures NewestFirst(MergedLog(base, ours, theirs))
  {
    var drop := Dropped(base, ours, theirs);
    KeepLinesNewestFirst(ours, drop);
    AddLinesNewestFirst(KeepLines(ours, drop), theirs, drop);
  }

  // ---- merging again ----

  lemma {:induction false} KeepAllLines(log: seq<LogEntry>, drop: set<string>)
    requires Lines(log) !! drop
    ensures KeepLines(log, drop) == log
  {
    if log != [] {
      assert Render(log[0]) in Lines(log);
      assert Lines(log[1..]) <= Lines(log);
      KeepAllLines(log[1..], drop);
    }
  }

  lemma {:induction false} AddNoLines(out: seq<LogEntry>, theirs: seq<LogEntry>, drop: set<string>)
    requires Lines(theirs) <= drop + Lines(out)
    ensures AddLines(out, theirs, drop) == out
    decreases |theirs|
  {
    if theirs != [] {
      assert Render(theirs[0]) in Lines(theirs);
      assert Lines(theirs[1..]) <= Lines(theirs);
      AddNoLines(out, theirs[1..], drop);
    }
  }

  /// Merging the same theirs into a merged logbook changes nothing.
  lemma LogAbsorb(base: seq<LogEntry>, ours: seq<LogEntry>, theirs: seq<LogEntry>)
    ensures var m := MergedLog(base, ours, theirs); MergedLog(base, m, theirs) == m
  {
    var m := MergedLog(base, ours, theirs);
    LogSetLaw(base, ours, theirs);
    assert Dropped(base, m, theirs) == Dropped(base, ours, theirs);
    KeepAllLines(m, Dropped(base, m, theirs));
    AddNoLines(m, theirs, Dropped(base, m, theirs));
  }

  lemma LogIdentity(base: seq<LogEntry>, ours: seq<LogEntry>)
    ensures MergedLog(base, ours, base) == ours
  {
    KeepAllLines(ours, Dropped(base, ours, base));
    AddNoLines(ours, base, Dropped(base, ours, base));
  }

  // ---- where a new line goes ----

  lemma {:induction false} AddLinesConcat(out: seq<LogEntry>, s: seq<LogEntry>, t: seq<LogEntry>, drop: set<string>)
    ensures AddLines(out, s + t, drop) == AddLines(AddLines(out, s, drop), t, drop)
    decreases |s|
  {
    hide Insert, Render, Lines;
    if s == [] {
      assert s + t == t;
    } else {
      assert (s + t)[0] == s[0] && (s + t)[1..] == s[1..] + t;
      AddLinesConcat(if Render(s[0]) in drop + Lines(out) then out else Insert(out, s[0]), s[1..], t, drop);
    }
  }

  /// The place of a new line in a logbook: the end for one without a stamp, and
  /// else behind every line that is not older, right before one that is.
  predicate IsPlaceOf(log: seq<LogEntry>, e: LogEntry, n: int) {
    && 0 <= n <= |log|
    && (e.timestamp == "" ==> n == |log|)
    && (e.timestamp != "" ==>
          && (forall i :: 0 <= i < n ==> log[i].timestamp == "" || !Less(log[i].timestamp, e.timestamp))
          && (n < |log| ==> log[n].timestamp != "" && Less(log[n].timestamp, e.timestamp)))
  }

  /// Lines that are there already change nothing around one that is not.
  lemma OnlyTheNewLine(log: seq<LogEntry>, e: LogEntry, i: nat)
    requires i <= |log| && Render(e) !in Lines(log)
    ensures AddLines(log, log[..i] + [e] + log[i..], {}) == Insert(log, e)
  {
    var (front, rest) := (log[..i], log[i..]);
    assert log == front + rest;
    LinesConcat(front, rest);
    InsertLines(log, e);
    var out := Insert(log, e);
    hide Insert, Render, Lines;
    assert AddLines(log, [e], {}) == out by { assert [e][1..] == []; }
    hide AddLines;
    AddLinesConcat(log, front + [e], rest, {});
    AddLinesConcat(log, front, [e], {});
    AddNoLines(log, front, {});
    AddNoLines(out, rest, {});
  }

  /// One new line of theirs, wherever theirs has it, goes into ours at its
  /// place; the rest stays as it was.
  lemma NewLineGoesToItsPlace(log: seq<LogEntry>, e: LogEntry, i: nat) returns (n: nat)
    requires i <= |log| && Render(e) !in Lines(log)
    ensures IsPlaceOf(log, e, n)
    ensures MergedLog(log, log, log[..i] + [e] + log[i..]) == log[..n] + [e] + log[n..]
  {
    n := if e.timestamp == "" then |log| else Place(log, e.timestamp);
    PlaceFacts(log, e.timestamp);
    NothingDropped(log, e, i);
    KeepAllLines(log, {});
    OnlyTheNewLine(log, e, i);
    hide Place, AddLines, Dropped, KeepLines, Render, Lines;
  }

  lemma NothingDropped(log: seq<LogEntry>, e: LogEntry, i: nat)
    requires i <= |log|
    ensures Dropped(log, log, log[..i] + [e] + log[i..]) == {}
  {
    LinesConcat(log[..i] + [e], log[i..]);
    LinesConcat(log[..i], [e]);
    LinesConcat(log[..i], log[i..]);
    assert log[..i] + log[i..] == log;
    hide Lines;
  }
}
