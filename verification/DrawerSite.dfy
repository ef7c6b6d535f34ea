/**
 The blank lines and drawers the heading parser takes before it looks for the
 body of an issue (`parse_heading`, `crates/vissue-core/src/store.rs`).
 */
module DrawerSite {
  import opened Text
  import opened Org
  import opened Escape

  predicate IsEndLine(line: string) {
    SameNoCase(Trim(line), ":END:")
  }

  /// The lines up to and with the first `:END:`, or all of them.
  function DrawerRest(lines: seq<string>): (n: nat)
    ensures n <= |lines|
  {
    if lines == [] then 0 else if IsEndLine(lines[0]) then 1 else 1 + DrawerRest(lines[1..])
  }

  predicate IsClosed(lines: seq<string>) {
    exists i :: 0 <= i < |lines| && IsEndLine(lines[i])
  }

  /// How many lines the parser takes as blank or as drawers, whatever their
  /// name, before it looks for the end of the body.
  function BodyStart(lines: seq<string>): (n: nat)
    ensures n <= |lines|
    decreases |lines|
  {
    if lines == [] then 0
    else if Trim(lines[0]) == "" then 1 + BodyStart(lines[1..])
    else if !OpensDrawer(Trim(lines[0])) then 0
    else
      var n := 1 + DrawerRest(lines[1..]);
      n + BodyStart(lines[n..])
  }

  /// Whether the last drawer taken there never meets its `:END:`.
  predicate EndsInDrawer(lines: seq<string>)
    decreases |lines|
  {
    if lines == [] then false
    else if Trim(lines[0]) == "" then EndsInDrawer(lines[1..])
    else if !OpensDrawer(Trim(lines[0])) then false
    else !IsClosed(lines[1..]) || EndsInDrawer(lines[1 + DrawerRest(lines[1..])..])
  }

  method FindBodyStart(lines: seq<string>, start: nat) returns (i: nat)
    requires start <= |lines|
    ensures i == start + BodyStart(lines[start..])
  {
    hide Trim, OpensDrawer, BodyStart, DrawerRest;
    i := start;
    while i < |lines|
      invariant start <= i <= |lines|
      invariant start + BodyStart(lines[start..]) == i + BodyStart(lines[i..])
    {
      NextTaken(lines, i);
      var trimmed := Trim(lines[i]);
      if trimmed == "" {
        i := i + 1;
        continue;
      }
      if !OpensDrawer(trimmed) {
        return;
      }
      i := SkipDrawer(lines, i + 1);
    }
    NothingTaken(lines);
  }

  lemma NextTaken(lines: seq<string>, i: nat)
    requires i < |lines|
    ensures var t := Trim(lines[i]);
      BodyStart(lines[i..]) ==
        if t == "" then 1 + BodyStart(lines[i + 1..])
        else if !OpensDrawer(t) then 0
        else
          var n := 1 + DrawerRest(lines[i + 1..]);
          n + BodyStart(lines[i + n..])
  {
    hide Trim, OpensDrawer, DrawerRest;
    var rest := lines[i..];
    assert rest[0] == lines[i] && rest[1..] == lines[i + 1..];
    var n := 1 + DrawerRest(lines[i + 1..]);
    assert rest[n..] == lines[i + n..];
  }

  lemma NothingTaken(lines: seq<string>)
    ensures BodyStart(lines[|lines|..]) == 0
  {
  }

  method SkipDrawer(lines: seq<string>, start: nat) returns (i: nat)
    requires start <= |lines|
    ensures start <= i <= |lines| && i == start + DrawerRest(lines[start..])
  {
    hide IsEndLine;
    i := start;
    while i < |lines| && !IsEndLine(lines[i])
      invariant start <= i <= |lines|
      invariant start + DrawerRest(lines[start..]) == i + DrawerRest(lines[i..])
    {
      assert lines[i..][0] == lines[i] && lines[i..][1..] == lines[i + 1..];
      i := i + 1;
    }
    if i < |lines| {
      assert lines[i..][0] == lines[i];
      i := i + 1;
    }
  }

  /// Where the parser ends an issue whose drawers start at the first line.
  function IssueEnd(lines: seq<string>): (n: nat)
    ensures n <= |lines|
  {
    var b := BodyStart(lines);
    b + BodyEnd(START, lines[b..])
  }

  // ---- with the next heading behind ----

  lemma {:induction false} DrawerRestWith(lines: seq<string>, next: seq<string>)
    ensures IsClosed(lines) ==> DrawerRest(lines + next) == DrawerRest(lines)
    ensures !IsClosed(lines) ==> DrawerRest(lines + next) == |lines| + DrawerRest(next)
  {
    hide IsEndLine;
    if lines == [] {
      assert lines + next == next;
    } else {
      DrawerRestWith(lines[1..], next);
      assert (lines + next)[0] == lines[0] && (lines + next)[1..] == lines[1..] + next;
      ClosedLater(lines);
    }
  }

  lemma ClosedLater(lines: seq<string>)
    requires lines != []
    ensures IsClosed(lines) <==> IsEndLine(lines[0]) || IsClosed(lines[1..])
  {
    hide IsEndLine;
    if i :| 0 <= i < |lines[1..]| && IsEndLine(lines[1..][i]) {
      assert IsEndLine(lines[i + 1]);
    }
    if i :| 1 <= i < |lines| && IsEndLine(lines[i]) {
      assert IsEndLine(lines[1..][i - 1]);
    }
  }

  /// The heading behind a body stops the search, unless a drawer swallows it.
  lemma {:induction false} StartBeforeHeading(lines: seq<string>, next: seq<string>)
    requires next != [] && EndsTheIssue(next[0])
    ensures EndsInDrawer(lines) ==> BodyStart(lines + next) > |lines|
    ensures !EndsInDrawer(lines) ==> BodyStart(lines + next) == BodyStart(lines)
    decreases |lines|
  {
    hide Trim, OpensDrawer, IsEndLine, IsClosed, DrawerRest;
    if lines == [] {
      HeadlineStops(next);
      assert lines + next == next;
    } else {
      var (all, rest) := (lines + next, lines[1..]);
      assert all[0] == lines[0] && all[1..] == rest + next;
      StartBeforeHeading(rest, next);
      DrawerRestWith(rest, next);
      DrawerTakesOne(next);
      if IsClosed(rest) {
        var n := 1 + DrawerRest(rest);
        StartBeforeHeading(lines[n..], next);
        assert all[n..] == lines[n..] + next;
      }
    }
  }

  lemma HeadlineStops(next: seq<string>)
    requires next != [] && EndsTheIssue(next[0])
    ensures BodyStart(next) == 0 && BodyStart([]) == 0 && !EndsInDrawer([])
  {
    HeadlineFacts(next[0]);
  }

  lemma DrawerTakesOne(next: seq<string>)
    ensures next != [] ==> DrawerRest(next) > 0
  {
  }

  // ---- lines that differ only in outer white space ----

  predicate SameTrimmed(a: seq<string>, b: seq<string>) {
    |a| == |b| && forall i :: 0 <= i < |a| ==> Trim(a[i]) == Trim(b[i])
  }

  lemma SameTrimmedTails(a: seq<string>, b: seq<string>, n: nat)
    requires SameTrimmed(a, b) && n <= |a|
    ensures SameTrimmed(a[n..], b[n..]) && SameTrimmed(a[..n], b[..n])
  {
    hide Trim;
  }

  lemma {:induction false} SameDrawerRest(a: seq<string>, b: seq<string>)
    requires SameTrimmed(a, b)
    ensures DrawerRest(a) == DrawerRest(b) && (IsClosed(a) <==> IsClosed(b))
  {
    hide Trim;
    if a != [] {
      SameTrimmedTails(a, b, 1);
      SameDrawerRest(a[1..], b[1..]);
      hide IsEndLine, IsClosed;
      assert IsEndLine(a[0]) <==> IsEndLine(b[0]) by { SameEndLine(a[0], b[0]); }
      ClosedLater(a);
      ClosedLater(b);
    }
  }

  lemma SameEndLine(l: string, m: string)
    requires Trim(l) == Trim(m)
    ensures IsEndLine(l) <==> IsEndLine(m)
  {
  }

  lemma {:induction false} SameBodyStart(a: seq<string>, b: seq<string>)
    requires SameTrimmed(a, b)
    ensures BodyStart(a) == BodyStart(b) && (EndsInDrawer(a) <==> EndsInDrawer(b))
    decreases |a|
  {
    hide Trim, OpensDrawer, IsClosed, IsEndLine;
    if a != [] {
      SameTrimmedTails(a, b, 1);
      SameBodyStart(a[1..], b[1..]);
      SameDrawerRest(a[1..], b[1..]);
      var n := 1 + DrawerRest(a[1..]);
      SameTrimmedTails(a, b, n);
      SameBodyStart(a[n..], b[n..]);
    }
  }
}
