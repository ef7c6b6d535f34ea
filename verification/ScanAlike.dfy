/**
 Two scans of lines that differ in their outer white space hide the same
 headings (`OrgScan`, `crates/vissue-core/src/org.rs`).
 */
module ScanAlike {
  import opened Text
  import opened Org
  import opened Escape
  import opened DrawerSite

  /// Two scans that hide the same headings from here on.
  predicate Alike(s: Scan, t: Scan) {
    && s.depth == t.depth
    && (s.results.Awaiting? <==> t.results.Awaiting?)
    && (s.results.Drawer? <==> t.results.Drawer?)
  }

  lemma AlikeLeavesOpen(s: Scan, t: Scan)
    requires Alike(s, t)
    ensures LeavesOpen(s) <==> LeavesOpen(t)
  {
  }

  lemma {:induction false} StartsTrimmed(s: string, word: string)
    requires word != "" && forall i :: 0 <= i < |word| ==> !IsSpace(Lower(word[i]))
    ensures StartsNoCase(TrimEnd(s), word) <==> StartsNoCase(s, word)
    decreases |s|
  {
    if s != "" && IsSpace(s[|s| - 1]) {
      var t := s[..|s| - 1];
      StartsTrimmed(t, word);
      if |word| <= |t| {
        assert t[..|word|] == s[..|word|];
      } else if |word| == |s| {
        assert s[..|word|] == s;
        assert Lower(s[|s| - 1]) != Lower(word[|s| - 1]);
      }
    }
  }

  lemma StartsBoth(t: string, a: string, b: string)
    ensures StartsNoCase(t, a + b) <==> StartsNoCase(t, a) && StartsNoCase(t[|a|..], b)
    ensures StartsNoCase(t, a) ==> |a| <= |t|
  {
    if |a + b| <= |t| {
      var (front, rest) := (t[..|a|], t[|a|..][..|b|]);
      assert t[..|a + b|] == front + rest;
      SameBoth(front, a, rest, b);
    }
  }

  lemma SameBoth(x: string, a: string, y: string, b: string)
    requires |x| == |a| && |y| == |b|
    ensures SameNoCase(x + y, a + b) <==> SameNoCase(x, a) && SameNoCase(y, b)
  {
    var (s, t) := (x + y, a + b);
    if SameNoCase(s, t) {
      forall i | 0 <= i < |x| ensures Lower(x[i]) == Lower(a[i]) { assert s[i] == x[i] && t[i] == a[i]; }
      forall i | 0 <= i < |y| ensures Lower(y[i]) == Lower(b[i]) { assert s[|x| + i] == y[i] && t[|x| + i] == b[i]; }
    }
  }

  lemma HashPlus(t: string)
    ensures "#+" <= t <==> StartsNoCase(t, "#+")
  {
    if |t| >= 2 {
      assert t[..2][0] == t[0] && t[..2][1] == t[1];
    }
  }

  lemma KeywordLine(t: string, word: string)
    ensures "#+" <= t && StartsNoCase(t[2..], word) <==> StartsNoCase(t, "#+" + word)
  {
    HashPlus(t);
    StartsBoth(t, "#+", word);
    hide StartsNoCase;
  }

  lemma SameStart(l: string, m: string, word: string)
    requires Trim(l) == Trim(m) && word != "" && forall i :: 0 <= i < |word| ==> !IsSpace(Lower(word[i]))
    ensures StartsNoCase(TrimStart(l), word) <==> StartsNoCase(TrimStart(m), word)
  {
    hide StartsNoCase, TrimStart, TrimEnd;
    StartsTrimmed(TrimStart(l), word);
    StartsTrimmed(TrimStart(m), word);
  }

  lemma SameKeyword(l: string, m: string, word: string)
    requires Trim(l) == Trim(m) && word != "" && forall i :: 0 <= i < |word| ==> !IsSpace(Lower(word[i]))
    ensures "#+" <= TrimStart(l) && StartsNoCase(TrimStart(l)[2..], word)
      <==> "#+" <= TrimStart(m) && StartsNoCase(TrimStart(m)[2..], word)
  {
    KeywordLine(TrimStart(l), word);
    KeywordLine(TrimStart(m), word);
    hide StartsNoCase, TrimStart, Trim;
    assert forall i :: 0 <= i < |"#+" + word| ==> !IsSpace(Lower(("#+" + word)[i]));
    SameStart(l, m, "#+" + word);
  }

  lemma SameBlockLine(l: string, m: string)
    requires Trim(l) == Trim(m)
    ensures IsBlockEnd(TrimStart(l)) <==> IsBlockEnd(TrimStart(m))
    ensures IsBlockBegin(TrimStart(l)) <==> IsBlockBegin(TrimStart(m))
  {
    hide StartsNoCase, TrimStart, Trim;
    SameKeyword(l, m, "END_");
    SameKeyword(l, m, "END:");
    SameKeyword(l, m, "BEGIN_");
    SameKeyword(l, m, "BEGIN:");
  }

  /// What a line makes of the depth, of a keyword waiting for its result and of
  /// an open result drawer.
  function Coarse(s: Scan, ends: bool, begins: bool, keyword: bool, t: string): (nat, bool, bool) {
    var (waiting, drawer) := (s.results.Awaiting?, s.results.Drawer?);
    if s.depth > 0 || ends then
      (if ends then (if s.depth == 0 then 0 else s.depth - 1) else if begins then s.depth + 1 else s.depth, waiting, drawer)
    else if keyword then (0, true, false)
    else if begins then (1, false, drawer)
    else if waiting then (0, t == "", t != "" && OpensDrawer(t))
    else (0, false, drawer && !SameNoCase(t, ":END:"))
  }

  lemma StepIsCoarse(s: Scan, l: string)
    ensures var (next, t) := (Step(s, l).0, TrimStart(l));
      (next.depth, next.results.Awaiting?, next.results.Drawer?)
        == Coarse(s, IsBlockEnd(t), IsBlockBegin(t), IsResultsKeyword(Trim(l)), Trim(l))
  {
    hide Trim, TrimStart, IsBlockEnd, IsBlockBegin, IsResultsKeyword, OpensDrawer, IsListLine, IsListContinuation,
      IsFixedWidthLine, IsTableLine, IsHeadline, SameNoCase;
  }

  /// Neither an indent nor a carriage return changes what a scan hides.
  lemma StepAlike(s: Scan, t: Scan, l: string, m: string)
    requires Alike(s, t) && Trim(l) == Trim(m)
    ensures Alike(Step(s, l).0, Step(t, m).0)
  {
    SameBlockLine(l, m);
    StepIsCoarse(s, l);
    StepIsCoarse(t, m);
    hide Step, Trim, TrimStart, IsBlockEnd, IsBlockBegin, IsResultsKeyword, OpensDrawer, SameNoCase;
  }

  lemma {:induction false} RunAlike(s: Scan, t: Scan, a: seq<string>, b: seq<string>)
    requires Alike(s, t) && SameTrimmed(a, b)
    ensures Alike(Run(s, a), Run(t, b))
    decreases |a|
  {
    hide Step, Trim, Alike;
    if a != [] {
      SameTrimmedTails(a, b, 1);
      assert a[..1][0] == a[0] && b[..1][0] == b[0];
      StepAlike(s, t, a[0], b[0]);
      RunAlike(Step(s, a[0]).0, Step(t, b[0]).0, a[1..], b[1..]);
    }
  }
}
