/**
 The drawers and the body of an issue as they are written, read by the heading
 parser (`parse_heading`, `crates/vissue-core/src/store.rs`, beside
 `IssueHeading::render`, `crates/vissue-core/src/model.rs`).
 */
module SiteReadsBack {
  import opened Base
  import opened Text
  import opened Org
  import opened Issue
  import opened Escape
  import opened DrawerSite
  import opened DrawerRead
  import opened Print
  import opened ReadBody
  import LogLine
  import Headline

  // ---- a drawer that is closed ----

  /// A line that opens a drawer, and the first line that ends it the last.
  predicate IsBlock(ls: seq<string>) {
    && |ls| >= 2 && OpensDrawer(Trim(ls[0])) && IsEndLine(ls[|ls| - 1])
    && forall i :: 0 < i < |ls| - 1 ==> !IsEndLine(ls[i])
  }

  lemma {:induction false} EndsLast(ls: seq<string>)
    requires ls != [] && IsEndLine(ls[|ls| - 1]) && forall i :: 0 <= i < |ls| - 1 ==> !IsEndLine(ls[i])
    ensures DrawerRest(ls) == |ls| && IsClosed(ls)
  {
    hide IsEndLine;
    if |ls| > 1 {
      assert forall i :: 0 <= i < |ls[1..]| - 1 ==> ls[1..][i] == ls[i + 1];
      EndsLast(ls[1..]);
    }
    assert IsEndLine(ls[|ls| - 1]);
  }

  /// A closed drawer is taken whole, and reading goes on behind it.
  lemma BlockTaken(s: Site, block: seq<string>, rest: seq<string>)
    requires IsBlock(block)
    ensures ReadSite(s, block + rest) == ReadSite(PutDrawer(s, block), rest)
    ensures BodyStart(block + rest) == |block| + BodyStart(rest)
  {
    hide Trim, OpensDrawer, IsEndLine, DrawerRest, PutDrawer, IsClosed;
    var (all, inner) := (block + rest, block[1..]);
    assert forall i :: 0 <= i < |inner| - 1 ==> inner[i] == block[i + 1];
    EndsLast(inner);
    DrawerRestWith(inner, rest);
    assert all[0] == block[0] && all[1..] == inner + rest;
    assert all[..|block|] == block && all[|block|..] == rest;
    assert Trim(block[0]) != "" by { NotBlank(block[0]); }
  }

  lemma NotBlank(line: string)
    requires OpensDrawer(Trim(line))
    ensures Trim(line) != ""
  {
    hide Trim;
  }

  // ---- a property ----

  /// A key that stands for itself in a drawer.
  predicate IsKey(k: string) {
    ':' !in k && !(|k| > 1 && k[|k| - 1] == '+')
  }

  function Pad(k: string): string {
    Headline.Spaces(if |k| + 2 < PROPERTY_COLUMN then PROPERTY_COLUMN - |k| - 2 else 1)
  }

  lemma TrimmedLine(k: string, v: string)
    ensures var (t, y) := (Trim(PropertyLine(k, v)), TrimEnd(Pad(k) + v));
      t == ":" + k + ":" + y && t[1..] == k + [':'] + y && Trim(y) == Trim(v) && (y == "" <==> Trim(v) == "")
  {
    var (front, pad) := (":" + k + ":", Pad(k));
    var (line, y) := (PropertyLine(k, v), TrimEnd(pad + v));
    assert line == front + (pad + v) && line[0] == ':';
    TrimEndBehind(front, pad + v);
    assert (front + y)[1..] == k + [':'] + y;
    TrimsCommute(pad + v);
    TrimStartOver(pad, v);
    TrimTwice(TrimStart(v));
    assert Trim(line) == TrimEnd(line);
    hide TrimEnd, TrimStart, PropertyLine;
    assert Trim(y) == Trim(v);
    if y != "" { EndStays(pad + v); }
  }

  lemma EndStays(s: string)
    requires TrimEnd(s) != ""
    ensures Trim(TrimEnd(s)) != ""
  {
    var y := TrimEnd(s);
    TrimTwice(s);
    TrimsCommute(y);
    NotAllBlank(y);
  }

  lemma {:induction false} NotAllBlank(y: string)
    requires y != "" && !IsSpace(y[|y| - 1])
    ensures TrimStart(y) != ""
  {
    if IsSpace(y[0]) { NotAllBlank(y[1..]); }
  }

  lemma KeyTaken(s: Site, k: string, v: string)
    requires ':' !in k
    ensures var (key, append) := BareKey(k);
      PutProperty(s, PropertyLine(k, v))
        == PutValue(s, key, if append && key in s.properties then Joined(s.properties[key], Trim(v)) else Trim(v))
  {
    var y := TrimEnd(Pad(k) + v);
    var t := Trim(PropertyLine(k, v));
    TrimmedLine(k, v);
    FirstIndexAt(k, ':', y);
    hide Trim, TrimEnd, PropertyLine, FirstIndex, BareKey, Joined;
    assert t[1..|k| + 1] == k && t[|k| + 2..] == y;
  }

  lemma FrontOfKey(t: string, k: string, y: string, n: nat)
    requires t == ":" + k + ":" + y && n < |k|
    ensures ":" <= t && n + 2 <= |t| && t[1..n + 1] == k[..n]
  {
    assert t[..1] == ":";
  }

  lemma ColonInside(rest: string, k: string, y: string)
    requires rest == k + [':'] + y && ':' in k
    ensures FirstIndex(rest, ':') == FirstIndex(k, ':') < |k|
  {
    FirstIndexIn(k, ':');
    FirstIndexOver(k, [':'], ':');
    FirstIndexOver(k + [':'], y, ':');
    hide *;
  }

  /// The line reads up to the first colon of the key.
  lemma CutAtColon(k: string, v: string)
    requires ':' in k
    ensures var (t, n) := (Trim(PropertyLine(k, v)), FirstIndex(k, ':'));
      && ":" <= t && n < |k| && n + 2 <= |t|
      && FirstIndex(t[1..], ':') == n && t[1..n + 1] == k[..n]
  {
    hide *;
    var (t, y) := (Trim(PropertyLine(k, v)), TrimEnd(Pad(k) + v));
    TrimmedLine(k, v);
    ColonInside(t[1..], k, y);
    FrontOfKey(t, k, y, FirstIndex(k, ':'));
  }

  lemma ColonCuts(s: Site, k: string, v: string) returns (n: nat, more: string)
    requires ':' in k
    ensures n < |k| && PutProperty(s, PropertyLine(k, v)) == PutValue(s, BareKey(k[..n]).0, more)
  {
    var t := Trim(PropertyLine(k, v));
    n := FirstIndex(k, ':');
    CutAtColon(k, v);
    hide Trim, PropertyLine, FirstIndex, Joined;
    var (key, append) := BareKey(k[..n]);
    var value := Trim(t[n + 2..]);
    more := if append && key in s.properties then Joined(s.properties[key], value) else value;
  }

  /**
   A property comes back as it was written exactly when its key holds no colon
   and ends in no plus sign and its value has no outer blanks.
   */
  lemma PropertyReadsBackExactly(s: Site, k: string, v: string)
    requires k !in s.properties && k !in s.order
    ensures PutProperty(s, PropertyLine(k, v)) == PutValue(s, k, v) <==> IsKey(k) && Trim(v) == v
  {
    hide PutProperty, PropertyLine, Trim;
    if ':' in k {
      var n, more := ColonCuts(s, k, v);
      var key := BareKey(k[..n]).0;
      assert |key| < |k|;
      assert k in PutValue(s, k, v).properties && k !in PutValue(s, key, more).properties;
    } else {
      KeyTaken(s, k, v);
      var key := BareKey(k).0;
      if key != k {
        assert k in PutValue(s, k, v).properties && k !in PutProperty(s, PropertyLine(k, v)).properties;
      } else {
        assert PutValue(s, k, v).properties[k] == v;
        assert PutProperty(s, PropertyLine(k, v)).properties[k] == Trim(v);
      }
    }
  }

  lemma PropertyPut(s: Site, k: string, v: string)
    requires IsKey(k)
    ensures PutProperty(s, PropertyLine(k, v)) == PutValue(s, k, Trim(v))
  {
    KeyTaken(s, k, v);
    hide PutProperty, PropertyLine, Trim;
  }

  /// A key with a plus sign behind it adds to the value that is there, one
  /// blank between them.
  lemma PlusAppends(s: Site, k: string, v: string)
    requires k != "" && ':' !in k && k in s.properties && s.properties[k] != "" && Trim(v) != ""
    ensures PutProperty(s, PropertyLine(k + "+", v)) == PutValue(s, k, s.properties[k] + " " + Trim(v))
  {
    KeyTaken(s, k + "+", v);
    hide PutProperty, PropertyLine, Trim;
    assert (k + "+")[..|k|] == k;
  }

  /// The one property whose line would end the drawer.
  predicate SpellsEnd(k: string, v: string) {
    SameNoCase(k, "END") && Trim(v) == ""
  }

  lemma NoEndLine(k: string, v: string)
    requires ':' !in k && !SpellsEnd(k, v)
    ensures !IsEndLine(PropertyLine(k, v))
  {
    var t := Trim(PropertyLine(k, v));
    TrimmedLine(k, v);
    hide Trim, PropertyLine;
    if SameNoCase(t, ":END:") {
      var n := |k| + 1;
      assert t[n] == ':' && Lower(t[n]) == Lower(":END:"[n]);
      assert n == 4;
      forall i | 0 <= i < 3 ensures Lower(k[i]) == Lower("END"[i]) { assert Lower(t[i + 1]) == Lower(":END:"[i + 1]); }
    }
  }

  // ---- the property drawer ----

  function PutAll(s: Site, keys: seq<string>, t: Table): Site
    decreases |keys|
  {
    if keys == [] then s else PutAll(PutValue(s, keys[0], Trim(Get(t, keys[0]).GetOr(""))), keys[1..], t)
  }

  predicate EachRead(keys: seq<string>, t: Table) {
    forall i :: 0 <= i < |keys| ==> IsKey(keys[i]) && !SpellsEnd(keys[i], Get(t, keys[i]).GetOr(""))
  }

  lemma {:induction false} PropertiesPut(s: Site, keys: seq<string>, t: Table, end: string)
    requires EachRead(keys, t) && IsEndLine(end)
    ensures PutProperties(s, PropertyLines(keys, t) + [end]) == PutAll(s, keys, t)
    ensures forall i :: 0 <= i < |keys| ==> !IsEndLine(PropertyLines(keys, t)[i])
    decreases |keys|
  {
    hide PutProperty, PropertyLine, IsKey, IsEndLine, SpellsEnd, Trim;
    var ls := PropertyLines(keys, t);
    if keys == [] {
      assert ls + [end] == [end];
    } else {
      var v := Get(t, keys[0]).GetOr("");
      assert IsKey(keys[0]) && !SpellsEnd(keys[0], v);
      assert ls[0] == PropertyLine(keys[0], v) && ls[1..] == PropertyLines(keys[1..], t);
      assert (ls + [end])[1..] == ls[1..] + [end];
      PropertyPut(s, keys[0], v);
      NoEndLine(keys[0], v) by { NoColon(keys[0]); }
      PropertiesPut(PutValue(s, keys[0], Trim(v)), keys[1..], t, end);
    }
  }

  lemma NoColon(k: string)
    requires IsKey(k)
    ensures ':' !in k
  {
  }

  /// The table with the values of `keys` put over it.
  function TableOver(was: Table, keys: seq<string>, t: Table): Table {
    map k | k in was.Keys + Elems(keys) :: if k in keys then Trim(Get(t, k).GetOr("")) else was[k]
  }

  lemma TableOverNext(was: Table, keys: seq<string>, t: Table)
    requires keys != [] && Distinct(keys)
    ensures TableOver(was[keys[0] := Trim(Get(t, keys[0]).GetOr(""))], keys[1..], t) == TableOver(was, keys, t)
  {
    hide Trim;
    assert keys == [keys[0]] + keys[1..];
    var next := was[keys[0] := Trim(Get(t, keys[0]).GetOr(""))];
    assert next.Keys + Elems(keys[1..]) == was.Keys + Elems(keys);
  }

  /// What a run of properties leaves: their values, their keys in order.
  lemma {:induction false} AllPut(s: Site, keys: seq<string>, t: Table)
    requires Distinct(keys) && forall k :: k in keys ==> k !in s.order
    ensures PutAll(s, keys, t) == Site(TableOver(s.properties, keys, t), s.order + keys, s.logbook, s.drawers)
    decreases |keys|
  {
    hide Trim, TableOver;
    if keys == [] {
      assert s.order + keys == s.order;
      assert TableOver(s.properties, [], t) == s.properties by { NothingOver(s.properties, t); }
    } else {
      var next := PutValue(s, keys[0], Trim(Get(t, keys[0]).GetOr("")));
      assert keys == [keys[0]] + keys[1..];
      TableOverNext(s.properties, keys, t);
      AllPut(next, keys[1..], t);
      assert s.order + [keys[0]] + keys[1..] == s.order + keys;
    }
  }

  lemma NothingOver(was: Table, t: Table)
    ensures TableOver(was, [], t) == was
  {
  }

  // ---- the logbook ----

  /// A logbook line that is read back.
  predicate LogReads(e: LogEntry) {
    var line := LogLine.Render(e);
    LogLine.Parse(line) == e && Trim(line) != "" && !IsEndLine(line)
  }

  lemma {:induction false} LogPut(s: Site, log: seq<LogEntry>, end: string)
    requires (forall e :: e in log ==> LogReads(e)) && IsEndLine(end)
    ensures PutLogbook(s, LogLines(log) + [end]) == s.(logbook := s.logbook + log)
    decreases |log|
  {
    hide LogLine.Render, LogLine.Parse, IsEndLine, Trim;
    var ls := LogLines(log);
    if log == [] {
      assert ls + [end] == [end] && s.logbook + log == s.logbook;
    } else {
      assert log == [log[0]] + log[1..] && LogReads(log[0]);
      assert ls[0] == LogLine.Render(log[0]) && ls[1..] == LogLines(log[1..]);
      assert (ls + [end])[1..] == ls[1..] + [end];
      LogPut(PutLogLine(s, ls[0]), log[1..], end);
      assert s.logbook + [log[0]] + log[1..] == s.logbook + log;
    }
  }

  // ---- the other drawers ----

  /// A drawer that is kept as it is.
  predicate DrawerReads(d: string) {
    var ls := LinesOf(d);
    && Finished(d) == Terminated(ls) && PlainLines(ls) && IsBlock(ls)
    && !SameNoCase(Trim(ls[0]), ":PROPERTIES:") && !SameNoCase(Trim(ls[0]), ":LOGBOOK:")
  }

  function DrawerLines(drawers: seq<string>): seq<string> {
    if drawers == [] then [] else LinesOf(drawers[0]) + DrawerLines(drawers[1..])
  }

  function FinishedEach(drawers: seq<string>): seq<string> {
    if drawers == [] then [] else [Finished(drawers[0])] + FinishedEach(drawers[1..])
  }

  lemma DrawerPut(s: Site, d: string)
    requires DrawerReads(d)
    ensures PutDrawer(s, LinesOf(d)) == s.(drawers := s.drawers + [Finished(d)])
  {
    TerminatedIsJoined(LinesOf(d));
    hide LinesOf, Trim, SameNoCase, JoinNl, Terminated, Finished, OpensDrawer, IsEndLine, PlainLines;
  }

  lemma {:induction false} DrawersPut(s: Site, drawers: seq<string>, rest: seq<string>)
    requires forall d :: d in drawers ==> DrawerReads(d)
    ensures var ls := DrawerLines(drawers);
      && ReadSite(s, ls + rest) == ReadSite(s.(drawers := s.drawers + FinishedEach(drawers)), rest)
      && BodyStart(ls + rest) == |ls| + BodyStart(rest)
    decreases |drawers|
  {
    hide LinesOf, ReadSite, BodyStart, Finished, PutDrawer, PlainLines, Terminated;
    if drawers == [] {
      assert DrawerLines(drawers) + rest == rest && s.drawers + FinishedEach(drawers) == s.drawers;
    } else {
      var (d, ls, more) := (drawers[0], LinesOf(drawers[0]), DrawerLines(drawers[1..]));
      assert drawers == [d] + drawers[1..] && DrawerReads(d);
      DrawerPut(s, d);
      BlockTaken(s, ls, more + rest);
      DrawersPut(s.(drawers := s.drawers + [Finished(d)]), drawers[1..], rest);
      assert ls + more + rest == ls + (more + rest);
      assert s.drawers + [Finished(d)] + FinishedEach(drawers[1..]) == s.drawers + FinishedEach(drawers);
    }
  }

  // ---- the body, and what follows the issue ----

  /// The issue is followed by `b` blank lines and the next heading, or by no
  /// more than those.
  predicate Follows(next: seq<string>, b: nat) {
    && b <= |next| && (forall i :: 0 <= i < b ==> next[i] == "")
    && (b == |next| || EndsTheIssue(next[b]))
  }

  lemma FollowsBehind(next: seq<string>, b: nat)
    requires Follows(next, b) && b > 0
    ensures next != [] && next[0] == "" && Follows(next[1..], b - 1)
  {
    assert forall i :: 0 <= i < b - 1 ==> next[1..][i] == next[i + 1];
  }

  lemma {:induction false} BlanksStay(s: Scan, next: seq<string>, b: nat)
    requires Follows(next, b) && StarsPositive(s) && !LeavesOpen(s)
    ensures BodyEnd(s, next) == b
    decreases b
  {
    if b == 0 {
      if next != [] { HidesHeadlineIff(s, next[0]); }
    } else {
      FollowsBehind(next, b);
      BlankStep(s);
      BlanksStay(Step(s, "").0, next[1..], b - 1);
    }
  }

  lemma BlankStep(s: Scan)
    requires StarsPositive(s) && !LeavesOpen(s)
    ensures var t := Step(s, "").0; StarsPositive(t) && !LeavesOpen(t) && !EndsTheIssue("")
  {
    StepStars(s, "");
    assert TrimStart("") == "" && Trim("") == "";
  }

  lemma {:induction false} BlanksSkipped(s: Site, next: seq<string>, b: nat)
    requires Follows(next, b)
    ensures BodyStart(next) == b && ReadSite(s, next) == s
    decreases b
  {
    if b == 0 {
      if next != [] { HeadlineFacts(next[0]); }
    } else {
      FollowsBehind(next, b);
      assert Trim("") == "";
      BlanksSkipped(s, next[1..], b - 1);
    }
  }

  /// A body that comes back from the file it is written to.
  predicate BodyReads(body: string) {
    body == "" || (IsTidy(body) && !LeavesOpen(Run(START, SplitNl(body))))
  }

  lemma BodyLines(body: string)
    requires body != "" && BodyReads(body)
    ensures var out := Escaped(START, SplitNl(body));
      && Written(body) == [""] + out && out != []
      && JoinNl(out) == EscapedBody(body) && NoOuterSpace(EscapedBody(body))
      && Trim(out[0]) != "" && !OpensDrawer(Trim(out[0]))
  {
    var (pieces, out) := (SplitNl(body), Escaped(START, SplitNl(body)));
    TidyLines(body);
    WrittenShape(body);
    OuterChars(body);
    assert Trim(pieces[0]) != "" && !OpensDrawer(Trim(pieces[0])) && pieces != [];
    hide *;
    EscapedAt(START, pieces, 0);
    EscapedKeepsTrim(Run(START, pieces[..0]), pieces[0]);
    TextOf(body);
    assert |out| == |pieces| by { assert |Written(body)| == |pieces| + 1 && Written(body)[1..] == out; }
    assert Written(body) == [Written(body)[0]] + Written(body)[1..];
  }

  lemma ScanBehind(body: string, next: seq<string>, b: nat)
    requires body != "" && BodyReads(body) && Follows(next, b)
    ensures var out := Escaped(START, SplitNl(body)); BodyEnd(START, out + next) == |out| + b
  {
    var (pieces, out) := (SplitNl(body), Escaped(START, SplitNl(body)));
    assert !LeavesOpen(Run(START, pieces)) && StarsPositive(START) && Simulates(START, START);
    hide *;
    RunSimulates(START, START, pieces);
    BodyEndAfter(START, out, next);
    RunStarsPositive(START, out);
    assert !LeavesOpen(Run(START, out)) by { SimulatesOpen(Run(START, pieces), Run(START, out)); }
    BlanksStay(Run(START, out), next, b);
  }

  lemma SimulatesOpen(writing: Scan, reading: Scan)
    requires Simulates(writing, reading)
    ensures LeavesOpen(writing) <==> LeavesOpen(reading)
  {
  }

  lemma {:induction false} BlanksTrimmed(text: string, b: nat)
    requires NoOuterSpace(text)
    ensures TrimEnd(TrimOf(text + Newlines(b), '\n')) == text
    decreases b
  {
    var s := text + Newlines(b);
    assert s[0] == text[0] && TrimStartOf(s, '\n') == s;
    NewlinesTrimmed(text, b);
  }

  function Newlines(b: nat): string {
    if b == 0 then "" else "\n" + Newlines(b - 1)
  }

  lemma {:induction false} NewlinesTrimmed(text: string, b: nat)
    requires NoOuterSpace(text)
    ensures TrimEndOf(text + Newlines(b), '\n') == text
    decreases b
  {
    var s := text + Newlines(b);
    if b == 0 {
      assert s == text;
    } else {
      NewlinesLast(b);
      assert s[..|s| - 1] == text + Newlines(b - 1) && s[|s| - 1] == '\n';
      NewlinesTrimmed(text, b - 1);
    }
  }

  lemma {:induction false} NewlinesLast(b: nat)
    ensures Newlines(b) + "\n" == "\n" + Newlines(b)
    ensures b > 0 ==> Newlines(b) == Newlines(b - 1) + "\n"
  {
    if b > 0 {
      NewlinesLast(b - 1);
      assert "\n" + (Newlines(b - 1) + "\n") == "\n" + Newlines(b - 1) + "\n";
    }
  }

  lemma {:induction false} JoinBlanks(out: seq<string>, blanks: seq<string>)
    requires out != [] && forall i :: 0 <= i < |blanks| ==> blanks[i] == ""
    ensures JoinNl(out + blanks) == JoinNl(out) + Newlines(|blanks|)
    decreases |blanks|
  {
    if blanks == [] {
      assert out + blanks == out && JoinNl(out) + "" == JoinNl(out);
    } else {
      assert blanks[0] == "";
      assert out + blanks == out + [""] + blanks[1..];
      JoinBlanks(out + [""], blanks[1..]);
      JoinAppend(out, "");
      hide JoinNl;
      assert JoinNl(out) + "\n" + "" == JoinNl(out) + "\n";
      assert JoinNl(out) + "\n" + Newlines(|blanks| - 1) == JoinNl(out) + ("\n" + Newlines(|blanks| - 1));
    }
  }

  /// Where the issue ends behind its drawers, and the body that is read.
  lemma BodyBehind(s: Site, body: string, next: seq<string>, b: nat)
    requires BodyReads(body) && Follows(next, b)
    ensures var all := Written(body) + next;
      ReadSite(s, all) == s && IssueEnd(all) == |Written(body)| + b && BodyRead(all) == EscapedBody(body)
  {
    hide *;
    if body == "" {
      NoBodyBehind(s, next, b);
    } else {
      var (out, all) := (Escaped(START, SplitNl(body)), Written(body) + next);
      BodyLines(body);
      ScanBehind(body, next, b);
      WholeParts(all, out, next, b);
      StartBehindBlank(s, all);
      EndBehindBlank(all, out, next, b);
      JoinBlanks(out, next[..b]);
      BlanksTrimmed(EscapedBody(body), b);
      ReadOf(all, JoinNl(out + next[..b]));
    }
  }

  lemma WholeParts(all: seq<string>, out: seq<string>, next: seq<string>, b: nat)
    requires all == [""] + out + next && out != [] && Follows(next, b)
    ensures |all| >= 2 && all[0] == "" && all[1] == out[0] && all[1..] == out + next
    ensures all[1..1 + |out| + b] == out + next[..b]
    ensures b <= |next| && forall i :: 0 <= i < b ==> next[..b][i] == ""
  {
    assert all == [""] + (out + next);
    assert all[1..][..|out| + b] == (out + next)[..|out| + b] == out + next[..b];
  }

  lemma NoBodyBehind(s: Site, next: seq<string>, b: nat)
    requires Follows(next, b)
    ensures var all := Written("") + next;
      ReadSite(s, all) == s && IssueEnd(all) == |Written("")| + b && BodyRead(all) == EscapedBody("")
  {
    BlanksSkipped(s, next, b);
    assert Written("") == [] && [] + next == next;
    assert BodyEnd(START, next[b..]) == 0 by {
      if b < |next| { HeadlineFacts(next[b]); }
    }
    assert EscapedBody("") == "" by { assert SplitNl("") == [""] && Escaped(START, [""]) == [""]; }
    assert IssueEnd(next) == b && next[b..b] == [];
  }

  lemma StartBehindBlank(s: Site, all: seq<string>)
    requires |all| >= 2 && all[0] == "" && Trim(all[1]) != "" && !OpensDrawer(Trim(all[1]))
    ensures BodyStart(all) == 1 && ReadSite(s, all) == s
  {
    assert Trim("") == "";
    hide OpensDrawer;
    assert all[1..][0] == all[1];
  }

  lemma EndBehindBlank(all: seq<string>, out: seq<string>, next: seq<string>, b: nat)
    requires BodyStart(all) == 1 && all[1..] == out + next && BodyEnd(START, out + next) == |out| + b && |all| >= 1
    ensures IssueEnd(all) == 1 + |out| + b
  {
    hide BodyStart, BodyEnd;
  }

  lemma ReadOf(all: seq<string>, text: string)
    requires text == JoinNl(all[BodyStart(all)..IssueEnd(all)])
    ensures BodyRead(all) == TrimEnd(TrimOf(text, '\n'))
  {
  }

  /// Drawers in front of the body shift what is read behind them.
  lemma ReadShifted(front: seq<string>, rest: seq<string>)
    requires BodyStart(front + rest) == |front| + BodyStart(rest)
    ensures IssueEnd(front + rest) == |front| + IssueEnd(rest) && BodyRead(front + rest) == BodyRead(rest)
  {
    hide BodyStart, BodyEnd, TrimEnd, TrimOf, JoinNl;
    var (all, k) := (front + rest, BodyStart(rest));
    assert all[|front| + k..] == rest[k..];
    assert all[|front| + k..|front| + IssueEnd(rest)] == rest[k..IssueEnd(rest)];
  }
}
