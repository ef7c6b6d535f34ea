/**
 What the heading parser takes from the drawers under a heading: properties,
 logbook lines and the other drawers as text (`parse_heading`,
 `crates/vissue-core/src/store.rs`, and `property_key_and_append`,
 `crates/vissue-core/src/org.rs`).
 */
module DrawerRead {
  import opened Text
  import opened Org
  import opened Issue
  import opened DrawerSite
  import LogLine

  datatype Site = Site(properties: Table, order: seq<string>, logbook: seq<LogEntry>, drawers: seq<string>)

  // ---- one line ----

  /// A key, and whether its value goes behind the one there is.
  function BareKey(key: string): (string, bool) {
    if |key| > 1 && key[|key| - 1] == '+' then (key[..|key| - 1], true) else (key, false)
  }

  function PutKey(order: seq<string>, key: string): seq<string> {
    if key in order then order else order + [key]
  }

  function Joined(was: string, more: string): string {
    if more == "" then was else if was == "" then more else was + " " + more
  }

  function PutValue(s: Site, key: string, value: string): Site {
    s.(properties := s.properties[key := value], order := PutKey(s.order, key))
  }

  function PutProperty(s: Site, line: string): Site {
    var t := Trim(line);
    var n := if ":" <= t then FirstIndex(t[1..], ':') else |t|;
    if n + 1 >= |t| then s
    else
      var (key, append) := BareKey(t[1..n + 1]);
      var value := Trim(t[n + 2..]);
      PutValue(s, key, if append && key in s.properties then Joined(s.properties[key], value) else value)
  }

  function PutLogLine(s: Site, line: string): Site {
    if Trim(line) == "" then s else s.(logbook := s.logbook + [LogLine.Parse(line)])
  }

  // ---- the lines of a drawer, up to its end ----

  function PutProperties(s: Site, lines: seq<string>): Site
    decreases |lines|
  {
    if lines == [] || IsEndLine(lines[0]) then s else PutProperties(PutProperty(s, lines[0]), lines[1..])
  }

  function PutLogbook(s: Site, lines: seq<string>): Site
    decreases |lines|
  {
    if lines == [] || IsEndLine(lines[0]) then s else PutLogbook(PutLogLine(s, lines[0]), lines[1..])
  }

  /// A drawer under its name, `lines` being its own and the line that opens it
  /// the first of them.
  function PutDrawer(s: Site, lines: seq<string>): Site
    requires lines != []
  {
    var name := Trim(lines[0]);
    if SameNoCase(name, ":PROPERTIES:") then PutProperties(s, lines[1..])
    else if SameNoCase(name, ":LOGBOOK:") then PutLogbook(s, lines[1..])
    else s.(drawers := s.drawers + [JoinNl(lines) + "\n"])
  }

  /// Every drawer in front of the body, blank lines between them or not.
  function ReadSite(s: Site, lines: seq<string>): Site
    decreases |lines|
  {
    if lines == [] then s
    else if Trim(lines[0]) == "" then ReadSite(s, lines[1..])
    else if !OpensDrawer(Trim(lines[0])) then s
    else
      var n := 1 + DrawerRest(lines[1..]);
      ReadSite(PutDrawer(s, lines[..n]), lines[n..])
  }

  // ---- as the program runs it ----

  lemma {:induction false} PropertiesUpTo(s: Site, lines: seq<string>)
    ensures PutProperties(s, lines[..DrawerRest(lines)]) == PutProperties(s, lines)
    ensures PutLogbook(s, lines[..DrawerRest(lines)]) == PutLogbook(s, lines)
    decreases |lines|
  {
    hide IsEndLine, PutProperty, PutLogLine;
    var n := DrawerRest(lines);
    var front := lines[..n];
    if lines != [] {
      assert front[0] == lines[0];
      if !IsEndLine(lines[0]) {
        assert front[1..] == lines[1..][..n - 1];
        PropertiesUpTo(PutProperty(s, lines[0]), lines[1..]);
        PropertiesUpTo(PutLogLine(s, lines[0]), lines[1..]);
      }
    }
  }

  class DrawerReader {
    var properties: Table
    var order: seq<string>
    var logbook: seq<LogEntry>
    var drawers: seq<string>

    function State(): Site
      reads this
    {
      Site(properties, order, logbook, drawers)
    }

    constructor ()
      ensures State() == Site(map[], [], [], [])
    {
      properties, order, logbook, drawers := map[], [], [], [];
    }

    method Put(key: string, value: string)
      modifies this
      ensures State() == PutValue(old(State()), key, value)
    {
      properties := properties[key := value];
      if key !in order {
        order := order + [key];
      }
    }

    method TakeProperty(line: string)
      modifies this
      ensures State() == PutProperty(old(State()), line)
    {
      hide Trim;
      var t := Trim(line);
      var n := if ":" <= t then FirstIndex(t[1..], ':') else |t|;
      if n + 1 < |t| {
        var (key, append) := BareKey(t[1..n + 1]);
        var value := Trim(t[n + 2..]);
        if append && key in properties {
          Put(key, Joined(properties[key], value));
        } else {
          Put(key, value);
        }
      }
    }

    /// The property drawer whose lines start at `start`.
    method TakeProperties(lines: seq<string>, start: nat) returns (i: nat)
      requires start <= |lines|
      modifies this
      ensures State() == PutProperties(old(State()), lines[start..])
      ensures i == start + DrawerRest(lines[start..])
    {
      hide IsEndLine, PutProperty;
      ghost var s := State();
      i := start;
      while i < |lines| && !IsEndLine(lines[i])
        invariant start <= i <= |lines|
        invariant PutProperties(s, lines[start..]) == PutProperties(State(), lines[i..])
        invariant start + DrawerRest(lines[start..]) == i + DrawerRest(lines[i..])
      {
        assert lines[i..][0] == lines[i] && lines[i..][1..] == lines[i + 1..];
        TakeProperty(lines[i]);
        i := i + 1;
      }
      if i < |lines| {
        assert lines[i..][0] == lines[i];
        i := i + 1;
      }
    }

    method TakeLogbook(lines: seq<string>, start: nat) returns (i: nat)
      requires start <= |lines|
      modifies this
      ensures State() == PutLogbook(old(State()), lines[start..])
      ensures i == start + DrawerRest(lines[start..])
    {
      hide IsEndLine, Trim;
      ghost var s := State();
      i := start;
      while i < |lines| && !IsEndLine(lines[i])
        invariant start <= i <= |lines|
        invariant PutLogbook(s, lines[start..]) == PutLogbook(State(), lines[i..])
        invariant start + DrawerRest(lines[start..]) == i + DrawerRest(lines[i..])
      {
        assert lines[i..][0] == lines[i] && lines[i..][1..] == lines[i + 1..];
        if Trim(lines[i]) != "" {
          logbook := logbook + [LogLine.Parse(lines[i])];
        }
        i := i + 1;
      }
      if i < |lines| {
        assert lines[i..][0] == lines[i];
        i := i + 1;
      }
    }

    /// Every drawer from line `start` on, and where the body starts.
    method TakeDrawers(lines: seq<string>, start: nat) returns (i: nat)
      requires start <= |lines|
      modifies this
      ensures State() == ReadSite(old(State()), lines[start..])
      ensures i == start + BodyStart(lines[start..])
    {
      hide Trim, OpensDrawer, DrawerRest, PutDrawer, ReadSite, BodyStart;
      ghost var s := State();
      i := start;
      while i < |lines|
        invariant start <= i <= |lines|
        invariant ReadSite(s, lines[start..]) == ReadSite(State(), lines[i..])
        invariant start + BodyStart(lines[start..]) == i + BodyStart(lines[i..])
      {
        ghost var was := State();
        NextTaken(lines, i);
        NextRead(was, lines, i);
        var trimmed := Trim(lines[i]);
        if trimmed == "" {
          i := i + 1;
          continue;
        }
        if !OpensDrawer(trimmed) {
          return;
        }
        DrawerAt(was, lines, i);
        var at := i;
        if SameNoCase(trimmed, ":PROPERTIES:") {
          i := TakeProperties(lines, i + 1);
        } else if SameNoCase(trimmed, ":LOGBOOK:") {
          i := TakeLogbook(lines, i + 1);
        } else {
          i := SkipDrawer(lines, i + 1);
          drawers := drawers + [JoinNl(lines[at..i]) + "\n"];
        }
      }
      NothingTaken(lines);
      NothingRead(State(), lines);
    }
  }

  lemma NothingRead(s: Site, lines: seq<string>)
    ensures ReadSite(s, lines[|lines|..]) == s
  {
  }

  lemma NextRead(s: Site, lines: seq<string>, i: nat)
    requires i < |lines|
    ensures var t := Trim(lines[i]);
      ReadSite(s, lines[i..]) ==
        if t == "" then ReadSite(s, lines[i + 1..])
        else if !OpensDrawer(t) then s
        else
          var n := 1 + DrawerRest(lines[i + 1..]);
          ReadSite(PutDrawer(s, lines[i..i + n]), lines[i + n..])
  {
    hide Trim, OpensDrawer, DrawerRest, PutDrawer;
    var rest := lines[i..];
    assert rest[0] == lines[i] && rest[1..] == lines[i + 1..];
    var n := 1 + DrawerRest(lines[i + 1..]);
    assert rest[n..] == lines[i + n..] && rest[..n] == lines[i..i + n];
  }

  lemma DrawerOf(s: Site, block: seq<string>, rest: seq<string>)
    requires block != [] && block[1..] == rest[..DrawerRest(rest)]
    ensures var name := Trim(block[0]);
      PutDrawer(s, block) ==
        if SameNoCase(name, ":PROPERTIES:") then PutProperties(s, rest)
        else if SameNoCase(name, ":LOGBOOK:") then PutLogbook(s, rest)
        else s.(drawers := s.drawers + [JoinNl(block) + "\n"])
  {
    PropertiesUpTo(s, rest);
    hide DrawerRest, PutProperties, PutLogbook, Trim, SameNoCase, JoinNl;
  }

  lemma DrawerAt(s: Site, lines: seq<string>, i: nat)
    requires i < |lines|
    ensures var (name, n) := (Trim(lines[i]), 1 + DrawerRest(lines[i + 1..]));
      PutDrawer(s, lines[i..i + n]) ==
        if SameNoCase(name, ":PROPERTIES:") then PutProperties(s, lines[i + 1..])
        else if SameNoCase(name, ":LOGBOOK:") then PutLogbook(s, lines[i + 1..])
        else s.(drawers := s.drawers + [JoinNl(lines[i..i + n]) + "\n"])
  {
    hide *;
    var n := 1 + DrawerRest(lines[i + 1..]);
    var block := lines[i..i + n];
    assert block[0] == lines[i] && block[1..] == lines[i + 1..][..n - 1];
    DrawerOf(s, block, lines[i + 1..]);
  }
}
