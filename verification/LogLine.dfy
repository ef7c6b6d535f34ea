/**
 One line of a `:LOGBOOK:` drawer, read and written
 (`LogEntry` and `parse_log_line`, `crates/vissue-core/src/model.rs`).
 */
module LogLine {
  import opened Base
  import opened Text
  import opened Issue

  // ---- writing ----

  /// The line the fields render to, in the pieces it is joined from.
  function FieldPieces(e: LogEntry): seq<string> {
    if e.toState.Some? then
      if e.fromState.Some?
      then ["- State \"", e.toState.value, "\" from \"", e.fromState.value, "\" ", e.timestamp]
      else ["- State \"", e.toState.value, "\" ", e.timestamp]
    else if e.note.Some? then ["- Note: \"", e.note.value, "\" ", e.timestamp]
    else ["- ", e.timestamp]
  }

  function Concat(pieces: seq<string>): string {
    if pieces == [] then "" else pieces[0] + Concat(pieces[1..])
  }

  function Render(e: LogEntry): string {
    match e.raw
    case Some(raw) => raw
    case None => Concat(FieldPieces(e))
  }

  // ---- reading ----

  function Verbatim(line: string, timestamp: string): LogEntry {
    LogEntry(timestamp, None, None, None, Some(Bare(line)))
  }

  /// Whether the pieces, taken off the front one by one, use `rest` up.
  predicate Spells(pieces: seq<string>, rest: string)
    decreases |pieces|
  {
    if pieces == [] then rest == ""
    else pieces[0] <= rest && Spells(pieces[1..], rest[|pieces[0]|..])
  }

  /// Keep the line when rendering the fields would write something else.
  function KeepingLine(e: LogEntry, line: string): LogEntry {
    if Spells(FieldPieces(e), Bare(line)) then e else e.(raw := Some(Bare(line)))
  }

  function Quoted(s: string): string {
    TrimOf(Trim(s), '"')
  }

  function ParseStateChange(rest: string, timestamp: string): LogEntry {
    match SplitOnce(rest, " from ")
    case None => LogEntry(timestamp, None, Some(Quoted(rest)), None, None)
    case Some((to, from)) => LogEntry(timestamp, Some(Quoted(from)), Some(Quoted(to)), None, None)
  }

  function ParseNote(rest: string, timestamp: string): LogEntry {
    var note := Quoted(rest);
    LogEntry(timestamp, None, None, if note == "" then None else Some(note), None)
  }

  /// The text after the dash of `- ... [stamp] ...`, when the line is that.
  function DashBody(s: string): Option<string> {
    var t := Trim(s);
    if StartsNoCase(t, "CLOCK:") || !("-" <= t) then None else Some(TrimStart(t[1..]))
  }

  /// The entry of a dash line whose text before the stamp is `prefix`.
  function ParsePrefix(prefix: string, timestamp: string, s: string): LogEntry {
    if "State " <= prefix then KeepingLine(ParseStateChange(prefix[6..], timestamp), s)
    else if "Note:" <= prefix then KeepingLine(ParseNote(prefix[5..], timestamp), s)
    else Verbatim(s, timestamp)
  }

  /// The text before the last `[` and the stamp that starts there.
  function DashParts(body: string): Option<(string, string)> {
    var at := LastIndex(body, '[');
    var end := at + FirstIndex(body[at..], ']');
    if end == |body| then None
    else Some((TrimEndOf(Trim(body[..at]), ','), body[at..end + 1]))
  }

  function ParseDash(body: string, s: string): LogEntry {
    match DashParts(body)
    case None => Verbatim(s, "")
    case Some((prefix, timestamp)) => ParsePrefix(prefix, timestamp, s)
  }

  function Parse(s: string): LogEntry {
    match DashBody(s)
    case None => Verbatim(s, "")
    case Some(body) => ParseDash(body, s)
  }

  // ---- what is read is written back ----

  lemma {:induction false} SpellsIsConcat(pieces: seq<string>, rest: string)
    ensures Spells(pieces, rest) <==> rest == Concat(pieces)
    decreases |pieces|
  {
    if pieces != [] {
      if pieces[0] <= rest {
        SpellsIsConcat(pieces[1..], rest[|pieces[0]|..]);
        assert rest == pieces[0] + rest[|pieces[0]|..];
      }
    }
  }

  lemma RenderKeepingLine(e: LogEntry, s: string)
    requires e.raw == None
    ensures Render(KeepingLine(e, s)) == Bare(s)
  {
    SpellsIsConcat(FieldPieces(e), Bare(s));
  }

  lemma RenderParsePrefix(prefix: string, timestamp: string, s: string)
    ensures Render(ParsePrefix(prefix, timestamp, s)) == Bare(s)
  {
    if "State " <= prefix {
      RenderKeepingLine(ParseStateChange(prefix[6..], timestamp), s);
    } else if "Note:" <= prefix {
      RenderKeepingLine(ParseNote(prefix[5..], timestamp), s);
    }
  }

  /// Every line, whatever it holds, is written back byte for byte.
  lemma RenderParse(s: string)
    ensures Render(Parse(s)) == Bare(s)
  {
    var d := DashBody(s);
    if d.Some? {
      var parts := DashParts(d.value);
      if parts.Some? {
        RenderParsePrefix(parts.value.0, parts.value.1, s);
      }
    }
  }

  lemma {:induction false} TrimDropsLast(s: string)
    requires s != "" && IsSpace(s[|s| - 1])
    ensures Trim(s) == Trim(s[..|s| - 1])
    decreases |s|
  {
    var t := s[..|s| - 1];
    if IsSpace(s[0]) {
      if |s| > 1 {
        TrimDropsLast(s[1..]);
        assert s[1..][..|s| - 2] == t[1..];
      }
    } else {
      assert TrimStart(s) == s && TrimStart(t) == t;
    }
  }

  lemma {:induction false} TrimBare(s: string)
    ensures Trim(Bare(s)) == Trim(s)
    ensures Bare(Bare(s)) == Bare(s)
    decreases |s|
  {
    if s != "" && (s[|s| - 1] == '\n' || s[|s| - 1] == '\r') {
      TrimDropsLast(s);
      TrimBare(s[..|s| - 1]);
    }
  }

  lemma ParseSeesBare(s: string, t: string)
    requires Trim(s) == Trim(t) && Bare(s) == Bare(t)
    ensures Parse(s) == Parse(t)
  {
    var d := DashBody(s);
    assert d == DashBody(t);
    if d.Some? {
      var parts := DashParts(d.value);
      if parts.Some? {
        ParsePrefixSeesBare(parts.value.0, parts.value.1, s, t);
      }
    }
  }

  lemma ParsePrefixSeesBare(prefix: string, timestamp: string, s: string, t: string)
    requires Bare(s) == Bare(t)
    ensures ParsePrefix(prefix, timestamp, s) == ParsePrefix(prefix, timestamp, t)
  {
  }

  /// Reading again what was written gives the entry that was written.
  lemma ParseRenderParse(s: string)
    ensures Parse(Render(Parse(s))) == Parse(s)
  {
    RenderParse(s);
    TrimBare(s);
    ParseSeesBare(Bare(s), s);
  }

  /// An entry a read can give: the reading of one line of a drawer.
  ghost predicate ReadEntry(e: LogEntry) {
    exists line :: Parse(line) == e && OneLine(line) && Trim(line) != ""
  }

  lemma {:induction false} BareOneLine(s: string)
    requires OneLine(s)
    ensures OneLine(Bare(s)) && (Bare(s) == "" || Bare(s)[|Bare(s)| - 1] != '\r')
    decreases |s|
  {
    if s != "" && (s[|s| - 1] == '\n' || s[|s| - 1] == '\r') {
      BareOneLine(s[..|s| - 1]);
    }
  }

  lemma ReadEntryRoundTrip(e: LogEntry)
    requires ReadEntry(e)
    ensures Parse(Render(e)) == e
    ensures OneLine(Render(e)) && Trim(Render(e)) != ""
    ensures Render(e)[|Render(e)| - 1] != '\r'
  {
    var line :| Parse(line) == e && OneLine(line) && Trim(line) != "";
    RenderParse(line);
    ParseRenderParse(line);
    TrimBare(line);
    BareOneLine(line);
  }

  // ---- entries the tracker writes itself ----

  /// `[...]` with no bracket inside.
  predicate IsStamp(at: string) {
    && |at| >= 2 && at[0] == '[' && at[|at| - 1] == ']'
    && '[' !in at[1..] && ']' !in at[..|at| - 1]
    && OneLine(at)
  }

  predicate IsKeyword(k: string) {
    forall i :: 0 <= i < |k| ==> !IsSpace(k[i]) && k[i] != '"'
  }

  /// A note Org's drawer line can carry as a quoted text.
  predicate IsNoteText(n: string) {
    && n != "" && OneLine(n)
    && n[0] != '"' && n[|n| - 1] != '"'
  }

  lemma QuotedText(k: string)
    requires k != "" ==> k[0] != '"' && k[|k| - 1] != '"'
    ensures Quoted("\"" + k + "\"") == k
  {
    var s := "\"" + k + "\"";
    TrimNothing(s);
    assert s[1..] == k + "\"";
    if k == "" {
      assert TrimStartOf("\"", '"') == TrimStartOf("", '"');
    } else {
      assert (k + "\"")[0] == k[0];
      assert TrimStartOf(s, '"') == TrimStartOf(s[1..], '"') == k + "\"";
      assert (k + "\"")[..|k|] == k;
      assert TrimEndOf(k + "\"", '"') == TrimEndOf(k, '"') == k;
    }
  }

  lemma NoClock(s: string)
    requires s != "" && s[0] == '-'
    ensures !StartsNoCase(s, "CLOCK:")
  {
    if |s| >= 6 {
      assert s[..6][0] == '-' && Lower('-') != Lower("CLOCK:"[0]);
    }
  }

  lemma DashBodyOf(body: string)
    requires body != "" && !IsSpace(body[0]) && !IsSpace(body[|body| - 1])
    ensures DashBody("- " + body) == Some(body)
  {
    var s := "- " + body;
    TrimNothing(s);
    NoClock(s);
    assert s[1..] == " " + body;
    assert (" " + body)[1..] == body;
    assert TrimStart(" " + body) == TrimStart(body) == body;
    assert "-" <= s;
  }

  lemma StampFound(front: string, at: string)
    requires IsStamp(at)
    ensures LastIndex(front + at, '[') == |front|
    ensures FirstIndex(at, ']') == |at| - 1
  {
    assert front + at == front + ['['] + at[1..];
    LastIndexAt(front, '[', at[1..]);
    assert at == at[..|at| - 1] + [']'] + "";
    FirstIndexAt(at[..|at| - 1], ']', "");
  }

  lemma TrimOneSpace(s: string)
    requires s != "" && !IsSpace(s[0]) && !IsSpace(s[|s| - 1])
    ensures Trim(s + " ") == s
  {
    TrimDropsLast(s + " ");
    assert (s + " ")[..|s|] == s;
    TrimNothing(s);
  }

  /// `<prefix> <stamp>` is taken apart at the stamp.
  lemma DashPartsOf(prefix: string, at: string)
    requires prefix != "" && !IsSpace(prefix[0])
    requires !IsSpace(prefix[|prefix| - 1]) && prefix[|prefix| - 1] != ','
    requires IsStamp(at)
    ensures DashParts(prefix + " " + at) == Some((prefix, at))
  {
    var body := prefix + " " + at;
    var n := |prefix| + 1;
    StampFound(prefix + " ", at);
    assert body[n..] == at;
    assert body[..n] == prefix + " ";
    TrimOneSpace(prefix);
    assert body[n..n + |at|] == at;
    assert LastIndex(body, '[') == n;
  }

  /// Reading `- <prefix> <stamp>` finds the stamp and the prefix.
  lemma ParsePrefixed(prefix: string, at: string)
    requires prefix != "" && !IsSpace(prefix[0])
    requires !IsSpace(prefix[|prefix| - 1]) && prefix[|prefix| - 1] != ','
    requires IsStamp(at)
    ensures var s := "- " + prefix + " " + at;
      Parse(s) == ParsePrefix(prefix, at, s)
  {
    var s := "- " + prefix + " " + at;
    var body := prefix + " " + at;
    assert s == "- " + body;
    DashBodyOf(body);
    DashPartsOf(prefix, at);
  }

  lemma StateFields(to: string, from: string, at: string)
    requires IsKeyword(to) && IsKeyword(from)
    ensures ParseStateChange("\"" + to + "\" from \"" + from + "\"", at)
         == LogEntry(at, Some(from), Some(to), None, None)
  {
    var rest := "\"" + to + "\" from \"" + from + "\"";
    assert rest == ("\"" + to + "\"") + " from " + ("\"" + from + "\"");
    assert ' ' !in "\"" + to + "\"";
    SplitOnceAt("\"" + to + "\"", " from ", "\"" + from + "\"");
    QuotedText(to);
    QuotedText(from);
  }

  /// A line the fields of `e` spell is not kept beside them.
  lemma KeepsFields(e: LogEntry, s: string)
    requires e.raw == None && Render(e) == s
    requires s != "" && s[|s| - 1] != '\n' && s[|s| - 1] != '\r'
    ensures KeepingLine(e, s) == e
  {
    SpellsIsConcat(FieldPieces(e), s);
  }

  /// An entry whose fields its own line spells is read back from that line.
  lemma FieldsReadBack(e: LogEntry, prefix: string)
    requires prefix != "" && !IsSpace(prefix[0]) && prefix[|prefix| - 1] == '"'
    requires IsStamp(e.timestamp) && e.raw == None
    requires Render(e) == "- " + prefix + " " + e.timestamp
    requires ("State " <= prefix && ParseStateChange(prefix[6..], e.timestamp) == e)
          || (!("State " <= prefix) && "Note:" <= prefix && ParseNote(prefix[5..], e.timestamp) == e)
    ensures Parse(Render(e)) == e
  {
    hide DashBody, DashParts, ParseStateChange, ParseNote, FieldPieces, KeepingLine, ParseDash;
    ParsePrefixed(prefix, e.timestamp);
    KeepsFields(e, Render(e));
  }

  /// A state change as the tracker logs it reads back field for field.
  lemma StateChangeReadsBack(to: string, from: string, at: string)
    requires IsKeyword(to) && IsKeyword(from) && IsStamp(at)
    ensures var e := LogEntry(at, Some(from), Some(to), None, None);
      Parse(Render(e)) == e
  {
    var e := LogEntry(at, Some(from), Some(to), None, None);
    var rest := "\"" + to + "\" from \"" + from + "\"";
    var prefix := "State " + rest;
    hide Parse, ParseStateChange, FieldPieces, Concat;
    StateChangeText(to, from, at);
    assert prefix == "State \"" + to + "\" from \"" + from + "\"";
    assert prefix[6..] == rest;
    StateFields(to, from, at);
    FieldsReadBack(e, prefix);
  }

  lemma Concat4(a: string, b: string, c: string, d: string)
    ensures Concat([a, b, c, d]) == a + b + c + d
  {
    assert Concat([d]) == d;
    assert Concat([c, d]) == c + d;
    assert [b, c, d][1..] == [c, d];
    assert [a, b, c, d][1..] == [b, c, d];
  }

  lemma Regroup(a: string, b: string, to: string, mid: string, from: string, q: string, sp: string, at: string)
    ensures Concat([a + b, to, mid, from, q + sp, at]) == a + (b + to + mid + from + q) + sp + at
  {
    Concat4(mid, from, q + sp, at);
    var tail := [mid, from, q + sp, at];
    assert ([to] + tail)[1..] == tail;
    assert Concat([to] + tail) == to + Concat(tail);
    var p := [a + b, to, mid, from, q + sp, at];
    assert p[1..] == [to] + tail;
    assert Concat(p) == (a + b) + Concat([to] + tail);
  }

  lemma StateChangeText(to: string, from: string, at: string)
    ensures Render(LogEntry(at, Some(from), Some(to), None, None))
         == "- " + ("State \"" + to + "\" from \"" + from + "\"") + " " + at
  {
    hide Concat;
    assert "- State \"" == "- " + "State \"";
    assert "\" " == "\"" + " ";
    Regroup("- ", "State \"", to, "\" from \"", from, "\"", " ", at);
  }

  lemma NoteText(note: string, at: string)
    ensures Render(LogEntry(at, None, None, Some(note), None)) == "- " + ("Note: \"" + note + "\"") + " " + at
  {
    Concat4("- Note: \"", note, "\" ", at);
  }

  lemma QuotedNote(note: string)
    requires IsNoteText(note)
    ensures Quoted(" " + ("\"" + note + "\"")) == note
  {
    var q := "\"" + note + "\"";
    assert (" " + q)[1..] == q;
    QuotedText(note);
    assert TrimStart(" " + q) == TrimStart(q);
  }

  lemma {:induction false} NoLeading(s: string, c: char)
    ensures TrimStartOf(s, c) == "" || TrimStartOf(s, c)[0] != c
    decreases |s|
  {
    if s != "" && s[0] == c { NoLeading(s[1..], c); }
  }

  lemma {:induction false} NoTrailing(s: string, c: char)
    ensures var t := TrimEndOf(s, c); t <= s && (t == "" || t[|t| - 1] != c)
    decreases |s|
  {
    if s != "" && s[|s| - 1] == c { NoTrailing(s[..|s| - 1], c); }
  }

  /// A note that was read neither starts nor ends with a quote.
  lemma ReadNoteIsBare(s: string)
    ensures var n := Parse(s).note; n.Some? ==> n.value != "" && n.value[0] != '"' && n.value[|n.value| - 1] != '"'
  {
    hide DashBody, DashParts, Spells, Bare, SplitOnce, TrimStartOf, TrimEndOf, Trim, FieldPieces;
    forall t ensures var q := Quoted(t); q == "" || (q[0] != '"' && q[|q| - 1] != '"') {
      NoLeading(Trim(t), '"');
      NoTrailing(TrimStartOf(Trim(t), '"'), '"');
    }
  }

  /// A note as the tracker logs it reads back field for field exactly when it
  /// is not empty and no quote stands at either end of it.
  lemma NoteReadsBack(note: string, at: string)
    requires OneLine(note) && IsStamp(at)
    ensures var e := LogEntry(at, None, None, Some(note), None);
      Parse(Render(e)) == e <==> IsNoteText(note)
  {
    var e := LogEntry(at, None, None, Some(note), None);
    ReadNoteIsBare(Render(e));
    hide Parse, Render, IsStamp;
    if IsNoteText(note) {
      PlainNoteReadsBack(note, at);
    }
  }

  lemma PlainNoteReadsBack(note: string, at: string)
    requires IsNoteText(note) && IsStamp(at)
    ensures var e := LogEntry(at, None, None, Some(note), None);
      Parse(Render(e)) == e
  {
    var e := LogEntry(at, None, None, Some(note), None);
    var rest := " " + ("\"" + note + "\"");
    var prefix := "Note:" + rest;
    hide Parse, FieldPieces, Concat, Trim;
    NoteText(note, at);
    QuotedNote(note);
    assert prefix == "Note: \"" + note + "\"";
    assert prefix[5..] == rest && rest[1..] == "\"" + note + "\"";
    assert !("State " <= prefix) by { assert prefix[0] == 'N'; }
    FieldsReadBack(e, prefix);
  }

  // ---- notes with quotes at an end ----

  lemma {:induction false} TrimStartOfLast(s: string, c: char)
    ensures TrimStartOf(s + [c], c) == if TrimStartOf(s, c) == "" then "" else TrimStartOf(s, c) + [c]
  {
    if s == "" {
      assert TrimStartOf([c], c) == TrimStartOf([c][1..], c) == "";
    } else {
      assert (s + [c])[1..] == s[1..] + [c];
      if s[0] == c { TrimStartOfLast(s[1..], c); }
    }
  }

  lemma QuotesAround(s: string, c: char)
    ensures TrimOf([c] + s + [c], c) == TrimOf(s, c)
  {
    var t := TrimStartOf(s, c);
    assert ([c] + s + [c])[1..] == s + [c];
    TrimStartOfLast(s, c);
    if t != "" {
      assert (t + [c])[..|t|] == t;
    }
  }

  lemma QuotedAny(note: string)
    ensures Quoted(" " + ("\"" + note + "\"")) == TrimOf(note, '"')
  {
    var q := "\"" + note + "\"";
    assert (" " + q)[1..] == q;
    TrimNothing(q);
    assert TrimStart(" " + q) == TrimStart(q) == q;
    QuotesAround(note, '"');
  }

  lemma {:induction false} StartTrimmed(s: string, c: char)
    ensures |TrimStartOf(s, c)| <= |s|
    ensures s != "" && s[0] == c ==> |TrimStartOf(s, c)| < |s|
  {
    if s != "" && s[0] == c { StartTrimmed(s[1..], c); }
  }

  lemma QuotesGone(note: string)
    requires OneLine(note) && !IsNoteText(note)
    ensures note == "" || |TrimOf(note, '"')| < |note|
  {
    var t := TrimStartOf(note, '"');
    StartTrimmed(note, '"');
    NoTrailing(t, '"');
    if note != "" && note[0] != '"' {
      assert t == note && |TrimEndOf(t, '"')| <= |t|;
      assert |TrimEndOf(t, '"')| == |t| ==> TrimEndOf(t, '"') == t;
    }
  }

  function QuotedPart(note: string): string {
    " " + ("\"" + note + "\"")
  }

  function Unquoted(note: string, at: string): LogEntry {
    var less := TrimOf(note, '"');
    LogEntry(at, None, None, if less == "" then None else Some(less), None)
  }

  /// What is left of a note is spelled in fewer characters than its line.
  lemma SpelledShorter(note: string, at: string)
    requires OneLine(note) && !IsNoteText(note)
    ensures |Concat(FieldPieces(Unquoted(note, at)))| < |Render(LogEntry(at, None, None, Some(note), None))|
  {
    var p := Unquoted(note, at);
    QuotesGone(note);
    NoteText(note, at);
    if p.note.Some? {
      NoteText(p.note.value, at);
    } else {
      assert Concat(["- ", at]) == "- " + Concat([at]) && Concat([at]) == at;
    }
  }

  lemma KeepsLine(e: LogEntry, line: string)
    requires e.raw == None && |Concat(FieldPieces(e))| < |line|
    requires line != "" && line[|line| - 1] == ']'
    ensures KeepingLine(e, line) == e.(raw := Some(line))
  {
    hide Concat, FieldPieces;
    SpellsIsConcat(FieldPieces(e), Bare(line));
  }

  lemma NotePrefix(note: string, at: string, s: string)
    ensures ParsePrefix("Note:" + QuotedPart(note), at, s) == KeepingLine(Unquoted(note, at), s)
  {
    var (rest, prefix) := (QuotedPart(note), "Note:" + QuotedPart(note));
    assert prefix[0] == 'N' && "State "[0] == 'S';
    assert prefix[5..] == rest;
    QuotedAny(note);
    hide Quoted, KeepingLine, TrimOf;
  }

  /**
   Any one-line note comes back: as it was when no quote stands at either end,
   else as what is between its outer quotes, with the line that was written
   kept beside it so that it is written the same again.
   */
  lemma NoteReadsAs(note: string, at: string)
    requires OneLine(note) && IsStamp(at)
    ensures var (e, less) := (LogEntry(at, None, None, Some(note), None), TrimOf(note, '"'));
      Parse(Render(e)) ==
        if IsNoteText(note) then e
        else LogEntry(at, None, None, if less == "" then None else Some(less), Some(Render(e)))
  {
    var e := LogEntry(at, None, None, Some(note), None);
    if IsNoteText(note) {
      PlainNoteReadsBack(note, at);
    } else {
      SpelledShorter(note, at);
      NoteText(note, at);
      hide *;
      var (line, prefix) := (Render(e), "Note:" + QuotedPart(note));
      NoteLine(note, at);
      ParsePrefixed(prefix, at);
      NotePrefix(note, at, line);
      UnquotedHasNoRaw(note, at);
      KeepsLine(Unquoted(note, at), line);
    }
  }

  lemma NoteLine(note: string, at: string)
    requires IsStamp(at)
    ensures var (line, prefix) := (Render(LogEntry(at, None, None, Some(note), None)), "Note:" + QuotedPart(note));
      && line == "- " + prefix + " " + at && line[|line| - 1] == ']'
      && prefix[0] == 'N' && !IsSpace(prefix[0]) && prefix[|prefix| - 1] == '"' && !IsSpace('"')
  {
    NoteText(note, at);
    hide Render;
    assert "Note:" + QuotedPart(note) == "Note: \"" + note + "\"";
  }

  lemma UnquotedHasNoRaw(note: string, at: string)
    ensures var (p, less) := (Unquoted(note, at), TrimOf(note, '"'));
      p.raw == None && p == LogEntry(at, None, None, if less == "" then None else Some(less), None)
  {
  }
}
