/**
 A project's ledger directory: one append-only file an issue (`commit`,
 `load`, `split_log`, `header_bytes`, `file_name`,
 `crates/vissue-core/src/ledger.rs`). A directory is a map from file name to
 text; the lock makes a commit one step.
 */
module LedgerStore {
  import opened Base
  import opened Text
  import opened Order
  import opened Issue
  import opened MergeSets
  import opened Records
  import opened Ledger
  import opened LedgerLaws

  // ---- file names ----

  predicate IsBytes(s: string) {
    forall i :: 0 <= i < |s| ==> s[i] as int < 256
  }

  predicate IsPlainNameChar(c: char) {
    'a' <= c <= 'z' || 'A' <= c <= 'Z' || '0' <= c <= '9' || c == '-' || c == '_' || c == '.'
  }

  function HexDigit(n: nat): char
    requires n < 16
  {
    if n < 10 then ('0' as int + n) as char else ('A' as int + n - 10) as char
  }

  function NameOf(c: char): string {
    if IsPlainNameChar(c) then [c]
    else ['%', HexDigit(c as int / 16 % 16), HexDigit(c as int % 16)]
  }

  function Stem(id: string): string {
    if id == "" then "" else NameOf(id[0]) + Stem(id[1..])
  }

  function FileName(id: string): string {
    Stem(id) + ".org"
  }

  lemma NameOfInjective(a: char, b: char, s: string, t: string)
    requires a as int < 256 && b as int < 256
    requires NameOf(a) + s == NameOf(b) + t
    ensures a == b && s == t
  {
    var (x, y) := (NameOf(a) + s, NameOf(b) + t);
    assert x[0] == NameOf(a)[0] && y[0] == NameOf(b)[0];
    assert x[|NameOf(a)|..] == s && y[|NameOf(b)|..] == t;
    if !IsPlainNameChar(a) && !IsPlainNameChar(b) {
      assert x[1] == NameOf(a)[1] && y[1] == NameOf(b)[1];
      assert x[2] == NameOf(a)[2] && y[2] == NameOf(b)[2];
      HexInjective(a as int, b as int);
    }
  }

  lemma HexInjective(a: nat, b: nat)
    requires a < 256 && b < 256
    requires HexDigit(a / 16 % 16) == HexDigit(b / 16 % 16) && HexDigit(a % 16) == HexDigit(b % 16)
    ensures a == b
  {
  }

  lemma {:induction false} StemInjective(a: string, b: string)
    requires IsBytes(a) && IsBytes(b) && Stem(a) == Stem(b)
    ensures a == b
  {
    if a != "" && b != "" {
      NameOfInjective(a[0], b[0], Stem(a[1..]), Stem(b[1..]));
      StemInjective(a[1..], b[1..]);
      assert a == [a[0]] + a[1..] && b == [b[0]] + b[1..];
    }
  }

  /// Two ids never share a file.
  lemma FileNameInjective(a: string, b: string)
    requires IsBytes(a) && IsBytes(b) && FileName(a) == FileName(b)
    ensures a == b
  {
    assert Stem(a) == FileName(a)[..|FileName(a)| - 4];
    assert Stem(b) == FileName(b)[..|FileName(b)| - 4];
    StemInjective(a, b);
  }

  function HexValue(c: char): int {
    if '0' <= c <= '9' then c as int - '0' as int else if 'A' <= c <= 'F' then c as int - 'A' as int + 10 else 0
  }

  /// A name with its escapes undone.
  function Unescaped(s: string): string
    decreases |s|
  {
    if s == "" then ""
    else if s[0] == '%' && |s| >= 3 then [(16 * HexValue(s[1]) + HexValue(s[2])) as char] + Unescaped(s[3..])
    else [s[0]] + Unescaped(s[1..])
  }

  lemma ByteUnescaped(c: char, rest: string)
    requires c as int < 256
    ensures Unescaped(NameOf(c) + rest) == [c] + Unescaped(rest)
  {
    var s := NameOf(c) + rest;
    if IsPlainNameChar(c) {
      assert s[0] == c && s[1..] == rest;
    } else {
      var n := c as int;
      assert n / 16 % 16 == n / 16 && 16 * (n / 16) + n % 16 == n;
      assert s[0] == '%' && s[1] == HexDigit(n / 16 % 16) && s[2] == HexDigit(n % 16) && s[3..] == rest;
    }
  }

  /// The name of a file tells the id, and a plain id is its own name.
  lemma {:induction false} NameTellsTheId(id: string)
    requires IsBytes(id)
    ensures Unescaped(Stem(id)) == id
    ensures (forall i :: 0 <= i < |id| ==> IsPlainNameChar(id[i])) ==> FileName(id) == id + ".org"
  {
    if id != "" {
      ByteUnescaped(id[0], Stem(id[1..]));
      NameTellsTheId(id[1..]);
      assert id == [id[0]] + id[1..];
      assert Stem(id[1..]) == FileName(id[1..])[..|Stem(id[1..])|];
    }
  }

  /// A file the reader of a directory takes up.
  predicate Listed(name: string) {
    name != "" && name[0] != '.' && |name| >= 4 && name[|name| - 4..] == ".org"
  }

  /// A file a commit makes is listed exactly when its id is not empty and does
  /// not begin with a dot.
  lemma ListedExactly(id: string)
    ensures Listed(FileName(id)) <==> id != "" && id[0] != '.'
  {
    var name := FileName(id);
    assert name[|name| - 4..] == ".org";
    if id != "" {
      assert Stem(id) == NameOf(id[0]) + Stem(id[1..]) && name[0] == NameOf(id[0])[0];
    } else {
      assert name == ".org";
    }
  }

  // ---- header and log ----

  const LOG_LINE := "#+VISSUE_LEDGER_LOG:"
  const LOG_MARK := "\n" + LOG_LINE + "\n"

  function SplitLog(source: string): (string, string) {
    match SplitOnce(source, LOG_MARK)
    case Some((left, log)) => (left, log)
    case None => (source, "")
  }

  /// Whether `pat` stands somewhere in `s`.
  predicate Occurs(pat: string, s: string) {
    pat <= s || (s != "" && Occurs(pat, s[1..]))
  }

  predicate OnlyOuterNewlines(pat: string) {
    |pat| >= 2 && pat[0] == '\n' && pat[|pat| - 1] == '\n' && forall i :: 0 < i < |pat| - 1 ==> pat[i] != '\n'
  }

  /// The mark is no front of `head`, a newline and whatever follows, unless it
  /// is a front of `head` and that newline.
  lemma MarkAtFront(head: string, pat: string, log: string)
    requires OnlyOuterNewlines(pat) && head != ""
    ensures pat <= head + pat + log <==> pat <= head + "\n"
  {
    var s := head + pat + log;
    assert s[..|head| + 1] == head + "\n";
    if |pat| <= |head| + 1 {
      assert s[..|pat|] == (head + "\n")[..|pat|];
    } else {
      assert s[|head|] == '\n' && pat[|head|] != '\n';
    }
  }

  /// A text is split at the mark that was put into it exactly when the mark
  /// is not already in the text before it.
  lemma {:induction false} SplitAtMark(head: string, pat: string, log: string)
    requires OnlyOuterNewlines(pat)
    ensures SplitOnce(head + pat + log, pat) == Some((head, log)) <==> !Occurs(pat, head + "\n")
  {
    var s := head + pat + log;
    if head == "" {
      assert s == pat + log;
      assert s[|pat|..] == log;
      assert !(pat <= "\n") && !(pat <= "");
      assert "\n"[1..] == "";
    } else {
      var t := head[1..] + pat + log;
      assert s[1..] == t && s[0] == head[0];
      assert (head + "\n")[1..] == head[1..] + "\n";
      SplitAtMark(head[1..], pat, log);
      MarkAtFront(head, pat, log);
      if !(pat <= s) {
        assert head == [head[0]] + head[1..];
        var r := SplitOnce(t, pat);
        if r.Some? {
          assert SplitOnce(s, pat) == Some(([s[0]] + r.value.0, r.value.1));
          assert ([s[0]] + r.value.0)[1..] == r.value.0;
        }
      }
    }
  }

  lemma MarkShape()
    ensures OnlyOuterNewlines(LOG_MARK)
  {
    assert |LOG_MARK| == 22;
    assert '\n' !in LOG_LINE;
    forall i | 0 < i < |LOG_MARK| - 1 ensures LOG_MARK[i] != '\n' { assert LOG_MARK[i] == LOG_LINE[i - 1]; }
  }

  /// The header of a new file, less the line that opens the log.
  function HeaderLeft(preamble: string, rendered: string): string {
    var p := TrimEnd(preamble);
    var start := (if Trim(preamble) == "" then 0 else |LinesOf(p)| + 1) + 3;
    var count := if |LinesOf(rendered)| < 1 then 1 else |LinesOf(rendered)|;
    (if p == "" then "" else p + "\n\n")
    + "#+VISSUE_LEDGER:\n"
    + "#+VISSUE_LINES: " + Decimal(start) + " " + Decimal(start + count - 1) + "\n"
    + (if rendered != "" && rendered[|rendered| - 1] == '\n' then rendered[..|rendered| - 1] else rendered)
  }

  function HeaderText(preamble: string, rendered: string): string {
    HeaderLeft(preamble, rendered) + LOG_MARK
  }

  /// Writing and reading the text of an issue: `render`, the reader of a
  /// header and the reader of a `replace` payload.
  datatype Codec = Codec(render: Heading -> string, readFile: string -> Option<Heading>, readReplace: string -> Option<Heading>)

  /// A file folded to its issue; `None` when it does not read.
  function ReadFile(c: Codec, text: string): Option<Folded> {
    var (left, log) := SplitLog(text);
    match c.readFile(left)
    case None => None
    case Some(h) => FoldLog(h, log, c.readReplace)
  }

  // ---- a commit ----

  function WantAt(doc: seq<Heading>, id: string): Option<Heading> {
    if doc == [] then None
    else if doc[0].id == id then Some(doc[0])
    else WantAt(doc[1..], id)
  }

  /// The records a commit adds to the file of one issue.
  function RecordsFor(c: Codec, f: Folded, want: Option<Heading>): seq<Record> {
    match want
    case Some(h) => if f.tombstoned then [Record("replace", c.render(h))] else Diff(f.heading, h)
    case None => if f.tombstoned then [] else [Record("tombstone", "")]
  }

  type Files = map<string, string>

  function AppendedTo(c: Codec, text: string, doc: seq<Heading>): string {
    match ReadFile(c, text)
    case None => text
    case Some(f) => text + Encode(RecordsFor(c, f, WantAt(doc, f.heading.id)))
  }

  function NewNames(files: Files, doc: seq<Heading>): set<string> {
    set h | h in doc && FileName(h.id) !in files :: FileName(h.id)
  }

  /// The heading of `doc` whose file is `name`.
  function OwnerOf(doc: seq<Heading>, name: string): Option<Heading> {
    if doc == [] then None
    else if FileName(doc[0].id) == name then Some(doc[0])
    else OwnerOf(doc[1..], name)
  }

  function NewText(c: Codec, preamble: string, doc: seq<Heading>, name: string): string {
    match OwnerOf(doc, name)
    case None => ""
    case Some(h) => HeaderText(preamble, c.render(h))
  }

  /// The directory after a commit of `doc`.
  function Committed(c: Codec, preamble: string, files: Files, doc: seq<Heading>): Files {
    map name | name in files.Keys + NewNames(files, doc) ::
      if name !in files then NewText(c, preamble, doc, name)
      else if Listed(name) then AppendedTo(c, files[name], doc)
      else files[name]
  }

  // ---- what a directory keeps ----

  predicate DistinctIds(doc: seq<Heading>) {
    && (forall h :: h in doc ==> IsBytes(h.id))
    && (forall i, j :: 0 <= i < j < |doc| ==> doc[i].id != doc[j].id)
  }

  /// How a commit finds the file of an issue.
  datatype FileState = Absent | Live | Tombstoned | Unread | Unlisted

  function StateOf(c: Codec, files: Files, id: string): FileState {
    if !Listed(FileName(id)) then Unlisted
    else if FileName(id) !in files then Absent
    else
      match ReadFile(c, files[FileName(id)])
      case None => Unread
      case Some(f) => if f.tombstoned then Tombstoned else Live
  }

  /// The issue a file folds to, should it read.
  function HeadingIn(c: Codec, files: Files, id: string): Option<Heading> {
    if FileName(id) !in files || !Listed(FileName(id)) then None
    else
      match ReadFile(c, files[FileName(id)])
      case None => None
      case Some(f) => Some(f.heading)
  }

  /// What a commit of an issue folds to: the issue itself where its file is
  /// live, and where its whole text is written, what the reader makes of that.
  function Arrival(c: Codec, preamble: string, files: Files, h: Heading): Option<Heading> {
    match StateOf(c, files, h.id)
    case Absent => c.readFile(HeaderLeft(preamble, c.render(h)))
    case Tombstoned => c.readReplace(c.render(h))
    case Live => Some(h)
    case Unread => None
    case Unlisted => None
  }

  /// The reader makes an issue of that id of it, its keys on one line each.
  predicate ReadsAs(read: Option<Heading>, id: string) {
    && read.Some? && read.value.id == id && Get(read.value.properties, "ID") == Some(id)
    && forall k :: k in read.value.properties ==> OneLine(k)
  }

  /// An issue a commit can take: of a live one only the difference is written,
  /// and records must carry what changed; of any other the whole text.
  ghost predicate Acceptable(c: Codec, preamble: string, files: Files, h: Heading) {
    && ReadsAs(Arrival(c, preamble, files, h), h.id)
    && (StateOf(c, files, h.id).Live? ==> CarriedOver(HeadingIn(c, files, h.id).value, h))
    && (StateOf(c, files, h.id).Absent? ==> !Occurs(LOG_MARK, HeaderLeft(preamble, c.render(h)) + "\n"))
  }

  ghost predicate GoodCommit(c: Codec, preamble: string, files: Files, doc: seq<Heading>) {
    DistinctIds(doc) && forall h :: h in doc ==> Acceptable(c, preamble, files, h)
  }

  /// What every fold of a file keeps of the issue it is for.
  predicate Keeps(f: Folded, id: string) {
    && f.heading.id == id && Get(f.heading.properties, "ID") == Some(id)
    && forall k :: k in f.heading.properties ==> OneLine(k)
  }

  /// A file as commits leave it: a header, and a log of whole records that
  /// folds to the issue it is named after.
  ghost predicate GoodFile(c: Codec, name: string, text: string) {
    exists left, rs, h, f :: FileParts(c, name, text, left, rs, h, f)
  }

  ghost predicate FileParts(c: Codec, name: string, text: string, left: string, rs: seq<Record>, h: Heading, f: Folded) {
    && text == left + LOG_MARK + Encode(rs)
    && !Occurs(LOG_MARK, left + "\n")
    && AllWritable(rs)
    && c.readFile(left) == Some(h)
    && FoldRecords(Folded(h, false, []), rs, c.readReplace) == Some(f)
    && IsBytes(f.heading.id) && name == FileName(f.heading.id)
    && Keeps(f, f.heading.id)
  }

  ghost predicate GoodDir(c: Codec, files: Files) {
    forall name :: name in files && Listed(name) ==> GoodFile(c, name, files[name])
  }

  lemma LogRead(c: Codec, left: string, rs: seq<Record>, h: Heading, f: Folded)
    requires !Occurs(LOG_MARK, left + "\n") && AllWritable(rs) && c.readFile(left) == Some(h)
    requires FoldRecords(Folded(h, false, []), rs, c.readReplace) == Some(f)
    ensures ReadFile(c, left + LOG_MARK + Encode(rs)) == Some(f)
  {
    hide Occurs, OnlyOuterNewlines, FoldItems, Items, Encode, AllWritable;
    MarkShape();
    SplitAtMark(left, LOG_MARK, Encode(rs));
    RecordsReadBack(rs, "");
    NothingToRead();
    assert Encode(rs) + "" == Encode(rs) && AsItems(rs) + [] == AsItems(rs);
  }

  lemma FilePartsRead(c: Codec, name: string, text: string, left: string, rs: seq<Record>, h: Heading, f: Folded)
    requires FileParts(c, name, text, left, rs, h, f)
    ensures ReadFile(c, text) == Some(f)
  {
    hide Occurs, FoldRecords, Encode, AllWritable, Keeps, ReadFile;
    LogRead(c, left, rs, h, f);
  }

  /// Records appended to a good file are read after those it has.
  lemma AppendReads(c: Codec, name: string, text: string, rs: seq<Record>, g: Folded)
    requires GoodFile(c, name, text) && AllWritable(rs)
    requires ReadFile(c, text).Some? && FoldRecords(ReadFile(c, text).value, rs, c.readReplace) == Some(g)
    ensures ReadFile(c, text + Encode(rs)) == Some(g)
  {
    hide Occurs, FoldItems, FoldRecords, Encode, ReadFile, OneLine, FileName, Keeps;
    var left, log, h, f :| FileParts(c, name, text, left, log, h, f);
    FilePartsRead(c, name, text, left, log, h, f);
    EncodeConcat(log, rs);
    FoldRecordsConcat(Folded(h, false, []), log, rs, c.readReplace);
    assert text + Encode(rs) == left + LOG_MARK + Encode(log + rs);
    LogRead(c, left, log + rs, h, g);
  }

  /// Appending records to a good file folds them into its issue.
  lemma AppendKeepsGood(c: Codec, name: string, text: string, rs: seq<Record>, g: Folded)
    requires GoodFile(c, name, text) && AllWritable(rs)
    requires ReadFile(c, text).Some? && FoldRecords(ReadFile(c, text).value, rs, c.readReplace) == Some(g)
    requires Keeps(g, ReadFile(c, text).value.heading.id)
    ensures GoodFile(c, name, text + Encode(rs)) && ReadFile(c, text + Encode(rs)) == Some(g)
  {
    hide Occurs, FoldItems, FoldRecords, Encode, ReadFile, OneLine, FileName;
    var left, log, h, f :| FileParts(c, name, text, left, log, h, f);
    FilePartsRead(c, name, text, left, log, h, f);
    EncodeConcat(log, rs);
    FoldRecordsConcat(Folded(h, false, []), log, rs, c.readReplace);
    assert text + Encode(rs) == left + LOG_MARK + (Encode(log) + Encode(rs));
    assert FileParts(c, name, text + Encode(rs), left, log + rs, h, g);
    FilePartsRead(c, name, text + Encode(rs), left, log + rs, h, g);
  }

  lemma {:induction false} LogRecordsWritable(entries: seq<LogEntry>)
    ensures AllWritable(LogRecords(entries))
  {
    hide LogLine.Render;
    if entries != [] {
      LogRecordsWritable(entries[1..]);
    }
  }

  lemma {:induction false} PropSetsWritable(keys: seq<string>, was: Table, now: Table)
    ensures AllWritable(PropSets(keys, was, now))
  {
    if keys != [] {
      PropSetsWritable(keys[1..], was, now);
    }
  }

  lemma {:induction false} PropDelsWritable(keys: seq<string>, now: Table)
    ensures AllWritable(PropDels(keys, now))
  {
    if keys != [] {
      PropDelsWritable(keys[1..], now);
    }
  }

  lemma WritableConcat(s: seq<Record>, t: seq<Record>)
    requires AllWritable(s) && AllWritable(t)
    ensures AllWritable(s + t)
  {
  }

  lemma DiffLogWritable(was: seq<LogEntry>, now: seq<LogEntry>)
    ensures AllWritable(DiffLog(was, now))
  {
    hide LogRecords, Rendered, Terminated;
    if |now| >= |was| {
      LogRecordsWritable(now[..|now| - |was|]);
    }
  }

  lemma DiffFieldsWritable(was: Heading, now: Heading)
    ensures AllWritable(DiffScalars(was, now)) && AllWritable(DiffTexts(was, now))
  {
    OpsAreTokens();
    hide JoinNl, ConcatAll, IsToken;
    WhenWritable(was.state != now.state, "state", now.state);
    WhenWritable(was.priority != now.priority, "priority", [now.priority]);
    WhenWritable(was.title != now.title, "title", now.title);
    WhenWritable(was.statistics != now.statistics, "statistics", now.statistics.GetOr(""));
    WhenWritable(was.orgTags != now.orgTags, "org-tags", JoinNl(now.orgTags));
    WhenWritable(was.extraDrawers != now.extraDrawers, "drawers", ConcatAll(now.extraDrawers));
    WhenWritable(was.body != now.body, "body", now.body);
    hide AllWritable, When;
  }

  lemma OpsAreTokens()
    ensures IsToken("state") && IsToken("priority") && IsToken("title") && IsToken("statistics") && IsToken("org-tags")
    ensures IsToken("drawers") && IsToken("body")
  {
  }

  lemma WhenWritable(changed: bool, op: string, payload: string)
    requires IsToken(op)
    ensures AllWritable(When(changed, op, payload))
  {
  }

  lemma DiffPropsWritable(was: Table, now: Table)
    ensures AllWritable(DiffProps(was, now))
  {
    hide PropSets, PropDels, Sorted, Writable;
    PropSetsWritable(Sorted(now.Keys), was, now);
    PropDelsWritable(Sorted(was.Keys), now);
  }

  lemma DiffWritable(was: Heading, now: Heading)
    ensures AllWritable(Diff(was, now))
  {
    hide AllWritable, DiffScalars, DiffTexts, DiffProps, DiffLog;
    DiffFieldsWritable(was, now);
    DiffPropsWritable(was.properties, now.properties);
    DiffLogWritable(was.logbook, now.logbook);
    var (r1, r2, r3, r4) := (DiffScalars(was, now), DiffProps(was.properties, now.properties), DiffTexts(was, now),
                             DiffLog(was.logbook, now.logbook));
    WritableConcat(r1, r2);
    WritableConcat(r1 + r2, r3);
    WritableConcat(r1 + r2 + r3, r4);
  }
}
