/**
 Folding the records of a ledger file into an issue, and writing the records
 that turn one issue into another (`apply_one`, `push_diff`, `push_props`,
 `push_log_diff`, `crates/vissue-core/src/ledger.rs`).
 */
module Ledger {
  import opened Base
  import opened Text
  import opened Order
  import opened Issue
  import opened Records
  import LogLine

  // ---- folding ----

  /// What a log folds to: the issue, whether it ends removed, and the records
  /// with an op this reader does not know, as written.
  datatype Folded = Folded(heading: Heading, tombstoned: bool, unknown: seq<string>)

  function SplitDrawers(lines: seq<string>, current: string): seq<string>
    decreases |lines|
  {
    if lines == [] then (if Trim(current) == "" then [] else [current])
    else
      var next := current + lines[0] + "\n";
      if SameNoCase(Trim(lines[0]), ":END:") then [next] + SplitDrawers(lines[1..], "")
      else SplitDrawers(lines[1..], next)
  }

  function ParseLines(lines: seq<string>): seq<LogEntry> {
    if lines == [] then []
    else (if Trim(lines[0]) == "" then [] else [LogLine.Parse(lines[0])]) + ParseLines(lines[1..])
  }

  function Retain(keys: seq<string>, gone: string): seq<string> {
    if keys == [] then [] else (if keys[0] == gone then [] else [keys[0]]) + Retain(keys[1..], gone)
  }

  /// The fields an op sets on its own; `None` for an op not among them.
  function ApplyField(h: Heading, op: string, payload: string): Option<Heading> {
    if op == "state" then Some(h.(state := payload))
    else if op == "priority" then Some(if payload == "" then h else h.(priority := payload[0]))
    else if op == "title" then Some(h.(title := payload))
    else if op == "statistics" then Some(h.(statistics := if payload == "" then None else Some(payload)))
    else if op == "org-tags" then Some(h.(orgTags := if payload == "" then [] else LinesOf(payload)))
    else if op == "body" then Some(h.(body := payload))
    else if op == "drawers" then Some(h.(extraDrawers := SplitDrawers(LinesOf(payload), "")))
    else None
  }

  function ApplyLog(h: Heading, op: string, payload: string): Option<Heading> {
    if op == "log" then Some(h.(logbook := [LogLine.Parse(payload)] + h.logbook))
    else if op == "log-set" then Some(h.(logbook := ParseLines(LinesOf(payload))))
    else None
  }

  function SetProperty(h: Heading, key: string, value: string): Heading {
    h.(properties := h.properties[key := value],
       propertyOrder := if key in h.propertyOrder then h.propertyOrder else h.propertyOrder + [key])
  }

  function DropProperty(h: Heading, key: string): Heading {
    h.(properties := h.properties - {key}, propertyOrder := Retain(h.propertyOrder, key))
  }

  /// One record folded; `None` when the fold fails.
  function Apply(f: Folded, r: Record, text: string, readReplace: string -> Option<Heading>): Option<Folded> {
    var field := ApplyField(f.heading, r.op, r.payload);
    var log := ApplyLog(f.heading, r.op, r.payload);
    if field.Some? then Some(f.(heading := field.value))
    else if log.Some? then Some(f.(heading := log.value))
    else if r.op == "tombstone" then Some(f.(tombstoned := true))
    else if r.op == "replace" then
      match readReplace(r.payload)
      case None => None
      case Some(h) =>
        Some(f.(tombstoned := false,
                heading := h.(lineStart := f.heading.lineStart, lineEnd := f.heading.lineEnd)))
    else if r.op == "prop" then
      match SplitOnce(r.payload, "\n")
      case None => None
      case Some((key, value)) => Some(f.(heading := SetProperty(f.heading, key, value)))
    else if r.op == "prop-del" then Some(f.(heading := DropProperty(f.heading, r.payload)))
    else Some(f.(unknown := f.unknown + [text]))
  }

  /// Entries of an old drawer go in front, in order, those not there already.
  function ApplyDrawer(log: seq<LogEntry>, entries: seq<LogEntry>): seq<LogEntry> {
    if entries == [] then log
    else
      var rest := ApplyDrawer(log, entries[1..]);
      if entries[0] in rest then rest else [entries[0]] + rest
  }

  function ApplyItem(f: Folded, item: Item, readReplace: string -> Option<Heading>): Option<Folded> {
    match item
    case Rec(op, payload, text) => Apply(f, Record(op, payload), text, readReplace)
    case LegacyDrawer(entries) => Some(f.(heading := f.heading.(logbook := ApplyDrawer(f.heading.logbook, entries))))
  }

  function FoldItems(f: Folded, items: seq<Item>, readReplace: string -> Option<Heading>): Option<Folded>
    decreases |items|
  {
    if items == [] then Some(f)
    else
      match ApplyItem(f, items[0], readReplace)
      case None => None
      case Some(g) => FoldItems(g, items[1..], readReplace)
  }

  function FoldLog(h: Heading, log: string, readReplace: string -> Option<Heading>): Option<Folded> {
    FoldItems(Folded(h, false, []), Items(log), readReplace)
  }

  lemma {:induction false} FoldConcat(f: Folded, s: seq<Item>, t: seq<Item>, readReplace: string -> Option<Heading>)
    ensures FoldItems(f, s + t, readReplace)
         == (match FoldItems(f, s, readReplace) case None => None case Some(g) => FoldItems(g, t, readReplace))
    decreases |s|
  {
    hide ApplyItem;
    if s == [] {
      assert s + t == t;
    } else {
      assert (s + t)[1..] == s[1..] + t;
      var g := ApplyItem(f, s[0], readReplace);
      if g.Some? {
        FoldConcat(g.value, s[1..], t, readReplace);
      }
    }
  }

  // ---- the records that turn one issue into another ----

  function When(changed: bool, op: string, payload: string): seq<Record> {
    if changed then [Record(op, payload)] else []
  }

  function ConcatAll(parts: seq<string>): string {
    if parts == [] then "" else parts[0] + ConcatAll(parts[1..])
  }

  function PropSets(keys: seq<string>, was: Table, now: Table): seq<Record> {
    if keys == [] then []
    else
      var k := keys[0];
      var v := Get(now, k).GetOr("");
      When(k != "ID" && Get(was, k) != Get(now, k), "prop", k + "\n" + v) + PropSets(keys[1..], was, now)
  }

  function PropDels(keys: seq<string>, now: Table): seq<Record> {
    if keys == [] then []
    else When(keys[0] != "ID" && keys[0] !in now, "prop-del", keys[0]) + PropDels(keys[1..], now)
  }

  function DiffProps(was: Table, now: Table): seq<Record> {
    PropSets(Sorted(now.Keys), was, now) + PropDels(Sorted(was.Keys), now)
  }

  function LogRecords(entries: seq<LogEntry>): seq<Record> {
    if entries == [] then [] else LogRecords(entries[1..]) + [Record("log", LogLine.Render(entries[0]))]
  }

  function Rendered(entries: seq<LogEntry>): seq<string> {
    seq(|entries|, i requires 0 <= i < |entries| => LogLine.Render(entries[i]))
  }

  /// New lines in front of the old log go out one by one, oldest first; any
  /// other change rewrites the log.
  function DiffLog(was: seq<LogEntry>, now: seq<LogEntry>): seq<Record> {
    if was == now then []
    else if |now| >= |was| && now[|now| - |was|..] == was then LogRecords(now[..|now| - |was|])
    else [Record("log-set", Terminated(Rendered(now)))]
  }

  function DiffScalars(was: Heading, now: Heading): seq<Record> {
    When(was.state != now.state, "state", now.state)
    + When(was.priority != now.priority, "priority", [now.priority])
    + When(was.title != now.title, "title", now.title)
    + When(was.statistics != now.statistics, "statistics", now.statistics.GetOr(""))
    + When(was.orgTags != now.orgTags, "org-tags", JoinNl(now.orgTags))
  }

  function DiffTexts(was: Heading, now: Heading): seq<Record> {
    When(was.extraDrawers != now.extraDrawers, "drawers", ConcatAll(now.extraDrawers))
    + When(was.body != now.body, "body", now.body)
  }

  function Diff(was: Heading, now: Heading): seq<Record> {
    DiffScalars(was, now) + DiffProps(was.properties, now.properties) + DiffTexts(was, now)
    + DiffLog(was.logbook, now.logbook)
  }

  // ---- what a record can carry ----

  /// A drawer as the parser keeps it: its lines, the last and only the last
  /// of them `:END:`.
  ghost predicate WellFormedDrawer(d: string) {
    exists ls :: DrawerLines(ls) && d == Terminated(ls)
  }

  predicate DrawerLines(ls: seq<string>) {
    && ls != [] && PlainLines(ls)
    && SameNoCase(Trim(ls[|ls| - 1]), ":END:")
    && forall i :: 0 <= i < |ls| - 1 ==> !SameNoCase(Trim(ls[i]), ":END:")
  }

  /// An issue whose every field a record can carry, the drawers aside.
  ghost predicate CarriedFields(h: Heading) {
    && h.statistics != Some("")
    && (forall t :: t in h.orgTags ==> PlainLine(t) && t != "")
    && (forall k :: k in h.properties ==> OneLine(k))
    && (forall e :: e in h.logbook ==> LogLine.ReadEntry(e))
  }

  /// An issue every field of which a record can carry.
  ghost predicate Carried(h: Heading) {
    CarriedFields(h) && forall d :: d in h.extraDrawers ==> WellFormedDrawer(d)
  }

  /// An issue of which a record can carry every field that changed.
  ghost predicate CarriedOver(was: Heading, now: Heading) {
    && (was.statistics != now.statistics ==> now.statistics != Some(""))
    && (was.orgTags != now.orgTags ==> forall t :: t in now.orgTags ==> PlainLine(t) && t != "")
    && (forall k :: k in now.properties ==> OneLine(k))
    && (was.extraDrawers != now.extraDrawers ==> forall d :: d in now.extraDrawers ==> WellFormedDrawer(d))
    && (was.logbook != now.logbook ==> forall e :: e in now.logbook ==> LogLine.ReadEntry(e))
  }

  /// The same issue but for the key order and the place in the file.
  predicate SameFields(x: Heading, y: Heading) {
    x == y.(propertyOrder := x.propertyOrder, lineStart := x.lineStart, lineEnd := x.lineEnd)
  }
}
