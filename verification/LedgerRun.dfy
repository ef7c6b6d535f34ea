/**
 The ledger's reading and writing loops as the program runs them: a byte cursor
 over the log, and records pushed onto a buffer (`apply_records`,
 `legacy_logbook`, `push_*` and `queue_*`, `crates/vissue-core/src/ledger.rs`).
 */
module LedgerRun {
  import opened Base
  import opened Text
  import opened Order
  import opened Issue
  import opened Records
  import opened Skipped
  import opened Utf8
  import opened Ledger
  import opened LedgerCatchUp
  import LogLine

  // ---- reading ----

  method SkipNewlines(log: string, start: nat) returns (index: nat)
    requires start <= |log|
    ensures start <= index <= |log| && log[index..] == DropNewlines(log[start..])
  {
    index := start;
    while index < |log| && (log[index] == '\n' || log[index] == '\r')
      invariant start <= index <= |log|
      invariant DropNewlines(log[index..]) == DropNewlines(log[start..])
    {
      index := index + 1;
    }
  }

  /// A drawer read so far, in front of what the rest of it reads to.
  function ReadOn(entries: seq<LogEntry>, n: nat, rest: Option<(seq<LogEntry>, nat)>): Option<(seq<LogEntry>, nat)> {
    match rest
    case None => None
    case Some(r) => Some((entries + r.0, n + r.1))
  }

  lemma ReadOnStart(rest: Option<(seq<LogEntry>, nat)>)
    ensures ReadOn([], 0, rest) == rest
  {
    if rest.Some? {
      assert [] + rest.value.0 == rest.value.0;
    }
  }

  lemma ReadOnTwice(es: seq<LogEntry>, n: nat, more: seq<LogEntry>, m: nat, rest: Option<(seq<LogEntry>, nat)>)
    ensures ReadOn(es, n, ReadOn(more, m, rest)) == ReadOn(es + more, n + m, rest)
  {
    if rest.Some? {
      assert es + (more + rest.value.0) == es + more + rest.value.0;
    }
  }

  lemma ReadOnLine(s: string, entries: seq<LogEntry>, n: nat)
    requires s != "" && !SameNoCase(Trim(s[..LineEnd(s)]), ":END:")
    ensures ReadOn(entries, n, DrawerRest(s))
         == ReadOn(entries + LineEntries(s[..LineEnd(s)]), n + LineEnd(s), DrawerRest(s[LineEnd(s)..]))
  {
    hide LogLine.Parse, Trim, SameNoCase, LineEnd, Bare;
    var rest := DrawerRest(s[LineEnd(s)..]);
    assert DrawerRest(s) == ReadOn(LineEntries(s[..LineEnd(s)]), LineEnd(s), rest);
    ReadOnTwice(entries, n, LineEntries(s[..LineEnd(s)]), LineEnd(s), rest);
  }

  lemma ReadOnEnd(s: string, entries: seq<LogEntry>, n: nat)
    requires s != "" && SameNoCase(Trim(s[..LineEnd(s)]), ":END:")
    ensures ReadOn(entries, n, DrawerRest(s)) == Some((entries, n + LineEnd(s)))
  {
    hide LogLine.Parse, Trim, SameNoCase, LineEnd, Bare;
    assert entries + [] == entries;
  }

  lemma ReadOnEmpty(s: string, entries: seq<LogEntry>, n: nat)
    requires s == ""
    ensures ReadOn(entries, n, DrawerRest(s)) == None
  {
  }

  function LineEntries(line: string): seq<LogEntry> {
    if Trim(Bare(line)) == "" then [] else [LogLine.Parse(Bare(line))]
  }

  /// The lines of a drawer up to `:END:`, the opening one already taken.
  method ReadDrawer(log: string, start: nat) returns (found: bool, entries: seq<LogEntry>, next: nat)
    requires start <= |log|
    ensures start <= next <= |log|
    ensures DrawerRest(log[start..]) == if found then Some((entries, next - start)) else None
  {
    hide LogLine.Parse, Trim, SameNoCase, Bare, DrawerRest, ReadOn, LineEnd;
    next, found, entries := start, false, [];
    ReadOnStart(DrawerRest(log[start..]));
    while next < |log|
      invariant start <= next <= |log|
      invariant DrawerRest(log[start..]) == ReadOn(entries, next - start, DrawerRest(log[next..]))
    {
      var rest := log[next..];
      var n := LineEnd(rest);
      var line := rest[..n];
      LineEndMoves(log, next);
      if SameNoCase(Trim(line), ":END:") {
        ReadOnEnd(rest, entries, next - start);
        next := next + n;
        found := true;
        return;
      }
      ReadOnLine(rest, entries, next - start);
      assert entries + [] == entries;
      var bare := Bare(line);
      if Trim(bare) != "" {
        entries := entries + [LogLine.Parse(bare)];
      }
      next := next + n;
    }
    ReadOnEmpty(log[next..], entries, next - start);
  }

  lemma LineEndMoves(log: string, next: nat)
    requires next < |log|
    ensures 0 < LineEnd(log[next..]) <= |log| - next
    ensures log[next..][LineEnd(log[next..])..] == log[next + LineEnd(log[next..])..]
  {
  }

  /// A closed drawer at `start`, and the index after it.
  method LegacyLogbook(log: string, start: nat) returns (found: bool, entries: seq<LogEntry>, next: nat)
    requires start < |log|
    ensures LegacyAt(log[start..]) == if found then Some((entries, next - start)) else None
    ensures start <= next <= |log| && (found ==> start < next)
  {
    hide LogLine.Parse, Trim, SameNoCase, DrawerRest;
    var s := log[start..];
    next := start + LineEnd(s);
    found, entries := false, [];
    assert s[LineEnd(s)..] == log[next..];
    if SameNoCase(Trim(s[..LineEnd(s)]), ":LOGBOOK:") {
      found, entries, next := ReadDrawer(log, next);
    }
  }

  /// Old entries put in front of the log, last first, those it lacks.
  method InsertEntries(log: seq<LogEntry>, entries: seq<LogEntry>) returns (out: seq<LogEntry>)
    ensures out == ApplyDrawer(log, entries)
  {
    out := log;
    var i := |entries|;
    while i > 0
      invariant 0 <= i <= |entries|
      invariant out == ApplyDrawer(log, entries[i..])
    {
      i := i - 1;
      assert entries[i..][1..] == entries[i + 1..];
      if entries[i] !in out {
        out := [entries[i]] + out;
      }
    }
  }

  /// The fold as the loop runs it: a payload that is not text is an error.
  function FoldChecked(f: Folded, items: seq<Item>, readReplace: string -> Option<Heading>): Option<Folded>
    decreases |items|
  {
    if items == [] then Some(f)
    else if items[0].Rec? && !IsText(items[0].payload) then None
    else
      match ApplyItem(f, items[0], readReplace)
      case None => None
      case Some(g) => FoldChecked(g, items[1..], readReplace)
  }

  lemma {:induction false} CheckedFold(f: Folded, items: seq<Item>, readReplace: string -> Option<Heading>)
    ensures FoldChecked(f, items, readReplace) == if PayloadsAreText(items) then FoldItems(f, items, readReplace) else None
    decreases |items|
  {
    hide ApplyItem, PayloadsAreText;
    if items != [] {
      var g := ApplyItem(f, items[0], readReplace);
      assert items == [items[0]] + items[1..];
      FirstPayloadText(items[0], items[1..]);
      if g.Some? { CheckedFold(g.value, items[1..], readReplace); }
    } else {
      NoPayloads(items);
    }
  }

  lemma NoPayloads(items: seq<Item>)
    ensures items == [] ==> PayloadsAreText(items)
  {
  }

  lemma CheckedFirst(f: Folded, item: Item, rest: seq<Item>, readReplace: string -> Option<Heading>)
    ensures FoldChecked(f, [item] + rest, readReplace) ==
      if item.Rec? && !IsText(item.payload) then None
      else
        var g := ApplyItem(f, item, readReplace);
        if g.None? then None else FoldChecked(g.value, rest, readReplace)
  {
    hide IsText, ApplyItem;
    assert ([item] + rest)[1..] == rest;
  }

  lemma NothingChecked(f: Folded, readReplace: string -> Option<Heading>)
    ensures FoldChecked(f, [], readReplace) == Some(f)
  {
  }

  /// What is still to be said from `index` on.
  function ToSay(log: string, logLine: nat, index: nat): seq<Warning>
    requires index <= |log|
  {
    WarningsAt(log, logLine, Skips(log, index))
  }

  lemma SaysLine(log: string, logLine: nat, index: nat, said: seq<Warning>)
    requires index < |log| && DropNewlines(log[index..]) == log[index..] && !("%% " <= log[index..]) && LegacyAt(log[index..]) == None
    requires said == WarningsAt(log, logLine, if Trim(FirstLine(log[index..])) == "" then [] else [index])
    ensures index + LineEnd(log[index..]) <= |log|
    ensures ToSay(log, logLine, index) == said + ToSay(log, logLine, index + LineEnd(log[index..]))
  {
    hide Skips, LegacyAt, WarningsAt, DropNewlines, Trim, FirstLine, LineEnd;
    SkipsLine(log, index);
    WarningsJoin(log, logLine, if Trim(FirstLine(log[index..])) == "" then [] else [index], Skips(log, index + LineEnd(log[index..])));
  }

  lemma NothingToSay(log: string, logLine: nat)
    ensures ToSay(log, logLine, |log|) == []
  {
    SkipsNothing(log);
  }

  /**
   Fold a log into a heading, the cursor going from record to record, and say
   which lines were stepped over; a read that fails has said a part of it.
   */
  method ApplyRecords(h: Heading, log: string, logLine: nat, readReplace: string -> Option<Heading>)
    returns (folded: Option<Folded>, said: seq<Warning>)
    ensures folded == if PayloadsAreText(Items(log)) then FoldLog(h, log, readReplace) else None
    ensures said <= Warnings(log, logLine) && (folded.Some? ==> said == Warnings(log, logLine))
  {
    hide Apply, IsText, RecordAt, LegacyAt, LineEnd, DropNewlines, ApplyDrawer, Items, FoldChecked, FoldItems, PayloadsAreText,
      Skips, ToSay, WarningsAt, FirstLine, Trim;
    var index := 0;
    var f := Folded(h, false, []);
    said := [];
    assert log[0..] == log && ToSay(log, logLine, 0) == Warnings(log, logLine) by { SayAll(log, logLine); }
    CheckedFold(f, Items(log), readReplace);
    while index < |log|
      invariant index <= |log|
      invariant FoldChecked(f, Items(log[index..]), readReplace) == FoldChecked(Folded(h, false, []), Items(log), readReplace)
      invariant said + ToSay(log, logLine, index) == Warnings(log, logLine)
      decreases |log| - index
    {
      var start := index;
      index := SkipNewlines(log, index);
      NewlinesSkipped(log, start, index);
      SayBehind(log, logLine, start, index);
      if index >= |log| {
        break;
      }
      var s := log[index..];
      if !("%% " <= s) {
        var found, entries, next := LegacyLogbook(log, index);
        if found {
          assert s[next - index..] == log[next..];
          DrawerItem(s, entries, next - index);
          SayDrawer(log, logLine, index);
          CheckedFirst(f, LegacyDrawer(entries), Items(log[next..]), readReplace);
          var logbook := InsertEntries(f.heading.logbook, entries);
          f := f.(heading := f.heading.(logbook := logbook));
          index := next;
        } else {
          LineSkipped(s);
          var next, more := SkipNonRecord(log, index, logLine);
          SaysLine(log, logLine, index, more);
          assert s[LineEnd(s)..] == log[next..];
          assert said + (more + ToSay(log, logLine, next)) == said + more + ToSay(log, logLine, next);
          said := said + more;
          index := next;
        }
      } else {
        var r := RecordAt(s);
        RecordItem(s);
        SayRecord(log, logLine, index);
        if r.None? {
          index := |log|;
          assert log[index..] == "";
          NothingToRead();
          NothingToSay(log, logLine);
          break;
        }
        var (item, n) := r.value;
        assert s[n..] == log[index + n..];
        CheckedFirst(f, item, Items(log[index + n..]), readReplace);
        if !IsText(item.payload) {
          return None, said;
        }
        var g := Apply(f, Record(item.op, item.payload), item.text, readReplace);
        if g.None? {
          return None, said;
        }
        f := g.value;
        index := index + n;
      }
    }
    assert log[index..] == "";
    NothingToRead();
    NothingToSay(log, logLine);
    NothingChecked(f, readReplace);
    folded := Some(f);
  }

  lemma SayAll(log: string, logLine: nat)
    ensures log[0..] == log && ToSay(log, logLine, 0) == Warnings(log, logLine)
  {
  }

  lemma SayBehind(log: string, logLine: nat, start: nat, index: nat)
    requires start <= index <= |log| && log[index..] == DropNewlines(log[start..])
    ensures ToSay(log, logLine, start) == ToSay(log, logLine, index)
  {
    hide Skips, WarningsAt, DropNewlines;
    SkipsBehind(log, start, index);
  }

  lemma SayDrawer(log: string, logLine: nat, index: nat)
    requires index < |log| && DropNewlines(log[index..]) == log[index..] && !("%% " <= log[index..])
    ensures var r := LegacyAt(log[index..]); r.Some? ==> ToSay(log, logLine, index) == ToSay(log, logLine, index + r.value.1)
  {
    hide Skips, WarningsAt, DropNewlines, LegacyAt;
    SkipsDrawer(log, index);
  }

  lemma SayRecord(log: string, logLine: nat, index: nat)
    requires index < |log| && DropNewlines(log[index..]) == log[index..] && "%% " <= log[index..]
    ensures var r := RecordAt(log[index..]);
      ToSay(log, logLine, index) == if r.None? then [] else ToSay(log, logLine, index + r.value.1)
  {
    hide Skips, WarningsAt, DropNewlines, RecordAt;
    SkipsRecord(log, index);
    assert WarningsAt(log, logLine, []) == [] by { NoPlaces(log, logLine); }
  }

  lemma NoPlaces(log: string, logLine: nat)
    ensures WarningsAt(log, logLine, []) == []
  {
  }

  lemma NewlinesSkipped(log: string, start: nat, index: nat)
    requires start <= index <= |log| && log[index..] == DropNewlines(log[start..])
    ensures Items(log[start..]) == Items(log[index..])
    ensures log[index..] != "" ==> DropNewlines(log[index..]) == log[index..]
  {
    hide RecordAt, LegacyAt;
    assert DropNewlines(log[index..]) == log[index..];
  }

  lemma RecordItem(s: string)
    requires s != "" && DropNewlines(s) == s && "%% " <= s
    ensures RecordAt(s).None? ==> Items(s) == []
    ensures RecordAt(s).Some? ==> RecordAt(s).value.0.Rec? && Items(s) == [RecordAt(s).value.0] + Items(s[RecordAt(s).value.1..])
  {
  }

  lemma DrawerItem(s: string, entries: seq<LogEntry>, n: nat)
    requires s != "" && DropNewlines(s) == s && !("%% " <= s) && LegacyAt(s) == Some((entries, n))
    ensures Items(s) == [LegacyDrawer(entries)] + Items(s[n..])
  {
    hide LegacyAt;
  }

  lemma LineSkipped(s: string)
    requires s != "" && DropNewlines(s) == s && !("%% " <= s) && LegacyAt(s) == None
    ensures Items(s) == Items(s[LineEnd(s)..]) && LineEnd(s) > 0
  {
    hide LegacyAt;
  }

  // ---- writing ----

  /// The board's entries the ledger lacks.
  method MissingEntries(board: seq<LogEntry>, folded: seq<LogEntry>) returns (missing: seq<LogEntry>)
    ensures missing == Missing(board, folded)
  {
    missing := [];
    assert board[0..] == board;
    for i := 0 to |board|
      invariant missing + Missing(board[i..], folded) == Missing(board, folded)
    {
      assert board[i..][0] == board[i] && board[i..][1..] == board[i + 1..];
      if board[i] !in folded {
        missing := missing + [board[i]];
      }
    }
    assert board[|board|..] == [] && missing + [] == missing;
  }

  /// The bytes a commit or a catch-up is about to append.
  class RecordBuf {
    var bytes: string

    constructor ()
      ensures bytes == ""
    {
      bytes := "";
    }

    method PushOp(op: string, payload: string)
      modifies this
      ensures bytes == old(bytes) + Encode([Record(op, payload)])
    {
      var r := Record(op, payload);
      EncodeSingle(r);
      bytes := bytes + Header(r) + "\n";
      bytes := bytes + payload;
      bytes := bytes + "\n";
    }

    method PushWhen(changed: bool, op: string, payload: string)
      modifies this
      ensures bytes == old(bytes) + Encode(When(changed, op, payload))
    {
      if changed {
        PushOp(op, payload);
      } else {
        assert Encode([]) == "" && bytes + "" == bytes;
      }
    }

    method PushSets(keys: seq<string>, was: Table, now: Table)
      modifies this
      ensures bytes == old(bytes) + Encode(PropSets(keys, was, now))
    {
      hide *;
      for i := 0 to |keys|
        invariant bytes + Encode(PropSets(keys[i..], was, now)) == old(bytes) + Encode(PropSets(keys, was, now))
      {
        NextSet(bytes, keys, i, was, now);
        var k := keys[i];
        var v := Get(now, k).GetOr("");
        PushWhen(k != "ID" && Get(was, k) != Get(now, k), "prop", k + "\n" + v);
      }
      NothingPushed(bytes, keys, was, now);
    }

    method PushDels(keys: seq<string>, now: Table)
      modifies this
      ensures bytes == old(bytes) + Encode(PropDels(keys, now))
    {
      hide *;
      for i := 0 to |keys|
        invariant bytes + Encode(PropDels(keys[i..], now)) == old(bytes) + Encode(PropDels(keys, now))
      {
        NextDel(bytes, keys, i, now);
        PushWhen(keys[i] != "ID" && keys[i] !in now, "prop-del", keys[i]);
      }
      NothingPushed(bytes, keys, map[], now);
    }

    method PushProps(was: Table, now: Table)
      modifies this
      ensures bytes == old(bytes) + Encode(DiffProps(was, now))
    {
      EncodeConcat(PropSets(Sorted(now.Keys), was, now), PropDels(Sorted(was.Keys), now));
      assert DiffProps(was, now) == PropSets(Sorted(now.Keys), was, now) + PropDels(Sorted(was.Keys), now);
      hide *;
      PushSets(Sorted(now.Keys), was, now);
      PushDels(Sorted(was.Keys), now);
      Assoc(old(bytes), Encode(PropSets(Sorted(now.Keys), was, now)), Encode(PropDels(Sorted(was.Keys), now)));
    }

    /// Entries go out oldest first, so that each lands in front of the last.
    method PushEntries(added: seq<LogEntry>)
      modifies this
      ensures bytes == old(bytes) + Encode(LogRecords(added))
    {
      hide EncodeOne, LogLine.Render;
      var i := |added|;
      assert Encode([]) == "" && bytes + "" == bytes;
      while i > 0
        invariant 0 <= i <= |added|
        invariant bytes == old(bytes) + Encode(LogRecords(added[i..]))
      {
        i := i - 1;
        assert added[i..][1..] == added[i + 1..];
        EncodeConcat(LogRecords(added[i + 1..]), [Record("log", LogLine.Render(added[i]))]);
        PushOp("log", LogLine.Render(added[i]));
      }
      assert added[0..] == added;
    }

    method PushLogDiff(was: seq<LogEntry>, now: seq<LogEntry>)
      modifies this
      ensures bytes == old(bytes) + Encode(DiffLog(was, now))
    {
      hide EncodeOne, LogLine.Render, LogRecords;
      if was == now {
        assert Encode([]) == "" && bytes + "" == bytes;
      } else if |now| >= |was| && now[|now| - |was|..] == was {
        PushEntries(now[..|now| - |was|]);
      } else {
        var block := "";
        for i := 0 to |now|
          invariant block + Terminated(Rendered(now[i..])) == Terminated(Rendered(now))
        {
          assert Rendered(now[i..])[1..] == Rendered(now[i + 1..]);
          block := block + LogLine.Render(now[i]) + "\n";
        }
        assert Rendered(now[|now|..]) == [] && block + "" == block;
        PushOp("log-set", block);
      }
    }

    method PushScalars(was: Heading, now: Heading)
      modifies this
      ensures bytes == old(bytes) + Encode(DiffScalars(was, now))
    {
      EncodeScalars(was, now);
      hide *;
      PushWhen(was.state != now.state, "state", now.state);
      PushWhen(was.priority != now.priority, "priority", [now.priority]);
      PushWhen(was.title != now.title, "title", now.title);
      PushWhen(was.statistics != now.statistics, "statistics", now.statistics.GetOr(""));
      PushWhen(was.orgTags != now.orgTags, "org-tags", JoinNl(now.orgTags));
    }

    method PushDiff(was: Heading, now: Heading)
      modifies this
      ensures bytes == old(bytes) + Encode(Diff(was, now))
    {
      EncodeDiff(was, now);
      hide *;
      PushScalars(was, now);
      PushProps(was.properties, now.properties);
      PushWhen(was.extraDrawers != now.extraDrawers, "drawers", ConcatAll(now.extraDrawers));
      PushWhen(was.body != now.body, "body", now.body);
      PushLogDiff(was.logbook, now.logbook);
    }

    method PushQueued(k: string, decision: Decision, value: Option<string>)
      modifies this
      ensures bytes == old(bytes) + Encode(QueuedProp(k, decision, value))
    {
      if decision.Take? {
        match value {
          case Some(v) => PushOp("prop", k + "\n" + v);
          case None => PushOp("prop-del", k);
        }
      } else {
        assert Encode([]) == "" && bytes + "" == bytes;
      }
    }

    /// `queue_props`: `false` at the first key both sides moved apart.
    method QueueProps(keys: seq<string>, s: Table, f: Table, b: Table) returns (ok: bool)
      modifies this
      ensures ok <==> forall k :: k in keys ==> !PropDecision(k, s, f, b).Refuse?
      ensures ok ==> bytes == old(bytes) + Encode(QueuedProps(keys, s, f, b))
    {
      hide *;
      for i := 0 to |keys|
        invariant forall k :: k in keys[..i] ==> !PropDecision(k, s, f, b).Refuse?
        invariant bytes + Encode(QueuedProps(keys[i..], s, f, b)) == old(bytes) + Encode(QueuedProps(keys, s, f, b))
      {
        var decision := PropDecision(keys[i], s, f, b);
        if decision.Refuse? {
          assert keys[i] in keys;
          return false;
        }
        assert keys[..i + 1] == keys[..i] + [keys[i]];
        NextQueued(bytes, keys, i, s, f, b);
        PushQueued(keys[i], decision, Get(b, keys[i]));
      }
      NoneQueued(bytes, keys, s, f, b);
      assert keys[..|keys|] == keys;
      ok := true;
    }

    /// One field through `board_decision`.
    method QueueField(decision: Decision, op: string, payload: string) returns (ok: bool)
      modifies this
      ensures ok <==> !decision.Refuse?
      ensures ok ==> bytes == old(bytes) + Encode(When(decision.Take?, op, payload))
    {
      if decision.Refuse? {
        return false;
      }
      PushWhen(decision.Take?, op, payload);
      ok := true;
    }

    method QueueScalars(s: Heading, f: Heading, b: Heading) returns (ok: bool)
      modifies this
      ensures ok <==> !ScalarsRefused(s, f, b)
      ensures ok ==> bytes == old(bytes) + Encode(QueuedScalars(s, f, b))
    {
      EncodeQueuedScalars(s, f, b);
      hide Encode, When, JoinNl, QueuedScalars, Decide;
      ok := QueueField(Decide(s.state, f.state, b.state), "state", b.state);
      if !ok { return; }
      ok := QueueField(Decide(s.priority, f.priority, b.priority), "priority", [b.priority]);
      if !ok { return; }
      ok := QueueField(Decide(s.title, f.title, b.title), "title", b.title);
      if !ok { return; }
      ok := QueueField(Decide(s.statistics, f.statistics, b.statistics), "statistics", b.statistics.GetOr(""));
      if !ok { return; }
      ok := QueueField(Decide(s.orgTags, f.orgTags, b.orgTags), "org-tags", JoinNl(b.orgTags));
    }

    /// `queue_log`: the board's entries the ledger lacks, oldest first.
    method QueueLog(folded: seq<LogEntry>, board: seq<LogEntry>)
      modifies this
      ensures bytes == old(bytes) + Encode(LogRecords(Missing(board, folded)))
    {
      var missing := MissingEntries(board, folded);
      PushEntries(missing);
    }

    /**
     `queue_merge`: refused when some field moved apart on the board and in the
     ledger, else the records that take over what only the board moved.
     */
    method QueueMerge(s: Heading, f: Heading, b: Heading) returns (ok: bool)
      modifies this
      ensures ok <==> Queued(s, f, b).Some?
      ensures ok ==> bytes == old(bytes) + Encode(Queued(s, f, b).value)
    {
      RefusedParts(s, f, b);
      hide Encode, QueuedScalars, QueuedProps, ConcatAll, PropKeys, Decide, Refused, ScalarsRefused, PropsRefused, LogRecords, When;
      ok := QueueScalars(s, f, b);
      if !ok { return; }
      ok := QueueProps(PropKeys(s, f, b), s.properties, f.properties, b.properties);
      if !ok { return; }
      ok := QueueField(Decide(s.extraDrawers, f.extraDrawers, b.extraDrawers), "drawers", ConcatAll(b.extraDrawers));
      if !ok { return; }
      ok := QueueField(Decide(s.body, f.body, b.body), "body", b.body);
      if !ok { return; }
      QueueLog(f.logbook, b.logbook);
      EncodeQueued(s, f, b);
    }
  }

  predicate ScalarsRefused(s: Heading, f: Heading, b: Heading) {
    || Decide(s.state, f.state, b.state).Refuse?
    || Decide(s.priority, f.priority, b.priority).Refuse?
    || Decide(s.title, f.title, b.title).Refuse?
    || Decide(s.statistics, f.statistics, b.statistics).Refuse?
    || Decide(s.orgTags, f.orgTags, b.orgTags).Refuse?
  }

  predicate PropsRefused(s: Heading, f: Heading, b: Heading) {
    exists k :: k in PropKeys(s, f, b) && PropDecision(k, s.properties, f.properties, b.properties).Refuse?
  }

  lemma RefusedParts(s: Heading, f: Heading, b: Heading)
    ensures Refused(s, f, b) <==>
      || ScalarsRefused(s, f, b)
      || PropsRefused(s, f, b)
      || Decide(s.extraDrawers, f.extraDrawers, b.extraDrawers).Refuse?
      || Decide(s.body, f.body, b.body).Refuse?
    ensures PropsRefused(s, f, b) <==>
      !forall k :: k in PropKeys(s, f, b) ==> !PropDecision(k, s.properties, f.properties, b.properties).Refuse?
  {
    hide Decide, PropDecision, PropKeys;
  }

  lemma EncodeQueuedScalars(s: Heading, f: Heading, b: Heading)
    ensures Encode(QueuedScalars(s, f, b)) ==
      Encode(When(Decide(s.state, f.state, b.state).Take?, "state", b.state))
      + Encode(When(Decide(s.priority, f.priority, b.priority).Take?, "priority", [b.priority]))
      + Encode(When(Decide(s.title, f.title, b.title).Take?, "title", b.title))
      + Encode(When(Decide(s.statistics, f.statistics, b.statistics).Take?, "statistics", b.statistics.GetOr("")))
      + Encode(When(Decide(s.orgTags, f.orgTags, b.orgTags).Take?, "org-tags", JoinNl(b.orgTags)))
  {
    hide Encode, When, JoinNl, Decide;
    EncodeFive(When(Decide(s.state, f.state, b.state).Take?, "state", b.state),
      When(Decide(s.priority, f.priority, b.priority).Take?, "priority", [b.priority]),
      When(Decide(s.title, f.title, b.title).Take?, "title", b.title),
      When(Decide(s.statistics, f.statistics, b.statistics).Take?, "statistics", b.statistics.GetOr("")),
      When(Decide(s.orgTags, f.orgTags, b.orgTags).Take?, "org-tags", JoinNl(b.orgTags)));
  }

  lemma EncodeFive(r1: seq<Record>, r2: seq<Record>, r3: seq<Record>, r4: seq<Record>, r5: seq<Record>)
    ensures Encode(r1 + r2 + r3 + r4 + r5) == Encode(r1) + Encode(r2) + Encode(r3) + Encode(r4) + Encode(r5)
  {
    hide Encode;
    EncodeConcat(r1, r2);
    EncodeConcat(r1 + r2, r3);
    EncodeConcat(r1 + r2 + r3, r4);
    EncodeConcat(r1 + r2 + r3 + r4, r5);
  }

  lemma EncodeQueued(s: Heading, f: Heading, b: Heading)
    requires Queued(s, f, b).Some?
    ensures Encode(Queued(s, f, b).value) ==
      Encode(QueuedScalars(s, f, b))
      + Encode(QueuedProps(PropKeys(s, f, b), s.properties, f.properties, b.properties))
      + Encode(When(Decide(s.extraDrawers, f.extraDrawers, b.extraDrawers).Take?, "drawers", ConcatAll(b.extraDrawers)))
      + Encode(When(Decide(s.body, f.body, b.body).Take?, "body", b.body))
      + Encode(LogRecords(Missing(b.logbook, f.logbook)))
  {
    hide Encode, When, ConcatAll, Decide, QueuedScalars, QueuedProps, PropKeys, LogRecords, Missing, Refused;
    var (r1, r2, r5) := (QueuedScalars(s, f, b), QueuedProps(PropKeys(s, f, b), s.properties, f.properties, b.properties),
                         LogRecords(Missing(b.logbook, f.logbook)));
    var r3 := When(Decide(s.extraDrawers, f.extraDrawers, b.extraDrawers).Take?, "drawers", ConcatAll(b.extraDrawers));
    var r4 := When(Decide(s.body, f.body, b.body).Take?, "body", b.body);
    EncodeFive(r1, r2, r3, r4, r5);
    assert r1 + r2 + (r3 + r4) + r5 == r1 + r2 + r3 + r4 + r5;
  }

  lemma Assoc(a: string, b: string, c: string)
    ensures a + b + c == a + (b + c)
  {
  }

  lemma NextSet(bytes: string, keys: seq<string>, i: nat, was: Table, now: Table)
    requires i < |keys|
    ensures var k := keys[i];
      var v := Get(now, k).GetOr("");
      bytes + Encode(PropSets(keys[i..], was, now)) ==
        bytes + Encode(When(k != "ID" && Get(was, k) != Get(now, k), "prop", k + "\n" + v))
        + Encode(PropSets(keys[i + 1..], was, now))
  {
    hide EncodeOne, When, Encode, Get;
    assert keys[i..][0] == keys[i] && keys[i..][1..] == keys[i + 1..];
    var k := keys[i];
    var v := Get(now, k).GetOr("");
    EncodeConcat(When(k != "ID" && Get(was, k) != Get(now, k), "prop", k + "\n" + v), PropSets(keys[i + 1..], was, now));
  }

  lemma NextDel(bytes: string, keys: seq<string>, i: nat, now: Table)
    requires i < |keys|
    ensures bytes + Encode(PropDels(keys[i..], now)) ==
      bytes + Encode(When(keys[i] != "ID" && keys[i] !in now, "prop-del", keys[i])) + Encode(PropDels(keys[i + 1..], now))
  {
    hide EncodeOne, When, Encode;
    assert keys[i..][0] == keys[i] && keys[i..][1..] == keys[i + 1..];
    EncodeConcat(When(keys[i] != "ID" && keys[i] !in now, "prop-del", keys[i]), PropDels(keys[i + 1..], now));
  }

  lemma NextQueued(bytes: string, keys: seq<string>, i: nat, s: Table, f: Table, b: Table)
    requires i < |keys|
    ensures bytes + Encode(QueuedProps(keys[i..], s, f, b)) ==
      bytes + Encode(QueuedProp(keys[i], PropDecision(keys[i], s, f, b), Get(b, keys[i])))
      + Encode(QueuedProps(keys[i + 1..], s, f, b))
  {
    hide EncodeOne, Encode, QueuedProp, PropDecision, Get;
    assert keys[i..][0] == keys[i] && keys[i..][1..] == keys[i + 1..];
    EncodeConcat(QueuedProp(keys[i], PropDecision(keys[i], s, f, b), Get(b, keys[i])), QueuedProps(keys[i + 1..], s, f, b));
  }

  lemma NoneQueued(bytes: string, keys: seq<string>, s: Table, f: Table, b: Table)
    ensures bytes + Encode(QueuedProps(keys[|keys|..], s, f, b)) == bytes && keys[0..] == keys
  {
    assert keys[|keys|..] == [];
  }

  lemma NothingPushed(bytes: string, keys: seq<string>, was: Table, now: Table)
    ensures bytes + Encode(PropSets(keys[|keys|..], was, now)) == bytes
    ensures bytes + Encode(PropDels(keys[|keys|..], now)) == bytes
    ensures keys[0..] == keys
  {
    assert keys[|keys|..] == [];
  }

  lemma EncodeSingle(r: Record)
    ensures Encode([r]) == EncodeOne(r)
  {
    hide EncodeOne;
    assert EncodeOne(r) + "" == EncodeOne(r);
  }

  lemma EncodeScalars(was: Heading, now: Heading)
    ensures Encode(DiffScalars(was, now)) ==
      Encode(When(was.state != now.state, "state", now.state))
      + Encode(When(was.priority != now.priority, "priority", [now.priority]))
      + Encode(When(was.title != now.title, "title", now.title))
      + Encode(When(was.statistics != now.statistics, "statistics", now.statistics.GetOr("")))
      + Encode(When(was.orgTags != now.orgTags, "org-tags", JoinNl(now.orgTags)))
  {
    hide Encode, When, JoinNl;
    EncodeFive(When(was.state != now.state, "state", now.state),
      When(was.priority != now.priority, "priority", [now.priority]), When(was.title != now.title, "title", now.title),
      When(was.statistics != now.statistics, "statistics", now.statistics.GetOr("")),
      When(was.orgTags != now.orgTags, "org-tags", JoinNl(now.orgTags)));
  }

  lemma EncodeDiff(was: Heading, now: Heading)
    ensures Encode(Diff(was, now)) ==
      Encode(DiffScalars(was, now)) + Encode(DiffProps(was.properties, now.properties))
      + Encode(When(was.extraDrawers != now.extraDrawers, "drawers", ConcatAll(now.extraDrawers)))
      + Encode(When(was.body != now.body, "body", now.body))
      + Encode(DiffLog(was.logbook, now.logbook))
  {
    hide Encode, When, ConcatAll, DiffScalars, DiffProps, DiffLog;
    var (r1, r2, r4) := (DiffScalars(was, now), DiffProps(was.properties, now.properties), DiffLog(was.logbook, now.logbook));
    var (t1, t2) := (When(was.extraDrawers != now.extraDrawers, "drawers", ConcatAll(now.extraDrawers)),
                     When(was.body != now.body, "body", now.body));
    EncodeConcat(t1, t2);
    EncodeConcat(r1, r2);
    EncodeConcat(r1 + r2, t1 + t2);
    EncodeConcat(r1 + r2 + (t1 + t2), r4);
    assert Diff(was, now) == r1 + r2 + (t1 + t2) + r4;
  }
}
