/** Writing the difference of two issues and folding it again. */
module LedgerLaws {
  import opened Base
  import opened Text
  import opened Order
  import opened Issue
  import opened Records
  import opened Ledger
  import LogLine

  type Reader = string -> Option<Heading>

  function FoldRecords(f: Folded, rs: seq<Record>, read: Reader): Option<Folded> {
    FoldItems(f, AsItems(rs), read)
  }

  lemma FoldRecordsConcat(f: Folded, s: seq<Record>, t: seq<Record>, read: Reader)
    ensures FoldRecords(f, s + t, read)
         == (match FoldRecords(f, s, read) case None => None case Some(g) => FoldRecords(g, t, read))
  {
    hide AsItem, FoldItems;
    assert AsItems(s + t) == AsItems(s) + AsItems(t);
    FoldConcat(f, AsItems(s), AsItems(t), read);
  }

  lemma FoldOne(f: Folded, r: Record, read: Reader)
    ensures FoldRecords(f, [r], read) == Apply(f, r, EncodeOne(r), read)
  {
    hide Apply, EncodeOne;
    var g := ApplyItem(f, AsItem(r), read);
    assert AsItems([r])[1..] == [];
    if g.Some? {
      assert FoldItems(g.value, [], read) == g;
    }
  }

  lemma FoldNone(f: Folded, read: Reader)
    ensures FoldRecords(f, [], read) == Some(f)
  {
  }

  // ---- fields ----

  lemma FoldWhen(f: Folded, changed: bool, op: string, payload: string, h: Heading, read: Reader)
    requires if changed then ApplyField(f.heading, op, payload) == Some(h) else h == f.heading
    ensures FoldRecords(f, When(changed, op, payload), read) == Some(f.(heading := h))
  {
    hide ApplyField, EncodeOne, ApplyLog;
    FoldNone(f, read);
    FoldOne(f, Record(op, payload), read);
  }

  lemma {:induction false} JoinNotEmpty(tags: seq<string>)
    requires tags != [] && tags[0] != ""
    ensures JoinNl(tags) != ""
  {
  }

  lemma TagsReadBack(tags: seq<string>)
    requires forall t :: t in tags ==> PlainLine(t) && t != ""
    ensures (if JoinNl(tags) == "" then [] else LinesOf(JoinNl(tags))) == tags
  {
    hide PlainLine;
    if tags != [] {
      assert tags[0] in tags && tags[|tags| - 1] in tags;
      JoinNotEmpty(tags);
      forall i | 0 <= i < |tags| ensures PlainLine(tags[i]) { assert tags[i] in tags; }
      LinesOfJoined(tags);
    }
  }

  lemma FieldOps(h: Heading, payload: string)
    ensures ApplyField(h, "state", payload) == Some(h.(state := payload))
    ensures payload != "" ==> ApplyField(h, "priority", payload) == Some(h.(priority := payload[0]))
    ensures ApplyField(h, "title", payload) == Some(h.(title := payload))
    ensures ApplyField(h, "statistics", payload) == Some(h.(statistics := if payload == "" then None else Some(payload)))
    ensures ApplyField(h, "org-tags", payload) == Some(h.(orgTags := if payload == "" then [] else LinesOf(payload)))
    ensures ApplyField(h, "body", payload) == Some(h.(body := payload))
    ensures ApplyField(h, "drawers", payload) == Some(h.(extraDrawers := SplitDrawers(LinesOf(payload), "")))
  {
    hide LinesOf, SplitDrawers;
  }

  /// `h` with the scalar fields of `now`.
  function WithScalars(h: Heading, now: Heading): Heading {
    h.(state := now.state, priority := now.priority, title := now.title, statistics := now.statistics,
       orgTags := now.orgTags)
  }

  lemma FoldFive(f: Folded, r1: seq<Record>, r2: seq<Record>, r3: seq<Record>, r4: seq<Record>, r5: seq<Record>,
                 f1: Folded, f2: Folded, f3: Folded, f4: Folded, f5: Folded, read: Reader)
    requires FoldRecords(f, r1, read) == Some(f1) && FoldRecords(f1, r2, read) == Some(f2) && FoldRecords(f2, r3, read) == Some(f3)
    requires FoldRecords(f3, r4, read) == Some(f4) && FoldRecords(f4, r5, read) == Some(f5)
    ensures FoldRecords(f, r1 + r2 + r3 + r4 + r5, read) == Some(f5)
  {
    hide FoldRecords;
    FoldRecordsConcat(f, r1, r2, read);
    FoldRecordsConcat(f, r1 + r2, r3, read);
    FoldRecordsConcat(f, r1 + r2 + r3, r4, read);
    FoldRecordsConcat(f, r1 + r2 + r3 + r4, r5, read);
  }

  lemma FoldScalars(f: Folded, now: Heading, read: Reader)
    requires f.heading.statistics != now.statistics ==> now.statistics != Some("")
    requires f.heading.orgTags != now.orgTags ==> forall t :: t in now.orgTags ==> PlainLine(t) && t != ""
    ensures FoldRecords(f, DiffScalars(f.heading, now), read) == Some(f.(heading := WithScalars(f.heading, now)))
  {
    var h := f.heading;
    hide FoldRecords, ApplyField, PlainLine, LinesOf, JoinNl, When;
    var (r1, r2, r3, r4, r5) := (
      When(h.state != now.state, "state", now.state),
      When(h.priority != now.priority, "priority", [now.priority]),
      When(h.title != now.title, "title", now.title),
      When(h.statistics != now.statistics, "statistics", now.statistics.GetOr("")),
      When(h.orgTags != now.orgTags, "org-tags", JoinNl(now.orgTags)));
    var h1 := h.(state := now.state);
    var h2 := h1.(priority := now.priority);
    var h3 := h2.(title := now.title);
    var h4 := h3.(statistics := now.statistics);
    var h5 := h4.(orgTags := now.orgTags);
    FieldOps(h, now.state);
    FoldWhen(f, h.state != now.state, "state", now.state, h1, read);
    FieldOps(h1, [now.priority]);
    FoldWhen(f.(heading := h1), h.priority != now.priority, "priority", [now.priority], h2, read);
    FieldOps(h2, now.title);
    FoldWhen(f.(heading := h2), h.title != now.title, "title", now.title, h3, read);
    FieldOps(h3, now.statistics.GetOr(""));
    FoldWhen(f.(heading := h3), h.statistics != now.statistics, "statistics", now.statistics.GetOr(""), h4, read);
    FieldOps(h4, JoinNl(now.orgTags));
    if h.orgTags != now.orgTags { TagsReadBack(now.orgTags); }
    FoldWhen(f.(heading := h4), h.orgTags != now.orgTags, "org-tags", JoinNl(now.orgTags), h5, read);
    FoldFive(f, r1, r2, r3, r4, r5, f.(heading := h1), f.(heading := h2), f.(heading := h3), f.(heading := h4),
             f.(heading := h5), read);
  }

  // ---- drawers ----

  lemma {:induction false} OneDrawer(ls: seq<string>, current: string, rest: seq<string>)
    requires DrawerLines(ls)
    ensures SplitDrawers(ls + rest, current) == [current + Terminated(ls)] + SplitDrawers(rest, "")
    decreases |ls|
  {
    hide Trim;
    assert (ls + rest)[0] == ls[0] && (ls + rest)[1..] == ls[1..] + rest;
    if |ls| == 1 {
      assert Terminated(ls) == ls[0] + "\n" + Terminated([]);
      assert ls[1..] + rest == rest;
      assert current + Terminated(ls) == current + ls[0] + "\n";
    } else {
      OneDrawer(ls[1..], current + ls[0] + "\n", rest);
      assert current + Terminated(ls) == (current + ls[0] + "\n") + Terminated(ls[1..]);
    }
  }

  lemma {:induction false} DrawersAsLines(drawers: seq<string>) returns (ls: seq<string>)
    requires forall d :: d in drawers ==> WellFormedDrawer(d)
    ensures PlainLines(ls) && ConcatAll(drawers) == Terminated(ls)
    ensures SplitDrawers(ls, "") == drawers
  {
    if drawers == [] {
      ls := [];
      assert Trim("") == "";
    } else {
      assert drawers[0] in drawers;
      var first :| DrawerLines(first) && drawers[0] == Terminated(first);
      hide DrawerLines, WellFormedDrawer;
      var rest := DrawersAsLines(drawers[1..]);
      PlainDrawer(first);
      ls := first + rest;
      TerminatedConcat(first, rest);
      OneDrawer(first, "", rest);
      assert "" + Terminated(first) == drawers[0];
    }
  }

  lemma PlainDrawer(ls: seq<string>)
    requires DrawerLines(ls)
    ensures PlainLines(ls)
  {
  }

  lemma DrawersReadBack(drawers: seq<string>)
    requires forall d :: d in drawers ==> WellFormedDrawer(d)
    ensures SplitDrawers(LinesOf(ConcatAll(drawers)), "") == drawers
  {
    hide WellFormedDrawer;
    var ls := DrawersAsLines(drawers);
    LinesOfTerminated(ls);
  }

  lemma FoldTexts(f: Folded, was: Heading, now: Heading, read: Reader)
    requires f.heading.extraDrawers == was.extraDrawers && f.heading.body == was.body
    requires was.extraDrawers != now.extraDrawers ==> forall d :: d in now.extraDrawers ==> WellFormedDrawer(d)
    ensures FoldRecords(f, DiffTexts(was, now), read)
         == Some(f.(heading := f.heading.(extraDrawers := now.extraDrawers, body := now.body)))
  {
    hide FoldRecords, ApplyField, WellFormedDrawer, LinesOf, SplitDrawers;
    var h1 := f.heading.(extraDrawers := now.extraDrawers);
    var h2 := h1.(body := now.body);
    FieldOps(f.heading, ConcatAll(now.extraDrawers));
    if was.extraDrawers != now.extraDrawers { DrawersReadBack(now.extraDrawers); }
    var (r1, r2) := (When(was.extraDrawers != now.extraDrawers, "drawers", ConcatAll(now.extraDrawers)),
                     When(was.body != now.body, "body", now.body));
    FoldWhen(f, was.extraDrawers != now.extraDrawers, "drawers", ConcatAll(now.extraDrawers), h1, read);
    FieldOps(h1, now.body);
    FoldWhen(f.(heading := h1), was.body != now.body, "body", now.body, h2, read);
    FoldRecordsConcat(f, r1, r2, read);
  }

  // ---- properties ----

  lemma PropOps(f: Folded, key: string, value: string, text: string, read: Reader)
    requires OneLine(key)
    ensures Apply(f, Record("prop", key + "\n" + value), text, read) == Some(f.(heading := SetProperty(f.heading, key, value)))
    ensures Apply(f, Record("prop-del", key), text, read) == Some(f.(heading := DropProperty(f.heading, key)))
  {
    hide SetProperty, DropProperty, SplitOnce, LinesOf, SplitDrawers, ParseLines;
    SplitOnceAt(key, "\n", value);
  }

  /// `g` is `f` but for the properties and their order.
  predicate OnlyProperties(f: Folded, g: Folded) {
    g == f.(heading := f.heading.(properties := g.heading.properties, propertyOrder := g.heading.propertyOrder))
  }

  function AfterSets(x: string, keys: seq<string>, now: Table, before: Table): Option<string> {
    if x in keys && x != "ID" then Get(now, x) else Get(before, x)
  }

  function AfterDels(x: string, keys: seq<string>, now: Table, before: Table): Option<string> {
    if x in keys && x != "ID" && x !in now then None else Get(before, x)
  }

  lemma FoldSetStep(f: Folded, k: string, was: Table, now: Table, read: Reader) returns (g: Folded)
    requires k in now && OneLine(k) && Get(f.heading.properties, k) == Get(was, k)
    ensures FoldRecords(f, When(k != "ID" && Get(was, k) != Get(now, k), "prop", k + "\n" + Get(now, k).GetOr("")), read) == Some(g)
    ensures OnlyProperties(f, g)
    ensures forall x :: Get(g.heading.properties, x) == AfterSets(x, [k], now, f.heading.properties)
  {
    hide Apply, EncodeOne, OneLine;
    var v := Get(now, k).GetOr("");
    var r := Record("prop", k + "\n" + v);
    FoldNone(f, read);
    FoldOne(f, r, read);
    PropOps(f, k, v, EncodeOne(r), read);
    hide FoldRecords;
    g := if k != "ID" && Get(was, k) != Get(now, k) then f.(heading := SetProperty(f.heading, k, v)) else f;
    forall x ensures Get(g.heading.properties, x) == AfterSets(x, [k], now, f.heading.properties) {
      if x == k { assert x in [k]; }
    }
  }

  lemma {:induction false} FoldSets(f: Folded, keys: seq<string>, was: Table, now: Table, read: Reader) returns (g: Folded)
    requires Distinct(keys) && forall k :: k in keys ==> k in now && OneLine(k) && Get(f.heading.properties, k) == Get(was, k)
    ensures FoldRecords(f, PropSets(keys, was, now), read) == Some(g)
    ensures OnlyProperties(f, g)
    ensures forall x :: Get(g.heading.properties, x) == AfterSets(x, keys, now, f.heading.properties)
    decreases |keys|
  {
    if keys == [] {
      FoldNone(f, read);
      g := f;
    } else {
      hide FoldRecords, When, OneLine, Get, Distinct;
      var k := keys[0];
      assert k in keys && keys == [k] + keys[1..];
      var h := FoldSetStep(f, k, was, now, read);
      HeadNotInTail(keys);
      forall x | x in keys[1..]
        ensures x in now && OneLine(x) && Get(h.heading.properties, x) == Get(was, x)
      {
        assert x in keys && x != k;
      }
      g := FoldSets(h, keys[1..], was, now, read);
      FoldRecordsConcat(f, When(k != "ID" && Get(was, k) != Get(now, k), "prop", k + "\n" + Get(now, k).GetOr("")),
                        PropSets(keys[1..], was, now), read);
    }
  }

  lemma HeadNotInTail<T>(s: seq<T>)
    requires s != [] && Distinct(s)
    ensures s[0] !in s[1..] && Distinct(s[1..])
  {
  }

  lemma FoldDelStep(f: Folded, k: string, now: Table, read: Reader) returns (g: Folded)
    requires OneLine(k)
    ensures FoldRecords(f, When(k != "ID" && k !in now, "prop-del", k), read) == Some(g)
    ensures OnlyProperties(f, g)
    ensures forall x :: Get(g.heading.properties, x) == AfterDels(x, [k], now, f.heading.properties)
  {
    hide Apply, EncodeOne, OneLine;
    var r := Record("prop-del", k);
    FoldNone(f, read);
    FoldOne(f, r, read);
    PropOps(f, k, "", EncodeOne(r), read);
    hide FoldRecords;
    g := if k != "ID" && k !in now then f.(heading := DropProperty(f.heading, k)) else f;
    forall x ensures Get(g.heading.properties, x) == AfterDels(x, [k], now, f.heading.properties) {
      if x == k { assert x in [k]; }
    }
  }

  lemma {:induction false} FoldDels(f: Folded, keys: seq<string>, now: Table, read: Reader) returns (g: Folded)
    requires forall k :: k in keys ==> OneLine(k)
    ensures FoldRecords(f, PropDels(keys, now), read) == Some(g)
    ensures OnlyProperties(f, g)
    ensures forall x :: Get(g.heading.properties, x) == AfterDels(x, keys, now, f.heading.properties)
    decreases |keys|
  {
    if keys == [] {
      FoldNone(f, read);
      g := f;
    } else {
      hide FoldRecords, When, OneLine, Get;
      var k := keys[0];
      assert k in keys && keys == [k] + keys[1..];
      var h := FoldDelStep(f, k, now, read);
      g := FoldDels(h, keys[1..], now, read);
      FoldRecordsConcat(f, When(k != "ID" && k !in now, "prop-del", k), PropDels(keys[1..], now), read);
    }
  }

  /// The property records turn one table into the other.
  lemma FoldProps(f: Folded, now: Table, read: Reader) returns (g: Folded)
    requires forall k :: k in f.heading.properties || k in now ==> OneLine(k)
    requires Get(f.heading.properties, "ID") == Get(now, "ID")
    ensures FoldRecords(f, DiffProps(f.heading.properties, now), read) == Some(g)
    ensures OnlyProperties(f, g) && g.heading.properties == now
  {
    hide FoldRecords, OneLine, Apply;
    var was := f.heading.properties;
    var (sets, dels) := (Sorted(now.Keys), Sorted(was.Keys));
    InKeys(sets, now);
    InKeys(dels, was);
    var h := FoldSets(f, sets, was, now, read);
    g := FoldDels(h, dels, now, read);
    FoldRecordsConcat(f, PropSets(sets, was, now), PropDels(dels, now), read);
    forall x ensures Get(g.heading.properties, x) == Get(now, x) {
      assert Get(h.heading.properties, x) == AfterSets(x, sets, now, was);
    }
    SameLookups(g.heading.properties, now);
  }

  lemma InKeys(keys: seq<string>, t: Table)
    requires Elems(keys) == t.Keys
    ensures forall k :: k in keys <==> k in t
  {
    forall k ensures k in keys <==> k in t { assert k in keys <==> k in Elems(keys); }
  }

  // ---- the logbook ----

  lemma LogOps(f: Folded, payload: string, text: string, read: Reader)
    ensures Apply(f, Record("log", payload), text, read)
         == Some(f.(heading := f.heading.(logbook := [LogLine.Parse(payload)] + f.heading.logbook)))
    ensures Apply(f, Record("log-set", payload), text, read)
         == Some(f.(heading := f.heading.(logbook := ParseLines(LinesOf(payload)))))
  {
    hide LogLine.Parse, ParseLines, LinesOf, SplitDrawers;
  }

  lemma {:induction false} FoldLogRecords(f: Folded, added: seq<LogEntry>, read: Reader)
    requires forall e :: e in added ==> LogLine.ReadEntry(e)
    ensures FoldRecords(f, LogRecords(added), read)
         == Some(f.(heading := f.heading.(logbook := added + f.heading.logbook)))
    decreases |added|
  {
    hide LogLine.Parse, LogLine.Render, LogLine.ReadEntry, Apply, EncodeOne, FoldRecords;
    if added == [] {
      FoldNone(f, read);
      assert added + f.heading.logbook == f.heading.logbook;
    } else {
      assert added[0] in added;
      FoldLogRecords(f, added[1..], read);
      var g := f.(heading := f.heading.(logbook := added[1..] + f.heading.logbook));
      var r := Record("log", LogLine.Render(added[0]));
      LogLine.ReadEntryRoundTrip(added[0]);
      FoldOne(g, r, read);
      LogOps(g, r.payload, EncodeOne(r), read);
      FoldRecordsConcat(f, LogRecords(added[1..]), [r], read);
      assert [added[0]] + (added[1..] + f.heading.logbook) == added + f.heading.logbook;
    }
  }

  lemma {:induction false} ParseRendered(entries: seq<LogEntry>)
    requires forall e :: e in entries ==> LogLine.ReadEntry(e)
    ensures PlainLines(Rendered(entries)) && ParseLines(Rendered(entries)) == entries
  {
    hide LogLine.Parse, LogLine.Render, LogLine.ReadEntry, Trim;
    if entries != [] {
      assert entries[0] in entries;
      LogLine.ReadEntryRoundTrip(entries[0]);
      ParseRendered(entries[1..]);
      assert Rendered(entries) == [LogLine.Render(entries[0])] + Rendered(entries[1..]);
      assert Rendered(entries)[1..] == Rendered(entries[1..]);
    }
  }

  lemma FoldDiffLog(f: Folded, now: seq<LogEntry>, read: Reader)
    requires f.heading.logbook != now ==> forall e :: e in now ==> LogLine.ReadEntry(e)
    ensures FoldRecords(f, DiffLog(f.heading.logbook, now), read) == Some(f.(heading := f.heading.(logbook := now)))
  {
    hide LogLine.Parse, LogLine.Render, LogLine.ReadEntry, Apply, EncodeOne, FoldRecords, Terminated, LinesOf, Rendered;
    var was := f.heading.logbook;
    if was == now {
      FoldNone(f, read);
    } else if |now| >= |was| && now[|now| - |was|..] == was {
      var added := now[..|now| - |was|];
      FoldLogRecords(f, added, read);
      assert added + was == now;
    } else {
      var r := Record("log-set", Terminated(Rendered(now)));
      ParseRendered(now);
      LinesOfTerminated(Rendered(now));
      FoldOne(f, r, read);
      LogOps(f, r.payload, EncodeOne(r), read);
    }
  }

  // ---- the whole difference ----

  /**
   Folding the difference of two issues into the first gives the second, on
   every field but the key order and the place in the file, and touches
   nothing else the fold keeps.
   */
  lemma DiffThenFold(f: Folded, now: Heading, read: Reader) returns (g: Folded)
    requires CarriedOver(f.heading, now) && f.heading.id == now.id
    requires forall k :: k in f.heading.properties ==> OneLine(k)
    requires Get(f.heading.properties, "ID") == Get(now.properties, "ID")
    ensures FoldRecords(f, Diff(f.heading, now), read) == Some(g)
    ensures SameFields(g.heading, now) && g.tombstoned == f.tombstoned && g.unknown == f.unknown
    ensures g.heading.lineStart == f.heading.lineStart && g.heading.lineEnd == f.heading.lineEnd
  {
    var was := f.heading;
    hide FoldRecords, WellFormedDrawer, LogLine.ReadEntry, PlainLine, OneLine, DiffScalars, DiffProps, DiffTexts, DiffLog;
    FoldScalars(f, now, read);
    var f1 := f.(heading := WithScalars(was, now));
    var f2 := FoldProps(f1, now.properties, read);
    FoldTexts(f2, was, now, read);
    var f3 := f2.(heading := f2.heading.(extraDrawers := now.extraDrawers, body := now.body));
    FoldDiffLog(f3, now.logbook, read);
    g := f3.(heading := f3.heading.(logbook := now.logbook));
    var (r1, r2, r3, r4) := (DiffScalars(was, now), DiffProps(was.properties, now.properties), DiffTexts(was, now),
                             DiffLog(was.logbook, now.logbook));
    FoldRecordsConcat(f, r1, r2, read);
    FoldRecordsConcat(f, r1 + r2, r3, read);
    FoldRecordsConcat(f, r1 + r2 + r3, r4, read);
  }

  // ---- nothing to write ----

  lemma {:induction false} NoSets(keys: seq<string>, was: Table, now: Table)
    ensures PropSets(keys, was, now) == [] <==> forall k :: k in keys && k != "ID" ==> Get(was, k) == Get(now, k)
  {
    hide Get;
    if keys != [] {
      NoSets(keys[1..], was, now);
      assert keys == [keys[0]] + keys[1..];
    }
  }

  lemma {:induction false} NoDels(keys: seq<string>, now: Table)
    ensures PropDels(keys, now) == [] <==> forall k :: k in keys && k != "ID" ==> k in now
  {
    if keys != [] {
      NoDels(keys[1..], now);
      assert keys == [keys[0]] + keys[1..];
    }
  }

  lemma NoProps(was: Table, now: Table)
    ensures DiffProps(was, now) == [] <==> forall k :: k != "ID" ==> Get(was, k) == Get(now, k)
  {
    var (sets, dels) := (Sorted(now.Keys), Sorted(was.Keys));
    hide PropSets, PropDels;
    NoSets(sets, was, now);
    NoDels(dels, now);
    InKeys(sets, now);
    InKeys(dels, was);
    assert DiffProps(was, now) == [] <==> PropSets(sets, was, now) == [] && PropDels(dels, now) == [];
    if forall k :: k != "ID" ==> Get(was, k) == Get(now, k) {
      forall k | k in dels && k != "ID" ensures k in now { assert Get(was, k) == Get(now, k); }
    }
    if PropSets(sets, was, now) == [] && PropDels(dels, now) == [] {
      forall k | k != "ID" ensures Get(was, k) == Get(now, k) {
        if k in now { assert k in sets; } else { assert k in was ==> k in dels; }
      }
    }
  }

  lemma LogRecordsNotEmpty(added: seq<LogEntry>)
    ensures LogRecords(added) == [] <==> added == []
  {
  }

  lemma NoLogDiff(was: seq<LogEntry>, now: seq<LogEntry>)
    ensures DiffLog(was, now) == [] <==> was == now
  {
    hide LogLine.Render, Rendered;
    if |now| >= |was| && now[|now| - |was|..] == was {
      LogRecordsNotEmpty(now[..|now| - |was|]);
      assert now == now[..|now| - |was|] + now[|now| - |was|..];
    }
  }

  /// Nothing is written exactly when every field that is carried is the same.
  lemma NoDiff(was: Heading, now: Heading)
    requires was.id == now.id && Get(was.properties, "ID") == Get(now.properties, "ID")
    ensures Diff(was, now) == [] <==> SameFields(was, now)
  {
    hide DiffProps, DiffLog, Get, JoinNl, ConcatAll;
    NoProps(was.properties, now.properties);
    NoLogDiff(was.logbook, now.logbook);
    if forall k :: k != "ID" ==> Get(was.properties, k) == Get(now.properties, k) {
      SameLookups(was.properties, now.properties);
    }
    var (r1, r2, r3, r4) := (DiffScalars(was, now), DiffProps(was.properties, now.properties), DiffTexts(was, now),
                             DiffLog(was.logbook, now.logbook));
    assert Diff(was, now) == [] <==> r1 == [] && r2 == [] && r3 == [] && r4 == [];
    NoScalars(was, now);
  }

  lemma NoScalars(was: Heading, now: Heading)
    ensures DiffScalars(was, now) == [] <==>
      was.state == now.state && was.priority == now.priority && was.title == now.title
      && was.statistics == now.statistics && was.orgTags == now.orgTags
    ensures DiffTexts(was, now) == [] <==> was.extraDrawers == now.extraDrawers && was.body == now.body
  {
    hide JoinNl, ConcatAll;
  }

  // ---- old drawers ----

  /**
   The entries of an old drawer stand in front of the log as it was: each that
   was not there, once, in the drawer's order.
   */
  lemma {:induction false} OldEntriesStandInFront(log: seq<LogEntry>, entries: seq<LogEntry>) returns (front: seq<LogEntry>)
    ensures ApplyDrawer(log, entries) == front + log
    ensures Distinct(front) && forall e :: e in front <==> e in entries && e !in log
    ensures Distinct(entries) && (forall e :: e in entries ==> e !in log) ==> front == entries
  {
    if entries == [] {
      front := [];
      assert front + log == log;
    } else {
      var rest := OldEntriesStandInFront(log, entries[1..]);
      assert entries == [entries[0]] + entries[1..];
      if entries[0] in rest + log {
        front := rest;
        assert Distinct(entries) ==> entries[0] !in entries[1..];
      } else {
        front := [entries[0]] + rest;
        assert front + log == [entries[0]] + (rest + log);
      }
    }
  }

  // ---- the records by name ----

  lemma DiffOfFields(h: Heading, now: Heading)
    requires now.properties == h.properties && now.logbook == h.logbook
    ensures Diff(h, now) == DiffScalars(h, now) + DiffTexts(h, now)
  {
    NoProps(h.properties, h.properties);
    hide DiffProps, DiffScalars, DiffTexts;
  }

  lemma OneScalar(h: Heading, x: string, c: char, cookie: Option<string>, tags: seq<string>)
    ensures x != h.state ==> DiffScalars(h, h.(state := x)) == [Record("state", x)]
    ensures x != h.title ==> DiffScalars(h, h.(title := x)) == [Record("title", x)]
    ensures c != h.priority ==> DiffScalars(h, h.(priority := c)) == [Record("priority", [c])]
    ensures cookie != h.statistics ==> DiffScalars(h, h.(statistics := cookie)) == [Record("statistics", cookie.GetOr(""))]
    ensures tags != h.orgTags ==> DiffScalars(h, h.(orgTags := tags)) == [Record("org-tags", JoinNl(tags))]
  {
    hide JoinNl;
  }

  /// A change of one field is one record: the op that names it and the value it
  /// has now.
  lemma OneFieldOneRecord(h: Heading, x: string, c: char, cookie: Option<string>, tags: seq<string>)
    ensures x != h.state ==> Diff(h, h.(state := x)) == [Record("state", x)]
    ensures x != h.title ==> Diff(h, h.(title := x)) == [Record("title", x)]
    ensures c != h.priority ==> Diff(h, h.(priority := c)) == [Record("priority", [c])]
    ensures cookie != h.statistics ==> Diff(h, h.(statistics := cookie)) == [Record("statistics", cookie.GetOr(""))]
    ensures tags != h.orgTags ==> Diff(h, h.(orgTags := tags)) == [Record("org-tags", JoinNl(tags))]
  {
    OneScalar(h, x, c, cookie, tags);
    hide Diff, DiffScalars, JoinNl;
    DiffOfFields(h, h.(state := x));
    DiffOfFields(h, h.(title := x));
    DiffOfFields(h, h.(priority := c));
    DiffOfFields(h, h.(statistics := cookie));
    DiffOfFields(h, h.(orgTags := tags));
  }

  /// So is a change of the body or of the drawers.
  lemma OneTextOneRecord(h: Heading, body: string, drawers: seq<string>)
    ensures body != h.body ==> Diff(h, h.(body := body)) == [Record("body", body)]
    ensures drawers != h.extraDrawers ==> Diff(h, h.(extraDrawers := drawers)) == [Record("drawers", ConcatAll(drawers))]
  {
    NoScalars(h, h.(body := body));
    NoScalars(h, h.(extraDrawers := drawers));
    hide Diff, DiffScalars, ConcatAll;
    DiffOfFields(h, h.(body := body));
    DiffOfFields(h, h.(extraDrawers := drawers));
  }

  /// A line put in front of the logbook is one record, the line itself.
  lemma OneLineOneRecord(h: Heading, e: LogEntry)
    ensures Diff(h, h.(logbook := [e] + h.logbook)) == [Record("log", LogLine.Render(e))]
  {
    NoProps(h.properties, h.properties);
    var now := [e] + h.logbook;
    assert |now| == |h.logbook| + 1 && now[1..] == h.logbook && now[..1] == [e] && [e][1..] == [];
    assert LogRecords([e]) == [Record("log", LogLine.Render(e))];
    hide DiffProps, LogLine.Render;
  }

  lemma {:induction false} OneSet(keys: seq<string>, was: Table, k: string, v: string)
    requires Distinct(keys) && k in keys && k != "ID" && Get(was, k) != Some(v)
    ensures PropSets(keys, was, was[k := v]) == [Record("prop", k + "\n" + v)]
  {
    assert keys == [keys[0]] + keys[1..];
    if keys[0] == k {
      RestUnset(keys[1..], was, k, v);
    } else {
      OneSet(keys[1..], was, k, v);
    }
  }

  lemma {:induction false} RestUnset(keys: seq<string>, was: Table, k: string, v: string)
    requires k !in keys
    ensures PropSets(keys, was, was[k := v]) == []
  {
    if keys != [] {
      assert keys == [keys[0]] + keys[1..];
      RestUnset(keys[1..], was, k, v);
    }
  }

  lemma {:induction false} OneDel(keys: seq<string>, was: Table, k: string)
    requires Distinct(keys) && k in keys && k != "ID" && forall x :: x in keys ==> x in was
    ensures PropDels(keys, was - {k}) == [Record("prop-del", k)]
  {
    assert keys == [keys[0]] + keys[1..];
    if keys[0] == k {
      NoDels(keys[1..], was - {k});
    } else {
      OneDel(keys[1..], was, k);
    }
  }

  lemma {:induction false} NoneSet(keys: seq<string>, was: Table, k: string)
    requires k !in keys
    ensures PropSets(keys, was, was - {k}) == []
  {
    if keys != [] {
      assert keys == [keys[0]] + keys[1..];
      NoneSet(keys[1..], was, k);
    }
  }

  /// So is a property that is set or dropped; the id never is.
  lemma OnePropertyOneRecord(t: Table, k: string, v: string)
    requires k != "ID"
    ensures Get(t, k) != Some(v) ==> DiffProps(t, t[k := v]) == [Record("prop", k + "\n" + v)]
    ensures k in t ==> DiffProps(t, t - {k}) == [Record("prop-del", k)]
  {
    var (set1, set2, dels) := (Sorted(t[k := v].Keys), Sorted((t - {k}).Keys), Sorted(t.Keys));
    InKeys(set1, t[k := v]);
    InKeys(set2, t - {k});
    InKeys(dels, t);
    hide Sorted, PropSets, PropDels;
    if Get(t, k) != Some(v) {
      OneSet(set1, t, k, v);
      NoDels(dels, t[k := v]);
    }
    if k in t {
      NoneSet(set2, t, k);
      OneDel(dels, t, k);
    }
  }
}
