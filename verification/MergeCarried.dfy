/**
 A merge of two issues whose fields records can carry is itself one, whatever
 clashed: its conflict notes read back like any other line of the log.
 */
module MergeCarried {
  import opened Base
  import opened Text
  import opened Order
  import opened Issue
  import opened MergeSets
  import opened MergeLog
  import opened MergeDrawers
  import opened Merge
  import opened Ledger
  import LogLine

  // ---- the fields that clash are named on one line ----

  ghost predicate NamedOnOneLine(clashes: seq<Clash>) {
    forall c :: c in clashes ==> OneLine(c.field)
  }

  lemma OneLineParts(s: string, t: string)
    ensures OneLine(s + t) <==> OneLine(s) && OneLine(t)
  {
  }

  lemma {:induction false} PropertyFields(keys: seq<string>, o: Table, a: Table, b: Table)
    requires forall k :: k in a || k in b ==> OneLine(k)
    ensures NamedOnOneLine(PropertyClashes(keys, o, a, b))
  {
    hide MergedTokens, OneLine;
    if keys != [] {
      PropertyFields(keys[1..], o, a, b);
      var k := keys[0];
      assert PropertyAt(k, o, a, b).1 != [] ==> k in a || k in b;
      OneLineParts("property ", k);
      PropertyWord();
    }
  }

  lemma PropertyWord()
    ensures OneLine("property ") && OneLine("ballot of ") && OneLine("drawer ")
  {
  }

  lemma {:induction false} VoterOneLine(key: string)
    requires OneLine(key)
    ensures OneLine(WithoutVoter(key))
    decreases |key|
  {
    if "voter " <= key { VoterOneLine(key[6..]); }
  }

  lemma {:induction false} PartsOneLine(s: string, pat: string)
    requires OneLine(s) && SplitOnce(s, pat).Some?
    ensures var (a, b) := SplitOnce(s, pat).value; OneLine(a) && OneLine(b)
  {
    if !(pat <= s) && s != "" {
      PartsOneLine(s[1..], pat);
    }
  }

  lemma BallotKeyOneLine(line: string)
    requires OneLine(line)
    ensures OneLine(BallotKey(line))
  {
    hide Trim, SplitOnce;
    var b := ParseBallot(line);
    OneLineParts("line ", line);
    if b.Some? {
      var (stamp, rest) := SplitOnce(line[1..], "] ").value;
      PartsOneLine(line[1..], "] ");
      PartsOneLine(rest, ": ");
      TrimOneLine(SplitOnce(rest, ": ").value.0);
      OneLineParts("voter ", b.value.agent);
    }
  }

  lemma VoteKeysOneLine(m: seq<Vote>)
    requires WellFormedVotes(m)
    ensures forall v :: v in m ==> OneLine(v.key)
  {
    hide BallotKey, IsVoteLine, Trim, OneLine;
    forall v | v in m ensures OneLine(v.key) {
      var i :| 0 <= i < |m| && m[i] == v;
      assert ReadVote(m[i]);
      BallotKeyOneLine(v.line);
    }
  }

  lemma {:induction false} AddedKeysOneLine(keys: seq<string>, m: seq<Vote>)
    requires (forall k :: k in keys ==> OneLine(k)) && forall v :: v in m ==> OneLine(v.key)
    ensures forall k :: k in AddKeys(keys, m) ==> OneLine(k)
    decreases |m|
  {
    hide OneLine;
    if m != [] {
      assert m[0] in m && forall v :: v in m[1..] ==> v in m;
      AddedKeysOneLine(if m[0].key in keys then keys else keys + [m[0].key], m[1..]);
    }
  }

  lemma {:induction false} BallotFields(keys: seq<string>, o: map<string, string>, a: map<string, string>, b: map<string, string>)
    requires forall k :: k in keys ==> OneLine(k)
    ensures NamedOnOneLine(MergedBallots(keys, o, a, b).1)
  {
    hide OneLine, WithoutVoter, BallotStamp;
    if keys != [] {
      assert keys[0] in keys && forall k :: k in keys[1..] ==> k in keys;
      BallotFields(keys[1..], o, a, b);
      VoterOneLine(keys[0]);
      PropertyWord();
      OneLineParts("ballot of ", WithoutVoter(keys[0]));
    }
  }

  lemma VotesFields(o: Option<string>, a: Option<string>, b: Option<string>)
    ensures NamedOnOneLine(MergedVotes(o, a, b).1)
  {
    var (ov, av, bv) := (Votes(o), Votes(a), Votes(b));
    VotesWellFormed(o);
    VotesWellFormed(a);
    VotesWellFormed(b);
    hide Votes, WellFormedVotes, OneLine, NamedOnOneLine, AddKeys, MergedBallots;
    VoteKeysOneLine(ov);
    VoteKeysOneLine(av);
    VoteKeysOneLine(bv);
    AddedKeysOneLine([], av);
    AddedKeysOneLine(AddKeys([], av), bv);
    AddedKeysOneLine(AddKeys(AddKeys([], av), bv), ov);
    BallotFields(KeysOf(ov, av, bv), Ballots(ov), Ballots(av), Ballots(bv));
  }

  lemma {:induction false} TrimOfOneLine(s: string, c: char)
    requires OneLine(s)
    ensures OneLine(TrimStartOf(s, c)) && OneLine(TrimEndOf(s, c))
    decreases |s|
  {
    if s != "" {
      if s[0] == c { TrimOfOneLine(s[1..], c); }
      if s[|s| - 1] == c { TrimOfOneLine(s[..|s| - 1], c); }
    }
  }

  lemma DrawerNameOneLine(d: string)
    ensures OneLine(DrawerName(d))
  {
    var first := SplitNl(d)[0];
    assert OneLine(first);
    TrimOneLine(first);
    TrimOfOneLine(Trim(first), ':');
    TrimOfOneLine(TrimStartOf(Trim(first), ':'), ':');
    hide SplitNl, Trim, TrimStartOf, TrimEndOf;
  }

  lemma {:induction false} NamesOneLine(names: seq<string>, drawers: seq<string>)
    requires forall n :: n in names ==> OneLine(n)
    ensures forall n :: n in AddNames(names, drawers) ==> OneLine(n)
    decreases |drawers|
  {
    hide OneLine, DrawerName;
    if drawers != [] {
      var n := DrawerName(drawers[0]);
      DrawerNameOneLine(drawers[0]);
      NamesOneLine(if n != CONFLICT_DRAWER && n !in names then names + [n] else names, drawers[1..]);
    }
  }

  lemma DrawerFields(name: string, base: seq<string>, ours: seq<string>, theirs: seq<string>)
    requires OneLine(name)
    ensures NamedOnOneLine(MergedDrawer(name, base, ours, theirs).1)
  {
    hide OneLine, Find, MergedVotes;
    VotesFields(Find(base, name), Find(ours, name), Find(theirs, name));
    PropertyWord();
    OneLineParts("drawer ", name);
  }

  lemma {:induction false} NamedFields(names: seq<string>, base: seq<string>, ours: seq<string>, theirs: seq<string>)
    requires forall n :: n in names ==> OneLine(n)
    ensures NamedOnOneLine(MergedNamed(names, base, ours, theirs).1)
  {
    hide OneLine, MergedDrawer;
    if names != [] {
      assert names[0] in names && forall n :: n in names[1..] ==> n in names;
      DrawerFields(names[0], base, ours, theirs);
      NamedFields(names[1..], base, ours, theirs);
    }
  }

  lemma DrawersFields(base: seq<string>, ours: seq<string>, theirs: seq<string>)
    ensures NamedOnOneLine(MergedDrawers(base, ours, theirs).1)
  {
    hide OneLine, AddNames, MergedNamed, NamedOnOneLine;
    NamesOneLine([], ours);
    NamesOneLine(AddNames([], ours), theirs);
    NamedFields(AddNames(AddNames([], ours), theirs), base, ours, theirs);
  }

  lemma ScalarFields(field: string, o: string, a: string, b: string)
    requires OneLine(field)
    ensures NamedOnOneLine(Scalar(field, o, a, b).1)
  {
  }

  lemma StateFields(o: Heading, a: Heading, b: Heading)
    ensures NamedOnOneLine(MergedState(o, a, b).1)
  {
    hide MovedIn, NamedOnOneLine;
    ScalarFields("state", o.state, a.state, b.state);
    assert NamedOnOneLine([]) by { NoNames(); }
  }

  lemma NoNames()
    ensures NamedOnOneLine([])
  {
  }

  lemma NamesConcat(s: seq<Clash>, t: seq<Clash>)
    requires NamedOnOneLine(s) && NamedOnOneLine(t)
    ensures NamedOnOneLine(s + t)
  {
  }

  lemma ClashFields(o: Site, a: Site, b: Site)
    requires forall k :: k in a.heading.properties || k in b.heading.properties ==> OneLine(k)
    ensures NamedOnOneLine(MergedFields(o, a, b).clashes)
  {
    var (x, y, z) := (o.heading, a.heading, b.heading);
    hide NamedOnOneLine, Scalar, MergedState, MergedTable, MergedTags, MergedOrder, MergedLog, MergedDrawers, PropertyClashes,
      ClaimReleased, Sorted, Pick;
    ScalarNames(o, a, b);
    StateFields(x, y, z);
    var keys := Sorted(x.properties.Keys + y.properties.Keys + z.properties.Keys);
    PropertyFields(keys, x.properties, y.properties, z.properties);
    DrawersFields(x.extraDrawers, y.extraDrawers, z.extraDrawers);
    var (c1, c2, c3) := (Scalar("title", x.title, y.title, z.title).1, MergedState(x, y, z).1, Scalar("body", x.body, y.body, z.body).1);
    var (c4, c5) := (MergedPriority(x.priority, y.priority, z.priority).1, MergedStatistics(x.statistics, y.statistics, z.statistics).1);
    var (c6, c7) := (PropertyClashes(keys, x.properties, y.properties, z.properties),
                     MergedDrawers(x.extraDrawers, y.extraDrawers, z.extraDrawers).1);
    var c8 := Scalar("the org after the heading", o.tail, a.tail, b.tail).1;
    NamesConcat(c1, c2);
    NamesConcat(c1 + c2, c3);
    NamesConcat(c1 + c2 + c3, c4);
    NamesConcat(c1 + c2 + c3 + c4, c5);
    NamesConcat(c1 + c2 + c3 + c4 + c5, c6);
    NamesConcat(c1 + c2 + c3 + c4 + c5 + c6, c7);
    NamesConcat(c1 + c2 + c3 + c4 + c5 + c6 + c7, c8);
  }

  lemma ScalarNames(o: Site, a: Site, b: Site)
    ensures var (x, y, z) := (o.heading, a.heading, b.heading);
      && NamedOnOneLine(Scalar("title", x.title, y.title, z.title).1)
      && NamedOnOneLine(Scalar("body", x.body, y.body, z.body).1)
      && NamedOnOneLine(MergedPriority(x.priority, y.priority, z.priority).1)
      && NamedOnOneLine(MergedStatistics(x.statistics, y.statistics, z.statistics).1)
      && NamedOnOneLine(Scalar("the org after the heading", o.tail, a.tail, b.tail).1)
  {
    hide Scalar, NamedOnOneLine;
    var (x, y, z) := (o.heading, a.heading, b.heading);
    ScalarFields("title", x.title, y.title, z.title);
    ScalarFields("body", x.body, y.body, z.body);
    ScalarFields("priority", [x.priority], [y.priority], [z.priority]);
    ScalarFields("statistics", x.statistics.GetOr(""), y.statistics.GetOr(""), z.statistics.GetOr(""));
    ScalarFields("the org after the heading", o.tail, a.tail, b.tail);
  }

  // ---- conflict notes read back ----

  lemma NoteWords()
    ensures OneLine("merge conflict: ") && OneLine(KEPT_OURS)
    ensures |KEPT_OURS| > 0 && KEPT_OURS[|KEPT_OURS| - 1] == 'r'
  {
    var (s, t, u) := (" changed on both sides; ", "kept ours, theirs is in ", "the MERGE_CONFLICT drawer");
    assert OneLine(s) && OneLine(t) && OneLine(u);
    assert KEPT_OURS == s + t + u;
  }

  lemma ConflictNoteReads(field: string, now: string)
    requires OneLine(field) && LogLine.IsStamp(now)
    ensures LogLine.ReadEntry(ConflictNote(field + KEPT_OURS, now))
  {
    var note := "merge conflict: " + (field + KEPT_OURS);
    NoteWords();
    hide KEPT_OURS, LogLine.Parse, LogLine.Render, LogLine.IsStamp;
    assert note[0] == 'm' && note[|note| - 1] == KEPT_OURS[|KEPT_OURS| - 1];
    LogLine.NoteReadsBack(note, now);
    NoteIsALine(note, now);
  }

  lemma NoteIsALine(note: string, now: string)
    requires OneLine(note) && LogLine.IsStamp(now)
    ensures var line := LogLine.Render(LogEntry(now, None, None, Some(note), None)); OneLine(line) && Trim(line) != ""
  {
    LogLine.NoteText(note, now);
    var line := "- " + ("Note: \"" + note + "\"") + " " + now;
    hide LogLine.Render;
    assert OneLine("- ") && OneLine("Note: \"") && OneLine("\"") && OneLine(" ");
    assert line[|line| - 1] == now[|now| - 1] == ']';
    TrimNothing(line);
  }

  lemma {:induction false} ClashNotesRead(clashes: seq<Clash>, now: string)
    requires NamedOnOneLine(clashes) && LogLine.IsStamp(now)
    ensures forall e :: e in ClashNotes(clashes, now) ==> LogLine.ReadEntry(e)
  {
    hide LogLine.ReadEntry, LogLine.IsStamp, OneLine, ConflictNote;
    if clashes != [] {
      assert clashes[0] in clashes && forall c :: c in clashes[1..] ==> c in clashes;
      ClashNotesRead(clashes[1..], now);
      ConflictNoteReads(clashes[0].field, now);
    }
  }

  // ---- the merge is carried ----

  lemma {:induction false} KeptFrom(log: seq<LogEntry>, drop: set<string>)
    ensures forall e :: e in KeepLines(log, drop) ==> e in log
  {
    hide LogLine.Render;
    if log != [] {
      KeptFrom(log[1..], drop);
      assert log == [log[0]] + log[1..];
    }
  }

  lemma {:induction false} AddedFrom(out: seq<LogEntry>, theirs: seq<LogEntry>, drop: set<string>)
    ensures forall e :: e in AddLines(out, theirs, drop) ==> e in out || e in theirs
    decreases |theirs|
  {
    hide LogLine.Render, Insert, Lines;
    if theirs != [] {
      assert theirs == [theirs[0]] + theirs[1..];
      var added := LogLine.Render(theirs[0]) !in drop + Lines(out);
      InsertedFrom(out, theirs[0]);
      AddedFrom(if added then Insert(out, theirs[0]) else out, theirs[1..], drop);
    }
  }

  lemma InsertedFrom(out: seq<LogEntry>, e: LogEntry)
    ensures forall x :: x in Insert(out, e) ==> x in out || x == e
  {
    hide Place;
  }

  lemma MergedLogFrom(o: seq<LogEntry>, a: seq<LogEntry>, b: seq<LogEntry>)
    ensures forall e :: e in MergedLog(o, a, b) ==> e in a || e in b
  {
    hide KeepLines, AddLines, Lines;
    KeptFrom(a, Dropped(o, a, b));
    AddedFrom(KeepLines(a, Dropped(o, a, b)), b, Dropped(o, a, b));
  }

  lemma MergedTagsFrom(o: seq<string>, a: seq<string>, b: seq<string>)
    ensures forall t :: t in MergedTags(o, a, b) ==> t in a || t in b
  {
    TagsSetLaw(o, a, b);
    hide MergedTags, ThreeWay;
    forall t | t in MergedTags(o, a, b) ensures t in a || t in b {
      assert t in Elems(MergedTags(o, a, b));
      FromASide(Elems(o), Elems(a), Elems(b), t);
      assert t in Elems(a) || t in Elems(b);
    }
  }

  lemma FromASide<T>(o: set<T>, a: set<T>, b: set<T>, x: T)
    requires x in ThreeWay(o, a, b)
    ensures x in a || x in b
  {
  }

  /// A key of the merge is a key of a side.
  lemma MergedKeysFrom(o: Table, a: Table, b: Table)
    ensures MergedTable(o, a, b).Keys <= a.Keys + b.Keys
  {
    hide PropertyAt;
    forall k | k in MergedTable(o, a, b) ensures k in a || k in b {
      GoneStaysGone(k, o, a, b);
    }
  }

  lemma GoneStaysGone(k: string, o: Table, a: Table, b: Table)
    ensures k !in a && k !in b ==> PropertyAt(k, o, a, b).0 == None
  {
    hide SplitSpace, AddNew, JoinSpace;
    NoTokens();
    AddNothing(Without(PropTokens(None), Removed(PropTokens(Get(o, k)), PropTokens(None), PropTokens(None))), PropTokens(None),
               Removed(PropTokens(Get(o, k)), PropTokens(None), PropTokens(None)));
  }

  /// The merge of two issues that records can carry is one.
  lemma MergeIsCarried(o: Heading, a: Heading, b: Heading, now: string)
    requires CarriedFields(a) && CarriedFields(b) && LogLine.IsStamp(now)
    ensures CarriedFields(MergedSite(Site(o, ""), Site(a, ""), Site(b, ""), now).0.heading)
  {
    var m := MergedFields(Site(o, ""), Site(a, ""), Site(b, ""));
    hide MergedFields, ClashNotes, ClashText, DropDrawers, CarriedFields, LogLine.IsStamp, NamedOnOneLine;
    CarriedParts(a);
    CarriedParts(b);
    FieldsAreCarried(o, a, b);
    ClashFields(Site(o, ""), Site(a, ""), Site(b, ""));
    ClashNotesRead(m.clashes, now);
    CarriedParts(m.site.heading);
    CarriedParts(Annotated(m.site.heading, m.clashes, now));
  }

  lemma FieldsAreCarried(o: Heading, a: Heading, b: Heading)
    requires CarriedFields(a) && CarriedFields(b)
    ensures CarriedFields(MergedFields(Site(o, ""), Site(a, ""), Site(b, "")).site.heading)
  {
    MergedLogFrom(o.logbook, a.logbook, b.logbook);
    MergedTagsFrom(o.orgTags, a.orgTags, b.orgTags);
    MergedKeysFrom(o.properties, a.properties, b.properties);
    assert MergedStatistics(o.statistics, a.statistics, b.statistics).0 != Some("") by { hide Scalar; }
    hide *;
    MergedParts(o, a, b);
    var h := MergedFields(Site(o, ""), Site(a, ""), Site(b, "")).site.heading;
    CarriedParts(a);
    CarriedParts(b);
    CarriedParts(h);
  }

  lemma CarriedParts(h: Heading)
    ensures CarriedFields(h) <==>
      && h.statistics != Some("")
      && (forall t :: t in h.orgTags ==> PlainLine(t) && t != "")
      && (forall k :: k in h.properties ==> OneLine(k))
      && (forall e :: e in h.logbook ==> LogLine.ReadEntry(e))
  {
    hide PlainLine, OneLine, LogLine.ReadEntry;
  }

  lemma MergedParts(o: Heading, a: Heading, b: Heading)
    ensures var h := MergedFields(Site(o, ""), Site(a, ""), Site(b, "")).site.heading;
      && h.statistics == MergedStatistics(o.statistics, a.statistics, b.statistics).0
      && h.orgTags == MergedTags(o.orgTags, a.orgTags, b.orgTags)
      && h.logbook == MergedLog(o.logbook, a.logbook, b.logbook)
      && h.properties.Keys <= MergedTable(o.properties, a.properties, b.properties).Keys
      && h.propertyOrder == MergedOrder(a.propertyOrder, b.propertyOrder, h.properties)
  {
    hide Scalar, MergedState, MergedPriority, MergedStatistics, MergedTable, MergedTags, MergedOrder, MergedLog, MergedDrawers,
      PropertyClashes, ClaimReleased, Sorted, Pick;
  }

  /// What the merge leaves of the id, which both sides share.
  lemma MergedIdStays(o: Heading, a: Heading, b: Heading, now: string)
    requires Get(a.properties, "ID") == Get(b.properties, "ID") && "ID" in a.properties
    ensures var m := MergedSite(Site(o, ""), Site(a, ""), Site(b, ""), now).0.heading;
      m.id == a.id && Get(m.properties, "ID") == Get(a.properties, "ID")
  {
    hide Scalar, MergedState, MergedPriority, MergedStatistics, MergedTags, MergedOrder, MergedLog, MergedDrawers, PropertyClashes,
      ClaimReleased, Sorted, ClashNotes, ClashText, DropDrawers, MergedTokens;
    assert PropertyAt("ID", o.properties, a.properties, b.properties).0 == Get(a.properties, "ID");
  }
}
