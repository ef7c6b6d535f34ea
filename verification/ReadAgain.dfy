/**
 An issue read from what was written is settled: written and read once more it
 is the same issue (`classify`, `crates/vissue-core/src/props.rs`;
 `settle_heading_classifiers`, `crates/vissue-core/src/org.rs`).
 */
module ReadAgain {
  import opened Base
  import opened Text
  import opened Org
  import opened Issue
  import opened Escape
  import opened Planning
  import opened ReadIssue
  import opened SiteReadsBack
  import opened IssueReadsBack
  import Headline
  import LogLine
  import Print
  import ReadHead
  import ReadBody

  // ---- the classifiers are settled ----

  /// A tag that stays in the property.
  predicate Stays(p: string) {
    p != "" && Trim(p) == p && ',' !in p && ':' !in p && !Headline.IsTag(p)
  }

  lemma {:induction false} TrimSettled(s: string)
    ensures Trim(Trim(s)) == Trim(s)
  {
    TrimsCommute(TrimStart(s));
    TrimTwice(TrimStart(s));
    TrimStartTwice(s);
    hide TrimStart, TrimEnd;
    assert TrimStart(TrimEnd(TrimStart(s))) == TrimEnd(TrimStart(TrimStart(s)));
  }

  lemma {:induction false} TrimStartTwice(s: string)
    ensures TrimStart(TrimStart(s)) == TrimStart(s)
  {
    if s != "" && IsSpace(s[0]) { TrimStartTwice(s[1..]); }
  }

  lemma {:induction false} PiecesApart(s: string)
    ensures forall i :: 0 <= i < |Print.Pieces(s)| ==> ',' !in Print.Pieces(s)[i] && ':' !in Print.Pieces(s)[i]
  {
    if s != "" {
      PiecesApart(s[1..]);
      var rest := Print.Pieces(s[1..]);
      var all := Print.Pieces(s);
      forall i | 0 <= i < |all| ensures ',' !in all[i] && ':' !in all[i] {
        if s[0] == ',' || s[0] == ':' {
          if i > 0 { assert all[i] == rest[i - 1]; }
        } else if i == 0 {
          assert all[0] == [s[0]] + rest[0];
        } else {
          assert all[i] == rest[i];
        }
      }
    }
  }

  lemma {:induction false} TrimKeepsOut(s: string, c: char)
    requires c !in s
    ensures c !in Trim(s)
  {
    TrimStartOut(s, c);
    TrimEndOut(TrimStart(s), c);
  }

  lemma {:induction false} TrimStartOut(s: string, c: char)
    requires c !in s
    ensures c !in TrimStart(s)
  {
    if s != "" && IsSpace(s[0]) { TrimStartOut(s[1..], c); }
  }

  lemma {:induction false} TrimEndOut(s: string, c: char)
    requires c !in s
    ensures c !in TrimEnd(s)
    decreases |s|
  {
    if s != "" && IsSpace(s[|s| - 1]) { TrimEndOut(s[..|s| - 1], c); }
  }

  /// Settling adds tags, and keeps only parts that stay.
  lemma {:induction false} SettledParts(pieces: seq<string>, tags: seq<string>, kept: seq<string>)
    requires forall i :: 0 <= i < |pieces| ==> ',' !in pieces[i] && ':' !in pieces[i]
    requires forall p :: p in kept ==> Stays(p)
    ensures var (more, left) := Print.SettleTags(pieces, tags, kept);
      && (forall t :: t in tags ==> t in more)
      && forall p :: p in left ==> Stays(p)
    decreases |pieces|
  {
    hide Trim, Headline.IsTag;
    if pieces != [] {
      var (tag, rest) := (Trim(pieces[0]), pieces[1..]);
      assert forall i :: 0 <= i < |rest| ==> rest[i] == pieces[i + 1];
      if tag == "" {
        SettledParts(rest, tags, kept);
      } else if Headline.IsTag(tag) {
        assert forall t :: t in tags ==> t in Print.PutTag(tags, tag);
        SettledParts(rest, Print.PutTag(tags, tag), kept);
      } else {
        TrimSettled(pieces[0]);
        TrimKeepsOut(pieces[0], ',');
        TrimKeepsOut(pieces[0], ':');
        assert Stays(tag);
        assert forall p :: p in kept + [tag] ==> p in kept || p == tag;
        SettledParts(rest, tags, kept + [tag]);
      }
    }
  }

  lemma {:induction false} PieceBehind(p: string, rest: string)
    requires ',' !in p && ':' !in p
    ensures Print.Pieces(p + "," + rest) == [p] + Print.Pieces(rest) && Print.Pieces(p) == [p]
  {
    if p == "" {
      assert (p + "," + rest)[1..] == rest;
    } else {
      PieceBehind(p[1..], rest);
      assert (p + "," + rest)[1..] == p[1..] + "," + rest && p == [p[0]] + p[1..];
    }
  }

  lemma {:induction false} PiecesOfJoined(kept: seq<string>)
    requires kept != [] && forall p :: p in kept ==> Stays(p)
    ensures Print.Pieces(Print.JoinComma(kept)) == kept
  {
    hide Trim, Headline.IsTag;
    assert Stays(kept[0]);
    assert kept == [kept[0]] + kept[1..];
    if |kept| == 1 {
      PieceBehind(kept[0], "");
    } else {
      PiecesOfJoined(kept[1..]);
      PieceBehind(kept[0], Print.JoinComma(kept[1..]));
    }
  }

  lemma {:induction false} NothingSettles(kept: seq<string>, tags: seq<string>, done: seq<string>)
    requires forall p :: p in kept ==> Stays(p)
    ensures Print.SettleTags(kept, tags, done) == (tags, done + kept)
    decreases |kept|
  {
    hide Trim, Headline.IsTag;
    if kept == [] {
      assert done + kept == done;
    } else {
      assert kept == [kept[0]] + kept[1..] && Stays(kept[0]);
      NothingSettles(kept[1..], tags, done + [kept[0]]);
      assert done + [kept[0]] + kept[1..] == done + kept;
    }
  }

  lemma {:induction false} JoinedEnds(kept: seq<string>)
    requires kept != [] && forall p :: p in kept ==> Stays(p)
    ensures var s := Print.JoinComma(kept); s != "" && !IsSpace(s[0]) && !IsSpace(s[|s| - 1])
  {
    assert Stays(kept[0]);
    TrimmedEnds(kept[0]);
    assert kept == [kept[0]] + kept[1..];
    hide Trim, Headline.IsTag;
    if |kept| > 1 {
      JoinedEnds(kept[1..]);
    }
  }

  lemma JoinedTrimmed(kept: seq<string>)
    requires kept != [] && forall p :: p in kept ==> Stays(p)
    ensures Trim(Print.JoinComma(kept)) == Print.JoinComma(kept)
  {
    JoinedEnds(kept);
    TrimNothing(Print.JoinComma(kept));
  }

  /// Tags that hold what the classifiers name, and a table in which only what
  /// is no tag is left.
  predicate IsSettled(tags: seq<string>, t: Table) {
    var (kind, other) := (Get(t, "TYPE").GetOr(""), Trim(Get(t, "VISSUE_TYPE").GetOr("")));
    && (Headline.IsTag(kind) ==> kind in tags) && (Headline.IsTag(other) ==> other in tags)
    && (Headline.IsTag(Trim(kind)) ==> Trim(kind) in tags)
  }

  lemma SettledStays(tags: seq<string>, t: Table, kept: seq<string>)
    requires IsSettled(tags, t) && forall p :: p in kept ==> Stays(p)
    requires if kept == [] then Print.TAGS_PROPERTY !in t else Get(t, Print.TAGS_PROPERTY) == Some(Print.JoinComma(kept))
    ensures Print.Classified(tags, t) == (tags, t)
  {
    hide Trim, Headline.IsTag, Print.Pieces, Print.SettleTags, Print.JoinComma;
    var (kind, other) := (Get(t, "TYPE").GetOr(""), Trim(Get(t, "VISSUE_TYPE").GetOr("")));
    assert Print.PutTag(tags, kind) == tags && Print.PutTag(tags, other) == tags && Print.PutTag(tags, Trim(kind)) == tags;
    if kept != [] {
      PiecesOfJoined(kept);
      NothingSettles(kept, tags, []);
      assert [] + kept == kept;
      assert t[Print.TAGS_PROPERTY := Print.JoinComma(kept)] == t;
    }
  }

  /// What classifying leaves: tags that are settled, and of the tags property
  /// the parts that stay.
  lemma ClassifiedSettles(orgTags: seq<string>, t: Table) returns (kept: seq<string>)
    ensures var (tags, c) := Print.Classified(orgTags, t);
      && IsSettled(tags, t)
      && (forall p :: p in kept ==> Stays(p))
      && if kept == [] then Print.TAGS_PROPERTY !in c else Get(c, Print.TAGS_PROPERTY) == Some(Print.JoinComma(kept))
  {
    hide Trim, Headline.IsTag, Print.Pieces, Print.SettleTags, Print.JoinComma;
    var kind := Get(t, "TYPE").GetOr("");
    var typed := Print.PutTag(Print.PutTag(Print.PutTag(orgTags, kind), Trim(Get(t, "VISSUE_TYPE").GetOr(""))), Trim(kind));
    assert IsSettled(typed, t);
    if Print.TAGS_PROPERTY in t {
      PiecesApart(t[Print.TAGS_PROPERTY]);
      SettledParts(Print.Pieces(t[Print.TAGS_PROPERTY]), typed, []);
      kept := Print.SettleTags(Print.Pieces(t[Print.TAGS_PROPERTY]), typed, []).1;
    } else {
      kept := [];
    }
  }

  // ---- the keys and the values ----

  /// A value of what was read is what stood under that key, less its outer
  /// blanks.
  lemma ValueAgain(h: Heading, k: string)
    ensures k in KeysRead(h) ==> Get(AsRead(h).properties, k) == Some(ValueRead(h, k))
    ensures k !in KeysRead(h) ==> Get(AsRead(h).properties, k) == None
  {
    hide KeysRead, ValueRead;
  }

  lemma IsPlanning(k: string)
    ensures k in Print.PLANNING_KEYS ==> k != "ID" && k != Print.TAGS_PROPERTY && k != "TYPE" && k != "VISSUE_TYPE"
  {
  }

  /// Which keys are read.
  lemma KeysAgain(h: Heading, k: string)
    ensures k in Print.PLANNING_KEYS ==> (k in KeysRead(h) <==> Trim(Get(h.properties, k).GetOr("")) != "")
    ensures k !in Print.PLANNING_KEYS && k != "ID" ==> (k in KeysRead(h) <==> k in Kept(h))
  {
    FirstsFacts(Print.PLANNING_KEYS, h.properties);
    Print.ShownKeysFacts(h.propertyOrder, h.orgTags, h.properties);
    ClassifiedKeeps(h.orgTags, h.properties);
    IsPlanning(k);
    hide Trim, Print.Classified, Print.ShownKeys, DatesOf, Firsts, Print.PLANNING_KEYS;
  }

  /// A value read under a key that is no id.
  lemma ReadUnder(h: Heading, k: string)
    requires k != "ID"
    ensures Get(AsRead(h).properties, k).GetOr("") == Trim(Get(Kept(h), k).GetOr(""))
  {
    ValueAgain(h, k);
    KeysAgain(h, k);
    ClassifiedKeeps(h.orgTags, h.properties);
    IsPlanning(k);
    assert Trim("") == "";
    hide Trim, Kept, KeysRead, AsRead, Print.PLANNING_KEYS;
  }

  lemma TagsAgain(h: Heading)
    ensures Print.Classified(Tags(h), AsRead(h).properties) == (Tags(h), AsRead(h).properties)
  {
    var t := AsRead(h).properties;
    var kept := ClassifiedSettles(h.orgTags, h.properties);
    ClassifiedKeeps(h.orgTags, h.properties);
    ReadUnder(h, "TYPE");
    ReadUnder(h, "VISSUE_TYPE");
    KeysAgain(h, Print.TAGS_PROPERTY);
    ValueAgain(h, Print.TAGS_PROPERTY);
    NamesApart();
    TrimSettled(Get(h.properties, "VISSUE_TYPE").GetOr(""));
    TrimSettled(Get(h.properties, "TYPE").GetOr(""));
    if kept != [] { JoinedTrimmed(kept); }
    hide Trim, Headline.IsTag, AsRead, KeysRead, Print.Classified, Print.JoinComma;
    SettledStays(Tags(h), t, kept);
  }

  lemma NamesApart()
    ensures Print.TAGS_PROPERTY !in Print.PLANNING_KEYS && Print.TAGS_PROPERTY != "ID"
    ensures "TYPE" != Print.TAGS_PROPERTY && "VISSUE_TYPE" != Print.TAGS_PROPERTY
  {
  }

  lemma {:induction false} SameDates(keys: seq<string>, t: Table, u: Table)
    requires forall k :: k in keys ==> Trim(Get(t, k).GetOr("")) == Trim(Get(u, k).GetOr(""))
    ensures DatesOf(keys, t) == DatesOf(keys, u)
  {
    hide Trim;
    if keys != [] {
      assert keys == [keys[0]] + keys[1..] && keys[0] in keys;
      SameDates(keys[1..], t, u);
    }
  }

  lemma DatesAgain(h: Heading)
    ensures DatesIn(AsRead(h)) == DatesIn(h)
  {
    var t := AsRead(h).properties;
    forall k | k in Print.PLANNING_KEYS ensures Trim(Get(t, k).GetOr("")) == Trim(Get(h.properties, k).GetOr("")) {
      IsPlanning(k);
      ReadUnder(h, k);
      ClassifiedKeeps(h.orgTags, h.properties);
      TrimSettled(Get(h.properties, k).GetOr(""));
    }
    SameDates(Print.PLANNING_KEYS, t, h.properties);
  }

  lemma {:induction false} ShownOf(keys: seq<string>, t: Table)
    ensures Print.OnlyShown(keys, t, t) == OnlyThose(keys, t)
  {
    if keys != [] { ShownOf(keys[1..], t); }
  }

  /// The keys of the table that are neither a date nor the id.
  function OnlyThose(keys: seq<string>, t: Table): seq<string> {
    if keys == [] then []
    else (if keys[0] in t && keys[0] != "ID" && keys[0] !in Print.PLANNING_KEYS then [keys[0]] else []) + OnlyThose(keys[1..], t)
  }

  lemma {:induction false} NoneShown(keys: seq<string>, rest: seq<string>, t: Table)
    requires forall k :: k in keys ==> k == "ID" || k in Print.PLANNING_KEYS
    ensures OnlyThose(keys + rest, t) == OnlyThose(rest, t)
  {
    if keys == [] {
      assert keys + rest == rest;
    } else {
      assert keys == [keys[0]] + keys[1..] && keys[0] in keys && (keys + rest)[1..] == keys[1..] + rest;
      NoneShown(keys[1..], rest, t);
    }
  }

  lemma {:induction false} AllShown(keys: seq<string>, t: Table)
    requires forall k :: k in keys ==> k in t && k != "ID" && k !in Print.PLANNING_KEYS
    ensures OnlyThose(keys, t) == keys
  {
    if keys != [] {
      assert keys == [keys[0]] + keys[1..] && keys[0] in keys;
      AllShown(keys[1..], t);
    }
  }

  lemma KeysAreAll(h: Heading)
    ensures Distinct(KeysRead(h)) && forall k :: k in KeysRead(h) <==> k in AsRead(h).properties
  {
    KeysReadFacts(h);
    hide KeysRead, ValueRead;
  }

  lemma ShownIs(x: Heading)
    requires Print.Classified(x.orgTags, x.properties).1 == x.properties
    requires Print.OrderedKeys(x.propertyOrder, x.properties) == x.propertyOrder
    ensures Shown(x) == OnlyThose(x.propertyOrder, x.properties)
  {
    ShownOf(x.propertyOrder, x.properties);
    hide Print.Classified, Print.OrderedKeys, Print.OnlyShown, OnlyThose;
  }

  /// The dates and the id come first, and are not shown.
  lemma FrontNotShown(h: Heading)
    ensures forall k :: k in Firsts(DatesIn(h)) + ["ID"] ==> k == "ID" || k in Print.PLANNING_KEYS
    ensures forall k :: k in Shown(h) ==> k in AsRead(h).properties && k != "ID" && k !in Print.PLANNING_KEYS
  {
    FirstsFacts(Print.PLANNING_KEYS, h.properties);
    Print.ShownKeysFacts(h.propertyOrder, h.orgTags, h.properties);
    hide Trim, Print.Classified, Print.ShownKeys, Firsts, DatesOf, Print.PLANNING_KEYS, ValueRead;
  }

  lemma ReadParts(h: Heading)
    ensures AsRead(h).propertyOrder == KeysRead(h) == Firsts(DatesIn(h)) + ["ID"] + Shown(h)
    ensures AsRead(h).orgTags == Tags(h)
  {
    hide Firsts, DatesIn, Shown, ValueRead, Tags, FinishedEach, EscapedBody;
  }

  lemma ShownAgain(h: Heading)
    ensures Shown(AsRead(h)) == Shown(h)
  {
    hide *;
    var (x, dated) := (AsRead(h), Firsts(DatesIn(h)));
    ReadParts(h);
    KeysAreAll(h);
    Print.WholeOrderStands(KeysRead(h), x.properties);
    TagsAgain(h);
    ShownIs(x);
    FrontNotShown(h);
    NoneShown(dated + ["ID"], Shown(h), x.properties);
    AllShown(Shown(h), x.properties);
  }

  lemma {:induction false} FinishedAgain(drawers: seq<string>)
    ensures FinishedEach(FinishedEach(drawers)) == FinishedEach(drawers)
  {
    if drawers != [] {
      FinishedAgain(drawers[1..]);
      var once := FinishedEach(drawers);
      assert once[1..] == FinishedEach(drawers[1..]);
      assert Finished(once[0]) == once[0];
    }
  }

  lemma KeysSame(x: Heading, h: Heading)
    requires DatesIn(x) == DatesIn(h) && Shown(x) == Shown(h)
    ensures KeysRead(x) == KeysRead(h)
  {
    hide Shown, DatesIn, Firsts;
  }

  lemma ValuesSame(h: Heading, k: string)
    requires k in KeysRead(h)
    ensures ValueRead(AsRead(h), k) == ValueRead(h, k)
  {
    ValueAgain(h, k);
    TagsAgain(h);
    TrimSettled(h.id);
    TrimSettled(Get(Kept(h), k).GetOr(""));
    hide KeysRead, EscapedBody, FinishedEach, Trim, Print.Classified;
  }

  lemma TablesSame(h: Heading)
    requires KeysRead(AsRead(h)) == KeysRead(h)
    ensures AsRead(AsRead(h)).properties == AsRead(h).properties
  {
    var x := AsRead(h);
    forall k | k in KeysRead(h) ensures ValueRead(x, k) == ValueRead(h, k) { ValuesSame(h, k); }
    hide KeysRead, ValueRead;
  }

  /// What was read says the same when it is written and read once more.
  lemma ReadTwiceIsReadOnce(h: Heading)
    ensures AsRead(AsRead(h)) == AsRead(h)
  {
    var x := AsRead(h);
    TagsAgain(h);
    DatesAgain(h);
    ShownAgain(h);
    KeysSame(x, h);
    FinishedAgain(h.extraDrawers);
    WritingTwiceIsWritingOnce(h.body);
    TrimSettled(h.id);
    TablesSame(h);
    KeptIs(x);
    AsReadParts(h);
    AsReadParts(x);
    ReadParts(h);
    hide *;
    AgainParts(h);
  }

  lemma AgainParts(h: Heading)
    ensures var x := AsRead(h);
      && x.body == EscapedBody(h.body) && x.extraDrawers == FinishedEach(h.extraDrawers) && x.id == Trim(h.id)
      && x.title == h.title && x.state == h.state && x.priority == h.priority && x.statistics == h.statistics
      && x.logbook == h.logbook && x.lineStart == h.lineStart && x.lineEnd == h.lineEnd
  {
  }

  // ---- what was read can be read ----

  lemma TrimmedPlain(s: string)
    requires OneLine(s)
    ensures PlainLine(Trim(s))
  {
    TrimKeepsOut(s, '\n');
    if Trim(s) != "" { TrimmedEnds(s); }
    hide Trim;
  }

  lemma ShownReadsAgain(h: Heading, k: string)
    requires ShownReads(h, k) && k != "ID"
    ensures ShownReads(AsRead(h), k)
  {
    var v := Get(Kept(h), k).GetOr("");
    ReadUnder(h, k);
    KeptIs(AsRead(h));
    TagsAgain(h);
    TrimmedPlain(v);
    TrimSettled(v);
    hide Trim, AsRead, Kept, IsKey, Print.Classified;
  }

  lemma DatesReadAgain(h: Heading)
    requires AllTimestamps(DatesIn(h)) && forall i :: 0 <= i < |DatesIn(h)| ==> OneLine(DatesIn(h)[i].1)
    ensures var dates := DatesIn(AsRead(h)); AllTimestamps(dates) && forall i :: 0 <= i < |dates| ==> OneLine(dates[i].1)
  {
    hide *;
    DatesAgain(h);
  }

  lemma NoTagsAgain(h: Heading)
    requires LEGACY_TAGS !in h.properties
    ensures LEGACY_TAGS !in AsRead(h).properties && AsRead(h).id == Trim(h.id)
  {
    KeysReadFacts(h);
    KeysAreAll(h);
    assert LEGACY_TAGS != "ID";
    hide Trim, KeysRead, ValueRead, Tags, FinishedEach, EscapedBody;
  }

  lemma PropertiesReadAgain(h: Heading)
    requires PropertiesRead(h)
    ensures PropertiesRead(AsRead(h))
  {
    var x := AsRead(h);
    DatesReadAgain(h);
    NoTagsAgain(h);
    ShownAgain(h);
    TrimmedPlain(h.id);
    Print.ShownKeysFacts(h.propertyOrder, h.orgTags, h.properties);
    assert forall k :: k in Shown(h) ==> k != "ID";
    hide Trim, AllTimestamps, DatesIn, Shown, AsRead, LEGACY_TAGS, PlainLine, OneLine, ShownReads;
    forall k | k in Shown(x) ensures ShownReads(x, k) {
      ShownReadsAgain(h, k);
    }
  }

  lemma KeptIs(x: Heading)
    ensures Kept(x) == Print.Classified(x.orgTags, x.properties).1 && Tags(x) == Print.Classified(x.orgTags, x.properties).0
  {
  }

  lemma DrawerReadsAgain(d: string)
    requires DrawerReads(d)
    ensures DrawerReads(Finished(d))
  {
    LinesOfTerminated(LinesOf(d));
    hide LinesOf, IsBlock, Trim, SameNoCase, PlainLines, Terminated;
    assert Finished(Finished(d)) == Finished(d);
  }

  lemma {:induction false} DrawersReadAgain(drawers: seq<string>)
    requires forall d :: d in drawers ==> DrawerReads(d)
    ensures forall d :: d in FinishedEach(drawers) ==> DrawerReads(d)
  {
    hide DrawerReads, Finished;
    if drawers != [] {
      assert drawers == [drawers[0]] + drawers[1..];
      DrawersReadAgain(drawers[1..]);
      DrawerReadsAgain(drawers[0]);
    }
  }

  lemma {:induction false} EscapedPlain(s: Scan, lines: seq<string>)
    requires PlainLines(lines)
    ensures PlainLines(Escaped(s, lines))
    decreases |lines|
  {
    hide Step, EscapedLine, PlainLine;
    if lines != [] {
      ReadBody.PlainEscaped(s, lines[0]);
      EscapedPlain(Step(s, lines[0]).0, lines[1..]);
    }
  }

  lemma BodyReadsAgain(body: string)
    requires BodyReads(body)
    ensures BodyReads(EscapedBody(body))
  {
    if body == "" {
      assert SplitNl("") == [""] && Escaped(START, [""]) == [""];
    } else {
      var (pieces, out, text) := (SplitNl(body), Escaped(START, SplitNl(body)), EscapedBody(body));
      BodyLines(body);
      WrittenLines(body);
      RunSimulates(START, START, pieces);
      SimulatesOpen(Run(START, pieces), Run(START, out));
      EscapedPlain(START, pieces);
      hide Trim, OpensDrawer, Escaped, Run, SplitNl, LeavesOpen, PlainLines, Simulates;
      assert TrimEnd(text) == text;
      assert ReadBody.IsTidy(text);
    }
  }

  /// What was read from the text of an issue can be written and read again.
  lemma ReadableAgain(h: Heading, keywords: set<string>)
    requires Readable(h, keywords)
    ensures Readable(AsRead(h), keywords)
  {
    var x := AsRead(h);
    PropertiesReadAgain(h);
    DrawersReadAgain(h.extraDrawers);
    BodyReadsAgain(h.body);
    TagsAgain(h);
    KeptIs(x);
    hide PropertiesRead, DrawerReads, BodyReads, LogReads, PlainLine, ReadHead.TitleReads, Print.Classified, KeysRead, ValueRead,
      FinishedEach, EscapedBody, OneLine;
    assert HeadReads(x, keywords);
  }

  lemma SettledComesBack(x: Heading, keywords: set<string>, usual: char, next: seq<string>, b: nat)
    requires Readable(x, keywords) && AsRead(x) == x && Follows(next, b)
    ensures var n := |LinesOf(Print.Printed(x))| + b;
      && n > 0
      && ReadFrom(LinesOf(Print.Printed(x)) + next, keywords, usual) == Some((OnLines(x, 1, n), n))
  {
    hide *;
    WrittenIssueIsRead(x, keywords, usual, next, b);
  }

  /**
   An issue read from what was written comes back exactly: written and read
   again, it is the same issue, field by field.
   */
  lemma ReadIssueComesBack(h: Heading, keywords: set<string>, usual: char, next: seq<string>, b: nat)
    requires Readable(h, keywords) && Follows(next, b)
    ensures var x := AsRead(h);
      var n := |LinesOf(Print.Printed(x))| + b;
      && n > 0
      && ReadFrom(LinesOf(Print.Printed(x)) + next, keywords, usual) == Some((OnLines(x, 1, n), n))
  {
    hide *;
    ReadableAgain(h, keywords);
    ReadTwiceIsReadOnce(h);
    SettledComesBack(AsRead(h), keywords, usual, next, b);
  }
}
