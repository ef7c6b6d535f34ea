/**
 A whole issue, written and read back (`IssueHeading::render`,
 `crates/vissue-core/src/model.rs`, and `parse_heading`,
 `crates/vissue-core/src/store.rs`).
 */
module IssueReadsBack {
  import opened Base
  import opened Text
  import opened Org
  import opened Issue
  import opened Escape
  import opened DrawerSite
  import opened DrawerRead
  import opened Planning
  import opened ReadIssue
  import opened SiteReadsBack
  import opened MergeSets
  import Cookies
  import Headline
  import LogLine
  import Print
  import ReadHead
  import ReadBody

  // ---- what an issue is read as ----

  function Tags(h: Heading): seq<string> {
    Print.Classified(h.orgTags, h.properties).0
  }

  function Kept(h: Heading): Table {
    Print.Classified(h.orgTags, h.properties).1
  }

  function Shown(h: Heading): seq<string> {
    Print.ShownKeys(h.propertyOrder, h.orgTags, h.properties)
  }

  function DatesIn(h: Heading): Dates {
    DatesOf(Print.PLANNING_KEYS, h.properties)
  }

  function Firsts(dates: Dates): seq<string> {
    if dates == [] then [] else [dates[0].0] + Firsts(dates[1..])
  }

  /// The keys in the order in which they stand in the text: the dates, the id,
  /// the rest of the drawer.
  function KeysRead(h: Heading): seq<string> {
    Firsts(DatesIn(h)) + ["ID"] + Shown(h)
  }

  function ValueRead(h: Heading, k: string): string {
    if k == "ID" then Trim(h.id) else Trim(Get(Kept(h), k).GetOr(""))
  }

  /// What the text of an issue is read as: what it says, its values less their
  /// outer blanks, its keys in the order of the text.
  function AsRead(h: Heading): Heading {
    Heading(Trim(h.id), h.title, h.state, h.priority, map k | k in KeysRead(h) :: ValueRead(h, k), Tags(h), h.statistics,
            KeysRead(h), FinishedEach(h.extraDrawers), EscapedBody(h.body), h.logbook, h.lineStart, h.lineEnd)
  }

  // ---- which issues can be read ----

  ghost predicate HeadReads(h: Heading, keywords: set<string>) {
    && IsToken(h.state) && h.state in keywords && OneLine(h.title) && h.priority != '\n'
    && ReadHead.TitleReads(h.title, h.statistics, Tags(h))
  }

  /// A shown property that can be read.
  predicate ShownReads(h: Heading, k: string) {
    && IsKey(k) && OneLine(k) && !SpellsEnd(k, Get(Kept(h), k).GetOr("")) && PlainLine(Get(Kept(h), k).GetOr(""))
  }

  ghost predicate PropertiesRead(h: Heading) {
    && PlainLine(h.id) && LEGACY_TAGS !in h.properties
    && AllTimestamps(DatesIn(h)) && (forall i :: 0 <= i < |DatesIn(h)| ==> OneLine(DatesIn(h)[i].1))
    && forall k :: k in Shown(h) ==> ShownReads(h, k)
  }

  /// An issue every part of which can be told from the text around it.
  ghost predicate Readable(h: Heading, keywords: set<string>) {
    && HeadReads(h, keywords) && PropertiesRead(h)
    && (forall e :: e in h.logbook ==> LogReads(e) && PlainLine(LogLine.Render(e)))
    && (forall d :: d in h.extraDrawers ==> DrawerReads(d))
    && BodyReads(h.body)
  }

  // ---- the lines of the text ----

  function HeadText(h: Heading): string {
    ReadHead.Written(h.state, h.priority, h.title, h.statistics, Tags(h))
  }

  function DateLines(h: Heading): seq<string> {
    var parts := Print.PlanningParts(Print.PLANNING_KEYS, h.properties);
    if parts == [] then [] else [Print.JoinBlank(parts)]
  }

  function PropertyBlock(h: Heading): seq<string> {
    [":PROPERTIES:", Print.PropertyLine("ID", h.id)] + Print.PropertyLines(Shown(h), Kept(h)) + [":END:"]
  }

  function LogBlock(h: Heading): seq<string> {
    if h.logbook == [] then [] else [":LOGBOOK:"] + Print.LogLines(h.logbook) + [":END:"]
  }

  function FrontLines(h: Heading): seq<string> {
    [HeadText(h)] + DateLines(h) + (PropertyBlock(h) + (LogBlock(h) + DrawerLines(h.extraDrawers)))
  }

  lemma OneTerminated(line: string)
    ensures Terminated([line]) == line + "\n"
  {
    assert [line][1..] == [] && line + "\n" + "" == line + "\n";
  }

  lemma TopTerminated(h: Heading)
    ensures Print.Top(h) == Terminated([HeadText(h)] + DateLines(h) + [":PROPERTIES:", Print.PropertyLine("ID", h.id)])
  {
    var (head, id) := (HeadText(h), Print.PropertyLine("ID", h.id));
    HeadSame(h);
    DatesTerminated(h);
    OneTerminated(head);
    OneTerminated(":PROPERTIES:");
    OneTerminated(id);
    hide *;
    assert Print.Top(h) == Print.HeadLine(h) + Print.PlanningLine(h.properties) + ":PROPERTIES:\n" + id + "\n" by { TopParts(h); }
    TerminatedConcat([head], DateLines(h));
    TerminatedConcat([head] + DateLines(h), [":PROPERTIES:", id]);
    TerminatedConcat([":PROPERTIES:"], [id]);
    assert [":PROPERTIES:", id] == [":PROPERTIES:"] + [id];
    assert ":PROPERTIES:" + "\n" == ":PROPERTIES:\n";
    var front := Print.HeadLine(h) + Print.PlanningLine(h.properties);
    assert front + ":PROPERTIES:\n" + id + "\n" == front + (":PROPERTIES:\n" + (id + "\n"));
  }

  lemma TopParts(h: Heading)
    ensures Print.Top(h)
      == Print.HeadLine(h) + Print.PlanningLine(h.properties) + ":PROPERTIES:\n" + Print.PropertyLine("ID", h.id) + "\n"
  {
  }

  lemma HeadSame(h: Heading)
    ensures Print.HeadLine(h) == HeadText(h) + "\n"
  {
    var stem := "* " + h.state + " [#" + [h.priority] + "] " + h.title
      + (match h.statistics case Some(cookie) => " " + cookie case None => "");
    assert stem == ReadHead.Front(h.state, h.priority) + Cookies.Stem(h.title, h.statistics);
    hide Headline.AlignTags, Print.Classified;
  }

  lemma DatesTerminated(h: Heading)
    ensures Print.PlanningLine(h.properties) == Terminated(DateLines(h))
  {
    var parts := Print.PlanningParts(Print.PLANNING_KEYS, h.properties);
    OneTerminated(Print.JoinBlank(parts));
    hide Print.PlanningParts, Print.JoinBlank;
  }

  lemma LogTerminated(h: Heading)
    ensures Print.LogText(h.logbook) == Terminated(LogBlock(h))
  {
    var ls := Print.LogLines(h.logbook);
    OneTerminated(":LOGBOOK:");
    OneTerminated(":END:");
    TerminatedConcat([":LOGBOOK:"], ls);
    TerminatedConcat([":LOGBOOK:"] + ls, [":END:"]);
    hide Print.LogLines;
  }

  lemma {:induction false} DrawersTerminated(drawers: seq<string>)
    requires forall d :: d in drawers ==> DrawerReads(d)
    ensures Print.ShownDrawers(drawers) == Terminated(DrawerLines(drawers))
  {
    hide LinesOf, Terminated, Finished, IsBlock, Trim, SameNoCase;
    if drawers == [] {
      NothingTerminated();
    } else {
      assert drawers == [drawers[0]] + drawers[1..] && DrawerReads(drawers[0]);
      DrawersTerminated(drawers[1..]);
      TerminatedConcat(LinesOf(drawers[0]), DrawerLines(drawers[1..]));
    }
  }

  lemma NothingTerminated()
    ensures Terminated([]) == ""
  {
  }

  lemma FiveParts(a: seq<string>, b: seq<string>, c: seq<string>, d: seq<string>, e: seq<string>)
    ensures Terminated(a + (b + (c + (d + e)))) == Terminated(a) + Terminated(b) + Terminated(c) + Terminated(d) + Terminated(e)
  {
    hide Terminated;
    assert a + (b + (c + (d + e))) == a + b + c + d + e;
    TerminatedConcat(a + b + c + d, e);
    TerminatedConcat(a + b + c, d);
    TerminatedConcat(a + b, c);
    TerminatedConcat(a, b);
  }

  lemma FrontParts(h: Heading)
    ensures FrontLines(h) == [HeadText(h)] + DateLines(h) + [":PROPERTIES:", Print.PropertyLine("ID", h.id)]
      + (Print.PropertyLines(Shown(h), Kept(h)) + ([":END:"] + (LogBlock(h) + DrawerLines(h.extraDrawers))))
  {
    var (top, id) := ([HeadText(h)] + DateLines(h), Print.PropertyLine("ID", h.id));
    var (shown, rest) := (Print.PropertyLines(Shown(h), Kept(h)), LogBlock(h) + DrawerLines(h.extraDrawers));
    hide HeadText, DateLines, Print.PropertyLine, Print.PropertyLines, LogBlock, DrawerLines, Shown, Kept;
    assert FrontLines(h) == top + ([":PROPERTIES:", id] + shown + [":END:"] + rest);
    hide *;
    assert top + ([":PROPERTIES:", id] + shown + [":END:"] + rest) == top + [":PROPERTIES:", id] + (shown + ([":END:"] + rest));
  }

  lemma PrintedParts(h: Heading)
    ensures Print.Printed(h) == Print.Top(h) + Terminated(Print.PropertyLines(Shown(h), Kept(h)))
      + (":END:\n" + Print.LogText(h.logbook)) + Print.ShownDrawers(h.extraDrawers) + Print.BodyText(h.body)
  {
    hide Print.Top, Print.PropertyLines, Print.LogText, Print.ShownDrawers, Print.BodyText, Terminated;
  }

  /// The text of an issue, as lines and a body.
  lemma PrintedAsLines(h: Heading)
    requires forall d :: d in h.extraDrawers ==> DrawerReads(d)
    ensures Print.Printed(h) == Terminated(FrontLines(h)) + Print.BodyText(h.body)
  {
    hide *;
    var top := [HeadText(h)] + DateLines(h) + [":PROPERTIES:", Print.PropertyLine("ID", h.id)];
    TopTerminated(h);
    LogTerminated(h);
    DrawersTerminated(h.extraDrawers);
    PrintedParts(h);
    FrontParts(h);
    OneTerminated(":END:");
    FiveParts(top, Print.PropertyLines(Shown(h), Kept(h)), [":END:"], LogBlock(h), DrawerLines(h.extraDrawers));
    Regrouped(Terminated(top), Terminated(Print.PropertyLines(Shown(h), Kept(h))), Print.LogText(h.logbook),
              Print.ShownDrawers(h.extraDrawers));
    assert ":END:" + "\n" == ":END:\n";
  }

  lemma Regrouped(a: string, b: string, d: string, e: string)
    ensures a + b + (":END:\n" + d) + e == a + b + ":END:\n" + d + e
  {
  }

  // ---- the lines come back ----

  lemma PlainConcat(a: seq<string>, b: seq<string>)
    requires PlainLines(a) && PlainLines(b)
    ensures PlainLines(a + b)
  {
    hide PlainLine;
  }

  lemma {:induction false} CookiesOneLine(cs: seq<string>)
    requires Cookies.AllCookies(cs)
    ensures OneLine(JoinSpace(cs))
  {
    hide Cookies.IsCookie;
    if cs != [] {
      Cookies.CookieShape(cs[0]);
      CookiesOneLine(cs[1..]);
      if |cs| == 1 { assert JoinSpace(cs) == cs[0]; }
    }
  }

  lemma {:induction false} TagsOneLine(tags: seq<string>)
    requires Headline.AllTags(tags)
    ensures OneLine(Headline.JoinColon(tags))
  {
    if tags != [] {
      assert Headline.IsTag(tags[0]);
      TagsOneLine(tags[1..]);
    }
  }

  lemma StemPlain(title: string, statistics: Option<string>)
    requires OneLine(title) && TrimEnd(title) == title && (statistics.Some? ==> Cookies.IsCookieList(statistics.value))
    ensures var stem := Cookies.Stem(title, statistics); OneLine(stem) && (stem == "" || !IsSpace(stem[|stem| - 1]))
  {
    if statistics.Some? {
      var cs :| cs != [] && Cookies.AllCookies(cs) && statistics.value == JoinSpace(cs);
      CookiesOneLine(cs);
      Cookies.LoneCookies(statistics.value);
    }
    hide Cookies.IsCookie, JoinSpace;
  }

  lemma AlignedPlain(stem: string, tags: seq<string>)
    requires OneLine(stem) && stem != "" && stem[|stem| - 1] != '\r' && Headline.AllTags(tags)
    ensures PlainLine(Headline.AlignTags(stem, tags))
  {
    TagsOneLine(tags);
    hide Headline.JoinColon, Headline.AllTags;
    var (line, run) := (Headline.AlignTags(stem, tags), Headline.Run(tags));
    assert OneLine(run) && run[|run| - 1] == ':';
    if tags != [] {
      assert line[|line| - 1] == run[|run| - 1];
    }
  }

  lemma HeadPlain(h: Heading, keywords: set<string>)
    requires HeadReads(h, keywords)
    ensures PlainLine(HeadText(h))
  {
    var (front, stem) := (ReadHead.Front(h.state, h.priority), Cookies.Stem(h.title, h.statistics));
    StemPlain(h.title, h.statistics);
    assert OneLine(h.state) && OneLine(front) && front[|front| - 1] == ' ';
    hide Print.Classified, Cookies.Stem, Cookies.IsCookieList, ReadHead.Front, Headline.AlignTags;
    if stem == "" {
      assert front + stem == front;
    } else {
      assert (front + stem)[|front + stem| - 1] == stem[|stem| - 1];
    }
    AlignedPlain(front + stem, Tags(h));
  }

  lemma {:induction false} DatesPlain(dates: Dates)
    requires AreDates(dates) && forall i :: 0 <= i < |dates| ==> OneLine(dates[i].1)
    ensures OneLine(Print.JoinBlank(Spelled(dates)))
  {
    if dates != [] {
      assert forall i :: 0 <= i < |dates[1..]| ==> dates[1..][i] == dates[i + 1];
      DatesPlain(dates[1..]);
      assert dates[0].0 in Print.PLANNING_KEYS && OneLine(dates[0].0);
      FirstDate(dates);
      hide Print.JoinBlank, Spelled;
    }
  }

  lemma DateLinesPlain(h: Heading)
    requires PropertiesRead(h)
    ensures PlainLines(DateLines(h))
  {
    var dates := DatesIn(h);
    DatesOfAreDates(Print.PLANNING_KEYS, h.properties);
    PartsAreDates(Print.PLANNING_KEYS, h.properties);
    DatesPlain(dates);
    if dates != [] { NoOuterBlanks(dates); }
    assert Spelled(dates) != [] ==> dates != [];
    hide DatesOf, Print.PlanningParts, Spelled, Print.JoinBlank, AllTimestamps, Shown, Kept;
  }

  lemma LinePlain(k: string, v: string)
    requires OneLine(k) && PlainLine(v)
    ensures PlainLine(Print.PropertyLine(k, v))
  {
  }

  lemma PropertyBlockPlain(h: Heading)
    requires PropertiesRead(h)
    ensures PlainLines(PropertyBlock(h))
  {
    hide Shown, Kept, DatesIn, AllTimestamps, IsKey, SpellsEnd;
    var (keys, t) := (Shown(h), Kept(h));
    LinePlain("ID", h.id);
    var ls := Print.PropertyLines(keys, t);
    forall i | 0 <= i < |ls| ensures PlainLine(ls[i]) {
      assert keys[i] in keys && ShownReads(h, keys[i]);
      LinePlain(keys[i], Get(t, keys[i]).GetOr(""));
    }
    hide PlainLine, Print.PropertyLine, Print.PropertyLines;
    assert PlainLine(":PROPERTIES:") && PlainLine(":END:") by { NamesPlain(); }
    PlainConcat([":PROPERTIES:", Print.PropertyLine("ID", h.id)], ls);
    PlainConcat([":PROPERTIES:", Print.PropertyLine("ID", h.id)] + ls, [":END:"]);
  }

  lemma NamesPlain()
    ensures PlainLine(":PROPERTIES:") && PlainLine(":LOGBOOK:") && PlainLine(":END:")
  {
  }

  lemma LogBlockPlain(h: Heading)
    requires forall e :: e in h.logbook ==> PlainLine(LogLine.Render(e))
    ensures PlainLines(LogBlock(h))
  {
    hide LogLine.Render;
    NamesPlain();
    hide PlainLine;
    var ls := Print.LogLines(h.logbook);
    assert forall i :: 0 <= i < |ls| ==> PlainLine(ls[i]);
  }

  lemma {:induction false} DrawerLinesPlain(drawers: seq<string>)
    requires forall d :: d in drawers ==> DrawerReads(d)
    ensures PlainLines(DrawerLines(drawers))
  {
    hide LinesOf, PlainLine, IsBlock;
    if drawers != [] {
      assert drawers == [drawers[0]] + drawers[1..] && DrawerReads(drawers[0]);
      DrawerLinesPlain(drawers[1..]);
      PlainConcat(LinesOf(drawers[0]), DrawerLines(drawers[1..]));
    }
  }

  lemma FrontPlain(h: Heading, keywords: set<string>)
    requires Readable(h, keywords)
    ensures PlainLines(FrontLines(h))
  {
    HeadPlain(h, keywords);
    DateLinesPlain(h);
    PropertyBlockPlain(h);
    LogBlockPlain(h);
    DrawerLinesPlain(h.extraDrawers);
    assert PlainLines([HeadText(h)]);
    hide *;
    PlainConcat([HeadText(h)], DateLines(h));
    PlainConcat(LogBlock(h), DrawerLines(h.extraDrawers));
    PlainConcat(PropertyBlock(h), LogBlock(h) + DrawerLines(h.extraDrawers));
    PlainConcat([HeadText(h)] + DateLines(h), PropertyBlock(h) + (LogBlock(h) + DrawerLines(h.extraDrawers)));
    assert FrontLines(h) == [HeadText(h)] + DateLines(h) + (PropertyBlock(h) + (LogBlock(h) + DrawerLines(h.extraDrawers)))
      by { FrontIs(h); }
  }

  lemma FrontIs(h: Heading)
    ensures FrontLines(h) == [HeadText(h)] + DateLines(h) + (PropertyBlock(h) + (LogBlock(h) + DrawerLines(h.extraDrawers)))
  {
  }

  lemma {:induction false} TerminatedEnds(ls: seq<string>)
    ensures Terminated(ls) == "" || EndsLine(Terminated(ls))
  {
    if ls != [] {
      TerminatedEnds(ls[1..]);
    }
  }

  /// The lines a reader sees of an issue.
  lemma LinesOfPrinted(h: Heading, keywords: set<string>)
    requires Readable(h, keywords)
    ensures LinesOf(Print.Printed(h)) == FrontLines(h) + ReadBody.Written(h.body)
  {
    FrontPlain(h, keywords);
    PrintedAsLines(h);
    hide *;
    TerminatedEnds(FrontLines(h));
    LinesConcat(Terminated(FrontLines(h)), Print.BodyText(h.body));
    LinesOfTerminated(FrontLines(h));
    assert ReadBody.Written(h.body) == LinesOf(Print.BodyText(h.body)) by { BodyWritten(h.body); }
  }

  lemma BodyWritten(body: string)
    ensures ReadBody.Written(body) == LinesOf(Print.BodyText(body))
  {
  }

  // ---- what the reader makes of them ----

  /// The table the written values come from.
  function Source(h: Heading): Table {
    Kept(h)["ID" := h.id]
  }

  lemma ClassifiedKeeps(orgTags: seq<string>, t: Table)
    ensures var c := Print.Classified(orgTags, t).1;
      c.Keys <= t.Keys && forall k :: k != Print.TAGS_PROPERTY ==> Get(c, k) == Get(t, k)
  {
    hide Print.SettleTags, Print.PutTag;
  }

  lemma {:induction false} PutAllConcat(s: Site, a: seq<string>, b: seq<string>, t: Table)
    ensures PutAll(s, a + b, t) == PutAll(PutAll(s, a, t), b, t)
    decreases |a|
  {
    hide Trim;
    if a == [] {
      assert a + b == b;
    } else {
      assert (a + b)[0] == a[0] && (a + b)[1..] == a[1..] + b;
      PutAllConcat(PutValue(s, a[0], Trim(Get(t, a[0]).GetOr(""))), a[1..], b, t);
    }
  }

  lemma {:induction false} PutAllSame(s: Site, keys: seq<string>, t: Table, u: Table)
    requires forall k :: k in keys ==> Get(t, k) == Get(u, k)
    ensures PutAll(s, keys, t) == PutAll(s, keys, u)
    decreases |keys|
  {
    hide Trim;
    if keys != [] {
      assert keys == [keys[0]] + keys[1..];
      assert keys[0] in keys;
      PutAllSame(PutValue(s, keys[0], Trim(Get(t, keys[0]).GetOr(""))), keys[1..], t, u);
    }
  }

  lemma {:induction false} DatesPut(s: Site, keys: seq<string>, t: Table, u: Table)
    requires forall k :: k in keys ==> Get(t, k) == Get(u, k)
    ensures PutDates(s, DatesOf(keys, t)) == PutAll(s, Firsts(DatesOf(keys, t)), u)
    decreases |keys|
  {
    hide Trim;
    if keys != [] {
      assert keys == [keys[0]] + keys[1..] && keys[0] in keys;
      var value := Trim(Get(t, keys[0]).GetOr(""));
      var rest := DatesOf(keys[1..], t);
      if value == "" {
        assert [] + rest == rest;
        DatesPut(s, keys[1..], t, u);
      } else {
        var dates := [(keys[0], value)] + rest;
        assert dates[1..] == rest && Firsts(dates) == [keys[0]] + Firsts(rest);
        DatesPut(PutValue(s, keys[0], value), keys[1..], t, u);
        assert Firsts(dates)[1..] == Firsts(rest);
      }
    }
  }

  lemma {:induction false} FirstsFacts(keys: seq<string>, t: Table)
    requires Distinct(keys)
    ensures Distinct(Firsts(DatesOf(keys, t)))
    ensures forall k :: k in Firsts(DatesOf(keys, t)) <==> k in keys && Trim(Get(t, k).GetOr("")) != ""
  {
    hide Trim;
    if keys != [] {
      assert keys == [keys[0]] + keys[1..];
      FirstsFacts(keys[1..], t);
      var value := Trim(Get(t, keys[0]).GetOr(""));
      var rest := DatesOf(keys[1..], t);
      if value == "" {
        assert [] + rest == rest;
      } else {
        assert ([(keys[0], value)] + rest)[1..] == rest;
      }
    }
  }

  lemma {:induction false} DatesNamed(keys: seq<string>, dates: seq<string>)
    requires forall k :: k in dates ==> k in keys
    requires "ID" !in keys
    ensures "ID" !in dates
  {
  }

  lemma KeysApart(dated: seq<string>, shown: seq<string>)
    requires Distinct(dated) && Distinct(shown)
    requires "ID" !in dated && "ID" !in shown && forall k :: k in dated ==> k !in shown
    ensures Distinct(dated + ["ID"] + shown)
  {
    var all := dated + ["ID"] + shown;
    var n := |dated|;
    forall i, j | 0 <= i < j < |all| ensures all[i] != all[j] {
      assert i < n ==> all[i] == dated[i] && all[i] in dated;
      assert j > n ==> all[j] == shown[j - n - 1] && all[j] in shown;
      assert i > n ==> all[i] == shown[i - n - 1];
      assert j < n ==> all[j] == dated[j];
    }
  }

  lemma KeysReadFacts(h: Heading)
    ensures Distinct(KeysRead(h))
    ensures forall k :: k in KeysRead(h) ==> k == "ID" || k in h.properties
    ensures "ID" !in Firsts(DatesIn(h)) && "ID" !in Shown(h)
  {
    var (dated, shown) := (Firsts(DatesIn(h)), Shown(h));
    FirstsFacts(Print.PLANNING_KEYS, h.properties);
    Print.ShownKeysFacts(h.propertyOrder, h.orgTags, h.properties);
    DatesNamed(Print.PLANNING_KEYS, dated);
    assert Trim("") == "";
    KeysAre(h);
    hide Print.Classified, Print.ShownKeys, DatesOf, Firsts, Trim, Distinct, Print.PLANNING_KEYS, KeysRead;
    KeysApart(dated, shown);
  }

  lemma PropertiesOpens()
    ensures Trim(":PROPERTIES:") == ":PROPERTIES:" && OpensDrawer(":PROPERTIES:") && SameNoCase(":PROPERTIES:", ":PROPERTIES:")
    ensures IsEndLine(":END:")
  {
    TrimNothing(":PROPERTIES:");
    TrimNothing(":END:");
  }

  lemma LogbookOpens()
    ensures Trim(":LOGBOOK:") == ":LOGBOOK:" && OpensDrawer(":LOGBOOK:") && SameNoCase(":LOGBOOK:", ":LOGBOOK:")
    ensures !SameNoCase(":LOGBOOK:", ":PROPERTIES:") && IsEndLine(":END:")
  {
    TrimNothing(":LOGBOOK:");
    TrimNothing(":END:");
  }

  lemma PropertiesNotDated()
    ensures PlanningDates(":PROPERTIES:") == []
  {
    var text := ":PROPERTIES:";
    TrimNothing(text);
    KeyFound(text, Print.PLANNING_KEYS);
  }

  lemma EachIsRead(h: Heading)
    requires PropertiesRead(h)
    ensures EachRead(Shown(h), Kept(h))
  {
    var (keys, t) := (Shown(h), Kept(h));
    hide Shown, Kept, AllTimestamps, DatesIn, IsKey, SpellsEnd, PlainLine;
    forall i | 0 <= i < |keys| ensures IsKey(keys[i]) && !SpellsEnd(keys[i], Get(t, keys[i]).GetOr("")) {
      assert keys[i] in keys && ShownReads(h, keys[i]);
    }
  }

  lemma IdIsKey(v: string)
    ensures IsKey("ID") && !SpellsEnd("ID", v)
  {
  }

  lemma PropertyBlockParts(h: Heading)
    ensures var (block, id, ls) := (PropertyBlock(h), Print.PropertyLine("ID", h.id), Print.PropertyLines(Shown(h), Kept(h)));
      && |block| == |ls| + 3 && block[0] == ":PROPERTIES:" && block[|block| - 1] == ":END:"
      && block[1..] == [id] + (ls + [":END:"]) && block[1] == id
      && forall i :: 0 <= i < |ls| ==> block[i + 2] == ls[i]
  {
    hide Print.PropertyLine, Print.PropertyLines, Shown, Kept;
  }

  lemma PropertyBlockRead(s: Site, h: Heading)
    requires PropertiesRead(h)
    ensures IsBlock(PropertyBlock(h))
    ensures PutDrawer(s, PropertyBlock(h)) == PutAll(PutValue(s, "ID", Trim(h.id)), Shown(h), Kept(h))
  {
    hide *;
    var (block, ls, id) := (PropertyBlock(h), Print.PropertyLines(Shown(h), Kept(h)), Print.PropertyLine("ID", h.id));
    var next := PutValue(s, "ID", Trim(h.id));
    EachIsRead(h);
    PropertiesPut(next, Shown(h), Kept(h), ":END:") by { PropertiesOpens(); }
    IdIsKey(h.id);
    PropertyPut(s, "ID", h.id);
    NoEndLine("ID", h.id) by { NoColon("ID"); }
    PropertyBlockParts(h);
    assert |ls| == |Shown(h)| by { LineEach(Shown(h), Kept(h)); }
    PropertiesOpens();
    BlockIs(block, ls);
    PutBlock(s, block, id, ls + [":END:"]);
  }

  lemma LineEach(keys: seq<string>, t: Table)
    ensures |Print.PropertyLines(keys, t)| == |keys|
  {
  }

  lemma BlockIs(block: seq<string>, ls: seq<string>)
    requires |block| == |ls| + 3 && OpensDrawer(Trim(block[0])) && IsEndLine(block[|block| - 1]) && !IsEndLine(block[1])
    requires forall i :: 0 <= i < |ls| ==> block[i + 2] == ls[i] && !IsEndLine(ls[i])
    ensures IsBlock(block)
  {
    hide IsEndLine, OpensDrawer, Trim;
    forall i | 0 < i < |block| - 1 ensures !IsEndLine(block[i]) {
      if i > 1 { assert block[i] == ls[i - 2]; }
    }
  }

  lemma PutBlock(s: Site, block: seq<string>, first: string, rest: seq<string>)
    requires block != [] && block[0] == ":PROPERTIES:" && block[1..] == [first] + rest && !IsEndLine(first)
    ensures PutDrawer(s, block) == PutProperties(PutProperty(s, first), rest)
  {
    PropertiesOpens();
    hide Trim, SameNoCase, PutProperty, IsEndLine;
    assert block[1..][0] == first && block[1..][1..] == rest;
  }

  lemma LogBlockTaken(s: Site, h: Heading)
    requires h.logbook != [] && forall e :: e in h.logbook ==> LogReads(e)
    ensures IsBlock(LogBlock(h)) && PutDrawer(s, LogBlock(h)) == s.(logbook := s.logbook + h.logbook)
  {
    hide LogReads;
    var (ls, block) := (Print.LogLines(h.logbook), LogBlock(h));
    LogbookOpens();
    LogPut(s, h.logbook, ":END:");
    forall i | 0 <= i < |ls| ensures !IsEndLine(ls[i]) {
      assert h.logbook[i] in h.logbook;
      NoLogEnd(h.logbook[i]);
    }
    hide Trim, OpensDrawer, SameNoCase, IsEndLine, Print.LogLines, LogLine.Render, PutLogbook;
    assert block == [":LOGBOOK:"] + ls + [":END:"] && block[1..] == ls + [":END:"];
    assert forall i :: 0 < i < |block| - 1 ==> block[i] == ls[i - 1];
  }

  lemma LogBlockRead(s: Site, h: Heading, rest: seq<string>)
    requires forall e :: e in h.logbook ==> LogReads(e)
    ensures ReadSite(s, LogBlock(h) + rest) == ReadSite(s.(logbook := s.logbook + h.logbook), rest)
    ensures BodyStart(LogBlock(h) + rest) == |LogBlock(h)| + BodyStart(rest)
  {
    if h.logbook == [] {
      hide LogReads, ReadSite, BodyStart;
      assert LogBlock(h) + rest == rest && s.logbook + [] == s.logbook;
    } else {
      hide *;
      LogBlockTaken(s, h);
      BlockTaken(s, LogBlock(h), rest);
    }
  }

  lemma NoLogEnd(e: LogEntry)
    requires LogReads(e)
    ensures !IsEndLine(LogLine.Render(e))
  {
    hide LogLine.Parse, LogLine.Render;
  }

  /// The properties, logbook and drawers of the text.
  function SiteRead(h: Heading): Site {
    Site(AsRead(h).properties, KeysRead(h), h.logbook, FinishedEach(h.extraDrawers))
  }

  lemma DatesFromSource(h: Heading)
    ensures PutDates(EMPTY, DatesIn(h)) == PutAll(EMPTY, Firsts(DatesIn(h)), Source(h))
  {
    ClassifiedKeeps(h.orgTags, h.properties);
    assert forall k :: k in ["CLOSED", "SCHEDULED", "DEADLINE"] ==> k != Print.TAGS_PROPERTY && k != "ID";
    DatesPut(EMPTY, Print.PLANNING_KEYS, h.properties, Source(h));
    hide Trim, Print.Classified, DatesOf, Firsts, PutDates, PutAll;
  }

  lemma ShownFromSource(s: Site, h: Heading)
    requires "ID" !in Shown(h)
    ensures PutAll(s, Shown(h), Kept(h)) == PutAll(s, Shown(h), Source(h))
  {
    hide Shown, Kept, PutAll;
    PutAllSame(s, Shown(h), Kept(h), Source(h));
  }

  lemma PropertiesAreRead(h: Heading)
    ensures PutAll(PutValue(PutDates(EMPTY, DatesIn(h)), "ID", Trim(h.id)), Shown(h), Kept(h))
      == Site(AsRead(h).properties, KeysRead(h), [], [])
  {
    hide *;
    var (dated, shown, u) := (Firsts(DatesIn(h)), Shown(h), Source(h));
    var s := PutDates(EMPTY, DatesIn(h));
    KeysReadFacts(h);
    DatesFromSource(h);
    ShownFromSource(PutValue(s, "ID", Trim(h.id)), h);
    assert PutAll(s, ["ID"], u) == PutValue(s, "ID", Trim(h.id)) by { IdPut(s, h); }
    PutAllConcat(EMPTY, dated, ["ID"], u);
    PutAllConcat(EMPTY, dated + ["ID"], shown, u);
    assert KeysRead(h) == dated + ["ID"] + shown by { KeysAre(h); }
    FreshPut(KeysRead(h), u);
    TableIsRead(h);
  }

  lemma KeysAre(h: Heading)
    ensures KeysRead(h) == Firsts(DatesIn(h)) + ["ID"] + Shown(h)
  {
  }

  lemma IdPut(s: Site, h: Heading)
    ensures PutAll(s, ["ID"], Source(h)) == PutValue(s, "ID", Trim(h.id))
  {
    OnePut(s, "ID", Source(h));
    hide Trim, Kept, PutAll;
  }

  lemma FreshPut(keys: seq<string>, t: Table)
    requires Distinct(keys)
    ensures PutAll(EMPTY, keys, t) == Site(TableOver(map[], keys, t), keys, [], [])
  {
    AllPut(EMPTY, keys, t);
    assert [] + keys == keys;
  }

  lemma OnePut(s: Site, k: string, t: Table)
    ensures PutAll(s, [k], t) == PutValue(s, k, Trim(Get(t, k).GetOr("")))
  {
    hide Trim;
    assert [k][1..] == [];
  }

  lemma TableIsRead(h: Heading)
    ensures TableOver(map[], KeysRead(h), Source(h)) == AsRead(h).properties
  {
    hide Trim, Kept, KeysRead;
  }

  // ---- the whole issue ----

  lemma NothingCarried(s: Site)
    requires LEGACY_TAGS !in s.properties
    ensures CarriedTags(s) == s
  {
  }

  /// The lines under the heading up to the drawers.
  lemma DatesAreRead(h: Heading, rest: seq<string>)
    requires PropertiesRead(h) && rest != [] && rest[0] == ":PROPERTIES:"
    ensures var under := DateLines(h) + rest;
      && DatedLines(under) == |DateLines(h)| && under[|DateLines(h)|..] == rest
      && PutPlanning(EMPTY, under) == PutDates(EMPTY, DatesIn(h))
  {
    var (dates, parts) := (DatesIn(h), Print.PlanningParts(Print.PLANNING_KEYS, h.properties));
    PartsAreDates(Print.PLANNING_KEYS, h.properties);
    PlanningReadsBackExactly(h.properties);
    PropertiesNotDated();
    assert Spelled(dates) == [] <==> dates == [];
    hide Print.PlanningParts, DatesOf, Spelled, Print.JoinBlank, PlanningDates, AllTimestamps, Shown, Kept;
    if dates == [] {
      assert DateLines(h) + rest == rest;
    } else {
      assert (DateLines(h) + rest)[1..] == rest && (DateLines(h) + rest)[0] == Print.JoinBlank(parts);
    }
  }

  /// The drawers of the text, and all that stands behind them.
  lemma SiteIsRead(h: Heading, rest: seq<string>)
    requires PropertiesRead(h)
    requires forall e :: e in h.logbook ==> LogReads(e)
    requires forall d :: d in h.extraDrawers ==> DrawerReads(d)
    ensures var drawers := PropertyBlock(h) + (LogBlock(h) + DrawerLines(h.extraDrawers));
      && ReadSite(PutDates(EMPTY, DatesIn(h)), drawers + rest) == ReadSite(SiteRead(h), rest)
      && BodyStart(drawers + rest) == |drawers| + BodyStart(rest)
  {
    hide *;
    var (p, l, d) := (PropertyBlock(h), LogBlock(h), DrawerLines(h.extraDrawers));
    var s := PutDates(EMPTY, DatesIn(h));
    PropertyBlockParts(h);
    PropertyBlockRead(s, h);
    PropertiesAreRead(h);
    var t := PutDrawer(s, p);
    BlockTaken(s, p, l + (d + rest));
    LogBlockRead(t, h, d + rest);
    DrawersPut(t.(logbook := h.logbook), h.extraDrawers, rest);
    assert p + (l + d) + rest == p + (l + (d + rest));
    assert [] + h.logbook == h.logbook && [] + FinishedEach(h.extraDrawers) == FinishedEach(h.extraDrawers);
    assert SiteRead(h) == t.(logbook := h.logbook, drawers := FinishedEach(h.extraDrawers)) by { SiteIs(h); }
  }

  lemma SiteIs(h: Heading)
    ensures SiteRead(h) == Site(AsRead(h).properties, KeysRead(h), h.logbook, FinishedEach(h.extraDrawers))
  {
  }

  lemma NoLegacyTags(h: Heading)
    requires PropertiesRead(h)
    ensures LEGACY_TAGS !in SiteRead(h).properties
    ensures Get(SiteRead(h).properties, "ID") == Some(Trim(h.id))
  {
    KeysReadFacts(h);
    hide Trim, DatesIn, Shown, Kept, AllTimestamps;
    assert "ID" in KeysRead(h);
  }

  /// The site and the end of an issue with `next` behind it.
  lemma UnderIsRead(h: Heading, keywords: set<string>, next: seq<string>, b: nat)
    requires Readable(h, keywords) && Follows(next, b)
    ensures var drawers := PropertyBlock(h) + (LogBlock(h) + DrawerLines(h.extraDrawers));
      var rest := drawers + (ReadBody.Written(h.body) + next);
      var under := DateLines(h) + rest;
      && SiteOf(under) == SiteRead(h)
      && DatedLines(under) == |DateLines(h)| && under[DatedLines(under)..] == rest
      && IssueEnd(rest) == |drawers| + |ReadBody.Written(h.body)| + b
      && ReadBody.BodyRead(rest) == EscapedBody(h.body)
  {
    assert PropertiesRead(h) && BodyReads(h.body);
    assert forall e :: e in h.logbook ==> LogReads(e);
    assert forall d :: d in h.extraDrawers ==> DrawerReads(d);
    hide *;
    var drawers := PropertyBlock(h) + (LogBlock(h) + DrawerLines(h.extraDrawers));
    var text := ReadBody.Written(h.body) + next;
    PropertyBlockParts(h);
    DatesAreRead(h, drawers + text);
    SiteIsRead(h, text);
    BodyBehind(SiteRead(h), h.body, next, b);
    ReadShifted(drawers, text);
    NoLegacyTags(h);
    NothingCarried(SiteRead(h));
    SiteOfIs(DateLines(h) + (drawers + text));
  }

  lemma SiteOfIs(under: seq<string>)
    ensures SiteOf(under) == CarriedTags(ReadSite(PutPlanning(EMPTY, under), under[DatedLines(under)..]))
  {
  }

  /**
   An issue that can be read is read back as it was written: every line of its
   text is taken and none behind it, whether a heading follows or the end.
   */
  lemma WrittenIssueIsRead(h: Heading, keywords: set<string>, usual: char, next: seq<string>, b: nat)
    requires Readable(h, keywords) && Follows(next, b)
    ensures var ls := LinesOf(Print.Printed(h));
      && ls != []
      && ReadFrom(ls + next, keywords, usual) == Some((OnLines(AsRead(h), 1, |ls| + b), |ls| + b))
  {
    hide *;
    var under := DateLines(h) + (PropertyBlock(h) + (LogBlock(h) + DrawerLines(h.extraDrawers)) + (ReadBody.Written(h.body) + next));
    PrintedShape(h, keywords, next);
    UnderIsRead(h, keywords, next, b);
    HeadIsRead(h, keywords);
    IdIsRead(h, keywords);
    ReadParts(HeadText(h), under, keywords, usual);
    AsReadParts(h);
    AsReadOnLines(h, 1, |LinesOf(Print.Printed(h))| + b);
    PriorityStands(h.priority, usual);
  }

  lemma IdIsRead(h: Heading, keywords: set<string>)
    requires Readable(h, keywords)
    ensures Get(SiteRead(h).properties, "ID") == Some(Trim(h.id))
  {
    assert PropertiesRead(h);
    hide *;
    NoLegacyTags(h);
  }

  lemma PriorityStands(priority: char, usual: char)
    ensures Some(priority).GetOr(usual) == priority
  {
  }

  /// The lines of the text, the first of them the heading.
  lemma PrintedShape(h: Heading, keywords: set<string>, next: seq<string>)
    requires Readable(h, keywords)
    ensures var ls := LinesOf(Print.Printed(h));
      var drawers := PropertyBlock(h) + (LogBlock(h) + DrawerLines(h.extraDrawers));
      && ls + next == [HeadText(h)] + (DateLines(h) + (drawers + (ReadBody.Written(h.body) + next)))
      && |ls| == 1 + |DateLines(h)| + |drawers| + |ReadBody.Written(h.body)|
  {
    LinesOfPrinted(h, keywords);
    hide *;
    FrontIs(h);
    LinesRegrouped(HeadText(h), DateLines(h), PropertyBlock(h) + (LogBlock(h) + DrawerLines(h.extraDrawers)), ReadBody.Written(h.body), next);
  }

  lemma LinesRegrouped(head: string, dates: seq<string>, drawers: seq<string>, w: seq<string>, next: seq<string>)
    ensures [head] + dates + drawers + w + next == [head] + (dates + (drawers + (w + next)))
  {
  }

  lemma HeadIsRead(h: Heading, keywords: set<string>)
    requires Readable(h, keywords)
    ensures ReadHead.ReadHeading(HeadText(h), keywords)
      == Some(ReadHead.Head(h.state, Some(h.priority), h.title, h.statistics, Tags(h)))
  {
    hide ReadHead.ReadHeading, ReadHead.TitleReads, IsToken, Print.Classified;
    ReadHead.HeadingReadsBackExactly(h.state, h.priority, h.title, h.statistics, Tags(h), keywords);
  }

  lemma ReadParts(line: string, under: seq<string>, keywords: set<string>, usual: char)
    requires ReadHead.ReadHeading(line, keywords).Some? && Get(SiteOf(under).properties, "ID").Some?
    ensures var (head, site) := (ReadHead.ReadHeading(line, keywords).value, SiteOf(under));
      var rest := under[DatedLines(under)..];
      var end := 1 + DatedLines(under) + IssueEnd(rest);
      ReadFrom([line] + under, keywords, usual) ==
        Some((Heading(Get(site.properties, "ID").value, head.title, head.state, head.priority.GetOr(usual), site.properties,
                      head.tags, head.statistics, site.order, site.drawers, ReadBody.BodyRead(rest), site.logbook, 1, end), end))
  {
    hide ReadHead.ReadHeading, SiteOf, DatedLines, IssueEnd, ReadBody.BodyRead;
    assert ([line] + under)[0] == line && ([line] + under)[1..] == under;
  }

  lemma AsReadParts(h: Heading)
    ensures AsRead(h) == Heading(Trim(h.id), h.title, h.state, h.priority, AsRead(h).properties, Tags(h), h.statistics,
      KeysRead(h), FinishedEach(h.extraDrawers), EscapedBody(h.body), h.logbook, h.lineStart, h.lineEnd)
    ensures SiteRead(h) == Site(AsRead(h).properties, KeysRead(h), h.logbook, FinishedEach(h.extraDrawers))
  {
  }

  lemma AsReadOnLines(h: Heading, first: nat, last: nat)
    ensures OnLines(AsRead(h), first, last) == Heading(Trim(h.id), h.title, h.state, h.priority, AsRead(h).properties, Tags(h),
      h.statistics, KeysRead(h), FinishedEach(h.extraDrawers), EscapedBody(h.body), h.logbook, first, last)
  {
  }

  // ---- a date that is no timestamp ----

  lemma LooseLine(dates: Dates)
    requires AreDates(dates) && dates != [] && !OpensStamp(dates[0].1)
    ensures PlanningDates(Print.JoinBlank(Spelled(dates))) == []
  {
    var (key, v, w) := (dates[0].0, dates[0].1, Behind(dates));
    var text := Print.JoinBlank(Spelled(dates));
    NoOuterBlanks(dates);
    TrimNothing(text);
    FirstDate(dates);
    KeyStands(key, " " + v + w);
    assert text[|key| + 1..] == " " + v + w;
    BlankSkipped(v, w);
    hide KeyAt, Spelled, Print.JoinBlank, Print.PLANNING_KEYS, Behind, Trim;
    assert (v + w)[0] == v[0] && TrimStart(v + w) == v + w;
  }

  lemma DateLineFacts(dates: Dates)
    requires AreDates(dates) && dates != []
    ensures var t := Trim(Print.JoinBlank(Spelled(dates))); t != "" && !OpensDrawer(t)
  {
    var text := Print.JoinBlank(Spelled(dates));
    NoOuterBlanks(dates);
    TrimNothing(text);
    FirstDate(dates);
    var key := dates[0].0;
    assert key in Print.PLANNING_KEYS && text[0] == key[0] && key[0] != ':';
  }

  lemma TopLines(h: Heading) returns (more: string)
    requires DateLines(h) != []
    ensures Print.Printed(h) == Terminated([HeadText(h)] + DateLines(h)) + more
  {
    TopTerminated(h);
    PrintedParts(h);
    hide *;
    var (top, rest) := ([HeadText(h)] + DateLines(h), [":PROPERTIES:", Print.PropertyLine("ID", h.id)]);
    TerminatedConcat(top, rest);
    more := Terminated(rest) + (Terminated(Print.PropertyLines(Shown(h), Kept(h))) + ((":END:\n" + Print.LogText(h.logbook))
      + (Print.ShownDrawers(h.extraDrawers) + Print.BodyText(h.body))));
    Regrouped6(Terminated(top), Terminated(rest), Terminated(Print.PropertyLines(Shown(h), Kept(h))), ":END:\n" + Print.LogText(h.logbook),
               Print.ShownDrawers(h.extraDrawers), Print.BodyText(h.body));
  }

  lemma Regrouped6(a: string, b: string, c: string, d: string, e: string, f: string)
    ensures a + b + c + d + e + f == a + (b + (c + (d + (e + f))))
  {
  }

  lemma NoIdRead(line: string, under: seq<string>, keywords: set<string>, usual: char)
    requires under != [] && PlanningDates(under[0]) == [] && Trim(under[0]) != "" && !OpensDrawer(Trim(under[0]))
    ensures ReadFrom([line] + under, keywords, usual) == None
  {
    hide ReadHead.ReadHeading, PlanningDates, Trim, OpensDrawer, IssueEnd, ReadBody.BodyRead;
    assert ([line] + under)[0] == line && ([line] + under)[1..] == under;
    assert DatedLines(under) == 0 && under[0..] == under;
    assert SiteOf(under) == EMPTY;
  }

  lemma DateLineIs(h: Heading)
    requires DatesIn(h) != []
    ensures DateLines(h) == [Print.JoinBlank(Spelled(DatesIn(h)))] && AreDates(DatesIn(h))
  {
    PartsAreDates(Print.PLANNING_KEYS, h.properties);
    DatesOfAreDates(Print.PLANNING_KEYS, h.properties);
    assert Spelled(DatesIn(h)) != [];
    hide DatesOf, Spelled, Print.PlanningParts, Print.JoinBlank, AreDates;
  }

  /// The heading and the dates are the first lines of the text.
  lemma TopIsFirst(h: Heading) returns (rest: seq<string>)
    requires DateLines(h) != [] && PlainLine(HeadText(h)) && PlainLines(DateLines(h))
    ensures LinesOf(Print.Printed(h)) == [HeadText(h)] + DateLines(h) + rest
  {
    hide *;
    var more := TopLines(h);
    OnePlain(HeadText(h));
    PlainConcat([HeadText(h)], DateLines(h));
    LinesOfTerminated([HeadText(h)] + DateLines(h));
    TerminatedEnds([HeadText(h)] + DateLines(h));
    LinesConcat(Terminated([HeadText(h)] + DateLines(h)), more);
    rest := LinesOf(more);
  }

  lemma SecondLine(head: string, line: string, rest: seq<string>, next: seq<string>)
    ensures [head] + [line] + rest + next == [head] + ([line] + rest + next)
    ensures ([line] + rest + next) != [] && ([line] + rest + next)[0] == line
  {
  }

  /**
   A first date that is no timestamp hides the drawer behind it: the planning
   line is no planning line, the id is not found and the issue cannot be read.
   */
  lemma LooseDateLosesTheIssue(h: Heading, keywords: set<string>, usual: char, next: seq<string>)
    requires DatesIn(h) != [] && !OpensStamp(DatesIn(h)[0].1)
    requires PlainLine(HeadText(h)) && PlainLines(DateLines(h))
    ensures var lines := LinesOf(Print.Printed(h)) + next;
      lines != [] && ReadFrom(lines, keywords, usual) == None
  {
    hide *;
    var line := Print.JoinBlank(Spelled(DatesIn(h)));
    DateLineIs(h);
    LooseLine(DatesIn(h));
    DateLineFacts(DatesIn(h));
    var rest := TopIsFirst(h);
    SecondLine(HeadText(h), line, rest, next);
    NoIdRead(HeadText(h), [line] + rest + next, keywords, usual);
  }

  lemma OnePlain(line: string)
    requires PlainLine(line)
    ensures PlainLines([line])
  {
    hide PlainLine;
  }
}
