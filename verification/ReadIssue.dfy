/**
 One issue as the parser of a tracker file reads it (`parse_heading`,
 `crates/vissue-core/src/store.rs`).
 */
module ReadIssue {
  import opened Base
  import opened Text
  import opened Org
  import opened Issue
  import opened Escape
  import opened DrawerSite
  import opened Planning
  import opened DrawerRead
  import Print
  import ReadHead
  import ReadBody

  const LEGACY_TAGS := "TAGS"
  const EMPTY := Site(map[], [], [], [])

  // ---- the planning lines ----

  function DatedLines(lines: seq<string>): (n: nat)
    ensures n <= |lines|
  {
    if lines == [] || PlanningDates(lines[0]) == [] then 0 else 1 + DatedLines(lines[1..])
  }

  function PutDates(s: Site, dates: Dates): Site
    decreases |dates|
  {
    if dates == [] then s else PutDates(PutValue(s, dates[0].0, dates[0].1), dates[1..])
  }

  function PutPlanning(s: Site, lines: seq<string>): Site
    decreases |lines|
  {
    if lines == [] || PlanningDates(lines[0]) == [] then s
    else PutPlanning(PutDates(s, PlanningDates(lines[0])), lines[1..])
  }

  function DatesOn(lines: seq<string>): Dates {
    if lines == [] then [] else PlanningDates(lines[0]) + DatesOn(lines[1..])
  }

  lemma {:induction false} PutMoreDates(s: Site, a: Dates, b: Dates)
    ensures PutDates(s, a + b) == PutDates(PutDates(s, a), b)
    decreases |a|
  {
    if a == [] {
      assert a + b == b;
    } else {
      assert (a + b)[0] == a[0] && (a + b)[1..] == a[1..] + b;
      PutMoreDates(PutValue(s, a[0].0, a[0].1), a[1..], b);
    }
  }

  /// Every planning line under a heading is read, up to the first line that is
  /// none.
  lemma {:induction false} EveryPlanningLineIsRead(s: Site, lines: seq<string>, rest: seq<string>)
    requires forall i :: 0 <= i < |lines| ==> PlanningDates(lines[i]) != []
    requires rest == [] || PlanningDates(rest[0]) == []
    ensures DatedLines(lines + rest) == |lines|
    ensures PutPlanning(s, lines + rest) == PutDates(s, DatesOn(lines))
    decreases |lines|
  {
    hide PlanningDates;
    if lines == [] {
      assert lines + rest == rest;
    } else {
      assert (lines + rest)[0] == lines[0] && (lines + rest)[1..] == lines[1..] + rest;
      EveryPlanningLineIsRead(PutDates(s, PlanningDates(lines[0])), lines[1..], rest);
      PutMoreDates(s, PlanningDates(lines[0]), DatesOn(lines[1..]));
    }
  }

  // ---- the issue ----

  function WithoutKey(order: seq<string>, key: string): seq<string> {
    if order == [] then [] else (if order[0] == key then [] else [order[0]]) + WithoutKey(order[1..], key)
  }

  /// The tags under the name Org reserves, carried over to the one it does not.
  function CarriedTags(s: Site): Site {
    if LEGACY_TAGS !in s.properties then s
    else
      var rest := s.properties - {LEGACY_TAGS};
      var tags := s.properties[LEGACY_TAGS];
      s.(properties := if Print.TAGS_PROPERTY in rest then rest else rest[Print.TAGS_PROPERTY := tags],
         order := WithoutKey(s.order, LEGACY_TAGS))
  }

  lemma {:induction false} KeyDropped(order: seq<string>, key: string)
    ensures key !in WithoutKey(order, key) && forall k :: k != key ==> (k in WithoutKey(order, key) <==> k in order)
  {
    if order != [] {
      assert order == [order[0]] + order[1..];
      KeyDropped(order[1..], key);
    }
  }

  /// Tags under the reserved name go on under the other, unless there are some
  /// already; every other property stays.
  lemma LegacyTagsAreCarried(s: Site, k: string)
    ensures var r := CarriedTags(s);
      && Get(r.properties, "TAGS") == None && ("TAGS" in s.properties ==> "TAGS" !in r.order)
      && Get(r.properties, "VISSUE_TAGS")
         == (if Get(s.properties, "VISSUE_TAGS").Some? then Get(s.properties, "VISSUE_TAGS") else Get(s.properties, "TAGS"))
      && (k != "TAGS" && k != "VISSUE_TAGS" ==> Get(r.properties, k) == Get(s.properties, k))
      && (k != "TAGS" ==> (k in r.order <==> k in s.order))
  {
    KeyDropped(s.order, "TAGS");
    assert Print.TAGS_PROPERTY == "VISSUE_TAGS";
  }

  function SiteOf(under: seq<string>): Site {
    CarriedTags(ReadSite(PutPlanning(EMPTY, under), under[DatedLines(under)..]))
  }

  /// The issue at the first line, and how many lines it takes; `None` when the
  /// line is no heading of an issue or the issue has no id.
  function ReadFrom(lines: seq<string>, keywords: set<string>, usual: char): (r: Option<(Heading, nat)>)
    requires lines != []
    ensures r.Some? ==> 0 < r.value.1 <= |lines|
  {
    match ReadHead.ReadHeading(lines[0], keywords)
    case None => None
    case Some(head) =>
      var under := lines[1..];
      var rest := under[DatedLines(under)..];
      var site := SiteOf(under);
      var end := 1 + DatedLines(under) + IssueEnd(rest);
      match Get(site.properties, "ID")
      case None => None
      case Some(id) =>
        Some((Heading(id, head.title, head.state, head.priority.GetOr(usual), site.properties, head.tags, head.statistics,
                      site.order, site.drawers, ReadBody.BodyRead(rest), site.logbook, 1, end), end))
  }

  /// An issue on other lines of its file.
  function OnLines(h: Heading, first: nat, last: nat): Heading {
    h.(lineStart := first, lineEnd := last)
  }

  /// The issue at line `start` of a file, and the line behind it.
  function IssueAt(lines: seq<string>, start: nat, keywords: set<string>, usual: char): Option<(Heading, nat)>
    requires start < |lines|
  {
    match ReadFrom(lines[start..], keywords, usual)
    case None => None
    case Some((h, n)) => Some((OnLines(h, start + 1, start + n), start + n))
  }

  // ---- as the program runs it ----

  lemma NextDated(s: Site, lines: seq<string>, i: nat)
    requires i < |lines|
    ensures var dates := PlanningDates(lines[i]);
      && DatedLines(lines[i..]) == (if dates == [] then 0 else 1 + DatedLines(lines[i + 1..]))
      && PutPlanning(s, lines[i..]) == (if dates == [] then s else PutPlanning(PutDates(s, dates), lines[i + 1..]))
  {
    hide PlanningDates, PutDates;
    assert lines[i..][0] == lines[i] && lines[i..][1..] == lines[i + 1..];
  }

  method TakeDates(reader: DrawerReader, dates: Dates)
    modifies reader
    ensures reader.State() == PutDates(old(reader.State()), dates)
  {
    ghost var s := reader.State();
    assert dates[0..] == dates;
    for i := 0 to |dates|
      invariant PutDates(s, dates) == PutDates(reader.State(), dates[i..])
    {
      assert dates[i..][0] == dates[i] && dates[i..][1..] == dates[i + 1..];
      reader.Put(dates[i].0, dates[i].1);
    }
    assert dates[|dates|..] == [];
  }

  /// The planning lines from `start` on.
  method TakePlanning(reader: DrawerReader, lines: seq<string>, start: nat) returns (i: nat)
    requires start <= |lines|
    modifies reader
    ensures i == start + DatedLines(lines[start..])
    ensures reader.State() == PutPlanning(old(reader.State()), lines[start..])
  {
    hide DatedLines, PutPlanning, PlanningDates, PutDates;
    ghost var s := reader.State();
    i := start;
    while i < |lines|
      invariant start <= i <= |lines|
      invariant start + DatedLines(lines[start..]) == i + DatedLines(lines[i..])
      invariant PutPlanning(s, lines[start..]) == PutPlanning(reader.State(), lines[i..])
    {
      NextDated(reader.State(), lines, i);
      var found := ParsePlanningLine(lines[i]);
      if found == [] {
        return;
      }
      TakeDates(reader, found);
      i := i + 1;
    }
    assert lines[|lines|..] == [];
    NoLinesDated(reader.State());
  }

  lemma NoLinesDated(s: Site)
    ensures DatedLines([]) == 0 && PutPlanning(s, []) == s
  {
  }

  method DropKey(order: seq<string>, key: string) returns (r: seq<string>)
    ensures r == WithoutKey(order, key)
  {
    r := [];
    assert order[0..] == order;
    for i := 0 to |order|
      invariant WithoutKey(order, key) == r + WithoutKey(order[i..], key)
    {
      assert order[i..][0] == order[i] && order[i..][1..] == order[i + 1..];
      if order[i] != key {
        r := r + [order[i]];
      }
    }
    assert order[|order|..] == [];
  }

  method CarryTags(reader: DrawerReader)
    modifies reader
    ensures reader.State() == CarriedTags(old(reader.State()))
  {
    if LEGACY_TAGS in reader.properties {
      var legacy := reader.properties[LEGACY_TAGS];
      reader.properties := reader.properties - {LEGACY_TAGS};
      reader.order := DropKey(reader.order, LEGACY_TAGS);
      if Print.TAGS_PROPERTY !in reader.properties {
        reader.properties := reader.properties[Print.TAGS_PROPERTY := legacy];
      }
    }
  }

  /// The site of the drawers in front of the body, and where the body starts.
  method TakeSite(lines: seq<string>, start: nat) returns (reader: DrawerReader, bodyStart: nat)
    requires start < |lines|
    ensures fresh(reader)
    ensures var under := lines[start + 1..];
      && reader.State() == SiteOf(under)
      && bodyStart == start + 1 + DatedLines(under) + BodyStart(under[DatedLines(under)..])
      && bodyStart <= |lines|
  {
    hide DatedLines, PutPlanning, ReadSite, BodyStart, CarriedTags;
    reader := new DrawerReader();
    assert reader.State() == EMPTY;
    var at := TakePlanning(reader, lines, start + 1);
    ghost var under := lines[start + 1..];
    assert lines[at..] == under[DatedLines(under)..];
    bodyStart := reader.TakeDrawers(lines, at);
    CarryTags(reader);
  }

  lemma BodyAt(lines: seq<string>, at: nat, bodyStart: nat, bodyEnd: nat)
    requires at <= |lines|
    requires bodyStart == at + BodyStart(lines[at..])
    requires bodyEnd == bodyStart + BodyEnd(START, lines[bodyStart..])
    ensures bodyStart <= bodyEnd <= |lines|
    ensures bodyEnd == at + IssueEnd(lines[at..])
    ensures ReadBody.BodyRead(lines[at..]) == TrimEnd(TrimOf(JoinNl(lines[bodyStart..bodyEnd]), '\n'))
  {
    hide BodyStart, BodyEnd, TrimEnd, TrimOf, JoinNl;
    var rest := lines[at..];
    assert rest[BodyStart(rest)..] == lines[bodyStart..];
    assert rest[BodyStart(rest)..IssueEnd(rest)] == lines[bodyStart..bodyEnd];
  }

  method ParseHeading(lines: seq<string>, start: nat, keywords: set<string>, usual: char) returns (r: Option<(Heading, nat)>)
    requires start < |lines|
    ensures r == IssueAt(lines, start, keywords, usual)
  {
    hide ReadHead.ReadHeading, DatedLines, BodyStart, IssueEnd, ReadBody.BodyRead, BodyEnd, SiteOf;
    var head := ReadHead.ReadHeading(lines[start], keywords);
    if head.None? {
      return None;
    }
    ghost var under := lines[start + 1..];
    assert lines[start..][0] == lines[start] && lines[start..][1..] == under;
    var reader, bodyStart := TakeSite(lines, start);
    var bodyEnd := FindBodyEnd(lines, bodyStart);
    var body := TrimEnd(TrimOf(JoinNl(lines[bodyStart..bodyEnd]), '\n'));
    ghost var at := start + 1 + DatedLines(under);
    assert under[DatedLines(under)..] == lines[at..];
    BodyAt(lines, at, bodyStart, bodyEnd);
    if "ID" !in reader.properties {
      return None;
    }
    var h := head.value;
    return Some((Heading(reader.properties["ID"], h.title, h.state, h.priority.GetOr(usual), reader.properties, h.tags,
                         h.statistics, reader.order, reader.drawers, body, reader.logbook, start + 1, bodyEnd), bodyEnd));
  }
}
