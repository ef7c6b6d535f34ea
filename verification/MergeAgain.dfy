/**
 Merging again: the same theirs merged into the result changes nothing, and a
 theirs that is still the base leaves ours as it was.
 */
module MergeAgain {
  import opened Base
  import opened Text
  import opened Order
  import opened Issue
  import opened MergeSets
  import opened MergeLog
  import opened MergeDrawers
  import opened DrawerLaws
  import opened Merge
  import opened MergeLaws
  import LogLine

  // ---- what a grown logbook keeps ----

  lemma {:induction false} MovedFacts(log: seq<LogEntry>, state: string)
    ensures forall e :: e in log && e.toState == Some(state) ==> !Less(MovedIn(log, state), e.timestamp)
    ensures MovedIn(log, state) == "" || exists e :: e in log && e.toState == Some(state) && e.timestamp == MovedIn(log, state)
  {
    if log != [] {
      MovedFacts(log[1..], state);
      var rest := MovedIn(log[1..], state);
      assert forall e :: e in log <==> e == log[0] || e in log[1..];
      forall e | e in log && e.toState == Some(state) ensures !Less(MovedIn(log, state), e.timestamp) {
        if e in log[1..] {
          if MovedIn(log, state) != rest {
            LessTotal(rest, e.timestamp);
            LessAsymmetric(rest, log[0].timestamp);
            LessLeqTransitive(e.timestamp, rest, log[0].timestamp);
          }
        } else if MovedIn(log, state) == e.timestamp {
          LessIrreflexive(e.timestamp);
        }
      }
    }
  }

  lemma {:induction false} LessIrreflexive(a: string)
    ensures !Less(a, a)
  {
    if a != "" {
      LessIrreflexive(a[1..]);
    }
  }

  /// A logbook that holds at least the entries of another moved no earlier.
  lemma MovedGrows(small: seq<LogEntry>, large: seq<LogEntry>, state: string)
    requires forall e :: e in small ==> e in large
    ensures !Less(MovedIn(large, state), MovedIn(small, state))
  {
    MovedFacts(small, state);
    MovedFacts(large, state);
  }

  lemma {:induction false} AddLinesKeep(out: seq<LogEntry>, theirs: seq<LogEntry>, drop: set<string>)
    ensures forall e :: e in out ==> e in AddLines(out, theirs, drop)
    decreases |theirs|
  {
    if theirs != [] {
      var e := theirs[0];
      var at := if e.timestamp == "" then |out| else Place(out, e.timestamp);
      assert forall x :: x in out ==> x in out[..at] || x in out[at..];
      AddLinesKeep(if LogLine.Render(e) in drop + Lines(out) then out else Insert(out, e), theirs[1..], drop);
    }
  }

  /// Neither side took a line out.
  predicate OnlyGrew(o: Heading, a: Heading, b: Heading) {
    Lines(o.logbook) <= Lines(a.logbook) * Lines(b.logbook)
  }

  lemma OursEntriesStay(o: Heading, a: Heading, b: Heading)
    requires OnlyGrew(o, a, b)
    ensures forall e :: e in a.logbook ==> e in MergedLog(o.logbook, a.logbook, b.logbook)
  {
    var drop := Dropped(o.logbook, a.logbook, b.logbook);
    assert drop == {};
    KeepAllLines(a.logbook, drop);
    AddLinesKeep(a.logbook, b.logbook, drop);
  }

  // ---- scalars ----

  lemma ScalarAbsorbs(field: string, o: string, a: string, b: string)
    requires Scalar(field, o, a, b).1 == []
    ensures Scalar(field, o, Scalar(field, o, a, b).0, b) == Scalar(field, o, a, b)
  {
  }

  lemma StateAbsorbs(o: Heading, a: Heading, b: Heading, m: Heading)
    requires MergedState(o, a, b).1 == [] && m.state == MergedState(o, a, b).0
    requires forall e :: e in a.logbook ==> e in m.logbook
    ensures MergedState(o, m, b) == (m.state, [])
  {
    MovedGrows(a.logbook, m.logbook, a.state);
    if Less(Moved(b), MovedIn(a.logbook, a.state)) {
      LessIsLess(Moved(b), MovedIn(a.logbook, a.state), MovedIn(m.logbook, a.state));
    }
  }

  lemma LessIsLess(a: string, b: string, c: string)
    requires Less(a, b) && !Less(c, b)
    ensures Less(a, c) && c != ""
  {
    LessTotal(b, c);
    if b != c {
      LessTransitive(a, b, c);
    }
  }

  // ---- properties ----

  /// A claim names its holder and its time together.
  predicate WellFormedClaim(t: Table) {
    CLAIMED_BY in t <==> CLAIMED_AT in t
  }

  lemma PropertyAbsorbs(k: string, o: Table, a: Table, b: Table, m: Table)
    requires PropertyAt(k, o, a, b).1 == [] && Get(m, k) == PropertyAt(k, o, a, b).0
    ensures PropertyAt(k, o, m, b) == (Get(m, k), [])
  {
    hide MergedTokens;
    TokensAbsorb(Get(o, k), Get(a, k), Get(b, k));
  }

  lemma {:induction false} NoPropertyClashes(keys: seq<string>, o: Table, a: Table, b: Table)
    requires forall k :: k in keys ==> PropertyAt(k, o, a, b).1 == []
    ensures PropertyClashes(keys, o, a, b) == []
  {
    hide PropertyAt;
    if keys != [] {
      NoPropertyClashes(keys[1..], o, a, b);
    }
  }

  /// The claim keys are scalars.
  lemma ClaimKeys(k: string, o: Table, a: Table, b: Table)
    requires k == CLAIMED_BY || k == CLAIMED_AT
    ensures PropertyAt(k, o, a, b).0 == Pick(Get(o, k), Get(a, k), Get(b, k)).0
    ensures PropertyAt(k, o, a, b).1 == [] <==> !Pick(Get(o, k), Get(a, k), Get(b, k)).1
  {
    assert k !in LIST_PROPERTIES by {
      assert |CLAIMED_BY| == 10 && |CLAIMED_AT| == 10;
      assert |"BLOCKED_BY"| == 10 && "BLOCKED_BY"[0] == 'B';
    }
  }

  /// What the two claim keys hold in three tables.
  datatype Claims = Claims(holder: Option<string>, at: Option<string>)

  function ClaimOf(t: Table): Claims {
    Claims(Get(t, CLAIMED_BY), Get(t, CLAIMED_AT))
  }

  lemma MergedPropertiesHold(k: string, o: Heading, a: Heading, b: Heading)
    ensures Get(MergedProperties(o, a, b), k)
         == if ClaimReleased(a, b) && (k == CLAIMED_BY || k == CLAIMED_AT) then None
            else PropertyAt(k, o.properties, a.properties, b.properties).0
  {
    hide PropertyAt, ClaimReleased, MergedTable;
    MergedTableHolds(k, o.properties, a.properties, b.properties);
  }

  /**
   The second merge undoes what the first made of the claim. That takes a claim
   time on a side without a holder: of a claim released the first time, the
   releaser's time or theirs' comes back; of one that stood, the times of two
   sides put together are old enough for a release to count.
   */
  predicate ClaimComesApart(o: Heading, a: Heading, b: Heading) {
    var (x, y, z) := (ClaimOf(o.properties), ClaimOf(a.properties), ClaimOf(b.properties));
    z.at.Some? &&
    if ClaimReleased(a, b) then z.at != x.at && (y.holder.Some? || (y.at.Some? && x.at.Some?))
    else if y.holder.Some? then
      z.holder.None? && x.holder.None? && y.at == x.at && z.at != x.at && ReleasedAfter(b.logbook, z.at.value)
    else
      z.holder.Some? && x.holder == z.holder && Pick(x.at, y.at, z.at).0.Some?
      && ReleasedAfter(MergedLog(o.logbook, a.logbook, b.logbook), z.at.value)
  }

  /// The claim rule, on the three claims and on whether the side without the
  /// claim holds a release note late enough.
  lemma ClaimAbsorbs(o: Heading, a: Heading, b: Heading, m: Heading)
    requires m.properties == MergedProperties(o, a, b) && m.logbook == MergedLog(o.logbook, a.logbook, b.logbook)
    requires PropertyAt(CLAIMED_BY, o.properties, a.properties, b.properties).1 == []
    requires PropertyAt(CLAIMED_AT, o.properties, a.properties, b.properties).1 == []
    requires forall e :: e in a.logbook ==> e in m.logbook
    ensures !ClaimComesApart(o, a, b) <==>
      && ClaimOf(MergedProperties(o, m, b)) == ClaimOf(m.properties)
      && PropertyAt(CLAIMED_BY, o.properties, m.properties, b.properties).1 == []
      && PropertyAt(CLAIMED_AT, o.properties, m.properties, b.properties).1 == []
  {
    hide PropertyAt, MergedProperties, IsReleaseNote, MergedLog;
    MergedPropertiesHold(CLAIMED_BY, o, a, b);
    MergedPropertiesHold(CLAIMED_AT, o, a, b);
    MergedPropertiesHold(CLAIMED_BY, o, m, b);
    MergedPropertiesHold(CLAIMED_AT, o, m, b);
    ClaimKeys(CLAIMED_BY, o.properties, a.properties, b.properties);
    ClaimKeys(CLAIMED_AT, o.properties, a.properties, b.properties);
    ClaimKeys(CLAIMED_BY, o.properties, m.properties, b.properties);
    ClaimKeys(CLAIMED_AT, o.properties, m.properties, b.properties);
  }

  lemma PropertiesAbsorb(o: Heading, a: Heading, b: Heading, m: Heading)
    requires PropertyClashes(AllKeys(o, a, b), o.properties, a.properties, b.properties) == []
    requires m.properties == MergedProperties(o, a, b) && m.logbook == MergedLog(o.logbook, a.logbook, b.logbook)
    requires forall e :: e in a.logbook ==> e in m.logbook
    ensures !ClaimComesApart(o, a, b) <==>
      && MergedProperties(o, m, b) == m.properties
      && PropertyClashes(AllKeys(o, m, b), o.properties, m.properties, b.properties) == []
  {
    hide PropertyAt, MergedProperties, AllKeys, ClaimReleased, ClaimComesApart, MergedLog, PropertyClashes;
    NoClashAtKey(CLAIMED_BY, o, a, b);
    NoClashAtKey(CLAIMED_AT, o, a, b);
    ClaimAbsorbs(o, a, b, m);
    if PropertyClashes(AllKeys(o, m, b), o.properties, m.properties, b.properties) == [] {
      NoClashAtKey(CLAIMED_BY, o, m, b);
      NoClashAtKey(CLAIMED_AT, o, m, b);
    }
    if !ClaimComesApart(o, a, b) {
      forall k
        ensures Get(MergedProperties(o, m, b), k) == Get(m.properties, k)
        ensures PropertyAt(k, o.properties, m.properties, b.properties).1 == []
      {
        if k != CLAIMED_BY && k != CLAIMED_AT {
          NoClashAtKey(k, o, a, b);
          MergedPropertiesHold(k, o, a, b);
          MergedPropertiesHold(k, o, m, b);
          PropertyAbsorbs(k, o.properties, a.properties, b.properties, m.properties);
        }
      }
      SameLookups(MergedProperties(o, m, b), m.properties);
      NoPropertyClashes(AllKeys(o, m, b), o.properties, m.properties, b.properties);
    }
  }

  /// Claims that name their holder and their time together stay together.
  lemma WholeClaimsStay(o: Heading, a: Heading, b: Heading)
    requires WellFormedClaim(o.properties) && WellFormedClaim(a.properties) && WellFormedClaim(b.properties)
    ensures !ClaimComesApart(o, a, b)
  {
    hide ReleasedAfter, MergedLog;
  }

  lemma OrderAbsorbs(a: seq<string>, b: seq<string>, table: Table)
    ensures var m := MergedOrder(a, b, table); MergedOrder(m, b, table) == m
  {
    var m := MergedOrder(a, b, table);
    var all := AddNew(m, b, {});
    OrderAddsOnlyGone(m, b, table);
  }

  /// Adding keys and dropping those not in the table leaves the kept order
  /// alone when nothing of the table is missing from it.
  lemma {:induction false} OrderAddsOnlyGone(m: seq<string>, b: seq<string>, table: Table)
    requires Elems(m) <= table.Keys
    requires Elems(b) * table.Keys <= Elems(m)
    ensures MergedOrder(m, b, table) == m
  {
    AddNewExtends(m, b);
    var all := AddNew(m, b, {});
    var extra := all[|m|..];
    assert all == m + extra;
    WithoutConcat(m, extra, Elems(all) - table.Keys);
    WithoutNothing(m, Elems(all) - table.Keys);
    ElemsConcat(m, extra);
    forall x | x in Elems(extra) ensures x in Elems(all) - table.Keys {
      assert x in extra && x in all;
      AddNewFresh(m, b, x);
      assert x in Elems(b) && x !in Elems(m);
    }
    WithoutAll(extra, Elems(all) - table.Keys);
  }

  lemma {:induction false} AddNewExtends(out: seq<string>, src: seq<string>)
    ensures out <= AddNew(out, src, {})
    decreases |src|
  {
    if src != [] {
      AddNewExtends(if src[0] !in out then out + [src[0]] else out, src[1..]);
    }
  }

  lemma {:induction false} AddNewFresh(out: seq<string>, src: seq<string>, x: string)
    requires out <= AddNew(out, src, {}) && x in AddNew(out, src, {})[|out|..]
    ensures x in src && x !in out
    decreases |src|
  {
    if src != [] {
      var next := if src[0] !in out then out + [src[0]] else out;
      AddNewExtends(next, src[1..]);
      var r := AddNew(out, src, {});
      if next != out {
        assert r[|out|..] == [src[0]] + r[|next|..];
        if x != src[0] {
          AddNewFresh(next, src[1..], x);
        }
      } else {
        AddNewFresh(out, src[1..], x);
      }
    }
  }

  lemma WithoutFirst<T>(s: seq<T>, drop: set<T>)
    requires s != []
    ensures Without(s, drop) == (if s[0] in drop then [] else [s[0]]) + Without(s[1..], drop)
  {
    hide Elems;
  }

  lemma {:induction false} WithoutConcat<T>(s: seq<T>, t: seq<T>, drop: set<T>)
    ensures Without(s + t, drop) == Without(s, drop) + Without(t, drop)
  {
    hide Elems;
    if s == [] {
      assert s + t == t && Without(s, drop) == [];
    } else {
      WithoutFirst(s, drop);
      WithoutFirst(s + t, drop);
      WithoutConcat(s[1..], t, drop);
      assert (s + t)[0] == s[0] && (s + t)[1..] == s[1..] + t;
    }
  }

  // ---- the whole heading ----

  lemma PriorityAbsorbs(o: char, a: char, b: char)
    requires MergedPriority(o, a, b).1 == []
    ensures MergedPriority(o, MergedPriority(o, a, b).0, b) == MergedPriority(o, a, b)
  {
  }

  lemma StatisticsAbsorb(o: Option<string>, a: Option<string>, b: Option<string>)
    requires MergedStatistics(o, a, b).1 == []
    ensures MergedStatistics(o, MergedStatistics(o, a, b).0, b) == MergedStatistics(o, a, b)
  {
  }

  lemma NoPartsNoClash(o: Site, a: Site, b: Site)
    requires ClashParts(o, a, b) == NO_PARTS
    ensures MergedFields(o, a, b).clashes == []
  {
    AllClashes(o, a, b);
    hide Scalar, MergedState, MergedPriority, MergedStatistics, PropertyClashes, MergedDrawers, MergedFields;
  }

  lemma ScalarsAbsorb(o: Site, a: Site, b: Site)
    requires MergedFields(o, a, b).clashes == [] && OnlyGrew(o.heading, a.heading, b.heading)
    ensures var m := MergedFields(o, a, b).site;
      var (x, h, z) := (o.heading, m.heading, b.heading);
      && Scalar("title", x.title, h.title, z.title) == (h.title, [])
      && MergedState(x, h, z) == (h.state, [])
      && Scalar("body", x.body, h.body, z.body) == (h.body, [])
      && MergedPriority(x.priority, h.priority, z.priority) == (h.priority, [])
      && MergedStatistics(x.statistics, h.statistics, z.statistics) == (h.statistics, [])
      && Scalar("the org after the heading", o.tail, m.tail, b.tail) == (m.tail, [])
  {
    var (x, y, z) := (o.heading, a.heading, b.heading);
    NoClashParts(o, a, b);
    OursEntriesStay(x, y, z);
    ScalarsOf(o, a, b);
    CollectionsOf(o, a, b);
    hide MergedFields, MergedState, MergedDrawers, PropertyClashes, MergedProperties, MergedTags, MergedLog, MergedOrder,
      AllKeys, Fields, OnlyGrew, Scalar, MergedPriority, MergedStatistics;
    var m := MergedFields(o, a, b).site;
    PriorityAbsorbs(x.priority, y.priority, z.priority);
    StatisticsAbsorb(x.statistics, y.statistics, z.statistics);
    ScalarAbsorbs("title", x.title, y.title, z.title);
    StateAbsorbs(x, y, z, m.heading);
    ScalarAbsorbs("body", x.body, y.body, z.body);
    ScalarAbsorbs("the org after the heading", o.tail, a.tail, b.tail);
  }

  lemma CollectionsAbsorb(o: Site, a: Site, b: Site)
    requires MergedFields(o, a, b).clashes == [] && OnlyGrew(o.heading, a.heading, b.heading)
    ensures var (x, h, z) := (o.heading, MergedFields(o, a, b).site.heading, b.heading);
      && MergedTags(x.orgTags, h.orgTags, z.orgTags) == h.orgTags
      && (!ClaimComesApart(x, a.heading, z) <==>
          && MergedProperties(x, h, z) == h.properties
          && PropertyClashes(AllKeys(x, h, z), x.properties, h.properties, z.properties) == [])
      && MergedOrder(h.propertyOrder, z.propertyOrder, h.properties) == h.propertyOrder
      && MergedLog(x.logbook, h.logbook, z.logbook) == h.logbook
      && MergedDrawers(x.extraDrawers, h.extraDrawers, z.extraDrawers) == (h.extraDrawers, [])
  {
    var (x, y, z) := (o.heading, a.heading, b.heading);
    NoClashParts(o, a, b);
    OursEntriesStay(x, y, z);
    CollectionsOf(o, a, b);
    hide MergedFields, MergedState, MergedDrawers, PropertyClashes, MergedProperties, MergedTags, MergedLog, MergedOrder,
      AllKeys, Fields, OnlyGrew, Scalar, MergedPriority, MergedStatistics, ClaimComesApart;
    TagsAbsorb(x.orgTags, y.orgTags, z.orgTags);
    PropertiesAbsorb(x, y, z, MergedFields(o, a, b).site.heading);
    OrderAbsorbs(y.propertyOrder, z.propertyOrder, MergedProperties(x, y, z));
    LogAbsorb(x.logbook, y.logbook, z.logbook);
    DrawersAbsorb(x.extraDrawers, y.extraDrawers, z.extraDrawers);
  }

  /// A heading every part of which the merge leaves alone, its drawers perhaps
  /// written anew, is left alone.
  lemma StaysWhole(o: Site, m: Site, b: Site, drawers: seq<string>)
    requires var (x, h, z) := (o.heading, m.heading, b.heading);
      && Scalar("title", x.title, h.title, z.title) == (h.title, [])
      && MergedState(x, h, z) == (h.state, [])
      && Scalar("body", x.body, h.body, z.body) == (h.body, [])
      && MergedPriority(x.priority, h.priority, z.priority) == (h.priority, [])
      && MergedStatistics(x.statistics, h.statistics, z.statistics) == (h.statistics, [])
      && Scalar("the org after the heading", o.tail, m.tail, b.tail) == (m.tail, [])
      && MergedTags(x.orgTags, h.orgTags, z.orgTags) == h.orgTags
      && MergedProperties(x, h, z) == h.properties
      && PropertyClashes(AllKeys(x, h, z), x.properties, h.properties, z.properties) == []
      && MergedOrder(h.propertyOrder, z.propertyOrder, h.properties) == h.propertyOrder
      && MergedLog(x.logbook, h.logbook, z.logbook) == h.logbook
      && MergedDrawers(x.extraDrawers, h.extraDrawers, z.extraDrawers) == (drawers, [])
    ensures MergedFields(o, m, b) == Merged(m.(heading := m.heading.(extraDrawers := drawers)), [])
  {
    hide MergedState, MergedDrawers, PropertyClashes, MergedProperties, MergedTags, MergedLog, MergedOrder,
      AllKeys, Scalar, MergedPriority, MergedStatistics;
    NoPartsNoClash(o, m, b);
  }

  /**
   Absorption: merging the same theirs into a result with no clash gives that
   result again, with no clash, exactly when the claim does not come apart.
   */
  lemma MergingAgainChangesNothing(o: Site, a: Site, b: Site, now: string, later: string)
    requires MergedSite(o, a, b, now).1 == 0
    requires OnlyGrew(o.heading, a.heading, b.heading)
    ensures var m := MergedSite(o, a, b, now).0;
      MergedSite(o, m, b, later) == (m, 0) <==> !ClaimComesApart(o.heading, a.heading, b.heading)
  {
    var m := MergedSite(o, a, b, now).0;
    assert m == MergedFields(o, a, b).site;
    CollectionsAbsorb(o, a, b);
    MergedWhole(o, m, b, later);
    hide MergedFields, OnlyGrew, ClaimComesApart, MergedSite;
    if !ClaimComesApart(o.heading, a.heading, b.heading) {
      ScalarsAbsorb(o, a, b);
      StaysWhole(o, m, b, m.heading.extraDrawers);
    }
  }

  /// A merge that gives ours back changes no property and clashes on none.
  lemma MergedWhole(o: Site, m: Site, b: Site, now: string)
    ensures MergedFields(o, m, b) == Merged(m, []) ==> MergedSite(o, m, b, now) == (m, 0)
    ensures MergedSite(o, m, b, now) == (m, 0) ==>
      && MergedProperties(o.heading, m.heading, b.heading) == m.heading.properties
      && PropertyClashes(AllKeys(o.heading, m.heading, b.heading), o.heading.properties, m.heading.properties, b.heading.properties) == []
  {
    if MergedSite(o, m, b, now) == (m, 0) {
      NoClashParts(o, m, b);
      CollectionsOf(o, m, b);
    }
    hide MergedProperties, PropertyClashes, AllKeys, MergedFields;
  }

  // ---- theirs is still the base ----

  /// A heading in the form the tracker keeps it in, its key order knowing
  /// every key of its own table that `base` orders.
  predicate NormalHeading(h: Heading, base: Heading) {
    && h.statistics != Some("")
    && (forall k :: k in LIST_PROPERTIES ==> NormalTokens(Get(h.properties, k)))
    && Elems(h.propertyOrder) <= h.properties.Keys
    && Elems(base.propertyOrder) * h.properties.Keys <= Elems(h.propertyOrder)
    && DrawersInOrder(h.extraDrawers) && BallotsHeld(h.extraDrawers)
  }

  /// Ours took a claim that the base logbook already holds a release for,
  /// stamped no earlier than the claim; or ours released the base's claim and
  /// kept its time.
  predicate ClaimAlreadyReleased(o: Heading, a: Heading) {
    ClaimReleased(a, o) && (CLAIMED_BY in a.properties || CLAIMED_AT in a.properties)
  }

  lemma PropertyIdentity(k: string, o: Table, a: Table)
    requires k in LIST_PROPERTIES ==> NormalTokens(Get(a, k))
    ensures PropertyAt(k, o, a, o) == (Get(a, k), [])
  {
    hide MergedTokens, NormalTokens;
    if k in LIST_PROPERTIES {
      TokensIdentity(Get(o, k), Get(a, k));
    }
  }

  lemma TableIdentity(o: Heading, a: Heading)
    requires forall k :: k in LIST_PROPERTIES ==> NormalTokens(Get(a.properties, k))
    ensures MergedTable(o.properties, a.properties, o.properties) == a.properties
    ensures PropertyClashes(AllKeys(o, a, o), o.properties, a.properties, o.properties) == []
  {
    hide PropertyAt, MergedTable, AllKeys, NormalTokens;
    forall k
      ensures Get(MergedTable(o.properties, a.properties, o.properties), k) == Get(a.properties, k)
      ensures PropertyAt(k, o.properties, a.properties, o.properties).1 == []
    {
      PropertyIdentity(k, o.properties, a.properties);
      MergedTableHolds(k, o.properties, a.properties, o.properties);
    }
    SameLookups(MergedTable(o.properties, a.properties, o.properties), a.properties);
    NoPropertyClashes(AllKeys(o, a, o), o.properties, a.properties, o.properties);
  }

  lemma PropertiesIdentity(o: Heading, a: Heading)
    requires NormalHeading(a, o)
    ensures MergedProperties(o, a, o) == a.properties <==> !ClaimAlreadyReleased(o, a)
    ensures PropertyClashes(AllKeys(o, a, o), o.properties, a.properties, o.properties) == []
  {
    hide NormalTokens, DrawersInOrder, BallotsHeld, MergedTable, PropertyClashes, AllKeys, ReleasedAfter;
    TableIdentity(o, a);
    var gone := {CLAIMED_BY, CLAIMED_AT};
    if ClaimReleased(a, o) && CLAIMED_BY !in a.properties && CLAIMED_AT !in a.properties {
      assert a.properties - gone == a.properties;
    }
  }

  /// Ours with its votes written as a merge writes them.
  function Tidy(a: Site): Site {
    a.(heading := a.heading.(extraDrawers := TidyDrawers(a.heading.extraDrawers)))
  }

  /**
   Merging a theirs that is still the base gives ours back exactly when ours
   did not take a claim whose release the base already logs at that stamp or
   later. Stamps have the resolution of a minute.
   */
  lemma UnchangedTheirsKeepsOurs(o: Site, a: Site, now: string)
    requires NormalHeading(a.heading, o.heading)
    ensures MergedSite(o, a, o, now) == (Tidy(a), 0) <==> !ClaimAlreadyReleased(o.heading, a.heading)
  {
    var (x, h) := (o.heading, a.heading);
    PropertiesIdentity(x, h);
    assert h.statistics != Some("") && DrawersInOrder(h.extraDrawers) && BallotsHeld(h.extraDrawers);
    assert Elems(h.propertyOrder) <= h.properties.Keys && Elems(x.propertyOrder) * h.properties.Keys <= Elems(h.propertyOrder);
    assert MergedState(x, h, x) == (h.state, []);
    hide MergedState, MergedDrawers, PropertyClashes, MergedTags, MergedLog, MergedOrder,
      AllKeys, NormalHeading, DrawersInOrder, BallotsHeld, TidyDrawers, MergedProperties, ClaimAlreadyReleased;
    if MergedProperties(x, h, x) == h.properties {
      TagsIdentity(x.orgTags, h.orgTags);
      OrderAddsOnlyGone(h.propertyOrder, x.propertyOrder, h.properties);
      LogIdentity(x.logbook, h.logbook);
      DrawersIdentity(x.extraDrawers, h.extraDrawers);
      StaysWhole(o, a, o, TidyDrawers(h.extraDrawers));
    }
  }

  const STAMP := "[2026-10-04 Sun 10:00]"

  function Plain(properties: Table, logbook: seq<LogEntry>): Site {
    Site(Heading("acme-1", "Work", "STARTED", 'A', properties, [], None, [], [], "", logbook, 1, 1), "")
  }

  const RELEASED := LogEntry(STAMP, None, None, Some(CLAIM_RELEASED_NOTE + " ann held since then"), None)

  lemma ReleasedIsARelease()
    ensures ReleasedAfter([RELEASED], STAMP)
  {
    var note := CLAIM_RELEASED_NOTE + " ann held since then";
    assert note[0] == 'c';
    assert TrimStart(note) == note;
    LessIrreflexive(STAMP);
    assert RELEASED in [RELEASED] && IsReleaseNote(RELEASED);
  }

  lemma ReleasedClaimIsDropped(o: Site, a: Site, now: string)
    requires ClaimAlreadyReleased(o.heading, a.heading)
    ensures var t := MergedSite(o, a, o, now).0.heading.properties; CLAIMED_BY !in t && CLAIMED_AT !in t
  {
    hide MergedTable, ReleasedAfter, MergedDrawers, MergedLog, MergedOrder, MergedTags, PropertyClashes, MergedState,
      Scalar, MergedPriority, MergedStatistics;
  }

  /// A claim released and taken again within the minute is lost to a merge
  /// with an unchanged theirs.
  lemma ReclaimWithinTheMinuteIsLost(now: string)
    ensures
      var o := Plain(map[], [RELEASED]);
      var a := Plain(map[CLAIMED_BY := "bob", CLAIMED_AT := STAMP], [RELEASED]);
      CLAIMED_BY !in MergedSite(o, a, o, now).0.heading.properties
  {
    hide ReleasedAfter, MergedSite;
    ReleasedIsARelease();
    ClaimKeysDiffer();
    var (o, a) := (Plain(map[], [RELEASED]), Plain(map[CLAIMED_BY := "bob", CLAIMED_AT := STAMP], [RELEASED]));
    assert a.heading.properties[CLAIMED_AT] == STAMP && CLAIMED_BY in a.heading.properties;
    assert ClaimReleased(a.heading, o.heading);
    ReleasedClaimIsDropped(Plain(map[], [RELEASED]),
                           Plain(map[CLAIMED_BY := "bob", CLAIMED_AT := STAMP], [RELEASED]), now);
  }

  lemma ClaimKeysDiffer()
    ensures CLAIMED_BY != CLAIMED_AT
  {
    assert CLAIMED_BY[8] == 'B' && CLAIMED_AT[8] == 'A';
  }

  // ---- half a claim ----

  lemma MergedSiteProperties(o: Site, a: Site, b: Site, now: string)
    ensures MergedSite(o, a, b, now).0.heading.properties == MergedProperties(o.heading, a.heading, b.heading)
  {
    hide MergedProperties, MergedDrawers, MergedLog, MergedOrder, MergedTags, PropertyClashes, MergedState, Scalar,
      MergedPriority, MergedStatistics, ClashNotes, ClashText, DropDrawers, Sorted;
  }

  lemma PlainSitesMerge(p: Table, q: Table, r: Table, l: seq<LogEntry>, k: seq<LogEntry>, j: seq<LogEntry>, now: string)
    requires forall key :: PropertyAt(key, p, q, r).1 == []
    ensures MergedSite(Plain(p, l), Plain(q, k), Plain(r, j), now).1 == 0
  {
    var (o, a, b) := (Plain(p, l), Plain(q, k), Plain(r, j));
    NoPropertyClashes(AllKeys(o.heading, a.heading, b.heading), p, q, r);
    assert MergedDrawers([], [], []).1 == [];
    hide PropertyAt, PropertyClashes, AllKeys, MergedDrawers;
    NoPartsNoClash(o, a, b);
    hide MergedFields, Plain;
  }

  /**
   An input on which the claim comes apart: ours holds a claim without a time,
   theirs a time and a release note. The first merge puts the two together, and
   the second takes the release for one of that claim.
   */
  lemma HalfClaimComesApart(now: string, later: string)
    ensures
      var o := Plain(map[], []);
      var a := Plain(map[CLAIMED_BY := "bob"], []);
      var b := Plain(map[CLAIMED_AT := STAMP], [RELEASED]);
      var m := MergedSite(o, a, b, now);
      && m.1 == 0 && CLAIMED_BY in m.0.heading.properties
      && CLAIMED_BY !in MergedSite(o, m.0, b, later).0.heading.properties
  {
    ClaimKeysDiffer();
    ReleasedIsARelease();
    hide ReleasedAfter, MergedSite, MergedLog;
    var (o, a, b) := (Plain(map[], []), Plain(map[CLAIMED_BY := "bob"], []), Plain(map[CLAIMED_AT := STAMP], [RELEASED]));
    var (p, q, r) := (o.heading.properties, a.heading.properties, b.heading.properties);
    forall k ensures PropertyAt(k, p, q, r).1 == [] {
      hide MergedTokens;
    }
    PlainSitesMerge(p, q, r, [], [], [RELEASED], now);
    MergedSiteProperties(o, a, b, now);
    HalvesMeet(o.heading, a.heading, b.heading);
    var m := MergedSite(o, a, b, now).0;
    MergedSiteProperties(o, m, b, later);
    hide MergedProperties, PropertyAt, Plain;
    HalvesPart(o.heading, m.heading, b.heading);
  }

  lemma HalvesMeet(o: Heading, a: Heading, b: Heading)
    requires o.properties == map[] && a.properties == map[CLAIMED_BY := "bob"] && b.properties == map[CLAIMED_AT := STAMP]
    ensures var t := MergedProperties(o, a, b); CLAIMED_BY in t && Get(t, CLAIMED_AT) == Some(STAMP)
  {
    ClaimKeysDiffer();
    MergedPropertiesHold(CLAIMED_BY, o, a, b);
    MergedPropertiesHold(CLAIMED_AT, o, a, b);
    ClaimKeys(CLAIMED_BY, o.properties, a.properties, b.properties);
    ClaimKeys(CLAIMED_AT, o.properties, a.properties, b.properties);
    hide MergedProperties, PropertyAt;
    assert CLAIMED_AT !in a.properties && CLAIMED_BY !in b.properties;
  }

  lemma HalvesPart(o: Heading, m: Heading, b: Heading)
    requires CLAIMED_BY in m.properties && Get(m.properties, CLAIMED_AT) == Some(STAMP) && CLAIMED_BY !in b.properties
    requires ReleasedAfter(b.logbook, STAMP)
    ensures CLAIMED_BY !in MergedProperties(o, m, b)
  {
    hide ReleasedAfter, MergedTable;
  }
}
