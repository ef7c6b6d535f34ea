/**
 What the merge of one issue promises: swapping the sides gives the same issue,
 merging the same theirs again changes nothing, and an unchanged theirs leaves
 ours alone.
 */
module MergeLaws {
  import opened Base
  import opened Order
  import opened Issue
  import opened MergeSets
  import opened MergeLog
  import opened MergeDrawers
  import opened DrawerLaws
  import opened Merge

  // ---- swapping the sides ----

  lemma OneField(f: string, x: string)
    ensures Fields([Clash(f, x)]) == {f}
  {
  }

  lemma ScalarCommutes(field: string, o: string, a: string, b: string)
    ensures Fields(Scalar(field, o, a, b).1) == Fields(Scalar(field, o, b, a).1)
    ensures Scalar(field, o, a, b).1 == [] ==> Scalar(field, o, b, a) == Scalar(field, o, a, b)
  {
    OneField(field, a);
    OneField(field, b);
  }

  lemma StateCommutes(o: Heading, a: Heading, b: Heading)
    ensures Fields(MergedState(o, a, b).1) == Fields(MergedState(o, b, a).1)
    ensures MergedState(o, a, b).1 == [] ==> MergedState(o, b, a) == MergedState(o, a, b)
  {
    hide Fields;
    ScalarCommutes("state", o.state, a.state, b.state);
    var (x, y) := (Moved(a), Moved(b));
    LessTotal(x, y);
    if Less(x, y) {
      LessAsymmetric(x, y);
    } else if Less(y, x) {
      LessAsymmetric(y, x);
    }
  }

  lemma PropertyCommutes(k: string, o: Table, a: Table, b: Table)
    ensures Fields(PropertyAt(k, o, a, b).1) == Fields(PropertyAt(k, o, b, a).1)
    ensures PropertyAt(k, o, a, b).1 == [] ==> SameValue(k, PropertyAt(k, o, a, b).0, PropertyAt(k, o, b, a).0)
  {
    hide MergedTokens, PropTokens;
    if k in LIST_PROPERTIES {
      TokensSetLaw(Get(o, k), Get(a, k), Get(b, k));
      TokensSetLaw(Get(o, k), Get(b, k), Get(a, k));
    } else {
      OneField("property " + k, Get(a, k).GetOr(""));
      OneField("property " + k, Get(b, k).GetOr(""));
    }
  }

  lemma {:induction false} PropertyFieldsCommute(keys: seq<string>, o: Table, a: Table, b: Table)
    ensures Fields(PropertyClashes(keys, o, a, b)) == Fields(PropertyClashes(keys, o, b, a))
  {
    if keys != [] {
      hide PropertyAt;
      PropertyCommutes(keys[0], o, a, b);
      PropertyFieldsCommute(keys[1..], o, a, b);
      FieldsConcat(PropertyAt(keys[0], o, a, b).1, PropertyClashes(keys[1..], o, a, b));
      FieldsConcat(PropertyAt(keys[0], o, b, a).1, PropertyClashes(keys[1..], o, b, a));
    }
  }

  lemma {:induction false} NoPropertyClash(keys: seq<string>, k: string, o: Table, a: Table, b: Table)
    requires PropertyClashes(keys, o, a, b) == [] && k in keys
    ensures PropertyAt(k, o, a, b).1 == []
  {
    hide PropertyAt;
    if keys[0] != k {
      NoPropertyClash(keys[1..], k, o, a, b);
    }
  }

  function AllKeys(o: Heading, a: Heading, b: Heading): seq<string> {
    Sorted(o.properties.Keys + a.properties.Keys + b.properties.Keys)
  }

  /// Without a property clash, no key clashes, those nobody has included.
  lemma NoClashAtKey(k: string, o: Heading, a: Heading, b: Heading)
    requires PropertyClashes(AllKeys(o, a, b), o.properties, a.properties, b.properties) == []
    ensures PropertyAt(k, o.properties, a.properties, b.properties).1 == []
  {
    hide MergedTokens;
    if k in AllKeys(o, a, b) {
      NoPropertyClash(AllKeys(o, a, b), k, o.properties, a.properties, b.properties);
    } else {
      assert k !in Elems(AllKeys(o, a, b));
    }
  }

  /// The merged table looks up what each key merges to.
  lemma MergedTableHolds(k: string, o: Table, a: Table, b: Table)
    ensures Get(MergedTable(o, a, b), k) == PropertyAt(k, o, a, b).0
  {
    if k !in o.Keys + a.Keys + b.Keys {
      NothingMerged();
    } else {
      hide PropertyAt;
    }
  }

  lemma NothingMerged()
    ensures MergedTokens(None, None, None) == None
  {
    NoTokens();
  }

  /// The same value of a scalar, the same tokens of a set property.
  predicate SameValue(k: string, x: Option<string>, y: Option<string>) {
    if k in LIST_PROPERTIES then Elems(PropTokens(x)) == Elems(PropTokens(y)) else x == y
  }

  ghost predicate SameProperties(x: Table, y: Table) {
    forall k :: SameValue(k, Get(x, k), Get(y, k))
  }

  ghost predicate SameIssue(x: Heading, y: Heading) {
    && x.title == y.title && x.state == y.state && x.body == y.body
    && x.priority == y.priority && x.statistics == y.statistics
    && Elems(x.orgTags) == Elems(y.orgTags)
    && SameProperties(x.properties, y.properties)
    && Lines(x.logbook) == Lines(y.logbook)
    && SameDrawers(x.extraDrawers, y.extraDrawers)
  }

  lemma TablesCommute(o: Heading, a: Heading, b: Heading)
    requires PropertyClashes(AllKeys(o, a, b), o.properties, a.properties, b.properties) == []
    ensures SameProperties(MergedTable(o.properties, a.properties, b.properties),
                           MergedTable(o.properties, b.properties, a.properties))
  {
    hide SameValue, PropertyAt, MergedTable, AllKeys, PropertyClashes;
    forall k
      ensures SameValue(k, Get(MergedTable(o.properties, a.properties, b.properties), k),
                        Get(MergedTable(o.properties, b.properties, a.properties), k))
    {
      NoClashAtKey(k, o, a, b);
      MergedTableHolds(k, o.properties, a.properties, b.properties);
      MergedTableHolds(k, o.properties, b.properties, a.properties);
      PropertyCommutes(k, o.properties, a.properties, b.properties);
    }
  }

  lemma PropertiesCommute(o: Heading, a: Heading, b: Heading)
    requires PropertyClashes(AllKeys(o, a, b), o.properties, a.properties, b.properties) == []
    ensures SameProperties(MergedProperties(o, a, b), MergedProperties(o, b, a))
  {
    TablesCommute(o, a, b);
    assert ClaimReleased(a, b) == ClaimReleased(b, a);
    var (x, y) := (MergedTable(o.properties, a.properties, b.properties),
                   MergedTable(o.properties, b.properties, a.properties));
    hide PropertyAt, MergedTable, ClaimReleased, PropTokens, AllKeys, PropertyClashes;
    var gone := {CLAIMED_BY, CLAIMED_AT};
    forall k ensures SameValue(k, Get(x - gone, k), Get(y - gone, k)) {
      assert SameValue(k, Get(x, k), Get(y, k));
      assert Get(x - gone, k) == if k in gone then None else Get(x, k);
      assert Get(y - gone, k) == if k in gone then None else Get(y, k);
    }
  }

  /// The parts of the clash list, in the order they are recorded.
  datatype Parts = Parts(title: seq<Clash>, state: seq<Clash>, body: seq<Clash>, priority: seq<Clash>,
                         statistics: seq<Clash>, properties: seq<Clash>, drawers: seq<Clash>, tail: seq<Clash>)

  const NO_PARTS := Parts([], [], [], [], [], [], [], [])

  function ClashParts(o: Site, a: Site, b: Site): Parts {
    var (x, y, z) := (o.heading, a.heading, b.heading);
    Parts(Scalar("title", x.title, y.title, z.title).1,
          MergedState(x, y, z).1,
          Scalar("body", x.body, y.body, z.body).1,
          MergedPriority(x.priority, y.priority, z.priority).1,
          MergedStatistics(x.statistics, y.statistics, z.statistics).1,
          PropertyClashes(AllKeys(x, y, z), x.properties, y.properties, z.properties),
          MergedDrawers(x.extraDrawers, y.extraDrawers, z.extraDrawers).1,
          Scalar("the org after the heading", o.tail, a.tail, b.tail).1)
  }

  function AllParts(p: Parts): seq<Clash> {
    p.title + p.state + p.body + p.priority + p.statistics + p.properties + p.drawers + p.tail
  }

  function PartFields(p: Parts): set<string> {
    Fields(p.title) + Fields(p.state) + Fields(p.body) + Fields(p.priority) + Fields(p.statistics)
    + Fields(p.properties) + Fields(p.drawers) + Fields(p.tail)
  }

  lemma FieldsOfParts(p: Parts)
    ensures Fields(AllParts(p)) == PartFields(p)
  {
    hide Fields;
    FieldsConcat(p.title, p.state);
    FieldsConcat(p.title + p.state, p.body);
    FieldsConcat(p.title + p.state + p.body, p.priority);
    FieldsConcat(p.title + p.state + p.body + p.priority, p.statistics);
    FieldsConcat(p.title + p.state + p.body + p.priority + p.statistics, p.properties);
    FieldsConcat(p.title + p.state + p.body + p.priority + p.statistics + p.properties, p.drawers);
    FieldsConcat(p.title + p.state + p.body + p.priority + p.statistics + p.properties + p.drawers, p.tail);
  }

  lemma AllClashes(o: Site, a: Site, b: Site)
    ensures MergedFields(o, a, b).clashes == AllParts(ClashParts(o, a, b))
  {
    hide Scalar, MergedState, MergedPriority, MergedStatistics, PropertyClashes, MergedDrawers, MergedProperties, MergedLog, MergedTags, MergedOrder;
  }

  lemma PartsCommute(o: Site, a: Site, b: Site)
    ensures PartFields(ClashParts(o, a, b)) == PartFields(ClashParts(o, b, a))
  {
    var (x, y, z) := (o.heading, a.heading, b.heading);
    hide MergedState, MergedDrawers, Scalar, PropertyClashes, Fields, AllKeys;
    ScalarCommutes("title", x.title, y.title, z.title);
    StateCommutes(x, y, z);
    ScalarCommutes("body", x.body, y.body, z.body);
    ScalarCommutes("priority", [x.priority], [y.priority], [z.priority]);
    ScalarCommutes("statistics", x.statistics.GetOr(""), y.statistics.GetOr(""), z.statistics.GetOr(""));
    SameKeys(x, y, z);
    PropertyFieldsCommute(AllKeys(x, y, z), x.properties, y.properties, z.properties);
    DrawersCommute(x.extraDrawers, y.extraDrawers, z.extraDrawers);
    ScalarCommutes("the org after the heading", o.tail, a.tail, b.tail);
  }

  lemma SameKeys(o: Heading, a: Heading, b: Heading)
    ensures AllKeys(o, a, b) == AllKeys(o, b, a)
  {
    hide Sorted;
    assert o.properties.Keys + a.properties.Keys + b.properties.Keys == o.properties.Keys + b.properties.Keys + a.properties.Keys;
  }

  /// The same fields clash whichever side is ours.
  lemma SameFieldsClash(o: Site, a: Site, b: Site)
    ensures Fields(MergedFields(o, a, b).clashes) == Fields(MergedFields(o, b, a).clashes)
  {
    hide ClashParts, MergedFields, Fields;
    PartsCommute(o, a, b);
    AllClashes(o, a, b);
    AllClashes(o, b, a);
    FieldsOfParts(ClashParts(o, a, b));
    FieldsOfParts(ClashParts(o, b, a));
  }

  lemma NoClashParts(o: Site, a: Site, b: Site)
    requires MergedFields(o, a, b).clashes == []
    ensures ClashParts(o, a, b) == NO_PARTS
  {
    hide MergedFields, ClashParts;
    AllClashes(o, a, b);
    NothingIn(ClashParts(o, a, b));
  }

  lemma NothingIn(p: Parts)
    requires AllParts(p) == []
    ensures p == NO_PARTS
  {
    assert |p.title| == |p.state| == |p.body| == |p.priority| == 0;
  }

  lemma ScalarsCommute(o: Site, a: Site, b: Site)
    requires MergedFields(o, a, b).clashes == []
    ensures var (x, y) := (MergedFields(o, a, b).site, MergedFields(o, b, a).site);
      && x.heading.title == y.heading.title && x.heading.state == y.heading.state
      && x.heading.body == y.heading.body && x.heading.priority == y.heading.priority
      && x.heading.statistics == y.heading.statistics && x.tail == y.tail
  {
    var (x, y, z) := (o.heading, a.heading, b.heading);
    NoClashParts(o, a, b);
    ScalarsOf(o, a, b);
    ScalarsOf(o, b, a);
    hide MergedFields, MergedState, MergedDrawers, Scalar, PropertyClashes, AllKeys, Fields;
    ScalarCommutes("title", x.title, y.title, z.title);
    StateCommutes(x, y, z);
    ScalarCommutes("body", x.body, y.body, z.body);
    ScalarCommutes("priority", [x.priority], [y.priority], [z.priority]);
    ScalarCommutes("statistics", x.statistics.GetOr(""), y.statistics.GetOr(""), z.statistics.GetOr(""));
    ScalarCommutes("the org after the heading", o.tail, a.tail, b.tail);
    PriorityIsSet(x.priority, y.priority, z.priority);
  }

  lemma CollectionsOf(o: Site, a: Site, b: Site)
    ensures var (x, y, z, m) := (o.heading, a.heading, b.heading, MergedFields(o, a, b).site.heading);
      && m.orgTags == MergedTags(x.orgTags, y.orgTags, z.orgTags)
      && m.properties == MergedProperties(x, y, z)
      && m.logbook == MergedLog(x.logbook, y.logbook, z.logbook)
      && m.extraDrawers == MergedDrawers(x.extraDrawers, y.extraDrawers, z.extraDrawers).0
      && m.propertyOrder == MergedOrder(y.propertyOrder, z.propertyOrder, m.properties)
  {
    hide MergedState, MergedDrawers, Scalar, PropertyClashes, MergedProperties, MergedTags, MergedLog, MergedOrder,
      MergedPriority, MergedStatistics, Sorted;
  }

  lemma ScalarsOf(o: Site, a: Site, b: Site)
    ensures var (x, y, z, m) := (o.heading, a.heading, b.heading, MergedFields(o, a, b).site);
      && m.heading.title == Scalar("title", x.title, y.title, z.title).0
      && m.heading.state == MergedState(x, y, z).0
      && m.heading.body == Scalar("body", x.body, y.body, z.body).0
      && m.heading.priority == MergedPriority(x.priority, y.priority, z.priority).0
      && m.heading.statistics == MergedStatistics(x.statistics, y.statistics, z.statistics).0
      && m.tail == Scalar("the org after the heading", o.tail, a.tail, b.tail).0
  {
    hide MergedState, MergedDrawers, Scalar, PropertyClashes, MergedProperties, MergedTags, MergedLog, MergedOrder,
      MergedPriority, MergedStatistics, Sorted;
  }

  lemma SetsCommute(o: Site, a: Site, b: Site)
    requires MergedFields(o, a, b).clashes == []
    ensures var (x, y) := (MergedFields(o, a, b).site.heading, MergedFields(o, b, a).site.heading);
      && Elems(x.orgTags) == Elems(y.orgTags)
      && SameProperties(x.properties, y.properties)
      && Lines(x.logbook) == Lines(y.logbook)
      && SameDrawers(x.extraDrawers, y.extraDrawers)
  {
    var (x, y, z) := (o.heading, a.heading, b.heading);
    NoClashParts(o, a, b);
    CollectionsOf(o, a, b);
    CollectionsOf(o, b, a);
    hide MergedFields, MergedDrawers, Scalar, PropertyClashes, MergedProperties, MergedTags, MergedLog, MergedOrder,
      MergedPriority, MergedStatistics, SameProperties, SameDrawers, AllKeys, Fields, Elems, Lines;
    TagsSetLaw(x.orgTags, y.orgTags, z.orgTags);
    TagsSetLaw(x.orgTags, z.orgTags, y.orgTags);
    LogSetLaw(x.logbook, y.logbook, z.logbook);
    LogSetLaw(x.logbook, z.logbook, y.logbook);
    ThreeWayCommutes(Elems(x.orgTags), Elems(y.orgTags), Elems(z.orgTags));
    ThreeWayCommutes(Lines(x.logbook), Lines(y.logbook), Lines(z.logbook));
    DrawersCommute(x.extraDrawers, y.extraDrawers, z.extraDrawers);
    PropertiesCommute(x, y, z);
  }

  lemma ThreeWayCommutes<T>(o: set<T>, a: set<T>, b: set<T>)
    ensures ThreeWay(o, a, b) == ThreeWay(o, b, a)
  {
    assert a + b == b + a && a * b == b * a;
  }

  /**
   Convergence: when ours-with-theirs records no clash, theirs-with-ours
   records none, and both are the same issue with the same text after it.
   */
  lemma MergeConverges(o: Site, a: Site, b: Site, now: string)
    requires MergedSite(o, a, b, now).1 == 0
    ensures MergedSite(o, b, a, now).1 == 0
    ensures SameIssue(MergedSite(o, a, b, now).0.heading, MergedSite(o, b, a, now).0.heading)
    ensures MergedSite(o, a, b, now).0.tail == MergedSite(o, b, a, now).0.tail
  {
    hide MergedFields, SameProperties, SameDrawers, Fields;
    SameFieldsClash(o, a, b);
    NoFields(MergedFields(o, a, b).clashes);
    NoFields(MergedFields(o, b, a).clashes);
    ScalarsCommute(o, a, b);
    SetsCommute(o, a, b);
  }

  lemma PriorityIsSet(o: char, a: char, b: char)
    ensures Scalar("priority", [o], [a], [b]).0 != ""
  {
  }
}
