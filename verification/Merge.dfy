/**
 The three-way merge of one issue (`merge_heading`,
 `crates/vissue-core/src/merge.rs`).
 */
module Merge {
  import opened Base
  import opened Text
  import opened Order
  import opened Issue
  import opened MergeSets
  import opened MergeLog
  import opened MergeDrawers

  /// A heading and the Org that follows it in the file.
  datatype Site = Site(heading: Heading, tail: string)

  datatype Merged = Merged(site: Site, clashes: seq<Clash>)

  // ---- scalars ----

  function Scalar(field: string, o: string, a: string, b: string): (string, seq<Clash>) {
    var (v, clash) := Pick(o, a, b);
    (v, if clash then [Clash(field, b)] else [])
  }

  /// The newest stamp of a move to `state`, or the empty stamp.
  function MovedIn(log: seq<LogEntry>, state: string): string {
    if log == [] then ""
    else
      var rest := MovedIn(log[1..], state);
      if log[0].toState == Some(state) && Less(rest, log[0].timestamp) then log[0].timestamp else rest
  }

  function Moved(x: Heading): string {
    MovedIn(x.logbook, x.state)
  }

  /// Two sides that both moved the state are ordered by the logged moves.
  function MergedState(o: Heading, a: Heading, b: Heading): (string, seq<Clash>) {
    if a.state != b.state && a.state != o.state && b.state != o.state then
      if Less(Moved(b), Moved(a)) && Moved(a) != "" then (a.state, [])
      else if Less(Moved(a), Moved(b)) && Moved(b) != "" then (b.state, [])
      else Scalar("state", o.state, a.state, b.state)
    else Scalar("state", o.state, a.state, b.state)
  }

  function MergedPriority(o: char, a: char, b: char): (char, seq<Clash>) {
    var (v, clashes) := Scalar("priority", [o], [a], [b]);
    (if v == "" then a else v[0], clashes)
  }

  function MergedStatistics(o: Option<string>, a: Option<string>, b: Option<string>): (Option<string>, seq<Clash>) {
    var (v, clashes) := Scalar("statistics", o.GetOr(""), a.GetOr(""), b.GetOr(""));
    (if v == "" then None else Some(v), clashes)
  }

  // ---- properties ----

  const LIST_PROPERTIES := {"DEEDS", "BLOCKED_BY", "FILES", "VISSUE_TAGS"}

  function MergedProperty(k: string, o: Option<string>, a: Option<string>, b: Option<string>): (Option<string>, seq<Clash>) {
    if k in LIST_PROPERTIES then (MergedTokens(o, a, b), [])
    else
      var (v, clash) := Pick(o, a, b);
      (v, if clash then [Clash("property " + k, b.GetOr(""))] else [])
  }

  function PropertyAt(k: string, o: Table, a: Table, b: Table): (Option<string>, seq<Clash>) {
    MergedProperty(k, Get(o, k), Get(a, k), Get(b, k))
  }

  function MergedTable(o: Table, a: Table, b: Table): Table {
    map k | k in o.Keys + a.Keys + b.Keys && PropertyAt(k, o, a, b).0.Some? :: PropertyAt(k, o, a, b).0.value
  }

  function PropertyClashes(keys: seq<string>, o: Table, a: Table, b: Table): seq<Clash> {
    if keys == [] then [] else PropertyAt(keys[0], o, a, b).1 + PropertyClashes(keys[1..], o, a, b)
  }

  predicate IsReleaseNote(e: LogEntry) {
    e.note.Some? && CLAIM_RELEASED_NOTE <= TrimStart(e.note.value)
  }

  /// Whether the logbook holds a release note not older than `claimedAt`.
  predicate ReleasedAfter(log: seq<LogEntry>, claimedAt: string) {
    exists e :: e in log && IsReleaseNote(e) && !Less(e.timestamp, claimedAt)
  }

  /// Whether a claim one side still carries was released on the other.
  predicate ClaimReleased(a: Heading, b: Heading) {
    && (CLAIMED_BY in a.properties) != (CLAIMED_BY in b.properties)
    && var (held, releaser) := if CLAIMED_BY in a.properties then (a, b) else (b, a);
       CLAIMED_AT in held.properties && ReleasedAfter(releaser.logbook, held.properties[CLAIMED_AT])
  }

  function MergedProperties(o: Heading, a: Heading, b: Heading): Table {
    var table := MergedTable(o.properties, a.properties, b.properties);
    if ClaimReleased(a, b) then table - {CLAIMED_BY, CLAIMED_AT} else table
  }

  /// Ours' drawer order, then theirs' other keys, less keys that are gone.
  function MergedOrder(a: seq<string>, b: seq<string>, table: Table): seq<string> {
    var all := AddNew(a, b, {});
    Without(all, Elems(all) - table.Keys)
  }

  // ---- the heading ----

  /// The merged heading, before its clashes are written on it.
  function MergedFields(o: Site, a: Site, b: Site): Merged {
    var (x, y, z) := (o.heading, a.heading, b.heading);
    var (title, c1) := Scalar("title", x.title, y.title, z.title);
    var (state, c2) := MergedState(x, y, z);
    var (body, c3) := Scalar("body", x.body, y.body, z.body);
    var (priority, c4) := MergedPriority(x.priority, y.priority, z.priority);
    var (statistics, c5) := MergedStatistics(x.statistics, y.statistics, z.statistics);
    var keys := Sorted(x.properties.Keys + y.properties.Keys + z.properties.Keys);
    var c6 := PropertyClashes(keys, x.properties, y.properties, z.properties);
    var table := MergedProperties(x, y, z);
    var (drawers, c7) := MergedDrawers(x.extraDrawers, y.extraDrawers, z.extraDrawers);
    var (tail, c8) := Scalar("the org after the heading", o.tail, a.tail, b.tail);
    Merged(
      Site(
        y.(title := title, state := state, body := body, priority := priority, statistics := statistics,
           orgTags := MergedTags(x.orgTags, y.orgTags, z.orgTags),
           properties := table,
           propertyOrder := MergedOrder(y.propertyOrder, z.propertyOrder, table),
           logbook := MergedLog(x.logbook, y.logbook, z.logbook),
           extraDrawers := drawers),
        tail),
      c1 + c2 + c3 + c4 + c5 + c6 + c7 + c8)
  }

  /// `:NAME:` alone on the first line, the case of the name aside.
  predicate DrawerNameIs(drawer: string, name: string) {
    var first := Trim(SplitNl(drawer)[0]);
    |first| >= 2 && first[0] == ':' && first[|first| - 1] == ':' && SameNoCase(first[1..|first| - 1], name)
  }

  function DropDrawers(drawers: seq<string>, name: string): seq<string> {
    if drawers == [] then []
    else (if DrawerNameIs(drawers[0], name) then [] else [drawers[0]]) + DropDrawers(drawers[1..], name)
  }

  const KEPT_OURS := " changed on both sides; " + "kept ours, theirs is in " + "the MERGE_CONFLICT drawer"

  function ConflictNote(what: string, now: string): LogEntry {
    LogEntry(now, None, None, Some("merge conflict: " + what), None)
  }

  function ClashNotes(clashes: seq<Clash>, now: string): seq<LogEntry> {
    if clashes == [] then []
    else
      var what := clashes[0].field + KEPT_OURS;
      ClashNotes(clashes[1..], now) + [ConflictNote(what, now)]
  }

  function ClashText(clashes: seq<Clash>): string {
    if clashes == [] then ""
    else clashes[0].field + ":\n" + TrimEnd(clashes[0].theirs) + "\n" + ClashText(clashes[1..])
  }

  /// The clashes written on the heading: a note each, and theirs' values kept
  /// in a drawer of their own.
  function Annotated(h: Heading, clashes: seq<Clash>, now: string): Heading {
    if clashes == [] then h
    else
      h.(logbook := ClashNotes(clashes, now) + h.logbook,
         extraDrawers := DropDrawers(h.extraDrawers, CONFLICT_DRAWER)
           + [":MERGE_CONFLICT:\n" + ClashText(clashes) + ":END:"])
  }

  /// `merge_heading`: the merged site and how many clashes it recorded.
  function MergedSite(o: Site, a: Site, b: Site, now: string): (Site, nat) {
    var m := MergedFields(o, a, b);
    (m.site.(heading := Annotated(m.site.heading, m.clashes, now)), |m.clashes|)
  }

  // ---- as the program runs it ----

  method MergeProperty(k: string, o: Option<string>, a: Option<string>, b: Option<string>, clashes0: seq<Clash>)
    returns (v: Option<string>, clashes: seq<Clash>)
    ensures v == MergedProperty(k, o, a, b).0 && clashes == clashes0 + MergedProperty(k, o, a, b).1
  {
    hide MergedTokens;
    clashes := clashes0;
    if k in LIST_PROPERTIES {
      v := MergeTokens(o, a, b);
    } else {
      var (picked, clash) := Pick(o, a, b);
      v := picked;
      if clash {
        clashes := clashes + [Clash("property " + k, b.GetOr(""))];
      }
    }
  }

  method MergePropertyAt(k: string, o: Table, a: Table, b: Table, clashes0: seq<Clash>)
    returns (v: Option<string>, clashes: seq<Clash>)
    ensures v == PropertyAt(k, o, a, b).0 && clashes == clashes0 + PropertyAt(k, o, a, b).1
  {
    hide MergedProperty;
    v, clashes := MergeProperty(k, Get(o, k), Get(a, k), Get(b, k), clashes0);
  }

  /// `props` holds the merged values of `keys` and nothing else.
  ghost predicate TableOf(props: Table, keys: seq<string>, o: Table, a: Table, b: Table) {
    forall k :: Get(props, k) == if k in keys then PropertyAt(k, o, a, b).0 else None
  }

  lemma TableStep(props: Table, keys: seq<string>, k: string, o: Table, a: Table, b: Table)
    requires TableOf(props, keys, o, a, b)
    ensures var v := PropertyAt(k, o, a, b).0;
      && (v.Some? ==> TableOf(props[k := v.value], keys + [k], o, a, b))
      && (v.None? ==> k !in keys ==> TableOf(props, keys + [k], o, a, b))
  {
    hide PropertyAt;
    forall x ensures x in keys + [k] <==> x in keys || x == k {}
    var v := PropertyAt(k, o, a, b).0;
    if v.Some? {
      forall x ensures Get(props[k := v.value], x) == if x in keys + [k] then PropertyAt(x, o, a, b).0 else None {
        assert Get(props, x) == if x in keys then PropertyAt(x, o, a, b).0 else None;
      }
    } else if k !in keys {
      forall x ensures Get(props, x) == if x in keys + [k] then PropertyAt(x, o, a, b).0 else None {
        assert Get(props, x) == if x in keys then PropertyAt(x, o, a, b).0 else None;
      }
    }
  }

  lemma TableIs(props: Table, keys: seq<string>, o: Table, a: Table, b: Table)
    requires Elems(keys) == o.Keys + a.Keys + b.Keys && TableOf(props, keys, o, a, b)
    ensures props == MergedTable(o, a, b)
  {
    hide PropertyAt;
    forall k ensures k in props <==> k in MergedTable(o, a, b) {
      assert Get(props, k) == if k in keys then PropertyAt(k, o, a, b).0 else None;
      assert k in keys <==> k in Elems(keys);
    }
    forall k | k in props ensures props[k] == MergedTable(o, a, b)[k] {
      assert Get(props, k) == if k in keys then PropertyAt(k, o, a, b).0 else None;
    }
  }

  lemma NextPropertyClashes(keys: seq<string>, i: nat, o: Table, a: Table, b: Table)
    requires i < |keys|
    ensures PropertyClashes(keys[i..], o, a, b) == PropertyAt(keys[i], o, a, b).1 + PropertyClashes(keys[i + 1..], o, a, b)
  {
    hide PropertyAt;
    assert keys[i..][0] == keys[i] && keys[i..][1..] == keys[i + 1..];
  }

  lemma NothingMerged(o: Table, a: Table, b: Table)
    ensures TableOf(map[], [], o, a, b)
    ensures PropertyClashes([], o, a, b) == []
  {
  }

  method MergePropertyTable(o: Table, a: Table, b: Table, clashes0: seq<Clash>)
    returns (props: Table, clashes: seq<Clash>)
    ensures props == MergedTable(o, a, b)
    ensures clashes == clashes0 + PropertyClashes(Sorted(o.Keys + a.Keys + b.Keys), o, a, b)
  {
    hide MergedProperty, MergedTable, Sorted, TableOf, PropertyAt, PropertyClashes;
    NothingMerged(o, a, b);
    var keys := Sorted(o.Keys + a.Keys + b.Keys);
    props, clashes := map[], clashes0;
    for i := 0 to |keys|
      invariant TableOf(props, keys[..i], o, a, b)
      invariant clashes + PropertyClashes(keys[i..], o, a, b) == clashes0 + PropertyClashes(keys, o, a, b)
    {
      var k := keys[i];
      NextPropertyClashes(keys, i, o, a, b);
      assert keys[..i + 1] == keys[..i] + [k];
      var v;
      v, clashes := MergePropertyAt(k, o, a, b, clashes);
      TableStep(props, keys[..i], k, o, a, b);
      if v.Some? {
        props := props[k := v.value];
      }
    }
    assert keys[..|keys|] == keys && keys[|keys|..] == [];
    TableIs(props, keys, o, a, b);
  }

  method MergeOne(base: Site, ours: Site, theirs: Site, now: string, conflicts: nat)
    returns (merged: Site, count: nat)
    ensures (merged, count - conflicts) == MergedSite(base, ours, theirs, now)
  {
    hide Scalar, MergedState, MergedPriority, MergedStatistics, MergedTable, MergedTags, MergedOrder, MergedLog,
      MergedDrawers, PropertyClashes, ClaimReleased, Sorted, ClashNotes, ClashText, DropDrawers;
    var o, a, b := base.heading, ours.heading, theirs.heading;
    var h := a;
    var clashes: seq<Clash> := [];
    var (title, c1) := Scalar("title", o.title, a.title, b.title);
    h, clashes := h.(title := title), clashes + c1;
    var (state, c2) := MergedState(o, a, b);
    h, clashes := h.(state := state), clashes + c2;
    var (body, c3) := Scalar("body", o.body, a.body, b.body);
    h, clashes := h.(body := body), clashes + c3;
    var (priority, c4) := MergedPriority(o.priority, a.priority, b.priority);
    h, clashes := h.(priority := priority), clashes + c4;
    var (statistics, c5) := MergedStatistics(o.statistics, a.statistics, b.statistics);
    h, clashes := h.(statistics := statistics), clashes + c5;
    var tags := MergeTags(o.orgTags, a.orgTags, b.orgTags);
    h := h.(orgTags := tags);
    var props;
    props, clashes := MergePropertyTable(o.properties, a.properties, b.properties, clashes);
    if ClaimReleased(a, b) {
      props := props - {CLAIMED_BY, CLAIMED_AT};
    }
    h := h.(properties := props);
    h := h.(propertyOrder := MergedOrder(h.propertyOrder, b.propertyOrder, h.properties));
    var log := MergeLogbook(o.logbook, a.logbook, b.logbook);
    h := h.(logbook := log);
    var drawers;
    drawers, clashes := MergeDrawerList(o.extraDrawers, a.extraDrawers, b.extraDrawers, clashes);
    h := h.(extraDrawers := drawers);
    var (tail, c8) := Scalar("the org after the heading", base.tail, ours.tail, theirs.tail);
    clashes := clashes + c8;
    assert Merged(Site(h, tail), clashes) == MergedFields(base, ours, theirs);
    count := conflicts;
    if clashes != [] {
      h := Annotate(h, clashes, now);
      count := count + |clashes|;
    }
    merged := Site(h, tail);
  }

  method Annotate(h0: Heading, clashes: seq<Clash>, now: string) returns (h: Heading)
    requires clashes != []
    ensures h == Annotated(h0, clashes, now)
  {
    hide ConflictNote, TrimEnd, DropDrawers;
    h := h0;
    var kept := ":MERGE_CONFLICT:\n";
    for i := 0 to |clashes|
      invariant h == h0.(logbook := h.logbook)
      invariant ClashNotes(clashes[i..], now) + h.logbook == ClashNotes(clashes, now) + h0.logbook
      invariant kept + ClashText(clashes[i..]) == ":MERGE_CONFLICT:\n" + ClashText(clashes)
    {
      assert clashes[i..][0] == clashes[i] && clashes[i..][1..] == clashes[i + 1..];
      var what := clashes[i].field + KEPT_OURS;
      h := h.(logbook := [ConflictNote(what, now)] + h.logbook);
      kept := kept + clashes[i].field + ":\n" + TrimEnd(clashes[i].theirs) + "\n";
    }
    assert clashes[|clashes|..] == [] && [] + h.logbook == h.logbook && kept + "" == kept;
    assert kept + ":END:" == ":MERGE_CONFLICT:\n" + ClashText(clashes) + ":END:";
    kept := kept + ":END:";
    h := h.(extraDrawers := DropDrawers(h.extraDrawers, CONFLICT_DRAWER) + [kept]);
  }
}
