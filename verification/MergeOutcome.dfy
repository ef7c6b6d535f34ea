/**
 What comes out of the merge of one issue, field by field: which side each value
 is taken from, which fields clash, and what is written of a clash
 (`merge_heading`, `crates/vissue-core/src/merge.rs`).
 */
module MergeOutcome {
  import opened Base
  import opened Text
  import opened Order
  import opened Issue
  import opened MergeSets
  import opened MergeLog
  import opened MergeDrawers
  import opened DrawerLaws
  import opened Merge
  import opened MergeLaws
  import opened MergeAgain

  // ---- one value ----

  /// Both sides changed the value, and to different ones.
  predicate ChangedApart<T(==)>(o: T, a: T, b: T) {
    a != o && b != o && a != b
  }

  /// The side that changed it gives the value; where both did, ours.
  predicate Chosen<T(==)>(o: T, a: T, b: T, m: T) {
    && (a == o ==> m == b)
    && (b == o ==> m == a)
    && (a == b ==> m == a)
    && (ChangedApart(o, a, b) ==> m == a)
  }

  /// The clash is written: a note in the logbook, and theirs' value under the
  /// name of the field in the last drawer.
  ghost predicate IsWritten(h: Heading, field: string, theirs: string, now: string) {
    HasNote(h.logbook, field, now) && h.extraDrawers != [] && HoldsTheirs(h.extraDrawers[|h.extraDrawers| - 1], field, theirs)
  }

  predicate HasNote(log: seq<LogEntry>, field: string, now: string) {
    var kept := " changed on both sides; " + "kept ours, theirs is in " + "the MERGE_CONFLICT drawer";
    LogEntry(now, None, None, Some("merge conflict: " + (field + kept)), None) in log
  }

  ghost predicate HoldsTheirs(drawer: string, field: string, theirs: string) {
    exists before, after :: drawer == ":MERGE_CONFLICT:\n" + before + (field + ":\n" + TrimEnd(theirs) + "\n") + after + ":END:"
  }

  /// What the merge of three sites calls a clash.
  function ClashesOf(o: Site, a: Site, b: Site): seq<Clash> {
    MergedFields(o, a, b).clashes
  }

  // ---- a clash is written ----

  lemma {:induction false} NoteOf(clashes: seq<Clash>, now: string, c: Clash)
    requires c in clashes
    ensures ConflictNote(c.field + KEPT_OURS, now) in ClashNotes(clashes, now)
  {
    hide ConflictNote, KEPT_OURS;
    assert clashes == [clashes[0]] + clashes[1..];
    if c != clashes[0] { NoteOf(clashes[1..], now, c); }
  }

  function TextOf(c: Clash): string {
    c.field + ":\n" + TrimEnd(c.theirs) + "\n"
  }

  lemma {:induction false} TextIn(clashes: seq<Clash>, c: Clash) returns (before: string, after: string)
    requires c in clashes
    ensures ClashText(clashes) == before + TextOf(c) + after
  {
    hide TrimEnd;
    assert clashes == [clashes[0]] + clashes[1..];
    if c == clashes[0] {
      before, after := "", ClashText(clashes[1..]);
    } else {
      var x, y := TextIn(clashes[1..], c);
      before, after := TextOf(clashes[0]) + x, y;
    }
  }

  lemma AnnotatedParts(h: Heading, clashes: seq<Clash>, now: string)
    requires clashes != []
    ensures var m := Annotated(h, clashes, now);
      && m.logbook == ClashNotes(clashes, now) + h.logbook && m.extraDrawers != []
      && m.extraDrawers[|m.extraDrawers| - 1] == ":MERGE_CONFLICT:\n" + ClashText(clashes) + ":END:"
  {
    hide ClashNotes, ClashText, DropDrawers;
  }

  lemma NoteStands(clashes: seq<Clash>, now: string, c: Clash, log: seq<LogEntry>)
    requires c in clashes
    ensures HasNote(ClashNotes(clashes, now) + log, c.field, now)
  {
    NoteOf(clashes, now, c);
    assert KEPT_OURS == " changed on both sides; " + "kept ours, theirs is in " + "the MERGE_CONFLICT drawer";
    hide ClashNotes, KEPT_OURS;
  }

  lemma TheirsStands(clashes: seq<Clash>, c: Clash)
    requires c in clashes
    ensures HoldsTheirs(":MERGE_CONFLICT:\n" + ClashText(clashes) + ":END:", c.field, c.theirs)
  {
    var before, after := TextIn(clashes, c);
    hide ClashText, TrimEnd;
    assert ":MERGE_CONFLICT:\n" + (before + TextOf(c) + after) + ":END:" == ":MERGE_CONFLICT:\n" + before + TextOf(c) + after + ":END:";
  }

  lemma AnnotatedHolds(h: Heading, clashes: seq<Clash>, now: string, c: Clash)
    requires c in clashes
    ensures IsWritten(Annotated(h, clashes, now), c.field, c.theirs, now)
  {
    AnnotatedParts(h, clashes, now);
    NoteStands(clashes, now, c, h.logbook);
    TheirsStands(clashes, c);
    hide Annotated, ClashNotes, ClashText, HasNote, HoldsTheirs;
  }

  /**
   Every clash is counted, and written on the merged heading: a note each, and
   theirs' value under the name of its field.
   */
  lemma ClashesAreWritten(o: Site, a: Site, b: Site, now: string)
    ensures var (m, n) := MergedSite(o, a, b, now);
      && n == |ClashesOf(o, a, b)|
      && forall c :: c in ClashesOf(o, a, b) ==> IsWritten(m.heading, c.field, c.theirs, now)
  {
    hide MergedFields, IsWritten, Annotated;
    forall c | c in ClashesOf(o, a, b) ensures IsWritten(MergedSite(o, a, b, now).0.heading, c.field, c.theirs, now) {
      AnnotatedHolds(MergedFields(o, a, b).site.heading, ClashesOf(o, a, b), now, c);
    }
  }

  /// Writing the clashes touches the logbook and the drawers alone.
  lemma WrittenBeside(o: Site, a: Site, b: Site, now: string)
    ensures var (m, f) := (MergedSite(o, a, b, now).0, MergedFields(o, a, b).site);
      m.tail == f.tail && m.heading == f.heading.(logbook := m.heading.logbook, extraDrawers := m.heading.extraDrawers)
  {
    hide MergedFields, ClashNotes, ClashText, DropDrawers;
  }

  // ---- which fields clash ----

  /// The clash of one scalar property.
  predicate PropertyApart(k: string, o: Table, a: Table, b: Table) {
    k !in LIST_PROPERTIES && ChangedApart(Get(o, k), Get(a, k), Get(b, k))
  }

  function PropertyClash(k: string, b: Table): Clash {
    Clash("property " + k, Get(b, k).GetOr(""))
  }

  lemma OneProperty(k: string, o: Table, a: Table, b: Table)
    ensures PropertyAt(k, o, a, b).1 == if PropertyApart(k, o, a, b) then [PropertyClash(k, b)] else []
  {
    hide MergedTokens;
  }

  lemma {:induction false} PropertyFields(keys: seq<string>, o: Table, a: Table, b: Table, c: Clash)
    ensures var there := exists k :: k in keys && PropertyApart(k, o, a, b) && c == PropertyClash(k, b);
      c in PropertyClashes(keys, o, a, b) <==> there
  {
    hide PropertyAt, PropertyApart, PropertyClash;
    if keys != [] {
      PropertyFields(keys[1..], o, a, b, c);
      OneProperty(keys[0], o, a, b);
      assert keys == [keys[0]] + keys[1..];
    }
  }

  /// Both lines are ballots, and the stamp of the first is the older.
  predicate OlderBallot(x: Option<string>, y: Option<string>) {
    && x.Some? && y.Some? && ParseBallot(x.value).Some? && ParseBallot(y.value).Some?
    && Less(ParseBallot(x.value).value.stamp, ParseBallot(y.value).value.stamp)
  }

  predicate BallotApart(o: Option<string>, a: Option<string>, b: Option<string>) {
    ChangedApart(o, a, b) && !OlderBallot(a, b) && !OlderBallot(b, a)
  }

  function BallotClash(k: string, b: map<string, string>): Clash {
    Clash("ballot of " + WithoutVoter(k), Get(b, k).GetOr(""))
  }

  /// The later of two ballots a voter cast on both sides wins.
  lemma OneBallot(k: string, o: map<string, string>, a: map<string, string>, b: map<string, string>)
    ensures var (p, q, r) := (Get(o, k), Get(a, k), Get(b, k));
      MergedBallot(k, p, q, r) ==
        if !ChangedApart(p, q, r) then (if q == p then r else q, [])
        else if OlderBallot(q, r) then (r, [])
        else if OlderBallot(r, q) then (q, [])
        else (q, [BallotClash(k, b)])
  {
    hide ParseBallot, WithoutVoter;
  }

  lemma {:induction false} BallotFields(keys: seq<string>, o: map<string, string>, a: map<string, string>, b: map<string, string>, c: Clash)
    ensures var there := exists k :: k in keys && BallotApart(Get(o, k), Get(a, k), Get(b, k)) && c == BallotClash(k, b);
      c in MergedBallots(keys, o, a, b).1 <==> there
  {
    hide MergedBallot, OlderBallot, BallotClash;
    if keys != [] {
      BallotFields(keys[1..], o, a, b, c);
      OneBallot(keys[0], o, a, b);
      assert keys == [keys[0]] + keys[1..];
    }
  }

  predicate DrawerApart(n: string, o: seq<string>, a: seq<string>, b: seq<string>) {
    n != VOTES_DRAWER && ChangedApart(Find(o, n), Find(a, n), Find(b, n))
  }

  function DrawerClash(n: string, b: seq<string>): Clash {
    Clash("drawer " + n, Find(b, n).GetOr(""))
  }

  ghost predicate SomeBallot(x: map<string, string>, y: map<string, string>, z: map<string, string>, c: Clash) {
    exists k :: BallotApart(Get(x, k), Get(y, k), Get(z, k)) && c == BallotClash(k, z)
  }

  ghost predicate IsBallotClash(o: seq<string>, a: seq<string>, b: seq<string>, c: Clash) {
    SomeBallot(VotesIn(o), VotesIn(a), VotesIn(b), c)
  }

  /// The ballots of the votes drawer, by voter.
  function VotesIn(drawers: seq<string>): map<string, string> {
    Ballots(Votes(Find(drawers, VOTES_DRAWER)))
  }

  ghost predicate IsDrawerClash(o: seq<string>, a: seq<string>, b: seq<string>, c: Clash) {
    exists n :: n != CONFLICT_DRAWER && DrawerApart(n, o, a, b) && c == DrawerClash(n, b)
  }

  lemma VotesClashes(o: Option<string>, a: Option<string>, b: Option<string>, c: Clash)
    ensures c in MergedVotes(o, a, b).1 <==> SomeBallot(Ballots(Votes(o)), Ballots(Votes(a)), Ballots(Votes(b)), c)
  {
    var (x, y, z) := (Ballots(Votes(o)), Ballots(Votes(a)), Ballots(Votes(b)));
    var keys := KeysOf(Votes(o), Votes(a), Votes(b));
    VotesFacts(o, a, b);
    BallotFields(keys, x, y, z, c);
    hide Ballots, Votes, OlderBallot, BallotClash, MergedBallots, KeysOf, ReadTable;
    forall k | BallotApart(Get(x, k), Get(y, k), Get(z, k)) ensures k in keys {
      assert k in Elems(keys);
    }
  }

  lemma {:induction false} NamedClashes(names: seq<string>, o: seq<string>, a: seq<string>, b: seq<string>, c: Clash)
    ensures var there := exists n :: n in names && c in MergedDrawer(n, o, a, b).1; c in MergedNamed(names, o, a, b).1 <==> there
  {
    hide MergedDrawer;
    if names != [] {
      NamedClashes(names[1..], o, a, b, c);
      assert names == [names[0]] + names[1..];
    }
  }

  lemma OneDrawer(n: string, o: seq<string>, a: seq<string>, b: seq<string>, c: Clash)
    ensures var here := if n == VOTES_DRAWER then IsBallotClash(o, a, b, c) else DrawerApart(n, o, a, b) && c == DrawerClash(n, b);
      c in MergedDrawer(n, o, a, b).1 <==> here
  {
    VotesClashes(Find(o, VOTES_DRAWER), Find(a, VOTES_DRAWER), Find(b, VOTES_DRAWER), c);
    hide Find, MergedVotes, SomeBallot, Ballots, Votes;
  }

  lemma DrawerClashes(o: seq<string>, a: seq<string>, b: seq<string>, c: Clash)
    ensures c in MergedDrawers(o, a, b).1 <==> IsBallotClash(o, a, b, c) || IsDrawerClash(o, a, b, c)
  {
    var names := MergedNames(a, b);
    NamedClashes(names, o, a, b, c);
    MergedNamesFacts(a, b);
    assert VOTES_DRAWER[0] != CONFLICT_DRAWER[0];
    forall n ensures var here := if n == VOTES_DRAWER then IsBallotClash(o, a, b, c) else DrawerApart(n, o, a, b) && c == DrawerClash(n, b);
        c in MergedDrawer(n, o, a, b).1 <==> here
      ensures c in MergedDrawer(n, o, a, b).1 && n != CONFLICT_DRAWER ==> n in names
    {
      OneDrawer(n, o, a, b, c);
      hide MergedDrawer, IsBallotClash, DrawerApart, DrawerClash, MergedNames;
      if n !in Names(a) && n !in Names(b) { NoDrawer(n, o, a, b); }
      assert n in names <==> n in Elems(names);
    }
    hide MergedDrawer, IsBallotClash, DrawerApart, DrawerClash, MergedNamed, MergedNames;
    if IsBallotClash(o, a, b, c) { assert c in MergedDrawer(VOTES_DRAWER, o, a, b).1; }
  }

  // ---- the state ----

  /// Some logged move of `x` to its state is later than every logged move of
  /// `y` to its own.
  ghost predicate MovedLater(x: Heading, y: Heading) {
    exists e :: e in x.logbook && e.toState == Some(x.state) && e.timestamp != "" &&
      forall f :: f in y.logbook && f.toState == Some(y.state) ==> Less(f.timestamp, e.timestamp)
  }

  lemma {:induction false} NewestMove(log: seq<LogEntry>, state: string)
    ensures var m := MovedIn(log, state);
      && (m != "" ==> exists e :: e in log && e.toState == Some(state) && e.timestamp == m)
      && forall e :: e in log && e.toState == Some(state) ==> !Less(m, e.timestamp)
  {
    hide Less;
    if log != [] {
      NewestMove(log[1..], state);
      assert log == [log[0]] + log[1..];
      var (rest, t) := (MovedIn(log[1..], state), log[0].timestamp);
      LessIrreflexive(t);
      if Less(rest, t) {
        forall e | e in log[1..] && e.toState == Some(state) ensures !Less(t, e.timestamp) { NotOverBoth(e.timestamp, rest, t); }
      }
    }
  }

  lemma NotOverBoth(x: string, rest: string, t: string)
    requires !Less(rest, x) && Less(rest, t)
    ensures !Less(t, x)
  {
    if Less(t, x) { LessTransitive(rest, t, x); }
  }

  lemma EmptyIsLeast(t: string)
    ensures Less("", t) <==> t != ""
    ensures !Less(t, "")
  {
  }

  lemma LaterIsMoved(x: Heading, y: Heading)
    ensures MovedLater(x, y) <==> Less(Moved(y), Moved(x))
  {
    NewestMove(x.logbook, x.state);
    NewestMove(y.logbook, y.state);
    var (p, q) := (Moved(x), Moved(y));
    EmptyIsLeast(q);
    EmptyIsLeast(p);
    hide Less;
    if Less(q, p) {
      assert p != "";
      var e :| e in x.logbook && e.toState == Some(x.state) && e.timestamp == p;
      forall f | f in y.logbook && f.toState == Some(y.state) ensures Less(f.timestamp, e.timestamp) {
        NotAboveThen(f.timestamp, q, p);
      }
    }
    if MovedLater(x, y) {
      var e :| e in x.logbook && e.toState == Some(x.state) && e.timestamp != "" &&
        forall f :: f in y.logbook && f.toState == Some(y.state) ==> Less(f.timestamp, e.timestamp);
      EmptyIsLeast(e.timestamp);
      assert Less(q, e.timestamp);
      ThenNotBelow(q, e.timestamp, p);
    }
  }

  lemma NotAboveThen(f: string, q: string, p: string)
    requires !Less(q, f) && Less(q, p)
    ensures Less(f, p)
  {
    LessTotal(q, f);
    if Less(f, q) { LessTransitive(f, q, p); }
  }

  lemma ThenNotBelow(q: string, e: string, p: string)
    requires Less(q, e) && !Less(p, e)
    ensures Less(q, p)
  {
    LessTotal(p, e);
    if Less(e, p) { LessTransitive(q, e, p); }
  }

  function WithState(x: Site, state: string): Site {
    x.(heading := x.heading.(state := state))
  }

  /// The three ends of a state that both sides moved apart.
  lemma StateCases(o: Heading, a: Heading, b: Heading)
    requires ChangedApart(o.state, a.state, b.state)
    ensures MovedLater(b, a) ==> MergedState(o, a, b) == (b.state, [])
    ensures MovedLater(a, b) ==> MergedState(o, a, b) == (a.state, [])
    ensures !MovedLater(a, b) && !MovedLater(b, a) ==> MergedState(o, a, b) == (a.state, [Clash("state", b.state)])
  {
    LaterIsMoved(a, b);
    LaterIsMoved(b, a);
    EmptyIsLeast(Moved(a));
    EmptyIsLeast(Moved(b));
    hide Less, MovedLater, Moved;
    if Less(Moved(a), Moved(b)) { LessAsymmetric(Moved(a), Moved(b)); }
    if Less(Moved(b), Moved(a)) { LessAsymmetric(Moved(b), Moved(a)); }
  }

  // ---- the state of the merged heading ----

  /// The merged state is the part of the merge that reads the two states.
  lemma StateParts(o: Site, a: Site, b: Site, c: Site, d: Site)
    requires c == WithState(a, c.heading.state) && d == WithState(b, d.heading.state)
    requires MergedState(o.heading, a.heading, b.heading) == MergedState(o.heading, c.heading, d.heading)
    ensures MergedFields(o, a, b) == MergedFields(o, c, d)
  {
    hide Scalar, MergedState, MergedPriority, MergedStatistics, MergedTable, MergedTags, MergedOrder, MergedLog,
      MergedDrawers, PropertyClashes, Sorted;
    assert ClaimReleased(a.heading, b.heading) == ClaimReleased(c.heading, d.heading);
    hide ClaimReleased;
    assert MergedProperties(o.heading, a.heading, b.heading) == MergedProperties(o.heading, c.heading, d.heading);
  }

  /**
   Of two moves that part the state the later logged one wins: the merge is the
   one in which ours had made theirs' move, when that is the later.
   */
  lemma LaterMoveWins(o: Site, a: Site, b: Site, now: string)
    requires ChangedApart(o.heading.state, a.heading.state, b.heading.state) && MovedLater(b.heading, a.heading)
    ensures MergedSite(o, a, b, now) == MergedSite(o, WithState(a, b.heading.state), b, now)
    ensures MergedSite(o, a, b, now).0.heading.state == b.heading.state
    ensures "state" !in Fields(ClashesOf(o, a, b))
  {
    var c := WithState(a, b.heading.state);
    StateCases(o.heading, a.heading, b.heading);
    assert MergedState(o.heading, c.heading, b.heading) == (b.heading.state, []);
    StateEnds(o, a, b, now);
    hide MergedState, MovedLater;
    StateParts(o, a, b, c, b);
  }

  /// And ours, when that is the later.
  lemma EarlierMoveLoses(o: Site, a: Site, b: Site, now: string)
    requires ChangedApart(o.heading.state, a.heading.state, b.heading.state) && MovedLater(a.heading, b.heading)
    ensures MergedSite(o, a, b, now) == MergedSite(o, a, WithState(b, a.heading.state), now)
    ensures MergedSite(o, a, b, now).0.heading.state == a.heading.state
    ensures "state" !in Fields(ClashesOf(o, a, b))
  {
    var d := WithState(b, a.heading.state);
    StateCases(o.heading, a.heading, b.heading);
    assert MergedState(o.heading, a.heading, d.heading) == (a.heading.state, []);
    StateEnds(o, a, b, now);
    hide MergedState, MovedLater;
    StateParts(o, a, b, a, d);
  }

  /// Moves that no logged time orders are a clash, written like any other.
  lemma UnorderedMovesClash(o: Site, a: Site, b: Site, now: string)
    requires ChangedApart(o.heading.state, a.heading.state, b.heading.state)
    requires !MovedLater(a.heading, b.heading) && !MovedLater(b.heading, a.heading)
    ensures var (m, n) := MergedSite(o, a, b, now);
      n > 0 && m.heading.state == a.heading.state && IsWritten(m.heading, "state", b.heading.state, now)
  {
    StateCases(o.heading, a.heading, b.heading);
    StateEnds(o, a, b, now);
    AllClashes(o, a, b);
    ClashesAreWritten(o, a, b, now);
    hide MergedState, MovedLater, IsWritten, MergedSite, MergedFields, Scalar, MergedPriority, MergedStatistics, PropertyClashes,
      MergedDrawers, AllKeys;
    var c := Clash("state", b.heading.state);
    assert c in ClashParts(o, a, b).state;
    PartIn(ClashParts(o, a, b), c);
  }

  lemma PartIn(p: Parts, c: Clash)
    ensures var there := c in p.title || c in p.state || c in p.body || c in p.priority || c in p.statistics || c in p.properties
        || c in p.drawers || c in p.tail;
      c in AllParts(p) <==> there
  {
  }

  lemma StateEnds(o: Site, a: Site, b: Site, now: string)
    ensures MergedSite(o, a, b, now).0.heading.state == MergedState(o.heading, a.heading, b.heading).0
    ensures MergedState(o.heading, a.heading, b.heading).1 == [] ==> "state" !in Fields(ClashesOf(o, a, b))
  {
    WrittenBeside(o, a, b, now);
    ScalarsOf(o, a, b);
    if MergedState(o.heading, a.heading, b.heading).1 == [] {
      hide MergedState, MergedSite, MergedFields, IsClash;
      forall c | c in ClashesOf(o, a, b) ensures c.field != "state" {
        ClashesExactly(o, a, b, c);
        NotOfState(o, a, b, c);
      }
    }
  }

  lemma NotOfState(o: Site, a: Site, b: Site, c: Clash)
    requires MergedState(o.heading, a.heading, b.heading).1 == [] && IsClash(o, a, b, c)
    ensures c.field != "state"
  {
    OneState(o.heading, a.heading, b.heading, c);
    if c.field == "state" { NamedApart(c); }
    hide MergedState, MovedLater, PropertyApart, PropertyClash, BallotApart, BallotClash, DrawerApart, DrawerClash, VotesIn;
  }

  // ---- exactly which fields clash ----

  ghost predicate IsPropertyClash(o: Table, a: Table, b: Table, c: Clash) {
    exists k :: PropertyApart(k, o, a, b) && c == PropertyClash(k, b)
  }

  predicate ScalarClash(field: string, o: string, a: string, b: string, c: Clash) {
    ChangedApart(o, a, b) && c == Clash(field, b)
  }

  /// The clash is one of a field both sides changed apart, or of a state they
  /// moved apart with no logged time to order the moves.
  ghost predicate IsClash(o: Site, a: Site, b: Site, c: Clash) {
    var (x, y, z) := (o.heading, a.heading, b.heading);
    || ScalarClash("title", x.title, y.title, z.title, c)
    || (ScalarClash("state", x.state, y.state, z.state, c) && !MovedLater(y, z) && !MovedLater(z, y))
    || ScalarClash("body", x.body, y.body, z.body, c)
    || ScalarClash("priority", [x.priority], [y.priority], [z.priority], c)
    || ScalarClash("statistics", x.statistics.GetOr(""), y.statistics.GetOr(""), z.statistics.GetOr(""), c)
    || IsPropertyClash(x.properties, y.properties, z.properties, c)
    || IsBallotClash(x.extraDrawers, y.extraDrawers, z.extraDrawers, c)
    || IsDrawerClash(x.extraDrawers, y.extraDrawers, z.extraDrawers, c)
    || ScalarClash("the org after the heading", o.tail, a.tail, b.tail, c)
  }

  lemma OneScalar(field: string, o: string, a: string, b: string, c: Clash)
    ensures c in Scalar(field, o, a, b).1 <==> ScalarClash(field, o, a, b, c)
  {
  }

  lemma OneState(o: Heading, a: Heading, b: Heading, c: Clash)
    ensures var here := ScalarClash("state", o.state, a.state, b.state, c) && !MovedLater(a, b) && !MovedLater(b, a);
      c in MergedState(o, a, b).1 <==> here
  {
    if ChangedApart(o.state, a.state, b.state) {
      StateCases(o, a, b);
      hide MovedLater, MergedState;
    } else {
      hide MovedLater, Moved;
    }
  }

  lemma AllProperties(o: Heading, a: Heading, b: Heading, c: Clash)
    ensures c in PropertyClashes(AllKeys(o, a, b), o.properties, a.properties, b.properties)
      <==> IsPropertyClash(o.properties, a.properties, b.properties, c)
  {
    var keys := AllKeys(o, a, b);
    PropertyFields(keys, o.properties, a.properties, b.properties, c);
    hide PropertyClashes, PropertyClash;
    forall k | PropertyApart(k, o.properties, a.properties, b.properties) ensures k in keys {
      assert k in Elems(keys);
    }
  }

  /// What clashes, exactly.
  lemma ClashesExactly(o: Site, a: Site, b: Site, c: Clash)
    ensures c in ClashesOf(o, a, b) <==> IsClash(o, a, b, c)
  {
    var (x, y, z) := (o.heading, a.heading, b.heading);
    AllClashes(o, a, b);
    PartIn(ClashParts(o, a, b), c);
    OneScalar("title", x.title, y.title, z.title, c);
    OneState(x, y, z, c);
    OneScalar("body", x.body, y.body, z.body, c);
    OneScalar("priority", [x.priority], [y.priority], [z.priority], c);
    OneScalar("statistics", x.statistics.GetOr(""), y.statistics.GetOr(""), z.statistics.GetOr(""), c);
    AllProperties(x, y, z, c);
    DrawerClashes(x.extraDrawers, y.extraDrawers, z.extraDrawers, c);
    OneScalar("the org after the heading", o.tail, a.tail, b.tail, c);
    hide MergedFields, AllParts, Scalar, ScalarClash, MergedState, MovedLater, PropertyClashes, AllKeys, MergedDrawers, IsPropertyClash,
      IsBallotClash, IsDrawerClash;
  }

  /// A clash named after the state is one of no other field.
  lemma NamedApart(c: Clash)
    requires c.field == "state"
    ensures forall k, b: Table :: c != PropertyClash(k, b)
    ensures forall k, m: map<string, string> :: c != BallotClash(k, m)
    ensures forall n, d: seq<string> :: c != DrawerClash(n, d)
    ensures c.field != "title" && c.field != "body" && c.field != "priority" && c.field != "statistics"
      && c.field != "the org after the heading"
  {
    assert c.field[0] == 's' && c.field[2] == 'a' && |c.field| == 5;
    assert "statistics"[2] == 'a' && |"statistics"| == 10;
    forall k, b: Table ensures c != PropertyClash(k, b) { assert PropertyClash(k, b).field[0] == 'p'; }
    forall k, m: map<string, string> ensures c != BallotClash(k, m) { assert BallotClash(k, m).field[0] == 'b'; }
    forall n, d: seq<string> ensures c != DrawerClash(n, d) { assert DrawerClash(n, d).field[0] == 'd'; }
  }

  // ---- which side each value comes from ----

  /**
   Title, body, priority, statistics and the text behind the issue come from the
   side that changed them; where both did, from ours. So does the state that not
   both sides moved.
   */
  lemma ScalarsAreChosen(o: Site, a: Site, b: Site, now: string)
    ensures var (x, y, z, m) := (o.heading, a.heading, b.heading, MergedSite(o, a, b, now).0);
      && Chosen(x.title, y.title, z.title, m.heading.title)
      && Chosen(x.body, y.body, z.body, m.heading.body)
      && Chosen(x.priority, y.priority, z.priority, m.heading.priority)
      && Chosen(x.statistics.GetOr(""), y.statistics.GetOr(""), z.statistics.GetOr(""), m.heading.statistics.GetOr(""))
      && m.heading.statistics != Some("")
      && Chosen(o.tail, a.tail, b.tail, m.tail)
      && (!ChangedApart(x.state, y.state, z.state) ==> Chosen(x.state, y.state, z.state, m.heading.state))
  {
    WrittenBeside(o, a, b, now);
    ScalarsOf(o, a, b);
    hide MergedSite, MergedFields, Moved;
  }

  /// Whether the key is one of the four that hold a set.
  predicate IsList(k: string) {
    k == "DEEDS" || k == "BLOCKED_BY" || k == "FILES" || k == "VISSUE_TAGS"
  }

  /// One side holds a claim, the other none, and that one's logbook notes that
  /// it was released no earlier than it was taken.
  predicate ReleasedBy(x: Heading, held: Heading) {
    && "CLAIMED_BY" !in x.properties && "CLAIMED_BY" in held.properties && "CLAIMED_AT" in held.properties
    && exists e :: e in x.logbook && e.note.Some? && "claim released:" <= TrimStart(e.note.value)
         && !Less(e.timestamp, held.properties["CLAIMED_AT"])
  }

  lemma ReleasedExactly(a: Heading, b: Heading)
    ensures ClaimReleased(a, b) <==> ReleasedBy(a, b) || ReleasedBy(b, a)
  {
    assert CLAIMED_BY == "CLAIMED_BY" && CLAIMED_AT == "CLAIMED_AT" && CLAIM_RELEASED_NOTE == "claim released:";
    hide Less, TrimStart;
  }

  /// A claim key of a claim that one side released.
  predicate IsReleased(a: Heading, b: Heading, k: string) {
    (ReleasedBy(a, b) || ReleasedBy(b, a)) && (k == "CLAIMED_BY" || k == "CLAIMED_AT")
  }

  /// Whether a merged set holds an element, from where it stands in the base and
  /// on the two sides: both sides have it, or one of them brought it.
  predicate IsHeld(base: bool, ours: bool, theirs: bool) {
    (ours && theirs) || (!base && (ours || theirs))
  }

  /// A sequence that holds just those.
  ghost predicate HoldsMerged(m: seq<string>, o: seq<string>, a: seq<string>, b: seq<string>) {
    forall t :: t in m <==> IsHeld(t in o, t in a, t in b)
  }

  lemma HeldExactly(o: seq<string>, a: seq<string>, b: seq<string>, m: seq<string>)
    requires Elems(m) == ThreeWay(Elems(o), Elems(a), Elems(b))
    ensures HoldsMerged(m, o, a, b)
  {
    forall t ensures t in m <==> IsHeld(t in o, t in a, t in b) {
      assert t in m <==> t in Elems(m);
    }
  }

  /// Logbook lines are merged as a set.
  lemma LogLinesAreMerged(o: seq<LogEntry>, a: seq<LogEntry>, b: seq<LogEntry>, line: string)
    ensures line in Lines(MergedLog(o, a, b)) <==> IsHeld(line in Lines(o), line in Lines(a), line in Lines(b))
  {
    LogSetLaw(o, a, b);
    hide MergedLog, Lines;
  }

  /// What the merge makes of one property of three.
  ghost predicate PropertyHolds(k: string, x: Option<string>, y: Option<string>, z: Option<string>, m: Option<string>) {
    if IsList(k) then HoldsMerged(PropTokens(m), PropTokens(x), PropTokens(y), PropTokens(z)) else Chosen(x, y, z, m)
  }

  lemma PropertyAtHolds(k: string, o: Table, a: Table, b: Table)
    ensures PropertyHolds(k, Get(o, k), Get(a, k), Get(b, k), PropertyAt(k, o, a, b).0)
  {
    var (x, y, z) := (Get(o, k), Get(a, k), Get(b, k));
    TokensSetLaw(x, y, z);
    HeldExactly(PropTokens(x), PropTokens(y), PropTokens(z), PropTokens(MergedTokens(x, y, z)));
    hide MergedTokens, PropTokens, ThreeWay, HoldsMerged;
  }

  /// The same of each scalar property; the four that hold a set are merged
  /// token by token, and a claim one side released is gone.
  lemma PropertiesAreChosen(o: Site, a: Site, b: Site, now: string, k: string)
    ensures var (x, y, z) := (Get(o.heading.properties, k), Get(a.heading.properties, k), Get(b.heading.properties, k));
      var m := Get(MergedSite(o, a, b, now).0.heading.properties, k);
      if IsReleased(a.heading, b.heading, k) then m == None else PropertyHolds(k, x, y, z, m)
  {
    WrittenBeside(o, a, b, now);
    CollectionsOf(o, a, b);
    MergedPropertiesHold(k, o.heading, a.heading, b.heading);
    PropertyAtHolds(k, o.heading.properties, a.heading.properties, b.heading.properties);
    ReleasedExactly(a.heading, b.heading);
    hide MergedSite, MergedFields, MergedProperties, ClaimReleased, ReleasedBy, PropertyAt, PropertyHolds;
  }

  /// Tags are merged as a set.
  lemma TagsAreMerged(o: Site, a: Site, b: Site, now: string)
    ensures HoldsMerged(MergedSite(o, a, b, now).0.heading.orgTags, o.heading.orgTags, a.heading.orgTags, b.heading.orgTags)
  {
    WrittenBeside(o, a, b, now);
    CollectionsOf(o, a, b);
    TagsSetLaw(o.heading.orgTags, a.heading.orgTags, b.heading.orgTags);
    HeldExactly(o.heading.orgTags, a.heading.orgTags, b.heading.orgTags, MergedTags(o.heading.orgTags, a.heading.orgTags, b.heading.orgTags));
    hide MergedSite, MergedFields, MergedTags, ThreeWay, HoldsMerged;
  }

  // ---- the drawers ----

  lemma UpperOfSame(x: string)
    requires SameNoCase(x, CONFLICT_DRAWER)
    ensures UpperCase(x) == CONFLICT_DRAWER && x != "" && x[0] != ':' && x[|x| - 1] != ':'
  {
    var n := CONFLICT_DRAWER;
    forall i | 0 <= i < |x| ensures Upper(x[i]) == n[i] {
      assert Lower(x[i]) == Lower(n[i]);
      assert n[i] == '_' || 'A' <= n[i] <= 'Z';
    }
  }

  lemma ConflictNamed(d: string)
    requires DrawerNameIs(d, CONFLICT_DRAWER)
    ensures DrawerName(d) == CONFLICT_DRAWER
  {
    var first := Trim(SplitNl(d)[0]);
    var x := first[1..|first| - 1];
    UpperOfSame(x);
    assert first == ":" + x + ":" && first[1..] == x + ":";
    assert TrimStartOf(first, ':') == TrimStartOf(x + ":", ':') == x + ":" by { assert (x + ":")[0] == x[0]; }
    assert (x + ":")[..|x|] == x;
    assert TrimEndOf(x + ":", ':') == TrimEndOf(x, ':') == x;
  }

  lemma {:induction false} DropKeeps(drawers: seq<string>, n: string)
    requires n != CONFLICT_DRAWER
    ensures Find(DropDrawers(drawers, CONFLICT_DRAWER), n) == Find(drawers, n)
  {
    hide DrawerName, DrawerNameIs;
    if drawers != [] {
      DropKeeps(drawers[1..], n);
      if DrawerNameIs(drawers[0], CONFLICT_DRAWER) { ConflictNamed(drawers[0]); }
      var rest := DropDrawers(drawers[1..], CONFLICT_DRAWER);
      assert ([drawers[0]] + rest)[1..] == rest && [] + rest == rest;
    }
  }

  lemma KeptDrawerNamed(text: string)
    ensures DrawerName(":MERGE_CONFLICT:\n" + text) == CONFLICT_DRAWER
  {
    var (head, d) := (":MERGE_CONFLICT:", ":MERGE_CONFLICT:\n" + text);
    assert OneLine(head);
    assert d == head + "\n" + text;
    TrimNothing(head);
    assert head[1..|head| - 1] == CONFLICT_DRAWER;
    hide SplitNl, Trim;
    FirstLineOf(head, text);
    ConflictNamed(d);
  }

  lemma {:induction false} FirstLineOf(head: string, rest: string)
    requires OneLine(head)
    ensures SplitNl(head + "\n" + rest)[0] == head
  {
    var s := head + "\n" + rest;
    if head == "" {
      assert s[0] == '\n';
    } else {
      assert s[0] == head[0] && s[1..] == head[1..] + "\n" + rest;
      assert head[0] in head;
      FirstLineOf(head[1..], rest);
    }
  }

  lemma AnnotatedFinds(h: Heading, clashes: seq<Clash>, now: string, n: string)
    requires n != CONFLICT_DRAWER
    ensures Find(Annotated(h, clashes, now).extraDrawers, n) == Find(h.extraDrawers, n)
  {
    if clashes != [] {
      var last := ":MERGE_CONFLICT:\n" + ClashText(clashes) + ":END:";
      KeptDrawerNamed(ClashText(clashes) + ":END:");
      assert last == ":MERGE_CONFLICT:\n" + (ClashText(clashes) + ":END:");
      DropKeeps(h.extraDrawers, n);
      hide DrawerName, ClashText, ClashNotes, DropDrawers;
      FindConcat(DropDrawers(h.extraDrawers, CONFLICT_DRAWER), [last], n);
      assert [last][1..] == [];
    }
  }

  /// Each drawer comes from the side that changed it, else from ours.
  lemma DrawersAreChosen(o: Site, a: Site, b: Site, now: string, n: string)
    requires n != CONFLICT_DRAWER && n != VOTES_DRAWER
    ensures Chosen(Find(o.heading.extraDrawers, n), Find(a.heading.extraDrawers, n), Find(b.heading.extraDrawers, n),
                   Find(MergedSite(o, a, b, now).0.heading.extraDrawers, n))
  {
    CollectionsOf(o, a, b);
    MergedDrawersHold(o.heading.extraDrawers, a.heading.extraDrawers, b.heading.extraDrawers);
    AnnotatedFinds(MergedFields(o, a, b).site.heading, ClashesOf(o, a, b), now, n);
    hide MergedFields, Annotated, Find, MergedDrawers;
  }

  /**
   Each ballot comes from the side that changed it; of two that both sides
   changed the one with the later stamp is kept, and ours where neither is.
   */
  lemma BallotsAreChosen(o: Site, a: Site, b: Site, now: string, k: string)
    ensures var (x, y, z) := (VotesIn(o.heading.extraDrawers), VotesIn(a.heading.extraDrawers), VotesIn(b.heading.extraDrawers));
      var (p, q, r, m) := (Get(x, k), Get(y, k), Get(z, k), Get(VotesIn(MergedSite(o, a, b, now).0.heading.extraDrawers), k));
      if ChangedApart(p, q, r) && OlderBallot(q, r) then m == r else Chosen(p, q, r, m)
  {
    var (d, e, f) := (o.heading.extraDrawers, a.heading.extraDrawers, b.heading.extraDrawers);
    CollectionsOf(o, a, b);
    assert VOTES_DRAWER[0] != CONFLICT_DRAWER[0];
    MergedDrawersHold(d, e, f);
    MergedVotesHold(Find(d, VOTES_DRAWER), Find(e, VOTES_DRAWER), Find(f, VOTES_DRAWER));
    AnnotatedFinds(MergedFields(o, a, b).site.heading, ClashesOf(o, a, b), now, VOTES_DRAWER);
    OneBallot(k, VotesIn(d), VotesIn(e), VotesIn(f));
    hide MergedFields, Annotated, Find, MergedDrawers, MergedVotes, Votes, Ballots, OlderBallot, MergedBallot;
  }
}
