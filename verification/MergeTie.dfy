/**
 One new id on both sides, neither copy newer than the other: theirs stands in
 for the base, so that ours is kept (`merge_tracker`,
 `crates/vissue-core/src/merge.rs`). A new issue has no logbook, so two copies
 of it tie.
 */
module MergeTie {
  import opened Base
  import opened Issue
  import opened MergeSets
  import opened MergeLog
  import opened MergeDrawers
  import opened DrawerLaws
  import opened Merge
  import opened MergeLaws
  import opened MergeAgain

  /// What is kept of ours beside `b`: all of it, but for a claim that one of
  /// the two released.
  function KeptBeside(a: Heading, b: Heading): Heading {
    a.(statistics := if a.statistics == Some("") then None else a.statistics,
       properties := if ClaimReleased(a, b) then a.properties - {CLAIMED_BY, CLAIMED_AT} else a.properties)
  }

  lemma {:induction false} NoNamedClash(names: seq<string>, base: seq<string>, ours: seq<string>, theirs: seq<string>)
    requires forall n :: MergedDrawer(n, base, ours, theirs).1 == []
    ensures MergedNamed(names, base, ours, theirs).1 == []
  {
    hide MergedDrawer;
    if names != [] {
      NoNamedClash(names[1..], base, ours, theirs);
    }
  }

  /// Drawers merged with a theirs that is the base: ours' under every name.
  lemma DrawersBesideBase(base: seq<string>, ours: seq<string>)
    ensures MergedDrawers(base, ours, base).1 == []
    ensures SameDrawers(MergedDrawers(base, ours, base).0, ours)
  {
    hide DrawerName, MergedNamed, Votes, VotesText, Find, Ballots;
    forall n ensures MergedDrawer(n, base, ours, base).1 == [] {
      VotesIdentity(Find(base, n), Find(ours, n));
      hide MergedVotes;
    }
    NoNamedClash(AddNames(AddNames([], ours), base), base, ours, base);
    MergedDrawersHold(base, ours, base);
    hide MergedVotes, MergedDrawers;
    VotesBesideBase(Find(base, VOTES_DRAWER), Find(ours, VOTES_DRAWER));
  }

  lemma VotesBesideBase(o: Option<string>, a: Option<string>)
    ensures Ballots(Votes(MergedVotes(o, a, o).0)) == Ballots(Votes(a))
  {
    hide Votes, MergedVotes, Ballots;
    MergedVotesHold(o, a, o);
    SameLookups(Ballots(Votes(MergedVotes(o, a, o).0)), Ballots(Votes(a)));
  }

  lemma PropertyBesideBase(k: string, o: Table, a: Table)
    ensures PropertyAt(k, o, a, o).1 == []
    ensures SameValue(k, PropertyAt(k, o, a, o).0, Get(a, k))
  {
    TokensSetLaw(Get(o, k), Get(a, k), Get(o, k));
    hide MergedTokens, PropTokens;
  }

  lemma PropertiesBesideBase(o: Heading, a: Heading)
    ensures SameProperties(MergedProperties(o, a, o), KeptBeside(a, o).properties)
    ensures PropertyClashes(AllKeys(o, a, o), o.properties, a.properties, o.properties) == []
  {
    hide PropertyAt, MergedProperties, AllKeys, SameValue, ClaimReleased;
    forall k
      ensures PropertyAt(k, o.properties, a.properties, o.properties).1 == []
      ensures SameValue(k, Get(MergedProperties(o, a, o), k), Get(KeptBeside(a, o).properties, k))
    {
      PropertyBesideBase(k, o.properties, a.properties);
      MergedPropertiesHold(k, o, a, o);
      SameNothing(k);
    }
    NoPropertyClashes(AllKeys(o, a, o), o.properties, a.properties, o.properties);
  }

  lemma SameNothing(k: string)
    ensures SameValue(k, None, None)
  {
  }

  /// Merged with theirs standing in for the base, ours is kept.
  lemma TieKeepsOurs(a: Site, b: Site, now: string)
    ensures var (m, n) := MergedSite(b, a, b, now);
      n == 0 && SameIssue(m.heading, KeptBeside(a.heading, b.heading)) && m.tail == a.tail
  {
    var (x, y) := (a.heading, b.heading);
    PropertiesBesideBase(y, x);
    TagsIdentity(y.orgTags, x.orgTags);
    LogIdentity(y.logbook, x.logbook);
    DrawersBesideBase(y.extraDrawers, x.extraDrawers);
    ScalarsOf(b, a, b);
    CollectionsOf(b, a, b);
    assert MergedState(y, x, y) == (x.state, []);
    assert MergedPriority(y.priority, x.priority, y.priority) == (x.priority, []);
    hide MergedDrawers, PropertyClashes, MergedProperties, MergedTags, MergedLog, MergedOrder, AllKeys, SameProperties,
      SameDrawers, MergedFields, MergedState, ClaimReleased, MergedPriority;
    NoPartsNoClash(b, a, b);
  }

  // ---- the same issue is an equivalence ----

  lemma SameIssueSwaps(x: Heading, y: Heading)
    requires SameIssue(x, y)
    ensures SameIssue(y, x)
  {
    hide PropTokens, Votes, Ballots, Find, Lines;
    forall k ensures SameValue(k, Get(y.properties, k), Get(x.properties, k)) {
      assert SameValue(k, Get(x.properties, k), Get(y.properties, k));
    }
  }

  lemma SameIssueChains(x: Heading, y: Heading, z: Heading)
    requires SameIssue(x, y) && SameIssue(y, z)
    ensures SameIssue(x, z)
  {
    hide PropTokens, Votes, Ballots, Find, Lines;
    forall k ensures SameValue(k, Get(x.properties, k), Get(z.properties, k)) {
      assert SameValue(k, Get(x.properties, k), Get(y.properties, k));
      assert SameValue(k, Get(y.properties, k), Get(z.properties, k));
    }
  }

  /// The two copies are one issue, a claim that one of them released aside.
  ghost predicate TieAgrees(a: Site, b: Site) {
    SameIssue(KeptBeside(a.heading, b.heading), KeptBeside(b.heading, a.heading)) && a.tail == b.tail
  }

  /**
   Each order of the sides keeps its own ours, so a tie comes to the same issue
   with the sides swapped exactly when the two copies are the same issue.
   */
  lemma TieConvergesExactly(a: Site, b: Site, now: string)
    ensures var (m, n) := (MergedSite(b, a, b, now), MergedSite(a, b, a, now));
      && m.1 == 0 && n.1 == 0
      && (SameIssue(m.0.heading, n.0.heading) && m.0.tail == n.0.tail <==> TieAgrees(a, b))
  {
    hide MergedSite, SameIssue, KeptBeside;
    TieKeepsOurs(a, b, now);
    TieKeepsOurs(b, a, now);
    var (m, n) := (MergedSite(b, a, b, now).0.heading, MergedSite(a, b, a, now).0.heading);
    var (x, y) := (KeptBeside(a.heading, b.heading), KeptBeside(b.heading, a.heading));
    SameIssueSwaps(m, x);
    SameIssueSwaps(n, y);
    if SameIssue(m, n) {
      SameIssueChains(x, m, n);
      SameIssueChains(x, n, y);
    }
    if SameIssue(x, y) {
      SameIssueChains(m, x, y);
      SameIssueChains(m, y, n);
    }
  }
}
