/**
 One new id on both sides: the copy with the newer logbook is what comes out,
 its logbook and ballots included (`merge_tracker`,
 `crates/vissue-core/src/merge.rs`).
 */
module NewerCopy {
  import opened Base
  import opened Order
  import opened Issue
  import opened MergeLog
  import opened MergeDrawers
  import opened Merge
  import opened MergeLaws
  import opened MergeAgain
  import opened MergeTie
  import opened MergeFile
  import opened MergeOutcome
  import LogLine

  /// Some stamp of `x` is later than every stamp of `y`.
  ghost predicate Newer(x: Heading, y: Heading) {
    exists e :: e in x.logbook && e.timestamp != "" && forall f :: f in y.logbook ==> Less(f.timestamp, e.timestamp)
  }

  lemma {:induction false} NewestStamp(log: seq<LogEntry>)
    ensures var m := Newest(log);
      && (m != "" ==> exists e :: e in log && e.timestamp == m)
      && forall e :: e in log ==> !Less(m, e.timestamp)
  {
    hide Less;
    if log != [] {
      NewestStamp(log[1..]);
      assert log == [log[0]] + log[1..];
      var (rest, t) := (Newest(log[1..]), log[0].timestamp);
      LessIrreflexive(t);
      if Less(rest, t) {
        forall e | e in log[1..] ensures !Less(t, e.timestamp) { NotOverBoth(e.timestamp, rest, t); }
      }
    }
  }

  lemma NewerIsNewest(x: Heading, y: Heading)
    ensures Newer(x, y) <==> Less(Newest(y.logbook), Newest(x.logbook))
  {
    NewestStamp(x.logbook);
    NewestStamp(y.logbook);
    var (p, q) := (Newest(x.logbook), Newest(y.logbook));
    EmptyIsLeast(q);
    hide Less;
    if Less(q, p) {
      EmptyIsLeast(q);
      var e :| e in x.logbook && e.timestamp == p;
      forall f | f in y.logbook ensures Less(f.timestamp, e.timestamp) { NotAboveThen(f.timestamp, q, p); }
    }
    if Newer(x, y) {
      var e :| e in x.logbook && e.timestamp != "" && forall f :: f in y.logbook ==> Less(f.timestamp, e.timestamp);
      EmptyIsLeast(e.timestamp);
      assert Less(q, e.timestamp);
      ThenNotBelow(q, e.timestamp, p);
    }
  }

  /// The issue is `x` as it stands, a claim that `y` or `x` released aside.
  ghost predicate IsCopy(m: Site, x: Site, y: Site) {
    && m.heading.title == x.heading.title && m.heading.state == x.heading.state && m.heading.body == x.heading.body
    && m.heading.priority == x.heading.priority && m.tail == x.tail
    && SameIssue(m.heading, KeptBeside(x.heading, y.heading))
  }

  /// A newer theirs is what comes out.
  lemma NewerTheirsWins(a: Site, b: Site, render: Heading -> string, now: string)
    requires Newer(b.heading, a.heading)
    ensures var m := MergedAt(None, Some(a), Some(b), render, now);
      m.conflicts == 0 && m.site.Some? && IsCopy(m.site.value, b, a)
  {
    NewerIsNewest(b.heading, a.heading);
    TieKeepsOurs(b, a, now);
    MergeConverges(a, b, a, now);
    hide MergedSite, SameIssue, KeptBeside, Newest, Newer;
    var (m, n) := (MergedSite(a, a, b, now), MergedSite(a, b, a, now));
    SameIssueSwaps(n.0.heading, m.0.heading);
    SameIssueChains(m.0.heading, n.0.heading, KeptBeside(b.heading, a.heading));
    CopyScalars(m.0.heading, b.heading, a.heading);
  }

  /// Ours is what comes out where theirs is not newer.
  lemma ElseOursIsKept(a: Site, b: Site, render: Heading -> string, now: string)
    requires !Newer(b.heading, a.heading)
    ensures var m := MergedAt(None, Some(a), Some(b), render, now);
      m.conflicts == 0 && m.site.Some? && IsCopy(m.site.value, a, b)
  {
    NewerIsNewest(b.heading, a.heading);
    TieKeepsOurs(a, b, now);
    hide MergedSite, SameIssue, KeptBeside, Newest, Newer;
    CopyScalars(MergedSite(b, a, b, now).0.heading, a.heading, b.heading);
  }

  lemma CopyScalars(m: Heading, x: Heading, y: Heading)
    requires SameIssue(m, KeptBeside(x, y))
    ensures m.title == x.title && m.state == x.state && m.body == x.body && m.priority == x.priority
    ensures Lines(m.logbook) == Lines(x.logbook) && VotesIn(m.extraDrawers) == VotesIn(x.extraDrawers)
  {
    hide SameProperties, ClaimReleased, Votes, Ballots, Lines;
  }

  // ---- the logbook of the older copy ----

  /**
   Of two copies that reached both sides every logbook line is kept exactly when
   the copy that comes out has them all: the other's own lines are dropped.
   */
  lemma BothLogbooksKeptExactly(a: Site, b: Site, render: Heading -> string, now: string)
    ensures var m := MergedAt(None, Some(a), Some(b), render, now).site;
      && m.Some?
      && var all := Lines(a.heading.logbook) + Lines(b.heading.logbook);
         var whole := Lines(m.value.heading.logbook) == all;
         whole <==> if Newer(b.heading, a.heading) then Lines(a.heading.logbook) <= Lines(b.heading.logbook)
                    else Lines(b.heading.logbook) <= Lines(a.heading.logbook)
  {
    var m := MergedAt(None, Some(a), Some(b), render, now).site;
    if Newer(b.heading, a.heading) {
      NewerTheirsWins(a, b, render, now);
      hide MergedAt, Lines, SameIssue, KeptBeside, Newer;
      CopyScalars(m.value.heading, b.heading, a.heading);
    } else {
      ElseOursIsKept(a, b, render, now);
      hide MergedAt, Lines, SameIssue, KeptBeside, Newer;
      CopyScalars(m.value.heading, a.heading, b.heading);
    }
  }

  function NoteAt(stamp: string, note: string): LogEntry {
    LogEntry(stamp, None, None, Some(note), None)
  }

  function CopyWith(e: LogEntry): Site {
    Site(Heading("acme-1", "Draft", "TODO", 'A', map["ID" := "acme-1"], [], None, ["ID"], [], "", [e], 1, 1), "")
  }

  const OURS_NOTE := NoteAt("[1]", "asked")
  const THEIRS_NOTE := NoteAt("[2]", "answered")

  /// An input on which a line is lost: a note on each copy, theirs the later.
  lemma OlderCopysNoteIsLost(render: Heading -> string, now: string)
    ensures var m := MergedAt(None, Some(CopyWith(OURS_NOTE)), Some(CopyWith(THEIRS_NOTE)), render, now);
      && m.conflicts == 0 && m.site.Some?
      && LogLine.Render(OURS_NOTE) !in Lines(m.site.value.heading.logbook)
  {
    var (a, b) := (CopyWith(OURS_NOTE), CopyWith(THEIRS_NOTE));
    TwoNotes(a, b);
    hide MergedAt, Newer, Lines, KeptBeside, SameIssue;
    NewerTheirsWins(a, b, render, now);
    CopyScalars(MergedAt(None, Some(a), Some(b), render, now).site.value.heading, b.heading, a.heading);
  }

  lemma TwoNotes(a: Site, b: Site)
    requires a == CopyWith(OURS_NOTE) && b == CopyWith(THEIRS_NOTE)
    ensures Newer(b.heading, a.heading)
    ensures LogLine.Render(OURS_NOTE) !in Lines(b.heading.logbook)
  {
    assert "[1]"[1..] == "1]" && "[2]"[1..] == "2]" && Less("1]", "2]") && Less("[1]", "[2]");
    assert THEIRS_NOTE in b.heading.logbook;
    LogLine.NoteText("asked", "[1]");
    LogLine.NoteText("answered", "[2]");
    var (x, y) := (LogLine.Render(OURS_NOTE), LogLine.Render(THEIRS_NOTE));
    hide LogLine.Render;
    assert |x| != |y|;
  }

  // ---- the file around the issues ----

  /// The preamble is that of the side that moved it, ours where both did, and
  /// that is one conflict.
  lemma PreambleIsChosen(o: Tracker, a: Tracker, b: Tracker, render: Heading -> string, now: string)
    ensures var (m, n) := MergedTracker(o, a, b, render, now);
      && Chosen(o.preamble, a.preamble, b.preamble, m.preamble)
      && (ChangedApart(o.preamble, a.preamble, b.preamble) ==> n > 0)
      && (n == 0 ==> forall i :: 0 <= i < |FileOutcomes(o.doc, a.doc, b.doc, render, now)| ==>
            FileOutcomes(o.doc, a.doc, b.doc, render, now)[i].conflicts == 0)
  {
    NoneConflict(FileOutcomes(o.doc, a.doc, b.doc, render, now));
    hide FileOutcomes, KeptSites, Conflicts;
  }

  lemma {:induction false} NoneConflict(outcomes: seq<Outcome>)
    ensures Conflicts(outcomes) == 0 <==> forall i :: 0 <= i < |outcomes| ==> outcomes[i].conflicts == 0
  {
    if outcomes != [] {
      NoneConflict(outcomes[1..]);
      assert forall i :: 1 <= i < |outcomes| ==> outcomes[1..][i - 1] == outcomes[i];
      if forall i :: 0 <= i < |outcomes[1..]| ==> outcomes[1..][i].conflicts == 0 {
        forall i | 1 <= i < |outcomes| ensures outcomes[i].conflicts == 0 { assert outcomes[1..][i - 1] == outcomes[i]; }
      }
    }
  }
}
