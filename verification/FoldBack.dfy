/**
 When the difference of two issues, folded again, prints as the issue it was
 written for (`push_diff` and the comparison at the end of `merge_file`,
 `crates/vissue-core/src/ledger.rs`).
 */
module FoldBack {
  import opened Base
  import opened Text
  import opened Issue
  import opened Print
  import opened Ledger
  import opened LedgerLaws
  import opened DrawerRecord
  import opened KeyOrder
  import LogLine

  function DrawersAfter(was: seq<string>, now: seq<string>): seq<string> {
    if was == now then was else SplitDrawers(LinesOf(ConcatAll(now)), "")
  }

  lemma TextsAfter(f: Folded, was: Heading, now: Heading, read: Reader)
    requires f.heading.extraDrawers == was.extraDrawers && f.heading.body == was.body
    ensures FoldRecords(f, DiffTexts(was, now), read)
         == Some(f.(heading := f.heading.(extraDrawers := DrawersAfter(was.extraDrawers, now.extraDrawers), body := now.body)))
  {
    hide FoldRecords, ApplyField, LinesOf, SplitDrawers;
    var h1 := f.heading.(extraDrawers := DrawersAfter(was.extraDrawers, now.extraDrawers));
    var h2 := h1.(body := now.body);
    FieldOps(f.heading, ConcatAll(now.extraDrawers));
    var (r1, r2) := (When(was.extraDrawers != now.extraDrawers, "drawers", ConcatAll(now.extraDrawers)),
                     When(was.body != now.body, "body", now.body));
    FieldOps(h1, now.body);
    if was.extraDrawers == now.extraDrawers {
      FoldNone(f, read);
    } else {
      FoldWhen(f, true, "drawers", ConcatAll(now.extraDrawers), h1, read);
    }
    FoldWhen(f.(heading := h1), was.body != now.body, "body", now.body, h2, read);
    FoldRecordsConcat(f, r1, r2, read);
  }

  /// What the difference of two issues folds to, drawers and key order
  /// included.
  lemma DiffFoldsTo(f: Folded, now: Heading, read: Reader) returns (g: Folded)
    requires CarriedFields(now) && f.heading.id == now.id
    requires forall k :: k in f.heading.properties ==> OneLine(k)
    requires Get(f.heading.properties, "ID") == Get(now.properties, "ID")
    ensures FoldRecords(f, Diff(f.heading, now), read) == Some(g)
    ensures g == f.(heading := now.(extraDrawers := DrawersAfter(f.heading.extraDrawers, now.extraDrawers),
                                    propertyOrder := OrderAfter(f.heading, now.properties),
                                    lineStart := f.heading.lineStart, lineEnd := f.heading.lineEnd))
  {
    var was := f.heading;
    hide FoldRecords, LogLine.ReadEntry, PlainLine, OneLine, DiffScalars, DiffProps, DiffTexts, DiffLog, DrawersAfter, OrderAfter;
    FoldScalars(f, now, read);
    var f1 := f.(heading := WithScalars(was, now));
    OrderOfScalars(was, now);
    var f2 := PropsOrder(f1, now.properties, read);
    TextsAfter(f2, was, now, read);
    var f3 := f2.(heading := f2.heading.(extraDrawers := DrawersAfter(was.extraDrawers, now.extraDrawers), body := now.body));
    FoldDiffLog(f3, now.logbook, read);
    g := f3.(heading := f3.heading.(logbook := now.logbook));
    var (r1, r2, r3, r4) := (DiffScalars(was, now), DiffProps(was.properties, now.properties), DiffTexts(was, now),
                             DiffLog(was.logbook, now.logbook));
    FoldRecordsConcat(f, r1, r2, read);
    FoldRecordsConcat(f, r1 + r2, r3, read);
    FoldRecordsConcat(f, r1 + r2 + r3, r4, read);
  }

  lemma OrderOfScalars(was: Heading, now: Heading)
    ensures OrderAfter(WithScalars(was, now), now.properties) == OrderAfter(was, now.properties)
  {
  }

  /**
   The difference folds back to an issue that prints as the one it was written
   for exactly when a record keeps its drawers, should they have changed, and
   the keys that are printed come out in the same order.
   */
  lemma FoldsBackExactly(f: Folded, now: Heading, read: Reader) returns (g: Folded)
    requires CarriedFields(now) && f.heading.id == now.id && PrintsOnLines(now.orgTags, now.properties)
    requires forall k :: k in f.heading.properties ==> OneLine(k)
    requires Get(f.heading.properties, "ID") == Get(now.properties, "ID")
    ensures FoldRecords(f, Diff(f.heading, now), read) == Some(g) && g.tombstoned == f.tombstoned
    ensures Printed(g.heading) == Printed(now) <==>
      && (f.heading.extraDrawers == now.extraDrawers || RecordKeeps(now.extraDrawers))
      && KeysPrintAlike(f.heading, now)
  {
    g := DiffFoldsTo(f, now, read);
    hide FoldRecords, CarriedFields, OneLine, OrderAfter, ShownDrawers, SplitDrawers, LinesOf, ConcatAll, RecordKeeps, Diff,
      Printed, PrintsOnLines, ShownKeys;
    PrintedTheSame(g.heading, now);
    DrawersSurviveARecord(now.extraDrawers);
  }
}
