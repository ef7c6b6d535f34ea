/**
 Merging two versions of a ledger file (`merge_file`,
 `crates/vissue-core/src/ledger.rs`): ours as written, the records that turn
 ours into the merged issue, and the records of theirs this reader does not
 know. The result is given back only when it folds to what was merged.
 */
module LedgerMerge {
  import opened Base
  import opened Text
  import opened Order
  import opened Issue
  import opened MergeSets
  import opened MergeLog
  import opened MergeDrawers
  import opened DrawerLaws
  import opened Merge
  import opened Print
  import opened DrawerRecord
  import opened KeyOrder
  import opened FoldBack
  import opened MergeCarried
  import opened Records
  import opened Ledger
  import opened LedgerLaws
  import opened LedgerStore
  import opened LedgerRun
  import LogLine
  // ---- records this reader does not know ----

  /// Theirs' unknown records ours lacks, one held copy standing for one.
  function Lacking(carried: seq<string>, held: multiset<string>): seq<string> {
    if carried == [] then []
    else if carried[0] in held then Lacking(carried[1..], held - multiset{carried[0]})
    else [carried[0]] + Lacking(carried[1..], held)
  }

  /// Nothing unknown is lost and nothing is doubled: the result holds each
  /// record as often as the side that holds it more often.
  lemma {:induction false} UnknownRecordsAreKept(carried: seq<string>, held: multiset<string>, r: string)
    ensures held[r] + multiset(Lacking(carried, held))[r]
         == if held[r] < multiset(carried)[r] then multiset(carried)[r] else held[r]
  {
    if carried != [] {
      assert carried == [carried[0]] + carried[1..];
      assert multiset(carried) == multiset{carried[0]} + multiset(carried[1..]);
      if carried[0] in held {
        UnknownRecordsAreKept(carried[1..], held - multiset{carried[0]}, r);
      } else {
        UnknownRecordsAreKept(carried[1..], held, r);
        var rest := Lacking(carried[1..], held);
        assert multiset([carried[0]] + rest) == multiset{carried[0]} + multiset(rest);
      }
    }
  }

  function LinesUp(records: seq<string>): string {
    if records == [] then "" else Finished(records[0]) + LinesUp(records[1..])
  }

  lemma SwapRemoved(held: seq<string>, at: nat)
    requires at < |held|
    ensures multiset(held[at := held[|held| - 1]][..|held| - 1]) == multiset(held) - multiset{held[at]}
  {
    var (last, n) := (held[|held| - 1], |held| - 1);
    SwapParts(held, at);
    if at < n {
      MovedIntoPlace(held[..at], held[at], held[at + 1..n], last);
    }
  }

  lemma SwapParts(held: seq<string>, at: nat)
    requires at < |held|
    ensures var (last, n) := (held[|held| - 1], |held| - 1);
      && held == held[..n] + [last]
      && (at == n ==> held[at := last][..n] == held[..n])
      && (at < n ==> held == held[..at] + [held[at]] + held[at + 1..n] + [last])
      && (at < n ==> held[at := last][..n] == held[..at] + [last] + held[at + 1..n])
  {
  }

  lemma MovedIntoPlace(s: seq<string>, x: string, t: seq<string>, last: string)
    ensures multiset(s + [last] + t) == multiset(s + [x] + t + [last]) - multiset{x}
  {
  }

  method PositionOf(held: seq<string>, record: string) returns (at: nat)
    ensures at <= |held| && (at < |held| <==> record in held) && (at < |held| ==> held[at] == record)
  {
    at := 0;
    while at < |held| && held[at] != record
      invariant at <= |held| && forall k :: 0 <= k < at ==> held[k] != record
    {
      at := at + 1;
    }
  }

  method CarryOver(carried: seq<string>, ours: seq<string>) returns (bytes: string)
    ensures bytes == LinesUp(Lacking(carried, multiset(ours)))
  {
    bytes := "";
    var held := ours;
    assert carried[0..] == carried;
    hide LinesUp, Lacking;
    for i := 0 to |carried|
      invariant bytes + LinesUp(Lacking(carried[i..], multiset(held))) == LinesUp(Lacking(carried, multiset(ours)))
    {
      var at := PositionOf(held, carried[i]);
      NextCarried(bytes, carried, i, held);
      if at < |held| {
        SwapRemoved(held, at);
        held := held[at := held[|held| - 1]][..|held| - 1];
      } else {
        bytes := bytes + Finished(carried[i]);
      }
    }
    NoneCarried(bytes, carried, held);
  }

  lemma NextCarried(bytes: string, carried: seq<string>, i: nat, held: seq<string>)
    requires i < |carried|
    ensures carried[i] in held ==> Lacking(carried[i..], multiset(held)) == Lacking(carried[i + 1..], multiset(held) - multiset{carried[i]})
    ensures carried[i] !in held ==>
      bytes + LinesUp(Lacking(carried[i..], multiset(held)))
        == bytes + Finished(carried[i]) + LinesUp(Lacking(carried[i + 1..], multiset(held)))
  {
    assert carried[i..][0] == carried[i] && carried[i..][1..] == carried[i + 1..];
    assert carried[i] in held <==> carried[i] in multiset(held);
    if carried[i] !in held {
      LinesUpFirst(carried[i], Lacking(carried[i + 1..], multiset(held)));
    }
  }

  lemma NoneCarried(bytes: string, carried: seq<string>, held: seq<string>)
    ensures bytes + LinesUp(Lacking(carried[|carried|..], multiset(held))) == bytes
  {
    assert carried[|carried|..] == [];
  }

  lemma LinesUpFirst(record: string, rest: seq<string>)
    ensures LinesUp([record] + rest) == Finished(record) + LinesUp(rest)
  {
    assert ([record] + rest)[1..] == rest;
  }

  // ---- unknown records are records ----

  predicate IsKnownOp(op: string) {
    op in {"state", "priority", "title", "statistics", "org-tags", "body", "drawers", "log", "log-set", "tombstone", "replace",
           "prop", "prop-del"}
  }

  ghost predicate IsUnknown(r: Record, text: string) {
    Writable(r) && !IsKnownOp(r.op) && text == EncodeOne(r)
  }

  ghost predicate AllUnknown(texts: seq<string>) {
    forall t :: t in texts ==> exists r :: IsUnknown(r, t)
  }

  lemma UnknownStep(f: Folded, r: Record, g: Folded, read: Reader)
    requires Apply(f, r, EncodeOne(r), read) == Some(g)
    ensures IsKnownOp(r.op) ==> g.unknown == f.unknown
    ensures !IsKnownOp(r.op) ==> g == f.(unknown := f.unknown + [EncodeOne(r)])
  {
    hide EncodeOne, LinesOf, SplitDrawers, ParseLines, SplitOnce, SetProperty, DropProperty, LogLine.Parse;
  }

  lemma FoldStep(f: Folded, rs: seq<Record>, read: Reader)
    requires rs != []
    ensures FoldRecords(f, rs, read)
         == (match Apply(f, rs[0], EncodeOne(rs[0]), read) case None => None case Some(g) => FoldRecords(g, rs[1..], read))
  {
    hide Apply, EncodeOne, FoldRecords;
    assert rs == [rs[0]] + rs[1..];
    FoldRecordsConcat(f, [rs[0]], rs[1..], read);
    FoldOne(f, rs[0], read);
  }

  /// What a log of whole records keeps as unknown is whole records.
  lemma {:induction false} UnknownOf(f: Folded, rs: seq<Record>, g: Folded, read: Reader)
    requires FoldRecords(f, rs, read) == Some(g) && AllWritable(rs) && AllUnknown(f.unknown)
    ensures AllUnknown(g.unknown)
    decreases |rs|
  {
    hide Apply, EncodeOne, FoldRecords, IsKnownOp;
    FoldNone(f, read);
    if rs != [] {
      FoldStep(f, rs, read);
      var h := Apply(f, rs[0], EncodeOne(rs[0]), read).value;
      UnknownStep(f, rs[0], h, read);
      assert !IsKnownOp(rs[0].op) ==> IsUnknown(rs[0], EncodeOne(rs[0]));
      UnknownOf(h, rs[1..], g, read);
    }
  }

  lemma FileUnknown(c: Codec, name: string, text: string)
    requires GoodFile(c, name, text) && ReadFile(c, text).Some?
    ensures AllUnknown(ReadFile(c, text).value.unknown)
  {
    hide ReadFile, FoldRecords, Occurs, Encode, Keeps, AllWritable, IsUnknown;
    var left, rs, h, f :| FileParts(c, name, text, left, rs, h, f);
    FilePartsRead(c, name, text, left, rs, h, f);
    UnknownOf(Folded(h, false, []), rs, f, c.readReplace);
  }

  lemma {:induction false} LackingIsPart(carried: seq<string>, held: multiset<string>)
    ensures forall t :: t in Lacking(carried, held) ==> t in carried
  {
    if carried != [] {
      assert carried == [carried[0]] + carried[1..];
      LackingIsPart(carried[1..], held);
      LackingIsPart(carried[1..], held - multiset{carried[0]});
    }
  }

  /// Unknown records as written are the records themselves, and fold to
  /// nothing but themselves.
  lemma {:induction false} UnknownFold(f: Folded, texts: seq<string>, read: Reader) returns (rs: seq<Record>, g: Folded)
    requires AllUnknown(texts)
    ensures LinesUp(texts) == Encode(rs) && AllWritable(rs)
    ensures FoldRecords(f, rs, read) == Some(g) && g.heading == f.heading && g.tombstoned == f.tombstoned
    decreases |texts|
  {
    hide Apply, EncodeOne, FoldRecords, IsKnownOp;
    if texts == [] {
      rs, g := [], f;
      FoldNone(f, read);
    } else {
      assert texts[0] in texts && forall t :: t in texts[1..] ==> t in texts;
      var r :| IsUnknown(r, texts[0]);
      var h := f.(unknown := f.unknown + [texts[0]]);
      UnknownApplies(f, r, read);
      var rest;
      rest, g := UnknownFold(h, texts[1..], read);
      rs := [r] + rest;
      assert rs[1..] == rest;
      FoldStep(f, rs, read);
      EncodedEndsLine(r);
    }
  }

  lemma UnknownApplies(f: Folded, r: Record, read: Reader)
    requires !IsKnownOp(r.op)
    ensures Apply(f, r, EncodeOne(r), read) == Some(f.(unknown := f.unknown + [EncodeOne(r)]))
  {
    hide EncodeOne;
  }

  lemma EncodedEndsLine(r: Record)
    ensures Finished(EncodeOne(r)) == EncodeOne(r)
  {
  }

  // ---- the merge of two files ----

  datatype Outcome =
    | Given(text: string, conflicts: nat)
    | NoBase
    | NotRead
    | Removed
    | OtherIssue
    | NotFoldedBack

  function SideError(f: Option<Folded>): Option<Outcome> {
    if f.None? then Some(NotRead) else if f.value.tombstoned then Some(Removed) else None
  }

  /// Ours' text, with a newline and the line that opens the log where they
  /// are missing.
  function Opened(ours: string): string {
    var text := if EndsLine(ours) then ours else ours + "\n";
    if Occurs(LOG_MARK, text) then text else text + LOG_LINE + "\n"
  }

  /// A file without the line that opens the log gets one, and only that.
  lemma OpenedHoldsTheMark(ours: string)
    ensures ours <= Opened(ours) && Occurs("\n#+VISSUE_LEDGER_LOG:\n", Opened(ours))
    ensures EndsLine(ours) && Occurs("\n#+VISSUE_LEDGER_LOG:\n", ours) ==> Opened(ours) == ours
  {
    var text := if EndsLine(ours) then ours else ours + "\n";
    assert LOG_MARK == "\n#+VISSUE_LEDGER_LOG:\n";
    if !Occurs(LOG_MARK, text) {
      var left := text[..|text| - 1];
      OccursWithin(left, LOG_MARK, "");
      assert text + LOG_LINE + "\n" == left + LOG_MARK + "";
    }
    hide Occurs;
  }

  /// What the merge would append: the difference, then the unknown records.
  function Appendix(a: Folded, b: Folded, merged: Heading): string {
    Encode(Diff(a.heading, merged)) + LinesUp(Lacking(b.unknown, multiset(a.unknown)))
  }

  /// The first thing in the way of a merge, if any: a side that does not read
  /// or removed the issue, or sides of different issues.
  function FirstError(o: Option<Folded>, a: Option<Folded>, b: Option<Folded>): Option<Outcome> {
    if SideError(o).Some? then SideError(o)
    else if SideError(a).Some? then SideError(a)
    else if SideError(b).Some? then SideError(b)
    else if o.value.heading.id != a.value.heading.id || o.value.heading.id != b.value.heading.id then Some(OtherIssue)
    else None
  }

  /// A merge is tried exactly when every side reads, none removed the issue and
  /// all are of one; of what is in the way the base comes first, then ours.
  lemma TriedExactly(o: Option<Folded>, a: Option<Folded>, b: Option<Folded>)
    ensures FirstError(o, a, b).None? <==>
      && o.Some? && a.Some? && b.Some?
      && !o.value.tombstoned && !a.value.tombstoned && !b.value.tombstoned
      && o.value.heading.id == a.value.heading.id == b.value.heading.id
    ensures o.None? ==> FirstError(o, a, b) == Some(NotRead)
    ensures o.Some? && o.value.tombstoned ==> FirstError(o, a, b) == Some(Removed)
    ensures o.Some? && !o.value.tombstoned && a.None? ==> FirstError(o, a, b) == Some(NotRead)
  {
  }

  function MergedLedger(c: Codec, ours: string, o: Heading, a: Folded, b: Folded, now: string): Outcome {
    var (site, count) := MergedSite(Site(o, ""), Site(a.heading, ""), Site(b.heading, ""), now);
    var text := Opened(ours) + Appendix(a, b, site.heading);
    var back := ReadFile(c, text);
    if back.None? then NotRead
    else if back.value.tombstoned then Removed
    else if Printed(back.value.heading) == Printed(site.heading) then Given(text, count)
    else NotFoldedBack
  }

  /**
   The merged file is ours with records appended, folds to the merged issue, and
   is given only then.
   */
  method MergeFile(c: Codec, base: string, ours: string, theirs: string, now: string) returns (r: Outcome)
    ensures var (o, a, b) := (ReadFile(c, base), ReadFile(c, ours), ReadFile(c, theirs));
      && (r == NoBase <==> Trim(base) == "")
      && (Trim(base) != "" ==> r == match FirstError(o, a, b)
          case Some(e) => e
          case None => MergedLedger(c, ours, o.value.heading, a.value, b.value, now))
  {
    if Trim(base) == "" {
      return NoBase;
    }
    hide ReadFile, MergedLedger, Trim;
    var o := ReadFile(c, base);
    if SideError(o).Some? {
      return SideError(o).value;
    }
    var a := ReadFile(c, ours);
    if SideError(a).Some? {
      return SideError(a).value;
    }
    var b := ReadFile(c, theirs);
    if SideError(b).Some? {
      return SideError(b).value;
    }
    if o.value.heading.id != a.value.heading.id || o.value.heading.id != b.value.heading.id {
      return OtherIssue;
    }
    r := AppendMerged(c, ours, o.value.heading, a.value, b.value, now);
  }

  method AppendMerged(c: Codec, ours: string, o: Heading, a: Folded, b: Folded, now: string) returns (r: Outcome)
    ensures r == MergedLedger(c, ours, o, a, b, now)
    ensures r != NoBase
  {
    hide ReadFile, MergedSite, Diff, Encode, Lacking, LinesUp, Opened, Printed;
    var site, count := MergeOne(Site(o, ""), Site(a.heading, ""), Site(b.heading, ""), now, 0);
    var buf := new RecordBuf();
    buf.PushDiff(a.heading, site.heading);
    var carried := CarryOver(b.unknown, a.unknown);
    assert "" + Encode(Diff(a.heading, site.heading)) == Encode(Diff(a.heading, site.heading));
    var text := Opened(ours) + (buf.bytes + carried);
    var back := ReadFile(c, text);
    if back.None? {
      return NotRead;
    }
    if back.value.tombstoned {
      return Removed;
    }
    r := if Printed(back.value.heading) == Printed(site.heading) then Given(text, count) else NotFoldedBack;
  }

  /// A file given back is ours with something appended.
  lemma GivenKeepsOurs(c: Codec, ours: string, o: Heading, a: Folded, b: Folded, now: string)
    requires MergedLedger(c, ours, o, a, b, now).Given?
    ensures ours <= MergedLedger(c, ours, o, a, b, now).text
  {
    hide ReadFile, MergedSite, Appendix, Occurs, Printed;
    assert ours <= Opened(ours);
  }

  // ---- when a merge is given ----

  /// Two files of one issue as commits leave them, neither removed.
  ghost predicate TwoFiles(c: Codec, ours: string, theirs: string, a: Folded, b: Folded) {
    && GoodFile(c, FileName(a.heading.id), ours) && ReadFile(c, ours) == Some(a) && !a.tombstoned
    && GoodFile(c, FileName(b.heading.id), theirs) && ReadFile(c, theirs) == Some(b) && !b.tombstoned
    && a.heading.id == b.heading.id
  }

  function MergedHeading(o: Heading, a: Heading, b: Heading, now: string): Heading {
    MergedSite(Site(o, ""), Site(a, ""), Site(b, ""), now).0.heading
  }

  lemma {:induction false} OccursWithin(left: string, pat: string, right: string)
    ensures Occurs(pat, left + pat + right)
  {
    var s := left + pat + right;
    if left == "" {
      assert s == pat + right && pat <= s;
    } else {
      OccursWithin(left[1..], pat, right);
      assert s[1..] == left[1..] + pat + right;
    }
  }

  lemma {:induction false} EncodedEnds(rs: seq<Record>)
    ensures Encode(rs) == "" || EndsLine(Encode(rs))
  {
    hide EncodeOne;
    if rs != [] {
      EncodedEnds(rs[1..]);
      EncodedEndsLine(rs[0]);
    }
  }

  /// A file a commit left is already open for records.
  lemma GoodIsOpened(c: Codec, name: string, text: string)
    requires GoodFile(c, name, text)
    ensures Opened(text) == text
  {
    hide Occurs, Encode, FoldRecords, Keeps, AllWritable;
    var left, rs, h, f :| FileParts(c, name, text, left, rs, h, f);
    OccursWithin(left, LOG_MARK, Encode(rs));
    EncodedEnds(rs);
    MarkShape();
    assert text[|text| - 1] == (if Encode(rs) == "" then LOG_MARK else Encode(rs))[|if Encode(rs) == "" then LOG_MARK else Encode(rs)| - 1];
  }

  lemma GoodKeeps(c: Codec, name: string, text: string)
    requires GoodFile(c, name, text) && ReadFile(c, text).Some?
    ensures Keeps(ReadFile(c, text).value, ReadFile(c, text).value.heading.id)
  {
    hide ReadFile, FoldRecords, Occurs, Encode, AllWritable, Keeps;
    var left, rs, h, f :| FileParts(c, name, text, left, rs, h, f);
    FilePartsRead(c, name, text, left, rs, h, f);
  }

  /// What a merge would append reads as the difference folded, the unknown
  /// records of theirs kept beside it.
  lemma AppendixReads(c: Codec, ours: string, theirs: string, a: Folded, b: Folded, now: Heading, g: Folded)
    requires TwoFiles(c, ours, theirs, a, b)
    requires FoldRecords(a, Diff(a.heading, now), c.readReplace) == Some(g)
    ensures ReadFile(c, Opened(ours) + Appendix(a, b, now)).Some?
    ensures var back := ReadFile(c, Opened(ours) + Appendix(a, b, now)).value;
      back.heading == g.heading && back.tombstoned == g.tombstoned
  {
    hide ReadFile, FoldRecords, Encode, LinesUp, Lacking, Diff, FileName, Opened, AllUnknown, AllWritable, GoodFile;
    GoodIsOpened(c, FileName(a.heading.id), ours);
    FileUnknown(c, FileName(b.heading.id), theirs);
    var texts := Lacking(b.unknown, multiset(a.unknown));
    LackingUnknown(b.unknown, multiset(a.unknown));
    var rs, back := UnknownFold(g, texts, c.readReplace);
    var diff := Diff(a.heading, now);
    DiffWritable(a.heading, now);
    WritableConcat(diff, rs);
    FoldRecordsConcat(a, diff, rs, c.readReplace);
    EncodeConcat(diff, rs);
    AppendReads(c, FileName(a.heading.id), ours, diff + rs, back);
  }

  lemma LackingUnknown(carried: seq<string>, held: multiset<string>)
    requires AllUnknown(carried)
    ensures AllUnknown(Lacking(carried, held))
  {
    hide IsUnknown, Lacking;
    LackingIsPart(carried, held);
  }

  lemma MergedReads(c: Codec, ours: string, theirs: string, o: Heading, a: Folded, b: Folded, now: string, g: Folded)
    requires TwoFiles(c, ours, theirs, a, b)
    requires FoldRecords(a, Diff(a.heading, MergedHeading(o, a.heading, b.heading, now)), c.readReplace) == Some(g) && !g.tombstoned
    ensures var m := MergedHeading(o, a.heading, b.heading, now);
      MergedLedger(c, ours, o, a, b, now)
        == if Printed(g.heading) == Printed(m)
           then Given(Opened(ours) + Appendix(a, b, m), MergedSite(Site(o, ""), Site(a.heading, ""), Site(b.heading, ""), now).1)
           else NotFoldedBack
  {
    AppendixReads(c, ours, theirs, a, b, MergedHeading(o, a.heading, b.heading, now), g);
    hide ReadFile, FoldRecords, Appendix, Diff, Opened, TwoFiles, MergedSite, Printed;
  }

  /// What both sides' files give the merged issue: an id kept, fields that
  /// records carry.
  lemma MergedFit(c: Codec, ours: string, theirs: string, o: Heading, a: Folded, b: Folded, now: string)
    requires TwoFiles(c, ours, theirs, a, b)
    requires CarriedFields(a.heading) && CarriedFields(b.heading) && LogLine.IsStamp(now)
    ensures var m := MergedHeading(o, a.heading, b.heading, now);
      CarriedFields(m) && m.id == a.heading.id && Get(m.properties, "ID") == Get(a.heading.properties, "ID")
    ensures forall k :: k in a.heading.properties ==> OneLine(k)
  {
    GoodKeeps(c, FileName(a.heading.id), ours);
    GoodKeeps(c, FileName(b.heading.id), theirs);
    hide ReadFile, GoodFile, FileName, CarriedFields, LogLine.IsStamp, MergedSite, OneLine;
    MergeIsCarried(o, a.heading, b.heading, now);
    MergedIdStays(o, a.heading, b.heading, now);
  }

  /**
   Of two files as commits leave them, whatever records theirs holds that this
   reader does not know, the merge is given exactly when a record keeps the
   merged drawers (if they moved at all) and the keys that are printed come out
   of the records in the merged order.
   */
  lemma GivenExactly(c: Codec, ours: string, theirs: string, o: Heading, a: Folded, b: Folded, now: string)
    requires TwoFiles(c, ours, theirs, a, b)
    requires CarriedFields(a.heading) && CarriedFields(b.heading) && LogLine.IsStamp(now)
    requires var m := MergedHeading(o, a.heading, b.heading, now);
      PrintsOnLines(m.orgTags, m.properties)
    ensures var m := MergedHeading(o, a.heading, b.heading, now);
      MergedLedger(c, ours, o, a, b, now).Given? <==>
        && (a.heading.extraDrawers == m.extraDrawers || RecordKeeps(m.extraDrawers))
        && KeysPrintAlike(a.heading, m)
    ensures MergedLedger(c, ours, o, a, b, now).Given? || MergedLedger(c, ours, o, a, b, now) == NotFoldedBack
  {
    var m := MergedHeading(o, a.heading, b.heading, now);
    MergedFit(c, ours, theirs, o, a, b, now);
    hide *;
    var g := FoldsBackExactly(a, m, c.readReplace);
    NotTombstoned(c, ours, theirs, a, b);
    MergedReads(c, ours, theirs, o, a, b, now, g);
  }

  lemma NotTombstoned(c: Codec, ours: string, theirs: string, a: Folded, b: Folded)
    requires TwoFiles(c, ours, theirs, a, b)
    ensures !a.tombstoned
  {
  }

  /// The same with both key orders whole: theirs' new keys that are printed
  /// in the drawer must come in byte order.
  lemma GivenInByteOrder(c: Codec, ours: string, theirs: string, o: Heading, a: Folded, b: Folded, now: string)
    requires TwoFiles(c, ours, theirs, a, b) && OrderCovers(a.heading) && OrderCovers(b.heading)
    requires CarriedFields(a.heading) && CarriedFields(b.heading) && LogLine.IsStamp(now)
    requires var m := MergedHeading(o, a.heading, b.heading, now);
      PrintsOnLines(m.orgTags, m.properties)
    ensures var m := MergedHeading(o, a.heading, b.heading, now);
      MergedLedger(c, ours, o, a, b, now).Given? <==>
        && (a.heading.extraDrawers == m.extraDrawers || RecordKeeps(m.extraDrawers))
        && Ascends(TheirNewShown(a.heading.propertyOrder, b.heading.propertyOrder, m.orgTags, m.properties))
  {
    var m := MergedHeading(o, a.heading, b.heading, now);
    GivenExactly(c, ours, theirs, o, a, b, now);
    MergedFit(c, ours, theirs, o, a, b, now);
    GoodKeeps(c, FileName(a.heading.id), ours);
    MergedKeys(o, a.heading, b.heading, now);
    hide MergedSite, ReadFile, GoodFile, CarriedFields, KeysPrintAlike, Ascends, TheirNewShown, MergedLedger, PrintsOnLines,
      OrderCovers, MergedOrder, OneLine, RecordKeeps, FileName, MergedHeading;
    MergedOrderFoldsBack(a.heading, b.heading, m);
  }

  lemma MergedKeys(o: Heading, a: Heading, b: Heading, now: string)
    ensures var m := MergedHeading(o, a, b, now);
      && m.properties.Keys <= a.properties.Keys + b.properties.Keys
      && m.propertyOrder == MergedOrder(a.propertyOrder, b.propertyOrder, m.properties)
  {
    MergedKeysFrom(o.properties, a.properties, b.properties);
    MergedParts(o, a, b);
    hide MergedFields, MergedTable, MergedOrder, ClashNotes, ClashText, DropDrawers;
  }

  // ---- ballots and clashes ----

  /// Drawers as a file gives them.
  predicate EndTheirLines(drawers: seq<string>) {
    forall d :: d in drawers ==> EndsLine(d)
  }

  function OurVotes(o: Heading, a: Heading, b: Heading): Option<string> {
    MergedVotes(Find(o.extraDrawers, VOTES_DRAWER), Find(a.extraDrawers, VOTES_DRAWER), Find(b.extraDrawers, VOTES_DRAWER)).0
  }

  lemma {:induction false} DroppedFrom(drawers: seq<string>, name: string)
    ensures forall d :: d in DropDrawers(drawers, name) <==> d in drawers && !DrawerNameIs(d, name)
  {
    hide DrawerNameIs;
    if drawers != [] {
      DroppedFrom(drawers[1..], name);
      assert drawers == [drawers[0]] + drawers[1..];
    }
  }

  lemma MergedDrawerParts(o: Heading, a: Heading, b: Heading, now: string)
    ensures var m := MergedFields(Site(o, ""), Site(a, ""), Site(b, ""));
      var drawers := MergedDrawers(o.extraDrawers, a.extraDrawers, b.extraDrawers).0;
      && MergedSite(Site(o, ""), Site(a, ""), Site(b, ""), now).1 == |m.clashes|
      && MergedHeading(o, a, b, now).extraDrawers
        == if m.clashes == [] then drawers
           else DropDrawers(drawers, CONFLICT_DRAWER) + [":MERGE_CONFLICT:\n" + ClashText(m.clashes) + ":END:"]
  {
    hide Scalar, MergedState, MergedPriority, MergedStatistics, MergedTable, MergedTags, MergedOrder, MergedLog, MergedDrawers,
      PropertyClashes, ClaimReleased, Sorted, Pick, ClashNotes, ClashText, DropDrawers;
  }

  lemma VotesAreNoClash(m: seq<Vote>)
    ensures !DrawerNameIs(VotesText(m), CONFLICT_DRAWER)
  {
    hide JoinNl, SplitNl;
    SplitAtNl(":VOTES:", JoinNl(VoteLines(m)) + "\n:END:");
    assert VotesText(m) == ":VOTES:" + "\n" + (JoinNl(VoteLines(m)) + "\n:END:");
    TrimNothing(":VOTES:");
  }

  /**
   A votes drawer is written anew by every merge, without its last newline: with
   any drawer after it the merge is refused.
   */
  lemma BallotsMustComeLast(c: Codec, ours: string, theirs: string, o: Heading, a: Folded, b: Folded, now: string, i: nat)
    requires TwoFiles(c, ours, theirs, a, b)
    requires CarriedFields(a.heading) && CarriedFields(b.heading) && LogLine.IsStamp(now)
    requires EndTheirLines(a.heading.extraDrawers)
    requires var m := MergedHeading(o, a.heading, b.heading, now);
      && PrintsOnLines(m.orgTags, m.properties)
      && i < |m.extraDrawers| - 1 && OurVotes(o, a.heading, b.heading) == Some(m.extraDrawers[i])
    ensures MergedLedger(c, ours, o, a, b, now) == NotFoldedBack
  {
    var m := MergedHeading(o, a.heading, b.heading, now);
    VotesUnfinished(o, a.heading, b.heading);
    assert m.extraDrawers[i] in m.extraDrawers && !EndsLine(m.extraDrawers[i]);
    assert a.heading.extraDrawers != m.extraDrawers && !RecordKeeps(m.extraDrawers);
    hide *;
    GivenExactly(c, ours, theirs, o, a, b, now);
  }

  lemma VotesUnfinished(o: Heading, a: Heading, b: Heading)
    ensures OurVotes(o, a, b).Some? ==> exists m :: OurVotes(o, a, b) == Some(VotesText(m))
    ensures OurVotes(o, a, b).Some? ==> !EndsLine(OurVotes(o, a, b).value)
  {
    var (x, y, z) := (Votes(Find(o.extraDrawers, VOTES_DRAWER)), Votes(Find(a.extraDrawers, VOTES_DRAWER)),
                      Votes(Find(b.extraDrawers, VOTES_DRAWER)));
    var kept := MergedBallots(KeysOf(x, y, z), Ballots(x), Ballots(y), Ballots(z)).0;
    hide Votes, Find, MergedBallots, KeysOf, Ballots, JoinNl;
    assert OurVotes(o, a, b).Some? ==> OurVotes(o, a, b) == Some(VotesText(kept));
    var s := ":VOTES:\n" + JoinNl(VoteLines(kept)) + "\n:END:";
    assert s[|s| - 1] == ':';
  }

  /// In particular a merge that both keeps ballots and records a clash.
  lemma BallotsAndAClashAreRefused(c: Codec, ours: string, theirs: string, o: Heading, a: Folded, b: Folded, now: string)
    requires TwoFiles(c, ours, theirs, a, b)
    requires CarriedFields(a.heading) && CarriedFields(b.heading) && LogLine.IsStamp(now)
    requires EndTheirLines(a.heading.extraDrawers)
    requires var m := MergedHeading(o, a.heading, b.heading, now); PrintsOnLines(m.orgTags, m.properties)
    requires MergedSite(Site(o, ""), Site(a.heading, ""), Site(b.heading, ""), now).1 > 0
    requires OurVotes(o, a.heading, b.heading).Some?
    ensures MergedLedger(c, ours, o, a, b, now) == NotFoldedBack
  {
    var i := BallotsAreKept(o, a.heading, b.heading, now);
    hide *;
    BallotsMustComeLast(c, ours, theirs, o, a, b, now, i);
  }

  lemma BallotsAreKept(o: Heading, a: Heading, b: Heading, now: string) returns (i: nat)
    requires MergedSite(Site(o, ""), Site(a, ""), Site(b, ""), now).1 > 0 && OurVotes(o, a, b).Some?
    ensures var drawers := MergedHeading(o, a, b, now).extraDrawers;
      i < |drawers| - 1 && OurVotes(o, a, b) == Some(drawers[i])
  {
    var drawers := MergedDrawers(o.extraDrawers, a.extraDrawers, b.extraDrawers).0;
    var votes := OurVotes(o, a, b).value;
    MergedDrawersHold(o.extraDrawers, a.extraDrawers, b.extraDrawers);
    assert Find(drawers, VOTES_DRAWER) == Some(votes) by { hide MergedDrawers, MergedVotes, Find; }
    assert votes in drawers;
    VotesUnfinished(o, a, b);
    DroppedFrom(drawers, CONFLICT_DRAWER);
    MergedDrawerParts(o, a, b, now);
    hide MergedDrawers, MergedHeading, MergedSite, MergedFields, DropDrawers, ClashText, OurVotes, VotesText, DrawerNameIs;
    var m :| votes == VotesText(m);
    VotesAreNoClash(m);
    var kept := DropDrawers(drawers, CONFLICT_DRAWER);
    i :| 0 <= i < |kept| && kept[i] == votes;
  }

  // ---- votes written anew ----

  /// A votes drawer that a merge would write the same, the last newline aside.
  predicate VotesAsWritten(drawers: seq<string>) {
    forall d :: d in drawers && DrawerName(d) == VOTES_DRAWER ==> Finished(d) == Finished(VotesText(Votes(Some(d))))
  }

  /// Written anew, such drawers print as they did.
  lemma {:induction false} TidyPrintsSame(drawers: seq<string>)
    requires VotesAsWritten(drawers)
    ensures ShownDrawers(TidyDrawers(drawers)) == ShownDrawers(drawers)
  {
    hide DrawerName, Votes, VotesText, Finished;
    if drawers != [] {
      assert drawers[0] in drawers;
      assert forall d :: d in drawers[1..] ==> d in drawers;
      TidyPrintsSame(drawers[1..]);
      assert TidyDrawers(drawers)[1..] == TidyDrawers(drawers[1..]);
      assert Finished(TidyDrawers(drawers)[0]) == Finished(drawers[0]);
    }
  }
}
