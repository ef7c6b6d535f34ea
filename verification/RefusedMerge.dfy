/**
 A merge of two ledger files nobody wrote a conflict into that is refused all
 the same: ours is the base, theirs set one property in one commit and another
 in the next (`merge_file`, `push_props`, `crates/vissue-core/src/ledger.rs`).
 */
module RefusedMerge {
  import opened Base
  import opened Text
  import opened Order
  import opened Issue
  import opened MergeSets
  import opened MergeDrawers
  import opened Merge
  import opened MergeLaws
  import opened MergeTie
  import opened Print
  import opened Records
  import opened Ledger
  import opened LedgerLaws
  import opened LedgerStore
  import opened DrawerRecord
  import opened KeyOrder
  import opened MergeCarried
  import opened LedgerMerge
  import LogLine

  const ISSUE := Heading("x-1", "t", "TODO", 'C', map["ID" := "x-1", "CREATED" := "d"], [], None, ["ID", "CREATED"], [], "", [], 0, 0)

  /// The issue with one property set, and then its parent.
  function WithTwo(key: string): Heading {
    ISSUE.(properties := ISSUE.properties[key := "v"]["PARENT" := "p"], propertyOrder := ["ID", "CREATED", key, "PARENT"])
  }

  function TwoCommits(key: string): seq<Record> {
    [Record("prop", key + "\nv"), Record("prop", "PARENT\np")]
  }

  predicate IsTheKey(key: string) {
    key == "VERIFY" || key == "SCHEDULED"
  }

  lemma CommitsFold(key: string, read: Reader)
    requires IsTheKey(key)
    ensures AllWritable(TwoCommits(key))
    ensures FoldRecords(Folded(ISSUE, false, []), [], read) == Some(Folded(ISSUE, false, []))
    ensures FoldRecords(Folded(ISSUE, false, []), TwoCommits(key), read) == Some(Folded(WithTwo(key), false, []))
  {
    var (f, r, s) := (Folded(ISSUE, false, []), Record("prop", key + "\n" + "v"), Record("prop", "PARENT" + "\n" + "p"));
    var g := f.(heading := SetProperty(ISSUE, key, "v"));
    FoldNone(f, read);
    SetTwice(key);
    assert OneLine(key) && OneLine("PARENT");
    assert "PARENT" + "\n" + "p" == "PARENT\np" && key + "\n" + "v" == key + "\nv";
    assert TwoCommits(key) == [r] + [s];
    hide FoldRecords, EncodeOne, Apply, OneLine, ISSUE, WithTwo, TwoCommits, SetProperty;
    PropOps(f, key, "v", EncodeOne(r), read);
    PropOps(g, "PARENT", "p", EncodeOne(s), read);
    FoldOne(f, r, read);
    FoldOne(g, s, read);
    FoldRecordsConcat(f, [r], [s], read);
  }

  lemma SetTwice(key: string)
    requires IsTheKey(key)
    ensures AllWritable(TwoCommits(key))
    ensures SetProperty(SetProperty(ISSUE, key, "v"), "PARENT", "p") == WithTwo(key)
  {
    assert ["ID", "CREATED"] + [key] == ["ID", "CREATED", key];
    assert ["ID", "CREATED", key] + ["PARENT"] == ["ID", "CREATED", key, "PARENT"];
    NewKeys(key);
  }

  lemma NewKeys(key: string)
    requires IsTheKey(key)
    ensures key !in ["ID", "CREATED"] && "PARENT" !in ["ID", "CREATED", key]
  {
  }

  lemma FilesAreGood(c: Codec, left: string, key: string)
    requires IsTheKey(key) && c.readFile(left) == Some(ISSUE) && !Occurs(LOG_MARK, left + "\n")
    ensures TwoFiles(c, left + LOG_MARK, left + LOG_MARK + Encode(TwoCommits(key)), Folded(ISSUE, false, []), Folded(WithTwo(key), false, []))
  {
    var (rs, f, g) := (TwoCommits(key), Folded(ISSUE, false, []), Folded(WithTwo(key), false, []));
    CommitsFold(key, c.readReplace);
    assert Encode([]) == "" && left + LOG_MARK + "" == left + LOG_MARK;
    assert AllWritable([]);
    KeepTheId(key);
    hide Occurs, Encode, FoldRecords, FileName, IsBytes, Keeps, AllWritable, LOG_MARK, TwoCommits;
    assert FileParts(c, FileName("x-1"), left + LOG_MARK, left, [], ISSUE, f);
    assert FileParts(c, FileName("x-1"), left + LOG_MARK + Encode(rs), left, rs, ISSUE, g);
    FilePartsRead(c, FileName("x-1"), left + LOG_MARK, left, [], ISSUE, f);
    FilePartsRead(c, FileName("x-1"), left + LOG_MARK + Encode(rs), left, rs, ISSUE, g);
  }

  lemma KeepTheId(key: string)
    requires IsTheKey(key)
    ensures IsBytes("x-1")
    ensures Keeps(Folded(ISSUE, false, []), "x-1") && Keeps(Folded(WithTwo(key), false, []), "x-1")
  {
  }

  lemma MergedIsTheirs(key: string, now: string)
    requires IsTheKey(key)
    ensures var m := MergedHeading(ISSUE, ISSUE, WithTwo(key), now);
      m.properties == WithTwo(key).properties && m.orgTags == [] && m.extraDrawers == []
  {
    var b := WithTwo(key);
    var (o, t) := (Site(ISSUE, ""), Site(b, ""));
    NoClash(key, now);
    TableIsTheirs(key);
    hide MergedTable, Scalar, MergedState, MergedPriority, MergedStatistics, MergedOrder, PropertyClashes, Sorted, ReleasedAfter;
    assert MergedDrawers([], [], []).0 == [];
    assert MergedTags([], [], []) == [];
    assert !ClaimReleased(ISSUE, b);
  }

  lemma NoClash(key: string, now: string)
    ensures MergedFields(Site(ISSUE, ""), Site(ISSUE, ""), Site(WithTwo(key), "")).clashes == []
  {
    var (o, t) := (Site(ISSUE, ""), Site(WithTwo(key), ""));
    hide MergedFields, ISSUE, WithTwo, Fields;
    TieKeepsOurs(t, o, now);
    SameFieldsClash(o, o, t);
    NoFields(MergedFields(o, t, o).clashes);
    NoFields(MergedFields(o, o, t).clashes);
  }

  lemma TableIsTheirs(key: string)
    requires IsTheKey(key)
    ensures MergedTable(ISSUE.properties, ISSUE.properties, WithTwo(key).properties) == WithTwo(key).properties
  {
    OursUnchanged(ISSUE.properties, WithTwo(key).properties);
  }

  /// With no list property about, an unchanged ours takes theirs' table.
  lemma OursUnchanged(o: Table, b: Table)
    requires forall k :: k in o || k in b ==> k !in LIST_PROPERTIES
    requires o.Keys <= b.Keys
    ensures MergedTable(o, o, b) == b
  {
    hide MergedTokens, LIST_PROPERTIES;
  }

  lemma NoTagsMove(key: string)
    requires IsTheKey(key)
    ensures Classified([], WithTwo(key).properties).1 == WithTwo(key).properties
  {
    hide PutTag, SettleTags, Trim, Pieces;
    assert TAGS_PROPERTY !in WithTwo(key).properties;
  }

  lemma KeysInOrder(key: string)
    requires IsTheKey(key)
    ensures TheirNewShown(ISSUE.propertyOrder, WithTwo(key).propertyOrder, [], WithTwo(key).properties)
         == if key == "VERIFY" then ["VERIFY", "PARENT"] else ["PARENT"]
  {
    var table := WithTwo(key).properties;
    NewKeysAre(key);
    NoTagsMove(key);
    WhichAreShown(key);
    hide TheirNewKeys, Classified, IsShown, ISSUE, WithTwo;
    BothShown(key, table);
  }

  lemma BothShown(key: string, table: Table)
    requires IsShown("PARENT", table, table)
    ensures OnlyShown([key, "PARENT"], table, table) == if IsShown(key, table, table) then [key, "PARENT"] else ["PARENT"]
  {
    hide IsShown;
    assert [key, "PARENT"][1..] == ["PARENT"] && ["PARENT"][1..] == [];
    assert OnlyShown(["PARENT"], table, table) == ["PARENT"];
  }

  lemma WhichAreShown(key: string)
    requires IsTheKey(key)
    ensures var table := WithTwo(key).properties;
      IsShown("PARENT", table, table) && (IsShown(key, table, table) <==> key == "VERIFY")
  {
  }

  lemma NewKeysAre(key: string)
    requires IsTheKey(key)
    ensures TheirNewKeys(ISSUE.propertyOrder, WithTwo(key).propertyOrder, WithTwo(key).properties) == [key, "PARENT"]
  {
    var (a, b, table) := (ISSUE.propertyOrder, WithTwo(key).propertyOrder, WithTwo(key).properties);
    assert b[1..] == ["CREATED", key, "PARENT"] && b[1..][1..] == [key, "PARENT"];
    assert [key, "PARENT"][1..] == ["PARENT"] && ["PARENT"][1..] == [];
    assert AddNew(a, b, {}) == AddNew(a, b[1..], {}) == AddNew(a, [key, "PARENT"], {});
    assert AddNew(a, [key, "PARENT"], {}) == AddNew(a + [key], ["PARENT"], {}) == a + [key] + ["PARENT"];
    var all := AddNew(a, b, {});
    assert all == b;
    assert all[|a|..] == [key, "PARENT"];
    assert Elems([key, "PARENT"]) !! Elems(all) - table.Keys;
    WithoutNothing([key, "PARENT"], Elems(all) - table.Keys);
  }

  lemma NotAscending()
    ensures !Ascends(["VERIFY", "PARENT"]) && Ascends(["PARENT"])
  {
    var keys := ["VERIFY", "PARENT"];
    assert Less("PARENT", "VERIFY");
    LessAsymmetric("PARENT", "VERIFY");
    assert !Less(keys[0], keys[1]);
  }

  /**
   Theirs gave the issue a verification and later a parent: the merge into an
   unchanged ours is refused. Had it scheduled the issue first, the merge
   would be given, for a date does not stand in the drawer.
   */
  lemma TwoCommitsAreRefused(c: Codec, left: string, key: string, now: string)
    requires IsTheKey(key) && c.readFile(left) == Some(ISSUE) && !Occurs(LOG_MARK, left + "\n") && LogLine.IsStamp(now)
    ensures var (a, b) := (Folded(ISSUE, false, []), Folded(WithTwo(key), false, []));
      && ReadFile(c, left + LOG_MARK) == Some(a) && ReadFile(c, left + LOG_MARK + Encode(TwoCommits(key))) == Some(b)
      && (key == "VERIFY" ==> MergedLedger(c, left + LOG_MARK, ISSUE, a, b, now) == NotFoldedBack)
      && (key == "SCHEDULED" ==> MergedLedger(c, left + LOG_MARK, ISSUE, a, b, now).Given?)
  {
    var (a, b) := (Folded(ISSUE, false, []), Folded(WithTwo(key), false, []));
    FilesAreGood(c, left, key);
    MergedIsTheirs(key, now);
    KeysInOrder(key);
    NotAscending();
    Fits(key);
    hide Occurs, ReadFile, GoodFile, FileName, MergedLedger, Ascends, TheirNewShown, RecordKeeps, MergedHeading,
      PrintsOnLines, LogLine.IsStamp, CarriedFields, OrderCovers;
    GivenInByteOrder(c, left + LOG_MARK, left + LOG_MARK + Encode(TwoCommits(key)), ISSUE, a, b, now);
    GivenExactly(c, left + LOG_MARK, left + LOG_MARK + Encode(TwoCommits(key)), ISSUE, a, b, now);
  }

  lemma Fits(key: string)
    requires IsTheKey(key)
    ensures CarriedFields(ISSUE) && CarriedFields(WithTwo(key)) && OrderCovers(ISSUE) && OrderCovers(WithTwo(key))
    ensures PrintsOnLines([], WithTwo(key).properties)
  {
    PlainParts(key);
    NoTagsMove(key);
    CarriedParts(ISSUE);
    CarriedParts(WithTwo(key));
    OrdersCover(key);
    hide Classified, CarriedFields, OneLine, OrderCovers;
  }

  lemma OrdersCover(key: string)
    requires IsTheKey(key)
    ensures OrderCovers(ISSUE) && OrderCovers(WithTwo(key))
  {
    NewKeys(key);
    assert forall k :: k in ["ID", "CREATED"] <==> k == "ID" || k == "CREATED";
    assert forall k :: k in ["ID", "CREATED", key, "PARENT"] <==> k == "ID" || k == "CREATED" || k == key || k == "PARENT";
    assert key != "ID" && key != "CREATED" && key != "PARENT";
  }

  lemma PlainParts(key: string)
    requires IsTheKey(key)
    ensures forall k :: k in WithTwo(key).properties ==> OneLine(k) && ':' !in k && OneLine(WithTwo(key).properties[k])
    ensures OneLine("ID") && OneLine("CREATED")
  {
  }
}
