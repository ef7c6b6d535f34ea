/**
 Folding a late edit of the board into a ledger file: `queue_merge`,
 `board_decision`, `queue_props` and `queue_log`
 (`crates/vissue-core/src/ledger.rs`). `snapshot` is the issue as it was copied,
 `folded` what the ledger has made of it, `board` what the board holds now.
 */
module LedgerCatchUp {
  import opened Base
  import opened Text
  import opened Order
  import opened Issue
  import opened MergeSets
  import opened Records
  import opened Ledger
  import opened LedgerLaws
  import LogLine

  datatype Decision = Leave | Take | Refuse

  /// `board_decision`: take the board's value when only the board moved.
  function Decide<T(==)>(snapshot: T, folded: T, board: T): Decision {
    if board == folded || board == snapshot then Leave
    else if folded == snapshot then Take
    else Refuse
  }

  /// The decision is the three-way pick, with the ledger as ours.
  lemma DecisionIsPick<T>(snapshot: T, folded: T, board: T)
    ensures Decide(snapshot, folded, board).Refuse? <==> Pick(snapshot, folded, board).1
    ensures !Decide(snapshot, folded, board).Refuse? ==>
      Pick(snapshot, folded, board).0 == if Decide(snapshot, folded, board).Take? then board else folded
    ensures !Decide(snapshot, folded, board).Refuse? ==>
      Decide(snapshot, Pick(snapshot, folded, board).0, board).Leave?
  {
  }

  function PropDecision(k: string, snapshot: Table, folded: Table, board: Table): Decision {
    Decide(Get(snapshot, k), Get(folded, k), Get(board, k))
  }

  function QueuedProp(k: string, decision: Decision, value: Option<string>): seq<Record> {
    if !decision.Take? then []
    else if value.Some? then [Record("prop", k + "\n" + value.value)]
    else [Record("prop-del", k)]
  }

  function QueuedProps(keys: seq<string>, snapshot: Table, folded: Table, board: Table): seq<Record> {
    if keys == [] then []
    else
      var k := keys[0];
      QueuedProp(k, PropDecision(k, snapshot, folded, board), Get(board, k))
      + QueuedProps(keys[1..], snapshot, folded, board)
  }

  /// Entries of the board the ledger does not hold.
  function Missing(board: seq<LogEntry>, folded: seq<LogEntry>): seq<LogEntry> {
    if board == [] then []
    else (if board[0] in folded then [] else [board[0]]) + Missing(board[1..], folded)
  }

  function PropKeys(snapshot: Heading, folded: Heading, board: Heading): seq<string> {
    Sorted(snapshot.properties.Keys + folded.properties.Keys + board.properties.Keys - {"ID"})
  }

  function QueuedScalars(s: Heading, f: Heading, b: Heading): seq<Record> {
    When(Decide(s.state, f.state, b.state).Take?, "state", b.state)
    + When(Decide(s.priority, f.priority, b.priority).Take?, "priority", [b.priority])
    + When(Decide(s.title, f.title, b.title).Take?, "title", b.title)
    + When(Decide(s.statistics, f.statistics, b.statistics).Take?, "statistics", b.statistics.GetOr(""))
    + When(Decide(s.orgTags, f.orgTags, b.orgTags).Take?, "org-tags", JoinNl(b.orgTags))
  }

  function QueuedTexts(s: Heading, f: Heading, b: Heading): seq<Record> {
    When(Decide(s.extraDrawers, f.extraDrawers, b.extraDrawers).Take?, "drawers", ConcatAll(b.extraDrawers))
    + When(Decide(s.body, f.body, b.body).Take?, "body", b.body)
  }

  /// Whether some field moved apart on the board and in the ledger.
  predicate Refused(s: Heading, f: Heading, b: Heading) {
    || Decide(s.state, f.state, b.state).Refuse?
    || Decide(s.priority, f.priority, b.priority).Refuse?
    || Decide(s.title, f.title, b.title).Refuse?
    || Decide(s.statistics, f.statistics, b.statistics).Refuse?
    || Decide(s.orgTags, f.orgTags, b.orgTags).Refuse?
    || Decide(s.extraDrawers, f.extraDrawers, b.extraDrawers).Refuse?
    || Decide(s.body, f.body, b.body).Refuse?
    || exists k :: k in PropKeys(s, f, b) && PropDecision(k, s.properties, f.properties, b.properties).Refuse?
  }

  /// `queue_merge`: the records to append; `None` when a field is refused.
  function Queued(s: Heading, f: Heading, b: Heading): Option<seq<Record>> {
    if Refused(s, f, b) then None
    else Some(QueuedScalars(s, f, b)
              + QueuedProps(PropKeys(s, f, b), s.properties, f.properties, b.properties)
              + QueuedTexts(s, f, b)
              + LogRecords(Missing(b.logbook, f.logbook)))
  }

  /// The three-way pick of every field, the ledger being ours, and the board's
  /// missing log lines in front of the ledger's.
  function CaughtUp(s: Heading, f: Heading, b: Heading, table: Table): Heading {
    f.(state := Pick(s.state, f.state, b.state).0,
       priority := Pick(s.priority, f.priority, b.priority).0,
       title := Pick(s.title, f.title, b.title).0,
       statistics := Pick(s.statistics, f.statistics, b.statistics).0,
       orgTags := Pick(s.orgTags, f.orgTags, b.orgTags).0,
       extraDrawers := Pick(s.extraDrawers, f.extraDrawers, b.extraDrawers).0,
       body := Pick(s.body, f.body, b.body).0,
       properties := table,
       logbook := Missing(b.logbook, f.logbook) + f.logbook)
  }

  predicate PickedTable(table: Table, s: Table, f: Table, b: Table) {
    forall k :: k in table.Keys + s.Keys + f.Keys + b.Keys ==>
      Get(table, k) == if k == "ID" then Get(f, k) else Pick(Get(s, k), Get(f, k), Get(b, k)).0
  }

  // ---- folding what was queued ----

  lemma ScalarsTaken(f: Folded, s: Heading, b: Heading, read: Reader)
    requires var h := f.heading;
      && !Decide(s.state, h.state, b.state).Refuse? && !Decide(s.priority, h.priority, b.priority).Refuse?
      && !Decide(s.title, h.title, b.title).Refuse? && !Decide(s.statistics, h.statistics, b.statistics).Refuse?
      && !Decide(s.orgTags, h.orgTags, b.orgTags).Refuse?
    requires f.heading.statistics != b.statistics ==> b.statistics != Some("")
    requires f.heading.orgTags != b.orgTags ==> forall t :: t in b.orgTags ==> PlainLine(t) && t != ""
    ensures var h := f.heading;
      FoldRecords(f, QueuedScalars(s, h, b), read)
      == Some(f.(heading := h.(state := Pick(s.state, h.state, b.state).0,
                               priority := Pick(s.priority, h.priority, b.priority).0,
                               title := Pick(s.title, h.title, b.title).0,
                               statistics := Pick(s.statistics, h.statistics, b.statistics).0,
                               orgTags := Pick(s.orgTags, h.orgTags, b.orgTags).0)))
  {
    var h := f.heading;
    var h1 := h.(state := Pick(s.state, h.state, b.state).0);
    var h2 := h1.(priority := Pick(s.priority, h.priority, b.priority).0);
    var h3 := h2.(title := Pick(s.title, h.title, b.title).0);
    var h4 := h3.(statistics := Pick(s.statistics, h.statistics, b.statistics).0);
    var h5 := h4.(orgTags := Pick(s.orgTags, h.orgTags, b.orgTags).0);
    hide FoldRecords, ApplyField, PlainLine, LinesOf, Pick, Decide, When, JoinNl;
    StateTaken(f, s.state, h.state, b.state, read);
    PriorityTaken(f.(heading := h1), s.priority, h.priority, b.priority, read);
    TitleTaken(f.(heading := h2), s.title, h.title, b.title, read);
    StatisticsTaken(f.(heading := h3), s.statistics, h.statistics, b.statistics, read);
    TagsTaken(f.(heading := h4), s.orgTags, h.orgTags, b.orgTags, read);
    FoldFive(f, When(Decide(s.state, h.state, b.state).Take?, "state", b.state),
             When(Decide(s.priority, h.priority, b.priority).Take?, "priority", [b.priority]),
             When(Decide(s.title, h.title, b.title).Take?, "title", b.title),
             When(Decide(s.statistics, h.statistics, b.statistics).Take?, "statistics", b.statistics.GetOr("")),
             When(Decide(s.orgTags, h.orgTags, b.orgTags).Take?, "org-tags", JoinNl(b.orgTags)),
             f.(heading := h1), f.(heading := h2), f.(heading := h3), f.(heading := h4), f.(heading := h5), read);
  }

  lemma StateTaken(f: Folded, s: string, was: string, b: string, read: Reader)
    requires f.heading.state == was && !Decide(s, was, b).Refuse?
    ensures FoldRecords(f, When(Decide(s, was, b).Take?, "state", b), read) == Some(f.(heading := f.heading.(state := Pick(s, was, b).0)))
  {
    DecisionIsPick(s, was, b);
    FieldOps(f.heading, b);
    hide FoldRecords, ApplyField, Pick, Decide, When;
    FoldWhen(f, Decide(s, was, b).Take?, "state", b, f.heading.(state := Pick(s, was, b).0), read);
  }

  lemma PriorityTaken(f: Folded, s: char, was: char, b: char, read: Reader)
    requires f.heading.priority == was && !Decide(s, was, b).Refuse?
    ensures FoldRecords(f, When(Decide(s, was, b).Take?, "priority", [b]), read)
         == Some(f.(heading := f.heading.(priority := Pick(s, was, b).0)))
  {
    DecisionIsPick(s, was, b);
    FieldOps(f.heading, [b]);
    hide FoldRecords, ApplyField, Pick, Decide, When;
    FoldWhen(f, Decide(s, was, b).Take?, "priority", [b], f.heading.(priority := Pick(s, was, b).0), read);
  }

  lemma TitleTaken(f: Folded, s: string, was: string, b: string, read: Reader)
    requires f.heading.title == was && !Decide(s, was, b).Refuse?
    ensures FoldRecords(f, When(Decide(s, was, b).Take?, "title", b), read) == Some(f.(heading := f.heading.(title := Pick(s, was, b).0)))
  {
    DecisionIsPick(s, was, b);
    FieldOps(f.heading, b);
    hide FoldRecords, ApplyField, Pick, Decide, When;
    FoldWhen(f, Decide(s, was, b).Take?, "title", b, f.heading.(title := Pick(s, was, b).0), read);
  }

  lemma StatisticsTaken(f: Folded, s: Option<string>, was: Option<string>, b: Option<string>, read: Reader)
    requires f.heading.statistics == was && !Decide(s, was, b).Refuse? && (was != b ==> b != Some(""))
    ensures FoldRecords(f, When(Decide(s, was, b).Take?, "statistics", b.GetOr("")), read)
         == Some(f.(heading := f.heading.(statistics := Pick(s, was, b).0)))
  {
    DecisionIsPick(s, was, b);
    FieldOps(f.heading, b.GetOr(""));
    assert Decide(s, was, b).Take? ==> was != b;
    hide FoldRecords, ApplyField, Pick, Decide, When;
    FoldWhen(f, Decide(s, was, b).Take?, "statistics", b.GetOr(""), f.heading.(statistics := Pick(s, was, b).0), read);
  }

  lemma TagsTaken(f: Folded, s: seq<string>, was: seq<string>, b: seq<string>, read: Reader)
    requires f.heading.orgTags == was && !Decide(s, was, b).Refuse?
    requires was != b ==> forall t :: t in b ==> PlainLine(t) && t != ""
    ensures FoldRecords(f, When(Decide(s, was, b).Take?, "org-tags", JoinNl(b)), read)
         == Some(f.(heading := f.heading.(orgTags := Pick(s, was, b).0)))
  {
    DecisionIsPick(s, was, b);
    FieldOps(f.heading, JoinNl(b));
    assert Decide(s, was, b).Take? ==> was != b;
    hide FoldRecords, ApplyField, Pick, Decide, When, PlainLine, LinesOf, JoinNl;
    if Decide(s, was, b).Take? { TagsReadBack(b); }
    FoldWhen(f, Decide(s, was, b).Take?, "org-tags", JoinNl(b), f.heading.(orgTags := Pick(s, was, b).0), read);
  }

  lemma TextsTaken(f: Folded, s: Heading, was: Heading, b: Heading, read: Reader)
    requires f.heading.extraDrawers == was.extraDrawers && f.heading.body == was.body
    requires !Decide(s.extraDrawers, was.extraDrawers, b.extraDrawers).Refuse? && !Decide(s.body, was.body, b.body).Refuse?
    requires was.extraDrawers != b.extraDrawers ==> forall d :: d in b.extraDrawers ==> WellFormedDrawer(d)
    ensures FoldRecords(f, QueuedTexts(s, was, b), read)
      == Some(f.(heading := f.heading.(extraDrawers := Pick(s.extraDrawers, was.extraDrawers, b.extraDrawers).0,
                                       body := Pick(s.body, was.body, b.body).0)))
  {
    var (d1, d2) := (Decide(s.extraDrawers, was.extraDrawers, b.extraDrawers).Take?, Decide(s.body, was.body, b.body).Take?);
    DecisionIsPick(s.extraDrawers, was.extraDrawers, b.extraDrawers);
    DecisionIsPick(s.body, was.body, b.body);
    assert d1 ==> was.extraDrawers != b.extraDrawers;
    hide FoldRecords, ApplyField, WellFormedDrawer, LinesOf, SplitDrawers, Pick, Decide;
    var h1 := if d1 then f.heading.(extraDrawers := b.extraDrawers) else f.heading;
    var h2 := if d2 then h1.(body := b.body) else h1;
    FieldOps(f.heading, ConcatAll(b.extraDrawers));
    if was.extraDrawers != b.extraDrawers { DrawersReadBack(b.extraDrawers); }
    FieldOps(h1, b.body);
    FoldWhen(f, d1, "drawers", ConcatAll(b.extraDrawers), h1, read);
    FoldWhen(f.(heading := h1), d2, "body", b.body, h2, read);
    FoldRecordsConcat(f, When(d1, "drawers", ConcatAll(b.extraDrawers)), When(d2, "body", b.body), read);
  }

  function AfterQueued(x: string, keys: seq<string>, s: Table, f: Table, b: Table, before: Table): Option<string> {
    if x in keys && PropDecision(x, s, f, b).Take? then Get(b, x) else Get(before, x)
  }

  lemma PropTaken(f: Folded, k: string, decision: Decision, value: Option<string>, read: Reader) returns (g: Folded)
    requires OneLine(k)
    ensures FoldRecords(f, QueuedProp(k, decision, value), read) == Some(g)
    ensures OnlyProperties(f, g)
    ensures forall x :: Get(g.heading.properties, x) ==
                        if x == k && decision.Take? then value else Get(f.heading.properties, x)
  {
    hide Apply, EncodeOne, OneLine;
    FoldNone(f, read);
    if decision.Take? && value.Some? {
      var r := Record("prop", k + "\n" + value.value);
      FoldOne(f, r, read);
      PropOps(f, k, value.value, EncodeOne(r), read);
      g := f.(heading := SetProperty(f.heading, k, value.value));
    } else if decision.Take? {
      var r := Record("prop-del", k);
      FoldOne(f, r, read);
      PropOps(f, k, "", EncodeOne(r), read);
      g := f.(heading := DropProperty(f.heading, k));
    } else {
      g := f;
    }
  }

  lemma {:induction false} PropsTaken(f: Folded, keys: seq<string>, s: Table, was: Table, b: Table, read: Reader) returns (g: Folded)
    requires forall k :: k in keys ==> OneLine(k)
    ensures FoldRecords(f, QueuedProps(keys, s, was, b), read) == Some(g)
    ensures OnlyProperties(f, g)
    ensures forall x :: Get(g.heading.properties, x) == AfterQueued(x, keys, s, was, b, f.heading.properties)
    decreases |keys|
  {
    if keys == [] {
      FoldNone(f, read);
      g := f;
    } else {
      hide FoldRecords, QueuedProp, OneLine, PropDecision;
      var k := keys[0];
      assert k in keys && keys == [k] + keys[1..];
      var h := PropTaken(f, k, PropDecision(k, s, was, b), Get(b, k), read);
      g := PropsTaken(h, keys[1..], s, was, b, read);
      FoldRecordsConcat(f, QueuedProp(k, PropDecision(k, s, was, b), Get(b, k)), QueuedProps(keys[1..], s, was, b), read);
    }
  }

  lemma {:induction false} MissingRead(board: seq<LogEntry>, folded: seq<LogEntry>)
    requires forall e :: e in board ==> LogLine.ReadEntry(e)
    ensures forall e :: e in Missing(board, folded) ==> LogLine.ReadEntry(e)
    ensures forall e :: e in board ==> e in Missing(board, folded) + folded
  {
    hide LogLine.ReadEntry;
    if board != [] {
      MissingRead(board[1..], folded);
      assert board == [board[0]] + board[1..];
      assert board[0] in board;
    }
  }

  lemma {:induction false} NothingMissing(board: seq<LogEntry>, folded: seq<LogEntry>)
    requires forall e :: e in board ==> e in folded
    ensures Missing(board, folded) == []
  {
    if board != [] {
      assert board[0] in board;
      NothingMissing(board[1..], folded);
    }
  }

  lemma MissingOfRead(board: seq<LogEntry>, folded: seq<LogEntry>)
    requires folded != board ==> forall e :: e in board ==> LogLine.ReadEntry(e)
    ensures forall e :: e in Missing(board, folded) ==> LogLine.ReadEntry(e)
    ensures forall e :: e in board ==> e in Missing(board, folded) + folded
  {
    hide LogLine.ReadEntry;
    if folded == board {
      NothingMissing(board, folded);
    } else {
      MissingRead(board, folded);
    }
  }

  /**
   What a catch-up queues folds to the three-way pick of every field, with no
   ledger log line lost and every board log line there.
   */
  lemma CatchUpIsPick(f: Folded, s: Heading, b: Heading, read: Reader) returns (g: Folded)
    requires Queued(s, f.heading, b).Some? && CarriedOver(f.heading, b)
    requires forall k :: k in PropKeys(s, f.heading, b) ==> OneLine(k)
    ensures FoldRecords(f, Queued(s, f.heading, b).value, read) == Some(g)
    ensures g == f.(heading := CaughtUp(s, f.heading, b, g.heading.properties).(propertyOrder := g.heading.propertyOrder))
    ensures PickedTable(g.heading.properties, s.properties, f.heading.properties, b.properties)
    ensures forall e :: e in f.heading.logbook || e in b.logbook ==> e in g.heading.logbook
  {
    var h := f.heading;
    hide FoldRecords, WellFormedDrawer, LogLine.ReadEntry, PlainLine, OneLine, QueuedScalars, QueuedTexts, QueuedProps,
      LogRecords, Pick, Decide, PropKeys, CaughtUp;
    ScalarsTaken(f, s, b, read);
    var f1 := f.(heading := h.(state := Pick(s.state, h.state, b.state).0,
                               priority := Pick(s.priority, h.priority, b.priority).0,
                               title := Pick(s.title, h.title, b.title).0,
                               statistics := Pick(s.statistics, h.statistics, b.statistics).0,
                               orgTags := Pick(s.orgTags, h.orgTags, b.orgTags).0));
    var f2 := PropsTaken(f1, PropKeys(s, h, b), s.properties, h.properties, b.properties, read);
    TextsTaken(f2, s, h, b, read);
    var f3 := f2.(heading := f2.heading.(extraDrawers := Pick(s.extraDrawers, h.extraDrawers, b.extraDrawers).0,
                                         body := Pick(s.body, h.body, b.body).0));
    MissingOfRead(b.logbook, h.logbook);
    FoldLogRecords(f3, Missing(b.logbook, h.logbook), read);
    g := f3.(heading := f3.heading.(logbook := Missing(b.logbook, h.logbook) + h.logbook));
    QueuedFour(f, s, b, read, f1, f2, f3, g);
    TableIsPicked(g.heading.properties, s, h, b);
    IsCaughtUp(f, s, b, g);
  }

  lemma IsCaughtUp(f: Folded, s: Heading, b: Heading, g: Folded)
    requires var h := f.heading;
      && g.tombstoned == f.tombstoned && g.unknown == f.unknown
      && g.heading == h.(state := Pick(s.state, h.state, b.state).0,
                         priority := Pick(s.priority, h.priority, b.priority).0,
                         title := Pick(s.title, h.title, b.title).0,
                         statistics := Pick(s.statistics, h.statistics, b.statistics).0,
                         orgTags := Pick(s.orgTags, h.orgTags, b.orgTags).0,
                         properties := g.heading.properties, propertyOrder := g.heading.propertyOrder,
                         extraDrawers := Pick(s.extraDrawers, h.extraDrawers, b.extraDrawers).0,
                         body := Pick(s.body, h.body, b.body).0,
                         logbook := Missing(b.logbook, h.logbook) + h.logbook)
    ensures g == f.(heading := CaughtUp(s, f.heading, b, g.heading.properties).(propertyOrder := g.heading.propertyOrder))
  {
    hide Pick;
  }

  lemma QueuedFour(f: Folded, s: Heading, b: Heading, read: Reader, f1: Folded, f2: Folded, f3: Folded, g: Folded)
    requires Queued(s, f.heading, b).Some?
    requires FoldRecords(f, QueuedScalars(s, f.heading, b), read) == Some(f1)
    requires FoldRecords(f1, QueuedProps(PropKeys(s, f.heading, b), s.properties, f.heading.properties, b.properties), read) == Some(f2)
    requires FoldRecords(f2, QueuedTexts(s, f.heading, b), read) == Some(f3)
    requires FoldRecords(f3, LogRecords(Missing(b.logbook, f.heading.logbook)), read) == Some(g)
    ensures FoldRecords(f, Queued(s, f.heading, b).value, read) == Some(g)
  {
    hide FoldRecords, QueuedScalars, QueuedTexts, QueuedProps, LogRecords, PropKeys, Missing, Decide;
    var h := f.heading;
    var (r1, r2, r3, r4) := (QueuedScalars(s, h, b),
                             QueuedProps(PropKeys(s, h, b), s.properties, h.properties, b.properties),
                             QueuedTexts(s, h, b), LogRecords(Missing(b.logbook, h.logbook)));
    FoldRecordsConcat(f, r1, r2, read);
    FoldRecordsConcat(f, r1 + r2, r3, read);
    FoldRecordsConcat(f, r1 + r2 + r3, r4, read);
  }

  lemma InPropKeys(k: string, s: Heading, f: Heading, b: Heading)
    ensures k in PropKeys(s, f, b) <==> k != "ID" && (k in s.properties || k in f.properties || k in b.properties)
  {
    var keys := PropKeys(s, f, b);
    assert k in keys <==> k in Elems(keys);
  }

  lemma TableIsPicked(table: Table, s: Heading, f: Heading, b: Heading)
    requires !Refused(s, f, b)
    requires forall x :: Get(table, x) == AfterQueued(x, PropKeys(s, f, b), s.properties, f.properties, b.properties, f.properties)
    ensures PickedTable(table, s.properties, f.properties, b.properties)
  {
    hide PropKeys;
    forall k ensures Get(table, k) == if k == "ID" then Get(f.properties, k)
                                      else Pick(Get(s.properties, k), Get(f.properties, k), Get(b.properties, k)).0 {
      InPropKeys(k, s, f, b);
      DecisionIsPick(Get(s.properties, k), Get(f.properties, k), Get(b.properties, k));
    }
  }

  /// A catch-up is refused exactly when some field was moved apart, which is
  /// when the three-way pick of it clashes.
  lemma RefusedIsClash(s: Heading, f: Heading, b: Heading)
    ensures Queued(s, f, b).None? <==>
      || Pick(s.state, f.state, b.state).1
      || Pick(s.priority, f.priority, b.priority).1
      || Pick(s.title, f.title, b.title).1
      || Pick(s.statistics, f.statistics, b.statistics).1
      || Pick(s.orgTags, f.orgTags, b.orgTags).1
      || Pick(s.extraDrawers, f.extraDrawers, b.extraDrawers).1
      || Pick(s.body, f.body, b.body).1
      || exists k :: k in s.properties.Keys + f.properties.Keys + b.properties.Keys && k != "ID"
           && Pick(Get(s.properties, k), Get(f.properties, k), Get(b.properties, k)).1
  {
    DecisionIsPick(s.state, f.state, b.state);
    DecisionIsPick(s.priority, f.priority, b.priority);
    DecisionIsPick(s.title, f.title, b.title);
    DecisionIsPick(s.statistics, f.statistics, b.statistics);
    DecisionIsPick(s.orgTags, f.orgTags, b.orgTags);
    DecisionIsPick(s.extraDrawers, f.extraDrawers, b.extraDrawers);
    DecisionIsPick(s.body, f.body, b.body);
    hide Pick, Decide, PropKeys, QueuedScalars, QueuedTexts, QueuedProps, LogRecords, Missing;
    RefusedProps(s, f, b);
  }

  lemma RefusedProps(s: Heading, f: Heading, b: Heading)
    ensures (exists k :: k in PropKeys(s, f, b) && PropDecision(k, s.properties, f.properties, b.properties).Refuse?)
      <==> exists k :: k in s.properties.Keys + f.properties.Keys + b.properties.Keys && k != "ID"
             && Pick(Get(s.properties, k), Get(f.properties, k), Get(b.properties, k)).1
  {
    hide PropKeys, Pick, Decide, Get;
    forall k ensures k in PropKeys(s, f, b) && PropDecision(k, s.properties, f.properties, b.properties).Refuse?
      <==> k in s.properties.Keys + f.properties.Keys + b.properties.Keys && k != "ID"
           && Pick(Get(s.properties, k), Get(f.properties, k), Get(b.properties, k)).1
    {
      InPropKeys(k, s, f, b);
      DecisionIsPick(Get(s.properties, k), Get(f.properties, k), Get(b.properties, k));
    }
  }

  lemma {:induction false} NoProps(keys: seq<string>, s: Table, f: Table, b: Table)
    requires forall k :: k in keys ==> PropDecision(k, s, f, b).Leave?
    ensures QueuedProps(keys, s, f, b) == []
  {
    hide PropDecision;
    if keys != [] {
      assert keys[0] in keys;
      NoProps(keys[1..], s, f, b);
    }
  }

  /// A second catch-up on the same board has nothing to write.
  lemma SecondCatchUpQueuesNothing(f: Folded, s: Heading, b: Heading, g: Folded)
    requires Queued(s, f.heading, b).Some?
    requires g == f.(heading := CaughtUp(s, f.heading, b, g.heading.properties).(propertyOrder := g.heading.propertyOrder))
    requires PickedTable(g.heading.properties, s.properties, f.heading.properties, b.properties)
    requires forall e :: e in b.logbook ==> e in g.heading.logbook
    ensures Queued(s, g.heading, b) == Some([])
  {
    var (h, x) := (f.heading, g.heading);
    DecisionIsPick(s.state, h.state, b.state);
    DecisionIsPick(s.priority, h.priority, b.priority);
    DecisionIsPick(s.title, h.title, b.title);
    DecisionIsPick(s.statistics, h.statistics, b.statistics);
    DecisionIsPick(s.orgTags, h.orgTags, b.orgTags);
    DecisionIsPick(s.extraDrawers, h.extraDrawers, b.extraDrawers);
    DecisionIsPick(s.body, h.body, b.body);
    hide PropKeys, Pick, Decide, QueuedProps, JoinNl, ConcatAll;
    SettledTable(s, h, b, x);
    NoProps(PropKeys(s, x, b), s.properties, x.properties, b.properties);
    NothingMissing(b.logbook, x.logbook);
    assert !Refused(s, x, b);
    assert QueuedScalars(s, x, b) == [] && QueuedTexts(s, x, b) == [];
    assert LogRecords([]) == [];
  }

  lemma SettledTable(s: Heading, h: Heading, b: Heading, x: Heading)
    requires !Refused(s, h, b)
    requires PickedTable(x.properties, s.properties, h.properties, b.properties)
    ensures forall k :: k in PropKeys(s, x, b) ==> PropDecision(k, s.properties, x.properties, b.properties).Leave?
  {
    hide PropKeys, Pick, Decide, Get;
    forall k | k in PropKeys(s, x, b) ensures PropDecision(k, s.properties, x.properties, b.properties).Leave? {
      InPropKeys(k, s, x, b);
      InPropKeys(k, s, h, b);
      PickNone();
      DecisionIsPick(Get(s.properties, k), Get(h.properties, k), Get(b.properties, k));
      if k in PropKeys(s, h, b) {
        assert !PropDecision(k, s.properties, h.properties, b.properties).Refuse?;
      } else {
        NoneAnywhere(k, s, h, b);
      }
    }
  }

  lemma PickNone()
    ensures Decide<Option<string>>(None, None, None) == Leave && Pick<Option<string>>(None, None, None) == (None, false)
  {
  }

  lemma NoneAnywhere(k: string, s: Heading, f: Heading, b: Heading)
    requires k !in s.properties && k !in f.properties && k !in b.properties
    ensures Get(s.properties, k) == Get(f.properties, k) == Get(b.properties, k) == None
  {
  }
}
