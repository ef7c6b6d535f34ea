/**
 The three-way merge of a whole tracker file (`merge_tracker`,
 `crates/vissue-core/src/merge.rs`). `render` is the text of a heading, which
 the merge only compares.
 */
module MergeFile {
  import opened Base
  import opened Order
  import opened Issue
  import opened MergeSets
  import opened MergeLog
  import opened MergeDrawers
  import opened DrawerLaws
  import opened Merge
  import opened MergeLaws
  import opened MergeAgain
  import opened MergeTie

  type Doc = seq<Site>

  function Ids(doc: Doc): seq<string> {
    seq(|doc|, i requires 0 <= i < |doc| => doc[i].heading.id)
  }

  function Index(doc: Doc): map<string, Site> {
    if doc == [] then map[] else Index(doc[..|doc| - 1])[doc[|doc| - 1].heading.id := doc[|doc| - 1]]
  }

  // ---- the order of the merged file ----

  /// First position of `x`, or the length.
  function Position(order: seq<string>, x: string): (n: nat)
    ensures n <= |order|
    ensures n < |order| ==> order[n] == x
    ensures n == |order| <==> x !in order
  {
    if order == [] || order[0] == x then 0 else 1 + Position(order[1..], x)
  }

  /// First position from the front that ours did not add.
  function PastNew(order: seq<string>, oursNew: set<string>): (n: nat)
    ensures n <= |order|
    ensures forall i :: 0 <= i < n ==> order[i] in oursNew
    ensures n < |order| ==> order[n] !in oursNew
  {
    if order == [] || order[0] !in oursNew then 0 else 1 + PastNew(order[1..], oursNew)
  }

  /// Where a heading only theirs has goes: past its predecessor in theirs and
  /// past what ours added there, or at the end.
  function Slot(order: seq<string>, previous: Option<string>, oursNew: set<string>): (n: nat)
    ensures n <= |order|
  {
    if previous.Some? && previous.value in order then
      var at := Position(order, previous.value) + 1;
      at + PastNew(order[at..], oursNew)
    else |order|
  }

  function PlaceTheirs(order: seq<string>, previous: Option<string>, theirs: seq<string>, oursNew: set<string>): seq<string>
    decreases |theirs|
  {
    if theirs == [] then order
    else
      var id := theirs[0];
      var at := Slot(order, previous, oursNew);
      PlaceTheirs(if id in order then order else order[..at] + [id] + order[at..], Some(id), theirs[1..], oursNew)
  }

  function OursNew(o: Doc, a: Doc, b: Doc): set<string> {
    Elems(Ids(a)) - Elems(Ids(o)) - Elems(Ids(b))
  }

  function MergedIds(o: Doc, a: Doc, b: Doc): seq<string> {
    PlaceTheirs(Ids(a), None, Ids(b), OursNew(o, a, b))
  }

  lemma InsertElems<T>(s: seq<T>, at: nat, x: T)
    requires at <= |s|
    ensures Elems(s[..at] + [x] + s[at..]) == Elems(s) + {x}
  {
    assert s == s[..at] + s[at..];
    ElemsConcat(s[..at], s[at..]);
    ElemsConcat(s[..at], [x]);
    ElemsConcat(s[..at] + [x], s[at..]);
  }

  lemma InsertDistinct<T>(s: seq<T>, at: nat, x: T)
    requires at <= |s| && Distinct(s) && x !in s
    ensures Distinct(s[..at] + [x] + s[at..])
  {
  }

  lemma {:induction false} PlaceTheirsFacts(order: seq<string>, previous: Option<string>, theirs: seq<string>, oursNew: set<string>)
    requires Distinct(order)
    ensures var r := PlaceTheirs(order, previous, theirs, oursNew);
      && Distinct(r) && Elems(r) == Elems(order) + Elems(theirs) && Subsequence(order, r)
    decreases |theirs|
  {
    if theirs == [] {
      SubsequenceSelf(order);
    } else {
      var id := theirs[0];
      var at := Slot(order, previous, oursNew);
      var next := if id in order then order else order[..at] + [id] + order[at..];
      assert theirs == [id] + theirs[1..];
      ElemsConcat([id], theirs[1..]);
      SubsequenceSelf(order);
      if id !in order {
        InsertElems(order, at, id);
        InsertDistinct(order, at, id);
        SubsequenceInsert(order, order, at, id);
      }
      PlaceTheirsFacts(next, Some(id), theirs[1..], oursNew);
      SubsequenceTransitive(order, next, PlaceTheirs(next, Some(id), theirs[1..], oursNew));
    }
  }

  lemma {:induction false} SubsequenceTransitive<T>(s: seq<T>, t: seq<T>, u: seq<T>)
    requires Subsequence(s, t) && Subsequence(t, u)
    ensures Subsequence(s, u)
    decreases |u|
  {
    if s != [] {
      if t[0] == u[0] && Subsequence(t[1..], u[1..]) {
        if s[0] == t[0] && Subsequence(s[1..], t[1..]) {
          SubsequenceTransitive(s[1..], t[1..], u[1..]);
        } else {
          SubsequenceTransitive(s, t[1..], u[1..]);
        }
      } else {
        SubsequenceTransitive(s, t, u[1..]);
      }
    }
  }

  /// `x` comes before `y`.
  predicate Before(order: seq<string>, x: string, y: string) {
    exists i, j :: 0 <= i < j < |order| && order[i] == x && order[j] == y
  }

  lemma InsertKeepsBefore(order: seq<string>, at: nat, id: string, x: string, y: string)
    requires at <= |order| && Before(order, x, y)
    ensures Before(order[..at] + [id] + order[at..], x, y)
  {
    var r := order[..at] + [id] + order[at..];
    var i, j :| 0 <= i < j < |order| && order[i] == x && order[j] == y;
    var (i', j') := (if i < at then i else i + 1, if j < at then j else j + 1);
    assert r[i'] == x && r[j'] == y;
  }

  lemma {:induction false} PlaceTheirsKeepsBefore(order: seq<string>, previous: Option<string>, theirs: seq<string>,
                                                   oursNew: set<string>, x: string, y: string)
    requires Before(order, x, y)
    ensures Before(PlaceTheirs(order, previous, theirs, oursNew), x, y)
    decreases |theirs|
  {
    if theirs != [] {
      var id := theirs[0];
      var at := Slot(order, previous, oursNew);
      if id !in order {
        InsertKeepsBefore(order, at, id, x, y);
      }
      PlaceTheirsKeepsBefore(if id in order then order else order[..at] + [id] + order[at..], Some(id), theirs[1..], oursNew, x, y);
    }
  }

  /// Each heading only theirs has ends up after its predecessor in theirs.
  lemma {:induction false} PlacedAfterPredecessor(order: seq<string>, previous: Option<string>, theirs: seq<string>,
                                                   oursNew: set<string>, k: nat)
    requires k < |theirs| && theirs[k] !in order && Distinct(theirs)
    requires k == 0 ==> previous.Some? && previous.value in order
    ensures Before(PlaceTheirs(order, previous, theirs, oursNew), if k == 0 then previous.value else theirs[k - 1], theirs[k])
    decreases |theirs|
  {
    var id := theirs[0];
    var at := Slot(order, previous, oursNew);
    var next := if id in order then order else order[..at] + [id] + order[at..];
    if k == 0 {
      var i := Position(order, previous.value);
      assert next[i] == previous.value && next[at] == id;
      assert Before(next, previous.value, id);
      PlaceTheirsKeepsBefore(next, Some(id), theirs[1..], oursNew, previous.value, id);
    } else {
      assert theirs[k] != id;
      assert id in next by { if id !in order { assert next[at] == id; } }
      InsertElems(order, at, id);
      assert theirs[k] !in next by {
        assert theirs[k] in next <==> theirs[k] in Elems(next);
        assert theirs[k] in order <==> theirs[k] in Elems(order);
      }
      PlacedAfterPredecessor(next, Some(id), theirs[1..], oursNew, k - 1);
    }
  }

  /// Between a heading that is placed after its predecessor and that
  /// predecessor there is nothing but what ours added.
  lemma SlotIsNextToPredecessor(order: seq<string>, previous: string, oursNew: set<string>)
    requires previous in order
    ensures var (p, at) := (Position(order, previous), Slot(order, Some(previous), oursNew));
      && p < at
      && (forall i :: p < i < at ==> order[i] in oursNew)
      && (at < |order| ==> order[at] !in oursNew)
  {
    hide Position, PastNew;
    var p := Position(order, previous);
    var n := PastNew(order[p + 1..], oursNew);
    forall i | p < i < p + 1 + n ensures order[i] in oursNew {
      assert order[p + 1..][i - p - 1] == order[i];
    }
  }

  /**
   The order of the merged ids: no id twice, every id of either side, ours in
   ours' order, and a heading only theirs has after its predecessor in theirs.
   */
  lemma MergedOrderHolds(o: Doc, a: Doc, b: Doc)
    requires Distinct(Ids(a)) && Distinct(Ids(b))
    ensures var r := MergedIds(o, a, b);
      && Distinct(r)
      && Elems(r) == Elems(Ids(a)) + Elems(Ids(b))
      && Subsequence(Ids(a), r)
      && forall k :: 0 < k < |b| && Ids(b)[k] !in Ids(a) ==> Before(r, Ids(b)[k - 1], Ids(b)[k])
  {
    PlaceTheirsFacts(Ids(a), None, Ids(b), OursNew(o, a, b));
    forall k | 0 < k < |b| && Ids(b)[k] !in Ids(a)
      ensures Before(MergedIds(o, a, b), Ids(b)[k - 1], Ids(b)[k])
    {
      PlacedAfterPredecessor(Ids(a), None, Ids(b), OursNew(o, a, b), k);
    }
  }

  method PlaceAll(o: Doc, a: Doc, b: Doc) returns (order: seq<string>)
    ensures order == MergedIds(o, a, b)
  {
    order := Ids(a);
    var oursNew := OursNew(o, a, b);
    var theirs := Ids(b);
    var previous := None;
    for i := 0 to |theirs|
      invariant PlaceTheirs(order, previous, theirs[i..], oursNew) == MergedIds(o, a, b)
    {
      var id := theirs[i];
      assert theirs[i..][0] == id && theirs[i..][1..] == theirs[i + 1..];
      if id !in order {
        var at := |order|;
        if previous.Some? && previous.value in order {
          at := Position(order, previous.value) + 1;
        }
        ghost var from := at;
        while at < |order| && order[at] in oursNew
          invariant from <= at <= |order|
          invariant at + PastNew(order[at..], oursNew) == from + PastNew(order[from..], oursNew)
        {
          at := at + 1;
        }
        assert at == Slot(order, previous, oursNew);
        order := order[..at] + [id] + order[at..];
      }
      previous := Some(id);
    }
  }

  // ---- one id of the merged file ----

  function Newest(log: seq<LogEntry>): string {
    if log == [] then ""
    else
      var rest := Newest(log[1..]);
      if Less(rest, log[0].timestamp) then log[0].timestamp else rest
  }

  datatype Outcome = Outcome(site: Option<Site>, conflicts: nat)

  function ConflictKept(x: Site, now: string): Site {
    var note := ConflictNote("the heading was removed on one side and changed on the other; kept it", now);
    x.(heading := x.heading.(logbook := [note] + x.heading.logbook))
  }

  predicate Untouched(base: Site, kept: Site, render: Heading -> string) {
    render(kept.heading) == render(base.heading) && kept.tail == base.tail
  }

  function MergedAt(o: Option<Site>, a: Option<Site>, b: Option<Site>, render: Heading -> string, now: string): Outcome {
    match (o, a, b)
    case (None, Some(x), None) => Outcome(Some(x), 0)
    case (None, None, Some(x)) => Outcome(Some(x), 0)
    case (Some(base), Some(ours), Some(theirs)) =>
      var (m, n) := MergedSite(base, ours, theirs, now);
      Outcome(Some(m), n)
    case (None, Some(ours), Some(theirs)) =>
      var base := if Less(Newest(ours.heading.logbook), Newest(theirs.heading.logbook)) then ours else theirs;
      var (m, n) := MergedSite(base, ours, theirs, now);
      Outcome(Some(m), n)
    case (Some(base), Some(kept), None) => MergedRemoval(base, kept, render, now)
    case (Some(base), None, Some(kept)) => MergedRemoval(base, kept, render, now)
    case (_, None, None) => Outcome(None, 0)
  }

  function MergedRemoval(base: Site, kept: Site, render: Heading -> string, now: string): Outcome {
    if Untouched(base, kept, render) then Outcome(None, 0)
    else Outcome(Some(ConflictKept(kept, now)), 1)
  }

  type Sites = map<string, Site>

  function MergedIdAt(id: string, o: Sites, a: Sites, b: Sites, render: Heading -> string, now: string): Outcome {
    MergedAt(Get(o, id), Get(a, id), Get(b, id), render, now)
  }

  function Outcomes(ids: seq<string>, o: Sites, a: Sites, b: Sites, render: Heading -> string, now: string): seq<Outcome> {
    seq(|ids|, i requires 0 <= i < |ids| => MergedIdAt(ids[i], o, a, b, render, now))
  }

  function KeptSites(outcomes: seq<Outcome>): Doc {
    if outcomes == [] then []
    else (match outcomes[0].site case Some(x) => [x] case None => []) + KeptSites(outcomes[1..])
  }

  function Conflicts(outcomes: seq<Outcome>): nat {
    if outcomes == [] then 0 else outcomes[0].conflicts + Conflicts(outcomes[1..])
  }

  datatype Tracker = Tracker(preamble: string, doc: Doc)

  function FileOutcomes(o: Doc, a: Doc, b: Doc, render: Heading -> string, now: string): seq<Outcome> {
    Outcomes(MergedIds(o, a, b), Index(o), Index(a), Index(b), render, now)
  }

  function MergedTracker(o: Tracker, a: Tracker, b: Tracker, render: Heading -> string, now: string): (Tracker, nat) {
    var (preamble, clash) := Pick(o.preamble, a.preamble, b.preamble);
    var outcomes := FileOutcomes(o.doc, a.doc, b.doc, render, now);
    (Tracker(preamble, KeptSites(outcomes)), (if clash then 1 else 0) + Conflicts(outcomes))
  }

  method MergeTracker(o: Tracker, a: Tracker, b: Tracker, render: Heading -> string, now: string)
    returns (merged: Tracker, conflicts: nat)
    ensures (merged, conflicts) == MergedTracker(o, a, b, render, now)
  {
    hide MergedAt, Index, MergedIds;
    conflicts := 0;
    var (preamble, clash) := Pick(o.preamble, a.preamble, b.preamble);
    if clash {
      conflicts := conflicts + 1;
    }
    ghost var before := conflicts;
    var oi, ai, bi := Index(o.doc), Index(a.doc), Index(b.doc);
    var order := PlaceAll(o.doc, a.doc, b.doc);
    ghost var outcomes := Outcomes(order, oi, ai, bi, render, now);
    var headings: Doc := [];
    assert outcomes[0..] == outcomes;
    hide KeptSites, Conflicts;
    for i := 0 to |order|
      invariant headings + KeptSites(outcomes[i..]) == KeptSites(outcomes)
      invariant conflicts + Conflicts(outcomes[i..]) == before + Conflicts(outcomes)
    {
      NextOutcome(headings, outcomes, i);
      assert outcomes[i] == MergedAt(Get(oi, order[i]), Get(ai, order[i]), Get(bi, order[i]), render, now);
      var kept;
      kept, conflicts := MergeId(Get(oi, order[i]), Get(ai, order[i]), Get(bi, order[i]), render, now, conflicts);
      if kept.Some? {
        headings := headings + [kept.value];
      }
    }
    NoOutcomes(headings, outcomes);
    merged := Tracker(preamble, headings);
  }

  lemma NextOutcome(headings: Doc, outcomes: seq<Outcome>, i: nat)
    requires i < |outcomes|
    ensures headings + KeptSites(outcomes[i..])
         == (if outcomes[i].site.Some? then headings + [outcomes[i].site.value] else headings) + KeptSites(outcomes[i + 1..])
    ensures Conflicts(outcomes[i..]) == outcomes[i].conflicts + Conflicts(outcomes[i + 1..])
  {
    assert outcomes[i..][0] == outcomes[i] && outcomes[i..][1..] == outcomes[i + 1..];
  }

  lemma NoOutcomes(headings: Doc, outcomes: seq<Outcome>)
    ensures headings + KeptSites(outcomes[|outcomes|..]) == headings && Conflicts(outcomes[|outcomes|..]) == 0
  {
    assert outcomes[|outcomes|..] == [];
  }

  method MergeId(o: Option<Site>, a: Option<Site>, b: Option<Site>, render: Heading -> string, now: string, conflicts: nat)
    returns (kept: Option<Site>, count: nat)
    ensures count >= conflicts && Outcome(kept, count - conflicts) == MergedAt(o, a, b, render, now)
  {
    hide MergedSite;
    kept, count := None, conflicts;
    if o.None? && (a.None? || b.None?) {
      kept := if a.Some? then a else b;
    } else if a.Some? && b.Some? {
      var base := if o.Some? then o.value
                  else if Less(Newest(a.value.heading.logbook), Newest(b.value.heading.logbook)) then a.value
                  else b.value;
      var m;
      m, count := MergeOne(base, a.value, b.value, now, conflicts);
      kept := Some(m);
    } else if a.Some? || b.Some? {
      var x := if a.Some? then a.value else b.value;
      if !Untouched(o.value, x, render) {
        kept, count := Some(ConflictKept(x, now)), conflicts + 1;
      }
    }
  }

  // ---- membership ----

  lemma MergedSiteId(o: Site, a: Site, b: Site, now: string)
    ensures MergedSite(o, a, b, now).0.heading.id == a.heading.id
  {
    hide Scalar, MergedState, MergedPriority, MergedStatistics, MergedProperties, MergedTags, MergedOrder, MergedLog,
      MergedDrawers, PropertyClashes, Sorted, ClashNotes, ClashText, DropDrawers;
  }

  lemma {:induction false} IndexFacts(doc: Doc)
    ensures forall id :: id in Index(doc) <==> id in Ids(doc)
    ensures forall id :: id in Index(doc) ==> Index(doc)[id] in doc && Index(doc)[id].heading.id == id
    decreases |doc|
  {
    if doc != [] {
      var front := doc[..|doc| - 1];
      IndexFacts(front);
      assert Ids(doc) == Ids(front) + [doc[|doc| - 1].heading.id];
      forall id ensures id in Ids(doc) <==> id in Ids(front) || id == doc[|doc| - 1].heading.id {}
    }
  }

  /// An id is gone exactly when the base had it, and each side either removed
  /// it or left it as it was, at least one having removed it.
  predicate GoneAt(o: Option<Site>, a: Option<Site>, b: Option<Site>, render: Heading -> string) {
    && o.Some?
    && (a.None? || b.None?)
    && (a.Some? ==> Untouched(o.value, a.value, render))
    && (b.Some? ==> Untouched(o.value, b.value, render))
  }

  lemma MergedAtFacts(id: string, o: Option<Site>, a: Option<Site>, b: Option<Site>, render: Heading -> string, now: string)
    requires a.Some? || b.Some?
    requires (a.Some? ==> a.value.heading.id == id) && (b.Some? ==> b.value.heading.id == id)
    ensures var r := MergedAt(o, a, b, render, now);
      && (r.site.None? <==> GoneAt(o, a, b, render))
      && (r.site.Some? ==> r.site.value.heading.id == id)
  {
    hide MergedSite, Newest;
    if a.Some? && b.Some? {
      MergedSiteId(if o.Some? then o.value else a.value, a.value, b.value, now);
      MergedSiteId(b.value, a.value, b.value, now);
    }
  }

  lemma {:induction false} KeptIds(ids: seq<string>, outcomes: seq<Outcome>)
    requires |outcomes| == |ids| && Distinct(ids)
    requires forall i :: 0 <= i < |ids| ==> outcomes[i].site.Some? ==> outcomes[i].site.value.heading.id == ids[i]
    ensures Subsequence(Ids(KeptSites(outcomes)), ids)
    ensures forall i :: 0 <= i < |ids| ==> (ids[i] in Ids(KeptSites(outcomes)) <==> outcomes[i].site.Some?)
  {
    if ids != [] {
      KeptIds(ids[1..], outcomes[1..]);
      var rest := KeptSites(outcomes[1..]);
      SubsequenceDistinct(Ids(rest), ids[1..]);
      var r := KeptSites(outcomes);
      if outcomes[0].site.Some? {
        assert r == [outcomes[0].site.value] + rest;
        assert Ids(r) == [ids[0]] + Ids(rest);
      } else {
        assert r == rest;
      }
      forall i | 0 <= i < |ids| ensures ids[i] in Ids(r) <==> outcomes[i].site.Some? {
        if i > 0 {
          assert ids[1..][i - 1] == ids[i] && outcomes[1..][i - 1] == outcomes[i];
        }
      }
    }
  }

  lemma {:induction false} SubsequenceDistinct<T>(s: seq<T>, t: seq<T>)
    requires Subsequence(s, t) && Distinct(t)
    ensures Distinct(s) && forall x :: x in s ==> x in t
    decreases |t|
  {
    if s != [] {
      if s[0] == t[0] && Subsequence(s[1..], t[1..]) {
        SubsequenceDistinct(s[1..], t[1..]);
        forall x | x in s ensures x in t { if x != s[0] { assert x in s[1..] && x in t[1..]; } }
        forall i | 1 <= i < |s| ensures s[i] != s[0] { assert s[1..][i - 1] in t[1..]; }
      } else {
        SubsequenceDistinct(s, t[1..]);
      }
    }
  }

  lemma IdOutcome(id: string, o: Doc, a: Doc, b: Doc, render: Heading -> string, now: string)
    requires id in Ids(a) || id in Ids(b)
    ensures var r := MergedIdAt(id, Index(o), Index(a), Index(b), render, now);
      && (r.site.None? <==> GoneAt(Get(Index(o), id), Get(Index(a), id), Get(Index(b), id), render))
      && (r.site.Some? ==> r.site.value.heading.id == id)
  {
    hide MergedAt, GoneAt;
    IndexFacts(a);
    IndexFacts(b);
    MergedAtFacts(id, Get(Index(o), id), Get(Index(a), id), Get(Index(b), id), render, now);
  }

  /**
   Membership of the merged file: no id twice; an id of either side is there
   unless the base had it, one side removed it, and the other removed it too or
   left it as it was; and the ids come in the merged order.
   */
  lemma MergedMembership(o: Tracker, a: Tracker, b: Tracker, render: Heading -> string, now: string)
    requires Distinct(Ids(a.doc)) && Distinct(Ids(b.doc))
    ensures var r := Ids(MergedTracker(o, a, b, render, now).0.doc);
      && Distinct(r)
      && Subsequence(r, MergedIds(o.doc, a.doc, b.doc))
      && (forall id :: id in r <==>
            && (id in Ids(a.doc) || id in Ids(b.doc))
            && !GoneAt(Get(Index(o.doc), id), Get(Index(a.doc), id), Get(Index(b.doc), id), render))
  {
    hide GoneAt, MergedAt, Index, MergedIds, Before, KeptSites, Ids;
    MergedOrderHolds(o.doc, a.doc, b.doc);
    var ids := MergedIds(o.doc, a.doc, b.doc);
    forall id ensures id in ids <==> id in Ids(a.doc) || id in Ids(b.doc) {
      assert id in ids <==> id in Elems(ids);
    }
    var outcomes := FileOutcomes(o.doc, a.doc, b.doc, render, now);
    forall i | 0 <= i < |ids|
      ensures outcomes[i].site.Some? ==> outcomes[i].site.value.heading.id == ids[i]
      ensures outcomes[i].site.None? <==>
        GoneAt(Get(Index(o.doc), ids[i]), Get(Index(a.doc), ids[i]), Get(Index(b.doc), ids[i]), render)
    {
      IdOutcome(ids[i], o.doc, a.doc, b.doc, render, now);
    }
    KeptIds(ids, outcomes);
    SubsequenceDistinct(Ids(MergedTracker(o, a, b, render, now).0.doc), ids);
  }

  // ---- swapping the sides of a file ----

  /// Both gone, or the same issue with the same text after it.
  ghost predicate SameOutcome(x: Outcome, y: Outcome) {
    && (x.site.Some? <==> y.site.Some?)
    && (x.site.Some? ==> SameIssue(x.site.value.heading, y.site.value.heading) && x.site.value.tail == y.site.value.tail)
  }

  /// Both sides added the id, neither copy newer than the other.
  predicate Tied(o: Option<Site>, a: Option<Site>, b: Option<Site>) {
    o.None? && a.Some? && b.Some? && Newest(a.value.heading.logbook) == Newest(b.value.heading.logbook)
  }

  lemma MergedAtConverges(o: Option<Site>, a: Option<Site>, b: Option<Site>, render: Heading -> string, now: string)
    requires MergedAt(o, a, b, render, now).conflicts == 0
    ensures MergedAt(o, b, a, render, now).conflicts == 0
    ensures SameOutcome(MergedAt(o, a, b, render, now), MergedAt(o, b, a, render, now))
      <==> (Tied(o, a, b) ==> TieAgrees(a.value, b.value))
  {
    hide MergedSite, SameIssue, TieAgrees;
    if a.Some? && b.Some? {
      var (p, q) := (Newest(a.value.heading.logbook), Newest(b.value.heading.logbook));
      NotBoth(p, q);
      if Tied(o, a, b) {
        TieConvergesExactly(a.value, b.value, now);
      } else {
        var base := if o.Some? then o.value else if Less(p, q) then a.value else b.value;
        MergeConverges(base, a.value, b.value, now);
      }
    } else if a.Some? {
      SameIssueSelf(a.value.heading);
      SameIssueSelf(ConflictKept(a.value, now).heading);
    } else if b.Some? {
      SameIssueSelf(b.value.heading);
      SameIssueSelf(ConflictKept(b.value, now).heading);
    }
  }

  lemma NotBoth(p: string, q: string)
    ensures p == q ==> !Less(p, q) && !Less(q, p)
    ensures p != q ==> Less(p, q) != Less(q, p)
  {
    LessTotal(p, q);
    LessIrreflexive(p);
    if Less(p, q) { LessAsymmetric(p, q); } else if Less(q, p) { LessAsymmetric(q, p); }
  }

  lemma SameIssueSelf(h: Heading)
    ensures SameIssue(h, h)
  {
    hide Votes, PropTokens;
  }

  lemma {:induction false} ConflictFree(outcomes: seq<Outcome>)
    ensures Conflicts(outcomes) == 0 <==> forall i :: 0 <= i < |outcomes| ==> outcomes[i].conflicts == 0
  {
    if outcomes != [] {
      ConflictFree(outcomes[1..]);
      if forall i :: 0 <= i < |outcomes[1..]| ==> outcomes[1..][i].conflicts == 0 {
        forall i | 1 <= i < |outcomes| ensures outcomes[i].conflicts == 0 { assert outcomes[1..][i - 1] == outcomes[i]; }
      }
    }
  }

  lemma IdConverges(id: string, o: Doc, a: Doc, b: Doc, render: Heading -> string, now: string)
    requires MergedIdAt(id, Index(o), Index(a), Index(b), render, now).conflicts == 0
    ensures MergedIdAt(id, Index(o), Index(b), Index(a), render, now).conflicts == 0
    ensures var (x, y) := (MergedIdAt(id, Index(o), Index(a), Index(b), render, now),
                           MergedIdAt(id, Index(o), Index(b), Index(a), render, now));
      SameOutcome(x, y) <==> AgreesAt(id, o, a, b)
  {
    hide MergedAt, Index, SameOutcome, TieAgrees, Newest;
    MergedAtConverges(Get(Index(o), id), Get(Index(a), id), Get(Index(b), id), render, now);
  }

  /// Where both sides added the id with the same newest stamp, it is the same
  /// issue on both.
  ghost predicate AgreesAt(id: string, o: Doc, a: Doc, b: Doc) {
    Tied(Get(Index(o), id), Get(Index(a), id), Get(Index(b), id)) ==> TieAgrees(Index(a)[id], Index(b)[id])
  }

  /**
   Convergence of a file: with unique ids, a merge without a conflict has none
   with the sides swapped, and gives the same issue and tail for an id exactly
   when the two sides did not add different issues under it at one stamp.
   */
  lemma FileConverges(o: Tracker, a: Tracker, b: Tracker, render: Heading -> string, now: string)
    requires Distinct(Ids(a.doc)) && Distinct(Ids(b.doc))
    requires MergedTracker(o, a, b, render, now).1 == 0
    ensures MergedTracker(o, b, a, render, now).1 == 0
    ensures MergedTracker(o, a, b, render, now).0.preamble == MergedTracker(o, b, a, render, now).0.preamble
    ensures forall id :: id in MergedIds(o.doc, a.doc, b.doc) ==>
      (SameOutcome(MergedIdAt(id, Index(o.doc), Index(a.doc), Index(b.doc), render, now),
                   MergedIdAt(id, Index(o.doc), Index(b.doc), Index(a.doc), render, now))
       <==> AgreesAt(id, o.doc, a.doc, b.doc))
  {
    var (ids, other) := (MergedIds(o.doc, a.doc, b.doc), MergedIds(o.doc, b.doc, a.doc));
    MergedOrderHolds(o.doc, a.doc, b.doc);
    MergedOrderHolds(o.doc, b.doc, a.doc);
    assert Elems(ids) == Elems(other);
    hide MergedIdAt, Index, MergedIds, Before, SameOutcome, Ids, Subsequence, AgreesAt, Conflicts;
    var (xs, ys) := (FileOutcomes(o.doc, a.doc, b.doc, render, now), FileOutcomes(o.doc, b.doc, a.doc, render, now));
    ConflictFree(xs);
    ConflictFree(ys);
    forall i | 0 <= i < |ids|
      ensures MergedIdAt(ids[i], Index(o.doc), Index(b.doc), Index(a.doc), render, now).conflicts == 0
      ensures SameOutcome(MergedIdAt(ids[i], Index(o.doc), Index(a.doc), Index(b.doc), render, now),
                          MergedIdAt(ids[i], Index(o.doc), Index(b.doc), Index(a.doc), render, now))
        <==> AgreesAt(ids[i], o.doc, a.doc, b.doc)
    {
      assert xs[i].conflicts == 0;
      IdConverges(ids[i], o.doc, a.doc, b.doc, render, now);
    }
    forall i | 0 <= i < |other| ensures ys[i].conflicts == 0 {
      assert other[i] in Elems(other);
      var j :| 0 <= j < |ids| && ids[j] == other[i];
    }
  }

  /// A copy one side left as the base has it goes with the other side's removal.
  lemma UnchangedCopyGoes(base: Site, kept: Site, render: Heading -> string, now: string)
    requires render(kept.heading) == render(base.heading) && kept.tail == base.tail
    ensures MergedAt(Some(base), Some(kept), None, render, now) == MergedAt(Some(base), None, Some(kept), render, now) == Outcome(None, 0)
  {
  }

  /// Removed on one side and changed on the other: what stays is the changed
  /// copy as it is, with a note on it, and a conflict is counted.
  lemma ChangedCopyIsKept(base: Site, kept: Site, render: Heading -> string, now: string)
    requires render(kept.heading) != render(base.heading) || kept.tail != base.tail
    ensures var (m, n) := (MergedAt(Some(base), Some(kept), None, render, now), MergedAt(Some(base), None, Some(kept), render, now));
      m == n && m.conflicts == 1 && m.site.Some? && m.site.value.tail == kept.tail
      && var (h, what) := (m.site.value.heading, "the heading was removed on one side and changed on the other; kept it");
         var note := "merge conflict: " + what;
         h == kept.heading.(logbook := [LogEntry(now, None, None, Some(note), None)] + kept.heading.logbook)
  {
    ConflictNoteText(now);
  }

  lemma ConflictNoteText(now: string)
    ensures var what := "the heading was removed on one side and changed on the other; kept it";
      ConflictNote(what, now) == LogEntry(now, None, None, Some("merge conflict: " + what), None)
  {
  }

  /// An id that only one side has and the base never had stays as it is.
  lemma NewCopyIsTaken(x: Site, render: Heading -> string, now: string)
    ensures MergedAt(None, Some(x), None, render, now) == Outcome(Some(x), 0)
    ensures MergedAt(None, None, Some(x), render, now) == Outcome(Some(x), 0)
  {
  }

  // ---- a tie that does not converge ----

  function NewIssue(title: string): Site {
    Site(Heading("acme-1", title, "TODO", 'A', map["ID" := "acme-1"], [], None, ["ID"], [], "", [], 1, 1), "")
  }

  /// An input where each order keeps its own side: two new copies with
  /// different titles, no logbook yet, and no conflict reported either way.
  lemma NewCopiesKeepOurs(render: Heading -> string, now: string)
    ensures var (a, b) := (Some(NewIssue("Draft")), Some(NewIssue("Final")));
      && Tied(None, a, b)
      && var (m, n) := (MergedAt(None, a, b, render, now), MergedAt(None, b, a, render, now));
         m.conflicts == 0 && n.conflicts == 0 && !SameOutcome(m, n)
  {
    var (a, b) := (NewIssue("Draft"), NewIssue("Final"));
    assert "Draft"[0] == 'D' && "Final"[0] == 'F';
    hide MergedSite, SameProperties, SameDrawers;
    TiedKeepsOurs(a, b, render, now);
    TiedKeepsOurs(b, a, render, now);
  }

  lemma TiedKeepsOurs(a: Site, b: Site, render: Heading -> string, now: string)
    requires Newest(a.heading.logbook) == Newest(b.heading.logbook)
    ensures var m := MergedAt(None, Some(a), Some(b), render, now);
      m.conflicts == 0 && m.site.Some? && m.site.value.heading.title == a.heading.title
  {
    hide MergedSite, SameProperties, SameDrawers, ClaimReleased, Less;
    LessIrreflexive(Newest(a.heading.logbook));
    TieKeepsOurs(a, b, now);
  }
}
