/**
 The ready frontier: which issues a worker may take up (`issues_rows_from` and
 `Holds`, `crates/vissue-core/src/catalog.rs`).
 */
module Ready {
  import opened Base
  import opened Text
  import opened Walks
  import opened BlockerGraph

  /// An issue and the project it is in; the ids it names as parent and
  /// blockers are read from its properties.
  datatype Rec = Rec(project: string, id: string, state: string, lineStart: nat, parent: Option<string>,
                     blockedBy: seq<string>, properties: map<string, string>)

  predicate IsOpen(rec: Rec) {
    rec.state != "DONE" && rec.state != "CANCELLED"
  }

  predicate IsReadyState(rec: Rec) {
    rec.state == "TODO" || rec.state == "STARTED"
  }

  predicate PropertySet(properties: map<string, string>, key: string) {
    key in properties &&
    var v := Trim(properties[key]);
    v != "" && !SameNoCase(v, "nil") && v != "0"
  }

  predicate StepsOutOfOrder(rec: Rec) {
    PropertySet(rec.properties, "NOBLOCKING")
  }

  // ---- the definition ----

  /// The last heading with the id decides whether it is `ORDERED`.
  predicate OrderedParent(issues: seq<Rec>, id: string) {
    if issues == [] then false
    else
      var last := issues[|issues| - 1];
      if last.id == id then PropertySet(last.properties, "ORDERED")
      else OrderedParent(issues[..|issues| - 1], id)
  }

  /// An issue is held back by an open issue it names as a blocker, or, unless
  /// it steps out of order, by an open sibling ahead of it under an ordered
  /// parent.
  predicate Held(issues: seq<Rec>, rec: Rec) {
    || (exists r :: r in issues && IsOpen(r) && r.id in rec.blockedBy)
    || (!StepsOutOfOrder(rec) && rec.parent.Some? && OrderedParent(issues, rec.parent.value)
        && exists s :: s in issues && IsOpen(s) && s.parent == rec.parent && s.id != rec.id && s.lineStart < rec.lineStart)
  }

  /// Whether the filters let the issue through: `ready` asks for a ready state.
  predicate Candidate(rec: Rec, project: Option<string>, state: Option<string>, ready: bool) {
    && (project.Some? ==> SameNoCase(rec.project, project.value))
    && (state.Some? ==> rec.state == state.value)
    && (ready ==> IsReadyState(rec))
  }

  function Picked(among: seq<Rec>, project: Option<string>, state: Option<string>, ready: bool): seq<Rec> {
    if among == [] then []
    else (if Candidate(among[0], project, state, ready) then [among[0]] else []) + Picked(among[1..], project, state, ready)
  }

  function Frontier(issues: seq<Rec>, among: seq<Rec>, project: Option<string>, state: Option<string>): seq<Rec> {
    if among == [] then []
    else
      (if Candidate(among[0], project, state, true) && !Held(issues, among[0]) then [among[0]] else [])
      + Frontier(issues, among[1..], project, state)
  }

  function InProject(recs: seq<Rec>, project: string): seq<Rec> {
    if recs == [] then []
    else (if SameNoCase(recs[0].project, project) then [recs[0]] else []) + InProject(recs[1..], project)
  }

  /// Asking for one project's frontier is asking for the whole and looking at
  /// that project only.
  lemma {:induction false} ProjectsPartitionTheFrontier(issues: seq<Rec>, among: seq<Rec>, project: string, state: Option<string>)
    ensures Frontier(issues, among, Some(project), state) == InProject(Frontier(issues, among, None, state), project)
  {
    hide Held;
    if among != [] {
      var here := Candidate(among[0], None, state, true) && !Held(issues, among[0]);
      var rest := Frontier(issues, among[1..], None, state);
      ProjectsPartitionTheFrontier(issues, among[1..], project, state);
      if here {
        assert ([among[0]] + rest)[1..] == rest;
      } else {
        assert [] + rest == rest;
      }
    }
  }

  // ---- the index ----

  /// The open ids the candidates name as blockers, and under each ordered
  /// parent they name, its open children.
  datatype Holds = Holds(openBlockers: set<string>, ordered: map<string, seq<Rec>>)

  predicate IndexHolds(holds: Holds, rec: Rec) {
    || (exists b :: b in rec.blockedBy && b in holds.openBlockers)
    || (!StepsOutOfOrder(rec) && rec.parent.Some? && rec.parent.value in holds.ordered
        && exists s :: s in holds.ordered[rec.parent.value] && s.id != rec.id && s.lineStart < rec.lineStart)
  }

  ghost predicate IndexOf(holds: Holds, issues: seq<Rec>, blockers: set<string>, parents: set<string>) {
    && (forall id :: id in holds.openBlockers <==> id in blockers && exists r :: r in issues && IsOpen(r) && r.id == id)
    && (forall id, s :: id in holds.ordered && s in holds.ordered[id] ==>
          id in parents && OrderedParent(issues, id) && s in issues && IsOpen(s) && s.parent == Some(id))
    && (forall s :: s in issues && IsOpen(s) && s.parent.Some? && s.parent.value in parents && OrderedParent(issues, s.parent.value) ==>
          s.parent.value in holds.ordered && s in holds.ordered[s.parent.value])
  }

  /// The index answers as the definition does, for every issue it was built
  /// for.
  lemma IndexIsTheDefinition(holds: Holds, issues: seq<Rec>, blockers: set<string>, parents: set<string>, rec: Rec)
    requires IndexOf(holds, issues, blockers, parents)
    requires forall b :: b in rec.blockedBy ==> b in blockers
    requires !StepsOutOfOrder(rec) && rec.parent.Some? ==> rec.parent.value in parents
    ensures IndexHolds(holds, rec) <==> Held(issues, rec)
  {
    hide PropertySet, OrderedParent;
  }

  method Named(candidates: seq<Rec>) returns (blockers: set<string>, parents: set<string>)
    ensures forall r, b :: r in candidates && b in r.blockedBy ==> b in blockers
    ensures forall r :: r in candidates && !StepsOutOfOrder(r) && r.parent.Some? ==> r.parent.value in parents
  {
    blockers, parents := {}, {};
    hide PropertySet;
    for i := 0 to |candidates|
      invariant forall r, b :: r in candidates[..i] && b in r.blockedBy ==> b in blockers
      invariant forall r :: r in candidates[..i] && !StepsOutOfOrder(r) && r.parent.Some? ==> r.parent.value in parents
    {
      var rec := candidates[i];
      assert candidates[..i + 1] == candidates[..i] + [rec];
      blockers := blockers + Elems(rec.blockedBy);
      if !StepsOutOfOrder(rec) && rec.parent.Some? {
        parents := parents + {rec.parent.value};
      }
    }
    assert candidates[..|candidates|] == candidates;
  }

  /// The open ones among the blockers, and the last heading of each parent.
  method LookUp(issues: seq<Rec>, blockers: set<string>, parents: set<string>)
    returns (openBlockers: set<string>, parentRecs: map<string, Rec>)
    ensures forall id :: id in openBlockers <==> id in blockers && exists r :: r in issues && IsOpen(r) && r.id == id
    ensures parentRecs.Keys <= parents
    ensures forall id :: id in parents ==>
      (OrderedParent(issues, id) <==> id in parentRecs && PropertySet(parentRecs[id].properties, "ORDERED"))
  {
    openBlockers, parentRecs := {}, map[];
    hide PropertySet;
    for i := 0 to |issues|
      invariant forall id :: id in openBlockers <==> id in blockers && exists r :: r in issues[..i] && IsOpen(r) && r.id == id
      invariant parentRecs.Keys <= parents
      invariant forall id :: id in parents ==>
        (OrderedParent(issues[..i], id) <==> id in parentRecs && PropertySet(parentRecs[id].properties, "ORDERED"))
    {
      var rec := issues[i];
      assert issues[..i + 1] == issues[..i] + [rec];
      assert issues[..i + 1][..i] == issues[..i];
      if IsOpen(rec) && rec.id in blockers {
        openBlockers := openBlockers + {rec.id};
      }
      if rec.id in parents {
        parentRecs := parentRecs[rec.id := rec];
      }
    }
    assert issues[..|issues|] == issues;
  }

  /// An open child of a parent kept in order.
  predicate OpenChild(issues: seq<Rec>, ordered: set<string>, id: string, s: Rec) {
    id in ordered && s in issues && IsOpen(s) && s.parent == Some(id)
  }

  ghost predicate OpenChildrenOnly(issues: seq<Rec>, ordered: set<string>, children: map<string, seq<Rec>>) {
    forall id, k :: id in children && 0 <= k < |children[id]| ==> OpenChild(issues, ordered, id, children[id][k])
  }

  method OpenChildren(issues: seq<Rec>, ordered: set<string>) returns (children: map<string, seq<Rec>>)
    ensures OpenChildrenOnly(issues, ordered, children)
    ensures forall s :: s in issues && IsOpen(s) && s.parent.Some? && s.parent.value in ordered ==>
      s.parent.value in children && s in children[s.parent.value]
  {
    children := map[];
    for i := 0 to |issues|
      invariant OpenChildrenOnly(issues, ordered, children)
      invariant forall s :: s in issues[..i] && IsOpen(s) && s.parent.Some? && s.parent.value in ordered ==>
        s.parent.value in children && s in children[s.parent.value]
    {
      var rec := issues[i];
      assert issues[..i + 1] == issues[..i] + [rec];
      if rec.parent.Some? && rec.parent.value in ordered && IsOpen(rec) {
        var siblings := Get(children, rec.parent.value).GetOr([]);
        children := children[rec.parent.value := siblings + [rec]];
      }
    }
    assert issues[..|issues|] == issues;
  }

  /// The index of the candidates: it holds back exactly those of them that are
  /// held by definition.
  method HoldsOf(issues: seq<Rec>, candidates: seq<Rec>) returns (holds: Holds)
    ensures forall rec :: rec in candidates ==> (IndexHolds(holds, rec) <==> Held(issues, rec))
  {
    hide PropertySet, Held, IndexHolds;
    var blockers, parents := Named(candidates);
    var openBlockers, parentRecs := LookUp(issues, blockers, parents);
    var ordered := set id | id in parentRecs && PropertySet(parentRecs[id].properties, "ORDERED");
    var children := OpenChildren(issues, ordered);
    holds := Holds(openBlockers, children);
    forall id, s | id in children && s in children[id] ensures OpenChild(issues, ordered, id, s) {
      var k :| 0 <= k < |children[id]| && children[id][k] == s;
    }
    assert IndexOf(holds, issues, blockers, parents);
    forall rec | rec in candidates ensures IndexHolds(holds, rec) <==> Held(issues, rec) {
      IndexIsTheDefinition(holds, issues, blockers, parents, rec);
    }
  }

  function NotHeld(issues: seq<Rec>, among: seq<Rec>): seq<Rec> {
    if among == [] then []
    else (if Held(issues, among[0]) then [] else [among[0]]) + NotHeld(issues, among[1..])
  }

  lemma {:induction false} FrontierIsWhatIsNotHeld(issues: seq<Rec>, among: seq<Rec>, project: Option<string>, state: Option<string>)
    ensures Frontier(issues, among, project, state) == NotHeld(issues, Picked(among, project, state, true))
  {
    hide Held, Candidate;
    if among != [] {
      FrontierIsWhatIsNotHeld(issues, among[1..], project, state);
      var rest := Picked(among[1..], project, state, true);
      if Candidate(among[0], project, state, true) {
        assert ([among[0]] + rest)[1..] == rest;
      } else {
        assert [] + rest == rest;
        assert [] + Frontier(issues, among[1..], project, state) == Frontier(issues, among[1..], project, state);
      }
    }
  }

  /// The rows listed, before they are sorted and cut to a page; with `ready`,
  /// the frontier.
  method ListedRows(issues: seq<Rec>, project: Option<string>, state: Option<string>, ready: bool) returns (rows: seq<Rec>)
    ensures rows == if ready then Frontier(issues, issues, project, state) else Picked(issues, project, state, false)
  {
    hide *;
    rows := PickRows(issues, project, state, ready);
    if ready {
      var holds := HoldsOf(issues, rows);
      FrontierIsWhatIsNotHeld(issues, issues, project, state);
      rows := Retain(issues, rows, holds);
    }
  }

  method PickRows(issues: seq<Rec>, project: Option<string>, state: Option<string>, ready: bool) returns (picked: seq<Rec>)
    ensures picked == Picked(issues, project, state, ready)
  {
    hide Candidate;
    picked := [];
    for i := 0 to |issues|
      invariant picked + Picked(issues[i..], project, state, ready) == Picked(issues, project, state, ready)
    {
      assert issues[i..][1..] == issues[i + 1..];
      if Candidate(issues[i], project, state, ready) {
        picked := picked + [issues[i]];
      }
    }
  }

  method Retain(issues: seq<Rec>, picked: seq<Rec>, holds: Holds) returns (rows: seq<Rec>)
    requires forall rec :: rec in picked ==> (IndexHolds(holds, rec) <==> Held(issues, rec))
    ensures rows == NotHeld(issues, picked)
  {
    hide Held, IndexHolds;
    rows := [];
    for i := 0 to |picked|
      invariant rows + NotHeld(issues, picked[i..]) == NotHeld(issues, picked)
    {
      assert picked[i..][1..] == picked[i + 1..] && picked[i] in picked;
      if !IndexHolds(holds, picked[i]) {
        rows := rows + [picked[i]];
      }
    }
  }

  // ---- what is listed, exactly ----

  predicate SelectedBy(rec: Rec, project: Option<string>, state: Option<string>) {
    (project.Some? ==> SameNoCase(rec.project, project.value)) && (state.Some? ==> rec.state == state.value)
  }

  /// The last heading of that id is `ORDERED`: the property is there, and is
  /// neither blank nor `nil` nor `0`.
  ghost predicate KeptInOrder(issues: seq<Rec>, id: string) {
    exists k :: 0 <= k < |issues| && IsLast(issues, k, id) && IsOn(issues[k].properties, "ORDERED")
  }

  predicate IsLast(issues: seq<Rec>, k: nat, id: string)
    requires k < |issues|
  {
    issues[k].id == id && forall j :: k < j < |issues| ==> issues[j].id != id
  }

  predicate IsOn(properties: map<string, string>, key: string) {
    key in properties && Trim(properties[key]) != "" && Trim(properties[key]) != "0" && !SameNoCase(Trim(properties[key]), "nil")
  }

  lemma {:induction false} OrderedExactly(issues: seq<Rec>, id: string)
    ensures OrderedParent(issues, id) <==> KeptInOrder(issues, id)
  {
    hide PropertySet, IsOn, KeptInOrder;
    if issues != [] {
      var last := issues[|issues| - 1];
      OrderedExactly(issues[..|issues| - 1], id);
      SetIsOn(last.properties, "ORDERED");
      LastDecides(issues, id);
    } else {
      NoneKept(id);
    }
  }

  lemma NoneKept(id: string)
    ensures !KeptInOrder([], id)
  {
  }

  lemma LastDecides(issues: seq<Rec>, id: string)
    requires issues != []
    ensures var last := issues[|issues| - 1];
      KeptInOrder(issues, id) <==>
      if last.id == id then IsOn(last.properties, "ORDERED") else KeptInOrder(issues[..|issues| - 1], id)
  {
    hide IsOn;
    var (n, front) := (|issues| - 1, issues[..|issues| - 1]);
    if issues[n].id == id {
      assert IsLast(issues, n, id);
    } else {
      forall k | 0 <= k < n ensures IsLast(issues, k, id) <==> IsLast(front, k, id) {
        assert front[k] == issues[k];
        assert forall j :: k < j < n ==> front[j] == issues[j];
      }
      assert !IsLast(issues, n, id);
    }
  }

  lemma SetIsOn(properties: map<string, string>, key: string)
    ensures PropertySet(properties, key) <==> IsOn(properties, key)
  {
  }

  /// An issue named as a blocker is neither done nor cancelled.
  ghost predicate IsBlocked(issues: seq<Rec>, rec: Rec) {
    exists r :: r in issues && r.id in rec.blockedBy && r.state != "DONE" && r.state != "CANCELLED"
  }

  /// A sibling higher up in the file is neither done nor cancelled, their
  /// parent is kept in order, and the issue is not marked to step out of it.
  ghost predicate IsBehind(issues: seq<Rec>, rec: Rec) {
    && rec.parent.Some? && KeptInOrder(issues, rec.parent.value) && !IsOn(rec.properties, "NOBLOCKING")
    && exists s :: s in issues && s.parent == rec.parent && s.id != rec.id && s.lineStart < rec.lineStart
         && s.state != "DONE" && s.state != "CANCELLED"
  }

  lemma HeldExactly(issues: seq<Rec>, rec: Rec)
    ensures Held(issues, rec) <==> IsBlocked(issues, rec) || IsBehind(issues, rec)
  {
    SetIsOn(rec.properties, "NOBLOCKING");
    if rec.parent.Some? { OrderedExactly(issues, rec.parent.value); }
    hide PropertySet, IsOn, OrderedParent, KeptInOrder;
  }

  lemma {:induction false} PickedHolds(among: seq<Rec>, project: Option<string>, state: Option<string>, ready: bool, rec: Rec)
    ensures rec in Picked(among, project, state, ready) <==> rec in among && Candidate(rec, project, state, ready)
  {
    hide Candidate;
    if among != [] {
      PickedHolds(among[1..], project, state, ready, rec);
      assert among == [among[0]] + among[1..];
    }
  }

  lemma {:induction false} NotHeldHolds(issues: seq<Rec>, among: seq<Rec>, rec: Rec)
    ensures rec in NotHeld(issues, among) <==> rec in among && !Held(issues, rec)
  {
    hide Held;
    if among != [] {
      NotHeldHolds(issues, among[1..], rec);
      assert among == [among[0]] + among[1..];
    }
  }

  /// A plain listing holds exactly what the project and the state select.
  lemma ListedExactly(issues: seq<Rec>, project: Option<string>, state: Option<string>, rec: Rec)
    ensures rec in Picked(issues, project, state, false) <==> rec in issues && SelectedBy(rec, project, state)
  {
    PickedHolds(issues, project, state, false, rec);
    hide Picked;
  }

  /**
   The frontier holds exactly those of them that are to do or started, that no
   issue still open blocks, and that stand behind no open sibling.
   */
  lemma FrontierExactly(issues: seq<Rec>, project: Option<string>, state: Option<string>, rec: Rec)
    ensures var stands := rec in issues && SelectedBy(rec, project, state) && (rec.state == "TODO" || rec.state == "STARTED")
        && !IsBlocked(issues, rec) && !IsBehind(issues, rec);
      rec in Frontier(issues, issues, project, state) <==> stands
  {
    FrontierIsWhatIsNotHeld(issues, issues, project, state);
    PickedHolds(issues, project, state, true, rec);
    NotHeldHolds(issues, Picked(issues, project, state, true), rec);
    HeldExactly(issues, rec);
    hide Picked, NotHeld, Frontier, Held, IsBlocked, IsBehind, SameNoCase;
  }

  // ---- there is always something to do ----

  function AsWaiting(issues: seq<Rec>): seq<Waiting> {
    seq(|issues|, i requires 0 <= i < |issues| => Waiting(issues[i].id, issues[i].blockedBy))
  }

  ghost function Behind(g: Graph, u: int): set<int> {
    set v | v in Everyone(g.n) && Linked(g, v, u)
  }

  lemma FewerBehind(g: Graph, v: int, u: int)
    requires Node(g, u) && Node(g, v) && g.edge(v, u) && !Cyclic(g)
    ensures |Behind(g, v)| < |Behind(g, u)|
  {
    LinkedToSelf(g, u);
    LinkedToSelf(g, v);
    assert !Linked(g, u, v);
    forall x | x in Behind(g, v) ensures x in Behind(g, u) {
      LinkedOn(g, x, v, u);
    }
    SmallerSet(Behind(g, v), Behind(g, u), u);
  }

  /// Issue `k` holds issue `i` back: as a blocker, or as an earlier sibling
  /// under an ordered parent.
  predicate HoldsBack(issues: seq<Rec>, k: int, i: int) {
    && 0 <= k < |issues| && 0 <= i < |issues| && IsOpen(issues[k])
    && (|| issues[k].id in issues[i].blockedBy
        || AheadOf(issues, issues[k], issues[i]))
  }

  predicate AheadOf(issues: seq<Rec>, s: Rec, rec: Rec) {
    && !StepsOutOfOrder(rec) && rec.parent.Some? && OrderedParent(issues, rec.parent.value)
    && s.parent == rec.parent && s.id != rec.id && s.lineStart < rec.lineStart
  }

  function HoldingGraph(issues: seq<Rec>): Graph {
    Graph(|issues|, (k, i) => HoldsBack(issues, k, i))
  }

  ghost predicate OpenAreReady(issues: seq<Rec>) {
    forall r :: r in issues && IsOpen(r) ==> IsReadyState(r)
  }

  lemma HeldBySomeone(issues: seq<Rec>, i: nat)
    requires i < |issues|
    ensures Held(issues, issues[i]) <==> exists k :: HoldsBack(issues, k, i)
  {
    hide PropertySet, OrderedParent;
    var rec := issues[i];
    if r :| r in issues && IsOpen(r) && (r.id in rec.blockedBy || AheadOf(issues, r, rec)) {
      var k :| 0 <= k < |issues| && issues[k] == r;
      assert HoldsBack(issues, k, i);
    } else {
      forall k ensures !HoldsBack(issues, k, i) {
        if 0 <= k < |issues| { assert issues[k] in issues; }
      }
    }
  }

  /**
   While blockers and the order of siblings together close no cycle among open
   issues, and every open issue is in a ready state, there is something to take
   up as long as anything is open: behind every open issue, or at it.
   */
  lemma {:induction false} FrontierIsNotEmpty(issues: seq<Rec>, i: nat) returns (k: nat)
    requires i < |issues| && IsOpen(issues[i]) && OpenAreReady(issues)
    requires !Cyclic(HoldingGraph(issues))
    ensures k < |issues| && issues[k] in Frontier(issues, issues, None, None)
    ensures Linked(HoldingGraph(issues), k, i)
    decreases |Behind(HoldingGraph(issues), i)|
  {
    var g := HoldingGraph(issues);
    HeldBySomeone(issues, i);
    hide Behind, AheadOf, Cyclic, Linked, Held;
    if h :| HoldsBack(issues, h, i) {
      assert Node(g, h) && Node(g, i) && g.edge(h, i);
      FewerBehind(g, h, i);
      k := FrontierIsNotEmpty(issues, h);
      LinkedOn(g, k, h, i);
    } else {
      k := i;
      LinkedToSelf(g, i);
      InFrontier(issues, issues, issues[i]);
    }
  }

  /// With nothing kept in order, the blocker edges alone must close no cycle.
  lemma {:induction false} UnorderedFrontierIsNotEmpty(issues: seq<Rec>, i: nat) returns (k: nat)
    requires i < |issues| && IsOpen(issues[i]) && OpenAreReady(issues)
    requires (forall id :: !OrderedParent(issues, id)) && !Cyclic(KnownGraph(AsWaiting(issues)))
    ensures k < |issues| && issues[k] in Frontier(issues, issues, None, None)
  {
    var (g, h) := (HoldingGraph(issues), KnownGraph(AsWaiting(issues)));
    assert !Cyclic(g) by {
      hide OrderedParent, PropertySet, Linked;
      forall u, v | Node(g, u) && Node(g, v) && g.edge(u, v) ensures !Linked(g, v, u) {
        assert Blocks(AsWaiting(issues), u, v) && Node(h, u) && Node(h, v) && h.edge(u, v);
        LinkedInLarger(g, h, v, u);
      }
    }
    k := FrontierIsNotEmpty(issues, i);
  }

  lemma LinkedInLarger(g: Graph, h: Graph, u: int, v: int)
    requires g.n == h.n && forall x, y :: Node(g, x) && Node(g, y) && g.edge(x, y) ==> h.edge(x, y)
    ensures Linked(g, u, v) ==> Linked(h, u, v)
  {
    if Linked(g, u, v) {
      var inside := Everyone(g.n);
      var len: nat :| Walk(g, inside, u, v, len);
      var s :| WalkIn(g, inside, s) && s[0] == u && s[|s| - 1] == v && |s| == len + 1;
      forall i | 0 <= i < |s| - 1 ensures h.edge(s[i], s[i + 1]) {
        assert Node(g, s[i]) && Node(g, s[i + 1]);
      }
      assert WalkIn(h, inside, s);
      assert Walk(h, inside, u, v, len);
    }
  }

  // ---- everything can be finished ----

  function Close(issues: seq<Rec>, k: nat): seq<Rec>
    requires k < |issues|
  {
    issues[k := issues[k].(state := "DONE")]
  }

  predicate CanTake(issues: seq<Rec>, k: nat) {
    k < |issues| && IsReadyState(issues[k]) && !Held(issues, issues[k])
  }

  /// Issues taken up and closed one after the other, each from the frontier,
  /// until none is open.
  ghost predicate Finishes(issues: seq<Rec>, order: seq<nat>)
    decreases |order|
  {
    if order == [] then forall r :: r in issues ==> !IsOpen(r)
    else CanTake(issues, order[0]) && Finishes(Close(issues, order[0]), order[1..])
  }

  ghost predicate CanFinish(issues: seq<Rec>) {
    exists order :: Finishes(issues, order)
  }

  lemma TakenFromFrontier(issues: seq<Rec>, k: nat)
    requires k < |issues|
    ensures CanTake(issues, k) <==> issues[k] in Frontier(issues, issues, None, None)
  {
    FrontierHolds(issues, issues, issues[k]);
  }

  lemma {:induction false} FrontierHolds(issues: seq<Rec>, among: seq<Rec>, rec: Rec)
    ensures rec in Frontier(issues, among, None, None) <==> rec in among && IsReadyState(rec) && !Held(issues, rec)
  {
    hide Held;
    if among != [] {
      FrontierHolds(issues, among[1..], rec);
      assert among == [among[0]] + among[1..];
    }
  }

  lemma {:induction false} ClosedStillOrdered(issues: seq<Rec>, k: nat, id: string)
    requires k < |issues|
    ensures OrderedParent(Close(issues, k), id) == OrderedParent(issues, id)
  {
    hide PropertySet;
    var (closed, n) := (Close(issues, k), |issues| - 1);
    if k < n {
      ClosedStillOrdered(issues[..n], k, id);
      assert closed[..n] == Close(issues[..n], k);
    } else {
      assert closed[..n] == issues[..n];
    }
  }

  /// Closing an issue takes away what it held back, and nothing else.
  lemma ClosedHolds(issues: seq<Rec>, k: nat, u: int, v: int)
    requires k < |issues|
    ensures HoldsBack(Close(issues, k), u, v) <==> u != k && HoldsBack(issues, u, v)
  {
    hide OrderedParent, PropertySet;
    if 0 <= v < |issues| && issues[v].parent.Some? {
      ClosedStillOrdered(issues, k, issues[v].parent.value);
    }
  }

  function OpenCount(issues: seq<Rec>): nat {
    if issues == [] then 0 else (if IsOpen(issues[0]) then 1 else 0) + OpenCount(issues[1..])
  }

  lemma {:induction false} OpenCounted(issues: seq<Rec>)
    ensures OpenCount(issues) == 0 <==> forall r :: r in issues ==> !IsOpen(r)
  {
    if issues != [] {
      OpenCounted(issues[1..]);
      assert issues == [issues[0]] + issues[1..];
    }
  }

  lemma {:induction false} ClosedCount(issues: seq<Rec>, k: nat)
    requires k < |issues| && IsOpen(issues[k])
    ensures OpenCount(Close(issues, k)) == OpenCount(issues) - 1
  {
    var closed := Close(issues, k);
    if k == 0 {
      assert closed[1..] == issues[1..];
    } else {
      ClosedCount(issues[1..], k - 1);
      assert closed[1..] == Close(issues[1..], k - 1) && closed[0] == issues[0];
    }
  }

  lemma ClosedStaysAcyclic(issues: seq<Rec>, k: nat)
    requires k < |issues| && !Cyclic(HoldingGraph(issues))
    ensures !Cyclic(HoldingGraph(Close(issues, k)))
  {
    var (g, h) := (HoldingGraph(Close(issues, k)), HoldingGraph(issues));
    hide HoldsBack, Linked;
    forall u, v | Node(g, u) && Node(g, v) && g.edge(u, v) ensures h.edge(u, v) && !Linked(g, v, u) {
      ClosedHolds(issues, k, u, v);
      assert Node(h, u) && Node(h, v) && h.edge(u, v);
      forall x, y | Node(g, x) && Node(g, y) && g.edge(x, y) ensures h.edge(x, y) { ClosedHolds(issues, k, x, y); }
      LinkedInLarger(g, h, v, u);
    }
  }

  lemma ClosedStaysReady(issues: seq<Rec>, k: nat)
    requires k < |issues| && IsReadyState(issues[k])
    ensures OpenAreReady(Close(issues, k)) <==> OpenAreReady(issues)
  {
    var closed := Close(issues, k);
    if OpenAreReady(closed) {
      forall r | r in issues && IsOpen(r) ensures IsReadyState(r) {
        var i :| 0 <= i < |issues| && issues[i] == r;
        if i != k { assert closed[i] == r && closed[i] in closed; }
      }
    }
    if OpenAreReady(issues) {
      forall r | r in closed && IsOpen(r) ensures IsReadyState(r) {
        var i :| 0 <= i < |closed| && closed[i] == r;
        assert i != k && issues[i] == r && issues[i] in issues;
      }
    }
  }

  lemma {:induction false} AcyclicFinishes(issues: seq<Rec>) returns (order: seq<nat>)
    requires OpenAreReady(issues) && !Cyclic(HoldingGraph(issues))
    ensures Finishes(issues, order)
    decreases OpenCount(issues)
  {
    OpenCounted(issues);
    hide Cyclic, Held, OpenAreReady, OpenCount, Frontier, Linked;
    if r :| r in issues && IsOpen(r) {
      var i :| 0 <= i < |issues| && issues[i] == r;
      var k := FrontierIsNotEmpty(issues, i);
      TakenFromFrontier(issues, k);
      assert IsOpen(issues[k]);
      ClosedCount(issues, k);
      ClosedStaysAcyclic(issues, k);
      ClosedStaysReady(issues, k);
      hide Close;
      var rest := AcyclicFinishes(Close(issues, k));
      order := [k] + rest;
      assert order[1..] == rest;
    } else {
      order := [];
    }
  }

  /// What is not held back lies on no cycle.
  lemma CycleStays(issues: seq<Rec>, k: nat)
    requires CanTake(issues, k) && Cyclic(HoldingGraph(issues))
    ensures Cyclic(HoldingGraph(Close(issues, k)))
  {
    var (g, h) := (HoldingGraph(issues), HoldingGraph(Close(issues, k)));
    HeldBySomeone(issues, k);
    hide Held, HoldsBack;
    var u, v :| Node(g, u) && Node(g, v) && g.edge(u, v) && Linked(g, v, u);
    var inside := Everyone(g.n);
    var len: nat :| Walk(g, inside, v, u, len);
    var s :| WalkIn(g, inside, s) && s[0] == v && s[|s| - 1] == u && |s| == len + 1;
    forall i | 0 <= i < |s| ensures s[i] != k {
      var before := if i == 0 then u else s[i - 1];
      assert i > 0 ==> g.edge(s[i - 1], s[i - 1 + 1]);
      assert HoldsBack(issues, before, s[i]);
    }
    forall i | 0 <= i < |s| - 1 ensures h.edge(s[i], s[i + 1]) { ClosedHolds(issues, k, s[i], s[i + 1]); }
    ClosedHolds(issues, k, u, v);
    assert WalkIn(h, inside, s) && Walk(h, inside, v, u, len);
    assert u == s[|s| - 1] && h.edge(u, v) && Node(h, u) && Node(h, v) && Linked(h, v, u);
  }

  lemma {:induction false} FinishedWasAcyclic(issues: seq<Rec>, order: seq<nat>)
    requires Finishes(issues, order)
    ensures OpenAreReady(issues) && !Cyclic(HoldingGraph(issues))
    decreases |order|
  {
    hide Held, Close, Linked;
    if order == [] {
      NothingHolds(issues);
    } else {
      FinishedWasAcyclic(Close(issues, order[0]), order[1..]);
      ClosedStaysReady(issues, order[0]);
      if Cyclic(HoldingGraph(issues)) { CycleStays(issues, order[0]); }
    }
  }

  lemma NothingHolds(issues: seq<Rec>)
    requires forall r :: r in issues ==> !IsOpen(r)
    ensures OpenAreReady(issues) && !Cyclic(HoldingGraph(issues))
  {
    hide Linked;
    forall u, v ensures !HoldsBack(issues, u, v) {
      if 0 <= u < |issues| { assert issues[u] in issues; }
    }
  }

  /**
   All open issues can be taken up and closed, in some order and each when
   nothing holds it back, exactly when every open issue is in a ready state and
   blockers and the order of siblings together close no cycle among open issues.
   */
  lemma CanFinishExactly(issues: seq<Rec>)
    ensures CanFinish(issues) <==> OpenAreReady(issues) && !Cyclic(HoldingGraph(issues))
  {
    hide Finishes, OpenAreReady, Cyclic;
    if OpenAreReady(issues) && !Cyclic(HoldingGraph(issues)) {
      var order := AcyclicFinishes(issues);
    }
    if CanFinish(issues) {
      var order :| Finishes(issues, order);
      FinishedWasAcyclic(issues, order);
    }
  }

  const TOP := Rec("p", "top", "TODO", 1, None, ["first"], map["ORDERED" := "t"])
  const FIRST := Rec("p", "first", "TODO", 5, Some("top"), ["second"], map[])
  const SECOND := Rec("p", "second", "TODO", 9, Some("top"), [], map[])

  /// An ordered parent whose first child waits for its second: the blockers
  /// close no cycle, everything is open, and there is nothing to take up.
  lemma OrderAndBlockersCanDeadlock()
    ensures var issues := [TOP, FIRST, SECOND];
      && OpenAreReady(issues) && (forall r :: r in issues ==> IsOpen(r))
      && !Cyclic(KnownGraph(AsWaiting(issues)))
      && Frontier(issues, issues, None, None) == []
  {
    var issues := [TOP, FIRST, SECOND];
    AllAreOpen();
    EachIsHeld(issues);
    NoBlockerCycle();
    hide *;
    AllHeld(issues, issues);
  }

  lemma AllAreOpen()
    ensures OpenAreReady([TOP, FIRST, SECOND]) && forall r :: r in [TOP, FIRST, SECOND] ==> IsOpen(r)
  {
  }

  lemma NoBlockerCycle()
    ensures !Cyclic(KnownGraph(AsWaiting([TOP, FIRST, SECOND])))
  {
    var issues := [TOP, FIRST, SECOND];
    assert issues[0] == TOP && issues[1] == FIRST && issues[2] == SECOND;
    assert "top"[0] == 't' && "first"[0] == 'f' && "second"[0] == 's';
    hide Cyclic;
    BlockersGoDown(issues);
  }

  lemma EachIsHeld(issues: seq<Rec>)
    requires issues == [TOP, FIRST, SECOND]
    ensures forall r :: r in issues ==> Held(issues, r)
  {
    ParentIsOrdered(TOP, FIRST, SECOND);
    hide OrderedParent;
    assert TOP in issues && FIRST in issues && SECOND in issues;
    assert IsOpen(FIRST) && FIRST.id in TOP.blockedBy;
    assert IsOpen(SECOND) && SECOND.id in FIRST.blockedBy;
    assert !StepsOutOfOrder(SECOND) && FIRST.parent == SECOND.parent;
    assert Held(issues, TOP);
    assert Held(issues, FIRST);
    assert Held(issues, SECOND);
  }

  lemma {:induction false} AllHeld(issues: seq<Rec>, among: seq<Rec>)
    requires forall r :: r in among ==> Held(issues, r)
    ensures Frontier(issues, among, None, None) == []
  {
    hide Held;
    if among != [] {
      assert among[0] in among && forall r :: r in among[1..] ==> r in among;
      AllHeld(issues, among[1..]);
    }
  }

  lemma ParentIsOrdered(p: Rec, a: Rec, b: Rec)
    requires p.id == "top" && a.id == "first" && b.id == "second" && p.properties == map["ORDERED" := "t"]
    ensures OrderedParent([p, a, b], "top")
  {
    assert [p, a, b][..2] == [p, a] && [p, a][..1] == [p];
    TrimNothing("t");
    assert PropertySet(p.properties, "ORDERED");
    hide PropertySet;
    assert OrderedParent([p], "top");
    assert OrderedParent([p, a], "top");
  }

  /// Blockers that all stand further down close no cycle.
  lemma BlockersGoDown(issues: seq<Rec>)
    requires forall i, j :: Blocks(AsWaiting(issues), i, j) ==> j < i
    ensures !Cyclic(KnownGraph(AsWaiting(issues)))
  {
    var g := KnownGraph(AsWaiting(issues));
    forall u, v | Node(g, u) && Node(g, v) && g.edge(u, v) ensures !Linked(g, v, u) {
      var below := set w | w in Everyone(g.n) && w <= v;
      if Linked(g, v, u) {
        assert Keeps(g, Everyone(g.n), below);
        ReachStays(g, Everyone(g.n), below, v, u);
        assert false;
      }
    }
  }

  lemma {:induction false} InFrontier(issues: seq<Rec>, among: seq<Rec>, rec: Rec)
    requires rec in among && IsReadyState(rec) && !Held(issues, rec)
    ensures rec in Frontier(issues, among, None, None)
  {
    hide Held;
    if rec != among[0] {
      InFrontier(issues, among[1..], rec);
    }
  }
}
