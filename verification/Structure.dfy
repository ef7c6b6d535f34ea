/**
 What the trust graph alone decides: its closed groups, and the period of the
 only one (`structure`, `crates/vissue-core/src/consensus.rs`). The strongly
 connected components come from a library and are taken as given.
 */
module Structure {
  import opened Base
  import opened Linear
  import opened Opinions
  import opened Divisors
  import opened Walks
  import opened Period
  import opened Limits

  datatype Verdict = Convergent | Divided | Periodic

  function GraphOf(w: Matrix, n: nat): Graph {
    Graph(n, (i, j) => At(w, i, j) > 0.0)
  }

  /// The components are the classes of nodes that reach each other.
  ghost predicate Components(g: Graph, comps: seq<seq<int>>) {
    && (forall k :: 0 <= k < |comps| ==> comps[k] != [])
    && (forall u :: Node(g, u) ==> exists k :: 0 <= k < |comps| && u in comps[k])
    && (forall k, u :: 0 <= k < |comps| && u in comps[k] ==> Node(g, u))
    && forall k, l, u, v :: 0 <= k < |comps| && 0 <= l < |comps| && u in comps[k] && v in comps[l] ==>
      (k == l <==> Linked(g, u, v) && Linked(g, v, u))
  }

  /// No edge leaves the component.
  ghost predicate ClosedAt(g: Graph, comps: seq<seq<int>>, k: int) {
    0 <= k < |comps| && forall u, v :: u in comps[k] && Node(g, v) && g.edge(u, v) ==> v in comps[k]
  }

  ghost predicate OnlyClosed(g: Graph, comps: seq<seq<int>>, k: int) {
    ClosedAt(g, comps, k) && forall l :: ClosedAt(g, comps, l) ==> l == k
  }

  ghost predicate ListensTo(g: Graph, u: int) {
    exists v :: Node(g, v) && g.edge(u, v)
  }

  /// As the rows of weights sum to one, everyone listens to someone.
  ghost predicate EveryoneListens(g: Graph) {
    forall u :: Node(g, u) ==> ListensTo(g, u)
  }

  lemma DistributionsListen(w: Matrix, n: nat)
    requires RowsSumToOne(w, n, n)
    ensures EveryoneListens(GraphOf(w, n))
  {
    var g := GraphOf(w, n);
    forall u | Node(g, u) ensures ListensTo(g, u) {
      assert Distribution(n, Row(w, u));
      if v :| 0 <= v < n && At(w, u, v) > 0.0 {
        assert Node(g, v) && g.edge(u, v);
      } else {
        SumConstant(n, 0.0, Row(w, u));
      }
    }
  }

  // ---- a closed group always exists ----

  ghost function ReachSet(g: Graph, u: int): set<int> {
    set v | v in Everyone(g.n) && Linked(g, u, v)
  }

  lemma ReachSetShrinks(g: Graph, u: int, v: int)
    requires Node(g, u) && Node(g, v) && Linked(g, u, v) && !Linked(g, v, u)
    ensures |ReachSet(g, v)| < |ReachSet(g, u)|
  {
    LinkedToSelf(g, u);
    forall x | x in ReachSet(g, v) ensures x in ReachSet(g, u) {
      ReachJoin(g, Everyone(g.n), u, v, x);
    }
    SmallerSet(ReachSet(g, v), ReachSet(g, u), u);
  }

  /// From every agent a closed group is reached.
  lemma {:induction false} ClosedGroupWithinReach(g: Graph, comps: seq<seq<int>>, u: int) returns (k: int, w: int)
    requires Components(g, comps) && Node(g, u)
    ensures ClosedAt(g, comps, k) && w in comps[k] && Linked(g, u, w)
    decreases |ReachSet(g, u)|
  {
    hide Linked, ReachSet;
    k :| 0 <= k < |comps| && u in comps[k];
    w := u;
    LinkedToSelf(g, u);
    if a, v :| a in comps[k] && Node(g, v) && g.edge(a, v) && v !in comps[k] {
      assert Linked(g, u, a) && Linked(g, a, u);
      LinkedOn(g, u, a, v);
      var l :| 0 <= l < |comps| && v in comps[l];
      assert !Linked(g, v, u);
      ReachSetShrinks(g, u, v);
      var far;
      k, far := ClosedGroupWithinReach(g, comps, v);
      w := far;
      LinkedTwice(g, u, v, w);
    }
  }

  /// When only one group is closed, every agent reaches every member of it.
  lemma OnlyClosedIsReached(g: Graph, comps: seq<seq<int>>, k: int, u: int, v: int)
    requires Components(g, comps) && OnlyClosed(g, comps, k) && Node(g, u) && v in comps[k]
    ensures Linked(g, u, v)
  {
    hide Linked;
    var l, w := ClosedGroupWithinReach(g, comps, u);
    assert Linked(g, w, v);
    LinkedTwice(g, u, w, v);
  }

  // ---- closed components as closed groups of the rounds ----

  lemma ClosedComponentIsClosedGroup(w: Matrix, n: nat, comps: seq<seq<int>>, k: int)
    requires Components(GraphOf(w, n), comps) && ClosedAt(GraphOf(w, n), comps, k)
    ensures Closed(w, n, Elems(comps[k]))
  {
    var g := GraphOf(w, n);
    forall i, j | i in Elems(comps[k]) && 0 <= j < n && At(w, i, j) > 0.0 ensures j in Elems(comps[k]) {
      assert g.edge(i, j) && Node(g, j);
    }
    forall i | i in Elems(comps[k]) ensures 0 <= i < n {
      assert Node(g, i);
    }
  }

  lemma ClosedComponentIsStrong(g: Graph, comps: seq<seq<int>>, k: int)
    requires Components(g, comps) && ClosedAt(g, comps, k)
    ensures Strong(g, Elems(comps[k]))
  {
    var group := Elems(comps[k]);
    forall u, v | u in group && v in group ensures Reaches(g, group, u, v) {
      assert u in comps[k] && v in comps[k];
      assert Linked(g, u, v);
      ReachInside(g, group, u, v);
    }
  }

  lemma ReachInside(g: Graph, group: set<int>, u: int, v: int)
    requires Linked(g, u, v) && u in group
    requires forall a, b :: a in group && Node(g, b) && g.edge(a, b) ==> b in group
    ensures Reaches(g, group, u, v)
  {
    var len: nat :| Walk(g, Everyone(g.n), u, v, len);
    var s :| WalkIn(g, Everyone(g.n), s) && s[0] == u && s[|s| - 1] == v && |s| == len + 1;
    forall a, b | a in group && b in Everyone(g.n) && g.edge(a, b) ensures b in group {
      assert Node(g, b);
    }
    WalkStays(g, Everyone(g.n), group, s);
    assert WalkIn(g, group, s);
    assert Walk(g, group, u, v, len);
  }

  /// A group has one period.
  lemma PeriodIsUnique(g: Graph, group: set<int>, p: nat, q: nat)
    requires IsPeriod(g, group, p) && IsPeriod(g, group, q)
    ensures p == q
  {
    hide Cycle;
    assert Divides(p, q) && Divides(q, p);
    DividesBoth(p, q);
  }

  lemma DividesBoth(p: nat, q: nat)
    requires Divides(p, q) && Divides(q, p)
    ensures p == q
  {
    DividesAtMost(p, q);
    DividesAtMost(q, p);
  }

  lemma DividesAtMost(p: nat, q: nat)
    requires Divides(p, q)
    ensures q == 0 || p <= q
  {
    var k :| q == Times(k, p);
    if k >= 1 { assert k * p >= p; }
    if k < 0 { assert k * p <= 0; }
  }

  // ---- the classification ----

  method ComponentOf(n: nat, comps: seq<seq<int>>) returns (of: array<int>)
    requires forall k, i :: 0 <= k < |comps| && 0 <= i < |comps[k]| ==> 0 <= comps[k][i] < n
    requires forall k, l, u :: 0 <= k < |comps| && 0 <= l < |comps| && u in comps[k] && u in comps[l] ==> k == l
    ensures fresh(of) && of.Length == n
    ensures forall k, u :: 0 <= k < |comps| && u in comps[k] ==> of[u] == k
  {
    of := new int[n](i => 0);
    for k := 0 to |comps|
      invariant forall l, u :: 0 <= l < k && u in comps[l] ==> of[u] == l
    {
      for i := 0 to |comps[k]|
        invariant forall l, u :: 0 <= l < k && u in comps[l] ==> of[u] == l
        invariant forall j :: 0 <= j < i ==> of[comps[k][j]] == k
      {
        assert comps[k][i] in comps[k];
        of[comps[k][i]] := k;
      }
    }
  }

  predicate InComponents(g: Graph, comps: seq<seq<int>>, of: array<int>)
    reads of
  {
    of.Length == g.n && forall k, i :: 0 <= k < |comps| && 0 <= i < |comps[k]| ==> Node(g, comps[k][i]) && of[comps[k][i]] == k
  }

  predicate BeforeClosed(g: Graph, comps: seq<seq<int>>, k: nat, of: array<int>, i: nat)
    reads of
    requires k < |comps| && i <= |comps[k]| && of.Length == g.n
  {
    forall j, v :: 0 <= j < i && 0 <= v < g.n && g.edge(comps[k][j], v) ==> of[v] == k
  }

  /// Whether no edge of the component leads to a node of another.
  method IsClosed(g: Graph, comps: seq<seq<int>>, k: nat, of: array<int>) returns (closed: bool)
    requires Components(g, comps) && k < |comps| && InComponents(g, comps, of)
    ensures closed <==> ClosedAt(g, comps, k)
  {
    hide Components;
    closed := true;
    for i := 0 to |comps[k]|
      invariant closed <==> BeforeClosed(g, comps, k, of, i)
    {
      for to := 0 to g.n
        invariant closed <==> BeforeClosed(g, comps, k, of, i) && forall v :: 0 <= v < to && g.edge(comps[k][i], v) ==> of[v] == k
      {
        if g.edge(comps[k][i], to) && of[to] != k {
          closed := false;
        }
      }
    }
    forall v | Node(g, v) ensures of[v] == k <==> v in comps[k] {
      ComponentIndex(g, comps, of, v);
    }
    ClosedByIndex(g, comps, k);
  }

  lemma ComponentIndex(g: Graph, comps: seq<seq<int>>, of: array<int>, v: int)
    requires Components(g, comps) && InComponents(g, comps, of) && Node(g, v)
    ensures 0 <= of[v] < |comps| && v in comps[of[v]]
    ensures forall k :: 0 <= k < |comps| && v in comps[k] ==> of[v] == k
  {
    var k :| 0 <= k < |comps| && v in comps[k];
    forall l | 0 <= l < |comps| && v in comps[l] ensures of[v] == l {
      var i :| 0 <= i < |comps[l]| && comps[l][i] == v;
    }
  }

  lemma ClosedByIndex(g: Graph, comps: seq<seq<int>>, k: nat)
    requires k < |comps|
    ensures ClosedAt(g, comps, k) <==>
      forall j, v :: 0 <= j < |comps[k]| && 0 <= v < g.n && g.edge(comps[k][j], v) ==> v in comps[k]
  {
    if ClosedAt(g, comps, k) {
      forall j, v | 0 <= j < |comps[k]| && 0 <= v < g.n && g.edge(comps[k][j], v) ensures v in comps[k] {
        ClosedStep(g, comps, k, comps[k][j], v);
      }
    }
  }

  lemma ClosedStep(g: Graph, comps: seq<seq<int>>, k: int, u: int, v: int)
    requires ClosedAt(g, comps, k) && u in comps[k] && Node(g, v) && g.edge(u, v)
    ensures v in comps[k]
  {
  }

  lemma FirstMember(g: Graph, comps: seq<seq<int>>, k: int)
    requires Components(g, comps) && 0 <= k < |comps|
    ensures comps[k] != [] && comps[k][0] in comps[k] && Node(g, comps[k][0])
  {
    hide Linked;
    assert comps[k][0] in comps[k];
  }

  lemma ComponentsAreDisjoint(g: Graph, comps: seq<seq<int>>)
    requires Components(g, comps)
    ensures forall k, i :: 0 <= k < |comps| && 0 <= i < |comps[k]| ==> Node(g, comps[k][i])
    ensures forall k, l, u :: 0 <= k < |comps| && 0 <= l < |comps| && u in comps[k] && u in comps[l] ==> k == l
  {
    hide Linked;
    forall k, l, u | 0 <= k < |comps| && 0 <= l < |comps| && u in comps[k] && u in comps[l] ensures k == l {
      assert Node(g, u);
      LinkedToSelf(g, u);
    }
    forall k, i | 0 <= k < |comps| && 0 <= i < |comps[k]| ensures Node(g, comps[k][i]) {
      assert comps[k][i] in comps[k];
    }
  }

  method ClosedGroups(g: Graph, comps: seq<seq<int>>) returns (closed: seq<int>)
    requires Components(g, comps)
    ensures forall k :: k in closed <==> ClosedAt(g, comps, k)
    ensures Distinct(closed)
  {
    ComponentsAreDisjoint(g, comps);
    ClosedInRange(g, comps);
    hide Components, ClosedAt;
    var of := ComponentOf(g.n, comps);
    closed := [];
    assert InComponents(g, comps, of) by {
      forall k, i | 0 <= k < |comps| && 0 <= i < |comps[k]| ensures of[comps[k][i]] == k {
        assert comps[k][i] in comps[k];
      }
    }
    for k := 0 to |comps|
      invariant InComponents(g, comps, of)
      invariant forall l :: l in closed <==> 0 <= l < k && ClosedAt(g, comps, l)
      invariant Distinct(closed)
    {
      var isClosed := IsClosed(g, comps, k, of);
      if isClosed {
        closed := closed + [k];
      }
    }
  }

  /**
   One closed group of period one makes the verdict convergent, one of a longer
   period makes it periodic, and only two or more make it divided.
   */
  method Classify(g: Graph, comps: seq<seq<int>>) returns (verdict: Verdict)
    requires g.n > 0 && Components(g, comps) && EveryoneListens(g)
    ensures verdict == Convergent <==> exists k :: OnlyClosed(g, comps, k) && IsPeriod(g, Elems(comps[k]), 1)
    ensures verdict == Periodic <==>
      exists k, p: nat :: OnlyClosed(g, comps, k) && p > 1 && IsPeriod(g, Elems(comps[k]), p)
    ensures verdict == Divided <==> exists k, l :: k != l && ClosedAt(g, comps, k) && ClosedAt(g, comps, l)
  {
    hide Components, ClosedAt, IsPeriod, EveryoneListens, Linked;
    ClosedInRange(g, comps);
    var closed := ClosedGroups(g, comps);
    ghost var k, w := ClosedGroupWithinReach(g, comps, 0);
    assert k in closed;
    if |closed| != 1 {
      assert closed[0] in closed && closed[1] in closed && closed[0] != closed[1];
      return Divided;
    }
    assert closed[0] in closed;
    assert forall l :: ClosedAt(g, comps, l) ==> l in closed && l == closed[0];
    verdict := ClassifyOnly(g, comps, closed[0]);
  }

  method ClassifyOnly(g: Graph, comps: seq<seq<int>>, only: int) returns (verdict: Verdict)
    requires Components(g, comps) && OnlyClosed(g, comps, only)
    requires EveryoneListens(g)
    ensures verdict == Convergent <==> exists k :: OnlyClosed(g, comps, k) && IsPeriod(g, Elems(comps[k]), 1)
    ensures verdict == Periodic <==>
      exists k, p: nat :: OnlyClosed(g, comps, k) && p > 1 && IsPeriod(g, Elems(comps[k]), p)
    ensures verdict != Divided
  {
    hide Components, ClosedAt, IsPeriod, Strong;
    ClosedForPeriod(g, comps, only);
    var period := PeriodOf(g, comps[only], Elems(comps[only]));
    forall p: nat | IsPeriod(g, Elems(comps[only]), p) ensures p == period {
      PeriodIsUnique(g, Elems(comps[only]), p, period);
    }
    verdict := if period == 1 then Convergent else Periodic;
  }

  lemma ClosedInRange(g: Graph, comps: seq<seq<int>>)
    ensures forall k :: ClosedAt(g, comps, k) ==> 0 <= k < |comps|
  {
  }

  lemma ClosedForPeriod(g: Graph, comps: seq<seq<int>>, k: int)
    requires Components(g, comps) && ClosedAt(g, comps, k)
    requires EveryoneListens(g)
    ensures 0 <= k < |comps| && comps[k] != [] && Elements(comps[k], Elems(comps[k])) && Strong(g, Elems(comps[k]))
    ensures forall v :: v in Elems(comps[k]) ==> 0 <= v < g.n
    ensures exists u, v :: u in Elems(comps[k]) && v in Elems(comps[k]) && g.edge(u, v)
  {
    hide Strong, Components, ClosedAt, EveryoneListens, Linked;
    ClosedComponentIsStrong(g, comps, k);
    ClosedInRange(g, comps);
    FirstMember(g, comps, k);
    ClosedHasAnEdge(g, comps, k);
    ComponentsAreDisjoint(g, comps);
    forall v | v in Elems(comps[k]) ensures 0 <= v < g.n {
      var i :| 0 <= i < |comps[k]| && comps[k][i] == v;
      assert Node(g, comps[k][i]);
    }
  }

  lemma ClosedHasAnEdge(g: Graph, comps: seq<seq<int>>, k: int)
    requires Components(g, comps) && ClosedAt(g, comps, k)
    requires EveryoneListens(g)
    ensures exists u, v :: u in Elems(comps[k]) && v in Elems(comps[k]) && g.edge(u, v)
  {
    ClosedInRange(g, comps);
    FirstMember(g, comps, k);
    assert ListensTo(g, comps[k][0]);
    hide Components, ClosedAt;
    var u := comps[k][0];
    var v :| Node(g, v) && g.edge(u, v);
    ClosedStep(g, comps, k, u, v);
    assert u in Elems(comps[k]) && v in Elems(comps[k]);
  }

  // ---- what the verdict means for the rounds ----

  /**
   Two closed groups share no agent, so that each voting as one, for different
   choices, leaves the spread at one in every round.
   */
  lemma DividedNeverAgrees(run: Run, comps: seq<seq<int>>, k: int, l: int, c: nat, t: nat)
    requires Valid(run) && run.n > 0 && c < run.m && k != l
    requires var g := GraphOf(run.weights, run.n); Components(g, comps) && ClosedAt(g, comps, k) && ClosedAt(g, comps, l)
    requires forall i :: i in comps[k] ==> At(run.start, i, c) == 1.0
    requires forall i :: i in comps[l] ==> At(run.start, i, c) == 0.0
    ensures Elems(comps[k]) !! Elems(comps[l])
    ensures Spread(After(run, t), run.n, run.m) == 1.0
  {
    var g := GraphOf(run.weights, run.n);
    forall u | u in Elems(comps[k]) ensures u !in Elems(comps[l]) {
      assert u in comps[k];
    }
    ClosedComponentIsClosedGroup(run.weights, run.n, comps, k);
    ClosedComponentIsClosedGroup(run.weights, run.n, comps, l);
    var (i, j) := (comps[k][0], comps[l][0]);
    assert i in comps[k] && j in comps[l];
    assert Node(g, i) && Node(g, j);
    hide Components, ClosedAt, Closed, After, Spread, Valid;
    OpposedGroupsNeverMeet(run, Elems(comps[k]), Elems(comps[l]), i, j, c, t);
  }

  /// A phase for every member of a group, one on along every edge.
  lemma PhasesOfPeriod(g: Graph, group: set<int>, root: int, p: nat) returns (level: Levels)
    requires root in group && Strong(g, group) && IsPeriod(g, group, p)
    ensures level.Keys == group && DividesSlacks(g, group, level, p)
  {
    hide Divides, IsPeriod;
    level := map v | v in group :: WalkLength(g, group, root, v);
    forall v | v in level ensures level[v] >= 0 && Walk(g, group, root, v, level[v]) {
      assert Reaches(g, group, root, v);
    }
    forall u, v | u in group && v in group && g.edge(u, v) ensures Divides(p, Slack(level, u, v)) {
      PeriodDivides(g, group, p);
      CyclesDivideSlack(g, group, root, level, p, u, v);
    }
  }

  ghost function WalkLength(g: Graph, group: set<int>, u: int, v: int): nat
    requires Reaches(g, group, u, v)
  {
    var len: nat :| Walk(g, group, u, v, len);
    len
  }

  lemma PeriodDivides(g: Graph, group: set<int>, p: nat)
    requires IsPeriod(g, group, p)
    ensures forall len: nat :: Cycle(g, group, len) ==> Divides(p, len)
  {
  }

  /**
   A closed group of period two or more has ballots it never settles from:
   with every member unanchored there is a way to vote for which, in each round
   `t`, the choice is held by exactly the members whose phase has come round.
   */
  lemma PeriodicNeverSettles(run: Run, group: set<int>, root: int, p: nat, c: nat) returns (phase: int -> int)
    requires Valid(run) && Closed(run.weights, run.n, group) && c < run.m && root in group
    requires var g := GraphOf(run.weights, run.n); Strong(g, group) && IsPeriod(g, group, p) && p > 1
    requires forall i :: i in group ==> run.pull[i] == 1.0
    ensures forall i, j :: i in group && j in group && At(run.weights, i, j) > 0.0 ==> phase(j) % p == (phase(i) + 1) % p
    ensures (forall i :: i in group ==> At(run.start, i, c) == if phase(i) % p == 0 then 1.0 else 0.0) ==>
      forall t: nat, i :: i in group ==> At(After(run, t), i, c) == if (phase(i) + t) % p == 0 then 1.0 else 0.0
  {
    phase := PhaseAlongEdges(run.weights, run.n, group, root, p);
    assert Phased(run.weights, run.n, group, phase, p);
    hide After, Closed, Valid, IsPeriod, Strong, Phased;
    if forall i :: i in group ==> At(run.start, i, c) == if phase(i) % p == 0 then 1.0 else 0.0 {
      forall t: nat, i | i in group ensures At(After(run, t), i, c) == if (phase(i) + t) % p == 0 then 1.0 else 0.0 {
        PhasesGoRound(run, group, phase, p, c, t);
      }
    }
  }

  lemma PhaseAlongEdges(w: Matrix, n: nat, group: set<int>, root: int, p: nat) returns (phase: int -> int)
    requires root in group && p > 1 && Strong(GraphOf(w, n), group) && IsPeriod(GraphOf(w, n), group, p)
    ensures forall i, j :: i in group && j in group && At(w, i, j) > 0.0 ==> phase(j) % p == (phase(i) + 1) % p
  {
    var g := GraphOf(w, n);
    var level := PhasesOfPeriod(g, group, root, p);
    hide Strong, IsPeriod;
    phase := v => if v in level then level[v] else 0;
    forall i, j | i in group && j in group && At(w, i, j) > 0.0 ensures phase(j) % p == (phase(i) + 1) % p {
      assert g.edge(i, j);
      assert Divides(p, Slack(level, i, j));
      DividesResidue(p, level[i] + 1, level[j]);
    }
  }

  lemma DividesResidue(p: nat, a: int, b: int)
    requires p > 0 && Divides(p, a - b)
    ensures a % p == b % p
  {
    var k :| a - b == Times(k, p);
    ShiftResidue(b, k, p);
  }
}
