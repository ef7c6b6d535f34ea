/**
 The period of one strongly connected group, by breadth-first levels and a
 running gcd (`period`, `crates/vissue-core/src/consensus.rs`).
 */
module Period {
  import opened Base
  import opened Divisors
  import opened Walks

  type Levels = map<int, int>

  ghost predicate Strong(g: Graph, group: set<int>) {
    forall u, v :: u in group && v in group ==> Reaches(g, group, u, v)
  }

  /// The length of some walk inside the group that ends where it began.
  ghost predicate Cycle(g: Graph, group: set<int>, len: nat) {
    exists u :: u in group && Walk(g, group, u, u, len)
  }

  /// The greatest common divisor of the lengths of all closed walks.
  ghost predicate IsPeriod(g: Graph, group: set<int>, p: int) {
    && (forall len: nat :: Cycle(g, group, len) ==> Divides(p, len))
    && forall d :: (forall len: nat :: Cycle(g, group, len) ==> Divides(d, len)) ==> Divides(d, p)
  }

  function Slack(level: Levels, u: int, v: int): int
    requires u in level && v in level
  {
    level[u] + 1 - level[v]
  }

  ghost predicate DividesSlacks(g: Graph, group: set<int>, level: Levels, d: int)
    requires group <= level.Keys
  {
    forall u, v :: u in group && v in group && g.edge(u, v) ==> Divides(d, Slack(level, u, v))
  }

  /// Each level is the length of a walk from the root.
  ghost predicate Layered(g: Graph, group: set<int>, root: int, level: Levels) {
    forall v :: v in level ==> v in group && level[v] >= 0 && Walk(g, group, root, v, level[v])
  }

  lemma {:induction false} SlackAlongWalk(g: Graph, group: set<int>, level: Levels, d: int, s: seq<int>)
    requires group <= level.Keys && DividesSlacks(g, group, level, d) && WalkIn(g, group, s)
    ensures Divides(d, level[s[0]] + (|s| - 1) - level[s[|s| - 1]])
    decreases |s|
  {
    hide Divides;
    if |s| == 1 {
      DividesZero(d);
    } else {
      var (r, u, v) := (s[..|s| - 1], s[|s| - 2], s[|s| - 1]);
      assert g.edge(s[|s| - 2], s[|s| - 2 + 1]);
      SlackAlongWalk(g, group, level, d, r);
      assert Divides(d, Slack(level, u, v));
      DividesSum(d, level[r[0]] + (|r| - 1) - level[r[|r| - 1]], Slack(level, u, v));
    }
  }

  lemma SlackDividesCycles(g: Graph, group: set<int>, level: Levels, d: int, len: nat)
    requires group <= level.Keys && DividesSlacks(g, group, level, d) && Cycle(g, group, len)
    ensures Divides(d, len)
  {
    hide Divides, DividesSlacks;
    var u :| u in group && Walk(g, group, u, u, len);
    var s :| WalkIn(g, group, s) && s[0] == u && s[|s| - 1] == u && |s| == len + 1;
    SlackAlongWalk(g, group, level, d, s);
  }

  lemma CyclesDivideSlack(g: Graph, group: set<int>, root: int, level: Levels, d: int, u: int, v: int)
    requires root in group && Strong(g, group) && group == level.Keys && Layered(g, group, root, level)
    requires forall len: nat :: Cycle(g, group, len) ==> Divides(d, len)
    requires u in group && v in group && g.edge(u, v)
    ensures Divides(d, Slack(level, u, v))
  {
    hide Divides, Walk;
    assert Reaches(g, group, v, root);
    var back: nat :| Walk(g, group, v, root, back);
    Step(g, group, u, v);
    Join(g, group, root, u, v, level[u], 1);
    Join(g, group, root, v, root, level[u] + 1, back);
    Join(g, group, root, v, root, level[v], back);
    assert Cycle(g, group, level[u] + 1 + back) && Cycle(g, group, level[v] + back);
    DividesSum(d, level[u] + 1 + back, level[v] + back);
  }

  /**
   The gcd of the slacks is the gcd of the lengths of all closed walks, whatever
   walks the levels were counted along.
   */
  lemma SlacksGiveThePeriod(g: Graph, group: set<int>, root: int, level: Levels, p: int)
    requires root in group && Strong(g, group) && group == level.Keys && Layered(g, group, root, level)
    requires DividesSlacks(g, group, level, p)
    requires forall d :: DividesSlacks(g, group, level, d) ==> Divides(d, p)
    ensures IsPeriod(g, group, p)
  {
    hide Divides, Cycle;
    forall len: nat | Cycle(g, group, len) ensures Divides(p, len) {
      SlackDividesCycles(g, group, level, p, len);
    }
    forall d | forall len: nat :: Cycle(g, group, len) ==> Divides(d, len) ensures Divides(d, p) {
      forall u, v | u in group && v in group && g.edge(u, v) ensures Divides(d, Slack(level, u, v)) {
        CyclesDivideSlack(g, group, root, level, d, u, v);
      }
      assert DividesSlacks(g, group, level, d);
    }
  }

  /// With an edge inside it, a strongly connected group has a period of at
  /// least one.
  lemma PeriodIsPositive(g: Graph, group: set<int>, u: int, v: int, p: int)
    requires Strong(g, group) && u in group && v in group && g.edge(u, v) && IsPeriod(g, group, p)
    ensures p != 0
  {
    hide Divides, Walk;
    assert Reaches(g, group, v, u);
    var back: nat :| Walk(g, group, v, u, back);
    Step(g, group, u, v);
    Join(g, group, u, v, u, 1, back);
    assert Cycle(g, group, 1 + back);
    assert Divides(p, 1 + back);
    if p == 0 {
      ZeroDividesZero(1 + back);
    }
  }

  // ---- breadth-first levels, then the gcd of the slacks ----

  ghost predicate Elements(s: seq<int>, group: set<int>) {
    forall v :: v in s <==> v in group
  }

  ghost predicate Searched(g: Graph, group: set<int>, level: Levels, queue: seq<int>) {
    forall u, v :: u in level && u !in queue && v in group && g.edge(u, v) ==> v in level
  }

  /// Level and queue the successors of one node that have no level yet.
  method Visit(g: Graph, members: seq<int>, ghost group: set<int>, ghost root: int, before: Levels, waiting: seq<int>, node: int)
    returns (level: Levels, queue: seq<int>)
    requires Elements(members, group) && node in before && Layered(g, group, root, before)
    requires forall v :: v in group ==> 0 <= v < g.n
    requires Searched(g, group, before, [node] + waiting) && forall v :: v in waiting ==> v in before
    ensures before.Keys <= level.Keys && Layered(g, group, root, level) && Searched(g, group, level, queue)
    ensures forall v :: v in queue ==> v in level
    ensures (level == before && queue == waiting) || before.Keys < level.Keys
  {
    hide Walk, Searched, Layered;
    level, queue := before, waiting;
    var depth := before[node];
    for to := 0 to g.n
      invariant Layered(g, group, root, level) && before.Keys <= level.Keys && level[node] == depth
      invariant Searched(g, group, level, [node] + queue) && forall v :: v in queue ==> v in level
      invariant forall v :: 0 <= v < to && v in group && g.edge(node, v) ==> v in level
      invariant (level == before && queue == waiting) || before.Keys < level.Keys
    {
      if !g.edge(node, to) || to !in members || to in level {
        continue;
      }
      LevelOne(g, group, root, level, queue, node, to);
      level := level[to := depth + 1];
      queue := queue + [to];
    }
    VisitDone(g, group, level, queue, node);
  }

  lemma LevelOne(g: Graph, group: set<int>, root: int, level: Levels, queue: seq<int>, node: int, to: int)
    requires Layered(g, group, root, level) && Searched(g, group, level, [node] + queue)
    requires node in level && to in group && g.edge(node, to) && to !in level
    ensures Layered(g, group, root, level[to := level[node] + 1])
    ensures Searched(g, group, level[to := level[node] + 1], [node] + (queue + [to]))
  {
    hide Walk;
    Step(g, group, node, to);
    Join(g, group, root, node, to, level[node], 1);
    var (next, waiting) := (level[to := level[node] + 1], [node] + (queue + [to]));
    forall u, v | u in next && u !in waiting && v in group && g.edge(u, v) ensures v in next {
      assert to in waiting;
      assert forall w :: w in [node] + queue ==> w in waiting;
      assert u in level;
    }
  }

  lemma VisitDone(g: Graph, group: set<int>, level: Levels, queue: seq<int>, node: int)
    requires Searched(g, group, level, [node] + queue)
    requires forall v :: v in group && g.edge(node, v) ==> v in level
    ensures Searched(g, group, level, queue)
  {
  }

  method LevelsOf(g: Graph, members: seq<int>, ghost group: set<int>, root: int) returns (level: Levels)
    requires Elements(members, group) && root in group && Strong(g, group)
    requires forall v :: v in group ==> 0 <= v < g.n
    ensures level.Keys == group && Layered(g, group, root, level)
  {
    Stay(g, group, root);
    level := map[root := 0];
    var queue := [root];
    assert Layered(g, group, root, level) && Searched(g, group, level, queue);
    hide *;
    while queue != []
      invariant root in level && Layered(g, group, root, level) && Searched(g, group, level, queue)
      invariant forall v :: v in queue ==> v in level
      decreases |group - level.Keys|, |queue|
    {
      var (before, node) := (level, queue[0]);
      assert [node] + queue[1..] == queue;
      level, queue := Visit(g, members, group, root, before, queue[1..], node);
      InGroup(g, group, root, level);
      FewerLeft(group, before.Keys, level.Keys);
    }
    AllLevelled(g, group, root, level);
  }

  lemma InGroup(g: Graph, group: set<int>, root: int, level: Levels)
    requires Layered(g, group, root, level)
    ensures level.Keys <= group
  {
    hide Walk;
    forall v | v in level.Keys ensures v in group {
      assert v in level;
    }
  }

  lemma AllLevelled(g: Graph, group: set<int>, root: int, level: Levels)
    requires root in level && Layered(g, group, root, level) && Searched(g, group, level, []) && Strong(g, group)
    ensures level.Keys == group
  {
    assert root in group;
    forall u, v | u in level.Keys && v in group && g.edge(u, v) ensures v in level.Keys {
      assert u !in [];
    }
    assert Keeps(g, group, level.Keys);
    forall v | v in group ensures v in level {
      assert Reaches(g, group, root, v);
      ReachStays(g, group, level.Keys, root, v);
    }
    assert forall v :: v in level.Keys ==> v in group;
  }

  /// A member's edges inside the group divide by the running gcd, up to one.
  ghost predicate DividesFrom(g: Graph, group: set<int>, level: Levels, u: int, upTo: int, d: int)
    requires group <= level.Keys && u in group
  {
    forall v :: v in group && v < upTo && g.edge(u, v) ==> Divides(d, Slack(level, u, v))
  }

  method SlacksOf(g: Graph, members: seq<int>, ghost group: set<int>, level: Levels, u: int, start: nat) returns (divisor: nat)
    requires Elements(members, group) && level.Keys == group && u in group
    requires forall v :: v in group ==> 0 <= v < g.n
    requires forall d :: DividesSlacks(g, group, level, d) ==> Divides(d, start)
    ensures Divides(divisor, start) && DividesFrom(g, group, level, u, g.n, divisor)
    ensures forall d :: DividesSlacks(g, group, level, d) ==> Divides(d, divisor)
  {
    hide Divides;
    divisor := start;
    DividesItself(start);
    for to := 0 to g.n
      invariant Divides(divisor, start) && DividesFrom(g, group, level, u, to, divisor)
      invariant forall d :: DividesSlacks(g, group, level, d) ==> Divides(d, divisor)
    {
      if !g.edge(u, to) || to !in members {
        continue;
      }
      var next := Gcd(divisor, level[u] + 1 - level[to]);
      DividesOn(next, divisor, start);
      forall v | v in group && v < to && g.edge(u, v) ensures Divides(next, Slack(level, u, v)) {
        DividesOn(next, divisor, Slack(level, u, v));
      }
      forall d | DividesSlacks(g, group, level, d) ensures Divides(d, next) {
        assert Divides(d, Slack(level, u, to));
      }
      divisor := next;
    }
  }

  lemma DividesOn(d: int, e: int, a: int)
    requires Divides(d, e) && Divides(e, a)
    ensures Divides(d, a)
  {
    var k :| a == Times(k, e);
    DividesMultiple(d, e, k);
  }

  lemma DividesFromOn(g: Graph, group: set<int>, level: Levels, u: int, next: int, divisor: int)
    requires group <= level.Keys && u in group && Divides(next, divisor) && DividesFrom(g, group, level, u, g.n, divisor)
    ensures DividesFrom(g, group, level, u, g.n, next)
  {
    hide Divides;
    forall v | v in group && v < g.n && g.edge(u, v) ensures Divides(next, Slack(level, u, v)) {
      DividesOn(next, divisor, Slack(level, u, v));
    }
  }

  lemma DividesAll(g: Graph, members: seq<int>, group: set<int>, level: Levels, divisor: int)
    requires group <= level.Keys && Elements(members, group) && forall v :: v in group ==> 0 <= v < g.n
    requires forall k :: 0 <= k < |members| ==> members[k] in group && DividesFrom(g, group, level, members[k], g.n, divisor)
    ensures DividesSlacks(g, group, level, divisor)
  {
    hide Divides;
    forall u, v | u in group && v in group && g.edge(u, v) ensures Divides(divisor, Slack(level, u, v)) {
      var k :| 0 <= k < |members| && members[k] == u;
      assert DividesFrom(g, group, level, members[k], g.n, divisor);
    }
  }

  /**
   The period of a strongly connected group that holds an edge: the greatest
   common divisor of the lengths of its closed walks.
   */
  method PeriodOf(g: Graph, members: seq<int>, ghost group: set<int>) returns (period: nat)
    requires Elements(members, group) && members != [] && Strong(g, group)
    requires forall v :: v in group ==> 0 <= v < g.n
    requires exists u, v :: u in group && v in group && g.edge(u, v)
    ensures IsPeriod(g, group, period) && period >= 1
  {
    hide Divides, IsPeriod, Strong;
    var level := LevelsOf(g, members, group, members[0]);
    var divisor: nat := 0;
    forall d ensures Divides(d, 0) { DividesZero(d); }
    for i := 0 to |members|
      invariant forall k :: 0 <= k < i ==> DividesFrom(g, group, level, members[k], g.n, divisor)
      invariant forall d :: DividesSlacks(g, group, level, d) ==> Divides(d, divisor)
    {
      var next := SlacksOf(g, members, group, level, members[i], divisor);
      forall k | 0 <= k < i ensures DividesFrom(g, group, level, members[k], g.n, next) {
        DividesFromOn(g, group, level, members[k], next, divisor);
      }
      divisor := next;
    }
    hide Elements, Layered;
    DividesAll(g, members, group, level, divisor);
    SlacksGiveThePeriod(g, group, members[0], level, divisor);
    ghost var u, v :| u in group && v in group && g.edge(u, v);
    PeriodIsPositive(g, group, u, v, divisor);
    period := if divisor > 1 then divisor else 1;
  }
}
