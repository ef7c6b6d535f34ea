/**
 The issues within some number of hops of one, breadth first
 (`DependencyGraph::walk`, `crates/vissue-core/src/graph.rs`).
 */
module BoundedWalk {
  import opened Base
  import opened Order
  import opened Walks
  import opened BlockerGraph

  /// The length of a shortest walk.
  ghost predicate Distance(g: Graph, u: int, v: int, d: nat) {
    && Walk(g, Everyone(g.n), u, v, d)
    && forall e: nat :: e < d ==> !Walk(g, Everyone(g.n), u, v, e)
  }

  type Levels = map<int, nat>

  ghost predicate Labelled(g: Graph, root: int, depth: nat, level: Levels) {
    && root in level && level[root] == 0
    && forall v :: v in level ==>
      Node(g, v) && Walk(g, Everyone(g.n), root, v, level[v]) && level[v] <= depth && (level[v] == 0 ==> v == root)
  }

  /// What waits has its level, nearest first, and nothing is more than one hop
  /// past the first that waits.
  ghost predicate Waits(level: Levels, queue: seq<(int, nat)>, first: nat) {
    && (forall i :: 0 <= i < |queue| ==> queue[i].0 in level && level[queue[i].0] == queue[i].1 && first <= queue[i].1)
    && (forall i, j :: 0 <= i < j < |queue| ==> queue[i].1 <= queue[j].1)
    && forall v :: v in level ==> level[v] <= first + 1
  }

  function Nodes(queue: seq<(int, nat)>): set<int> {
    set i | 0 <= i < |queue| :: queue[i].0
  }

  ghost predicate SteppedFrom(g: Graph, depth: nat, level: Levels, waiting: set<int>) {
    forall u, v :: u in level && u !in waiting && level[u] < depth && Node(g, v) && g.edge(u, v) ==>
      v in level && level[v] <= level[u] + 1
  }

  /// The rows found: every level but the root's, once each, nearest first.
  ghost predicate Rows(level: Levels, root: int, found: seq<(nat, int)>) {
    && (forall d, v :: (d, v) in found <==> v in level && v != root && level[v] == d)
    && (forall i, j :: 0 <= i < j < |found| ==> found[i].1 != found[j].1 && found[i].0 <= found[j].0)
  }

  method Hop(g: Graph, ghost root: int, depth: nat, ghost before: Levels, seen0: set<int>, waiting: seq<(int, nat)>,
             found0: seq<(nat, int)>, node: int, distance: nat)
    returns (ghost level: Levels, seen: set<int>, queue: seq<(int, nat)>, found: seq<(nat, int)>)
    requires seen0 == before.Keys && node in before && before[node] == distance < depth
    requires Labelled(g, root, depth, before) && Rows(before, root, found0)
    requires Waits(before, waiting, distance) && SteppedFrom(g, depth, before, Nodes(waiting) + {node})
    ensures seen == level.Keys && before.Keys <= level.Keys && (seen == seen0 ==> queue == waiting)
    ensures Labelled(g, root, depth, level) && Rows(level, root, found)
    ensures Waits(level, queue, distance) && SteppedFrom(g, depth, level, Nodes(queue))
  {
    level, seen, queue, found := before, seen0, waiting, found0;
    hide Labelled, Rows, Waits, SteppedFrom, Walk, Nodes;
    for to := 0 to g.n
      invariant seen == level.Keys && before.Keys <= level.Keys && (seen == seen0 ==> queue == waiting)
      invariant level[node] == distance
      invariant Labelled(g, root, depth, level) && Rows(level, root, found)
      invariant Waits(level, queue, distance) && SteppedFrom(g, depth, level, Nodes(queue) + {node})
      invariant forall v :: 0 <= v < to && g.edge(node, v) ==> v in level && level[v] <= distance + 1
    {
      if !g.edge(node, to) || to in seen {
        LevelsClose(level, queue, distance);
        continue;
      }
      HopOn(g, root, depth, level, queue, found, node, to);
      seen := seen + {to};
      level := level[to := distance + 1];
      found := found + [(distance + 1, to)];
      queue := queue + [(to, distance + 1)];
    }
    HopDone(g, depth, level, queue, node);
  }

  lemma LevelsClose(level: Levels, queue: seq<(int, nat)>, first: nat)
    requires Waits(level, queue, first)
    ensures forall v :: v in level ==> level[v] <= first + 1
  {
  }

  lemma HopOn(g: Graph, root: int, depth: nat, level: Levels, queue: seq<(int, nat)>, found: seq<(nat, int)>, node: int, to: int)
    requires node in level && level[node] < depth && Node(g, to) && g.edge(node, to) && to !in level
    requires Labelled(g, root, depth, level) && Rows(level, root, found)
    requires Waits(level, queue, level[node]) && SteppedFrom(g, depth, level, Nodes(queue) + {node})
    ensures var (next, d) := (level[to := level[node] + 1], level[node] + 1);
      && Labelled(g, root, depth, next) && Rows(next, root, found + [(d, to)])
      && Waits(next, queue + [(to, d)], level[node]) && SteppedFrom(g, depth, next, Nodes(queue + [(to, d)]) + {node})
  {
    HopLabels(g, root, depth, level, node, to);
    HopRows(root, level, found, level[node] + 1, to, level[node], queue);
    HopWaits(level, queue, level[node], to);
    HopSteps(g, depth, level, queue, node, to);
  }

  lemma HopLabels(g: Graph, root: int, depth: nat, level: Levels, node: int, to: int)
    requires node in level && level[node] < depth && Node(g, to) && g.edge(node, to) && to !in level
    requires Labelled(g, root, depth, level)
    ensures Labelled(g, root, depth, level[to := level[node] + 1])
  {
    hide Walk;
    Step(g, Everyone(g.n), node, to);
    Join(g, Everyone(g.n), root, node, to, level[node], 1);
  }

  lemma HopRows(root: int, level: Levels, found: seq<(nat, int)>, d: nat, to: int, first: nat, queue: seq<(int, nat)>)
    requires Rows(level, root, found) && to !in level && root in level && d == first + 1 && Waits(level, queue, first)
    ensures Rows(level[to := d], root, found + [(d, to)])
  {
    var (next, rows) := (level[to := d], found + [(d, to)]);
    forall e, v ensures (e, v) in rows <==> v in next && v != root && next[v] == e {
      assert (e, v) in rows <==> (e, v) in found || (e == d && v == to);
    }
    forall i, j | 0 <= i < j < |rows| ensures rows[i].1 != rows[j].1 && rows[i].0 <= rows[j].0 {
      assert (found[i].0, found[i].1) in found;
    }
  }

  lemma HopWaits(level: Levels, queue: seq<(int, nat)>, first: nat, to: int)
    requires Waits(level, queue, first) && to !in level
    ensures Waits(level[to := first + 1], queue + [(to, first + 1)], first)
  {
    forall i | 0 <= i < |queue| ensures queue[i].1 <= first + 1 {
      var v := queue[i].0;
      assert v in level && level[v] == queue[i].1;
    }
  }

  lemma HopSteps(g: Graph, depth: nat, level: Levels, queue: seq<(int, nat)>, node: int, to: int)
    requires SteppedFrom(g, depth, level, Nodes(queue) + {node}) && to !in level && node in level
    ensures SteppedFrom(g, depth, level[to := level[node] + 1], Nodes(queue + [(to, level[node] + 1)]) + {node})
  {
    var more := queue + [(to, level[node] + 1)];
    assert more[|queue|] == (to, level[node] + 1);
    assert forall i :: 0 <= i < |queue| ==> more[i] == queue[i];
    assert Nodes(more) == Nodes(queue) + {to};
  }

  lemma HopDone(g: Graph, depth: nat, level: Levels, queue: seq<(int, nat)>, node: int)
    requires node in level && SteppedFrom(g, depth, level, Nodes(queue) + {node})
    requires forall v :: 0 <= v < g.n && g.edge(node, v) ==> v in level && level[v] <= level[node] + 1
    ensures SteppedFrom(g, depth, level, Nodes(queue))
  {
  }

  lemma {:induction false} ReachedInTime(g: Graph, depth: nat, level: Levels, s: seq<int>)
    requires WalkIn(g, Everyone(g.n), s) && |s| - 1 <= depth && s[0] in level && level[s[0]] == 0
    requires SteppedFrom(g, depth, level, {})
    ensures s[|s| - 1] in level && level[s[|s| - 1]] <= |s| - 1
    decreases |s|
  {
    if |s| > 1 {
      var (r, w, v) := (s[..|s| - 1], s[|s| - 2], s[|s| - 2 + 1]);
      ReachedInTime(g, depth, level, r);
      assert r[|r| - 1] == w && g.edge(w, v) && Node(g, v);
    }
  }

  /// At the end the levels are the distances, of everything near enough.
  lemma LevelsAreDistances(g: Graph, root: int, depth: nat, level: Levels, v: int, d: nat)
    requires Labelled(g, root, depth, level) && SteppedFrom(g, depth, level, {})
    ensures v in level && level[v] == d <==> d <= depth && Distance(g, root, v, d)
  {
    forall e: nat | e <= depth && Walk(g, Everyone(g.n), root, v, e) ensures v in level && level[v] <= e {
      var s :| WalkIn(g, Everyone(g.n), s) && s[0] == root && s[|s| - 1] == v && |s| == e + 1;
      ReachedInTime(g, depth, level, s);
    }
    hide Walk, SteppedFrom;
  }

  /**
   The rows of a bounded walk: each node other than the root whose distance is
   at most the depth, once, with that distance, and nothing else.
   */
  method Bounded(g: Graph, root: int, depth: nat) returns (found: seq<(nat, int)>)
    requires Node(g, root)
    ensures forall d: nat, v :: (d, v) in found <==> v != root && d <= depth && Distance(g, root, v, d)
    ensures forall i, j :: 0 <= i < j < |found| ==> found[i].1 != found[j].1 && found[i].0 <= found[j].0
  {
    ghost var level: Levels := map[root := 0];
    var seen := {root};
    var queue: seq<(int, nat)> := [(root, 0)];
    found := [];
    AtTheRoot(g, root, depth);
    hide Labelled, Rows, Waits, SteppedFrom, Nodes, Distance;
    while queue != []
      invariant seen == level.Keys && Labelled(g, root, depth, level) && Rows(level, root, found)
      invariant SteppedFrom(g, depth, level, Nodes(queue)) && (queue != [] ==> Waits(level, queue, queue[0].1))
      decreases |Everyone(g.n) - seen|, |queue|
    {
      var ((node, distance), before) := (queue[0], seen);
      Popped(level, queue);
      queue := queue[1..];
      if distance == depth {
        AtTheEdge(g, depth, level, queue, node);
        Forward(level, queue, distance);
        continue;
      }
      level, seen, queue, found := Hop(g, root, depth, level, seen, queue, found, node, distance);
      Forward(level, queue, distance);
      InGraph(g, root, depth, level);
      FewerLeft(Everyone(g.n), before, seen);
    }
    AllRows(g, root, depth, level, found);
  }

  lemma AtTheRoot(g: Graph, root: int, depth: nat)
    requires Node(g, root)
    ensures var (level, queue) := (map[root := 0], [(root, 0)]);
      Labelled(g, root, depth, level) && Rows(level, root, []) && Waits(level, queue, 0)
      && SteppedFrom(g, depth, level, Nodes(queue))
  {
    Stay(g, Everyone(g.n), root);
    var queue: seq<(int, nat)> := [(root, 0)];
    assert queue[0] == (root, 0);
    assert root in Nodes(queue);
  }

  lemma AllRows(g: Graph, root: int, depth: nat, level: Levels, found: seq<(nat, int)>)
    requires Labelled(g, root, depth, level) && Rows(level, root, found) && SteppedFrom(g, depth, level, Nodes([]))
    ensures forall d: nat, v :: (d, v) in found <==> v != root && d <= depth && Distance(g, root, v, d)
    ensures forall i, j :: 0 <= i < j < |found| ==> found[i].1 != found[j].1 && found[i].0 <= found[j].0
  {
    assert Nodes([]) == {};
    hide Labelled, SteppedFrom, Distance;
    forall d: nat, v ensures v in level && level[v] == d <==> d <= depth && Distance(g, root, v, d) {
      LevelsAreDistances(g, root, depth, level, v, d);
    }
  }

  lemma Popped(level: Levels, queue: seq<(int, nat)>)
    requires queue != [] && Waits(level, queue, queue[0].1)
    ensures queue[0].0 in level && level[queue[0].0] == queue[0].1
    ensures Waits(level, queue[1..], queue[0].1)
    ensures Nodes(queue) == Nodes(queue[1..]) + {queue[0].0}
  {
    assert forall i :: 1 <= i < |queue| ==> queue[i] == queue[1..][i - 1];
  }

  lemma Forward(level: Levels, queue: seq<(int, nat)>, first: nat)
    requires Waits(level, queue, first)
    ensures queue != [] ==> Waits(level, queue, queue[0].1)
  {
  }

  lemma AtTheEdge(g: Graph, depth: nat, level: Levels, queue: seq<(int, nat)>, node: int)
    requires node in level && level[node] == depth && SteppedFrom(g, depth, level, Nodes(queue) + {node})
    ensures SteppedFrom(g, depth, level, Nodes(queue))
  {
  }

  lemma InGraph(g: Graph, root: int, depth: nat, level: Levels)
    requires Labelled(g, root, depth, level)
    ensures level.Keys <= Everyone(g.n)
  {
    hide Walk;
    forall v | v in level.Keys ensures v in Everyone(g.n) { assert v in level && Node(g, v); }
  }

  function Facing(n: nat, edges: set<(int, int)>, incoming: bool): Graph {
    Graph(n, (u, v) => if incoming then (v, u) in edges else (u, v) in edges)
  }

  // ---- the rows in order ----

  type Row = (nat, string)

  /// Nearer first, then by id.
  predicate Before(a: Row, b: Row) {
    a.0 < b.0 || (a.0 == b.0 && Less(a.1, b.1))
  }

  predicate InOrder(rows: seq<Row>) {
    forall i, j :: 0 <= i < j < |rows| ==> Before(rows[i], rows[j])
  }

  function Placed(rows: seq<Row>, row: Row): seq<Row> {
    if rows == [] || Before(row, rows[0]) then [row] + rows else [rows[0]] + Placed(rows[1..], row)
  }

  /// The library's sort, by what it gives.
  function SortedRows(rows: seq<Row>): seq<Row> {
    if rows == [] then [] else Placed(SortedRows(rows[1..]), rows[0])
  }

  lemma BeforeThen(a: Row, b: Row, c: Row)
    requires Before(a, b) && Before(b, c)
    ensures Before(a, c)
  {
    if a.0 == b.0 == c.0 { LessTransitive(a.1, b.1, c.1); }
  }

  lemma OneOrOther(a: Row, b: Row)
    ensures a == b || Before(a, b) || Before(b, a)
  {
    LessTotal(a.1, b.1);
  }

  lemma PutFirst(rows: seq<Row>, row: Row)
    requires InOrder(rows) && (rows != [] ==> Before(row, rows[0]))
    ensures InOrder([row] + rows)
  {
    hide Before;
    forall i | 0 < i < |rows| ensures Before(row, rows[i]) { BeforeThen(row, rows[0], rows[i]); }
  }

  lemma {:induction false} PlacedInOrder(rows: seq<Row>, row: Row)
    requires InOrder(rows) && row !in rows
    ensures InOrder(Placed(rows, row)) && forall r :: r in Placed(rows, row) <==> r in rows || r == row
  {
    hide Before, InOrder;
    if rows == [] || Before(row, rows[0]) {
      PutFirst(rows, row);
    } else {
      var (first, rest) := (rows[0], rows[1..]);
      assert rows == [first] + rest;
      TailInOrder(rows);
      PlacedInOrder(rest, row);
      OneOrOther(row, first);
      var more := Placed(rest, row);
      FirstBefore(first, rest, row, more);
      PutFirst(more, first);
    }
  }

  lemma FirstBefore(first: Row, rest: seq<Row>, row: Row, more: seq<Row>)
    requires InOrder([first] + rest) && Before(first, row) && forall r :: r in more ==> r in rest || r == row
    ensures more != [] ==> Before(first, more[0])
  {
    hide Before;
    if more != [] && more[0] != row {
      assert more[0] in more;
      var i :| 0 <= i < |rest| && rest[i] == more[0];
      assert ([first] + rest)[i + 1] == more[0] && ([first] + rest)[0] == first;
    }
  }

  /// Rows of which no two are the same come out in order, each once.
  lemma {:induction false} RowsSorted(rows: seq<Row>)
    requires Distinct(rows)
    ensures InOrder(SortedRows(rows)) && forall r :: r in SortedRows(rows) <==> r in rows
  {
    hide Before, Placed;
    if rows != [] {
      var (first, rest) := (rows[0], rows[1..]);
      assert rows == [first] + rest;
      assert forall i :: 0 <= i < |rest| ==> rest[i] == rows[i + 1];
      assert Distinct(rest) && first !in rest;
      RowsSorted(rest);
      PlacedInOrder(SortedRows(rest), first);
    }
  }

  /// The same order, spelled out.
  predicate NearestFirst(rows: seq<(nat, string)>) {
    forall i, j :: 0 <= i < j < |rows| ==> rows[i].0 < rows[j].0 || (rows[i].0 == rows[j].0 && Less(rows[i].1, rows[j].1))
  }

  lemma InOrderMeans(rows: seq<Row>)
    ensures InOrder(rows) <==> NearestFirst(rows)
  {
    hide Less;
    if InOrder(rows) {
      forall i, j | 0 <= i < j < |rows|
        ensures rows[i].0 < rows[j].0 || (rows[i].0 == rows[j].0 && Less(rows[i].1, rows[j].1))
      {
        assert Before(rows[i], rows[j]);
      }
    }
    if NearestFirst(rows) {
      forall i, j | 0 <= i < j < |rows| ensures Before(rows[i], rows[j]) {
      }
    }
  }

  /**
   `ancestors` looks along incoming edges, `descendants` along outgoing ones;
   `None` for an issue that is not there. The rows are decided by what they
   are: every issue within the depth, with its distance, in order.
   */
  method WalkFrom(graph: DependencyGraph, issue: string, depth: nat, incoming: bool) returns (rows: Option<seq<Row>>)
    requires graph.Valid()
    ensures rows.None? <==> issue !in graph.nodes
    ensures rows.Some? ==> NearestFirst(rows.value)
    ensures rows.Some? ==> forall d: nat, id :: (d, id) in rows.value <==> Hops(graph, issue, id, d, incoming) && d <= depth
  {
    hide InOrder;
    SameIds(graph);
    if issue !in graph.ids {
      return None;
    }
    var (root, n) := (graph.ids[issue], |graph.nodes|);
    var found := Bounded(Facing(n, graph.edges, incoming), root, depth);
    var out: seq<Row> := [];
    for i := 0 to |found|
      invariant |out| == i
      invariant forall k :: 0 <= k < i ==> Node(Facing(n, graph.edges, incoming), found[k].1)
      invariant forall k :: 0 <= k < i ==> out[k] == (found[k].0, graph.nodes[found[k].1])
    {
      assert found[i] in found;
      DistanceNode(Facing(n, graph.edges, incoming), root, found[i].1, found[i].0);
      out := out + [(found[i].0, graph.nodes[found[i].1])];
    }
    NamedRows(graph, issue, depth, incoming, found, out);
    NamedOnce(graph, found, out);
    RowsSorted(out);
    InOrderMeans(SortedRows(out));
    hide NearestFirst;
    rows := Some(SortedRows(out));
  }

  lemma NamedOnce(graph: DependencyGraph, found: seq<(nat, int)>, out: seq<Row>)
    requires graph.Valid() && |out| == |found|
    requires forall i, j :: 0 <= i < j < |found| ==> found[i].1 != found[j].1
    requires forall k :: 0 <= k < |found| ==> 0 <= found[k].1 < |graph.nodes| && out[k] == (found[k].0, graph.nodes[found[k].1])
    ensures Distinct(out)
  {
    hide Cyclic;
    forall i, j | 0 <= i < j < |out| ensures out[i] != out[j] {
      assert graph.nodes[found[i].1] != graph.nodes[found[j].1];
    }
  }

  /// There is one such list: two in order with the same rows are the same.
  lemma {:induction false} OneOrder(x: seq<Row>, y: seq<Row>)
    requires InOrder(x) && InOrder(y) && forall r :: r in x <==> r in y
    ensures x == y
    decreases |x|
  {
    hide Before, InOrder;
    HasFirst(x);
    HasFirst(y);
    if x != [] {
      FirstIsFirst(x, y);
      assert x == [x[0]] + x[1..] && y == [y[0]] + y[1..];
      TailInOrder(x);
      TailInOrder(y);
      forall r ensures r in x[1..] <==> r in y[1..] {
        assert (r in x <==> r == x[0] || r in x[1..]) && (r in y <==> r == y[0] || r in y[1..]);
      }
      OneOrder(x[1..], y[1..]);
    }
  }

  lemma HasFirst(x: seq<Row>)
    ensures x != [] ==> x[0] in x
  {
  }

  lemma TailInOrder(x: seq<Row>)
    requires x != [] && InOrder(x)
    ensures InOrder(x[1..]) && x[0] !in x[1..]
  {
    hide Before;
    var rest := x[1..];
    forall i, j | 0 <= i < j < |rest| ensures Before(rest[i], rest[j]) { assert rest[i] == x[i + 1] && rest[j] == x[j + 1]; }
    forall i | 0 <= i < |rest| ensures rest[i] != x[0] {
      assert Before(x[0], x[i + 1]);
      NotBeforeItself(x[0]);
    }
  }

  lemma NotBeforeItself(a: Row)
    ensures !Before(a, a)
  {
    if Less(a.1, a.1) { LessAsymmetric(a.1, a.1); }
  }

  lemma FirstIsFirst(x: seq<Row>, y: seq<Row>)
    requires InOrder(x) && InOrder(y) && x != [] && y != [] && forall r :: r in x <==> r in y
    ensures x[0] == y[0]
  {
    hide Before;
    assert x[0] in y && y[0] in x by { assert x[0] in x && y[0] in y; }
    if x[0] != y[0] {
      var i :| 0 <= i < |y| && y[i] == x[0];
      var j :| 0 <= j < |x| && x[j] == y[0];
      assert Before(y[0], y[i]) && Before(x[0], x[j]);
      BeforeThen(x[0], y[0], x[0]);
      NotBeforeItself(x[0]);
    }
  }

  lemma SameIds(graph: DependencyGraph)
    requires graph.Indexed()
    ensures forall id :: id in graph.nodes <==> id in graph.ids
  {
    forall id | id in graph.nodes ensures id in graph.ids {
      var i :| 0 <= i < |graph.nodes| && graph.nodes[i] == id;
    }
  }

  /// Two known issues a number of hops apart, by the shortest way.
  ghost predicate Hops(graph: DependencyGraph, from: string, to: string, d: nat, incoming: bool)
    reads graph
  {
    exists u, v :: 0 <= u < |graph.nodes| && 0 <= v < |graph.nodes| && u != v && graph.nodes[u] == from
      && graph.nodes[v] == to && Distance(Facing(|graph.nodes|, graph.edges, incoming), u, v, d)
  }

  lemma DistanceNode(g: Graph, u: int, v: int, d: nat)
    requires Distance(g, u, v, d)
    ensures Node(g, v)
  {
    var s :| WalkIn(g, Everyone(g.n), s) && s[0] == u && s[|s| - 1] == v && |s| == d + 1;
  }

  lemma NamedRows(graph: DependencyGraph, issue: string, depth: nat, incoming: bool, found: seq<(nat, int)>, out: seq<(nat, string)>)
    requires graph.Valid() && issue in graph.ids && |out| == |found|
    requires var g := Facing(|graph.nodes|, graph.edges, incoming);
      && (forall d: nat, v :: (d, v) in found <==> v != graph.ids[issue] && d <= depth && Distance(g, graph.ids[issue], v, d))
      && forall k :: 0 <= k < |found| ==> Node(g, found[k].1) && out[k] == (found[k].0, graph.nodes[found[k].1])
    ensures forall d: nat, id :: (d, id) in out <==> Hops(graph, issue, id, d, incoming) && d <= depth
  {
    hide Distance, Cyclic;
    var (g, root) := (Facing(|graph.nodes|, graph.edges, incoming), graph.ids[issue]);
    forall d: nat, id ensures (d, id) in out <==> Hops(graph, issue, id, d, incoming) && d <= depth {
      if (d, id) in out {
        var k :| 0 <= k < |out| && out[k] == (d, id);
        assert (found[k].0, found[k].1) in found;
        assert graph.nodes[root] == issue && Distance(g, root, found[k].1, d);
      }
      if Hops(graph, issue, id, d, incoming) && d <= depth {
        var u, v :| 0 <= u < |graph.nodes| && 0 <= v < |graph.nodes| && u != v && graph.nodes[u] == issue
          && graph.nodes[v] == id && Distance(g, u, v, d);
        assert u == root;
        var k :| 0 <= k < |found| && found[k] == (d, v);
        assert out[k] == (d, id);
      }
    }
  }

  // ---- which way is which ----

  lemma NoHop(g: Graph, u: int, v: int)
    ensures Walk(g, Everyone(g.n), u, v, 0) ==> u == v
  {
    if Walk(g, Everyone(g.n), u, v, 0) {
      var s :| WalkIn(g, Everyone(g.n), s) && s[0] == u && s[|s| - 1] == v && |s| == 1;
    }
  }

  lemma OneHop(g: Graph, u: int, v: int)
    requires Node(g, u) && Node(g, v) && u != v
    ensures Distance(g, u, v, 1) <==> g.edge(u, v)
  {
    NoHop(g, u, v);
    if g.edge(u, v) { Step(g, Everyone(g.n), u, v); }
    if Walk(g, Everyone(g.n), u, v, 1) {
      var s :| WalkIn(g, Everyone(g.n), s) && s[0] == u && s[|s| - 1] == v && |s| == 2;
      assert g.edge(s[0], s[0 + 1]);
    }
  }

  lemma OneHopIs(graph: DependencyGraph, a: string, b: string, incoming: bool)
    ensures Hops(graph, a, b, 1, incoming) <==> DirectEdge(graph, a, b, incoming)
  {
    var g := Facing(|graph.nodes|, graph.edges, incoming);
    forall u, v | 0 <= u < |graph.nodes| && 0 <= v < |graph.nodes| && u != v ensures Distance(g, u, v, 1) <==> g.edge(u, v) {
      OneHop(g, u, v);
    }
    hide Distance;
    if DirectEdge(graph, a, b, incoming) {
      var u, v :| 0 <= u < |graph.nodes| && 0 <= v < |graph.nodes| && u != v && graph.nodes[u] == a && graph.nodes[v] == b
        && (if incoming then (v, u) in graph.edges else (u, v) in graph.edges);
      assert Distance(g, u, v, 1);
    }
  }

  ghost predicate DirectEdge(graph: DependencyGraph, a: string, b: string, incoming: bool)
    reads graph
  {
    exists u, v :: 0 <= u < |graph.nodes| && 0 <= v < |graph.nodes| && u != v && graph.nodes[u] == a && graph.nodes[v] == b
      && if incoming then (v, u) in graph.edges else (u, v) in graph.edges
  }

  /// One issue names another as a blocker.
  ghost predicate NamesAsBlocker(issues: seq<Waiting>, issue: string, blocker: string) {
    exists i, j :: 0 <= i < |issues| && 0 <= j < |issues| && i != j && issues[j].id == issue && issues[i].id == blocker
      && blocker in issues[j].blockedBy
  }

  /**
   One hop up is to what an issue names as its blockers, one hop down to what
   names it.
   */
  lemma UpIsToBlockers(graph: DependencyGraph, issues: seq<Waiting>, a: string, b: string)
    requires graph.Valid() && graph.nodes == Ids(issues)
    requires forall i, j :: (i, j) in graph.edges <==> Blocks(issues, i, j)
    ensures Hops(graph, a, b, 1, true) <==> NamesAsBlocker(issues, a, b)
    ensures Hops(graph, a, b, 1, false) <==> NamesAsBlocker(issues, b, a)
  {
    OneHopIs(graph, a, b, true);
    OneHopIs(graph, a, b, false);
    hide Hops, Cyclic;
    assert forall i :: 0 <= i < |issues| ==> graph.nodes[i] == issues[i].id;
    if NamesAsBlocker(issues, a, b) {
      var i, j :| 0 <= i < |issues| && 0 <= j < |issues| && i != j && issues[j].id == a && issues[i].id == b && b in issues[j].blockedBy;
      assert (i, j) in graph.edges && graph.nodes[j] == a && graph.nodes[i] == b;
    }
    if NamesAsBlocker(issues, b, a) {
      var i, j :| 0 <= i < |issues| && 0 <= j < |issues| && i != j && issues[j].id == b && issues[i].id == a && a in issues[j].blockedBy;
      assert (i, j) in graph.edges && graph.nodes[i] == a && graph.nodes[j] == b;
    }
  }
}
