/**
 The graph of who waits for whom (`DependencyGraph`,
 `crates/vissue-core/src/graph.rs`). A blocker edge points from the issue waited
 for to the issue waiting.
 */
module BlockerGraph {
  import opened Base
  import opened Walks

  /// An issue as the graph sees it: its id and the ids it names as blockers.
  datatype Waiting = Waiting(id: string, blockedBy: seq<string>)

  /// Some walk of one edge or more comes back to where it began.
  ghost predicate Cyclic(g: Graph) {
    exists u, v :: Node(g, u) && Node(g, v) && g.edge(u, v) && Linked(g, v, u)
  }

  function EdgesGraph(n: nat, edges: set<(int, int)>): Graph {
    Graph(n, (u, v) => (u, v) in edges)
  }

  // ---- adding one edge ----

  lemma {:induction false} WalkWithEdge(n: nat, edges: set<(int, int)>, a: int, b: int, s: seq<int>)
    requires 0 <= a < n && 0 <= b < n && WalkIn(EdgesGraph(n, edges + {(a, b)}), Everyone(n), s)
    ensures var g := EdgesGraph(n, edges);
      Linked(g, s[0], s[|s| - 1]) || (Linked(g, s[0], a) && Linked(g, b, s[|s| - 1]))
    decreases |s|
  {
    var g := EdgesGraph(n, edges);
    hide Linked;
    if |s| == 1 {
      LinkedToSelf(g, s[0]);
    } else {
      var (r, w, v) := (s[..|s| - 1], s[|s| - 2], s[|s| - 2 + 1]);
      WalkWithEdge(n, edges, a, b, r);
      assert (w, v) in edges + {(a, b)} && Node(g, w) && Node(g, v);
      if (w, v) in edges {
        if Linked(g, s[0], w) { LinkedOn(g, s[0], w, v); } else { LinkedOn(g, b, w, v); }
      } else {
        LinkedToSelf(g, b);
      }
    }
  }

  lemma MoreEdges(n: nat, edges: set<(int, int)>, more: set<(int, int)>, u: int, v: int)
    requires edges <= more && Linked(EdgesGraph(n, edges), u, v)
    ensures Linked(EdgesGraph(n, more), u, v)
  {
    var len: nat :| Walk(EdgesGraph(n, edges), Everyone(n), u, v, len);
    var s :| WalkIn(EdgesGraph(n, edges), Everyone(n), s) && s[0] == u && s[|s| - 1] == v && |s| == len + 1;
    assert WalkIn(EdgesGraph(n, more), Everyone(n), s);
    assert Walk(EdgesGraph(n, more), Everyone(n), u, v, len);
  }

  /// An edge closes a cycle exactly when its end already reaches its start.
  lemma EdgeClosesCycle(n: nat, edges: set<(int, int)>, a: int, b: int)
    requires 0 <= a < n && 0 <= b < n && !Cyclic(EdgesGraph(n, edges))
    ensures Cyclic(EdgesGraph(n, edges + {(a, b)})) <==> Linked(EdgesGraph(n, edges), b, a)
  {
    var (g, m) := (EdgesGraph(n, edges), EdgesGraph(n, edges + {(a, b)}));
    if Linked(g, b, a) {
      MoreEdges(n, edges, edges + {(a, b)}, b, a);
      assert Node(m, a) && Node(m, b) && m.edge(a, b);
    }
    if Cyclic(m) {
      CycleUsesEdge(n, edges, a, b);
    }
  }

  lemma CycleUsesEdge(n: nat, edges: set<(int, int)>, a: int, b: int)
    requires 0 <= a < n && 0 <= b < n && !Cyclic(EdgesGraph(n, edges)) && Cyclic(EdgesGraph(n, edges + {(a, b)}))
    ensures Linked(EdgesGraph(n, edges), b, a)
  {
    var (g, m) := (EdgesGraph(n, edges), EdgesGraph(n, edges + {(a, b)}));
    var u, v :| Node(m, u) && Node(m, v) && m.edge(u, v) && Linked(m, v, u);
    LinkedWithEdge(n, edges, a, b, v, u);
    hide Linked;
    assert Node(g, u) && Node(g, v);
    if (u, v) in edges {
      assert !Linked(g, v, u);
      LinkedOn(g, b, u, v);
      LinkedTwice(g, b, v, a);
    }
  }

  lemma LinkedWithEdge(n: nat, edges: set<(int, int)>, a: int, b: int, u: int, v: int)
    requires 0 <= a < n && 0 <= b < n && Linked(EdgesGraph(n, edges + {(a, b)}), u, v)
    ensures var g := EdgesGraph(n, edges); Linked(g, u, v) || (Linked(g, u, a) && Linked(g, b, v))
  {
    var m := EdgesGraph(n, edges + {(a, b)});
    var len: nat :| Walk(m, Everyone(n), u, v, len);
    var s :| WalkIn(m, Everyone(n), s) && s[0] == u && s[|s| - 1] == v && |s| == len + 1;
    WalkWithEdge(n, edges, a, b, s);
  }

  // ---- searching ----

  ghost predicate Found(g: Graph, u: int, seen: set<int>) {
    u in seen && forall x :: x in seen ==> Node(g, x) && Linked(g, u, x)
  }

  /// Every successor of what was seen and is not waiting was seen.
  ghost predicate Explored(g: Graph, seen: set<int>, waiting: set<int>) {
    waiting <= seen && forall x, y :: x in seen && x !in waiting && Node(g, y) && g.edge(x, y) ==> y in seen
  }

  method SearchOne(n: nat, edges: set<(int, int)>, ghost u: int, before: set<int>, waiting: seq<int>, node: int)
    returns (seen: set<int>, queue: seq<int>)
    requires Found(EdgesGraph(n, edges), u, before) && Explored(EdgesGraph(n, edges), before, Elems(waiting) + {node})
    ensures Found(EdgesGraph(n, edges), u, seen) && Explored(EdgesGraph(n, edges), seen, Elems(queue))
    ensures before <= seen && (seen == before ==> queue == waiting)
  {
    ghost var g := EdgesGraph(n, edges);
    seen, queue := before, waiting;
    hide Linked, Found, Explored;
    for y := 0 to n
      invariant before <= seen && (seen == before ==> queue == waiting)
      invariant Found(g, u, seen) && Explored(g, seen, Elems(queue) + {node})
      invariant forall z :: 0 <= z < y && g.edge(node, z) ==> z in seen
    {
      if (node, y) in edges && y !in seen {
        SeeOne(g, u, seen, Elems(queue), node, y);
        seen := seen + {y};
        assert Elems(queue + [y]) == Elems(queue) + {y};
        queue := queue + [y];
      }
    }
    OneExplored(g, seen, Elems(queue), node);
  }

  lemma SeeOne(g: Graph, u: int, seen: set<int>, waiting: set<int>, node: int, y: int)
    requires Found(g, u, seen) && Explored(g, seen, waiting + {node}) && Node(g, y) && g.edge(node, y)
    ensures Found(g, u, seen + {y}) && Explored(g, seen + {y}, waiting + {y} + {node})
  {
    hide Linked;
    assert node in seen;
    LinkedOn(g, u, node, y);
  }

  lemma OneExplored(g: Graph, seen: set<int>, waiting: set<int>, node: int)
    requires Explored(g, seen, waiting + {node}) && forall z :: 0 <= z < g.n && g.edge(node, z) ==> z in seen
    ensures Explored(g, seen, waiting)
  {
  }

  /// Whether a path leads from `u` to `v`, of no edge when they are the same.
  method HasPath(n: nat, edges: set<(int, int)>, u: int, v: int) returns (found: bool)
    requires 0 <= u < n
    ensures found <==> Linked(EdgesGraph(n, edges), u, v)
  {
    ghost var g := EdgesGraph(n, edges);
    LinkedToSelf(g, u);
    var seen := {u};
    var queue := [u];
    assert Elems(queue) == {u} && Found(g, u, seen) && Explored(g, seen, Elems(queue));
    while queue != []
      invariant Found(g, u, seen) && Explored(g, seen, Elems(queue))
      decreases |Everyone(n) - seen|, |queue|
    {
      hide Linked, Explored;
      var before := seen;
      assert Elems(queue) == Elems(queue[1..]) + {queue[0]};
      seen, queue := SearchOne(n, edges, u, seen, queue[1..], queue[0]);
      InRange(g, u, seen);
      FewerLeft(Everyone(n), before, seen);
    }
    SearchIsComplete(g, u, seen);
    found := v in seen;
  }

  lemma InRange(g: Graph, u: int, seen: set<int>)
    requires Found(g, u, seen)
    ensures seen <= Everyone(g.n)
  {
    hide Linked;
    forall x | x in seen ensures x in Everyone(g.n) { assert Node(g, x); }
  }

  lemma SearchIsComplete(g: Graph, u: int, seen: set<int>)
    requires Found(g, u, seen) && Explored(g, seen, Elems([]))
    ensures forall x :: Linked(g, u, x) <==> x in seen
  {
    forall x | Linked(g, u, x) ensures x in seen { AllFound(g, seen, u, x); }
  }

  lemma AllFound(g: Graph, seen: set<int>, u: int, x: int)
    requires u in seen && Linked(g, u, x)
    requires forall y, z :: y in seen && Node(g, z) && g.edge(y, z) ==> z in seen
    ensures x in seen
  {
    forall y, z | y in seen && z in Everyone(g.n) && g.edge(y, z) ensures z in seen {
      assert Node(g, z);
    }
    ReachStays(g, Everyone(g.n), seen, u, x);
  }

  // ---- the graph of a list of issues ----

  function Ids(issues: seq<Waiting>): seq<string> {
    seq(|issues|, i requires 0 <= i < |issues| => issues[i].id)
  }

  /// Issue `i` is named as a blocker by issue `j`.
  predicate Blocks(issues: seq<Waiting>, i: int, j: int) {
    0 <= i < |issues| && 0 <= j < |issues| && issues[i].id in issues[j].blockedBy
  }

  function KnownGraph(issues: seq<Waiting>): Graph {
    Graph(|issues|, (i, j) => Blocks(issues, i, j))
  }

  /// The edges the first `j` issues name, and the first `k` blockers of the
  /// next.
  ghost predicate EdgesUpTo(issues: seq<Waiting>, j: int, k: int, edges: set<(int, int)>)
    requires 0 <= j <= |issues| && 0 <= k && (j < |issues| ==> k <= |issues[j].blockedBy|) && (j == |issues| ==> k == 0)
  {
    forall a, b :: (a, b) in edges <==>
      && Blocks(issues, a, b)
      && (b < j || (b == j && issues[a].id in issues[j].blockedBy[..k]))
  }

  lemma SameCycles(g: Graph, m: Graph)
    requires g.n == m.n && forall u, v :: Node(g, u) && Node(g, v) ==> (g.edge(u, v) ==> m.edge(u, v))
    requires Cyclic(g)
    ensures Cyclic(m)
  {
    var u, v :| Node(g, u) && Node(g, v) && g.edge(u, v) && Linked(g, v, u);
    var len: nat :| Walk(g, Everyone(g.n), v, u, len);
    var s :| WalkIn(g, Everyone(g.n), s) && s[0] == v && s[|s| - 1] == u && |s| == len + 1;
    forall i | 0 <= i < |s| - 1 ensures m.edge(s[i], s[i + 1]) {
      assert Node(g, s[i]) && Node(g, s[i + 1]);
    }
    assert WalkIn(m, Everyone(m.n), s);
    assert Walk(m, Everyone(m.n), v, u, len);
    assert Node(m, u) && Node(m, v) && m.edge(u, v);
  }

  /// Taking in one more named blocker: issue `i`, or nobody known.
  lemma OneMoreBlocker(issues: seq<Waiting>, j: int, k: int, edges: set<(int, int)>, known: set<int>)
    requires 0 <= j < |issues| && 0 <= k < |issues[j].blockedBy| && EdgesUpTo(issues, j, k, edges)
    requires forall i :: i in known <==> 0 <= i < |issues| && issues[i].id == issues[j].blockedBy[k]
    ensures EdgesUpTo(issues, j, k + 1, edges + set i | i in known :: (i, j))
  {
    var (named, more) := (issues[j].blockedBy, edges + set i | i in known :: (i, j));
    forall a, b ensures (a, b) in more <==>
        Blocks(issues, a, b) && (b < j || (b == j && issues[a].id in named[..k + 1]))
    {
      assert named[..k + 1] == named[..k] + [named[k]];
      assert (a, b) in more <==> (a, b) in edges || (b == j && a in known);
    }
  }

  lemma PartCyclic(issues: seq<Waiting>, j: int, k: int, edges: set<(int, int)>)
    requires 0 <= j <= |issues| && 0 <= k && (j < |issues| ==> k <= |issues[j].blockedBy|) && (j == |issues| ==> k == 0)
    requires EdgesUpTo(issues, j, k, edges)
    ensures Cyclic(EdgesGraph(|issues|, edges)) ==> Cyclic(KnownGraph(issues))
    ensures j == |issues| && Cyclic(KnownGraph(issues)) ==> Cyclic(EdgesGraph(|issues|, edges))
  {
    var (g, m) := (EdgesGraph(|issues|, edges), KnownGraph(issues));
    if Cyclic(g) { SameCycles(g, m); }
    if j == |issues| && Cyclic(m) {
      forall u, v | Node(m, u) && Node(m, v) && m.edge(u, v) ensures g.edge(u, v) {
        assert Blocks(issues, u, v);
      }
      SameCycles(m, g);
    }
  }

  class DependencyGraph {
    var nodes: seq<string>
    var ids: map<string, int>
    var edges: set<(int, int)>

    ghost predicate Indexed()
      reads this
    {
      && (forall id :: id in ids ==> 0 <= ids[id] < |nodes| && nodes[ids[id]] == id)
      && (forall i :: 0 <= i < |nodes| ==> nodes[i] in ids && ids[nodes[i]] == i)
    }

    ghost predicate Valid()
      reads this
    {
      Indexed() && !Cyclic(EdgesGraph(|nodes|, edges))
    }

    constructor ()
      ensures Indexed() && nodes == [] && edges == {}
    {
      nodes, ids, edges := [], map[], {};
    }

    /// Refused for an id already there.
    method AddNode(id: string) returns (ok: bool)
      requires Indexed()
      modifies this
      ensures Indexed() && edges == old(edges)
      ensures ok <==> id !in old(nodes)
      ensures nodes == if ok then old(nodes) + [id] else old(nodes)
    {
      if id in ids {
        assert nodes[ids[id]] == id;
        return false;
      }
      ids := ids[id := |nodes|];
      nodes := nodes + [id];
      ok := true;
    }

    /// Refused for an edge that would close a cycle; the edges are then as
    /// they were.
    method AddEdge(from: int, to: int) returns (ok: bool)
      requires Valid() && 0 <= from < |nodes| && 0 <= to < |nodes|
      modifies this`edges
      ensures Valid()
      ensures ok <==> !Cyclic(EdgesGraph(|nodes|, old(edges) + {(from, to)}))
      ensures edges == if ok then old(edges) + {(from, to)} else old(edges)
    {
      EdgeClosesCycle(|nodes|, edges, from, to);
      if from == to {
        LinkedToSelf(EdgesGraph(|nodes|, edges), from);
        return false;
      }
      if (from, to) in edges {
        assert edges + {(from, to)} == edges;
        return true;
      }
      var closes := HasPath(|nodes|, edges, to, from);
      if !closes {
        edges := edges + {(from, to)};
      }
      ok := !closes;
    }

    /// Whether a blocker may be named: for two known issues, exactly when the
    /// edge keeps the graph free of cycles.
    method AcceptsEdge(blocker: string, issue: string) returns (ok: bool)
      requires Valid()
      ensures blocker !in nodes || issue !in nodes ==> ok
      ensures forall i, j :: 0 <= i < |nodes| && 0 <= j < |nodes| && nodes[i] == blocker && nodes[j] == issue ==>
        (ok <==> !Cyclic(EdgesGraph(|nodes|, edges + {(i, j)})))
    {
      if blocker !in ids || issue !in ids {
        return true;
      }
      var (from, to) := (ids[blocker], ids[issue]);
      EdgeClosesCycle(|nodes|, edges, from, to);
      if from == to {
        LinkedToSelf(EdgesGraph(|nodes|, edges), from);
        return false;
      }
      var closes := HasPath(|nodes|, edges, to, from);
      ok := !closes;
    }
  }

  method AddNodes(issues: seq<Waiting>) returns (graph: DependencyGraph, ok: bool)
    ensures fresh(graph) && graph.Indexed() && graph.edges == {}
    ensures ok <==> Distinct(Ids(issues))
    ensures ok ==> graph.nodes == Ids(issues)
  {
    graph := new DependencyGraph();
    for i := 0 to |issues|
      invariant fresh(graph) && graph.Indexed() && graph.edges == {} && graph.nodes == Ids(issues)[..i]
      invariant Distinct(Ids(issues)[..i])
    {
      ok := graph.AddNode(issues[i].id);
      if !ok {
        var k :| 0 <= k < i && graph.nodes[k] == issues[i].id;
        assert Ids(issues)[k] == Ids(issues)[i];
        return;
      }
    }
    assert Ids(issues)[..|issues|] == Ids(issues);
    ok := true;
  }

  method AddBlockers(graph: DependencyGraph, issues: seq<Waiting>, j: nat) returns (ok: bool)
    requires graph.Valid() && graph.nodes == Ids(issues) && j < |issues| && EdgesUpTo(issues, j, 0, graph.edges)
    modifies graph`edges
    ensures graph.Valid()
    ensures ok ==> EdgesUpTo(issues, j + 1, 0, graph.edges)
    ensures !ok ==> Cyclic(KnownGraph(issues))
  {
    hide Cyclic;
    var named := issues[j].blockedBy;
    for k := 0 to |named|
      invariant graph.Valid() && EdgesUpTo(issues, j, k, graph.edges)
    {
      assert forall i :: 0 <= i < |issues| ==> graph.nodes[i] == issues[i].id && graph.nodes[i] in graph.ids;
      if named[k] !in graph.ids {
        OneMoreBlocker(issues, j, k, graph.edges, {});
        assert graph.edges + (set i: int | i in {} :: (i, j)) == graph.edges;
        continue;
      }
      var from := graph.ids[named[k]];
      ghost var before := graph.edges;
      assert forall i :: 0 <= i < |issues| && graph.nodes[i] == named[k] ==> i == from;
      ok := graph.AddEdge(from, j);
      OneMoreBlocker(issues, j, k, before, {from});
      assert before + (set i: int | i in {from} :: (i, j)) == before + {(from, j)};
      if !ok {
        PartCyclic(issues, j, k + 1, before + {(from, j)});
        return;
      }
    }
    assert named[..|named|] == named;
    ok := true;
  }

  /**
   Building the graph succeeds exactly when no id is there twice and the blocker
   edges between known issues close no cycle; it then has exactly those edges.
   */
  method FromHeadings(issues: seq<Waiting>) returns (graph: DependencyGraph, ok: bool)
    ensures ok <==> Distinct(Ids(issues)) && !Cyclic(KnownGraph(issues))
    ensures ok ==> fresh(graph) && graph.Valid() && graph.nodes == Ids(issues)
    ensures ok ==> forall i, j :: (i, j) in graph.edges <==> Blocks(issues, i, j)
  {
    graph, ok := AddNodes(issues);
    if !ok {
      return;
    }
    NoEdgesNoCycle(|issues|);
    assert graph.Valid();
    hide Cyclic;
    for j := 0 to |issues|
      invariant fresh(graph) && graph.Valid() && graph.nodes == Ids(issues) && EdgesUpTo(issues, j, 0, graph.edges)
    {
      ok := AddBlockers(graph, issues, j);
      if !ok {
        return;
      }
    }
    PartCyclic(issues, |issues|, 0, graph.edges);
    ok := true;
  }

  lemma NoEdgesNoCycle(n: nat)
    ensures !Cyclic(EdgesGraph(n, {}))
  {
  }
}
