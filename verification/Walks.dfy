/**
 Walks through the trust graph, and the groups it falls into (`structure`,
 `crates/vissue-core/src/consensus.rs`).
 */
module Walks {
  import opened Base

  datatype Graph = Graph(n: nat, edge: (int, int) -> bool)

  predicate Node(g: Graph, u: int) {
    0 <= u < g.n
  }

  /// A walk inside a set of nodes; its length is the number of its edges.
  ghost predicate WalkIn(g: Graph, inside: set<int>, s: seq<int>) {
    && s != []
    && (forall i :: 0 <= i < |s| ==> s[i] in inside)
    && forall i :: 0 <= i < |s| - 1 ==> g.edge(s[i], s[i + 1])
  }

  /// A walk of `len` edges inside the set from `u` to `v`.
  ghost predicate Walk(g: Graph, inside: set<int>, u: int, v: int, len: nat) {
    exists s :: WalkIn(g, inside, s) && s[0] == u && s[|s| - 1] == v && |s| == len + 1
  }

  ghost predicate Reaches(g: Graph, inside: set<int>, u: int, v: int) {
    exists len: nat :: Walk(g, inside, u, v, len)
  }

  lemma Stay(g: Graph, inside: set<int>, u: int)
    requires u in inside
    ensures Walk(g, inside, u, u, 0)
  {
    assert WalkIn(g, inside, [u]);
  }

  lemma Join(g: Graph, inside: set<int>, u: int, v: int, w: int, m: nat, n: nat)
    requires Walk(g, inside, u, v, m) && Walk(g, inside, v, w, n)
    ensures Walk(g, inside, u, w, m + n)
  {
    var s :| WalkIn(g, inside, s) && s[0] == u && s[|s| - 1] == v && |s| == m + 1;
    var t :| WalkIn(g, inside, t) && t[0] == v && t[|t| - 1] == w && |t| == n + 1;
    var r := s + t[1..];
    forall i | 0 <= i < |r| - 1 ensures g.edge(r[i], r[i + 1]) {
      if i >= |s| - 1 {
        assert r[i] == t[i - m] && r[i + 1] == t[i + 1 - m];
      }
    }
    assert WalkIn(g, inside, r);
  }

  lemma Step(g: Graph, inside: set<int>, u: int, v: int)
    requires u in inside && v in inside && g.edge(u, v)
    ensures Walk(g, inside, u, v, 1)
  {
    assert WalkIn(g, inside, [u, v]);
  }

  /// A set no edge leaves, as seen from inside another.
  ghost predicate Keeps(g: Graph, inside: set<int>, kept: set<int>) {
    forall u, v :: u in kept && v in inside && g.edge(u, v) ==> v in kept
  }

  lemma {:induction false} WalkStays(g: Graph, inside: set<int>, kept: set<int>, s: seq<int>)
    requires WalkIn(g, inside, s) && Keeps(g, inside, kept) && s[0] in kept
    ensures forall i :: 0 <= i < |s| ==> s[i] in kept
    decreases |s|
  {
    if |s| > 1 {
      var r := s[..|s| - 1];
      WalkStays(g, inside, kept, r);
      var (u, v) := (s[|s| - 2], s[|s| - 2 + 1]);
      assert r[|s| - 2] == u;
      assert u in kept && g.edge(u, v) && v in inside;
      assert v in kept;
      forall i | 0 <= i < |s| ensures s[i] in kept {
        if i < |s| - 1 { assert s[i] == r[i]; }
      }
    }
  }

  lemma ReachStays(g: Graph, inside: set<int>, kept: set<int>, u: int, v: int)
    requires Keeps(g, inside, kept) && u in kept && Reaches(g, inside, u, v)
    ensures v in kept
  {
    var len: nat :| Walk(g, inside, u, v, len);
    var s :| WalkIn(g, inside, s) && s[0] == u && s[|s| - 1] == v && |s| == len + 1;
    WalkStays(g, inside, kept, s);
  }

  lemma ReachJoin(g: Graph, inside: set<int>, u: int, v: int, w: int)
    requires Reaches(g, inside, u, v) && Reaches(g, inside, v, w)
    ensures Reaches(g, inside, u, w)
  {
    var m: nat :| Walk(g, inside, u, v, m);
    var n: nat :| Walk(g, inside, v, w, n);
    Join(g, inside, u, v, w, m, n);
  }

  // ---- through the whole graph ----

  ghost predicate Linked(g: Graph, u: int, v: int) {
    Reaches(g, Everyone(g.n), u, v)
  }

  lemma LinkedToSelf(g: Graph, u: int)
    requires Node(g, u)
    ensures Linked(g, u, u)
  {
    Stay(g, Everyone(g.n), u);
  }

  lemma LinkedOn(g: Graph, u: int, v: int, w: int)
    requires Linked(g, u, v) && Node(g, v) && Node(g, w) && g.edge(v, w)
    ensures Linked(g, u, w)
  {
    Step(g, Everyone(g.n), v, w);
    ReachJoin(g, Everyone(g.n), u, v, w);
  }

  lemma LinkedTwice(g: Graph, u: int, v: int, w: int)
    requires Linked(g, u, v) && Linked(g, v, w)
    ensures Linked(g, u, w)
  {
    ReachJoin(g, Everyone(g.n), u, v, w);
  }
}
