/**
 The closed walks of a strongly connected group: they have a period, and with
 period one there is one of every large length (what `period`,
 `crates/vissue-core/src/consensus.rs`, is asked for).
 */
module LongWalks {
  import opened Divisors
  import opened Walks
  import opened Period

  /// A closed walk at the root.
  ghost predicate Loop(g: Graph, group: set<int>, root: int, len: nat) {
    Walk(g, group, root, root, len)
  }

  lemma LoopsAdd(g: Graph, group: set<int>, root: int, a: nat, b: nat)
    requires Loop(g, group, root, a) && Loop(g, group, root, b)
    ensures Loop(g, group, root, a + b)
  {
    Join(g, group, root, root, root, a, b);
  }

  lemma {:induction false} LoopRepeats(g: Graph, group: set<int>, root: int, a: nat, k: nat)
    requires Loop(g, group, root, a) && root in group
    ensures Times(k, a) >= 0 && Loop(g, group, root, Times(k, a))
  {
    hide Loop;
    if k == 0 {
      NoLoop(g, group, root);
    } else {
      LoopRepeats(g, group, root, a, k - 1);
      LoopsAdd(g, group, root, Times(k - 1, a), a);
      OneMoreTime(k, a);
    }
  }

  lemma NoLoop(g: Graph, group: set<int>, root: int)
    requires root in group
    ensures Loop(g, group, root, 0)
  {
    Stay(g, group, root);
  }

  lemma OneMoreTime(k: int, a: int)
    ensures Times(k - 1, a) + a == Times(k, a)
  {
  }

  /// Two closed walks at the root whose lengths are `e` apart.
  ghost predicate Apart(g: Graph, group: set<int>, root: int, e: nat) {
    exists b: nat :: Loop(g, group, root, b) && Loop(g, group, root, b + e)
  }

  /// Any closed walk of the group is such a distance.
  lemma CycleIsApart(g: Graph, group: set<int>, root: int, len: nat)
    requires root in group && Strong(g, group) && Cycle(g, group, len)
    ensures Apart(g, group, root, len)
  {
    hide Walk;
    var u :| u in group && Walk(g, group, u, u, len);
    assert Reaches(g, group, root, u) && Reaches(g, group, u, root);
    var p: nat :| Walk(g, group, root, u, p);
    var q: nat :| Walk(g, group, u, root, q);
    Join(g, group, root, u, root, p, q);
    Join(g, group, root, u, u, p, len);
    Join(g, group, root, u, root, p + len, q);
    assert Loop(g, group, root, p + q) && Loop(g, group, root, p + q + len);
  }

  /// What is left of one distance once another is taken off it is a distance.
  lemma ApartLess(g: Graph, group: set<int>, root: int, len: nat, e: nat, q: nat)
    requires root in group && Apart(g, group, root, len) && Apart(g, group, root, e) && len >= Times(q, e)
    ensures Apart(g, group, root, len - Times(q, e))
  {
    var b: nat :| Loop(g, group, root, b) && Loop(g, group, root, b + e);
    var c: nat :| Loop(g, group, root, c) && Loop(g, group, root, c + len);
    LoopRepeats(g, group, root, b, q);
    LoopRepeats(g, group, root, b + e, q);
    hide Loop;
    LoopsAdd(g, group, root, c + len, Times(q, b));
    LoopsAdd(g, group, root, c, Times(q, b + e));
    Distribute(q, b, e);
    var low := c + Times(q, b + e);
    assert low + (len - Times(q, e)) == c + len + Times(q, b);
  }

  lemma Distribute(q: int, b: int, e: int)
    ensures Times(q, b + e) == Times(q, b) + Times(q, e)
  {
  }

  /// The least distance divides every closed walk, and every divisor of the
  /// closed walks divides it.
  lemma LeastIsPeriod(g: Graph, group: set<int>, root: int, e: nat)
    requires root in group && Strong(g, group) && e > 0 && Apart(g, group, root, e)
    requires forall d: nat :: 0 < d < e ==> !Apart(g, group, root, d)
    ensures IsPeriod(g, group, e)
  {
    hide Loop, Walk, Apart, Divides;
    forall len: nat | Cycle(g, group, len) ensures Divides(e, len) {
      CycleIsApart(g, group, root, len);
      LeastDivides(g, group, root, e, len);
    }
    forall d | forall len: nat :: Cycle(g, group, len) ==> Divides(d, len) ensures Divides(d, e) {
      DividesApart(g, group, root, e, d);
    }
  }

  lemma LeastDivides(g: Graph, group: set<int>, root: int, e: nat, len: nat)
    requires root in group && e > 0 && Apart(g, group, root, e) && Apart(g, group, root, len)
    requires forall d: nat :: 0 < d < e ==> !Apart(g, group, root, d)
    ensures Divides(e, len)
  {
    var (q, r) := (len / e, len % e);
    assert len == Times(q, e) + r;
    hide Apart;
    ApartLess(g, group, root, len, e, q);
    assert r == 0;
  }

  lemma DividesApart(g: Graph, group: set<int>, root: int, e: nat, d: int)
    requires root in group && Apart(g, group, root, e) && forall len: nat :: Cycle(g, group, len) ==> Divides(d, len)
    ensures Divides(d, e)
  {
    hide Divides, Walk;
    var b: nat :| Loop(g, group, root, b) && Loop(g, group, root, b + e);
    assert Cycle(g, group, b) && Cycle(g, group, b + e);
    DividesSum(d, b + e, b);
    assert b + e - b == e;
  }

  lemma {:induction false} LeastApart(g: Graph, group: set<int>, root: int, e: nat) returns (least: nat)
    requires e > 0 && Apart(g, group, root, e)
    ensures 0 < least <= e && Apart(g, group, root, least)
    ensures forall d: nat :: 0 < d < least ==> !Apart(g, group, root, d)
  {
    hide Apart;
    if d: nat :| 0 < d < e && Apart(g, group, root, d) {
      least := LeastApart(g, group, root, d);
    } else {
      least := e;
    }
  }

  /// A strong group with an edge in it has a period, and two closed walks at
  /// the root that far apart.
  lemma PeriodExists(g: Graph, group: set<int>, root: int) returns (p: nat)
    requires root in group && Strong(g, group) && exists v :: v in group && g.edge(root, v)
    ensures p > 0 && IsPeriod(g, group, p) && Apart(g, group, root, p)
  {
    hide Apart, IsPeriod;
    var v :| v in group && g.edge(root, v);
    assert Reaches(g, group, v, root);
    var back: nat :| Walk(g, group, v, root, back);
    Step(g, group, root, v);
    Join(g, group, root, v, root, 1, back);
    assert Cycle(g, group, 1 + back);
    CycleIsApart(g, group, root, 1 + back);
    p := LeastApart(g, group, root, 1 + back);
    LeastIsPeriod(g, group, root, p);
  }

  // ---- period one ----

  /// Closed walks one apart make every large length.
  lemma EveryLargeLength(g: Graph, group: set<int>, root: int) returns (from: nat)
    requires root in group && Apart(g, group, root, 1)
    ensures forall len: nat :: len >= from ==> Loop(g, group, root, len)
  {
    var b: nat :| Loop(g, group, root, b) && Loop(g, group, root, b + 1);
    from := Times(b, b);
    SquareNotNegative(b);
    hide Loop;
    forall len: nat | len >= from ensures Loop(g, group, root, len) {
      LargeLength(g, group, root, b, len);
    }
  }

  lemma SquareNotNegative(b: nat)
    ensures Times(b, b) >= 0
  {
  }

  lemma LargeLength(g: Graph, group: set<int>, root: int, b: nat, len: nat)
    requires root in group && Loop(g, group, root, b) && Loop(g, group, root, b + 1) && len >= Times(b, b)
    ensures Loop(g, group, root, len)
  {
    hide Loop;
    if b == 0 {
      LoopRepeats(g, group, root, 1, len);
      assert Times(len, 1) == len;
    } else {
      var (q, r) := (len / b, len % b);
      QuotientAtLeast(len, b);
      LoopRepeats(g, group, root, b, q - r);
      LoopRepeats(g, group, root, b + 1, r);
      LoopsAdd(g, group, root, Times(q - r, b), Times(r, b + 1));
      Recombine(q, r, b);
    }
  }

  lemma QuotientAtLeast(len: nat, b: nat)
    requires b > 0 && len >= Times(b, b)
    ensures len / b >= b > len % b && len == Times(len / b, b) + len % b
  {
    var (q, r) := (len / b, len % b);
    assert len == q * b + r;
    TimesOrder(q, b);
  }

  lemma TimesOrder(q: nat, b: nat)
    ensures q < b ==> q * b + b <= b * b
  {
    if q < b {
      NonNegativeTimes(b - q - 1, b);
      assert (b - q - 1) * b == b * b - q * b - b;
    }
  }

  lemma NonNegativeTimes(a: nat, b: nat)
    ensures a * b >= 0
  {
  }

  lemma Recombine(q: int, r: int, b: int)
    ensures Times(q - r, b) + Times(r, b + 1) == Times(q, b) + r
  {
  }

  /// From every member there is a walk to the root of one and the same length.
  lemma AllReachAtOnce(g: Graph, group: set<int>, root: int) returns (len: nat)
    requires root in group && Strong(g, group) && Apart(g, group, root, 1) && forall v :: v in group ==> 0 <= v < g.n
    ensures forall v :: v in group ==> Walk(g, group, v, root, len)
  {
    var from := EveryLargeLength(g, group, root);
    hide Loop, Walk;
    var far := FarEnough(g, group, root, g.n);
    len := from + far;
    forall v | v in group ensures Walk(g, group, v, root, len) {
      var d: nat :| d <= far && Walk(g, group, v, root, d);
      assert Loop(g, group, root, len - d);
      LoopIsWalk(g, group, root, len - d);
      Join(g, group, v, root, root, d, len - d);
    }
  }

  lemma LoopIsWalk(g: Graph, group: set<int>, root: int, len: nat)
    ensures Loop(g, group, root, len) <==> Walk(g, group, root, root, len)
  {
  }

  lemma {:induction false} FarEnough(g: Graph, group: set<int>, root: int, n: nat) returns (far: nat)
    requires root in group && Strong(g, group)
    ensures forall v :: v in group && 0 <= v < n ==> exists d: nat :: d <= far && Walk(g, group, v, root, d)
  {
    hide Walk;
    far := 0;
    if n > 0 {
      var f := FarEnough(g, group, root, n - 1);
      far := f;
      if n - 1 in group {
        assert Reaches(g, group, n - 1, root);
        var d: nat :| Walk(g, group, n - 1, root, d);
        far := if f < d then d else f;
      }
    }
  }
}
