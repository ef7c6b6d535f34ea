/**
 A closed unanchored group of period one draws together: its opinions come as
 near each other as one likes, in a round its trust alone decides (`iterate`,
 `crates/vissue-core/src/consensus.rs`).
 */
module Mixing {
  import opened Linear
  import opened Opinions
  import opened Limits
  import opened Walks
  import opened Period
  import opened Structure
  import opened LongWalks
  import opened Anchoring

  // ---- the weight of a walk ----

  function WalkWeight(w: Matrix, s: seq<int>): real {
    if |s| <= 1 then 1.0 else At(w, s[0], s[1]) * WalkWeight(w, s[1..])
  }

  lemma EntryAtMostOne(w: Matrix, n: nat, i: nat, j: nat)
    requires RowsSumToOne(w, n, n) && i < n && j < n
    ensures 0.0 <= At(w, i, j) <= 1.0
  {
    SharesAreAtMostOne(w, n, n, i);
  }

  lemma ProductInRange(a: real, b: real)
    requires 0.0 < a <= 1.0 && 0.0 < b <= 1.0
    ensures 0.0 < a * b <= 1.0
  {
    Positive(a, b);
    ScaleOrder(a, b, 1.0);
  }

  lemma {:induction false} WalkWeightInRange(w: Matrix, n: nat, group: set<int>, s: seq<int>)
    requires RowsSumToOne(w, n, n) && WalkIn(GraphOf(w, n), group, s) && forall i :: i in group ==> 0 <= i < n
    ensures 0.0 < WalkWeight(w, s) <= 1.0
    decreases |s|
  {
    hide RowsSumToOne, At;
    if |s| > 1 {
      WalkTail(GraphOf(w, n), group, s);
      WalkWeightInRange(w, n, group, s[1..]);
      EntryAtMostOne(w, n, s[0], s[1]);
      ProductInRange(At(w, s[0], s[1]), WalkWeight(w, s[1..]));
    }
  }

  // ---- one opinion draws the mean ----

  lemma Shifted(n: nat, w: int -> real, x: int -> real, a: real, b: real, y: int -> real)
    requires Distribution(n, w) && forall k :: 0 <= k < n ==> y(k) == a * x(k) + b
    ensures Sum(n, Weighted(w, y)) == a * Sum(n, Weighted(w, x)) + b
  {
    forall k | 0 <= k < n ensures Weighted(w, y)(k) == a * Weighted(w, x)(k) + b * w(k) {
      OverSum(w(k), x(k), a, b);
    }
    hide Sum, Weighted;
    SumLinear(n, a, Weighted(w, x), b, w, Weighted(w, y));
  }

  lemma OverSum(w: real, x: real, a: real, b: real)
    ensures w * (a * x + b) == a * (w * x) + b * w
  {
  }

  /// The mean of what is not negative is at least one weighted part of it.
  lemma MeanOfOne(n: nat, w: int -> real, y: int -> real, j: nat)
    requires Distribution(n, w) && j < n && forall k :: 0 <= k < n && w(k) > 0.0 ==> y(k) >= 0.0
    ensures Sum(n, Weighted(w, y)) >= w(j) * y(j)
  {
    forall k | 0 <= k < n ensures Weighted(w, y)(k) >= 0.0 {
      if w(k) > 0.0 { NotNegative(w(k), y(k)); }
    }
    hide Sum;
    SumNotNegative(n, Weighted(w, y));
    assert Weighted(w, y)(j) == w(j) * y(j);
  }

  lemma MeanWithOne(n: nat, w: int -> real, x: int -> real, j: nat, low: real)
    requires Distribution(n, w) && j < n && forall k :: 0 <= k < n && w(k) > 0.0 ==> low <= x(k)
    ensures Sum(n, Weighted(w, x)) >= low + w(j) * (x(j) - low)
  {
    var above: int -> real := k => 1.0 * x(k) + -low;
    hide Sum, Distribution;
    Shifted(n, w, x, 1.0, -low, above);
    MeanOfOne(n, w, above, j);
    assert above(j) == x(j) - low;
  }

  lemma MeanWithOneAbove(n: nat, w: int -> real, x: int -> real, j: nat, high: real)
    requires Distribution(n, w) && j < n && forall k :: 0 <= k < n && w(k) > 0.0 ==> x(k) <= high
    ensures Sum(n, Weighted(w, x)) <= high - w(j) * (high - x(j))
  {
    var below: int -> real := k => -1.0 * x(k) + high;
    hide Sum, Distribution;
    Shifted(n, w, x, -1.0, high, below);
    MeanOfOne(n, w, below, j);
    assert below(j) == high - x(j);
  }

  // ---- a group within bounds ----

  /// A group that listens only to itself, none of it anchored.
  ghost predicate ClosedFree(run: Run, group: set<int>)
    requires |run.pull| == run.n
  {
    Closed(run.weights, run.n, group) && forall i :: i in group ==> 0 <= i < run.n && run.pull[i] == 1.0
  }

  /// Everyone in the group holds between `low` and `high` of the choice.
  ghost predicate GroupWithin(run: Run, group: set<int>, c: int, t: nat, low: real, high: real)
    requires |run.pull| == run.n
  {
    forall i :: i in group ==> low <= At(After(run, t), i, c) <= high
  }

  /// In the next round a free agent holds what it hears.
  lemma FreeNext(run: Run, t: nat, i: nat, c: nat)
    requires |run.pull| == run.n && i < run.n && c < run.m && run.pull[i] == 1.0
    ensures At(After(run, t + 1), i, c) == Sum(run.n, Weighted(Row(run.weights, i), Col(After(run, t), c)))
  {
    hide Next, Sum;
    NextAt(run, After(run, t), i, c);
  }

  lemma StaysWithin(run: Run, group: set<int>, c: nat, t: nat, low: real, high: real)
    requires Valid(run) && ClosedFree(run, group) && c < run.m && GroupWithin(run, group, c, t, low, high)
    ensures GroupWithin(run, group, c, t + 1, low, high)
  {
    hide Sum, After;
    forall i | i in group ensures low <= At(After(run, t + 1), i, c) <= high {
      FreeNext(run, t, i, c);
      MeanInRange(run.n, Row(run.weights, i), Col(After(run, t), c), low, high);
    }
  }

  lemma {:induction false} StaysWithinLater(run: Run, group: set<int>, c: nat, t: nat, s: nat, low: real, high: real)
    requires Valid(run) && ClosedFree(run, group) && c < run.m && GroupWithin(run, group, c, t, low, high) && t <= s
    ensures GroupWithin(run, group, c, s, low, high)
    decreases s
  {
    hide Valid, ClosedFree, GroupWithin;
    assert |run.pull| == run.n by { HasPulls(run); }
    if t < s {
      StaysWithinLater(run, group, c, t, s - 1, low, high);
      StaysWithin(run, group, c, s - 1, low, high);
    }
  }

  /// A value held with some weight draws another off both bounds.
  predicate Felt(low: real, high: real, v: real, weight: real, x: real) {
    low + weight * (v - low) <= x <= high - weight * (high - v)
  }

  /// One edge: who listens to an opinion that is up from `low` is up with it.
  lemma PulledOver(run: Run, group: set<int>, c: nat, t: nat, low: real, high: real, i: nat, j: nat)
    requires Valid(run) && ClosedFree(run, group) && c < run.m && GroupWithin(run, group, c, t, low, high)
    requires i in group && j in group && i < run.n && j < run.n
    ensures Felt(low, high, At(After(run, t), j, c), At(run.weights, i, j), At(After(run, t + 1), i, c))
  {
    hide Sum, After;
    FreeNext(run, t, i, c);
    var (w, x) := (Row(run.weights, i), Col(After(run, t), c));
    MeanWithOne(run.n, w, x, j, low);
    MeanWithOneAbove(run.n, w, x, j, high);
  }

  /// Along a walk to the root the root's opinion is felt with the weight of
  /// the walk.
  lemma {:induction false} PulledAlong(run: Run, group: set<int>, c: nat, t: nat, low: real, high: real, s: seq<int>)
    requires Valid(run) && ClosedFree(run, group) && c < run.m && GroupWithin(run, group, c, t, low, high)
    requires WalkIn(GraphOf(run.weights, run.n), group, s)
    ensures Felt(low, high, At(After(run, t), s[|s| - 1], c), WalkWeight(run.weights, s), At(After(run, t + |s| - 1), s[0], c))
    decreases |s|
  {
    var g := GraphOf(run.weights, run.n);
    hide After, At, Valid, GroupWithin;
    assert |run.pull| == run.n by { HasPulls(run); }
    if |s| == 1 {
      WholeIsFelt(low, high, At(After(run, t), s[0], c));
    } else {
      WalkTail(g, group, s);
      WeightOfTail(run.weights, s);
      InGroup(run, group, s);
      PulledAlong(run, group, c, t, low, high, s[1..]);
      hide *;
      assert t + |s[1..]| - 1 == t + |s| - 2 && t + |s| - 2 + 1 == t + |s| - 1;
      StaysWithinLater(run, group, c, t, t + |s| - 2, low, high);
      PulledOver(run, group, c, t + |s| - 2, low, high, s[0], s[1]);
      WeightNotNegative(run, s[0], s[1]);
      var (v, f, w) := (At(After(run, t), s[|s| - 1], c), WalkWeight(run.weights, s[1..]), At(run.weights, s[0], s[1]));
      var (x, y) := (At(After(run, t + |s| - 2), s[1], c), At(After(run, t + |s| - 1), s[0], c));
      Through(low, high, v, f, w, x, y);
    }
  }

  lemma WeightOfTail(w: Matrix, s: seq<int>)
    requires |s| > 1
    ensures WalkWeight(w, s) == At(w, s[0], s[1]) * WalkWeight(w, s[1..])
  {
  }

  lemma InGroup(run: Run, group: set<int>, s: seq<int>)
    requires |run.pull| == run.n && ClosedFree(run, group) && WalkIn(GraphOf(run.weights, run.n), group, s) && |s| > 1
    ensures s[0] in group && s[1] in group && 0 <= s[0] < run.n && 0 <= s[1] < run.n
  {
  }

  lemma WeightNotNegative(run: Run, i: nat, j: nat)
    requires Valid(run) && i < run.n && j < run.n
    ensures At(run.weights, i, j) >= 0.0
  {
    EntryAtMostOne(run.weights, run.n, i, j);
  }

  lemma WholeIsFelt(low: real, high: real, v: real)
    ensures Felt(low, high, v, 1.0, v)
  {
  }

  lemma Through(low: real, high: real, v: real, f: real, w: real, x: real, y: real)
    requires w >= 0.0 && Felt(low, high, v, f, x) && Felt(low, high, x, w, y)
    ensures Felt(low, high, v, w * f, y)
  {
    ScaleOrder(w, f * (v - low), x - low);
    ScaleOrder(w, f * (high - v), high - x);
    assert w * (f * (v - low)) == (w * f) * (v - low);
    assert w * (f * (high - v)) == (w * f) * (high - v);
  }

  // ---- the whole group heeds one member ----

  /// Agent `i` hears the root over a walk of `len` edges and some weight.
  ghost predicate Heeds(w: Matrix, n: nat, group: set<int>, root: int, len: nat, weight: real, i: int) {
    exists s :: WalkIn(GraphOf(w, n), group, s) && s[0] == i && s[|s| - 1] == root && |s| == len + 1 && WalkWeight(w, s) >= weight
  }

  ghost predicate AllHeed(w: Matrix, n: nat, group: set<int>, root: int, len: nat, weight: real) {
    0.0 < weight <= 1.0 && forall i :: i in group ==> Heeds(w, n, group, root, len, weight, i)
  }

  lemma HeedsLess(w: Matrix, n: nat, group: set<int>, root: int, len: nat, weight: real, less: real, i: int)
    requires Heeds(w, n, group, root, len, weight, i) && less <= weight
    ensures Heeds(w, n, group, root, len, less, i)
  {
    hide WalkWeight, WalkIn;
  }

  lemma HeedsSome(w: Matrix, n: nat, group: set<int>, root: int, len: nat, i: int) returns (weight: real)
    requires RowsSumToOne(w, n, n) && Walk(GraphOf(w, n), group, i, root, len)
    requires forall v :: v in group ==> 0 <= v < n
    ensures 0.0 < weight <= 1.0 && Heeds(w, n, group, root, len, weight, i)
  {
    var s :| WalkIn(GraphOf(w, n), group, s) && s[0] == i && s[|s| - 1] == root && |s| == len + 1;
    WalkWeightInRange(w, n, group, s);
    weight := WalkWeight(w, s);
  }

  lemma {:induction false} LeastHeed(w: Matrix, n: nat, group: set<int>, root: int, len: nat, k: nat) returns (weight: real)
    requires RowsSumToOne(w, n, n) && forall v :: v in group ==> 0 <= v < n
    requires forall v :: v in group ==> Walk(GraphOf(w, n), group, v, root, len)
    ensures 0.0 < weight <= 1.0 && forall i :: i in group && i < k ==> Heeds(w, n, group, root, len, weight, i)
  {
    hide RowsSumToOne, Walk, Heeds;
    weight := 1.0;
    if k > 0 {
      var rest := LeastHeed(w, n, group, root, len, k - 1);
      weight := rest;
      if k - 1 in group {
        var last := HeedsSome(w, n, group, root, len, k - 1);
        weight := if last < rest then last else rest;
        HeedsLess(w, n, group, root, len, last, weight, k - 1);
      }
      forall i | i in group && i < k - 1 ensures Heeds(w, n, group, root, len, weight, i) {
        HeedsLess(w, n, group, root, len, rest, weight, i);
      }
    }
  }

  /// In a group of period one all hear one member over walks of one length.
  lemma OneIsHeeded(w: Matrix, n: nat, group: set<int>, root: int) returns (len: nat, weight: real)
    requires RowsSumToOne(w, n, n) && root in group && forall v :: v in group ==> 0 <= v < n
    requires Strong(GraphOf(w, n), group) && Apart(GraphOf(w, n), group, root, 1)
    ensures AllHeed(w, n, group, root, len, weight)
  {
    hide RowsSumToOne, Walk, Heeds, Apart, Strong;
    len := AllReachAtOnce(GraphOf(w, n), group, root);
    weight := LeastHeed(w, n, group, root, len, n);
  }

  // ---- it draws together ----

  /// The group's opinions lie within `width` of one another.
  ghost predicate Narrow(run: Run, group: set<int>, c: int, t: nat, width: real)
    requires |run.pull| == run.n
  {
    exists low, high :: GroupWithin(run, group, c, t, low, high) && high - low <= width
  }

  lemma DrawnIn(low: real, high: real, v: real, f: real, weight: real, x: real)
    requires low <= v <= high && weight <= f && Felt(low, high, v, f, x)
    ensures Felt(low, high, v, weight, x)
  {
    ScaleOrder(v - low, weight, f);
    ScaleOrder(high - v, weight, f);
  }

  lemma OneBlockFor(run: Run, group: set<int>, root: int, len: nat, weight: real, c: nat, t: nat, low: real, high: real, i: int)
    requires Valid(run) && ClosedFree(run, group) && c < run.m && GroupWithin(run, group, c, t, low, high)
    requires root in group && Heeds(run.weights, run.n, group, root, len, weight, i)
    ensures Felt(low, high, At(After(run, t), root, c), weight, At(After(run, t + len), i, c))
  {
    hide Valid, After, At, ClosedFree, WalkWeight;
    assert |run.pull| == run.n by { HasPulls(run); }
    var s :| WalkIn(GraphOf(run.weights, run.n), group, s) && s[0] == i && s[|s| - 1] == root && |s| == len + 1
      && WalkWeight(run.weights, s) >= weight;
    RootWithin(run, group, root, c, t, low, high);
    PulledAlong(run, group, c, t, low, high, s);
    hide *;
    var (v, x) := (At(After(run, t), s[|s| - 1], c), At(After(run, t + |s| - 1), s[0], c));
    assert t + |s| - 1 == t + len;
    assert v == At(After(run, t), root, c) && x == At(After(run, t + len), i, c);
    DrawnIn(low, high, v, WalkWeight(run.weights, s), weight, x);
  }

  lemma RootWithin(run: Run, group: set<int>, root: int, c: nat, t: nat, low: real, high: real)
    requires |run.pull| == run.n && root in group && GroupWithin(run, group, c, t, low, high)
    ensures low <= At(After(run, t), root, c) <= high
  {
    hide After, At;
  }

  lemma OneBlock(run: Run, group: set<int>, root: int, len: nat, weight: real, c: nat, t: nat, width: real)
    requires Valid(run) && ClosedFree(run, group) && c < run.m && Narrow(run, group, c, t, width)
    requires root in group && AllHeed(run.weights, run.n, group, root, len, weight)
    ensures Narrow(run, group, c, t + len, (1.0 - weight) * width)
  {
    hide Valid, After, At, ClosedFree, Heeds;
    assert |run.pull| == run.n by { HasPulls(run); }
    var low, high :| GroupWithin(run, group, c, t, low, high) && high - low <= width;
    var v := At(After(run, t), root, c);
    forall i | i in group
      ensures low + weight * (v - low) <= At(After(run, t + len), i, c) <= high - weight * (high - v)
    {
      OneBlockFor(run, group, root, len, weight, c, t, low, high, i);
    }
    assert GroupWithin(run, group, c, t + len, low + weight * (v - low), high - weight * (high - v));
    Narrower(low, high, v, weight, width);
  }

  lemma Narrower(low: real, high: real, v: real, weight: real, width: real)
    requires weight <= 1.0 && high - low <= width
    ensures (high - weight * (high - v)) - (low + weight * (v - low)) <= (1.0 - weight) * width
  {
    ScaleOrder(1.0 - weight, high - low, width);
    assert weight * (high - v) + weight * (v - low) == weight * (high - low);
  }

  lemma {:induction false} Blocks(run: Run, group: set<int>, root: int, len: nat, weight: real, c: nat, k: nat)
    requires Valid(run) && ClosedFree(run, group) && c < run.m
    requires root in group && AllHeed(run.weights, run.n, group, root, len, weight)
    ensures Narrow(run, group, c, Times(k, len), Power(1.0 - weight, k))
  {
    if k == 0 {
      hide AllHeed;
      forall i | i in group ensures 0.0 <= At(run.start, i, c) <= 1.0 {
        SharesAreAtMostOne(run.start, run.n, run.m, i);
      }
      assert GroupWithin(run, group, c, 0, 0.0, 1.0);
    } else {
      hide Valid, Narrow, ClosedFree, AllHeed;
      assert |run.pull| == run.n by { HasPulls(run); }
      Blocks(run, group, root, len, weight, c, k - 1);
      OneBlock(run, group, root, len, weight, c, Times(k - 1, len), Power(1.0 - weight, k - 1));
    }
  }

  lemma NarrowLater(run: Run, group: set<int>, c: nat, t: nat, s: nat, width: real, wider: real)
    requires Valid(run) && ClosedFree(run, group) && c < run.m && Narrow(run, group, c, t, width)
    requires t <= s && width <= wider
    ensures Narrow(run, group, c, s, wider)
  {
    hide Valid, ClosedFree, GroupWithin;
    assert |run.pull| == run.n by { HasPulls(run); }
    var low, high :| GroupWithin(run, group, c, t, low, high) && high - low <= width;
    StaysWithinLater(run, group, c, t, s, low, high);
  }

  /// The same agents with other ballots.
  predicate SameTrust(run: Run, other: Run) {
    other == run.(m := other.m, start := other.start)
  }

  /**
   A closed unanchored group of period one comes as near to one opinion as one
   likes and stays there, from one round on whatever the ballots.
   */
  lemma DrawsTogether(run: Run, group: set<int>, root: int, width: real) returns (from: nat)
    requires Valid(run) && ClosedFree(run, group) && root in group && width > 0.0
    requires Strong(GraphOf(run.weights, run.n), group) && Apart(GraphOf(run.weights, run.n), group, root, 1)
    ensures forall other: Run, c: nat, t: nat :: SameTrust(run, other) && Valid(other) && c < other.m && t >= from ==>
      Narrow(other, group, c, t, width)
  {
    hide AllHeed, Strong, Apart;
    var len, weight := OneIsHeeded(run.weights, run.n, group, root);
    assert 0.0 < weight <= 1.0 by { WeightInRange(run.weights, run.n, group, root, len, weight); }
    var k := PowerVanishes(1.0 - weight, width);
    from := Times(k, len);
    hide Valid, ClosedFree, Narrow, Power;
    forall other: Run, c: nat, t: nat | SameTrust(run, other) && Valid(other) && c < other.m && t >= from
      ensures Narrow(other, group, c, t, width)
    {
      SameGroup(run, other, group);
      Blocks(other, group, root, len, weight, c, k);
      NarrowLater(other, group, c, from, t, Power(1.0 - weight, k), width);
    }
  }

  lemma WeightInRange(w: Matrix, n: nat, group: set<int>, root: int, len: nat, weight: real)
    requires AllHeed(w, n, group, root, len, weight)
    ensures 0.0 < weight <= 1.0
  {
  }

  lemma SameGroup(run: Run, other: Run, group: set<int>)
    requires |run.pull| == run.n && SameTrust(run, other) && ClosedFree(run, group)
    ensures |other.pull| == other.n && ClosedFree(other, group)
  {
  }
}
