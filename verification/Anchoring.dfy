/**
 A run settles when every agent listens, directly or through others, to an
 anchored one (`iterate`, `crates/vissue-core/src/consensus.rs`).
 */
module Anchoring {
  import opened Base
  import opened Linear
  import opened Opinions
  import opened Limits
  import opened Rounds
  import opened Walks
  import opened Structure

  // ---- how far an agent may still move ----

  /// No agent `i` moves farther than this from round `t` to the next, whatever
  /// the ballots.
  function Room(run: Run, t: nat, i: int): real
    requires |run.pull| == run.n
    decreases t
  {
    if t == 0 || i < 0 || i >= run.n then 1.0
    else run.pull[i] * Sum(run.n, Weighted(Row(run.weights, i), j => Room(run, t - 1, j)))
  }

  function RoomAt(run: Run, t: nat): int -> real
    requires |run.pull| == run.n
  {
    j => Room(run, t, j)
  }

  /// The room of those agent `i` listens to, as it weighs them.
  function MeanRoom(run: Run, t: nat, i: int): real
    requires |run.pull| == run.n
  {
    Sum(run.n, Weighted(Row(run.weights, i), RoomAt(run, t)))
  }

  lemma RoomStep(run: Run, t: nat, i: nat)
    requires |run.pull| == run.n && i < run.n
    ensures Room(run, t + 1, i) == run.pull[i] * MeanRoom(run, t, i)
  {
    SumSame(run.n, Weighted(Row(run.weights, i), j => Room(run, t, j)), Weighted(Row(run.weights, i), RoomAt(run, t)));
  }

  lemma WeightedAtMost(n: nat, w: int -> real, f: int -> real, g: int -> real)
    requires Distribution(n, w) && forall j :: 0 <= j < n ==> f(j) <= g(j)
    ensures Sum(n, Weighted(w, f)) <= Sum(n, Weighted(w, g))
  {
    forall j | 0 <= j < n ensures Weighted(w, f)(j) <= Weighted(w, g)(j) {
      ScaleOrder(w(j), f(j), g(j));
    }
    SumAtMost(n, Weighted(w, f), Weighted(w, g));
  }

  lemma {:induction false} RoomInRange(run: Run, t: nat)
    requires Valid(run)
    ensures forall i :: 0 <= i < run.n ==> 0.0 <= Room(run, t, i) <= 1.0
  {
    if t > 0 {
      RoomInRange(run, t - 1);
      forall i | 0 <= i < run.n ensures 0.0 <= Room(run, t, i) <= 1.0 {
        RoomStep(run, t - 1, i);
        MeanInRange(run.n, Row(run.weights, i), RoomAt(run, t - 1), 0.0, 1.0);
        Between(run.pull[i], MeanRoom(run, t - 1, i), 0.0, 0.0, 1.0);
      }
    }
  }

  lemma InOrder(p: real, x: real, y: real, u: real, v: real)
    requires p >= 0.0 && x <= y && u == p * x && v == p * y
    ensures u <= v
  {
    ScaleOrder(p, x, y);
  }

  ghost predicate RoomNotMore(run: Run, late: nat, early: nat)
    requires |run.pull| == run.n
  {
    forall i :: 0 <= i < run.n ==> Room(run, late, i) <= Room(run, early, i)
  }

  lemma {:induction false} RoomShrinks(run: Run, t: nat)
    requires Valid(run)
    ensures RoomNotMore(run, t + 1, t)
  {
    RoomInRange(run, t + 1);
    if t > 0 {
      RoomShrinks(run, t - 1);
      forall i | 0 <= i < run.n ensures Room(run, t + 1, i) <= Room(run, t, i) {
        hide *;
        RoomShrinksFor(run, t, t - 1, i);
      }
    }
  }

  lemma RoomShrinksFor(run: Run, late: nat, early: nat, i: nat)
    requires Valid(run) && i < run.n && RoomNotMore(run, late, early)
    ensures Room(run, late + 1, i) <= Room(run, early + 1, i)
  {
    assert run.pull[i] >= 0.0;
    hide *;
    RoomStep(run, late, i);
    RoomStep(run, early, i);
    MeanRoomShrinks(run, late, early, i);
    InOrder(run.pull[i], MeanRoom(run, late, i), MeanRoom(run, early, i), Room(run, late + 1, i), Room(run, early + 1, i));
  }

  lemma MeanRoomShrinks(run: Run, late: nat, early: nat, i: nat)
    requires Valid(run) && i < run.n && RoomNotMore(run, late, early)
    ensures MeanRoom(run, late, i) <= MeanRoom(run, early, i)
  {
    assert Distribution(run.n, Row(run.weights, i));
    hide Room, Valid, Distribution, Sum, Weighted;
    WeightedAtMost(run.n, Row(run.weights, i), RoomAt(run, late), RoomAt(run, early));
  }

  lemma {:induction false} RoomLater(run: Run, t: nat, s: nat)
    requires Valid(run) && t <= s
    ensures forall i :: 0 <= i < run.n ==> Room(run, s, i) <= Room(run, t, i)
    decreases s
  {
    hide Room, Valid;
    assert |run.pull| == run.n by { HasPulls(run); }
    if t < s {
      RoomLater(run, t, s - 1);
      RoomShrinks(run, s - 1);
    }
  }

  lemma HasPulls(run: Run)
    requires Valid(run)
    ensures |run.pull| == run.n
  {
  }

  // ---- an anchor within reach leaves less than the whole room ----

  lemma Positive(a: real, b: real)
    requires a > 0.0 && b > 0.0
    ensures a * b > 0.0
  {
  }

  lemma MeanBelowOne(n: nat, w: int -> real, x: int -> real, j: nat)
    requires Distribution(n, w) && j < n && w(j) > 0.0 && x(j) < 1.0 && forall k :: 0 <= k < n ==> x(k) <= 1.0
    ensures Sum(n, Weighted(w, x)) < 1.0
  {
    var rest: int -> real := k => w(k) * (1.0 - x(k));
    forall k | 0 <= k < n ensures rest(k) >= 0.0 { NotNegative(w(k), 1.0 - x(k)); }
    SumNotNegative(n, rest);
    Positive(w(j), 1.0 - x(j));
    SumLinear(n, 1.0, w, -1.0, Weighted(w, x), rest);
  }

  lemma RoomOfAnchor(run: Run, a: nat)
    requires Valid(run) && a < run.n && run.pull[a] < 1.0
    ensures Room(run, 1, a) < 1.0
  {
    RoomStep(run, 0, a);
    MeanInRange(run.n, Row(run.weights, a), RoomAt(run, 0), 1.0, 1.0);
    assert MeanRoom(run, 0, a) == 1.0;
    hide *;
    TimesOne(run.pull[a], MeanRoom(run, 0, a));
  }

  lemma TimesOne(p: real, one: real)
    requires one == 1.0
    ensures p * one == p
  {
  }

  lemma RoomOverAnEdge(run: Run, t: nat, i: nat, j: nat)
    requires Valid(run) && i < run.n && j < run.n && At(run.weights, i, j) > 0.0 && Room(run, t, j) < 1.0
    ensures Room(run, t + 1, i) < 1.0
  {
    RoomStep(run, t, i);
    MeanRoomBelowOne(run, t, i, j);
    assert 0.0 <= run.pull[i] <= 1.0;
    hide *;
    BelowOne(run.pull[i], MeanRoom(run, t, i), Room(run, t + 1, i));
  }

  lemma BelowOne(p: real, mean: real, v: real)
    requires 0.0 <= p <= 1.0 && 0.0 <= mean < 1.0 && v == p * mean
    ensures v < 1.0
  {
    ScaleOrder(mean, p, 1.0);
  }

  lemma MeanRoomBelowOne(run: Run, t: nat, i: nat, j: nat)
    requires Valid(run) && i < run.n && j < run.n && At(run.weights, i, j) > 0.0 && Room(run, t, j) < 1.0
    ensures 0.0 <= MeanRoom(run, t, i) < 1.0
  {
    var w := Row(run.weights, i);
    RoomInRange(run, t);
    assert Distribution(run.n, w) && w(j) > 0.0;
    hide Room, Valid, At, Distribution, Sum;
    MeanInRange(run.n, w, RoomAt(run, t), 0.0, 1.0);
    MeanBelowOne(run.n, w, RoomAt(run, t), j);
  }

  lemma {:induction false} RoomOnAWalk(run: Run, s: seq<int>)
    requires Valid(run) && WalkIn(GraphOf(run.weights, run.n), Everyone(run.n), s)
    requires var a := s[|s| - 1]; 0 <= a < run.n && run.pull[a] < 1.0
    ensures 0 <= s[0] < run.n && Room(run, |s|, s[0]) < 1.0
    decreases |s|
  {
    hide Room, At;
    assert s[0] in Everyone(run.n);
    if |s| == 1 {
      RoomOfAnchor(run, s[0]);
    } else {
      WalkTail(GraphOf(run.weights, run.n), Everyone(run.n), s);
      RoomOnAWalk(run, s[1..]);
      RoomOverAnEdge(run, |s| - 1, s[0], s[1]);
    }
  }

  lemma WalkTail(g: Graph, inside: set<int>, s: seq<int>)
    requires WalkIn(g, inside, s) && |s| > 1
    ensures WalkIn(g, inside, s[1..]) && s[1..][|s| - 2] == s[|s| - 1] && s[1..][0] == s[1] && g.edge(s[0], s[1])
  {
    assert s[0 + 1] == s[1];
    var r := s[1..];
    forall i | 0 <= i < |r| - 1 ensures g.edge(r[i], r[i + 1]) { assert r[i] == s[i + 1] && r[i + 1] == s[i + 1 + 1]; }
  }

  /// Agent `i` listens, directly or through others, to an anchored one.
  ghost predicate HearsAnAnchor(run: Run, i: int)
    requires |run.pull| == run.n
  {
    exists a :: 0 <= a < run.n && run.pull[a] < 1.0 && Linked(GraphOf(run.weights, run.n), i, a)
  }

  lemma SomeRoomGoes(run: Run, i: nat) returns (t: nat)
    requires Valid(run) && i < run.n && HearsAnAnchor(run, i)
    ensures Room(run, t, i) < 1.0
  {
    HasPulls(run);
    hide Room, Valid;
    var (g, inside) := (GraphOf(run.weights, run.n), Everyone(run.n));
    var a :| 0 <= a < run.n && run.pull[a] < 1.0 && Linked(g, i, a);
    var len: nat :| Walk(g, inside, i, a, len);
    var walk :| WalkIn(g, inside, walk) && walk[0] == i && walk[|walk| - 1] == a && |walk| == len + 1;
    RoomOnAWalk(run, walk);
    t := |walk|;
  }

  lemma {:induction false} SomeRoomGoesEverywhere(run: Run, n: nat) returns (t: nat)
    requires Valid(run) && n <= run.n && forall i :: 0 <= i < n ==> HearsAnAnchor(run, i)
    ensures forall i :: 0 <= i < n ==> Room(run, t, i) < 1.0
  {
    HasPulls(run);
    hide Room, Valid, HearsAnAnchor;
    t := 0;
    if n > 0 {
      var s := SomeRoomGoesEverywhere(run, n - 1);
      var u := SomeRoomGoes(run, n - 1);
      t := if s < u then u else s;
      RoomLater(run, s, t);
      RoomLater(run, u, t);
    }
  }

  // ---- the room vanishes ----

  /// At the later round the room is at most `factor` of that at the earlier.
  ghost predicate RoomCut(run: Run, late: nat, factor: real, early: nat)
    requires |run.pull| == run.n
  {
    forall i :: 0 <= i < run.n ==> Room(run, late, i) <= factor * Room(run, early, i)
  }

  lemma {:induction false} RoomMultiplies(run: Run, t: nat, factor: real, s: nat)
    requires Valid(run) && factor >= 0.0 && forall i :: 0 <= i < run.n ==> Room(run, t, i) <= factor
    ensures RoomCut(run, s + t, factor, s)
  {
    if s > 0 {
      RoomMultiplies(run, t, factor, s - 1);
      forall i | 0 <= i < run.n ensures Room(run, s + t, i) <= factor * Room(run, s, i) {
        OneMore(run, s - 1 + t, factor, s - 1, i);
      }
    }
  }

  lemma OneMore(run: Run, late: nat, factor: real, early: nat, i: nat)
    requires Valid(run) && i < run.n && RoomCut(run, late, factor, early)
    ensures Room(run, late + 1, i) <= factor * Room(run, early + 1, i)
  {
    assert run.pull[i] >= 0.0;
    hide *;
    MeansScale(run, late, factor, early, i);
    RoomStep(run, late, i);
    RoomStep(run, early, i);
    Combined(run.pull[i], factor, MeanRoom(run, late, i), MeanRoom(run, early, i), Room(run, early + 1, i), Room(run, late + 1, i));
  }

  lemma MeansScale(run: Run, late: nat, factor: real, early: nat, i: nat)
    requires Valid(run) && i < run.n && RoomCut(run, late, factor, early)
    ensures MeanRoom(run, late, i) <= factor * MeanRoom(run, early, i)
  {
    var w := Row(run.weights, i);
    assert Distribution(run.n, w);
    hide Room, Sum, Weighted, Valid, Distribution;
    ScaledMean(run.n, w, factor, RoomAt(run, early), RoomAt(run, late));
  }

  lemma ScaledMean(n: nat, w: int -> real, factor: real, f: int -> real, g: int -> real)
    requires Distribution(n, w) && forall j :: 0 <= j < n ==> g(j) <= factor * f(j)
    ensures Sum(n, Weighted(w, g)) <= factor * Sum(n, Weighted(w, f))
  {
    var scaled: int -> real := j => factor * f(j);
    WeightedScaled(n, w, factor, f, scaled);
    hide Sum, Weighted, Distribution;
    WeightedAtMost(n, w, g, scaled);
  }

  lemma Combined(p: real, factor: real, x: real, y: real, u: real, v: real)
    requires p >= 0.0 && x <= factor * y && u == p * y && v == p * x
    ensures v <= factor * u
  {
    ScaleOrder(p, x, factor * y);
    assert p * (factor * y) == factor * u;
  }

  lemma WeightedScaled(n: nat, w: int -> real, factor: real, f: int -> real, scaled: int -> real)
    requires forall j :: scaled(j) == factor * f(j)
    ensures Sum(n, Weighted(w, scaled)) == factor * Sum(n, Weighted(w, f))
  {
    SumScaled(n, factor, Weighted(w, f), Weighted(w, scaled));
  }

  /// `k` times `t` rounds.
  function Times(k: nat, t: nat): nat {
    if k == 0 then 0 else Times(k - 1, t) + t
  }

  lemma {:induction false} RoomGeometric(run: Run, t: nat, factor: real, k: nat)
    requires Valid(run) && factor >= 0.0 && forall i :: 0 <= i < run.n ==> Room(run, t, i) <= factor
    ensures forall i :: 0 <= i < run.n ==> Room(run, Times(k, t), i) <= Power(factor, k)
  {
    if k > 0 {
      RoomGeometric(run, t, factor, k - 1);
      RoomMultiplies(run, t, factor, Times(k - 1, t));
      forall i | 0 <= i < run.n ensures Room(run, Times(k, t), i) <= Power(factor, k) {
        ScaleOrder(factor, Room(run, Times(k - 1, t), i), Power(factor, k - 1));
      }
    }
  }

  lemma {:induction false} PowerTimesGrowth(base: real, k: nat)
    requires 0.0 <= base < 1.0
    ensures Power(base, k) * (1.0 + k as real * (1.0 - base)) <= 1.0
  {
    if k > 0 {
      PowerTimesGrowth(base, k - 1);
      PowerNotNegative(base, k - 1);
      GrowthStep(base, Power(base, k - 1), (k - 1) as real);
    }
  }

  lemma GrowthStep(base: real, p: real, n: real)
    requires 0.0 <= base < 1.0 && p >= 0.0 && n >= 0.0 && p * (1.0 + n * (1.0 - base)) <= 1.0
    ensures base * p * (1.0 + (n + 1.0) * (1.0 - base)) <= 1.0
  {
    var d := 1.0 - base;
    var (x, y) := (base * (1.0 + (n + 1.0) * d), 1.0 + n * d);
    Algebra(base, d, n);
    NotNegative(n + 1.0, d * d);
    ScaleOrder(p, x, y);
    assert base * p * (1.0 + (n + 1.0) * d) == p * x;
  }

  lemma Algebra(base: real, d: real, n: real)
    requires d == 1.0 - base
    ensures base * (1.0 + (n + 1.0) * d) == 1.0 + n * d - (n + 1.0) * (d * d)
    ensures d * d >= 0.0
  {
  }

  lemma PowerVanishes(base: real, bound: real) returns (k: nat)
    requires 0.0 <= base < 1.0 && bound > 0.0
    ensures Power(base, k) < bound
  {
    var d := 1.0 - base;
    var q := 1.0 / (bound * d);
    k := q.Floor + 1;
    PowerTimesGrowth(base, k);
    PowerNotNegative(base, k);
    Enough(Power(base, k), k as real, d, bound, q);
  }

  lemma Enough(p: real, k: real, d: real, bound: real, q: real)
    requires p >= 0.0 && d > 0.0 && bound > 0.0 && q == 1.0 / (bound * d) && k > q && p * (1.0 + k * d) <= 1.0
    ensures p < bound
  {
    assert q * (bound * d) == 1.0;
    ScaleOrder(bound * d, q, k);
    assert bound * (1.0 + k * d) == bound + k * (bound * d);
    Positive(k, d);
    Cancel(p, bound, 1.0 + k * d);
  }

  lemma Cancel(x: real, y: real, f: real)
    requires f > 0.0 && x * f < y * f
    ensures x < y
  {
    if x >= y { ScaleOrder(f, y, x); }
  }

  // ---- the steps stay within the room ----

  lemma {:induction false} StepsStayWithinTheRoom(run: Run, t: nat)
    requires Valid(run)
    ensures forall i, c :: 0 <= i < run.n && 0 <= c < run.m ==>
      -Room(run, t, i) <= At(After(run, t + 1), i, c) - At(After(run, t), i, c) <= Room(run, t, i)
  {
    hide Next;
    if t == 0 {
      AnchoredStepsShrink(run, 1.0, 0);
      assert Power(1.0, 0) == 1.0;
    } else {
      StepsStayWithinTheRoom(run, t - 1);
      forall i, c | 0 <= i < run.n && 0 <= c < run.m
        ensures -Room(run, t, i) <= At(After(run, t + 1), i, c) - At(After(run, t), i, c) <= Room(run, t, i)
      {
        NextAt(run, After(run, t), i, c);
        NextAt(run, After(run, t - 1), i, c);
        hide After;
        MovesWithin(run, After(run, t), After(run, t - 1), t - 1, i, c);
      }
    }
  }

  lemma MovesWithin(run: Run, x: Matrix, y: Matrix, t: nat, i: nat, c: nat)
    requires Valid(run) && i < run.n
    requires forall j :: 0 <= j < run.n ==> -Room(run, t, j) <= At(x, j, c) - At(y, j, c) <= Room(run, t, j)
    ensures -Room(run, t + 1, i) <= Moved(run, x, i, c) - Moved(run, y, i, c) <= Room(run, t + 1, i)
  {
    var mean := MeanRoom(run, t, i);
    RoomStep(run, t, i);
    HeardWithin(run, x, y, t, i, c);
    var gap := Heard(run.weights, x, run.n, i, c) - Heard(run.weights, y, run.n, i, c);
    hide Room, Heard, Sum;
    ScaleOrder(run.pull[i], -mean, gap);
    ScaleOrder(run.pull[i], gap, mean);
    assert Moved(run, x, i, c) - Moved(run, y, i, c) == run.pull[i] * gap;
  }

  lemma HeardWithin(run: Run, x: Matrix, y: Matrix, t: nat, i: nat, c: nat)
    requires Valid(run) && i < run.n
    requires forall j :: 0 <= j < run.n ==> -Room(run, t, j) <= At(x, j, c) - At(y, j, c) <= Room(run, t, j)
    ensures var mean := MeanRoom(run, t, i);
      -mean <= Heard(run.weights, x, run.n, i, c) - Heard(run.weights, y, run.n, i, c) <= mean
  {
    hide Room, At;
    var (n, w) := (run.n, Row(run.weights, i));
    var gap: int -> real := j => At(x, j, c) - At(y, j, c);
    var minus: int -> real := j => -Room(run, t, j);
    SumLinear(n, 1.0, Weighted(w, Col(x, c)), -1.0, Weighted(w, Col(y, c)), Weighted(w, gap));
    WeightedAtMost(n, w, gap, RoomAt(run, t));
    WeightedAtMost(n, w, minus, gap);
    SumScaled(n, -1.0, Weighted(w, RoomAt(run, t)), Weighted(w, minus));
  }

  lemma WithinRoomStops(run: Run, t: nat, d: real, tolerance: real)
    requires Valid(run) && run.n > 0 && 0.0 <= d < tolerance && forall i :: 0 <= i < run.n ==> Room(run, t, i) <= d
    ensures Stops(run, Anchored, tolerance, t + 1)
  {
    StepsStayWithinTheRoom(run, t);
    hide After, Room;
    assert Within(After(run, t + 1), After(run, t), run.n, run.m, d);
    StepIsTheLargestMove(After(run, t), After(run, t + 1), run.n, run.m, d);
  }

  lemma SameRoom(run: Run, other: Run, t: nat, i: int)
    requires |run.pull| == run.n && other == run.(m := other.m, start := other.start)
    ensures Room(other, t, i) == Room(run, t, i)
    decreases t
  {
    if t > 0 && 0 <= i < run.n {
      var u: nat := t - 1;
      forall j ensures Room(other, u, j) == Room(run, u, j) { SameRoom(run, other, u, j); }
      RoomStep(run, t - 1, i);
      RoomStep(other, t - 1, i);
      SumSame(run.n, Weighted(Row(run.weights, i), RoomAt(run, t - 1)), Weighted(Row(run.weights, i), RoomAt(other, t - 1)));
    }
  }

  /// With an anchor within everyone's reach the room vanishes.
  lemma RoomVanishes(run: Run, bound: real) returns (t: nat, d: real)
    requires Valid(run) && run.n > 0 && bound > 0.0
    requires forall i :: 0 <= i < run.n ==> HearsAnAnchor(run, i)
    ensures 0.0 <= d < bound && forall i :: 0 <= i < run.n ==> Room(run, t, i) <= d
  {
    var s := SomeRoomGoesEverywhere(run, run.n);
    var _, high := LowAndHigh(run.n, RoomAt(run, s));
    var factor := Room(run, s, high);
    assert factor == RoomAt(run, s)(high);
    RoomInRange(run, s);
    assert forall i :: 0 <= i < run.n ==> Room(run, s, i) == RoomAt(run, s)(i) <= factor;
    hide Room, HearsAnAnchor;
    var k := PowerVanishes(factor, bound);
    RoomGeometric(run, s, factor, k);
    PowerNotNegative(factor, k);
    t, d := Times(k, s), Power(factor, k);
  }

  /**
   When every agent listens, directly or through others, to an anchored one,
   there is a round by which the run has met its stopping rule, and it is the
   same round whatever the ballots.
   */
  lemma AnchorsInReachSettle(run: Run, tolerance: real) returns (r: nat)
    requires Valid(run) && run.n > 0 && tolerance > 0.0
    requires forall i :: 0 <= i < run.n ==> HearsAnAnchor(run, i)
    ensures forall other: Run :: other == run.(m := other.m, start := other.start) && Valid(other) ==>
      Stops(other, Anchored, tolerance, r)
  {
    var t, d := RoomVanishes(run, tolerance);
    hide Room, HearsAnAnchor, Stops;
    r := t + 1;
    forall other: Run | other == run.(m := other.m, start := other.start) && Valid(other)
      ensures Stops(other, Anchored, tolerance, r)
    {
      forall i | 0 <= i < other.n ensures Room(other, t, i) <= d {
        SameRoom(run, other, t, i);
      }
      WithinRoomStops(other, t, d, tolerance);
    }
  }
}
