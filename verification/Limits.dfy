/**
 What the rounds conserve, how fast anchored agents settle, and what never
 settles (`crates/vissue-core/src/consensus.rs`).
 */
module Limits {
  import opened Linear
  import opened Opinions

  ghost predicate Unanchored(run: Run) {
    Valid(run) && forall i :: 0 <= i < run.n ==> run.pull[i] == 1.0
  }

  // ---- what a weighting of the agents makes of one choice ----

  function Weighed(p: int -> real, x: Matrix, n: nat, c: int): real {
    Sum(n, Weighted(p, Col(x, c)))
  }

  /// The weight each agent ends up with when it hands its own on to those it
  /// listens to.
  function HandedOn(p: int -> real, w: Matrix, n: nat): int -> real {
    j => Weighed(p, w, n, j)
  }

  function Parts(p: int -> real, w: Matrix, x: Matrix, c: int): (int, int) -> real {
    (i, j) => p(i) * (At(w, i, j) * At(x, j, c))
  }

  /// Weighing the opinions after a round is weighing those before it by what
  /// was handed on.
  lemma HandingOnIsListening(run: Run, p: int -> real, x: Matrix, c: nat)
    requires Unanchored(run) && c < run.m
    ensures Weighed(p, Next(run, x), run.n, c) == Weighed(HandedOn(p, run.weights, run.n), x, run.n, c)
  {
    var (n, a) := (run.n, Parts(p, run.weights, x, c));
    SumSwap(n, n, a);
    hide Next;
    forall i | 0 <= i < n ensures RowSums(a, n)(i) == Weighted(p, Col(Next(run, x), c))(i) {
      NextAt(run, x, i, c);
      SumScaled(n, p(i), Weighted(Row(run.weights, i), Col(x, c)), j => a(i, j));
    }
    hide Parts;
    SumSame(n, RowSums(a, n), Weighted(p, Col(Next(run, x), c)));
    ColumnsOfParts(p, run.weights, x, n, c);
  }

  lemma ColumnsOfParts(p: int -> real, w: Matrix, x: Matrix, n: nat, c: nat)
    ensures Sum(n, RowSums(Transposed(Parts(p, w, x, c)), n)) == Weighed(HandedOn(p, w, n), x, n, c)
  {
    var a := Parts(p, w, x, c);
    forall j | 0 <= j < n ensures RowSums(Transposed(a), n)(j) == Weighted(HandedOn(p, w, n), Col(x, c))(j) {
      var column: int -> real := i => Transposed(a)(j, i);
      forall i | 0 <= i < n ensures column(i) == At(x, j, c) * Weighted(p, Col(w, j))(i) {
        PartAt(p, w, x, c, i, j);
      }
      SumScaled(n, At(x, j, c), Weighted(p, Col(w, j)), column);
      SumSame(n, column, i => Transposed(a)(j, i));
    }
    hide Parts, HandedOn;
    SumSame(n, RowSums(Transposed(a), n), Weighted(HandedOn(p, w, n), Col(x, c)));
  }

  lemma PartAt(p: int -> real, w: Matrix, x: Matrix, c: int, i: int, j: int)
    ensures Transposed(Parts(p, w, x, c))(j, i) == At(x, j, c) * Weighted(p, Col(w, j))(i)
  {
    hide At;
    Regroup(p(i), At(w, i, j), At(x, j, c));
  }

  lemma Regroup(a: real, b: real, c: real)
    ensures a * (b * c) == c * (a * b)
  {
  }

  /// `pi` is a left eigenvector of the trust matrix for the value one.
  ghost predicate Stationary(pi: int -> real, w: Matrix, n: nat) {
    Distribution(n, pi) && forall j :: 0 <= j < n ==> HandedOn(pi, w, n)(j) == pi(j)
  }

  /// A stationary weighting of the agents is worth the same in every round.
  lemma {:induction false} StationaryWeightIsConserved(run: Run, pi: int -> real, c: nat, t: nat)
    requires Unanchored(run) && Stationary(pi, run.weights, run.n) && c < run.m
    ensures Weighed(pi, After(run, t), run.n, c) == Weighed(pi, run.start, run.n, c)
  {
    hide Next, HandedOn;
    if t > 0 {
      var x := After(run, t - 1);
      StationaryWeightIsConserved(run, pi, c, t - 1);
      HandingOnIsListening(run, pi, x, c);
      SumSame(run.n, Weighted(HandedOn(pi, run.weights, run.n), Col(x, c)), Weighted(pi, Col(x, c)));
    }
  }

  lemma MeanWithinSpread(x: Matrix, p: int -> real, n: nat, m: nat, i: nat, c: nat)
    requires i < n && c < m && Distribution(n, p)
    ensures Abs(At(x, i, c) - Weighed(p, x, n, c)) <= Spread(x, n, m)
  {
    SpreadIsTheLargestDisagreement(x, n, m);
    var (v, s) := (At(x, i, c), Spread(x, n, m));
    hide Spread;
    forall j | 0 <= j < n ensures v - s <= Col(x, c)(j) <= v + s {
      assert Abs(At(x, i, c) - At(x, j, c)) <= s;
    }
    MeanInRange(n, p, Col(x, c), v - s, v + s);
  }

  /**
   Where an unanchored run stops because its spread is small, every agent is at
   most that far from the ballots weighed by any stationary weighting: the
   position reached is the weighted vote, not an artefact of the rounds.
   */
  lemma PositionReachedIsTheWeightedVote(run: Run, pi: int -> real, i: nat, c: nat, t: nat)
    requires Unanchored(run) && Stationary(pi, run.weights, run.n) && i < run.n && c < run.m
    ensures Abs(At(After(run, t), i, c) - Weighed(pi, run.start, run.n, c)) <= Spread(After(run, t), run.n, run.m)
  {
    StationaryWeightIsConserved(run, pi, c, t);
    MeanWithinSpread(After(run, t), pi, run.n, run.m, i, c);
  }

  // ---- social power ----

  function Even(n: nat): int -> real
    requires n > 0
  {
    i => 1.0 / n as real
  }

  /// Each agent's weight after `t` rounds of handing on, from equal weights.
  function PowerAfter(w: Matrix, n: nat, t: nat): int -> real
    requires n > 0
  {
    if t == 0 then Even(n) else HandedOn(PowerAfter(w, n, t - 1), w, n)
  }

  lemma HandedOnDistribution(p: int -> real, w: Matrix, n: nat)
    requires RowsSumToOne(w, n, n) && Distribution(n, p)
    ensures Distribution(n, HandedOn(p, w, n))
  {
    var q := HandedOn(p, w, n);
    var a: (int, int) -> real := (i, j) => p(i) * At(w, i, j);
    SumSwap(n, n, a);
    forall i | 0 <= i < n ensures RowSums(a, n)(i) == 1.0 * p(i) {
      assert Distribution(n, Row(w, i));
      SumScaled(n, p(i), Row(w, i), j => a(i, j));
    }
    SumScaled(n, 1.0, p, RowSums(a, n));
    forall j | 0 <= j < n ensures RowSums(Transposed(a), n)(j) == q(j) >= 0.0 {
      SumSame(n, i => Transposed(a)(j, i), Weighted(p, Col(w, j)));
      forall i | 0 <= i < n ensures Weighted(p, Col(w, j))(i) >= 0.0 {
        assert Distribution(n, Row(w, i)) && Row(w, i)(j) >= 0.0;
        NotNegative(p(i), At(w, i, j));
      }
      SumNotNegative(n, Weighted(p, Col(w, j)));
    }
    SumSame(n, RowSums(Transposed(a), n), q);
  }

  lemma {:induction false} PowerIsADistribution(w: Matrix, n: nat, t: nat)
    requires n > 0 && RowsSumToOne(w, n, n)
    ensures Distribution(n, PowerAfter(w, n, t))
  {
    if t == 0 {
      SumConstant(n, 1.0 / n as real, Even(n));
    } else {
      PowerIsADistribution(w, n, t - 1);
      HandedOnDistribution(PowerAfter(w, n, t - 1), w, n);
    }
  }

  lemma {:induction false} PowerMovesWithTheRounds(run: Run, c: nat, t: nat, s: nat)
    requires Unanchored(run) && run.n > 0 && c < run.m
    ensures Weighed(PowerAfter(run.weights, run.n, t), After(run, s), run.n, c) == Weighed(Even(run.n), After(run, t + s), run.n, c)
  {
    hide Next, HandedOn, Weighed;
    if t > 0 {
      HandingOnIsListening(run, PowerAfter(run.weights, run.n, t - 1), After(run, s), c);
      assert After(run, s + 1) == Next(run, After(run, s));
      PowerMovesWithTheRounds(run, c, t - 1, s + 1);
    }
  }

  /// The ballots weighed by social power are the plain mean of the opinions as
  /// many rounds on.
  lemma PowerWeighsTheBallots(run: Run, c: nat, t: nat)
    requires Unanchored(run) && run.n > 0 && c < run.m
    ensures Weighed(PowerAfter(run.weights, run.n, t), run.start, run.n, c) == Weighed(Even(run.n), After(run, t), run.n, c)
  {
    PowerMovesWithTheRounds(run, c, t, 0);
    assert After(run, 0) == run.start;
  }

  /// And so they are within the spread of every agent's opinion.
  lemma PowerIsTheWeightedVote(run: Run, i: nat, c: nat, t: nat)
    requires Unanchored(run) && i < run.n && c < run.m
    ensures Abs(At(After(run, t), i, c) - Weighed(PowerAfter(run.weights, run.n, t), run.start, run.n, c))
         <= Spread(After(run, t), run.n, run.m)
  {
    PowerWeighsTheBallots(run, c, t);
    PowerIsADistribution(run.weights, run.n, 0);
    assert PowerAfter(run.weights, run.n, 0) == Even(run.n);
    hide After, PowerAfter, Weighed, Spread, Valid, Distribution, Even;
    MeanWithinSpread(After(run, t), Even(run.n), run.n, run.m, i, c);
  }

  // ---- anchored agents ----

  ghost predicate Within(x: Matrix, y: Matrix, n: nat, m: nat, d: real) {
    forall i, c :: 0 <= i < n && 0 <= c < m ==> -d <= At(x, i, c) - At(y, i, c) <= d
  }

  /// One round brings any two positions of the group closer by the factor.
  ghost predicate ShrinksBy(run: Run, factor: real)
    requires |run.pull| == run.n
  {
    forall x: Matrix, y: Matrix, d: real :: d >= 0.0 && Within(x, y, run.n, run.m, d) ==>
      Within(Next(run, x), Next(run, y), run.n, run.m, factor * d)
  }

  lemma HeardDifference(w: Matrix, x: Matrix, y: Matrix, n: nat, i: int, c: int, d: real)
    requires Distribution(n, Row(w, i))
    requires forall j :: 0 <= j < n ==> -d <= At(x, j, c) - At(y, j, c) <= d
    ensures -d <= Heard(w, x, n, i, c) - Heard(w, y, n, i, c) <= d
  {
    var gap: int -> real := j => At(x, j, c) - At(y, j, c);
    SumLinear(n, 1.0, Weighted(Row(w, i), Col(x, c)), -1.0, Weighted(Row(w, i), Col(y, c)), Weighted(Row(w, i), gap));
    MeanInRange(n, Row(w, i), gap, -d, d);
  }

  lemma RoundShrinks(run: Run, x: Matrix, y: Matrix, factor: real, d: real)
    requires Valid(run) && d >= 0.0 && Within(x, y, run.n, run.m, d)
    requires forall i :: 0 <= i < run.n ==> run.pull[i] <= factor
    ensures Within(Next(run, x), Next(run, y), run.n, run.m, factor * d)
  {
    hide Next, Heard;
    forall i, c | 0 <= i < run.n && 0 <= c < run.m
      ensures -(factor * d) <= At(Next(run, x), i, c) - At(Next(run, y), i, c) <= factor * d
    {
      NextAt(run, x, i, c);
      NextAt(run, y, i, c);
      HeardDifference(run.weights, x, y, run.n, i, c, d);
      ScaledGap(run.pull[i], factor, Heard(run.weights, x, run.n, i, c), Heard(run.weights, y, run.n, i, c), d);
    }
  }

  lemma ScaledGap(pull: real, factor: real, a: real, b: real, d: real)
    requires 0.0 <= pull <= factor && -d <= a - b <= d
    ensures -(factor * d) <= pull * a - pull * b <= factor * d
  {
    NotNegative(pull, d - (a - b));
    NotNegative(pull, d + (a - b));
    NotNegative(factor - pull, d);
    assert pull * a - pull * b == pull * d - pull * (d - (a - b));
    assert pull * a - pull * b == pull * (d + (a - b)) - pull * d;
    assert factor * d == pull * d + (factor - pull) * d;
  }

  function Constant(n: nat, m: nat, v: real): Matrix {
    seq(n, i => seq(m, c => v))
  }

  lemma HeardConstant(w: Matrix, n: nat, m: nat, i: nat, c: nat, v: real)
    requires Distribution(n, Row(w, i)) && c < m
    ensures Heard(w, Constant(n, m, v), n, i, c) == v
  {
    HeardInRange(w, Constant(n, m, v), n, i, c, v, v);
  }

  /**
   A round is a contraction by a factor exactly when no agent's susceptibility
   is above it: it takes every agent to be anchored, not just one.
   */
  lemma ContractionNeedsEveryAnchor(run: Run, factor: real)
    requires Valid(run) && run.m > 0 && factor >= 0.0
    ensures ShrinksBy(run, factor) <==> forall i :: 0 <= i < run.n ==> run.pull[i] <= factor
  {
    hide Next, Heard;
    if ShrinksBy(run, factor) {
      var (ones, zeros) := (Constant(run.n, run.m, 1.0), Constant(run.n, run.m, 0.0));
      assert Within(ones, zeros, run.n, run.m, 1.0);
      assert Within(Next(run, ones), Next(run, zeros), run.n, run.m, factor * 1.0);
      forall i | 0 <= i < run.n ensures run.pull[i] <= factor {
        NextAt(run, ones, i, 0);
        NextAt(run, zeros, i, 0);
        HeardConstant(run.weights, run.n, run.m, i, 0, 1.0);
        HeardConstant(run.weights, run.n, run.m, i, 0, 0.0);
        assert At(Next(run, ones), i, 0) - At(Next(run, zeros), i, 0) <= factor;
      }
    }
    if forall i :: 0 <= i < run.n ==> run.pull[i] <= factor {
      forall x: Matrix, y: Matrix, d: real | d >= 0.0 && Within(x, y, run.n, run.m, d)
        ensures Within(Next(run, x), Next(run, y), run.n, run.m, factor * d)
      {
        RoundShrinks(run, x, y, factor, d);
      }
    }
  }

  /// So some round is a contraction at all exactly when every agent is anchored.
  lemma ContractsIffEveryoneIsAnchored(run: Run)
    requires Valid(run) && run.n > 0 && run.m > 0
    ensures (exists factor: real :: 0.0 <= factor < 1.0 && ShrinksBy(run, factor))
      <==> forall i :: 0 <= i < run.n ==> run.pull[i] < 1.0
  {
    var pulls: int -> real := i => if 0 <= i < |run.pull| then run.pull[i] else 0.0;
    var _, high := LowAndHigh(run.n, pulls);
    var most := pulls(high);
    forall i | 0 <= i < run.n ensures run.pull[i] <= most { assert pulls(i) <= most; }
    hide LowOf, HighOf, ShrinksBy, Valid;
    ContractionNeedsEveryAnchor(run, most);
    forall factor: real | 0.0 <= factor < 1.0 && ShrinksBy(run, factor) ensures most < 1.0 {
      ContractionNeedsEveryAnchor(run, factor);
    }
  }

  function Power(base: real, t: nat): (p: real) {
    if t == 0 then 1.0 else base * Power(base, t - 1)
  }

  lemma {:induction false} PowerNotNegative(base: real, t: nat)
    requires base >= 0.0
    ensures Power(base, t) >= 0.0
  {
    if t > 0 {
      PowerNotNegative(base, t - 1);
      NotNegative(base, Power(base, t - 1));
    }
  }

  /// With every agent anchored the steps shrink by the largest susceptibility
  /// each round, whatever the trust and the ballots.
  lemma {:induction false} AnchoredStepsShrink(run: Run, factor: real, t: nat)
    requires Valid(run) && factor >= 0.0 && forall i :: 0 <= i < run.n ==> run.pull[i] <= factor
    ensures Within(After(run, t + 1), After(run, t), run.n, run.m, Power(factor, t))
  {
    hide Next;
    if t == 0 {
      OpinionsStayDistributions(run, 1);
      OpinionsStayDistributions(run, 0);
      forall i, c | 0 <= i < run.n && 0 <= c < run.m
        ensures -1.0 <= At(After(run, 1), i, c) - At(After(run, 0), i, c) <= 1.0
      {
        SharesAreAtMostOne(After(run, 1), run.n, run.m, i);
        SharesAreAtMostOne(After(run, 0), run.n, run.m, i);
      }
    } else {
      AnchoredStepsShrink(run, factor, t - 1);
      PowerNotNegative(factor, t - 1);
      RoundShrinks(run, After(run, t), After(run, t - 1), factor, Power(factor, t - 1));
    }
  }

  // ---- groups with a period ----

  /// Everyone in the group listens one phase on.
  ghost predicate Phased(w: Matrix, n: nat, group: set<int>, phase: int -> int, d: nat)
    requires d > 0
  {
    forall i, j :: i in group && j in group && At(w, i, j) > 0.0 ==> phase(j) % d == (phase(i) + 1) % d
  }

  /**
   A closed unanchored group with a period passes its ballots round for ever:
   cast by phase, the choice is held in round `t` by exactly the members whose
   phase has come round.
   */
  lemma {:induction false} PhasesGoRound(run: Run, group: set<int>, phase: int -> int, d: nat, c: nat, t: nat)
    requires Valid(run) && Closed(run.weights, run.n, group) && c < run.m && d > 0
    requires forall i :: i in group ==> run.pull[i] == 1.0
    requires Phased(run.weights, run.n, group, phase, d)
    requires forall i :: i in group ==> At(run.start, i, c) == if phase(i) % d == 0 then 1.0 else 0.0
    ensures forall i :: i in group ==> At(After(run, t), i, c) == if (phase(i) + t) % d == 0 then 1.0 else 0.0
  {
    hide Next, Heard;
    if t > 0 {
      PhasesGoRound(run, group, phase, d, c, t - 1);
      var x := After(run, t - 1);
      forall i | i in group ensures At(After(run, t), i, c) == if (phase(i) + t) % d == 0 then 1.0 else 0.0 {
        var v := if (phase(i) + t) % d == 0 then 1.0 else 0.0;
        NextAt(run, x, i, c);
        forall j | 0 <= j < run.n && At(run.weights, i, j) > 0.0 ensures v <= At(x, j, c) <= v {
          assert j in group;
          SameResidue(phase(j), phase(i) + 1, t - 1, d);
        }
        HeardInRange(run.weights, x, run.n, i, c, v, v);
      }
    }
  }

  lemma SameResidue(a: int, b: int, k: int, d: nat)
    requires d > 0 && a % d == b % d
    ensures (a + k) % d == (b + k) % d
  {
    var q := a / d - b / d;
    assert a == b + q * d;
    ShiftResidue(b + k, q, d);
  }

  lemma ShiftResidue(a: int, q: int, d: nat)
    requires d > 0
    ensures (a + q * d) % d == a % d
  {
    var r := (a + q * d) / d - a / d - q;
    assert r * d == a % d - (a + q * d) % d;
    MultiplesAreApart(r, d);
  }

  lemma MultiplesAreApart(r: int, d: nat)
    ensures r >= 1 ==> r * d >= d
    ensures r <= -1 ==> r * d <= -(d as int)
  {
  }
}
