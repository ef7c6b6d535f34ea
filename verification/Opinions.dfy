/**
 DeGroot and Friedkin-Johnsen rounds over the opinions of the agents that voted
 (`iterate`, `spread` and `social_power`,
 `crates/vissue-core/src/consensus.rs`), over exact reals.
 */
module Opinions {
  import opened Base
  import opened Linear

  datatype Settling = Agreed | Split | Oscillating | Anchored

  /// `n` agents, `m` choices, who listens to whom, the ballots, and how far
  /// each agent may move off its own.
  datatype Run = Run(n: nat, m: nat, weights: Matrix, start: Matrix, pull: seq<real>)

  function Row(x: Matrix, i: int): int -> real {
    j => At(x, i, j)
  }

  function Col(x: Matrix, c: int): int -> real {
    i => At(x, i, c)
  }

  ghost predicate RowsSumToOne(x: Matrix, n: nat, m: nat) {
    Shape(x, n, m) && forall i :: 0 <= i < n ==> Distribution(m, Row(x, i))
  }

  ghost predicate Valid(run: Run) {
    && RowsSumToOne(run.weights, run.n, run.n)
    && RowsSumToOne(run.start, run.n, run.m)
    && |run.pull| == run.n
    && forall i :: 0 <= i < run.n ==> 0.0 <= run.pull[i] <= 1.0
  }

  /// What agent `i` hears of choice `c`.
  function Heard(w: Matrix, x: Matrix, n: nat, i: int, c: int): real {
    Sum(n, Weighted(Row(w, i), Col(x, c)))
  }

  function Moved(run: Run, x: Matrix, i: int, c: int): real
    requires 0 <= i < |run.pull|
  {
    run.pull[i] * Heard(run.weights, x, run.n, i, c) + (1.0 - run.pull[i]) * At(run.start, i, c)
  }

  function Next(run: Run, x: Matrix): Matrix
    requires |run.pull| == run.n
  {
    seq(run.n, i requires 0 <= i < run.n => seq(run.m, c requires 0 <= c < run.m => Moved(run, x, i, c)))
  }

  /// The opinions after `t` rounds.
  function After(run: Run, t: nat): Matrix
    requires |run.pull| == run.n
  {
    if t == 0 then run.start else Next(run, After(run, t - 1))
  }

  lemma NextAt(run: Run, x: Matrix, i: int, c: int)
    requires |run.pull| == run.n && 0 <= i < run.n && 0 <= c < run.m
    ensures At(Next(run, x), i, c) == Moved(run, x, i, c)
    ensures Shape(Next(run, x), run.n, run.m)
  {
    hide Moved;
  }

  // ---- what a round does to one opinion ----

  /// How each of the others pulls at an opinion, by the weight it has.
  function Tug(run: Run, x: Matrix, i: int, c: int): int -> real {
    j => At(run.weights, i, j) * (At(x, j, c) - At(x, i, c))
  }

  lemma TugTerm(w: real, x: real, y: real)
    ensures w * (x - y) == 1.0 * (w * x) + -y * w
  {
  }

  lemma PullsBalance(pull: real, heard: real, own: real, ballot: real)
    ensures pull * heard + (1.0 - pull) * ballot == own <==> pull * (heard - own) == (1.0 - pull) * (own - ballot)
  {
    assert pull * (heard - own) == pull * heard - pull * own;
    assert (1.0 - pull) * (own - ballot) == own - ballot - pull * own + pull * ballot;
    assert (1.0 - pull) * ballot == ballot - pull * ballot;
  }

  /// All the others pull together as far as what is heard lies off the opinion.
  lemma TugsAddUp(run: Run, x: Matrix, i: nat, c: nat)
    requires Valid(run) && i < run.n
    ensures Sum(run.n, Tug(run, x, i, c)) == Heard(run.weights, x, run.n, i, c) - At(x, i, c)
  {
    var (own, row, col) := (At(x, i, c), Row(run.weights, i), Col(x, c));
    assert Distribution(run.n, row);
    hide Valid, At;
    forall j | 0 <= j < run.n ensures Tug(run, x, i, c)(j) == 1.0 * Weighted(row, col)(j) + -own * row(j) {
      TugTerm(row(j), col(j), own);
    }
    SumLinear(run.n, 1.0, Weighted(row, col), -own, row, Tug(run, x, i, c));
  }

  /// A round leaves an opinion where it is exactly when what the others pull,
  /// by the susceptibility, is what the ballot pulls back, by the rest.
  lemma RestsExactly(run: Run, x: Matrix, i: nat, c: nat)
    requires Valid(run) && i < run.n && c < run.m
    ensures At(Next(run, x), i, c) == At(x, i, c) <==>
      run.pull[i] * Sum(run.n, Tug(run, x, i, c)) == (1.0 - run.pull[i]) * (At(x, i, c) - At(run.start, i, c))
  {
    NextAt(run, x, i, c);
    TugsAddUp(run, x, i, c);
    hide At, Heard, Tug, Sum;
    PullsBalance(run.pull[i], Heard(run.weights, x, run.n, i, c), At(x, i, c), At(run.start, i, c));
  }

  // ---- every opinion stays a distribution ----

  function HeardRow(w: Matrix, x: Matrix, n: nat, i: int): int -> real {
    c => Heard(w, x, n, i, c)
  }

  function Products(w: Matrix, x: Matrix, i: int): (int, int) -> real {
    (j, c) => At(w, i, j) * At(x, j, c)
  }

  lemma HeardSumsToOne(w: Matrix, x: Matrix, n: nat, m: nat, i: nat)
    requires i < n && RowsSumToOne(w, n, n) && RowsSumToOne(x, n, m)
    ensures Sum(m, HeardRow(w, x, n, i)) == 1.0
  {
    var a := Products(w, x, i);
    SumSwap(n, m, a);
    forall j | 0 <= j < n ensures RowSums(a, m)(j) == 1.0 * Row(w, i)(j) {
      SumScaled(m, At(w, i, j), Row(x, j), c => a(j, c));
      assert Distribution(m, Row(x, j));
    }
    SumScaled(n, 1.0, Row(w, i), RowSums(a, m));
    forall c | 0 <= c < m ensures RowSums(Transposed(a), n)(c) == HeardRow(w, x, n, i)(c) {
      SumSame(n, j => Transposed(a)(c, j), Weighted(Row(w, i), Col(x, c)));
    }
    SumSame(m, RowSums(Transposed(a), n), HeardRow(w, x, n, i));
  }

  lemma HeardInRange(w: Matrix, x: Matrix, n: nat, i: int, c: int, low: real, high: real)
    requires Distribution(n, Row(w, i))
    requires forall j :: 0 <= j < n && At(w, i, j) > 0.0 ==> low <= At(x, j, c) <= high
    ensures low <= Heard(w, x, n, i, c) <= high
  {
    MeanInRange(n, Row(w, i), Col(x, c), low, high);
  }

  lemma SharesAreAtMostOne(x: Matrix, n: nat, m: nat, i: nat)
    requires RowsSumToOne(x, n, m) && i < n
    ensures forall c :: 0 <= c < m ==> 0.0 <= At(x, i, c) <= 1.0
  {
    SumNotNegative(m, Row(x, i));
    forall c | 0 <= c < m ensures 0.0 <= At(x, i, c) <= 1.0 {
      assert Row(x, i)(c) <= Sum(m, Row(x, i));
    }
  }

  lemma NextKeepsDistributions(run: Run, x: Matrix)
    requires Valid(run) && RowsSumToOne(x, run.n, run.m)
    ensures RowsSumToOne(Next(run, x), run.n, run.m)
  {
    var y := Next(run, x);
    forall i | 0 <= i < run.n ensures Distribution(run.m, Row(y, i)) {
      RowKeepsDistribution(run, x, i);
    }
  }

  lemma RowKeepsDistribution(run: Run, x: Matrix, i: nat)
    requires Valid(run) && RowsSumToOne(x, run.n, run.m) && i < run.n
    ensures Distribution(run.m, Row(Next(run, x), i))
  {
    var (y, lambda) := (Next(run, x), run.pull[i]);
    HeardSumsToOne(run.weights, x, run.n, run.m, i);
    forall j, c | 0 <= j < run.n && 0 <= c < run.m ensures 0.0 <= At(x, j, c) <= 1.0 {
      SharesAreAtMostOne(x, run.n, run.m, j);
    }
    SharesAreAtMostOne(run.start, run.n, run.m, i);
    hide Heard;
    forall c | 0 <= c < run.m
      ensures Row(y, i)(c) == lambda * HeardRow(run.weights, x, run.n, i)(c) + (1.0 - lambda) * Row(run.start, i)(c)
      ensures Row(y, i)(c) >= 0.0
    {
      NextAt(run, x, i, c);
      HeardInRange(run.weights, x, run.n, i, c, 0.0, 1.0);
      Between(lambda, Heard(run.weights, x, run.n, i, c), At(run.start, i, c), 0.0, 1.0);
    }
    hide Next;
    SumLinear(run.m, lambda, HeardRow(run.weights, x, run.n, i), 1.0 - lambda, Row(run.start, i), Row(y, i));
  }

  /// Every opinion of every round is a distribution over the choices.
  lemma {:induction false} OpinionsStayDistributions(run: Run, t: nat)
    requires Valid(run)
    ensures RowsSumToOne(After(run, t), run.n, run.m)
  {
    hide Next;
    if t > 0 {
      OpinionsStayDistributions(run, t - 1);
      NextKeepsDistributions(run, After(run, t - 1));
    }
  }

  // ---- groups that listen only to themselves ----

  /// Nobody in the group listens outside it.
  ghost predicate Closed(w: Matrix, n: nat, group: set<int>) {
    && (forall i :: i in group ==> 0 <= i < n)
    && forall i, j :: i in group && 0 <= j < n && At(w, i, j) > 0.0 ==> j in group
  }

  /**
   A closed group stays, in every round and at any susceptibility, between the
   ballots its own members cast: nothing outside ever moves it.
   */
  lemma {:induction false} ClosedGroupKeepsToItself(run: Run, group: set<int>, c: nat, low: real, high: real, t: nat)
    requires Valid(run) && Closed(run.weights, run.n, group) && c < run.m
    requires forall i :: i in group ==> low <= At(run.start, i, c) <= high
    ensures forall i :: i in group ==> low <= At(After(run, t), i, c) <= high
  {
    hide Next, Heard;
    if t > 0 {
      ClosedGroupKeepsToItself(run, group, c, low, high, t - 1);
      var x := After(run, t - 1);
      forall i | i in group ensures low <= At(After(run, t), i, c) <= high {
        NextAt(run, x, i, c);
        HeardInRange(run.weights, x, run.n, i, c, low, high);
        Between(run.pull[i], Heard(run.weights, x, run.n, i, c), At(run.start, i, c), low, high);
      }
    }
  }

  // ---- the spread ----

  function LowOf(k: nat, f: int -> real): real
    requires k > 0
  {
    if k == 1 then f(0) else Min(LowOf(k - 1, f), f(k - 1))
  }

  function HighOf(k: nat, f: int -> real): real
    requires k > 0
  {
    if k == 1 then f(0) else Max(HighOf(k - 1, f), f(k - 1))
  }

  lemma {:induction false} LowAndHigh(k: nat, f: int -> real) returns (low: int, high: int)
    requires k > 0
    ensures 0 <= low < k && f(low) == LowOf(k, f) && 0 <= high < k && f(high) == HighOf(k, f)
    ensures forall i :: 0 <= i < k ==> LowOf(k, f) <= f(i) <= HighOf(k, f)
  {
    low, high := 0, 0;
    if k > 1 {
      low, high := LowAndHigh(k - 1, f);
      if f(k - 1) < LowOf(k - 1, f) { low := k - 1; }
      if f(k - 1) > HighOf(k - 1, f) { high := k - 1; }
    }
  }

  function Gap(x: Matrix, n: nat, c: int): real
    requires n > 0
  {
    HighOf(n, Col(x, c)) - LowOf(n, Col(x, c))
  }

  /// The largest disagreement between two agents on one of the first `m`
  /// choices.
  function Spread(x: Matrix, n: nat, m: nat): real
    requires n > 0
  {
    if m == 0 then 0.0 else Max(Spread(x, n, m - 1), Gap(x, n, m - 1))
  }

  lemma {:induction false} SpreadBounds(x: Matrix, n: nat, m: nat)
    requires n > 0
    ensures Spread(x, n, m) >= 0.0
    ensures forall c :: 0 <= c < m ==> Gap(x, n, c) <= Spread(x, n, m)
    ensures Spread(x, n, m) == 0.0 || exists c :: 0 <= c < m && Gap(x, n, c) == Spread(x, n, m)
  {
    hide Gap;
    if m > 0 { SpreadBounds(x, n, m - 1); }
  }

  lemma SpreadAtMost(x: Matrix, n: nat, m: nat, bound: real)
    requires n > 0 && bound >= 0.0
    requires forall c :: 0 <= c < m ==> Gap(x, n, c) <= bound
    ensures Spread(x, n, m) <= bound
  {
    SpreadBounds(x, n, m);
  }

  /// Any two agents are within the spread of one another, and some two are
  /// that far apart.
  lemma SpreadIsTheLargestDisagreement(x: Matrix, n: nat, m: nat)
    requires n > 0
    ensures forall i, j, c :: 0 <= i < n && 0 <= j < n && 0 <= c < m ==> Abs(At(x, i, c) - At(x, j, c)) <= Spread(x, n, m)
    ensures Spread(x, n, m) == 0.0 ||
      exists i, j, c :: 0 <= i < n && 0 <= j < n && 0 <= c < m && At(x, i, c) - At(x, j, c) == Spread(x, n, m)
  {
    SpreadBounds(x, n, m);
    forall i, j, c | 0 <= i < n && 0 <= j < n && 0 <= c < m ensures Abs(At(x, i, c) - At(x, j, c)) <= Spread(x, n, m) {
      var _, _ := LowAndHigh(n, Col(x, c));
      assert LowOf(n, Col(x, c)) <= Col(x, c)(i) <= HighOf(n, Col(x, c));
      assert LowOf(n, Col(x, c)) <= Col(x, c)(j) <= HighOf(n, Col(x, c));
      assert Gap(x, n, c) <= Spread(x, n, m);
    }
    if Spread(x, n, m) != 0.0 {
      var c :| 0 <= c < m && Gap(x, n, c) == Spread(x, n, m);
      var low, high := LowAndHigh(n, Col(x, c));
      assert At(x, high, c) - At(x, low, c) == Spread(x, n, m);
    }
  }

  lemma GapAtMost(x: Matrix, n: nat, c: int, low: real, high: real)
    requires n > 0 && forall i :: 0 <= i < n ==> low <= At(x, i, c) <= high
    ensures Gap(x, n, c) <= high - low
  {
    var l, h := LowAndHigh(n, Col(x, c));
    assert low <= Col(x, c)(l) && Col(x, c)(h) <= high;
  }

  /// Unanchored agents only ever move towards one another.
  lemma SpreadNeverGrows(run: Run, t: nat)
    requires Valid(run) && run.n > 0 && forall i :: 0 <= i < run.n ==> run.pull[i] == 1.0
    ensures Spread(After(run, t + 1), run.n, run.m) <= Spread(After(run, t), run.n, run.m)
  {
    var (x, n) := (After(run, t), run.n);
    SpreadBounds(x, n, run.m);
    assert After(run, t + 1) == Next(run, x);
    hide Next, After, Spread, Gap;
    forall c | 0 <= c < run.m ensures Gap(Next(run, x), n, c) <= Gap(x, n, c) {
      GapNeverGrows(run, x, c);
    }
    SpreadAtMost(Next(run, x), n, run.m, Spread(x, n, run.m));
  }

  lemma GapNeverGrows(run: Run, x: Matrix, c: nat)
    requires Valid(run) && run.n > 0 && c < run.m && forall i :: 0 <= i < run.n ==> run.pull[i] == 1.0
    ensures Gap(Next(run, x), run.n, c) <= Gap(x, run.n, c)
  {
    hide Next, Heard;
    var n := run.n;
    var _, _ := LowAndHigh(n, Col(x, c));
    var (low, high) := (LowOf(n, Col(x, c)), HighOf(n, Col(x, c)));
    forall j | 0 <= j < n ensures low <= At(x, j, c) <= high {
      assert low <= Col(x, c)(j) <= high;
    }
    hide LowOf, HighOf;
    forall i | 0 <= i < n ensures low <= At(Next(run, x), i, c) <= high {
      NextAt(run, x, i, c);
      HeardInRange(run.weights, x, n, i, c, low, high);
    }
    GapAtMost(Next(run, x), n, c, low, high);
  }

  /// Anchored agents stay as close as the ballots were.
  lemma AnchoredSpreadStaysWithinTheBallots(run: Run, t: nat)
    requires Valid(run) && run.n > 0
    ensures Spread(After(run, t), run.n, run.m) <= Spread(run.start, run.n, run.m)
  {
    var n := run.n;
    SpreadBounds(run.start, n, run.m);
    hide Spread, After, Closed;
    forall c | 0 <= c < run.m ensures Gap(After(run, t), n, c) <= Gap(run.start, n, c) {
      var _, _ := LowAndHigh(n, Col(run.start, c));
      var (low, high) := (LowOf(n, Col(run.start, c)), HighOf(n, Col(run.start, c)));
      var all := Everyone(n);
      EveryoneIsClosed(run.weights, n);
      assert forall i :: i in all ==> low <= Col(run.start, c)(i) <= high;
      ClosedGroupKeepsToItself(run, all, c, low, high, t);
      GapAtMost(After(run, t), n, c, low, high);
    }
    SpreadAtMost(After(run, t), n, run.m, Spread(run.start, n, run.m));
  }

  lemma EveryoneIsClosed(w: Matrix, n: nat)
    ensures Closed(w, n, Everyone(n))
  {
  }

  /**
   Two closed groups that each voted as one, for different choices, are as far
   apart in every round as they were at the start.
   */
  lemma OpposedGroupsNeverMeet(run: Run, g1: set<int>, g2: set<int>, i: nat, j: nat, c: nat, t: nat)
    requires Valid(run) && c < run.m && i in g1 && j in g2
    requires Closed(run.weights, run.n, g1) && Closed(run.weights, run.n, g2)
    requires forall k :: k in g1 ==> At(run.start, k, c) == 1.0
    requires forall k :: k in g2 ==> At(run.start, k, c) == 0.0
    ensures Spread(After(run, t), run.n, run.m) == 1.0
  {
    var (x, n) := (After(run, t), run.n);
    ClosedGroupKeepsToItself(run, g1, c, 1.0, 1.0, t);
    ClosedGroupKeepsToItself(run, g2, c, 0.0, 0.0, t);
    OpinionsStayDistributions(run, t);
    hide After, Closed, Spread, RowsSumToOne;
    SpreadIsTheLargestDisagreement(x, n, run.m);
    assert Abs(At(x, i, c) - At(x, j, c)) <= Spread(x, n, run.m);
    forall d | 0 <= d < run.m ensures Gap(x, n, d) <= 1.0 {
      forall k | 0 <= k < n ensures 0.0 <= At(x, k, d) <= 1.0 { SharesAreAtMostOne(x, n, run.m, k); }
      GapAtMost(x, n, d, 0.0, 1.0);
    }
    SpreadAtMost(x, n, run.m, 1.0);
  }
}
