/**
 The loops that run the rounds (`iterate`, `spread` and `social_power`,
 `crates/vissue-core/src/consensus.rs`).
 */
module Rounds {
  import opened Linear
  import opened Opinions
  import opened Limits

  // ---- how far one round moved anyone ----

  function MaxMove(x: Matrix, y: Matrix, m: nat, i: nat, c: nat): real
    requires c <= m
    decreases i, c
  {
    if c > 0 then Max(MaxMove(x, y, m, i, c - 1), Abs(At(y, i, c - 1) - At(x, i, c - 1)))
    else if i > 0 then MaxMove(x, y, m, i - 1, m)
    else 0.0
  }

  /// The largest change of any opinion from `x` to `y`, over the first `n`
  /// agents.
  function StepSize(x: Matrix, y: Matrix, n: nat, m: nat): real {
    MaxMove(x, y, m, n, 0)
  }

  lemma {:induction false} MaxMoveBounds(x: Matrix, y: Matrix, m: nat, i: nat, c: nat)
    requires c <= m
    ensures MaxMove(x, y, m, i, c) >= 0.0
    ensures forall k, d :: 0 <= k < i && 0 <= d < m ==> Abs(At(y, k, d) - At(x, k, d)) <= MaxMove(x, y, m, i, c)
    ensures forall d :: 0 <= d < c ==> Abs(At(y, i, d) - At(x, i, d)) <= MaxMove(x, y, m, i, c)
    decreases i, c
  {
    if c > 0 {
      MaxMoveBounds(x, y, m, i, c - 1);
    } else if i > 0 {
      MaxMoveBounds(x, y, m, i - 1, m);
    }
  }

  lemma {:induction false} MaxMoveAtMost(x: Matrix, y: Matrix, m: nat, i: nat, c: nat, d: real)
    requires c <= m && d >= 0.0
    requires forall k, e :: 0 <= k <= i && 0 <= e < m && (k < i || e < c) ==> Abs(At(y, k, e) - At(x, k, e)) <= d
    ensures MaxMove(x, y, m, i, c) <= d
    decreases i, c
  {
    if c > 0 {
      MaxMoveAtMost(x, y, m, i, c - 1, d);
    } else if i > 0 {
      MaxMoveAtMost(x, y, m, i - 1, m, d);
    }
  }

  /// The step is small exactly when every opinion moved little.
  lemma StepIsTheLargestMove(x: Matrix, y: Matrix, n: nat, m: nat, d: real)
    requires d >= 0.0
    ensures StepSize(x, y, n, m) <= d <==> Within(y, x, n, m, d)
  {
    MaxMoveBounds(x, y, m, n, 0);
    if Within(y, x, n, m, d) {
      MaxMoveAtMost(x, y, m, n, 0, d);
    }
  }

  // ---- when a run stops ----

  /// A convergent run stops at the first round whose opinions are close, any
  /// other at the first round that moved nobody much.
  predicate Stops(run: Run, settling: Settling, tolerance: real, r: nat)
    requires |run.pull| == run.n > 0
  {
    if settling == Agreed then Spread(After(run, r), run.n, run.m) < tolerance
    else r > 0 && StepSize(After(run, r - 1), After(run, r), run.n, run.m) < tolerance
  }

  /// The rounds a run takes, with a budget of `max`.
  ghost predicate Stopped(run: Run, settling: Settling, tolerance: real, max: nat, rounds: nat)
    requires |run.pull| == run.n > 0
  {
    if settling == Oscillating then rounds == 0
    else
      && rounds <= max
      && (rounds == max || Stops(run, settling, tolerance, rounds))
      && forall r: nat :: r < rounds ==> !Stops(run, settling, tolerance, r)
  }

  method SpreadOf(x: Matrix, n: nat, m: nat) returns (worst: real)
    requires n > 0 && Shape(x, n, m)
    ensures worst == Spread(x, n, m)
  {
    worst := 0.0;
    for c := 0 to m
      invariant worst == Spread(x, n, c)
    {
      var (low, high) := (x[0][c], x[0][c]);
      for i := 1 to n
        invariant low == LowOf(i, Col(x, c)) && high == HighOf(i, Col(x, c))
      {
        low, high := Min(low, x[i][c]), Max(high, x[i][c]);
      }
      worst := Max(worst, high - low);
    }
  }

  method HeardOf(w: Matrix, x: Matrix, n: nat, m: nat, i: nat, c: nat) returns (acc: real)
    requires Shape(w, n, n) && Shape(x, n, m) && i < n && c < m
    ensures acc == Heard(w, x, n, i, c)
  {
    acc := 0.0;
    for j := 0 to n
      invariant acc == Sum(j, Weighted(Row(w, i), Col(x, c)))
    {
      acc := acc + w[i][j] * x[j][c];
    }
  }

  method OneRound(run: Run, x: Matrix) returns (next: Matrix, step: real)
    requires Valid(run) && Shape(x, run.n, run.m)
    ensures next == Next(run, x) && step == StepSize(x, next, run.n, run.m)
  {
    hide Heard, Distribution;
    ghost var y := Next(run, x);
    next, step := [], 0.0;
    for i := 0 to run.n
      invariant |next| == i && forall k :: 0 <= k < i ==> next[k] == y[k]
      invariant step == MaxMove(x, y, run.m, i, 0)
    {
      var row: seq<real> := [];
      for c := 0 to run.m
        invariant |row| == c && forall d :: 0 <= d < c ==> row[d] == y[i][d]
        invariant step == MaxMove(x, y, run.m, i, c)
      {
        var acc := HeardOf(run.weights, x, run.n, run.m, i, c);
        var value := run.pull[i] * acc + (1.0 - run.pull[i]) * run.start[i][c];
        NextAt(run, x, i, c);
        row := row + [value];
        step := Max(step, Abs(value - x[i][c]));
      }
      next := next + [row];
    }
  }

  /// Everyone is within less than `d` of everyone else on every choice.
  ghost predicate AllNear(x: Matrix, n: nat, m: nat, d: real) {
    forall i, j, c :: 0 <= i < n && 0 <= j < n && 0 <= c < m ==> Abs(At(x, i, c) - At(x, j, c)) < d
  }

  /// Nobody moved by `d` or more on any choice.
  ghost predicate AllStayed(x: Matrix, y: Matrix, n: nat, m: nat, d: real) {
    forall i, c :: 0 <= i < n && 0 <= c < m ==> Abs(At(y, i, c) - At(x, i, c)) < d
  }

  lemma {:induction false} MoveAttained(x: Matrix, y: Matrix, m: nat, i: nat, c: nat, d: real)
    requires c <= m && d > 0.0
    requires forall k, e :: 0 <= k <= i && 0 <= e < m && (k < i || e < c) ==> Abs(At(y, k, e) - At(x, k, e)) < d
    ensures MaxMove(x, y, m, i, c) < d
    decreases i, c
  {
    if c > 0 {
      MoveAttained(x, y, m, i, c - 1, d);
    } else if i > 0 {
      MoveAttained(x, y, m, i - 1, m, d);
    }
  }

  lemma NearExactly(x: Matrix, n: nat, m: nat, d: real)
    requires n > 0 && d > 0.0
    ensures Spread(x, n, m) < d <==> AllNear(x, n, m, d)
  {
    SpreadIsTheLargestDisagreement(x, n, m);
    hide Spread;
  }

  lemma StayedExactly(x: Matrix, y: Matrix, n: nat, m: nat, d: real)
    requires d > 0.0
    ensures StepSize(x, y, n, m) < d <==> AllStayed(x, y, n, m, d)
  {
    MaxMoveBounds(x, y, m, n, 0);
    if AllStayed(x, y, n, m, d) {
      MoveAttained(x, y, m, n, 0, d);
    }
    hide MaxMove;
  }

  /**
   What it means that a run stops: where the trust graph lets everyone agree, it
   stops at the first round in which all are within the tolerance of each other;
   anywhere else, behind the first round in which nobody moved by as much.
   */
  lemma StopsExactly(run: Run, settling: Settling, tolerance: real, r: nat)
    requires |run.pull| == run.n > 0 && tolerance > 0.0
    ensures Stops(run, settling, tolerance, r) <==>
      if settling == Agreed then AllNear(After(run, r), run.n, run.m, tolerance)
      else r > 0 && AllStayed(After(run, r - 1), After(run, r), run.n, run.m, tolerance)
  {
    hide After, Spread, StepSize, AllNear, AllStayed;
    NearExactly(After(run, r), run.n, run.m, tolerance);
    if r > 0 {
      StayedExactly(After(run, r - 1), After(run, r), run.n, run.m, tolerance);
    }
  }

  method Iterate(run: Run, settling: Settling, tolerance: real, max: nat) returns (opinion: Matrix, rounds: nat)
    requires Valid(run) && run.n > 0
    ensures opinion == After(run, rounds) && Stopped(run, settling, tolerance, max, rounds)
  {
    hide Spread, StepSize, Next, RowsSumToOne;
    opinion := run.start;
    if settling == Oscillating {
      return opinion, 0;
    }
    for round := 0 to max
      invariant opinion == After(run, round)
      invariant forall r: nat :: r < round ==> !Stops(run, settling, tolerance, r)
      invariant settling != Agreed ==> !Stops(run, settling, tolerance, round)
    {
      AfterShape(run, round);
      if settling == Agreed {
        var spread := SpreadOf(opinion, run.n, run.m);
        if spread < tolerance {
          return opinion, round;
        }
      }
      var next, step := OneRound(run, opinion);
      assert next == After(run, round + 1);
      opinion := next;
      if settling != Agreed && step < tolerance {
        return opinion, round + 1;
      }
    }
    rounds := max;
  }

  lemma AfterShape(run: Run, t: nat)
    requires Valid(run)
    ensures Shape(After(run, t), run.n, run.m)
  {
    OpinionsStayDistributions(run, t);
  }

  // ---- social power ----

  /// How far one round of handing on moved any agent's weight.
  function PowerStep(p: int -> real, q: int -> real, n: nat): real {
    if n == 0 then 0.0 else Max(PowerStep(p, q, n - 1), Abs(q(n - 1) - p(n - 1)))
  }

  predicate Holds(a: array<real>, p: int -> real)
    reads a
  {
    forall j :: 0 <= j < a.Length ==> a[j] == p(j)
  }

  method HandOn(w: Matrix, n: nat, power: array<real>, ghost p: int -> real) returns (next: array<real>)
    requires Shape(w, n, n) && power.Length == n && Holds(power, p)
    ensures fresh(next) && next.Length == n && Holds(next, HandedOn(p, w, n))
  {
    next := new real[n](j => 0.0);
    for j := 0 to n
      modifies next
      invariant forall k :: 0 <= k < n ==> next[k] == if k < j then HandedOn(p, w, n)(k) else 0.0
    {
      for i := 0 to n
        modifies next
        invariant next[j] == Sum(i, Weighted(p, Col(w, j)))
        invariant forall k :: 0 <= k < n && k != j ==> next[k] == if k < j then HandedOn(p, w, n)(k) else 0.0
      {
        next[j] := next[j] + power[i] * w[i][j];
      }
    }
  }

  method PowerStepOf(power: array<real>, next: array<real>, ghost p: int -> real, ghost q: int -> real) returns (step: real)
    requires power.Length == next.Length && Holds(power, p) && Holds(next, q)
    ensures step == PowerStep(p, q, power.Length)
  {
    step := 0.0;
    for i := 0 to power.Length
      invariant step == PowerStep(p, q, i)
    {
      step := Max(step, Abs(next[i] - power[i]));
    }
  }

  /// Scale what already sums to one: nothing changes.
  method ScalePower(power: array<real>, ghost p: int -> real)
    requires Holds(power, p) && Distribution(power.Length, p)
    modifies power
    ensures Holds(power, p)
  {
    var sum := 0.0;
    for i := 0 to power.Length
      invariant sum == Sum(i, p)
    {
      sum := sum + power[i];
    }
    if sum > 0.0 {
      for i := 0 to power.Length
        invariant Holds(power, p)
      {
        power[i] := power[i] / sum;
      }
    }
  }

  /// Round `r` of handing on moved nobody's weight much.
  predicate PowerRests(w: Matrix, n: nat, tolerance: real, r: nat)
    requires n > 0
  {
    r > 0 && PowerStep(PowerAfter(w, n, r - 1), PowerAfter(w, n, r), n) < tolerance
  }

  /// The round power is reported after: the first at rest, or the last there is.
  ghost predicate PowerStopped(w: Matrix, n: nat, tolerance: real, max: nat, rounds: nat)
    requires n > 0
  {
    && rounds <= max && (rounds == max || PowerRests(w, n, tolerance, rounds))
    && forall r: nat :: r < rounds ==> !PowerRests(w, n, tolerance, r)
  }

  method SocialPower(w: Matrix, n: nat, tolerance: real, max: nat) returns (power: array<real>, ghost rounds: nat)
    requires n > 0 && RowsSumToOne(w, n, n)
    ensures power.Length == n && Holds(power, PowerAfter(w, n, rounds)) && PowerStopped(w, n, tolerance, max, rounds)
  {
    power := new real[n](i => 1.0 / n as real);
    rounds := max;
    assert Holds(power, PowerAfter(w, n, 0));
    assert !PowerRests(w, n, tolerance, 0);
    hide HandedOn, PowerAfter, PowerStep, PowerRests, Holds, RowsSumToOne, Distribution;
    for r := 0 to max
      invariant fresh(power) && power.Length == n && Holds(power, PowerAfter(w, n, r))
      invariant forall k: nat :: k <= r ==> !PowerRests(w, n, tolerance, k)
    {
      var next, step := PowerRound(w, n, power, r);
      RestsExactly(w, n, tolerance, r, step);
      power := next;
      if step < tolerance {
        rounds := r + 1;
        break;
      }
    }
    PowerIsADistribution(w, n, rounds);
    ScalePower(power, PowerAfter(w, n, rounds));
  }

  method PowerRound(w: Matrix, n: nat, power: array<real>, ghost r: nat) returns (next: array<real>, step: real)
    requires n > 0 && RowsSumToOne(w, n, n) && power.Length == n && Holds(power, PowerAfter(w, n, r))
    ensures fresh(next) && next.Length == n && Holds(next, PowerAfter(w, n, r + 1))
    ensures step == PowerStep(PowerAfter(w, n, r), PowerAfter(w, n, r + 1), n)
  {
    next := HandOn(w, n, power, PowerAfter(w, n, r));
    step := PowerStepOf(power, next, PowerAfter(w, n, r), PowerAfter(w, n, r + 1));
  }

  lemma RestsExactly(w: Matrix, n: nat, tolerance: real, r: nat, step: real)
    requires n > 0 && step == PowerStep(PowerAfter(w, n, r), PowerAfter(w, n, r + 1), n)
    ensures PowerRests(w, n, tolerance, r + 1) <==> step < tolerance
  {
    hide PowerAfter;
  }
}
