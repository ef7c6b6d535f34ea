/**
 Ballots from which a group never settles, for every trust graph the program
 calls divided or periodic (`classify`, `crates/vissue-core/src/consensus.rs`).
 */
module Unsettled {
  import opened Linear
  import opened Opinions
  import opened Limits
  import opened Rounds
  import opened Walks
  import opened Period
  import opened Structure

  // ---- ballots between two choices ----

  /// Everyone's ballot between two choices, the first of them for the agents
  /// of `yes`.
  function TwoWay(n: nat, yes: int -> bool): Matrix {
    seq(n, i requires 0 <= i < n => if yes(i) then [1.0, 0.0] else [0.0, 1.0])
  }

  /// The same group voting that way.
  function Voting(run: Run, yes: int -> bool): Run {
    run.(m := 2, start := TwoWay(run.n, yes))
  }

  lemma VotingIsValid(run: Run, yes: int -> bool)
    requires Valid(run)
    ensures Valid(Voting(run, yes))
    ensures forall i :: 0 <= i < run.n ==> At(Voting(run, yes).start, i, 0) == if yes(i) then 1.0 else 0.0
  {
    var x := TwoWay(run.n, yes);
    forall i | 0 <= i < run.n ensures Distribution(2, Row(x, i)) {
      var s := Row(x, i);
      assert Sum(2, s) == Sum(1, s) + s(1) && Sum(1, s) == Sum(0, s) + s(0);
    }
  }

  // ---- divided ----

  /**
   Whatever the trust, a divided group has ballots on which its spread is one in
   every round: one closed component votes for the first choice, all others
   for the second.
   */
  lemma DividedBallots(run: Run, comps: seq<seq<int>>, k: int, l: int) returns (split: Run)
    requires Valid(run) && run.n > 0 && k != l
    requires var g := GraphOf(run.weights, run.n); Components(g, comps) && ClosedAt(g, comps, k) && ClosedAt(g, comps, l)
    ensures split == Voting(run, i => 0 <= k < |comps| && i in comps[k]) && Valid(split)
    ensures forall t: nat :: Spread(After(split, t), run.n, 2) == 1.0
    ensures forall r: nat, tolerance :: tolerance <= 1.0 ==> !Stops(split, Agreed, tolerance, r)
  {
    var yes := i => 0 <= k < |comps| && i in comps[k];
    split := Voting(run, yes);
    VotingIsValid(run, yes);
    assert comps[k] != [] && comps[l] != [];
    forall i | i in comps[k] ensures 0 <= i < run.n { assert Node(GraphOf(run.weights, run.n), i); }
    forall i | i in comps[l] ensures 0 <= i < run.n { assert Node(GraphOf(run.weights, run.n), i); }
    ComponentsAreDisjoint(GraphOf(run.weights, run.n), comps);
    hide Components, ClosedAt, After, Spread, Valid, TwoWay;
    forall t: nat ensures Spread(After(split, t), run.n, 2) == 1.0 {
      DividedNeverAgrees(split, comps, k, l, 0, t);
    }
  }

  // ---- periodic ----

  /// Every phase is somebody's: the group is gone round along its edges.
  lemma {:induction false} EveryPhaseIsHeld(w: Matrix, n: nat, group: set<int>, root: int, phase: int -> int, p: nat, d: nat)
    returns (i: int)
    requires RowsSumToOne(w, n, n) && Closed(w, n, group) && root in group && p > 0 && Phased(w, n, group, phase, p)
    ensures i in group && phase(i) % p == (phase(root) + d) % p
  {
    if d == 0 {
      i := root;
    } else {
      var h := EveryPhaseIsHeld(w, n, group, root, phase, p, d - 1);
      i := HeardBy(w, n, group, h);
      assert phase(i) % p == (phase(h) + 1) % p;
      hide *;
      SameResidue(phase(h), phase(root) + (d - 1), 1, p);
    }
  }

  lemma HeardBy(w: Matrix, n: nat, group: set<int>, h: int) returns (i: int)
    requires RowsSumToOne(w, n, n) && Closed(w, n, group) && h in group
    ensures i in group && At(w, h, i) > 0.0
  {
    DistributionsListen(w, n);
    hide RowsSumToOne, At;
    var g := GraphOf(w, n);
    assert Node(g, h) && ListensTo(g, h);
    i :| Node(g, i) && g.edge(h, i);
  }

  /// In every round somebody's turn has come.
  lemma SomeoneIsUp(w: Matrix, n: nat, group: set<int>, root: int, phase: int -> int, p: nat, t: int) returns (i: int)
    requires RowsSumToOne(w, n, n) && Closed(w, n, group) && root in group && p > 0 && Phased(w, n, group, phase, p)
    ensures i in group && (phase(i) + t) % p == 0
  {
    var at := (phase(root) + t) % p;
    var d := p - at;
    hide RowsSumToOne, Closed, Phased;
    i := EveryPhaseIsHeld(w, n, group, root, phase, p, d);
    SameResidue(phase(i), phase(root) + d, t, p);
    var q := (phase(root) + t) / p + 1;
    assert phase(root) + d + t == 0 + q * p;
    ShiftResidue(0, q, p);
  }

  lemma NextIsNotUp(a: int, p: nat)
    requires p > 1 && a % p == 0
    ensures (a + 1) % p != 0 && (a - 1) % p != 0
  {
    SameResidue(a, 0, 1, p);
    SameResidue(a, 0, -1, p);
    assert 1 % p == 1;
    ShiftResidue(-1, 1, p);
    assert -1 + 1 * p == p - 1 && (p - 1) % p == p - 1;
  }

  /// In every round somebody holds the choice altogether who did not hold it
  /// at all the round before, and somebody else does not hold it.
  lemma RoundOfTurns(run: Run, group: set<int>, root: int, phase: int -> int, p: nat, r: nat) returns (i: int, j: int)
    requires Valid(run) && Closed(run.weights, run.n, group) && run.m > 0 && p > 1 && root in group
    requires forall i :: i in group ==> run.pull[i] == 1.0
    requires Phased(run.weights, run.n, group, phase, p)
    requires forall i :: i in group ==> At(run.start, i, 0) == if phase(i) % p == 0 then 1.0 else 0.0
    ensures 0 <= i < run.n && 0 <= j < run.n
    ensures At(After(run, r), i, 0) == 1.0 && At(After(run, r), j, 0) == 0.0
    ensures r > 0 ==> At(After(run, r - 1), i, 0) == 0.0
  {
    i := SomeoneIsUp(run.weights, run.n, group, root, phase, p, r);
    j := SomeoneIsUp(run.weights, run.n, group, root, phase, p, r + 1);
    NextIsNotUp(phase(i) + r, p);
    NextIsNotUp(phase(j) + r + 1, p);
    hide After;
    PhasesGoRound(run, group, phase, p, 0, r);
    if r > 0 {
      PhasesGoRound(run, group, phase, p, 0, r - 1);
    }
  }

  lemma TurnsNeverStop(run: Run, i: int, j: int, r: nat, settling: Settling, tolerance: real)
    requires |run.pull| == run.n > 0 && run.m > 0 && tolerance <= 1.0 && 0 <= i < run.n && 0 <= j < run.n
    requires At(After(run, r), i, 0) == 1.0 && At(After(run, r), j, 0) == 0.0
    requires r > 0 ==> At(After(run, r - 1), i, 0) == 0.0
    ensures !Stops(run, settling, tolerance, r)
  {
    hide After, At;
    SpreadIsTheLargestDisagreement(After(run, r), run.n, run.m);
    assert Abs(At(After(run, r), i, 0) - At(After(run, r), j, 0)) <= Spread(After(run, r), run.n, run.m);
    if r > 0 {
      var (x, y) := (After(run, r - 1), After(run, r));
      MaxMoveBounds(x, y, run.m, run.n, 0);
      assert Abs(At(y, i, 0) - At(x, i, 0)) <= StepSize(x, y, run.n, run.m);
    }
  }

  /**
   Whatever its trust, a closed unanchored group of period two or more has
   ballots on which no round ever meets the stopping rule, neither that of a
   group that agrees nor that of one whose opinions stop moving.
   */
  lemma PeriodicBallots(run: Run, group: set<int>, root: int, p: nat) returns (phase: int -> int)
    requires Valid(run) && Closed(run.weights, run.n, group) && root in group
    requires var g := GraphOf(run.weights, run.n); Strong(g, group) && IsPeriod(g, group, p) && p > 1
    requires forall i :: i in group ==> run.pull[i] == 1.0
    ensures var turns := Voting(run, i => phase(i) % p == 0);
      && Valid(turns) && turns.n > 0
      && (forall r: nat, settling, tolerance :: tolerance <= 1.0 ==> !Stops(turns, settling, tolerance, r))
  {
    phase := PhaseAlongEdges(run.weights, run.n, group, root, p);
    var yes := i => phase(i) % p == 0;
    var turns := Voting(run, yes);
    VotingIsValid(run, yes);
    assert Phased(run.weights, run.n, group, phase, p);
    assert 0 <= root < run.n;
    hide After, Valid, IsPeriod, Strong, Phased, TwoWay, Stops;
    forall r: nat, settling, tolerance | tolerance <= 1.0 ensures !Stops(turns, settling, tolerance, r) {
      var i, j := RoundOfTurns(turns, group, root, phase, p, r);
      TurnsNeverStop(turns, i, j, r, settling, tolerance);
    }
  }
}
