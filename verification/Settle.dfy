/**
 The consensus on one issue's ballots (`settle`,
 `crates/vissue-core/src/consensus.rs`).
 */
module Settle {
  import opened Base
  import opened Order
  import opened Linear
  import opened Opinions
  import opened Limits
  import opened Rounds
  import opened Influence
  import opened Walks
  import opened Divisors
  import opened Period
  import opened Structure
  import opened Factions

  /// The consensus part of the configuration, in the ranges it is loaded with.
  datatype Section = Section(trust: Trust, selfWeight: real, susceptibility: real, susceptibilityOf: map<string, real>,
                             tolerance: real, maxIterations: nat)

  ghost predicate Loaded(cfg: Section) {
    && 0.0 <= cfg.selfWeight <= 1.0
    && 0.0 <= cfg.susceptibility <= 1.0
    && (forall a :: a in cfg.susceptibilityOf ==> 0.0 <= cfg.susceptibilityOf[a] <= 1.0)
    && cfg.tolerance > 0.0
    && cfg.maxIterations > 0
  }

  /// One ballot a voter.
  type Ballots = map<string, string>

  function Voters(ballots: Ballots): seq<string> {
    Sorted(ballots.Keys)
  }

  function Choices(ballots: Ballots): seq<string> {
    Sorted(ballots.Values)
  }

  function OneHot(choices: seq<string>, choice: string): seq<real> {
    seq(|choices|, c requires 0 <= c < |choices| => if choices[c] == choice then 1.0 else 0.0)
  }

  function Votes(ballots: Ballots): Matrix {
    var names := Voters(ballots);
    seq(|names|, i requires 0 <= i < |names| => OneHot(Choices(ballots), Get(ballots, names[i]).GetOr("")))
  }

  function Pulls(names: seq<string>, cfg: Section): seq<real> {
    seq(|names|, i requires 0 <= i < |names| => Get(cfg.susceptibilityOf, names[i]).GetOr(cfg.susceptibility))
  }

  function RunOf(ballots: Ballots, cfg: Section): (run: Run)
    ensures run.n == |run.pull| == |Voters(ballots)| && run.m == |Choices(ballots)| && run.start == Votes(ballots)
  {
    var names := Voters(ballots);
    Run(|names|, |Choices(ballots)|, Shares(names, cfg.trust, cfg.selfWeight), Votes(ballots), Pulls(names, cfg))
  }

  // ---- every configuration gives a run the rounds can take ----

  lemma {:induction false} OneHotSum(choices: seq<string>, choice: string, k: nat)
    requires Distinct(choices) && k <= |choices|
    ensures Sum(k, Entries(OneHot(choices, choice))) == if choice in choices[..k] then 1.0 else 0.0
  {
    if k > 0 {
      OneHotSum(choices, choice, k - 1);
      assert choices[..k] == choices[..k - 1] + [choices[k - 1]];
    }
  }

  lemma VoteIsADistribution(ballots: Ballots, i: nat)
    requires i < |Voters(ballots)|
    ensures Distribution(|Choices(ballots)|, Row(Votes(ballots), i))
  {
    var (names, choices) := (Voters(ballots), Choices(ballots));
    assert names[i] in Elems(names);
    var choice := ballots[names[i]];
    assert choice in Elems(choices);
    OneHotSum(choices, choice, |choices|);
    assert choices[..|choices|] == choices;
    SumSame(|choices|, Row(Votes(ballots), i), Entries(OneHot(choices, choice)));
  }

  lemma SharesRow(names: seq<string>, cfg: Section, i: nat)
    requires i < |names| && Loaded(cfg)
    ensures Distribution(|names|, Row(Shares(names, cfg.trust, cfg.selfWeight), i))
    ensures forall j :: 0 <= j < |names| ==>
      At(Shares(names, cfg.trust, cfg.selfWeight), i, j) == Share(names, cfg.trust, cfg.selfWeight, i, j)
  {
    RowsAreDistributions(names, cfg.trust, cfg.selfWeight, i);
    hide Share, Listens;
    SumSame(|names|, Row(Shares(names, cfg.trust, cfg.selfWeight), i), ShareRow(names, cfg.trust, cfg.selfWeight, i));
    forall j | 0 <= j < |names| ensures Row(Shares(names, cfg.trust, cfg.selfWeight), i)(j) >= 0.0 {
      assert ShareRow(names, cfg.trust, cfg.selfWeight, i)(j) >= 0.0;
    }
  }

  /// Whatever the trust table, the run averages: rows and ballots are
  /// distributions and every pull is a share.
  lemma RunIsValid(ballots: Ballots, cfg: Section)
    requires Loaded(cfg)
    ensures Valid(RunOf(ballots, cfg))
  {
    var (run, names) := (RunOf(ballots, cfg), Voters(ballots));
    hide Distribution;
    forall i | 0 <= i < run.n ensures Distribution(run.n, Row(run.weights, i)) && Distribution(run.m, Row(run.start, i)) {
      SharesRow(names, cfg, i);
      VoteIsADistribution(ballots, i);
    }
  }

  // ---- what an agent may move ----

  /// How far an agent may move off its ballot: its own susceptibility, else
  /// that of the group.
  lemma OwnSusceptibility(ballots: Ballots, cfg: Section, i: nat)
    requires i < |Voters(ballots)|
    ensures var (run, a) := (RunOf(ballots, cfg), Voters(ballots)[i]);
      run.pull[i] == if a in cfg.susceptibilityOf then cfg.susceptibilityOf[a] else cfg.susceptibility
  {
    hide Shares, Votes;
  }

  /// An agent of susceptibility zero holds its ballot in every round.
  lemma StubbornKeepsItsBallot(ballots: Ballots, cfg: Section, i: nat, c: nat, t: nat)
    requires i < |Voters(ballots)| && c < |Choices(ballots)|
    requires var a := Voters(ballots)[i];
      (if a in cfg.susceptibilityOf then cfg.susceptibilityOf[a] else cfg.susceptibility) == 0.0
    ensures At(After(RunOf(ballots, cfg), t), i, c) == if Get(ballots, Voters(ballots)[i]) == Some(Choices(ballots)[c]) then 1.0 else 0.0
  {
    var run := RunOf(ballots, cfg);
    OwnSusceptibility(ballots, cfg, i);
    if t > 0 {
      NextAt(run, After(run, t - 1), i, c);
      hide Heard;
      NothingHeard(Heard(run.weights, After(run, t - 1), run.n, i, c));
    }
    BallotAt(ballots, i, c);
    hide Voters, Choices, Shares, Votes, After;
  }

  lemma NothingHeard(x: real)
    ensures 0.0 * x == 0.0
  {
  }

  lemma BallotAt(ballots: Ballots, i: nat, c: nat)
    requires i < |Voters(ballots)| && c < |Choices(ballots)|
    ensures At(Votes(ballots), i, c) == if Get(ballots, Voters(ballots)[i]) == Some(Choices(ballots)[c]) then 1.0 else 0.0
  {
    assert Voters(ballots)[i] in Elems(Voters(ballots));
    hide Voters, Choices;
  }

  // ---- nothing configured ----

  /// No voter's row weighs a voter, and nobody is anchored.
  ghost predicate NothingConfigured(ballots: Ballots, cfg: Section) {
    && (forall i :: 0 <= i < |Voters(ballots)| ==> Blank(Voters(ballots), cfg.trust, i))
    && (forall i :: 0 <= i < |Voters(ballots)| ==> RunOf(ballots, cfg).pull[i] == 1.0)
  }

  lemma EvenShares(ballots: Ballots, cfg: Section, i: nat, j: nat)
    requires NothingConfigured(ballots, cfg) && i < |Voters(ballots)| && j < |Voters(ballots)|
    ensures At(RunOf(ballots, cfg).weights, i, j) == 1.0 / |Voters(ballots)| as real
  {
    var names := Voters(ballots);
    SumConstant(|names|, 1.0, RawRow(names, cfg.trust, cfg.selfWeight, i));
  }

  function TallyUpTo(ballots: Ballots, choice: string, k: nat): set<string> {
    set a | a in Voters(ballots)[..Least2(k, |Voters(ballots)|)] && Get(ballots, a) == Some(choice)
  }

  function Least2(a: nat, b: nat): (m: nat)
    ensures m <= a && m <= b
  {
    if a < b then a else b
  }

  /// The voters of a choice.
  function Tally(ballots: Ballots, choice: string): set<string> {
    set a | a in ballots && ballots[a] == choice
  }

  lemma {:induction false} TallyIsTheColumn(ballots: Ballots, c: nat, k: nat)
    requires c < |Choices(ballots)| && k <= |Voters(ballots)|
    ensures Sum(k, Col(Votes(ballots), c)) == |TallyUpTo(ballots, Choices(ballots)[c], k)| as real
  {
    hide Votes, TallyUpTo, Voters, Choices, At;
    if k > 0 {
      TallyIsTheColumn(ballots, c, k - 1);
      VoteAt(ballots, k - 1, c);
      TallyGrows(ballots, Choices(ballots)[c], k - 1);
    } else {
      TallyStarts(ballots, Choices(ballots)[c]);
    }
  }

  lemma TallyStarts(ballots: Ballots, choice: string)
    ensures TallyUpTo(ballots, choice, 0) == {}
  {
  }

  lemma VoteAt(ballots: Ballots, i: nat, c: nat)
    requires i < |Voters(ballots)| && c < |Choices(ballots)|
    ensures Voters(ballots)[i] in ballots
    ensures At(Votes(ballots), i, c) == if ballots[Voters(ballots)[i]] == Choices(ballots)[c] then 1.0 else 0.0
  {
    assert Voters(ballots)[i] in Elems(Voters(ballots));
  }

  lemma TallyGrows(ballots: Ballots, choice: string, k: nat)
    requires k < |Voters(ballots)| && Voters(ballots)[k] in ballots
    ensures |TallyUpTo(ballots, choice, k + 1)|
         == |TallyUpTo(ballots, choice, k)| + (if ballots[Voters(ballots)[k]] == choice then 1 else 0)
  {
    var names := Voters(ballots);
    assert names[..k + 1] == names[..k] + [names[k]];
    assert names[k] !in names[..k];
    assert TallyUpTo(ballots, choice, k + 1) ==
      TallyUpTo(ballots, choice, k) + (if ballots[names[k]] == choice then {names[k]} else {});
  }

  lemma TallyIsTheWholeColumn(ballots: Ballots, c: nat)
    requires c < |Choices(ballots)|
    ensures Sum(|Voters(ballots)|, Col(Votes(ballots), c)) == |Tally(ballots, Choices(ballots)[c])| as real
  {
    var (names, choice) := (Voters(ballots), Choices(ballots)[c]);
    TallyIsTheColumn(ballots, c, |names|);
    assert names[..|names|] == names;
    forall a ensures a in names <==> a in ballots {
      assert a in Elems(names) <==> a in ballots.Keys;
    }
    assert TallyUpTo(ballots, choice, |names|) == Tally(ballots, choice);
  }

  function Fraction(ballots: Ballots, choice: string): real
    requires |Voters(ballots)| > 0
  {
    |Tally(ballots, choice)| as real / |Voters(ballots)| as real
  }

  lemma EvenlyHeard(w: Matrix, x: Matrix, n: nat, i: int, c: int)
    requires n > 0 && forall j :: 0 <= j < n ==> At(w, i, j) == 1.0 / n as real
    ensures Heard(w, x, n, i, c) == 1.0 / n as real * Sum(n, Col(x, c))
  {
    hide At;
    SumScaled(n, 1.0 / n as real, Col(x, c), Weighted(Row(w, i), Col(x, c)));
  }

  lemma FullPull(run: Run, x: Matrix, i: nat, c: int)
    requires i < |run.pull| && run.pull[i] == 1.0
    ensures Moved(run, x, i, c) == Heard(run.weights, x, run.n, i, c)
  {
    hide Heard, At;
  }

  lemma HeardIsTheMean(ballots: Ballots, cfg: Section, x: Matrix, i: nat, c: nat)
    requires NothingConfigured(ballots, cfg) && i < |Voters(ballots)| && c < |Choices(ballots)|
    ensures At(Next(RunOf(ballots, cfg), x), i, c) == 1.0 / |Voters(ballots)| as real * Sum(|Voters(ballots)|, Col(x, c))
  {
    hide *;
    var run := RunOf(ballots, cfg);
    EvenRow(ballots, cfg, i);
    EvenRound(run, x, i, c);
  }

  lemma EvenRound(run: Run, x: Matrix, i: nat, c: nat)
    requires i < run.n == |run.pull| && c < run.m && run.pull[i] == 1.0
    requires forall j :: 0 <= j < run.n ==> At(run.weights, i, j) == 1.0 / run.n as real
    ensures At(Next(run, x), i, c) == 1.0 / run.n as real * Sum(run.n, Col(x, c))
  {
    hide Sum, Col, Next, At;
    NextAt(run, x, i, c);
    FullPull(run, x, i, c);
    EvenlyHeard(run.weights, x, run.n, i, c);
  }

  lemma EvenRow(ballots: Ballots, cfg: Section, i: nat)
    requires NothingConfigured(ballots, cfg) && i < |Voters(ballots)|
    ensures var run := RunOf(ballots, cfg);
      && run.n == |run.pull| == |Voters(ballots)| && run.m == |Choices(ballots)| && run.pull[i] == 1.0
      && forall j :: 0 <= j < run.n ==> At(run.weights, i, j) == 1.0 / run.n as real
  {
    forall j | 0 <= j < |Voters(ballots)| ensures At(RunOf(ballots, cfg).weights, i, j) == 1.0 / |Voters(ballots)| as real {
      EvenShares(ballots, cfg, i, j);
    }
    hide Shares, Pulls, Voters, Choices, Votes;
  }

  lemma TallyFraction(ballots: Ballots, c: nat)
    requires 0 < |Voters(ballots)| && c < |Choices(ballots)|
    ensures 1.0 / |Voters(ballots)| as real * Sum(|Voters(ballots)|, Col(Votes(ballots), c))
         == Fraction(ballots, Choices(ballots)[c])
  {
    TallyIsTheWholeColumn(ballots, c);
    hide Voters, Votes, Tally, Sum, Col;
    TimesInverse(|Tally(ballots, Choices(ballots)[c])| as real, |Voters(ballots)| as real);
  }

  lemma FirstRound(ballots: Ballots, cfg: Section, i: nat, c: nat)
    requires NothingConfigured(ballots, cfg) && i < |Voters(ballots)| && c < |Choices(ballots)|
    ensures At(Next(RunOf(ballots, cfg), Votes(ballots)), i, c) == Fraction(ballots, Choices(ballots)[c])
  {
    HeardIsTheMean(ballots, cfg, Votes(ballots), i, c);
    TallyFraction(ballots, c);
    hide *;
  }

  lemma SameHeard(ballots: Ballots, cfg: Section, x: Matrix, i: nat, c: nat, f: real)
    requires NothingConfigured(ballots, cfg) && i < |Voters(ballots)| && c < |Choices(ballots)|
    requires forall j :: 0 <= j < |Voters(ballots)| ==> At(x, j, c) == f
    ensures At(Next(RunOf(ballots, cfg), x), i, c) == f
  {
    hide *;
    HeardIsTheMean(ballots, cfg, x, i, c);
    ConstantMean(x, |Voters(ballots)|, c, f);
  }

  lemma ConstantMean(x: Matrix, n: nat, c: int, f: real)
    requires n > 0 && forall j :: 0 <= j < n ==> At(x, j, c) == f
    ensures 1.0 / n as real * Sum(n, Col(x, c)) == f
  {
    hide At;
    SumConstant(n, f, Col(x, c));
    TimesInverse(f, n as real);
  }

  /// From the first round on, every voter holds the tally as a fraction.
  lemma {:induction false} RoundsGiveTheTally(ballots: Ballots, cfg: Section, c: nat, t: nat)
    requires NothingConfigured(ballots, cfg) && 0 < |Voters(ballots)| && c < |Choices(ballots)| && t > 0
    ensures forall i :: 0 <= i < |Voters(ballots)| ==>
      At(After(RunOf(ballots, cfg), t), i, c) == Fraction(ballots, Choices(ballots)[c])
  {
    var run := RunOf(ballots, cfg);
    var x := After(run, t - 1);
    assert After(run, t) == Next(run, x);
    assert t == 1 ==> x == Votes(ballots);
    hide NothingConfigured, RunOf, Next, After, Fraction, Votes;
    if t > 1 {
      RoundsGiveTheTally(ballots, cfg, c, t - 1);
    }
    forall i | 0 <= i < |Voters(ballots)| ensures At(Next(run, x), i, c) == Fraction(ballots, Choices(ballots)[c]) {
      if t == 1 {
        FirstRound(ballots, cfg, i, c);
      } else {
        SameHeard(ballots, cfg, x, i, c, Fraction(ballots, Choices(ballots)[c]));
      }
    }
  }

  lemma TimesInverse(f: real, n: real)
    requires n > 0.0
    ensures 1.0 / n * (f * n) == f
    ensures 1.0 / n * f == f / n
  {
    assert 1.0 / n * n == 1.0;
    assert 1.0 / n * (f * n) == f * (1.0 / n * n);
  }

  /// Every ballot names the same choice.
  predicate AllAlike(ballots: Ballots) {
    |Choices(ballots)| <= 1
  }

  lemma VoterOf(ballots: Ballots, c: nat) returns (i: nat)
    requires c < |Choices(ballots)|
    ensures i < |Voters(ballots)| && Get(ballots, Voters(ballots)[i]) == Some(Choices(ballots)[c])
  {
    assert Choices(ballots)[c] in Elems(Choices(ballots));
    var a :| a in ballots && ballots[a] == Choices(ballots)[c];
    assert a in Elems(Voters(ballots));
    i :| 0 <= i < |Voters(ballots)| && Voters(ballots)[i] == a;
  }

  lemma ChoiceOf(ballots: Ballots, i: nat) returns (c: nat)
    requires i < |Voters(ballots)|
    ensures c < |Choices(ballots)| && Get(ballots, Voters(ballots)[i]) == Some(Choices(ballots)[c])
  {
    assert Voters(ballots)[i] in Elems(Voters(ballots));
    assert ballots[Voters(ballots)[i]] in Elems(Choices(ballots));
    c :| 0 <= c < |Choices(ballots)| && Choices(ballots)[c] == ballots[Voters(ballots)[i]];
  }

  lemma VotersCounted(ballots: Ballots)
    ensures |Voters(ballots)| == |ballots.Keys|
  {
    ElemsCount(Voters(ballots));
  }

  lemma {:induction false} ElemsCount(s: seq<string>)
    requires Distinct(s)
    ensures |Elems(s)| == |s|
  {
    if s != [] {
      ElemsCount(s[1..]);
      assert Elems(s) == {s[0]} + Elems(s[1..]);
      assert s[0] !in Elems(s[1..]);
    }
  }

  /// Two voters who differ: the first one's choice is not unanimous.
  lemma Disagreement(ballots: Ballots) returns (c: nat, j: nat)
    requires |Voters(ballots)| > 0 && !AllAlike(ballots)
    ensures c < |Choices(ballots)| && j < |Voters(ballots)|
    ensures At(Votes(ballots), 0, c) == 1.0 && At(Votes(ballots), j, c) == 0.0
    ensures Fraction(ballots, Choices(ballots)[c]) < 1.0
  {
    c := ChoiceOf(ballots, 0);
    j := VoterOf(ballots, if c == 0 then 1 else 0);
    VoteAt(ballots, 0, c);
    VoteAt(ballots, j, c);
    SmallerSet(Tally(ballots, Choices(ballots)[c]), ballots.Keys, Voters(ballots)[j]);
    VotersCounted(ballots);
    SmallerShare(|Tally(ballots, Choices(ballots)[c])|, |Voters(ballots)|);
  }

  lemma SmallerShare(a: nat, b: nat)
    requires a < b
    ensures a as real / b as real < 1.0
  {
  }

  lemma SpreadOfDisagreement(ballots: Ballots, cfg: Section)
    requires Loaded(cfg) && |Voters(ballots)| > 0 && !AllAlike(ballots)
    ensures Spread(Votes(ballots), |Voters(ballots)|, |Choices(ballots)|) == 1.0
  {
    var (x, n, m) := (Votes(ballots), |Voters(ballots)|, |Choices(ballots)|);
    RunIsValid(ballots, cfg);
    assert RowsSumToOne(x, n, m);
    var c, j := Disagreement(ballots);
    hide Votes, Spread, RowsSumToOne, RunOf;
    SpreadIsTheLargestDisagreement(x, n, m);
    assert Abs(At(x, 0, c) - At(x, j, c)) <= Spread(x, n, m);
    forall d | 0 <= d < m ensures Gap(x, n, d) <= 1.0 {
      forall k | 0 <= k < n ensures 0.0 <= At(x, k, d) <= 1.0 { SharesAreAtMostOne(x, n, m, k); }
      GapAtMost(x, n, d, 0.0, 1.0);
    }
    SpreadAtMost(x, n, m, 1.0);
  }

  lemma UnanimousVote(ballots: Ballots, c: nat)
    requires |Voters(ballots)| > 0 && AllAlike(ballots) && c < |Choices(ballots)|
    ensures At(Votes(ballots), 0, c) == 1.0 == Fraction(ballots, Choices(ballots)[c])
  {
    var d := ChoiceOf(ballots, 0);
    VoteAt(ballots, 0, c);
    EveryoneVotes(ballots, c);
  }

  lemma EveryoneVotes(ballots: Ballots, c: nat)
    requires |Voters(ballots)| > 0 && AllAlike(ballots) && c < |Choices(ballots)|
    ensures Fraction(ballots, Choices(ballots)[c]) == 1.0
  {
    VotersCounted(ballots);
    var choices := Choices(ballots);
    assert Elems(choices) == ballots.Values;
    hide Choices, Voters;
    forall a | a in ballots ensures ballots[a] == choices[c] {
      assert ballots[a] in Elems(choices);
    }
    assert Tally(ballots, choices[c]) == ballots.Keys;
    assert |Tally(ballots, choices[c])| == |Voters(ballots)|;
    OwnRatio(|Voters(ballots)|);
  }

  lemma OwnRatio(a: nat)
    requires a > 0
    ensures a as real / a as real == 1.0
  {
  }

  lemma RoundsReachTheTally(ballots: Ballots, cfg: Section, rounds: nat)
    requires Loaded(cfg) && NothingConfigured(ballots, cfg) && |Voters(ballots)| > 0
    requires Stopped(RunOf(ballots, cfg), Agreed, cfg.tolerance, cfg.maxIterations, rounds)
    ensures (forall c :: 0 <= c < |Choices(ballots)| ==>
               At(After(RunOf(ballots, cfg), rounds), 0, c) == Fraction(ballots, Choices(ballots)[c]))
      <==> cfg.tolerance <= 1.0 || AllAlike(ballots)
  {
    var run := RunOf(ballots, cfg);
    assert After(run, 0) == Votes(ballots);
    if !AllAlike(ballots) {
      SpreadOfDisagreement(ballots, cfg);
      assert Stops(run, Agreed, cfg.tolerance, 0) <==> cfg.tolerance > 1.0;
    }
    hide After, RunOf, Stops, NothingConfigured, Votes, Fraction, AllAlike;
    if rounds > 0 {
      forall c | 0 <= c < |Choices(ballots)|
        ensures At(After(run, rounds), 0, c) == Fraction(ballots, Choices(ballots)[c])
      {
        RoundsGiveTheTally(ballots, cfg, c, rounds);
      }
    } else if AllAlike(ballots) {
      forall c | 0 <= c < |Choices(ballots)|
        ensures At(After(run, rounds), 0, c) == Fraction(ballots, Choices(ballots)[c])
      {
        UnanimousVote(ballots, c);
      }
    } else {
      var c, j := Disagreement(ballots);
    }
  }

  /// Then the trust graph is one group with no period, and the run is asked to
  /// agree.
  lemma NothingConfiguredIsConvergent(ballots: Ballots, cfg: Section, comps: seq<seq<int>>)
    requires NothingConfigured(ballots, cfg) && |Voters(ballots)| > 0
    requires Components(GraphOf(RunOf(ballots, cfg).weights, |Voters(ballots)|), comps)
    ensures var g := GraphOf(RunOf(ballots, cfg).weights, |Voters(ballots)|);
      exists k :: OnlyClosed(g, comps, k) && IsPeriod(g, Elems(comps[k]), 1)
  {
    var n := |Voters(ballots)|;
    var g := GraphOf(RunOf(ballots, cfg).weights, n);
    forall u, v | Node(g, u) && Node(g, v) ensures g.edge(u, v) {
      EvenShares(ballots, cfg, u, v);
    }
    hide NothingConfigured, RunOf, Voters;
    CompleteGraph(g, comps);
  }

  lemma CompleteGraph(g: Graph, comps: seq<seq<int>>)
    requires g.n > 0 && Components(g, comps)
    requires forall u, v :: Node(g, u) && Node(g, v) ==> g.edge(u, v)
    ensures exists k :: OnlyClosed(g, comps, k) && IsPeriod(g, Elems(comps[k]), 1)
  {
    hide Linked;
    var k, w := ClosedGroupWithinReach(g, comps, 0);
    assert Node(g, w);
    forall l | ClosedAt(g, comps, l) ensures l == k {
      FirstMember(g, comps, l);
      var v := comps[l][0];
      LinkedToSelf(g, v);
      LinkedToSelf(g, w);
      LinkedOn(g, v, v, w);
      LinkedOn(g, w, w, v);
    }
    LoopMeansPeriodOne(g, Elems(comps[k]), w);
  }

  lemma LoopMeansPeriodOne(g: Graph, group: set<int>, w: int)
    requires w in group && g.edge(w, w)
    ensures IsPeriod(g, group, 1)
  {
    Step(g, group, w, w);
    assert Cycle(g, group, 1);
    hide Walk;
    forall len: nat | Cycle(g, group, len) ensures Divides(1, len) {
      assert len == Times(len, 1);
    }
  }

  // ---- one anchor is not enough ----

  /// Two who swap opinions, and an anchored third nobody else listens to.
  function SwappingPair(): Run {
    Run(3, 2, [[0.0, 1.0, 0.0], [1.0, 0.0, 0.0], [0.0, 0.0, 1.0]],
        [[1.0, 0.0], [0.0, 1.0], [1.0, 0.0]], [1.0, 1.0, 0.5])
  }

  lemma SwappingPairIsValid()
    ensures Valid(SwappingPair())
  {
    var run := SwappingPair();
    forall i | 0 <= i < 3 ensures Distribution(3, Row(run.weights, i)) && Distribution(2, Row(run.start, i)) {
      var (w, s) := (Row(run.weights, i), Row(run.start, i));
      assert Sum(3, w) == Sum(2, w) + w(2) && Sum(2, w) == Sum(1, w) + w(1) && Sum(1, w) == Sum(0, w) + w(0);
      assert Sum(2, s) == Sum(1, s) + s(1) && Sum(1, s) == Sum(0, s) + s(0);
    }
  }

  /**
   One anchored agent does not make a run settle: the pair swaps its opinions in
   every round, so a run marked anchored spends its whole budget.
   */
  lemma OneAnchorDoesNotSettle(tolerance: real, max: nat) returns (run: Run)
    requires 0.0 < tolerance <= 1.0
    ensures run == SwappingPair() && Valid(run) && run.n == 3 && run.pull[2] < 1.0
    ensures forall rounds: nat :: Stopped(run, Anchored, tolerance, max, rounds) ==> rounds == max
    ensures forall t: nat :: At(After(run, t), 0, 0) == if t % 2 == 0 then 1.0 else 0.0
  {
    run := SwappingPair();
    PairSwapsForEver();
    hide After, Valid, SwappingPair, Stops, At;
    forall r: nat ensures !Stops(run, Anchored, tolerance, r) {
      AlternatingNeverStops(run, tolerance, r);
    }
  }

  lemma PairSwapsForEver()
    ensures Valid(SwappingPair()) && SwappingPair().n == 3 && SwappingPair().m == 2 && SwappingPair().pull[2] < 1.0
    ensures forall t: nat :: At(After(SwappingPair(), t), 0, 0) == if t % 2 == 0 then 1.0 else 0.0
  {
    SwappingPairIsValid();
    forall t: nat ensures At(After(SwappingPair(), t), 0, 0) == if t % 2 == 0 then 1.0 else 0.0 {
      PairSwaps(t);
    }
  }

  /// An agent that changes its mind altogether in every round keeps a run
  /// going.
  lemma AlternatingNeverStops(run: Run, tolerance: real, r: nat)
    requires |run.pull| == run.n > 0 && run.m > 0 && 0.0 < tolerance <= 1.0
    requires forall t: nat :: At(After(run, t), 0, 0) == if t % 2 == 0 then 1.0 else 0.0
    ensures !Stops(run, Anchored, tolerance, r)
  {
    hide After, At;
    if r > 0 {
      var (x, y) := (After(run, r - 1), After(run, r));
      MaxMoveBounds(x, y, run.m, run.n, 0);
      assert Abs(At(y, 0, 0) - At(x, 0, 0)) <= StepSize(x, y, run.n, run.m);
    }
  }

  lemma PairSwaps(t: nat)
    ensures At(After(SwappingPair(), t), 0, 0) == if t % 2 == 0 then 1.0 else 0.0
  {
    var run := SwappingPair();
    SwappingPairIsValid();
    assert run.pull[0] == 1.0 && run.pull[1] == 1.0;
    PhasesGoRound(run, {0, 1}, i => i, 2, 0, t);
  }

  // ---- the whole run ----

  const TWO_BALLOTS: Ballots := map["a" := "x", "b" := "y"]
  const TOLERANT := Section(map[], 1.0, 1.0, map[], 2.0, 100)

  /// What a consensus reports; `consensus` and `power` only of a group that
  /// agreed, `factions` only of a divided one.
  datatype Outcome = Outcome(choices: seq<string>, voters: seq<string>, settling: Settling, opinions: Matrix,
                             consensus: Option<seq<real>>, power: Option<seq<real>>, factions: seq<seq<string>>,
                             rounds: nat, budgetReached: bool, spread: real)

  /// The power after the first round, within the budget, that moved nobody's
  /// weight much.
  ghost predicate PowerAt(w: Matrix, n: nat, cfg: Section, power: seq<real>, rounds: nat)
    requires n > 0
  {
    && |power| == n && (forall j :: 0 <= j < n ==> power[j] == PowerAfter(w, n, rounds)(j))
    && PowerStopped(w, n, cfg.tolerance, cfg.maxIterations, rounds)
  }

  ghost predicate IsPower(w: Matrix, n: nat, cfg: Section, power: seq<real>)
    requires n > 0
  {
    exists rounds: nat :: PowerAt(w, n, cfg, power, rounds)
  }

  method PowerOf(w: Matrix, n: nat, cfg: Section) returns (power: seq<real>)
    requires n > 0 && RowsSumToOne(w, n, n)
    ensures IsPower(w, n, cfg, power)
  {
    hide PowerAfter, PowerStopped;
    var a, rounds := SocialPower(w, n, cfg.tolerance, cfg.maxIterations);
    power := a[..];
    assert PowerAt(w, n, cfg, power, rounds);
  }

  method MatrixOf(a: array2<real>) returns (x: Matrix)
    ensures Shape(x, a.Length0, a.Length1)
    ensures forall i, j :: 0 <= i < a.Length0 && 0 <= j < a.Length1 ==> x[i][j] == a[i, j]
  {
    x := seq(a.Length0, i requires 0 <= i < a.Length0 reads a =>
      seq(a.Length1, j requires 0 <= j < a.Length1 reads a => a[i, j]));
  }

  method WeightsOf(names: seq<string>, cfg: Section) returns (w: Matrix)
    ensures w == Shares(names, cfg.trust, cfg.selfWeight)
  {
    hide Share;
    var weights, configured := InfluenceOf(names, cfg.trust, cfg.selfWeight);
    w := MatrixOf(weights);
    var s := Shares(names, cfg.trust, cfg.selfWeight);
    forall i | 0 <= i < |names| ensures w[i] == s[i] {
      assert forall j :: 0 <= j < |names| ==> w[i][j] == s[i][j];
    }
  }

  function Shared(ballots: Ballots): seq<real>
    requires |Voters(ballots)| > 0
  {
    seq(|Choices(ballots)|, c requires 0 <= c < |Choices(ballots)| => Fraction(ballots, Choices(ballots)[c]))
  }

  /// What the trust graph makes of an unanchored run.
  ghost predicate Classified(g: Graph, comps: seq<seq<int>>, settling: Settling) {
    && (settling == Agreed <==> exists k :: OnlyClosed(g, comps, k) && IsPeriod(g, Elems(comps[k]), 1))
    && (settling == Split <==> exists k, l :: k != l && ClosedAt(g, comps, k) && ClosedAt(g, comps, l))
    && (settling == Oscillating <==>
        exists k, p: nat :: OnlyClosed(g, comps, k) && p > 1 && IsPeriod(g, Elems(comps[k]), p))
  }

  ghost predicate Settled(run: Run, cfg: Section, comps: seq<seq<int>>, outcome: Outcome)
    requires |run.pull| == run.n > 0
  {
    && outcome.opinions == After(run, outcome.rounds) && |outcome.opinions| > 0
    && Stopped(run, outcome.settling, cfg.tolerance, cfg.maxIterations, outcome.rounds)
    && outcome.consensus == (if outcome.settling == Agreed then Some(outcome.opinions[0]) else None)
    && outcome.spread == Spread(outcome.opinions, run.n, run.m)
    && (outcome.power.Some? <==> outcome.settling == Agreed)
    && (outcome.power.Some? ==> IsPower(run.weights, run.n, cfg, outcome.power.value))
    && outcome.factions ==
         (if outcome.settling == Split
          then NamedGroups(outcome.voters, Grouped(outcome.opinions, run.m, cfg.tolerance, run.n)) else [])
    && (outcome.settling == Anchored <==> exists i :: 0 <= i < run.n && run.pull[i] < 1.0)
    && (outcome.settling != Anchored ==> Classified(GraphOf(run.weights, run.n), comps, outcome.settling))
    && (outcome.budgetReached <==> outcome.settling != Oscillating && outcome.rounds >= cfg.maxIterations)
  }

  method SettlingOf(run: Run, comps: seq<seq<int>>) returns (settling: Settling)
    requires Valid(run) && run.n > 0 && Components(GraphOf(run.weights, run.n), comps)
    ensures settling == Anchored <==> exists i :: 0 <= i < run.n && run.pull[i] < 1.0
    ensures settling != Anchored ==> Classified(GraphOf(run.weights, run.n), comps, settling)
  {
    DistributionsListen(run.weights, run.n);
    hide Components, OnlyClosed, IsPeriod, ClosedAt, EveryoneListens;
    if exists i :: 0 <= i < run.n && run.pull[i] < 1.0 {
      return Anchored;
    }
    var verdict := Classify(GraphOf(run.weights, run.n), comps);
    settling := match verdict case Convergent => Agreed case Divided => Split case Periodic => Oscillating;
  }

  /// The rounds of a run are those of the averaging rule, stopped where its
  /// settling says.
  method SettleBallots(ballots: Ballots, cfg: Section, comps: seq<seq<int>>) returns (outcome: Outcome)
    requires Loaded(cfg)
    requires Components(GraphOf(Shares(Voters(ballots), cfg.trust, cfg.selfWeight), |Voters(ballots)|), comps)
    ensures outcome.choices == Choices(ballots) && outcome.voters == Voters(ballots)
    ensures |Voters(ballots)| == 0 ==> outcome == Outcome(Choices(ballots), [], Agreed, [], None, None, [], 0, false, 0.0)
    ensures |Voters(ballots)| > 0 ==> Settled(RunOf(ballots, cfg), cfg, comps, outcome)
  {
    var (names, choices) := (Voters(ballots), Choices(ballots));
    var n := |names|;
    if n == 0 {
      return Outcome(choices, [], Agreed, [], None, None, [], 0, false, 0.0);
    }
    RunIsValid(ballots, cfg);
    var w := WeightsOf(names, cfg);
    var run := Run(n, |choices|, w, Votes(ballots), Pulls(names, cfg));
    assert run == RunOf(ballots, cfg);
    hide Shares, Votes, Pulls, RunOf, Components, Classified, Stopped, Voters, Choices, After, Spread, IsPower, Grouped, NamedGroups;
    var settling := SettlingOf(run, comps);
    var opinions, rounds := Iterate(run, settling, cfg.tolerance, cfg.maxIterations);
    AfterShape(run, rounds);
    var power: Option<seq<real>>, factions: seq<seq<string>> := None, [];
    if settling == Agreed {
      var p := PowerOf(run.weights, n, cfg);
      power := Some(p);
    }
    if settling == Split {
      factions := GroupByLimit(names, opinions, run.m, cfg.tolerance);
    }
    var spread := SpreadOf(opinions, n, |choices|);
    outcome := Outcome(choices, names, settling, opinions, if settling == Agreed then Some(opinions[0]) else None,
      power, factions, rounds, settling != Oscillating && rounds >= cfg.maxIterations, spread);
  }

  /**
   With nothing configured the group always agrees, and its consensus is the
   tally as a fraction exactly when the tolerance is at most one or every ballot
   is the same: a larger tolerance is met by the ballots themselves, before any
   round.
   */
  lemma NothingConfiguredGivesTheTally(ballots: Ballots, cfg: Section, comps: seq<seq<int>>, outcome: Outcome)
    requires Loaded(cfg) && NothingConfigured(ballots, cfg) && |Voters(ballots)| > 0
    requires Components(GraphOf(RunOf(ballots, cfg).weights, |Voters(ballots)|), comps)
    requires Settled(RunOf(ballots, cfg), cfg, comps, outcome)
    ensures outcome.settling == Agreed
    ensures outcome.consensus == Some(Shared(ballots)) <==> cfg.tolerance <= 1.0 || AllAlike(ballots)
  {
    var run := RunOf(ballots, cfg);
    NothingConfiguredIsConvergent(ballots, cfg, comps);
    assert outcome.settling == Agreed;
    RoundsReachTheTally(ballots, cfg, outcome.rounds);
    RunIsValid(ballots, cfg);
    AfterShape(run, outcome.rounds);
    var row := outcome.opinions[0];
    assert |row| == |Choices(ballots)| && forall c :: 0 <= c < |row| ==> row[c] == At(outcome.opinions, 0, c);
    hide After, Stopped, Classified, NothingConfigured, Fraction, Votes, Shares, Choices, Voters;
    assert row == Shared(ballots) <==> forall c :: 0 <= c < |row| ==> row[c] == Fraction(ballots, Choices(ballots)[c]);
  }

  /// Two voters who disagree, nothing else configured, and a tolerance of two:
  /// the group is reported to agree on the first ballot, in no round at all.
  lemma ToleranceOfTwoReportsTheFirstBallot(comps: seq<seq<int>>, outcome: Outcome)
    requires |Voters(TWO_BALLOTS)| == 2 && Components(GraphOf(RunOf(TWO_BALLOTS, TOLERANT).weights, 2), comps)
    requires Settled(RunOf(TWO_BALLOTS, TOLERANT), TOLERANT, comps, outcome)
    ensures outcome.settling == Agreed && outcome.rounds == 0
    ensures outcome.consensus.Some? && outcome.consensus != Some(Shared(TWO_BALLOTS))
    ensures outcome.opinions == Votes(TWO_BALLOTS) && outcome.consensus == Some(Votes(TWO_BALLOTS)[0])
  {
    var (ballots, cfg) := (TWO_BALLOTS, TOLERANT);
    TwoDisagree();
    NothingConfiguredGivesTheTally(ballots, cfg, comps, outcome);
    var run := RunOf(ballots, cfg);
    assert After(run, 0) == Votes(ballots);
    SpreadOfDisagreement(ballots, cfg);
    assert Stops(run, Agreed, cfg.tolerance, 0);
    hide After, Classified, Votes, RunOf, Stops, NothingConfigured, Components;
  }

  lemma TwoDisagree()
    ensures Loaded(TOLERANT) && NothingConfigured(TWO_BALLOTS, TOLERANT)
    ensures |Voters(TWO_BALLOTS)| == 2 && !AllAlike(TWO_BALLOTS)
  {
    TwoVoters();
    NothingIsConfigured(TWO_BALLOTS);
    hide Voters, Choices, RunOf;
  }

  lemma TwoVoters()
    ensures |Voters(TWO_BALLOTS)| == 2 && !AllAlike(TWO_BALLOTS)
  {
    VotersCounted(TWO_BALLOTS);
    assert TWO_BALLOTS.Keys == {"a", "b"};
    var choices := Choices(TWO_BALLOTS);
    assert TWO_BALLOTS["a"] in TWO_BALLOTS.Values && TWO_BALLOTS["b"] in TWO_BALLOTS.Values;
    assert Elems(choices) == TWO_BALLOTS.Values;
    hide Voters, Choices;
    assert "x" in Elems(choices) && "y" in Elems(choices);
    assert "x" in choices && "y" in choices && "x"[0] != "y"[0];
  }

  lemma NothingIsConfigured(ballots: Ballots)
    ensures NothingConfigured(ballots, TOLERANT)
  {
    hide Voters, Votes, Choices, Shares;
  }
}
