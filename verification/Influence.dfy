/**
 The influence matrix over the agents that voted (`influence` and `normalise`,
 `crates/vissue-core/src/consensus.rs`): who listens to whom, and how much.
 */
module Influence {
  import opened Base
  import opened Linear

  type Trust = map<string, map<string, real>>

  /// Whether the row of `names[i]` names `names[j]`.
  predicate Names(names: seq<string>, trust: Trust, i: int, j: int) {
    0 <= i < |names| && 0 <= j < |names| && names[i] in trust && names[j] in trust[names[i]]
  }

  /// The positive weight one voter writes on another, else zero.
  function Given(names: seq<string>, trust: Trust, i: int, j: int): real {
    if Names(names, trust, i, j) then Max(0.0, trust[names[i]][names[j]]) else 0.0
  }

  /// A voter whose row weighs no voter.
  predicate Blank(names: seq<string>, trust: Trust, i: int) {
    forall j :: 0 <= j < |names| ==> Given(names, trust, i, j) == 0.0
  }

  function GivenTo(names: seq<string>, trust: Trust, j: int): int -> real {
    i => if i == j then 0.0 else Given(names, trust, i, j)
  }

  function GiversTo(names: seq<string>, trust: Trust, j: int): int -> real {
    i => if i != j && Given(names, trust, i, j) > 0.0 then 1.0 else 0.0
  }

  /// The mean of the positive weights the other voters put on `names[j]`.
  function Earned(names: seq<string>, trust: Trust, j: int): Option<real> {
    var count := Sum(|names|, GiversTo(names, trust, j));
    if count == 0.0 then None else Some(Sum(|names|, GivenTo(names, trust, j)) / count)
  }

  /// A weight before its row is scaled.
  function Raw(names: seq<string>, trust: Trust, selfWeight: real, i: int, j: int): real {
    if Blank(names, trust, i) then 1.0
    else if i == j && !Names(names, trust, i, i) then Earned(names, trust, i).GetOr(selfWeight)
    else Given(names, trust, i, j)
  }

  function RawRow(names: seq<string>, trust: Trust, selfWeight: real, i: int): int -> real {
    j => Raw(names, trust, selfWeight, i, j)
  }

  /// The share of `names[i]`'s attention that `names[j]` has.
  function Share(names: seq<string>, trust: Trust, selfWeight: real, i: int, j: int): real {
    var total := Sum(|names|, RawRow(names, trust, selfWeight, i));
    if total <= 0.0 then Raw(names, trust, selfWeight, i, j) else Raw(names, trust, selfWeight, i, j) / total
  }

  function Shares(names: seq<string>, trust: Trust, selfWeight: real): Matrix {
    seq(|names|, i => seq(|names|, j => Share(names, trust, selfWeight, i, j)))
  }

  // ---- every row is a distribution ----

  lemma EarnedIsPositive(names: seq<string>, trust: Trust, j: int)
    ensures Earned(names, trust, j).Some? <==> exists i :: 0 <= i < |names| && i != j && Given(names, trust, i, j) > 0.0
    ensures Earned(names, trust, j).Some? ==> Earned(names, trust, j).value > 0.0
  {
    var n := |names|;
    var (to, givers) := (GivenTo(names, trust, j), GiversTo(names, trust, j));
    SumNotNegative(n, to);
    SumNotNegative(n, givers);
    if i :| 0 <= i < n && i != j && Given(names, trust, i, j) > 0.0 {
      assert givers(i) <= Sum(n, givers);
      assert to(i) <= Sum(n, to);
      assert Sum(n, to) / Sum(n, givers) > 0.0;
    } else {
      SumConstant(n, 0.0, givers);
    }
  }

  lemma RawTotal(names: seq<string>, trust: Trust, selfWeight: real, i: nat)
    requires i < |names| && selfWeight >= 0.0
    ensures forall j :: 0 <= j < |names| ==> Raw(names, trust, selfWeight, i, j) >= 0.0
    ensures Sum(|names|, RawRow(names, trust, selfWeight, i)) > 0.0
  {
    var row := RawRow(names, trust, selfWeight, i);
    EarnedIsPositive(names, trust, i);
    forall j ensures Given(names, trust, i, j) >= 0.0 { GivenNotNegative(names, trust, i, j); }
    hide Earned, Given, Names;
    SumNotNegative(|names|, row);
    if Blank(names, trust, i) {
      assert row(i) == 1.0;
    } else {
      var j :| 0 <= j < |names| && Given(names, trust, i, j) != 0.0;
      GivenOnlyNamed(names, trust, i, j);
      assert row(j) > 0.0;
    }
  }

  lemma GivenNotNegative(names: seq<string>, trust: Trust, i: int, j: int)
    ensures Given(names, trust, i, j) >= 0.0
  {
  }

  lemma GivenOnlyNamed(names: seq<string>, trust: Trust, i: int, j: int)
    ensures Given(names, trust, i, j) > 0.0 ==> Names(names, trust, i, j)
  {
  }

  function ShareRow(names: seq<string>, trust: Trust, selfWeight: real, i: int): int -> real {
    j => Share(names, trust, selfWeight, i, j)
  }

  /// Whether one voter listens to another at all.
  predicate Listens(names: seq<string>, trust: Trust, selfWeight: real, i: int, j: int) {
    || Blank(names, trust, i)
    || Given(names, trust, i, j) > 0.0
    || (i == j && !Names(names, trust, i, i) && Earned(names, trust, i).GetOr(selfWeight) > 0.0)
  }

  /**
   Every row is a distribution, whatever units the trust was written in, and
   has weight exactly where the voter listens.
   */
  lemma RowsAreDistributions(names: seq<string>, trust: Trust, selfWeight: real, i: nat)
    requires i < |names| && selfWeight >= 0.0
    ensures Distribution(|names|, ShareRow(names, trust, selfWeight, i))
    ensures forall j :: 0 <= j < |names| ==>
      (Share(names, trust, selfWeight, i, j) > 0.0 <==> Listens(names, trust, selfWeight, i, j))
  {
    var raw := RawRow(names, trust, selfWeight, i);
    RawTotal(names, trust, selfWeight, i);
    forall j | 0 <= j < |names| ensures raw(j) > 0.0 <==> Listens(names, trust, selfWeight, i, j) {
      ListensRaw(names, trust, selfWeight, i, j);
    }
    hide Raw, Listens;
    ScaledToOne(|names|, raw, ShareRow(names, trust, selfWeight, i));
    assert forall j :: ShareRow(names, trust, selfWeight, i)(j) == Share(names, trust, selfWeight, i, j);
  }

  lemma ScaledToOne(n: nat, raw: int -> real, scaled: int -> real)
    requires Sum(n, raw) > 0.0
    requires forall j :: 0 <= j < n ==> raw(j) >= 0.0 && scaled(j) == raw(j) / Sum(n, raw)
    ensures Distribution(n, scaled)
    ensures forall j :: 0 <= j < n ==> (scaled(j) > 0.0 <==> raw(j) > 0.0)
  {
    var total := Sum(n, raw);
    var inverse := 1.0 / total;
    Quotient(total, total);
    forall j | 0 <= j < n
      ensures scaled(j) == inverse * raw(j) && scaled(j) >= 0.0 && (scaled(j) > 0.0 <==> raw(j) > 0.0)
    {
      Quotient(raw(j), total);
    }
    SumScaled(n, inverse, raw, scaled);
  }

  lemma Quotient(a: real, total: real)
    requires total > 0.0 && a >= 0.0
    ensures a / total == 1.0 / total * a >= 0.0
    ensures a / total > 0.0 <==> a > 0.0
    ensures 1.0 / total * total == 1.0
  {
  }

  lemma ListensRaw(names: seq<string>, trust: Trust, selfWeight: real, i: nat, j: nat)
    requires i < |names| && j < |names| && selfWeight >= 0.0
    ensures Raw(names, trust, selfWeight, i, j) > 0.0 <==> Listens(names, trust, selfWeight, i, j)
  {
    hide Earned, Blank;
    GivenOnlyNamed(names, trust, i, j);
  }

  /// Two tables that say the same of the voters, absentees aside.
  predicate SameAmongVoters(names: seq<string>, t1: Trust, t2: Trust) {
    forall i, j :: 0 <= i < |names| && 0 <= j < |names| ==>
      && (Names(names, t1, i, j) <==> Names(names, t2, i, j))
      && (Names(names, t1, i, j) ==> t1[names[i]][names[j]] == t2[names[i]][names[j]])
  }

  /// Weight on an agent that did not vote is dropped.
  lemma AbsenteesDoNotCount(names: seq<string>, t1: Trust, t2: Trust, selfWeight: real)
    requires SameAmongVoters(names, t1, t2)
    ensures Shares(names, t1, selfWeight) == Shares(names, t2, selfWeight)
  {
    var n := |names|;
    forall i, j ensures Given(names, t1, i, j) == Given(names, t2, i, j) {
      if 0 <= i < n && 0 <= j < n {
        assert Names(names, t1, i, j) <==> Names(names, t2, i, j);
      }
    }
    hide Given;
    forall j | 0 <= j < n ensures Earned(names, t1, j) == Earned(names, t2, j) {
      SumSame(n, GivenTo(names, t1, j), GivenTo(names, t2, j));
      SumSame(n, GiversTo(names, t1, j), GiversTo(names, t2, j));
    }
    hide Earned;
    forall i, j | 0 <= i < n && 0 <= j < n
      ensures Share(names, t1, selfWeight, i, j) == Share(names, t2, selfWeight, i, j)
    {
      assert Names(names, t1, i, i) <==> Names(names, t2, i, i);
      SumSame(n, RawRow(names, t1, selfWeight, i), RawRow(names, t2, selfWeight, i));
    }
    hide Share;
    var (s1, s2) := (Shares(names, t1, selfWeight), Shares(names, t2, selfWeight));
    forall i | 0 <= i < n ensures s1[i] == s2[i] {
      assert forall j :: 0 <= j < n ==> s1[i][j] == s2[i][j];
    }
  }

  // ---- the shares, in terms of what was written ----

  /// The weight `names[i]` writes on `names[j]` is positive.
  predicate Trusts(names: seq<string>, trust: Trust, i: nat, j: nat)
    requires i < |names| && j < |names|
  {
    names[i] in trust && names[j] in trust[names[i]] && trust[names[i]][names[j]] > 0.0
  }

  /// The positive weights the first `k` voters write on `names[j]`, its own
  /// aside.
  function Gifts(names: seq<string>, trust: Trust, j: nat, k: nat): seq<real>
    requires j < |names| && k <= |names|
  {
    if k == 0 then []
    else Gifts(names, trust, j, k - 1) + (if k - 1 != j && Trusts(names, trust, k - 1, j) then [trust[names[k - 1]][names[j]]] else [])
  }

  function Mean(s: seq<real>): real
    requires s != []
  {
    Sum(|s|, Entries(s)) / |s| as real
  }

  lemma SumOfMore(s: seq<real>, x: real)
    ensures Sum(|s| + 1, Entries(s + [x])) == Sum(|s|, Entries(s)) + x
  {
    SumSame(|s|, Entries(s), Entries(s + [x]));
  }

  lemma {:induction false} GiftsCounted(names: seq<string>, trust: Trust, j: nat, k: nat)
    requires j < |names| && k <= |names|
    ensures var gifts := Gifts(names, trust, j, k);
      Sum(k, GiversTo(names, trust, j)) == |gifts| as real && Sum(k, GivenTo(names, trust, j)) == Sum(|gifts|, Entries(gifts))
  {
    if k > 0 {
      GiftsCounted(names, trust, j, k - 1);
      hide Sum, Entries;
      OneMoreGift(names, trust, j, k);
    } else {
      NoGifts(names, trust, j);
    }
  }

  lemma NoGifts(names: seq<string>, trust: Trust, j: nat)
    requires j < |names|
    ensures Gifts(names, trust, j, 0) == [] && Sum(0, Entries([])) == 0.0
    ensures Sum(0, GiversTo(names, trust, j)) == 0.0 == Sum(0, GivenTo(names, trust, j))
  {
  }

  lemma OneMoreGift(names: seq<string>, trust: Trust, j: nat, k: nat)
    requires j < |names| && 0 < k <= |names|
    requires var gifts := Gifts(names, trust, j, k - 1);
      Sum(k - 1, GiversTo(names, trust, j)) == |gifts| as real && Sum(k - 1, GivenTo(names, trust, j)) == Sum(|gifts|, Entries(gifts))
    ensures var gifts := Gifts(names, trust, j, k);
      Sum(k, GiversTo(names, trust, j)) == |gifts| as real && Sum(k, GivenTo(names, trust, j)) == Sum(|gifts|, Entries(gifts))
  {
    var gifts := Gifts(names, trust, j, k - 1);
    assert Sum(k, GiversTo(names, trust, j)) == Sum(k - 1, GiversTo(names, trust, j)) + GiversTo(names, trust, j)(k - 1);
    assert Sum(k, GivenTo(names, trust, j)) == Sum(k - 1, GivenTo(names, trust, j)) + GivenTo(names, trust, j)(k - 1);
    if k - 1 != j && Trusts(names, trust, k - 1, j) {
      SumOfMore(gifts, trust[names[k - 1]][names[j]]);
    } else {
      assert gifts + [] == gifts;
    }
  }

  /// What a voter earns is the mean of what the others write on it.
  lemma EarnedIsTheMean(names: seq<string>, trust: Trust, j: nat)
    requires j < |names|
    ensures var gifts := Gifts(names, trust, j, |names|);
      Earned(names, trust, j) == if gifts == [] then None else Some(Mean(gifts))
  {
    GiftsCounted(names, trust, j, |names|);
    hide Sum, GivenTo, GiversTo, Entries, Gifts;
  }

  lemma ShareOfRaw(names: seq<string>, trust: Trust, selfWeight: real, i: nat, j: nat, k: nat)
    requires i < |names| && j < |names| && k < |names| && selfWeight >= 0.0
    ensures Share(names, trust, selfWeight, i, j) * Raw(names, trust, selfWeight, i, k)
         == Share(names, trust, selfWeight, i, k) * Raw(names, trust, selfWeight, i, j)
  {
    RawTotal(names, trust, selfWeight, i);
    hide Raw, Sum;
    CrossRatio(Raw(names, trust, selfWeight, i, j), Raw(names, trust, selfWeight, i, k), Sum(|names|, RawRow(names, trust, selfWeight, i)));
  }

  lemma CrossRatio(a: real, b: real, total: real)
    requires total > 0.0
    ensures (a / total) * b == (b / total) * a
  {
  }

  /// A voter's shares of two it trusts are in the ratio of the weights it wrote.
  lemma SharesKeepTheRatio(names: seq<string>, trust: Trust, selfWeight: real, i: nat, j: nat, k: nat)
    requires i < |names| && j < |names| && k < |names| && selfWeight >= 0.0
    requires Trusts(names, trust, i, j) && Trusts(names, trust, i, k)
    ensures Share(names, trust, selfWeight, i, j) > 0.0 && Share(names, trust, selfWeight, i, k) > 0.0
    ensures var row := trust[names[i]];
      Share(names, trust, selfWeight, i, j) * row[names[k]] == Share(names, trust, selfWeight, i, k) * row[names[j]]
  {
    ShareOfRaw(names, trust, selfWeight, i, j, k);
    RowsAreDistributions(names, trust, selfWeight, i);
    assert Given(names, trust, i, j) == trust[names[i]][names[j]] && Given(names, trust, i, k) == trust[names[i]][names[k]];
    assert !Blank(names, trust, i);
    hide Share, Earned, Distribution;
  }

  /**
   A writer its own row leaves out has, to one the row trusts, the ratio of what
   it earned from the others, or else of the configured weight, to the weight
   written.
   */
  lemma WriterHasWhatItEarned(names: seq<string>, trust: Trust, selfWeight: real, i: nat, k: nat)
    requires i < |names| && k < |names| && selfWeight >= 0.0
    requires Trusts(names, trust, i, k) && names[i] !in trust[names[i]]
    ensures var gifts := Gifts(names, trust, i, |names|);
      Share(names, trust, selfWeight, i, i) * trust[names[i]][names[k]]
        == Share(names, trust, selfWeight, i, k) * if gifts == [] then selfWeight else Mean(gifts)
  {
    ShareOfRaw(names, trust, selfWeight, i, i, k);
    EarnedIsTheMean(names, trust, i);
    assert Given(names, trust, i, k) == trust[names[i]][names[k]];
    assert !Blank(names, trust, i);
    hide Share, Earned, Gifts, Mean;
  }

  /// Nobody else has a share of a row that trusts some voter.
  lemma OthersHaveNothing(names: seq<string>, trust: Trust, selfWeight: real, i: nat, j: nat, k: nat)
    requires i < |names| && j < |names| && k < |names| && selfWeight >= 0.0
    requires Trusts(names, trust, i, k) && !Trusts(names, trust, i, j)
    requires i == j ==> names[i] in trust[names[i]]
    ensures Share(names, trust, selfWeight, i, j) == 0.0
  {
    assert Given(names, trust, i, k) > 0.0 && Given(names, trust, i, j) == 0.0;
    assert !Blank(names, trust, i);
    RawTotal(names, trust, selfWeight, i);
    hide Earned, Sum;
    ZeroOver(Sum(|names|, RawRow(names, trust, selfWeight, i)));
  }

  lemma ZeroOver(total: real)
    requires total > 0.0
    ensures 0.0 / total == 0.0
  {
  }

  /// A voter that trusts no voter listens to all alike.
  lemma BlankRowIsEven(names: seq<string>, trust: Trust, selfWeight: real, i: nat, j: nat)
    requires i < |names| && j < |names| && forall k :: 0 <= k < |names| ==> !Trusts(names, trust, i, k)
    ensures Share(names, trust, selfWeight, i, j) == 1.0 / |names| as real
  {
    forall k | 0 <= k < |names| ensures Given(names, trust, i, k) == 0.0 { assert !Trusts(names, trust, i, k); }
    assert Blank(names, trust, i);
    hide Given, Earned, Trusts;
    SumConstant(|names|, 1.0, RawRow(names, trust, selfWeight, i));
  }

  // ---- rows that weigh every voter alike ----

  /// No voter names itself, and each other voter gets `u` of it from everyone.
  predicate Alike(names: seq<string>, trust: Trust, u: seq<real>) {
    && |u| == |names|
    && (forall j :: 0 <= j < |u| ==> u[j] > 0.0 && !Names(names, trust, j, j))
    && (forall i, j :: 0 <= i < |names| && 0 <= j < |names| && i != j ==> Given(names, trust, i, j) == u[j])
  }

  function Entries(u: seq<real>): int -> real {
    j => if 0 <= j < |u| then u[j] else 0.0
  }

  /**
   Rows that weigh every voter alike describe a weighted vote, and every voter
   then holds exactly those weights, scaled to sum to one: what a voter earns
   from the others stands in for the weight it did not write on itself.
   */
  lemma AlikeRowsAreAWeightedVote(names: seq<string>, trust: Trust, u: seq<real>, selfWeight: real, i: nat, j: nat)
    requires Alike(names, trust, u) && |names| >= 2 && i < |names| && j < |names| && selfWeight >= 0.0
    ensures Sum(|names|, Entries(u)) > 0.0
    ensures Share(names, trust, selfWeight, i, j) == u[j] / Sum(|names|, Entries(u))
  {
    var n := |names|;
    forall k | 0 <= k < n ensures Raw(names, trust, selfWeight, i, k) == u[k] {
      var other := if i == 0 then 1 else 0;
      assert Given(names, trust, i, other) == u[other];
      assert !Blank(names, trust, i);
      if i == k {
        AlikeEarned(names, trust, u, i);
      }
    }
    hide Raw;
    SumSame(n, RawRow(names, trust, selfWeight, i), Entries(u));
    SumNotNegative(n, Entries(u));
    assert Entries(u)(0) > 0.0;
  }

  lemma AlikeEarned(names: seq<string>, trust: Trust, u: seq<real>, j: nat)
    requires Alike(names, trust, u) && |names| >= 2 && j < |names|
    ensures Earned(names, trust, j) == Some(u[j])
  {
    var n := |names|;
    var (to, givers) := (GivenTo(names, trust, j), GiversTo(names, trust, j));
    EarnedIsPositive(names, trust, j);
    var other := if j == 0 then 1 else 0;
    assert Given(names, trust, other, j) == u[j];
    assert givers(other) == 1.0;
    SumNotNegative(n, givers);
    hide Given;
    forall i | 0 <= i < n ensures to(i) == u[j] * givers(i) {
      assert i != j ==> Given(names, trust, i, j) == u[j];
    }
    assert givers(other) <= Sum(n, givers);
    RatioOfSums(n, to, givers, u[j]);
  }

  lemma RatioOfSums(n: nat, to: int -> real, givers: int -> real, u: real)
    requires Sum(n, givers) > 0.0 && forall i :: 0 <= i < n ==> to(i) == u * givers(i)
    ensures Sum(n, to) / Sum(n, givers) == u
  {
    SumScaled(n, u, givers, to);
    Cancels(u, Sum(n, givers), Sum(n, to));
  }

  lemma Cancels(a: real, b: real, c: real)
    requires b > 0.0 && c == a * b
    ensures c / b == a
  {
  }

  // ---- the matrix filled and scaled in place ----

  function RowOf(w: array2<real>, i: int): int -> real
    reads w
  {
    var row := if 0 <= i < w.Length0 then seq(w.Length1, j requires 0 <= j < w.Length1 reads w => w[i, j]) else [];
    Entries(row)
  }

  method NormaliseRow(w: array2<real>, i: nat)
    requires i < w.Length0
    modifies w
    ensures var total := old(Sum(w.Length1, RowOf(w, i)));
      forall j :: 0 <= j < w.Length1 ==> w[i, j] == if total <= 0.0 then old(w[i, j]) else old(w[i, j]) / total
    ensures forall k, j :: 0 <= k < w.Length0 && 0 <= j < w.Length1 && k != i ==> w[k, j] == old(w[k, j])
  {
    var sum := 0.0;
    ghost var row := RowOf(w, i);
    for j := 0 to w.Length1
      invariant sum == Sum(j, row)
    {
      sum := sum + w[i, j];
    }
    if sum <= 0.0 {
      return;
    }
    for j := 0 to w.Length1
      invariant forall l :: 0 <= l < w.Length1 ==> w[i, l] == if l < j then old(w[i, l]) / sum else old(w[i, l])
      invariant forall k, l :: 0 <= k < w.Length0 && 0 <= l < w.Length1 && k != i ==> w[k, l] == old(w[k, l])
    {
      w[i, j] := w[i, j] / sum;
    }
  }

  method FillGiven(names: seq<string>, trust: Trust, w: array2<real>, written: array<bool>)
    requires w.Length0 == w.Length1 == written.Length == |names|
    requires forall i, j :: 0 <= i < |names| && 0 <= j < |names| ==> w[i, j] == 0.0
    requires forall i :: 0 <= i < |names| ==> !written[i]
    modifies w, written
    ensures forall i, j :: 0 <= i < |names| && 0 <= j < |names| ==> w[i, j] == Given(names, trust, i, j)
    ensures forall i :: 0 <= i < |names| ==> (written[i] <==> Names(names, trust, i, i))
  {
    var n := |names|;
    for i := 0 to n
      invariant forall k, j :: 0 <= k < n && 0 <= j < n ==> w[k, j] == if k < i then Given(names, trust, k, j) else 0.0
      invariant forall k :: 0 <= k < n ==> (written[k] <==> k < i && Names(names, trust, k, k))
    {
      if names[i] !in trust {
        continue;
      }
      var spec := trust[names[i]];
      for j := 0 to n
        modifies w
        invariant forall k, l :: 0 <= k < n && 0 <= l < n ==>
          w[k, l] == if k < i || (k == i && l < j) then Given(names, trust, k, l) else 0.0
      {
        if names[j] in spec && spec[names[j]] > 0.0 {
          w[i, j] := spec[names[j]];
        }
      }
      written[i] := names[i] in spec;
    }
  }

  method EarnedOf(names: seq<string>, trust: Trust, w: array2<real>, j: nat) returns (earned: Option<real>)
    requires w.Length0 == w.Length1 == |names| && j < |names|
    requires forall i, k :: 0 <= i < |names| && 0 <= k < |names| ==> w[i, k] == Given(names, trust, i, k)
    ensures earned == Earned(names, trust, j)
  {
    var (sum, count) := (0.0, 0.0);
    hide Given;
    for i := 0 to |names|
      invariant sum == Sum(i, GivenTo(names, trust, j))
      invariant count == Sum(i, GiversTo(names, trust, j))
    {
      GivenNotNegative(names, trust, i, j);
      if i != j && w[i, j] > 0.0 {
        sum := sum + w[i, j];
        count := count + 1.0;
      }
    }
    earned := if count == 0.0 then None else Some(sum / count);
  }

  predicate IsShares(names: seq<string>, trust: Trust, selfWeight: real, w: array2<real>, k: nat)
    reads w
    requires w.Length0 == w.Length1 == |names|
  {
    forall i, j :: 0 <= i < |names| && 0 <= j < |names| ==>
      w[i, j] == if i < k then Share(names, trust, selfWeight, i, j) else Given(names, trust, i, j)
  }

  /// A blank row listens to everyone; a row that leaves its writer out gives
  /// it what it earned.
  method FillRow(names: seq<string>, trust: Trust, selfWeight: real, w: array2<real>, i: nat, written: bool, earned: Option<real>)
    returns (blank: bool)
    requires w.Length0 == w.Length1 == |names| && i < |names|
    requires forall j :: 0 <= j < |names| ==> w[i, j] == Given(names, trust, i, j)
    requires written == Names(names, trust, i, i) && earned == Earned(names, trust, i)
    modifies w
    ensures blank <==> Blank(names, trust, i)
    ensures forall j :: 0 <= j < |names| ==> w[i, j] == Raw(names, trust, selfWeight, i, j)
    ensures forall k, j :: 0 <= k < |names| && 0 <= j < |names| && k != i ==> w[k, j] == old(w[k, j])
  {
    hide Given, Earned, Names;
    blank := true;
    for j := 0 to |names|
      invariant blank <==> forall l :: 0 <= l < j ==> w[i, l] == 0.0
    {
      if w[i, j] != 0.0 {
        blank := false;
      }
    }
    assert blank <==> Blank(names, trust, i);
    if blank {
      for j := 0 to |names|
        invariant forall k, l :: 0 <= k < |names| && 0 <= l < |names| && k != i ==> w[k, l] == old(w[k, l])
        invariant forall l :: 0 <= l < j ==> w[i, l] == 1.0
      {
        w[i, j] := 1.0;
      }
    } else if !written {
      w[i, i] := earned.GetOr(selfWeight);
    }
  }

  lemma RowTotal(names: seq<string>, trust: Trust, selfWeight: real, w: array2<real>, i: nat)
    requires w.Length0 == w.Length1 == |names| && i < |names|
    requires forall j :: 0 <= j < |names| ==> w[i, j] == Raw(names, trust, selfWeight, i, j)
    ensures Sum(|names|, RowOf(w, i)) == Sum(|names|, RawRow(names, trust, selfWeight, i))
  {
    hide Raw;
    SumSame(|names|, RowOf(w, i), RawRow(names, trust, selfWeight, i));
  }

  method InfluenceOf(names: seq<string>, trust: Trust, selfWeight: real) returns (weights: array2<real>, configured: bool)
    ensures fresh(weights) && weights.Length0 == weights.Length1 == |names|
    ensures IsShares(names, trust, selfWeight, weights, |names|)
    ensures configured <==> exists i :: 0 <= i < |names| && !Blank(names, trust, i)
  {
    var n := |names|;
    weights := new real[n, n]((i, j) => 0.0);
    var written := new bool[n](i => false);
    FillGiven(names, trust, weights, written);
    var earned := new Option<real>[n](i => None);
    for j := 0 to n
      modifies earned
      invariant forall k :: 0 <= k < j ==> earned[k] == Earned(names, trust, k)
    {
      earned[j] := EarnedOf(names, trust, weights, j);
    }
    configured := false;
    hide Given, Earned, Names, Raw, Blank;
    for i := 0 to n
      modifies weights
      invariant IsShares(names, trust, selfWeight, weights, i)
      invariant configured <==> exists k :: 0 <= k < i && !Blank(names, trust, k)
    {
      var blank := FillRow(names, trust, selfWeight, weights, i, written[i], earned[i]);
      if !blank {
        configured := true;
      }
      RowTotal(names, trust, selfWeight, weights, i);
      NormaliseRow(weights, i);
    }
  }
}
