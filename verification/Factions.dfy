/**
 The factions a divided run is reported in (`group_by_limit`,
 `crates/vissue-core/src/consensus.rs`).
 */
module Factions {
  import opened Base
  import opened Linear
  import opened Opinions
  import opened Rounds
  import opened Structure
  import opened Anchoring
  import opened Mixing
  import opened Convergence

  /// Two shares this close are a tie.
  const TIE_EPS := 0.000001

  function Away(x: Matrix, i: int, j: int, c: int): real {
    Abs(At(x, i, c) - At(x, j, c))
  }

  /// Two agents whose opinions are closer than the tolerance on every choice.
  predicate Near(x: Matrix, m: nat, tolerance: real, i: int, j: int) {
    forall c :: 0 <= c < m ==> Away(x, i, j, c) < Max(tolerance, TIE_EPS)
  }

  /// Ties: opinions less than a millionth apart are near at any tolerance, and
  /// ones that are further apart are when the tolerance is wider still.
  lemma NearExactly(x: Matrix, m: nat, tolerance: real, i: int, j: int)
    ensures Near(x, m, tolerance, i, j) <==>
      forall c :: 0 <= c < m ==> Away(x, i, j, c) < 0.000001 || Away(x, i, j, c) < tolerance
  {
    hide Away;
    if Near(x, m, tolerance, i, j) {
      forall c | 0 <= c < m ensures Away(x, i, j, c) < 0.000001 || Away(x, i, j, c) < tolerance {
        assert Away(x, i, j, c) < Max(tolerance, TIE_EPS);
      }
    }
  }

  type Groups = seq<seq<int>>

  /// The first group whose first member is near.
  function FirstNear(x: Matrix, m: nat, tolerance: real, groups: Groups, i: int): (g: nat)
    requires forall k :: 0 <= k < |groups| ==> groups[k] != []
    ensures g <= |groups|
  {
    if groups == [] || Near(x, m, tolerance, groups[0][0], i) then 0 else 1 + FirstNear(x, m, tolerance, groups[1..], i)
  }

  function Joined(groups: Groups, g: nat, i: int): Groups
    requires g <= |groups|
  {
    if g < |groups| then groups[g := groups[g] + [i]] else groups + [[i]]
  }

  /// The first `k` agents, each put with the first group it is near.
  function Grouped(x: Matrix, m: nat, tolerance: real, k: nat): (groups: Groups)
    ensures forall g :: 0 <= g < |groups| ==> groups[g] != []
  {
    if k == 0 then []
    else
      var before := Grouped(x, m, tolerance, k - 1);
      Joined(before, FirstNear(x, m, tolerance, before, k - 1), k - 1)
  }

  // ---- what a grouping is ----

  predicate Placed(groups: Groups, e: int) {
    exists g :: 0 <= g < |groups| && e in groups[g]
  }

  /// Each agent is in one group, the first whose first member it is near, and
  /// groups and members stand in order.
  ghost predicate IsGrouping(x: Matrix, m: nat, tolerance: real, k: nat, groups: Groups) {
    && (forall g :: 0 <= g < |groups| ==> groups[g] != [])
    && (forall g, e :: 0 <= g < |groups| && e in groups[g] ==> 0 <= groups[g][0] <= e < k && Near(x, m, tolerance, groups[g][0], e))
    && (forall e :: 0 <= e < k ==> Placed(groups, e))
    && (forall g, h, e :: 0 <= g < |groups| && 0 <= h < |groups| && e in groups[g] && e in groups[h] ==> g == h)
    && (forall g, h :: 0 <= g < h < |groups| ==> groups[g][0] < groups[h][0])
    && (forall g, h, e :: 0 <= g < h < |groups| && e in groups[h] ==> !Near(x, m, tolerance, groups[g][0], e))
  }

  lemma {:induction false} FirstNearFacts(x: Matrix, m: nat, tolerance: real, groups: Groups, i: int)
    requires forall k :: 0 <= k < |groups| ==> groups[k] != []
    ensures var f := FirstNear(x, m, tolerance, groups, i);
      && (f < |groups| ==> Near(x, m, tolerance, groups[f][0], i))
      && forall g :: 0 <= g < f ==> !Near(x, m, tolerance, groups[g][0], i)
  {
    hide Near;
    if groups != [] && !Near(x, m, tolerance, groups[0][0], i) {
      FirstNearFacts(x, m, tolerance, groups[1..], i);
      assert forall g :: 1 <= g < |groups| ==> groups[g] == groups[1..][g - 1];
    }
  }

  lemma NearItself(x: Matrix, m: nat, tolerance: real, i: int)
    ensures Near(x, m, tolerance, i, i)
  {
  }

  lemma NearBothWays(x: Matrix, m: nat, tolerance: real, i: int, j: int)
    ensures Near(x, m, tolerance, i, j) <==> Near(x, m, tolerance, j, i)
  {
    assert forall c :: Away(x, i, j, c) == Away(x, j, i, c);
  }

  lemma JoinedOld(x: Matrix, m: nat, tolerance: real, k: nat, groups: Groups, f: nat)
    requires IsGrouping(x, m, tolerance, k, groups) && f < |groups| && Near(x, m, tolerance, groups[f][0], k)
    requires forall g :: 0 <= g < f ==> !Near(x, m, tolerance, groups[g][0], k)
    ensures IsGrouping(x, m, tolerance, k + 1, groups[f := groups[f] + [k]])
  {
    hide Near;
    var next := groups[f := groups[f] + [k]];
    assert forall g :: 0 <= g < |groups| ==> next[g] != [] && next[g][0] == groups[g][0];
    assert forall g, e :: 0 <= g < |next| ==> (e in next[g] <==> e in groups[g] || (g == f && e == k));
    forall g | 0 <= g < |groups| ensures k !in groups[g] && 0 <= groups[g][0] < k { assert groups[g][0] in groups[g]; }
    forall e | 0 <= e < k + 1 ensures Placed(next, e) {
      if e < k {
        assert Placed(groups, e);
        var g :| 0 <= g < |groups| && e in groups[g];
        assert e in next[g];
      } else {
        assert e in next[f];
      }
    }
    hide Placed;
  }

  lemma JoinedNew(x: Matrix, m: nat, tolerance: real, k: nat, groups: Groups)
    requires IsGrouping(x, m, tolerance, k, groups)
    requires forall g :: 0 <= g < |groups| ==> !Near(x, m, tolerance, groups[g][0], k)
    ensures IsGrouping(x, m, tolerance, k + 1, groups + [[k as int]])
  {
    NearItself(x, m, tolerance, k);
    hide Near;
    var next := groups + [[k as int]];
    assert forall g, e :: 0 <= g < |groups| ==> (e in next[g] <==> e in groups[g]);
    forall g | 0 <= g < |groups| ensures k !in groups[g] && 0 <= groups[g][0] < k { assert groups[g][0] in groups[g]; }
    forall e | 0 <= e < k + 1 ensures Placed(next, e) {
      if e < k {
        assert Placed(groups, e);
        var g :| 0 <= g < |groups| && e in groups[g];
        assert e in next[g];
      } else {
        assert e in next[|groups|];
      }
    }
    hide Placed;
  }

  lemma JoinedIsGrouping(x: Matrix, m: nat, tolerance: real, k: nat, groups: Groups)
    requires IsGrouping(x, m, tolerance, k, groups)
    ensures IsGrouping(x, m, tolerance, k + 1, Joined(groups, FirstNear(x, m, tolerance, groups, k), k))
  {
    var f := FirstNear(x, m, tolerance, groups, k);
    FirstNearFacts(x, m, tolerance, groups, k);
    hide Near, FirstNear;
    if f < |groups| {
      JoinedOld(x, m, tolerance, k, groups, f);
    } else {
      JoinedNew(x, m, tolerance, k, groups);
    }
  }

  lemma {:induction false} GroupedIsGrouping(x: Matrix, m: nat, tolerance: real, k: nat)
    ensures IsGrouping(x, m, tolerance, k, Grouped(x, m, tolerance, k))
  {
    hide IsGrouping;
    if k == 0 {
      NoGroups(x, m, tolerance);
    } else {
      GroupedIsGrouping(x, m, tolerance, k - 1);
      JoinedIsGrouping(x, m, tolerance, k - 1, Grouped(x, m, tolerance, k - 1));
    }
  }

  lemma NoGroups(x: Matrix, m: nat, tolerance: real)
    ensures IsGrouping(x, m, tolerance, 0, [])
  {
  }

  // ---- when factions are the agents of one opinion ----

  ghost predicate SameFaction(groups: Groups, i: int, j: int) {
    exists g :: 0 <= g < |groups| && i in groups[g] && j in groups[g]
  }

  /// Being near carries over.
  ghost predicate NearCarries(x: Matrix, m: nat, tolerance: real, n: nat) {
    forall i, j, k :: 0 <= i < n && 0 <= j < n && 0 <= k < n && Near(x, m, tolerance, i, j) && Near(x, m, tolerance, j, k) ==>
      Near(x, m, tolerance, i, k)
  }

  lemma NearIsSame(x: Matrix, m: nat, tolerance: real, n: nat, groups: Groups, i: nat, j: nat)
    requires IsGrouping(x, m, tolerance, n, groups) && NearCarries(x, m, tolerance, n) && i < n && j < n
    ensures SameFaction(groups, i, j) <==> Near(x, m, tolerance, i, j)
  {
    hide Near;
    assert Placed(groups, i) && Placed(groups, j);
    var g :| 0 <= g < |groups| && i in groups[g];
    var h :| 0 <= h < |groups| && j in groups[h];
    var (a, b) := (groups[g][0], groups[h][0]);
    assert a in groups[g] && b in groups[h];
    NearBothWays(x, m, tolerance, a, i);
    NearBothWays(x, m, tolerance, b, j);
    NearBothWays(x, m, tolerance, i, j);
    NearBothWays(x, m, tolerance, a, b);
    assert SameFaction(groups, i, j) <==> g == h;
    if Near(x, m, tolerance, i, j) {
      assert Near(x, m, tolerance, a, j);
      assert Near(x, m, tolerance, a, b);
      assert Near(x, m, tolerance, b, a);
    }
  }

  lemma SameCarries(x: Matrix, m: nat, tolerance: real, n: nat, groups: Groups)
    requires IsGrouping(x, m, tolerance, n, groups)
    requires forall i, j :: 0 <= i < n && 0 <= j < n ==> (SameFaction(groups, i, j) <==> Near(x, m, tolerance, i, j))
    ensures NearCarries(x, m, tolerance, n)
  {
    hide Near;
    forall i, j, k | 0 <= i < n && 0 <= j < n && 0 <= k < n && Near(x, m, tolerance, i, j) && Near(x, m, tolerance, j, k)
      ensures Near(x, m, tolerance, i, k)
    {
      assert SameFaction(groups, i, j) && SameFaction(groups, j, k);
      assert SameFaction(groups, i, k);
    }
  }

  /**
   The factions are the agents of one opinion, two of them together exactly when
   they are within the tolerance, exactly when being within it carries over: else
   an agent stands with the first it is near, and apart from others it is near.
   */
  lemma FactionsAreOpinionsExactly(x: Matrix, m: nat, tolerance: real, n: nat)
    ensures var groups := Grouped(x, m, tolerance, n);
      (forall i, j :: 0 <= i < n && 0 <= j < n ==> (SameFaction(groups, i, j) <==> Near(x, m, tolerance, i, j))) <==>
      NearCarries(x, m, tolerance, n)
  {
    var groups := Grouped(x, m, tolerance, n);
    GroupedIsGrouping(x, m, tolerance, n);
    hide Near, IsGrouping, NearCarries, SameFaction, Grouped;
    if NearCarries(x, m, tolerance, n) {
      forall i, j | 0 <= i < n && 0 <= j < n ensures SameFaction(groups, i, j) <==> Near(x, m, tolerance, i, j) {
        NearIsSame(x, m, tolerance, n, groups, i, j);
      }
    } else if forall i, j :: 0 <= i < n && 0 <= j < n ==> (SameFaction(groups, i, j) <==> Near(x, m, tolerance, i, j)) {
      SameCarries(x, m, tolerance, n, groups);
    }
  }

  // ---- when factions are given classes ----

  /// No agent before this one is of its class.
  predicate FirstOfClass(cl: int -> int, a: int) {
    forall b :: 0 <= b < a ==> cl(b) != cl(a)
  }

  /// A first agent of one class near an agent of another that has not begun.
  predicate Intrudes(x: Matrix, m: nat, tolerance: real, cl: int -> int, a: int, j: int) {
    && Near(x, m, tolerance, a, j) && FirstOfClass(cl, a)
    && forall b :: 0 <= b <= a ==> cl(b) != cl(j)
  }

  ghost predicate NobodyIntrudes(x: Matrix, m: nat, tolerance: real, cl: int -> int, n: nat) {
    forall a, j :: 0 <= a < n && 0 <= j < n ==> !Intrudes(x, m, tolerance, cl, a, j)
  }

  ghost predicate FactionsAreClasses(groups: Groups, cl: int -> int, n: nat) {
    forall i, j :: 0 <= i < n && 0 <= j < n ==> (SameFaction(groups, i, j) <==> cl(i) == cl(j))
  }

  ghost predicate ClassesAreNear(x: Matrix, m: nat, tolerance: real, cl: int -> int, n: nat) {
    forall i, j :: 0 <= i < n && 0 <= j < n && cl(i) == cl(j) ==> Near(x, m, tolerance, i, j)
  }

  ghost function GroupOf(groups: Groups, e: int): (g: int)
    requires Placed(groups, e)
    ensures 0 <= g < |groups| && e in groups[g]
  {
    var g :| 0 <= g < |groups| && e in groups[g];
    g
  }

  /// Whoever opened the group of an agent is the first of the agent's class.
  ghost predicate LedByFirst(groups: Groups, cl: int -> int, e: int)
    requires Placed(groups, e) && groups[GroupOf(groups, e)] != []
  {
    var a := groups[GroupOf(groups, e)][0];
    cl(a) == cl(e) && FirstOfClass(cl, a)
  }

  lemma GroupFacts(x: Matrix, m: nat, tolerance: real, n: nat, groups: Groups, e: int)
    requires IsGrouping(x, m, tolerance, n, groups) && 0 <= e < n
    ensures Placed(groups, e) && var g := GroupOf(groups, e); groups[g] != [] && 0 <= groups[g][0] <= e && groups[g][0] in groups[g]
    ensures var a := groups[GroupOf(groups, e)][0]; Placed(groups, a) && GroupOf(groups, a) == GroupOf(groups, e)
    ensures forall h :: 0 <= h < |groups| && e in groups[h] ==> h == GroupOf(groups, e)
  {
    hide Near;
    assert Placed(groups, e);
    var g := GroupOf(groups, e);
    assert groups[g][0] in groups[g];
    assert Placed(groups, groups[g][0]);
  }

  /// Nobody led by the first of a class opens a group behind one of that class.
  lemma NotEarlier(x: Matrix, m: nat, tolerance: real, n: nat, groups: Groups, cl: int -> int, b: int, e: int)
    requires IsGrouping(x, m, tolerance, n, groups) && ClassesAreNear(x, m, tolerance, cl, n)
    requires 0 <= b < n && 0 <= e < n && Placed(groups, b) && Placed(groups, e)
    requires groups[GroupOf(groups, b)] != [] && groups[GroupOf(groups, e)] != [] && LedByFirst(groups, cl, b)
    requires b < groups[GroupOf(groups, e)][0]
    ensures cl(b) != cl(e)
  {
    hide Near;
    GroupFacts(x, m, tolerance, n, groups, b);
    GroupFacts(x, m, tolerance, n, groups, e);
    var (h, g) := (GroupOf(groups, b), GroupOf(groups, e));
    assert groups[h][0] < groups[g][0];
    assert h < g;
    assert !Near(x, m, tolerance, groups[h][0], e);
  }

  lemma {:induction false} AllLedByFirst(x: Matrix, m: nat, tolerance: real, n: nat, groups: Groups, cl: int -> int, e: int)
    requires IsGrouping(x, m, tolerance, n, groups) && ClassesAreNear(x, m, tolerance, cl, n)
    requires NobodyIntrudes(x, m, tolerance, cl, n) && 0 <= e < n
    ensures Placed(groups, e) && groups[GroupOf(groups, e)] != [] && LedByFirst(groups, cl, e)
    decreases e
  {
    GroupFacts(x, m, tolerance, n, groups, e);
    var g := GroupOf(groups, e);
    var a := groups[g][0];
    assert Near(x, m, tolerance, a, e) && 0 <= a < n;
    hide IsGrouping, ClassesAreNear, Near;
    forall b | 0 <= b < a ensures cl(b) != cl(e) {
      AllLedByFirst(x, m, tolerance, n, groups, cl, b);
      NotEarlier(x, m, tolerance, n, groups, cl, b, e);
    }
    if a < e {
      AllLedByFirst(x, m, tolerance, n, groups, cl, a);
      assert !Intrudes(x, m, tolerance, cl, a, e);
    }
  }

  lemma LedMeansClasses(x: Matrix, m: nat, tolerance: real, n: nat, groups: Groups, cl: int -> int, i: int, j: int)
    requires IsGrouping(x, m, tolerance, n, groups) && ClassesAreNear(x, m, tolerance, cl, n)
    requires NobodyIntrudes(x, m, tolerance, cl, n) && 0 <= i < n && 0 <= j < n
    ensures SameFaction(groups, i, j) <==> cl(i) == cl(j)
  {
    AllLedByFirst(x, m, tolerance, n, groups, cl, i);
    AllLedByFirst(x, m, tolerance, n, groups, cl, j);
    GroupFacts(x, m, tolerance, n, groups, i);
    GroupFacts(x, m, tolerance, n, groups, j);
    hide IsGrouping, ClassesAreNear, NobodyIntrudes;
    var (a, b) := (groups[GroupOf(groups, i)][0], groups[GroupOf(groups, j)][0]);
    assert FirstOfClass(cl, a) && FirstOfClass(cl, b);
    assert SameFaction(groups, i, j) <==> GroupOf(groups, i) == GroupOf(groups, j);
  }

  lemma ClassesKeepOut(x: Matrix, m: nat, tolerance: real, n: nat, groups: Groups, cl: int -> int, a: int, j: int)
    requires IsGrouping(x, m, tolerance, n, groups) && FactionsAreClasses(groups, cl, n) && 0 <= a < n && 0 <= j < n
    ensures !Intrudes(x, m, tolerance, cl, a, j)
  {
    GroupFacts(x, m, tolerance, n, groups, a);
    GroupFacts(x, m, tolerance, n, groups, j);
    hide Near;
    var (g, h) := (GroupOf(groups, a), GroupOf(groups, j));
    var (l, k) := (groups[g][0], groups[h][0]);
    assert SameFaction(groups, l, a) && SameFaction(groups, k, j);
    assert cl(l) == cl(a) && cl(k) == cl(j) && l <= a;
    assert FirstOfClass(cl, a) ==> l == a;
    assert l < k ==> g < h;
    assert g < h ==> !Near(x, m, tolerance, l, j);
  }

  /**
   Given classes of agents that are near one another, the factions are those
   classes exactly when nobody is near the first agent of a class that begins
   before its own.
   */
  lemma FactionsAreClassesExactly(x: Matrix, m: nat, tolerance: real, cl: int -> int, n: nat)
    requires ClassesAreNear(x, m, tolerance, cl, n)
    ensures var alike := FactionsAreClasses(Grouped(x, m, tolerance, n), cl, n);
      alike <==> NobodyIntrudes(x, m, tolerance, cl, n)
  {
    var groups := Grouped(x, m, tolerance, n);
    GroupedIsGrouping(x, m, tolerance, n);
    hide ClassesAreNear, IsGrouping, SameFaction, Grouped, Intrudes;
    if NobodyIntrudes(x, m, tolerance, cl, n) {
      forall i, j | 0 <= i < n && 0 <= j < n ensures SameFaction(groups, i, j) <==> cl(i) == cl(j) {
        LedMeansClasses(x, m, tolerance, n, groups, cl, i, j);
      }
    }
    if FactionsAreClasses(groups, cl, n) {
      forall a, j | 0 <= a < n && 0 <= j < n ensures !Intrudes(x, m, tolerance, cl, a, j) {
        ClassesKeepOut(x, m, tolerance, n, groups, cl, a, j);
      }
    }
  }

  // ---- the loop ----

  function NamesOf(names: seq<string>, group: seq<int>): seq<string> {
    seq(|group|, i requires 0 <= i < |group| => if 0 <= group[i] < |names| then names[group[i]] else "")
  }

  function NamedGroups(names: seq<string>, groups: Groups): seq<seq<string>> {
    seq(|groups|, g requires 0 <= g < |groups| => NamesOf(names, groups[g]))
  }

  method RowsAreNear(seen: seq<real>, row: seq<real>, tolerance: real) returns (near: bool)
    requires |seen| == |row|
    ensures near <==> forall c :: 0 <= c < |row| ==> Abs(seen[c] - row[c]) < Max(tolerance, TIE_EPS)
  {
    for c := 0 to |row|
      invariant forall d :: 0 <= d < c ==> Abs(seen[d] - row[d]) < Max(tolerance, TIE_EPS)
    {
      if Abs(seen[c] - row[c]) >= Max(tolerance, TIE_EPS) {
        return false;
      }
    }
    near := true;
  }

  /// The opinions the groups were opened with.
  predicate Opened(x: Matrix, n: nat, groups: Groups, seen: seq<seq<real>>) {
    && |seen| == |groups| && n <= |x|
    && forall k :: 0 <= k < |groups| ==> groups[k] != [] && 0 <= groups[k][0] < n && seen[k] == x[groups[k][0]]
  }

  lemma NearByRows(x: Matrix, n: nat, m: nat, tolerance: real, i: int, j: int)
    requires Shape(x, n, m) && 0 <= i < n && 0 <= j < n
    ensures Near(x, m, tolerance, i, j) <==> forall c :: 0 <= c < m ==> Abs(x[i][c] - x[j][c]) < Max(tolerance, TIE_EPS)
  {
    assert forall c :: 0 <= c < m ==> Away(x, i, j, c) == Abs(x[i][c] - x[j][c]);
  }

  method FindNear(x: Matrix, n: nat, m: nat, tolerance: real, seen: seq<seq<real>>, ghost groups: Groups, i: nat) returns (g: nat)
    requires Shape(x, n, m) && i < n && Opened(x, n, groups, seen)
    ensures g == FirstNear(x, m, tolerance, groups, i)
  {
    g := 0;
    while g < |seen|
      invariant g <= |seen| && FirstNear(x, m, tolerance, groups, i) == g + FirstNear(x, m, tolerance, groups[g..], i)
    {
      var near := RowsAreNear(seen[g], x[i], tolerance);
      NearByRows(x, n, m, tolerance, groups[g][0], i);
      assert groups[g..][0] == groups[g] && groups[g..][1..] == groups[g + 1..];
      if near {
        return;
      }
      g := g + 1;
    }
  }

  lemma NamedJoined(names: seq<string>, groups: Groups, g: nat, i: nat)
    requires g <= |groups| && i < |names|
    ensures var (was, now) := (NamedGroups(names, groups), NamedGroups(names, Joined(groups, g, i)));
      now == if g < |groups| then was[g := was[g] + [names[i]]] else was + [[names[i]]]
  {
    var now := Joined(groups, g, i);
    if g < |groups| {
      assert NamesOf(names, now[g]) == NamesOf(names, groups[g]) + [names[i]];
    } else {
      assert NamesOf(names, now[g]) == [names[i]];
    }
  }

  lemma OpenedJoined(x: Matrix, n: nat, groups: Groups, seen: seq<seq<real>>, g: nat, i: nat)
    requires Opened(x, n, groups, seen) && g <= |groups| && i < n
    ensures Opened(x, n, Joined(groups, g, i), if g < |groups| then seen else seen + [x[i]])
  {
  }

  lemma SameCount(x: Matrix, n: nat, groups: Groups, seen: seq<seq<real>>)
    requires Opened(x, n, groups, seen)
    ensures |seen| == |groups| && n <= |x|
  {
  }

  lemma NamedCount(names: seq<string>, groups: Groups)
    ensures |NamedGroups(names, groups)| == |groups|
  {
  }

  lemma NoneGrouped(x: Matrix, m: nat, tolerance: real)
    ensures Grouped(x, m, tolerance, 0) == []
  {
  }

  lemma OneGrouped(x: Matrix, m: nat, tolerance: real, i: nat)
    ensures var before := Grouped(x, m, tolerance, i);
      Grouped(x, m, tolerance, i + 1) == Joined(before, FirstNear(x, m, tolerance, before, i), i)
  {
    hide Near, FirstNear;
  }

  method GroupByLimit(names: seq<string>, x: Matrix, m: nat, tolerance: real) returns (factions: seq<seq<string>>)
    requires Shape(x, |names|, m)
    ensures factions == NamedGroups(names, Grouped(x, m, tolerance, |names|))
  {
    var seen: seq<seq<real>> := [];
    factions := [];
    ghost var groups: Groups := [];
    assert NamedGroups(names, []) == [];
    assert Opened(x, |names|, groups, seen);
    hide Near, FirstNear, Opened, NamesOf, NamedGroups, Shape, Joined, Grouped;
    assert groups == Grouped(x, m, tolerance, 0) by { NoneGrouped(x, m, tolerance); }
    for i := 0 to |names|
      invariant groups == Grouped(x, m, tolerance, i) && Opened(x, |names|, groups, seen)
      invariant factions == NamedGroups(names, groups)
    {
      var g := FindNear(x, |names|, m, tolerance, seen, groups, i);
      OneGrouped(x, m, tolerance, i);
      NamedJoined(names, groups, g, i);
      OpenedJoined(x, |names|, groups, seen, g, i);
      SameCount(x, |names|, groups, seen);
      NamedCount(names, groups);
      groups := Joined(groups, g, i);
      if g < |seen| {
        factions := factions[g := factions[g] + [names[i]]];
      } else {
        seen := seen + [x[i]];
        factions := factions + [[names[i]]];
      }
    }
  }

  // ---- factions and the groups that listen to each other ----

  /// Everyone is in a closed group without an anchor, that of its class.
  ghost predicate ClassedByGroup(run: Run, comps: seq<seq<int>>, cl: int -> int)
    requires |run.pull| == run.n
  {
    forall i :: 0 <= i < run.n ==> FreeAt(run, comps, cl(i)) && i in comps[cl(i)]
  }

  lemma NarrowIsNear(run: Run, group: set<int>, t: nat, tolerance: real, width: real, i: int, j: int)
    requires |run.pull| == run.n && i in group && j in group && width < Max(tolerance, TIE_EPS)
    requires forall c: nat :: c < run.m ==> Narrow(run, group, c, t, width)
    ensures Near(After(run, t), run.m, tolerance, i, j)
  {
    hide After, At;
    forall c | 0 <= c < run.m ensures Away(After(run, t), i, j, c) < Max(tolerance, TIE_EPS) {
      assert Narrow(run, group, c, t, width);
      var low, high :| GroupWithin(run, group, c, t, low, high) && high - low <= width;
      assert low <= At(After(run, t), i, c) <= high && low <= At(After(run, t), j, c) <= high;
    }
  }

  lemma GroupsAreNear(run: Run, comps: seq<seq<int>>, other: Run, cl: int -> int, tolerance: real, from: nat, t: nat)
    requires |run.pull| == run.n && ClassedByGroup(run, comps, cl) && SameTrust(run, other) && Valid(other) && t >= from
    requires forall k :: FreeAt(run, comps, k) ==> NarrowFrom(run, comps, k, Max(tolerance, TIE_EPS) / 2.0, from)
    ensures |other.pull| == other.n && ClassesAreNear(After(other, t), other.m, tolerance, cl, other.n)
  {
    HasPulls(other);
    hide FreeAt, After, Near, Valid, Narrow;
    var width := Max(tolerance, TIE_EPS) / 2.0;
    forall i, j | 0 <= i < other.n && 0 <= j < other.n && cl(i) == cl(j) ensures Near(After(other, t), other.m, tolerance, i, j) {
      assert NarrowFrom(run, comps, cl(i), width, from);
      forall c: nat | c < other.m ensures Narrow(other, Elems(comps[cl(i)]), c, t, width) {}
      NarrowIsNear(other, Elems(comps[cl(i)]), t, tolerance, width, i, j);
    }
  }

  /**
   With everyone in a closed group of period one there is a round from which on,
   whatever the ballots, the factions are those groups exactly when nobody is
   within the tolerance of the first agent of a group that begins before its own.
   */
  lemma FactionsAreTheGroups(run: Run, comps: seq<seq<int>>, cl: int -> int, tolerance: real) returns (from: nat)
    requires Valid(run) && Components(GraphOf(run.weights, run.n), comps) && FreeGroupsMix(run, comps)
    requires ClassedByGroup(run, comps, cl)
    ensures forall other: Run, t: nat :: SameTrust(run, other) && Valid(other) && t >= from ==>
      var x := After(other, t);
      var alike := FactionsAreClasses(Grouped(x, other.m, tolerance, run.n), cl, run.n);
      alike <==> NobodyIntrudes(x, other.m, tolerance, cl, run.n)
  {
    HasPulls(run);
    hide *;
    var width := Max(tolerance, TIE_EPS) / 2.0;
    assert width > 0.0 by { LimitIsPositive(tolerance); }
    from := AllDrawTogether(run, comps, width, |comps|);
    forall k | FreeAt(run, comps, k) ensures NarrowFrom(run, comps, k, width, from) { FreeInRange(run, comps, k); }
    forall other: Run, t: nat | SameTrust(run, other) && Valid(other) && t >= from
      ensures var x := After(other, t);
        var alike := FactionsAreClasses(Grouped(x, other.m, tolerance, run.n), cl, run.n);
        alike <==> NobodyIntrudes(x, other.m, tolerance, cl, run.n)
    {
      HasPulls(other);
      SameSize(run, other);
      GroupsAreNear(run, comps, other, cl, tolerance, from, t);
      FactionsAreClassesExactly(After(other, t), other.m, tolerance, cl, run.n);
    }
  }

  lemma LimitIsPositive(tolerance: real)
    ensures Max(tolerance, TIE_EPS) / 2.0 > 0.0
  {
  }

  // ---- where a run stops too soon for that ----

  /// Two who listen to each other, slowly, and one who listens to nobody.
  function SlowPair(): Run {
    Run(3, 2, [[0.9, 0.1, 0.0], [0.1, 0.9, 0.0], [0.0, 0.0, 1.0]],
        [[1.0, 0.0], [0.0, 1.0], [0.0, 1.0]], [1.0, 1.0, 1.0])
  }

  const PAIR: set<int> := {0, 1}

  lemma SlowPairIsValid()
    ensures Valid(SlowPair()) && Closed(SlowPair().weights, 3, PAIR) && Closed(SlowPair().weights, 3, {2})
  {
    var run := SlowPair();
    forall i | 0 <= i < 3 ensures Distribution(3, Row(run.weights, i)) && Distribution(2, Row(run.start, i)) {
      var (w, s) := (Row(run.weights, i), Row(run.start, i));
      assert Sum(3, w) == Sum(2, w) + w(2) && Sum(2, w) == Sum(1, w) + w(1) && Sum(1, w) == Sum(0, w) + w(0);
      assert Sum(2, s) == Sum(1, s) + s(1) && Sum(1, s) == Sum(0, s) + s(0);
    }
  }

  const AFTER_ONE: Matrix := [[0.9, 0.1], [0.1, 0.9], [0.0, 1.0]]

  lemma FirstRound()
    ensures After(SlowPair(), 1) == AFTER_ONE
  {
    var run := SlowPair();
    var y := After(run, 1);
    assert After(run, 0) == run.start && y == Next(run, run.start);
    forall i, c | 0 <= i < 3 && 0 <= c < 2 ensures At(y, i, c) == AFTER_ONE[i][c] {
      hide After, Next;
      FirstMove(i, c);
      NextAt(run, run.start, i, c);
    }
    hide After;
    assert forall i :: 0 <= i < 3 ==> |y[i]| == 2 && y[i][0] == At(y, i, 0) && y[i][1] == At(y, i, 1);
    forall i | 0 <= i < 3 ensures y[i] == AFTER_ONE[i] {}
  }

  lemma FirstMove(i: int, c: int)
    requires 0 <= i < 3 && 0 <= c < 2
    ensures Moved(SlowPair(), SlowPair().start, i, c) == AFTER_ONE[i][c]
  {
    var run := SlowPair();
    var f := Weighted(Row(run.weights, i), Col(run.start, c));
    assert Sum(3, f) == Sum(2, f) + f(2) && Sum(2, f) == Sum(1, f) + f(1) && Sum(1, f) == Sum(0, f) + f(0);
  }

  /**
   A divided run stops where its step is small, not where its groups have come
   together: with a tolerance of a fifth this one stops after one round, and puts
   one of the two who listen to each other with the one neither hears.
   */
  lemma FactionsAreNotTheGroups()
    ensures var run := SlowPair();
      && Valid(run) && Closed(run.weights, 3, PAIR) && Closed(run.weights, 3, {2})
      && (forall max: nat :: max > 0 ==> Stopped(run, Split, 0.2, max, 1))
      && Grouped(After(run, 1), 2, 0.2, 3) == [[0], [1, 2]]
  {
    var run := SlowPair();
    SlowPairIsValid();
    FirstRound();
    StepOfOneTenth();
    FirstGroups();
    hide After, Valid, Closed, Grouped;
    assert !Stops(run, Split, 0.2, 0);
  }

  lemma StepOfOneTenth()
    ensures Stops(SlowPair(), Split, 0.2, 1)
  {
    var run := SlowPair();
    FirstRound();
    assert After(run, 0) == run.start;
    hide After;
    StepIsTheLargestMove(run.start, AFTER_ONE, 3, 2, 0.1);
    forall i, c | 0 <= i < 3 && 0 <= c < 2 ensures -0.1 <= At(AFTER_ONE, i, c) - At(run.start, i, c) <= 0.1 {}
  }

  lemma FirstGroups()
    ensures Grouped(AFTER_ONE, 2, 0.2, 3) == [[0], [1, 2]]
  {
    var x := AFTER_ONE;
    NotNearPair();
    hide Near;
    var a: Groups := [[0]];
    var b: Groups := [[0], [1]];
    var c: Groups := [[1]];
    assert a[1..] == [] && b[1..] == c && c[1..] == [];
    assert Grouped(x, 2, 0.2, 0) == [];
    assert Grouped(x, 2, 0.2, 1) == a;
    assert FirstNear(x, 2, 0.2, a, 1) == 1 + FirstNear(x, 2, 0.2, [], 1);
    assert Grouped(x, 2, 0.2, 2) == b;
    assert FirstNear(x, 2, 0.2, c, 2) == 0;
    assert FirstNear(x, 2, 0.2, b, 2) == 1;
    var d := Joined(b, 1, 2);
    var e: Groups := [[0], [1, 2]];
    assert d[0] == e[0] && d[1] == [1] + [2] == e[1] && d == e;
    assert Grouped(x, 2, 0.2, 3) == d;
  }

  lemma NotNearPair()
    ensures !Near(AFTER_ONE, 2, 0.2, 0, 1) && !Near(AFTER_ONE, 2, 0.2, 0, 2) && Near(AFTER_ONE, 2, 0.2, 1, 2)
  {
    var x := AFTER_ONE;
    assert Away(x, 0, 1, 0) >= 0.2 && Away(x, 0, 2, 0) >= 0.2;
  }
}
