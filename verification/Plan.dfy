/**
 The plan above an issue: its parents, outermost first (the plan walk of
 `recall_from`, `crates/vissue-core/src/catalog.rs`). Parents are written by hand and may form
 a cycle.
 */
module Plan {
  import opened Base
  import opened Ready

  function FindRec(issues: seq<Rec>, id: string): Option<Rec> {
    if issues == [] then None else if issues[0].id == id then Some(issues[0]) else FindRec(issues[1..], id)
  }

  function ParentOf(issues: seq<Rec>, id: string): Option<string> {
    match FindRec(issues, id) case Some(r) => r.parent case None => None
  }

  function LastOr(chain: seq<string>, id: string): string {
    if chain == [] then id else chain[|chain| - 1]
  }

  /// Each id is the parent of the one before it, the issue itself being before
  /// the first.
  ghost predicate Climbs(issues: seq<Rec>, id: string, chain: seq<string>) {
    forall i :: 0 <= i < |chain| ==> ParentOf(issues, LastOr(chain[..i], id)) == Some(chain[i])
  }

  /// Where the climb has to stop: at no parent, at one met before, or past a
  /// heading outside the tracker.
  predicate Ends(issues: seq<Rec>, id: string, chain: seq<string>) {
    match ParentOf(issues, LastOr(chain, id))
    case None => true
    case Some(p) => p == id || p in chain
  }

  function AllIds(issues: seq<Rec>): set<string> {
    set r | r in issues :: r.id
  }

  lemma {:induction false} FoundInIds(issues: seq<Rec>, id: string)
    ensures FindRec(issues, id).Some? <==> id in AllIds(issues)
  {
    if issues != [] {
      FoundInIds(issues[1..], id);
      assert issues == [issues[0]] + issues[1..];
    }
  }

  lemma ClimbOn(issues: seq<Rec>, id: string, chain: seq<string>, parent: string)
    requires Climbs(issues, id, chain) && ParentOf(issues, LastOr(chain, id)) == Some(parent)
    requires Distinct(chain) && id !in chain && parent !in {id} + Elems(chain)
    ensures Climbs(issues, id, chain + [parent]) && Distinct(chain + [parent]) && id !in chain + [parent]
    ensures Elems(chain + [parent]) == Elems(chain) + {parent}
    ensures LastOr(chain + [parent], id) == parent
  {
    hide ParentOf;
    var next := chain + [parent];
    assert parent in chain ==> parent in Elems(chain);
    forall i | 0 <= i < |next| ensures ParentOf(issues, LastOr(next[..i], id)) == Some(next[i]) {
      assert next[..i] == chain[..i];
      assert i == |chain| ==> chain[..i] == chain;
    }
  }

  lemma FewerAhead(issues: seq<Rec>, chain: seq<string>, parent: string)
    requires FindRec(issues, parent).Some? && parent !in Elems(chain)
    ensures |AllIds(issues) - Elems(chain + [parent])| < |AllIds(issues) - Elems(chain)|
  {
    FoundInIds(issues, parent);
    assert Elems(chain + [parent]) == Elems(chain) + {parent};
    SmallerSet(AllIds(issues) - Elems(chain + [parent]), AllIds(issues) - Elems(chain), parent);
  }

  ghost predicate IsPlan(issues: seq<Rec>, id: string, chain: seq<string>) {
    Climbs(issues, id, chain) && Distinct(chain) && id !in chain && Ends(issues, id, chain)
  }

  /**
   The climb visits each parent once and stops exactly where it has to, so a
   cycle of parents ends it instead of hanging it.
   */
  method PlanAbove(issues: seq<Rec>, id: string) returns (plan: Option<seq<string>>, ghost chain: seq<string>)
    ensures plan.None? <==> FindRec(issues, id).None?
    ensures plan.Some? ==> plan.value == Backwards(chain) && IsPlan(issues, id, chain)
  {
    var rec := FindRec(issues, id);
    if rec.None? {
      return None, [];
    }
    var at := rec.value.parent;
    var climbed: seq<string> := [];
    var seen := {id};
    NoClimb(issues, id, rec.value);
    hide *;
    while at.Some? && at.value !in seen
      invariant Climbs(issues, id, climbed) && Distinct(climbed) && id !in climbed
      invariant seen == {id} + Elems(climbed) && at == ParentOf(issues, LastOr(climbed, id))
      decreases |AllIds(issues) - Elems(climbed)|, if at.Some? then 1 else 0
    {
      var parent := at.value;
      ClimbOn(issues, id, climbed, parent);
      var prec := FindRec(issues, parent);
      NextParent(issues, parent);
      if prec.None? {
        climbed, seen, at := climbed + [parent], seen + {parent}, None;
        break;
      }
      FewerAhead(issues, climbed, parent);
      climbed, seen, at := climbed + [parent], seen + {parent}, prec.value.parent;
    }
    Stopped(issues, id, climbed, at);
    plan, chain := Some(Backwards(climbed)), climbed;
  }

  lemma NextParent(issues: seq<Rec>, id: string)
    ensures ParentOf(issues, id) == match FindRec(issues, id) case Some(r) => r.parent case None => None
  {
  }

  lemma Stopped(issues: seq<Rec>, id: string, chain: seq<string>, at: Option<string>)
    requires at == ParentOf(issues, LastOr(chain, id)) && (at.None? || at.value in {id} + Elems(chain))
    requires Climbs(issues, id, chain) && Distinct(chain) && id !in chain
    ensures IsPlan(issues, id, chain)
  {
    hide Climbs, ParentOf;
    assert at.Some? ==> (at.value in chain <==> at.value in Elems(chain));
  }

  lemma NoClimb(issues: seq<Rec>, id: string, rec: Rec)
    requires FindRec(issues, id) == Some(rec)
    ensures Climbs(issues, id, []) && Distinct<string>([]) && rec.parent == ParentOf(issues, LastOr([], id))
    ensures {id} + Elems<string>([]) == {id}
  {
  }

  function Backwards(s: seq<string>): seq<string> {
    if s == [] then [] else Backwards(s[1..]) + [s[0]]
  }

  lemma {:induction false} BackwardsAt(s: seq<string>, k: nat)
    requires k < |s|
    ensures |Backwards(s)| == |s| && Backwards(s)[k] == s[|s| - 1 - k]
  {
    if |s| > 1 { BackwardsAt(s[1..], if k < |s| - 1 then k else 0); }
  }

  lemma LinkAt(issues: seq<Rec>, id: string, chain: seq<string>, i: nat)
    requires IsPlan(issues, id, chain) && i < |chain|
    ensures ParentOf(issues, if i == 0 then id else chain[i - 1]) == Some(chain[i])
  {
    hide ParentOf;
    assert ParentOf(issues, LastOr(chain[..i], id)) == Some(chain[i]);
    if i > 0 { assert chain[..i][|chain[..i]| - 1] == chain[i - 1]; } else { assert chain[..0] == []; }
  }

  /// The plan starts at the outermost heading: each is the parent of the one
  /// behind it, and the last is the parent of the issue.
  lemma OutermostFirst(issues: seq<Rec>, id: string, chain: seq<string>)
    requires IsPlan(issues, id, chain)
    ensures var plan := Backwards(chain);
      && |plan| == |chain|
      && (plan != [] ==> ParentOf(issues, id) == Some(plan[|plan| - 1]))
      && forall k :: 0 <= k < |plan| - 1 ==> ParentOf(issues, plan[k + 1]) == Some(plan[k])
  {
    hide ParentOf;
    var plan := Backwards(chain);
    if chain != [] {
      BackwardsAt(chain, |chain| - 1);
      LinkAt(issues, id, chain, 0);
      hide IsPlan;
      forall k | 0 <= k < |plan| - 1 ensures ParentOf(issues, plan[k + 1]) == Some(plan[k]) {
        BackwardsAt(chain, k);
        BackwardsAt(chain, k + 1);
        LinkAt(issues, id, chain, |chain| - 1 - k);
      }
    }
  }
}
