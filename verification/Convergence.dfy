/**
 What a run does for all ballots is decided by its trust and anchors alone:
 exactly when it settles, and exactly when it agrees (`structure` and
 `iterate`, `crates/vissue-core/src/consensus.rs`).
 */
module Convergence {
  import opened Base
  import opened Linear
  import opened Opinions
  import opened Limits
  import opened Rounds
  import opened Walks
  import opened Period
  import opened Structure
  import opened LongWalks
  import opened Anchoring
  import opened Mixing
  import opened Unsettled

  // ---- the closed groups without an anchor ----

  /// A closed component none of whose members is anchored.
  ghost predicate FreeAt(run: Run, comps: seq<seq<int>>, k: int)
    requires |run.pull| == run.n
  {
    ClosedAt(GraphOf(run.weights, run.n), comps, k)
    && forall i :: i in comps[k] && 0 <= i < run.n ==> run.pull[i] == 1.0
  }

  ghost predicate InFree(run: Run, comps: seq<seq<int>>, i: int)
    requires |run.pull| == run.n
  {
    exists k :: FreeAt(run, comps, k) && i in comps[k]
  }

  /// Every closed group without an anchor has period one.
  ghost predicate FreeGroupsMix(run: Run, comps: seq<seq<int>>)
    requires |run.pull| == run.n
  {
    forall k :: FreeAt(run, comps, k) ==> IsPeriod(GraphOf(run.weights, run.n), Elems(comps[k]), 1)
  }

  lemma FreeIsGroup(run: Run, comps: seq<seq<int>>, k: int)
    requires Valid(run) && Components(GraphOf(run.weights, run.n), comps) && FreeAt(run, comps, k)
    ensures ClosedFree(run, Elems(comps[k])) && Strong(GraphOf(run.weights, run.n), Elems(comps[k]))
    ensures comps[k] != [] && comps[k][0] in Elems(comps[k]) && 0 <= comps[k][0] < run.n
    ensures exists v :: v in Elems(comps[k]) && GraphOf(run.weights, run.n).edge(comps[k][0], v)
  {
    var g := GraphOf(run.weights, run.n);
    hide Strong, Linked, At;
    ClosedComponentIsClosedGroup(run.weights, run.n, comps, k);
    ClosedComponentIsStrong(g, comps, k);
    FirstMember(g, comps, k);
    var v := HeardBy(run.weights, run.n, Elems(comps[k]), comps[k][0]);
    assert g.edge(comps[k][0], v);
  }

  /// The period of such a group, and two closed walks that far apart.
  lemma FreePeriod(run: Run, comps: seq<seq<int>>, k: int) returns (p: nat)
    requires Valid(run) && Components(GraphOf(run.weights, run.n), comps) && FreeAt(run, comps, k)
    ensures p > 0 && IsPeriod(GraphOf(run.weights, run.n), Elems(comps[k]), p)
    ensures Apart(GraphOf(run.weights, run.n), Elems(comps[k]), comps[k][0], p)
  {
    FreeIsGroup(run, comps, k);
    hide *;
    p := PeriodExists(GraphOf(run.weights, run.n), Elems(comps[k]), comps[k][0]);
  }

  /// From one round on, whatever the ballots, such a group of period one is
  /// narrow.
  lemma FreeDrawsTogether(run: Run, comps: seq<seq<int>>, k: int, width: real) returns (from: nat)
    requires Valid(run) && Components(GraphOf(run.weights, run.n), comps) && FreeAt(run, comps, k) && width > 0.0
    requires IsPeriod(GraphOf(run.weights, run.n), Elems(comps[k]), 1)
    ensures forall other: Run, c: nat, t: nat :: SameTrust(run, other) && Valid(other) && c < other.m && t >= from ==>
      Narrow(other, Elems(comps[k]), c, t, width)
  {
    var (g, group) := (GraphOf(run.weights, run.n), Elems(comps[k]));
    FreeIsGroup(run, comps, k);
    var p := FreePeriod(run, comps, k);
    hide *;
    PeriodIsUnique(g, group, p, 1);
    from := DrawsTogether(run, group, comps[k][0], width);
  }

  lemma {:induction false} AllDrawTogether(run: Run, comps: seq<seq<int>>, width: real, upTo: nat) returns (from: nat)
    requires Valid(run) && Components(GraphOf(run.weights, run.n), comps) && FreeGroupsMix(run, comps) && width > 0.0
    ensures forall k :: k < upTo && FreeAt(run, comps, k) ==> NarrowFrom(run, comps, k, width, from)
  {
    hide Valid, Components, IsPeriod, FreeAt, NarrowFrom;
    from := 0;
    assert |run.pull| == run.n by { HasPulls(run); }
    forall k | FreeAt(run, comps, k) ensures k >= 0 { FreeInRange(run, comps, k); }
    if upTo > 0 {
      var k := upTo - 1;
      var rest := AllDrawTogether(run, comps, width, k);
      from := rest;
      if FreeAt(run, comps, k) {
        FreeInRange(run, comps, k);
        var last := FreeDrawsTogether(run, comps, k, width);
        from := if last < rest then rest else last;
        DrawnFrom(run, comps, k, width, last);
        NarrowFromLater(run, comps, k, width, last, from);
      }
      forall l | l < k && FreeAt(run, comps, l) ensures NarrowFrom(run, comps, l, width, from) {
        NarrowFromLater(run, comps, l, width, rest, from);
      }
    }
  }

  ghost predicate NarrowFrom(run: Run, comps: seq<seq<int>>, k: int, width: real, from: nat)
    requires |run.pull| == run.n
  {
    0 <= k < |comps| &&
    forall other: Run, c: nat, t: nat :: SameTrust(run, other) && Valid(other) && c < other.m && t >= from ==>
      Narrow(other, Elems(comps[k]), c, t, width)
  }

  lemma DrawnFrom(run: Run, comps: seq<seq<int>>, k: int, width: real, from: nat)
    requires |run.pull| == run.n && 0 <= k < |comps|
    requires forall other: Run, c: nat, t: nat :: SameTrust(run, other) && Valid(other) && c < other.m && t >= from ==>
      Narrow(other, Elems(comps[k]), c, t, width)
    ensures NarrowFrom(run, comps, k, width, from)
  {
    hide Narrow, Valid, SameTrust;
  }

  lemma NarrowFromLater(run: Run, comps: seq<seq<int>>, k: int, width: real, from: nat, later: nat)
    requires |run.pull| == run.n && NarrowFrom(run, comps, k, width, from) && from <= later
    ensures NarrowFrom(run, comps, k, width, later)
  {
    hide Narrow, Valid, SameTrust;
  }

  lemma FreeInRange(run: Run, comps: seq<seq<int>>, k: int)
    requires |run.pull| == run.n && FreeAt(run, comps, k)
    ensures 0 <= k < |comps|
  {
  }

  // ---- the others follow ----

  /// The same trust with every member of such a group anchored for good.
  ghost function Pinned(run: Run, pins: set<int>): (fixed: Run)
    requires |run.pull| == run.n
    ensures |fixed.pull| == fixed.n
  {
    run.(pull := seq(run.n, i requires 0 <= i < run.n => if i in pins then 0.0 else run.pull[i]))
  }

  lemma PinnedIsValid(run: Run, pins: set<int>)
    requires Valid(run)
    ensures Valid(Pinned(run, pins))
  {
  }

  lemma PinnedHasNoRoom(run: Run, pins: set<int>, t: nat, i: int)
    requires Valid(run) && i in pins && 0 <= i < run.n
    ensures Room(Pinned(run, pins), t + 1, i) == 0.0
  {
    RoomStep(Pinned(run, pins), t, i);
  }

  /// Everyone holds a value between the bounds, give or take the room left to
  /// it once the pinned agents stand still.
  ghost predicate Bracketed(run: Run, pins: set<int>, z: int -> real, s: nat, low: real, high: real)
    requires |run.pull| == run.n
  {
    forall i :: 0 <= i < run.n ==> low - Room(Pinned(run, pins), s, i) <= z(i) <= high + Room(Pinned(run, pins), s, i)
  }

  /// A free agent holds what it hears, scaled by how far it may move.
  ghost predicate Follows(run: Run, z: int -> real, next: int -> real, i: int)
    requires 0 <= i < |run.pull|
  {
    next(i) == run.pull[i] * Sum(run.n, Weighted(Row(run.weights, i), z))
  }

  lemma MeanBelow(n: nat, w: int -> real, z: int -> real, room: int -> real, high: real)
    requires Distribution(n, w) && forall j :: 0 <= j < n ==> z(j) <= high + room(j)
    ensures Sum(n, Weighted(w, z)) <= high + Sum(n, Weighted(w, room))
  {
    var above: int -> real := j => high + room(j);
    SumLinear(n, 1.0, Weighted(w, room), high, w, Weighted(w, above));
    hide Sum;
    WeightedAtMost(n, w, z, above);
  }

  lemma MeanAbove(n: nat, w: int -> real, z: int -> real, room: int -> real, low: real)
    requires Distribution(n, w) && forall j :: 0 <= j < n ==> low - room(j) <= z(j)
    ensures low - Sum(n, Weighted(w, room)) <= Sum(n, Weighted(w, z))
  {
    var below: int -> real := j => low - room(j);
    SumLinear(n, -1.0, Weighted(w, room), low, w, Weighted(w, below));
    hide Sum;
    WeightedAtMost(n, w, below, z);
  }

  lemma FollowsOne(n: nat, w: int -> real, p: real, z: int -> real, room: int -> real, low: real, high: real)
    requires Distribution(n, w) && 0.0 <= p <= 1.0 && (p == 1.0 || low <= 0.0 <= high)
    requires forall j :: 0 <= j < n ==> low - room(j) <= z(j) <= high + room(j)
    ensures var m := Sum(n, Weighted(w, room)); low - p * m <= p * Sum(n, Weighted(w, z)) <= high + p * m
  {
    hide *;
    MeanBelow(n, w, z, room, high);
    MeanAbove(n, w, z, room, low);
    PulledBounds(p, Sum(n, Weighted(w, room)), Sum(n, Weighted(w, z)), low, high);
  }

  lemma PulledBounds(p: real, m: real, v: real, low: real, high: real)
    requires 0.0 <= p <= 1.0 && (p == 1.0 || low <= 0.0 <= high) && low - m <= v <= high + m
    ensures low - p * m <= p * v <= high + p * m
  {
    Scaled(p, low - m, v, high + m);
    assert p * (low - m) == p * low - p * m && p * (high + m) == p * high + p * m;
    NotNegative(1.0 - p, if p == 1.0 then 0.0 else high);
    NotNegative(1.0 - p, if p == 1.0 then 0.0 else -low);
    assert (1.0 - p) * high == high - p * high && (1.0 - p) * -low == p * low - low;
  }

  lemma Scaled(p: real, a: real, v: real, b: real)
    requires p >= 0.0 && a <= v <= b
    ensures p * a <= p * v <= p * b
  {
    ScaleOrder(p, a, v);
    ScaleOrder(p, v, b);
  }

  lemma FollowStep(run: Run, pins: set<int>, z: int -> real, next: int -> real, s: nat, low: real, high: real)
    requires Valid(run) && Bracketed(run, pins, z, s, low, high)
    requires low <= 0.0 <= high || forall i :: 0 <= i < run.n ==> run.pull[i] == 1.0
    requires forall i :: 0 <= i < run.n ==> if i in pins then low <= next(i) <= high else Follows(run, z, next, i)
    ensures Bracketed(run, pins, next, s + 1, low, high)
  {
    hide Sum, Distribution;
    forall i | 0 <= i < run.n
      ensures low - Room(Pinned(run, pins), s + 1, i) <= next(i) <= high + Room(Pinned(run, pins), s + 1, i)
    {
      if i in pins {
        PinnedHasNoRoom(run, pins, s, i);
      } else {
        FollowFor(run, pins, z, next, s, low, high, i);
      }
    }
  }

  lemma FollowFor(run: Run, pins: set<int>, z: int -> real, next: int -> real, s: nat, low: real, high: real, i: nat)
    requires Valid(run) && Bracketed(run, pins, z, s, low, high) && i < run.n && i !in pins
    requires low <= 0.0 <= high || run.pull[i] == 1.0
    requires Follows(run, z, next, i)
    ensures low - Room(Pinned(run, pins), s + 1, i) <= next(i) <= high + Room(Pinned(run, pins), s + 1, i)
  {
    hide *;
    ListensWell(run, i);
    var room := RoomAt(Pinned(run, pins), s);
    BracketRoom(run, pins, z, s, low, high);
    FixedRoomStep(run, pins, s, i);
    FollowedAt(run, z, next, i);
    FollowsTo(run.n, Row(run.weights, i), run.pull[i], z, room, low, high, next(i), Room(Pinned(run, pins), s + 1, i));
  }

  lemma FollowedAt(run: Run, z: int -> real, next: int -> real, i: nat)
    requires |run.pull| == run.n && i < run.n && Follows(run, z, next, i)
    ensures next(i) == run.pull[i] * Sum(run.n, Weighted(Row(run.weights, i), z))
  {
    hide Sum;
  }

  lemma BracketRoom(run: Run, pins: set<int>, z: int -> real, s: nat, low: real, high: real)
    requires |run.pull| == run.n && Bracketed(run, pins, z, s, low, high)
    ensures var room := RoomAt(Pinned(run, pins), s); forall j :: 0 <= j < run.n ==> low - room(j) <= z(j) <= high + room(j)
  {
    hide Room;
  }

  lemma ListensWell(run: Run, i: nat)
    requires Valid(run) && i < run.n
    ensures |run.pull| == run.n && Distribution(run.n, Row(run.weights, i)) && 0.0 <= run.pull[i] <= 1.0
  {
  }

  lemma FollowsTo(n: nat, w: int -> real, p: real, z: int -> real, room: int -> real, low: real, high: real, v: real, r: real)
    requires Distribution(n, w) && 0.0 <= p <= 1.0 && (p == 1.0 || low <= 0.0 <= high)
    requires forall j :: 0 <= j < n ==> low - room(j) <= z(j) <= high + room(j)
    requires v == p * Sum(n, Weighted(w, z)) && r == p * Sum(n, Weighted(w, room))
    ensures low - r <= v <= high + r
  {
    hide *;
    FollowsOne(n, w, p, z, room, low, high);
  }

  lemma FixedRoomStep(run: Run, pins: set<int>, s: nat, i: nat)
    requires |run.pull| == run.n && i < run.n && i !in pins
    ensures var fixed := Pinned(run, pins);
      Room(fixed, s + 1, i) == run.pull[i] * Sum(run.n, Weighted(Row(run.weights, i), RoomAt(fixed, s)))
  {
    hide Room, Sum;
    RoomStep(Pinned(run, pins), s, i);
  }

  // ---- the steps ----

  function StepAt(run: Run, t: nat, c: int): int -> real
    requires |run.pull| == run.n
  {
    GapAt(After(run, t + 1), After(run, t), c)
  }

  function GapAt(x: Matrix, y: Matrix, c: int): int -> real {
    j => At(x, j, c) - At(y, j, c)
  }

  lemma StepFollows(run: Run, t: nat, i: nat, c: nat)
    requires |run.pull| == run.n && i < run.n && c < run.m
    ensures Follows(run, StepAt(run, t, c), StepAt(run, t + 1, c), i)
  {
    var (x, y) := (After(run, t + 1), After(run, t));
    assert After(run, t + 1 + 1) == Next(run, x) && x == Next(run, y);
    hide After, Sum, Next;
    NextAt(run, x, i, c);
    NextAt(run, y, i, c);
    HeardApart(run, x, y, i, c);
    Regain(run.pull[i], Heard(run.weights, x, run.n, i, c), Heard(run.weights, y, run.n, i, c), At(run.start, i, c));
  }

  lemma HeardApart(run: Run, x: Matrix, y: Matrix, i: nat, c: nat)
    ensures Sum(run.n, Weighted(Row(run.weights, i), GapAt(x, y, c)))
      == 1.0 * Heard(run.weights, x, run.n, i, c) + -1.0 * Heard(run.weights, y, run.n, i, c)
  {
    hide At;
    var w := Row(run.weights, i);
    SumLinear(run.n, 1.0, Weighted(w, Col(x, c)), -1.0, Weighted(w, Col(y, c)), Weighted(w, GapAt(x, y, c)));
  }

  lemma Regain(p: real, a: real, b: real, start: real)
    ensures (p * a + (1.0 - p) * start) - (p * b + (1.0 - p) * start) == p * (1.0 * a + -1.0 * b)
  {
  }

  /// From this round on the pinned agents move no farther than `slack`.
  ghost predicate PinsRest(run: Run, pins: set<int>, slack: real, from: nat, c: int)
    requires |run.pull| == run.n
  {
    forall t: nat, i :: t >= from && i in pins && 0 <= i < run.n ==> -slack <= StepAt(run, t, c)(i) <= slack
  }

  lemma {:induction false} StepsFollow(run: Run, pins: set<int>, slack: real, from: nat, c: nat, s: nat)
    requires Valid(run) && c < run.m && slack >= 0.0 && PinsRest(run, pins, slack, from, c)
    ensures Bracketed(run, pins, StepAt(run, from + s, c), s, -slack, slack)
  {
    hide *;
    assert |run.pull| == run.n by { HasPulls(run); }
    if s == 0 {
      FirstStep(run, pins, slack, from, c);
    } else {
      StepsFollow(run, pins, slack, from, c, s - 1);
      NextFollows(run, pins, slack, from, c, from + (s - 1), s - 1);
      assert from + (s - 1) + 1 == from + s && s - 1 + 1 == s;
    }
  }

  lemma NextFollows(run: Run, pins: set<int>, slack: real, from: nat, c: nat, t: nat, s: nat)
    requires Valid(run) && c < run.m && slack >= 0.0 && PinsRest(run, pins, slack, from, c) && t >= from
    requires Bracketed(run, pins, StepAt(run, t, c), s, -slack, slack)
    ensures Bracketed(run, pins, StepAt(run, t + 1, c), s + 1, -slack, slack)
  {
    assert |run.pull| == run.n by { HasPulls(run); }
    RestAt(run, pins, slack, from, c, t + 1);
    hide *;
    forall i | 0 <= i < run.n && i !in pins ensures Follows(run, StepAt(run, t, c), StepAt(run, t + 1, c), i) {
      StepFollows(run, t, i, c);
    }
    FollowStep(run, pins, StepAt(run, t, c), StepAt(run, t + 1, c), s, -slack, slack);
  }

  lemma RestAt(run: Run, pins: set<int>, slack: real, from: nat, c: int, t: nat)
    requires |run.pull| == run.n && PinsRest(run, pins, slack, from, c) && t >= from
    ensures forall i :: i in pins && 0 <= i < run.n ==> -slack <= StepAt(run, t, c)(i) <= slack
  {
    hide StepAt;
  }

  lemma FirstStep(run: Run, pins: set<int>, slack: real, t: nat, c: nat)
    requires Valid(run) && c < run.m && slack >= 0.0
    ensures Bracketed(run, pins, StepAt(run, t, c), 0, -slack, slack)
  {
    StepsStayWithinTheRoom(run, t);
    RoomInRange(run, t);
    hide After, At, Valid;
    forall i | 0 <= i < run.n ensures -slack - 1.0 <= StepAt(run, t, c)(i) <= slack + 1.0 {
      assert 0.0 <= Room(run, t, i) <= 1.0;
    }
    assert forall i :: Room(Pinned(run, pins), 0, i) == 1.0;
  }

  // ---- a run settles ----

  /// The stopping rule is met in this round, whatever the ballots.
  ghost predicate StopsForAll(run: Run, settling: Settling, tolerance: real, r: nat)
    requires |run.pull| == run.n > 0
  {
    forall other: Run :: SameTrust(run, other) && Valid(other) ==> Stops(other, settling, tolerance, r)
  }

  /// The members of the closed groups without an anchor.
  ghost function Pins(run: Run, comps: seq<seq<int>>): set<int>
    requires |run.pull| == run.n
  {
    set i | i in Everyone(run.n) && InFree(run, comps, i)
  }

  /// Once they stand still, everyone hears an anchor.
  lemma PinnedAreHeard(run: Run, comps: seq<seq<int>>, i: nat)
    requires Valid(run) && Components(GraphOf(run.weights, run.n), comps) && i < run.n
    ensures HearsAnAnchor(Pinned(run, Pins(run, comps)), i)
  {
    var (g, fixed) := (GraphOf(run.weights, run.n), Pinned(run, Pins(run, comps)));
    var k, w := ClosedGroupWithinReach(g, comps, i);
    assert Node(g, w) && 0 <= w < run.n;
    assert GraphOf(fixed.weights, fixed.n) == g;
    if FreeAt(run, comps, k) {
      assert InFree(run, comps, w);
      assert fixed.pull[w] == 0.0;
    } else {
      var a :| a in comps[k] && 0 <= a < run.n && run.pull[a] != 1.0;
      assert Linked(g, w, a);
      hide Linked;
      LinkedTwice(g, i, w, a);
      assert fixed.pull[a] < 1.0;
    }
  }

  lemma NarrowRests(run: Run, group: set<int>, c: nat, t: nat, width: real)
    requires Valid(run) && ClosedFree(run, group) && c < run.m && Narrow(run, group, c, t, width)
    ensures forall i :: i in group ==> -width <= StepAt(run, t, c)(i) <= width
  {
    hide Valid, ClosedFree, After, At;
    assert |run.pull| == run.n by { HasPulls(run); }
    var low, high :| GroupWithin(run, group, c, t, low, high) && high - low <= width;
    StaysWithin(run, group, c, t, low, high);
  }

  lemma PinsComeToRest(run: Run, comps: seq<seq<int>>, other: Run, width: real, from: nat, c: nat)
    requires Valid(run) && Components(GraphOf(run.weights, run.n), comps)
    requires forall k :: FreeAt(run, comps, k) ==> NarrowFrom(run, comps, k, width, from)
    requires SameTrust(run, other) && Valid(other) && c < other.m
    ensures |other.pull| == other.n && PinsRest(other, Pins(run, comps), width, from, c)
  {
    assert |run.pull| == run.n by { HasPulls(run); }
    assert |other.pull| == other.n by { HasPulls(other); }
    hide Valid, Components, FreeAt, StepAt, ClosedFree, Narrow;
    forall t: nat, i | t >= from && i in Pins(run, comps) && 0 <= i < other.n
      ensures -width <= StepAt(other, t, c)(i) <= width
    {
      var k :| FreeAt(run, comps, k) && i in comps[k];
      FreeIsGroup(run, comps, k);
      SameGroup(run, other, Elems(comps[k]));
      assert NarrowFrom(run, comps, k, width, from);
      assert Narrow(other, Elems(comps[k]), c, t, width);
      NarrowRests(other, Elems(comps[k]), c, t, width);
    }
  }

  lemma SamePinned(run: Run, other: Run, pins: set<int>)
    requires |run.pull| == run.n && SameTrust(run, other)
    ensures |other.pull| == other.n && SameTrust(Pinned(run, pins), Pinned(other, pins))
  {
  }

  lemma BracketStops(run: Run, settling: Settling, tolerance: real, t: nat, d: real)
    requires Valid(run) && run.n > 0 && settling != Agreed && 0.0 <= d < tolerance
    requires forall c, i :: 0 <= c < run.m && 0 <= i < run.n ==> -d <= StepAt(run, t, c)(i) <= d
    ensures Stops(run, settling, tolerance, t + 1)
  {
    hide After, At, StepSize;
    forall i, c | 0 <= i < run.n && 0 <= c < run.m
      ensures -d <= At(After(run, t + 1), i, c) - At(After(run, t), i, c) <= d
    {
      assert StepAt(run, t, c)(i) == At(After(run, t + 1), i, c) - At(After(run, t), i, c);
    }
    assert Within(After(run, t + 1), After(run, t), run.n, run.m, d);
    StepIsTheLargestMove(After(run, t), After(run, t + 1), run.n, run.m, d);
  }

  /// One run settles once its pinned agents rest and the room has gone.
  lemma SettlesByThen(run: Run, pins: set<int>, settling: Settling, tolerance: real, slack: real, from: nat, s: nat, d: real)
    requires Valid(run) && run.n > 0 && settling != Agreed && 0.0 <= slack && 0.0 <= d && slack + d < tolerance
    requires forall c: nat :: c < run.m ==> PinsRest(run, pins, slack, from, c)
    requires forall i :: 0 <= i < run.n ==> Room(Pinned(run, pins), s, i) <= d
    ensures Stops(run, settling, tolerance, from + s + 1)
  {
    assert |run.pull| == run.n by { HasPulls(run); }
    hide Valid, StepAt, PinsRest, Room, Stops;
    var t := from + s;
    forall c, i | 0 <= c < run.m && 0 <= i < run.n ensures -(slack + d) <= StepAt(run, t, c)(i) <= slack + d {
      StepsFollow(run, pins, slack, from, c, s);
    }
    BracketStops(run, settling, tolerance, t, slack + d);
  }

  lemma MixedSettles(run: Run, comps: seq<seq<int>>, settling: Settling, tolerance: real) returns (r: nat)
    requires Valid(run) && run.n > 0 && Components(GraphOf(run.weights, run.n), comps) && settling != Agreed
    requires FreeGroupsMix(run, comps) && tolerance > 0.0
    ensures StopsForAll(run, settling, tolerance, r)
  {
    assert |run.pull| == run.n by { HasPulls(run); }
    var half := tolerance / 2.0;
    var pins := Pins(run, comps);
    hide *;
    var from := AllDrawTogether(run, comps, half, |comps|);
    forall k | FreeAt(run, comps, k) ensures NarrowFrom(run, comps, k, half, from) { FreeInRange(run, comps, k); }
    PinnedIsValid(run, pins);
    PinnedParts(run, pins);
    forall i | 0 <= i < run.n ensures HearsAnAnchor(Pinned(run, pins), i) { PinnedAreHeard(run, comps, i); }
    var s, d := RoomVanishes(Pinned(run, pins), half);
    r := from + s + 1;
    forall other: Run | SameTrust(run, other) && Valid(other) ensures Stops(other, settling, tolerance, r) {
      OtherSettles(run, comps, other, settling, tolerance, from, s, d);
    }
    assert StopsForAll(run, settling, tolerance, r) by { StoppedForAll(run, settling, tolerance, r); }
  }

  lemma PinnedParts(run: Run, pins: set<int>)
    requires |run.pull| == run.n
    ensures Pinned(run, pins).n == run.n && |Pinned(run, pins).pull| == run.n
  {
  }

  lemma StoppedForAll(run: Run, settling: Settling, tolerance: real, r: nat)
    requires |run.pull| == run.n > 0
    requires forall other: Run | SameTrust(run, other) && Valid(other) :: Stops(other, settling, tolerance, r)
    ensures StopsForAll(run, settling, tolerance, r)
  {
  }

  lemma OtherSettles(run: Run, comps: seq<seq<int>>, other: Run, settling: Settling, tolerance: real, from: nat, s: nat, d: real)
    requires Valid(run) && run.n > 0 && Components(GraphOf(run.weights, run.n), comps) && settling != Agreed
    requires forall k :: FreeAt(run, comps, k) ==> NarrowFrom(run, comps, k, tolerance / 2.0, from)
    requires |run.pull| == run.n && 0.0 <= d < tolerance / 2.0
    requires forall i :: 0 <= i < run.n ==> Room(Pinned(run, Pins(run, comps)), s, i) <= d
    requires SameTrust(run, other) && Valid(other)
    ensures |other.pull| == other.n > 0 && Stops(other, settling, tolerance, from + s + 1)
  {
    assert |other.pull| == other.n == run.n by { HasPulls(other); }
    var (pins, half) := (Pins(run, comps), tolerance / 2.0);
    hide Valid, Components, FreeAt, NarrowFrom, Room, Pins, PinsRest, Stops;
    forall c: nat | c < other.m ensures PinsRest(other, pins, half, from, c) {
      PinsComeToRest(run, comps, other, half, from, c);
    }
    SamePinned(run, other, pins);
    forall i | 0 <= i < other.n ensures Room(Pinned(other, pins), s, i) <= d {
      SameRoom(Pinned(run, pins), Pinned(other, pins), s, i);
    }
    SettlesByThen(other, pins, settling, tolerance, half, from, s, d);
  }

  /// A first step is at most one.
  lemma LargeToleranceSettles(run: Run, settling: Settling, tolerance: real)
    requires Valid(run) && run.n > 0 && settling != Agreed && tolerance > 1.0
    ensures StopsForAll(run, settling, tolerance, 1)
  {
    hide After, At, StepSize, Room;
    forall other: Run | SameTrust(run, other) && Valid(other) ensures Stops(other, settling, tolerance, 1) {
      StepsStayWithinTheRoom(other, 0);
      RoomAtStart(other);
      BracketStops(other, settling, tolerance, 0, 1.0);
    }
  }

  lemma RoomAtStart(run: Run)
    requires |run.pull| == run.n
    ensures forall i :: Room(run, 0, i) == 1.0
  {
  }

  lemma UnmixedNeverSettles(run: Run, comps: seq<seq<int>>, settling: Settling, tolerance: real)
    requires Valid(run) && run.n > 0 && Components(GraphOf(run.weights, run.n), comps) && tolerance <= 1.0
    requires !FreeGroupsMix(run, comps)
    ensures forall r: nat :: !StopsForAll(run, settling, tolerance, r)
  {
    assert |run.pull| == run.n by { HasPulls(run); }
    var k :| FreeAt(run, comps, k) && !IsPeriod(GraphOf(run.weights, run.n), Elems(comps[k]), 1);
    var p := FreePeriod(run, comps, k);
    FreeIsGroup(run, comps, k);
    FreeParts(run, comps, k);
    hide *;
    assert p != 1;
    var phase := PeriodicBallots(run, Elems(comps[k]), comps[k][0], p);
    var turns := Voting(run, i => phase(i) % p == 0);
    VotingIsSame(run, i => phase(i) % p == 0);
    forall r: nat ensures !StopsForAll(run, settling, tolerance, r) {
      assert !Stops(turns, settling, tolerance, r);
      NotForAll(run, turns, settling, tolerance, r);
    }
  }

  lemma FreeParts(run: Run, comps: seq<seq<int>>, k: int)
    requires Valid(run) && Components(GraphOf(run.weights, run.n), comps) && |run.pull| == run.n && FreeAt(run, comps, k)
    ensures Closed(run.weights, run.n, Elems(comps[k]))
    ensures forall i :: i in Elems(comps[k]) ==> 0 <= i < run.n && run.pull[i] == 1.0
  {
    FreeIsGroup(run, comps, k);
  }

  lemma VotingIsSame(run: Run, yes: int -> bool)
    ensures SameTrust(run, Voting(run, yes))
  {
  }

  lemma NotForAll(run: Run, other: Run, settling: Settling, tolerance: real, r: nat)
    requires |run.pull| == run.n > 0 && SameTrust(run, other) && Valid(other) && !Stops(other, settling, tolerance, r)
    ensures !StopsForAll(run, settling, tolerance, r)
  {
    hide Stops, Valid;
  }

  /**
   A run that stops by the size of its step has a round by which it has stopped
   on all ballots exactly when every closed group without an anchor has period
   one; a tolerance above one is met by any first round.
   */
  lemma SettlesExactly(run: Run, comps: seq<seq<int>>, settling: Settling, tolerance: real)
    requires Valid(run) && run.n > 0 && Components(GraphOf(run.weights, run.n), comps)
    requires settling != Agreed && tolerance > 0.0
    ensures (exists r: nat :: StopsForAll(run, settling, tolerance, r)) <==> tolerance > 1.0 || FreeGroupsMix(run, comps)
  {
    assert |run.pull| == run.n by { HasPulls(run); }
    hide *;
    if tolerance > 1.0 {
      LargeToleranceSettles(run, settling, tolerance);
    } else if FreeGroupsMix(run, comps) {
      var r := MixedSettles(run, comps, settling, tolerance);
    } else {
      UnmixedNeverSettles(run, comps, settling, tolerance);
    }
  }

  // ---- a run agrees ----

  /// One closed group, and that of period one.
  ghost predicate OneGroupMixes(run: Run, comps: seq<seq<int>>) {
    var g := GraphOf(run.weights, run.n);
    exists k :: OnlyClosed(g, comps, k) && IsPeriod(g, Elems(comps[k]), 1)
  }

  lemma OpinionFollows(run: Run, t: nat, i: nat, c: nat)
    requires Valid(run) && i < run.n && c < run.m && run.pull[i] == 1.0
    ensures Follows(run, Col(After(run, t), c), Col(After(run, t + 1), c), i)
  {
    hide After, Sum;
    FreeNext(run, t, i, c);
  }

  lemma {:induction false} OpinionsFollow(run: Run, group: set<int>, c: nat, from: nat, s: nat, low: real, high: real)
    requires Unanchored(run) && ClosedFree(run, group) && c < run.m && GroupWithin(run, group, c, from, low, high)
    requires low <= 1.0 && 0.0 <= high
    ensures Bracketed(run, group, Col(After(run, from + s), c), s, low, high)
  {
    assert |run.pull| == run.n by { HasPulls(run); }
    if s == 0 {
      OpinionsStayDistributions(run, from);
      hide After;
      forall i | 0 <= i < run.n ensures 0.0 <= At(After(run, from), i, c) <= 1.0 {
        SharesAreAtMostOne(After(run, from), run.n, run.m, i);
      }
      RoomAtStart(Pinned(run, group));
    } else {
      OpinionsFollow(run, group, c, from, s - 1, low, high);
      hide *;
      NextOpinionFollows(run, group, c, from, from + (s - 1), s - 1, low, high);
      assert from + (s - 1) + 1 == from + s && s - 1 + 1 == s;
    }
  }

  lemma NextOpinionFollows(run: Run, group: set<int>, c: nat, from: nat, t: nat, s: nat, low: real, high: real)
    requires Unanchored(run) && ClosedFree(run, group) && c < run.m && GroupWithin(run, group, c, from, low, high) && t >= from
    requires Bracketed(run, group, Col(After(run, t), c), s, low, high)
    ensures Bracketed(run, group, Col(After(run, t + 1), c), s + 1, low, high)
  {
    assert |run.pull| == run.n && Valid(run) && forall i :: 0 <= i < run.n ==> run.pull[i] == 1.0;
    hide After, Follows, Bracketed, ClosedFree, Valid;
    StaysWithinLater(run, group, c, from, t + 1, low, high);
    forall i | 0 <= i < run.n && i !in group ensures Follows(run, Col(After(run, t), c), Col(After(run, t + 1), c), i) {
      OpinionFollows(run, t, i, c);
    }
    FollowStep(run, group, Col(After(run, t), c), Col(After(run, t + 1), c), s, low, high);
  }

  lemma NarrowBrackets(run: Run, group: set<int>, root: int, c: nat, from: nat, width: real, s: nat) returns (low: real, high: real)
    requires Unanchored(run) && ClosedFree(run, group) && root in group && c < run.m && Narrow(run, group, c, from, width)
    ensures high - low <= width && Bracketed(run, group, Col(After(run, from + s), c), s, low, high)
  {
    low, high :| GroupWithin(run, group, c, from, low, high) && high - low <= width;
    OpinionsStayDistributions(run, from);
    SharesAreAtMostOne(After(run, from), run.n, run.m, root);
    hide After;
    assert low <= At(After(run, from), root, c) <= high;
    hide *;
    OpinionsFollow(run, group, c, from, s, low, high);
  }

  lemma BracketAgrees(run: Run, group: set<int>, c: nat, t: nat, s: nat, low: real, high: real, d: real)
    requires Valid(run) && run.n > 0 && Bracketed(run, group, Col(After(run, t), c), s, low, high)
    requires forall i :: 0 <= i < run.n ==> Room(Pinned(run, group), s, i) <= d
    ensures Gap(After(run, t), run.n, c) <= high - low + 2.0 * d
  {
    hide After, Room, Gap;
    forall i | 0 <= i < run.n ensures low - d <= At(After(run, t), i, c) <= high + d {
      assert Col(After(run, t), c)(i) == At(After(run, t), i, c);
    }
    GapAtMost(After(run, t), run.n, c, low - d, high + d);
  }

  lemma AgreesByThen(run: Run, group: set<int>, root: int, tolerance: real, width: real, from: nat, s: nat, d: real)
    requires Unanchored(run) && run.n > 0 && ClosedFree(run, group) && root in group && 0.0 <= d && 0.0 <= width
    requires width + 2.0 * d < tolerance && forall c: nat :: c < run.m ==> Narrow(run, group, c, from, width)
    requires forall i :: 0 <= i < run.n ==> Room(Pinned(run, group), s, i) <= d
    ensures Stops(run, Agreed, tolerance, from + s)
  {
    assert Valid(run) && |run.pull| == run.n;
    var t := from + s;
    hide After, Gap, Valid, Room, Narrow, ClosedFree, Unanchored, Spread, Bracketed;
    forall c | 0 <= c < run.m ensures Gap(After(run, t), run.n, c) <= width + 2.0 * d {
      var low, high := NarrowBrackets(run, group, root, c, from, width, s);
      BracketAgrees(run, group, c, t, s, low, high, d);
    }
    SpreadAtMost(After(run, t), run.n, run.m, width + 2.0 * d);
  }

  /// With one closed group everyone hears it.
  lemma OnlyGroupIsHeard(run: Run, comps: seq<seq<int>>, k: int, i: nat)
    requires |run.pull| == run.n && Components(GraphOf(run.weights, run.n), comps) && i < run.n
    requires OnlyClosed(GraphOf(run.weights, run.n), comps, k)
    ensures HearsAnAnchor(Pinned(run, Elems(comps[k])), i)
  {
    var (g, fixed) := (GraphOf(run.weights, run.n), Pinned(run, Elems(comps[k])));
    hide Linked;
    FirstMember(g, comps, k);
    var a := comps[k][0];
    OnlyClosedIsReached(g, comps, k, i, a);
    assert GraphOf(fixed.weights, fixed.n) == g;
    assert fixed.pull[a] == 0.0;
  }

  lemma OnlyIsFree(run: Run, comps: seq<seq<int>>, k: int)
    requires Unanchored(run) && Components(GraphOf(run.weights, run.n), comps) && OnlyClosed(GraphOf(run.weights, run.n), comps, k)
    ensures |run.pull| == run.n && 0 <= k < |comps| && FreeAt(run, comps, k) && comps[k] != []
  {
  }

  lemma SameUnanchored(run: Run, other: Run)
    requires Unanchored(run) && SameTrust(run, other) && Valid(other)
    ensures Unanchored(other)
  {
  }

  lemma OneMixedAgrees(run: Run, comps: seq<seq<int>>, k: int, tolerance: real) returns (r: nat)
    requires Unanchored(run) && |run.pull| == run.n > 0 && Components(GraphOf(run.weights, run.n), comps) && tolerance > 0.0
    requires OnlyClosed(GraphOf(run.weights, run.n), comps, k) && IsPeriod(GraphOf(run.weights, run.n), Elems(comps[k]), 1)
    ensures StopsForAll(run, Agreed, tolerance, r)
  {
    var third := tolerance / 3.0;
    assert Valid(run) && |run.pull| == run.n;
    OnlyIsFree(run, comps, k);
    FreeIsGroup(run, comps, k);
    var (group, root) := (Elems(comps[k]), comps[k][0]);
    hide *;
    var from := FreeDrawsTogether(run, comps, k, third);
    PinnedIsValid(run, group);
    PinnedParts(run, group);
    forall i | 0 <= i < run.n ensures HearsAnAnchor(Pinned(run, group), i) { OnlyGroupIsHeard(run, comps, k, i); }
    var s, d := RoomVanishes(Pinned(run, group), third);
    r := from + s;
    forall other: Run | SameTrust(run, other) && Valid(other) ensures Stops(other, Agreed, tolerance, r) {
      SameUnanchored(run, other);
      SameGroup(run, other, group);
      SameSize(run, other);
      forall c: nat | c < other.m ensures Narrow(other, group, c, from, third) {}
      OtherAgrees(run, other, group, root, tolerance, third, from, s, d);
    }
    StoppedForAll(run, Agreed, tolerance, r);
  }

  lemma OtherAgrees(run: Run, other: Run, group: set<int>, root: int, tolerance: real, third: real, from: nat, s: nat, d: real)
    requires |run.pull| == run.n && SameTrust(run, other) && Unanchored(other) && |other.pull| == other.n == run.n > 0
    requires ClosedFree(other, group) && root in group && 0.0 <= d < third && third == tolerance / 3.0
    requires forall c: nat :: c < other.m ==> Narrow(other, group, c, from, third)
    requires forall i :: 0 <= i < run.n ==> Room(Pinned(run, group), s, i) <= d
    ensures Stops(other, Agreed, tolerance, from + s)
  {
    hide *;
    SamePinned(run, other, group);
    SameTrustParts(Pinned(run, group), Pinned(other, group));
    PinnedParts(run, group);
    forall i | 0 <= i < other.n ensures Room(Pinned(other, group), s, i) <= d {
      SameRoom(Pinned(run, group), Pinned(other, group), s, i);
    }
    AgreesByThen(other, group, root, tolerance, third, from, s, d);
  }

  lemma SameSize(run: Run, other: Run)
    requires SameTrust(run, other)
    ensures other.n == run.n
  {
  }

  lemma SameTrustParts(run: Run, other: Run)
    requires SameTrust(run, other)
    ensures other == run.(m := other.m, start := other.start)
  {
  }

  lemma LargeToleranceAgrees(run: Run, tolerance: real)
    requires Valid(run) && run.n > 0 && tolerance > 1.0
    ensures StopsForAll(run, Agreed, tolerance, 0)
  {
    hide Spread, Gap;
    forall other: Run | SameTrust(run, other) && Valid(other) ensures Stops(other, Agreed, tolerance, 0) {
      forall c | 0 <= c < other.m ensures Gap(other.start, other.n, c) <= 1.0 {
        forall i | 0 <= i < other.n ensures 0.0 <= At(other.start, i, c) <= 1.0 {
          SharesAreAtMostOne(other.start, other.n, other.m, i);
        }
        GapAtMost(other.start, other.n, c, 0.0, 1.0);
      }
      SpreadAtMost(other.start, other.n, other.m, 1.0);
    }
  }

  lemma DividedNeverAgreesForAll(run: Run, comps: seq<seq<int>>, k: int, l: int, tolerance: real)
    requires Valid(run) && run.n > 0 && tolerance <= 1.0 && k != l
    requires var g := GraphOf(run.weights, run.n); Components(g, comps) && ClosedAt(g, comps, k) && ClosedAt(g, comps, l)
    ensures |run.pull| == run.n && forall r: nat :: !StopsForAll(run, Agreed, tolerance, r)
  {
    HasPulls(run);
    var split := DividedBallots(run, comps, k, l);
    VotingIsSame(run, i => 0 <= k < |comps| && i in comps[k]);
    hide *;
    forall r: nat ensures !StopsForAll(run, Agreed, tolerance, r) {
      assert !Stops(split, Agreed, tolerance, r);
      NotForAll(run, split, Agreed, tolerance, r);
    }
  }

  lemma UnmixedNeverAgrees(run: Run, comps: seq<seq<int>>, tolerance: real)
    requires Unanchored(run) && run.n > 0 && Components(GraphOf(run.weights, run.n), comps) && tolerance <= 1.0
    requires !OneGroupMixes(run, comps)
    ensures |run.pull| == run.n && forall r: nat :: !StopsForAll(run, Agreed, tolerance, r)
  {
    assert Valid(run) && |run.pull| == run.n;
    var g := GraphOf(run.weights, run.n);
    hide Components, ClosedAt, Valid, StopsForAll, IsPeriod, Unanchored, FreeAt, FreeGroupsMix;
    var k, w := ClosedGroupWithinReach(g, comps, 0);
    if l :| ClosedAt(g, comps, l) && l != k {
      DividedNeverAgreesForAll(run, comps, k, l, tolerance);
    } else {
      OnlyIsFree(run, comps, k);
      NotMixed(run, comps, k);
      UnmixedNeverSettles(run, comps, Agreed, tolerance);
    }
  }

  lemma NotMixed(run: Run, comps: seq<seq<int>>, k: int)
    requires |run.pull| == run.n && FreeAt(run, comps, k) && OnlyClosed(GraphOf(run.weights, run.n), comps, k)
    requires !OneGroupMixes(run, comps)
    ensures !FreeGroupsMix(run, comps)
  {
    hide IsPeriod;
  }

  /**
   An unanchored run has a round by which everyone agrees on all ballots exactly
   when the trust graph is what the program calls convergent; a tolerance above
   one is met by the ballots themselves.
   */
  lemma AgreesExactly(run: Run, comps: seq<seq<int>>, tolerance: real)
    requires Unanchored(run) && |run.pull| == run.n > 0 && Components(GraphOf(run.weights, run.n), comps) && tolerance > 0.0
    ensures var g := GraphOf(run.weights, run.n);
      (exists r: nat :: StopsForAll(run, Agreed, tolerance, r)) <==>
      tolerance > 1.0 || exists k :: OnlyClosed(g, comps, k) && IsPeriod(g, Elems(comps[k]), 1)
  {
    assert Valid(run);
    hide StopsForAll, OnlyClosed, IsPeriod, Components, Unanchored, Valid;
    if tolerance > 1.0 {
      LargeToleranceAgrees(run, tolerance);
    } else if k :| OnlyClosed(GraphOf(run.weights, run.n), comps, k) && IsPeriod(GraphOf(run.weights, run.n), Elems(comps[k]), 1) {
      var r := OneMixedAgrees(run, comps, k, tolerance);
    } else {
      UnmixedNeverAgrees(run, comps, tolerance);
    }
  }
}
