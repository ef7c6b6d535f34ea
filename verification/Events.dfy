/**
 The change log and its generation counter (`emit_in`, `generation_in`,
 `since_in` and `since_filtered_in`, `crates/vissue-core/src/events.rs`). Each
 call holds the directory's lock throughout, so processes interleave call by
 call.
 */
module Events {
  import opened Base

  const MAX_SEQ: nat := 0xFFFF_FFFF_FFFF_FFFF
  const DEBOUNCE_MS := 2000
  const ISSUES_WRITE := "issues_write"

  /// What a caller reports.
  datatype Draft = Draft(ts: nat, kind: string, project: Option<string>, id: Option<string>, path: Option<string>,
                         detail: Option<string>)

  datatype Event = Event(seqNo: nat, draft: Draft)

  /// A line of the log; `None` for one that is blank or is not an event.
  type Line = Option<Event>

  /// The two files of a directory.
  datatype Dir = Dir(gen: nat, log: seq<Line>)

  /// What a process remembers: its highest sequence, over all directories, and
  /// when it last reported a write in each.
  datatype Proc = Proc(lastSeq: nat, lastEmit: map<string, nat>)

  datatype World = World(dirs: map<string, Dir>, procs: map<string, Proc>)

  datatype Action =
    | Emit(pid: string, dir: string, draft: Draft, nowMs: nat)
    | Poll(pid: string, dir: string)

  function Larger(a: nat, b: nat): nat {
    if a < b then b else a
  }

  function NextSeq(prev: nat): nat {
    if prev < MAX_SEQ then prev + 1 else MAX_SEQ
  }

  /// Whether a burst of writes leaves this one out of the log.
  predicate Debounced(p: Proc, dir: string, draft: Draft, nowMs: nat) {
    var previous := Get(p.lastEmit, dir).GetOr(0);
    draft.kind == ISSUES_WRITE && previous > 0 && nowMs < previous + DEBOUNCE_MS
  }

  function Emitted(d: Dir, p: Proc, dir: string, draft: Draft, nowMs: nat): (Dir, Proc) {
    var n := NextSeq(Larger(d.gen, p.lastSeq));
    var emits := if draft.kind == ISSUES_WRITE then p.lastEmit[dir := nowMs] else p.lastEmit;
    (Dir(n, if Debounced(p, dir, draft, nowMs) then d.log else d.log + [Some(Event(n, draft))]), Proc(n, emits))
  }

  function DirOf(w: World, dir: string): Dir {
    Get(w.dirs, dir).GetOr(Dir(0, []))
  }

  function ProcOf(w: World, pid: string): Proc {
    Get(w.procs, pid).GetOr(Proc(0, map[]))
  }

  function Step(w: World, a: Action): World {
    match a
    case Emit(pid, dir, draft, nowMs) =>
      var (d, p) := Emitted(DirOf(w, dir), ProcOf(w, pid), dir, draft, nowMs);
      World(w.dirs[dir := d], w.procs[pid := p])
    case Poll(pid, dir) =>
      var p := ProcOf(w, pid);
      w.(procs := w.procs[pid := p.(lastSeq := Larger(p.lastSeq, DirOf(w, dir).gen))])
  }

  function Run(w: World, actions: seq<Action>): World
    decreases |actions|
  {
    if actions == [] then w else Run(Step(w, actions[0]), actions[1..])
  }

  /// The sequences the emits into one directory returned, in order.
  function Returned(w: World, actions: seq<Action>, dir: string): seq<nat>
    decreases |actions|
  {
    if actions == [] then []
    else
      var next := Step(w, actions[0]);
      (if actions[0].Emit? && actions[0].dir == dir then [DirOf(next, dir).gen] else []) + Returned(next, actions[1..], dir)
  }

  // ---- the same on the files and the process ----

  class EventFiles {
    var gen: nat
    var log: seq<Line>

    constructor ()
      ensures Value() == Dir(0, [])
    {
      gen, log := 0, [];
    }

    function Value(): Dir
      reads this
    {
      Dir(gen, log)
    }
  }

  class Process {
    var lastSeq: nat
    var lastEmit: map<string, nat>

    constructor ()
      ensures Value() == Proc(0, map[])
    {
      lastSeq, lastEmit := 0, map[];
    }

    function Value(): Proc
      reads this
    {
      Proc(lastSeq, lastEmit)
    }

    /// `emit_in`, under the directory's lock.
    method EmitIn(files: EventFiles, dir: string, draft: Draft, nowMs: nat) returns (seqNo: nat)
      modifies this, files
      ensures (files.Value(), Value()) == Emitted(old(files.Value()), old(Value()), dir, draft, nowMs)
      ensures seqNo == files.gen
    {
      seqNo := NextSeq(Larger(files.gen, lastSeq));
      lastSeq := seqNo;
      if draft.kind == ISSUES_WRITE {
        var previous := Get(lastEmit, dir).GetOr(0);
        lastEmit := lastEmit[dir := nowMs];
        if previous > 0 && nowMs < previous + DEBOUNCE_MS {
          files.gen := seqNo;
          return;
        }
      }
      files.log := files.log + [Some(Event(seqNo, draft))];
      files.gen := seqNo;
    }

    /// `generation_in`: reading the counter also remembers it.
    method GenerationIn(files: EventFiles) returns (g: nat)
      modifies this
      ensures g == files.gen && lastSeq == Larger(old(lastSeq), g) && lastEmit == old(lastEmit)
    {
      g := files.gen;
      lastSeq := Larger(lastSeq, g);
    }
  }

  // ---- what the log holds ----

  function EventsOf(log: seq<Line>): seq<Event> {
    if log == [] then []
    else EventsOf(log[..|log| - 1]) + (match log[|log| - 1] case Some(e) => [e] case None => [])
  }

  /// Sequences strictly increase along the log and the counter is at the last
  /// or past it.
  ghost predicate InOrder(d: Dir) {
    && (forall i, j :: 0 <= i < j < |EventsOf(d.log)| ==> EventsOf(d.log)[i].seqNo < EventsOf(d.log)[j].seqNo)
    && forall i :: 0 <= i < |EventsOf(d.log)| ==> EventsOf(d.log)[i].seqNo <= d.gen
  }

  ghost predicate Good(w: World) {
    forall dir :: dir in w.dirs ==> InOrder(w.dirs[dir])
  }

  /// No counter, in a file or remembered, is past the bound.
  ghost predicate Below(w: World, bound: nat) {
    && (forall dir :: dir in w.dirs ==> w.dirs[dir].gen <= bound)
    && forall pid :: pid in w.procs ==> w.procs[pid].lastSeq <= bound
  }

  lemma EventsOfAppend(log: seq<Line>, e: Event)
    ensures EventsOf(log + [Some(e)]) == EventsOf(log) + [e]
  {
    assert (log + [Some(e)])[..|log|] == log;
  }

  lemma EmitKeepsOrder(d: Dir, p: Proc, dir: string, draft: Draft, nowMs: nat)
    requires InOrder(d) && Larger(d.gen, p.lastSeq) < MAX_SEQ
    ensures var (e, q) := Emitted(d, p, dir, draft, nowMs);
      InOrder(e) && e.gen > d.gen && e.gen > p.lastSeq && e.gen == q.lastSeq
  {
    EventsOfAppend(d.log, Event(NextSeq(Larger(d.gen, p.lastSeq)), draft));
  }

  lemma StepKeepsOrder(w: World, a: Action, bound: nat)
    requires Good(w) && Below(w, bound) && bound < MAX_SEQ
    ensures Good(Step(w, a)) && Below(Step(w, a), bound + 1)
    ensures a.Emit? ==> DirOf(Step(w, a), a.dir).gen > DirOf(w, a.dir).gen
    ensures forall dir :: !(a.Emit? && a.dir == dir) ==> DirOf(Step(w, a), dir) == DirOf(w, dir)
  {
    hide InOrder;
    if a.Emit? {
      EmptyInOrder();
      EmitKeepsOrder(DirOf(w, a.dir), ProcOf(w, a.pid), a.dir, a.draft, a.nowMs);
    }
  }

  lemma EmptyInOrder()
    ensures InOrder(Dir(0, []))
  {
  }

  ghost predicate Increasing(s: seq<nat>, above: nat) {
    && (forall i :: 0 <= i < |s| ==> s[i] > above)
    && forall i, j :: 0 <= i < j < |s| ==> s[i] < s[j]
  }

  /**
   However the processes interleave, and whatever the debounce leaves out, the
   log stays in order, and in each directory every emit returns a sequence above
   all earlier ones; short of the counter's last value.
   */
  lemma {:induction false} EveryRunIsInOrder(w: World, actions: seq<Action>, bound: nat, dir: string)
    requires Good(w) && Below(w, bound) && bound + |actions| <= MAX_SEQ
    ensures Good(Run(w, actions)) && Below(Run(w, actions), bound + |actions|)
    ensures Increasing(Returned(w, actions, dir), DirOf(w, dir).gen)
    ensures DirOf(Run(w, actions), dir).gen >= DirOf(w, dir).gen
    decreases |actions|
  {
    hide Good, Below, Emitted;
    if actions != [] {
      var (next, rest) := (Step(w, actions[0]), actions[1..]);
      StepKeepsOrder(w, actions[0], bound);
      EveryRunIsInOrder(next, rest, bound + 1, dir);
      hide Step, DirOf;
      assert Run(w, actions) == Run(next, rest);
      var here := if actions[0].Emit? && actions[0].dir == dir then [DirOf(next, dir).gen] else [];
      assert Returned(w, actions, dir) == here + Returned(next, rest, dir);
      hide Returned, Run;
      OneMore(here, Returned(next, rest, dir), DirOf(w, dir).gen, DirOf(next, dir).gen);
    }
  }

  lemma OneMore(here: seq<nat>, rest: seq<nat>, before: nat, after: nat)
    requires Increasing(rest, after) && ((here == [] && before <= after) || (here == [after] && before < after))
    ensures Increasing(here + rest, before)
  {
  }

  /// At the counter's last value an emit repeats it.
  lemma LastSequenceRepeats(d: Dir, p: Proc, dir: string, draft: Draft, nowMs: nat)
    requires d.gen <= MAX_SEQ && p.lastSeq <= MAX_SEQ
    ensures Emitted(d, p, dir, draft, nowMs).0.gen > d.gen && Emitted(d, p, dir, draft, nowMs).0.gen > p.lastSeq
      <==> d.gen < MAX_SEQ && p.lastSeq < MAX_SEQ
  {
  }

  /**
   After a reported write, what the same process reports next in that directory
   is left out of the log exactly when it is another write within two seconds;
   the counter goes up either way.
   */
  lemma OnlyBurstsAreLeftOut(d: Dir, p: Proc, dir: string, first: Draft, t1: nat, second: Draft, t2: nat)
    requires first.kind == ISSUES_WRITE && t1 > 0 && Larger(d.gen, p.lastSeq) + 1 < MAX_SEQ
    ensures var (d1, p1) := Emitted(d, p, dir, first, t1);
      var (d2, _) := Emitted(d1, p1, dir, second, t2);
      && d2.gen == d1.gen + 1
      && (d2.log == d1.log <==> second.kind == ISSUES_WRITE && t2 < t1 + 2000)
      && (d2.log != d1.log ==> d2.log == d1.log + [Some(Event(d2.gen, second))])
  {
    var (d1, p1) := Emitted(d, p, dir, first, t1);
    assert Get(p1.lastEmit, dir) == Some(t1);
  }

  /**
   A write left out starts the window anew: as long as each write of a directory
   follows the one before it within two seconds, all but the first are left out.
   */
  lemma ABurstStaysLeftOut(d: Dir, p: Proc, dir: string, second: Draft, t1: nat, t2: nat, third: Draft, t3: nat)
    requires Get(p.lastEmit, dir) == Some(t1) && t1 > 0 && t2 > 0 && t2 < t1 + 2000
    requires second.kind == ISSUES_WRITE && third.kind == ISSUES_WRITE
    ensures var (d1, p1) := Emitted(d, p, dir, second, t2);
      d1.log == d.log && (Emitted(d1, p1, dir, third, t3).0.log == d1.log <==> t3 < t2 + 2000)
  {
    var (d1, p1) := Emitted(d, p, dir, second, t2);
    assert Get(p1.lastEmit, dir) == Some(t2);
  }

  /// The window of one directory holds nothing back in another.
  lemma WindowsAreApart(d: Dir, e: Dir, p: Proc, dir: string, other: string, first: Draft, t1: nat, second: Draft, t2: nat)
    requires dir != other && other !in p.lastEmit
    ensures var p1 := Emitted(d, p, dir, first, t1).1;
      var e1 := Emitted(e, p1, other, second, t2).0;
      e1.log == e.log + [Some(Event(e1.gen, second))]
  {
    var p1 := Emitted(d, p, dir, first, t1).1;
    assert Get(p1.lastEmit, other) == None;
  }

  // ---- what a poller reads ----

  function Newer(events: seq<Event>, since: nat): seq<Event> {
    if events == [] then []
    else (if events[0].seqNo > since then [events[0]] else []) + Newer(events[1..], since)
  }

  function LastOf(events: seq<Event>, n: nat): seq<Event> {
    if |events| <= n then events else events[|events| - n..]
  }

  ghost predicate Ascending(events: seq<Event>) {
    forall i, j :: 0 <= i < j < |events| ==> events[i].seqNo < events[j].seqNo
  }

  lemma {:induction false} NewerIsATail(events: seq<Event>, since: nat) returns (k: nat)
    requires Ascending(events)
    ensures k <= |events| && Newer(events, since) == events[k..]
    ensures forall i :: 0 <= i < |events| ==> (events[i].seqNo > since <==> i >= k)
  {
    if events == [] {
      k := 0;
    } else if events[0].seqNo > since {
      k := 0;
      forall i | 0 <= i < |events| ensures events[i].seqNo > since {}
      AllNewer(events, since);
      assert events[0..] == events;
    } else {
      var rest := NewerIsATail(events[1..], since);
      k := rest + 1;
      assert [] + events[1..][rest..] == events[k..];
      forall i | 0 <= i < |events| ensures events[i].seqNo > since <==> i >= k {
        if i > 0 { assert events[i] == events[1..][i - 1]; }
      }
    }
  }

  lemma BackOne(log: seq<Line>, i: nat, events: seq<Event>, m: nat)
    requires i < |log| && m <= |events| && EventsOf(log[..i + 1]) == events[..m]
    ensures log[i].None? ==> EventsOf(log[..i]) == events[..m]
    ensures log[i].Some? ==> m > 0 && events[m - 1] == log[i].value && EventsOf(log[..i]) == events[..m - 1]
  {
    var (longer, shorter) := (log[..i + 1], log[..i]);
    assert longer[..|longer| - 1] == shorter && longer[|longer| - 1] == log[i];
    if log[i].Some? {
      assert events[..m] == EventsOf(shorter) + [log[i].value];
      assert EventsOf(shorter) == events[..m][..m - 1];
    } else {
      assert EventsOf(shorter) + [] == EventsOf(shorter);
    }
  }

  lemma Tails(events: seq<Event>, k: nat, m: nat, limit: nat)
    requires k <= m < |events|
    ensures [events[m]] + events[m + 1..] == events[m..]
    ensures |events| - m == Larger(limit, 1) ==> LastOf(events[k..], Larger(limit, 1)) == events[m..]
  {
    assert events[k..][m - k..] == events[m..];
  }

  lemma Few(events: seq<Event>, k: nat, n: nat)
    requires k <= |events| && |events| - k <= n
    ensures LastOf(events[k..], n) == events[k..]
  {
  }

  /// Backwards from the end of the log until an old event or enough of them.
  method SinceIn(log: seq<Line>, since: nat, limit: nat) returns (found: seq<Event>)
    requires Ascending(EventsOf(log))
    ensures found == LastOf(Newer(EventsOf(log), since), Larger(limit, 1))
  {
    ghost var events := EventsOf(log);
    ghost var k := NewerIsATail(events, since);
    ghost var m := |events|;
    found := [];
    var i := |log|;
    assert log[..i] == log && EventsOf([]) == [];
    hide *;
    while i > 0
      invariant 0 <= i <= |log| && k <= m <= |events| && EventsOf(log[..i]) == events[..m]
      invariant found == events[m..] && (|found| < limit || found == [])
    {
      i := i - 1;
      BackOne(log, i, events, m);
      if log[i] == None {
        continue;
      }
      var e := log[i].value;
      if e.seqNo <= since {
        break;
      }
      m := m - 1;
      Tails(events, k, m, limit);
      found := [e] + found;
      if |found| >= limit {
        AtLeastOne(limit);
        return;
      }
    }
    assert m == k by { assert log[..0] == []; }
    AtLeastOne(limit);
    Few(events, k, Larger(limit, 1));
  }

  lemma AtLeastOne(limit: nat)
    ensures Larger(limit, 1) == if limit < 1 then 1 else limit
  {
  }

  /// So it returns the last `limit` newer events exactly when asked for one at
  /// least, or when there is nothing newer.
  lemma LimitOfZeroStillReturnsOne(events: seq<Event>, since: nat, limit: nat)
    ensures LastOf(Newer(events, since), Larger(limit, 1)) == LastOf(Newer(events, since), limit)
      <==> limit >= 1 || Newer(events, since) == []
  {
    hide Newer;
  }

  /// One event, and a caller that asks for none of it.
  lemma LimitOfZeroGivesAnEvent(e: Event)
    requires e.seqNo > 0
    ensures LastOf(Newer(EventsOf([Some(e)]), 0), Larger(0, 1)) == [e]
  {
    assert [Some(e)][..0] == [];
    assert EventsOf([]) == [];
    assert EventsOf([Some(e)]) == [] + [e] == [e];
    assert [e][1..] == [];
  }

  // ---- a poller that saw a generation misses nothing ----

  lemma {:induction false} NewerThanAll(events: seq<Event>, since: nat)
    requires forall i :: 0 <= i < |events| ==> events[i].seqNo <= since
    ensures Newer(events, since) == []
  {
    if events != [] {
      NewerThanAll(events[1..], since);
    }
  }

  lemma {:induction false} NewerConcat(a: seq<Event>, b: seq<Event>, since: nat)
    ensures Newer(a + b, since) == Newer(a, since) + Newer(b, since)
  {
    if a == [] {
      assert a + b == b;
    } else {
      assert (a + b)[1..] == a[1..] + b;
      NewerConcat(a[1..], b, since);
    }
  }

  lemma {:induction false} AllNewer(events: seq<Event>, since: nat)
    requires forall i :: 0 <= i < |events| ==> events[i].seqNo > since
    ensures Newer(events, since) == events
  {
    if events != [] {
      AllNewer(events[1..], since);
    }
  }

  /// What one action adds to a directory's log.
  function Added(w: World, actions: seq<Action>, dir: string): seq<Event>
    decreases |actions|
  {
    if actions == [] then []
    else
      var (a, next) := (actions[0], Step(w, actions[0]));
      (if a.Emit? && a.dir == dir && !Debounced(ProcOf(w, a.pid), dir, a.draft, a.nowMs) then
         [Event(DirOf(next, dir).gen, a.draft)] else [])
      + Added(next, actions[1..], dir)
  }

  lemma StepAdds(w: World, a: Action, dir: string)
    ensures EventsOf(DirOf(Step(w, a), dir).log) == EventsOf(DirOf(w, dir).log) + Added(w, [a], dir)
  {
    if a.Emit? && a.dir == dir && !Debounced(ProcOf(w, a.pid), dir, a.draft, a.nowMs) {
      EventsOfAppend(DirOf(w, dir).log, Event(DirOf(Step(w, a), dir).gen, a.draft));
    } else {
      assert EventsOf(DirOf(w, dir).log) + [] == EventsOf(DirOf(w, dir).log);
    }
  }

  lemma {:induction false} RunAdds(w: World, actions: seq<Action>, bound: nat, dir: string)
    requires Good(w) && Below(w, bound) && bound + |actions| <= MAX_SEQ
    ensures EventsOf(DirOf(Run(w, actions), dir).log) == EventsOf(DirOf(w, dir).log) + Added(w, actions, dir)
    ensures AllAbove(Added(w, actions, dir), DirOf(w, dir).gen)
    decreases |actions|
  {
    if actions == [] {
      assert EventsOf(DirOf(w, dir).log) + [] == EventsOf(DirOf(w, dir).log);
    } else {
      var (a, next, rest) := (actions[0], Step(w, actions[0]), actions[1..]);
      assert Run(w, actions) == Run(next, rest);
      hide *;
      StepKeepsOrder(w, a, bound);
      RunAdds(next, rest, bound + 1, dir);
      StepAdds(w, a, dir);
      AddedSplits(w, actions, dir);
      StepGoesUp(w, a, bound, dir);
      AboveBoth(Added(w, [a], dir), Added(next, rest, dir), DirOf(w, dir).gen, DirOf(next, dir).gen);
      Regroup(EventsOf(DirOf(w, dir).log), Added(w, [a], dir), Added(next, rest, dir));
    }
  }

  lemma Regroup(a: seq<Event>, b: seq<Event>, c: seq<Event>)
    ensures a + b + c == a + (b + c)
  {
  }

  ghost predicate AllAbove(events: seq<Event>, since: nat) {
    forall i :: 0 <= i < |events| ==> events[i].seqNo > since
  }

  lemma AboveBoth(a: seq<Event>, b: seq<Event>, before: nat, after: nat)
    requires AllAbove(a, before) && AllAbove(b, after) && before <= after
    ensures AllAbove(a + b, before)
  {
  }

  lemma StepGoesUp(w: World, a: Action, bound: nat, dir: string)
    requires Good(w) && Below(w, bound) && bound < MAX_SEQ
    ensures DirOf(Step(w, a), dir).gen >= DirOf(w, dir).gen
    ensures AllAbove(Added(w, [a], dir), DirOf(w, dir).gen)
  {
    StepKeepsOrder(w, a, bound);
    AddedSplits(w, [a], dir);
    hide Step, DirOf;
  }

  lemma AddedSplits(w: World, actions: seq<Action>, dir: string)
    requires actions != []
    ensures Added(w, actions, dir) == Added(w, [actions[0]], dir) + Added(Step(w, actions[0]), actions[1..], dir)
    ensures forall i :: 0 <= i < |Added(w, [actions[0]], dir)| ==>
      actions[0].Emit? && actions[0].dir == dir && Added(w, [actions[0]], dir)[i].seqNo == DirOf(Step(w, actions[0]), dir).gen
  {
    hide Step, DirOf;
    assert [actions[0]][1..] == [];
    assert Added(Step(w, actions[0]), [], dir) == [];
  }

  /**
   A poller that read the generation and later asks for what is newer gets
   exactly what was logged since, in order, whoever wrote it.
   */
  lemma NothingIsMissed(w: World, actions: seq<Action>, bound: nat, dir: string)
    requires Good(w) && Below(w, bound) && bound + |actions| <= MAX_SEQ
    ensures Newer(EventsOf(DirOf(Run(w, actions), dir).log), DirOf(w, dir).gen) == Added(w, actions, dir)
    ensures Ascending(EventsOf(DirOf(Run(w, actions), dir).log))
  {
    RunAdds(w, actions, bound, dir);
    EveryRunIsInOrder(w, actions, bound, dir);
    EmptyInOrder();
    var (before, added) := (EventsOf(DirOf(w, dir).log), Added(w, actions, dir));
    assert InOrder(DirOf(w, dir)) && InOrder(DirOf(Run(w, actions), dir));
    hide Added, Run, DirOf, Below;
    NewerConcat(before, added, DirOf(w, dir).gen);
    NewerThanAll(before, DirOf(w, dir).gen);
    AllNewer(added, DirOf(w, dir).gen);
  }

  // ---- narrowed to a project or a kind ----

  predicate Matches(e: Event, project: Option<string>, kind: Option<string>) {
    (project.Some? ==> e.draft.project == project) && (kind.Some? ==> e.draft.kind == kind.value)
  }

  function Matching(events: seq<Event>, project: Option<string>, kind: Option<string>): seq<Event> {
    if events == [] then []
    else (if Matches(events[0], project, kind) then [events[0]] else []) + Matching(events[1..], project, kind)
  }

  /// Four times the limit are read, and of those that match the first are
  /// kept. The product does not saturate for a log that exists.
  method SinceFilteredIn(log: seq<Line>, since: nat, limit: nat, project: Option<string>, kind: Option<string>)
    returns (found: seq<Event>)
    requires Ascending(EventsOf(log))
    ensures found == Narrowed(Newer(EventsOf(log), since), limit, project, kind)
  {
    var events := SinceIn(log, since, Larger(4 * limit, limit));
    var matching := Matching(events, project, kind);
    found := if |matching| <= limit then matching else matching[..limit];
  }

  function Narrowed(newer: seq<Event>, limit: nat, project: Option<string>, kind: Option<string>): seq<Event> {
    var matching := Matching(LastOf(newer, Larger(4 * limit, 1)), project, kind);
    if |matching| <= limit then matching else matching[..limit]
  }

  lemma {:induction false} MatchingHolds(events: seq<Event>, project: Option<string>, kind: Option<string>, e: Event)
    ensures e in Matching(events, project, kind) <==> e in events && Matches(e, project, kind)
  {
    hide Matches;
    if events != [] {
      MatchingHolds(events[1..], project, kind, e);
      assert events == [events[0]] + events[1..];
    }
  }

  /**
   A narrowed read gives events that were read, of that project and of that
   kind; and all of those when they are no more than the limit.
   */
  lemma NarrowedHoldsExactly(newer: seq<Event>, limit: nat, project: string, kind: string, e: Event)
    ensures var asked := e.draft.project == Some(project) && e.draft.kind == kind;
      && (e in Narrowed(newer, limit, Some(project), Some(kind)) ==> e in newer && asked)
      && (e in Narrowed(newer, limit, Some(project), None) ==> e in newer && e.draft.project == Some(project))
      && (e in Narrowed(newer, limit, None, Some(kind)) ==> e in newer && e.draft.kind == kind)
      && (|newer| <= limit && e in newer && asked ==> e in Narrowed(newer, limit, Some(project), Some(kind)))
      && (|newer| <= limit && e in newer ==> e in Narrowed(newer, limit, None, None))
  {
    NarrowedHolds(newer, limit, Some(project), Some(kind), e);
    NarrowedHolds(newer, limit, Some(project), None, e);
    NarrowedHolds(newer, limit, None, Some(kind), e);
    NarrowedHolds(newer, limit, None, None, e);
    hide Narrowed;
  }

  lemma NarrowedHolds(newer: seq<Event>, limit: nat, project: Option<string>, kind: Option<string>, e: Event)
    ensures e in Narrowed(newer, limit, project, kind) ==> e in newer && Matches(e, project, kind)
    ensures |newer| <= limit && e in newer && Matches(e, project, kind) ==> e in Narrowed(newer, limit, project, kind)
  {
    var read := LastOf(newer, Larger(4 * limit, 1));
    MatchingHolds(read, project, kind, e);
    MatchingLength(read, project, kind);
    hide Matching, Matches;
  }

  lemma {:induction false} MatchingLength(events: seq<Event>, project: Option<string>, kind: Option<string>)
    ensures |Matching(events, project, kind)| <= |events|
  {
    hide Matches;
    if events != [] { MatchingLength(events[1..], project, kind); }
  }

  lemma {:induction false} MatchingConcat(a: seq<Event>, b: seq<Event>, project: Option<string>, kind: Option<string>)
    ensures Matching(a + b, project, kind) == Matching(a, project, kind) + Matching(b, project, kind)
  {
    hide Matches;
    if a == [] {
      assert a + b == b;
    } else {
      MatchingConcat(a[1..], b, project, kind);
      assert (a + b)[0] == a[0] && (a + b)[1..] == a[1..] + b;
      var here := if Matches(a[0], project, kind) then [a[0]] else [];
      assert Matching(a + b, project, kind) == here + Matching(a[1..] + b, project, kind);
      assert Matching(a, project, kind) == here + Matching(a[1..], project, kind);
      hide *;
      Regroup(here, Matching(a[1..], project, kind), Matching(b, project, kind));
    }
  }

  lemma {:induction false} MatchingAbove(events: seq<Event>, project: Option<string>, kind: Option<string>, above: nat)
    requires forall i :: 0 <= i < |events| ==> events[i].seqNo > above
    ensures forall i :: 0 <= i < |Matching(events, project, kind)| ==> Matching(events, project, kind)[i].seqNo > above
  {
    hide Matches;
    if events != [] {
      MatchingAbove(events[1..], project, kind, above);
    }
  }

  lemma {:induction false} MatchingAscends(events: seq<Event>, project: Option<string>, kind: Option<string>)
    requires Ascending(events)
    ensures Ascending(Matching(events, project, kind))
  {
    hide Matches;
    if events != [] {
      MatchingAscends(events[1..], project, kind);
      MatchingAbove(events[1..], project, kind, events[0].seqNo);
    }
  }

  /**
   Narrowing gives the last `limit` matching events, as reading the log and then
   narrowing it would, exactly when the events read hold as many matches as
   that and no more: a match too many drops the newest, not the oldest.
   */
  lemma NarrowedIsTheLastMatches(newer: seq<Event>, limit: nat, project: Option<string>, kind: Option<string>)
    requires Ascending(newer) && limit > 0
    ensures var (all, read) := (Matching(newer, project, kind), Matching(LastOf(newer, 4 * limit), project, kind));
      Narrowed(newer, limit, project, kind) == LastOf(all, limit) <==> |read| == (if |all| < limit then |all| else limit)
  {
    var (all, read) := (Matching(newer, project, kind), Matching(LastOf(newer, 4 * limit), project, kind));
    MatchingAscends(newer, project, kind);
    var skipped := MatchingTail(newer, 4 * limit, project, kind);
    assert Narrowed(newer, limit, project, kind) == if |read| <= limit then read else read[..limit];
    hide *;
    HeadOfTail(all, skipped, limit);
  }

  /// The matches from a place in the log on.
  function MatchesFrom(events: seq<Event>, from: nat, project: Option<string>, kind: Option<string>): set<int> {
    set i | from <= i < |events| && Matches(events[i], project, kind)
  }

  lemma {:induction false} MatchesCounted(events: seq<Event>, from: nat, project: Option<string>, kind: Option<string>)
    requires from <= |events|
    ensures |MatchesFrom(events, from, project, kind)| == |Matching(events[from..], project, kind)|
    decreases |events| - from
  {
    hide Matches;
    if from < |events| {
      MatchesCounted(events, from + 1, project, kind);
      assert events[from..][0] == events[from] && events[from..][1..] == events[from + 1..];
      var here := if Matches(events[from], project, kind) then {from as int} else {};
      assert MatchesFrom(events, from, project, kind) == here + MatchesFrom(events, from + 1, project, kind);
    } else {
      assert MatchesFrom(events, from, project, kind) == {} && events[from..] == [];
    }
  }

  /**
   So it is right exactly when the last four times `limit` events hold no more
   than `limit` matches, and either as many as that or every match there is.
   */
  lemma NarrowedIsRightExactly(newer: seq<Event>, limit: nat, project: Option<string>, kind: Option<string>)
    requires Ascending(newer) && limit > 0
    ensures var cut := if |newer| <= 4 * limit then 0 else |newer| - 4 * limit;
      var (all, recent) := (MatchesFrom(newer, 0, project, kind), MatchesFrom(newer, cut, project, kind));
      var right := |recent| <= limit && (|recent| == limit || recent == all);
      Narrowed(newer, limit, project, kind) == LastOf(Matching(newer, project, kind), limit) <==> right
  {
    var cut := if |newer| <= 4 * limit then 0 else |newer| - 4 * limit;
    var (all, recent) := (MatchesFrom(newer, 0, project, kind), MatchesFrom(newer, cut, project, kind));
    NarrowedIsTheLastMatches(newer, limit, project, kind);
    MatchesCounted(newer, 0, project, kind);
    MatchesCounted(newer, cut, project, kind);
    assert newer[0..] == newer && newer[cut..] == LastOf(newer, 4 * limit);
    assert recent <= all;
    hide Matches, Matching, Narrowed, Ascending;
    PartOfSameSize(recent, all);
  }

  lemma PartOfSameSize(part: set<int>, whole: set<int>)
    requires part <= whole
    ensures |part| <= |whole| && (|part| == |whole| <==> part == whole)
  {
    if x :| x in whole && x !in part {
      SmallerSet(part, whole, x);
    } else {
      assert whole <= part by { forall y | y in whole ensures y in part {} }
      assert part == whole;
    }
  }

  /// Two matching events and a limit of one: the older one comes back.
  lemma NewestMatchIsDropped(e: Event, f: Event, project: Option<string>, kind: Option<string>)
    requires Matches(e, project, kind) && Matches(f, project, kind) && e != f
    ensures Narrowed([e, f], 1, project, kind) == [e] != LastOf(Matching([e, f], project, kind), 1)
  {
    hide Matches;
    assert [e, f][1..] == [f] && [f][1..] == [];
    assert Matching([], project, kind) == [];
    assert Matching([f], project, kind) == [f] + Matching([], project, kind) == [f];
    assert Matching([e, f], project, kind) == [e] + Matching([f], project, kind) == [e, f];
    hide Matching;
    assert LastOf([e, f], 4) == [e, f] && Larger(4 * 1, 1) == 4;
    assert [e, f][..1] == [e] && [e, f][1..] == [f];
  }

  lemma MatchingTail(newer: seq<Event>, n: nat, project: Option<string>, kind: Option<string>) returns (skipped: nat)
    ensures var all := Matching(newer, project, kind);
      skipped <= |all| && all[skipped..] == Matching(LastOf(newer, n), project, kind)
  {
    var cut := if |newer| <= n then 0 else |newer| - n;
    assert newer == newer[..cut] + newer[cut..] && LastOf(newer, n) == newer[cut..];
    MatchingConcat(newer[..cut], newer[cut..], project, kind);
    hide *;
    skipped := |Matching(newer[..cut], project, kind)|;
    TailOf(Matching(newer[..cut], project, kind), Matching(newer[cut..], project, kind));
  }

  lemma TailOf(s: seq<Event>, t: seq<Event>)
    ensures (s + t)[|s|..] == t
  {
  }

  /// The first few of a tail are the last few of the whole.
  lemma HeadOfTail(all: seq<Event>, skipped: nat, limit: nat)
    requires Ascending(all) && skipped <= |all| && limit > 0
    ensures var read := all[skipped..];
      (if |read| <= limit then read else read[..limit]) == LastOf(all, limit)
      <==> |read| == (if |all| < limit then |all| else limit)
  {
    var read := all[skipped..];
    if |read| > limit {
      assert read[..limit][0] == all[skipped] && LastOf(all, limit)[0] == all[|all| - limit];
      assert all[skipped].seqNo < all[|all| - limit].seqNo;
    }
  }
}
