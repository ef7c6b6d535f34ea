/**
 The three-way merge of an issue's drawers: the votes drawer voter by voter,
 any other drawer as a whole (`merge_drawers` and `merge_votes`,
 `crates/vissue-core/src/merge.rs`; `parse_ballot`, `crates/vissue-core/src/ops.rs`).
 */
module MergeDrawers {
  import opened Base
  import opened Text
  import opened Order
  import opened Issue
  import opened MergeSets

  /// A field both sides changed, and theirs' value of it.
  datatype Clash = Clash(field: string, theirs: string)

  function Fields(clashes: seq<Clash>): set<string> {
    set c | c in clashes :: c.field
  }

  lemma FieldsConcat(s: seq<Clash>, t: seq<Clash>)
    ensures Fields(s + t) == Fields(s) + Fields(t)
  {
    forall c | c in s + t ensures c.field in Fields(s) + Fields(t) {}
    forall c | c in s ensures c.field in Fields(s + t) { assert c in s + t; }
    forall c | c in t ensures c.field in Fields(s + t) { assert c in s + t; }
  }

  lemma NoFields(s: seq<Clash>)
    ensures Fields(s) == {} <==> s == []
  {
    if s != [] {
      assert s[0] in s && s[0].field in Fields(s);
    }
  }

  // ---- ballots ----

  function Upper(c: char): char {
    if 'a' <= c <= 'z' then (c as int - 32) as char else c
  }

  function UpperCase(s: string): string {
    seq(|s|, i requires 0 <= i < |s| => Upper(s[i]))
  }

  datatype Ballot = Ballot(agent: string, stamp: string)

  /// `[date] agent: choice`, when the line is that.
  function ParseBallot(line: string): Option<Ballot> {
    if line == "" || line[0] != '[' then None
    else
      match SplitOnce(line[1..], "] ")
      case None => None
      case Some((stamp, rest)) =>
        match SplitOnce(rest, ": ")
        case None => None
        case Some((agent, choice)) =>
          if Trim(agent) == "" || Trim(choice) == "" then None
          else Some(Ballot(Trim(agent), "[" + stamp + "]"))
  }

  /// What a line of the votes drawer is filed under.
  function BallotKey(line: string): string {
    match ParseBallot(line)
    case Some(b) => "voter " + b.agent
    case None => "line " + line
  }

  function BallotStamp(line: Option<string>): Option<string> {
    match line
    case None => None
    case Some(l) =>
      match ParseBallot(l)
      case None => None
      case Some(b) => Some(b.stamp)
  }

  /// A line of the votes drawer that is not the drawer's own structure.
  predicate IsVoteLine(t: string) {
    && t != "" && !SameNoCase(t, ":END:") && !SameNoCase(t, ":VOTES:")
  }

  datatype Vote = Vote(key: string, line: string)

  function PutVote(m: seq<Vote>, v: Vote): seq<Vote> {
    if m == [] then [v]
    else if m[0].key == v.key then [v] + m[1..]
    else [m[0]] + PutVote(m[1..], v)
  }

  function VotesOf(lines: seq<string>, m: seq<Vote>): seq<Vote>
    decreases |lines|
  {
    if lines == [] then m
    else
      var t := Trim(lines[0]);
      VotesOf(lines[1..], if IsVoteLine(t) then PutVote(m, Vote(BallotKey(t), t)) else m)
  }

  /// The votes of a drawer, one a key, a later line of the same key winning.
  function Votes(drawer: Option<string>): seq<Vote> {
    VotesOf(SplitNl(drawer.GetOr("")), [])
  }

  function Ballots(votes: seq<Vote>): map<string, string> {
    if votes == [] then map[] else Ballots(votes[1..])[votes[0].key := votes[0].line]
  }

  /// A vote as a drawer line gives it.
  predicate ReadVote(v: Vote) {
    && v.key == BallotKey(v.line) && IsVoteLine(v.line)
    && Trim(v.line) == v.line && OneLine(v.line)
  }

  predicate KeysOnce(m: seq<Vote>) {
    forall i, j :: 0 <= i < j < |m| ==> m[i].key != m[j].key
  }

  /// Votes as a drawer can give them: read lines, each key once.
  predicate WellFormedVotes(m: seq<Vote>) {
    KeysOnce(m) && forall i :: 0 <= i < |m| ==> ReadVote(m[i])
  }

  lemma {:induction false} PutVoteKeys(m: seq<Vote>, v: Vote)
    requires KeysOnce(m)
    ensures KeysOnce(PutVote(m, v))
    ensures forall w :: w in PutVote(m, v) ==> w in m || w == v
  {
    if m != [] && m[0].key != v.key {
      PutVoteKeys(m[1..], v);
      var r := PutVote(m[1..], v);
      forall i | 0 <= i < |r| ensures r[i].key != m[0].key { assert r[i] in r; }
    }
  }

  lemma PutVoteFacts(m: seq<Vote>, v: Vote)
    requires WellFormedVotes(m) && ReadVote(v)
    ensures WellFormedVotes(PutVote(m, v))
  {
    PutVoteKeys(m, v);
    var r := PutVote(m, v);
    forall i | 0 <= i < |r| ensures ReadVote(r[i]) { assert r[i] in r; }
  }

  lemma {:induction false} TrimOneLine(s: string)
    requires OneLine(s)
    ensures OneLine(Trim(s)) && Trim(Trim(s)) == Trim(s)
  {
    TrimStartOneLine(s);
    TrimEndFacts(TrimStart(s));
  }

  lemma {:induction false} TrimStartOneLine(s: string)
    requires OneLine(s)
    ensures OneLine(TrimStart(s))
  {
    if s != "" && IsSpace(s[0]) {
      TrimStartOneLine(s[1..]);
    }
  }

  lemma {:induction false} TrimEndFacts(s: string)
    requires OneLine(s) && (s == "" || !IsSpace(s[0]))
    ensures var t := TrimEnd(s); OneLine(t) && (t == "" || !IsSpace(t[0])) && Trim(t) == t
    decreases |s|
  {
    if s != "" && IsSpace(s[|s| - 1]) {
      TrimEndFacts(s[..|s| - 1]);
    }
  }

  lemma {:induction false} VotesOfWellFormed(lines: seq<string>, m: seq<Vote>)
    requires WellFormedVotes(m) && OneLineEach(lines)
    ensures WellFormedVotes(VotesOf(lines, m))
    decreases |lines|
  {
    if lines != [] {
      var t := Trim(lines[0]);
      TrimOneLine(lines[0]);
      if IsVoteLine(t) {
        PutVoteFacts(m, Vote(BallotKey(t), t));
      }
      VotesOfWellFormed(lines[1..], if IsVoteLine(t) then PutVote(m, Vote(BallotKey(t), t)) else m);
    }
  }

  lemma VotesWellFormed(drawer: Option<string>)
    ensures WellFormedVotes(Votes(drawer))
  {
    VotesOfWellFormed(SplitNl(drawer.GetOr("")), []);
  }

  lemma {:induction false} BallotsOf(m: seq<Vote>)
    requires KeysOnce(m)
    ensures forall v :: v in m ==> v.key in Ballots(m) && Ballots(m)[v.key] == v.line
    ensures forall k :: k in Ballots(m) <==> exists v :: v in m && v.key == k
  {
    if m != [] {
      BallotsOf(m[1..]);
      assert m[0] in m;
      assert forall v :: v in m <==> v == m[0] || v in m[1..];
      forall v | v in m[1..] ensures v.key != m[0].key {
        var i :| 1 <= i < |m| && m[i] == v;
      }
    }
  }

  /// One ballot merged; both sides changed it: the later stamp wins.
  function MergedBallot(key: string, o: Option<string>, a: Option<string>, b: Option<string>): (Option<string>, seq<Clash>) {
    var (v, clash) := Pick(o, a, b);
    if !clash then (v, [])
    else
      var (sa, sb) := (BallotStamp(a), BallotStamp(b));
      if sa.Some? && sb.Some? && Less(sa.value, sb.value) then (b, [])
      else if sa.Some? && sb.Some? && Less(sb.value, sa.value) then (a, [])
      else (a, [Clash("ballot of " + WithoutVoter(key), b.GetOr(""))])
  }

  /// The key less every leading `voter `.
  function WithoutVoter(key: string): string {
    if "voter " <= key then WithoutVoter(key[6..]) else key
  }

  function AddKeys(keys: seq<string>, m: seq<Vote>): seq<string>
    decreases |m|
  {
    if m == [] then keys
    else AddKeys(if m[0].key in keys then keys else keys + [m[0].key], m[1..])
  }

  function KeysOf(o: seq<Vote>, a: seq<Vote>, b: seq<Vote>): seq<string> {
    AddKeys(AddKeys(AddKeys([], a), b), o)
  }

  function MergedBallots(keys: seq<string>, o: map<string, string>, a: map<string, string>, b: map<string, string>)
    : (seq<Vote>, seq<Clash>)
  {
    if keys == [] then ([], [])
    else
      var k := keys[0];
      var (v, clash) := MergedBallot(k, Get(o, k), Get(a, k), Get(b, k));
      var (rest, clashes) := MergedBallots(keys[1..], o, a, b);
      ((match v case Some(l) => [Vote(k, l)] case None => []) + rest, clash + clashes)
  }

  function VoteLines(m: seq<Vote>): seq<string> {
    seq(|m|, i requires 0 <= i < |m| => m[i].line)
  }

  function VotesText(m: seq<Vote>): string {
    ":VOTES:\n" + JoinNl(VoteLines(m)) + "\n:END:"
  }

  function MergedVotes(o: Option<string>, a: Option<string>, b: Option<string>): (Option<string>, seq<Clash>) {
    var (ov, av, bv) := (Votes(o), Votes(a), Votes(b));
    var (kept, clashes) := MergedBallots(KeysOf(ov, av, bv), Ballots(ov), Ballots(av), Ballots(bv));
    (if kept == [] then None else Some(VotesText(kept)), clashes)
  }

  // ---- a votes drawer reads back as it was written ----

  lemma {:induction false} PutNewVote(m: seq<Vote>, v: Vote)
    requires forall i :: 0 <= i < |m| ==> m[i].key != v.key
    ensures PutVote(m, v) == m + [v]
  {
    if m != [] {
      PutNewVote(m[1..], v);
    }
  }

  lemma {:induction false} VotesOfLines(m: seq<Vote>, rest: seq<string>, read: seq<Vote>)
    requires WellFormedVotes(read + m)
    ensures VotesOf(VoteLines(m) + rest, read) == VotesOf(rest, read + m)
    decreases |m|
  {
    hide ParseBallot, Trim, SameNoCase;
    var lines := VoteLines(m) + rest;
    if m == [] {
      assert lines == rest && read + m == read;
    } else {
      assert (read + m)[|read|] == m[0];
      forall i | 0 <= i < |read| ensures read[i].key != m[0].key {
        assert (read + m)[i] == read[i];
      }
      PutNewVote(read, m[0]);
      assert lines[0] == m[0].line && lines[1..] == VoteLines(m[1..]) + rest;
      assert (read + [m[0]]) + m[1..] == read + m;
      VotesOfLines(m[1..], rest, read + [m[0]]);
    }
  }

  function VotesDrawerLines(m: seq<Vote>): seq<string> {
    [":VOTES:"] + VoteLines(m) + [":END:"]
  }

  lemma VotesTextLines(m: seq<Vote>)
    requires m != [] && WellFormedVotes(m)
    ensures SplitNl(VotesText(m)) == VotesDrawerLines(m)
  {
    hide BallotKey, Trim, IsVoteLine, SplitNl;
    var lines := VotesDrawerLines(m);
    JoinAppend(VoteLines(m), ":END:");
    assert lines[1..] == VoteLines(m) + [":END:"];
    assert VotesText(m) == JoinNl(lines);
    forall i | 0 <= i < |lines| ensures OneLine(lines[i]) {
      if 0 < i <= |m| {
        assert ReadVote(m[i - 1]);
      }
    }
    SplitJoin(lines);
  }

  lemma VotesDrawerRead(m: seq<Vote>)
    requires WellFormedVotes(m)
    ensures VotesOf(VotesDrawerLines(m), []) == m
  {
    var lines := VotesDrawerLines(m);
    TrimNothing(":VOTES:");
    TrimNothing(":END:");
    assert lines[1..] == VoteLines(m) + [":END:"];
    assert [] + m == m;
    VotesOfLines(m, [":END:"], []);
    assert VotesOf([":END:"], m) == m;
  }

  lemma VotesTextReadsBack(m: seq<Vote>)
    requires m != [] && WellFormedVotes(m)
    ensures Votes(Some(VotesText(m))) == m
    ensures DrawerName(VotesText(m)) == VOTES_DRAWER
  {
    VotesTextLines(m);
    VotesDrawerRead(m);
    TrimNothing(":VOTES:");
    VotesName();
  }

  lemma VotesName()
    ensures UpperCase(TrimOf(":VOTES:", ':')) == VOTES_DRAWER
  {
    var s := ":VOTES:";
    assert s[1..] == "VOTES:";
    assert TrimStartOf("VOTES:", ':') == "VOTES:";
    assert "VOTES:"[..5] == "VOTES";
    assert TrimEndOf("VOTES:", ':') == TrimEndOf("VOTES", ':') == "VOTES";
  }

  // ---- drawers ----

  function DrawerName(d: string): string {
    UpperCase(TrimOf(Trim(SplitNl(d)[0]), ':'))
  }

  function Find(drawers: seq<string>, name: string): (r: Option<string>)
    ensures r.Some? ==> DrawerName(r.value) == name && r.value in drawers
  {
    if drawers == [] then None
    else if DrawerName(drawers[0]) == name then Some(drawers[0])
    else Find(drawers[1..], name)
  }

  function AddNames(names: seq<string>, drawers: seq<string>): seq<string>
    decreases |drawers|
  {
    if drawers == [] then names
    else
      var n := DrawerName(drawers[0]);
      AddNames(if n != CONFLICT_DRAWER && n !in names then names + [n] else names, drawers[1..])
  }

  function MergedDrawer(name: string, base: seq<string>, ours: seq<string>, theirs: seq<string>)
    : (Option<string>, seq<Clash>)
  {
    var (o, a, b) := (Find(base, name), Find(ours, name), Find(theirs, name));
    if name == VOTES_DRAWER then MergedVotes(o, a, b)
    else
      var (v, clash) := Pick(o, a, b);
      (v, if clash then [Clash("drawer " + name, b.GetOr(""))] else [])
  }

  function MergedNamed(names: seq<string>, base: seq<string>, ours: seq<string>, theirs: seq<string>)
    : (seq<string>, seq<Clash>)
  {
    if names == [] then ([], [])
    else
      var (v, clash) := MergedDrawer(names[0], base, ours, theirs);
      var (rest, clashes) := MergedNamed(names[1..], base, ours, theirs);
      ((match v case Some(d) => [d] case None => []) + rest, clash + clashes)
  }

  function MergedDrawers(base: seq<string>, ours: seq<string>, theirs: seq<string>): (seq<string>, seq<Clash>) {
    var (drawers, clashes) := MergedNamed(AddNames(AddNames([], ours), theirs), base, ours, theirs);
    (drawers + (match Find(ours, CONFLICT_DRAWER) case Some(d) => [d] case None => []), clashes)
  }

  // ---- as the program runs it ----

  method ReadVotes(drawer: Option<string>) returns (m: seq<Vote>)
    ensures m == Votes(drawer)
  {
    hide IsVoteLine, BallotKey, Trim;
    var lines := SplitNl(drawer.GetOr(""));
    m := [];
    for i := 0 to |lines|
      invariant VotesOf(lines[i..], m) == Votes(drawer)
    {
      var t := Trim(lines[i]);
      if IsVoteLine(t) {
        m := PutVote(m, Vote(BallotKey(t), t));
      }
    }
  }

  lemma NoBallots(o: map<string, string>, a: map<string, string>, b: map<string, string>)
    ensures MergedBallots([], o, a, b) == ([], [])
  {
  }

  lemma NextBallot(keys: seq<string>, i: nat, o: map<string, string>, a: map<string, string>, b: map<string, string>)
    requires i < |keys|
    ensures var (v, clash) := MergedBallot(keys[i], Get(o, keys[i]), Get(a, keys[i]), Get(b, keys[i]));
      var (rest, clashes) := MergedBallots(keys[i + 1..], o, a, b);
      MergedBallots(keys[i..], o, a, b) == ((if v.Some? then [Vote(keys[i], v.value)] else []) + rest, clash + clashes)
  {
    hide MergedBallot;
    var rest := keys[i..];
    assert rest[0] == keys[i] && rest[1..] == keys[i + 1..];
    var (v, clash) := MergedBallot(keys[i], Get(o, keys[i]), Get(a, keys[i]), Get(b, keys[i]));
    match v case Some(l) => case None =>
  }

  method MergeVotes(base: Option<string>, ours: Option<string>, theirs: Option<string>, clashes0: seq<Clash>)
    returns (merged: Option<string>, clashes: seq<Clash>)
    ensures merged == MergedVotes(base, ours, theirs).0
    ensures clashes == clashes0 + MergedVotes(base, ours, theirs).1
  {
    hide MergedBallot, Votes, Ballots, KeysOf, VotesText, MergedBallots;
    var ov := ReadVotes(base);
    var av := ReadVotes(ours);
    var bv := ReadVotes(theirs);
    var o, a, b := Ballots(ov), Ballots(av), Ballots(bv);
    var keys := KeysOf(ov, av, bv);
    var kept: seq<Vote> := [];
    clashes := clashes0;
    for i := 0 to |keys|
      invariant kept + MergedBallots(keys[i..], o, a, b).0 == MergedBallots(keys, o, a, b).0
      invariant clashes + MergedBallots(keys[i..], o, a, b).1 == clashes0 + MergedBallots(keys, o, a, b).1
    {
      var k := keys[i];
      NextBallot(keys, i, o, a, b);
      var (v, clash) := MergedBallot(k, Get(o, k), Get(a, k), Get(b, k));
      clashes := clashes + clash;
      if v.Some? {
        kept := kept + [Vote(k, v.value)];
      }
    }
    assert keys[|keys|..] == [] && kept + [] == kept && clashes + [] == clashes;
    NoBallots(o, a, b);
    assert MergedBallots(keys[|keys|..], o, a, b) == ([], []);
    assert MergedBallots(keys, o, a, b).0 == kept;
    assert clashes0 + MergedBallots(keys, o, a, b).1 == clashes;
    merged := if kept == [] then None else Some(VotesText(kept));
  }

  method MergeDrawer(name: string, base: seq<string>, ours: seq<string>, theirs: seq<string>, clashes0: seq<Clash>)
    returns (v: Option<string>, clashes: seq<Clash>)
    ensures v == MergedDrawer(name, base, ours, theirs).0
    ensures clashes == clashes0 + MergedDrawer(name, base, ours, theirs).1
  {
    hide MergedVotes, Find;
    var o, a, b := Find(base, name), Find(ours, name), Find(theirs, name);
    clashes := clashes0;
    if name == VOTES_DRAWER {
      v, clashes := MergeVotes(o, a, b, clashes);
    } else {
      var (picked, clash) := Pick(o, a, b);
      v := picked;
      if clash {
        clashes := clashes + [Clash("drawer " + name, b.GetOr(""))];
      }
    }
  }

  lemma NoNames(base: seq<string>, ours: seq<string>, theirs: seq<string>)
    ensures MergedNamed([], base, ours, theirs) == ([], [])
  {
  }

  lemma NextDrawer(names: seq<string>, i: nat, base: seq<string>, ours: seq<string>, theirs: seq<string>)
    requires i < |names|
    ensures var (v, clash) := MergedDrawer(names[i], base, ours, theirs);
      var (rest, clashes) := MergedNamed(names[i + 1..], base, ours, theirs);
      MergedNamed(names[i..], base, ours, theirs) == ((if v.Some? then [v.value] else []) + rest, clash + clashes)
  {
    hide MergedDrawer;
    var rest := names[i..];
    assert rest[0] == names[i] && rest[1..] == names[i + 1..];
    var (v, clash) := MergedDrawer(names[i], base, ours, theirs);
    match v case Some(d) => case None =>
  }

  method MergeDrawerList(base: seq<string>, ours: seq<string>, theirs: seq<string>, clashes0: seq<Clash>)
    returns (out: seq<string>, clashes: seq<Clash>)
    ensures out == MergedDrawers(base, ours, theirs).0
    ensures clashes == clashes0 + MergedDrawers(base, ours, theirs).1
  {
    hide MergedDrawer, Find, AddNames, MergedNamed;
    var names := AddNames(AddNames([], ours), theirs);
    out, clashes := [], clashes0;
    for i := 0 to |names|
      invariant out + MergedNamed(names[i..], base, ours, theirs).0 == MergedNamed(names, base, ours, theirs).0
      invariant clashes + MergedNamed(names[i..], base, ours, theirs).1
             == clashes0 + MergedNamed(names, base, ours, theirs).1
    {
      var name := names[i];
      NextDrawer(names, i, base, ours, theirs);
      var v;
      v, clashes := MergeDrawer(name, base, ours, theirs, clashes);
      if v.Some? {
        out := out + [v.value];
      }
    }
    NoNames(base, ours, theirs);
    assert names[|names|..] == [] && out + [] == out && clashes + [] == clashes;
    assert MergedNamed(names[|names|..], base, ours, theirs) == ([], []);
    assert MergedNamed(names, base, ours, theirs).0 == out;
    assert clashes0 + MergedNamed(names, base, ours, theirs).1 == clashes;
    var kept := Find(ours, CONFLICT_DRAWER);
    if kept.Some? {
      out := out + [kept.value];
    }
  }
}
