/**
 What a votes drawer says of one voter (`merge_votes` and `parse_ballot`,
 `crates/vissue-core/src/merge.rs` and `org.rs`).
 */
module BallotLines {
  import opened Base
  import opened Text
  import opened MergeDrawers

  /// The last line filed under `key`.
  function LastOf(lines: seq<string>, key: string): Option<string>
    decreases |lines|
  {
    if lines == [] then None
    else
      var t := Trim(lines[|lines| - 1]);
      if IsVoteLine(t) && BallotKey(t) == key then Some(t) else LastOf(lines[..|lines| - 1], key)
  }

  lemma {:induction false} VotesOfSnoc(lines: seq<string>, line: string, m: seq<Vote>)
    ensures var (votes, t) := (VotesOf(lines, m), Trim(line));
      VotesOf(lines + [line], m) == if IsVoteLine(t) then PutVote(votes, Vote(BallotKey(t), t)) else votes
    decreases |lines|
  {
    hide Trim, IsVoteLine, BallotKey, PutVote;
    var all := lines + [line];
    if lines == [] {
      assert all == [line] && [line][1..] == [];
    } else {
      var t := Trim(lines[0]);
      assert all[0] == lines[0] && all[1..] == lines[1..] + [line];
      VotesOfSnoc(lines[1..], line, if IsVoteLine(t) then PutVote(m, Vote(BallotKey(t), t)) else m);
    }
  }

  lemma {:induction false} PutVoteHolds(m: seq<Vote>, v: Vote, key: string)
    ensures Get(Ballots(PutVote(m, v)), key) == if v.key == key then Some(v.line) else Get(Ballots(m), key)
  {
    if m == [] {
      assert [v][1..] == [];
    } else if m[0].key == v.key {
      assert ([v] + m[1..])[1..] == m[1..];
    } else {
      PutVoteHolds(m[1..], v, key);
      assert ([m[0]] + PutVote(m[1..], v))[1..] == PutVote(m[1..], v);
    }
  }

  lemma {:induction false} LastCounts(lines: seq<string>, key: string)
    ensures Get(Ballots(VotesOf(lines, [])), key) == LastOf(lines, key)
    decreases |lines|
  {
    hide Trim, IsVoteLine, BallotKey, Ballots, PutVote;
    if lines == [] {
      assert Ballots([]) == map[] by { NoBallots(); }
    } else {
      var (front, line) := (lines[..|lines| - 1], lines[|lines| - 1]);
      assert lines == front + [line];
      var t := Trim(line);
      LastCounts(front, key);
      VotesOfSnoc(front, line, []);
      if IsVoteLine(t) { PutVoteHolds(VotesOf(front, []), Vote(BallotKey(t), t), key); }
      hide VotesOf;
    }
  }

  lemma NoBallots()
    ensures Ballots([]) == map[]
  {
  }

  /// The ballot of a voter is the last line the drawer has of it.
  lemma LastBallotCounts(drawer: Option<string>, key: string)
    ensures Get(Ballots(Votes(drawer)), key) == LastOf(SplitNl(drawer.GetOr("")), key)
  {
    LastCounts(SplitNl(drawer.GetOr("")), key);
  }

  /// A line with a stamp, an agent and a choice is filed under the agent, and
  /// its stamp is read whole.
  lemma BallotIsRead(stamp: string, agent: string, choice: string)
    requires ']' !in stamp && ':' !in agent && Trim(agent) == agent && agent != "" && Trim(choice) != ""
    ensures var line := "[" + stamp + "] " + agent + ": " + choice;
      ParseBallot(line) == Some(Ballot(agent, "[" + stamp + "]")) && BallotKey(line) == "voter " + agent
  {
    var line := "[" + stamp + "] " + agent + ": " + choice;
    var rest := agent + ": " + choice;
    assert line[1..] == stamp + "] " + rest;
    SplitOnceAt(stamp, "] ", rest);
    SplitOnceAt(agent, ": ", choice);
    hide SplitOnce, Trim;
  }
}
