/** What the drawer merge promises: sides may be swapped, and merging again changes nothing. */
module DrawerLaws {
  import opened Base
  import opened Text
  import opened Order
  import opened Issue
  import opened MergeSets
  import opened MergeDrawers

  // ---- one ballot ----

  lemma BallotCommutes(key: string, o: Option<string>, a: Option<string>, b: Option<string>)
    ensures Fields(MergedBallot(key, o, a, b).1) == Fields(MergedBallot(key, o, b, a).1)
    ensures MergedBallot(key, o, a, b).1 == [] ==> MergedBallot(key, o, b, a) == MergedBallot(key, o, a, b)
  {
    hide ParseBallot, WithoutVoter;
    PickCommutes(o, a, b);
    var (sa, sb) := (BallotStamp(a), BallotStamp(b));
    if sa.Some? && sb.Some? {
      LessTotal(sa.value, sb.value);
      if Less(sa.value, sb.value) {
        LessAsymmetric(sa.value, sb.value);
      } else if Less(sb.value, sa.value) {
        LessAsymmetric(sb.value, sa.value);
      }
    }
    var f := "ballot of " + WithoutVoter(key);
    assert Fields([Clash(f, a.GetOr(""))]) == {f};
    assert Fields([Clash(f, b.GetOr(""))]) == {f};
  }

  lemma BallotAbsorbs(key: string, o: Option<string>, a: Option<string>, b: Option<string>)
    requires MergedBallot(key, o, a, b).1 == []
    ensures var v := MergedBallot(key, o, a, b).0; MergedBallot(key, o, v, b) == (v, [])
  {
    hide ParseBallot, WithoutVoter;
    var (sa, sb) := (BallotStamp(a), BallotStamp(b));
    if Pick(o, a, b).1 && sa.Some? && sb.Some? && Less(sb.value, sa.value) {
      LessAsymmetric(sb.value, sa.value);
    }
  }

  // ---- the keys ----

  function KeySet(m: seq<Vote>): set<string> {
    set v | v in m :: v.key
  }

  lemma {:induction false} AddKeysFacts(keys: seq<string>, m: seq<Vote>)
    requires Distinct(keys)
    ensures Distinct(AddKeys(keys, m))
    ensures Elems(AddKeys(keys, m)) == Elems(keys) + KeySet(m)
    ensures keys <= AddKeys(keys, m)
    decreases |m|
  {
    if m != [] {
      var next := if m[0].key in keys then keys else keys + [m[0].key];
      AddKeysFacts(next, m[1..]);
      assert m == [m[0]] + m[1..];
      assert KeySet(m) == {m[0].key} + KeySet(m[1..]);
      assert Elems(next) == Elems(keys) + {m[0].key};
    }
  }

  lemma KeysOfFacts(o: seq<Vote>, a: seq<Vote>, b: seq<Vote>)
    ensures Distinct(KeysOf(o, a, b))
    ensures Elems(KeysOf(o, a, b)) == KeySet(o) + KeySet(a) + KeySet(b)
    ensures AddKeys([], a) <= KeysOf(o, a, b)
  {
    AddKeysFacts([], a);
    AddKeysFacts(AddKeys([], a), b);
    AddKeysFacts(AddKeys(AddKeys([], a), b), o);
  }

  lemma {:induction false} KeysInOrder(keys: seq<string>, m: seq<Vote>)
    requires KeysOnce(m) && forall v :: v in m ==> v.key !in keys
    ensures AddKeys(keys, m) == keys + seq(|m|, i requires 0 <= i < |m| => m[i].key)
    decreases |m|
  {
    if m != [] {
      assert m[0] in m;
      forall v | v in m[1..] ensures v.key !in keys + [m[0].key] {
        var i :| 1 <= i < |m| && m[i] == v;
      }
      KeysInOrder(keys + [m[0].key], m[1..]);
    }
  }

  lemma BallotKeys(m: seq<Vote>)
    requires KeysOnce(m)
    ensures Ballots(m).Keys == KeySet(m)
  {
    BallotsOf(m);
  }

  // ---- all ballots ----

  function BallotAt(k: string, o: map<string, string>, a: map<string, string>, b: map<string, string>)
    : (Option<string>, seq<Clash>)
  {
    MergedBallot(k, Get(o, k), Get(a, k), Get(b, k))
  }

  /// Every ballot of the table is a read line filed under its key.
  predicate ReadTable(m: map<string, string>) {
    forall k :: k in m ==> ReadVote(Vote(k, m[k]))
  }

  lemma TableRead(m: seq<Vote>)
    requires WellFormedVotes(m)
    ensures ReadTable(Ballots(m))
  {
    hide ReadVote;
    BallotsOf(m);
    forall k | k in Ballots(m) ensures ReadVote(Vote(k, Ballots(m)[k])) {
      var v :| v in m && v.key == k;
      assert v == Vote(k, Ballots(m)[k]);
    }
  }

  lemma {:induction false} MergedBallotsFacts(keys: seq<string>, o: map<string, string>, a: map<string, string>, b: map<string, string>)
    requires Distinct(keys) && ReadTable(a) && ReadTable(b)
    ensures var (kept, clashes) := MergedBallots(keys, o, a, b);
      && WellFormedVotes(kept)
      && (forall v :: v in kept ==> v.key in keys && BallotAt(v.key, o, a, b).0 == Some(v.line))
      && (forall k :: k in keys && BallotAt(k, o, a, b).0.Some? ==>
            Vote(k, BallotAt(k, o, a, b).0.value) in kept)
      && (forall c :: c in clashes ==> exists k :: k in keys && c in BallotAt(k, o, a, b).1)
      && (forall k :: k in keys ==> Fields(BallotAt(k, o, a, b).1) <= Fields(clashes))
  {
    hide ReadVote, MergedBallot;
    if keys != [] {
      var k := keys[0];
      var (v, clash) := BallotAt(k, o, a, b);
      var (rest, clashes) := MergedBallots(keys[1..], o, a, b);
      MergedBallotsFacts(keys[1..], o, a, b);
      BallotIsOneSides(k, o, a, b);
      var kept := MergedBallots(keys, o, a, b).0;
      if v.Some? {
        assert kept == [Vote(k, v.value)] + rest;
        forall i | 0 <= i < |rest| ensures rest[i].key != k { assert rest[i] in rest; }
      } else {
        assert kept == rest;
      }
      FieldsConcat(clash, clashes);
    }
  }

  lemma BallotIsOneSides(k: string, o: map<string, string>, a: map<string, string>, b: map<string, string>)
    requires ReadTable(a) && ReadTable(b)
    ensures var v := BallotAt(k, o, a, b).0; v.Some? ==> ReadVote(Vote(k, v.value))
  {
    hide ParseBallot, ReadVote, WithoutVoter;
    var v := BallotAt(k, o, a, b).0;
    assert v == Get(a, k) || v == Get(b, k);
  }

  lemma VotesFacts(o: Option<string>, a: Option<string>, b: Option<string>)
    ensures var (ov, av, bv) := (Votes(o), Votes(a), Votes(b));
      var keys := KeysOf(ov, av, bv);
      && Distinct(keys)
      && Elems(keys) == Ballots(ov).Keys + Ballots(av).Keys + Ballots(bv).Keys
      && ReadTable(Ballots(av)) && ReadTable(Ballots(bv))
  {
    VotesWellFormed(o);
    VotesWellFormed(a);
    VotesWellFormed(b);
    hide ReadVote;
    TableRead(Votes(a));
    TableRead(Votes(b));
    KeysOfFacts(Votes(o), Votes(a), Votes(b));
    BallotKeys(Votes(o));
    BallotKeys(Votes(a));
    BallotKeys(Votes(b));
  }

  lemma KeptTable(keys: seq<string>, o: map<string, string>, a: map<string, string>, b: map<string, string>)
    requires Distinct(keys) && ReadTable(a) && ReadTable(b)
    requires Elems(keys) == o.Keys + a.Keys + b.Keys
    ensures forall k :: Get(Ballots(MergedBallots(keys, o, a, b).0), k) == BallotAt(k, o, a, b).0
  {
    var kept := MergedBallots(keys, o, a, b).0;
    MergedBallotsFacts(keys, o, a, b);
    hide ReadVote, ParseBallot;
    BallotsOf(kept);
    forall k ensures Get(Ballots(kept), k) == BallotAt(k, o, a, b).0 {
      assert k in keys <==> k in Elems(keys);
      if k in Ballots(kept) {
        var v :| v in kept && v.key == k;
      }
    }
  }

  /// The merged votes read back as they were merged.
  lemma MergedVotesRead(o: Option<string>, a: Option<string>, b: Option<string>)
    ensures var m := MergedVotes(o, a, b).0;
      && Votes(m) == MergedBallots(KeysOf(Votes(o), Votes(a), Votes(b)), Ballots(Votes(o)), Ballots(Votes(a)), Ballots(Votes(b))).0
      && (m.Some? ==> DrawerName(m.value) == VOTES_DRAWER)
      && NormalVotes(m)
  {
    var (ot, at, bt) := (Ballots(Votes(o)), Ballots(Votes(a)), Ballots(Votes(b)));
    var keys := KeysOf(Votes(o), Votes(a), Votes(b));
    var kept := MergedBallots(keys, ot, at, bt).0;
    VotesFacts(o, a, b);
    MergedBallotsFacts(keys, ot, at, bt);
    hide ReadVote, ParseBallot, VotesOf, MergedBallots, DrawerName, VotesText;
    if kept == [] {
      NoVotes();
    } else {
      VotesTextReadsBack(kept);
    }
  }

  /// What a votes drawer holds after the merge: each voter's merged ballot.
  lemma MergedVotesHold(o: Option<string>, a: Option<string>, b: Option<string>)
    ensures forall k :: Get(Ballots(Votes(MergedVotes(o, a, b).0)), k)
                     == BallotAt(k, Ballots(Votes(o)), Ballots(Votes(a)), Ballots(Votes(b))).0
  {
    hide *;
    MergedVotesRead(o, a, b);
    VotesFacts(o, a, b);
    KeptTable(KeysOf(Votes(o), Votes(a), Votes(b)), Ballots(Votes(o)), Ballots(Votes(a)), Ballots(Votes(b)));
  }

  lemma NoVotes()
    ensures Votes(None) == []
  {
    assert SplitNl("") == [""];
    assert VotesOf([""], []) == VotesOf([], []);
  }

  lemma {:induction false} SameFieldsBothWays(keys: seq<string>, other: seq<string>,
                                               o: map<string, string>, a: map<string, string>, b: map<string, string>)
    requires Distinct(keys) && Distinct(other) && Elems(keys) == Elems(other)
    requires ReadTable(a) && ReadTable(b)
    ensures Fields(MergedBallots(keys, o, a, b).1) <= Fields(MergedBallots(other, o, b, a).1)
  {
    MergedBallotsFacts(keys, o, a, b);
    MergedBallotsFacts(other, o, b, a);
    hide ReadVote, MergedBallot;
    var (_, clashes) := MergedBallots(keys, o, a, b);
    forall f | f in Fields(clashes)
      ensures f in Fields(MergedBallots(other, o, b, a).1)
    {
      var c :| c in clashes && c.field == f;
      var k :| k in keys && c in BallotAt(k, o, a, b).1;
      BallotCommutes(k, Get(o, k), Get(a, k), Get(b, k));
      assert f in Fields(BallotAt(k, o, b, a).1);
      assert k in Elems(other);
    }
  }

  lemma VoteFieldsCommute(o: Option<string>, a: Option<string>, b: Option<string>)
    ensures Fields(MergedVotes(o, a, b).1) == Fields(MergedVotes(o, b, a).1)
  {
    var (ot, at, bt) := (Ballots(Votes(o)), Ballots(Votes(a)), Ballots(Votes(b)));
    var (keys, other) := (KeysOf(Votes(o), Votes(a), Votes(b)), KeysOf(Votes(o), Votes(b), Votes(a)));
    VotesFacts(o, a, b);
    VotesFacts(o, b, a);
    hide ReadTable, Votes, MergedBallots, KeysOf;
    SameFieldsBothWays(keys, other, ot, at, bt);
    SameFieldsBothWays(other, keys, ot, bt, at);
  }

  /// Swapping the sides gives the same clashes, and without one the same
  /// ballot for every voter.
  lemma VotesCommute(o: Option<string>, a: Option<string>, b: Option<string>)
    ensures Fields(MergedVotes(o, a, b).1) == Fields(MergedVotes(o, b, a).1)
    ensures MergedVotes(o, a, b).1 == [] ==>
      Ballots(Votes(MergedVotes(o, a, b).0)) == Ballots(Votes(MergedVotes(o, b, a).0))
  {
    VoteFieldsCommute(o, a, b);
    if MergedVotes(o, a, b).1 == [] {
      var (ot, at, bt) := (Ballots(Votes(o)), Ballots(Votes(a)), Ballots(Votes(b)));
      MergedVotesHold(o, a, b);
      MergedVotesHold(o, b, a);
      VotesFacts(o, a, b);
      var (x, y) := (Ballots(Votes(MergedVotes(o, a, b).0)), Ballots(Votes(MergedVotes(o, b, a).0)));
      forall k ensures Get(x, k) == Get(y, k) {
        NoClashAt(k, KeysOf(Votes(o), Votes(a), Votes(b)), ot, at, bt);
        hide *;
        assert Get(x, k) == BallotAt(k, ot, at, bt).0 && Get(y, k) == BallotAt(k, ot, bt, at).0;
        BallotAtCommutes(k, ot, at, bt);
      }
      SameLookups(x, y);
    }
  }

  lemma BallotAtCommutes(k: string, o: map<string, string>, a: map<string, string>, b: map<string, string>)
    requires BallotAt(k, o, a, b).1 == []
    ensures BallotAt(k, o, a, b) == BallotAt(k, o, b, a)
  {
    hide MergedBallot;
    BallotCommutes(k, Get(o, k), Get(a, k), Get(b, k));
  }

  /// With no clash recorded, no key clashes.
  lemma NoClashAt(k: string, keys: seq<string>, o: map<string, string>, a: map<string, string>, b: map<string, string>)
    requires Distinct(keys) && ReadTable(a) && ReadTable(b)
    requires Elems(keys) == o.Keys + a.Keys + b.Keys
    requires MergedBallots(keys, o, a, b).1 == []
    ensures BallotAt(k, o, a, b).1 == []
  {
    MergedBallotsFacts(keys, o, a, b);
    hide ReadVote;
    if k in keys {
      NoFields(BallotAt(k, o, a, b).1);
      assert Fields([]) == {};
    } else {
      assert k !in Elems(keys);
    }
  }

  lemma {:induction false} BallotsKept(keys: seq<string>, m: seq<Vote>, o: map<string, string>, a: map<string, string>, b: map<string, string>)
    requires |m| <= |keys| && forall i :: 0 <= i < |m| ==> keys[i] == m[i].key
    requires forall i :: 0 <= i < |m| ==> BallotAt(keys[i], o, a, b) == (Some(m[i].line), [])
    requires forall i :: |m| <= i < |keys| ==> BallotAt(keys[i], o, a, b) == (None, [])
    ensures MergedBallots(keys, o, a, b) == (m, [])
  {
    hide MergedBallot;
    if keys != [] {
      var rest := if m == [] then [] else m[1..];
      BallotsKept(keys[1..], rest, o, a, b);
      var (v, clash) := MergedBallot(keys[0], Get(o, keys[0]), Get(a, keys[0]), Get(b, keys[0]));
      assert (v, clash) == BallotAt(keys[0], o, a, b);
      assert m == (if v.Some? then [Vote(keys[0], v.value)] else []) + rest;
      assert MergedBallots(keys[1..], o, a, b) == (rest, []);
      assert clash + [] == [];
    }
  }

  lemma BallotsStay(m: seq<Vote>, keys: seq<string>, o: map<string, string>, b: map<string, string>)
    requires KeysOnce(m) && Distinct(keys)
    requires |m| <= |keys| && forall i :: 0 <= i < |m| ==> keys[i] == m[i].key
    requires forall k :: BallotAt(k, o, Ballots(m), b) == (Get(Ballots(m), k), [])
    ensures MergedBallots(keys, o, Ballots(m), b) == (m, [])
  {
    hide BallotAt, MergedBallots;
    var t := Ballots(m);
    BallotsOf(m);
    forall i | 0 <= i < |m| ensures BallotAt(keys[i], o, t, b) == (Some(m[i].line), []) {
      assert m[i] in m;
    }
    forall i | |m| <= i < |keys| ensures BallotAt(keys[i], o, t, b) == (None, []) {
      forall v | v in m ensures v.key != keys[i] {
        var j :| 0 <= j < |m| && m[j] == v;
        assert keys[j] == v.key;
      }
    }
    BallotsKept(keys, m, o, t, b);
  }

  /// Votes whose every ballot the merge with `b` leaves alone come out as they are.
  lemma VotesStay(o: Option<string>, m: Option<string>, b: Option<string>)
    requires forall k :: BallotAt(k, Ballots(Votes(o)), Ballots(Votes(m)), Ballots(Votes(b)))
                      == (Get(Ballots(Votes(m)), k), [])
    ensures MergedVotes(o, m, b) == (if Votes(m) == [] then None else Some(VotesText(Votes(m))), [])
  {
    hide ReadVote, Votes, BallotAt, MergedBallots, Ballots, VotesText, AddKeys;
    var (ov, mv, bv) := (Votes(o), Votes(m), Votes(b));
    var keys := KeysOf(ov, mv, bv);
    VotesWellFormed(m);
    KeysInOrder([], mv);
    KeysOfFacts(ov, mv, bv);
    forall i | 0 <= i < |mv| ensures keys[i] == mv[i].key {
      assert keys[i] == AddKeys([], mv)[i];
    }
    BallotsStay(mv, keys, Ballots(ov), Ballots(bv));
  }

  /// A votes drawer as a merge writes it.
  predicate NormalVotes(d: Option<string>) {
    d == if Votes(d) == [] then None else Some(VotesText(Votes(d)))
  }

  lemma BallotAtAbsorbs(k: string, o: map<string, string>, a: map<string, string>, b: map<string, string>, m: map<string, string>)
    requires BallotAt(k, o, a, b).1 == [] && Get(m, k) == BallotAt(k, o, a, b).0
    ensures BallotAt(k, o, m, b) == (Get(m, k), [])
  {
    hide MergedBallot;
    BallotAbsorbs(k, Get(o, k), Get(a, k), Get(b, k));
  }

  /// Merging the same theirs into merged votes changes nothing.
  lemma VotesAbsorb(o: Option<string>, a: Option<string>, b: Option<string>)
    requires MergedVotes(o, a, b).1 == []
    ensures var m := MergedVotes(o, a, b).0; MergedVotes(o, m, b) == (m, [])
  {
    var m := MergedVotes(o, a, b).0;
    var (ot, at, bt) := (Ballots(Votes(o)), Ballots(Votes(a)), Ballots(Votes(b)));
    var keys := KeysOf(Votes(o), Votes(a), Votes(b));
    VotesFacts(o, a, b);
    MergedVotesHold(o, a, b);
    MergedVotesRead(o, a, b);
    assert MergedBallots(keys, ot, at, bt).1 == [];
    hide BallotAt, MergedBallots, Votes, VotesText, KeysOf, DrawerName, ReadTable, Ballots;
    forall k ensures BallotAt(k, ot, Ballots(Votes(m)), bt) == (Get(Ballots(Votes(m)), k), []) {
      NoClashAt(k, keys, ot, at, bt);
      BallotAtAbsorbs(k, ot, at, bt, Ballots(Votes(m)));
    }
    VotesStay(o, m, b);
  }

  /// Votes merged with a theirs that is still the base are ours, written as a
  /// merge writes them.
  lemma VotesIdentity(o: Option<string>, a: Option<string>)
    ensures MergedVotes(o, a, o) == (if Votes(a) == [] then None else Some(VotesText(Votes(a))), [])
  {
    hide VotesOf;
    VotesStay(o, a, o);
  }

  // ---- all drawers ----

  function Names(drawers: seq<string>): set<string> {
    set d | d in drawers :: DrawerName(d)
  }

  lemma {:induction false} AddNamesFacts(names: seq<string>, drawers: seq<string>)
    requires Distinct(names) && CONFLICT_DRAWER !in names
    ensures var r := AddNames(names, drawers);
      && Distinct(r) && CONFLICT_DRAWER !in r
      && Elems(r) == Elems(names) + (Names(drawers) - {CONFLICT_DRAWER})
      && names <= r
    decreases |drawers|
  {
    hide DrawerName;
    if drawers != [] {
      var n := DrawerName(drawers[0]);
      var next := if n != CONFLICT_DRAWER && n !in names then names + [n] else names;
      AddNamesFacts(next, drawers[1..]);
      assert drawers == [drawers[0]] + drawers[1..];
      assert Names(drawers) == {n} + Names(drawers[1..]);
      assert Elems(next) == Elems(names) + ({n} - {CONFLICT_DRAWER});
    }
  }

  function MergedNames(ours: seq<string>, theirs: seq<string>): seq<string> {
    AddNames(AddNames([], ours), theirs)
  }

  lemma MergedNamesFacts(ours: seq<string>, theirs: seq<string>)
    ensures var r := MergedNames(ours, theirs);
      && Distinct(r)
      && Elems(r) == Names(ours) + Names(theirs) - {CONFLICT_DRAWER}
      && AddNames([], ours) <= r
  {
    AddNamesFacts([], ours);
    AddNamesFacts(AddNames([], ours), theirs);
  }

  lemma {:induction false} FindSome(drawers: seq<string>, name: string)
    ensures Find(drawers, name).Some? <==> name in Names(drawers)
  {
    hide DrawerName;
    if drawers != [] {
      FindSome(drawers[1..], name);
      assert drawers == [drawers[0]] + drawers[1..];
      assert Names(drawers) == {DrawerName(drawers[0])} + Names(drawers[1..]);
    }
  }

  /// A merged drawer has the name it was merged under.
  lemma MergedDrawerName(name: string, base: seq<string>, ours: seq<string>, theirs: seq<string>)
    ensures var d := MergedDrawer(name, base, ours, theirs).0; d.Some? ==> DrawerName(d.value) == name
  {
    hide DrawerName, MergedVotes, Find;
    if name == VOTES_DRAWER {
      MergedVotesRead(Find(base, name), Find(ours, name), Find(theirs, name));
    }
  }

  /// A name neither side has gives nothing.
  lemma NoDrawer(name: string, base: seq<string>, ours: seq<string>, theirs: seq<string>)
    requires name !in Names(ours) && name !in Names(theirs)
    ensures MergedDrawer(name, base, ours, theirs).1 == []
    ensures MergedDrawer(name, base, ours, theirs).0 == None
  {
    FindSome(ours, name);
    FindSome(theirs, name);
    if name == VOTES_DRAWER {
      NoVotesLeft(Find(base, name));
    }
  }

  lemma NoVotesLeft(o: Option<string>)
    ensures MergedVotes(o, None, None) == (None, [])
  {
    NoVotes();
    hide VotesOf;
    forall k ensures BallotAt(k, Ballots(Votes(o)), map[], map[]) == (None, []) {}
    VotesStay(o, None, None);
  }

  lemma {:induction false} MergedNamedFacts(names: seq<string>, base: seq<string>, ours: seq<string>, theirs: seq<string>)
    requires Distinct(names)
    ensures var (drawers, clashes) := MergedNamed(names, base, ours, theirs);
      && (forall n :: Find(drawers, n) == if n in names then MergedDrawer(n, base, ours, theirs).0 else None)
      && (forall c :: c in clashes ==> exists n :: n in names && c in MergedDrawer(n, base, ours, theirs).1)
      && (forall n :: n in names ==> Fields(MergedDrawer(n, base, ours, theirs).1) <= Fields(clashes))
  {
    hide DrawerName, MergedDrawer;
    if names != [] {
      var (v, clash) := MergedDrawer(names[0], base, ours, theirs);
      var (rest, clashes) := MergedNamed(names[1..], base, ours, theirs);
      MergedNamedFacts(names[1..], base, ours, theirs);
      MergedDrawerName(names[0], base, ours, theirs);
      FieldsConcat(clash, clashes);
      var drawers := MergedNamed(names, base, ours, theirs).0;
      if v.Some? {
        assert drawers == [v.value] + rest;
      } else {
        assert drawers == rest;
      }
    }
  }

  lemma {:induction false} FindConcat(s: seq<string>, t: seq<string>, name: string)
    ensures Find(s + t, name) == if Find(s, name).Some? then Find(s, name) else Find(t, name)
  {
    hide DrawerName;
    if s == [] {
      assert s + t == t;
    } else {
      FindConcat(s[1..], t, name);
      assert (s + t)[1..] == s[1..] + t;
    }
  }

  /// The merged drawers hold, under each name, the merge of that name's drawers.
  lemma MergedDrawersHold(base: seq<string>, ours: seq<string>, theirs: seq<string>)
    ensures forall n :: n != CONFLICT_DRAWER ==>
      Find(MergedDrawers(base, ours, theirs).0, n) == MergedDrawer(n, base, ours, theirs).0
    ensures Find(MergedDrawers(base, ours, theirs).0, CONFLICT_DRAWER) == Find(ours, CONFLICT_DRAWER)
  {
    hide DrawerName, MergedDrawer, AddNames, MergedNamed;
    var names := MergedNames(ours, theirs);
    var drawers := MergedNamed(names, base, ours, theirs).0;
    var kept := match Find(ours, CONFLICT_DRAWER) case Some(d) => [d] case None => [];
    MergedNamesFacts(ours, theirs);
    MergedNamedFacts(names, base, ours, theirs);
    forall n | n != CONFLICT_DRAWER
      ensures Find(drawers + kept, n) == MergedDrawer(n, base, ours, theirs).0
    {
      FindConcat(drawers, kept, n);
      assert n in names <==> n in Elems(names);
      if n !in names {
        NoDrawer(n, base, ours, theirs);
      }
    }
    FindConcat(drawers, kept, CONFLICT_DRAWER);
    assert CONFLICT_DRAWER !in Elems(names);
  }

  lemma DrawerCommutes(name: string, base: seq<string>, ours: seq<string>, theirs: seq<string>)
    ensures Fields(MergedDrawer(name, base, ours, theirs).1) == Fields(MergedDrawer(name, base, theirs, ours).1)
    ensures MergedDrawer(name, base, ours, theirs).1 == [] ==>
      && (name != VOTES_DRAWER ==>
            MergedDrawer(name, base, ours, theirs) == MergedDrawer(name, base, theirs, ours))
      && (name == VOTES_DRAWER ==>
            Ballots(Votes(MergedDrawer(name, base, ours, theirs).0)) ==
            Ballots(Votes(MergedDrawer(name, base, theirs, ours).0)))
  {
    hide MergedVotes, Find, Votes, Ballots;
    var (o, a, b) := (Find(base, name), Find(ours, name), Find(theirs, name));
    if name == VOTES_DRAWER {
      VotesCommute(o, a, b);
    } else {
      PickCommutes(o, a, b);
      assert Fields([Clash("drawer " + name, a.GetOr(""))]) == {"drawer " + name};
      assert Fields([Clash("drawer " + name, b.GetOr(""))]) == {"drawer " + name};
    }
  }

  lemma DrawerFieldsOneWay(base: seq<string>, ours: seq<string>, theirs: seq<string>)
    ensures Fields(MergedDrawers(base, ours, theirs).1) <= Fields(MergedDrawers(base, theirs, ours).1)
  {
    hide DrawerName, MergedDrawer, AddNames, MergedNamed;
    var (names, other) := (MergedNames(ours, theirs), MergedNames(theirs, ours));
    MergedNamesFacts(ours, theirs);
    MergedNamesFacts(theirs, ours);
    MergedNamedFacts(names, base, ours, theirs);
    MergedNamedFacts(other, base, theirs, ours);
    var clashes := MergedNamed(names, base, ours, theirs).1;
    forall f | f in Fields(clashes)
      ensures f in Fields(MergedNamed(other, base, theirs, ours).1)
    {
      var c :| c in clashes && c.field == f;
      var n :| n in names && c in MergedDrawer(n, base, ours, theirs).1;
      DrawerCommutes(n, base, ours, theirs);
      assert f in Fields(MergedDrawer(n, base, theirs, ours).1);
      assert n in Elems(names);
      assert n in Elems(other);
    }
  }

  /// Same drawer under every name but the clash drawer's; the votes as ballots.
  ghost predicate SameDrawers(x: seq<string>, y: seq<string>) {
    && (forall n :: n != CONFLICT_DRAWER && n != VOTES_DRAWER ==> Find(x, n) == Find(y, n))
    && Ballots(Votes(Find(x, VOTES_DRAWER))) == Ballots(Votes(Find(y, VOTES_DRAWER)))
  }

  lemma NoDrawerClash(name: string, base: seq<string>, ours: seq<string>, theirs: seq<string>)
    requires MergedDrawers(base, ours, theirs).1 == [] && name != CONFLICT_DRAWER
    ensures MergedDrawer(name, base, ours, theirs).1 == []
  {
    hide DrawerName, MergedDrawer, AddNames;
    var names := MergedNames(ours, theirs);
    MergedNamesFacts(ours, theirs);
    MergedNamedFacts(names, base, ours, theirs);
    if name in names {
      NoFields(MergedDrawer(name, base, ours, theirs).1);
      NoFields([]);
    } else {
      assert name !in Elems(names);
      NoDrawer(name, base, ours, theirs);
    }
  }

  lemma DrawersCommute(base: seq<string>, ours: seq<string>, theirs: seq<string>)
    ensures Fields(MergedDrawers(base, ours, theirs).1) == Fields(MergedDrawers(base, theirs, ours).1)
    ensures MergedDrawers(base, ours, theirs).1 == [] ==>
      SameDrawers(MergedDrawers(base, ours, theirs).0, MergedDrawers(base, theirs, ours).0)
  {
    DrawerFieldsOneWay(base, ours, theirs);
    DrawerFieldsOneWay(base, theirs, ours);
    if MergedDrawers(base, ours, theirs).1 == [] {
      hide DrawerName, MergedDrawer, MergedDrawers, Votes, Ballots, Find;
      MergedDrawersHold(base, ours, theirs);
      MergedDrawersHold(base, theirs, ours);
      forall n | n != CONFLICT_DRAWER && n != VOTES_DRAWER
        ensures Find(MergedDrawers(base, ours, theirs).0, n) == Find(MergedDrawers(base, theirs, ours).0, n)
      {
        NoDrawerClash(n, base, ours, theirs);
        DrawerCommutes(n, base, ours, theirs);
      }
      NoDrawerClash(VOTES_DRAWER, base, ours, theirs);
      DrawerCommutes(VOTES_DRAWER, base, ours, theirs);
    }
  }

  // ---- merging again ----

  function DrawerNames(drawers: seq<string>): seq<string> {
    seq(|drawers|, i requires 0 <= i < |drawers| => DrawerName(drawers[i]))
  }

  lemma {:induction false} NamesInOrder(names: seq<string>, drawers: seq<string>)
    requires Distinct(names + DrawerNames(drawers)) && CONFLICT_DRAWER !in DrawerNames(drawers)
    ensures AddNames(names, drawers) == names + DrawerNames(drawers)
    decreases |drawers|
  {
    hide DrawerName;
    if drawers != [] {
      var n := DrawerName(drawers[0]);
      var all := names + DrawerNames(drawers);
      assert DrawerNames(drawers)[0] == n;
      assert all[|names|] == n;
      forall i | 0 <= i < |names| ensures names[i] != n { assert all[i] == names[i]; }
      assert DrawerNames(drawers)[1..] == DrawerNames(drawers[1..]);
      assert all == (names + [n]) + DrawerNames(drawers[1..]);
      NamesInOrder(names + [n], drawers[1..]);
    }
  }

  lemma {:induction false} DrawersKept(names: seq<string>, kept: seq<string>, base: seq<string>, ours: seq<string>, theirs: seq<string>)
    requires |kept| <= |names|
    requires forall i :: 0 <= i < |kept| ==> MergedDrawer(names[i], base, ours, theirs) == (Some(kept[i]), [])
    requires forall i :: |kept| <= i < |names| ==> MergedDrawer(names[i], base, ours, theirs) == (None, [])
    ensures MergedNamed(names, base, ours, theirs) == (kept, [])
  {
    hide MergedDrawer;
    if names != [] {
      var rest := if kept == [] then [] else kept[1..];
      DrawersKept(names[1..], rest, base, ours, theirs);
      var (v, clash) := MergedDrawer(names[0], base, ours, theirs);
      assert kept == (if v.Some? then [v.value] else []) + rest;
      assert clash + [] == [];
    }
  }

  /// Drawers as a merge leaves them: one a name, the clash drawer last.
  predicate DrawersInOrder(drawers: seq<string>) {
    && Distinct(DrawerNames(drawers))
    && forall i :: 0 <= i < |drawers| - 1 ==> DrawerName(drawers[i]) != CONFLICT_DRAWER
  }

  lemma {:induction false} FindAt(drawers: seq<string>, i: nat)
    requires Distinct(DrawerNames(drawers)) && i < |drawers|
    ensures Find(drawers, DrawerName(drawers[i])) == Some(drawers[i])
  {
    hide DrawerName;
    var names := DrawerNames(drawers);
    assert names[0] == DrawerName(drawers[0]) && names[i] == DrawerName(drawers[i]);
    if i > 0 {
      assert DrawerNames(drawers[1..]) == names[1..];
      FindAt(drawers[1..], i - 1);
    }
  }

  /// Drawers the merge with theirs gives back name by name, as they are or
  /// written anew, come out in ours' order.
  lemma DrawersStayAs(base: seq<string>, ours: seq<string>, m: seq<string>, theirs: seq<string>)
    requires DrawersInOrder(ours) && DrawerNames(m) == DrawerNames(ours)
    requires ours != [] && DrawerName(ours[|ours| - 1]) == CONFLICT_DRAWER ==> m[|m| - 1] == ours[|ours| - 1]
    requires forall n :: n != CONFLICT_DRAWER ==> MergedDrawer(n, base, ours, theirs) == (Find(m, n), [])
    ensures MergedDrawers(base, ours, theirs) == (m, [])
  {
    hide DrawersInOrder, MergedNames, DrawerNames, MergedDrawers, MergedDrawer, MergedNamed, DrawerName, Find, Distinct;
    var kept, last := Fronts(ours, m, theirs);
    NamesGiveBack(base, ours, theirs, m, kept, last, MergedNames(ours, theirs));
    DrawersKept(MergedNames(ours, theirs), kept, base, ours, theirs);
    MergedOf(base, ours, theirs);
  }

  lemma SameCount(s: seq<string>, t: seq<string>)
    requires DrawerNames(s) == DrawerNames(t)
    ensures |s| == |t|
  {
    hide DrawerName;
    assert |DrawerNames(s)| == |s| && |DrawerNames(t)| == |t|;
  }

  /// The last drawer, where it is the clash drawer.
  function LastClash(drawers: seq<string>): seq<string> {
    if drawers != [] && DrawerName(drawers[|drawers| - 1]) == CONFLICT_DRAWER then [drawers[|drawers| - 1]] else []
  }

  lemma LastClashIs(drawers: seq<string>)
    ensures var last := LastClash(drawers);
      && |last| <= 1 && |last| <= |drawers| && drawers == drawers[..|drawers| - |last|] + last
      && (last != [] ==> DrawerName(last[0]) == CONFLICT_DRAWER)
  {
    hide DrawerName;
  }

  lemma SameLast(ours: seq<string>, m: seq<string>)
    requires |m| == |ours|
    requires ours != [] && DrawerName(ours[|ours| - 1]) == CONFLICT_DRAWER ==> m[|m| - 1] == ours[|ours| - 1]
    ensures |LastClash(ours)| <= |ours| && m == m[..|ours| - |LastClash(ours)|] + LastClash(ours)
  {
    hide DrawerName;
  }

  lemma NamesDistinct(ours: seq<string>, m: seq<string>)
    requires DrawersInOrder(ours) && DrawerNames(m) == DrawerNames(ours)
    ensures Distinct(DrawerNames(m))
  {
    hide DrawerNames;
  }

  lemma NoClashName(ours: seq<string>, theirs: seq<string>)
    ensures var names := MergedNames(ours, theirs); Distinct(names) && CONFLICT_DRAWER !in names && AddNames([], ours) <= names
  {
    hide DrawerName, AddNames;
    MergedNamesFacts(ours, theirs);
    assert CONFLICT_DRAWER !in Elems(MergedNames(ours, theirs));
    hide MergedNames;
  }

  /// The drawers that are not the clash drawer, and that one.
  lemma Fronts(ours: seq<string>, m: seq<string>, theirs: seq<string>) returns (kept: seq<string>, last: seq<string>)
    requires DrawersInOrder(ours) && DrawerNames(m) == DrawerNames(ours)
    requires ours != [] && DrawerName(ours[|ours| - 1]) == CONFLICT_DRAWER ==> m[|m| - 1] == ours[|ours| - 1]
    ensures m == kept + last && Distinct(DrawerNames(m))
    ensures last != [] ==> |last| == 1 && DrawerName(last[0]) == CONFLICT_DRAWER
    ensures last == match Find(ours, CONFLICT_DRAWER) case Some(d) => [d] case None => []
    ensures var names := MergedNames(ours, theirs);
      Distinct(names) && DrawerNames(kept) <= names && CONFLICT_DRAWER !in names
  {
    SameCount(ours, m);
    last := LastClash(ours);
    LastClashIs(ours);
    SameLast(ours, m);
    hide *;
    var n := |ours| - |last|;
    kept := m[..n];
    SameFrontNames(ours, m, n);
    NamesDistinct(ours, m);
    NoClashName(ours, theirs);
    LastClashNames(ours, last);
  }

  lemma LastClashNames(ours: seq<string>, last: seq<string>)
    requires DrawersInOrder(ours) && last == LastClash(ours) && |last| <= |ours| && ours == ours[..|ours| - |last|] + last
    ensures AddNames([], ours) == DrawerNames(ours[..|ours| - |last|])
    ensures last == match Find(ours, CONFLICT_DRAWER) case Some(d) => [d] case None => []
  {
    hide DrawerName, DrawersInOrder, AddNames, DrawerNames, Find;
    NamesWithLast(ours, ours[..|ours| - |last|], last);
    ConflictLast(ours, ours[..|ours| - |last|], last);
  }

  lemma MergedOf(base: seq<string>, ours: seq<string>, theirs: seq<string>)
    ensures var (drawers, clashes) := MergedNamed(MergedNames(ours, theirs), base, ours, theirs);
      MergedDrawers(base, ours, theirs) ==
        (drawers + (match Find(ours, CONFLICT_DRAWER) case Some(d) => [d] case None => []), clashes)
  {
    hide MergedNamed, Find;
  }

  lemma SameFrontNames(s: seq<string>, t: seq<string>, n: nat)
    requires DrawerNames(s) == DrawerNames(t) && n <= |s| == |t|
    ensures DrawerNames(s[..n]) == DrawerNames(t[..n])
  {
    hide DrawerName;
    forall i | 0 <= i < n ensures DrawerName(s[i]) == DrawerName(t[i]) {
      assert DrawerNames(s)[i] == DrawerNames(t)[i];
    }
  }

  lemma NamesGiveBack(base: seq<string>, ours: seq<string>, theirs: seq<string>, m: seq<string>, kept: seq<string>,
                      last: seq<string>, names: seq<string>)
    requires Distinct(DrawerNames(m)) && m == kept + last && Distinct(names) && DrawerNames(kept) <= names
    requires CONFLICT_DRAWER !in names
    requires last != [] ==> |last| == 1 && DrawerName(last[0]) == CONFLICT_DRAWER
    requires forall n :: n != CONFLICT_DRAWER ==> MergedDrawer(n, base, ours, theirs) == (Find(m, n), [])
    ensures |kept| <= |names|
    ensures forall i :: 0 <= i < |kept| ==> MergedDrawer(names[i], base, ours, theirs) == (Some(kept[i]), [])
    ensures forall i :: |kept| <= i < |names| ==> MergedDrawer(names[i], base, ours, theirs) == (None, [])
  {
    hide DrawerName, MergedDrawer, Find;
    assert |DrawerNames(kept)| == |kept|;
    forall i | 0 <= i < |kept|
      ensures MergedDrawer(names[i], base, ours, theirs) == (Some(kept[i]), [])
    {
      assert names[i] == DrawerNames(kept)[i] == DrawerName(m[i]);
      assert names[i] in names;
      FindAt(m, i);
    }
    forall i | |kept| <= i < |names|
      ensures MergedDrawer(names[i], base, ours, theirs) == (None, [])
    {
      assert names[i] in names;
      NotBefore(names, DrawerNames(kept), i);
      NotFound(m, kept, last, names[i]);
    }
  }

  lemma NotFound(m: seq<string>, kept: seq<string>, last: seq<string>, name: string)
    requires m == kept + last && name !in DrawerNames(kept) && name != CONFLICT_DRAWER
    requires last != [] ==> |last| == 1 && DrawerName(last[0]) == CONFLICT_DRAWER
    ensures Find(m, name) == None
  {
    hide DrawerName;
    FindSome(m, name);
    forall d | d in m ensures DrawerName(d) != name {
      var j :| 0 <= j < |m| && m[j] == d;
      if j < |kept| {
        assert DrawerNames(kept)[j] == DrawerName(d);
      }
    }
  }

  /// Drawers that the merge with theirs leaves alone come out as they are.
  lemma DrawersStay(base: seq<string>, m: seq<string>, theirs: seq<string>)
    requires DrawersInOrder(m)
    requires forall n :: n != CONFLICT_DRAWER ==> MergedDrawer(n, base, m, theirs) == (Find(m, n), [])
    ensures MergedDrawers(base, m, theirs) == (m, [])
  {
    DrawersStayAs(base, m, m, theirs);
  }

  lemma NotBefore(names: seq<string>, front: seq<string>, i: nat)
    requires Distinct(names) && front <= names && |front| <= i < |names|
    ensures names[i] !in front
  {
    forall j | 0 <= j < |front| ensures front[j] != names[i] { assert names[j] == front[j]; }
  }

  lemma KeptNames(m: seq<string>, kept: seq<string>, last: seq<string>)
    requires DrawersInOrder(m) && m == kept + last
    requires last == if m != [] && DrawerName(m[|m| - 1]) == CONFLICT_DRAWER then [m[|m| - 1]] else []
    ensures Distinct([] + DrawerNames(kept)) && CONFLICT_DRAWER !in DrawerNames(kept)
  {
    hide DrawerName;
    var (names, all) := (DrawerNames(kept), DrawerNames(m));
    assert all[..|kept|] == names && [] + names == names;
    forall i | 0 <= i < |kept| ensures names[i] != CONFLICT_DRAWER {
      assert kept[i] == m[i];
    }
  }

  lemma ConflictAddsNothing(names: seq<string>, last: seq<string>)
    requires last != [] ==> |last| == 1 && DrawerName(last[0]) == CONFLICT_DRAWER
    ensures AddNames(names, last) == names
  {
    hide DrawerName;
    if last != [] { assert last[1..] == []; }
  }

  lemma NamesWithLast(m: seq<string>, kept: seq<string>, last: seq<string>)
    requires DrawersInOrder(m) && m == kept + last
    requires last == if m != [] && DrawerName(m[|m| - 1]) == CONFLICT_DRAWER then [m[|m| - 1]] else []
    ensures AddNames([], m) == DrawerNames(kept)
  {
    hide *;
    KeptNames(m, kept, last);
    NamesInOrder([], kept);
    AddNamesConcat([], kept, last);
    ConflictAddsNothing(AddNames([], kept), last);
    assert [] + DrawerNames(kept) == DrawerNames(kept);
  }

  lemma {:induction false} AddNamesConcat(names: seq<string>, s: seq<string>, t: seq<string>)
    ensures AddNames(names, s + t) == AddNames(AddNames(names, s), t)
    decreases |s|
  {
    hide DrawerName;
    if s == [] {
      assert s + t == t;
    } else {
      var n := DrawerName(s[0]);
      AddNamesConcat(if n != CONFLICT_DRAWER && n !in names then names + [n] else names, s[1..], t);
      assert (s + t)[1..] == s[1..] + t;
    }
  }

  lemma ConflictLast(m: seq<string>, kept: seq<string>, last: seq<string>)
    requires DrawersInOrder(m) && m == kept + last
    requires last == if m != [] && DrawerName(m[|m| - 1]) == CONFLICT_DRAWER then [m[|m| - 1]] else []
    ensures last == match Find(m, CONFLICT_DRAWER) case Some(d) => [d] case None => []
  {
    hide DrawerName;
    FindSome(m, CONFLICT_DRAWER);
    if last != [] {
      FindAt(m, |m| - 1);
    } else {
      forall d | d in m ensures DrawerName(d) != CONFLICT_DRAWER {
        var j :| 0 <= j < |m| && m[j] == d;
      }
    }
  }

  lemma {:induction false} MergedNamedOrder(names: seq<string>, base: seq<string>, ours: seq<string>, theirs: seq<string>)
    requires Distinct(names)
    ensures var drawers := MergedNamed(names, base, ours, theirs).0;
      Distinct(DrawerNames(drawers)) && forall d :: d in drawers ==> DrawerName(d) in names
  {
    hide DrawerName, MergedDrawer;
    if names != [] {
      var (v, clash) := MergedDrawer(names[0], base, ours, theirs);
      MergedNamedOrder(names[1..], base, ours, theirs);
      MergedDrawerName(names[0], base, ours, theirs);
      var rest := MergedNamed(names[1..], base, ours, theirs).0;
      var drawers := MergedNamed(names, base, ours, theirs).0;
      if v.Some? {
        assert drawers == [v.value] + rest;
        forall i | 0 <= i < |rest| ensures DrawerName(rest[i]) != names[0] { assert rest[i] in rest; }
        assert DrawerNames(drawers) == [names[0]] + DrawerNames(rest);
      } else {
        assert drawers == rest;
      }
    }
  }

  lemma MergedInOrder(base: seq<string>, ours: seq<string>, theirs: seq<string>)
    ensures DrawersInOrder(MergedDrawers(base, ours, theirs).0)
  {
    hide DrawerName, MergedNamed, AddNames;
    var names := MergedNames(ours, theirs);
    MergedNamesFacts(ours, theirs);
    MergedNamedOrder(names, base, ours, theirs);
    var drawers := MergedNamed(names, base, ours, theirs).0;
    assert CONFLICT_DRAWER !in Elems(names);
    forall i | 0 <= i < |drawers| ensures DrawerName(drawers[i]) != CONFLICT_DRAWER {
      assert drawers[i] in drawers;
    }
    var all := MergedDrawers(base, ours, theirs).0;
    assert DrawerNames(all)[..|drawers|] == DrawerNames(drawers);
  }

  lemma DrawerAbsorbs(name: string, base: seq<string>, ours: seq<string>, theirs: seq<string>, m: seq<string>)
    requires MergedDrawer(name, base, ours, theirs).1 == []
    requires Find(m, name) == MergedDrawer(name, base, ours, theirs).0
    ensures MergedDrawer(name, base, m, theirs) == (Find(m, name), [])
  {
    hide Find, MergedVotes;
    var (o, a, b) := (Find(base, name), Find(ours, name), Find(theirs, name));
    if name == VOTES_DRAWER {
      VotesAbsorb(o, a, b);
    } else {
      PickAbsorbs(o, a, b);
    }
  }

  /// Merging the same theirs into merged drawers changes nothing.
  lemma DrawersAbsorb(base: seq<string>, ours: seq<string>, theirs: seq<string>)
    requires MergedDrawers(base, ours, theirs).1 == []
    ensures var m := MergedDrawers(base, ours, theirs).0; MergedDrawers(base, m, theirs) == (m, [])
  {
    hide DrawerName, MergedDrawer, MergedDrawers, Find;
    var m := MergedDrawers(base, ours, theirs).0;
    MergedDrawersHold(base, ours, theirs);
    MergedInOrder(base, ours, theirs);
    forall n | n != CONFLICT_DRAWER
      ensures MergedDrawer(n, base, m, theirs) == (Find(m, n), [])
    {
      NoDrawerClash(n, base, ours, theirs);
      DrawerAbsorbs(n, base, ours, theirs, m);
    }
    DrawersStay(base, m, theirs);
  }

  /// No votes drawer without a ballot in it.
  predicate BallotsHeld(drawers: seq<string>) {
    forall d :: d in drawers && DrawerName(d) == VOTES_DRAWER ==> Votes(Some(d)) != []
  }

  function Tidied(d: string): string {
    if DrawerName(d) == VOTES_DRAWER then VotesText(Votes(Some(d))) else d
  }

  /// The drawers with the votes written as a merge writes them.
  function TidyDrawers(drawers: seq<string>): seq<string> {
    seq(|drawers|, i requires 0 <= i < |drawers| => Tidied(drawers[i]))
  }

  lemma TidyNames(drawers: seq<string>)
    requires BallotsHeld(drawers)
    ensures DrawerNames(TidyDrawers(drawers)) == DrawerNames(drawers)
  {
    hide DrawerName, Votes, VotesText;
    forall i | 0 <= i < |drawers| ensures DrawerName(Tidied(drawers[i])) == DrawerName(drawers[i]) {
      if DrawerName(drawers[i]) == VOTES_DRAWER {
        assert drawers[i] in drawers;
        VotesWellFormed(Some(drawers[i]));
        VotesTextReadsBack(Votes(Some(drawers[i])));
      }
    }
  }

  lemma {:induction false} FindTidied(drawers: seq<string>, name: string)
    requires BallotsHeld(drawers)
    ensures Find(TidyDrawers(drawers), name) == (match Find(drawers, name) case Some(d) => Some(Tidied(d)) case None => None)
  {
    hide DrawerName, Votes, VotesText, Tidied;
    if drawers != [] {
      TidyNames(drawers);
      assert DrawerNames(TidyDrawers(drawers))[0] == DrawerName(Tidied(drawers[0]));
      assert DrawerNames(drawers)[0] == DrawerName(drawers[0]);
      assert TidyDrawers(drawers)[1..] == TidyDrawers(drawers[1..]);
      assert forall d :: d in drawers[1..] ==> d in drawers;
      FindTidied(drawers[1..], name);
    }
  }

  /**
   Drawers merged with a theirs that is still the base are ours, the votes
   written as a merge writes them.
   */
  lemma DrawersIdentity(base: seq<string>, ours: seq<string>)
    requires DrawersInOrder(ours) && BallotsHeld(ours)
    ensures MergedDrawers(base, ours, base) == (TidyDrawers(ours), [])
  {
    TidyNames(ours);
    forall n | n != CONFLICT_DRAWER
      ensures MergedDrawer(n, base, ours, base) == (Find(TidyDrawers(ours), n), [])
    {
      FindTidied(ours, n);
      hide Find, MergedVotes, DrawerName, Votes, VotesText, TidyDrawers;
      if n == VOTES_DRAWER {
        VotesIdentity(Find(base, n), Find(ours, n));
        NoVotesIn(ours);
      }
    }
    hide Votes, VotesText, MergedDrawers, MergedDrawer;
    DrawersStayAs(base, ours, TidyDrawers(ours), base);
  }

  lemma NoVotesIn(drawers: seq<string>)
    requires BallotsHeld(drawers)
    ensures Votes(Find(drawers, VOTES_DRAWER)) == [] <==> Find(drawers, VOTES_DRAWER) == None
  {
    hide VotesOf, DrawerName;
    NoVotes();
  }
}
