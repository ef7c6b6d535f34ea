/**
 The planning line under a heading: `CLOSED:`, `SCHEDULED:` and `DEADLINE:`,
 each with an Org timestamp (`take_timestamp` and `parse_planning_line`,
 `crates/vissue-core/src/org.rs`), beside the line as it is written.
 */
module Planning {
  import opened Base
  import opened Text
  import opened Issue
  import opened Print

  // ---- one timestamp ----

  function Closing(open: char): char {
    if open == '[' then ']' else '>'
  }

  /// The front of a timestamp that is computed.
  predicate IsDiary(s: string) {
    "<%%" <= s
  }

  predicate IsDashed(s: string) {
    "--" <= s
  }

  predicate OpensStamp(s: string) {
    s != "" && (s[0] == '<' || s[0] == '[')
  }

  /// What is joined by dashes behind the first bracket.
  function JoinedTo(rest: string): (r: string)
    ensures |r| <= |rest|
  {
    if IsDashed(rest) then TrimStart(rest[2..]) else ""
  }

  /// Where the timestamp at the front of `s` ends: at the first bracket that
  /// closes it or, for two joined by dashes, at the one that closes the second.
  /// `|s|` when there is none.
  function StampEnd(s: string): (n: nat)
    ensures n <= |s|
  {
    if IsDiary(s) then FirstIndex(s, '>')
    else if !OpensStamp(s) then |s|
    else
      var end := FirstIndex(s, Closing(s[0]));
      var rest := if end < |s| then s[end + 1..] else "";
      var after := JoinedTo(rest);
      if OpensStamp(after) then |s| - |after| + FirstIndex(after, Closing(after[0])) else end
  }

  /// The timestamp at the front of `s`, and what stands behind it.
  function TakeTimestamp(s: string): Option<(string, string)> {
    var start := TrimStart(s);
    var n := StampEnd(start);
    if n == |start| then None else Some((start[..n + 1], TrimStart(start[n + 1..])))
  }

  /// One timestamp and nothing else.
  predicate IsTimestamp(v: string) {
    v != "" && !IsSpace(v[0]) && StampEnd(v) == |v| - 1
  }

  // ---- the line ----

  type Dates = seq<(string, string)>

  function KeyAt(rest: string, keys: seq<string>): Option<string> {
    if keys == [] then None
    else if keys[0] + ":" <= rest then Some(keys[0])
    else KeyAt(rest, keys[1..])
  }

  lemma {:induction false} KeyFound(rest: string, keys: seq<string>)
    ensures KeyAt(rest, keys).Some? ==> KeyAt(rest, keys).value + ":" <= rest && KeyAt(rest, keys).value in keys
  {
    if keys != [] { KeyFound(rest, keys[1..]); }
  }

  /// One date at the front of `rest`, and what stands behind it.
  function TakeDate(rest: string): (r: Option<((string, string), string)>)
    ensures r.Some? ==> |r.value.1| < |rest|
  {
    KeyFound(rest, PLANNING_KEYS);
    match KeyAt(rest, PLANNING_KEYS)
    case None => None
    case Some(key) =>
      match TakeTimestamp(rest[|key| + 1..])
      case None => None
      case Some((stamp, next)) => Some(((key, stamp), next))
  }

  /// The dates of a text that holds nothing else.
  function ReadDates(rest: string): Option<Dates>
    decreases |rest|
  {
    if rest == "" then Some([])
    else
      match TakeDate(rest)
      case None => None
      case Some((date, next)) =>
        match ReadDates(next)
        case None => None
        case Some(dates) => Some([date] + dates)
  }

  /// The dates of a planning line; none of any other line.
  function PlanningDates(line: string): Dates {
    ReadDates(Trim(line)).GetOr([])
  }

  method ParsePlanningLine(line: string) returns (found: Dates)
    ensures found == PlanningDates(line)
  {
    hide TakeDate;
    var rest := Trim(line);
    found := [];
    while rest != ""
      invariant PlanningDates(line) == (match ReadDates(rest) case None => [] case Some(more) => found + more)
      decreases |rest|
    {
      var date := TakeDate(rest);
      if date.None? {
        return [];
      }
      found := found + [date.value.0];
      rest := date.value.1;
    }
  }

  // ---- the line as it is written ----

  /// The dates an issue has, in Org's order.
  function DatesOf(keys: seq<string>, t: Table): Dates {
    if keys == [] then []
    else
      var value := Trim(Get(t, keys[0]).GetOr(""));
      (if value == "" then [] else [(keys[0], value)]) + DatesOf(keys[1..], t)
  }

  function Spelled(dates: Dates): seq<string> {
    if dates == [] then [] else [dates[0].0 + ": " + dates[0].1] + Spelled(dates[1..])
  }

  lemma {:induction false} PartsAreDates(keys: seq<string>, t: Table)
    ensures PlanningParts(keys, t) == Spelled(DatesOf(keys, t))
  {
    hide Trim;
    if keys != [] {
      PartsAreDates(keys[1..], t);
      var value := Trim(Get(t, keys[0]).GetOr(""));
      var rest := DatesOf(keys[1..], t);
      if value != "" {
        assert ([(keys[0], value)] + rest)[1..] == rest;
      } else {
        assert [] + rest == rest && [] + Spelled(rest) == Spelled(rest);
      }
    }
  }

  // ---- a timestamp with more behind it ----

  predicate Apart(w: string) {
    w == "" || IsSpace(w[0])
  }

  lemma JoinedOver(rest: string, w: string)
    requires Apart(w)
    ensures JoinedTo(rest) != "" ==> JoinedTo(rest + w) == JoinedTo(rest) + w
    ensures JoinedTo(rest) == "" ==> |JoinedTo(rest + w)| <= |w|
    ensures !IsDashed(rest) ==> JoinedTo(rest + w) == ""
  {
    var all := rest + w;
    if IsDashed(rest) {
      assert all[..2] == rest[..2] && all[2..] == rest[2..] + w;
      TrimStartBehind(rest[2..], w);
    } else if |rest| >= 2 {
      assert all[..2] == rest[..2];
    } else if w != "" {
      assert all[|rest|] == w[0] && "--"[|rest|] == '-';
    }
  }

  lemma DiaryOver(v: string, w: string)
    requires v != "" && Apart(w)
    ensures IsDiary(v + w) <==> IsDiary(v)
  {
    if |v| >= 3 {
      assert (v + w)[..3] == v[..3];
    } else if w != "" {
      assert (v + w)[|v|] == w[0];
    }
  }

  /// The end in terms of what is joined by dashes.
  lemma BracketEnd(s: string)
    requires OpensStamp(s) && !IsDiary(s)
    ensures var end := FirstIndex(s, Closing(s[0]));
      var after := JoinedTo(if end < |s| then s[end + 1..] else "");
      StampEnd(s) == if OpensStamp(after) then |s| - |after| + FirstIndex(after, Closing(after[0])) else end
  {
  }

  /// The stamp at the front ends no sooner than its first bracket does.
  lemma EndsNoSooner(s: string)
    requires OpensStamp(s) && !IsDiary(s)
    ensures FirstIndex(s, Closing(s[0])) <= StampEnd(s)
  {
    BracketEnd(s);
    hide StampEnd, FirstIndex, Closing, JoinedTo;
  }

  /// The end when the first bracket closes at `end`.
  lemma EndFrom(s: string, end: nat)
    requires OpensStamp(s) && !IsDiary(s) && FirstIndex(s, Closing(s[0])) == end < |s|
    ensures var after := JoinedTo(s[end + 1..]);
      StampEnd(s) == if OpensStamp(after) then |s| - |after| + FirstIndex(after, Closing(after[0])) else end
  {
    BracketEnd(s);
  }

  lemma LastCloses(after: string, w: string, n: int)
    requires OpensStamp(after)
    ensures n + FirstIndex(after + w, Closing((after + w)[0])) == n + |after| - 1
      <==> n + FirstIndex(after, Closing(after[0])) == n + |after| - 1
  {
    assert (after + w)[0] == after[0];
    FirstIndexOver(after, w, Closing(after[0]));
    hide FirstIndex, Closing;
  }

  lemma DashesTakeTwo(rest: string)
    ensures IsDashed(rest) ==> |rest| >= 2
  {
  }

  lemma RestOver(v: string, w: string, end: nat)
    requires end < |v|
    ensures (v + w)[0] == v[0] && (v + w)[end + 1..] == v[end + 1..] + w
  {
  }

  lemma SameOpening(after: string, w: string)
    requires after != ""
    ensures OpensStamp(after + w) <==> OpensStamp(after)
  {
    assert (after + w)[0] == after[0];
  }

  /// The first bracket closes in `v`, with `rest` behind it.
  lemma ClosedWithin(v: string, w: string, end: nat)
    requires OpensStamp(v) && Apart(w) && !IsDiary(v) && !IsDiary(v + w)
    requires FirstIndex(v, Closing(v[0])) == FirstIndex(v + w, Closing(v[0])) == end < |v|
    ensures StampEnd(v + w) == |v| - 1 <==> StampEnd(v) == |v| - 1
  {
    var rest := v[end + 1..];
    SameOpening(v, w);
    RestOver(v, w, end);
    hide *;
    EndFrom(v + w, end);
    EndFrom(v, end);
    JoinedOver(rest, w);
    var after := JoinedTo(rest);
    if after == "" {
      DashesTakeTwo(rest);
    } else {
      SameOpening(after, w);
      if OpensStamp(after) {
        LastCloses(after, w, |v| - |after|);
      }
    }
  }

  lemma BracketEndOver(v: string, w: string)
    requires OpensStamp(v) && Apart(w) && !IsDiary(v) && !IsDiary(v + w)
    ensures StampEnd(v + w) == |v| - 1 <==> StampEnd(v) == |v| - 1
  {
    var close := Closing(v[0]);
    var end := FirstIndex(v, close);
    assert (v + w)[0] == v[0];
    FirstIndexOver(v, w, close);
    hide StampEnd, FirstIndex, Closing;
    if end < |v| {
      ClosedWithin(v, w, end);
    } else {
      EndsNoSooner(v + w);
      EndsNoSooner(v);
    }
  }

  /// The timestamp at the front ends where `v` does, or it does so in neither.
  lemma StampEndOver(v: string, w: string)
    requires v != "" && Apart(w)
    ensures StampEnd(v + w) == |v| - 1 <==> StampEnd(v) == |v| - 1
  {
    DiaryOver(v, w);
    assert (v + w)[0] == v[0];
    if IsDiary(v) {
      FirstIndexOver(v, w, '>');
    } else if OpensStamp(v) {
      BracketEndOver(v, w);
    }
  }

  /// A value and what stands behind it are told apart exactly when the value
  /// is one timestamp.
  lemma TakenExactly(v: string, w: string)
    requires v != "" && !IsSpace(v[0]) && Apart(w)
    ensures IsTimestamp(v) ==> TakeTimestamp(v + w) == Some((v, TrimStart(w)))
    ensures TakeTimestamp(v + w).Some? && TakeTimestamp(v + w).value.0 == v ==> IsTimestamp(v)
  {
    StampEndOver(v, w);
    hide StampEnd;
    assert TrimStart(v + w) == v + w;
    assert (v + w)[..|v|] == v && (v + w)[|v|..] == w;
  }

  // ---- the written line is read back ----

  predicate AreDates(dates: Dates) {
    forall i :: 0 <= i < |dates| ==>
      dates[i].0 in PLANNING_KEYS && dates[i].1 != "" && !IsSpace(dates[i].1[0]) && !IsSpace(dates[i].1[|dates[i].1| - 1])
  }

  predicate AllTimestamps(dates: Dates) {
    forall i :: 0 <= i < |dates| ==> IsTimestamp(dates[i].1)
  }

  lemma KeyStands(key: string, rest: string)
    requires key in PLANNING_KEYS
    ensures KeyAt(key + ":" + rest, PLANNING_KEYS) == Some(key)
  {
    var s := key + ":" + rest;
    assert s[..|key| + 1] == key + ":";
    assert s[0] == key[0];
    assert PLANNING_KEYS[1..] == ["SCHEDULED", "DEADLINE"] && PLANNING_KEYS[2..] == ["DEADLINE"];
    assert KeyAt(s, PLANNING_KEYS) == if "CLOSED:" <= s then Some("CLOSED") else KeyAt(s, ["SCHEDULED", "DEADLINE"]);
    assert KeyAt(s, ["SCHEDULED", "DEADLINE"]) == if "SCHEDULED:" <= s then Some("SCHEDULED") else KeyAt(s, ["DEADLINE"]);
    assert KeyAt(s, ["DEADLINE"]) == if "DEADLINE:" <= s then Some("DEADLINE") else KeyAt(s, []);
  }

  /// What stands behind the first date.
  function Behind(dates: Dates): string
    requires dates != []
  {
    if |dates| == 1 then "" else " " + JoinBlank(Spelled(dates[1..]))
  }

  lemma Regrouped(key: string, v: string, w: string)
    ensures key + ": " + v + w == key + ":" + (" " + v + w)
  {
  }

  lemma FirstOfJoined(first: string, rest: seq<string>)
    ensures JoinBlank([first] + rest) == first + (if rest == [] then "" else " " + JoinBlank(rest))
  {
    var parts := [first] + rest;
    if rest == [] {
      assert first + "" == first;
    } else {
      assert parts[1..] == rest;
      hide JoinBlank;
      assert first + " " + JoinBlank(rest) == first + (" " + JoinBlank(rest));
    }
  }

  lemma FirstSpelled(dates: Dates)
    requires dates != []
    ensures Spelled(dates) == [dates[0].0 + ": " + dates[0].1] + Spelled(dates[1..])
    ensures Spelled(dates[1..]) == [] <==> |dates| == 1
  {
  }

  lemma FirstDate(dates: Dates)
    requires dates != []
    ensures JoinBlank(Spelled(dates)) == dates[0].0 + ":" + (" " + dates[0].1 + Behind(dates))
  {
    FirstSpelled(dates);
    hide Spelled, JoinBlank;
    FirstOfJoined(dates[0].0 + ": " + dates[0].1, Spelled(dates[1..]));
    Regrouped(dates[0].0, dates[0].1, Behind(dates));
  }

  lemma BehindIsApart(dates: Dates)
    requires dates != []
    ensures Apart(Behind(dates))
  {
    hide JoinBlank, Spelled;
  }

  lemma BlankSkipped(v: string, w: string)
    requires v != "" && !IsSpace(v[0])
    ensures TakeTimestamp(" " + v + w) == TakeTimestamp(v + w)
  {
    var s := " " + v + w;
    assert s[1..] == v + w && TrimStart(v + w) == v + w && TrimStart(s) == TrimStart(s[1..]);
    hide StampEnd, TrimStart;
  }

  lemma DateTaken(dates: Dates)
    requires dates != [] && AreDates(dates)
    ensures var d := TakeDate(JoinBlank(Spelled(dates)));
      && (IsTimestamp(dates[0].1) ==> d == Some((dates[0], TrimStart(Behind(dates)))))
      && (d.Some? && d.value.0 == dates[0] ==> IsTimestamp(dates[0].1))
  {
    var (key, v, w) := (dates[0].0, dates[0].1, Behind(dates));
    var text := JoinBlank(Spelled(dates));
    FirstDate(dates);
    BehindIsApart(dates);
    KeyStands(key, " " + v + w);
    assert text[|key| + 1..] == " " + v + w;
    BlankSkipped(v, w);
    TakenExactly(v, w);
    hide IsTimestamp, TakeTimestamp, KeyAt, Spelled, JoinBlank, PLANNING_KEYS, TrimStart, Behind, Apart;
    assert dates[0] == (key, v);
  }

  lemma BehindIsNext(dates: Dates)
    requires dates != [] && AreDates(dates)
    ensures TrimStart(Behind(dates)) == JoinBlank(Spelled(dates[1..]))
  {
    if |dates| > 1 {
      var next := JoinBlank(Spelled(dates[1..]));
      FirstDate(dates[1..]);
      assert dates[1].0 in PLANNING_KEYS;
      assert next[0] == dates[1].0[0] && !IsSpace(next[0]);
      assert (" " + next)[1..] == next;
    } else {
      assert dates[1..] == [];
    }
  }

  lemma {:induction false} DatesReadBackExactly(dates: Dates)
    requires AreDates(dates)
    ensures ReadDates(JoinBlank(Spelled(dates))) == Some(dates) <==> AllTimestamps(dates)
  {
    hide TakeDate, IsTimestamp, TrimStart, JoinBlank, Spelled;
    if dates == [] {
      assert JoinBlank(Spelled(dates)) == "" by { SpelledNothing(); }
    } else {
      DateTaken(dates);
      BehindIsNext(dates);
      DatesReadBackExactly(dates[1..]);
      FirstDate(dates);
      assert dates == [dates[0]] + dates[1..];
      LaterTimestamps(dates);
    }
  }

  lemma SpelledNothing()
    ensures JoinBlank(Spelled([])) == ""
  {
  }

  lemma LaterTimestamps(dates: Dates)
    requires dates != []
    ensures AllTimestamps(dates) <==> IsTimestamp(dates[0].1) && AllTimestamps(dates[1..])
  {
    hide IsTimestamp;
    if AllTimestamps(dates[1..]) && IsTimestamp(dates[0].1) {
      forall i | 0 <= i < |dates| ensures IsTimestamp(dates[i].1) {
        if i > 0 { assert dates[1..][i - 1] == dates[i]; }
      }
    }
  }

  lemma {:induction false} DatesOfAreDates(keys: seq<string>, t: Table)
    requires forall i :: 0 <= i < |keys| ==> keys[i] in PLANNING_KEYS
    ensures AreDates(DatesOf(keys, t))
  {
    if keys != [] {
      DatesOfAreDates(keys[1..], t);
      var value := Trim(Get(t, keys[0]).GetOr(""));
      if value != "" { TrimmedEnds(Get(t, keys[0]).GetOr("")); }
      hide Trim, PLANNING_KEYS;
    }
  }

  lemma TrimmedEnds(s: string)
    requires Trim(s) != ""
    ensures !IsSpace(Trim(s)[0]) && !IsSpace(Trim(s)[|Trim(s)| - 1])
  {
    FirstKept(TrimStart(s));
  }

  lemma {:induction false} NoOuterBlanks(dates: Dates)
    requires AreDates(dates) && dates != []
    ensures var s := JoinBlank(Spelled(dates)); s != "" && !IsSpace(s[0]) && !IsSpace(s[|s| - 1])
    decreases |dates|
  {
    var s := JoinBlank(Spelled(dates));
    FirstDate(dates);
    assert s[0] == dates[0].0[0];
    if |dates| > 1 {
      NoOuterBlanks(dates[1..]);
    }
  }

  /**
   The planning line of an issue reads back as its dates exactly when each of
   them is one timestamp.
   */
  lemma PlanningReadsBackExactly(t: Table)
    ensures var dates := DatesOf(PLANNING_KEYS, t);
      PlanningDates(JoinBlank(PlanningParts(PLANNING_KEYS, t))) == dates <==> AllTimestamps(dates)
  {
    var dates := DatesOf(PLANNING_KEYS, t);
    DatesOfAreDates(PLANNING_KEYS, t);
    PartsAreDates(PLANNING_KEYS, t);
    DatesReadBackExactly(dates);
    TrimmedDates(dates);
    hide DatesOf, ReadDates, Spelled, JoinBlank, IsTimestamp, Trim, PlanningParts, AreDates;
  }

  lemma TrimmedDates(dates: Dates)
    requires AreDates(dates)
    ensures var s := JoinBlank(Spelled(dates)); Trim(s) == s && (dates == [] ==> ReadDates(s) == Some([]))
  {
    if dates != [] {
      NoOuterBlanks(dates);
    }
  }

  // ---- what a timestamp is ----

  /// One pair of brackets, active or inactive, with no closing one inside.
  predicate IsStamp(v: string) {
    && |v| >= 2 && (v[0] == '<' || v[0] == '[')
    && v[|v| - 1] == (if v[0] == '<' then '>' else ']')
    && v[|v| - 1] !in v[..|v| - 1]
  }

  lemma StampCloses(v: string, more: string)
    requires IsStamp(v)
    ensures FirstIndex(v + more, Closing(v[0])) == |v| - 1 && OpensStamp(v + more)
  {
    var (front, close) := (v[..|v| - 1], v[|v| - 1]);
    assert v + more == front + [close] + more;
    FirstIndexAt(front, close, more);
    assert (v + more)[0] == v[0];
  }

  /// Any stamp is a timestamp.
  lemma StampIsTimestamp(v: string)
    requires IsStamp(v)
    ensures IsTimestamp(v)
  {
    StampCloses(v, "");
    assert v + "" == v;
    assert v[0] == '<' ==> Closing(v[0]) == '>';
    if !IsDiary(v) {
      EndFrom(v, |v| - 1);
      assert v[|v|..] == "";
      assert JoinedTo("") == "";
    }
    hide FirstIndex, JoinedTo;
  }

  lemma DiaryBehind(v: string, more: string)
    requires |v| >= 2 && (|v| == 2 ==> v[1] != '%')
    ensures IsDiary(v + more) <==> IsDiary(v)
  {
    if |v| >= 3 {
      assert (v + more)[..3] == v[..3];
    } else {
      assert |v + more| >= 3 ==> (v + more)[..3][1] == v[1];
    }
  }

  /// So are two that dashes join, unless the first is a computed date: that one
  /// ends at its own bracket.
  lemma JoinedStampsExactly(v: string, w: string)
    requires IsStamp(v) && IsStamp(w)
    ensures IsTimestamp(v + "--" + w) <==> !("<%%" <= v)
  {
    var rest := "--" + w;
    var s := v + rest;
    assert v + "--" + w == s && s[0] == v[0];
    StampCloses(v, rest);
    assert v[|v| - 1] != '%';
    DiaryBehind(v, rest);
    if !IsDiary(v) {
      EndFrom(s, |v| - 1);
      assert s[|v|..] == rest && rest[2..] == w && rest[..2] == "--" && TrimStart(w) == w;
      StampCloses(w, "");
      assert w + "" == w && JoinedTo(rest) == w;
      hide FirstIndex, JoinedTo;
    } else {
      assert Closing(v[0]) == '>';
    }
  }

  /// A text that opens with no bracket holds none at its front.
  lemma OnlyBracketsOpen(v: string)
    requires IsTimestamp(v)
    ensures v[0] == '<' || v[0] == '['
  {
  }
}
