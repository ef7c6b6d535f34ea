/**
 An issue as it is written to disk (`IssueHeading::render`,
 `crates/vissue-core/src/model.rs`, and the classifiers it moves onto the
 heading line, `crates/vissue-core/src/props.rs` and `org.rs`).
 */
module Print {
  import opened Base
  import opened Text
  import opened Order
  import opened Issue
  import LogLine
  import Escape
  import Headline

  const PROPERTY_COLUMN := 13
  const PLANNING_KEYS := ["CLOSED", "SCHEDULED", "DEADLINE"]
  const TAGS_PROPERTY := "VISSUE_TAGS"
  const CANONICAL_ORDER := ["CREATED", "TYPE", "PARENT", "BLOCKED_BY", TAGS_PROPERTY, CLAIMED_BY, CLAIMED_AT, "FILES",
    "VERIFY", "DEEDS", "DISCOVERED_FROM", "PIVOTED_TO", "SIBLING_TERMINAL", "Effort"]

  // ---- the order of the keys ----

  /// `keys`, then each of `more` that the table has and that is not there yet.
  function PutKeys(keys: seq<string>, more: seq<string>, t: Table): seq<string>
    decreases |more|
  {
    if more == [] then keys
    else PutKeys(if more[0] in t && more[0] !in keys then keys + [more[0]] else keys, more[1..], t)
  }

  /// Keys as they were on disk, then in house order, then the rest.
  function OrderedKeys(order: seq<string>, t: Table): seq<string> {
    PutKeys(PutKeys(PutKeys([], order, t), CANONICAL_ORDER, t), Sorted(t.Keys), t)
  }

  lemma {:induction false} PutKeysFacts(keys: seq<string>, more: seq<string>, t: Table)
    requires Distinct(keys) && forall k :: k in keys ==> k in t
    ensures Distinct(PutKeys(keys, more, t))
    ensures forall k :: k in PutKeys(keys, more, t) <==> k in keys || (k in more && k in t)
    decreases |more|
  {
    if more != [] {
      var next := if more[0] in t && more[0] !in keys then keys + [more[0]] else keys;
      PutKeysFacts(next, more[1..], t);
      assert more == [more[0]] + more[1..];
    }
  }

  lemma OrderedKeysFacts(order: seq<string>, t: Table)
    ensures Distinct(OrderedKeys(order, t))
    ensures forall k :: k in OrderedKeys(order, t) <==> k in t
  {
    var first := PutKeys([], order, t);
    PutKeysFacts([], order, t);
    PutKeysFacts(first, CANONICAL_ORDER, t);
    PutKeysFacts(PutKeys(first, CANONICAL_ORDER, t), Sorted(t.Keys), t);
    forall k ensures k in Sorted(t.Keys) <==> k in t {
      assert k in Sorted(t.Keys) <==> k in Elems(Sorted(t.Keys));
    }
    hide PutKeys, CANONICAL_ORDER, Sorted;
  }

  lemma {:induction false} PutNothing(keys: seq<string>, more: seq<string>, t: Table)
    requires forall k :: k in more && k in t ==> k in keys
    ensures PutKeys(keys, more, t) == keys
    decreases |more|
  {
    if more != [] {
      assert more[0] in more && forall k :: k in more[1..] ==> k in more;
      PutNothing(keys, more[1..], t);
    }
  }

  lemma {:induction false} PutAll(keys: seq<string>, more: seq<string>, t: Table)
    requires Distinct(keys + more) && forall k :: k in more ==> k in t
    ensures PutKeys(keys, more, t) == keys + more
    decreases |more|
  {
    if more == [] {
      assert keys + more == keys;
    } else {
      assert more[0] !in keys by {
        forall i | 0 <= i < |keys| ensures keys[i] != more[0] { assert (keys + more)[i] == keys[i] && (keys + more)[|keys|] == more[0]; }
      }
      assert more[0] in more && forall k :: k in more[1..] ==> k in more;
      assert keys + [more[0]] + more[1..] == keys + more;
      PutAll(keys + [more[0]], more[1..], t);
    }
  }

  /// A key order that lists exactly the keys there are, each once, is the
  /// order they are printed in.
  lemma WholeOrderStands(order: seq<string>, t: Table)
    requires Distinct(order) && forall k :: k in order <==> k in t
    ensures OrderedKeys(order, t) == order
  {
    assert [] + order == order;
    PutAll([], order, t);
    PutNothing(order, CANONICAL_ORDER, t);
    PutNothing(order, Sorted(t.Keys), t);
  }

  // ---- classifiers moved onto the heading line ----

  function PutTag(tags: seq<string>, tag: string): seq<string> {
    if Headline.IsTag(tag) && tag !in tags then tags + [tag] else tags
  }

  /// The pieces between commas and colons.
  function Pieces(s: string): (r: seq<string>)
    ensures |r| > 0
  {
    if s == "" then [""]
    else
      var rest := Pieces(s[1..]);
      if s[0] == ',' || s[0] == ':' then [""] + rest else [[s[0]] + rest[0]] + rest[1..]
  }

  /// Legal tags go to the heading; the others stay.
  function SettleTags(pieces: seq<string>, tags: seq<string>, kept: seq<string>): (seq<string>, seq<string>)
    decreases |pieces|
  {
    if pieces == [] then (tags, kept)
    else
      var tag := Trim(pieces[0]);
      if tag == "" then SettleTags(pieces[1..], tags, kept)
      else if Headline.IsTag(tag) then SettleTags(pieces[1..], PutTag(tags, tag), kept)
      else SettleTags(pieces[1..], tags, kept + [tag])
  }

  function JoinComma(parts: seq<string>): string {
    if parts == [] then "" else if |parts| == 1 then parts[0] else parts[0] + "," + JoinComma(parts[1..])
  }

  /// The tags of the heading line and the table less what moved there.
  function Classified(orgTags: seq<string>, t: Table): (seq<string>, Table) {
    var kind := Get(t, "TYPE").GetOr("");
    var typed := PutTag(PutTag(PutTag(orgTags, kind), Trim(Get(t, "VISSUE_TYPE").GetOr(""))), Trim(kind));
    if TAGS_PROPERTY !in t then (typed, t)
    else
      var (tags, kept) := SettleTags(Pieces(t[TAGS_PROPERTY]), typed, []);
      (tags, if kept == [] then t - {TAGS_PROPERTY} else t[TAGS_PROPERTY := JoinComma(kept)])
  }

  // ---- the text ----

  function ShownDrawers(drawers: seq<string>): string {
    if drawers == [] then "" else Finished(drawers[0]) + ShownDrawers(drawers[1..])
  }

  function HeadLine(h: Heading): string {
    var stem := "* " + h.state + " [#" + [h.priority] + "] " + h.title
      + (match h.statistics case Some(cookie) => " " + cookie case None => "");
    Headline.AlignTags(stem, Classified(h.orgTags, h.properties).0) + "\n"
  }

  function PlanningParts(keys: seq<string>, t: Table): seq<string> {
    if keys == [] then []
    else
      var value := Trim(Get(t, keys[0]).GetOr(""));
      (if value == "" then [] else [keys[0] + ": " + value]) + PlanningParts(keys[1..], t)
  }

  function JoinBlank(parts: seq<string>): string {
    if parts == [] then "" else if |parts| == 1 then parts[0] else parts[0] + " " + JoinBlank(parts[1..])
  }

  function PlanningLine(t: Table): string {
    var parts := PlanningParts(PLANNING_KEYS, t);
    if parts == [] then "" else JoinBlank(parts) + "\n"
  }

  function PropertyLine(k: string, v: string): string {
    var front := ":" + k + ":";
    front + Headline.Spaces(if |front| < PROPERTY_COLUMN then PROPERTY_COLUMN - |front| else 1) + v
  }

  /// The keys printed in the drawer after the id: neither a date, which goes on
  /// the planning line, nor one moved to the heading.
  predicate IsShown(k: string, t: Table, classified: Table) {
    k in t && k in classified && k != "ID" && k !in PLANNING_KEYS
  }

  function OnlyShown(keys: seq<string>, t: Table, classified: Table): seq<string> {
    if keys == [] then []
    else (if IsShown(keys[0], t, classified) then [keys[0]] else []) + OnlyShown(keys[1..], t, classified)
  }

  function ShownKeys(order: seq<string>, orgTags: seq<string>, t: Table): seq<string> {
    OnlyShown(OrderedKeys(order, t), t, Classified(orgTags, t).1)
  }

  function PropertyLines(keys: seq<string>, t: Table): seq<string> {
    seq(|keys|, i requires 0 <= i < |keys| => PropertyLine(keys[i], Get(t, keys[i]).GetOr("")))
  }

  function LogLines(log: seq<LogEntry>): seq<string> {
    seq(|log|, i requires 0 <= i < |log| => LogLine.Render(log[i]))
  }

  function LogText(log: seq<LogEntry>): string {
    if log == [] then "" else ":LOGBOOK:\n" + Terminated(LogLines(log)) + ":END:\n"
  }

  function BodyText(body: string): string {
    if body == "" then "" else "\n" + Finished(Escape.EscapedBody(body))
  }

  /// Everything before the properties that have an order.
  function Top(h: Heading): string {
    HeadLine(h) + PlanningLine(h.properties) + ":PROPERTIES:\n" + PropertyLine("ID", h.id) + "\n"
  }

  function PropertyText(h: Heading): string {
    Terminated(PropertyLines(ShownKeys(h.propertyOrder, h.orgTags, h.properties), Classified(h.orgTags, h.properties).1))
  }

  function Printed(h: Heading): string {
    Top(h) + PropertyText(h) + (":END:\n" + LogText(h.logbook)) + ShownDrawers(h.extraDrawers) + BodyText(h.body)
  }

  // ---- when two issues print the same ----

  lemma {:induction false} OnlyShownFacts(keys: seq<string>, t: Table, c: Table)
    ensures forall k :: k in OnlyShown(keys, t, c) <==> k in keys && IsShown(k, t, c)
    ensures Distinct(keys) ==> Distinct(OnlyShown(keys, t, c))
  {
    hide IsShown;
    if keys != [] {
      OnlyShownFacts(keys[1..], t, c);
      assert keys == [keys[0]] + keys[1..];
    }
  }

  lemma ShownKeysFacts(order: seq<string>, orgTags: seq<string>, t: Table)
    ensures Distinct(ShownKeys(order, orgTags, t))
    ensures forall k :: k in ShownKeys(order, orgTags, t) <==> IsShown(k, t, Classified(orgTags, t).1)
  {
    hide Classified, OrderedKeys;
    OrderedKeysFacts(order, t);
    OnlyShownFacts(OrderedKeys(order, t), t, Classified(orgTags, t).1);
  }

  lemma LinesSplit(s: seq<string>, x: string, u: seq<string>, t: Table)
    ensures |Terminated(PropertyLines(s + [x] + u, t))|
         == |Terminated(PropertyLines(s + u, t))| + |PropertyLine(x, Get(t, x).GetOr(""))| + 1
  {
    hide PropertyLine;
    var (p, l, q) := (PropertyLines(s, t), [PropertyLine(x, Get(t, x).GetOr(""))], PropertyLines(u, t));
    assert PropertyLines(s + [x] + u, t) == p + l + q && PropertyLines(s + u, t) == p + q;
    TerminatedConcat(p, l);
    TerminatedConcat(p + l, q);
    TerminatedConcat(p, q);
    assert Terminated(l) == l[0] + "\n" + Terminated(l[1..]) && l[1..] == [];
  }

  /// The same keys in another order take as much text.
  lemma {:induction false} ReorderedLength(s: seq<string>, u: seq<string>, t: Table)
    requires Distinct(s) && Distinct(u) && forall k :: k in s <==> k in u
    ensures |Terminated(PropertyLines(s, t))| == |Terminated(PropertyLines(u, t))|
    decreases |s|
  {
    hide PropertyLines, Terminated;
    if u != [] { HasFirst(u); }
    if s != [] {
      assert s[0] in s;
      var i :| 0 <= i < |u| && u[i] == s[0];
      var rest := u[..i] + u[i + 1..];
      assert u == u[..i] + [s[0]] + u[i + 1..] && s == [] + [s[0]] + s[1..] && [] + s[1..] == s[1..];
      SameLess(s, u, i);
      LinesSplit([], s[0], s[1..], t);
      LinesSplit(u[..i], s[0], u[i + 1..], t);
      ReorderedLength(s[1..], rest, t);
    }
  }

  lemma HasFirst(s: seq<string>)
    requires s != []
    ensures s[0] in s
  {
  }

  lemma SameLess(s: seq<string>, u: seq<string>, i: nat)
    requires Distinct(s) && Distinct(u) && (forall k :: k in s <==> k in u) && s != [] && i < |u| && u[i] == s[0]
    ensures Distinct(s[1..]) && Distinct(u[..i] + u[i + 1..])
    ensures forall k :: k in s[1..] <==> k in u[..i] + u[i + 1..]
  {
    var rest := u[..i] + u[i + 1..];
    forall k ensures k in s[1..] <==> k in rest {
      assert s == [s[0]] + s[1..] && u == u[..i] + [u[i]] + u[i + 1..];
      assert k in s <==> k == s[0] || k in s[1..];
      assert k in u <==> k == u[i] || k in rest;
    }
  }

  /// Each property printed takes one line, and its key ends at a colon.
  ghost predicate PrintsOnLines(orgTags: seq<string>, t: Table) {
    var c := Classified(orgTags, t).1;
    forall k :: IsShown(k, t, c) ==> OneLine(k) && ':' !in k && OneLine(c[k])
  }

  lemma KeyOfLine(k: string, v: string, l: string, w: string)
    requires ':' !in k && ':' !in l && PropertyLine(k, v) == PropertyLine(l, w)
    ensures k == l
  {
    var p := PropertyLine(k, v);
    assert p == ":" + k + ":" + p[|k| + 2..] && p == ":" + l + ":" + p[|l| + 2..];
    KeyEnds(p, k);
    KeyEnds(p, l);
  }

  /// The key of a line stands before its second colon.
  lemma KeyEnds(p: string, k: string)
    requires |p| >= |k| + 2 && p == ":" + k + ":" + p[|k| + 2..] && ':' !in k
    ensures FirstIndex(p[1..], ':') == |k| && p[1..|k| + 1] == k
  {
    assert p[1..] == k + [':'] + p[|k| + 2..];
    FirstIndexAt(k, ':', p[|k| + 2..]);
  }

  lemma OneLineProperty(k: string, v: string)
    requires OneLine(k) && OneLine(v)
    ensures OneLine(PropertyLine(k, v))
  {
  }

  /// The text of the properties shows their order.
  lemma OrderIsShown(s: seq<string>, u: seq<string>, t: Table)
    requires forall k :: k in s || k in u ==> OneLine(k) && ':' !in k && OneLine(Get(t, k).GetOr(""))
    requires Terminated(PropertyLines(s, t)) == Terminated(PropertyLines(u, t))
    ensures s == u
  {
    hide PropertyLine, OneLine;
    var (p, q) := (PropertyLines(s, t), PropertyLines(u, t));
    forall i | 0 <= i < |p| ensures OneLine(p[i]) { OneLineProperty(s[i], Get(t, s[i]).GetOr("")); }
    forall i | 0 <= i < |q| ensures OneLine(q[i]) { OneLineProperty(u[i], Get(t, u[i]).GetOr("")); }
    SplitTerminated(p);
    SplitTerminated(q);
    assert p + [""] == q + [""];
    assert p == (p + [""])[..|p|] && q == (q + [""])[..|q|];
    forall i | 0 <= i < |s| ensures s[i] == u[i] {
      assert p[i] == q[i];
      KeyOfLine(s[i], Get(t, s[i]).GetOr(""), u[i], Get(t, u[i]).GetOr(""));
    }
  }

  lemma MiddlesDecide(a: string, m: string, n: string, e: string, d: string, f: string, b: string)
    requires |m| == |n|
    ensures a + m + e + d + b == a + n + e + f + b <==> m == n && d == f
  {
    var (s, t) := (a + m + e + d + b, a + n + e + f + b);
    assert s[|a|..|a| + |m|] == m && t[|a|..|a| + |n|] == n;
    var k := |a| + |m| + |e|;
    assert s[k..k + |d|] == d && t[k..k + |f|] == f;
  }

  /**
   Two issues that differ in nothing but their key order, their drawers and
   their place print the same exactly when the printed keys come in the same
   order and the drawers are the same text.
   */
  lemma PrintedTheSame(x: Heading, y: Heading)
    requires x == y.(propertyOrder := x.propertyOrder, extraDrawers := x.extraDrawers, lineStart := x.lineStart, lineEnd := x.lineEnd)
    requires PrintsOnLines(x.orgTags, x.properties)
    ensures Printed(x) == Printed(y) <==>
      && ShownKeys(x.propertyOrder, x.orgTags, x.properties) == ShownKeys(y.propertyOrder, y.orgTags, y.properties)
      && ShownDrawers(x.extraDrawers) == ShownDrawers(y.extraDrawers)
  {
    var (s, u) := (ShownKeys(x.propertyOrder, x.orgTags, x.properties), ShownKeys(y.propertyOrder, y.orgTags, y.properties));
    var c := Classified(x.orgTags, x.properties).1;
    ShownKeysFacts(x.propertyOrder, x.orgTags, x.properties);
    ShownKeysFacts(y.propertyOrder, y.orgTags, y.properties);
    ReorderedLength(s, u, c);
    if PropertyText(x) == PropertyText(y) {
      OrderIsShown(s, u, c);
    }
    TopIsSame(x, y);
    MiddlesDecide(Top(x), PropertyText(x), PropertyText(y), ":END:\n" + LogText(x.logbook),
                  ShownDrawers(x.extraDrawers), ShownDrawers(y.extraDrawers), BodyText(x.body));
    hide Top, LogText, BodyText, ShownKeys, Classified, ShownDrawers, PropertyLines, Terminated;
  }

  lemma TopIsSame(x: Heading, y: Heading)
    requires x == y.(propertyOrder := x.propertyOrder, extraDrawers := x.extraDrawers, lineStart := x.lineStart, lineEnd := x.lineEnd)
    ensures Top(x) == Top(y)
  {
    hide Classified, PlanningLine, PropertyLine;
  }
}
