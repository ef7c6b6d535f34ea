/**
 What stands where in the text of an issue: the column of the values, the order
 of the keys and the tags that move to the heading (`render_property`,
 `ordered_property_keys`, `crates/vissue-core/src/model.rs`; `classify`,
 `crates/vissue-core/src/props.rs`).
 */
module PrintOrder {
  import opened Base
  import opened Text
  import opened Order
  import opened Issue
  import opened Print
  import Headline

  /// The value of a short key starts in the fourteenth column, that of any
  /// other one blank behind the key.
  lemma ValueColumn(k: string, v: string)
    ensures var line := PropertyLine(k, v);
      && |line| == (if |k| + 2 < 13 then 13 else |k| + 3) + |v|
      && ":" + k + ":" <= line && line[|line| - |v|..] == v
      && forall i :: |k| + 2 <= i < |line| - |v| ==> line[i] == ' '
  {
    var (front, line) := (":" + k + ":", PropertyLine(k, v));
    assert line[..|front|] == front;
  }

  // ---- the keys ----

  /// The keys of `keys` the table has and `seen` has not.
  function Unseen(keys: seq<string>, seen: seq<string>, t: Table): seq<string> {
    if keys == [] then []
    else (if keys[0] in t && keys[0] !in seen then [keys[0]] else []) + Unseen(keys[1..], seen, t)
  }

  lemma {:induction false} UnseenMore(keys: seq<string>, seen: seq<string>, more: seq<string>, t: Table)
    requires forall k :: k in keys ==> (k in seen <==> k in more)
    ensures Unseen(keys, seen, t) == Unseen(keys, more, t)
  {
    if keys != [] {
      assert keys == [keys[0]] + keys[1..] && keys[0] in keys;
      UnseenMore(keys[1..], seen, more, t);
    }
  }

  lemma {:induction false} PutInOrder(keys: seq<string>, more: seq<string>, t: Table)
    requires Distinct(more)
    ensures PutKeys(keys, more, t) == keys + Unseen(more, keys, t)
    decreases |more|
  {
    if more == [] {
      assert keys + Unseen(more, keys, t) == keys;
    } else {
      var (k, rest) := (more[0], more[1..]);
      assert more == [k] + rest;
      if k in t && k !in keys {
        PutInOrder(keys + [k], rest, t);
        assert k !in rest;
        UnseenMore(rest, keys + [k], keys, t);
        assert keys + [k] + Unseen(rest, keys, t) == keys + ([k] + Unseen(rest, keys, t));
      } else {
        PutInOrder(keys, rest, t);
        assert [] + Unseen(rest, keys, t) == Unseen(rest, keys, t);
      }
    }
  }

  lemma HouseKeysDistinct()
    ensures CANONICAL_ORDER == ["CREATED", "TYPE", "PARENT", "BLOCKED_BY", "VISSUE_TAGS", "CLAIMED_BY", "CLAIMED_AT", "FILES", "VERIFY",
      "DEEDS", "DISCOVERED_FROM", "PIVOTED_TO", "SIBLING_TERMINAL", "Effort"]
    ensures Distinct(CANONICAL_ORDER)
  {
  }

  /**
   Keys come as they were read; those that were not, in the order of the house,
   and what is left in byte order.
   */
  lemma KeysComeInThreeParts(order: seq<string>, t: Table)
    requires Distinct(order)
    ensures var house := ["CREATED", "TYPE", "PARENT", "BLOCKED_BY", "VISSUE_TAGS", "CLAIMED_BY", "CLAIMED_AT", "FILES", "VERIFY",
        "DEEDS", "DISCOVERED_FROM", "PIVOTED_TO", "SIBLING_TERMINAL", "Effort"];
      OrderedKeys(order, t) == Unseen(order, [], t) + Unseen(house, order, t) + Unseen(Sorted(t.Keys), order + house, t)
  {
    HouseKeysDistinct();
    var house := CANONICAL_ORDER;
    hide CANONICAL_ORDER, Sorted, PutKeys;
    var (read, first) := (Unseen(order, [], t), Unseen(house, order, t));
    PutInOrder([], order, t);
    assert [] + read == read;
    PutInOrder(read, house, t);
    UnseenFacts(order, [], t);
    UnseenAsRead(house, read, order, t);
    PutInOrder(read + first, Sorted(t.Keys), t);
    UnseenFacts(house, order, t);
    UnseenAsRead(Sorted(t.Keys), read + first, order + house, t);
  }

  lemma {:induction false} UnseenFacts(keys: seq<string>, seen: seq<string>, t: Table)
    ensures forall k :: k in Unseen(keys, seen, t) <==> k in keys && k in t && k !in seen
  {
    if keys != [] {
      assert keys == [keys[0]] + keys[1..];
      UnseenFacts(keys[1..], seen, t);
    }
  }

  lemma {:induction false} UnseenAsRead(keys: seq<string>, seen: seq<string>, more: seq<string>, t: Table)
    requires forall k :: k in t ==> (k in seen <==> k in more)
    ensures Unseen(keys, seen, t) == Unseen(keys, more, t)
  {
    if keys != [] {
      UnseenAsRead(keys[1..], seen, more, t);
    }
  }

  // ---- the tags ----

  lemma PutTagHolds(tags: seq<string>, tag: string, x: string)
    ensures x in PutTag(tags, tag) <==> x in tags || (x == tag && Headline.IsTag(tag))
  {
  }

  lemma {:induction false} SettledHold(pieces: seq<string>, tags: seq<string>, kept: seq<string>, x: string)
    ensures var (more, left) := SettleTags(pieces, tags, kept);
      && (x in more <==> x in tags || (Headline.IsTag(x) && InPieces(pieces, x)))
      && (x in left <==> x in kept || (x != "" && !Headline.IsTag(x) && InPieces(pieces, x)))
    decreases |pieces|
  {
    hide Trim;
    if pieces != [] {
      var tag := Trim(pieces[0]);
      InPiecesNext(pieces, x);
      if tag == "" {
        SettledHold(pieces[1..], tags, kept, x);
      } else if Headline.IsTag(tag) {
        PutTagHolds(tags, tag, x);
        SettledHold(pieces[1..], PutTag(tags, tag), kept, x);
      } else {
        SettledHold(pieces[1..], tags, kept + [tag], x);
      }
    }
  }

  predicate InPieces(pieces: seq<string>, x: string) {
    exists i :: 0 <= i < |pieces| && Trim(pieces[i]) == x
  }

  lemma InPiecesNext(pieces: seq<string>, x: string)
    requires pieces != []
    ensures InPieces(pieces, x) <==> Trim(pieces[0]) == x || InPieces(pieces[1..], x)
  {
    hide Trim;
    if i :| 0 <= i < |pieces[1..]| && Trim(pieces[1..][i]) == x {
      assert Trim(pieces[i + 1]) == x;
    }
    if i :| 1 <= i < |pieces| && Trim(pieces[i]) == x {
      assert Trim(pieces[1..][i - 1]) == x;
    }
  }

  /// Some piece is no legal tag.
  predicate SomeStays(pieces: seq<string>) {
    exists i :: 0 <= i < |pieces| && Trim(pieces[i]) != "" && !Headline.IsTag(Trim(pieces[i]))
  }

  lemma LeftSome(pieces: seq<string>, tags: seq<string>)
    ensures SettleTags(pieces, tags, []).1 != [] <==> SomeStays(pieces)
  {
    hide Trim, Headline.IsTag, SettleTags;
    var left := SettleTags(pieces, tags, []).1;
    if left != [] {
      SettledHold(pieces, tags, [], left[0]);
      assert left[0] in left;
      var i :| 0 <= i < |pieces| && Trim(pieces[i]) == left[0];
    }
    if SomeStays(pieces) {
      var i :| 0 <= i < |pieces| && Trim(pieces[i]) != "" && !Headline.IsTag(Trim(pieces[i]));
      SettledHold(pieces, tags, [], Trim(pieces[i]));
      assert InPieces(pieces, Trim(pieces[i]));
    }
  }

  /// A tag the issue is given in one of its properties.
  predicate IsNamed(t: Table, x: string) {
    || x == Get(t, "TYPE").GetOr("") || x == Trim(Get(t, "TYPE").GetOr("")) || x == Trim(Get(t, "VISSUE_TYPE").GetOr(""))
    || ("VISSUE_TAGS" in t && InPieces(Pieces(t["VISSUE_TAGS"]), x))
  }

  /**
   The heading line holds the tags it had and every legal one the type and the
   tags name; what is no legal tag stays in the property, and nothing else does.
   */
  lemma LegalTagsMoveExactly(orgTags: seq<string>, t: Table, x: string)
    ensures var (tags, c) := Classified(orgTags, t);
      && (x in tags <==> x in orgTags || (Headline.IsTag(x) && IsNamed(t, x)))
      && (forall k :: k != "VISSUE_TAGS" ==> Get(c, k) == Get(t, k))
      && ("VISSUE_TAGS" in c <==> "VISSUE_TAGS" in t && SomeStays(Pieces(t["VISSUE_TAGS"])))
  {
    hide Trim, Headline.IsTag, Pieces, JoinComma;
    var (kind, other) := (Get(t, "TYPE").GetOr(""), Trim(Get(t, "VISSUE_TYPE").GetOr("")));
    var one := PutTag(orgTags, kind);
    var two := PutTag(one, other);
    PutTagHolds(orgTags, kind, x);
    PutTagHolds(one, other, x);
    PutTagHolds(two, Trim(kind), x);
    if TAGS_PROPERTY in t {
      SettledHold(Pieces(t[TAGS_PROPERTY]), PutTag(two, Trim(kind)), [], x);
      LeftSome(Pieces(t[TAGS_PROPERTY]), PutTag(two, Trim(kind)));
    }
    hide PutTag, SettleTags, InPieces, SomeStays;
  }
}
