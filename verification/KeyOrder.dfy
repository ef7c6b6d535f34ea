/**
 The order of an issue's keys through the property records, beside the order a
 merge gives them (`push_props`, `crates/vissue-core/src/ledger.rs`;
 `merge_heading`, `crates/vissue-core/src/merge.rs`).
 */
module KeyOrder {
  import opened Base
  import opened Text
  import opened Order
  import opened Issue
  import opened MergeSets
  import opened Merge
  import opened MergeAgain
  import opened Print
  import opened Records
  import opened Ledger
  import opened LedgerLaws

  // ---- through the property records ----

  predicate Ascends(keys: seq<string>) {
    forall i, j :: 0 <= i < j < |keys| ==> Less(keys[i], keys[j])
  }

  /// A key the property records set that the key order lacks.
  predicate IsAdded(k: string, order: seq<string>, was: Table, now: Table) {
    k != "ID" && k !in order && Get(was, k) != Get(now, k)
  }

  function Added(keys: seq<string>, order: seq<string>, was: Table, now: Table): seq<string> {
    if keys == [] then []
    else (if IsAdded(keys[0], order, was, now) then [keys[0]] else []) + Added(keys[1..], order, was, now)
  }

  lemma {:induction false} AddedFacts(keys: seq<string>, order: seq<string>, was: Table, now: Table)
    ensures forall k :: k in Added(keys, order, was, now) <==> k in keys && IsAdded(k, order, was, now)
    ensures Ascends(keys) ==> Ascends(Added(keys, order, was, now))
  {
    hide IsAdded;
    if keys != [] {
      AddedFacts(keys[1..], order, was, now);
      var rest := Added(keys[1..], order, was, now);
      assert keys == [keys[0]] + keys[1..];
      if Ascends(keys) {
        forall i | 0 <= i < |rest| ensures Less(keys[0], rest[i]) {
          assert rest[i] in keys[1..];
          var j :| 0 <= j < |keys[1..]| && keys[1..][j] == rest[i];
          assert keys[j + 1] == rest[i];
        }
      }
    }
  }

  lemma {:induction false} AddedMore(keys: seq<string>, order: seq<string>, k: string, was: Table, now: Table)
    requires k !in keys
    ensures Added(keys, order + [k], was, now) == Added(keys, order, was, now)
  {
    hide Get;
    if keys != [] { AddedMore(keys[1..], order, k, was, now); }
  }

  lemma {:induction false} SortedAscends(s: set<string>)
    ensures Ascends(Sorted(s))
    decreases |s|
  {
    if s != {} {
      var (x, keys) := (Least(s), Sorted(s));
      SortedAscends(s - {x});
      assert keys == [x] + Sorted(s - {x});
      forall j | 0 < j < |keys| ensures Less(x, keys[j]) {
        assert keys[j] in Elems(Sorted(s - {x}));
      }
    }
  }

  /// Two ascending walks of the same keys are the same.
  lemma {:induction false} AscendingOnce(s: seq<string>, t: seq<string>)
    requires Ascends(s) && Ascends(t) && forall k :: k in s <==> k in t
    ensures s == t
  {
    if s != [] { HasFirst(s); }
    if t != [] { HasFirst(t); }
    if s != [] && t != [] {
      FirstIsLeast(s, t[0]);
      FirstIsLeast(t, s[0]);
      if s[0] != t[0] { LessAsymmetric(s[0], t[0]); }
      forall k ensures k in s[1..] <==> k in t[1..] {
        NotTwice(s, k);
        NotTwice(t, k);
      }
      AscendingOnce(s[1..], t[1..]);
    }
  }

  lemma FirstIsLeast(s: seq<string>, k: string)
    requires Ascends(s) && k in s
    ensures k == s[0] || Less(s[0], k)
  {
    var i :| 0 <= i < |s| && s[i] == k;
  }

  lemma NotTwice(s: seq<string>, k: string)
    requires s != [] && Ascends(s)
    ensures k in s[1..] <==> k in s && k != s[0]
  {
    if k in s[1..] {
      var i :| 0 <= i < |s[1..]| && s[1..][i] == k;
      assert Less(s[0], s[i + 1]);
      LessAsymmetric(s[0], k);
    }
    assert s == [s[0]] + s[1..];
  }

  lemma {:induction false} SetsOrder(f: Folded, keys: seq<string>, was: Table, now: Table, read: Reader) returns (g: Folded)
    requires Distinct(keys) && forall k :: k in keys ==> k in now && OneLine(k)
    ensures FoldRecords(f, PropSets(keys, was, now), read) == Some(g)
    ensures OnlyProperties(f, g)
    ensures g.heading.propertyOrder == f.heading.propertyOrder + Added(keys, f.heading.propertyOrder, was, now)
    decreases |keys|
  {
    var order := f.heading.propertyOrder;
    if keys == [] {
      FoldNone(f, read);
      assert order + [] == order;
      g := f;
    } else {
      var k := keys[0];
      assert k in keys && keys == [k] + keys[1..];
      var h := SetOrder(f, k, was, now, read);
      HeadNotInTail(keys);
      hide FoldRecords, When, OneLine, Distinct, Get, IsAdded;
      g := SetsOrder(h, keys[1..], was, now, read);
      FoldRecordsConcat(f, When(k != "ID" && Get(was, k) != Get(now, k), "prop", k + "\n" + Get(now, k).GetOr("")),
                        PropSets(keys[1..], was, now), read);
      AddedStep(keys, order, h.heading.propertyOrder, was, now);
    }
  }

  lemma AddedStep(keys: seq<string>, order: seq<string>, next: seq<string>, was: Table, now: Table)
    requires keys != [] && keys[0] !in keys[1..]
    requires next == if IsAdded(keys[0], order, was, now) then order + [keys[0]] else order
    ensures next + Added(keys[1..], next, was, now) == order + Added(keys, order, was, now)
  {
    hide IsAdded;
    var rest := Added(keys[1..], order, was, now);
    AddedMore(keys[1..], order, keys[0], was, now);
    var here := if IsAdded(keys[0], order, was, now) then [keys[0]] else [];
    assert Added(keys, order, was, now) == here + rest;
    assert next == order + here;
    hide *;
    ThreeParts(order, here, rest);
  }

  lemma ThreeParts(a: seq<string>, b: seq<string>, c: seq<string>)
    ensures a + b + c == a + (b + c)
  {
  }

  lemma SetOrder(f: Folded, k: string, was: Table, now: Table, read: Reader) returns (h: Folded)
    requires k in now && OneLine(k)
    ensures FoldRecords(f, When(k != "ID" && Get(was, k) != Get(now, k), "prop", k + "\n" + Get(now, k).GetOr("")), read) == Some(h)
    ensures OnlyProperties(f, h)
    ensures var order := f.heading.propertyOrder;
      h.heading.propertyOrder == if IsAdded(k, order, was, now) then order + [k] else order
  {
    hide Apply, EncodeOne, OneLine;
    var v := Get(now, k).GetOr("");
    var r := Record("prop", k + "\n" + v);
    FoldNone(f, read);
    FoldOne(f, r, read);
    PropOps(f, k, v, EncodeOne(r), read);
    hide FoldRecords;
    h := if k != "ID" && Get(was, k) != Get(now, k) then f.(heading := SetProperty(f.heading, k, v)) else f;
  }

  lemma {:induction false} RetainIsWithout(keys: seq<string>, k: string)
    ensures Retain(keys, k) == Without(keys, {k})
  {
    if keys != [] { RetainIsWithout(keys[1..], k); }
  }

  lemma {:induction false} WithoutBoth<T>(s: seq<T>, x: set<T>, y: set<T>)
    ensures Without(Without(s, x), y) == Without(s, x + y)
  {
    hide Elems;
    if s != [] {
      WithoutBoth(s[1..], x, y);
      var rest := Without(s[1..], x);
      assert ([s[0]] + rest)[1..] == rest;
    }
  }

  function GoneKeys(keys: seq<string>, now: Table): set<string> {
    set k | k in keys && k != "ID" && k !in now
  }

  lemma {:induction false} DelsOrder(f: Folded, keys: seq<string>, now: Table, read: Reader) returns (g: Folded)
    requires forall k :: k in keys ==> OneLine(k)
    ensures FoldRecords(f, PropDels(keys, now), read) == Some(g)
    ensures OnlyProperties(f, g) && g.heading.propertyOrder == Without(f.heading.propertyOrder, GoneKeys(keys, now))
    decreases |keys|
  {
    var order := f.heading.propertyOrder;
    if keys == [] {
      FoldNone(f, read);
      WithoutNothing(order, {});
      assert GoneKeys(keys, now) == {};
      g := f;
    } else {
      var k := keys[0];
      assert k in keys && keys == [k] + keys[1..];
      var h := DelOrder(f, k, now, read);
      hide FoldRecords, When, OneLine;
      g := DelsOrder(h, keys[1..], now, read);
      FoldRecordsConcat(f, When(k != "ID" && k !in now, "prop-del", k), PropDels(keys[1..], now), read);
      var here := if k != "ID" && k !in now then {k} else {};
      assert GoneKeys(keys, now) == here + GoneKeys(keys[1..], now);
      WithoutBoth(order, here, GoneKeys(keys[1..], now));
    }
  }

  lemma DelOrder(f: Folded, k: string, now: Table, read: Reader) returns (h: Folded)
    requires OneLine(k)
    ensures FoldRecords(f, When(k != "ID" && k !in now, "prop-del", k), read) == Some(h)
    ensures OnlyProperties(f, h)
    ensures h.heading.propertyOrder == Without(f.heading.propertyOrder, if k != "ID" && k !in now then {k} else {})
  {
    hide Apply, EncodeOne, OneLine;
    var r := Record("prop-del", k);
    FoldNone(f, read);
    FoldOne(f, r, read);
    PropOps(f, k, "", EncodeOne(r), read);
    RetainIsWithout(f.heading.propertyOrder, k);
    WithoutNothing(f.heading.propertyOrder, {});
    hide FoldRecords;
    h := if k != "ID" && k !in now then f.(heading := DropProperty(f.heading, k)) else f;
  }

  /// The key order an issue has once the property records are folded.
  function OrderAfter(h: Heading, now: Table): seq<string> {
    Without(h.propertyOrder + Added(Sorted(now.Keys), h.propertyOrder, h.properties, now), GoneKeys(Sorted(h.properties.Keys), now))
  }

  lemma PropsOrder(f: Folded, now: Table, read: Reader) returns (g: Folded)
    requires forall k :: k in f.heading.properties || k in now ==> OneLine(k)
    requires Get(f.heading.properties, "ID") == Get(now, "ID")
    ensures FoldRecords(f, DiffProps(f.heading.properties, now), read) == Some(g)
    ensures OnlyProperties(f, g) && g.heading.properties == now && g.heading.propertyOrder == OrderAfter(f.heading, now)
  {
    hide FoldRecords, OneLine, Apply;
    var was := f.heading.properties;
    var (sets, dels) := (Sorted(now.Keys), Sorted(was.Keys));
    InKeys(sets, now);
    InKeys(dels, was);
    g := FoldProps(f, now, read);
    var h := SetsOrder(f, sets, was, now, read);
    var g' := DelsOrder(h, dels, now, read);
    FoldRecordsConcat(f, PropSets(sets, was, now), PropDels(dels, now), read);
  }

  /// The keys of `was`, in the order the records for `now` give them, are
  /// printed in the order of `now`.
  predicate KeysPrintAlike(was: Heading, now: Heading) {
    var (tags, table) := (now.orgTags, now.properties);
    ShownKeys(OrderAfter(was, table), tags, table) == ShownKeys(now.propertyOrder, tags, table)
  }

  // ---- beside a merge ----

  /// The key order lists exactly the keys there are, each once.
  ghost predicate OrderCovers(h: Heading) {
    Distinct(h.propertyOrder) && forall k :: k in h.propertyOrder <==> k in h.properties
  }

  /// The keys a merge puts after ours' own: theirs' new ones that are still
  /// there, in theirs' order.
  function TheirNewKeys(a: seq<string>, b: seq<string>, table: Table): seq<string> {
    var all := AddNew(a, b, {});
    Without(all[if |a| <= |all| then |a| else |all|..], Elems(all) - table.Keys)
  }

  /// Those of them that are printed in the drawer.
  function TheirNewShown(a: seq<string>, b: seq<string>, tags: seq<string>, table: Table): seq<string> {
    OnlyShown(TheirNewKeys(a, b, table), table, Classified(tags, table).1)
  }

  lemma {:induction false} WithoutDistinct<T>(s: seq<T>, drop: set<T>)
    requires Distinct(s)
    ensures Distinct(Without(s, drop))
  {
    if s != [] {
      HeadNotInTail(s);
      WithoutDistinct(s[1..], drop);
      var rest := Without(s[1..], drop);
      assert s[0] !in Elems(s[1..]) && s[0] !in Elems(rest);
    }
  }

  lemma {:induction false} AddNewDistinct(out: seq<string>, src: seq<string>)
    requires Distinct(out)
    ensures Distinct(AddNew(out, src, {}))
    decreases |src|
  {
    if src != [] {
      AddNewDistinct(if src[0] !in out then out + [src[0]] else out, src[1..]);
    }
  }

  lemma AscendsDistinct(s: seq<string>)
    requires Ascends(s)
    ensures Distinct(s)
  {
    forall i, j | 0 <= i < j < |s| ensures s[i] != s[j] {
      if s[i] == s[j] { LessAsymmetric(s[i], s[j]); }
    }
  }

  lemma {:induction false} OnlyShownConcat(s: seq<string>, u: seq<string>, t: Table, c: Table)
    ensures OnlyShown(s + u, t, c) == OnlyShown(s, t, c) + OnlyShown(u, t, c)
  {
    hide IsShown;
    if s == [] {
      assert s + u == u && OnlyShown(s, t, c) == [];
    } else {
      OnlyShownConcat(s[1..], u, t, c);
      var here := if IsShown(s[0], t, c) then [s[0]] else [];
      assert (s + u)[0] == s[0] && (s + u)[1..] == s[1..] + u;
      var (x, y) := (OnlyShown(s[1..], t, c), OnlyShown(u, t, c));
      assert OnlyShown(s, t, c) == here + x && OnlyShown(s + u, t, c) == here + (x + y);
      ThreeParts(here, x, y);
    }
  }

  lemma {:induction false} OnlyShownAscends(s: seq<string>, t: Table, c: Table)
    requires Ascends(s)
    ensures Ascends(OnlyShown(s, t, c))
  {
    hide IsShown;
    if s != [] {
      OnlyShownAscends(s[1..], t, c);
      OnlyShownFacts(s[1..], t, c);
      var rest := OnlyShown(s[1..], t, c);
      forall i | 0 <= i < |rest| ensures Less(s[0], rest[i]) {
        assert rest[i] in s[1..];
        var j :| 0 <= j < |s[1..]| && s[1..][j] == rest[i];
        assert s[j + 1] == rest[i];
      }
    }
  }

  /// Of two walks over the same keys, one of them ascending, the shown keys
  /// are the same exactly when the other's ascend too.
  lemma SameShown(news: seq<string>, theirNews: seq<string>, t: Table, c: Table)
    requires Ascends(news) && forall k :: k in theirNews <==> k in news
    ensures OnlyShown(news, t, c) == OnlyShown(theirNews, t, c) <==> Ascends(OnlyShown(theirNews, t, c))
  {
    OnlyShownAscends(news, t, c);
    OnlyShownFacts(news, t, c);
    OnlyShownFacts(theirNews, t, c);
    hide *;
    if Ascends(OnlyShown(theirNews, t, c)) {
      AscendingOnce(OnlyShown(news, t, c), OnlyShown(theirNews, t, c));
    }
  }

  lemma SameFrontShown(kept: seq<string>, x: seq<string>, y: seq<string>)
    ensures kept + x == kept + y <==> x == y
  {
    assert (kept + x)[|kept|..] == x && (kept + y)[|kept|..] == y;
  }

  /**
   The merged keys print in the order the property records give them exactly
   when theirs' new keys that are printed in the drawer come in byte order:
   records set keys in that order, and a new key goes last.
   */
  lemma MergedOrderFoldsBack(ours: Heading, theirs: Heading, now: Heading)
    requires OrderCovers(ours) && OrderCovers(theirs)
    requires now.properties.Keys <= ours.properties.Keys + theirs.properties.Keys
    requires now.propertyOrder == MergedOrder(ours.propertyOrder, theirs.propertyOrder, now.properties)
    requires "ID" in ours.properties && "ID" in now.properties
    ensures KeysPrintAlike(ours, now)
      <==> Ascends(TheirNewShown(ours.propertyOrder, theirs.propertyOrder, now.orgTags, now.properties))
  {
    var (a, b, table, c) := (ours.propertyOrder, theirs.propertyOrder, now.properties, Classified(now.orgTags, now.properties).1);
    var (news, theirNews) := (Added(Sorted(table.Keys), a, ours.properties, table), TheirNewKeys(a, b, table));
    var kept := Without(a, GoneKeys(Sorted(ours.properties.Keys), table));
    OursKept(ours, theirs, table);
    SameNewKeys(ours, theirs, table);
    AddedFacts(Sorted(table.Keys), a, ours.properties, table);
    SortedAscends(table.Keys);
    AfterIsWhole(ours, table);
    MergedIsWhole(ours, theirs, table);
    hide Added, TheirNewKeys, Without, GoneKeys, Sorted, MergedOrder, OrderAfter, Classified, OnlyShown, IsAdded, Ascends, OrderedKeys,
      OrderCovers;
    WholeOrderStands(OrderAfter(ours, table), table);
    WholeOrderStands(now.propertyOrder, table);
    OnlyShownConcat(kept, news, table, c);
    OnlyShownConcat(kept, theirNews, table, c);
    SameShown(news, theirNews, table, c);
    SameFrontShown(OnlyShown(kept, table, c), OnlyShown(news, table, c), OnlyShown(theirNews, table, c));
  }

  lemma AfterIsWhole(ours: Heading, table: Table)
    requires OrderCovers(ours) && "ID" in ours.properties && "ID" in table
    ensures var order := OrderAfter(ours, table); Distinct(order) && forall k :: k in order <==> k in table
  {
    var (a, was) := (ours.propertyOrder, ours.properties);
    var (news, gone) := (Added(Sorted(table.Keys), a, was, table), GoneKeys(Sorted(was.Keys), table));
    InKeys(Sorted(table.Keys), table);
    InKeys(Sorted(was.Keys), was);
    AddedFacts(Sorted(table.Keys), a, was, table);
    SortedAscends(table.Keys);
    AscendsDistinct(news);
    assert Distinct(a + news) by {
      forall i, j | 0 <= i < |a| && 0 <= j < |news| ensures a[i] != news[j] { assert news[j] in news && a[i] in a; }
    }
    WithoutDistinct(a + news, gone);
    hide Added, Without, Sorted, Ascends, Distinct;
    var order := Without(a + news, gone);
    forall k ensures k in order <==> k in table {
      assert k in order <==> k in Elems(order);
      assert k in a + news <==> k in Elems(a + news);
    }
  }

  lemma MergedIsWhole(ours: Heading, theirs: Heading, table: Table)
    requires OrderCovers(ours) && OrderCovers(theirs) && table.Keys <= ours.properties.Keys + theirs.properties.Keys
    ensures var order := MergedOrder(ours.propertyOrder, theirs.propertyOrder, table);
      Distinct(order) && forall k :: k in order <==> k in table
  {
    var (a, b) := (ours.propertyOrder, theirs.propertyOrder);
    var all := AddNew(a, b, {});
    AddNewDistinct(a, b);
    WithoutDistinct(all, Elems(all) - table.Keys);
    var order := MergedOrder(a, b, table);
    hide Without, AddNew, Distinct;
    forall k ensures k in order <==> k in table {
      assert k in order <==> k in Elems(order);
      assert k in a <==> k in Elems(a);
      assert k in b <==> k in Elems(b);
    }
  }

  lemma {:induction false} WithoutSame<T>(s: seq<T>, x: set<T>, y: set<T>)
    requires forall k :: k in s ==> (k in x <==> k in y)
    ensures Without(s, x) == Without(s, y)
  {
    if s != [] {
      assert s[0] in s;
      assert forall k :: k in s[1..] ==> k in s;
      WithoutSame(s[1..], x, y);
    }
  }

  /// Ours' part of both orders is the same; what follows it is new.
  lemma OursKept(ours: Heading, theirs: Heading, table: Table)
    requires OrderCovers(ours) && "ID" in table
    ensures var (a, b) := (ours.propertyOrder, theirs.propertyOrder);
      var kept := Without(a, GoneKeys(Sorted(ours.properties.Keys), table));
      && OrderAfter(ours, table) == kept + Added(Sorted(table.Keys), a, ours.properties, table)
      && MergedOrder(a, b, table) == kept + TheirNewKeys(a, b, table)
  {
    var (a, b) := (ours.propertyOrder, theirs.propertyOrder);
    SameAreGone(ours, b, table);
    hide *;
    AfterKeepsOurs(ours, table);
    MergeKeepsOurs(a, b, table);
    WithoutSame(a, GoneKeys(Sorted(ours.properties.Keys), table), Elems(AddNew(a, b, {})) - table.Keys);
  }

  lemma SameAreGone(ours: Heading, b: seq<string>, table: Table)
    requires OrderCovers(ours) && "ID" in table
    ensures var (a, dropped) := (ours.propertyOrder, GoneKeys(Sorted(ours.properties.Keys), table));
      forall k :: k in a ==> (k in dropped <==> k in Elems(AddNew(a, b, {})) - table.Keys)
  {
    var a := ours.propertyOrder;
    InKeys(Sorted(ours.properties.Keys), ours.properties);
    AddNewExtends(a, b);
    hide Sorted, AddNew, Distinct;
    forall k | k in a ensures k in AddNew(a, b, {}) {}
  }

  lemma AfterKeepsOurs(ours: Heading, table: Table)
    ensures var (a, dropped) := (ours.propertyOrder, GoneKeys(Sorted(ours.properties.Keys), table));
      OrderAfter(ours, table) == Without(a, dropped) + Added(Sorted(table.Keys), a, ours.properties, table)
  {
    var (a, dropped) := (ours.propertyOrder, GoneKeys(Sorted(ours.properties.Keys), table));
    var news := Added(Sorted(table.Keys), a, ours.properties, table);
    InKeys(Sorted(table.Keys), table);
    AddedFacts(Sorted(table.Keys), a, ours.properties, table);
    hide Added, Sorted, Without;
    WithoutConcat(a, news, dropped);
    WithoutSame(news, dropped, {});
    WithoutNothing(news, {});
  }

  lemma MergeKeepsOurs(a: seq<string>, b: seq<string>, table: Table)
    ensures var gone := Elems(AddNew(a, b, {})) - table.Keys;
      MergedOrder(a, b, table) == Without(a, gone) + TheirNewKeys(a, b, table)
  {
    var all := AddNew(a, b, {});
    AddNewExtends(a, b);
    hide AddNew, Without;
    assert all == a + all[|a|..];
    WithoutConcat(a, all[|a|..], Elems(all) - table.Keys);
  }

  /// The new keys are the same ones in both orders.
  lemma SameNewKeys(ours: Heading, theirs: Heading, table: Table)
    requires OrderCovers(ours) && OrderCovers(theirs) && table.Keys <= ours.properties.Keys + theirs.properties.Keys
    requires "ID" in ours.properties
    ensures var (a, b) := (ours.propertyOrder, theirs.propertyOrder);
      forall k :: k in TheirNewKeys(a, b, table) <==> k in Added(Sorted(table.Keys), a, ours.properties, table)
  {
    var (a, b) := (ours.propertyOrder, theirs.propertyOrder);
    InKeys(Sorted(table.Keys), table);
    AddedFacts(Sorted(table.Keys), a, ours.properties, table);
    var all := AddNew(a, b, {});
    AddNewExtends(a, b);
    var extra := all[|a|..];
    assert all == a + extra;
    var theirNews := TheirNewKeys(a, b, table);
    assert Elems(theirNews) == Elems(extra) - (Elems(all) - table.Keys);
    hide AddNew, Added, Sorted, Without, TheirNewKeys, Distinct;
    forall k ensures k in theirNews <==> k in Added(Sorted(table.Keys), a, ours.properties, table) {
      ExtraKeys(a, b, k);
      assert k in theirNews <==> k in Elems(theirNews);
      assert k in extra <==> k in Elems(extra);
      assert k in all <==> k in Elems(all);
    }
  }

  lemma ExtraKeys(a: seq<string>, b: seq<string>, k: string)
    ensures a <= AddNew(a, b, {})
    ensures k in AddNew(a, b, {})[|a|..] <==> k in b && k !in a
  {
    AddNewExtends(a, b);
    var all := AddNew(a, b, {});
    assert all == a + all[|a|..];
    assert k in all <==> k in Elems(all);
    assert k in b <==> k in Elems(b);
    assert k in a <==> k in Elems(a);
    if k in all[|a|..] {
      AddNewFresh(a, b, k);
    }
  }
}
