/**
 The set-valued parts of the three-way merge: heading tags, space-separated
 properties and logbook lines (`crates/vissue-core/src/merge.rs`).
 */
module MergeSets {
  import opened Base
  import opened Text

  // ---- one field ----

  /// The value one field takes, and whether both sides changed it apart.
  function Pick<T(==)>(base: T, ours: T, theirs: T): (T, bool) {
    if ours == theirs || theirs == base then (ours, false)
    else if ours == base then (theirs, false)
    else (ours, true)
  }

  lemma PickCommutes<T>(base: T, ours: T, theirs: T)
    ensures Pick(base, ours, theirs).1 == Pick(base, theirs, ours).1
    ensures !Pick(base, ours, theirs).1 ==> Pick(base, ours, theirs) == Pick(base, theirs, ours)
  {
  }

  lemma PickAbsorbs<T>(base: T, ours: T, theirs: T)
    requires !Pick(base, ours, theirs).1
    ensures Pick(base, Pick(base, ours, theirs).0, theirs) == Pick(base, ours, theirs)
  {
  }

  // ---- sequences used as sets ----

  function Without<T(==)>(s: seq<T>, drop: set<T>): (r: seq<T>)
    ensures Elems(r) == Elems(s) - drop
  {
    if s == [] then []
    else
      var r := Without(s[1..], drop);
      assert Elems(s) == {s[0]} + Elems(s[1..]);
      assert Elems([s[0]] + r) == {s[0]} + Elems(r);
      if s[0] in drop then r else [s[0]] + r
  }

  lemma {:induction false} WithoutNothing<T>(s: seq<T>, drop: set<T>)
    requires Elems(s) !! drop
    ensures Without(s, drop) == s
  {
    if s != [] {
      assert s[0] in Elems(s);
      assert Elems(s[1..]) <= Elems(s);
      WithoutNothing(s[1..], drop);
    }
  }

  /// Base elements one side no longer has.
  function Removed<T(==)>(o: seq<T>, a: seq<T>, b: seq<T>): set<T> {
    set t | t in o && (t !in a || t !in b)
  }

  /// What a three-way merge of sets keeps: what both have, and what either
  /// has that the base had not.
  function ThreeWay<T(==)>(o: set<T>, a: set<T>, b: set<T>): set<T> {
    (a * b) + ((a + b) - o)
  }

  lemma ThreeWayIsLessRemoved<T>(o: seq<T>, a: seq<T>, b: seq<T>)
    ensures (Elems(a) - Removed(o, a, b)) + (Elems(b) - Removed(o, a, b))
         == ThreeWay(Elems(o), Elems(a), Elems(b))
  {
  }

  lemma RemovedAfterMerge<T>(o: seq<T>, a: seq<T>, b: seq<T>, m: seq<T>)
    requires Elems(m) == ThreeWay(Elems(o), Elems(a), Elems(b))
    ensures Removed(o, m, b) == Removed(o, a, b)
  {
    forall t | t in o
      ensures (t !in m || t !in b) <==> (t !in a || t !in b)
    {
      assert t in Elems(o);
      assert t in m <==> t in Elems(m);
      assert t in a <==> t in Elems(a);
      assert t in b <==> t in Elems(b);
    }
  }

  // ---- tags ----

  function MergedTags(o: seq<string>, a: seq<string>, b: seq<string>): seq<string> {
    var removed := Removed(o, a, b);
    Without(a, removed) + Without(b, removed + Elems(a))
  }

  lemma TagsSetLaw(o: seq<string>, a: seq<string>, b: seq<string>)
    ensures Elems(MergedTags(o, a, b)) == ThreeWay(Elems(o), Elems(a), Elems(b))
  {
    ElemsConcat(Without(a, Removed(o, a, b)), Without(b, Removed(o, a, b) + Elems(a)));
    ThreeWayIsLessRemoved(o, a, b);
  }

  lemma ElemsConcat<T>(s: seq<T>, t: seq<T>)
    ensures Elems(s + t) == Elems(s) + Elems(t)
  {
  }

  lemma {:induction false} WithoutAll<T>(s: seq<T>, drop: set<T>)
    requires Elems(s) <= drop
    ensures Without(s, drop) == []
  {
    if s != [] {
      assert s[0] in Elems(s);
      assert Elems(s[1..]) <= Elems(s);
      WithoutAll(s[1..], drop);
    }
  }

  /// Merging the same theirs into a merged tag list changes nothing.
  lemma TagsAbsorb(o: seq<string>, a: seq<string>, b: seq<string>)
    ensures var m := MergedTags(o, a, b); MergedTags(o, m, b) == m
  {
    var m := MergedTags(o, a, b);
    TagsSetLaw(o, a, b);
    RemovedAfterMerge(o, a, b, m);
    WithoutNothing(m, Removed(o, a, b));
    WithoutAll(b, Removed(o, a, b) + Elems(m));
  }

  lemma TagsIdentity(o: seq<string>, a: seq<string>)
    ensures MergedTags(o, a, o) == a
  {
    WithoutNothing(a, Removed(o, a, o));
    WithoutAll(o, Removed(o, a, o) + Elems(a));
  }

  method MergeTags(o: seq<string>, a: seq<string>, b: seq<string>) returns (tags: seq<string>)
    ensures tags == MergedTags(o, a, b)
  {
    hide Removed;
    var removed := Removed(o, a, b);
    tags := Without(a, removed);
    for i := 0 to |b|
      invariant tags == Without(a, removed) + Without(b[..i], removed + Elems(a))
    {
      WithoutSnoc(b[..i], b[i], removed + Elems(a));
      assert b[..i + 1] == b[..i] + [b[i]];
      if b[i] !in removed && b[i] !in a {
        tags := tags + [b[i]];
      }
    }
    assert b[..|b|] == b;
  }

  lemma {:induction false} WithoutSnoc<T>(s: seq<T>, x: T, drop: set<T>)
    ensures Without(s + [x], drop) == if x in drop then Without(s, drop) else Without(s, drop) + [x]
  {
    if s != [] {
      WithoutSnoc(s[1..], x, drop);
      assert (s + [x])[1..] == s[1..] + [x];
    }
  }

  // ---- space-separated properties ----

  predicate IsToken(t: string) {
    t != "" && forall i :: 0 <= i < |t| ==> !IsSpace(t[i])
  }

  predicate Tokens(ts: seq<string>) {
    forall i :: 0 <= i < |ts| ==> IsToken(ts[i])
  }

  function SplitSpace(s: string): (ts: seq<string>)
    ensures Tokens(ts)
    decreases |s|
  {
    var t := TrimStart(s);
    if t == "" then []
    else
      var n := WordLength(t);
      assert n > 0;
      [t[..n]] + SplitSpace(t[n..])
  }

  function JoinSpace(ts: seq<string>): string {
    if ts == [] then ""
    else if |ts| == 1 then ts[0]
    else ts[0] + " " + JoinSpace(ts[1..])
  }

  lemma {:induction false} WordLengthAt(w: string, rest: string)
    requires forall i :: 0 <= i < |w| ==> !IsSpace(w[i])
    requires rest == "" || IsSpace(rest[0])
    ensures WordLength(w + rest) == |w|
  {
    if w == "" {
      assert w + rest == rest;
    } else {
      WordLengthAt(w[1..], rest);
      assert (w + rest)[1..] == w[1..] + rest;
      assert (w + rest)[0] == w[0];
    }
  }

  lemma FirstToken(w: string, rest: string)
    requires IsToken(w) && (rest == "" || IsSpace(rest[0]))
    ensures SplitSpace(w + rest) == [w] + SplitSpace(rest)
  {
    WordLengthAt(w, rest);
    hide WordLength;
    assert (w + rest)[0] == w[0];
    assert (w + rest)[..|w|] == w && (w + rest)[|w|..] == rest;
    assert TrimStart(w + rest) == w + rest;
  }

  lemma BlankBefore(rest: string)
    ensures SplitSpace(" " + rest) == SplitSpace(rest)
  {
    assert (" " + rest)[1..] == rest;
    assert TrimStart(" " + rest) == TrimStart(rest);
    hide TrimStart;
  }

  lemma {:induction false} SplitJoinSpace(ts: seq<string>)
    requires Tokens(ts)
    ensures SplitSpace(JoinSpace(ts)) == ts
  {
    if ts != [] {
      var more := JoinSpace(ts[1..]);
      var rest := if |ts| == 1 then "" else " " + more;
      SplitJoinSpace(ts[1..]);
      assert JoinSpace(ts) == ts[0] + rest;
      hide JoinSpace, SplitSpace, IsToken;
      FirstToken(ts[0], rest);
      BlankBefore(more);
      assert |ts| == 1 ==> SplitSpace("") == [] by { NoWords(); }
      assert ts == [ts[0]] + ts[1..];
    }
  }

  lemma NoWords()
    ensures SplitSpace("") == []
  {
  }

  /// `out`, then each token of `src` that is not removed and not there yet.
  function AddNew(out: seq<string>, src: seq<string>, removed: set<string>): (r: seq<string>)
    ensures Elems(r) == Elems(out) + (Elems(src) - removed)
    decreases |src|
  {
    if src == [] then out
    else
      var t := src[0];
      assert Elems(src) == {t} + Elems(src[1..]);
      assert Elems(out + [t]) == Elems(out) + {t};
      AddNew(if t !in removed && t !in out then out + [t] else out, src[1..], removed)
  }

  function PropTokens(v: Option<string>): seq<string> {
    SplitSpace(v.GetOr(""))
  }

  lemma NoTokens()
    ensures PropTokens(None) == []
  {
  }

  function MergedTokenList(base: Option<string>, ours: Option<string>, theirs: Option<string>): seq<string> {
    var (o, a, b) := (PropTokens(base), PropTokens(ours), PropTokens(theirs));
    AddNew(Without(a, Removed(o, a, b)), b, Removed(o, a, b))
  }

  function MergedTokens(base: Option<string>, ours: Option<string>, theirs: Option<string>): Option<string> {
    var out := MergedTokenList(base, ours, theirs);
    if out == [] then None else Some(JoinSpace(out))
  }

  lemma {:induction false} AddNewTokens(out: seq<string>, src: seq<string>, removed: set<string>)
    requires Tokens(out) && Tokens(src)
    ensures Tokens(AddNew(out, src, removed))
    decreases |src|
  {
    if src != [] {
      AddNewTokens(if src[0] !in removed && src[0] !in out then out + [src[0]] else out, src[1..], removed);
    }
  }

  lemma {:induction false} WithoutTokens(s: seq<string>, drop: set<string>)
    requires Tokens(s)
    ensures Tokens(Without(s, drop))
  {
    if s != [] {
      WithoutTokens(s[1..], drop);
    }
  }

  lemma {:induction false} AddNothing(out: seq<string>, src: seq<string>, removed: set<string>)
    requires Elems(src) <= removed + Elems(out)
    ensures AddNew(out, src, removed) == out
    decreases |src|
  {
    if src != [] {
      assert src[0] in Elems(src);
      assert Elems(src[1..]) <= Elems(src);
      AddNothing(out, src[1..], removed);
    }
  }

  /// The merged value holds the merged tokens, in order, and nothing else.
  lemma MergedTokensHold(base: Option<string>, ours: Option<string>, theirs: Option<string>)
    ensures PropTokens(MergedTokens(base, ours, theirs)) == MergedTokenList(base, ours, theirs)
  {
    var (o, a, b) := (PropTokens(base), PropTokens(ours), PropTokens(theirs));
    WithoutTokens(a, Removed(o, a, b));
    AddNewTokens(Without(a, Removed(o, a, b)), b, Removed(o, a, b));
    SplitJoinSpace(MergedTokenList(base, ours, theirs));
  }

  lemma TokensSetLaw(base: Option<string>, ours: Option<string>, theirs: Option<string>)
    ensures Elems(PropTokens(MergedTokens(base, ours, theirs)))
         == ThreeWay(Elems(PropTokens(base)), Elems(PropTokens(ours)), Elems(PropTokens(theirs)))
  {
    var (o, a, b) := (PropTokens(base), PropTokens(ours), PropTokens(theirs));
    MergedTokensHold(base, ours, theirs);
    ThreeWayIsLessRemoved(o, a, b);
  }

  lemma TokensAbsorb(base: Option<string>, ours: Option<string>, theirs: Option<string>)
    ensures var m := MergedTokens(base, ours, theirs); MergedTokens(base, m, theirs) == m
  {
    var m := MergedTokens(base, ours, theirs);
    var (o, a, b) := (PropTokens(base), PropTokens(ours), PropTokens(theirs));
    var mt := PropTokens(m);
    MergedTokensHold(base, ours, theirs);
    TokensSetLaw(base, ours, theirs);
    RemovedAfterMerge(o, a, b, mt);
    WithoutNothing(mt, Removed(o, a, b));
    AddNothing(mt, b, Removed(o, a, b));
  }

  /// A set property as a merge writes it: present only with tokens, one space
  /// between two.
  predicate NormalTokens(v: Option<string>) {
    v == if PropTokens(v) == [] then None else Some(JoinSpace(PropTokens(v)))
  }

  lemma TokensIdentity(base: Option<string>, ours: Option<string>)
    ensures MergedTokens(base, ours, base) == ours <==> NormalTokens(ours)
  {
    var (o, a) := (PropTokens(base), PropTokens(ours));
    WithoutNothing(a, Removed(o, a, o));
    AddNothing(a, o, Removed(o, a, o));
  }

  method MergeTokens(base: Option<string>, ours: Option<string>, theirs: Option<string>) returns (merged: Option<string>)
    ensures merged == MergedTokens(base, ours, theirs)
  {
    var o, a, b := PropTokens(base), PropTokens(ours), PropTokens(theirs);
    var removed := Removed(o, a, b);
    var out := Without(a, removed);
    for i := 0 to |b|
      invariant AddNew(out, b[i..], removed) == MergedTokenList(base, ours, theirs)
    {
      if b[i] !in removed && b[i] !in out {
        out := out + [b[i]];
      }
    }
    if out == [] && ours == None && theirs == None {
      return None;
    }
    return if out != [] then Some(JoinSpace(out)) else None;
  }
}
