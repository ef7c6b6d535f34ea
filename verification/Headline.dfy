/**
 The tag run at the end of a heading line (`align_tags` and
 `split_headline_tags`, `crates/vissue-core/src/model.rs`).
 */
module Headline {
  import opened Base
  import opened Text

  const TAG_COLUMN := 77

  predicate IsTagChar(c: char) {
    'a' <= c <= 'z' || 'A' <= c <= 'Z' || '0' <= c <= '9' || c == '_' || c == '@' || c == '#' || c == '%'
  }

  predicate IsTag(tag: string) {
    tag != "" && forall i :: 0 <= i < |tag| ==> IsTagChar(tag[i])
  }

  predicate AllTags(tags: seq<string>) {
    forall i :: 0 <= i < |tags| ==> IsTag(tags[i])
  }

  function JoinColon(tags: seq<string>): string {
    if tags == [] then "" else if |tags| == 1 then tags[0] else tags[0] + ":" + JoinColon(tags[1..])
  }

  /// The pieces of `s` between colons; there is always at least one.
  function SplitColon(s: string): (r: seq<string>)
    ensures |r| > 0
  {
    if s == "" then [""]
    else
      var rest := SplitColon(s[1..]);
      if s[0] == ':' then [""] + rest else [[s[0]] + rest[0]] + rest[1..]
  }

  function Run(tags: seq<string>): string {
    ":" + JoinColon(tags) + ":"
  }

  function Spaces(n: nat): (s: string)
    ensures |s| == n && forall i :: 0 <= i < n ==> s[i] == ' '
  {
    seq(n, i => ' ')
  }

  function AlignTags(stem: string, tags: seq<string>): string {
    if tags == [] then stem
    else
      var width := |stem| + |Run(tags)|;
      stem + Spaces(if width < TAG_COLUMN then TAG_COLUMN - width else 1) + Run(tags)
  }

  /// Where the last word starts: just past the last white space.
  function LastWord(s: string): (n: nat)
    ensures n <= |s|
    ensures forall i :: n <= i < |s| ==> !IsSpace(s[i])
    ensures n > 0 ==> IsSpace(s[n - 1])
  {
    if s == "" || IsSpace(s[|s| - 1]) then |s| else LastWord(s[..|s| - 1])
  }

  /// The tags of a last word, when it is a run of tags.
  function TagsOf(run: string): Option<seq<string>> {
    if |run| < 3 || run[0] != ':' || run[|run| - 1] != ':' then None
    else
      var tags := SplitColon(TrimOf(run, ':'));
      if AllTags(tags) then Some(tags) else None
  }

  function SplitTags(text: string): (string, seq<string>) {
    var trimmed := TrimEnd(text);
    var start := LastWord(trimmed);
    if start == 0 then (trimmed, [])
    else
      match TagsOf(trimmed[start..])
      case None => (trimmed, [])
      case Some(tags) => (TrimEnd(trimmed[..start]), tags)
  }

  // ---- what was aligned is split again ----

  lemma {:induction false} SplitJoinColon(tags: seq<string>)
    requires tags != [] && forall i :: 0 <= i < |tags| ==> ':' !in tags[i]
    ensures SplitColon(JoinColon(tags)) == tags
  {
    if |tags| == 1 {
      OnePiece(tags[0]);
    } else {
      SplitJoinColon(tags[1..]);
      PieceThenRest(tags[0], JoinColon(tags[1..]));
    }
  }

  lemma {:induction false} OnePiece(t: string)
    requires ':' !in t
    ensures SplitColon(t) == [t]
  {
    if t != "" {
      OnePiece(t[1..]);
      assert [t[0]] + t[1..] == t;
    }
  }

  lemma {:induction false} PieceThenRest(t: string, rest: string)
    requires ':' !in t
    ensures SplitColon(t + ":" + rest) == [t] + SplitColon(rest)
  {
    var s := t + ":" + rest;
    if t == "" {
      assert s[1..] == rest;
    } else {
      PieceThenRest(t[1..], rest);
      assert s[1..] == t[1..] + ":" + rest;
      assert [t[0]] + t[1..] == t;
    }
  }

  lemma {:induction false} JoinedTags(tags: seq<string>)
    requires tags != [] && AllTags(tags)
    ensures var j := JoinColon(tags);
      j != "" && j[0] != ':' && j[|j| - 1] != ':' && forall i :: 0 <= i < |j| ==> !IsSpace(j[i])
  {
    if |tags| > 1 {
      JoinedTags(tags[1..]);
    }
  }

  lemma TrimColons(j: string)
    requires j != "" && j[0] != ':' && j[|j| - 1] != ':'
    ensures TrimOf(":" + j + ":", ':') == j
  {
    var (s, rest) := (":" + j + ":", j + ":");
    assert s[1..] == rest && rest[0] == j[0];
    assert TrimStartOf(rest, ':') == rest;
    assert TrimStartOf(s, ':') == rest;
    assert rest[..|rest| - 1] == j && rest[|rest| - 1] == ':';
    assert TrimEndOf(j, ':') == j;
    assert TrimEndOf(rest, ':') == j;
  }

  lemma RunReadsBack(tags: seq<string>)
    requires tags != [] && AllTags(tags)
    ensures TagsOf(Run(tags)) == Some(tags)
    ensures forall i :: 0 <= i < |Run(tags)| ==> !IsSpace(Run(tags)[i])
  {
    var (j, r) := (JoinColon(tags), Run(tags));
    JoinedTags(tags);
    TrimColons(j);
    forall i | 0 <= i < |tags| ensures ':' !in tags[i] {}
    SplitJoinColon(tags);
  }

  lemma {:induction false} TrimmedStem(stem: string, n: nat)
    ensures TrimEnd(stem + Spaces(n)) == TrimEnd(stem)
  {
    var s := stem + Spaces(n);
    if n > 0 {
      assert s[..|s| - 1] == stem + Spaces(n - 1);
      TrimmedStem(stem, n - 1);
    } else {
      assert s == stem;
    }
  }

  lemma {:induction false} LastWordAt(front: string, word: string)
    requires front != "" && IsSpace(front[|front| - 1]) && forall i :: 0 <= i < |word| ==> !IsSpace(word[i])
    ensures LastWord(front + word) == |front|
  {
    if word == "" {
      assert front + word == front;
    } else {
      LastWordAt(front, word[..|word| - 1]);
      assert (front + word)[..|front| + |word| - 1] == front + word[..|word| - 1];
    }
  }

  lemma TagsBehind(stem: string, n: nat, tags: seq<string>)
    requires tags != [] && AllTags(tags) && n > 0
    ensures SplitTags(stem + Spaces(n) + Run(tags)) == (TrimEnd(stem), tags)
    ensures TrimEnd(stem + Spaces(n) + Run(tags)) == stem + Spaces(n) + Run(tags)
  {
    var (front, run) := (stem + Spaces(n), Run(tags));
    RunReadsBack(tags);
    hide Run, TagsOf;
    var text := front + run;
    assert run != "" by { assert TagsOf(run) == Some(tags); RunNotEmpty(tags); }
    assert text[|text| - 1] == run[|run| - 1];
    assert TrimEnd(text) == text;
    LastWordAt(front, run);
    assert text[|front|..] == run && text[..|front|] == front;
    TrimmedStem(stem, n);
  }

  lemma AlignedReads(stem: string, tags: seq<string>)
    requires tags != [] && AllTags(tags)
    ensures SplitTags(AlignTags(stem, tags)) == (TrimEnd(stem), tags)
  {
    var width := |stem| + |Run(tags)|;
    TagsBehind(stem, if width < TAG_COLUMN then TAG_COLUMN - width else 1, tags);
    hide Run, SplitTags;
  }

  lemma RunNotEmpty(tags: seq<string>)
    ensures Run(tags) != ""
  {
  }

  /// Whether a heading's own last word would be taken for its tags.
  predicate EndsInTags(text: string) {
    LastWord(text) > 0 && TagsOf(text[LastWord(text)..]).Some?
  }

  /**
   A heading reads back with the title and the tags it was written with exactly
   when the title has no trailing white space, every tag is one Org accepts,
   and, with no tags, the title's own last word is not a run of tags.
   */
  lemma TagsReadBackExactly(stem: string, tags: seq<string>)
    ensures SplitTags(AlignTags(stem, tags)) == (stem, tags) <==>
      TrimEnd(stem) == stem && AllTags(tags) && (tags == [] ==> !EndsInTags(stem))
  {
    hide TagsOf, TrimEnd, LastWord;
    TrimTwice(stem);
    if tags != [] && AllTags(tags) {
      AlignedReads(stem, tags);
    } else if tags != [] {
      OnlyTagsRead(AlignTags(stem, tags));
    } else if EndsInTags(TrimEnd(stem)) {
      NoEmptyRun(TrimEnd(stem)[LastWord(TrimEnd(stem))..]);
    }
  }

  /// A title written without tags that comes back with one, and a word short.
  lemma TitleLosesItsLastWord()
    ensures SplitTags(AlignTags("Fix the :parser:", [])) == ("Fix the", ["parser"])
  {
    var (front, run) := ("Fix the ", ":parser:");
    OneTag();
    assert TrimEnd(front) == "Fix the" by { assert front[..7] == "Fix the"; }
    assert "Fix the :parser:" == front + run && front[|front| - 1] == ' ';
    hide TagsOf, LastWord, TrimEnd, IsTag, AllTags, Run;
    WordAtTheEnd(front, run);
  }

  lemma OneTag()
    ensures TagsOf(":parser:") == Some(["parser"]) && forall i :: 0 <= i < |":parser:"| ==> !IsSpace(":parser:"[i])
  {
    assert IsTag("parser") && AllTags(["parser"]);
    assert Run(["parser"]) == ":parser:";
    hide TagsOf, IsTag, AllTags, Run;
    RunReadsBack(["parser"]);
  }

  lemma WordAtTheEnd(front: string, run: string)
    requires front != "" && IsSpace(front[|front| - 1]) && run != "" && forall i :: 0 <= i < |run| ==> !IsSpace(run[i])
    requires TagsOf(run).Some?
    ensures SplitTags(front + run) == (TrimEnd(front), TagsOf(run).value)
  {
    LastWordAt(front, run);
    var text := front + run;
    assert text[|text| - 1] == run[|run| - 1] && TrimEnd(text) == text;
    assert text[|front|..] == run && text[..|front|] == front;
    hide TagsOf, LastWord, TrimEnd;
  }

  lemma OnlyTagsRead(text: string)
    ensures AllTags(SplitTags(text).1)
  {
    hide LastWord, TrimEnd;
  }

  lemma NoEmptyRun(run: string)
    ensures TagsOf(run).Some? ==> TagsOf(run).value != []
  {
  }

  /// The run ends at the tag column, or one blank past a title too long.
  lemma RunIsAligned(stem: string, tags: seq<string>)
    requires tags != []
    ensures |AlignTags(stem, tags)| ==
      if |stem| + |Run(tags)| < 77 then 77 else |stem| + |Run(tags)| + 1
  {
    hide Run;
  }
}
