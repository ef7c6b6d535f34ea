/**
 The heading line of an issue, read (`parse_headline_bits` and
 `is_issue_headline`, `crates/vissue-core/src/org.rs`, and the start of
 `parse_heading`, `crates/vissue-core/src/store.rs`).
 */
module ReadHead {
  import opened Base
  import opened Text
  import opened MergeSets
  import opened Headline
  import opened Cookies

  datatype Head = Head(state: string, priority: Option<char>, title: string, statistics: Option<string>, tags: seq<string>)

  function FirstWord(s: string): string {
    s[..WordLength(s)]
  }

  /// What stands behind the first word.
  function BehindWord(s: string): string {
    TrimStart(s[WordLength(s)..])
  }

  function PriorityCookie(s: string): Option<char> {
    if "[#" <= s && |s| >= 4 && s[3] == ']' then Some(s[2]) else None
  }

  /// The heading of an issue; `None` for any other line, one without a keyword
  /// or one that is commented out.
  function ReadHeading(line: string, keywords: set<string>): Option<Head> {
    if !("* " <= line) then None
    else
      var trimmed := Trim(line[2..]);
      var (state, rest) := (FirstWord(trimmed), BehindWord(trimmed));
      var priority := PriorityCookie(rest);
      var bare := if priority.Some? then TrimStart(rest[4..]) else rest;
      if state == "" || state !in keywords || FirstWord(bare) == "COMMENT" then None
      else
        var (text, tags) := SplitTags(bare);
        var (title, statistics) := SplitCookies(text);
        Some(Head(state, priority, title, statistics, tags))
  }

  /// The heading line `render` writes, less its newline.
  function Written(state: string, priority: char, title: string, statistics: Option<string>, tags: seq<string>): string {
    AlignTags(Front(state, priority) + Stem(title, statistics), tags)
  }

  function Front(state: string, priority: char): string {
    "* " + state + " [#" + [priority] + "] "
  }

  /// What `AlignTags` puts behind the stem.
  function Tail(width: nat, tags: seq<string>): string {
    if tags == [] then ""
    else
      var all := width + |Run(tags)|;
      Spaces(if all < TAG_COLUMN then TAG_COLUMN - all else 1) + Run(tags)
  }

  lemma AlignedWithTail(stem: string, tags: seq<string>)
    ensures AlignTags(stem, tags) == stem + Tail(|stem|, tags)
  {
    hide Run;
    assert stem + "" == stem;
  }

  lemma WordStarts(s: string)
    requires s == "" || !IsSpace(s[0])
    ensures s != "" ==> WordLength(s) > 0
    ensures s != "" ==> FirstWord(s)[0] == s[0]
  {
  }

  lemma MarkRead(priority: char, y: string)
    ensures var rest := "[#" + [priority] + "]" + y; PriorityCookie(rest) == Some(priority) && rest[4..] == y
  {
    var rest := "[#" + [priority] + "]" + y;
    assert rest[2] == priority && rest[3] == ']';
  }

  lemma LineTrimmed(state: string, priority: char, text: string)
    requires IsToken(state)
    ensures Trim((Front(state, priority) + text)[2..]) == state + (" " + ("[#" + [priority] + "]" + TrimEnd(" " + text)))
  {
    var (front, y) := (state + (" [#" + [priority] + "]"), TrimEnd(" " + text));
    var line := front + (" " + text);
    assert (Front(state, priority) + text)[2..] == line;
    assert line[0] == state[0] && !IsSpace(state[0]);
    assert TrimStart(line) == line;
    TrimEndBehind(front, " " + text);
    assert front + y == state + (" " + ("[#" + [priority] + "]" + y));
  }

  /// A line as it is written is read as its state, its priority and the rest of
  /// it, trimmed.
  lemma FrontRead(state: string, priority: char, text: string)
    requires IsToken(state)
    ensures var trimmed := Trim((Front(state, priority) + text)[2..]);
      && FirstWord(trimmed) == state
      && var rest := BehindWord(trimmed);
         |rest| >= 4 && PriorityCookie(rest) == Some(priority) && TrimStart(rest[4..]) == Trim(text)
  {
    var y := TrimEnd(" " + text);
    var mark := "[#" + [priority] + "]" + y;
    LineTrimmed(state, priority, text);
    WordLengthAt(state, " " + mark);
    BlankThenMark(state, mark);
    MarkRead(priority, y);
    TrimsCommute(" " + text);
    assert (" " + text)[1..] == text;
    hide PriorityCookie, WordLength, TrimEnd;
  }

  lemma BlankThenMark(state: string, mark: string)
    requires mark != "" && mark[0] == '['
    ensures (state + (" " + mark))[..|state|] == state
    ensures TrimStart((state + (" " + mark))[|state|..]) == mark
  {
    assert (state + (" " + mark))[|state|..] == " " + mark;
    assert (" " + mark)[1..] == mark;
  }

  // ---- the rest of the line ----

  function ReadRest(rest: string): (string, Option<string>, seq<string>) {
    var (text, tags) := SplitTags(rest);
    var (title, statistics) := SplitCookies(text);
    (title, statistics, tags)
  }

  /// A title, its cookies and its tags as they come back from one line.
  ghost predicate TitleReads(title: string, statistics: Option<string>, tags: seq<string>) {
    && TrimStart(title) == title && TrimEnd(title) == title
    && FirstWord(title) != "COMMENT"
    && !EndsInCookie(title) && (statistics.Some? ==> IsCookieList(statistics.value))
    && AllTags(tags)
    && (if tags == [] then statistics.Some? || !EndsInTags(title) else title != "" || statistics.Some?)
  }

  function Rest(title: string, statistics: Option<string>, width: nat, tags: seq<string>): string {
    Trim(Stem(title, statistics) + Tail(width, tags))
  }

  /// What is left of the stem at its front.
  function Bare(title: string, statistics: Option<string>): string {
    if title == "" then statistics.GetOr("") else Stem(title, statistics)
  }

  lemma BareStem(title: string, statistics: Option<string>)
    requires TrimStart(title) == title && TrimEnd(title) == title && (statistics.Some? ==> IsCookieList(statistics.value))
    ensures var bare := Bare(title, statistics);
      && TrimStart(Stem(title, statistics)) == bare && TrimEnd(bare) == bare
      && (statistics.Some? ==> bare[|bare| - 1] == ']')
  {
    if statistics.Some? { LoneCookies(statistics.value); }
    hide IsCookieList;
    var (stem, c) := (Stem(title, statistics), statistics.GetOr(""));
    if title == "" {
      assert stem == if statistics.Some? then " " + c else "";
      assert (" " + c)[1..] == c;
    } else {
      assert stem[0] == title[0];
    }
  }

  lemma RestIs(title: string, statistics: Option<string>, width: nat, tags: seq<string>)
    requires TrimStart(title) == title && TrimEnd(title) == title && (statistics.Some? ==> IsCookieList(statistics.value))
    requires AllTags(tags) && (tags != [] ==> title != "" || statistics.Some?)
    ensures Rest(title, statistics, width, tags) == Bare(title, statistics) + Tail(width, tags)
  {
    var (stem, bare, tail) := (Stem(title, statistics), Bare(title, statistics), Tail(width, tags));
    BareStem(title, statistics);
    hide Stem, Run, TrimStart, TrimEnd, IsCookieList;
    if tags == [] {
      assert stem + "" == stem && bare + "" == bare;
    } else {
      BareNotEmpty(title, statistics);
      TrimStartBehind(stem, tail);
      TailTrimmed(bare, width, tags);
    }
  }

  lemma BareNotEmpty(title: string, statistics: Option<string>)
    requires (title != "" || statistics.Some?) && (statistics.Some? ==> IsCookieList(statistics.value))
    ensures Bare(title, statistics) != ""
  {
    if statistics.Some? { LoneCookies(statistics.value); }
  }

  lemma TailTrimmed(bare: string, width: nat, tags: seq<string>)
    requires tags != [] && AllTags(tags)
    ensures TrimEnd(bare + Tail(width, tags)) == bare + Tail(width, tags)
    ensures SplitTags(bare + Tail(width, tags)) == (TrimEnd(bare), tags)
  {
    var n := TailWidth(width, tags);
    hide *;
    TagsBehind(bare, n, tags);
    assert bare + Tail(width, tags) == bare + Spaces(n) + Run(tags) by { TailIs(bare, width, tags); }
  }

  function TailWidth(width: nat, tags: seq<string>): (n: nat)
    ensures n > 0
  {
    var all := width + |Run(tags)|;
    if all < TAG_COLUMN then TAG_COLUMN - all else 1
  }

  lemma TailIs(bare: string, width: nat, tags: seq<string>)
    requires tags != []
    ensures bare + Tail(width, tags) == bare + Spaces(TailWidth(width, tags)) + Run(tags)
  {
    hide Run;
  }

  lemma BareCookies(title: string, statistics: Option<string>)
    requires TrimEnd(title) == title && !EndsInCookie(title) && (statistics.Some? ==> IsCookieList(statistics.value))
    ensures SplitCookies(Bare(title, statistics)) == (title, statistics)
  {
    CookiesReadBackExactly(title, statistics);
    if title == "" && statistics.Some? { LoneCookies(statistics.value); }
    hide SplitCookies, IsCookieList, EndsInCookie;
    assert Stem("", None) == "";
  }

  lemma NoTagsTaken(bare: string)
    requires TrimEnd(bare) == bare && !EndsInTags(bare)
    ensures SplitTags(bare) == (bare, [])
  {
    hide TagsOf, LastWord;
  }

  lemma NoTagsInCookies(bare: string)
    requires bare != "" && bare[|bare| - 1] == ']'
    ensures !EndsInTags(bare)
  {
    var start := LastWord(bare);
    assert start < |bare| by { assert !IsSpace(bare[|bare| - 1]); }
    var run := bare[start..];
    assert run[|run| - 1] == ']';
  }

  lemma TitleComesBack(title: string, statistics: Option<string>, width: nat, tags: seq<string>)
    requires TitleReads(title, statistics, tags)
    ensures var rest := Rest(title, statistics, width, tags);
      ReadRest(rest) == (title, statistics, tags) && FirstWord(rest) != "COMMENT"
  {
    var bare := Bare(title, statistics);
    RestIs(title, statistics, width, tags);
    BareStem(title, statistics);
    BareCookies(title, statistics);
    BareWord(title, statistics, width, tags);
    hide TrimEnd, TrimStart, SplitCookies, SplitTags, EndsInCookie, EndsInTags, IsCookieList, AllTags, Tail, FirstWord, Stem;
    if tags == [] {
      assert Tail(width, tags) == "" by { NoTail(width); }
      assert bare + "" == bare;
      if statistics.Some? { NoTagsInCookies(bare); }
      NoTagsTaken(bare);
    } else {
      TailTrimmed(bare, width, tags);
    }
  }

  lemma NoTail(width: nat)
    ensures Tail(width, []) == ""
  {
  }

  /// The first word of the rest is that of the title, or no word at all.
  lemma BareWord(title: string, statistics: Option<string>, width: nat, tags: seq<string>)
    requires TrimStart(title) == title && TrimEnd(title) == title && (statistics.Some? ==> IsCookieList(statistics.value))
    requires AllTags(tags) && (tags != [] ==> title != "" || statistics.Some?)
    ensures FirstWord(Bare(title, statistics) + Tail(width, tags)) == "COMMENT" <==> FirstWord(title) == "COMMENT"
  {
    var (bare, tail) := (Bare(title, statistics), Tail(width, tags));
    var more := (match statistics case Some(c) => " " + c case None => "") + tail;
    if title == "" {
      BracketFirst(statistics, width, tags);
    } else {
      TailStarts(width, tags);
      TitleFirst(title, statistics, tail);
      NotBlankFirst(title);
      hide *;
      WordBehind(title, more);
    }
  }

  lemma NotBlankFirst(s: string)
    requires s != "" && TrimStart(s) == s
    ensures !IsSpace(s[0])
  {
  }

  lemma TitleFirst(title: string, statistics: Option<string>, tail: string)
    requires title != "" && (tail == "" || tail[0] == ' ')
    ensures var more := (match statistics case Some(c) => " " + c case None => "") + tail;
      Bare(title, statistics) + tail == title + more && (more == "" || more[0] == ' ')
  {
  }

  lemma BracketFirst(statistics: Option<string>, width: nat, tags: seq<string>)
    requires (statistics.Some? ==> IsCookieList(statistics.value)) && (tags != [] ==> statistics.Some?)
    ensures FirstWord(Bare("", statistics) + Tail(width, tags)) != "COMMENT" && FirstWord("") != "COMMENT"
  {
    if statistics.Some? { LoneCookies(statistics.value); }
    hide IsCookieList;
    var text := Bare("", statistics) + Tail(width, tags);
    hide Tail;
    NoTail(width);
    assert text == "" || text[0] == '[';
    WordStarts(text);
  }

  lemma TailStarts(width: nat, tags: seq<string>)
    ensures Tail(width, tags) == "" || Tail(width, tags)[0] == ' '
  {
    hide Run;
  }

  lemma WordBehind(title: string, more: string)
    requires title != "" && !IsSpace(title[0]) && (more == "" || IsSpace(more[0]))
    ensures FirstWord(title + more) == FirstWord(title)
  {
    var n := WordLength(title);
    assert title + more == title[..n] + (title[n..] + more);
    WordLengthAt(title[..n], title[n..] + more);
    assert (title + more)[..n] == title[..n];
  }

  // ---- only such a title comes back ----

  lemma SplitTagsFront(text: string)
    ensures SplitTags(text).0 <= text && AllTags(SplitTags(text).1)
  {
    OnlyTagsRead(text);
    var trimmed := TrimEnd(text);
    TrimsShorter(text);
    TrimsShorter(trimmed[..LastWord(trimmed)]);
    hide TagsOf, LastWord, TrimEnd, AllTags;
  }

  lemma FrontTrimmed(front: string, s: string)
    requires front <= s && TrimStart(s) == s
    ensures TrimStart(front) == front
  {
    if front != "" { NotBlankFirst(s); }
  }

  lemma RestTrimmed(s: string)
    ensures TrimStart(Trim(s)) == Trim(s)
  {
    var t := TrimStart(s);
    if t != "" {
      FirstKept(t);
    }
  }

  lemma OnlyTitleComesBack(title: string, statistics: Option<string>, width: nat, tags: seq<string>)
    requires var rest := Rest(title, statistics, width, tags);
      ReadRest(rest) == (title, statistics, tags) && FirstWord(rest) != "COMMENT"
    ensures TitleReads(title, statistics, tags)
  {
    var rest := Rest(title, statistics, width, tags);
    var text := SplitTags(rest).0;
    SplitTagsFront(rest);
    CookiesTakenFrom(text);
    RestTrimmed(Stem(title, statistics) + Tail(width, tags));
    FrontTrimmed(title, rest);
    hide *;
    if tags == [] {
      NoTagsNeeded(title, statistics, width);
    } else {
      StemNeeded(title, statistics, width, tags);
    }
    RestIs(title, statistics, width, tags);
    BareWord(title, statistics, width, tags);
    AllReads(title, statistics, tags);
  }

  lemma AllReads(title: string, statistics: Option<string>, tags: seq<string>)
    requires TrimStart(title) == title && TrimEnd(title) == title && FirstWord(title) != "COMMENT"
    requires !EndsInCookie(title) && (statistics.Some? ==> IsCookieList(statistics.value)) && AllTags(tags)
    requires if tags == [] then statistics.Some? || !EndsInTags(title) else title != "" || statistics.Some?
    ensures TitleReads(title, statistics, tags)
  {
  }

  lemma NoTagsNeeded(title: string, statistics: Option<string>, width: nat)
    requires TrimStart(title) == title && TrimEnd(title) == title
    requires SplitTags(Rest(title, statistics, width, [])).1 == []
    ensures statistics.Some? || !EndsInTags(title)
  {
    hide TagsOf, LastWord;
    if statistics.None? {
      assert title + "" + "" == title;
      NoEmptyRun(title[LastWord(title)..]);
    }
  }

  lemma StemNeeded(title: string, statistics: Option<string>, width: nat, tags: seq<string>)
    requires tags != [] && AllTags(tags) && SplitTags(Rest(title, statistics, width, tags)).1 == tags
    ensures title != "" || statistics.Some?
  {
    if title == "" && statistics.None? {
      var (n, run) := (TailWidth(width, tags), Run(tags));
      TailIs("", width, tags);
      RunReadsBack(tags);
      RunNotEmpty(tags);
      assert Stem("", None) + Tail(width, tags) == Spaces(n) + run;
      TrimStartOver(Spaces(n), run);
      NoBlanksTrimmed(run);
      OneWord(run);
      hide Run, TagsOf;
    }
  }

  lemma OneWord(s: string)
    requires forall i :: 0 <= i < |s| ==> !IsSpace(s[i])
    ensures LastWord(s) == 0
  {
  }

  lemma {:induction false} NoBlanksTrimmed(s: string)
    requires s != "" && forall i :: 0 <= i < |s| ==> !IsSpace(s[i])
    ensures Trim(s) == s
  {
  }

  /**
   The heading line of an issue is read back to what it was written from exactly
   when its state is a keyword and its title starts with no blank and no
   `COMMENT`, ends in no blank and in no cookie and, without tags and cookies, in
   no run of tags; the cookies are cookies, the tags are tags, and tags do not
   stand alone.
   */
  lemma HeadingReadsBackExactly(state: string, priority: char, title: string, statistics: Option<string>, tags: seq<string>,
                                keywords: set<string>)
    ensures ReadHeading(Written(state, priority, title, statistics, tags), keywords)
         == Some(Head(state, Some(priority), title, statistics, tags))
      <==> IsToken(state) && state in keywords && TitleReads(title, statistics, tags)
  {
    var line := Written(state, priority, title, statistics, tags);
    StateIsToken(line, keywords);
    if IsToken(state) && state in keywords {
      var width := |Front(state, priority) + Stem(title, statistics)|;
      hide *;
      LineRead(state, priority, title, statistics, tags, keywords);
      if TitleReads(title, statistics, tags) { TitleComesBack(title, statistics, width, tags); }
      TitleOnly(title, statistics, width, tags);
    }
  }

  lemma LineRead(state: string, priority: char, title: string, statistics: Option<string>, tags: seq<string>, keywords: set<string>)
    requires IsToken(state) && state in keywords
    ensures var rest := Rest(title, statistics, |Front(state, priority) + Stem(title, statistics)|, tags);
      ReadHeading(Written(state, priority, title, statistics, tags), keywords) ==
        if FirstWord(rest) == "COMMENT" then None
        else Some(Head(state, Some(priority), ReadRest(rest).0, ReadRest(rest).1, ReadRest(rest).2))
  {
    var line := Written(state, priority, title, statistics, tags);
    var (stem, front) := (Stem(title, statistics), Front(state, priority));
    var width := |front + stem|;
    AlignedWithTail(front + stem, tags);
    assert line == front + (stem + Tail(width, tags));
    FrontRead(state, priority, stem + Tail(width, tags));
    assert "* " <= line;
    hide *;
    RestDecides(line, state, priority, Rest(title, statistics, width, tags), keywords);
  }

  lemma TitleOnly(title: string, statistics: Option<string>, width: nat, tags: seq<string>)
    ensures var rest := Rest(title, statistics, width, tags);
      ReadRest(rest) == (title, statistics, tags) && FirstWord(rest) != "COMMENT" ==> TitleReads(title, statistics, tags)
  {
    hide *;
    var rest := Rest(title, statistics, width, tags);
    if ReadRest(rest) == (title, statistics, tags) && FirstWord(rest) != "COMMENT" {
      OnlyTitleComesBack(title, statistics, width, tags);
    }
  }

  lemma StateIsToken(line: string, keywords: set<string>)
    ensures var head := ReadHeading(line, keywords); head.Some? ==> IsToken(head.value.state) && head.value.state in keywords
  {
    hide Trim, TrimStart, SplitTags, SplitCookies, PriorityCookie;
  }

  lemma RestDecides(line: string, state: string, priority: char, rest: string, keywords: set<string>)
    requires "* " <= line && IsToken(state) && state in keywords
    requires var trimmed := Trim(line[2..]);
      && FirstWord(trimmed) == state
      && var behind := BehindWord(trimmed);
         |behind| >= 4 && PriorityCookie(behind) == Some(priority) && TrimStart(behind[4..]) == rest
    ensures ReadHeading(line, keywords) ==
      if FirstWord(rest) == "COMMENT" then None
      else
        var (title, statistics, tags) := ReadRest(rest);
        Some(Head(state, Some(priority), title, statistics, tags))
  {
    hide Trim, TrimStart, SplitTags, SplitCookies, PriorityCookie, WordLength;
  }

  // ---- titles that do not come back ----

  /// A title that starts with the word `COMMENT` makes the heading no issue.
  lemma CommentIsNoIssue(state: string, priority: char, title: string, keywords: set<string>)
    requires IsToken(state) && state in keywords && Trim(title) == title && FirstWord(title) == "COMMENT"
    ensures ReadHeading(Written(state, priority, title, None, []), keywords) == None
  {
    var width := |Front(state, priority) + Stem(title, None)|;
    NothingAdded(title, width);
    hide *;
    LineRead(state, priority, title, None, [], keywords);
  }

  lemma NothingAdded(title: string, width: nat)
    ensures Rest(title, None, width, []) == Trim(title)
  {
    assert title + "" + "" == title;
  }

  /// A title that ends in a cookie of its own comes back without it.
  lemma TitleLosesItsCookie(keywords: set<string>)
    requires "TODO" in keywords
    ensures ReadHeading(Written("TODO", 'A', "Fix [2/5]", None, []), keywords)
         == Some(Head("TODO", Some('A'), "Fix", Some("[2/5]"), []))
  {
    var title := "Fix [2/5]";
    var width := |Front("TODO", 'A') + Stem(title, None)|;
    hide *;
    FixFacts(title);
    FixWord(title);
    CookieCut(title);
    NoTagsTaken(title);
    NothingAdded(title, width);
    LineRead("TODO", 'A', title, None, [], keywords);
    ReadOf(title);
  }

  lemma FixFacts(title: string)
    requires title == "Fix [2/5]"
    ensures TrimEnd(title) == title && Trim(title) == title && !EndsInTags(title) && IsToken("TODO")
  {
    TrimNothing(title);
    NoTagsInCookies(title);
    hide EndsInTags;
  }

  lemma ReadOf(title: string)
    requires SplitTags(title) == (title, []) && SplitCookies(title) == ("Fix", Some("[2/5]"))
    ensures ReadRest(title) == ("Fix", Some("[2/5]"), [])
  {
  }

  lemma FixWord(title: string)
    requires title == "Fix [2/5]"
    ensures FirstWord(title) != "COMMENT"
  {
    WordStarts(title);
    hide WordLength;
  }

  lemma CookieCut(title: string)
    requires title == "Fix [2/5]"
    ensures SplitCookies(title) == ("Fix", Some("[2/5]"))
  {
    var c := "[2/5]";
    assert title == "Fix" + " " + c;
    assert c[1..4] == "2" + "/" + "5";
    SplitOnceAt("2", "/", "5");
    assert IsCookie(c) && [c] != [] && JoinSpace([c]) == c && AllCookies([c]);
    hide IsCookie;
    NoBracket("Fix");
    SomeCookies("Fix", c);
  }

  lemma NoBracket(t: string)
    requires t == "Fix"
    ensures !EndsInCookie(t) && TrimEnd(t) == t
  {
    LastIndexNone(t, '[');
  }
}
