/**
 The statistics cookies at the end of a title, such as `[2/5]` and `[33%]`
 (`split_statistics_cookies`, `crates/vissue-core/src/org.rs`).
 */
module Cookies {
  import opened Base
  import opened Text
  import opened Org
  import opened MergeSets

  predicate AllDigits(s: string) {
    forall i :: 0 <= i < |s| ==> IsDigit(s[i])
  }

  predicate IsCookie(c: string) {
    && |c| >= 2 && c[0] == '[' && c[|c| - 1] == ']'
    && var inner := c[1..|c| - 1];
       match SplitOnce(inner, "/")
       case Some((a, b)) => AllDigits(a) && AllDigits(b)
       case None => inner != "" && inner[|inner| - 1] == '%' && AllDigits(inner[..|inner| - 1])
  }

  predicate AllCookies(cs: seq<string>) {
    forall i :: 0 <= i < |cs| ==> IsCookie(cs[i])
  }

  /// Whether a trimmed text ends in a cookie that stands on its own.
  predicate EndsInCookie(t: string) {
    var open := LastIndex(t, '[');
    open < |t| && IsCookie(t[open..]) && (open == 0 || IsSpace(t[open - 1]))
  }

  /// A trimmed text less the cookies at its end, which go in front of `cookies`.
  function TakeCookies(t: string, cookies: seq<string>): (r: (string, seq<string>))
    decreases |t|
  {
    if !EndsInCookie(t) then (t, cookies)
    else
      var open := LastIndex(t, '[');
      TrimsShorter(t[..open]);
      TakeCookies(TrimEnd(t[..open]), [t[open..]] + cookies)
  }

  function SplitCookies(text: string): (string, Option<string>) {
    var (t, cookies) := TakeCookies(TrimEnd(text), []);
    if cookies == [] then (TrimEnd(text), None) else (t, Some(JoinSpace(cookies)))
  }

  /// `split_statistics_cookies` as the program runs it.
  method CutCookies(text: string) returns (title: string, statistics: Option<string>)
    ensures (title, statistics) == SplitCookies(text)
  {
    hide IsCookie, TrimEnd, JoinSpace, LastIndex;
    var trimmed := TrimEnd(text);
    var cookies: seq<string> := [];
    while EndsInCookie(trimmed)
      invariant TakeCookies(trimmed, cookies) == TakeCookies(TrimEnd(text), [])
      decreases |trimmed|
    {
      var open := LastIndex(trimmed, '[');
      TrimsShorter(trimmed[..open]);
      cookies := [trimmed[open..]] + cookies;
      trimmed := TrimEnd(trimmed[..open]);
    }
    if cookies == [] {
      NothingTaken(TrimEnd(text));
      return TrimEnd(text), None;
    }
    return trimmed, Some(JoinSpace(cookies));
  }

  lemma NothingTaken(t: string)
    ensures TakeCookies(t, []).1 == [] ==> TakeCookies(t, []).0 == t
  {
    TakenGrow(t, []);
  }

  lemma {:induction false} TakenGrow(t: string, cookies: seq<string>)
    ensures |TakeCookies(t, cookies).1| >= |cookies|
    ensures EndsInCookie(t) ==> |TakeCookies(t, cookies).1| > |cookies|
    decreases |t|
  {
    hide EndsInCookie, TrimEnd;
    if EndsInCookie(t) {
      var open := LastIndex(t, '[');
      TrimsShorter(t[..open]);
      CookieInside(t);
      TakenGrow(TrimEnd(t[..open]), [t[open..]] + cookies);
    }
  }

  lemma CookieInside(t: string)
    ensures EndsInCookie(t) ==> LastIndex(t, '[') < |t|
  {
  }

  // ---- cookies written are cookies read ----

  lemma CookieShape(c: string)
    requires IsCookie(c)
    ensures c != "" && c[0] == '[' && c[|c| - 1] == ']'
    ensures '[' !in c[1..] && (forall i :: 0 <= i < |c| ==> !IsSpace(c[i]))
  {
    var inner := c[1..|c| - 1];
    var parts := SplitOnce(inner, "/");
    if parts.Some? {
      SplitJoins(inner, "/");
      assert forall i :: 0 <= i < |inner| ==> IsDigit(inner[i]) || inner[i] == '/';
    } else {
      assert forall i :: 0 <= i < |inner| ==> IsDigit(inner[i]) || inner[i] == '%';
    }
    assert c[1..] == inner + "]";
    assert forall i :: 1 <= i < |c| - 1 ==> c[i] == inner[i - 1];
  }

  lemma {:induction false} SplitJoins(s: string, pat: string)
    ensures SplitOnce(s, pat).Some? ==> s == SplitOnce(s, pat).value.0 + pat + SplitOnce(s, pat).value.1
  {
    if !(pat <= s) && s != "" {
      SplitJoins(s[1..], pat);
    }
  }

  /// A cookie behind a blank is what a text ends in.
  lemma CookieAtEnd(front: string, c: string)
    requires IsCookie(c) && (front == "" || IsSpace(front[|front| - 1]))
    ensures LastIndex(front + c, '[') == |front| && EndsInCookie(front + c)
  {
    CookieShape(c);
    assert front + c == front + ['['] + c[1..];
    LastIndexAt(front, '[', c[1..]);
    hide IsCookie;
    assert (front + c)[|front|..] == c;
  }

  lemma {:induction false} JoinSpaceLast(cs: seq<string>)
    requires |cs| > 1
    ensures JoinSpace(cs) == JoinSpace(cs[..|cs| - 1]) + " " + cs[|cs| - 1]
  {
    if |cs| == 2 {
      assert cs[..1] == [cs[0]] && cs[1..] == [cs[1]];
    } else {
      JoinSpaceLast(cs[1..]);
      assert cs[..|cs| - 1][1..] == cs[1..][..|cs| - 2] && cs[..|cs| - 1][0] == cs[0];
    }
  }

  lemma OneTaken(front: string, last: string, more: seq<string>)
    requires IsCookie(last) && (front == "" || IsSpace(front[|front| - 1]))
    ensures TakeCookies(front + last, more) == TakeCookies(TrimEnd(front), [last] + more)
  {
    CookieAtEnd(front, last);
    hide IsCookie, EndsInCookie, TrimEnd, LastIndex;
    assert (front + last)[..|front|] == front && (front + last)[|front|..] == last;
  }

  lemma {:induction false} CookiesTaken(title: string, cs: seq<string>, more: seq<string>)
    requires cs != [] && AllCookies(cs) && TrimEnd(title) == title && !EndsInCookie(title)
    ensures TakeCookies(title + " " + JoinSpace(cs), more) == (title, cs + more)
    decreases |cs|
  {
    hide IsCookie, EndsInCookie, TrimEnd, LastIndex;
    var (last, n) := (cs[|cs| - 1], |cs| - 1);
    if n == 0 {
      assert cs == [last] && JoinSpace(cs) == last;
      OneTaken(title + " ", last, more);
      TrimBlank(title);
    } else {
      var rest := title + " " + JoinSpace(cs[..n]);
      JoinSpaceLast(cs);
      hide TakeCookies;
      assert title + " " + JoinSpace(cs) == rest + " " + last;
      OneTaken(rest + " ", last, more);
      CookieTail(title, cs[..n]);
      TrimBlank(rest);
      CookiesTaken(title, cs[..n], [last] + more);
      assert cs[..n] + ([last] + more) == cs + more;
    }
  }

  lemma TrimBlank(s: string)
    ensures TrimEnd(s + " ") == TrimEnd(s)
  {
    assert (s + " ")[..|s|] == s;
  }

  /// A text that ends in cookies ends in no blank.
  lemma {:induction false} CookieTail(title: string, cs: seq<string>)
    requires cs != [] && AllCookies(cs)
    ensures TrimEnd(title + " " + JoinSpace(cs)) == title + " " + JoinSpace(cs)
    ensures JoinSpace(cs) != "" && JoinSpace(cs)[|JoinSpace(cs)| - 1] == ']' && JoinSpace(cs)[0] == '['
  {
    hide IsCookie;
    CookieShape(cs[0]);
    CookieShape(cs[|cs| - 1]);
    if |cs| > 1 { JoinSpaceLast(cs); }
    var text := title + " " + JoinSpace(cs);
    assert text[|text| - 1] == ']';
  }

  /// What is taken stands on its own, and what is left ends in no cookie.
  lemma {:induction false} TakenFacts(t: string, cookies: seq<string>)
    requires TrimEnd(t) == t && AllCookies(cookies)
    ensures var (title, cs) := TakeCookies(t, cookies); AllCookies(cs) && TrimEnd(title) == title && !EndsInCookie(title)
    decreases |t|
  {
    hide IsCookie, TrimEnd, LastIndex;
    if EndsInCookie(t) {
      var open := LastIndex(t, '[');
      TrimsShorter(t[..open]);
      TrimTwice(t[..open]);
      TakenFacts(TrimEnd(t[..open]), [t[open..]] + cookies);
    }
  }

  /// Cookies with single blanks between.
  ghost predicate IsCookieList(c: string) {
    exists cs :: cs != [] && AllCookies(cs) && c == JoinSpace(cs)
  }

  function Stem(title: string, statistics: Option<string>): string {
    title + (match statistics case Some(cookie) => " " + cookie case None => "")
  }

  /**
   A title and its cookies come back exactly when the title ends neither in a
   blank nor in a cookie of its own, and the cookies are cookies.
   */
  lemma CookiesReadBackExactly(title: string, statistics: Option<string>)
    ensures SplitCookies(Stem(title, statistics)) == (title, statistics) <==>
      TrimEnd(title) == title && !EndsInCookie(title) && (statistics.Some? ==> IsCookieList(statistics.value))
  {
    match statistics
    case None => NoCookies(title);
    case Some(c) =>
      assert Stem(title, statistics) == title + " " + c;
      if TrimEnd(title) == title && !EndsInCookie(title) && IsCookieList(c) { SomeCookies(title, c); }
      if SplitCookies(title + " " + c) == (title, Some(c)) { OnlyCookies(title + " " + c, title, c); }
  }

  lemma NoCookies(title: string)
    ensures SplitCookies(title + "") == (title, None) <==> TrimEnd(title) == title && !EndsInCookie(title)
  {
    hide EndsInCookie, TrimEnd, LastIndex;
    assert title + "" == title;
    NothingTaken(TrimEnd(title));
    TakenGrow(TrimEnd(title), []);
  }

  lemma SomeCookies(title: string, c: string)
    requires TrimEnd(title) == title && !EndsInCookie(title) && IsCookieList(c)
    ensures SplitCookies(title + " " + c) == (title, Some(c))
  {
    hide IsCookie, EndsInCookie, TrimEnd;
    var cs :| cs != [] && AllCookies(cs) && c == JoinSpace(cs);
    CookiesTaken(title, cs, []);
    CookieTail(title, cs);
    assert cs + [] == cs;
  }

  lemma OnlyCookies(stem: string, title: string, c: string)
    requires SplitCookies(stem) == (title, Some(c))
    ensures TrimEnd(title) == title && !EndsInCookie(title) && IsCookieList(c)
  {
    hide IsCookie, EndsInCookie, TrimEnd;
    TrimTwice(stem);
    TakenFacts(TrimEnd(stem), []);
    var cs := TakeCookies(TrimEnd(stem), []).1;
    assert cs != [] && AllCookies(cs) && c == JoinSpace(cs);
  }

  lemma {:induction false} LoneCookiesTaken(cs: seq<string>, more: seq<string>)
    requires cs != [] && AllCookies(cs)
    ensures TakeCookies(JoinSpace(cs), more) == ("", cs + more)
    decreases |cs|
  {
    hide IsCookie, EndsInCookie, TrimEnd, LastIndex;
    var (last, n) := (cs[|cs| - 1], |cs| - 1);
    if n == 0 {
      assert cs == [last] && JoinSpace(cs) == "" + last;
      OneTaken("", last, more);
      NothingLeft([last] + more);
    } else {
      var rest := JoinSpace(cs[..n]);
      JoinSpaceLast(cs);
      hide TakeCookies;
      OneTaken(rest + " ", last, more);
      TrimBlank(rest);
      CookiesTrimmed(cs[..n]);
      LoneCookiesTaken(cs[..n], [last] + more);
      assert cs[..n] + ([last] + more) == cs + more;
    }
  }

  lemma NothingLeft(more: seq<string>)
    ensures TakeCookies(TrimEnd(""), more) == ("", more)
  {
  }

  lemma CookiesTrimmed(cs: seq<string>)
    requires cs != [] && AllCookies(cs)
    ensures var c := JoinSpace(cs); c != "" && c[0] == '[' && c[|c| - 1] == ']' && TrimEnd(c) == c
  {
    CookieTail("", cs);
  }

  /// Cookies without a title come back too.
  lemma LoneCookies(c: string)
    requires IsCookieList(c)
    ensures SplitCookies(c) == ("", Some(c)) && c != "" && c[0] == '[' && c[|c| - 1] == ']'
  {
    hide IsCookie, EndsInCookie, TrimEnd;
    var cs :| cs != [] && AllCookies(cs) && c == JoinSpace(cs);
    LoneCookiesTaken(cs, []);
    CookiesTrimmed(cs);
    assert cs + [] == cs;
  }

  lemma {:induction false} TakenFront(t: string, cookies: seq<string>)
    ensures TakeCookies(t, cookies).0 <= t
    decreases |t|
  {
    hide IsCookie, TrimEnd, LastIndex;
    if EndsInCookie(t) {
      var open := LastIndex(t, '[');
      TrimsShorter(t[..open]);
      TakenFront(TrimEnd(t[..open]), [t[open..]] + cookies);
    }
  }

  /// What is taken off any text.
  lemma CookiesTakenFrom(text: string)
    ensures var (title, statistics) := SplitCookies(text);
      && title <= text && TrimEnd(title) == title && !EndsInCookie(title)
      && (statistics.Some? ==> IsCookieList(statistics.value))
  {
    hide IsCookie, EndsInCookie, TrimEnd;
    TrimTwice(text);
    TrimsShorter(text);
    TakenFacts(TrimEnd(text), []);
    TakenFront(TrimEnd(text), []);
    NothingTaken(TrimEnd(text));
    TakenGrow(TrimEnd(text), []);
    var cs := TakeCookies(TrimEnd(text), []).1;
    assert cs != [] ==> AllCookies(cs) && JoinSpace(cs) == JoinSpace(cs);
  }
}
