/** `parse_story_url`: recognise a direct story link at the start of a text.
    A link is `http://` or `https://`, the host `t.me/`, an account name of
    ASCII letters, digits and underscores, then either `/s/` (tried first) or
    `/`, then decimal digits. Matching is anchored at the start of the text
    but not at its end. */
module Urls {
  import opened Wrappers

  predicate IsWordChar(c: char) {
    ('a' <= c <= 'z') || ('A' <= c <= 'Z') || ('0' <= c <= '9') || c == '_'
  }

  predicate IsDigit(c: char) {
    '0' <= c <= '9'
  }

  predicate AllWord(s: string) {
    forall i :: 0 <= i < |s| ==> IsWordChar(s[i])
  }

  predicate AllDigits(s: string) {
    forall i :: 0 <= i < |s| ==> IsDigit(s[i])
  }

  /** Length of the longest prefix of `s` made of word characters (what the
      greedy `[a-zA-Z0-9_]+` consumes). */
  function WordRun(s: string): (n: nat)
    ensures n <= |s| && AllWord(s[..n])
    ensures n < |s| ==> !IsWordChar(s[n])
  {
    if |s| == 0 || !IsWordChar(s[0]) then 0
    else
      var n := 1 + WordRun(s[1..]);
      assert forall i :: 1 <= i < n ==> s[..n][i] == s[1..][..n - 1][i - 1];
      n
  }

  /** Length of the longest prefix of `s` made of decimal digits (what the
      greedy `\d+` consumes). */
  function DigitRun(s: string): (n: nat)
    ensures n <= |s| && AllDigits(s[..n])
    ensures n < |s| ==> !IsDigit(s[n])
  {
    if |s| == 0 || !IsDigit(s[0]) then 0
    else
      var n := 1 + DigitRun(s[1..]);
      assert forall i :: 1 <= i < n ==> s[..n][i] == s[1..][..n - 1][i - 1];
      n
  }

  /** `int()` of a run of decimal digits. */
  function DigitsValue(d: string): nat
    requires AllDigits(d)
  {
    if |d| == 0 then 0
    else DigitsValue(d[..|d| - 1]) * 10 + ((d[|d| - 1] as int) - ('0' as int))
  }

  /** One successful match: the scheme, the account group, which of the two
      patterns matched, and the digits group. */
  datatype UrlMatch = UrlMatch(secure: bool, account: string, storyForm: bool, digits: string)

  predicate WellFormed(m: UrlMatch) {
    |m.account| > 0 && AllWord(m.account) && |m.digits| > 0 && AllDigits(m.digits)
  }

  function Scheme(secure: bool): string {
    if secure then "https://t.me/" else "http://t.me/"
  }

  function Separator(storyForm: bool): string {
    if storyForm then "/s/" else "/"
  }

  /** What follows the scheme in the text a match covers. */
  function Covered(m: UrlMatch): string {
    m.account + Separator(m.storyForm) + m.digits
  }

  /** The text a match covers. */
  function Render(m: UrlMatch): string {
    Scheme(m.secure) + Covered(m)
  }

  /** `https?://t\.me/` at the start: Some(true) for https, Some(false) for http. */
  function SchemeOf(url: string): (r: Option<bool>)
    ensures r.Some? ==> Scheme(r.value) <= url
  {
    if "https://t.me/" <= url then Some(true)
    else if "http://t.me/" <= url then Some(false)
    else None
  }

  /** One pattern, on the text after the scheme. The account run is maximal,
      so when the separator does not follow it no shorter run can do better
      (the character after a shorter run is a word character, not `/`). */
  function MatchAfterScheme(secure: bool, rest: string, storyForm: bool): (r: Option<UrlMatch>)
    ensures r.Some? ==> r.value.secure == secure && r.value.storyForm == storyForm
    ensures r.Some? ==> WellFormed(r.value) && Covered(r.value) <= rest
    ensures r.Some? ==> |Covered(r.value)| == |rest| || !IsDigit(rest[|Covered(r.value)|])
  {
    var a := WordRun(rest);
    var sep := Separator(storyForm);
    var after := rest[a..];
    if a == 0 || !(sep <= after) then None
    else
      var ds := after[|sep|..];
      var d := DigitRun(ds);
      if d == 0 then None
      else
        var m := UrlMatch(secure, rest[..a], storyForm, ds[..d]);
        SplitCovered(rest, a, sep, ds, d);
        Some(m)
  }

  /** The account run, the separator and the digit run lie back to back in
      the text. */
  lemma SplitCovered(rest: string, a: nat, sep: string, ds: string, d: nat)
    requires a <= |rest| && sep <= rest[a..] && ds == rest[a..][|sep|..] && d <= |ds|
    ensures rest[..a] + sep + ds[..d] == rest[..a + |sep| + d]
    ensures d < |ds| ==> a + |sep| + d < |rest| && rest[a + |sep| + d] == ds[d]
  {
    var after := rest[a..];
    assert rest[..a + |sep| + d] == rest[..a] + after[..|sep| + d];
    assert after[..|sep| + d] == sep + ds[..d];
  }

  /** The match `parse_story_url` finds, if any: the `/s/` form first, then
      the plain form. A match covers a prefix of the text, and its digit run
      is not followed by another digit. */
  function MatchStoryUrl(url: string): (r: Option<UrlMatch>)
    ensures r.Some? ==> WellFormed(r.value)
    ensures r.Some? ==> Render(r.value) <= url
    ensures r.Some? ==> |Render(r.value)| == |url| || !IsDigit(url[|Render(r.value)|])
  {
    match SchemeOf(url)
    case None => None
    case Some(secure) =>
      var rest := url[|Scheme(secure)|..];
      var m1 := MatchAfterScheme(secure, rest, true);
      var m := if m1.Some? then m1 else MatchAfterScheme(secure, rest, false);
      if m.Some? then PrefixThenPrefix(Scheme(secure), Covered(m.value), url); m else None
  }

  /** A prefix of the text followed by a prefix of what remains is a prefix. */
  lemma PrefixThenPrefix(p: string, q: string, url: string)
    requires p <= url && q <= url[|p|..]
    ensures p + q <= url
    ensures |p + q| < |url| ==> url[|p + q|] == url[|p|..][|q|]
  {
    assert url == p + url[|p|..];
    assert url[|p|..] == q + url[|p|..][|q|..];
  }

  /** The pair `parse_story_url` returns; None stands for `(None, None)`. */
  datatype StoryLink = StoryLink(account: string, storyId: nat)

  function ParseStoryUrl(url: string): (r: Option<StoryLink>)
    ensures r.None? <==> MatchStoryUrl(url).None?
    ensures r.Some? ==> |r.value.account| > 0 && AllWord(r.value.account)
    ensures r.Some? ==> var m := MatchStoryUrl(url).value;
      r.value == StoryLink(m.account, DigitsValue(m.digits))
  {
    match MatchStoryUrl(url)
    case None => None
    case Some(m) => Some(StoryLink(m.account, DigitsValue(m.digits)))
  }

  lemma {:induction false} WordRunOfConcat(w: string, t: string)
    requires AllWord(w)
    requires |t| == 0 || !IsWordChar(t[0])
    ensures WordRun(w + t) == |w|
  {
    if |w| > 0 {
      assert (w + t)[1..] == w[1..] + t;
      WordRunOfConcat(w[1..], t);
    }
  }

  lemma {:induction false} DigitRunOfConcat(w: string, t: string)
    requires AllDigits(w)
    requires |t| == 0 || !IsDigit(t[0])
    ensures DigitRun(w + t) == |w|
  {
    if |w| > 0 {
      assert (w + t)[1..] == w[1..] + t;
      DigitRunOfConcat(w[1..], t);
    }
  }

  lemma SchemeOfRendered(secure: bool, t: string)
    ensures SchemeOf(Scheme(secure) + t) == Some(secure)
  {
    var url := Scheme(secure) + t;
    if !secure {
      assert url[4] == ':';
      assert !("https://t.me/" <= url);
      assert url[..12] == "http://t.me/";
    } else {
      assert url[..13] == "https://t.me/";
    }
  }

  /** The successful path of MatchAfterScheme, unfolded once. */
  lemma MatchAfterSchemeOn(secure: bool, rest: string, storyForm: bool, a: nat, ds: string, d: nat)
    requires WordRun(rest) == a > 0
    requires Separator(storyForm) <= rest[a..] && ds == rest[a..][|Separator(storyForm)|..]
    requires DigitRun(ds) == d > 0
    ensures MatchAfterScheme(secure, rest, storyForm) == Some(UrlMatch(secure, rest[..a], storyForm, ds[..d]))
  {
  }

  /** The account run of a rendered link ends at the separator. */
  lemma AccountRun(m: UrlMatch, rest: string)
    requires WellFormed(m)
    ensures var after := Covered(m) + rest;
      WordRun(after) == |m.account| && after[..|m.account|] == m.account
      && after[|m.account|..] == Separator(m.storyForm) + (m.digits + rest)
  {
    var after := Covered(m) + rest;
    var tail := Separator(m.storyForm) + m.digits + rest;
    assert after == m.account + tail;
    WordRunOfConcat(m.account, tail);
  }

  /** The digit run of a rendered link is its digits group. */
  lemma DigitsGroup(m: UrlMatch, rest: string)
    requires WellFormed(m)
    requires |rest| == 0 || !IsDigit(rest[0])
    ensures DigitRun(m.digits + rest) == |m.digits| && (m.digits + rest)[..|m.digits|] == m.digits
  {
    DigitRunOfConcat(m.digits, rest);
  }

  /** After the scheme, the pattern of the link's own form matches it. */
  lemma AfterSchemeRendered(m: UrlMatch, rest: string)
    requires WellFormed(m)
    requires |rest| == 0 || !IsDigit(rest[0])
    ensures MatchAfterScheme(m.secure, Covered(m) + rest, m.storyForm) == Some(m)
  {
    var sep := Separator(m.storyForm);
    var after := Covered(m) + rest;
    var ds := m.digits + rest;
    AccountRun(m, rest);
    assert (sep + ds)[|sep|..] == ds;
    DigitsGroup(m, rest);
    MatchAfterSchemeOn(m.secure, after, m.storyForm, |m.account|, ds, |m.digits|);
  }

  /** A plain-form link never matches the `/s/` pattern: a digit, not `s`,
      follows the slash after the account. */
  lemma PlainIsNotStoryForm(m: UrlMatch, rest: string)
    requires WellFormed(m) && !m.storyForm
    ensures MatchAfterScheme(m.secure, Covered(m) + rest, true).None?
  {
    var tail := "/" + m.digits + rest;
    var after := Covered(m) + rest;
    assert after == m.account + tail;
    WordRunOfConcat(m.account, tail);
    assert after[|m.account|..] == tail;
    assert tail[1] == m.digits[0];
  }

  /** Every well-formed link is recognised, whatever follows it (as long as
      the digit run ends there), and the `/s/` form is never mistaken for the
      plain one nor the other way round. Together with the postconditions of
      MatchStoryUrl: a text is recognised exactly when it starts with a
      well-formed link, and None is returned otherwise. */
  lemma MatchRendered(m: UrlMatch, rest: string)
    requires WellFormed(m)
    requires |rest| == 0 || !IsDigit(rest[0])
    ensures MatchStoryUrl(Render(m) + rest) == Some(m)
    ensures ParseStoryUrl(Render(m) + rest) == Some(StoryLink(m.account, DigitsValue(m.digits)))
  {
    var after := Covered(m) + rest;
    var url := Render(m) + rest;
    assert url == Scheme(m.secure) + after;
    SchemeOfRendered(m.secure, after);
    assert url[|Scheme(m.secure)|..] == after;
    MatchStoryUrlOn(url, m.secure, after);
    AfterSchemeRendered(m, rest);
    if !m.storyForm {
      PlainIsNotStoryForm(m, rest);
    }
  }

  /** MatchStoryUrl once the scheme is known. */
  lemma MatchStoryUrlOn(url: string, secure: bool, after: string)
    requires SchemeOf(url) == Some(secure) && url[|Scheme(secure)|..] == after
    ensures var m1 := MatchAfterScheme(secure, after, true);
      MatchStoryUrl(url) == if m1.Some? then m1 else MatchAfterScheme(secure, after, false)
  {
  }

  /** A link of the `/s/` form. */
  lemma ExampleStoryForm()
    ensures ParseStoryUrl("https://t.me/news_24/s/123") == Some(StoryLink("news_24", 123))
  {
    var m := UrlMatch(true, "news_24", true, "123");
    assert WellFormed(m);
    assert "https://t.me/news_24/s/123" == Render(m) + "";
    MatchRendered(m, "");
    ValueOf123();
  }

  lemma ValueOf123()
    ensures DigitsValue("123") == 123
  {
    assert "123"[..2] == "12" && "12"[..1] == "1" && "1"[..0] == "";
  }

  /** A plain link followed by a query string. */
  lemma ExamplePlainForm()
    ensures ParseStoryUrl("http://t.me/news/45?x") == Some(StoryLink("news", 45))
  {
    var m := UrlMatch(false, "news", false, "45");
    assert WellFormed(m);
    assert "http://t.me/news/45?x" == Render(m) + "?x";
    MatchRendered(m, "?x");
    ValueOf45();
  }

  lemma ValueOf45()
    ensures DigitsValue("45") == 45
  {
    assert "45"[..1] == "4" && "4"[..0] == "";
  }

  /** Without a scheme nothing is recognised. */
  lemma ExampleNoScheme()
    ensures ParseStoryUrl("t.me/news/s/1") == None
  {
    var url := "t.me/news/s/1";
    assert url[0] == 't';
    assert !("https://t.me/" <= url) && !("http://t.me/" <= url);
  }
}
