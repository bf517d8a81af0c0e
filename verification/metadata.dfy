/** Reading the page title and description back out of generated HTML, and
    the defaults each endpoint falls back to when they are missing. */
module Metadata {
  import opened Js
  import opened Regex

  const TitleOpen: string := "<title>"
  const TitleClose: string := "</title>"

  /** What `(.*?)` between `<title>` and `</title>` can capture: one line
      holding no closing tag in any letter case */
  predicate IsTitleText(v: string) {
    && (forall k :: 0 <= k < |v| ==> !IsLineTerminator(v[k]))
    && (forall k :: 0 <= k < |v| ==> !AtCI(v, k, TitleClose))
  }

  /** `html.match(/<title>(.*?)<\/title>/i)`, with its capture group */
  function ExtractTitle(html: string): (r: Option<string>)
    ensures r.Some? ==> IsTitleText(r.value)
    ensures r.None? <==> NoMatchIn(Of(TitleLazy), html, |html|)
  {
    match FindFirst(Of(TitleLazy), html)
    case None => None
    case Some(f) =>
      TitleCaptureIsTitleText(html, f);
      Some(Capture(html, f))
  }

  lemma TitleCaptureIsTitleText(html: string, f: Found)
    requires f.start < |html| && MatchHere(TitleLazy, html[f.start..]) == Some(f.m)
    ensures IsTitleText(Capture(html, f))
  {
    var t := html[f.start..];
    TitleMatchShape(t, f.m);
    assert Capture(html, f) == t[7..f.m.groupEnd];
    LazyGroupIsTitleText(t, f.m.groupEnd);
  }

  /** A title match captures from just after `<title>` up to the lazy stop */
  lemma TitleMatchShape(t: string, m: Match)
    requires MatchHere(TitleLazy, t) == Some(m)
    ensures 7 <= |t| && m.groupStart == 7 && LazyToCI(t, 7, TitleClose) == Some(m.groupEnd)
  {
  }

  /** What the lazy group skips over is title text */
  lemma LazyGroupIsTitleText(t: string, j: nat)
    requires 7 <= |t| && LazyToCI(t, 7, TitleClose) == Some(j)
    ensures j <= |t| && IsTitleText(t[7..j])
  {
    var v := t[7..j];
    forall k | 0 <= k < |v| ensures !IsLineTerminator(v[k]) && !AtCI(v, k, TitleClose) {
      assert v[k] == t[7 + k];
      AtCIInSlice(t, 7, j, k, TitleClose);
    }
  }

  /** An occurrence inside a slice is an occurrence in the whole */
  lemma AtCIInSlice(t: string, i: nat, j: nat, k: nat, lit: string)
    requires i <= j <= |t|
    ensures AtCI(t[i..j], k, lit) ==> AtCI(t, i + k, lit)
  {
    if AtCI(t[i..j], k, lit) {
      forall d | 0 <= d < |lit| ensures EqCI(t[i + k + d], lit[d]) {
        assert t[i..j][k + d] == t[i + k + d];
      }
    }
  }

  /** Prefixing text moves every occurrence by its length */
  lemma AtCIShift(x: string, y: string, k: nat, lit: string)
    ensures AtCI(x + y, |x| + k, lit) == AtCI(y, k, lit)
  {
    if |x| + k + |lit| <= |x + y| {
      forall d | 0 <= d < |lit| ensures EqCI((x + y)[|x| + k + d], lit[d]) == EqCI(y[k + d], lit[d]) { }
    }
  }

  /** A literal matched against itself, whatever the letter case */
  lemma AtCIExact(x: string, lit: string, y: string)
    ensures AtCI(x + lit + y, |x|, lit)
  {
    forall d | 0 <= d < |lit| ensures EqCI((x + lit + y)[|x| + d], lit[d]) {
      assert (x + lit + y)[|x| + d] == lit[d];
    }
  }

  lemma TitleTagsOpenOnce()
    ensures forall d :: 0 < d < |TitleOpen| ==> TitleOpen[d] != '<'
    ensures forall d :: 0 < d < |TitleClose| ==> TitleClose[d] != '<'
  {
    forall d | 0 < d < |TitleOpen| ensures TitleOpen[d] != '<' {
      assert d in {1, 2, 3, 4, 5, 6};
    }
    forall d | 0 < d < |TitleClose| ensures TitleClose[d] != '<' {
      assert d in {1, 2, 3, 4, 5, 6, 7};
    }
  }

  /** Writing a title into a page and reading it back gives the title, when
      no `<title>` tag (in any letter case) comes before it */
  lemma TitleRoundTrip(pre: string, title: string, post: string)
    requires forall k :: 0 <= k < |pre| ==> !AtCI(pre, k, TitleOpen)
    requires IsTitleText(title)
    ensures ExtractTitle(pre + TitleOpen + title + TitleClose + post) == Some(title)
  {
    var rest := TitleOpen + title + TitleClose + post;
    var s := pre + rest;
    assert s == pre + TitleOpen + title + TitleClose + post;
    NoTitleTagBefore(pre, rest);
    TitleMatchesAtTag(title, post);
    var m := Match(|title| + 15, 7, |title| + 7);
    FindFirstAfter(Of(TitleLazy), pre, rest, m);
    assert Capture(s, Found(|pre|, m)) == title by {
      assert s[|pre| + 7..|pre| + 7 + |title|] == title;
    }
  }

  /** No title match starts inside a prefix free of `<title>` tags when a tag
      follows it */
  lemma NoTitleTagBefore(pre: string, rest: string)
    requires forall k :: 0 <= k < |pre| ==> !AtCI(pre, k, TitleOpen)
    requires |rest| > 0 && rest[0] == '<'
    ensures NoMatchIn(Of(TitleLazy), pre + rest, |pre|)
  {
    var s := pre + rest;
    TitleTagsOpenOnce();
    NoTagStraddle(pre, rest, TitleOpen);
    forall k | 0 <= k < |pre| ensures MatchHere(TitleLazy, s[k..]).None? {
      AtCIInSlice(s, k, |s|, 0, TitleOpen);
      assert s[k..|s|] == s[k..];
    }
  }

  /** The lazy group stops at the first closing tag */
  lemma TitleMatchesAtTag(title: string, post: string)
    requires IsTitleText(title)
    ensures MatchHere(TitleLazy, TitleOpen + title + TitleClose + post)
      == Some(Match(|title| + 15, 7, |title| + 7))
  {
    var rest := TitleOpen + title + TitleClose + post;
    var e := 7 + |title|;
    TitleOpensText(title, post);
    ClosingTagFirst(title, post);
    TitleLineFree(title, post);
    LazyStopsAtFirst(rest, 7, e, TitleClose);
    TitleLazyShape(rest, e);
  }

  /** The pattern's two steps put together: the opening tag, then the lazy
      group up to e */
  lemma TitleLazyShape(t: string, e: nat)
    requires 7 <= |t| && AtCI(t, 0, TitleOpen) && LazyToCI(t, 7, TitleClose) == Some(e)
    ensures MatchHere(TitleLazy, t) == Some(Match(e + 8, 7, e))
  {
  }

  lemma TitleOpensText(title: string, post: string)
    ensures AtCI(TitleOpen + title + TitleClose + post, 0, TitleOpen)
  {
    var tail := title + TitleClose + post;
    AtCIExact("", TitleOpen, tail);
    assert "" + TitleOpen + tail == TitleOpen + title + TitleClose + post;
  }

  lemma TitleLineFree(title: string, post: string)
    requires IsTitleText(title)
    ensures 7 + |title| <= |TitleOpen + title + TitleClose + post|
    ensures NoTerminator(TitleOpen + title + TitleClose + post, 7, 7 + |title|)
  {
    var rest := TitleOpen + title + TitleClose + post;
    forall k | 7 <= k < 7 + |title| ensures !IsLineTerminator(rest[k]) {
      assert rest[k] == title[k - 7];
    }
  }

  /** `(.*?)lit` stops at the first occurrence of lit on the same line */
  lemma LazyStopsAtFirst(t: string, i: nat, e: nat, lit: string)
    requires i <= e <= |t| && |lit| > 0 && !IsLineTerminator(lit[0])
    requires AtCI(t, e, lit) && NoTerminator(t, i, e)
    requires forall k :: i <= k < e ==> !AtCI(t, k, lit)
    ensures LazyToCI(t, i, lit) == Some(e)
  {
  }

  lemma ClosingTagFirst(title: string, post: string)
    requires IsTitleText(title)
    ensures var rest := TitleOpen + title + TitleClose + post;
      && AtCI(rest, 7 + |title|, TitleClose)
      && forall k :: 7 <= k < 7 + |title| ==> !AtCI(rest, k, TitleClose)
  {
    AtCIExact(TitleOpen + title, TitleClose, post);
    TitleTagsOpenOnce();
    NoLitInside(TitleOpen, title, TitleClose + post, TitleClose);
    assert TitleOpen + title + (TitleClose + post) == TitleOpen + title + TitleClose + post;
  }

  /** A literal absent from v, starting with the only '<' it holds, does not
      occur inside v wherever v is placed, when a tag follows it */
  lemma NoLitInside(x: string, v: string, z: string, lit: string)
    requires |z| > 0 && z[0] == '<'
    requires forall d :: 0 < d < |lit| ==> lit[d] != '<'
    requires forall k :: 0 <= k < |v| ==> !AtCI(v, k, lit)
    ensures forall k :: |x| <= k < |x| + |v| ==> !AtCI(x + v + z, k, lit)
  {
    NoTagStraddle(v, z, lit);
    assert x + v + z == x + (v + z);
    forall k | |x| <= k < |x| + |v| ensures !AtCI(x + (v + z), k, lit) {
      AtCIShift(x, v + z, k - |x|, lit);
    }
  }

  /** What `(.*?)` between the quotes of `content="..."` can capture */
  predicate IsDescriptionText(v: string) {
    forall k :: 0 <= k < |v| ==> !IsQuote(v[k]) && !IsLineTerminator(v[k])
  }

  /**
    `html.match(/<meta\s+name=["']description["']\s+content=["'](.*?)["']/i)`,
    with its capture group
  */
  function ExtractDescription(html: string): (r: Option<string>)
    ensures r.Some? ==> IsDescriptionText(r.value)
    ensures r.None? <==> NoMatchIn(Of(MetaDescription), html, |html|)
  {
    match FindFirst(Of(MetaDescription), html)
    case None => None
    case Some(f) =>
      CaptureChars(html, f);
      Some(Capture(html, f))
  }

  const MetaOpen: string := "<meta"
  /** The tag as the prompts ask the model to write it, up to the opening
      quote of the content attribute */
  const DescriptionTag: string := "<meta name=\"description\" content=\""

  /** `(.*?)["']` stops at the first quote on the same line */
  lemma LazyQuoteStopsAtFirst(t: string, i: nat, e: nat)
    requires i <= e < |t| && IsQuote(t[e]) && NoTerminator(t, i, e)
    requires forall k :: i <= k < e ==> !IsQuote(t[k])
    ensures LazyToQuote(t, i) == Some(e)
  {
  }

  lemma MetaOpenOnce()
    ensures forall d :: 0 < d < |MetaOpen| ==> MetaOpen[d] != '<'
  {
    forall d | 0 < d < |MetaOpen| ensures MetaOpen[d] != '<' {
      assert d in {1, 2, 3, 4};
    }
  }

  /** The fixed part of the tag satisfies every step of the pattern up to
      the lazy group */
  lemma DescriptionTagHead(tail: string)
    ensures |DescriptionTag| == 34
    ensures var t := DescriptionTag + tail;
      && AtCI(t, 0, MetaOpen) && IsSpace(t[5]) && SkipSpaces(t, 5) == 6
      && AtCI(t, 6, "name=") && IsQuote(t[11]) && AtCI(t, 12, "description")
      && IsQuote(t[23]) && IsSpace(t[24]) && SkipSpaces(t, 24) == 25
      && AtCI(t, 25, "content=") && IsQuote(t[33])
  {
    var t := DescriptionTag + tail;
    TagPunctuation();
    TagOpens();
    TagNames();
    TagDescribes();
    TagContents();
    AtCIPrefix(DescriptionTag, tail, 0, MetaOpen);
    AtCIPrefix(DescriptionTag, tail, 6, "name=");
    AtCIPrefix(DescriptionTag, tail, 12, "description");
    AtCIPrefix(DescriptionTag, tail, 25, "content=");
    assert t[5] == ' ' && t[6] == 'n' && t[11] == '"' && t[23] == '"';
    assert t[24] == ' ' && t[25] == 'c' && t[33] == '"';
  }

  /** An occurrence that ends inside a prefix is one in the prefix */
  lemma AtCIPrefix(x: string, y: string, i: nat, lit: string)
    requires i + |lit| <= |x|
    ensures AtCI(x + y, i, lit) == AtCI(x, i, lit)
  {
    forall d | 0 <= d < |lit| ensures EqCI((x + y)[i + d], lit[d]) == EqCI(x[i + d], lit[d]) { }
  }

  /** The spaces and quotes between the words of the tag */
  lemma TagPunctuation()
    ensures |DescriptionTag| == 34
    ensures DescriptionTag[5] == ' ' && DescriptionTag[6] == 'n'
    ensures DescriptionTag[11] == '"' && DescriptionTag[23] == '"'
    ensures DescriptionTag[24] == ' ' && DescriptionTag[25] == 'c' && DescriptionTag[33] == '"'
  {
  }

  lemma TagOpens()
    ensures AtCI(DescriptionTag, 0, MetaOpen)
  {
    forall k | 0 <= k < 5 ensures EqCI(DescriptionTag[k], MetaOpen[k]) {
      assert k in {0, 1, 2, 3, 4};
    }
  }

  lemma TagNames()
    ensures AtCI(DescriptionTag, 6, "name=")
  {
    forall k | 0 <= k < 5 ensures EqCI(DescriptionTag[6 + k], "name="[k]) {
      assert k in {0, 1, 2, 3, 4};
    }
  }

  lemma TagDescribes()
    ensures AtCI(DescriptionTag, 12, "description")
  {
    forall k | 0 <= k < 11 ensures EqCI(DescriptionTag[12 + k], "description"[k]) {
      assert k in {0, 1, 2, 3, 4, 5, 6, 7, 8, 9, 10};
    }
  }

  lemma TagContents()
    ensures AtCI(DescriptionTag, 25, "content=")
  {
    forall k | 0 <= k < 8 ensures EqCI(DescriptionTag[25 + k], "content="[k]) {
      assert k in {0, 1, 2, 3, 4, 5, 6, 7};
    }
  }

  /** The description pattern matches the tag the prompts ask for, and its
      group is everything up to the closing quote */
  lemma DescriptionMatchesAtTag(desc: string, post: string)
    requires IsDescriptionText(desc)
    ensures MatchHere(MetaDescription, DescriptionTag + desc + "\"" + post)
      == Some(Match(|desc| + 35, 34, |desc| + 34))
  {
    var tail := desc + "\"" + post;
    var t := DescriptionTag + tail;
    assert t == DescriptionTag + desc + "\"" + post;
    DescriptionTagHead(tail);
    var e := 34 + |desc|;
    assert t[e] == tail[|desc|] == '"';
    forall k | 34 <= k < e ensures !IsQuote(t[k]) && !IsLineTerminator(t[k]) {
      assert t[k] == tail[k - 34] == desc[k - 34];
    }
    LazyQuoteStopsAtFirst(t, 34, e);
  }

  /** Writing a description tag into a page and reading it back gives the
      description, when no `<meta` tag (in any letter case) comes before it */
  lemma DescriptionRoundTrip(pre: string, desc: string, post: string)
    requires forall k :: 0 <= k < |pre| ==> !AtCI(pre, k, MetaOpen)
    requires IsDescriptionText(desc)
    ensures ExtractDescription(pre + DescriptionTag + desc + "\"" + post) == Some(desc)
  {
    var rest := DescriptionTag + desc + "\"" + post;
    var s := pre + rest;
    assert s == pre + DescriptionTag + desc + "\"" + post;
    NoDescriptionTagBefore(pre, rest);
    DescriptionMatchesAtTag(desc, post);
    var m := Match(|desc| + 35, 34, |desc| + 34);
    FindFirstAfter(Of(MetaDescription), pre, rest, m);
    assert Capture(s, Found(|pre|, m)) == desc by {
      assert s[|pre| + 34..|pre| + 34 + |desc|] == desc;
    }
  }

  lemma NoDescriptionTagBefore(pre: string, rest: string)
    requires forall k :: 0 <= k < |pre| ==> !AtCI(pre, k, MetaOpen)
    requires |rest| > 0 && rest[0] == '<'
    ensures NoMatchIn(Of(MetaDescription), pre + rest, |pre|)
  {
    var s := pre + rest;
    MetaOpenOnce();
    NoTagStraddle(pre, rest, MetaOpen);
    forall k | 0 <= k < |pre| ensures MatchHere(MetaDescription, s[k..]).None? {
      AtCIInSlice(s, k, |s|, 0, MetaOpen);
      assert s[k..|s|] == s[k..];
    }
  }

  /** `html.match(/<title[^>]*>([^<]+)<\/title>/i)` on the Express server: a
      non-empty group free of `<` */
  function ExtractServerTitle(html: string): (r: Option<string>)
    ensures r.Some? ==> |r.value| > 0 && '<' !in r.value
    ensures r.None? <==> NoMatchIn(Of(ServerTitle), html, |html|)
  {
    match FindFirst(Of(ServerTitle), html)
    case None => None
    case Some(f) =>
      CaptureChars(html, f);
      Some(Capture(html, f))
  }

  /** `html.match(/<meta[^>]*name="description"[^>]*content="([^"]+)"/i)` on
      the Express server: a non-empty group free of double quotes */
  function ExtractServerDescription(html: string): (r: Option<string>)
    ensures r.Some? ==> |r.value| > 0 && '"' !in r.value
    ensures r.None? <==> NoMatchIn(Of(ServerDescription), html, |html|)
  {
    match FindFirst(Of(ServerDescription), html)
    case None => None
    case Some(f) =>
      CaptureChars(html, f);
      Some(Capture(html, f))
  }

  /** The server's title pattern reads back a non-empty, `<`-free title,
      when no `<title` (in any letter case) comes before it */
  lemma ServerTitleRoundTrip(pre: string, title: string, post: string)
    requires forall k :: 0 <= k < |pre| ==> !AtCI(pre, k, "<title")
    requires |title| > 0 && '<' !in title
    ensures ExtractServerTitle(pre + TitleOpen + title + TitleClose + post) == Some(title)
  {
    var rest := TitleOpen + title + TitleClose + post;
    var s := pre + rest;
    assert s == pre + TitleOpen + title + TitleClose + post;
    NoServerTitleTagBefore(pre, rest);
    ServerTitleMatchesAtTag(title, post);
    var m := Match(|title| + 15, 7, |title| + 7);
    FindFirstAfter(Of(ServerTitle), pre, rest, m);
    assert Capture(s, Found(|pre|, m)) == title by {
      assert s[|pre| + 7..|pre| + 7 + |title|] == title;
    }
  }

  lemma NoServerTitleTagBefore(pre: string, rest: string)
    requires forall k :: 0 <= k < |pre| ==> !AtCI(pre, k, "<title")
    requires |rest| > 0 && rest[0] == '<'
    ensures NoMatchIn(Of(ServerTitle), pre + rest, |pre|)
  {
    var s := pre + rest;
    forall d | 0 < d < 6 ensures "<title"[d] != '<' {
      assert d in {1, 2, 3, 4, 5};
    }
    NoTagStraddle(pre, rest, "<title");
    forall k | 0 <= k < |pre| ensures MatchHere(ServerTitle, s[k..]).None? {
      AtCIInSlice(s, k, |s|, 0, "<title");
      assert s[k..|s|] == s[k..];
    }
  }

  lemma ServerTitleMatchesAtTag(title: string, post: string)
    requires |title| > 0 && '<' !in title
    ensures MatchHere(ServerTitle, TitleOpen + title + TitleClose + post)
      == Some(Match(|title| + 15, 7, |title| + 7))
  {
    var t := TitleOpen + title + TitleClose + post;
    TitleOpenFacts(title + TitleClose + post);
    assert TitleOpen + (title + TitleClose + post) == t;
    FirstAngleAfterTitle(title, post);
    AtCIExact(TitleOpen + title, TitleClose, post);
    var e := 7 + |title|;
    assert AtCI(t, e, "</title>");
    assert FindChar(t, '<', 7).GetOr(|t|) == e;
    assert MatchServerTitle(t) == Some(Match(e + 8, 7, e));
  }

  lemma TitleOpenFacts(tail: string)
    ensures AtCI(TitleOpen + tail, 0, "<title") && (TitleOpen + tail)[6] == '>'
    ensures FindChar(TitleOpen + tail, '>', 6) == Some(6)
  {
    var t := TitleOpen + tail;
    forall d | 0 <= d < 6 ensures EqCI(t[d], "<title"[d]) {
      assert "<title"[d] == TitleOpen[d];
    }
  }

  lemma FirstAngleAfterTitle(title: string, post: string)
    requires |title| > 0 && '<' !in title
    ensures FindChar(TitleOpen + title + TitleClose + post, '<', 7) == Some(7 + |title|)
  {
    var t := TitleOpen + title + TitleClose + post;
    var e := 7 + |title|;
    forall k | 7 <= k < e ensures t[k] != '<' {
      assert t[k] == title[k - 7];
    }
    assert t[e] == '<';
    var r := FindChar(t, '<', 7);
    assert r.Some? && r.value <= e;
  }

  /** The server's description pattern reads back a non-empty description
      free of `"` from the tag the prompts ask for, when no `<meta` (in any
      letter case) comes before it and the description does not end in `=`
      (otherwise a later `content="` can win the backtracking, as
      `ServerDescriptionLaterContent` shows) */
  lemma ServerDescriptionRoundTrip(pre: string, d: string, post: string)
    requires forall k :: 0 <= k < |pre| ==> !AtCI(pre, k, MetaOpen)
    requires |d| > 0 && '"' !in d && d[|d| - 1] != '='
    ensures ExtractServerDescription(pre + DescriptionTag + d + "\">" + post) == Some(d)
  {
    var rest := DescriptionTag + d + "\">" + post;
    var s := pre + rest;
    assert s == pre + DescriptionTag + d + "\">" + post;
    NoServerDescriptionBefore(pre, rest);
    ServerDescriptionMatchesAtTag(d, post);
    var m := Match(|d| + 35, 34, |d| + 34);
    FindFirstAfter(Of(ServerDescription), pre, rest, m);
    assert Capture(s, Found(|pre|, m)) == d by {
      assert s[|pre| + 34..|pre| + 34 + |d|] == d;
    }
  }

  /** A description ending in `content=`, with another `"` after the tag:
      the second `[^>]*` backtracks only as far as the later `content="`, so
      the server reads back `>` instead */
  lemma ServerDescriptionLaterContent()
    ensures ExtractServerDescription(LaterContentPage) == Some(">")
  {
    var t := LaterContentPage;
    LaterContentChars();
    LaterContentNoName();
    LaterContentNoContent();
    LaterContentFound();
    var m := Match(45, 43, 44);
    assert NameFrom(t, 6, 43) == ContentFrom(t, 24, 43) == Some(m);
    assert MatchServerDescription(t) == Some(m);
    FindFirstAfter(Of(ServerDescription), [], t, m);
    assert [] + t == t;
    assert t[43..44] == ">";
  }

  const LaterContentPage: string := DescriptionTag + "content=" + "\">" + "\""

  lemma LaterContentChars()
    ensures |LaterContentPage| == 45 && LaterContentPage[..34] == DescriptionTag
    ensures LaterContentPage[42] == '"' && LaterContentPage[43] == '>' && LaterContentPage[44] == '"'
    ensures forall k :: 0 <= k < 42 ==> LaterContentPage[k] != '>'
    ensures forall k :: 0 <= k < 42 && LaterContentPage[k] == '"' ==> k == 11 || k == 23 || k == 33
    ensures FindChar(LaterContentPage, '>', 5) == Some(43)
    ensures AtCI(LaterContentPage, 0, MetaOpen)
  {
    var t := LaterContentPage;
    TagQuotes();
    TagOpens();
    AtCIPrefix(DescriptionTag, t[34..], 0, MetaOpen);
    assert DescriptionTag + t[34..] == t;
    forall k | 0 <= k < 42 ensures t[k] != '>' && (t[k] == '"' ==> k == 11 || k == 23 || k == 33) {
      if k < 34 {
        assert t[k] == DescriptionTag[k];
      } else {
        assert t[k] == "content="[k - 34];
        assert k - 34 in {0, 1, 2, 3, 4, 5, 6, 7};
      }
    }
  }

  lemma LaterContentNoName()
    ensures NameFrom(LaterContentPage, 43, 43) == NameFrom(LaterContentPage, 6, 43)
    ensures AtCI(LaterContentPage, 6, "name=\"description\"")
  {
    var t := LaterContentPage;
    LaterContentChars();
    NameAt(t);
    forall i | 6 < i <= 43 ensures !AtCI(t, i, "name=\"description\"") {
      NoNameAt(t, i, 42);
    }
    NameFromSkips(t, 6, 43, 43);
  }

  lemma LaterContentNoContent()
    ensures ContentFrom(LaterContentPage, 24, 43) == ContentFrom(LaterContentPage, 24, 34)
  {
    var t := LaterContentPage;
    LaterContentChars();
    forall i | 34 < i <= 43 ensures !AtCI(t, i, "content=\"") {
      NoLiteralOverGt(t, i, 43, "content=\"");
    }
    ContentFromSkips(t, 24, 34, 43);
  }

  lemma LaterContentFound()
    ensures ContentFrom(LaterContentPage, 24, 34) == Some(Match(45, 43, 44))
  {
    var t := LaterContentPage;
    LaterContentChars();
    forall k | 0 <= k < 9 ensures EqCI(t[34 + k], "content=\""[k]) {
      assert k in {0, 1, 2, 3, 4, 5, 6, 7, 8};
    }
    assert FindChar(t, '"', 43) == Some(44);
  }

  lemma NoServerDescriptionBefore(pre: string, rest: string)
    requires forall k :: 0 <= k < |pre| ==> !AtCI(pre, k, MetaOpen)
    requires |rest| > 0 && rest[0] == '<'
    ensures NoMatchIn(Of(ServerDescription), pre + rest, |pre|)
  {
    var s := pre + rest;
    MetaOpenOnce();
    NoTagStraddle(pre, rest, MetaOpen);
    forall k | 0 <= k < |pre| ensures MatchHere(ServerDescription, s[k..]).None? {
      AtCIInSlice(s, k, |s|, 0, MetaOpen);
      assert s[k..|s|] == s[k..];
    }
  }

  /** Where the tag has `>` and `"`, and the letters that rule out a second
      `name="` inside it */
  lemma TagQuotes()
    ensures '>' !in DescriptionTag
    ensures forall k :: 0 <= k < 34 && DescriptionTag[k] == '"' ==> k == 11 || k == 23 || k == 33
    ensures DescriptionTag[18] == 'p' && DescriptionTag[28] == 't' && DescriptionTag[33] == '"'
  {
    forall k | 0 <= k < 34 && DescriptionTag[k] == '"' ensures k == 11 || k == 23 || k == 33 {
      assert k in {11, 23, 33};
    }
  }

  lemma ServerDescriptionMatchesAtTag(d: string, post: string)
    requires |d| > 0 && '"' !in d && d[|d| - 1] != '='
    ensures MatchHere(ServerDescription, DescriptionTag + d + "\">" + post)
      == Some(Match(|d| + 35, 34, |d| + 34))
  {
    var tail := d + "\">" + post;
    var t := DescriptionTag + tail;
    assert t == DescriptionTag + d + "\">" + post;
    DescriptionTagHead(tail);
    TagQuotes();
    var q := 34 + |d|;
    assert t[q] == '"' && t[q + 1] == '>' && t[q - 1] == d[|d| - 1];
    forall k | 0 <= k < 34 ensures t[k] == DescriptionTag[k] && t[k] != '>' {
    }
    forall k | 34 <= k < q ensures t[k] != '"' {
      assert t[k] == d[k - 34];
    }
    var limit := FindChar(t, '>', 5).GetOr(|t|);
    assert 34 <= limit <= q + 1;
    assert t[..34] == DescriptionTag;
    NameAt(t);
    ContentAt(t, q);
    forall i | 6 < i <= limit ensures !AtCI(t, i, "name=\"description\"") {
      NoNameAt(t, i, q);
    }
    forall i | 25 < i <= limit ensures !AtCI(t, i, "content=\"") {
      NoContentAt(t, i, q);
    }
    ContentFromSkips(t, 24, 25, limit);
    NameFromSkips(t, 6, limit, limit);
  }

  lemma NameAt(t: string)
    requires |t| > 34 && t[..34] == DescriptionTag
    ensures AtCI(t, 6, "name=\"description\"")
  {
    forall k | 0 <= k < 18 ensures EqCI(t[6 + k], "name=\"description\""[k]) {
      assert t[6 + k] == DescriptionTag[6 + k];
      assert k in {0, 1, 2, 3, 4, 5, 6, 7, 8, 9, 10, 11, 12, 13, 14, 15, 16, 17};
    }
  }

  lemma ContentAt(t: string, q: nat)
    requires 34 < q < |t| && t[..34] == DescriptionTag && t[q] == '"'
    requires forall k :: 34 <= k < q ==> t[k] != '"'
    ensures AtCI(t, 25, "content=\"")
    ensures FindChar(t, '"', 34) == Some(q)
  {
    forall k | 0 <= k < 9 ensures EqCI(t[25 + k], "content=\""[k]) {
      assert t[25 + k] == DescriptionTag[25 + k];
      assert k in {0, 1, 2, 3, 4, 5, 6, 7, 8};
    }
  }

  /** The second `[^>]*` backtracks past every index above `mid` where no
      `content="` starts */
  lemma {:induction false} ContentFromSkips(t: string, lo: nat, mid: nat, k: nat)
    requires lo <= mid <= k <= |t|
    requires forall i :: mid < i <= k ==> !AtCI(t, i, "content=\"")
    ensures ContentFrom(t, lo, k) == ContentFrom(t, lo, mid)
    decreases k
  {
    if k > mid {
      ContentFromSkips(t, lo, mid, k - 1);
    }
  }

  /** The first `[^>]*` backtracks past every index above `mid` where no
      `name="description"` starts */
  lemma {:induction false} NameFromSkips(t: string, mid: nat, j: nat, limit: nat)
    requires 5 <= mid <= j <= limit <= |t|
    requires forall i :: mid < i <= j ==> !AtCI(t, i, "name=\"description\"")
    ensures NameFrom(t, j, limit) == NameFrom(t, mid, limit)
    decreases j
  {
    if j > mid {
      NameFromSkips(t, mid, j - 1, limit);
    }
  }

  /** A literal without `>` does not occur over a `>` */
  lemma NoLiteralOverGt(t: string, i: nat, g: nat, lit: string)
    requires i <= g < i + |lit| && g < |t| && t[g] == '>' && '>' !in lit
    ensures !AtCI(t, i, lit)
  {
    assert lit[g - i] in lit;
    assert !EqCI(t[g], lit[g - i]);
  }

  lemma NoContentAt(t: string, k: nat, q: nat)
    requires 25 < k <= q + 1 < |t|
    requires t[q] == '"' && t[q + 1] == '>' && t[q - 1] != '='
    requires forall i :: 0 <= i < q && t[i] == '"' ==> i <= 33
    ensures !AtCI(t, k, "content=\"")
  {
    var lit := "content=\"";
    if k + 8 >= q + 1 {
      NoLiteralOverGt(t, k, q + 1, lit);
    } else if k + 8 < q {
      assert t[k + 8] != '"';
      assert !EqCI(t[k + 8], lit[8]);
    } else {
      assert !EqCI(t[k + 7], lit[7]);
    }
  }

  lemma NoNameAt(t: string, j: nat, q: nat)
    requires 6 < j <= q + 1 < |t| && q >= 34
    requires t[..34] == DescriptionTag && t[q + 1] == '>'
    requires forall i :: 0 <= i < q && t[i] == '"' ==> i == 11 || i == 23 || i == 33
    ensures !AtCI(t, j, "name=\"description\"")
  {
    var lit := "name=\"description\"";
    if j + 17 >= q + 1 {
      NoLiteralOverGt(t, j, q + 1, lit);
    } else if t[j + 5] != '"' {
      assert !EqCI(t[j + 5], lit[5]);
    } else {
      TagQuotes();
      assert j == 18 || j == 28;
      assert t[j] == DescriptionTag[j];
      assert !EqCI(t[j], lit[0]);
    }
  }

  const DefaultTitle: string := "Generated Website"

  /** `titleMatch ? titleMatch[1] : 'Generated Website'`, the title of the
      one-shot and the HTML-step responses */
  function TitleOrDefault(html: string): (r: string)
    ensures !NoMatchIn(Of(TitleLazy), html, |html|) ==> IsTitleText(r)
    ensures NoMatchIn(Of(TitleLazy), html, |html|) ==> r == DefaultTitle
  {
    ExtractTitle(html).GetOr(DefaultTitle)
  }

  /** `titleMatch ? titleMatch[1] : (title || 'Generated Website')`, the
      title of the styling and functionality responses, where `title` comes
      from the request body */
  function TitleOrRequested(html: string, requested: Value): (r: Value)
    ensures !NoMatchIn(Of(TitleLazy), html, |html|) ==> r.Str? && IsTitleText(r.s)
    ensures NoMatchIn(Of(TitleLazy), html, |html|) ==> Truthy(r)
  {
    match ExtractTitle(html)
    case Some(t) => Str(t)
    case None => Or(requested, Str(DefaultTitle))
  }

  /** A page's own title wins over the requested one, even when it is empty:
      the match object is truthy whatever its group holds */
  lemma PageTitleWins(pre: string, title: string, post: string, requested: Value)
    requires forall k :: 0 <= k < |pre| ==> !AtCI(pre, k, TitleOpen)
    requires IsTitleText(title)
    ensures TitleOrRequested(pre + TitleOpen + title + TitleClose + post, requested) == Str(title)
    ensures TitleOrDefault(pre + TitleOpen + title + TitleClose + post) == title
  {
    TitleRoundTrip(pre, title, post);
  }

  /** Without a title tag the requested title is kept when it is truthy */
  lemma RequestedTitleKept(html: string, requested: Value)
    requires NoMatchIn(Of(TitleLazy), html, |html|) && Truthy(requested)
    ensures TitleOrRequested(html, requested) == requested
  {
  }

  /** `descriptionMatch ? descriptionMatch[1] : fallback`, with the fallback of
      the one-shot ('AI-generated website') or the styling step
      ('AI-generated styled website') */
  function DescriptionOr(html: string, fallback: string): (r: string)
    ensures !NoMatchIn(Of(MetaDescription), html, |html|) ==> IsDescriptionText(r)
    ensures NoMatchIn(Of(MetaDescription), html, |html|) ==> r == fallback
  {
    ExtractDescription(html).GetOr(fallback)
  }

  const WebsiteDescriptionDefault: string := "AI-generated website"
  const StyledDescriptionDefault: string := "AI-generated styled website"
  const InteractiveDescriptionDefault: string := "AI-generated interactive website"

  /** `descriptionMatch ? descriptionMatch[1] : (description || 'AI-generated
      interactive website')`, the functionality step's description */
  function DescriptionOrRequested(html: string, requested: Value): (r: Value)
    ensures !NoMatchIn(Of(MetaDescription), html, |html|) ==> r.Str? && IsDescriptionText(r.s)
    ensures NoMatchIn(Of(MetaDescription), html, |html|) ==> Truthy(r)
  {
    match ExtractDescription(html)
    case Some(d) => Str(d)
    case None => Or(requested, Str(InteractiveDescriptionDefault))
  }

  /** A page's own description wins over the requested one */
  lemma PageDescriptionWins(pre: string, desc: string, post: string, requested: Value)
    requires forall k :: 0 <= k < |pre| ==> !AtCI(pre, k, MetaOpen)
    requires IsDescriptionText(desc)
    ensures DescriptionOrRequested(pre + DescriptionTag + desc + "\"" + post, requested) == Str(desc)
    ensures DescriptionOr(pre + DescriptionTag + desc + "\"" + post, StyledDescriptionDefault) == desc
  {
    DescriptionRoundTrip(pre, desc, post);
  }

  /** The Express server's title: `titleMatch ? titleMatch[1] : 'Generated Website'` */
  function ServerTitleOrDefault(html: string): (r: string)
    ensures |r| > 0 && '<' !in r
    ensures ExtractServerTitle(html).None? ==> r == DefaultTitle
    ensures ExtractServerTitle(html).Some? ==> r == ExtractServerTitle(html).value
  {
    ExtractServerTitle(html).GetOr(DefaultTitle)
  }

  const ServerDescriptionLead: string := "AI-generated website based on: "

  /** The Express server's description: the page's, or one naming the prompt */
  function ServerDescriptionOrDefault(html: string, prompt: string): (r: string)
    ensures |r| > 0
    ensures ExtractServerDescription(html).Some? ==> '"' !in r
    ensures ExtractServerDescription(html).Some? ==> r == ExtractServerDescription(html).value
    ensures ExtractServerDescription(html).None? ==> r == ServerDescriptionLead + prompt
  {
    ExtractServerDescription(html).GetOr(ServerDescriptionLead + prompt)
  }
}
