/** The regular expressions the generator applies to model output and to the
    preview HTML, each written out as an explicit matcher with JavaScript's
    semantics: leftmost match, greedy quantifiers with backtracking where the
    pattern needs it, lazy `.*?`, ASCII case folding for the `i` flag, `.`
    never matching a line terminator, and negated classes such as `[^>]`
    matching line terminators. `String.prototype.replace` with and without the
    `g` flag and `String.prototype.match` are the three scanners at the end.

    A matcher looks at a string from its first character only, so whether a
    match starts at index k of s is `MatchHere(p, s[k..])`: none of these
    patterns looks behind its start. */
module Regex {
  import opened Js

  datatype Pattern =
    | FenceHtml              // /```html\n?/
    | Fence                  // /```\n?/
    | BaseTag                // /<base[^>]*>/i
    | FormTag                // /<form[^>]*>/i
    | AnchorWithHref         // /<a\s+([^>]*href\s*=\s*["'][^"']*["'][^>]*)>/i
    | LocationWrite(host: string)  // /window\.location\s*[=\.]/i and /document\.location\s*[=\.]/i
    | WindowOpen             // /window\.open\s*\(/i
    | BodyTag                // /<body([^>]*)>/i
    | HeadTag                // /<head>/i
    | TitleLazy              // /<title>(.*?)<\/title>/i
    | MetaDescription        // /<meta\s+name=["']description["']\s+content=["'](.*?)["']/i
    | ServerTitle            // /<title[^>]*>([^<]+)<\/title>/i
    | ServerDescription      // /<meta[^>]*name="description"[^>]*content="([^"]+)"/i

  /** A match at the start of a string: how many characters it spans and
      where capture group 1 lies (an empty span when the pattern has none) */
  datatype Match = Match(len: nat, groupStart: nat, groupEnd: nat)

  predicate Fits(t: string, m: Match) {
    0 < m.len <= |t| && m.groupStart <= m.groupEnd <= m.len
  }

  /** Case-insensitive occurrence of the lower-case ASCII literal `lit` at index i */
  predicate AtCI(t: string, i: nat, lit: string) {
    i + |lit| <= |t| && forall k :: 0 <= k < |lit| ==> EqCI(t[i + k], lit[k])
  }

  predicate IsQuote(c: char) {
    c == '"' || c == '\''
  }

  /** Greedy `\s*` from i: the index after the run of whitespace */
  function SkipSpaces(t: string, i: nat): (j: nat)
    requires i <= |t|
    ensures i <= j <= |t|
    ensures forall k :: i <= k < j ==> IsSpace(t[k])
    ensures j == |t| || !IsSpace(t[j])
    decreases |t| - i
  {
    if i < |t| && IsSpace(t[i]) then SkipSpaces(t, i + 1) else i
  }

  /** First index at or after i that holds c: the end of a greedy `[^c]*` */
  function FindChar(t: string, c: char, i: nat): (r: Option<nat>)
    requires i <= |t|
    ensures r.Some? ==> i <= r.value < |t| && t[r.value] == c
    ensures forall k :: i <= k < |t| && (r.None? || k < r.value) ==> t[k] != c
    decreases |t| - i
  {
    if i == |t| then None
    else if t[i] == c then Some(i)
    else FindChar(t, c, i + 1)
  }

  /** First index at or after i that holds a quote: the end of `[^"']*` */
  function FindQuote(t: string, i: nat): (r: Option<nat>)
    requires i <= |t|
    ensures r.Some? ==> i <= r.value < |t| && IsQuote(t[r.value])
    ensures forall k :: i <= k < |t| && (r.None? || k < r.value) ==> !IsQuote(t[k])
    decreases |t| - i
  {
    if i == |t| then None
    else if IsQuote(t[i]) then Some(i)
    else FindQuote(t, i + 1)
  }

  predicate NoTerminator(t: string, i: nat, j: nat)
    requires i <= j <= |t|
  {
    forall k :: i <= k < j ==> !IsLineTerminator(t[k])
  }

  /** Lazy `(.*?)` from i followed by the literal `lit`: the first index where
      `lit` occurs, provided no line terminator comes before it */
  function LazyToCI(t: string, i: nat, lit: string): (r: Option<nat>)
    requires i <= |t|
    requires |lit| > 0 && !IsLineTerminator(lit[0])
    ensures r.Some? ==> i <= r.value && AtCI(t, r.value, lit) && NoTerminator(t, i, r.value)
    ensures r.Some? ==> forall k :: i <= k < r.value ==> !AtCI(t, k, lit)
    ensures r.None? ==> forall j :: i <= j <= |t| && AtCI(t, j, lit) ==> !NoTerminator(t, i, j)
    decreases |t| - i
  {
    if AtCI(t, i, lit) then Some(i)
    else if i == |t| || IsLineTerminator(t[i]) then None
    else LazyToCI(t, i + 1, lit)
  }

  /** Lazy `(.*?)` from i followed by `["']`: the first quote, provided no line
      terminator comes before it */
  function LazyToQuote(t: string, i: nat): (r: Option<nat>)
    requires i <= |t|
    ensures r.Some? ==> i <= r.value < |t| && IsQuote(t[r.value]) && NoTerminator(t, i, r.value)
    ensures r.Some? ==> forall k :: i <= k < r.value ==> !IsQuote(t[k])
    ensures r.None? ==> forall j :: i <= j < |t| && IsQuote(t[j]) ==> !NoTerminator(t, i, j)
    decreases |t| - i
  {
    if i == |t| then None
    else if IsQuote(t[i]) then Some(i)
    else if IsLineTerminator(t[i]) then None
    else LazyToQuote(t, i + 1)
  }

  /** `\n?`: one if a newline follows, else zero */
  function OptNewline(t: string, i: nat): nat {
    if i < |t| && t[i] == '\n' then 1 else 0
  }

  /** `<name[^>]*>` with `[^>]*` as group 1 */
  function TagToGt(t: string, open: string): (r: Option<Match>)
    requires |open| > 0
    ensures r.Some? ==> Fits(t, r.value)
  {
    if !AtCI(t, 0, open) then None
    else match FindChar(t, '>', |open|)
      case None => None
      case Some(j) => Some(Match(j + 1, |open|, j))
  }

  /** `href\s*=\s*["'][^"']*["'][^>]*>` from p: the index of the closing `>` */
  function HrefRest(t: string, p: nat): (r: Option<nat>)
    requires p <= |t|
    ensures r.Some? ==> p < r.value < |t| && t[r.value] == '>'
  {
    if !AtCI(t, p, "href") then None
    else
      var q := SkipSpaces(t, p + 4);
      if !(q < |t| && t[q] == '=') then None
      else
        var v := SkipSpaces(t, q + 1);
        if !(v < |t| && IsQuote(t[v])) then None
        else match FindQuote(t, v + 1)
          case None => None
          case Some(c) => FindChar(t, '>', c + 1)
  }

  /** Backtracking of the first `[^>]*` of the anchor pattern: the longest
      prefix first, so candidate starts of `href` are tried from p down to g */
  function AnchorFrom(t: string, g: nat, p: nat): (r: Option<Match>)
    requires g <= p <= |t|
    ensures r.Some? ==> Fits(t, r.value) && r.value.groupStart == g
    decreases p - g
  {
    match HrefRest(t, p)
    case Some(e) => Some(Match(e + 1, g, e))
    case None => if p == g then None else AnchorFrom(t, g, p - 1)
  }

  /** `<a\s+(...)>`: `\s+` is effectively greedy, since the group's leading
      `[^>]*` can only absorb whitespace that `href` cannot start on */
  function MatchAnchor(t: string): (r: Option<Match>)
    ensures r.Some? ==> Fits(t, r.value)
  {
    if !(AtCI(t, 0, "<a") && 2 < |t| && IsSpace(t[2])) then None
    else
      var g := SkipSpaces(t, 2);
      var limit := FindChar(t, '>', g).GetOr(|t|);
      AnchorFrom(t, g, limit)
  }

  /** `<literal>\s*` followed by one character satisfying `close` */
  function LiteralSpacesThen(t: string, lit: string, close: char -> bool): (r: Option<Match>)
    requires |lit| > 0
    ensures r.Some? ==> Fits(t, r.value)
  {
    if !AtCI(t, 0, lit) then None
    else
      var j := SkipSpaces(t, |lit|);
      if j < |t| && close(t[j]) then Some(Match(j + 1, 0, 0)) else None
  }

  function MatchMetaDescription(t: string): (r: Option<Match>)
    ensures r.Some? ==> Fits(t, r.value)
    ensures r.Some? ==> forall k :: r.value.groupStart <= k < r.value.groupEnd ==>
      !IsQuote(t[k]) && !IsLineTerminator(t[k])
  {
    if !(AtCI(t, 0, "<meta") && 5 < |t| && IsSpace(t[5])) then None
    else
      var a := SkipSpaces(t, 5);
      if !(AtCI(t, a, "name=") && a + 5 < |t| && IsQuote(t[a + 5]) && AtCI(t, a + 6, "description")
           && a + 18 < |t| && IsQuote(t[a + 17]) && IsSpace(t[a + 18])) then None
      else
        var b := SkipSpaces(t, a + 18);
        if !(AtCI(t, b, "content=") && b + 8 < |t| && IsQuote(t[b + 8])) then None
        else match LazyToQuote(t, b + 9)
          case None => None
          case Some(e) => Some(Match(e + 1, b + 9, e))
  }

  function MatchServerTitle(t: string): (r: Option<Match>)
    ensures r.Some? ==> Fits(t, r.value)
    ensures r.Some? ==> r.value.groupStart < r.value.groupEnd
    ensures r.Some? ==> forall k :: r.value.groupStart <= k < r.value.groupEnd ==> t[k] != '<'
  {
    if !AtCI(t, 0, "<title") then None
    else match FindChar(t, '>', 6)
      case None => None
      case Some(j) =>
        var k := FindChar(t, '<', j + 1).GetOr(|t|);
        if k > j + 1 && AtCI(t, k, "</title>") then Some(Match(k + 8, j + 1, k)) else None
  }

  /** The group `([^"]+)`: non-empty and free of double quotes */
  predicate GroupAvoidsDoubleQuote(t: string, m: Match)
    requires Fits(t, m)
  {
    m.groupStart < m.groupEnd && forall k :: m.groupStart <= k < m.groupEnd ==> t[k] != '"'
  }

  /** `content="([^"]+)"` tried at k, k-1, ..., lo (the second `[^>]*` backtracking) */
  function ContentFrom(t: string, lo: nat, k: nat): (r: Option<Match>)
    requires lo <= k <= |t|
    ensures r.Some? ==> Fits(t, r.value) && GroupAvoidsDoubleQuote(t, r.value)
    decreases k - lo
  {
    var here :=
      if AtCI(t, k, "content=\"") then
        (match FindChar(t, '"', k + 9)
         case Some(e) => if e > k + 9 then Some(Match(e + 1, k + 9, e)) else None
         case None => None)
      else None;
    if here.Some? then here
    else if k == lo then None
    else ContentFrom(t, lo, k - 1)
  }

  /** `name="description"` tried at j, j-1, ..., 5 (the first `[^>]*` backtracking);
      both `[^>]*` stay left of `limit`, the first `>` after `<meta` */
  function NameFrom(t: string, j: nat, limit: nat): (r: Option<Match>)
    requires 5 <= j <= limit <= |t|
    ensures r.Some? ==> Fits(t, r.value) && GroupAvoidsDoubleQuote(t, r.value)
    decreases j
  {
    var here :=
      if AtCI(t, j, "name=\"description\"") && j + 18 <= limit then ContentFrom(t, j + 18, limit)
      else None;
    if here.Some? then here
    else if j == 5 then None
    else NameFrom(t, j - 1, limit)
  }

  function MatchServerDescription(t: string): (r: Option<Match>)
    ensures r.Some? ==> Fits(t, r.value) && GroupAvoidsDoubleQuote(t, r.value)
  {
    if !AtCI(t, 0, "<meta") then None
    else
      var limit := FindChar(t, '>', 5).GetOr(|t|);
      NameFrom(t, limit, limit)
  }

  predicate IsAssignOrDot(c: char) { c == '=' || c == '.' }
  predicate IsOpenParen(c: char) { c == '(' }

  /** Whether pattern p matches at the start of t, and how */
  function MatchHere(p: Pattern, t: string): (r: Option<Match>)
    ensures r.Some? ==> Fits(t, r.value)
  {
    match p
    case FenceHtml => if At(t, 0, "```html") then Some(Match(7 + OptNewline(t, 7), 0, 0)) else None
    case Fence => if At(t, 0, "```") then Some(Match(3 + OptNewline(t, 3), 0, 0)) else None
    case BaseTag => TagToGt(t, "<base")
    case FormTag => TagToGt(t, "<form")
    case AnchorWithHref => MatchAnchor(t)
    case LocationWrite(host) => LiteralSpacesThen(t, host + ".location", IsAssignOrDot)
    case WindowOpen => LiteralSpacesThen(t, "window.open", IsOpenParen)
    case BodyTag => TagToGt(t, "<body")
    case HeadTag => if AtCI(t, 0, "<head>") then Some(Match(6, 0, 0)) else None
    case TitleLazy =>
      if !AtCI(t, 0, "<title>") then None
      else (match LazyToCI(t, 7, "</title>")
        case None => None
        case Some(j) => Some(Match(j + 8, 7, j)))
    case MetaDescription => MatchMetaDescription(t)
    case ServerTitle => MatchServerTitle(t)
    case ServerDescription => MatchServerDescription(t)
  }

  /** A pattern as the scanners see it: whether it matches at the start of
      a text, and how */
  type Matcher = string -> Option<Match>

  /** Every match a matcher reports fits the text it was found in */
  ghost predicate Sound(f: Matcher) {
    forall t :: f(t).Some? ==> Fits(t, f(t).value)
  }

  /** The matcher of pattern p */
  function Of(p: Pattern): (f: Matcher)
    ensures Sound(f)
    ensures forall t :: f(t) == MatchHere(p, t)
  {
    t => MatchHere(p, t)
  }

  /** No match starts at any index below n */
  predicate NoMatchIn(f: Matcher, s: string, n: nat)
    requires n <= |s|
  {
    forall k :: 0 <= k < n ==> f(s[k..]).None?
  }

  /** A replacement string: a literal, or literal text around `$1` */
  datatype Template = Lit(text: string) | Around(before: string, after: string)

  function Expand(tpl: Template, t: string, m: Match): string
    requires Fits(t, m)
  {
    match tpl
    case Lit(x) => x
    case Around(b, a) => b + t[m.groupStart..m.groupEnd] + a
  }

  /** `s.replace(/p/g, tpl)`: every leftmost, non-overlapping match replaced */
  function ReplaceAll(f: Matcher, tpl: Template, s: string): string
    requires Sound(f)
    decreases |s|
  {
    if |s| == 0 then []
    else match f(s)
      case Some(m) => Expand(tpl, s, m) + ReplaceAll(f, tpl, s[m.len..])
      case None => [s[0]] + ReplaceAll(f, tpl, s[1..])
  }

  /** `s.replace(/p/, tpl)`: only the leftmost match replaced */
  function ReplaceFirst(f: Matcher, tpl: Template, s: string): string
    requires Sound(f)
    decreases |s|
  {
    if |s| == 0 then []
    else match f(s)
      case Some(m) => Expand(tpl, s, m) + s[m.len..]
      case None => [s[0]] + ReplaceFirst(f, tpl, s[1..])
  }

  datatype Found = Found(start: nat, m: Match)

  /** `s.match(/p/)`: the leftmost match, if any */
  function FindFirst(f: Matcher, s: string): (r: Option<Found>)
    ensures r.Some? ==> r.value.start < |s| && f(s[r.value.start..]) == Some(r.value.m)
    ensures r.Some? ==> NoMatchIn(f, s, r.value.start)
    ensures r.None? ==> NoMatchIn(f, s, |s|)
  {
    FindFrom(f, s, 0)
  }

  function FindFrom(f: Matcher, s: string, i: nat): (r: Option<Found>)
    requires i <= |s|
    requires NoMatchIn(f, s, i)
    ensures r.Some? ==> i <= r.value.start < |s| && f(s[r.value.start..]) == Some(r.value.m)
    ensures r.Some? ==> NoMatchIn(f, s, r.value.start)
    ensures r.None? ==> NoMatchIn(f, s, |s|)
    decreases |s| - i
  {
    if i == |s| then None
    else match f(s[i..])
      case Some(m) => Some(Found(i, m))
      case None => FindFrom(f, s, i + 1)
  }

  /** Capture group 1 of a match found in s */
  function Capture(s: string, f: Found): string
    requires f.start <= |s| && Fits(s[f.start..], f.m)
  {
    s[f.start + f.m.groupStart..f.start + f.m.groupEnd]
  }

  /** The captured text, character by character, is the group of the match */
  lemma CaptureChars(s: string, f: Found)
    requires f.start <= |s| && Fits(s[f.start..], f.m)
    ensures |Capture(s, f)| == f.m.groupEnd - f.m.groupStart
    ensures forall k :: 0 <= k < |Capture(s, f)| ==> Capture(s, f)[k] == s[f.start..][f.m.groupStart + k]
  {
  }

  lemma ReplaceAllUnmatched(f: Matcher, tpl: Template, s: string)
    requires Sound(f)
    requires |s| > 0 && f(s).None?
    ensures ReplaceAll(f, tpl, s) == [s[0]] + ReplaceAll(f, tpl, s[1..])
  {
  }

  lemma NoMatchInTail(f: Matcher, a: string, b: string)
    requires |a| > 0 && NoMatchIn(f, a + b, |a|)
    ensures NoMatchIn(f, a[1..] + b, |a| - 1)
  {
    forall k | 0 <= k < |a| - 1 ensures f((a[1..] + b)[k..]).None? {
      assert (a[1..] + b)[k..] == (a + b)[k + 1..];
    }
  }

  /** One step through a match-free prefix of a global replace */
  lemma ReplaceAllCons(f: Matcher, tpl: Template, a: string, b: string)
    requires Sound(f)
    requires |a| > 0 && NoMatchIn(f, a + b, |a|)
    ensures ReplaceAll(f, tpl, a + b) == [a[0]] + ReplaceAll(f, tpl, a[1..] + b)
    ensures NoMatchIn(f, a[1..] + b, |a| - 1)
  {
    var s := a + b;
    assert s[0..] == s;
    assert s[1..] == a[1..] + b;
    NoMatchInTail(f, a, b);
  }

  /** One step through a match-free prefix of a single replace */
  lemma ReplaceFirstCons(f: Matcher, tpl: Template, a: string, b: string)
    requires Sound(f)
    requires |a| > 0 && NoMatchIn(f, a + b, |a|)
    ensures ReplaceFirst(f, tpl, a + b) == [a[0]] + ReplaceFirst(f, tpl, a[1..] + b)
    ensures NoMatchIn(f, a[1..] + b, |a| - 1)
  {
    var s := a + b;
    assert s[0..] == s;
    assert s[1..] == a[1..] + b;
    NoMatchInTail(f, a, b);
  }

  /** Where no match starts inside a, a global replace copies a unchanged */
  lemma {:induction false} ReplaceAllSkip(f: Matcher, tpl: Template, a: string, b: string)
    requires Sound(f)
    requires NoMatchIn(f, a + b, |a|)
    ensures ReplaceAll(f, tpl, a + b) == a + ReplaceAll(f, tpl, b)
    decreases |a|
  {
    if |a| == 0 {
      assert a + b == b;
    } else {
      ReplaceAllCons(f, tpl, a, b);
      ReplaceAllSkip(f, tpl, a[1..], b);
      var r := ReplaceAll(f, tpl, b);
      assert [a[0]] + (a[1..] + r) == ([a[0]] + a[1..]) + r;
      assert a == [a[0]] + a[1..];
    }
  }

  /** Where no match starts inside a, a first-match replace copies a unchanged */
  lemma {:induction false} ReplaceFirstSkip(f: Matcher, tpl: Template, a: string, b: string)
    requires Sound(f)
    requires NoMatchIn(f, a + b, |a|)
    ensures ReplaceFirst(f, tpl, a + b) == a + ReplaceFirst(f, tpl, b)
    decreases |a|
  {
    if |a| == 0 {
      assert a + b == b;
    } else {
      ReplaceFirstCons(f, tpl, a, b);
      ReplaceFirstSkip(f, tpl, a[1..], b);
      var r := ReplaceFirst(f, tpl, b);
      assert [a[0]] + (a[1..] + r) == ([a[0]] + a[1..]) + r;
      assert a == [a[0]] + a[1..];
    }
  }

  /** A global replace leaves a text in which nothing matches unchanged */
  lemma ReplaceAllNoMatch(f: Matcher, tpl: Template, s: string)
    requires Sound(f)
    ensures NoMatchIn(f, s, |s|) ==> ReplaceAll(f, tpl, s) == s
  {
    if NoMatchIn(f, s, |s|) {
      assert s + "" == s;
      ReplaceAllSkip(f, tpl, s, "");
    }
  }

  /** A single replace leaves a text in which nothing matches unchanged */
  lemma ReplaceFirstNoMatch(f: Matcher, tpl: Template, s: string)
    requires Sound(f)
    ensures NoMatchIn(f, s, |s|) ==> ReplaceFirst(f, tpl, s) == s
  {
    if NoMatchIn(f, s, |s|) {
      assert s + "" == s;
      ReplaceFirstSkip(f, tpl, s, "");
    }
  }

  /** With the first match just past a match-free prefix, a global replace
      keeps the prefix, expands that match and carries on after it */
  lemma ReplaceAllAtFirst(f: Matcher, tpl: Template, a: string, b: string, m: Match)
    requires Sound(f)
    requires NoMatchIn(f, a + b, |a|)
    requires f(b) == Some(m)
    ensures Fits(b, m)
    ensures ReplaceAll(f, tpl, a + b) == a + Expand(tpl, b, m) + ReplaceAll(f, tpl, b[m.len..])
  {
    ReplaceAllSkip(f, tpl, a, b);
    ReplaceAllMatched(f, tpl, b, m);
    Regroup(a, Expand(tpl, b, m), ReplaceAll(f, tpl, b[m.len..]));
  }

  lemma Regroup(a: string, e: string, rest: string)
    ensures a + (e + rest) == a + e + rest
  {
  }

  /** A global replace on a text that starts with a match */
  lemma ReplaceAllMatched(f: Matcher, tpl: Template, b: string, m: Match)
    requires Sound(f) && f(b) == Some(m)
    ensures Fits(b, m)
    ensures ReplaceAll(f, tpl, b) == Expand(tpl, b, m) + ReplaceAll(f, tpl, b[m.len..])
  {
    assert Fits(b, f(b).value);
  }

  /** With the first match just past a match-free prefix, a single replace
      keeps the prefix, expands that match and leaves the rest untouched */
  lemma ReplaceFirstAtFirst(f: Matcher, tpl: Template, a: string, b: string, m: Match)
    requires Sound(f)
    requires NoMatchIn(f, a + b, |a|)
    requires f(b) == Some(m)
    ensures Fits(b, m)
    ensures ReplaceFirst(f, tpl, a + b) == a + Expand(tpl, b, m) + b[m.len..]
  {
    ReplaceFirstSkip(f, tpl, a, b);
    assert Fits(b, f(b).value);
    assert ReplaceFirst(f, tpl, b) == Expand(tpl, b, m) + b[m.len..];
    Regroup(a, Expand(tpl, b, m), b[m.len..]);
  }

  /** Deleting every match never lengthens a string, and shortens it
      whenever there is a match */
  lemma {:induction false} RemovalShrinks(f: Matcher, s: string)
    requires Sound(f)
    ensures |ReplaceAll(f, Lit(""), s)| <= |s|
    ensures !NoMatchIn(f, s, |s|) ==> |ReplaceAll(f, Lit(""), s)| < |s|
    decreases |s|
  {
    assert s[0..] == s;
    if |s| > 0 {
      match f(s)
      case Some(m) =>
        RemovalShrinks(f, s[m.len..]);
      case None =>
        RemovalShrinks(f, s[1..]);
        if !NoMatchIn(f, s, |s|) {
          var k :| 0 <= k < |s| && f(s[k..]).Some?;
          assert s[1..][k - 1..] == s[k..];
        }
    }
  }

  /** The leftmost match is the first one past a match-free prefix */
  lemma FindFirstAfter(f: Matcher, a: string, b: string, m: Match)
    requires Sound(f)
    requires NoMatchIn(f, a + b, |a|)
    requires f(b) == Some(m)
    ensures FindFirst(f, a + b) == Some(Found(|a|, m))
  {
    var s := a + b;
    assert s[|a|..] == b;
  }

  /** A literal whose only `<` is its first character (every HTML tag the
      patterns name) cannot occur across the end of a prefix that lacks it
      when the text after that prefix starts with `<` */
  lemma NoTagStraddle(a: string, rest: string, lit: string)
    requires |rest| > 0 && rest[0] == '<'
    requires forall d :: 0 < d < |lit| ==> lit[d] != '<'
    requires forall k :: 0 <= k < |a| ==> !AtCI(a, k, lit)
    ensures forall k :: 0 <= k < |a| ==> !AtCI(a + rest, k, lit)
  {
    var s := a + rest;
    forall k | 0 <= k < |a| ensures !AtCI(s, k, lit) {
      if k + |lit| <= |a| {
        if AtCI(s, k, lit) {
          forall i | 0 <= i < |lit| ensures EqCI(a[k + i], lit[i]) {
            assert a[k + i] == s[k + i];
          }
          assert AtCI(a, k, lit);
        }
      } else {
        var d := |a| - k;
        assert s[k + d] == '<';
        assert !EqCI(s[k + d], lit[d]);
      }
    }
  }
}
