/** The preview panel: `getSafeHtml`, the chain of regular-expression
    replacements that neutralises navigation in generated HTML before it is
    shown in the preview frame, and the clamped loading-step counter. */
module Preview {
  import opened Js
  import opened Regex

  const FormReplacement: string := "<form onsubmit=\"event.preventDefault(); return false;\">"
  const AnchorTemplate: Template := Around("<a ", " onclick=\"event.preventDefault(); return false;\" target=\"_self\">")
  const OpenReplacement: string := "// window.open("
  const HeadReplacement: string := "<head><base href=\"javascript:void(0);\">"

  const GuardLines: seq<string> := [
    "",
    "        <script>",
    "          // Prevent all navigation attempts",
    "          if (typeof window !== 'undefined') {",
    "            window.addEventListener('beforeunload', function(e) {",
    "              e.preventDefault();",
    "              e.returnValue = '';",
    "            });",
    "            ",
    "            // Override navigation methods",
    "            const originalOpen = window.open;",
    "            window.open = function() { return null; };",
    "            ",
    "            // Prevent form submissions from navigating",
    "            document.addEventListener('submit', function(e) {",
    "              e.preventDefault();",
    "              return false;",
    "            });",
    "            ",
    "            // Prevent link clicks from navigating",
    "            document.addEventListener('click', function(e) {",
    "              if (e.target.tagName === 'A' || e.target.closest('a')) {",
    "                e.preventDefault();",
    "                return false;",
    "              }",
    "            });",
    "          }",
    "        </script>"
  ]

  /** The script inserted after the first body tag: its lines, each with its
      indentation, joined by line feeds (the first line is empty, so the
      script starts on a new line) */
  function GuardScript(): string {
    Join(GuardLines, '\n')
  }

  function BasePass(s: string): string {
    ReplaceAll(Of(BaseTag), Lit(""), s)
  }

  function FormPass(s: string): string {
    ReplaceAll(Of(FormTag), Lit(FormReplacement), s)
  }

  function AnchorPass(s: string): string {
    ReplaceAll(Of(AnchorWithHref), AnchorTemplate, s)
  }

  function LocationPass(s: string): string {
    ReplaceAll(Of(LocationWrite("document")), Lit("// document.location"),
      ReplaceAll(Of(LocationWrite("window")), Lit("// window.location"), s))
  }

  function OpenPass(s: string): string {
    ReplaceAll(Of(WindowOpen), Lit(OpenReplacement), s)
  }

  function BodyPass(s: string): string {
    GuardBody(s, GuardScript())
  }

  /** The body pass with the inserted script as a parameter */
  function GuardBody(s: string, script: string): string {
    ReplaceFirst(Of(BodyTag), Around("<body", ">" + script), s)
  }

  function HeadPass(s: string): string {
    ReplaceFirst(Of(HeadTag), Lit(HeadReplacement), s)
  }

  /** Every pass after the removal of base tags, in the order applied */
  function Neutralise(s: string): string {
    HeadPass(BodyPass(OpenPass(LocationPass(AnchorPass(FormPass(s))))))
  }

  /** None of the texts any pass starts its match with occurs, in any case */
  predicate Inert(s: string) {
    forall k :: 0 <= k < |s| ==>
      !AtCI(s, k, "<base") && !AtCI(s, k, "<form") && !AtCI(s, k, "<a")
      && !AtCI(s, k, "window.location") && !AtCI(s, k, "document.location")
      && !AtCI(s, k, "window.open") && !AtCI(s, k, "<body") && !AtCI(s, k, "<head>")
  }

  /** `getSafeHtml`: empty HTML gives the empty string; otherwise base tags
      are removed in one pass and the rest of the chain follows */
  function SafeHtml(html: string): (r: string)
    ensures html == "" ==> r == ""
    ensures Inert(html) ==> r == html
  {
    InertPassUnchanged(html);
    if html == "" then "" else Neutralise(BasePass(html))
  }

  lemma InertPassUnchanged(s: string)
    ensures Inert(s) ==> Neutralise(BasePass(s)) == s
  {
    if Inert(s) {
      InertUnchanged(s);
    }
  }

  /** The literal, up to case, that every match of a sanitiser pattern
      starts with (empty for the patterns the sanitiser does not use) */
  function Head(p: Pattern): string {
    match p
    case BaseTag => "<base"
    case FormTag => "<form"
    case AnchorWithHref => "<a"
    case LocationWrite(host) => host + ".location"
    case WindowOpen => "window.open"
    case BodyTag => "<body"
    case HeadTag => "<head>"
    case _ => ""
  }

  lemma MatchStartsWithHead(p: Pattern, t: string)
    ensures MatchHere(p, t).Some? ==> AtCI(t, 0, Head(p))
  {
  }

  lemma AtCIAtSuffix(s: string, k: nat, lit: string)
    requires k <= |s|
    ensures AtCI(s[k..], 0, lit) <==> AtCI(s, k, lit)
  {
    if AtCI(s, k, lit) {
      forall i | 0 <= i < |lit| ensures EqCI(s[k..][0 + i], lit[i]) {
        assert s[k..][i] == s[k + i];
      }
    }
    if AtCI(s[k..], 0, lit) {
      forall i | 0 <= i < |lit| ensures EqCI(s[k + i], lit[i]) {
        assert s[k..][0 + i] == s[k + i];
      }
    }
  }

  /** A pattern cannot match where its leading literal does not occur */
  lemma NoHeadNoMatch(p: Pattern, s: string, n: nat)
    requires n <= |s|
    requires forall k :: 0 <= k < n ==> !AtCI(s, k, Head(p))
    ensures NoMatchIn(Of(p), s, n)
  {
    forall k | 0 <= k < n ensures MatchHere(p, s[k..]).None? {
      MatchStartsWithHead(p, s[k..]);
      AtCIAtSuffix(s, k, Head(p));
    }
  }

  /** The patterns the sanitiser applies */
  predicate Sanitising(p: Pattern) {
    p in {BaseTag, FormTag, AnchorWithHref, LocationWrite("window"), LocationWrite("document"), WindowOpen, BodyTag, HeadTag}
  }

  lemma InertNoMatch(s: string, p: Pattern)
    requires Inert(s) && Sanitising(p)
    ensures NoMatchIn(Of(p), s, |s|)
  {
    assert "window" + ".location" == "window.location";
    assert "document" + ".location" == "document.location";
    forall k | 0 <= k < |s| ensures !AtCI(s, k, Head(p)) {
    }
    NoHeadNoMatch(p, s, |s|);
  }

  /** Text that holds none of the leading literals passes every pass as it
      came */
  lemma InertUnchanged(s: string)
    requires Inert(s)
    ensures NoMatchIn(Of(BaseTag), s, |s|)
    ensures BasePass(s) == s
    ensures Neutralise(s) == s
  {
    InertNoMatch(s, BaseTag);
    ReplaceAllNoMatch(Of(BaseTag), Lit(""), s);
    InertNoMatch(s, FormTag);
    ReplaceAllNoMatch(Of(FormTag), Lit(FormReplacement), s);
    InertNoMatch(s, AnchorWithHref);
    ReplaceAllNoMatch(Of(AnchorWithHref), AnchorTemplate, s);
    InertNoMatch(s, LocationWrite("window"));
    ReplaceAllNoMatch(Of(LocationWrite("window")), Lit("// window.location"), s);
    InertNoMatch(s, LocationWrite("document"));
    ReplaceAllNoMatch(Of(LocationWrite("document")), Lit("// document.location"), s);
    InertNoMatch(s, WindowOpen);
    ReplaceAllNoMatch(Of(WindowOpen), Lit(OpenReplacement), s);
    InertNoMatch(s, BodyTag);
    ReplaceFirstNoMatch(Of(BodyTag), Around("<body", ">" + GuardScript()), s);
    InertNoMatch(s, HeadTag);
    ReplaceFirstNoMatch(Of(HeadTag), Lit(HeadReplacement), s);
  }

  /** A tag literal opening a tag, then attributes free of '>': the tag
      pattern matches it, with the attributes as its group */
  lemma TagMatch(t: string, attrs: string, rest: string, open: string)
    requires |open| > 0 && |t| == |open| && AtCI(t, 0, open)
    requires '>' !in attrs
    ensures TagToGt(t + attrs + ">" + rest, open) == Some(Match(|open| + |attrs| + 1, |open|, |open| + |attrs|))
  {
    var b := t + attrs + ">" + rest;
    assert AtCI(b, 0, open) by {
      forall i | 0 <= i < |open| ensures EqCI(b[0 + i], open[i]) {
        assert b[i] == t[i];
      }
    }
    var j := |open| + |attrs|;
    assert b[j] == '>';
    forall k | |open| <= k < j ensures b[k] != '>' {
      assert b[k] == attrs[k - |open|];
    }
  }

  /** An occurrence that ends within x is an occurrence in x */
  lemma AtCIWithin(x: string, y: string, k: nat, lit: string)
    ensures k + |lit| <= |x| ==> (AtCI(x + y, k, lit) ==> AtCI(x, k, lit))
  {
    if k + |lit| <= |x| && AtCI(x + y, k, lit) {
      forall i | 0 <= i < |lit| ensures EqCI(x[k + i], lit[i]) {
        assert x[k + i] == (x + y)[k + i];
      }
    }
  }

  /** A case-insensitive spelling of a lower-case tag literal starts with '<' */
  lemma TagStart(t: string, lit: string)
    requires |lit| > 0 && lit[0] == '<' && |t| == |lit| && AtCI(t, 0, lit)
    ensures t[0] == '<'
  {
    assert EqCI(t[0 + 0], lit[0]);
  }

  /** The first opening tag of a five-letter tag pattern, after a prefix
      without its literal: no match before it, and the match spans the tag
      with the attributes as its group */
  lemma FirstTagAt(p: Pattern, a: string, t: string, attrs: string, rest: string)
    requires p == FormTag || p == BodyTag || p == BaseTag
    requires |t| == 5 && AtCI(t, 0, Head(p))
    requires '>' !in attrs
    requires forall k :: 0 <= k < |a| ==> !AtCI(a, k, Head(p))
    ensures NoMatchIn(Of(p), a + (t + attrs + ">" + rest), |a|)
    ensures MatchHere(p, t + attrs + ">" + rest) == Some(Match(|attrs| + 6, 5, 5 + |attrs|))
  {
    var b := t + attrs + ">" + rest;
    TagMatch(t, attrs, rest, Head(p));
    TagStart(t, Head(p));
    NoTagStraddle(a, b, Head(p));
    NoHeadNoMatch(p, a + b, |a|);
  }

  /** Every form opening tag, in any case, becomes the fixed form tag: its
      attributes are dropped and the pass carries on after it */
  lemma FormTagReplaced(a: string, t: string, attrs: string, rest: string)
    requires |t| == 5 && AtCI(t, 0, "<form")
    requires '>' !in attrs
    requires forall k :: 0 <= k < |a| ==> !AtCI(a, k, "<form")
    ensures FormPass(a + (t + attrs + ">" + rest)) == a + FormReplacement + FormPass(rest)
  {
    var b := t + attrs + ">" + rest;
    FirstTagAt(FormTag, a, t, attrs, rest);
    var m := Match(|attrs| + 6, 5, 5 + |attrs|);
    ReplaceAllAtFirst(Of(FormTag), Lit(FormReplacement), a, b, m);
    assert b[m.len..] == rest;
  }

  /** Only the first body tag receives the guard script; its attributes are
      kept and everything after it, later body tags included, is untouched */
  lemma BodyGuardFirst(a: string, t: string, attrs: string, rest: string)
    requires |t| == 5 && AtCI(t, 0, "<body")
    requires '>' !in attrs
    requires forall k :: 0 <= k < |a| ==> !AtCI(a, k, "<body")
    ensures BodyPass(a + (t + attrs + ">" + rest)) == a + "<body" + attrs + ">" + GuardScript() + rest
  {
    BodyScriptFirst(a, t, attrs, rest, GuardScript());
  }

  lemma BodyScriptFirst(a: string, t: string, attrs: string, rest: string, script: string)
    requires |t| == 5 && AtCI(t, 0, "<body")
    requires '>' !in attrs
    requires forall k :: 0 <= k < |a| ==> !AtCI(a, k, "<body")
    ensures GuardBody(a + (t + attrs + ">" + rest), script) == a + "<body" + attrs + ">" + script + rest
  {
    var b := t + attrs + ">" + rest;
    var m := Match(|attrs| + 6, 5, 5 + |attrs|);
    var tpl := Around("<body", ">" + script);
    assert Fits(b, m) && GuardBody(a + b, script) == a + Expand(tpl, b, m) + b[m.len..] by {
      FirstTagAt(BodyTag, a, t, attrs, rest);
      ReplaceFirstAtFirst(Of(BodyTag), tpl, a, b, m);
    }
    BodySlices(t, attrs, rest, script);
  }

  lemma BodySlices(t: string, attrs: string, rest: string, script: string)
    requires |t| == 5
    ensures var b := t + attrs + ">" + rest; var m := Match(|attrs| + 6, 5, 5 + |attrs|);
      Fits(b, m) && b[m.len..] == rest
      && Expand(Around("<body", ">" + script), b, m) == "<body" + attrs + (">" + script)
  {
    var b := t + attrs + ">" + rest;
    assert b[5..5 + |attrs|] == attrs;
    assert b[|attrs| + 6..] == rest;
  }

  /** The base tag is inserted once, right after the first head tag, which
      is written in lower case whatever its spelling was */
  lemma HeadBaseFirst(a: string, t: string, rest: string)
    requires |t| == 6 && AtCI(t, 0, "<head>")
    requires forall k :: 0 <= k < |a| ==> !AtCI(a, k, "<head>")
    ensures HeadPass(a + (t + rest)) == a + HeadReplacement + rest
  {
    var b := t + rest;
    TagStart(t, "<head>");
    NoTagStraddle(a, b, "<head>");
    NoHeadNoMatch(HeadTag, a + b, |a|);
    assert AtCI(b, 0, "<head>") by {
      forall i | 0 <= i < 6 ensures EqCI(b[0 + i], "<head>"[i]) {
        assert b[i] == t[i];
      }
    }
    ReplaceFirstAtFirst(Of(HeadTag), Lit(HeadReplacement), a, b, Match(6, 0, 0));
    assert b[6..] == rest;
  }

  /** A `window.open` call, in any case and with any whitespace before its
      parenthesis, is commented out; the pass carries on after it */
  lemma OpenRewritten(a: string, w: string, sp: string, rest: string)
    requires |w| == 11 && AtCI(w, 0, "window.open")
    requires AllSpace(sp)
    requires forall k :: 0 <= k < |a| ==> !AtCI(a + w, k, "window.open")
    ensures OpenPass(a + (w + sp + "(" + rest)) == a + OpenReplacement + OpenPass(rest)
  {
    var b := w + sp + "(" + rest;
    var s := a + b;
    forall k | 0 <= k < |a| ensures !AtCI(s, k, "window.open") {
      assert s == (a + w) + (sp + "(" + rest);
      AtCIWithin(a + w, sp + "(" + rest, k, "window.open");
    }
    NoHeadNoMatch(WindowOpen, s, |a|);
    assert AtCI(b, 0, "window.open") by {
      forall i | 0 <= i < 11 ensures EqCI(b[0 + i], "window.open"[i]) {
        assert b[i] == w[i];
      }
    }
    var j := SkipSpaces(b, 11);
    forall k | 11 <= k < 11 + |sp| ensures IsSpace(b[k]) {
      assert b[k] == sp[k - 11];
    }
    assert b[11 + |sp|] == '(';
    assert j == 11 + |sp|;
    ReplaceAllAtFirst(Of(WindowOpen), Lit(OpenReplacement), a, b, Match(12 + |sp|, 0, 0));
    assert b[12 + |sp|..] == rest;
  }

  /** One removal pass can leave a base tag behind: deleting the inner tag
      of "<ba<base>se>" joins the outer pieces into "<base>", a new one */
  lemma BaseRemovalLeavesTag()
    ensures BasePass("<ba" + "<base>" + "se>") == "<ba" + "se>"
    ensures MatchHere(BaseTag, "<ba" + "se>") == Some(Match(6, 5, 5))
  {
    var a, t, c := "<ba", "<base", "se>";
    var b := t + "" + ">" + c;
    TagMatch(t, "", c, "<base");
    assert MatchHere(BaseTag, b) == Some(Match(6, 5, 5));
    assert b[6..] == c;
    NoHeadNoMatch(BaseTag, c, 3);
    ReplaceAllNoMatch(Of(BaseTag), Lit(""), c);
    assert BasePass(b) == "" + c;
    forall k | 0 <= k < 3 ensures !AtCI(a + b, k, Head(BaseTag)) {
      if k == 0 {
        assert !EqCI((a + b)[0 + 3], "<base"[3]);
      } else {
        assert !EqCI((a + b)[k + 0], "<base"[0]);
      }
    }
    NoHeadNoMatch(BaseTag, a + b, 3);
    ReplaceAllSkip(Of(BaseTag), Lit(""), a, b);
    InnerTagPieces();
    JoinedHalvesMatch();
  }

  lemma InnerTagPieces()
    ensures "<ba" + ("<base" + "" + ">" + "se>") == "<ba" + "<base>" + "se>"
  {
  }

  lemma JoinedHalvesMatch()
    ensures MatchHere(BaseTag, "<ba" + "se>") == Some(Match(6, 5, 5))
  {
    TagMatch("<base", "", "", "<base");
    assert "<base" + "" + ">" + "" == "<ba" + "se>";
  }

  /** Base-tag removal repeated until no base tag is left */
  function StripBase(s: string): (r: string)
    ensures NoMatchIn(Of(BaseTag), r, |r|)
    ensures |r| <= |s|
    ensures NoMatchIn(Of(BaseTag), s, |s|) ==> r == s
    decreases |s|
  {
    ReplaceAllNoMatch(Of(BaseTag), Lit(""), s);
    if NoMatchIn(Of(BaseTag), s, |s|) then s
    else
      RemovalShrinks(Of(BaseTag), s);
      StripBase(BasePass(s))
  }

  /** `getSafeHtml` with the removal of base tags repeated to a fixed point */
  function SafeHtmlCorrected(html: string): (r: string)
    ensures html == "" ==> r == ""
    ensures Inert(html) ==> r == html
    ensures NoMatchIn(Of(BaseTag), StripBase(html), |StripBase(html)|)
  {
    InertStripUnchanged(html);
    if html == "" then "" else Neutralise(StripBase(html))
  }

  lemma InertStripUnchanged(s: string)
    ensures Inert(s) ==> Neutralise(StripBase(s)) == s
  {
    if Inert(s) {
      InertUnchanged(s);
    }
  }

  /** The corrected removal deletes the tag the single pass leaves behind */
  lemma StripBaseRemovesJoinedTag()
    ensures StripBase("<ba" + "<base>" + "se>") == ""
  {
    FirstRound();
    SecondRound();
  }

  /** The first round of removal leaves the joined tag */
  lemma FirstRound()
    ensures StripBase("<ba" + "<base>" + "se>") == StripBase("<ba" + "se>")
  {
    var s := "<ba" + "<base>" + "se>";
    BaseRemovalLeavesTag();
    ReplaceAllNoMatch(Of(BaseTag), Lit(""), s);
    assert |BasePass(s)| != |s|;
  }

  /** The second round removes it, and nothing is left */
  lemma SecondRound()
    ensures StripBase("<ba" + "se>") == ""
  {
    var t := "<ba" + "se>";
    JoinedTagRemoved();
    ReplaceAllNoMatch(Of(BaseTag), Lit(""), t);
    assert |BasePass(t)| != |t|;
    assert StripBase(t) == StripBase([]);
    assert NoMatchIn(Of(BaseTag), [], 0);
  }

  lemma JoinedTagRemoved()
    ensures BasePass("<ba" + "se>") == []
  {
    var t := "<ba" + "se>";
    JoinedHalvesMatch();
    assert Of(BaseTag)(t) == Some(Match(6, 5, 5));
    assert t[6..] == [];
    assert ReplaceAll(Of(BaseTag), Lit(""), t[6..]) == [];
    assert Expand(Lit(""), t, Match(6, 5, 5)) == [];
  }

  /** The six messages of the loading panel */
  const LoadingSteps: seq<string> := [
    "Analyzing your requirements...",
    "Designing the layout...",
    "Generating HTML & CSS...",
    "Adding animations...",
    "Optimizing for performance...",
    "Finalizing your website..."
  ]

  /** One tick of the step interval: one step on, held at the last message */
  function NextStep(prev: int): (r: int)
    ensures r <= |LoadingSteps| - 1
    ensures prev < |LoadingSteps| - 1 ==> r == prev + 1
    ensures prev >= |LoadingSteps| - 1 ==> r == |LoadingSteps| - 1
  {
    if prev >= |LoadingSteps| - 1 then |LoadingSteps| - 1 else prev + 1
  }

  /** The step shown after n ticks of a generation */
  function StepAfter(n: nat): int {
    if n == 0 then 0 else NextStep(StepAfter(n - 1))
  }

  /** After n ticks the panel shows message min(n, 5): it advances one per
      tick and stays on the last message */
  lemma {:induction false} StepAfterTicks(n: nat)
    ensures StepAfter(n) == if n < |LoadingSteps| - 1 then n else |LoadingSteps| - 1
    ensures 0 <= StepAfter(n) < |LoadingSteps|
  {
    if n > 0 {
      StepAfterTicks(n - 1);
    }
  }
}
